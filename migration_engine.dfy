// The migration engine: a registry of schema migrations keyed by version, the
// version the database is at (read lazily from the migration history table and
// then cached), applying the pending migrations in ascending order, and rolling
// back in descending order. Running a migration's own `Up`/`Down` is outside
// the model: its outcome is a parameter giving the exception message, if any.

module MigrationEngines {
  import opened Common
  import opened Linq

  /** The schema version this build of the application expects. */
  const LatestVersion: int := 1

  /** `IMigration`, by its version, name and description. */
  datatype Migration = Migration(version: int, name: string, description: string)

  /** A row of `MigrationHistories` (its time stamp and duration are left out). */
  datatype HistoryEntry = HistoryEntry(version: int, name: string, description: string, isSuccessful: bool,
                                       errorMessage: Option<string>)

  /** The migration every engine registers at construction. */
  const InitialMigration: Migration := Migration(1, "InitialCreate", "creates the initial database tables")

  predicate DistinctVersions(ms: seq<Migration>) {
    forall i, j :: 0 <= i < j < |ms| ==> ms[i].version != ms[j].version
  }

  predicate Ascending(ms: seq<Migration>) {
    forall i, j :: 0 <= i < j < |ms| ==> ms[i].version < ms[j].version
  }

  predicate Descending(ms: seq<Migration>) {
    forall i, j :: 0 <= i < j < |ms| ==> ms[i].version > ms[j].version
  }

  function Version(m: Migration): int { m.version }

  // ---------------------------------------------------------------------------
  // Registration
  // ---------------------------------------------------------------------------

  /** In a list of distinct versions, a sublist of the tail, with the head in
    * front, still has distinct versions. */
  lemma HeadVersionUnique(ms: seq<Migration>, rest: seq<Migration>)
    requires ms != [] && forall x :: x in rest ==> x in ms[1..]
    ensures DistinctVersions(ms) && DistinctVersions(rest) ==> DistinctVersions([ms[0]] + rest)
  {
    if DistinctVersions(ms) && DistinctVersions(rest) {
      forall x | x in rest ensures x.version != ms[0].version {
        var k :| 0 <= k < |ms[1..]| && ms[1..][k] == x;
        assert ms[k + 1] == x;
      }
      var r := [ms[0]] + rest;
      forall i, j | 0 <= i < j < |r| ensures r[i].version != r[j].version {
        if i == 0 {
          assert r[j] in rest;
        } else {
          assert r[i] == rest[i - 1] && r[j] == rest[j - 1];
        }
      }
    }
  }

  /** `_migrations.RemoveAll(m => m.Version == version)`. */
  function WithoutVersion(ms: seq<Migration>, version: int): (r: seq<Migration>)
    ensures forall x :: x in r <==> x in ms && x.version != version
    ensures DistinctVersions(ms) ==> DistinctVersions(r)
  {
    if ms == [] then []
    else
      var rest := WithoutVersion(ms[1..], version);
      HeadVersionUnique(ms, rest);
      if ms[0].version == version then rest else [ms[0]] + rest
  }

  /** `RegisterMigration`: a migration replaces any registered one of the same
    * version and goes last. */
  function Registered(ms: seq<Migration>, m: Migration): (r: seq<Migration>)
    ensures forall x :: x in r <==> x == m || (x in ms && x.version != m.version)
    ensures DistinctVersions(ms) ==> DistinctVersions(r)
    ensures |r| > 0 && r[|r| - 1] == m
  {
    WithoutVersion(ms, m.version) + [m]
  }

  // ---------------------------------------------------------------------------
  // Selection and ordering
  // ---------------------------------------------------------------------------

  /** `Where(keep)` over migrations. */
  function KeepBetween(ms: seq<Migration>, low: int, high: Option<int>): (r: seq<Migration>)
    ensures forall x :: x in r <==> x in ms && low < x.version && (high.Some? ==> x.version <= high.value)
    ensures DistinctVersions(ms) ==> DistinctVersions(r)
  {
    if ms == [] then []
    else
      var rest := KeepBetween(ms[1..], low, high);
      HeadVersionUnique(ms, rest);
      if low < ms[0].version && (high.Some? ==> ms[0].version <= high.value) then [ms[0]] + rest else rest
  }

  lemma CountedOnce(s: seq<Migration>, x: Migration)
    requires DistinctVersions(s) && x in s
    ensures multiset(s)[x] == 1
  {
    assert s == [s[0]] + s[1..];
    if x == s[0] {
      assert x !in s[1..] by {
        forall k | 0 <= k < |s[1..]| ensures s[1..][k] != x {
          assert s[1..][k] == s[k + 1];
        }
      }
    } else {
      CountedOnce(s[1..], x);
    }
  }

  /** A permutation of migrations with distinct versions has distinct versions. */
  lemma PermutationKeepsDistinct(s: seq<Migration>, r: seq<Migration>)
    requires multiset(r) == multiset(s)
    ensures DistinctVersions(s) ==> DistinctVersions(r)
  {
    forall i, j | 0 <= i < j < |r| && DistinctVersions(s) ensures r[i].version != r[j].version {
      if r[i].version == r[j].version {
        assert r[i] in multiset(s) && r[j] in multiset(s);
        var a :| 0 <= a < |s| && s[a] == r[i];
        var b :| 0 <= b < |s| && s[b] == r[j];
        assert a == b;
        TwiceCounted(r, i, j);
        CountedOnce(s, r[i]);
      }
    }
  }

  lemma SameMembers<T>(a: seq<T>, b: seq<T>)
    requires multiset(a) == multiset(b)
    ensures forall x :: x in a <==> x in b
  {
    forall x ensures x in a <==> x in b {
      assert x in a <==> x in multiset(a);
      assert x in b <==> x in multiset(b);
    }
  }

  lemma SortedDistinctAscending(r: seq<Migration>)
    requires SortedBy(r, ByKey(Version))
    ensures DistinctVersions(r) ==> Ascending(r)
  {
    forall i, j | 0 <= i < j < |r| ensures r[i].version <= r[j].version {
      assert ByKey(Version)(r[i], r[j]);
      assert Version(r[i]) == r[i].version && Version(r[j]) == r[j].version;
    }
  }

  lemma SortedDistinctDescending(r: seq<Migration>)
    requires SortedBy(r, ByKeyDescending(Version))
    ensures DistinctVersions(r) ==> Descending(r)
  {
    forall i, j | 0 <= i < j < |r| ensures r[i].version >= r[j].version {
      assert ByKeyDescending(Version)(r[i], r[j]);
      assert Version(r[i]) == r[i].version && Version(r[j]) == r[j].version;
    }
  }

  /** The migrations newer than `current`, lowest version first. */
  function Pending(ms: seq<Migration>, current: int): (r: seq<Migration>)
    ensures forall x :: x in r <==> x in ms && x.version > current
    ensures DistinctVersions(ms) ==> Ascending(r)
  {
    ByKeyIsPreorder(Version);
    var keep := KeepBetween(ms, current, None);
    var r := SortBy(keep, ByKey(Version));
    SameMembers(keep, r);
    PermutationKeepsDistinct(keep, r);
    SortedDistinctAscending(r);
    r
  }

  /** The migrations in `(target, current]`, highest version first. */
  function ToRollBack(ms: seq<Migration>, target: int, current: int): (r: seq<Migration>)
    ensures forall x :: x in r <==> x in ms && target < x.version <= current
    ensures DistinctVersions(ms) ==> Descending(r)
  {
    ByKeyIsPreorder(Version);
    var keep := KeepBetween(ms, target, Some(current));
    var r := SortBy(keep, ByKeyDescending(Version));
    SameMembers(keep, r);
    PermutationKeepsDistinct(keep, r);
    SortedDistinctDescending(r);
    r
  }

  // ---------------------------------------------------------------------------
  // The history table
  // ---------------------------------------------------------------------------

  /** The highest successfully applied version in the history, if any. */
  function LatestSuccessful(h: seq<HistoryEntry>): (r: Option<int>)
    ensures r.Some? ==> exists k :: 0 <= k < |h| && h[k].isSuccessful && h[k].version == r.value
    ensures r.Some? ==> forall k :: 0 <= k < |h| && h[k].isSuccessful ==> h[k].version <= r.value
    ensures r.None? ==> forall k :: 0 <= k < |h| ==> !h[k].isSuccessful
  {
    if h == [] then None
    else
      var last := h[|h| - 1];
      var before := LatestSuccessful(h[..|h| - 1]);
      assert forall k :: 0 <= k < |h| - 1 ==> h[k] == h[..|h| - 1][k];
      if !last.isSuccessful then before
      else match before
        case None => Some(last.version)
        case Some(v) => Some(if v < last.version then last.version else v)
  }

  /** `GetCurrentVersionFromDb`: the latest successful version, or 0. */
  function DbVersion(h: seq<HistoryEntry>): int {
    match LatestSuccessful(h)
    case None => 0
    case Some(v) => v
  }

  /** The history row of a migration that ran. */
  function Applied(m: Migration): (h: HistoryEntry)
    ensures h.version == m.version && h.name == m.name && h.isSuccessful && h.errorMessage.None?
  {
    HistoryEntry(m.version, m.name, m.description, true, None)
  }

  /** The history row of a migration whose `Up` failed with `message`. */
  function Failed(m: Migration, message: string): (h: HistoryEntry)
    ensures h.version == m.version && !h.isSuccessful && h.errorMessage == Some(message)
  {
    HistoryEntry(m.version, m.name, m.description, false, Some(message))
  }

  function AppliedAll(ms: seq<Migration>): (r: seq<HistoryEntry>)
    ensures |r| == |ms| && forall k :: 0 <= k < |ms| ==> r[k] == Applied(ms[k])
  {
    seq(|ms|, k requires 0 <= k < |ms| => Applied(ms[k]))
  }

  /** The position of the first migration whose run throws, or the length. */
  function FirstFailure(ms: seq<Migration>, error: Migration -> Option<string>): (n: nat)
    ensures n <= |ms|
    ensures forall k :: 0 <= k < n ==> error(ms[k]).None?
    ensures n < |ms| ==> error(ms[n]).Some?
  {
    if ms == [] then 0
    else if error(ms[0]).Some? then 0
    else 1 + FirstFailure(ms[1..], error)
  }

  /** One successful row above the history's version becomes its version. */
  lemma AppliedRowMovesDbVersion(h: seq<HistoryEntry>, m: Migration)
    requires DbVersion(h) < m.version
    ensures DbVersion(h + [Applied(m)]) == m.version
  {
    var t := h + [Applied(m)];
    assert t[..|t| - 1] == h;
  }

  lemma AppliedAllSnoc(ms: seq<Migration>)
    requires |ms| > 0
    ensures AppliedAll(ms) == AppliedAll(ms[..|ms| - 1]) + [Applied(ms[|ms| - 1])]
  {
  }

  /** Appending the entries of migrations applied in ascending order above the
    * history's version moves that version to the last of them. */
  lemma {:induction false} AppliedMovesDbVersion(h: seq<HistoryEntry>, ms: seq<Migration>)
    requires Ascending(ms) && |ms| > 0 && DbVersion(h) < ms[0].version
    ensures DbVersion(h + AppliedAll(ms)) == ms[|ms| - 1].version
  {
    var n := |ms|;
    var init := ms[..n - 1];
    AppliedAllSnoc(ms);
    assert h + AppliedAll(ms) == (h + AppliedAll(init)) + [Applied(ms[n - 1])];
    if n == 1 {
      assert h + AppliedAll(init) == h;
    } else {
      assert Ascending(init) && init[0] == ms[0];
      AppliedMovesDbVersion(h, init);
      assert ms[n - 2].version < ms[n - 1].version;
    }
    AppliedRowMovesDbVersion(h + AppliedAll(init), ms[n - 1]);
  }

  lemma FailedKeepsDbVersion(h: seq<HistoryEntry>, m: Migration, message: string)
    ensures DbVersion(h + [Failed(m, message)]) == DbVersion(h)
  {
    assert (h + [Failed(m, message)])[..|h|] == h;
  }

  /** `_context.MigrationHistories.Remove` of the first row with a version. */
  function RemoveFirstVersion(h: seq<HistoryEntry>, version: int): (r: seq<HistoryEntry>)
    ensures (forall k :: 0 <= k < |h| ==> h[k].version != version) ==> r == h
  {
    if h == [] then []
    else
      assert h == [h[0]] + h[1..];
      if h[0].version == version then h[1..]
      else
        assert forall k :: 1 <= k < |h| ==> h[k] == h[1..][k - 1];
        [h[0]] + RemoveFirstVersion(h[1..], version)
  }

  /** Removing a version present in the history removes exactly one row, of
    * that version, and adds none. */
  lemma {:induction false} RemoveFirstVersionRemovesOne(h: seq<HistoryEntry>, version: int, k: nat)
    requires k < |h| && h[k].version == version
    ensures |RemoveFirstVersion(h, version)| == |h| - 1
    ensures multiset(RemoveFirstVersion(h, version)) <= multiset(h)
    ensures exists x: HistoryEntry :: x.version == version && multiset(RemoveFirstVersion(h, version)) + multiset{x} == multiset(h)
  {
    assert h == [h[0]] + h[1..];
    if h[0].version == version {
      assert multiset(h[1..]) + multiset{h[0]} == multiset(h);
    } else {
      assert h[1..][k - 1] == h[k];
      RemoveFirstVersionRemovesOne(h[1..], version, k - 1);
      var x: HistoryEntry :| x.version == version && multiset(RemoveFirstVersion(h[1..], version)) + multiset{x} == multiset(h[1..]);
      assert multiset(RemoveFirstVersion(h, version)) + multiset{x} == multiset(h);
    }
  }

  /** The history after removing the rows of the rolled-back migrations in order. */
  function RemoveEach(h: seq<HistoryEntry>, ms: seq<Migration>): (r: seq<HistoryEntry>)
  {
    if ms == [] then h
    else RemoveFirstVersion(RemoveEach(h, ms[..|ms| - 1]), ms[|ms| - 1].version)
  }

  /** Rolling back never adds a history row. */
  lemma {:induction false} RemoveEachShrinks(h: seq<HistoryEntry>, ms: seq<Migration>)
    ensures multiset(RemoveEach(h, ms)) <= multiset(h)
  {
    if ms != [] {
      var before := RemoveEach(h, ms[..|ms| - 1]);
      RemoveEachShrinks(h, ms[..|ms| - 1]);
      var version := ms[|ms| - 1].version;
      if k :| 0 <= k < |before| && before[k].version == version {
        RemoveFirstVersionRemovesOne(before, version, k);
      }
    }
  }

  /** The history rows one migration run adds: a successful row per migration
    * up to the first failure, then the failed row. */
  function MigrationRows(p: seq<Migration>, upError: Migration -> Option<string>): (rows: seq<HistoryEntry>)
    ensures var n := FirstFailure(p, upError);
      rows == AppliedAll(p[..n]) + (if n < |p| then [Failed(p[n], upError(p[n]).value)] else [])
  {
    var n := FirstFailure(p, upError);
    AppliedAll(p[..n]) + (if n < |p| then [Failed(p[n], upError(p[n]).value)] else [])
  }

  lemma PendingAbove(ms: seq<Migration>, current: int)
    requires DistinctVersions(ms)
    ensures Ascending(Pending(ms, current))
    ensures forall k :: 0 <= k < |Pending(ms, current)| ==> Pending(ms, current)[k].version > current
  {
    var p := Pending(ms, current);
    forall k | 0 <= k < |p| ensures p[k].version > current {
      assert p[k] in p;
    }
  }

  /** The loop of `MigrateAsync` over the pending migrations. */
  method ApplyPending(p: seq<Migration>, upError: Migration -> Option<string>) returns (rows: seq<HistoryEntry>, n: nat)
    ensures n == FirstFailure(p, upError)
    ensures rows == MigrationRows(p, upError)
  {
    rows := [];
    for i := 0 to |p|
      invariant rows == AppliedAll(p[..i])
      invariant forall k :: 0 <= k < i ==> upError(p[k]).None?
    {
      match upError(p[i]) {
        case Some(message) =>
          FirstFailureAt(p, upError, i);
          return rows + [Failed(p[i], message)], i;
        case None =>
          assert AppliedAll(p[..i + 1]) == AppliedAll(p[..i]) + [Applied(p[i])];
          rows := rows + [Applied(p[i])];
      }
    }
    FirstFailureAt(p, upError, |p|);
    assert p[..|p|] == p;
    return rows, |p|;
  }

  lemma FirstFailureAt(p: seq<Migration>, error: Migration -> Option<string>, i: nat)
    requires i <= |p| && (forall k :: 0 <= k < i ==> error(p[k]).None?) && (i < |p| ==> error(p[i]).Some?)
    ensures FirstFailure(p, error) == i
  {
    if p != [] && i > 0 {
      FirstFailureAt(p[1..], error, i - 1);
    }
  }

  /** The successful rows of the first `n` migrations of an ascending run
    * above the history's version move it to the last of them. */
  lemma AppliedPrefixMovesDbVersion(h: seq<HistoryEntry>, p: seq<Migration>, n: nat, current: int)
    requires Ascending(p) && DbVersion(h) == current && forall k :: 0 <= k < |p| ==> p[k].version > current
    requires n <= |p|
    ensures DbVersion(h + AppliedAll(p[..n])) == if n == 0 then current else p[n - 1].version
  {
    var q := p[..n];
    if n == 0 {
      assert h + AppliedAll(q) == h;
    } else {
      assert Ascending(q) && q[0] == p[0] && q[n - 1] == p[n - 1];
      AppliedMovesDbVersion(h, q);
    }
  }

  /** A migration run from the history's own version leaves the history at the
    * version of the last migration it applied. */
  lemma MigrationRowsMoveDbVersion(h: seq<HistoryEntry>, p: seq<Migration>, upError: Migration -> Option<string>,
                                   current: int)
    requires Ascending(p) && DbVersion(h) == current && forall k :: 0 <= k < |p| ==> p[k].version > current
    ensures var n := FirstFailure(p, upError);
      DbVersion(h + MigrationRows(p, upError)) == if n == 0 then current else p[n - 1].version
  {
    var n := FirstFailure(p, upError);
    var rows := MigrationRows(p, upError);
    AppliedPrefixMovesDbVersion(h, p, n, current);
    RowsKeepDbVersion(h, rows, n);
  }

  /** Rows after the first `n` leave the version alone when there is at most
    * one more and it failed. */
  lemma RowsKeepDbVersion(h: seq<HistoryEntry>, rows: seq<HistoryEntry>, n: nat)
    requires n <= |rows| <= n + 1 && (n < |rows| ==> !rows[n].isSuccessful)
    ensures DbVersion(h + rows) == DbVersion(h + rows[..n])
  {
    if n < |rows| {
      var t := h + rows;
      assert t[..|t| - 1] == h + rows[..n];
    } else {
      assert rows[..n] == rows;
    }
  }

  /** The loop of `RollbackAsync`. */
  method UndoAll(h0: seq<HistoryEntry>, list: seq<Migration>, downError: Migration -> Option<string>)
    returns (h: seq<HistoryEntry>, n: nat)
    ensures n == FirstFailure(list, downError)
    ensures h == RemoveEach(h0, list[..n])
  {
    h := h0;
    for i := 0 to |list|
      invariant h == RemoveEach(h0, list[..i])
      invariant forall k :: 0 <= k < i ==> downError(list[k]).None?
    {
      if downError(list[i]).Some? {
        FirstFailureAt(list, downError, i);
        return h, i;
      }
      assert list[..i + 1][..i] == list[..i];
      assert RemoveEach(h0, list[..i + 1]) == RemoveFirstVersion(RemoveEach(h0, list[..i]), list[i].version);
      h := RemoveFirstVersion(h, list[i].version);
    }
    FirstFailureAt(list, downError, |list|);
    assert list[..|list|] == list;
    return h, |list|;
  }

  // ---------------------------------------------------------------------------
  // The engine
  // ---------------------------------------------------------------------------

  /** `MigrationEngine`. `cachedVersion` is `_currentVersion`, negative until
    * the version is first read from the history. */
  class MigrationEngine {
    var migrations: seq<Migration>
    var history: seq<HistoryEntry>
    var cachedVersion: int

    predicate Valid()
      reads this`migrations
    {
      DistinctVersions(migrations)
    }

    /** The history table's version agrees with the cached one. */
    predicate Consistent()
      reads this`cachedVersion, this`history
    {
      cachedVersion < 0 || cachedVersion == DbVersion(history)
    }

    constructor(h: seq<HistoryEntry>)
      ensures Valid() && Consistent()
      ensures migrations == [InitialMigration] && history == h && cachedVersion == -1
    {
      migrations := [InitialMigration];
      history := h;
      cachedVersion := -1;
    }

    /** The `CurrentVersion` property. */
    function CurrentVersion(): int
      reads this`cachedVersion, this`history
    {
      if cachedVersion < 0 then DbVersion(history) else cachedVersion
    }

    /** `NeedsMigration`. */
    function NeedsMigration(): (r: bool)
      reads this`cachedVersion, this`history
      ensures r <==> CurrentVersion() < LatestVersion
    {
      CurrentVersion() < LatestVersion
    }

    /** Reading `CurrentVersion`, which caches the history's version. */
    method ReadCurrentVersion() returns (v: int)
      modifies this`cachedVersion
      ensures v == old(CurrentVersion()) && CurrentVersion() == v
      ensures cachedVersion == (if old(cachedVersion) < 0 then DbVersion(history) else old(cachedVersion))
      ensures migrations == old(migrations) && history == old(history)
      ensures old(Consistent()) ==> Consistent()
    {
      if cachedVersion < 0 {
        cachedVersion := DbVersion(history);
      }
      v := cachedVersion;
    }

    /** `RegisterMigration`. */
    method Register(m: Migration)
      requires Valid()
      modifies this`migrations
      ensures Valid() && history == old(history) && cachedVersion == old(cachedVersion)
      ensures migrations == Registered(old(migrations), m)
    {
      migrations := Registered(migrations, m);
    }

    /** `MigrateAsync`: nothing to do at or above the latest version; otherwise
      * the pending migrations run in ascending order, each success recorded
      * and made the current version, and the first failure recorded and
      * returned. */
    method Migrate(upError: Migration -> Option<string>) returns (r: Result<bool>)
      requires Valid()
      modifies this`history, this`cachedVersion
      ensures Valid() && migrations == old(migrations)
      ensures old(CurrentVersion()) >= LatestVersion ==>
        r == Success(true) && history == old(history) && cachedVersion == old(CurrentVersion())
      ensures old(CurrentVersion()) < LatestVersion ==>
        var p := Pending(old(migrations), old(CurrentVersion()));
        var n := FirstFailure(p, upError);
        && cachedVersion == (if n == 0 then old(CurrentVersion()) else p[n - 1].version)
        && history == old(history) + MigrationRows(p, upError)
        && r == (if n == |p| then Success(true)
                 else Failure(Custom("Migration.Failed", "migration " + p[n].name + " failed: " + upError(p[n]).value)))
      ensures cachedVersion >= old(CurrentVersion())
      ensures old(Consistent()) ==> Consistent()
    {
      var current := ReadCurrentVersion();
      if !(current < LatestVersion) {
        return Success(true);
      }
      assert migrations == old(migrations) && current == old(CurrentVersion());
      var p := Pending(migrations, current);
      PendingAbove(migrations, current);
      var n := RunPending(p, current, upError);
      if n < |p| {
        return Failure(Custom("Migration.Failed", "migration " + p[n].name + " failed: " + upError(p[n]).value));
      }
      return Success(true);
    }

    /** The loop of `MigrateAsync` over the pending migrations `p`, all above
      * `current` in ascending order: each success is recorded and made the
      * current version, and the first failure is recorded. */
    method RunPending(p: seq<Migration>, current: int, upError: Migration -> Option<string>) returns (n: nat)
      requires Ascending(p) && forall k :: 0 <= k < |p| ==> p[k].version > current
      requires cachedVersion == current
      modifies this`history, this`cachedVersion
      ensures n == FirstFailure(p, upError)
      ensures history == old(history) + MigrationRows(p, upError)
      ensures cachedVersion == (if n == 0 then current else p[n - 1].version) && cachedVersion >= current
      ensures DbVersion(old(history)) == current ==> DbVersion(history) == cachedVersion
    {
      var rows;
      rows, n := ApplyPending(p, upError);
      if DbVersion(history) == current {
        MigrationRowsMoveDbVersion(history, p, upError, current);
      }
      history := history + rows;
      if n > 0 {
        cachedVersion := p[n - 1].version;
      }
    }

    /** `RollbackAsync`: a negative target, or one not below the current
      * version, is rejected; otherwise the migrations above the target are
      * undone from the highest down, each removing its history row, and the
      * target becomes the current version. A failure stops the rollback and
      * leaves the current version as it was. */
    method RollBack(target: int, downError: Migration -> Option<string>) returns (r: Result<bool>)
      requires Valid()
      modifies this`history, this`cachedVersion
      ensures Valid() && migrations == old(migrations)
      ensures target < 0 ==> r == Failure(Validation("invalid target version")) && unchanged(this)
      ensures 0 <= target && target >= old(CurrentVersion()) ==>
        r == Failure(Validation("the target version must be below the current version")) && history == old(history)
      ensures 0 <= target < old(CurrentVersion()) ==>
        var list := ToRollBack(old(migrations), target, old(CurrentVersion()));
        var n := FirstFailure(list, downError);
        && history == RemoveEach(old(history), list[..n])
        && (n == |list| ==> r == Success(true) && cachedVersion == target)
        && (n < |list| ==>
              && r == Failure(Custom("Migration.RollbackFailed", "rollback failed: " + downError(list[n]).value))
              && cachedVersion == old(CurrentVersion()))
    {
      if target < 0 {
        return Failure(Validation("invalid target version"));
      }
      var current := ReadCurrentVersion();
      if target >= current {
        return Failure(Validation("the target version must be below the current version"));
      }
      var list := ToRollBack(migrations, target, current);
      var h, n := UndoAll(history, list, downError);
      history := h;
      if n < |list| {
        return Failure(Custom("Migration.RollbackFailed", "rollback failed: " + downError(list[n]).value));
      }
      cachedVersion := target;
      return Success(true);
    }
  }
}
