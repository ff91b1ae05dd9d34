// The account service: a user's trading accounts, at most one of which is the
// active default; creation, editing, soft deletion and the choice of default,
// and the per-account summary of balance and win rate shown in the list.

module AccountServices {
  import opened Common
  import opened Domain
  import opened Text
  import opened Linq
  import opened TradeValidators

  datatype AccountUpdateDto = AccountUpdateDto(
    id: int,
    name: string,
    accountType: int,
    brokerName: string,
    accountNumber: Option<string>,
    server: Option<string>,
    initialBalance: real,
    currency: string,
    leverage: int,
    description: Option<string>,
    isDefault: bool,
    isActive: bool)

  // ---------------------------------------------------------------------------
  // Invariants of the stored accounts
  // ---------------------------------------------------------------------------

  predicate UniqueAccountIds(accounts: seq<Account>) {
    forall i, j :: 0 <= i < j < |accounts| ==> accounts[i].id != accounts[j].id
  }

  /** An account both active and marked default. */
  predicate ActiveDefault(a: Account) {
    a.isActive && a.isDefault
  }

  /** No user has two active default accounts. */
  predicate OneActiveDefault(accounts: seq<Account>) {
    forall i, j :: 0 <= i < j < |accounts| && ActiveDefault(accounts[i]) && ActiveDefault(accounts[j]) ==>
      accounts[i].userId != accounts[j].userId
  }

  /** The position of the account with an id (`GetByIdAsync`). */
  function IndexOfAccount(accounts: seq<Account>, id: int): (k: Option<nat>)
    ensures k.Some? ==> k.value < |accounts| && accounts[k.value].id == id
    ensures k.None? ==> forall i :: 0 <= i < |accounts| ==> accounts[i].id != id
  {
    if accounts == [] then None
    else if accounts[0].id == id then Some(0)
    else match IndexOfAccount(accounts[1..], id)
      case None => None
      case Some(k) => Some(k + 1)
  }

  // ---------------------------------------------------------------------------
  // Clearing and choosing the default
  // ---------------------------------------------------------------------------

  /** One account after "make the user's other defaults non-default": a default
    * account of the user, other than `except`, is cleared and stamped. */
  function Cleared(a: Account, userId: int, except: Option<int>, now: int): (r: Account)
    ensures r.id == a.id && r.userId == a.userId && r.isActive == a.isActive
    ensures a.userId == userId && a.isDefault && except != Some(a.id) ==>
      r == a.(isDefault := false, updatedAt := Some(now))
    ensures a.userId != userId || !a.isDefault || except == Some(a.id) ==> r == a
  {
    if a.userId == userId && a.isDefault && except != Some(a.id) then a.(isDefault := false, updatedAt := Some(now))
    else a
  }

  function ClearDefaults(accounts: seq<Account>, userId: int, except: Option<int>, now: int): (r: seq<Account>)
    ensures |r| == |accounts|
    ensures forall i :: 0 <= i < |r| ==> r[i] == Cleared(accounts[i], userId, except, now)
  {
    seq(|accounts|, i requires 0 <= i < |accounts| => Cleared(accounts[i], userId, except, now))
  }

  /** The loop that clears the other defaults in `CreateAsync` and `UpdateAsync`. */
  method ClearDefaultsLoop(accounts: seq<Account>, userId: int, except: Option<int>, now: int)
    returns (r: seq<Account>)
    ensures r == ClearDefaults(accounts, userId, except, now)
  {
    r := accounts;
    for i := 0 to |accounts|
      invariant |r| == |accounts|
      invariant forall j :: 0 <= j < i ==> r[j] == Cleared(accounts[j], userId, except, now)
      invariant forall j :: i <= j < |accounts| ==> r[j] == accounts[j]
    {
      if r[i].userId == userId && r[i].isDefault && except != Some(r[i].id) {
        r := r[i := r[i].(isDefault := false, updatedAt := Some(now))];
      }
    }
  }

  /** After clearing, the user has no default account other than `except`. */
  lemma {:induction false} ClearedLeavesNoOtherDefault(accounts: seq<Account>, userId: int, except: Option<int>, now: int)
    ensures var r := ClearDefaults(accounts, userId, except, now);
      forall i :: 0 <= i < |r| && r[i].userId == userId && r[i].isDefault ==> except == Some(r[i].id)
    ensures OneActiveDefault(accounts) ==> OneActiveDefault(ClearDefaults(accounts, userId, except, now))
  {
    var r := ClearDefaults(accounts, userId, except, now);
    forall i | 0 <= i < |r| && r[i].userId == userId && r[i].isDefault ensures except == Some(r[i].id) {
      assert r[i] == Cleared(accounts[i], userId, except, now);
    }
    if OneActiveDefault(accounts) {
      forall i, j | 0 <= i < j < |r| && ActiveDefault(r[i]) && ActiveDefault(r[j]) ensures r[i].userId != r[j].userId {
        assert r[i] == Cleared(accounts[i], userId, except, now);
        assert r[j] == Cleared(accounts[j], userId, except, now);
      }
    }
  }

  /** One account after the loop of `SetDefaultAsync`: each active account of the
    * user becomes default exactly when it is the chosen one, and is stamped. */
  function Marked(a: Account, userId: int, accountId: int, now: int): (r: Account)
    ensures r.id == a.id && r.userId == a.userId && r.isActive == a.isActive
    ensures a.userId == userId && a.isActive ==> r == a.(isDefault := a.id == accountId, updatedAt := Some(now))
    ensures a.userId != userId || !a.isActive ==> r == a
  {
    if a.userId == userId && a.isActive then a.(isDefault := a.id == accountId, updatedAt := Some(now)) else a
  }

  function MarkDefault(accounts: seq<Account>, userId: int, accountId: int, now: int): (r: seq<Account>)
    ensures |r| == |accounts|
    ensures forall i :: 0 <= i < |r| ==> r[i] == Marked(accounts[i], userId, accountId, now)
  {
    seq(|accounts|, i requires 0 <= i < |accounts| => Marked(accounts[i], userId, accountId, now))
  }

  method MarkDefaultLoop(accounts: seq<Account>, userId: int, accountId: int, now: int) returns (r: seq<Account>)
    ensures r == MarkDefault(accounts, userId, accountId, now)
  {
    r := accounts;
    for i := 0 to |accounts|
      invariant |r| == |accounts|
      invariant forall j :: 0 <= j < i ==> r[j] == Marked(accounts[j], userId, accountId, now)
      invariant forall j :: i <= j < |accounts| ==> r[j] == accounts[j]
    {
      if r[i].userId == userId && r[i].isActive {
        r := r[i := r[i].(isDefault := r[i].id == accountId, updatedAt := Some(now))];
      }
    }
  }

  /** After choosing an active account as default, it is the user's only active
    * default; choosing keeps every user at one active default at most. */
  lemma {:induction false} MarkDefaultChoosesOne(accounts: seq<Account>, userId: int, k: nat, now: int)
    requires k < |accounts| && accounts[k].userId == userId && UniqueAccountIds(accounts)
    ensures var r := MarkDefault(accounts, userId, accounts[k].id, now);
      && (accounts[k].isActive ==> ActiveDefault(r[k]))
      && (forall i :: 0 <= i < |r| && i != k && r[i].userId == userId ==> !ActiveDefault(r[i]))
    ensures OneActiveDefault(accounts) ==> OneActiveDefault(MarkDefault(accounts, userId, accounts[k].id, now))
  {
    var r := MarkDefault(accounts, userId, accounts[k].id, now);
    forall i | 0 <= i < |r| && i != k && r[i].userId == userId ensures !ActiveDefault(r[i]) {
      assert r[i] == Marked(accounts[i], userId, accounts[k].id, now);
      assert accounts[i].id != accounts[k].id;
    }
    if OneActiveDefault(accounts) {
      forall i, j | 0 <= i < j < |r| && ActiveDefault(r[i]) && ActiveDefault(r[j]) ensures r[i].userId != r[j].userId {
        assert r[i] == Marked(accounts[i], userId, accounts[k].id, now);
        assert r[j] == Marked(accounts[j], userId, accounts[k].id, now);
        if r[i].userId == userId {
          assert i == k || j == k;
        }
      }
    }
  }

  // ---------------------------------------------------------------------------
  // Creating and editing
  // ---------------------------------------------------------------------------

  /** The account `CreateAsync` builds: active, with the current balance equal to
    * the initial balance. */
  function NewAccount(id: int, userId: int, d: AccountCreateDto, now: int): (a: Account)
    ensures a.id == id && a.userId == userId && a.isActive && a.isDefault == d.isDefault
    ensures a.currentBalance == a.initialBalance == d.initialBalance
  {
    Account(id, userId, d.name, d.accountType, d.brokerName, d.accountNumber, d.server, d.initialBalance,
      d.initialBalance, d.currency, d.leverage, d.description, true, d.isDefault, now, None)
  }

  /** The accounts after `CreateAsync`. */
  function AfterCreate(accounts: seq<Account>, id: int, userId: int, d: AccountCreateDto, now: int): (r: seq<Account>)
    ensures |r| == |accounts| + 1 && r[|accounts|] == NewAccount(id, userId, d, now)
    ensures !d.isDefault ==> r[..|accounts|] == accounts
  {
    (if d.isDefault then ClearDefaults(accounts, userId, None, now) else accounts) + [NewAccount(id, userId, d, now)]
  }

  /** Creating keeps every user at one active default at most; a new default
    * account is its user's only default. */
  lemma {:induction false} CreateKeepsOneDefault(accounts: seq<Account>, id: int, userId: int, d: AccountCreateDto, now: int)
    requires OneActiveDefault(accounts)
    ensures OneActiveDefault(AfterCreate(accounts, id, userId, d, now))
    ensures d.isDefault ==> var r := AfterCreate(accounts, id, userId, d, now);
      forall i :: 0 <= i < |accounts| && r[i].userId == userId ==> !r[i].isDefault
  {
    ClearedLeavesNoOtherDefault(accounts, userId, None, now);
    var r := AfterCreate(accounts, id, userId, d, now);
    var prefix := if d.isDefault then ClearDefaults(accounts, userId, None, now) else accounts;
    assert r == prefix + [NewAccount(id, userId, d, now)];
    forall i, j | 0 <= i < j < |r| && ActiveDefault(r[i]) && ActiveDefault(r[j]) ensures r[i].userId != r[j].userId {
      if j == |accounts| {
        assert d.isDefault;
        assert r[i] == prefix[i];
      } else {
        assert r[i] == prefix[i] && r[j] == prefix[j];
      }
    }
  }

  /** The stored account after `UpdateAsync` copies the form onto it. */
  function Updated(a: Account, d: AccountUpdateDto, now: int): (r: Account)
    ensures r.id == a.id && r.userId == a.userId && r.currentBalance == a.currentBalance
    ensures r.isDefault == d.isDefault && r.isActive == d.isActive && r.initialBalance == d.initialBalance
  {
    a.(name := d.name, accountType := d.accountType, brokerName := d.brokerName, accountNumber := d.accountNumber,
      server := d.server, initialBalance := d.initialBalance, currency := d.currency, leverage := d.leverage,
      description := d.description, isDefault := d.isDefault, isActive := d.isActive, updatedAt := Some(now))
  }

  /** `UpdateAsync` as written: the user's other defaults are cleared only when
    * an account that was not default becomes default. */
  function UpdateAsWritten(accounts: seq<Account>, k: nat, d: AccountUpdateDto, now: int): (r: seq<Account>)
    requires k < |accounts| && accounts[k].id == d.id
    ensures |r| == |accounts| && r[k] == Updated(accounts[k], d, now)
  {
    var prior := if d.isDefault && !accounts[k].isDefault
      then ClearDefaults(accounts, accounts[k].userId, Some(d.id), now) else accounts;
    prior[k := Updated(accounts[k], d, now)]
  }

  /** `UpdateAsync` with the other defaults cleared whenever the edited account
    * is to be default. */
  function UpdateAccounts(accounts: seq<Account>, k: nat, d: AccountUpdateDto, now: int): (r: seq<Account>)
    requires k < |accounts| && accounts[k].id == d.id
    ensures |r| == |accounts| && r[k] == Updated(accounts[k], d, now)
    ensures forall i :: 0 <= i < |r| && i != k && accounts[i].userId != accounts[k].userId ==> r[i] == accounts[i]
  {
    var prior := if d.isDefault then ClearDefaults(accounts, accounts[k].userId, Some(d.id), now) else accounts;
    prior[k := Updated(accounts[k], d, now)]
  }

  lemma {:induction false} UpdateKeepsOneDefault(accounts: seq<Account>, k: nat, d: AccountUpdateDto, now: int)
    requires k < |accounts| && accounts[k].id == d.id && UniqueAccountIds(accounts) && OneActiveDefault(accounts)
    ensures OneActiveDefault(UpdateAccounts(accounts, k, d, now))
  {
    var u := accounts[k].userId;
    var prior := if d.isDefault then ClearDefaults(accounts, u, Some(d.id), now) else accounts;
    ClearedLeavesNoOtherDefault(accounts, u, Some(d.id), now);
    var r := UpdateAccounts(accounts, k, d, now);
    assert r == prior[k := Updated(accounts[k], d, now)];
    forall i, j | 0 <= i < j < |r| && ActiveDefault(r[i]) && ActiveDefault(r[j]) ensures r[i].userId != r[j].userId {
      if i == k || j == k {
        var o := if i == k then j else i;
        assert r[o] == prior[o];
        assert accounts[o].id != d.id;
      } else {
        assert r[i] == prior[i] && r[j] == prior[j];
      }
    }
  }

  /** Deleting and choosing another default leaves the deleted default marked;
    * the written update then reactivates it without clearing, and the user has
    * two active default accounts. */
  lemma UpdateAsWrittenBreaksOneDefault()
    ensures var a := Account(1, 7, "a", 1, "broker", None, None, 0.0, 0.0, "USD", 100, None, true, true, 0, None);
      var b := a.(id := 2, isDefault := false);
      var s0 := [a, b];
      var s1 := s0[0 := s0[0].(isActive := false, updatedAt := Some(1))];
      var s2 := MarkDefault(s1, 7, 2, 2);
      var d := AccountUpdateDto(1, "a", 1, "broker", None, None, 0.0, "USD", 100, None, true, true);
      && OneActiveDefault(s0) && OneActiveDefault(s2)
      && !OneActiveDefault(UpdateAsWritten(s2, 0, d, 3))
      && OneActiveDefault(UpdateAccounts(s2, 0, d, 3))
  {
    var a := Account(1, 7, "a", 1, "broker", None, None, 0.0, 0.0, "USD", 100, None, true, true, 0, None);
    var b := a.(id := 2, isDefault := false);
    var s0 := [a, b];
    var s1 := s0[0 := s0[0].(isActive := false, updatedAt := Some(1))];
    var s2 := MarkDefault(s1, 7, 2, 2);
    var d := AccountUpdateDto(1, "a", 1, "broker", None, None, 0.0, "USD", 100, None, true, true);
    assert s2[0] == s1[0] && s2[1].isDefault;
    var w := UpdateAsWritten(s2, 0, d, 3);
    assert w[1] == s2[1];
    var c := UpdateAccounts(s2, 0, d, 3);
    assert c[1] == Cleared(s2[1], 7, Some(1), 3);
  }

  /** The account after `DeleteAsync`: deactivated, default flag untouched. */
  function Deactivate(accounts: seq<Account>, k: nat, now: int): (r: seq<Account>)
    requires k < |accounts|
    ensures |r| == |accounts| && !r[k].isActive && r[k].isDefault == accounts[k].isDefault
    ensures forall i :: 0 <= i < |r| && i != k ==> r[i] == accounts[i]
    ensures OneActiveDefault(accounts) ==> OneActiveDefault(r)
  {
    accounts[k := accounts[k].(isActive := false, updatedAt := Some(now))]
  }

  // ---------------------------------------------------------------------------
  // Reading
  // ---------------------------------------------------------------------------

  /** `GetDefaultAsync`: the user's first active default account, otherwise the
    * first active account, otherwise none. */
  function DefaultAccount(accounts: seq<Account>, userId: int): (r: Option<Account>)
    ensures r.Some? ==> r.value in accounts && r.value.userId == userId && r.value.isActive
    ensures r.None? <==> forall i :: 0 <= i < |accounts| ==> accounts[i].userId != userId || !accounts[i].isActive
    ensures (exists i :: 0 <= i < |accounts| && accounts[i].userId == userId && ActiveDefault(accounts[i])) ==>
      r.Some? && r.value.isDefault
  {
    match FirstWhere(accounts, userId, true)
    case Some(a) => Some(a)
    case None => FirstWhere(accounts, userId, false)
  }

  /** The first active account of the user, a default one when `defaultOnly`. */
  function FirstWhere(accounts: seq<Account>, userId: int, defaultOnly: bool): (r: Option<Account>)
    ensures r.Some? ==> (r.value in accounts && r.value.userId == userId && r.value.isActive
      && (defaultOnly ==> r.value.isDefault))
    ensures r.None? <==> forall i :: 0 <= i < |accounts| ==>
      accounts[i].userId != userId || !accounts[i].isActive || (defaultOnly && !accounts[i].isDefault)
  {
    if accounts == [] then None
    else
      var a := accounts[0];
      if a.userId == userId && a.isActive && (!defaultOnly || a.isDefault) then Some(a)
      else
        assert forall i :: 1 <= i < |accounts| ==> accounts[i] == accounts[1..][i - 1];
        FirstWhere(accounts[1..], userId, defaultOnly)
  }

  /** With one active default at most, the default `GetDefaultAsync` returns is
    * the user's only active default. */
  lemma DefaultIsUnique(accounts: seq<Account>, userId: int, i: nat)
    requires OneActiveDefault(accounts) && i < |accounts| && accounts[i].userId == userId && ActiveDefault(accounts[i])
    ensures DefaultAccount(accounts, userId) == Some(accounts[i])
  {
    var r := DefaultAccount(accounts, userId);
    var j :| 0 <= j < |accounts| && accounts[j] == r.value;
  }

  // ---------------------------------------------------------------------------
  // The account list with its summary
  // ---------------------------------------------------------------------------

  /** An account as listed, with its trade count, P/L total and win rate. */
  datatype AccountView = AccountView(account: Account, tradesCount: nat, totalProfitLoss: real, winRate: real,
                                     currentBalance: real)

  /** The account's trades that are not deleted. */
  function TradesOf(trades: seq<Trade>, accountId: int): (r: seq<Trade>)
    ensures forall t :: t in r <==> t in trades && t.accountId == accountId && !t.isDeleted
  {
    if trades == [] then []
    else
      var head := if trades[0].accountId == accountId && !trades[0].isDeleted then [trades[0]] else [];
      head + TradesOf(trades[1..], accountId)
  }

  /** `Where(t => t.ProfitLoss.HasValue).Sum(t => t.ProfitLoss.Value)`. */
  function TotalPnL(ts: seq<Trade>): real {
    if ts == [] then 0.0 else PnL(ts[0]) + TotalPnL(ts[1..])
  }

  lemma {:induction false} TotalPnLAppend(ts: seq<Trade>, t: Trade)
    ensures TotalPnL(ts + [t]) == TotalPnL(ts) + PnL(t)
  {
    if ts != [] {
      assert (ts + [t])[1..] == ts[1..] + [t];
      TotalPnLAppend(ts[1..], t);
    }
  }

  predicate ClosedWithPnL(t: Trade) {
    t.isClosed && t.profitLoss.Some?
  }

  function ClosedCount(ts: seq<Trade>): nat {
    if ts == [] then 0 else (if ClosedWithPnL(ts[0]) then 1 else 0) + ClosedCount(ts[1..])
  }

  function WinCount(ts: seq<Trade>): (n: nat)
    ensures n <= ClosedCount(ts)
  {
    if ts == [] then 0
    else (if ClosedWithPnL(ts[0]) && ts[0].profitLoss.value > 0.0 then 1 else 0) + WinCount(ts[1..])
  }

  /** The percentage of closed trades with a profit, 0 without closed trades. */
  function AccountWinRate(ts: seq<Trade>): (r: real)
    ensures 0.0 <= r <= 100.0
    ensures ClosedCount(ts) == 0 ==> r == 0.0
    ensures r == 100.0 <==> ClosedCount(ts) > 0 && WinCount(ts) == ClosedCount(ts)
  {
    var closed := ClosedCount(ts);
    var wins := WinCount(ts);
    if closed == 0 then 0.0
    else
      PercentBounds(wins, closed);
      (wins as real / closed as real) * 100.0
  }

  /** A share of `whole` as a percentage lies in 0..100 and is 100 just when
    * the part is the whole. */
  lemma PercentBounds(part: nat, whole: nat)
    requires 0 < whole && part <= whole
    ensures var r := (part as real / whole as real) * 100.0;
      0.0 <= r <= 100.0 && (r == 100.0 <==> part == whole)
  {
    var p, w := part as real, whole as real;
    var q := p / w;
    assert q * w == p;
    assert 0.0 <= q;
    assert q <= 1.0;
    assert q == 1.0 ==> part == whole;
    assert part == whole ==> q == 1.0;
  }

  /** One row of `GetUserAccountsAsync`: the balance shown is the initial
    * balance plus the P/L of the account's trades. */
  function ViewOf(a: Account, trades: seq<Trade>): (v: AccountView)
    ensures v.account == a
    ensures v.currentBalance == a.initialBalance + v.totalProfitLoss
    ensures v.totalProfitLoss == TotalPnL(TradesOf(trades, a.id))
    ensures 0.0 <= v.winRate <= 100.0
  {
    var ts := TradesOf(trades, a.id);
    AccountView(a, |ts|, TotalPnL(ts), AccountWinRate(ts), a.initialBalance + TotalPnL(ts))
  }

  /** `OrderByDescending(IsDefault).ThenBy(Name)`, names compared ordinally. */
  predicate ListLe(a: AccountView, b: AccountView) {
    (a.account.isDefault && !b.account.isDefault)
    || (a.account.isDefault == b.account.isDefault && OrdinalLe(a.account.name, b.account.name))
  }

  lemma ListLeIsPreorder()
    ensures TotalPreorder(ListLe)
  {
    forall a: AccountView, b: AccountView ensures ListLe(a, b) || ListLe(b, a) {
      OrdinalLeTotal(a.account.name, b.account.name);
    }
    forall a: AccountView, b: AccountView, c: AccountView | ListLe(a, b) && ListLe(b, c) ensures ListLe(a, c) {
      if a.account.isDefault == b.account.isDefault == c.account.isDefault {
        OrdinalLeTransitive(a.account.name, b.account.name, c.account.name);
      }
    }
  }

  function ViewsOf(accounts: seq<Account>, trades: seq<Trade>, userId: int): (r: seq<AccountView>)
    ensures forall v :: v in r <==> (v.account in accounts && v.account.userId == userId && v.account.isActive
      && v == ViewOf(v.account, trades))
  {
    if accounts == [] then []
    else
      var a := accounts[0];
      var head := if a.userId == userId && a.isActive then [ViewOf(a, trades)] else [];
      head + ViewsOf(accounts[1..], trades, userId)
  }

  /** `GetUserAccountsAsync`: the user's active accounts with their summaries,
    * the default first and the rest by name. */
  function UserAccounts(accounts: seq<Account>, trades: seq<Trade>, userId: int): (r: seq<AccountView>)
    ensures forall v :: v in r <==> (v.account in accounts && v.account.userId == userId && v.account.isActive
      && v == ViewOf(v.account, trades))
    ensures SortedBy(r, ListLe)
    ensures multiset(r) == multiset(ViewsOf(accounts, trades, userId))
    ensures KeepsTiesInOrder(r, ViewsOf(accounts, trades, userId), ListLe)
  {
    ListLeIsPreorder();
    var views := ViewsOf(accounts, trades, userId);
    var r := SortBy(views, ListLe);
    forall v ensures v in r <==> v in views {
      SortByMembers(views, ListLe, v);
    }
    r
  }

  /** With one active default at most, only the first listed account can be the default. */
  lemma DefaultListedFirst(accounts: seq<Account>, trades: seq<Trade>, userId: int)
    requires OneActiveDefault(accounts)
    ensures var r := UserAccounts(accounts, trades, userId);
      forall i :: 1 <= i < |r| ==> !r[i].account.isDefault
  {
    ListLeIsPreorder();
    var r := UserAccounts(accounts, trades, userId);
    forall i | 1 <= i < |r| ensures !r[i].account.isDefault {
      NotDefaultAfterFirst(accounts, trades, userId, r, i);
    }
  }

  lemma NotDefaultAfterFirst(accounts: seq<Account>, trades: seq<Trade>, userId: int, r: seq<AccountView>, i: nat)
    requires OneActiveDefault(accounts)
    requires multiset(r) == multiset(ViewsOf(accounts, trades, userId)) && SortedBy(r, ListLe)
    requires 1 <= i < |r|
    ensures !r[i].account.isDefault
  {
    if r[i].account.isDefault {
      var views := ViewsOf(accounts, trades, userId);
      assert ListLe(r[0], r[i]);
      assert r[0] in multiset(r) && r[i] in multiset(r);
      DefaultViewsEqual(accounts, trades, userId, r[0], r[i]);
      TwiceCounted(r, 0, i);
      ViewsOnce(accounts, trades, userId, r[i]);
    }
  }

  /** Two default accounts listed for one user are the same account. */
  lemma DefaultViewsEqual(accounts: seq<Account>, trades: seq<Trade>, userId: int, x: AccountView, y: AccountView)
    requires OneActiveDefault(accounts)
    requires x in ViewsOf(accounts, trades, userId) && y in ViewsOf(accounts, trades, userId)
    requires x.account.isDefault && y.account.isDefault
    ensures x == y
  {
    var p :| 0 <= p < |accounts| && accounts[p] == x.account;
    var q :| 0 <= q < |accounts| && accounts[q] == y.account;
  }

  /** With one active default at most, a default account is listed once. */
  lemma {:induction false} ViewsOnce(accounts: seq<Account>, trades: seq<Trade>, userId: int, v: AccountView)
    requires OneActiveDefault(accounts) && v.account.isDefault
    ensures multiset(ViewsOf(accounts, trades, userId))[v] <= 1
  {
    if accounts != [] {
      assert OneActiveDefault(accounts[1..]) by {
        forall i, j | 0 <= i < j < |accounts[1..]| && ActiveDefault(accounts[1..][i]) && ActiveDefault(accounts[1..][j])
          ensures accounts[1..][i].userId != accounts[1..][j].userId
        {
          assert accounts[1..][i] == accounts[i + 1] && accounts[1..][j] == accounts[j + 1];
        }
      }
      ViewsOnce(accounts[1..], trades, userId, v);
      if accounts[0].userId == userId && accounts[0].isActive && v == ViewOf(accounts[0], trades) {
        HeadNotRepeated(accounts);
      }
    }
  }

  /** An active default account is not repeated further down the list. */
  lemma HeadNotRepeated(accounts: seq<Account>)
    requires OneActiveDefault(accounts) && accounts != [] && ActiveDefault(accounts[0])
    ensures accounts[0] !in accounts[1..]
  {
    forall q | 0 <= q < |accounts| - 1
      ensures accounts[1..][q] != accounts[0]
    {
      assert accounts[1..][q] == accounts[q + 1];
    }
  }

  // ---------------------------------------------------------------------------
  // The service
  // ---------------------------------------------------------------------------

  function NotOwner(): Error {
    Custom("Unauthorized", "this account does not belong to you")
  }

  class AccountService {
    var accounts: seq<Account>
    /** The identity the database gives the next inserted account. */
    var nextId: int

    predicate Valid()
      reads this
    {
      && UniqueAccountIds(accounts)
      && (forall i :: 0 <= i < |accounts| ==> accounts[i].id < nextId)
      && OneActiveDefault(accounts)
    }

    constructor(initial: seq<Account>, firstId: int)
      requires UniqueAccountIds(initial) && OneActiveDefault(initial)
      requires forall i :: 0 <= i < |initial| ==> initial[i].id < firstId
      ensures Valid() && accounts == initial && nextId == firstId
    {
      accounts := initial;
      nextId := firstId;
    }

    /** `CreateAsync`. */
    method Create(userId: int, d: AccountCreateDto, now: int) returns (a: Account)
      requires Valid()
      modifies this
      ensures Valid()
      ensures a == NewAccount(old(nextId), userId, d, now)
      ensures accounts == AfterCreate(old(accounts), old(nextId), userId, d, now) && nextId == old(nextId) + 1
    {
      CreateKeepsOneDefault(accounts, nextId, userId, d, now);
      var prior := accounts;
      if d.isDefault {
        prior := ClearDefaultsLoop(accounts, userId, None, now);
      }
      a := NewAccount(nextId, userId, d, now);
      accounts := prior + [a];
      nextId := nextId + 1;
    }

    /** `UpdateAsync`, clearing the user's other defaults whenever the edited
      * account is to be default. */
    method Update(d: AccountUpdateDto, now: int) returns (r: Result<Account>)
      requires Valid()
      modifies this
      ensures Valid() && nextId == old(nextId)
      ensures IndexOfAccount(old(accounts), d.id).None? ==> r == Failure(AccountNotFound()) && accounts == old(accounts)
      ensures IndexOfAccount(old(accounts), d.id).Some? ==>
        var k := IndexOfAccount(old(accounts), d.id).value;
        r == Success(Updated(old(accounts)[k], d, now)) && accounts == UpdateAccounts(old(accounts), k, d, now)
    {
      match IndexOfAccount(accounts, d.id) {
        case None =>
          return Failure(AccountNotFound());
        case Some(k) =>
          UpdateKeepsOneDefault(accounts, k, d, now);
          var updated := Updated(accounts[k], d, now);
          var prior := accounts;
          if d.isDefault {
            prior := ClearDefaultsLoop(accounts, accounts[k].userId, Some(d.id), now);
          }
          accounts := prior[k := updated];
          r := Success(updated);
      }
    }

    /** `DeleteAsync`: a soft delete. */
    method Delete(accountId: int, now: int) returns (r: Result<bool>)
      requires Valid()
      modifies this
      ensures Valid() && nextId == old(nextId)
      ensures IndexOfAccount(old(accounts), accountId).None? ==>
        r == Failure(AccountNotFound()) && accounts == old(accounts)
      ensures IndexOfAccount(old(accounts), accountId).Some? ==>
        r == Success(true) && accounts == Deactivate(old(accounts), IndexOfAccount(old(accounts), accountId).value, now)
    {
      match IndexOfAccount(accounts, accountId) {
        case None =>
          return Failure(AccountNotFound());
        case Some(k) =>
          accounts := Deactivate(accounts, k, now);
          r := Success(true);
      }
    }

    /** `SetDefaultAsync`: a missing account is not found, another user's account
      * is refused, a default account is left as it is; otherwise the loop marks
      * the user's active accounts. */
    method SetDefault(userId: int, accountId: int, now: int) returns (r: Result<bool>)
      requires Valid()
      modifies this
      ensures Valid() && nextId == old(nextId)
      ensures IndexOfAccount(old(accounts), accountId).None? ==>
        r == Failure(AccountNotFound()) && accounts == old(accounts)
      ensures IndexOfAccount(old(accounts), accountId).Some? ==>
        var a := old(accounts)[IndexOfAccount(old(accounts), accountId).value];
        if a.userId != userId then r == Failure(NotOwner()) && accounts == old(accounts)
        else if a.isDefault then r == Success(true) && accounts == old(accounts)
        else r == Success(true) && accounts == MarkDefault(old(accounts), userId, accountId, now)
    {
      match IndexOfAccount(accounts, accountId) {
        case None =>
          return Failure(AccountNotFound());
        case Some(k) =>
          if accounts[k].userId != userId {
            return Failure(NotOwner());
          }
          if accounts[k].isDefault {
            return Success(true);
          }
          MarkDefaultChoosesOne(accounts, userId, k, now);
          accounts := MarkDefaultLoop(accounts, userId, accountId, now);
          r := Success(true);
      }
    }

    function Default(userId: int): (r: Option<Account>)
      reads this
      requires Valid()
      ensures r.Some? ==> r.value in accounts && r.value.userId == userId && r.value.isActive
      ensures r.None? <==> forall i :: 0 <= i < |accounts| ==> accounts[i].userId != userId || !accounts[i].isActive
    {
      DefaultAccount(accounts, userId)
    }
  }
}
