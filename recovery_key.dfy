// Recovery keys: 32 characters from an alphabet without look-alike letters
// and digits, shown as eight dash-separated groups of four. The random bytes
// and the BCrypt hash are outside the model: the bytes are a parameter, the
// hash and its check are function parameters.

module RecoveryKeys {
  import opened Common
  import opened Text

  const KeyLength: nat := 32

  /** No 0/O and no 1/I. */
  const AllowedChars: string := "ABCDEFGHJKLMNPQRSTUVWXYZ23456789"

  /** The key as the generator, the hash and the check see it: dashes removed, upper-cased. */
  function Clean(key: string): (r: string)
    ensures '-' !in r
    ensures |r| <= |key|
  {
    var w := Without(key, '-');
    assert forall i :: 0 <= i < |w| ==> ToUpper(w)[i] != '-';
    ToUpper(w)
  }

  /** `Replace("-", "").ToUpperInvariant()` is the clean form. */
  lemma CleanIsReplaceThenUpper(key: string)
    ensures Clean(key) == ToUpper(Replace(key, "-", ""))
  {
    ReplaceCharByNothing(key, '-');
  }

  /** Consecutive pieces of four characters; the last may be shorter. */
  function Groups(s: string): (r: seq<string>)
    ensures forall k :: 0 <= k < |r| ==> 0 < |r[k]| <= 4
    decreases |s|
  {
    if s == [] then []
    else
      var n := if |s| < 4 then |s| else 4;
      [s[..n]] + Groups(s[n..])
  }

  /** What `FormatKey` returns: "" for a blank key, the key itself when its clean
    * form is not 32 characters long, otherwise the clean form in groups of four
    * joined by dashes. */
  function FormattedKey(key: string): string {
    if IsBlank(key) then ""
    else
      var clean := Clean(key);
      if |clean| != KeyLength then key else Join(Groups(clean), "-")
  }

  /** `FormatKey`. */
  method FormatKey(key: string) returns (r: string)
    ensures r == FormattedKey(key)
  {
    if IsBlank(key) {
      return "";
    }
    var clean := Clean(key);
    if |clean| != KeyLength {
      return key;
    }
    var groups := SplitIntoGroups(clean);
    r := Join(groups, "-");
  }

  /** The loop of `FormatKey` filling the list of groups, four characters at a time. */
  method SplitIntoGroups(clean: string) returns (groups: seq<string>)
    requires |clean| % 4 == 0
    ensures groups == Groups(clean)
  {
    groups := [];
    var i := 0;
    assert clean[0..] == clean;
    while i < |clean|
      invariant 0 <= i <= |clean| && (|clean| - i) % 4 == 0
      invariant groups + Groups(clean[i..]) == Groups(clean)
      decreases |clean| - i
    {
      var n := if 4 < |clean| - i then 4 else |clean| - i;
      GroupsStep(clean, i);
      AppendAssoc(groups, [clean[i..i + n]], Groups(clean[i + n..]));
      groups := groups + [clean[i..i + n]];
      i := i + 4;
    }
    assert clean[i..] == [] && Groups(clean[i..]) == [];
  }

  /** The next group starts at `i` and holds four characters. */
  lemma GroupsStep(s: string, i: nat)
    requires i < |s| && (|s| - i) % 4 == 0
    ensures i + 4 <= |s| && (|s| - (i + 4)) % 4 == 0
    ensures var n := if 4 < |s| - i then 4 else |s| - i;
            n == 4 && Groups(s[i..]) == [s[i..i + n]] + Groups(s[i + n..])
  {
    assert s[i..][..4] == s[i..i + 4];
    assert s[i..][4..] == s[i + 4..];
  }

  /** `IsValidFormat`: a non-blank key whose clean form has 32 characters, all allowed. */
  predicate IsValidFormat(key: string) {
    !IsBlank(key) && |Clean(key)| == KeyLength
    && forall i :: 0 <= i < |Clean(key)| ==> Clean(key)[i] in AllowedChars
  }

  // ----- helpers about dashes, case and groups -----

  lemma {:induction false} WithoutAppend(a: string, b: string, c: char)
    ensures Without(a + b, c) == Without(a, c) + Without(b, c)
  {
    if a != [] {
      WithoutAppend(a[1..], b, c);
      assert (a + b)[1..] == a[1..] + b;
    } else {
      assert a + b == b;
    }
  }

  lemma {:induction false} WithoutAbsent(s: string, c: char)
    requires c !in s
    ensures Without(s, c) == s
  {
    if s != [] {
      WithoutAbsent(s[1..], c);
      assert s == [s[0]] + s[1..];
    }
  }

  /** Upper-case letters and the digits 2 to 9. */
  predicate UpperOrDigit(ch: char) {
    'A' <= ch <= 'Z' || '2' <= ch <= '9'
  }

  /** The alphabet holds upper-case letters and digits only. */
  lemma AllowedChar(ch: char)
    requires ch in AllowedChars
    ensures UpperOrDigit(ch)
  {
    var i :| 0 <= i < |AllowedChars| && AllowedChars[i] == ch;
    if i < 8 {} else if i < 16 {} else if i < 24 {} else {}
  }

  lemma AllowedUpperOrDigits(s: string)
    requires forall i :: 0 <= i < |s| ==> s[i] in AllowedChars
    ensures forall i :: 0 <= i < |s| ==> UpperOrDigit(s[i])
  {
    forall i | 0 <= i < |s|
      ensures UpperOrDigit(s[i])
    {
      AllowedChar(s[i]);
    }
  }

  /** A string of allowed characters is its own clean form. */
  lemma CleanOfAllowed(s: string)
    requires forall i :: 0 <= i < |s| ==> s[i] in AllowedChars
    ensures Clean(s) == s
  {
    AllowedUpperOrDigits(s);
    assert '-' !in s;
    WithoutAbsent(s, '-');
    assert ToUpper(s) == s;
  }

  /** Removing a character from white space leaves white space. */
  lemma {:induction false} WithoutKeepsBlank(s: string, c: char)
    requires IsBlank(s)
    ensures IsBlank(Without(s, c))
  {
    if s != [] {
      WithoutKeepsBlank(s[1..], c);
    }
  }

  /** A blank key has a blank clean form. */
  lemma CleanOfBlank(key: string)
    requires IsBlank(key)
    ensures IsBlank(Clean(key))
  {
    var w := Without(key, '-');
    WithoutKeepsBlank(key, '-');
    forall i | 0 <= i < |w|
      ensures IsWhiteSpace(ToUpper(w)[i])
    {
    }
  }

  /** Cleaning twice is cleaning once. */
  lemma CleanIdempotent(key: string)
    ensures Clean(Clean(key)) == Clean(key)
  {
    var c := Clean(key);
    WithoutAbsent(c, '-');
    CaseMappingsIdempotent(Without(key, '-'));
  }

  /** On a multiple of four characters every group has exactly four, in order. */
  lemma {:induction false} GroupsOfFours(s: string)
    requires |s| % 4 == 0
    ensures |Groups(s)| == |s| / 4
    ensures forall k :: 0 <= k < |s| / 4 ==> Groups(s)[k] == s[4 * k..4 * k + 4]
    decreases |s|
  {
    if s != [] {
      GroupsOfFours(s[4..]);
      forall k | 0 <= k < |s| / 4
        ensures Groups(s)[k] == s[4 * k..4 * k + 4]
      {
        if k > 0 {
          assert Groups(s)[k] == Groups(s[4..])[k - 1];
          assert s[4..][4 * (k - 1)..4 * (k - 1) + 4] == s[4 * k..4 * k + 4];
        }
      }
    }
  }

  /** Joining the groups of a dash-free string and removing the dashes gives it back. */
  lemma {:induction false} JoinedGroupsWithoutDashes(s: string)
    requires '-' !in s
    ensures Without(Join(Groups(s), "-"), '-') == s
    decreases |s|
  {
    if s == [] {
    } else if |s| <= 4 {
      assert s[..|s|] == s && s[|s|..] == [];
      assert Groups(s) == [s];
      WithoutAbsent(s, '-');
    } else {
      var rest := s[4..];
      assert Groups(s) == [s[..4]] + Groups(rest);
      assert Groups(rest) != [];
      assert Join(Groups(s), "-") == s[..4] + "-" + Join(Groups(rest), "-");
      JoinedGroupsWithoutDashes(rest);
      WithoutAppend(s[..4] + "-", Join(Groups(rest), "-"), '-');
      WithoutAppend(s[..4], "-", '-');
      WithoutAbsent(s[..4], '-');
      assert s == s[..4] + rest;
    }
  }

  /** The joined groups are one dash longer per extra group, with a dash after the first four. */
  lemma {:induction false} JoinedGroupsShape(s: string)
    requires |s| > 4
    ensures |Join(Groups(s), "-")| == |s| + (|s| + 3) / 4 - 1
    ensures Join(Groups(s), "-")[4] == '-'
    decreases |s|
  {
    var rest := s[4..];
    assert Groups(s) == [s[..4]] + Groups(rest);
    assert Groups(rest) != [];
    assert Join(Groups(s), "-") == s[..4] + "-" + Join(Groups(rest), "-");
    if |rest| > 4 {
      JoinedGroupsShape(rest);
    } else {
      assert rest[..|rest|] == rest && rest[|rest|..] == [];
      assert Groups(rest) == [rest];
    }
  }

  // ----- properties -----

  /** The three outcomes of `FormatKey`. A well-formed key becomes eight groups of
    * four clean characters, 39 characters in all, and removing its dashes gives
    * the clean key back. */
  lemma FormatKeyCases(key: string)
    ensures IsBlank(key) ==> FormattedKey(key) == ""
    ensures !IsBlank(key) && |Clean(key)| != KeyLength ==> FormattedKey(key) == key
    ensures !IsBlank(key) && |Clean(key)| == KeyLength ==>
              var r := FormattedKey(key);
              var g := Groups(Clean(key));
              r == Join(g, "-") && |g| == 8
              && (forall k :: 0 <= k < 8 ==> g[k] == Clean(key)[4 * k..4 * k + 4])
              && |r| == 39 && Without(r, '-') == Clean(key)
  {
    if !IsBlank(key) && |Clean(key)| == KeyLength {
      GroupsOfFours(Clean(key));
      JoinedGroupsShape(Clean(key));
      JoinedGroupsWithoutDashes(Clean(key));
    }
  }

  /** A well-formed key formats to something with the same clean form. */
  lemma FormattedKeyClean(key: string)
    requires !IsBlank(key) && |Clean(key)| == KeyLength
    ensures !IsBlank(FormattedKey(key))
    ensures Clean(FormattedKey(key)) == Clean(key)
  {
    var c := Clean(key);
    var r := FormattedKey(key);
    JoinedGroupsShape(c);
    JoinedGroupsWithoutDashes(c);
    assert !IsWhiteSpace(r[4]);
    CleanIdempotent(key);
  }

  /** Formatting a formatted key changes nothing. */
  lemma FormatKeyIdempotent(key: string)
    ensures FormattedKey(FormattedKey(key)) == FormattedKey(key)
  {
    if !IsBlank(key) && |Clean(key)| == KeyLength {
      FormattedKeyClean(key);
    } else if IsBlank(key) {
      assert IsBlank("");
    }
  }

  /** `IsValidFormat` sees only the clean form: dashes and case do not matter,
    * and formatting a key does not change whether it is valid. */
  lemma IsValidFormatIgnoresFormatting(key: string)
    ensures IsValidFormat(Clean(key)) == IsValidFormat(key)
    ensures IsValidFormat(FormattedKey(key)) == IsValidFormat(key)
  {
    CleanKeepsValidity(key);
    if !IsBlank(key) && |Clean(key)| == KeyLength {
      FormattedKeyClean(key);
    } else if IsBlank(key) {
      assert IsBlank("");
    }
  }

  lemma CleanKeepsValidity(key: string)
    ensures IsValidFormat(Clean(key)) == IsValidFormat(key)
  {
    CleanIdempotent(key);
    var c := Clean(key);
    if |c| == KeyLength && c[0] in AllowedChars {
      AllowedChar(c[0]);
      assert !IsWhiteSpace(c[0]);
      if IsBlank(key) {
        CleanOfBlank(key);
      }
    }
  }

  /** The raw key before formatting: one allowed character per random byte. */
  function RawKey(randomBytes: seq<nat>): (r: string)
    requires |randomBytes| == KeyLength
    ensures |r| == KeyLength
    ensures forall i :: 0 <= i < KeyLength ==> r[i] in AllowedChars
  {
    seq(KeyLength, i requires 0 <= i < KeyLength => AllowedChars[randomBytes[i] % |AllowedChars|])
  }

  /** `Generate`, with the random number generator's 32 bytes as a parameter:
    * the raw key is filled character by character, then formatted. Every
    * generated key is valid and is the formatted raw key. */
  method Generate(randomBytes: seq<nat>) returns (r: string)
    requires |randomBytes| == KeyLength
    requires forall i :: 0 <= i < |randomBytes| ==> randomBytes[i] < 256
    ensures r == FormattedKey(RawKey(randomBytes))
    ensures IsValidFormat(r) && |r| == 39
  {
    var key := new char[KeyLength];
    for i := 0 to KeyLength
      invariant forall j :: 0 <= j < i ==> key[j] == AllowedChars[randomBytes[j] % |AllowedChars|]
    {
      key[i] := AllowedChars[randomBytes[i] % |AllowedChars|];
    }
    assert key[..] == RawKey(randomBytes);
    r := FormatKey(key[..]);
    GeneratedKeyValid(randomBytes);
  }

  lemma GeneratedKeyValid(randomBytes: seq<nat>)
    requires |randomBytes| == KeyLength
    ensures IsValidFormat(FormattedKey(RawKey(randomBytes)))
    ensures |FormattedKey(RawKey(randomBytes))| == 39
  {
    var raw := RawKey(randomBytes);
    CleanOfAllowed(raw);
    AllowedChar(raw[0]);
    assert !IsWhiteSpace(raw[0]);
    assert IsValidFormat(raw);
    FormatKeyCases(raw);
    IsValidFormatIgnoresFormatting(raw);
  }

  /** `Hash`: a blank key throws; otherwise the clean key is hashed. */
  function Hash(recoveryKey: string, bcryptHash: string -> string): (r: Result<string>)
    ensures r.Failure? <==> IsBlank(recoveryKey)
    ensures r.Success? ==> r.value == bcryptHash(Clean(recoveryKey))
  {
    if IsBlank(recoveryKey) then Failure(Custom("ArgumentException", "recoveryKey"))
    else Success(bcryptHash(Clean(recoveryKey)))
  }

  /** `Verify`: a blank key or hash never verifies; otherwise the clean key is
    * checked against the hash (a failing check counts as a mismatch). */
  function Verify(recoveryKey: string, hash: string, bcryptVerify: (string, string) -> bool): (r: bool)
    ensures IsBlank(recoveryKey) || IsBlank(hash) ==> !r
  {
    if IsBlank(recoveryKey) || IsBlank(hash) then false
    else bcryptVerify(Clean(recoveryKey), hash)
  }

  /** A key verifies exactly when its formatted form does: the user may type
    * it with or without dashes, in any case. */
  lemma VerifyIgnoresFormatting(recoveryKey: string, hash: string, bcryptVerify: (string, string) -> bool)
    ensures Verify(FormattedKey(recoveryKey), hash, bcryptVerify) == Verify(recoveryKey, hash, bcryptVerify)
  {
    CleanIdempotent(recoveryKey);
    if !IsBlank(recoveryKey) && |Clean(recoveryKey)| == KeyLength {
      FormattedKeyClean(recoveryKey);
    } else if IsBlank(recoveryKey) {
      assert IsBlank("");
    }
  }
}
