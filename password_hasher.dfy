// Password hashing policy: the strength score shown at registration, whether
// a stored hash was made with too low a work factor, and the guards around
// BCrypt. BCrypt itself is a function parameter.

module PasswordHashers {
  import opened Common
  import opened Text

  /** The BCrypt cost new hashes are made with. */
  const WorkFactor: int := 12

  datatype PasswordStrength = VeryWeak | Weak | Medium | Strong | VeryStrong

  /** The enum's numeric value. */
  function StrengthValue(s: PasswordStrength): (r: int)
    ensures 1 <= r <= 5
  {
    match s
    case VeryWeak => 1
    case Weak => 2
    case Medium => 3
    case Strong => 4
    case VeryStrong => 5
  }

  // Character classes, on ASCII: every other character counts as neither a
  // letter nor a digit.
  predicate IsUpperLetter(c: char) { 'A' <= c <= 'Z' }
  predicate IsLowerLetter(c: char) { 'a' <= c <= 'z' }
  predicate IsLetterOrDigit(c: char) { IsUpperLetter(c) || IsLowerLetter(c) || IsDigit(c) }

  predicate HasUpper(p: string) { exists i :: 0 <= i < |p| && IsUpperLetter(p[i]) }
  predicate HasLower(p: string) { exists i :: 0 <= i < |p| && IsLowerLetter(p[i]) }
  predicate HasDigit(p: string) { exists i :: 0 <= i < |p| && IsDigit(p[i]) }
  predicate HasSpecial(p: string) { exists i :: 0 <= i < |p| && !IsLetterOrDigit(p[i]) }

  function Point(b: bool): int {
    if b then 1 else 0
  }

  /** The length part of the score: a point each for 6, 8 and 12 characters. */
  function LengthScore(length: nat): (r: int)
    ensures 0 <= r <= 3
  {
    Point(length >= 6) + Point(length >= 8) + Point(length >= 12)
  }

  /** The whole score: the length part plus a point per character class present. */
  function Score(p: string): (r: int)
    ensures 0 <= r <= 7
  {
    LengthScore(|p|) + Point(HasUpper(p)) + Point(HasLower(p)) + Point(HasDigit(p)) + Point(HasSpecial(p))
  }

  /** The fixed bands of the score. */
  function Band(score: int): (r: PasswordStrength)
    ensures StrengthValue(r) == if score <= 2 then 1 else if score >= 6 then 5 else score - 1
  {
    if score <= 2 then VeryWeak
    else if score == 3 then Weak
    else if score == 4 then Medium
    else if score == 5 then Strong
    else VeryStrong
  }

  /** What `CheckStrength` answers. */
  function Strength(password: string): (r: PasswordStrength)
    ensures IsBlank(password) ==> r == VeryWeak
    ensures !IsBlank(password) ==> StrengthValue(r) == (var s := Score(password); if s <= 2 then 1 else if s >= 6 then 5 else s - 1)
  {
    if IsBlank(password) then VeryWeak else Band(Score(password))
  }

  /** `CheckStrength`, accumulating the score one test at a time. */
  method CheckStrength(password: string) returns (r: PasswordStrength)
    ensures r == Strength(password)
    ensures IsBlank(password) ==> r == VeryWeak
  {
    if IsBlank(password) {
      return VeryWeak;
    }
    var score := 0;
    if |password| >= 6 { score := score + 1; }
    if |password| >= 8 { score := score + 1; }
    if |password| >= 12 { score := score + 1; }
    if HasUpper(password) { score := score + 1; }
    if HasLower(password) { score := score + 1; }
    if HasDigit(password) { score := score + 1; }
    if HasSpecial(password) { score := score + 1; }
    assert score == Score(password);
    r := Band(score);
  }

  /** A higher score never gives a lower strength. */
  lemma BandMonotone(a: int, b: int)
    requires a <= b
    ensures StrengthValue(Band(a)) <= StrengthValue(Band(b))
  {
  }

  /** Every band: at most 2 is very weak, then one step per point up to 6 and more. */
  lemma BandsOfScores(score: int)
    requires 0 <= score <= 7
    ensures StrengthValue(Band(score)) == (if score <= 2 then 1 else if score >= 6 then 5 else score - 1)
  {
  }

  /** More characters never lower the length part of the score. */
  lemma LengthScoreMonotone(m: nat, n: nat)
    requires m <= n
    ensures LengthScore(m) <= LengthScore(n)
  {
  }

  /** Appending characters to a password never lowers its score nor its strength. */
  lemma StrengthMonotoneUnderAppend(p: string, q: string)
    requires !IsBlank(p)
    ensures Score(p) <= Score(p + q)
    ensures StrengthValue(Strength(p)) <= StrengthValue(Strength(p + q))
  {
    var i :| 0 <= i < |p| && !IsWhiteSpace(p[i]);
    assert (p + q)[i] == p[i];
    forall j | 0 <= j < |p|
      ensures (p + q)[j] == p[j]
    {
    }
    LengthScoreMonotone(|p|, |p + q|);
    BandMonotone(Score(p), Score(p + q));
  }

  /** The two strongest bands need long enough passwords: four character classes
    * give at most four points, so the rest must come from the length. */
  lemma StrongNeedsLength(p: string)
    ensures Strength(p) == Strong ==> |p| >= 6
    ensures Strength(p) == VeryStrong ==> |p| >= 8
  {
  }

  /** A password that scores every point is very strong. */
  lemma FullScoreIsVeryStrong(p: string)
    requires |p| >= 12 && HasUpper(p) && HasLower(p) && HasDigit(p) && HasSpecial(p)
    ensures Score(p) == 7 && Strength(p) == VeryStrong
  {
    var i :| 0 <= i < |p| && IsUpperLetter(p[i]);
    assert !IsWhiteSpace(p[i]);
  }

  /** `NeedsRehash`: a blank hash, one with fewer than four '$'-separated parts,
    * or one whose third part is not a number, needs rehashing; otherwise the
    * number is the work factor, and a factor below 12 needs rehashing. */
  function NeedsRehash(hash: string): (r: bool)
    ensures IsBlank(hash) ==> r
    ensures Count(hash, '$') < 3 ==> r
  {
    if IsBlank(hash) then true
    else
      var parts := Split(hash, '$');
      if |parts| < 4 then true
      else
        match ParseInt(parts[2])
        case Some(currentWorkFactor) => currentWorkFactor < WorkFactor
        case None => true
  }

  /** Two digits read back as their value. */
  lemma ParseTwoDigits(n: nat)
    requires n < 100
    ensures ParseInt(TwoDigits(n)) == Some(n)
  {
    var s := TwoDigits(n);
    assert IsDigit(s[0]) && IsDigit(s[1]);
    assert !IsWhiteSpace(s[0]) && !IsWhiteSpace(s[|s| - 1]);
    assert !IsBlank(s);
    assert SplitSign(Trim(s)) == (false, s);
  }

  /** The '$'-separated parts of `<version>$<cost>`. */
  lemma SplitOfPair(version: string, digits: string)
    requires '$' !in version && '$' !in digits
    ensures Split(version + ['$'] + digits, '$') == [version] + [digits]
  {
    SplitWithoutSeparator(version, '$');
    SplitWithoutSeparator(digits, '$');
    SplitAtSeparator(version, digits, '$');
  }

  /** The '$'-separated parts of `$<version>$<cost>$<rest>`. */
  lemma SplitOfHash(version: string, digits: string, rest: string)
    requires '$' !in version && '$' !in digits
    ensures Split("$" + version + "$" + digits + "$" + rest, '$') == [""] + [version] + [digits] + Split(rest, '$')
  {
    var front := version + ['$'] + digits;
    var body := front + ['$'] + rest;
    SplitOfPair(version, digits);
    SplitAtSeparator(front, rest, '$');
    SplitAtSeparator([], body, '$');
    assert [] + ['$'] + body == "$" + version + "$" + digits + "$" + rest;
  }

  /** A BCrypt hash `$<version>$<cost>$<salt and digest>` needs rehashing exactly
    * when its cost is below the current work factor. */
  lemma RehashByWorkFactor(version: string, cost: nat, rest: string)
    requires '$' !in version && cost < 100
    ensures NeedsRehash("$" + version + "$" + TwoDigits(cost) + "$" + rest) <==> cost < WorkFactor
  {
    var digits := TwoDigits(cost);
    var hash := "$" + version + "$" + digits + "$" + rest;
    assert '$' !in digits by {
      assert IsDigit(digits[0]) && IsDigit(digits[1]);
    }
    SplitOfHash(version, digits, rest);
    assert Split(hash, '$')[2] == digits;
    assert hash[0] == '$' && !IsWhiteSpace(hash[0]);
    ParseTwoDigits(cost);
  }

  /** `Hash`: a blank password throws; otherwise BCrypt at the current work factor. */
  function Hash(password: string, bcryptHash: (string, int) -> string): (r: Result<string>)
    ensures r.Failure? <==> IsBlank(password)
    ensures r.Success? ==> r.value == bcryptHash(password, WorkFactor)
  {
    if IsBlank(password) then Failure(Custom("ArgumentException", "password"))
    else Success(bcryptHash(password, WorkFactor))
  }

  /** `Verify`: a blank password or hash never verifies; otherwise BCrypt decides
    * (an exception from it counts as a mismatch, which the parameter returns). */
  function Verify(password: string, hash: string, bcryptVerify: (string, string) -> bool): (r: bool)
    ensures r ==> !IsBlank(password) && !IsBlank(hash) && bcryptVerify(password, hash)
    ensures !IsBlank(password) && !IsBlank(hash) && bcryptVerify(password, hash) ==> r
  {
    if IsBlank(password) || IsBlank(hash) then false
    else bcryptVerify(password, hash)
  }
}
