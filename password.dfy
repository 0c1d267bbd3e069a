/** Password scoring and generation of the terminal vault
  * (`internal/utils/password.go`): a 0-100 score from length, character
  * variety and uniqueness minus penalties for common words and runs, the level
  * it falls in, and a generator drawing from a flag-selected character set. */
module Password {
  import opened Text

  /** `StrengthLevel`, in the order of its `iota` values 0..4. */
  datatype Level = Empty | Weak | Fair | Good | Strong

  function Rank(l: Level): nat
  {
    match l
    case Empty => 0
    case Weak => 1
    case Fair => 2
    case Good => 3
    case Strong => 4
  }

  // ---------------------------------------------------------------------------
  // Scoring rules
  // ---------------------------------------------------------------------------

  /** The length score, from the byte length. */
  function LengthScore(n: nat): (s: nat)
    ensures s <= 40
  {
    if n >= 20 then 40
    else if n >= 16 then 35
    else if n >= 12 then 25
    else if n >= 8 then 15
    else if n >= 6 then 5
    else 0
  }

  /** The length score never decreases as the password grows. */
  lemma LengthScoreMonotone(a: nat, b: nat)
    requires a <= b
    ensures LengthScore(a) <= LengthScore(b)
  {
  }

  /** The class of a rune, examined in the order of the `switch`:
    * 0 lower case, 1 upper case, 2 digit, 3 anything else. */
  function ClassOf(c: char): (k: nat)
    ensures k < 4
    ensures k == 0 <==> 'a' <= c <= 'z'
    ensures k == 2 <==> IsDigit(c)
  {
    if 'a' <= c <= 'z' then 0
    else if 'A' <= c <= 'Z' then 1
    else if IsDigit(c) then 2
    else 3
  }

  /** Whether some rune of `s` is of class `k`. */
  function HasClass(s: string, k: nat): (b: bool)
    ensures b <==> exists i :: 0 <= i < |s| && ClassOf(s[i]) == k
  {
    if s == [] then false
    else
      var init := s[..|s| - 1];
      assert forall i :: 0 <= i < |init| ==> init[i] == s[i];
      HasClass(init, k) || ClassOf(s[|s| - 1]) == k
  }

  /** The number of classes present, 0 to 4. */
  function Variety(s: string): (v: nat)
    ensures v <= 4 && (s != [] ==> v >= 1)
  {
    assert s != [] ==> HasClass(s, ClassOf(s[0]));
    (if HasClass(s, 0) then 1 else 0) + (if HasClass(s, 1) then 1 else 0) +
    (if HasClass(s, 2) then 1 else 0) + (if HasClass(s, 3) then 1 else 0)
  }

  /** The distinct runes of `s` (the keys of the `unique` map). */
  function Distinct(s: string): (d: set<char>)
    ensures forall c :: c in d <==> c in s
  {
    if s == [] then {}
    else Distinct(s[..|s| - 1]) + {s[|s| - 1]}
  }

  /** There are never more distinct runes than runes. */
  lemma {:induction false} DistinctAtMost(s: string)
    ensures |Distinct(s)| <= |s|
  {
    if s != [] {
      DistinctAtMost(s[..|s| - 1]);
    }
  }

  /** A password whose runes are pairwise different has as many distinct runes as runes. */
  lemma {:induction false} DistinctAllDifferent(s: string)
    requires forall i, j :: 0 <= i < j < |s| ==> s[i] != s[j]
    ensures |Distinct(s)| == |s|
  {
    if s != [] {
      var init := s[..|s| - 1];
      DistinctAllDifferent(init);
      assert s[|s| - 1] !in Distinct(init);
    }
  }

  /** The uniqueness score for `u` distinct runes in `n` bytes: the thresholds
    * 0.9, 0.7, 0.5 and 0.3 on `u / n`, compared by cross-multiplication. */
  function UniqueScore(u: nat, n: nat): (s: nat)
    requires n > 0
    ensures s <= 20
  {
    if 10 * u >= 9 * n then 20
    else if 10 * u >= 7 * n then 15
    else if 10 * u >= 5 * n then 10
    else if 10 * u >= 3 * n then 5
    else 0
  }

  /** An ASCII password of pairwise different runes gets the full uniqueness score. */
  lemma AllDifferentFullUnique(s: string)
    requires s != [] && IsAscii(s)
    requires forall i, j :: 0 <= i < j < |s| ==> s[i] != s[j]
    ensures UniqueScore(|Distinct(s)|, ByteLen(s)) == 20
  {
    DistinctAllDifferent(s);
    ByteLenAscii(s);
  }

  /** The words whose presence, in any ASCII letter case, costs 20 points. */
  const CommonWords: seq<string> :=
    ["password", "123456", "qwerty", "admin", "letmein", "welcome", "monkey", "master", "passbook"]

  predicate HasCommonWord(lower: string)
  {
    exists i :: 0 <= i < |CommonWords| && Contains(lower, CommonWords[i])
  }

  /** Whether two runes are neighbours in code-point order. */
  predicate Adjacent(a: char, b: char)
  {
    b as int == a as int + 1 || b as int == a as int - 1
  }

  /** The number of neighbouring pairs of runes that are adjacent code points. */
  function Runs(s: string): (n: nat)
    ensures n <= |s|
  {
    if |s| <= 1 then 0
    else Runs(s[..|s| - 1]) + (if Adjacent(s[|s| - 2], s[|s| - 1]) then 1 else 0)
  }

  /** A password without adjacent neighbours has no run. */
  lemma {:induction false} RunsNone(s: string)
    requires forall i :: 1 <= i < |s| ==> !Adjacent(s[i - 1], s[i])
    ensures Runs(s) == 0
  {
    if |s| > 1 {
      RunsNone(s[..|s| - 1]);
    }
  }

  /** The deductions: 20 once for any common word, 10 for more than three runs. */
  function Penalty(s: string): (p: nat)
    ensures p <= 30
  {
    (if HasCommonWord(Lower(s)) then 20 else 0) + (if Runs(s) > 3 then 10 else 0)
  }

  /** The score before clamping. */
  function RawScore(s: string): int
    requires s != []
  {
    LengthScore(ByteLen(s)) + 10 * Variety(s) + UniqueScore(|Distinct(s)|, ByteLen(s)) - Penalty(s)
  }

  function LevelOf(score: int): Level
  {
    if score >= 70 then Strong
    else if score >= 50 then Good
    else if score >= 30 then Fair
    else Weak
  }

  function LabelOf(l: Level): string
  {
    match l
    case Empty => ""
    case Weak => "Weak"
    case Fair => "Fair"
    case Good => "Good"
    case Strong => "Strong"
  }

  /** What `PasswordStrength` returns. */
  function Strength(s: string): (int, Level, string)
  {
    if s == [] then (0, Empty, "")
    else
      var raw := RawScore(s);
      var score := if raw < 0 then 0 else if raw > 100 then 100 else raw;
      (score, LevelOf(score), LabelOf(LevelOf(score)))
  }

  // ---------------------------------------------------------------------------
  // Properties of the score
  // ---------------------------------------------------------------------------

  /** The unclamped sum never exceeds 100, so only the lower clamp can apply. */
  lemma RawAtMost100(s: string)
    requires s != []
    ensures RawScore(s) <= 100
  {
  }

  /** The empty password is the only one scored `Empty`; every other score lies in
    * [0, 100] with the level its score falls in and the level's label. */
  lemma StrengthShape(s: string)
    ensures s == [] <==> Strength(s).1 == Empty
    ensures s == [] ==> Strength(s) == (0, Empty, "")
    ensures 0 <= Strength(s).0 <= 100
    ensures s != [] ==> Strength(s).0 == (if RawScore(s) < 0 then 0 else RawScore(s))
    ensures Strength(s).2 == LabelOf(Strength(s).1)
  {
    if s != [] {
      RawAtMost100(s);
    }
  }

  /** A higher score never gives a lower level. */
  lemma LevelMonotone(a: int, b: int)
    requires a <= b
    ensures Rank(LevelOf(a)) <= Rank(LevelOf(b))
  {
  }

  /** The level thresholds. */
  lemma LevelThresholds(score: int)
    ensures LevelOf(score) == Strong <==> score >= 70
    ensures LevelOf(score) == Weak <==> score < 30
    ensures LevelOf(score) == Good <==> 50 <= score < 70
    ensures LevelOf(score) == Fair <==> 30 <= score < 50
  {
  }

  // ---------------------------------------------------------------------------
  // PasswordStrength
  // ---------------------------------------------------------------------------

  lemma HasClassStep(s: string, i: int, k: nat)
    requires 0 <= i < |s|
    ensures HasClass(s[..i + 1], k) == (HasClass(s[..i], k) || ClassOf(s[i]) == k)
  {
    assert s[..i + 1][..i] == s[..i];
  }

  /** The rune loop that sets the four class flags. */
  method ClassFlags(password: string) returns (hasLower: bool, hasUpper: bool, hasDigit: bool, hasSpecial: bool)
    ensures hasLower == HasClass(password, 0) && hasUpper == HasClass(password, 1)
    ensures hasDigit == HasClass(password, 2) && hasSpecial == HasClass(password, 3)
  {
    hasLower, hasUpper, hasDigit, hasSpecial := false, false, false, false;
    for i := 0 to |password|
      invariant hasLower == HasClass(password[..i], 0) && hasUpper == HasClass(password[..i], 1)
      invariant hasDigit == HasClass(password[..i], 2) && hasSpecial == HasClass(password[..i], 3)
    {
      var r := password[i];
      HasClassStep(password, i, 0);
      HasClassStep(password, i, 1);
      HasClassStep(password, i, 2);
      HasClassStep(password, i, 3);
      if 'a' <= r <= 'z' {
        hasLower := true;
      } else if 'A' <= r <= 'Z' {
        hasUpper := true;
      } else if IsDigit(r) {
        hasDigit := true;
      } else {
        hasSpecial := true;
      }
    }
    assert password[..|password|] == password;
  }

  /** The common-word loop, which stops at the first word found. */
  method CommonWordPenalty(lower: string) returns (penalty: nat)
    ensures penalty == (if HasCommonWord(lower) then 20 else 0)
  {
    penalty := 0;
    for i := 0 to |CommonWords|
      invariant penalty == 0
      invariant forall j :: 0 <= j < i ==> !Contains(lower, CommonWords[j])
    {
      if Contains(lower, CommonWords[i]) {
        penalty := penalty + 20;
        return;
      }
    }
  }

  /** The loop counting adjacent neighbours. */
  method CountRuns(runes: string) returns (count: nat)
    ensures count == Runs(runes)
  {
    count := 0;
    if |runes| == 0 {
      return;
    }
    for i := 1 to |runes|
      invariant count == Runs(runes[..i])
    {
      assert runes[..i + 1][..i] == runes[..i];
      if runes[i] as int == runes[i - 1] as int + 1 || runes[i] as int == runes[i - 1] as int - 1 {
        count := count + 1;
      }
    }
    assert runes[..|runes|] == runes;
  }

  /** The loop filling the `unique` map. */
  method UniqueRunes(password: string) returns (unique: set<char>)
    ensures unique == Distinct(password)
  {
    unique := {};
    for i := 0 to |password|
      invariant unique == Distinct(password[..i])
    {
      assert password[..i + 1][..i] == password[..i];
      unique := unique + {password[i]};
    }
    assert password[..|password|] == password;
  }

  /** `PasswordStrength`. */
  method PasswordStrength(password: string) returns (score: int, level: Level, name: string)
    ensures (score, level, name) == Strength(password)
  {
    if password == "" {
      return 0, Empty, "";
    }
    score := SumOfScores(password);
    if score < 0 {
      score := 0;
    }
    if score > 100 {
      score := 100;
    }
    if score >= 70 {
      level, name := Strong, "Strong";
    } else if score >= 50 {
      level, name := Good, "Good";
    } else if score >= 30 {
      level, name := Fair, "Fair";
    } else {
      level, name := Weak, "Weak";
    }
  }

  /** The body of `PasswordStrength` up to the clamp: the length, variety and
    * uniqueness scores minus the penalties. */
  method SumOfScores(password: string) returns (raw: int)
    requires password != ""
    ensures raw == RawScore(password)
  {
    var n := ByteLen(password);
    var lengthScore := LengthPoints(n);
    var varietyScore := VarietyPoints(password);
    var uniqueScore := UniquePoints(password, n);
    var penalty := PenaltyPoints(password);
    raw := lengthScore + varietyScore + uniqueScore - penalty;
  }

  /** The length score of `PasswordStrength`. */
  method LengthPoints(n: nat) returns (lengthScore: int)
    ensures lengthScore == LengthScore(n)
  {
    lengthScore := 0;
    if n >= 20 {
      lengthScore := 40;
    } else if n >= 16 {
      lengthScore := 35;
    } else if n >= 12 {
      lengthScore := 25;
    } else if n >= 8 {
      lengthScore := 15;
    } else if n >= 6 {
      lengthScore := 5;
    }
  }

  /** Ten points per character class present. */
  method VarietyPoints(password: string) returns (varietyScore: int)
    ensures varietyScore == 10 * Variety(password)
  {
    var hasLower, hasUpper, hasDigit, hasSpecial := ClassFlags(password);
    var variety: int := 0;
    if hasLower { variety := variety + 1; }
    if hasUpper { variety := variety + 1; }
    if hasDigit { variety := variety + 1; }
    if hasSpecial { variety := variety + 1; }
    varietyScore := variety * 10;
  }

  /** The uniqueness score: the ratio of distinct characters to the length `n`. */
  method UniquePoints(password: string, n: nat) returns (uniqueScore: int)
    requires n == ByteLen(password) && n > 0
    ensures uniqueScore == UniqueScore(|Distinct(password)|, n)
  {
    var unique := UniqueRunes(password);
    var u := |unique|;
    uniqueScore := 0;
    if 10 * u >= 9 * n {
      uniqueScore := 20;
    } else if 10 * u >= 7 * n {
      uniqueScore := 15;
    } else if 10 * u >= 5 * n {
      uniqueScore := 10;
    } else if 10 * u >= 3 * n {
      uniqueScore := 5;
    }
  }

  /** The common-word penalty, and ten more for more than three runs. */
  method PenaltyPoints(password: string) returns (penalty: int)
    ensures penalty == Penalty(password)
  {
    var wordPenalty := CommonWordPenalty(Lower(password));
    penalty := wordPenalty;
    var runs := CountRuns(password);
    if runs > 3 {
      penalty := penalty + 10;
    }
  }

  // ---------------------------------------------------------------------------
  // GeneratePassword
  // ---------------------------------------------------------------------------

  const Upper26 := "ABCDEFGHIJKLMNOPQRSTUVWXYZ"
  const Lower26 := "abcdefghijklmnopqrstuvwxyz"
  const Special := "!@#$%^&*()-_=+[]{}|;:,.<>?"
  const Fallback := "abcdefghijklmnopqrstuvwxyz0123456789"

  /** The character set: upper case, lower case and specials in that order, each
    * when its flag is set, or lower case and digits when no flag is set. */
  function Charset(useUpper: bool, useLower: bool, useSpecial: bool): (cs: string)
    ensures |cs| > 0
  {
    var cs := (if useUpper then Upper26 else "") + (if useLower then Lower26 else "") +
              (if useSpecial then Special else "");
    if cs == "" then Fallback else cs
  }

  lemma UpperMembers(c: char)
    ensures c in Upper26 <==> 'A' <= c <= 'Z'
  {
    assert forall i :: 0 <= i < 26 ==> Upper26[i] == ('A' as int + i) as char;
    if 'A' <= c <= 'Z' { assert Upper26[c as int - 'A' as int] == c; }
  }

  lemma LowerMembers(c: char)
    ensures c in Lower26 <==> 'a' <= c <= 'z'
  {
    assert forall i :: 0 <= i < 26 ==> Lower26[i] == ('a' as int + i) as char;
    if 'a' <= c <= 'z' { assert Lower26[c as int - 'a' as int] == c; }
  }

  lemma FallbackMembers(c: char)
    ensures c in Fallback <==> 'a' <= c <= 'z' || IsDigit(c)
  {
    assert Fallback == Lower26 + "0123456789";
    LowerMembers(c);
    assert forall i :: 0 <= i < 10 ==> "0123456789"[i] == ('0' as int + i) as char;
    if IsDigit(c) { assert "0123456789"[c as int - '0' as int] == c; }
  }

  lemma SpecialNoLetters(c: char)
    requires c in Special
    ensures !('A' <= c <= 'Z') && !('a' <= c <= 'z')
  {
  }

  /** Which characters the set holds. */
  lemma CharsetMembers(useUpper: bool, useLower: bool, useSpecial: bool, c: char)
    ensures useUpper || useLower || useSpecial ==>
      (c in Charset(useUpper, useLower, useSpecial) <==>
         (useUpper && 'A' <= c <= 'Z') || (useLower && 'a' <= c <= 'z') || (useSpecial && c in Special))
    ensures !useUpper && !useLower && !useSpecial ==>
      (c in Charset(useUpper, useLower, useSpecial) <==> 'a' <= c <= 'z' || IsDigit(c))
  {
    UpperMembers(c);
    LowerMembers(c);
    FallbackMembers(c);
    if c in Special {
      SpecialNoLetters(c);
    }
  }

  /** `GeneratePassword`: a byte array of `length` characters, the i-th taken at
    * the position `draws[i]` that the random source returned. */
  method GeneratePassword(length: nat, useUpper: bool, useLower: bool, useSpecial: bool, draws: seq<nat>)
    returns (r: string)
    requires |draws| == length
    requires forall i :: 0 <= i < |draws| ==> draws[i] < |Charset(useUpper, useLower, useSpecial)|
    ensures |r| == length
    ensures forall i :: 0 <= i < length ==> r[i] == Charset(useUpper, useLower, useSpecial)[draws[i]]
    ensures forall i :: 0 <= i < length ==> r[i] in Charset(useUpper, useLower, useSpecial)
  {
    var charset := BuildCharset(useUpper, useLower, useSpecial);
    r := DrawFrom(charset, draws);
  }

  /** The character-set part of `GeneratePassword`. */
  method BuildCharset(useUpper: bool, useLower: bool, useSpecial: bool) returns (charset: string)
    ensures charset == Charset(useUpper, useLower, useSpecial)
  {
    charset := "";
    if useUpper {
      charset := charset + Upper26;
    }
    assert charset == (if useUpper then Upper26 else "");
    if useLower {
      charset := charset + Lower26;
    }
    assert charset == (if useUpper then Upper26 else "") + (if useLower then Lower26 else "");
    if useSpecial {
      charset := charset + Special;
    }
    assert charset == (if useUpper then Upper26 else "") + (if useLower then Lower26 else "") +
                      (if useSpecial then Special else "");
    if charset == "" {
      charset := Fallback;
    }
  }

  /** The loop of `GeneratePassword`: a byte array filled with the drawn characters. */
  method DrawFrom(charset: string, draws: seq<nat>) returns (r: string)
    requires forall i :: 0 <= i < |draws| ==> draws[i] < |charset|
    ensures |r| == |draws|
    ensures forall i :: 0 <= i < |draws| ==> r[i] == charset[draws[i]]
  {
    var pass := new char[|draws|];
    for i := 0 to |draws|
      invariant forall j :: 0 <= j < i ==> pass[j] == charset[draws[j]]
    {
      pass[i] := charset[draws[i]];
    }
    r := pass[..];
  }
}
