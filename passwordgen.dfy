/** The password generator of the desktop app (`utils/passwordgen.go`): lower
  * case letters always, then upper case, digits and specials when asked for,
  * and one randomly chosen character of that set per position. */
module PasswordGen {
  import opened Text

  const Lowercase := "abcdefghijklmnopqrstuvwxyz"
  const Uppercase := "ABCDEFGHIJKLMNOPQRSTUVWXYZ"
  const Numbers := "0123456789"
  const SpecialChars := "!@#$%^&*()-_=+[]{}<>?/|:;.,~"

  /** The character set, in the order lower, upper, digits, specials. */
  function CharSet(useUpper: bool, useNumbers: bool, useSpecial: bool): (cs: string)
    ensures HasPrefix(cs, Lowercase)
    ensures |cs| >= 26
  {
    Lowercase + (if useUpper then Uppercase else "") + (if useNumbers then Numbers else "") +
    (if useSpecial then SpecialChars else "")
  }

  /** Each part sits at its fixed offset: upper case right after the lower case,
    * digits after those, specials last. */
  lemma CharSetLayout(useUpper: bool, useNumbers: bool, useSpecial: bool)
    ensures var cs := CharSet(useUpper, useNumbers, useSpecial);
      var u := if useUpper then 26 else 0;
      var d := if useNumbers then 10 else 0;
      |cs| == 26 + u + d + (if useSpecial then |SpecialChars| else 0) &&
      (useUpper ==> cs[26..52] == Uppercase) &&
      (useNumbers ==> cs[26 + u..36 + u] == Numbers) &&
      (useSpecial ==> cs[26 + u + d..] == SpecialChars)
  {
    var u := if useUpper then Uppercase else "";
    var d := if useNumbers then Numbers else "";
    var sp := if useSpecial then SpecialChars else "";
    assert CharSet(useUpper, useNumbers, useSpecial) == Lowercase + u + d + sp;
    Slices(Lowercase, u, d, sp);
  }

  lemma Slices<T>(a: seq<T>, b: seq<T>, c: seq<T>, d: seq<T>)
    ensures (a + b + c + d)[|a|..|a| + |b|] == b
    ensures (a + b + c + d)[|a| + |b|..|a| + |b| + |c|] == c
    ensures (a + b + c + d)[|a| + |b| + |c|..] == d
  {
  }

  /** A character of each enabled part belongs to the set. */
  lemma CharSetHolds(useUpper: bool, useNumbers: bool, useSpecial: bool, c: char)
    ensures c in Lowercase ==> c in CharSet(useUpper, useNumbers, useSpecial)
    ensures useUpper && c in Uppercase ==> c in CharSet(useUpper, useNumbers, useSpecial)
    ensures useNumbers && c in Numbers ==> c in CharSet(useUpper, useNumbers, useSpecial)
    ensures useSpecial && c in SpecialChars ==> c in CharSet(useUpper, useNumbers, useSpecial)
  {
    var u := if useUpper then Uppercase else "";
    var d := if useNumbers then Numbers else "";
    var sp := if useSpecial then SpecialChars else "";
    assert CharSet(useUpper, useNumbers, useSpecial) == Lowercase + u + d + sp;
  }

  /** `GeneratePassword`: `length` characters, the i-th at the position
    * `draws[i]` the random source returned; a negative length gives "". */
  method GeneratePassword(length: int, useUpper: bool, useNumbers: bool, useSpecial: bool, draws: seq<nat>)
    returns (password: string)
    requires |draws| == (if length > 0 then length else 0)
    requires forall i :: 0 <= i < |draws| ==> draws[i] < |CharSet(useUpper, useNumbers, useSpecial)|
    ensures |password| == |draws|
    ensures forall i :: 0 <= i < |password| ==> password[i] == CharSet(useUpper, useNumbers, useSpecial)[draws[i]]
    ensures forall i :: 0 <= i < |password| ==> password[i] in CharSet(useUpper, useNumbers, useSpecial)
  {
    var charSet := BuildCharSet(useUpper, useNumbers, useSpecial);
    password := "";
    var i := 0;
    while i < length
      invariant 0 <= i && (length > 0 ==> i <= length) && |password| == i
      invariant length <= 0 ==> i == 0
      invariant forall j :: 0 <= j < i ==> password[j] == charSet[draws[j]]
    {
      password := password + [charSet[draws[i]]];
      i := i + 1;
    }
  }

  /** The character-set part of `GeneratePassword`. */
  method BuildCharSet(useUpper: bool, useNumbers: bool, useSpecial: bool) returns (charSet: string)
    ensures charSet == CharSet(useUpper, useNumbers, useSpecial)
  {
    charSet := Lowercase;
    if useUpper {
      charSet := charSet + Uppercase;
    }
    assert charSet == Lowercase + (if useUpper then Uppercase else "");
    if useNumbers {
      charSet := charSet + Numbers;
    }
    assert charSet == Lowercase + (if useUpper then Uppercase else "") + (if useNumbers then Numbers else "");
    if useSpecial {
      charSet := charSet + SpecialChars;
    }
  }
}
