/** String operations of the Go standard library (`strings`, `strconv`) and of
    JavaScript's `String.prototype`, on strings modelled as sequences of Unicode
    scalar values.  Where Go counts bytes, `ByteLen` gives the UTF-8 length. */
module Text {

  // ---------------------------------------------------------------------------
  // Substring search
  // ---------------------------------------------------------------------------

  /** `sub` occurs in `s` starting at index `i`. */
  predicate Occurs(s: string, sub: string, i: int)
  {
    0 <= i && i + |sub| <= |s| && s[i..i + |sub|] == sub
  }

  /** Index of the first occurrence of `sub` in `s` at or after `from`, or -1
      (`indexOf(sub, from)` in JavaScript, `strings.Index` for `from == 0`). */
  function IndexFrom(s: string, sub: string, from: nat): (r: int)
    ensures r == -1 || (from <= r && Occurs(s, sub, r))
    ensures r == -1 ==> forall i :: from <= i ==> !Occurs(s, sub, i)
    ensures r != -1 ==> forall i :: from <= i < r ==> !Occurs(s, sub, i)
    decreases |s| - from
  {
    if from + |sub| > |s| then -1
    else if s[from..from + |sub|] == sub then from
    else IndexFrom(s, sub, from + 1)
  }

  /** An occurrence at `i` puts the `k`-th character of `sub` at `i + k`. */
  lemma OccursAt(s: string, sub: string, i: int, k: int)
    requires Occurs(s, sub, i) && 0 <= k < |sub|
    ensures s[i + k] == sub[k]
  {
    assert s[i..i + |sub|][k] == s[i + k];
  }

  /** The search finds `p` when `p` is the first occurrence at or after `from`. */
  lemma IndexFromIs(s: string, sub: string, from: nat, p: int)
    requires from <= p && Occurs(s, sub, p)
    requires forall i :: from <= i < p ==> !Occurs(s, sub, i)
    ensures IndexFrom(s, sub, from) == p
  {
  }

  /** The search fails when nothing occurs at or after `from`. */
  lemma IndexFromNone(s: string, sub: string, from: nat)
    requires forall i :: from <= i ==> !Occurs(s, sub, i)
    ensures IndexFrom(s, sub, from) == -1
  {
  }

  /** An occurrence inside a slice is an occurrence in the whole string. */
  lemma OccursFromSlice(s: string, a: int, b: int, sub: string, j: int)
    requires 0 <= a <= b <= |s| && Occurs(s[a..b], sub, j)
    ensures Occurs(s, sub, a + j)
  {
    var x, y := s[a + j..a + j + |sub|], s[a..b][j..j + |sub|];
    forall k | 0 <= k < |sub| ensures x[k] == y[k] {
      assert y[k] == s[a..b][j + k];
    }
    assert x == y;
  }

  /** An occurrence lying inside a slice is an occurrence in the slice. */
  lemma OccursInSlice(s: string, a: int, b: int, sub: string, i: int)
    requires 0 <= a <= i && i + |sub| <= b <= |s| && Occurs(s, sub, i)
    ensures Occurs(s[a..b], sub, i - a)
  {
    var x, y := s[a..b][i - a..i - a + |sub|], s[i..i + |sub|];
    forall k | 0 <= k < |sub| ensures x[k] == y[k] {
      assert x[k] == s[a..b][i - a + k];
    }
    assert x == y;
  }

  /** `strings.Contains` / `String.prototype.includes`. */
  predicate Contains(s: string, sub: string)
  {
    IndexFrom(s, sub, 0) != -1
  }

  lemma ContainsIff(s: string, sub: string)
    ensures Contains(s, sub) <==> exists i :: Occurs(s, sub, i)
  {
    if !Contains(s, sub) {
      forall i ensures !Occurs(s, sub, i) {
        if i >= 0 { assert 0 <= i; }
      }
    }
  }

  /** An occurrence inside a piece of a concatenation is an occurrence in the whole. */
  lemma OccursInConcat(a: string, b: string, sub: string, i: int)
    requires Occurs(b, sub, i)
    ensures Occurs(a + b, sub, |a| + i)
  {
    assert (a + b)[|a| + i..|a| + i + |sub|] == b[i..i + |sub|];
  }

  /** `strings.HasPrefix` / `String.prototype.startsWith`. */
  predicate HasPrefix(s: string, p: string)
  {
    |p| <= |s| && s[..|p|] == p
  }

  /** `strings.HasSuffix`. */
  predicate HasSuffix(s: string, p: string)
  {
    |p| <= |s| && s[|s| - |p|..] == p
  }

  /** `strings.TrimSuffix`. */
  function TrimSuffix(s: string, p: string): (r: string)
    ensures HasSuffix(s, p) ==> r + p == s
    ensures !HasSuffix(s, p) ==> r == s
  {
    if HasSuffix(s, p) then s[..|s| - |p|] else s
  }

  /** `strings.ContainsAny(s, chars)`: some character of `s` is one of `chars`. */
  predicate ContainsAny(s: string, chars: set<char>)
  {
    exists i :: 0 <= i < |s| && s[i] in chars
  }

  /** `s.split(sep)[0]` in JavaScript: the text before the first `sep`, or all of `s`. */
  function BeforeFirst(s: string, sep: string): (r: string)
    ensures HasPrefix(s, r)
    ensures Contains(s, sep) ==> Occurs(s, sep, |r|) && forall i :: 0 <= i < |r| ==> !Occurs(s, sep, i)
    ensures !Contains(s, sep) ==> r == s
  {
    var i := IndexFrom(s, sep, 0);
    if i == -1 then s else s[..i]
  }

  /** The text before the first `sep` of `p + sep + rest` is `p` when `p` itself
      holds no `sep`, for a one-character `sep`. */
  lemma BeforeFirstOfChar(s: string, p: string, c: char)
    requires HasPrefix(s, p + [c]) && c !in p
    ensures BeforeFirst(s, [c]) == p
  {
    forall i | 0 <= i < |p| ensures !Occurs(s, [c], i) {
      assert s[i] == p[i];
    }
    assert Occurs(s, [c], |p|) by { assert s[|p|..|p| + 1] == [s[|p|]]; }
    IndexFromIs(s, [c], 0, |p|);
  }

  // ---------------------------------------------------------------------------
  // White space and case
  // ---------------------------------------------------------------------------

  /** The characters for which Go's `unicode.IsSpace` holds. */
  const GoSpace: set<char> := {
    ' ', '\t', '\n', '\U{B}', '\U{C}', '\r', '\U{85}', '\U{A0}', '\U{1680}',
    '\U{2000}', '\U{2001}', '\U{2002}', '\U{2003}', '\U{2004}', '\U{2005}',
    '\U{2006}', '\U{2007}', '\U{2008}', '\U{2009}', '\U{200A}',
    '\U{2028}', '\U{2029}', '\U{202F}', '\U{205F}', '\U{3000}'}

  /** The characters `String.prototype.trim` removes: ECMAScript WhiteSpace and
      LineTerminator. */
  const JsSpace: set<char> := {
    ' ', '\t', '\n', '\U{B}', '\U{C}', '\r', '\U{A0}', '\U{FEFF}', '\U{1680}',
    '\U{2000}', '\U{2001}', '\U{2002}', '\U{2003}', '\U{2004}', '\U{2005}',
    '\U{2006}', '\U{2007}', '\U{2008}', '\U{2009}', '\U{200A}',
    '\U{2028}', '\U{2029}', '\U{202F}', '\U{205F}', '\U{3000}'}

  function TrimLeftBy(s: string, ws: set<char>): (r: string)
    ensures |r| <= |s|
    ensures r == [] || r[0] !in ws
  {
    if |s| > 0 && s[0] in ws then TrimLeftBy(s[1..], ws) else s
  }

  function TrimRightBy(s: string, ws: set<char>): (r: string)
    ensures |r| <= |s|
    ensures r == [] || r[|r| - 1] !in ws
    ensures r != [] ==> r[0] == s[0]
  {
    if |s| > 0 && s[|s| - 1] in ws then TrimRightBy(s[..|s| - 1], ws) else s
  }

  /** Go's `strings.TrimSpace`. */
  function TrimSpace(s: string): (r: string)
    ensures r == [] || (r[0] !in GoSpace && r[|r| - 1] !in GoSpace)
    ensures |r| <= |s|
  {
    TrimRightBy(TrimLeftBy(s, GoSpace), GoSpace)
  }

  /** JavaScript's `String.prototype.trim`. */
  function TrimJs(s: string): (r: string)
    ensures r == [] || (r[0] !in JsSpace && r[|r| - 1] !in JsSpace)
  {
    TrimRightBy(TrimLeftBy(s, JsSpace), JsSpace)
  }

  /** A string with no white space at either end is its own trimmed form. */
  lemma TrimByOfTrimmed(s: string, ws: set<char>)
    requires s == [] || (s[0] !in ws && s[|s| - 1] !in ws)
    ensures TrimRightBy(TrimLeftBy(s, ws), ws) == s
  {
  }

  function LowerChar(c: char): (d: char)
  {
    if 'A' <= c <= 'Z' then (c as int + 32) as char else c
  }

  function UpperChar(c: char): (d: char)
  {
    if 'a' <= c <= 'z' then (c as int - 32) as char else c
  }

  /** `strings.ToLower` / `String.prototype.toLowerCase`, on ASCII letters. */
  function Lower(s: string): (r: string)
    ensures |r| == |s| && forall i :: 0 <= i < |s| ==> r[i] == LowerChar(s[i])
  {
    seq(|s|, i requires 0 <= i < |s| => LowerChar(s[i]))
  }

  /** `strings.ToUpper`, on ASCII letters. */
  function Upper(s: string): (r: string)
    ensures |r| == |s| && forall i :: 0 <= i < |s| ==> r[i] == UpperChar(s[i])
  {
    seq(|s|, i requires 0 <= i < |s| => UpperChar(s[i]))
  }

  /** `strings.EqualFold`, on ASCII letters. */
  predicate EqualFold(a: string, b: string)
  {
    Lower(a) == Lower(b)
  }

  // ---------------------------------------------------------------------------
  // Building strings
  // ---------------------------------------------------------------------------

  /** `strings.Join`. */
  function Join(parts: seq<string>, sep: string): (r: string)
    ensures parts == [] ==> r == []
    ensures |parts| == 1 ==> r == parts[0]
  {
    if parts == [] then []
    else if |parts| == 1 then parts[0]
    else parts[0] + sep + Join(parts[1..], sep)
  }

  /** `strings.Repeat(string(c), n)`. */
  function Repeat(c: char, n: nat): (r: string)
    ensures |r| == n && forall i :: 0 <= i < n ==> r[i] == c
  {
    seq(n, _ => c)
  }

  /** `strings.ReplaceAll(s, string(c), "")`. */
  function RemoveChar(s: string, c: char): (r: string)
    ensures c !in r
    ensures |r| <= |s|
    ensures forall d :: d != c ==> (d in r <==> d in s)
  {
    if s == [] then []
    else if s[0] == c then RemoveChar(s[1..], c)
    else [s[0]] + RemoveChar(s[1..], c)
  }

  predicate IsDigit(c: char)
  {
    '0' <= c <= '9'
  }

  // ---------------------------------------------------------------------------
  // Byte length (Go's len on a string)
  // ---------------------------------------------------------------------------

  /** Number of bytes of the UTF-8 encoding of one scalar value. */
  function Utf8Width(c: char): (w: nat)
    ensures 1 <= w <= 4
    ensures w == 1 <==> c as int < 0x80
  {
    if c as int < 0x80 then 1
    else if c as int < 0x800 then 2
    else if c as int < 0x1_0000 then 3
    else 4
  }

  /** Go's `len(s)`: the length of the UTF-8 encoding of `s`. */
  function ByteLen(s: string): (n: nat)
    ensures |s| <= n <= 4 * |s|
  {
    if s == [] then 0 else Utf8Width(s[0]) + ByteLen(s[1..])
  }

  predicate IsAscii(s: string)
  {
    forall i :: 0 <= i < |s| ==> s[i] as int < 0x80
  }

  lemma {:induction false} ByteLenAscii(s: string)
    ensures ByteLen(s) == |s| <==> IsAscii(s)
  {
    if s != [] {
      ByteLenAscii(s[1..]);
      if IsAscii(s) {
        assert IsAscii(s[1..]) by {
          forall i | 0 <= i < |s[1..]| ensures s[1..][i] as int < 0x80 { assert s[1..][i] == s[i + 1]; }
        }
      } else if ByteLen(s) == |s| {
        assert Utf8Width(s[0]) == 1 && ByteLen(s[1..]) == |s| - 1;
        forall i | 0 <= i < |s| ensures s[i] as int < 0x80 {
          if i > 0 { assert s[i] == s[1..][i - 1]; }
        }
      }
    }
  }

  lemma {:induction false} ByteLenConcat(a: string, b: string)
    ensures ByteLen(a + b) == ByteLen(a) + ByteLen(b)
  {
    if a == [] {
      assert a + b == b;
    } else {
      assert (a + b)[1..] == a[1..] + b;
      ByteLenConcat(a[1..], b);
    }
  }

  // ---------------------------------------------------------------------------
  // Decimal formatting (fmt's %d, strconv.Itoa) and parsing (strconv.Atoi)
  // ---------------------------------------------------------------------------

  function DigitChar(d: nat): (c: char)
    requires d < 10
    ensures IsDigit(c)
  {
    ('0' as int + d) as char
  }

  /** Decimal representation of a natural number, without leading zeros. */
  function Itoa(n: nat): (r: string)
    ensures |r| >= 1
    ensures forall i :: 0 <= i < |r| ==> IsDigit(r[i])
    ensures n >= 10 <==> |r| >= 2
  {
    if n < 10 then [DigitChar(n)] else Itoa(n / 10) + [DigitChar(n % 10)]
  }

  /** Distinct numbers print differently. */
  lemma {:induction false} ItoaInjective(a: nat, b: nat)
    requires Itoa(a) == Itoa(b)
    ensures a == b
  {
    if a >= 10 && b >= 10 {
      var ra, rb := Itoa(a), Itoa(b);
      assert ra[..|ra| - 1] == Itoa(a / 10);
      assert rb[..|rb| - 1] == Itoa(b / 10);
      ItoaInjective(a / 10, b / 10);
      assert ra[|ra| - 1] == DigitChar(a % 10);
    }
  }

  function DigitValue(c: char): (d: nat)
    requires IsDigit(c)
    ensures d < 10 && DigitChar(d) == c
  {
    c as int - '0' as int
  }

  /** Value of a string of ASCII digits (what `strconv.Atoi` returns for one). */
  function DigitsValue(s: string): (v: nat)
    requires forall i :: 0 <= i < |s| ==> IsDigit(s[i])
  {
    if s == [] then 0 else DigitsValue(s[..|s| - 1]) * 10 + DigitValue(s[|s| - 1])
  }
}
