/** The plain-text entry format of the Electron store (`src/app/lib/content-parser.js`):
    the password on the first line, then `key: value` lines, an `otpauth://` line and
    free-form notes.  `CreateContentString` writes it and `GetCredentialObject` reads it. */
module ContentParser {
  import opened Wrappers
  import opened Text
  import Totp

  // ---------------------------------------------------------------------------
  // Lines
  // ---------------------------------------------------------------------------

  /** `s.split('\n')`. */
  function Lines(s: string): (ls: seq<string>)
    ensures |ls| >= 1
    ensures forall i :: 0 <= i < |ls| ==> '\n' !in ls[i]
    decreases |s|
  {
    if s == [] then [[]]
    else if s[0] == '\n' then [[]] + Lines(s[1..])
    else var r := Lines(s[1..]); [[s[0]] + r[0]] + r[1..]
  }

  /** Each line followed by a newline: the shape `createContentString` writes. */
  function Unlines(ls: seq<string>): (s: string)
    ensures |s| >= |ls|
  {
    if ls == [] then [] else ls[0] + "\n" + Unlines(ls[1..])
  }

  lemma {:induction false} UnlinesSnoc(ls: seq<string>, l: string)
    ensures Unlines(ls + [l]) == Unlines(ls) + l + "\n"
  {
    if ls == [] {
      assert Unlines([l]) == l + "\n" + Unlines([]);
    } else {
      assert (ls + [l])[1..] == ls[1..] + [l];
      UnlinesSnoc(ls[1..], l);
    }
  }

  lemma {:induction false} UnlinesAppend(xs: seq<string>, ys: seq<string>)
    ensures Unlines(xs + ys) == Unlines(xs) + Unlines(ys)
  {
    if xs == [] {
      assert xs + ys == ys;
    } else {
      assert (xs + ys)[1..] == xs[1..] + ys;
      UnlinesAppend(xs[1..], ys);
    }
  }

  /** Splitting after a newline-free first line yields that line, then the rest. */
  lemma {:induction false} LinesCons(l: string, rest: string)
    requires '\n' !in l
    ensures Lines(l + "\n" + rest) == [l] + Lines(rest)
  {
    if l == [] {
      assert (l + "\n" + rest)[1..] == rest;
    } else {
      assert (l + "\n" + rest)[1..] == l[1..] + "\n" + rest;
      LinesCons(l[1..], rest);
      assert [l[0]] + l[1..] == l;
    }
  }

  /** Splitting undoes writing: newline-free lines come back, plus the empty tail. */
  lemma {:induction false} LinesOfUnlines(ls: seq<string>)
    requires forall i :: 0 <= i < |ls| ==> '\n' !in ls[i]
    ensures Lines(Unlines(ls)) == ls + [[]]
  {
    if ls != [] {
      LinesCons(ls[0], Unlines(ls[1..]));
      LinesOfUnlines(ls[1..]);
      assert ls == [ls[0]] + ls[1..];
    }
  }

  /** Rejoining the lines with newlines gives back the text. */
  lemma {:induction false} JoinLines(s: string)
    ensures Join(Lines(s), "\n") == s
    decreases |s|
  {
    if s != [] {
      var r := Lines(s[1..]);
      JoinLines(s[1..]);
      if s[0] == '\n' {
        JoinCons([], r);
      } else {
        JoinHeadExtend(s[0], r);
      }
      assert s == [s[0]] + s[1..];
    }
  }

  lemma JoinCons(a: string, r: seq<string>)
    requires |r| >= 1
    ensures Join([a] + r, "\n") == a + "\n" + Join(r, "\n")
  {
    assert ([a] + r)[1..] == r;
  }

  /** Putting a character in front of the first line puts it in front of the text. */
  lemma JoinHeadExtend(c: char, r: seq<string>)
    requires |r| >= 1
    ensures Join([[c] + r[0]] + r[1..], "\n") == [c] + Join(r, "\n")
  {
    var ls := [[c] + r[0]] + r[1..];
    if |r| > 1 {
      JoinUnfold(ls, "\n");
      JoinUnfold(r, "\n");
      assert ls[1..] == r[1..];
      ConcatAssoc([c], r[0], "\n", Join(r[1..], "\n"));
    }
  }

  lemma JoinUnfold(parts: seq<string>, sep: string)
    requires |parts| > 1
    ensures Join(parts, sep) == parts[0] + sep + Join(parts[1..], sep)
  {
  }

  lemma ConcatAssoc<T>(a: seq<T>, b: seq<T>, c: seq<T>, d: seq<T>)
    ensures (a + b) + c + d == a + (b + c + d)
  {
  }

  // ---------------------------------------------------------------------------
  // Writing: createContentString
  // ---------------------------------------------------------------------------

  /** A JavaScript object as its `Object.entries`, in key order; a value counts as
      set ("truthy") when it is not empty. */
  type Entries = seq<(string, string)>

  /** `content[key]`, with `""` for a missing key. */
  function Get(c: Entries, key: string): (v: string)
  {
    if c == [] then "" else if c[0].0 == key then c[0].1 else Get(c[1..], key)
  }

  /** Keys written by the fixed header, or never written (`name`). */
  const Excludes: seq<string> := ["name", "username", "url", "otpToken", "password"]

  function FieldLine(key: string, value: string): string
  {
    key + ": " + value
  }

  const OtpPrefix := "otpauth://totp/totp-secret?secret="
  const OtpSuffix := "&issuer=totp-secret"

  function OtpLine(token: string): string
  {
    OtpPrefix + token + OtpSuffix
  }

  /** Line 1 (the password, possibly empty) and the username, url and otpauth lines
      for the values that are set, in this order. */
  function HeaderOf(password: string, username: string, url: string, token: string): (ls: seq<string>)
    ensures 1 <= |ls| <= 4 && ls[0] == password
  {
    [password] + HeaderFields(username, url, token)
  }

  function HeaderFields(username: string, url: string, token: string): seq<string>
  {
    var ls := AppendIf([], username != "", FieldLine("username", username));
    var ls := AppendIf(ls, url != "", FieldLine("url", url));
    AppendIf(ls, token != "", OtpLine(token))
  }

  function AppendIf(ls: seq<string>, cond: bool, l: string): (r: seq<string>)
    ensures |r| == |ls| + (if cond then 1 else 0) && r[..|ls|] == ls
    ensures cond ==> r[|ls|] == l
  {
    if cond then ls + [l] else ls
  }

  function HeaderLines(c: Entries): (ls: seq<string>)
  {
    HeaderOf(Get(c, "password"), Get(c, "username"), Get(c, "url"), Get(c, "otpToken"))
  }

  /** Whether `createContentString` writes the entry as an extra line. */
  predicate IsExtra(e: (string, string))
  {
    e.0 !in Excludes && e.1 != ""
  }

  /** One `key: value` line per set entry outside `Excludes`, in key order. */
  function ExtraLines(c: Entries): (ls: seq<string>)
    ensures |ls| <= |c|
  {
    if c == [] then []
    else AppendIf(ExtraLines(c[..|c| - 1]), IsExtra(c[|c| - 1]), FieldLine(c[|c| - 1].0, c[|c| - 1].1))
  }

  function OutLines(c: Entries): seq<string>
  {
    HeaderLines(c) + ExtraLines(c)
  }

  /** The text `createContentString` produces for `c`. */
  function ContentString(c: Entries): string
  {
    Unlines(OutLines(c))
  }

  /** Lines 1 to 4 of `createContentString`: the password line and the optional
      username, url and otpauth lines. */
  method WriteHeader(content: Entries) returns (s: string)
    ensures s == Unlines(HeaderLines(content))
  {
    var password := Get(content, "password");
    ghost var fields: seq<string> := [];
    if password != "" {
      s := password + "\n";
    } else {
      s := "\n";
    }
    assert s == Unlines([password] + fields);
    var username := Get(content, "username");
    s := WriteLineIf(s, password, fields, username != "", FieldLine("username", username));
    fields := AppendIf(fields, username != "", FieldLine("username", username));
    var url := Get(content, "url");
    s := WriteLineIf(s, password, fields, url != "", FieldLine("url", url));
    fields := AppendIf(fields, url != "", FieldLine("url", url));
    var token := Get(content, "otpToken");
    s := WriteLineIf(s, password, fields, token != "", OtpLine(token));
  }

  /** One optional header line: written, with its newline, when its value is set. */
  method WriteLineIf(s: string, ghost first: string, ghost fields: seq<string>, cond: bool, l: string) returns (s': string)
    requires s == Unlines([first] + fields)
    ensures s' == Unlines([first] + AppendIf(fields, cond, l))
  {
    s' := s;
    if cond {
      UnlinesSnoc([first] + fields, l);
      assert [first] + (fields + [l]) == [first] + fields + [l];
      s' := s + l + "\n";
    }
  }

  /** `createContentString`: the header, then one `key: value` line per set entry
      outside `Excludes`, in key order. */
  method CreateContentString(content: Entries) returns (s: string)
    ensures s == ContentString(content)
  {
    s := WriteHeader(content);
    var extra := WriteExtraLines(content);
    s := s + extra;
    UnlinesAppend(HeaderLines(content), ExtraLines(content));
  }

  /** The `for ... of Object.entries(content)` loop of `createContentString`. */
  method WriteExtraLines(content: Entries) returns (s: string)
    ensures s == Unlines(ExtraLines(content))
  {
    s := "";
    ghost var extra: seq<string> := [];
    var i := 0;
    while i < |content|
      invariant 0 <= i <= |content|
      invariant extra == ExtraLines(content[..i])
      invariant s == Unlines(extra)
    {
      var (key, value) := content[i];
      ExtraLinesStep(content, i);
      if key !in Excludes && value != "" {
        UnlinesSnoc(extra, FieldLine(key, value));
        s := s + FieldLine(key, value) + "\n";
      }
      extra := AppendIf(extra, IsExtra((key, value)), FieldLine(key, value));
      i := i + 1;
    }
    assert content[..|content|] == content;
  }

  lemma ExtraLinesStep(c: Entries, i: nat)
    requires i < |c|
    ensures ExtraLines(c[..i + 1]) == AppendIf(ExtraLines(c[..i]), IsExtra(c[i]), FieldLine(c[i].0, c[i].1))
  {
    assert c[..i + 1][..i] == c[..i];
  }

  /** The text always starts with the password line: the password and a newline, or a
      lone newline when no password is set. */
  lemma ContentStringStartsWithPassword(c: Entries)
    ensures HasPrefix(ContentString(c), Get(c, "password") + "\n")
  {
    var ls := OutLines(c);
    assert ls[0] == Get(c, "password");
    assert Unlines(ls) == ls[0] + "\n" + Unlines(ls[1..]);
  }

  /** Entries whose keys and values fit on a line of `key: value`. */
  predicate LineSafe(c: Entries)
  {
    forall i :: 0 <= i < |c| ==> '\n' !in c[i].0 && '\n' !in c[i].1 && ':' !in c[i].0
  }

  lemma GetLineSafe(c: Entries, key: string)
    requires LineSafe(c)
    ensures '\n' !in Get(c, key)
  {
  }

  predicate NewlineFree(ls: seq<string>)
  {
    forall i :: 0 <= i < |ls| ==> '\n' !in ls[i]
  }

  lemma AppendIfNewlineFree(ls: seq<string>, cond: bool, l: string)
    requires NewlineFree(ls) && '\n' !in l
    ensures NewlineFree(AppendIf(ls, cond, l))
  {
  }

  lemma {:induction false} ExtraLinesNewlineFree(c: Entries)
    requires LineSafe(c)
    ensures NewlineFree(ExtraLines(c))
  {
    if c != [] {
      ExtraLinesNewlineFree(c[..|c| - 1]);
      var last := c[|c| - 1];
      assert '\n' !in FieldLine(last.0, last.1);
      AppendIfNewlineFree(ExtraLines(c[..|c| - 1]), IsExtra(last), FieldLine(last.0, last.1));
    }
  }

  lemma HeaderNewlineFree(c: Entries)
    requires LineSafe(c)
    ensures NewlineFree(HeaderLines(c))
  {
    var pw, u, l, t := Get(c, "password"), Get(c, "username"), Get(c, "url"), Get(c, "otpToken");
    GetLineSafe(c, "password");
    GetLineSafe(c, "username");
    GetLineSafe(c, "url");
    GetLineSafe(c, "otpToken");
    FieldLineNewlineFree("username", u);
    FieldLineNewlineFree("url", l);
    OtpLineNewlineFree(t);
    var ls1 := AppendIf([], u != "", FieldLine("username", u));
    var ls2 := AppendIf(ls1, l != "", FieldLine("url", l));
    AppendIfNewlineFree([], u != "", FieldLine("username", u));
    AppendIfNewlineFree(ls1, l != "", FieldLine("url", l));
    AppendIfNewlineFree(ls2, t != "", OtpLine(t));
    ConsNewlineFree(pw, HeaderFields(u, l, t));
  }

  lemma FieldLineNewlineFree(key: string, v: string)
    requires '\n' !in key && '\n' !in v
    ensures '\n' !in FieldLine(key, v)
  {
  }

  lemma OtpLineNewlineFree(t: string)
    requires '\n' !in t
    ensures '\n' !in OtpLine(t)
  {
    assert forall i :: 0 <= i < |OtpPrefix| ==> OtpPrefix[i] != '\n';
    assert forall i :: 0 <= i < |OtpSuffix| ==> OtpSuffix[i] != '\n';
  }

  lemma ConsNewlineFree(l: string, ls: seq<string>)
    requires '\n' !in l && NewlineFree(ls)
    ensures NewlineFree([l] + ls)
  {
  }

  /** Line structure of the written text: the header lines, one line per extra entry,
      and the empty text after the final newline, provided nothing spans lines. */
  lemma LinesOfContentString(c: Entries)
    requires LineSafe(c)
    ensures Lines(ContentString(c))
      == [Get(c, "password")] + (HeaderFields(Get(c, "username"), Get(c, "url"), Get(c, "otpToken")) + (ExtraLines(c) + [[]]))
  {
    var pw, hf, e := Get(c, "password"), HeaderFields(Get(c, "username"), Get(c, "url"), Get(c, "otpToken")), ExtraLines(c);
    OutLinesNewlineFree(c);
    LinesOfUnlines(OutLines(c));
    Reassociate([pw], hf, e, [[]]);
  }

  lemma OutLinesNewlineFree(c: Entries)
    requires LineSafe(c)
    ensures NewlineFree(OutLines(c))
  {
    HeaderNewlineFree(c);
    ExtraLinesNewlineFree(c);
  }

  lemma Reassociate(a: seq<string>, b: seq<string>, c: seq<string>, d: seq<string>)
    ensures a + b + c + d == a + (b + (c + d))
  {
  }

  // ---------------------------------------------------------------------------
  // Reading: getCredValue, getNote, getCredentialObject
  // ---------------------------------------------------------------------------

  /** `s.split(sep)[1]` for a non-empty `sep`: the text between the first and the
      second occurrence of `sep` (or to the end), `None` (undefined) without one. */
  function SplitSecond(s: string, sep: string): (r: Option<string>)
    requires sep != []
    ensures r.None? <==> !Contains(s, sep)
    ensures r.Some? ==> HasPrefix(s[IndexFrom(s, sep, 0) + |sep|..], r.value)
  {
    var p := IndexFrom(s, sep, 0);
    if p == -1 then None
    else
      var q := IndexFrom(s, sep, p + |sep|);
      if q == -1 then Some(s[p + |sep|..]) else Some(s[p + |sep|..q])
  }

  /** `SplitSecond` when the first occurrence is at `p` and the next one is not
      before `n`: the piece starts with everything up to `n`. */
  lemma SplitSecondUpTo(s: string, sep: string, p: int, n: int)
    requires sep != [] && Occurs(s, sep, p) && p + |sep| <= n <= |s|
    requires forall i :: 0 <= i < p ==> !Occurs(s, sep, i)
    requires forall i :: p + |sep| <= i < n ==> !Occurs(s, sep, i)
    ensures SplitSecond(s, sep).Some? && HasPrefix(SplitSecond(s, sep).value, s[p + |sep|..n])
  {
    IndexFromIs(s, sep, 0, p);
    var q := IndexFrom(s, sep, p + |sep|);
    assert q == -1 || q >= n;
    var m := p + |sep|;
    if q == -1 {
      assert SplitSecond(s, sep) == Some(s[m..]);
      SliceOfSlice(s, m, n, |s|);
    } else {
      assert SplitSecond(s, sep) == Some(s[m..q]);
      SliceOfSlice(s, m, n, q);
    }
  }

  lemma SliceOfSlice(s: string, m: int, n: int, q: int)
    requires 0 <= m <= n <= q <= |s|
    ensures s[m..q][..n - m] == s[m..n] && s[m..][..n - m] == s[m..n]
  {
  }

  /** `getCredValue`: the text after the first `key:` up to the next `key:` or the
      end of that line; empty when `key:` is absent. */
  function GetCredValue(content: string, key: string): (r: string)
    ensures '\n' !in r
    ensures !Contains(content, key + ":") ==> r == ""
    ensures r != "" ==> HasPrefix(SplitSecond(content, key + ":").value, r)
    ensures Contains(content, key + ":") ==>
      var v := SplitSecond(content, key + ":").value;
      r == v || HasPrefix(v, r + "\n")
  {
    var sp := SplitSecond(content, key + ":");
    if sp.None? || sp.value == "" then ""
    else
      var v := BeforeFirst(sp.value, "\n");
      assert Contains(sp.value, "\n") ==> sp.value[..|v| + 1] == v + "\n" by {
        if Contains(sp.value, "\n") {
          assert Occurs(sp.value, "\n", |v|);
          assert sp.value[..|v| + 1] == sp.value[..|v|] + sp.value[|v|..|v| + 1];
        }
      }
      assert '\n' !in v by {
        forall i | 0 <= i < |v| ensures v[i] != '\n' {
          assert !Occurs(sp.value, "\n", i);
          assert sp.value[i] == v[i];
          assert sp.value[i..i + 1] == [sp.value[i]];
        }
      }
      v
  }

  /** The value of a `key:` line is found when no earlier text contains `key:`. */
  lemma GetCredValueOfLine(pre: string, key: string, v: string, post: string)
    requires '\n' !in key && '\n' !in v
    requires !Contains(pre + key, key + ":") && !Contains(v, key + ":")
    ensures v != "" ==> GetCredValue(pre + key + ":" + v + "\n" + post, key) == v
  {
    var sep := key + ":";
    var s := pre + key + ":" + v + "\n" + post;
    var start := |pre| + |sep|;
    NoSepBeforeLine(pre, key, v, post);
    NoSepInLine(pre, key, v, post);
    SplitSecondUpTo(s, sep, |pre|, start + |v| + 1);
    var piece := SplitSecond(s, sep).value;
    assert s[start..start + |v| + 1] == v + "\n";
    BeforeFirstOfChar(piece, v, '\n');
  }

  /** In `pre + key + ":" + ...`, the first `key:` is the one after `pre`. */
  lemma NoSepBeforeLine(pre: string, key: string, v: string, post: string)
    requires !Contains(pre + key, key + ":")
    ensures Occurs(pre + key + ":" + v + "\n" + post, key + ":", |pre|)
    ensures forall i :: 0 <= i < |pre| ==> !Occurs(pre + key + ":" + v + "\n" + post, key + ":", i)
  {
    var sep := key + ":";
    var s := pre + key + ":" + v + "\n" + post;
    assert s[|pre|..|pre| + |sep|] == sep;
    ContainsIff(pre + key, sep);
    assert s[..|pre| + |key|] == pre + key;
    forall i | 0 <= i < |pre| ensures !Occurs(s, sep, i) {
      if Occurs(s, sep, i) {
        OccursInSlice(s, 0, |pre| + |key|, sep, i);
        assert false;
      }
    }
  }

  /** No `key:` starts inside the value or at its terminating newline. */
  lemma NoSepInLine(pre: string, key: string, v: string, post: string)
    requires '\n' !in key && '\n' !in v && !Contains(v, key + ":")
    ensures var start := |pre| + |key| + 1;
      forall i :: start <= i < start + |v| + 1 ==> !Occurs(pre + key + ":" + v + "\n" + post, key + ":", i)
  {
    var sep := key + ":";
    var s := pre + key + ":" + v + "\n" + post;
    var start := |pre| + |sep|;
    ContainsIff(v, sep);
    assert s[start..start + |v|] == v;
    assert s[start + |v|] == '\n';
    assert '\n' !in sep;
    forall i | start <= i < start + |v| + 1 ensures !Occurs(s, sep, i) {
      if Occurs(s, sep, i) {
        if i + |sep| <= start + |v| {
          OccursInSlice(s, start, start + |v|, sep, i);
          assert false;
        } else {
          OccursAt(s, sep, i, start + |v| - i);
          assert false;
        }
      }
    }
  }

  /** `getNote`: `value` appended to the notes so far, after a newline when those are
      non-empty; an empty `value` leaves them as they are (missing becomes `""`). */
  function GetNote(current: Option<string>, value: string): (r: string)
    ensures value == "" ==> r == (if current.Some? then current.value else "")
  {
    var cur := if current.Some? then current.value else "";
    if value == "" then cur
    else if |cur| > 0 then cur + "\n" + value
    else value
  }

  /** The fields `getCredentialObject` returns: `raw` is the input text and `otp`
      carries `otpUrl`, `otp` and `remainingTime`. */
  datatype Credential = Credential(
    password: string,
    username: Option<string>,
    url: Option<string>,
    notes: Option<string>,
    otp: Option<Totp.OtpInfo>,
    raw: string)

  /** What the line loop has gathered: the keyed fields (missing until set) and the
      last `otpauth` line. */
  datatype Scan = Scan(username: Option<string>, url: Option<string>, notes: Option<string>, otpUrl: string)

  const Start := Scan(None, None, None, "")

  /** A line without a colon, or a `key:` line with its key and trimmed value. */
  datatype LineKind = Plain | Keyed(key: string, value: string)

  /** `line.split(":")[0]` and the trimmed `line.split(key + ":")[1]`. */
  function Classify(line: string): (k: LineKind)
    ensures k.Plain? <==> ':' !in line
  {
    if Contains(line, ":") then
      var key := BeforeFirst(line, ":");
      assert ':' in line by {
        var p := IndexFrom(line, ":", 0);
        assert line[p..p + 1] == ":";
        assert line[p] == ':';
      }
      var v := SplitSecond(line, key + ":");
      Keyed(key, if v.Some? then TrimJs(v.value) else "")
    else
      assert ':' !in line by {
        forall i | 0 <= i < |line| ensures line[i] != ':' {
          assert line[i..i + 1] == [line[i]];
          assert !Occurs(line, ":", i);
        }
      }
      Plain
  }

  /** A line that sets the keyed field `key`. */
  predicate SetsKey(line: string, key: string)
  {
    Classify(line).Keyed? && Classify(line).key == key
  }

  /** What a line adds to the notes: a colon-less or unknown-key line whole, a
      `notes:` line its value; `None` for the other keys. */
  function NoteOf(line: string): Option<string>
  {
    match Classify(line)
    case Plain => Some(line)
    case Keyed(key, value) =>
      if key == "notes" then Some(value)
      else if key in ["username", "url", "otpauth"] then None
      else Some(line)
  }

  /** The effect of one iteration of the `forEach` in `getCredentialObject`, field by
      field: `username:` and `url:` lines set their field, an `otpauth` line is kept
      whole, and every other line adds its note contribution. */
  function Step(s: Scan, line: string): Scan
  {
    Scan(
      if SetsKey(line, "username") then Some(Classify(line).value) else s.username,
      if SetsKey(line, "url") then Some(Classify(line).value) else s.url,
      match NoteOf(line) case Some(v) => Some(GetNote(s.notes, v)) case None => s.notes,
      if SetsKey(line, "otpauth") then line else s.otpUrl)
  }

  /** The loop state after the lines `ls`, in order. */
  function Fold(ls: seq<string>): Scan
  {
    if ls == [] then Start else Step(Fold(ls[..|ls| - 1]), ls[|ls| - 1])
  }

  /** The object `getCredentialObject` returns for `content`, with `generate` the
      `otpauth` code generator and `nowMs` the clock; an error when the generator
      throws on the last `otpauth` line. */
  function CredentialOf(content: string, generate: string -> Option<string>, nowMs: nat): Result<Credential>
  {
    var ls := Lines(content);
    var s := Fold(ls[1..]);
    var info := Totp.GetOtpInfo(s.otpUrl, generate, nowMs);
    if info.Err? then Err(info.msg)
    else Ok(Credential(ls[0], s.username, s.url, s.notes, info.value, content))
  }

  /** `getCredentialObject`: the loop over the lines after the first, then the OTP
      information for the last `otpauth` line, which throws when that line cannot be
      parsed. */
  method GetCredentialObject(content: string, generate: string -> Option<string>, nowMs: nat)
    returns (r: Result<Credential>)
    ensures r == CredentialOf(content, generate, nowMs)
    ensures r.Err? <==> Fold(Lines(content)[1..]).otpUrl != "" && generate(Fold(Lines(content)[1..]).otpUrl).None?
    ensures r.Ok? ==> r.value.raw == content && r.value.password == Lines(content)[0]
  {
    var lines := Lines(content);
    var password := lines[0];
    lines := lines[1..];
    var s := Start;
    assert lines[..0] == [];
    var otpUrl := "";
    var i := 0;
    while i < |lines|
      invariant 0 <= i <= |lines|
      invariant s.(otpUrl := otpUrl) == Fold(lines[..i])
    {
      var kind := Classify(lines[i]);
      FoldStep(lines, i);
      StepByKind(s.(otpUrl := otpUrl), lines[i]);
      s, otpUrl := ScanLine(s, otpUrl, lines[i], kind);
      i := i + 1;
    }
    assert lines[..|lines|] == lines;
    var otp: Option<Totp.OtpInfo> := None;
    if otpUrl != "" && |otpUrl| > 0 {
      var info := Totp.GetOtpInfo(otpUrl, generate, nowMs);
      if info.Err? {
        return Err(info.msg);
      }
      if info.value.Some? {
        otp := info.value;
      }
    }
    r := Ok(Credential(password, s.username, s.url, s.notes, otp, content));
  }

  lemma FoldStep(ls: seq<string>, i: nat)
    requires i < |ls|
    ensures Fold(ls[..i + 1]) == Step(Fold(ls[..i]), ls[i])
  {
    assert ls[..i + 1][..i] == ls[..i];
  }

  /** `Step` by the kind of the line. */
  function StepKind(s: Scan, line: string, kind: LineKind): Scan
  {
    match kind
    case Plain => s.(notes := Some(GetNote(s.notes, line)))
    case Keyed(key, value) =>
      if key == "username" then s.(username := Some(value))
      else if key == "url" then s.(url := Some(value))
      else if key == "notes" then s.(notes := Some(GetNote(s.notes, value)))
      else if key == "otpauth" then s.(otpUrl := line)
      else s.(notes := Some(GetNote(s.notes, line)))
  }

  lemma StepByKind(s: Scan, line: string)
    ensures Step(s, line) == StepKind(s, line, Classify(line))
  {
  }

  /** The body of the `forEach` in `getCredentialObject` for a line of kind
      `kind`, with `otpUrl` kept beside the object being built. */
  method ScanLine(s: Scan, otpUrl: string, line: string, kind: LineKind) returns (s': Scan, otpUrl': string)
    ensures s'.(otpUrl := otpUrl') == StepKind(s.(otpUrl := otpUrl), line, kind)
  {
    s', otpUrl' := s, otpUrl;
    match kind {
    case Plain =>
      s' := s.(notes := Some(GetNote(s.notes, line)));
    case Keyed(key, value) =>
      if key == "username" || key == "url" || key == "notes" || key == "otpauth" {
        if key == "notes" {
          s' := s.(notes := Some(GetNote(s.notes, value)));
        } else if key == "otpauth" {
          otpUrl' := line;
        } else if key == "username" {
          s' := s.(username := Some(value));
        } else {
          s' := s.(url := Some(value));
        }
      } else {
        s' := s.(notes := Some(GetNote(s.notes, line)));
      }
    }
  }

  // ---------------------------------------------------------------------------
  // Reference definitions of what the loop gathers
  // ---------------------------------------------------------------------------

  /** The value of the last line whose key is `key`, if any. */
  function LastKeyed(ls: seq<string>, key: string): (r: Option<string>)
    ensures r.Some? ==> exists i :: 0 <= i < |ls| && Classify(ls[i]) == Keyed(key, r.value)
  {
    if ls == [] then None
    else if Classify(ls[|ls| - 1]).Keyed? && Classify(ls[|ls| - 1]).key == key then
      Some(Classify(ls[|ls| - 1]).value)
    else LastKeyed(ls[..|ls| - 1], key)
  }

  /** The last line whose key is `otpauth`, whole, or `""`. */
  function LastOtpLine(ls: seq<string>): (r: string)
    ensures r != "" ==> r in ls && Classify(r).Keyed? && Classify(r).key == "otpauth"
  {
    if ls == [] then ""
    else if Classify(ls[|ls| - 1]).Keyed? && Classify(ls[|ls| - 1]).key == "otpauth" then ls[|ls| - 1]
    else LastOtpLine(ls[..|ls| - 1])
  }

  /** The note contributions of the lines, in order, empty ones included. */
  function NoteValues(ls: seq<string>): (r: seq<string>)
    ensures |r| <= |ls|
  {
    if ls == [] then []
    else NoteValues(ls[..|ls| - 1]) + (match NoteOf(ls[|ls| - 1]) case Some(v) => [v] case None => [])
  }

  function NonEmpty(vs: seq<string>): (r: seq<string>)
    ensures forall i :: 0 <= i < |r| ==> r[i] != ""
  {
    if vs == [] then []
    else NonEmpty(vs[..|vs| - 1]) + (if vs[|vs| - 1] != "" then [vs[|vs| - 1]] else [])
  }

  lemma {:induction false} JoinSnoc(vs: seq<string>, v: string, sep: string)
    requires vs != []
    ensures Join(vs + [v], sep) == Join(vs, sep) + sep + v
  {
    if |vs| == 1 {
      assert (vs + [v])[1..] == [v];
    } else {
      assert (vs + [v])[1..] == vs[1..] + [v];
      JoinSnoc(vs[1..], v, sep);
    }
  }

  lemma {:induction false} JoinNonEmpty(vs: seq<string>, sep: string)
    requires vs != [] && vs[0] != []
    ensures Join(vs, sep) != []
  {
  }

  /** The loop keeps the value of the last `username:` line and of the last `url:`
      line. */
  lemma {:induction false} FoldKeepsLastField(ls: seq<string>, key: string)
    requires key == "username" || key == "url"
    ensures (if key == "username" then Fold(ls).username else Fold(ls).url) == LastKeyed(ls, key)
  {
    if ls != [] {
      FoldKeepsLastField(ls[..|ls| - 1], key);
    }
  }

  /** The loop keeps the last `otpauth` line, whole. */
  lemma {:induction false} FoldKeepsLastOtpLine(ls: seq<string>)
    ensures Fold(ls).otpUrl == LastOtpLine(ls)
  {
    if ls != [] {
      FoldKeepsLastOtpLine(ls[..|ls| - 1]);
    }
  }

  /** The notes are the non-empty note contributions joined by newlines; they stay
      missing only when no line contributes at all. */
  lemma {:induction false} FoldCollectsNotes(ls: seq<string>)
    ensures Fold(ls).notes == if NoteValues(ls) == [] then None else Some(Join(NonEmpty(NoteValues(ls)), "\n"))
  {
    if ls != [] {
      var init, line := ls[..|ls| - 1], ls[|ls| - 1];
      FoldCollectsNotes(init);
      var prev := Fold(init).notes;
      var vs := NoteValues(init);
      assert Fold(ls) == Step(Fold(init), line);
      match NoteOf(line)
      case None =>
        assert NoteValues(ls) == vs;
      case Some(v) =>
        assert NoteValues(ls) == vs + [v];
        assert Fold(ls).notes == Some(GetNote(prev, v));
        var ne := NonEmpty(vs);
        assert NonEmpty(vs + [v]) == ne + (if v != "" then [v] else []) by {
          assert (vs + [v])[..|vs + [v]| - 1] == vs;
        }
        if v == "" {
          assert ne + [] == ne;
        } else if ne == [] {
          assert ne + [v] == [v];
        } else {
          JoinSnoc(ne, v, "\n");
          JoinNonEmpty(ne, "\n");
        }
    }
  }

  // ---------------------------------------------------------------------------
  // Round trip
  // ---------------------------------------------------------------------------

  /** Text that JavaScript's `trim` leaves alone. */
  predicate Trimmed(s: string)
  {
    s == [] || (s[0] !in JsSpace && s[|s| - 1] !in JsSpace)
  }

  lemma FieldLineKey(key: string, v: string)
    requires ':' !in key
    ensures BeforeFirst(FieldLine(key, v), ":") == key
  {
    var line := FieldLine(key, v);
    assert Occurs(line, ":", |key|) by { assert line[|key|..|key| + 1] == ":"; }
    forall i | 0 <= i < |key| ensures !Occurs(line, ":", i) {
      assert line[i..i + 1] == [key[i]];
    }
    IndexFromIs(line, ":", 0, |key|);
  }

  lemma FieldLineNoSepAt(key: string, v: string, i: int)
    requires key != [] && key[0] != ' ' && !Contains(v, key + ":") && |key| + 1 <= i
    ensures !Occurs(FieldLine(key, v), key + ":", i)
  {
    var line, sep := FieldLine(key, v), key + ":";
    if Occurs(line, sep, i) {
      if i == |sep| {
        OccursAt(line, sep, i, 0);
        assert false;
      } else {
        assert line[|sep| + 1..|line|] == v;
        OccursInSlice(line, |sep| + 1, |line|, sep, i);
        ContainsIff(v, sep);
        assert false;
      }
    }
  }

  lemma FieldLineSplit(key: string, v: string)
    requires key != [] && key[0] != ' ' && !Contains(v, key + ":")
    ensures SplitSecond(FieldLine(key, v), key + ":") == Some(" " + v)
  {
    var line, sep := FieldLine(key, v), key + ":";
    assert Occurs(line, sep, 0) by { assert line[..|sep|] == sep; }
    forall i | |sep| <= i < |line| ensures !Occurs(line, sep, i) {
      FieldLineNoSepAt(key, v, i);
    }
    SplitSecondUpTo(line, sep, 0, |line|);
    assert line[|sep|..|line|] == " " + v;
  }

  /** A `key: v` line with a colon-free key reads back as that key, and with the key's
      first character not a space and `v` free of `key:`, as the value `v` trimmed. */
  lemma ClassifyFieldLine(key: string, v: string)
    requires ':' !in key
    ensures Classify(FieldLine(key, v)).Keyed? && Classify(FieldLine(key, v)).key == key
    ensures key != [] && key[0] != ' ' && !Contains(v, key + ":") && Trimmed(v) ==>
      Classify(FieldLine(key, v)).value == v
  {
    FieldLineKey(key, v);
    if key != [] && key[0] != ' ' && !Contains(v, key + ":") && Trimmed(v) {
      FieldLineSplit(key, v);
      assert TrimLeftBy(" " + v, JsSpace) == TrimLeftBy(v, JsSpace) by {
        assert (" " + v)[1..] == v;
      }
      TrimByOfTrimmed(v, JsSpace);
    }
  }

  lemma ClassifyOtpLine(token: string)
    ensures Classify(OtpLine(token)) == Keyed("otpauth", Classify(OtpLine(token)).value)
  {
    var line := OtpLine(token);
    assert line[..8] == "otpauth:";
    assert Occurs(line, ":", 7) by { assert line[7..8] == [line[7]]; }
    forall i | 0 <= i < 7 ensures !Occurs(line, ":", i) {
      assert line[i..i + 1] == [line[i]];
    }
    IndexFromIs(line, ":", 0, 7);
    assert line[..7] == "otpauth";
  }

  /** No line of `ls` sets the keyed field `key`. */
  lemma {:induction false} LastKeyedAppend(xs: seq<string>, ys: seq<string>, key: string)
    requires forall j :: 0 <= j < |ys| ==> !(Classify(ys[j]).Keyed? && Classify(ys[j]).key == key)
    ensures LastKeyed(xs + ys, key) == LastKeyed(xs, key)
  {
    if ys != [] {
      assert (xs + ys)[..|xs + ys| - 1] == xs + ys[..|ys| - 1];
      LastKeyedAppend(xs, ys[..|ys| - 1], key);
    } else {
      assert xs + ys == xs;
    }
  }

  lemma {:induction false} LastOtpLineAppend(xs: seq<string>, ys: seq<string>)
    requires forall j :: 0 <= j < |ys| ==> !(Classify(ys[j]).Keyed? && Classify(ys[j]).key == "otpauth")
    ensures LastOtpLine(xs + ys) == LastOtpLine(xs)
  {
    if ys != [] {
      assert (xs + ys)[..|xs + ys| - 1] == xs + ys[..|ys| - 1];
      LastOtpLineAppend(xs, ys[..|ys| - 1]);
    } else {
      assert xs + ys == xs;
    }
  }

  lemma {:induction false} NoteValuesAppend(xs: seq<string>, ys: seq<string>)
    ensures NoteValues(xs + ys) == NoteValues(xs) + NoteValues(ys)
  {
    if ys != [] {
      assert (xs + ys)[..|xs + ys| - 1] == xs + ys[..|ys| - 1];
      NoteValuesAppend(xs, ys[..|ys| - 1]);
    } else {
      assert xs + ys == xs;
    }
  }

  lemma {:induction false} NonEmptyAll(vs: seq<string>)
    requires forall i :: 0 <= i < |vs| ==> vs[i] != ""
    ensures NonEmpty(vs) == vs
  {
    if vs != [] {
      NonEmptyAll(vs[..|vs| - 1]);
    }
  }

  /** Entries whose values `createContentString` writes so that they read back:
      every key and value fits on one line and keys hold no colon; username and url
      have no surrounding white space and do not repeat their own `key:`. */
  predicate RoundTrips(c: Entries)
  {
    LineSafe(c)
    && Trimmed(Get(c, "username")) && !Contains(Get(c, "username"), "username:")
    && Trimmed(Get(c, "url")) && !Contains(Get(c, "url"), "url:")
    && forall i :: 0 <= i < |c| ==> c[i].0 != "notes" && c[i].0 != "otpauth"
  }

  lemma LastKeyedAppendIf(ls: seq<string>, cond: bool, l: string, key: string)
    ensures LastKeyed(AppendIf(ls, cond, l), key)
      == if cond && SetsKey(l, key) then Some(Classify(l).value) else LastKeyed(ls, key)
  {
    if cond {
      assert (ls + [l])[..|ls|] == ls;
    }
  }

  lemma LastOtpLineAppendIf(ls: seq<string>, cond: bool, l: string)
    ensures LastOtpLine(AppendIf(ls, cond, l)) == if cond && SetsKey(l, "otpauth") then l else LastOtpLine(ls)
  {
    if cond {
      assert (ls + [l])[..|ls|] == ls;
    }
  }

  lemma NoteValuesAppendIf(ls: seq<string>, cond: bool, l: string)
    requires NoteOf(l).None?
    ensures NoteValues(AppendIf(ls, cond, l)) == NoteValues(ls)
  {
    if cond {
      assert (ls + [l])[..|ls|] == ls;
    }
  }

  /** The username, url and otpauth lines of the header each set their own field
      and add nothing to the notes. */
  lemma ReadFieldLine(key: string, v: string)
    requires key == "username" || key == "url"
    requires Trimmed(v) && !Contains(v, key + ":")
    ensures SetsKey(FieldLine(key, v), key) && Classify(FieldLine(key, v)).value == v
    ensures NoteOf(FieldLine(key, v)).None?
  {
    assert ':' !in key && key != [] && key[0] != ' ';
    ClassifyFieldLine(key, v);
    KeyedFieldLine(FieldLine(key, v));
  }

  /** A line setting one of the fields adds nothing to the notes. */
  lemma KeyedFieldLine(line: string)
    requires Classify(line).Keyed? && Classify(line).key in ["username", "url", "otpauth"]
    ensures NoteOf(line).None?
  {
  }

  lemma ReadOtpLine(t: string)
    ensures SetsKey(OtpLine(t), "otpauth") && !SetsKey(OtpLine(t), "username") && !SetsKey(OtpLine(t), "url")
    ensures NoteOf(OtpLine(t)).None?
  {
    ClassifyOtpLine(t);
  }

  /** The lines after the password line of the header set username, url and the
      otpauth line once each, and add no notes. */
  lemma ReadHeaderUsername(u: string, l: string, t: string)
    requires Trimmed(u) && !Contains(u, "username:") && Trimmed(l) && !Contains(l, "url:")
    ensures LastKeyed(HeaderFields(u, l, t), "username") == (if u != "" then Some(u) else None)
  {
    var fu, fl, ft := FieldLine("username", u), FieldLine("url", l), OtpLine(t);
    assert "username" + ":" == "username:" && "url" + ":" == "url:";
    ReadFieldLine("username", u);
    ReadFieldLine("url", l);
    ReadOtpLine(t);
    var ls1 := AppendIf([], u != "", fu);
    var ls2 := AppendIf(ls1, l != "", fl);
    LastKeyedAppendIf([], u != "", fu, "username");
    LastKeyedAppendIf(ls1, l != "", fl, "username");
    LastKeyedAppendIf(ls2, t != "", ft, "username");
  }

  lemma ReadHeaderUrl(u: string, l: string, t: string)
    requires Trimmed(u) && !Contains(u, "username:") && Trimmed(l) && !Contains(l, "url:")
    ensures LastKeyed(HeaderFields(u, l, t), "url") == (if l != "" then Some(l) else None)
  {
    var fu, fl, ft := FieldLine("username", u), FieldLine("url", l), OtpLine(t);
    assert "username" + ":" == "username:" && "url" + ":" == "url:";
    ReadFieldLine("username", u);
    ReadFieldLine("url", l);
    ReadOtpLine(t);
    var ls1 := AppendIf([], u != "", fu);
    var ls2 := AppendIf(ls1, l != "", fl);
    LastKeyedAppendIf([], u != "", fu, "url");
    LastKeyedAppendIf(ls1, l != "", fl, "url");
    LastKeyedAppendIf(ls2, t != "", ft, "url");
  }

  lemma ReadHeaderOtp(u: string, l: string, t: string)
    requires Trimmed(u) && !Contains(u, "username:") && Trimmed(l) && !Contains(l, "url:")
    ensures LastOtpLine(HeaderFields(u, l, t)) == (if t != "" then OtpLine(t) else "")
    ensures NoteValues(HeaderFields(u, l, t)) == []
  {
    var fu, fl, ft := FieldLine("username", u), FieldLine("url", l), OtpLine(t);
    assert "username" + ":" == "username:" && "url" + ":" == "url:";
    ReadFieldLine("username", u);
    ReadFieldLine("url", l);
    ReadOtpLine(t);
    var ls1 := AppendIf([], u != "", fu);
    var ls2 := AppendIf(ls1, l != "", fl);
    LastOtpLineAppendIf([], u != "", fu);
    LastOtpLineAppendIf(ls1, l != "", fl);
    LastOtpLineAppendIf(ls2, t != "", ft);
    NoteValuesAppendIf([], u != "", fu);
    NoteValuesAppendIf(ls1, l != "", fl);
    NoteValuesAppendIf(ls2, t != "", ft);
  }

  /** Each extra line, and the empty text after the last newline, contributes itself
      to the notes and sets no keyed field. */
  lemma {:induction false} ReadExtraLines(c: Entries)
    requires LineSafe(c) && forall i :: 0 <= i < |c| ==> c[i].0 != "notes" && c[i].0 != "otpauth"
    ensures forall j :: 0 <= j < |ExtraLines(c)| ==> ReadsAsNote(ExtraLines(c)[j]) && ExtraLines(c)[j] != []
  {
    if c != [] {
      var init, last := c[..|c| - 1], c[|c| - 1];
      ReadExtraLines(init);
      var l := FieldLine(last.0, last.1);
      if IsExtra(last) {
        ClassifyFieldLine(last.0, last.1);
        KeyedNoteLine(l);
      }
      AppendIfNoteLines(ExtraLines(init), IsExtra(last), l);
    }
  }

  /** A line with a key none of the fields claims contributes itself to the notes. */
  lemma KeyedNoteLine(line: string)
    requires Classify(line).Keyed? && Classify(line).key !in ["notes", "username", "url", "otpauth"]
    ensures ReadsAsNote(line) && line != []
  {
  }

  lemma AppendIfNoteLines(ls: seq<string>, cond: bool, l: string)
    requires forall j :: 0 <= j < |ls| ==> ReadsAsNote(ls[j]) && ls[j] != []
    requires cond ==> ReadsAsNote(l) && l != []
    ensures forall j :: 0 <= j < |AppendIf(ls, cond, l)| ==> ReadsAsNote(AppendIf(ls, cond, l)[j]) && AppendIf(ls, cond, l)[j] != []
  {
  }

  /** The empty text after the final newline is an (empty) note line. */
  lemma ReadTail(e: seq<string>)
    requires forall j :: 0 <= j < |e| ==> ReadsAsNote(e[j])
    ensures forall j :: 0 <= j < |e + [[]]| ==> ReadsAsNote((e + [[]])[j])
  {
    assert Classify([]) == Plain;
    forall j | 0 <= j < |e + [[]]| ensures ReadsAsNote((e + [[]])[j]) {
      if j < |e| {
        assert (e + [[]])[j] == e[j];
      } else {
        assert (e + [[]])[j] == [];
      }
    }
  }

  /** A line that contributes itself to the notes and sets no keyed field. */
  predicate ReadsAsNote(line: string)
  {
    NoteOf(line) == Some(line) && !SetsKey(line, "username") && !SetsKey(line, "url") && !SetsKey(line, "otpauth")
  }

  /** Lines that each contribute themselves to the notes. */
  lemma NoteValuesOfNotes(ls: seq<string>)
    requires forall j :: 0 <= j < |ls| ==> ReadsAsNote(ls[j])
    ensures NoteValues(ls) == ls
  {
    NoteValuesOfNotesPrefix(ls, |ls|);
    assert ls[..|ls|] == ls;
  }

  lemma {:induction false} NoteValuesOfNotesPrefix(ls: seq<string>, k: nat)
    requires k <= |ls| && forall j :: 0 <= j < |ls| ==> ReadsAsNote(ls[j])
    ensures NoteValues(ls[..k]) == ls[..k]
  {
    if k > 0 {
      NoteValuesOfNotesPrefix(ls, k - 1);
      assert ReadsAsNote(ls[k - 1]);
      NoteValuesOfNoteLine(ls, k);
    }
  }

  lemma NoteValuesOfNoteLine(ls: seq<string>, k: nat)
    requires 0 < k <= |ls| && NoteOf(ls[k - 1]) == Some(ls[k - 1]) && NoteValues(ls[..k - 1]) == ls[..k - 1]
    ensures NoteValues(ls[..k]) == ls[..k]
  {
    PrefixSnoc(ls, k);
  }

  lemma PrefixSnoc<T>(ls: seq<T>, k: nat)
    requires 0 < k <= |ls|
    ensures ls[..k][..k - 1] == ls[..k - 1] && ls[..k] == ls[..k - 1] + [ls[k - 1]]
  {
  }

  /** After header lines that add no notes, lines that only add notes leave the
      keyed fields and the otpauth line as the header set them. */
  lemma FoldHeaderThenNotes(hf: seq<string>, tail: seq<string>)
    requires NoteValues(hf) == [] && forall j :: 0 <= j < |tail| ==> ReadsAsNote(tail[j])
    ensures Fold(hf + tail).username == LastKeyed(hf, "username")
    ensures Fold(hf + tail).url == LastKeyed(hf, "url")
    ensures Fold(hf + tail).otpUrl == LastOtpLine(hf)
    ensures NoteValues(hf + tail) == tail
  {
    LastKeyedAppend(hf, tail, "username");
    LastKeyedAppend(hf, tail, "url");
    LastOtpLineAppend(hf, tail);
    NoteValuesAppend(hf, tail);
    NoteValuesOfNotes(tail);
    FoldKeepsLastField(hf + tail, "username");
    FoldKeepsLastField(hf + tail, "url");
    FoldKeepsLastOtpLine(hf + tail);
  }

  /** The notes gathered from the extra lines and the empty last piece: the extra
      lines joined by newlines. */
  lemma FoldNotesOfExtra(hf: seq<string>, e: seq<string>)
    requires NoteValues(hf + (e + [[]])) == e + [[]]
    requires forall j :: 0 <= j < |e| ==> e[j] != []
    ensures Fold(hf + (e + [[]])).notes == Some(Join(e, "\n"))
  {
    var tail := e + [[]];
    FoldCollectsNotes(hf + tail);
    NonEmptyAll(e);
    assert tail[..|tail| - 1] == e;
    assert tail[|tail| - 1] == [];
    assert NonEmpty(tail) == NonEmpty(e) + [];
    assert NonEmpty(tail) == e;
    assert NoteValues(hf + tail) != [];
    assert Fold(hf + tail).notes == Some(Join(NonEmpty(tail), "\n"));
  }

  /** The value written for an optional field, as read back: missing when unset. */
  function SetOrMissing(v: string): (r: Option<string>)
    ensures r.None? <==> v == ""
  {
    if v != "" then Some(v) else None
  }

  lemma ConsParts(x: string, ys: seq<string>)
    ensures ([x] + ys)[0] == x && ([x] + ys)[1..] == ys
  {
  }

  /** Header field lines followed by note lines and the empty last piece: what the
      line loop gathers from them. */
  lemma FoldFieldsThenNotes(u: string, l: string, t: string, e: seq<string>)
    requires Trimmed(u) && !Contains(u, "username:") && Trimmed(l) && !Contains(l, "url:")
    requires forall j :: 0 <= j < |e| ==> ReadsAsNote(e[j]) && e[j] != []
    ensures Fold(HeaderFields(u, l, t) + (e + [[]]))
      == Scan(SetOrMissing(u), SetOrMissing(l), Some(Join(e, "\n")), if t != "" then OtpLine(t) else "")
  {
    var hf := HeaderFields(u, l, t);
    ReadHeaderUsername(u, l, t);
    ReadHeaderUrl(u, l, t);
    ReadHeaderOtp(u, l, t);
    ReadTail(e);
    FoldHeaderThenNotes(hf, e + [[]]);
    FoldNotesOfExtra(hf, e);
  }

  /** The text after the password line of what `createContentString` wrote: what
      the line loop gathers from it. */
  lemma ScanOfContentString(c: Entries)
    requires RoundTrips(c)
    ensures var all := Lines(ContentString(c));
      && all[0] == Get(c, "password")
      && Fold(all[1..]) == Scan(SetOrMissing(Get(c, "username")), SetOrMissing(Get(c, "url")),
                                Some(Join(ExtraLines(c), "\n")),
                                if Get(c, "otpToken") != "" then OtpLine(Get(c, "otpToken")) else "")
  {
    var pw, u, l, t := Get(c, "password"), Get(c, "username"), Get(c, "url"), Get(c, "otpToken");
    var hf := HeaderFields(u, l, t);
    var e := ExtraLines(c);
    var all := Lines(ContentString(c));
    LinesOfContentString(c);
    ConsParts(pw, hf + (e + [[]]));
    ReadExtraLines(c);
    FoldFieldsThenNotes(u, l, t, e);
  }

  /** Reading what `createContentString` wrote gives back the password, the username
      and url (missing when unset), the otpauth line built from `otpToken` (and the
      code for it), and, as the notes, the extra `key: value` lines joined by newlines. */
  lemma ParseContentString(c: Entries, generate: string -> Option<string>, nowMs: nat)
    requires RoundTrips(c)
    ensures var r := CredentialOf(ContentString(c), generate, nowMs);
      var token := Get(c, "otpToken");
      && (r.Ok? <==> token == "" || generate(OtpLine(token)).Some?)
      && (r.Ok? ==>
          && r.value.password == Get(c, "password")
          && r.value.username == SetOrMissing(Get(c, "username"))
          && r.value.url == SetOrMissing(Get(c, "url"))
          && r.value.otp == (if token != ""
                             then Some(Totp.OtpInfo(OtpLine(token), generate(OtpLine(token)).value, Totp.RemainingTime(nowMs)))
                             else None)
          && r.value.notes == Some(Join(ExtraLines(c), "\n"))
          && r.value.raw == ContentString(c))
  {
    ScanOfContentString(c);
  }
}
