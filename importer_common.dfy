/** Helpers shared by the Bitwarden, 1Password and LastPass importers
  * (`internal/importer/common.go`): title sanitising, the `Custom Fields:` note
  * block, note concatenation and the loop that writes converted entries into the
  * vault directory without overwriting anything. */
module ImporterCommon {
  import opened Wrappers
  import opened Text
  import opened Vault

  // ---------------------------------------------------------------------------
  // sanitizeTitle
  // ---------------------------------------------------------------------------

  /** The characters a title may not carry into a file name. */
  const Forbidden: set<char> := {'<', '>', ':', '"', '/', '\\', '|', '?', '*'}

  /** The replacement of one character: slashes become '-', the other forbidden
    * characters are deleted, everything else is kept. */
  function ReplaceChar(c: char): (r: string)
    ensures c !in Forbidden ==> r == [c]
    ensures c in Forbidden ==> r == [] || r == "-"
  {
    if c == '/' || c == '\\' then "-"
    else if c in Forbidden then ""
    else [c]
  }

  /** The `strings.NewReplacer` pass: every pattern is one ASCII character, so the
    * replacer rewrites the text character by character. */
  function ReplaceForbidden(s: string): (r: string)
    ensures !ContainsAny(r, Forbidden)
    ensures !ContainsAny(s, Forbidden) ==> r == s
    ensures |r| <= |s|
  {
    if s == [] then []
    else
      var head, tail := ReplaceChar(s[0]), ReplaceForbidden(s[1..]);
      assert !ContainsAny(s, Forbidden) ==> !ContainsAny(s[1..], Forbidden) by {
        if ContainsAny(s[1..], Forbidden) {
          var i :| 0 <= i < |s[1..]| && s[1..][i] in Forbidden;
          assert s[i + 1] in Forbidden;
        }
      }
      assert !ContainsAny(head + tail, Forbidden) by {
        forall i | 0 <= i < |head + tail| ensures (head + tail)[i] !in Forbidden {
          if i >= |head| { assert (head + tail)[i] == tail[i - |head|]; }
        }
      }
      head + tail
  }

  /** `sanitizeTitle`: trim, rewrite the forbidden characters, and rename the
    * directory names "." and ".." to "entry". */
  function SanitizeTitle(title: string): (r: string)
    ensures !ContainsAny(r, Forbidden)
    ensures r != "." && r != ".."
  {
    var t := ReplaceForbidden(TrimSpace(title));
    if t == "." || t == ".." then "entry" else t
  }

  /** A title `sanitizeTitle` has nothing to do to. */
  predicate IsCleanTitle(t: string)
  {
    TrimSpace(t) == t && !ContainsAny(t, Forbidden) && t != "." && t != ".."
  }

  /** Trimming either removes nothing or shortens the text. */
  lemma {:induction false} TrimLeftShortens(s: string, ws: set<char>)
    ensures TrimLeftBy(s, ws) == s || |TrimLeftBy(s, ws)| < |s|
  {
  }

  lemma {:induction false} TrimRightShortens(s: string, ws: set<char>)
    ensures TrimRightBy(s, ws) == s || |TrimRightBy(s, ws)| < |s|
  {
  }

  /** A clean title passes through `sanitizeTitle` unchanged. */
  lemma SanitizeCleanTitle(t: string)
    requires IsCleanTitle(t)
    ensures SanitizeTitle(t) == t
  {
    assert ReplaceForbidden(TrimSpace(t)) == t;
  }

  /** A title `sanitizeTitle` leaves unchanged is clean. */
  lemma CleanOfSanitizeFixed(t: string)
    requires SanitizeTitle(t) == t
    ensures IsCleanTitle(t)
  {
    if t == "entry" {
      EntryIsClean();
    } else {
      assert ReplaceForbidden(TrimSpace(t)) == t;
      TrimSpaceKeepsLength(t);
    }
  }

  lemma EntryIsClean()
    ensures IsCleanTitle("entry")
  {
    assert TrimLeftBy("entry", GoSpace) == "entry";
    assert TrimRightBy("entry", GoSpace) == "entry";
  }

  /** Trimming that removes nothing from the length removes nothing. */
  lemma TrimSpaceKeepsLength(t: string)
    requires |TrimSpace(t)| >= |t|
    ensures TrimSpace(t) == t
  {
    var l := TrimLeftBy(t, GoSpace);
    TrimLeftShortens(t, GoSpace);
    TrimRightShortens(l, GoSpace);
  }

  /** `sanitizeTitle` leaves a title unchanged exactly when it is already clean. */
  lemma SanitizeTitleFixed(t: string)
    ensures SanitizeTitle(t) == t <==> IsCleanTitle(t)
  {
    if IsCleanTitle(t) {
      SanitizeCleanTitle(t);
    }
    if SanitizeTitle(t) == t {
      CleanOfSanitizeFixed(t);
    }
  }

  /** Trimming comes before the deletion, so a deleted character can expose white
    * space that stays: "a :" sanitises to "a ", which sanitises again to "a". */
  lemma SanitizeTitleNotIdempotent()
    ensures SanitizeTitle("a :") == "a "
    ensures SanitizeTitle("a ") == "a"
  {
    SanitizeColonTitle();
    SanitizeSpaceTitle();
  }

  lemma SanitizeColonTitle()
    ensures SanitizeTitle("a :") == "a "
  {
    assert TrimLeftBy("a :", GoSpace) == "a :";
    assert TrimRightBy("a :", GoSpace) == "a :";
    assert ReplaceForbidden("a :") == "a " by {
      assert ReplaceForbidden(":") == "";
      assert ReplaceForbidden(" :") == " ";
    }
  }

  lemma SanitizeSpaceTitle()
    ensures SanitizeTitle("a ") == "a"
  {
    assert TrimLeftBy("a ", GoSpace) == "a ";
    assert TrimRightBy("a ", GoSpace) == TrimRightBy("a", GoSpace) == "a";
    assert ReplaceForbidden("a") == "a";
  }

  /** The title an imported entry is stored under: the sanitised title, or
    * "Untitled" when nothing is left of it. */
  function StoredTitle(title: string): (t: string)
    ensures t != "" && !ContainsAny(t, Forbidden) && t != "." && t != ".."
    ensures SanitizeTitle(title) != "" ==> t == SanitizeTitle(title)
  {
    var s := SanitizeTitle(title);
    if s == "" then "Untitled" else s
  }

  // ---------------------------------------------------------------------------
  // formatCustomFields and appendNotes
  // ---------------------------------------------------------------------------

  /** `fmt.Sprintf("%s: %s", name, value)`. */
  function FieldLine(name: string, value: string): string
  {
    name + ": " + value
  }

  /** The lines of the custom-fields block: one per pair whose name or value is
    * non-empty, in order. */
  function FieldLines(fields: seq<(string, string)>): seq<string>
  {
    if fields == [] then []
    else
      var last := fields[|fields| - 1];
      FieldLines(fields[..|fields| - 1]) +
        (if last.0 != "" || last.1 != "" then [FieldLine(last.0, last.1)] else [])
  }

  /** The value of `formatCustomFields`: "" when no line survives, otherwise the
    * header line and the field lines joined by newlines. */
  function CustomFieldsText(fields: seq<(string, string)>): string
  {
    var lines := FieldLines(fields);
    if lines == [] then "" else "Custom Fields:\n" + Join(lines, "\n")
  }

  /** `formatCustomFields`. */
  method FormatCustomFields(fields: seq<(string, string)>) returns (r: string)
    ensures r == CustomFieldsText(fields)
  {
    if |fields| == 0 {
      return "";
    }
    var parts: seq<string> := [];
    for i := 0 to |fields|
      invariant parts == FieldLines(fields[..i])
    {
      assert fields[..i + 1][..i] == fields[..i];
      var f := fields[i];
      if f.0 != "" || f.1 != "" {
        parts := parts + [FieldLine(f.0, f.1)];
      }
    }
    assert fields[..|fields|] == fields;
    if |parts| == 0 {
      return "";
    }
    r := "Custom Fields:\n" + Join(parts, "\n");
  }

  /** Field lines are taken pair by pair, so they distribute over concatenation. */
  lemma {:induction false} FieldLinesAppend(a: seq<(string, string)>, b: seq<(string, string)>)
    ensures FieldLines(a + b) == FieldLines(a) + FieldLines(b)
    decreases |b|
  {
    if b == [] {
      assert a + b == a;
    } else {
      var init := b[..|b| - 1];
      assert (a + b)[..|a + b| - 1] == a + init;
      assert (a + b)[|a + b| - 1] == b[|b| - 1];
      FieldLinesAppend(a, init);
    }
  }

  /** A pair contributes a line exactly when one of its halves is non-empty. */
  lemma {:induction false} FieldLinesEmpty(fields: seq<(string, string)>)
    ensures FieldLines(fields) == [] <==>
      forall i :: 0 <= i < |fields| ==> fields[i].0 == "" && fields[i].1 == ""
  {
    if fields != [] {
      var init := fields[..|fields| - 1];
      FieldLinesEmpty(init);
      assert forall i :: 0 <= i < |init| ==> init[i] == fields[i];
    }
  }

  /** The custom-fields block is empty exactly when every pair is empty-empty, and
    * otherwise starts with its header line. */
  lemma CustomFieldsTextEmpty(fields: seq<(string, string)>)
    ensures CustomFieldsText(fields) == "" <==>
      forall i :: 0 <= i < |fields| ==> fields[i].0 == "" && fields[i].1 == ""
    ensures CustomFieldsText(fields) != "" ==> HasPrefix(CustomFieldsText(fields), "Custom Fields:\n")
  {
    FieldLinesEmpty(fields);
  }

  /** `appendNotes`: the extra text after the existing notes, separated by a blank
    * line only when both are non-empty. */
  function AppendNotes(existing: string, extra: string): (r: string)
    ensures r == "" <==> existing == "" && extra == ""
    ensures HasPrefix(r, existing) && HasSuffix(r, extra)
    ensures extra == "" ==> r == existing
    ensures existing == "" ==> r == extra
  {
    if extra == "" then existing
    else if existing != "" then existing + "\n\n" + extra
    else extra
  }

  /** Appending notes one after another does not depend on how the appends are
    * grouped. */
  lemma AppendNotesAssociative(a: string, b: string, c: string)
    ensures AppendNotes(AppendNotes(a, b), c) == AppendNotes(a, AppendNotes(b, c))
  {
    if a != "" && b != "" && c != "" {
      assert a + "\n\n" + b + "\n\n" + c == a + "\n\n" + (b + "\n\n" + c);
    }
  }

  // ---------------------------------------------------------------------------
  // saveEntries
  // ---------------------------------------------------------------------------

  /** An entry as it is written: its title replaced by the stored title. */
  function Stored(e: Entry): Entry
  {
    e.(title := StoredTitle(e.title))
  }

  /** `n` is the name the collision rule gives the title `t` in a directory whose
    * names are `taken`: `t.pb` when it is free, otherwise `t_k.pb` for the first
    * free counter `k`. */
  ghost predicate NameFor(t: string, taken: set<string>, n: string)
  {
    if PlainName(t) !in taken then n == PlainName(t)
    else exists k: nat :: IsFirstFree(t, taken, k) && n == SuffixName(t, k)
  }

  /** The name `ChooseFileName` returns is the one the collision rule gives. */
  lemma ChosenNameFor(t: string, taken: set<string>, n: string, suffix: nat)
    requires suffix == 0 <==> PlainName(t) !in taken
    requires suffix == 0 ==> n == PlainName(t)
    requires suffix > 0 ==> IsFirstFree(t, taken, suffix) && n == SuffixName(t, suffix)
    ensures NameFor(t, taken, n)
  {
  }

  /** The rule gives one name only: two names it allows are equal. */
  lemma {:induction false} NameForUnique(t: string, taken: set<string>, n1: string, n2: string)
    requires NameFor(t, taken, n1) && NameFor(t, taken, n2)
    ensures n1 == n2
  {
    if PlainName(t) in taken {
      var k1: nat :| IsFirstFree(t, taken, k1) && n1 == SuffixName(t, k1);
      var k2: nat :| IsFirstFree(t, taken, k2) && n2 == SuffixName(t, k2);
      FirstFreeUnique(t, taken, k1, k2);
    }
  }

  /** Position `j` of a batch of imported entries ended as it should: it wrote
    * exactly when the entry is present and its write does not fail, and then wrote
    * the entry, under its stored title, to the name the collision rule gives that
    * title among the files that existed before (`keys0`) and those the earlier
    * positions wrote. */
  ghost predicate ImportedAt(entries: seq<Option<Entry>>, failing: set<nat>, keys0: set<string>,
                             written: seq<Option<(string, Entry)>>, j: nat)
    requires j < |written| && j < |entries|
  {
    (written[j].Some? <==> entries[j].Some? && j !in failing) &&
    (written[j].Some? ==>
       written[j].value.1 == Stored(entries[j].value) &&
       NameFor(StoredTitle(entries[j].value.title), keys0 + WrittenKeys(written[..j]), written[j].value.0))
  }

  /** Recording the outcome of position `i` keeps the earlier positions' records. */
  lemma ImportedAtExtend(entries: seq<Option<Entry>>, failing: set<nat>, keys0: set<string>,
                         written: seq<Option<(string, Entry)>>, x: Option<(string, Entry)>)
    requires |written| < |entries|
    requires forall j :: 0 <= j < |written| ==> ImportedAt(entries, failing, keys0, written, j)
    requires ImportedAt(entries, failing, keys0, written + [x], |written|)
    ensures forall j :: 0 <= j <= |written| ==> ImportedAt(entries, failing, keys0, written + [x], j)
  {
    forall j | 0 <= j < |written|
      ensures ImportedAt(entries, failing, keys0, written + [x], j)
    {
      assert (written + [x])[j] == written[j];
      assert (written + [x])[..j] == written[..j];
      assert ImportedAt(entries, failing, keys0, written, j);
    }
  }

  /** `saveEntries`: `setup` is the outcome of creating the data directory, loading
    * the vault parameters and deriving and checking the keys; `disk0` maps the file
    * names of the data directory to their entries; `failing` holds the positions
    * whose marshal, encryption or write fails. `written` records, per position, the
    * file written and its content. */
  method SaveEntries(setup: Outcome, entries: seq<Option<Entry>>, names: seq<string>,
                     disk0: map<string, Entry>, failing: set<nat>)
    returns (result: Outcome, disk: map<string, Entry>, written: seq<Option<(string, Entry)>>,
             imported: nat, skipped: nat)
    requires forall i :: 0 <= i < |entries| && entries[i].Some? ==> i < |names|
    ensures setup.Fail? ==> result == setup && disk == disk0 && written == [] &&
                            imported == 0 && skipped == 0
    ensures setup.Pass? ==> result == Pass && |written| == |entries| &&
                            imported + skipped == |entries|
    ensures forall j :: 0 <= j < |written| ==> j < |entries| && ImportedAt(entries, failing, disk0.Keys, written, j)
    ensures FreshWrites(disk0, disk, written)
    ensures imported == WriteCount(written)
  {
    disk, written, imported, skipped := disk0, [], 0, 0;
    FreshWritesEmpty(disk0);
    if setup.Fail? {
      return setup, disk, written, imported, skipped;
    }
    for i := 0 to |entries|
      invariant |written| == i && imported + skipped == i
      invariant forall j :: 0 <= j < i ==> ImportedAt(entries, failing, disk0.Keys, written, j)
      invariant FreshWrites(disk0, disk, written)
      invariant imported == WriteCount(written)
    {
      if entries[i].None? {
        FreshWritesSkip(disk0, disk, written);
        ImportedAtExtend(entries, failing, disk0.Keys, written, None);
        written := written + [None];
        skipped := skipped + 1;
        continue;
      }
      var entry := entries[i].value;
      var title := StoredTitle(entry.title);
      var name, suffix := ChooseFileName(title, disk.Keys);
      if i in failing {
        FreshWritesSkip(disk0, disk, written);
        ImportedAtExtend(entries, failing, disk0.Keys, written, None);
        written := written + [None];
        skipped := skipped + 1;
        continue;
      }
      ChosenNameFor(title, disk.Keys, name, suffix);
      assert (written + [Some((name, Stored(entry)))])[..i] == written;
      FreshWritesAppend(disk0, disk, written, name, Stored(entry));
      ImportedAtExtend(entries, failing, disk0.Keys, written, Some((name, Stored(entry))));
      disk := disk[name := Stored(entry)];
      written := written + [Some((name, Stored(entry)))];
      imported := imported + 1;
    }
    result := Pass;
  }
}
