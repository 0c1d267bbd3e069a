/** The Bitwarden importer (`internal/importer/bitwarden.go`): the conversion of an
  * exported item into a vault entry and the loop that writes the converted entries
  * into the `logins`, `notes` and `cards` sub-directories. Reading and decoding the
  * JSON file and the key derivation are inputs. */
module Bitwarden {
  import opened Wrappers
  import opened Text
  import opened Vault
  import opened ImporterCommon

  datatype PasswordRecord = PasswordRecord(lastUsedDate: string, password: string)
  datatype Login = Login(username: string, password: string, totp: string, uris: seq<string>)
  datatype Card = Card(cardholderName: string, number: string, expMonth: string, expYear: string, code: string)
  datatype Field = Field(name: string, value: string, kind: int)

  /** One exported item; `kind` is 1 (login), 2 (secure note), 3 (card) or other. */
  datatype Item = Item(
    kind: int,
    name: string,
    notes: string,
    login: Option<Login>,
    card: Option<Card>,
    fields: seq<Field>,
    passwordHistory: seq<PasswordRecord>)

  // ---------------------------------------------------------------------------
  // formatFields
  // ---------------------------------------------------------------------------

  /** The (name, value) pairs of the custom fields, in order. */
  function FieldPairs(fields: seq<Field>): (pairs: seq<(string, string)>)
    ensures |pairs| == |fields|
    ensures forall i :: 0 <= i < |fields| ==> pairs[i] == (fields[i].name, fields[i].value)
  {
    seq(|fields|, i requires 0 <= i < |fields| => (fields[i].name, fields[i].value))
  }

  /** `formatFields`: the same block as `formatCustomFields` builds from the
    * fields' names and values. */
  method FormatFields(fields: seq<Field>) returns (r: string)
    ensures r == CustomFieldsText(FieldPairs(fields))
  {
    if |fields| == 0 {
      return "";
    }
    var parts: seq<string> := [];
    for i := 0 to |fields|
      invariant parts == FieldLines(FieldPairs(fields)[..i])
    {
      assert FieldPairs(fields)[..i + 1][..i] == FieldPairs(fields)[..i];
      var f := fields[i];
      if f.name != "" || f.value != "" {
        parts := parts + [FieldLine(f.name, f.value)];
      }
    }
    assert FieldPairs(fields)[..|fields|] == FieldPairs(fields);
    if |parts| == 0 {
      return "";
    }
    r := "Custom Fields:\n" + Join(parts, "\n");
  }

  // ---------------------------------------------------------------------------
  // convertItem
  // ---------------------------------------------------------------------------

  /** The card expiry: "M/Y" when both parts are given, else the part that is. */
  function Expiry(month: string, year: string): (r: string)
    ensures r == "" <==> month == "" && year == ""
    ensures month != "" ==> HasPrefix(r, month)
    ensures year != "" ==> HasSuffix(r, year)
  {
    if month != "" && year != "" then month + "/" + year
    else if month != "" then month
    else year
  }

  /** When the month holds no '/', it is the text of the expiry before the first
    * '/', so the month is recovered from the assembled expiry. */
  lemma ExpiryMonth(month: string, year: string)
    requires month != "" && '/' !in month && year != ""
    ensures BeforeFirst(Expiry(month, year), "/") == month
  {
    assert HasPrefix(Expiry(month, year), month + ['/']) by {
      assert Expiry(month, year)[..|month| + 1] == month + ['/'];
    }
    BeforeFirstOfChar(Expiry(month, year), month, '/');
  }

  /** The password-history records, in export order. */
  function HistoryOf(records: seq<PasswordRecord>): (h: seq<PasswordHistory>)
    ensures |h| == |records|
    ensures forall i :: 0 <= i < |records| ==>
      h[i] == PasswordHistory(records[i].password, records[i].lastUsedDate)
  {
    seq(|records|, i requires 0 <= i < |records| =>
      PasswordHistory(records[i].password, records[i].lastUsedDate))
  }

  /** The note line added for a card holder, or "" when there is none. */
  function CardholderNote(card: Option<Card>): string
  {
    if card.Some? && card.value.cardholderName != "" then "Cardholder: " + card.value.cardholderName
    else ""
  }

  /** The sub-directory of each supported item kind. */
  function SubDirOf(kind: int): string
  {
    if kind == 1 then "logins" else if kind == 2 then "notes" else if kind == 3 then "cards" else ""
  }

  /** A login: the credentials and first URI from the login block when there is
    * one, the password history, and the notes followed by the custom-field block. */
  function LoginEntry(item: Item): Entry
  {
    var l := item.login;
    Entry("Login", item.name,
          if l.Some? then l.value.username else "",
          if l.Some? then l.value.password else "",
          if l.Some? && |l.value.uris| > 0 then l.value.uris[0] else "",
          if l.Some? then l.value.totp else "",
          "", "", "", AppendNotes(item.notes, CustomFieldsText(FieldPairs(item.fields))),
          [], HistoryOf(item.passwordHistory))
  }

  /** A secure note: the notes followed by the custom-field block. */
  function NoteEntry(item: Item): Entry
  {
    NewEntry("Note", item.name, AppendNotes(item.notes, CustomFieldsText(FieldPairs(item.fields))))
  }

  /** A card: number, code and expiry from the card block, and the notes followed
    * by the card holder line and the custom-field block. */
  function CardEntry(item: Item): Entry
  {
    var c := item.card;
    Entry("Card", item.name, "", "", "", "",
          if c.Some? then c.value.number else "",
          if c.Some? then Expiry(c.value.expMonth, c.value.expYear) else "",
          if c.Some? then c.value.code else "",
          AppendNotes(AppendNotes(item.notes, CardholderNote(c)), CustomFieldsText(FieldPairs(item.fields))),
          [], [])
  }

  /** What `convertItem` returns, stated declaratively, with its sub-directory. */
  function Converted(item: Item): (Option<Entry>, string)
  {
    if item.kind == 1 then (Some(LoginEntry(item)), "logins")
    else if item.kind == 2 then (Some(NoteEntry(item)), "notes")
    else if item.kind == 3 then (Some(CardEntry(item)), "cards")
    else (None, "")
  }

  /** The inline `if notes != "" { notes += "\n\n" }; notes += extra` step, done
    * only for a non-empty extra, is `appendNotes`. */
  lemma InlineAppendIsAppendNotes(notes: string, extra: string)
    requires extra != ""
    ensures (if notes != "" then notes + "\n\n" else notes) + extra == AppendNotes(notes, extra)
  {
  }

  /** `convertItem`. */
  method ConvertItem(item: Item) returns (entry: Option<Entry>, subDir: string)
    ensures (entry, subDir) == Converted(item)
  {
    var extra := FormatFields(item.fields);
    if item.kind == 1 {
      var e := NewEntry("Login", item.name, item.notes);
      if item.login.Some? {
        var l := item.login.value;
        e := e.(username := l.username, password := l.password, totpSecret := l.totp);
        if |l.uris| > 0 {
          e := e.(link := l.uris[0]);
        }
      }
      var history: seq<PasswordHistory> := [];
      for i := 0 to |item.passwordHistory|
        invariant history == HistoryOf(item.passwordHistory[..i])
      {
        var h := item.passwordHistory[i];
        history := history + [PasswordHistory(h.password, h.lastUsedDate)];
      }
      assert item.passwordHistory[..|item.passwordHistory|] == item.passwordHistory;
      e := e.(history := history);
      if extra != "" {
        InlineAppendIsAppendNotes(e.customText, extra);
        if e.customText != "" {
          e := e.(customText := e.customText + "\n\n");
        }
        e := e.(customText := e.customText + extra);
      }
      return Some(e), "logins";
    } else if item.kind == 2 {
      var e := NewEntry("Note", item.name, item.notes);
      if extra != "" {
        InlineAppendIsAppendNotes(e.customText, extra);
        if e.customText != "" {
          e := e.(customText := e.customText + "\n\n");
        }
        e := e.(customText := e.customText + extra);
      }
      return Some(e), "notes";
    } else if item.kind == 3 {
      var e := NewEntry("Card", item.name, item.notes);
      if item.card.Some? {
        var c := item.card.value;
        e := e.(cardNumber := c.number, cvv := c.code);
        if c.expMonth != "" && c.expYear != "" {
          e := e.(expiry := c.expMonth + "/" + c.expYear);
        } else if c.expMonth != "" {
          e := e.(expiry := c.expMonth);
        } else if c.expYear != "" {
          e := e.(expiry := c.expYear);
        }
        assert e.expiry == Expiry(c.expMonth, c.expYear);
        if c.cardholderName != "" {
          InlineAppendIsAppendNotes(e.customText, "Cardholder: " + c.cardholderName);
          if e.customText != "" {
            e := e.(customText := e.customText + "\n\n");
          }
          e := e.(customText := e.customText + ("Cardholder: " + c.cardholderName));
        }
      }
      if extra != "" {
        InlineAppendIsAppendNotes(e.customText, extra);
        if e.customText != "" {
          e := e.(customText := e.customText + "\n\n");
        }
        e := e.(customText := e.customText + extra);
      }
      assert e.customText == AppendNotes(AppendNotes(item.notes, CardholderNote(item.card)), extra);
      return Some(e), "cards";
    }
    return None, "";
  }

  /** Kinds 1, 2 and 3 become a Login, a Note and a Card stored under `logins`,
    * `notes` and `cards`; every other kind is dropped. */
  lemma ConvertedKinds(item: Item)
    ensures Converted(item).0.Some? <==> item.kind in {1, 2, 3}
    ensures Converted(item).1 == SubDirOf(item.kind)
    ensures item.kind == 1 ==> Converted(item).0.value.kind == "Login"
    ensures item.kind == 2 ==> Converted(item).0.value.kind == "Note"
    ensures item.kind == 3 ==> Converted(item).0.value.kind == "Card"
    ensures Converted(item).0.Some? ==> Converted(item).0.value.title == item.name
  {
  }

  /** The notes of a converted item start with the exported notes and end with the
    * custom-field block; the block is left out when no field has a name or a value. */
  lemma ConvertedNotes(item: Item)
    requires Converted(item).0.Some?
    ensures HasPrefix(Converted(item).0.value.customText, item.notes)
    ensures HasSuffix(Converted(item).0.value.customText, CustomFieldsText(FieldPairs(item.fields)))
    ensures (forall i :: 0 <= i < |item.fields| ==> item.fields[i].name == "" && item.fields[i].value == "") ==>
      Converted(item).0.value.customText ==
        (if item.kind == 3 then AppendNotes(item.notes, CardholderNote(item.card)) else item.notes)
  {
    var extra := CustomFieldsText(FieldPairs(item.fields));
    CustomFieldsTextEmpty(FieldPairs(item.fields));
    if item.kind == 3 {
      var withHolder := AppendNotes(item.notes, CardholderNote(item.card));
      assert HasPrefix(withHolder, item.notes);
      assert HasPrefix(AppendNotes(withHolder, extra), withHolder);
      assert AppendNotes(withHolder, extra)[..|item.notes|] == withHolder[..|item.notes|];
    }
  }

  /** A login keeps its password history, in order, one record per exported entry. */
  lemma ConvertedHistory(item: Item)
    requires item.kind == 1
    ensures Converted(item).0.value.history == HistoryOf(item.passwordHistory)
    ensures |Converted(item).0.value.history| == |item.passwordHistory|
  {
  }

  // ---------------------------------------------------------------------------
  // ImportBitwarden
  // ---------------------------------------------------------------------------

  /** The file names under `dir` among keys of the form (sub-directory, file name). */
  function NamesUnder(keys: set<(string, string)>, dir: string): (names: set<string>)
    ensures forall n :: n in names <==> (dir, n) in keys
  {
    var names := set k | k in keys && k.0 == dir :: k.1;
    assert forall n :: (dir, n) in keys ==> n in names by {
      forall n | (dir, n) in keys ensures n in names {
        var k := (dir, n);
        assert k in keys && k.0 == dir;
      }
    }
    names
  }

  /** Position `j` of the import wrote exactly when the item converts to an entry
    * and its write does not fail, and then wrote that entry, under its stored
    * title, into its kind's sub-directory under the name the collision rule gives
    * among the files of that sub-directory: those that existed before (`keys0`)
    * and those the earlier positions wrote. */
  ghost predicate ImportedAt(items: seq<Item>, failing: set<nat>, keys0: set<(string, string)>,
                             written: seq<Option<((string, string), Entry)>>, j: nat)
    requires j < |written| && j < |items|
  {
    var (entry, subDir) := Converted(items[j]);
    (written[j].Some? <==> entry.Some? && j !in failing) &&
    (written[j].Some? ==>
       written[j].value.1 == Stored(entry.value) &&
       written[j].value.0.0 == subDir &&
       NameFor(StoredTitle(entry.value.title), NamesUnder(keys0 + WrittenKeys(written[..j]), subDir),
               written[j].value.0.1))
  }

  lemma ImportedAtExtend(items: seq<Item>, failing: set<nat>, keys0: set<(string, string)>,
                         written: seq<Option<((string, string), Entry)>>, x: Option<((string, string), Entry)>)
    requires |written| < |items|
    requires forall j :: 0 <= j < |written| ==> ImportedAt(items, failing, keys0, written, j)
    requires ImportedAt(items, failing, keys0, written + [x], |written|)
    ensures forall j :: 0 <= j <= |written| ==> ImportedAt(items, failing, keys0, written + [x], j)
  {
    forall j | 0 <= j < |written|
      ensures ImportedAt(items, failing, keys0, written + [x], j)
    {
      assert (written + [x])[j] == written[j];
      assert (written + [x])[..j] == written[..j];
      assert ImportedAt(items, failing, keys0, written, j);
    }
  }

  /** Item `j` needs a sub-directory that does not exist and cannot be created. */
  predicate BlockedAt(items: seq<Item>, dirs0: set<string>, unmakeable: set<string>, j: nat)
    requires j < |items|
  {
    Converted(items[j]).0.Some? && Converted(items[j]).1 !in dirs0 && Converted(items[j]).1 in unmakeable
  }

  lemma NotBlockedExtend(items: seq<Item>, dirs0: set<string>, unmakeable: set<string>, i: nat)
    requires i < |items| && forall j :: 0 <= j < i ==> !BlockedAt(items, dirs0, unmakeable, j)
    requires Converted(items[i]).0.None? || Converted(items[i]).1 in dirs0 || Converted(items[i]).1 !in unmakeable
    ensures forall j :: 0 <= j < i + 1 ==> !BlockedAt(items, dirs0, unmakeable, j)
  {
  }

  /** The rest of one iteration of the import loop once the item has converted to
    * `entry` and its sub-directory exists: choose a file name and write, unless the
    * write fails. */
  method SaveConverted(entry: Entry, subDir: string, i: nat, failing: set<nat>,
                       disk0: map<(string, string), Entry>, disk: map<(string, string), Entry>,
                       written: seq<Option<((string, string), Entry)>>)
    returns (disk': map<(string, string), Entry>, x: Option<((string, string), Entry)>)
    requires FreshWrites(disk0, disk, written)
    ensures FreshWrites(disk0, disk', written + [x])
    ensures WriteCount(written + [x]) == WriteCount(written) + (if x.Some? then 1 else 0)
    ensures x.Some? <==> i !in failing
    ensures x.Some? ==>
      x.value.1 == Stored(entry) && x.value.0.0 == subDir &&
      NameFor(StoredTitle(entry.title), NamesUnder(disk.Keys, subDir), x.value.0.1)
  {
    var title := StoredTitle(entry.title);
    var name, suffix := ChooseFileName(title, NamesUnder(disk.Keys, subDir));
    if i in failing {
      FreshWritesSkip(disk0, disk, written);
      return disk, None;
    }
    ChosenNameFor(title, NamesUnder(disk.Keys, subDir), name, suffix);
    var stored := Stored(entry);
    FreshWritesAppend(disk0, disk, written, (subDir, name), stored);
    disk' := disk[(subDir, name) := stored];
    x := Some(((subDir, name), stored));
  }

  /** `ImportBitwarden`: `setup` is the outcome of reading and decoding the export,
    * creating the data directory and deriving the keys; `disk0` holds the files of
    * the sub-directories and `dirs0` the sub-directories that exist; creating a
    * directory of `unmakeable` fails; `failing` holds the positions whose marshal,
    * encryption or write fails. A sub-directory that cannot be created ends the
    * import with an error, keeping what was written before. */
  method ImportBitwarden(setup: Outcome, items: seq<Item>, disk0: map<(string, string), Entry>,
                         dirs0: set<string>, unmakeable: set<string>, failing: set<nat>)
    returns (result: Outcome, disk: map<(string, string), Entry>, dirs: set<string>,
             written: seq<Option<((string, string), Entry)>>, imported: nat, skipped: nat)
    ensures setup.Fail? ==> result == setup && disk == disk0 && dirs == dirs0 && written == []
    ensures setup.Pass? && result.Pass? ==>
      |written| == |items| && imported + skipped == |items| &&
      forall j :: 0 <= j < |items| ==> !BlockedAt(items, dirs0, unmakeable, j)
    ensures setup.Pass? && result.Fail? ==>
      |written| < |items| && BlockedAt(items, dirs0, unmakeable, |written|)
    ensures |written| <= |items|
    ensures forall j :: 0 <= j < |written| ==> ImportedAt(items, failing, disk0.Keys, written, j)
    ensures FreshWrites(disk0, disk, written)
    ensures imported == WriteCount(written)
    ensures dirs0 <= dirs
  {
    disk, dirs, written, imported, skipped := disk0, dirs0, [], 0, 0;
    FreshWritesEmpty(disk0);
    if setup.Fail? {
      return setup, disk, dirs, written, imported, skipped;
    }
    for i := 0 to |items|
      invariant |written| == i && imported + skipped == i
      invariant forall j :: 0 <= j < i ==> ImportedAt(items, failing, disk0.Keys, written, j)
      invariant forall j :: 0 <= j < i ==> !BlockedAt(items, dirs0, unmakeable, j)
      invariant FreshWrites(disk0, disk, written)
      invariant imported == WriteCount(written)
      invariant dirs0 <= dirs && forall d :: d in dirs && d !in dirs0 ==> d !in unmakeable
    {
      var entry, subDir := ConvertItem(items[i]);
      if entry.None? {
        NotBlockedExtend(items, dirs0, unmakeable, i);
        FreshWritesSkip(disk0, disk, written);
        ImportedAtExtend(items, failing, disk0.Keys, written, None);
        written := written + [None];
        skipped := skipped + 1;
        continue;
      }
      if subDir !in dirs {
        if subDir in unmakeable {
          return Fail("creating dir " + subDir), disk, dirs, written, imported, skipped;
        }
        dirs := dirs + {subDir};
      }
      NotBlockedExtend(items, dirs0, unmakeable, i);
      var x;
      disk, x := SaveConverted(entry.value, subDir, i, failing, disk0, disk, written);
      assert (written + [x])[..i] == written;
      ImportedAtExtend(items, failing, disk0.Keys, written, x);
      written := written + [x];
      if x.Some? {
        imported := imported + 1;
      } else {
        skipped := skipped + 1;
      }
    }
    result := Pass;
  }
}
