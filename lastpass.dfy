/** The LastPass importer (`internal/importer/lastpass.go`): CSV columns are found
  * by header name, each data row becomes a login or a secure note, and the
  * entries are saved. Reading and parsing the CSV file are inputs. */
module LastPass {
  import opened Wrappers
  import opened Text
  import opened Vault
  import opened ImporterCommon

  /** The key of a header cell: trimmed and lower-cased. */
  function ColumnKey(cell: string): string
  {
    Lower(TrimSpace(cell))
  }

  /** The keys of the header cells, position by position. */
  function HeaderKeys(header: seq<string>): (keys: seq<string>)
    ensures |keys| == |header| && forall i :: 0 <= i < |header| ==> keys[i] == ColumnKey(header[i])
  {
    seq(|header|, i requires 0 <= i < |header| => ColumnKey(header[i]))
  }

  /** The column index `buildColumnIndex` builds from the header keys: each key maps
    * to the position of the LAST header cell with that key. */
  function ColumnIndex(keys: seq<string>): (idx: map<string, nat>)
    ensures forall i :: 0 <= i < |keys| ==> keys[i] in idx
    ensures forall key :: key in idx ==>
      idx[key] < |keys| && keys[idx[key]] == key &&
      forall j :: idx[key] < j < |keys| ==> keys[j] != key
  {
    if keys == [] then map[]
    else
      var init := keys[..|keys| - 1];
      assert forall i :: 0 <= i < |init| ==> init[i] == keys[i];
      ColumnIndex(init)[keys[|keys| - 1] := |keys| - 1]
  }

  /** One more header cell sets its key to its own position. */
  lemma ColumnIndexStep(keys: seq<string>, i: int)
    requires 0 <= i < |keys|
    ensures ColumnIndex(keys[..i + 1]) == ColumnIndex(keys[..i])[keys[i] := i]
  {
    assert keys[..i + 1][..i] == keys[..i];
  }

  /** `buildColumnIndex`. */
  method BuildColumnIndex(header: seq<string>) returns (idx: map<string, nat>)
    ensures idx == ColumnIndex(HeaderKeys(header))
  {
    ghost var keys := HeaderKeys(header);
    idx := map[];
    for i := 0 to |header|
      invariant idx == ColumnIndex(keys[..i])
    {
      ColumnIndexStep(keys, i);
      idx := idx[ColumnKey(header[i]) := i];
    }
    assert keys[..|header|] == keys;
  }

  /** `colVal`: the cell of the named column, or "" when the header has no such
    * column or the row is too short. */
  function ColVal(row: seq<string>, idx: map<string, nat>, col: string): (v: string)
    ensures col !in idx || idx[col] >= |row| ==> v == ""
  {
    if col in idx && idx[col] < |row| then row[idx[col]] else ""
  }

  /** A row reads the cell under the last header cell whose key is `col`. */
  lemma ColValUnderHeader(keys: seq<string>, row: seq<string>, col: string, i: int)
    requires 0 <= i < |keys| && keys[i] == col
    requires forall j :: i < j < |keys| ==> keys[j] != col
    ensures ColVal(row, ColumnIndex(keys), col) == (if i < |row| then row[i] else "")
  {
    assert col in ColumnIndex(keys);
  }

  /** A row reads "" for a column no header cell names. */
  lemma ColValMissing(keys: seq<string>, row: seq<string>, col: string)
    requires forall j :: 0 <= j < |keys| ==> keys[j] != col
    ensures ColVal(row, ColumnIndex(keys), col) == ""
  {
  }

  /** `isLastPassSecureNote`: the "http://sn" URL, or the "Secure Notes" group in
    * any letter case. */
  predicate IsSecureNote(url: string, grouping: string)
  {
    url == "http://sn" || EqualFold(grouping, "Secure Notes")
  }

  /** Group names are compared without regard to ASCII letter case. */
  lemma SecureNoteCaseInsensitive(url: string, g1: string, g2: string)
    requires Lower(g1) == Lower(g2)
    ensures IsSecureNote(url, g1) <==> IsSecureNote(url, g2)
  {
  }

  /** `convertLastPassRow`. */
  function ConvertRow(row: seq<string>, idx: map<string, nat>): (Option<Entry>, string)
  {
    var name := ColVal(row, idx, "name");
    var url := ColVal(row, idx, "url");
    var username := ColVal(row, idx, "username");
    var password := ColVal(row, idx, "password");
    var totp := ColVal(row, idx, "totp");
    var extra := ColVal(row, idx, "extra");
    var grouping := ColVal(row, idx, "grouping");
    if name == "" && username == "" && password == "" && extra == "" then (None, "")
    else if IsSecureNote(url, grouping) then (Some(NewEntry("Note", name, extra)), "notes")
    else
      var e := NewEntry("Login", if name == "" && url != "" then url else name, extra);
      (Some(e.(username := username, password := password, link := url, totpSecret := totp)), "logins")
  }

  /** A row is dropped exactly when its name, username, password and extra columns
    * are all empty; otherwise it is a secure note or a login that keeps its
    * columns, titled by its URL when it has no name. */
  lemma ConvertRowCases(row: seq<string>, idx: map<string, nat>)
    ensures ConvertRow(row, idx).0.None? <==>
      ColVal(row, idx, "name") == "" && ColVal(row, idx, "username") == "" &&
      ColVal(row, idx, "password") == "" && ColVal(row, idx, "extra") == ""
    ensures ConvertRow(row, idx).0.Some? ==>
      var e := ConvertRow(row, idx).0.value;
      e.customText == ColVal(row, idx, "extra") &&
      (e.kind == "Note" <==> IsSecureNote(ColVal(row, idx, "url"), ColVal(row, idx, "grouping"))) &&
      (e.kind == "Note" ==> e.title == ColVal(row, idx, "name") && ConvertRow(row, idx).1 == "notes" &&
                            e.username == e.password == e.link == e.totpSecret == "") &&
      (e.kind != "Note" ==> e.kind == "Login" && ConvertRow(row, idx).1 == "logins" &&
                            e.username == ColVal(row, idx, "username") &&
                            e.password == ColVal(row, idx, "password") &&
                            e.link == ColVal(row, idx, "url") && e.totpSecret == ColVal(row, idx, "totp") &&
                            e.title == (if ColVal(row, idx, "name") != "" then ColVal(row, idx, "name")
                                        else ColVal(row, idx, "url")))
  {
  }

  /** The message of a file without a data row. */
  const NoRows := "CSV file is empty or has no data rows"

  /** Data row `j + 1` was written, as its stored entry, exactly when it converts to
    * an entry and its write succeeds. */
  ghost predicate RowImported(records: seq<seq<string>>, failing: set<nat>, keys0: set<string>,
                              written: seq<Option<(string, Entry)>>, j: int)
    requires 0 <= j < |written| && 1 <= |records|
  {
    j + 1 < |records| &&
    var converted := ConvertRow(records[j + 1], ColumnIndex(HeaderKeys(records[0]))).0;
    (written[j].Some? <==> converted.Some? && j !in failing) &&
    (written[j].Some? ==>
       written[j].value.1 == Stored(converted.value) &&
       NameFor(StoredTitle(converted.value.title), keys0 + WrittenKeys(written[..j]), written[j].value.0))
  }

  /** The conversion loop of `ImportLastPass`: one entry and one name per data row. */
  method ConvertRows(records: seq<seq<string>>, idx: map<string, nat>) returns (entries: seq<Option<Entry>>, names: seq<string>)
    requires |records| >= 1
    ensures |entries| == |records| - 1 && |names| == |records| - 1
    ensures forall j :: 0 <= j < |entries| ==> entries[j] == ConvertRow(records[j + 1], idx).0
    ensures forall j :: 0 <= j < |names| ==> names[j] == ColVal(records[j + 1], idx, "name")
  {
    entries, names := [], [];
    for r := 1 to |records|
      invariant |entries| == r - 1 && |names| == r - 1
      invariant forall j :: 0 <= j < r - 1 ==> entries[j] == ConvertRow(records[j + 1], idx).0
      invariant forall j :: 0 <= j < r - 1 ==> names[j] == ColVal(records[j + 1], idx, "name")
    {
      var entry := ConvertRow(records[r], idx).0;
      entries := entries + [entry];
      names := names + [ColVal(records[r], idx, "name")];
    }
  }

  /** `ImportLastPass` on the parsed `records`: a file without a data row is an
    * error, otherwise every data row is converted and the entries are saved. */
  method ImportLastPass(setup: Outcome, records: seq<seq<string>>, disk0: map<string, Entry>, failing: set<nat>)
    returns (result: Outcome, disk: map<string, Entry>, written: seq<Option<(string, Entry)>>)
    ensures |records| < 2 ==> result == Fail(NoRows) && disk == disk0 && written == []
    ensures |records| >= 2 && setup.Fail? ==> result == setup && disk == disk0
    ensures |records| >= 2 && setup.Pass? ==> result == Pass && |written| == |records| - 1
    ensures forall j :: 0 <= j < |written| ==> |records| >= 2 && RowImported(records, failing, disk0.Keys, written, j)
    ensures FreshWrites(disk0, disk, written)
  {
    if |records| < 2 {
      FreshWritesEmpty(disk0);
      return Fail(NoRows), disk0, [];
    }
    var idx := BuildColumnIndex(records[0]);
    var entries, names := ConvertRows(records, idx);
    var imported, skipped;
    result, disk, written, imported, skipped := SaveEntries(setup, entries, names, disk0, failing);
    forall j | 0 <= j < |written|
      ensures RowImported(records, failing, disk0.Keys, written, j)
    {
      assert ImportedAt(entries, failing, disk0.Keys, written, j);
    }
  }
}
