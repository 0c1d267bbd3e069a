/** The 1Password importer (`internal/importer/onepassword.go`): the conversion of
  * an exported item by category, the collection of extra section fields into the
  * custom-field block, and the flattening of accounts, vaults and items before the
  * entries are saved. Reading and decoding the export are inputs. */
module OnePassword {
  import opened Wrappers
  import opened Text
  import opened Vault
  import opened ImporterCommon

  datatype Field = Field(name: string, value: string, designation: string, kind: string, id: string)
  datatype Section = Section(title: string, fields: seq<Field>)

  /** One exported item; `category` is the category UUID ("001" login, "002"
    * card, "003" secure note, "006" document, ...). */
  datatype Item = Item(
    title: string,
    category: string,
    urls: seq<string>,
    fields: seq<Field>,
    sections: seq<Section>,
    notes: string)

  datatype VaultExport = VaultExport(items: seq<Item>)
  datatype Account = Account(vaults: seq<VaultExport>)

  // ---------------------------------------------------------------------------
  // Field selection rules
  // ---------------------------------------------------------------------------

  /** The fields of the sections, section after section. */
  function SectionFields(sections: seq<Section>): (fs: seq<Field>)
    ensures sections == [] ==> fs == []
  {
    if sections == [] then []
    else SectionFields(sections[..|sections| - 1]) + sections[|sections| - 1].fields
  }

  /** A field that holds a one-time-password secret. */
  predicate IsOtp(f: Field)
  {
    f.kind == "OTP" || f.id == "TOTP" || f.name == "one-time password"
  }

  /** The value of the last field with the given designation, or "". */
  function LastDesignated(fields: seq<Field>, d: string): string
  {
    if fields == [] then ""
    else if fields[|fields| - 1].designation == d then fields[|fields| - 1].value
    else LastDesignated(fields[..|fields| - 1], d)
  }

  /** The value of the last field with the given name, or "". */
  function LastNamed(fields: seq<Field>, n: string): string
  {
    if fields == [] then ""
    else if fields[|fields| - 1].name == n then fields[|fields| - 1].value
    else LastNamed(fields[..|fields| - 1], n)
  }

  /** The value of the last one-time-password field, or "". */
  function LastOtp(fields: seq<Field>): string
  {
    if fields == [] then ""
    else if IsOtp(fields[|fields| - 1]) then fields[|fields| - 1].value
    else LastOtp(fields[..|fields| - 1])
  }

  /** Starting from `v`, each field named `n` fills the value while it is still
    * empty. */
  function FillNamed(v: string, fields: seq<Field>, n: string): string
  {
    if fields == [] then v
    else
      var before := FillNamed(v, fields[..|fields| - 1], n);
      if fields[|fields| - 1].name == n && before == "" then fields[|fields| - 1].value else before
  }

  /** The last field with designation `d` decides the value. */
  lemma {:induction false} LastDesignatedIs(fields: seq<Field>, d: string, k: int)
    requires 0 <= k < |fields| && fields[k].designation == d
    requires forall j :: k < j < |fields| ==> fields[j].designation != d
    ensures LastDesignated(fields, d) == fields[k].value
  {
    if k < |fields| - 1 {
      var init := fields[..|fields| - 1];
      assert init[k] == fields[k];
      LastDesignatedIs(init, d, k);
    }
  }

  /** Without a field of designation `d` the value stays empty. */
  lemma {:induction false} LastDesignatedNone(fields: seq<Field>, d: string)
    requires forall j :: 0 <= j < |fields| ==> fields[j].designation != d
    ensures LastDesignated(fields, d) == ""
  {
    if fields != [] {
      LastDesignatedNone(fields[..|fields| - 1], d);
    }
  }

  /** Filling never replaces a non-empty value. */
  lemma {:induction false} FillNamedKeeps(v: string, fields: seq<Field>, n: string)
    requires v != ""
    ensures FillNamed(v, fields, n) == v
  {
    if fields != [] {
      FillNamedKeeps(v, fields[..|fields| - 1], n);
    }
  }

  /** From an empty value, filling yields the first non-empty value among the
    * fields named `n`. */
  lemma {:induction false} FillNamedFirst(fields: seq<Field>, n: string, k: int)
    requires 0 <= k < |fields| && fields[k].name == n && fields[k].value != ""
    requires forall j :: 0 <= j < k ==> fields[j].name != n || fields[j].value == ""
    ensures FillNamed("", fields, n) == fields[k].value
  {
    var init := fields[..|fields| - 1];
    if k < |fields| - 1 {
      assert init[k] == fields[k];
      FillNamedFirst(init, n, k);
    } else {
      FillNamedEmpty(init, n);
    }
  }

  /** Fields named `n` that are all empty leave an empty value empty. */
  lemma {:induction false} FillNamedEmpty(fields: seq<Field>, n: string)
    requires forall j :: 0 <= j < |fields| ==> fields[j].name != n || fields[j].value == ""
    ensures FillNamed("", fields, n) == ""
  {
    if fields != [] {
      FillNamedEmpty(fields[..|fields| - 1], n);
    }
  }

  /** Taking one more section field extends the prefix by that field. */
  lemma PrefixStep(before: seq<Field>, fs: seq<Field>, k: int)
    requires 0 <= k < |fs|
    ensures (before + fs[..k + 1])[..|before| + k] == before + fs[..k]
    ensures (before + fs[..k + 1])[|before| + k] == fs[k]
    ensures |before + fs[..k + 1]| == |before| + k + 1
  {
  }

  /** One step of the filling loop. */
  lemma FillNamedStep(v: string, before: seq<Field>, fs: seq<Field>, k: int, n: string)
    requires 0 <= k < |fs|
    ensures FillNamed(v, before + fs[..k + 1], n) ==
      var b := FillNamed(v, before + fs[..k], n);
      if fs[k].name == n && b == "" then fs[k].value else b
  {
    PrefixStep(before, fs, k);
  }

  /** The names and designations that map to entry fields. */
  const Skip: set<string> := {"username", "password", "ccnum", "cvv", "expiry", "cardholder"}

  /** A section field that goes into the custom-field block. */
  predicate IsExtra(f: Field)
  {
    f.name !in Skip && f.designation !in Skip && !IsOtp(f) && f.value != ""
  }

  /** The label of an extra field: its name, or its ID when it has no name. */
  function Label(f: Field): string
  {
    if f.name != "" then f.name else f.id
  }

  /** The extra fields among `fields` as (label, value) pairs, in order. */
  function ExtraPairs(fields: seq<Field>): (pairs: seq<(string, string)>)
    ensures |pairs| <= |fields|
  {
    if fields == [] then []
    else
      var f := fields[|fields| - 1];
      ExtraPairs(fields[..|fields| - 1]) + (if IsExtra(f) then [(Label(f), f.value)] else [])
  }

  /** Extra pairs are taken field by field, so they distribute over concatenation. */
  lemma {:induction false} ExtraPairsAppend(a: seq<Field>, b: seq<Field>)
    ensures ExtraPairs(a + b) == ExtraPairs(a) + ExtraPairs(b)
    decreases |b|
  {
    if b == [] {
      assert a + b == a;
    } else {
      var init := b[..|b| - 1];
      assert (a + b)[..|a + b| - 1] == a + init;
      assert (a + b)[|a + b| - 1] == b[|b| - 1];
      ExtraPairsAppend(a, init);
    }
  }

  /** Every collected pair has a non-empty value, so none is dropped by
    * `formatCustomFields`, and one pair is collected per extra field. */
  lemma {:induction false} ExtraPairsNonEmpty(fields: seq<Field>)
    ensures forall i :: 0 <= i < |ExtraPairs(fields)| ==> ExtraPairs(fields)[i].1 != ""
    ensures FieldLines(ExtraPairs(fields)) ==
      seq(|ExtraPairs(fields)|, i requires 0 <= i < |ExtraPairs(fields)| =>
        FieldLine(ExtraPairs(fields)[i].0, ExtraPairs(fields)[i].1))
  {
    if fields != [] {
      var init := fields[..|fields| - 1];
      ExtraPairsNonEmpty(init);
      var f := fields[|fields| - 1];
      var tail: seq<(string, string)> := if IsExtra(f) then [(Label(f), f.value)] else [];
      FieldLinesAppend(ExtraPairs(init), tail);
      if IsExtra(f) {
        assert FieldLines(tail) == [FieldLine(Label(f), f.value)] by {
          assert tail[..0] == [];
        }
      } else {
        assert ExtraPairs(fields) == ExtraPairs(init);
      }
    }
  }

  /** One step of the collecting loop. */
  lemma ExtraPairsStep(before: seq<Field>, fs: seq<Field>, k: int)
    requires 0 <= k < |fs|
    ensures ExtraPairs(before + fs[..k + 1]) ==
      ExtraPairs(before + fs[..k]) + (if IsExtra(fs[k]) then [(Label(fs[k]), fs[k].value)] else [])
  {
    PrefixStep(before, fs, k);
  }

  /** `collect1PasswordExtraFields`. */
  method CollectExtraFields(item: Item) returns (fields: seq<(string, string)>)
    ensures fields == ExtraPairs(SectionFields(item.sections))
  {
    fields := [];
    for s := 0 to |item.sections|
      invariant fields == ExtraPairs(SectionFields(item.sections[..s]))
    {
      var sec := item.sections[s];
      ghost var before := SectionFields(item.sections[..s]);
      assert item.sections[..s + 1][..s] == item.sections[..s];
      assert SectionFields(item.sections[..s + 1]) == before + sec.fields;
      assert before + sec.fields[..0] == before;
      for k := 0 to |sec.fields|
        invariant fields == ExtraPairs(before + sec.fields[..k])
      {
        var f := sec.fields[k];
        ExtraPairsStep(before, sec.fields, k);
        if f.name in Skip || f.designation in Skip {
          continue;
        }
        if f.kind == "OTP" || f.id == "TOTP" || f.name == "one-time password" {
          continue;
        }
        if f.value == "" {
          continue;
        }
        var name := f.name;
        if name == "" {
          name := f.id;
        }
        fields := fields + [(name, f.value)];
      }
      assert sec.fields[..|sec.fields|] == sec.fields;
    }
    assert item.sections[..|item.sections|] == item.sections;
  }

  // ---------------------------------------------------------------------------
  // convert1PasswordItem
  // ---------------------------------------------------------------------------

  /** The custom-field block of an item's extra section fields. */
  function ExtraText(item: Item): string
  {
    CustomFieldsText(ExtraPairs(SectionFields(item.sections)))
  }

  /** A login: username and password by designation (last one wins), the last OTP
    * section field, the first URL, and the notes followed by the extra fields. */
  function LoginEntry(item: Item): Entry
  {
    var e := NewEntry("Login", item.title, AppendNotes(item.notes, ExtraText(item)));
    e.(username := LastDesignated(item.fields, "username"),
       password := LastDesignated(item.fields, "password"),
       totpSecret := LastOtp(SectionFields(item.sections)),
       link := if |item.urls| > 0 then item.urls[0] else "")
  }

  /** The card value named `n`: the last top-level field of that name, or, when
    * that is empty, the first non-empty section field of that name. */
  function CardValue(item: Item, n: string): string
  {
    FillNamed(LastNamed(item.fields, n), SectionFields(item.sections), n)
  }

  /** The note line of a card holder, or "" without one. */
  function HolderNote(holder: string): string
  {
    if holder != "" then "Cardholder: " + holder else ""
  }

  /** A card: number, CVV and expiry by name, and the notes followed by the card
    * holder line and the extra fields. */
  function CardEntry(item: Item): Entry
  {
    var e := NewEntry("Card", item.title,
      AppendNotes(AppendNotes(item.notes, HolderNote(CardValue(item, "cardholder"))), ExtraText(item)));
    e.(cardNumber := CardValue(item, "ccnum"), cvv := CardValue(item, "cvv"), expiry := CardValue(item, "expiry"))
  }

  /** A note: the notes followed by the extra fields. */
  function NoteEntry(item: Item): Entry
  {
    NewEntry("Note", item.title, AppendNotes(item.notes, ExtraText(item)))
  }

  /** What `convert1PasswordItem` returns, with its sub-directory. */
  function Converted(item: Item): (Option<Entry>, string)
  {
    if item.category == "001" then (Some(LoginEntry(item)), "logins")
    else if item.category == "002" then (Some(CardEntry(item)), "cards")
    else if item.category == "003" || item.category == "006" then (Some(NoteEntry(item)), "notes")
    else if item.title == "" then (None, "")
    else (Some(NoteEntry(item)), "notes")
  }

  /** The field loops of a login item. */
  method LoginFields(item: Item) returns (username: string, password: string, totp: string)
    ensures username == LastDesignated(item.fields, "username")
    ensures password == LastDesignated(item.fields, "password")
    ensures totp == LastOtp(SectionFields(item.sections))
  {
    username, password := DesignatedFields(item.fields);
    totp := "";
    for s := 0 to |item.sections|
      invariant totp == LastOtp(SectionFields(item.sections[..s]))
    {
      ghost var before := SectionFields(item.sections[..s]);
      assert item.sections[..s + 1][..s] == item.sections[..s];
      totp := SectionOtp(item.sections[s].fields, before, totp);
    }
    assert item.sections[..|item.sections|] == item.sections;
  }

  /** The loop over the top-level fields of a login item. */
  method DesignatedFields(fields: seq<Field>) returns (username: string, password: string)
    ensures username == LastDesignated(fields, "username")
    ensures password == LastDesignated(fields, "password")
  {
    username, password := "", "";
    for i := 0 to |fields|
      invariant username == LastDesignated(fields[..i], "username")
      invariant password == LastDesignated(fields[..i], "password")
    {
      var f := fields[i];
      assert fields[..i + 1][..i] == fields[..i];
      if f.designation == "username" {
        username := f.value;
      } else if f.designation == "password" {
        password := f.value;
      }
    }
    assert fields[..|fields|] == fields;
  }

  /** The loop over one section's fields: the last OTP field wins. */
  method SectionOtp(fields: seq<Field>, ghost before: seq<Field>, totp: string) returns (totp': string)
    requires totp == LastOtp(before)
    ensures totp' == LastOtp(before + fields)
  {
    totp' := totp;
    assert before + fields[..0] == before;
    for k := 0 to |fields|
      invariant totp' == LastOtp(before + fields[..k])
    {
      var f := fields[k];
      PrefixStep(before, fields, k);
      if f.kind == "OTP" || f.id == "TOTP" || f.name == "one-time password" {
        totp' := f.value;
      }
    }
    assert fields[..|fields|] == fields;
  }

  /** The field loops of a card item: top-level fields set by name, then section
    * fields fill what is still empty. */
  method CardFields(item: Item) returns (number: string, cvv: string, expiry: string, holder: string)
    ensures number == CardValue(item, "ccnum") && cvv == CardValue(item, "cvv")
    ensures expiry == CardValue(item, "expiry") && holder == CardValue(item, "cardholder")
  {
    number, cvv, expiry, holder := NamedCardFields(item.fields);
    ghost var n0, c0, e0, h0 := number, cvv, expiry, holder;
    for s := 0 to |item.sections|
      invariant number == FillNamed(n0, SectionFields(item.sections[..s]), "ccnum")
      invariant cvv == FillNamed(c0, SectionFields(item.sections[..s]), "cvv")
      invariant expiry == FillNamed(e0, SectionFields(item.sections[..s]), "expiry")
      invariant holder == FillNamed(h0, SectionFields(item.sections[..s]), "cardholder")
    {
      ghost var before := SectionFields(item.sections[..s]);
      assert item.sections[..s + 1][..s] == item.sections[..s];
      number, cvv, expiry, holder :=
        FillCardSection(item.sections[s].fields, before, n0, c0, e0, h0, number, cvv, expiry, holder);
    }
    assert item.sections[..|item.sections|] == item.sections;
  }

  /** The loop over the top-level fields of a card item. */
  method NamedCardFields(fields: seq<Field>) returns (number: string, cvv: string, expiry: string, holder: string)
    ensures number == LastNamed(fields, "ccnum") && cvv == LastNamed(fields, "cvv")
    ensures expiry == LastNamed(fields, "expiry") && holder == LastNamed(fields, "cardholder")
  {
    number, cvv, expiry, holder := "", "", "", "";
    for i := 0 to |fields|
      invariant number == LastNamed(fields[..i], "ccnum")
      invariant cvv == LastNamed(fields[..i], "cvv")
      invariant expiry == LastNamed(fields[..i], "expiry")
      invariant holder == LastNamed(fields[..i], "cardholder")
    {
      var f := fields[i];
      assert fields[..i + 1][..i] == fields[..i];
      if f.name == "ccnum" {
        number := f.value;
      } else if f.name == "cvv" {
        cvv := f.value;
      } else if f.name == "expiry" {
        expiry := f.value;
      } else if f.name == "cardholder" {
        holder := f.value;
      }
    }
    assert fields[..|fields|] == fields;
  }

  /** The loop over one section's fields of a card item: a field fills its value
    * only while that is still empty. */
  method FillCardSection(fields: seq<Field>, ghost before: seq<Field>,
                         ghost n0: string, ghost c0: string, ghost e0: string, ghost h0: string,
                         number: string, cvv: string, expiry: string, holder: string)
    returns (number': string, cvv': string, expiry': string, holder': string)
    requires number == FillNamed(n0, before, "ccnum") && cvv == FillNamed(c0, before, "cvv")
    requires expiry == FillNamed(e0, before, "expiry") && holder == FillNamed(h0, before, "cardholder")
    ensures number' == FillNamed(n0, before + fields, "ccnum") && cvv' == FillNamed(c0, before + fields, "cvv")
    ensures expiry' == FillNamed(e0, before + fields, "expiry") && holder' == FillNamed(h0, before + fields, "cardholder")
  {
    number', cvv', expiry', holder' := number, cvv, expiry, holder;
    assert before + fields[..0] == before;
    for k := 0 to |fields|
      invariant number' == FillNamed(n0, before + fields[..k], "ccnum")
      invariant cvv' == FillNamed(c0, before + fields[..k], "cvv")
      invariant expiry' == FillNamed(e0, before + fields[..k], "expiry")
      invariant holder' == FillNamed(h0, before + fields[..k], "cardholder")
    {
      var f := fields[k];
      FillNamedStep(n0, before, fields, k, "ccnum");
      FillNamedStep(c0, before, fields, k, "cvv");
      FillNamedStep(e0, before, fields, k, "expiry");
      FillNamedStep(h0, before, fields, k, "cardholder");
      if f.name == "ccnum" {
        if number' == "" {
          number' := f.value;
        }
      } else if f.name == "cvv" {
        if cvv' == "" {
          cvv' := f.value;
        }
      } else if f.name == "expiry" {
        if expiry' == "" {
          expiry' := f.value;
        }
      } else if f.name == "cardholder" {
        if holder' == "" {
          holder' := f.value;
        }
      }
    }
    assert fields[..|fields|] == fields;
  }

  /** `convert1PasswordItem`. */
  method ConvertItem(item: Item) returns (entry: Option<Entry>, subDir: string)
    ensures (entry, subDir) == Converted(item)
  {
    if item.category == "001" {
      var e := NewEntry("Login", item.title, item.notes);
      var username, password, totp := LoginFields(item);
      e := e.(username := username, password := password, totpSecret := totp);
      if |item.urls| > 0 {
        e := e.(link := item.urls[0]);
      }
      var extra := CollectExtraFields(item);
      var block := FormatCustomFields(extra);
      e := e.(customText := AppendNotes(e.customText, block));
      return Some(e), "logins";
    } else if item.category == "002" {
      var e := NewEntry("Card", item.title, item.notes);
      var number, cvv, expiry, holder := CardFields(item);
      e := e.(cardNumber := number, cvv := cvv, expiry := expiry);
      if holder != "" {
        e := e.(customText := AppendNotes(e.customText, "Cardholder: " + holder));
      }
      var extra := CollectExtraFields(item);
      var block := FormatCustomFields(extra);
      e := e.(customText := AppendNotes(e.customText, block));
      return Some(e), "cards";
    } else if item.category == "003" || item.category == "006" {
      var e := NewEntry("Note", item.title, item.notes);
      var extra := CollectExtraFields(item);
      var block := FormatCustomFields(extra);
      e := e.(customText := AppendNotes(e.customText, block));
      return Some(e), "notes";
    }
    if item.title == "" {
      return None, "";
    }
    var e := NewEntry("Note", item.title, item.notes);
    var extra := CollectExtraFields(item);
    var block := FormatCustomFields(extra);
    e := e.(customText := AppendNotes(e.customText, block));
    return Some(e), "notes";
  }

  /** Logins, cards and notes by category; any other category is kept as a note
    * unless its title is empty. */
  lemma ConvertedCategories(item: Item)
    ensures Converted(item).0.None? <==>
      item.category !in {"001", "002", "003", "006"} && item.title == ""
    ensures item.category == "001" ==> Converted(item).0.value.kind == "Login" && Converted(item).1 == "logins"
    ensures item.category == "002" ==> Converted(item).0.value.kind == "Card" && Converted(item).1 == "cards"
    ensures Converted(item).0.Some? && item.category !in {"001", "002"} ==>
      Converted(item).0.value.kind == "Note" && Converted(item).1 == "notes"
    ensures Converted(item).0.Some? ==> Converted(item).0.value.title == item.title
  {
  }

  /** `k` is the first field named `n` with a non-empty value. */
  ghost predicate FirstNonEmptyAt(fields: seq<Field>, n: string, k: int)
  {
    0 <= k < |fields| && fields[k].name == n && fields[k].value != "" &&
    forall j :: 0 <= j < k ==> fields[j].name != n || fields[j].value == ""
  }

  /** A card number given at the top level is never replaced by a section field;
    * otherwise the first non-empty section field named "ccnum" is used. */
  lemma CardNumberSource(item: Item, k: int)
    requires item.category == "002"
    ensures LastNamed(item.fields, "ccnum") != "" ==>
      Converted(item).0.value.cardNumber == LastNamed(item.fields, "ccnum")
    ensures LastNamed(item.fields, "ccnum") == "" && FirstNonEmptyAt(SectionFields(item.sections), "ccnum", k) ==>
      Converted(item).0.value.cardNumber == SectionFields(item.sections)[k].value
  {
    var fs := SectionFields(item.sections);
    if LastNamed(item.fields, "ccnum") != "" {
      FillNamedKeeps(LastNamed(item.fields, "ccnum"), fs, "ccnum");
    } else if FirstNonEmptyAt(fs, "ccnum", k) {
      FillNamedFirst(fs, "ccnum", k);
    }
  }

  // ---------------------------------------------------------------------------
  // Import1Password
  // ---------------------------------------------------------------------------

  /** The items of some vaults, vault after vault. */
  function VaultItems(vaults: seq<VaultExport>): seq<Item>
  {
    if vaults == [] then [] else VaultItems(vaults[..|vaults| - 1]) + vaults[|vaults| - 1].items
  }

  /** The items of all accounts, account after account. */
  function AllItems(accounts: seq<Account>): seq<Item>
  {
    if accounts == [] then [] else AllItems(accounts[..|accounts| - 1]) + VaultItems(accounts[|accounts| - 1].vaults)
  }

  /** The three parallel lists match the flattened items one for one. */
  ghost predicate Aligned(items: seq<Item>, entries: seq<Option<Entry>>, subDirs: seq<string>, names: seq<string>)
  {
    |entries| == |items| && |subDirs| == |items| && |names| == |items| &&
    forall k :: 0 <= k < |items| ==>
      entries[k] == Converted(items[k]).0 && subDirs[k] == Converted(items[k]).1 && names[k] == items[k].title
  }

  lemma AlignedAppend(items: seq<Item>, entries: seq<Option<Entry>>, subDirs: seq<string>, names: seq<string>, item: Item)
    requires Aligned(items, entries, subDirs, names)
    ensures Aligned(items + [item], entries + [Converted(item).0], subDirs + [Converted(item).1], names + [item.title])
  {
  }

  lemma AlignedConcat(items1: seq<Item>, entries1: seq<Option<Entry>>, subDirs1: seq<string>, names1: seq<string>,
                      items2: seq<Item>, entries2: seq<Option<Entry>>, subDirs2: seq<string>, names2: seq<string>)
    requires Aligned(items1, entries1, subDirs1, names1) && Aligned(items2, entries2, subDirs2, names2)
    ensures Aligned(items1 + items2, entries1 + entries2, subDirs1 + subDirs2, names1 + names2)
  {
  }

  /** The innermost loop of `Import1Password`: one conversion per item of a vault,
    * dropped items kept as `None` so that the lists stay aligned. */
  method ConvertItems(items: seq<Item>) returns (entries: seq<Option<Entry>>, subDirs: seq<string>, names: seq<string>)
    ensures Aligned(items, entries, subDirs, names)
  {
    entries, subDirs, names := [], [], [];
    for k := 0 to |items|
      invariant Aligned(items[..k], entries, subDirs, names)
    {
      var entry, subDir := ConvertItem(items[k]);
      AlignedAppend(items[..k], entries, subDirs, names, items[k]);
      assert items[..k + 1] == items[..k] + [items[k]];
      entries, subDirs, names := entries + [entry], subDirs + [subDir], names + [items[k].title];
    }
    assert items[..|items|] == items;
  }

  /** The nested loops of `Import1Password`: one entry, sub-directory and name per
    * item, in account, vault and item order. */
  method FlattenItems(accounts: seq<Account>)
    returns (entries: seq<Option<Entry>>, subDirs: seq<string>, names: seq<string>)
    ensures Aligned(AllItems(accounts), entries, subDirs, names)
  {
    entries, subDirs, names := [], [], [];
    for a := 0 to |accounts|
      invariant Aligned(AllItems(accounts[..a]), entries, subDirs, names)
    {
      var acct := accounts[a];
      ghost var done := AllItems(accounts[..a]);
      assert accounts[..a + 1][..a] == accounts[..a];
      assert done + VaultItems(acct.vaults[..0]) == done;
      for v := 0 to |acct.vaults|
        invariant Aligned(done + VaultItems(acct.vaults[..v]), entries, subDirs, names)
      {
        ghost var before := done + VaultItems(acct.vaults[..v]);
        assert acct.vaults[..v + 1][..v] == acct.vaults[..v];
        assert done + VaultItems(acct.vaults[..v + 1]) == before + acct.vaults[v].items;
        var e, d, n := ConvertItems(acct.vaults[v].items);
        AlignedConcat(before, entries, subDirs, names, acct.vaults[v].items, e, d, n);
        entries, subDirs, names := entries + e, subDirs + d, names + n;
      }
      assert acct.vaults[..|acct.vaults|] == acct.vaults;
    }
    assert accounts[..|accounts|] == accounts;
  }

  /** `Import1Password`: the flattened entries are saved by `saveEntries` into
    * the data directory itself (its declared parameters take no sub-directories,
    * so the computed sub-directories are not used). */
  method Import1Password(setup: Outcome, accounts: seq<Account>, disk0: map<string, Entry>, failing: set<nat>)
    returns (result: Outcome, disk: map<string, Entry>, written: seq<Option<(string, Entry)>>)
    ensures setup.Fail? ==> result == setup && disk == disk0
    ensures setup.Pass? ==> result == Pass && |written| == |AllItems(accounts)|
    ensures forall j :: 0 <= j < |written| ==>
      j < |AllItems(accounts)| &&
      (written[j].Some? <==> Converted(AllItems(accounts)[j]).0.Some? && j !in failing) &&
      (written[j].Some? ==>
         written[j].value.1 == Stored(Converted(AllItems(accounts)[j]).0.value) &&
         NameFor(StoredTitle(Converted(AllItems(accounts)[j]).0.value.title),
                 disk0.Keys + WrittenKeys(written[..j]), written[j].value.0))
    ensures FreshWrites(disk0, disk, written)
  {
    var entries, subDirs, names := FlattenItems(accounts);
    var imported, skipped;
    result, disk, written, imported, skipped := SaveEntries(setup, entries, names, disk0, failing);
    forall j | 0 <= j < |written|
      ensures j < |AllItems(accounts)| &&
        (written[j].Some? <==> Converted(AllItems(accounts)[j]).0.Some? && j !in failing) &&
        (written[j].Some? ==>
           written[j].value.1 == Stored(Converted(AllItems(accounts)[j]).0.value) &&
           NameFor(StoredTitle(Converted(AllItems(accounts)[j]).0.value.title),
                   disk0.Keys + WrittenKeys(written[..j]), written[j].value.0))
    {
      assert ImportedAt(entries, failing, disk0.Keys, written, j);
    }
  }
}
