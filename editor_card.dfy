/** The card part of the terminal editor (`internal/ui/editor_card.go`): the
  * per-keystroke input filters of the three card fields, the validation run
  * before a save, the trimming of the saved values and the masked view. */
module EditorCard {
  import opened Wrappers
  import opened Text

  /** The texts of the three card input fields. */
  datatype CardInput = CardInput(number: string, expiry: string, cvv: string)

  /** Every character is an ASCII digit (the loop of `isDigits` and of the
    * number and CVV filters). */
  function DigitsOnly(s: string): (b: bool)
    ensures b <==> forall i :: 0 <= i < |s| ==> IsDigit(s[i])
  {
    if s == [] then true
    else
      assert forall i :: 1 <= i < |s| ==> s[i] == s[1..][i - 1];
      IsDigit(s[0]) && DigitsOnly(s[1..])
  }

  /** `isDigits`: false on the empty string. */
  function IsDigits(s: string): (b: bool)
    ensures b <==> s != [] && forall i :: 0 <= i < |s| ==> IsDigit(s[i])
  {
    s != [] && DigitsOnly(s)
  }

  /** A string of digits is ASCII, so Go's byte length is its length. */
  lemma DigitsByteLen(s: string)
    requires forall i :: 0 <= i < |s| ==> IsDigit(s[i])
    ensures ByteLen(s) == |s|
  {
    ByteLenAscii(s);
  }

  // ---------------------------------------------------------------------------
  // Input filters (the acceptance functions); `last == 0` is a paste or reset
  // ---------------------------------------------------------------------------

  const NoRune: char := 0 as char

  /** The card number field: at most 19 bytes, and digits only when typed. */
  predicate AcceptNumber(text: string, last: char)
  {
    if last == NoRune then ByteLen(text) <= 19
    else ByteLen(text) <= 19 && DigitsOnly(text)
  }

  /** The characters from `i` on are digits, except a '/' at index 2. Go ranges
    * over byte offsets; every character before the one examined is a digit or
    * '/', one byte each, so the byte offset equals the character index. */
  predicate ExpiryCharsFrom(text: string, i: nat)
    decreases |text| - i
  {
    i >= |text| ||
    ((if i == 2 then text[i] == '/' else IsDigit(text[i])) && ExpiryCharsFrom(text, i + 1))
  }

  /** The expiry field: at most 5 bytes, and the MM/YY shape when typed. */
  predicate AcceptExpiry(text: string, last: char)
  {
    if last == NoRune then ByteLen(text) <= 5
    else ByteLen(text) <= 5 && ExpiryCharsFrom(text, 0)
  }

  /** The CVV field: at most 4 bytes, and digits only when typed. */
  predicate AcceptCvv(text: string, last: char)
  {
    if last == NoRune then ByteLen(text) <= 4
    else ByteLen(text) <= 4 && DigitsOnly(text)
  }

  /** The shape the expiry filter admits, character by character. */
  ghost predicate ExpiryShape(text: string)
  {
    forall i :: 0 <= i < |text| ==> if i == 2 then text[i] == '/' else IsDigit(text[i])
  }

  lemma {:induction false} ExpiryCharsFromIff(text: string, i: nat)
    ensures ExpiryCharsFrom(text, i) <==>
      forall j :: i <= j < |text| ==> if j == 2 then text[j] == '/' else IsDigit(text[j])
    decreases |text| - i
  {
    if i < |text| {
      ExpiryCharsFromIff(text, i + 1);
    }
  }

  /** A typed character keeps the expiry text within 5 characters of the shape
    * `DD/DD`. */
  lemma AcceptExpiryTyped(text: string, last: char)
    requires last != NoRune
    ensures AcceptExpiry(text, last) <==> |text| <= 5 && ExpiryShape(text)
  {
    ExpiryCharsFromIff(text, 0);
    if ExpiryShape(text) {
      ByteLenAscii(text);
    } else if ExpiryCharsFrom(text, 0) {
      assert false;
    }
  }

  /** Typing is incremental: a prefix of an accepted typed text is accepted too. */
  lemma AcceptPrefixes(text: string, last: char, k: nat)
    requires last != NoRune && k <= |text|
    ensures AcceptNumber(text, last) ==> AcceptNumber(text[..k], last)
    ensures AcceptCvv(text, last) ==> AcceptCvv(text[..k], last)
    ensures AcceptExpiry(text, last) ==> AcceptExpiry(text[..k], last)
  {
    if DigitsOnly(text) {
      DigitsByteLen(text);
      DigitsByteLen(text[..k]);
    }
    AcceptExpiryTyped(text, last);
    AcceptExpiryTyped(text[..k], last);
  }

  // ---------------------------------------------------------------------------
  // Validation before a save
  // ---------------------------------------------------------------------------

  const NumberError := "card number must be 13-19 digits"
  const ExpiryError := "expiry must be MM/YY"
  const CvvError := "CVV must be 3 or 4 digits"
  const FieldsUnavailable := "card fields unavailable"

  /** A (trimmed) card number the editor accepts: empty, or 13 to 19 digits. */
  ghost predicate NumberOk(s: string)
  {
    s == [] || (13 <= |s| <= 19 && forall i :: 0 <= i < |s| ==> IsDigit(s[i]))
  }

  /** A (trimmed) expiry the editor accepts: empty, or `MM/YY` with a month from 1
    * to 12 and any two-digit year. */
  ghost predicate ExpiryOk(s: string)
  {
    s == [] ||
    (|s| == 5 && s[2] == '/' && IsDigit(s[0]) && IsDigit(s[1]) && IsDigit(s[3]) && IsDigit(s[4]) &&
     1 <= 10 * DigitValue(s[0]) + DigitValue(s[1]) <= 12)
  }

  /** A (trimmed) CVV the editor accepts: empty, or 3 or 4 digits. */
  ghost predicate CvvOk(s: string)
  {
    s == [] || ((|s| == 3 || |s| == 4) && forall i :: 0 <= i < |s| ==> IsDigit(s[i]))
  }

  function CheckNumber(number: string): Outcome
  {
    if number != "" && (ByteLen(number) < 13 || ByteLen(number) > 19 || !IsDigits(number)) then Fail(NumberError)
    else Pass
  }

  /** The expiry check. Go compares `len(expiry)` (bytes) with 5 and reads bytes
    * 0-1, 2 and 3-4; a five-byte text of fewer than five characters holds a
    * non-ASCII character, whose bytes are neither digits nor '/', so it fails
    * just as the character-count test here makes it fail. */
  function CheckExpiry(expiry: string): Outcome
  {
    if expiry == "" then Pass
    else if ByteLen(expiry) != 5 || |expiry| != 5 || expiry[2] != '/' then Fail(ExpiryError)
    else if !IsDigits(expiry[..2]) || !IsDigits(expiry[3..]) then Fail(ExpiryError)
    else
      var month := DigitsValue(expiry[..2]);
      if month < 1 || month > 12 then Fail(ExpiryError) else Pass
  }

  function CheckCvv(cvv: string): Outcome
  {
    if cvv != "" && ((ByteLen(cvv) != 3 && ByteLen(cvv) != 4) || !IsDigits(cvv)) then Fail(CvvError)
    else Pass
  }

  /** `validateCardFields`: nothing to check unless the edited entry is a card;
    * `fields` is `None` when the card inputs do not exist. */
  function ValidateCardFields(isCard: bool, fields: Option<CardInput>): Outcome
  {
    if !isCard then Pass
    else if fields.None? then Fail(FieldsUnavailable)
    else
      var number := TrimSpace(fields.value.number);
      var expiry := TrimSpace(fields.value.expiry);
      var cvv := TrimSpace(fields.value.cvv);
      var n := CheckNumber(number);
      if n.Fail? then n
      else
        var e := CheckExpiry(expiry);
        if e.Fail? then e else CheckCvv(cvv)
  }

  lemma CheckNumberIff(s: string)
    ensures CheckNumber(s) == Pass <==> NumberOk(s)
    ensures CheckNumber(s) != Pass ==> CheckNumber(s) == Fail(NumberError)
  {
    if IsDigits(s) { DigitsByteLen(s); }
  }

  /** The value of a two-digit string. */
  lemma TwoDigitsValue(s: string)
    requires |s| == 2 && IsDigit(s[0]) && IsDigit(s[1])
    ensures DigitsValue(s) == 10 * DigitValue(s[0]) + DigitValue(s[1])
  {
    var first := s[..|s| - 1];
    assert first == [s[0]] && first[..|first| - 1] == [];
    assert DigitsValue(first) == DigitsValue([]) * 10 + DigitValue(s[0]);
  }

  lemma CheckExpiryIff(s: string)
    ensures CheckExpiry(s) == Pass <==> ExpiryOk(s)
    ensures CheckExpiry(s) != Pass ==> CheckExpiry(s) == Fail(ExpiryError)
  {
    if s != "" && |s| == 5 {
      assert s[..2][0] == s[0] && s[..2][1] == s[1] && s[3..][0] == s[3] && s[3..][1] == s[4];
      if IsDigit(s[0]) && IsDigit(s[1]) {
        TwoDigitsValue(s[..2]);
      }
      if ExpiryOk(s) {
        ByteLenAscii(s);
      }
    }
  }

  lemma CheckCvvIff(s: string)
    ensures CheckCvv(s) == Pass <==> CvvOk(s)
    ensures CheckCvv(s) != Pass ==> CheckCvv(s) == Fail(CvvError)
  {
    if IsDigits(s) { DigitsByteLen(s); }
  }

  /** A card passes validation exactly when each trimmed field is acceptable; a
    * failure names the first bad field, in the order number, expiry, CVV. */
  lemma ValidateCardFieldsIff(fields: Option<CardInput>)
    ensures ValidateCardFields(true, fields) == Pass <==>
      fields.Some? && NumberOk(TrimSpace(fields.value.number)) &&
      ExpiryOk(TrimSpace(fields.value.expiry)) && CvvOk(TrimSpace(fields.value.cvv))
    ensures fields.Some? && !NumberOk(TrimSpace(fields.value.number)) ==>
      ValidateCardFields(true, fields) == Fail(NumberError)
    ensures (fields.Some? && NumberOk(TrimSpace(fields.value.number)) &&
             !ExpiryOk(TrimSpace(fields.value.expiry))) ==>
      ValidateCardFields(true, fields) == Fail(ExpiryError)
    ensures (fields.Some? && NumberOk(TrimSpace(fields.value.number)) &&
             ExpiryOk(TrimSpace(fields.value.expiry)) && !CvvOk(TrimSpace(fields.value.cvv))) ==>
      ValidateCardFields(true, fields) == Fail(CvvError)
  {
    if fields.Some? {
      CheckNumberIff(TrimSpace(fields.value.number));
      CheckExpiryIff(TrimSpace(fields.value.expiry));
      CheckCvvIff(TrimSpace(fields.value.cvv));
    }
  }

  /** Whatever validation accepts, the input filters accept too, whether it was
    * typed or pasted. */
  lemma FiltersAdmitValid(number: string, expiry: string, cvv: string, last: char)
    requires NumberOk(number) && ExpiryOk(expiry) && CvvOk(cvv)
    ensures AcceptNumber(number, last) && AcceptExpiry(expiry, last) && AcceptCvv(cvv, last)
  {
    DigitsByteLen(number);
    DigitsByteLen(cvv);
    if expiry != [] {
      assert ExpiryShape(expiry);
      ByteLenAscii(expiry);
      if last != NoRune {
        AcceptExpiryTyped(expiry, last);
      }
    }
  }

  /** `collectCardFields`: the three trimmed texts, or three empty strings when
    * the inputs do not exist. */
  function CollectCardFields(fields: Option<CardInput>): (r: (string, string, string))
    ensures fields.None? ==> r == ("", "", "")
    ensures fields.Some? ==>
      (r.0 == TrimSpace(fields.value.number) && r.1 == TrimSpace(fields.value.expiry) &&
       r.2 == TrimSpace(fields.value.cvv))
  {
    if fields.None? then ("", "", "")
    else (TrimSpace(fields.value.number), TrimSpace(fields.value.expiry), TrimSpace(fields.value.cvv))
  }

  /** A card that passes validation is saved with acceptable values. */
  lemma CollectedAreValid(fields: Option<CardInput>)
    requires ValidateCardFields(true, fields) == Pass
    ensures var r := CollectCardFields(fields);
      NumberOk(r.0) && ExpiryOk(r.1) && CvvOk(r.2)
  {
    ValidateCardFieldsIff(fields);
  }

  // ---------------------------------------------------------------------------
  // The card view
  // ---------------------------------------------------------------------------

  const MaskPrefix := "**** **** **** "

  /** The number as `renderCardView` shows it: hidden numbers longer than four
    * bytes show only their last four characters. */
  function ShownNumber(num: string, revealed: bool): (shown: string)
  {
    if !revealed && ByteLen(num) > 4 then
      MaskPrefix + (if |num| >= 4 then num[|num| - 4..] else num)
    else num
  }

  /** The masked number depends only on the last four characters: two long
    * numbers that end alike look alike. */
  lemma ShownNumberHidesPrefix(a: string, b: string)
    requires |a| > 4 && |b| > 4 && a[|a| - 4..] == b[|b| - 4..]
    ensures ShownNumber(a, false) == ShownNumber(b, false)
    ensures |ShownNumber(a, false)| == 19 && ShownNumber(a, false)[15..] == a[|a| - 4..]
  {
  }

  /** Revealed, or at most four bytes long, the number is shown as it is. */
  lemma ShownNumberPlain(num: string, revealed: bool)
    requires revealed || ByteLen(num) <= 4
    ensures ShownNumber(num, revealed) == num
  {
  }

  /** The CVV as shown: three stars unless revealed. */
  function ShownCvv(cvv: string, revealed: bool): (shown: string)
    ensures !revealed ==> shown == "***"
    ensures revealed ==> shown == cvv
  {
    if revealed then cvv else "***"
  }
}
