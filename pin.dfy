/** The second-factor screens of the terminal UI: choosing and creating a
  * 6-digit PIN, enrolling an authenticator app (TOTP) from a QR code, and
  * checking the PIN or code at unlock time. */
module Pin {
  import opened Wrappers
  import opened Text
  import opened Bytes

  // ---------------------------------------------------------------------------
  // The digit filter of every PIN and code field
  // ---------------------------------------------------------------------------

  /** The acceptance function of the PIN and code fields: `text` is the field's
    * content with `ch` already inserted. */
  predicate PinDigitAccept(text: string, ch: char)
  {
    IsDigit(ch) && ByteLen(text) <= 6
  }

  /** The content of a field that starts empty and receives `keys` one by one at
    * its end, each insertion kept only when the filter accepts it. */
  function Typed(keys: string): (t: string)
  {
    if keys == [] then []
    else
      var prior := Typed(keys[..|keys| - 1]);
      var ch := keys[|keys| - 1];
      if PinDigitAccept(prior + [ch], ch) then prior + [ch] else prior
  }

  predicate AllDigits(s: string)
  {
    forall i :: 0 <= i < |s| ==> IsDigit(s[i])
  }

  lemma DigitsAreAscii(s: string)
    requires AllDigits(s)
    ensures ByteLen(s) == |s|
  {
    ByteLenAscii(s);
  }

  /** Whatever is typed, a PIN field holds at most six decimal digits. */
  lemma {:induction false} TypedIsShortDigits(keys: string)
    ensures AllDigits(Typed(keys)) && |Typed(keys)| <= 6
  {
    if keys != [] {
      var prior := Typed(keys[..|keys| - 1]);
      var ch := keys[|keys| - 1];
      TypedIsShortDigits(keys[..|keys| - 1]);
      if PinDigitAccept(prior + [ch], ch) {
        assert AllDigits(prior + [ch]) by {
          forall i | 0 <= i < |prior + [ch]| ensures IsDigit((prior + [ch])[i]) {
            if i < |prior| { assert (prior + [ch])[i] == prior[i]; }
          }
        }
        DigitsAreAscii(prior + [ch]);
      }
    }
  }

  /** Up to six digits typed in a row all reach the field, and nothing else does. */
  lemma {:induction false} TypedKeepsShortDigitRuns(keys: string)
    ensures Typed(keys) == keys <==> (AllDigits(keys) && |keys| <= 6)
  {
    TypedIsShortDigits(keys);
    if keys != [] && AllDigits(keys) && |keys| <= 6 {
      var init := keys[..|keys| - 1];
      var ch := keys[|keys| - 1];
      assert AllDigits(init) by {
        forall i | 0 <= i < |init| ensures IsDigit(init[i]) { assert init[i] == keys[i]; }
      }
      TypedKeepsShortDigitRuns(init);
      assert init + [ch] == keys;
      DigitsAreAscii(keys);
    }
  }

  // ---------------------------------------------------------------------------
  // Displaying the TOTP secret
  // ---------------------------------------------------------------------------

  /** `formatTotpSecret`: the secret shown to the user, upper-cased. */
  function FormatTotpSecret(secret: string): (r: string)
    ensures |r| == |secret|
    ensures forall i :: 0 <= i < |r| ==> !('a' <= r[i] <= 'z')
    ensures forall i :: 0 <= i < |r| ==> LowerChar(r[i]) == LowerChar(secret[i])
  {
    Upper(secret)
  }

  lemma FormatTotpSecretIdempotent(secret: string)
    ensures FormatTotpSecret(FormatTotpSecret(secret)) == FormatTotpSecret(secret)
  {
  }

  /** A base32 secret (upper-case letters and digits) is shown as it is. */
  lemma FormatTotpSecretKeepsBase32(secret: string)
    requires forall i :: 0 <= i < |secret| ==> ('A' <= secret[i] <= 'Z' || '2' <= secret[i] <= '7')
    ensures FormatTotpSecret(secret) == secret
  {
  }

  // ---------------------------------------------------------------------------
  // Rendering the enrolment QR code as text
  // ---------------------------------------------------------------------------

  /** A QR bitmap, row by row; `true` is a dark module. */
  type Bitmap = seq<seq<bool>>

  /** Every row is at least as wide as the first one. */
  predicate WellFormed(bmp: Bitmap)
  {
    forall y :: 0 <= y < |bmp| ==> |bmp[y]| >= |bmp[0]|
  }

  /** The text of one cell covering the pixels `top` and, below it, `bottom`;
    * every cell is 19 characters wide. */
  function Glyph(top: bool, bottom: bool): (g: string)
    ensures |g| == 19
  {
    if top && bottom then "[black:black] [-:-]"
    else if top && !bottom then "[black:white]\U{2580}[-:-]"
    else if !top && bottom then "[white:black]\U{2580}[-:-]"
    else "[white:white] [-:-]"
  }

  /** Reading a cell back: its two pixels. */
  function GlyphPixels(g: string): (p: Option<(bool, bool)>)
  {
    if g == "[black:black] [-:-]" then Some((true, true))
    else if g == "[black:white]\U{2580}[-:-]" then Some((true, false))
    else if g == "[white:black]\U{2580}[-:-]" then Some((false, true))
    else if g == "[white:white] [-:-]" then Some((false, false))
    else None
  }

  lemma GlyphRoundTrip(top: bool, bottom: bool)
    ensures GlyphPixels(Glyph(top, bottom)) == Some((top, bottom))
  {
  }

  /** The row beneath row `y`, or no pixels at all under the last row. */
  function Below(bmp: Bitmap, y: nat): (r: seq<bool>)
    ensures y + 1 < |bmp| ==> r == bmp[y + 1]
    ensures y + 1 >= |bmp| ==> r == []
  {
    if y + 1 < |bmp| then bmp[y + 1] else []
  }

  /** The cell in column `x` over the rows `top` and `bottom`; a pixel missing
    * from `bottom` counts as light. */
  function Cell(top: seq<bool>, bottom: seq<bool>, x: nat): (g: string)
    requires x < |top|
  {
    Glyph(top[x], x < |bottom| && bottom[x])
  }

  /** The cells of the first `n` columns over the rows `top` and `bottom`. */
  function Row(top: seq<bool>, bottom: seq<bool>, n: nat): (cells: seq<string>)
    requires n <= |top|
    ensures |cells| == n
  {
    seq(n, x requires 0 <= x < n => Cell(top, bottom, x))
  }

  /** The pieces of a text, one after the other (a `strings.Builder`). */
  function Concat(parts: seq<string>): (s: string)
  {
    if parts == [] then [] else Concat(parts[..|parts| - 1]) + parts[|parts| - 1]
  }

  lemma ConcatStep(parts: seq<string>, n: nat)
    requires n < |parts|
    ensures Concat(parts[..n + 1]) == Concat(parts[..n]) + parts[n]
  {
    assert parts[..n + 1][..n] == parts[..n];
  }

  /** The concatenation of fewer pieces is a prefix of that of more. */
  lemma {:induction false} ConcatPrefix(parts: seq<string>, m: nat, n: nat)
    requires m <= n <= |parts|
    ensures Concat(parts[..m]) <= Concat(parts[..n])
  {
    if m < n {
      ConcatPrefix(parts, m, n - 1);
      ConcatStep(parts, n - 1);
      PrefixExtend(Concat(parts[..m]), Concat(parts[..n - 1]), parts[n - 1]);
    }
  }

  /** A prefix stays a prefix when more text follows. */
  lemma PrefixExtend(a: string, b: string, c: string)
    requires a <= b
    ensures a <= b + c
  {
    assert (b + c)[..|b|] == b;
  }

  /** Extending the same front keeps the prefix order. */
  lemma PrefixAppend(front: string, a: string, b: string)
    requires a <= b
    ensures front + a <= front + b
  {
    assert front + b == (front + a) + b[|a|..];
  }

  /** Line `k` of the picture: the cells over rows `2k` and `2k + 1`, then a newline. */
  function Line(bmp: Bitmap, k: nat): (s: string)
    requires WellFormed(bmp) && 2 * k < |bmp|
  {
    Concat(Row(bmp[2 * k], Below(bmp, 2 * k), |bmp[0]|)) + "\n"
  }

  /** Number of lines of a picture: half the rows of the bitmap, rounded up. */
  function BandCount(bmp: Bitmap): nat
  {
    (|bmp| + 1) / 2
  }

  /** Every line of the picture. */
  function Lines(bmp: Bitmap): (lines: seq<string>)
    requires WellFormed(bmp)
    ensures |lines| == BandCount(bmp)
  {
    seq(BandCount(bmp), k requires 0 <= k < BandCount(bmp) => Line(bmp, k))
  }

  /** The rendering of an encoded URL: nothing for an empty bitmap, else every line. */
  function QrText(bmp: Bitmap): (s: string)
    requires WellFormed(bmp)
    ensures |bmp| == 0 ==> s == ""
  {
    Concat(Lines(bmp))
  }

  /** `renderQRCode` after the encoder: the text of the code and its line count.
    * `encoded` is `None` when the encoder refused the URL. */
  method RenderQrCode(encoded: Option<Bitmap>) returns (text: string, lines: int)
    requires encoded.Some? ==> WellFormed(encoded.value)
    ensures encoded.None? ==> text == "" && lines == 0
    ensures encoded.Some? ==> text == QrText(encoded.value) && lines == BandCount(encoded.value)
  {
    if encoded.None? {
      return "", 0;
    }
    var bmp := encoded.value;
    var rows := |bmp|;
    if rows == 0 {
      return "", 0;
    }
    var cols := |bmp[0]|;
    ghost var all := Lines(bmp);
    text := "";
    lines := 0;
    var y := 0;
    while y < rows
      invariant y == 2 * lines && 0 <= lines <= |all| && y <= rows + 1
      invariant text == Concat(all[..lines])
      decreases rows - y
    {
      var line := RenderBand(bmp, y);
      assert all[lines] == line + "\n";
      ConcatStep(all, lines);
      text := text + line + "\n";
      lines := lines + 1;
      y := y + 2;
    }
    assert all[..lines] == all;
  }

  /** The inner loop of `renderQRCode`: the cells of rows `y` and `y + 1`, column
    * by column, a missing row `y + 1` counting as light. */
  method RenderBand(bmp: Bitmap, y: nat) returns (line: string)
    requires WellFormed(bmp) && y < |bmp|
    ensures line == Concat(Row(bmp[y], Below(bmp, y), |bmp[0]|))
  {
    var rows, cols := |bmp|, |bmp[0]|;
    ghost var cells := Row(bmp[y], Below(bmp, y), cols);
    line := "";
    var x := 0;
    while x < cols
      invariant 0 <= x <= cols
      invariant line == Concat(cells[..x])
    {
      var top := bmp[y][x];
      var bottom := y + 1 < rows && bmp[y + 1][x];
      ConcatStep(cells, x);
      line := line + Glyph(top, bottom);
      x := x + 1;
    }
    assert cells[..cols] == cells;
  }

  /** A prefix of piece `k` follows the pieces before it in the whole. */
  lemma PrefixOfPiece(parts: seq<string>, k: nat, piece: string)
    requires k < |parts| && piece <= parts[k]
    ensures Concat(parts[..k]) + piece <= Concat(parts)
  {
    var prior := Concat(parts[..k]);
    PrefixAppend(prior, piece, parts[k]);
    ConcatStep(parts, k);
    ConcatPrefix(parts, k + 1, |parts|);
    assert parts[..|parts|] == parts;
  }

  /** Within line `k`, the first `x` cells are followed by the cell of column `x`. */
  lemma LineReadsBack(bmp: Bitmap, k: nat, x: nat)
    requires WellFormed(bmp) && 2 * k < |bmp| && x < |bmp[0]|
    ensures var row := Row(bmp[2 * k], Below(bmp, 2 * k), |bmp[0]|);
      Concat(row[..x]) + Glyph(bmp[2 * k][x], 2 * k + 1 < |bmp| && bmp[2 * k + 1][x]) <= Line(bmp, k)
  {
    var row := Row(bmp[2 * k], Below(bmp, 2 * k), |bmp[0]|);
    assert row[x] == Glyph(bmp[2 * k][x], 2 * k + 1 < |bmp| && bmp[2 * k + 1][x]);
    ConcatStep(row, x);
    ConcatPrefix(row, x + 1, |row|);
    assert row[..|row|] == row;
    PrefixExtend(Concat(row[..x + 1]), Concat(row), "\n");
  }

  /** The text is a faithful picture: right after the first `k` lines and the
    * first `x` cells of line `k` comes the cell showing the pixels of rows `2k`
    * and `2k + 1` in column `x`, where a last row with no row beneath it is
    * paired with a light pixel. */
  lemma QrTextReadsBack(bmp: Bitmap, k: nat, x: nat)
    requires WellFormed(bmp) && 2 * k < |bmp| && x < |bmp[0]|
    ensures var row := Row(bmp[2 * k], Below(bmp, 2 * k), |bmp[0]|);
      Concat(Lines(bmp)[..k]) + (Concat(row[..x])
        + Glyph(bmp[2 * k][x], 2 * k + 1 < |bmp| && bmp[2 * k + 1][x])) <= QrText(bmp)
  {
    var row := Row(bmp[2 * k], Below(bmp, 2 * k), |bmp[0]|);
    var piece := Concat(row[..x]) + Glyph(bmp[2 * k][x], 2 * k + 1 < |bmp| && bmp[2 * k + 1][x]);
    LineReadsBack(bmp, k, x);
    PrefixOfPiece(Lines(bmp), k, piece);
  }

  /** Each cell text names exactly one pair of pixels. */
  lemma GlyphInjective(t1: bool, b1: bool, t2: bool, b2: bool)
    requires Glyph(t1, b1) == Glyph(t2, b2)
    ensures t1 == t2 && b1 == b2
  {
    GlyphRoundTrip(t1, b1);
    GlyphRoundTrip(t2, b2);
  }

  // ---------------------------------------------------------------------------
  // The screens
  // ---------------------------------------------------------------------------

  /** The stored second-factor configuration: a PIN key and tag for mode "pin",
    * a TOTP secret for mode "totp". */
  datatype PinConfig = PinConfig(mode: string, pinKey: seq<u8>, pinTag: seq<u8>, totpSecret: string)

  const ShortPin := "[red]PIN must be exactly 6 digits."
  const PinMismatch := "[red]PINs do not match."
  const PinKeyFailed := "[red]Failed to generate PIN key."
  const PinSaveFailed := "[red]Failed to save PIN."
  const ShortTotp := "[red]Enter the 6-digit code from your app."
  const TotpInvalid := "[red]Invalid code. Please try again."
  const TotpSaveFailed := "[red]Failed to save TOTP config."
  const ShortCode := "[red]Enter a 6-digit code."
  const WrongPin := "[red]Wrong PIN."
  const CodeInvalid := "[red]Invalid code."

  const MainPage := "main"

  /** What `doSavePin` reports: `None` when the PIN is written. */
  function SavePinError(pin: string, confirm: string, keyMade: bool, writeFails: bool): (e: Option<string>)
  {
    if ByteLen(pin) != 6 then Some(ShortPin)
    else if pin != confirm then Some(PinMismatch)
    else if !keyMade then Some(PinKeyFailed)
    else if writeFails then Some(PinSaveFailed)
    else None
  }

  /** A PIN is stored only when it is six bytes long and confirmed exactly, and a
    * badly typed PIN is reported before any key is made or file written. */
  lemma SavePinErrorIff(pin: string, confirm: string, keyMade: bool, writeFails: bool)
    ensures SavePinError(pin, confirm, keyMade, writeFails) == None
        <==> ByteLen(pin) == 6 && pin == confirm && keyMade && !writeFails
    ensures (ByteLen(pin) != 6 || pin != confirm)
        ==> SavePinError(pin, confirm, keyMade, writeFails) == SavePinError(pin, confirm, true, false) != None
  {
  }

  /** What `doSaveTotp` reports once the code field exists: `None` when the secret is written. */
  function SaveTotpError(code: string, codeValid: bool, writeFails: bool): (e: Option<string>)
  {
    if ByteLen(code) != 6 then Some(ShortTotp)
    else if !codeValid then Some(TotpInvalid)
    else if writeFails then Some(TotpSaveFailed)
    else None
  }

  lemma SaveTotpErrorIff(code: string, codeValid: bool, writeFails: bool)
    ensures SaveTotpError(code, codeValid, writeFails) == None
        <==> ByteLen(code) == 6 && codeValid && !writeFails
    ensures SaveTotpError(code, codeValid, writeFails) == Some(TotpInvalid)
        <==> ByteLen(code) == 6 && !codeValid
  {
  }

  /** What `doVerifyPin` reports: `None` unlocks. `tagOk` is the PIN-tag check
    * and `codeOk` the TOTP check, each consulted only in its own mode. */
  function VerifyError(code: string, mode: string, tagOk: bool, codeOk: bool): (e: Option<string>)
  {
    if ByteLen(code) != 6 then Some(ShortCode)
    else if mode == "pin" then (if tagOk then None else Some(WrongPin))
    else if mode == "totp" then (if codeOk then None else Some(CodeInvalid))
    else None
  }

  /** Unlocking needs a six-byte code that passes the check of the configured
    * mode; a configuration whose mode is neither "pin" nor "totp" unlocks with
    * any six-byte code. */
  lemma VerifyErrorIff(code: string, mode: string, tagOk: bool, codeOk: bool)
    ensures VerifyError(code, mode, tagOk, codeOk) == None
        <==> ByteLen(code) == 6 && (mode == "pin" ==> tagOk) && (mode == "totp" ==> codeOk)
    ensures mode != "pin" && mode != "totp" && ByteLen(code) == 6
        ==> VerifyError(code, mode, tagOk, codeOk) == None
  {
  }

  /** The globals of the second-factor screens. */
  class PinScreens {
    /** The master key held until the vault is opened (`uiTempMasterKey`). */
    var tempMasterKey: Option<seq<u8>>
    /** The secret being enrolled (`uiPendingTotp`). */
    var pendingTotp: string
    /** The configuration the unlock screen checks against (`uiPinConfig`). */
    var pinConfig: Option<PinConfig>
    /** The last configuration written to disk. */
    var written: Option<PinConfig>
    var createStatus: string
    var totpStatus: string
    var verifyStatus: string
    /** Content of the TOTP enrolment code field. */
    var totpCode: string
    /** Content of the unlock screen's field. */
    var verifyCode: string
    var verifyTitle: string
    var verifyLabel: string
    /** The enrolment screen: its QR text and line count when it has lines, and the secret row. */
    var qrView: Option<(string, int)>
    var secretText: string
    var page: string

    constructor (masterKey: seq<u8>)
      ensures tempMasterKey == Some(masterKey) && pendingTotp == "" && pinConfig.None?
      ensures written.None? && page == ""
    {
      tempMasterKey := Some(masterKey);
      pendingTotp := "";
      pinConfig := None;
      written := None;
      createStatus, totpStatus, verifyStatus := "", "", "";
      totpCode, verifyCode := "", "";
      verifyTitle, verifyLabel := "", "";
      qrView := None;
      secretText := "";
      page := "";
    }

    /** `wipeTempMasterKey` followed by `enterMain`. */
    method EnterMain()
      modifies this`tempMasterKey, this`page
      ensures tempMasterKey.None? && page == MainPage
    {
      tempMasterKey := None;
      page := MainPage;
    }

    /** `doSavePin`. `pinKey` is the key generator's result and `tagOf` computes
      * the tag of a PIN under a key; `writeFails` says whether writing the
      * configuration fails. */
    method SavePin(pin: string, confirm: string, pinKey: Result<seq<u8>>,
                   tagOf: (seq<u8>, string) -> seq<u8>, writeFails: bool)
      modifies this`createStatus, this`written, this`tempMasterKey, this`page
      ensures var e := SavePinError(pin, confirm, pinKey.Ok?, writeFails);
        (e.Some? ==> createStatus == e.value && unchanged(this`page, this`tempMasterKey)) &&
        (e.None? ==> (tempMasterKey.None? && page == MainPage &&
           written == Some(PinConfig("pin", pinKey.value, tagOf(pinKey.value, pin), ""))))
      ensures (ByteLen(pin) != 6 || pin != confirm || pinKey.Err?) ==> written == old(written)
    {
      if ByteLen(pin) != 6 {
        createStatus := ShortPin;
        return;
      }
      if pin != confirm {
        createStatus := PinMismatch;
        return;
      }
      if pinKey.Err? {
        createStatus := PinKeyFailed;
        return;
      }
      var key := pinKey.value;
      var cfg := PinConfig("pin", key, tagOf(key, pin), "");
      if writeFails {
        createStatus := PinSaveFailed;
        return;
      }
      written := Some(cfg);
      EnterMain();
    }

    /** `showPinCreate`: the PIN screen with its fields and status line emptied. */
    method ShowPinCreate()
      modifies this`createStatus, this`page
      ensures createStatus == "" && page == "pin_create"
    {
      createStatus := "";
      page := "pin_create";
    }

    /** `showTotpSetup`: `secret` is the generated secret (`None` when generation
      * fails) and `encoded` the QR bitmap of its URL. The screen is built afresh:
      * an empty code field and a new, empty status line. */
    method ShowTotpSetup(secret: Option<string>, encoded: Option<Bitmap>)
      requires encoded.Some? ==> WellFormed(encoded.value)
      modifies this`pendingTotp, this`qrView, this`secretText, this`totpCode, this`totpStatus, this`page
      ensures secret.None? ==>
        unchanged(this`pendingTotp, this`qrView, this`secretText, this`totpCode, this`totpStatus, this`page)
      ensures secret.Some? ==> pendingTotp == secret.value && totpCode == "" && totpStatus == "" && page == "totp_setup"
      ensures secret.Some? ==>
        secretText == "[yellow]" + FormatTotpSecret(secret.value) + " [white]| [green::b]Ctrl+Y[white::B] to copy"
      ensures secret.Some? && encoded.Some? && |encoded.value| > 0
        ==> qrView == Some((QrText(encoded.value), BandCount(encoded.value)))
      ensures secret.Some? && (encoded.None? || |encoded.value| == 0) ==> qrView.None?
    {
      if secret.None? {
        return;
      }
      pendingTotp := secret.value;
      var text, lines := RenderQrCode(encoded);
      if lines > 0 {
        qrView := Some((text, lines));
      } else {
        qrView := None;
      }
      secretText := "[yellow]" + FormatTotpSecret(pendingTotp) + " [white]| [green::b]Ctrl+Y[white::B] to copy";
      totpCode := "";
      totpStatus := "";
      page := "totp_setup";
    }

    /** Esc or Back on the enrolment screen: the pending secret is dropped. */
    method CancelTotpSetup()
      modifies this`pendingTotp, this`page
      ensures pendingTotp == "" && page == "pin_setup"
    {
      pendingTotp := "";
      page := "pin_setup";
    }

    /** `doSaveTotp`. `codeField` is the field's text, `None` before the
      * enrolment screen was built; `validate` checks a code against a secret at
      * the current time. */
    method SaveTotp(codeField: Option<string>, validate: (string, string) -> bool, writeFails: bool)
      modifies this`totpStatus, this`totpCode, this`written, this`pendingTotp,
               this`tempMasterKey, this`page
      ensures codeField.None? ==> unchanged(this)
      ensures codeField.Some? ==>
        var code := codeField.value;
        var e := SaveTotpError(code, validate(code, old(pendingTotp)), writeFails);
        (e.Some? ==> (totpStatus == e.value && pendingTotp == old(pendingTotp) &&
           written == old(written) && unchanged(this`page, this`tempMasterKey))) &&
        (e == Some(TotpInvalid) ==> totpCode == "") &&
        (e.None? ==> (written == Some(PinConfig("totp", [], [], old(pendingTotp))) &&
           pendingTotp == "" && tempMasterKey.None? && page == MainPage))
    {
      if codeField.None? {
        return;
      }
      var code := codeField.value;
      if ByteLen(code) != 6 {
        totpStatus := ShortTotp;
        return;
      }
      if !validate(code, pendingTotp) {
        totpStatus := TotpInvalid;
        totpCode := "";
        return;
      }
      var cfg := PinConfig("totp", [], [], pendingTotp);
      if writeFails {
        totpStatus := TotpSaveFailed;
        return;
      }
      pendingTotp := "";
      written := Some(cfg);
      EnterMain();
    }

    /** `showPinVerify`: the unlock screen for a loaded configuration, with an
      * empty field and a new, empty status line. */
    method ShowPinVerify(cfg: PinConfig)
      modifies this`pinConfig, this`verifyTitle, this`verifyLabel, this`verifyCode, this`verifyStatus, this`page
      ensures pinConfig == Some(cfg) && verifyCode == "" && verifyStatus == "" && page == "pin_verify"
      ensures cfg.mode == "pin" ==> verifyTitle == " Enter 6-Digit PIN " && verifyLabel == "PIN"
      ensures cfg.mode != "pin" ==> verifyTitle == " Enter Authenticator Code " && verifyLabel == "Code"
    {
      pinConfig := Some(cfg);
      if cfg.mode == "pin" {
        verifyTitle := " Enter 6-Digit PIN ";
        verifyLabel := "PIN";
      } else {
        verifyTitle := " Enter Authenticator Code ";
        verifyLabel := "Code";
      }
      verifyCode := "";
      verifyStatus := "";
      page := "pin_verify";
    }

    /** `doVerifyPin` on the field's current text. `verifyTag` checks a code
      * against a key and tag; `validate` checks a TOTP code against a secret. */
    method VerifyPin(verifyTag: (seq<u8>, string, seq<u8>) -> bool, validate: (string, string) -> bool)
      requires ByteLen(verifyCode) == 6 ==> pinConfig.Some?
      modifies this`verifyStatus, this`verifyCode, this`tempMasterKey, this`page
      ensures var code := old(verifyCode);
        var e := if ByteLen(code) != 6 then Some(ShortCode)
          else VerifyError(code, pinConfig.value.mode,
                           verifyTag(pinConfig.value.pinKey, code, pinConfig.value.pinTag),
                           validate(code, pinConfig.value.totpSecret));
        (e.Some? ==> verifyStatus == e.value && unchanged(this`page, this`tempMasterKey)) &&
        (e.Some? && e != Some(ShortCode) ==> verifyCode == "") &&
        (e.None? ==> tempMasterKey.None? && page == MainPage)
    {
      var code := verifyCode;
      if ByteLen(code) != 6 {
        verifyStatus := ShortCode;
        return;
      }
      var cfg := pinConfig.value;
      if cfg.mode == "pin" {
        if !verifyTag(cfg.pinKey, code, cfg.pinTag) {
          verifyStatus := WrongPin;
          verifyCode := "";
          return;
        }
      } else if cfg.mode == "totp" {
        if !validate(code, cfg.totpSecret) {
          verifyStatus := CodeInvalid;
          verifyCode := "";
          return;
        }
      }
      EnterMain();
    }
  }
}
