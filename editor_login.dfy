/** The login part of the terminal editor (`internal/ui/editor_login.go`): how the
  * form is filled from an entry, how the saved entry is read back from the form
  * (with the password-history rule), and what the login view shows. */
module EditorLogin {
  import opened Wrappers
  import opened Text
  import opened Vault

  /** The login inputs; `password` is `None` when the password field does not exist. */
  datatype LoginForm = LoginForm(username: string, password: Option<string>, link: string, totpSecret: string)

  /** `addLoginFields`: the entry loses its attachments and the form shows its
    * username, password, link and TOTP secret. */
  function AddLoginFields(ent: Entry): (r: (Entry, LoginForm))
    ensures r.0 == ent.(attachments := [])
    ensures r.1 == LoginForm(ent.username, Some(ent.password), ent.link, ent.totpSecret)
  {
    (ent.(attachments := []), LoginForm(ent.username, Some(ent.password), ent.link, ent.totpSecret))
  }

  /** The history rule: the prior password is kept when it was set and changes. */
  predicate Rotated(prior: string, password: string)
  {
    prior != "" && prior != password
  }

  /** `collectLoginFields`: copy the form into `ent`, keeping the old password when
    * there is no password field, and append exactly one history record, of
    * `prior` dated `now`, when the password rotated; nothing else changes. */
  function CollectLoginFields(ent: Entry, form: LoginForm, prior: string, now: string): (e: Entry)
    ensures e.username == form.username && e.link == form.link && e.totpSecret == form.totpSecret
    ensures e.password == (if form.password.Some? then form.password.value else ent.password)
    ensures e.kind == ent.kind && e.title == ent.title && e.customText == ent.customText
    ensures e.attachments == ent.attachments && e.cardNumber == ent.cardNumber
    ensures e.expiry == ent.expiry && e.cvv == ent.cvv
    ensures Rotated(prior, e.password) ==> e.history == ent.history + [PasswordHistory(prior, now)]
    ensures !Rotated(prior, e.password) ==> e.history == ent.history
  {
    var e1 := ent.(username := form.username);
    var e2 := if form.password.Some? then e1.(password := form.password.value) else e1;
    var e3 := e2.(link := form.link, totpSecret := form.totpSecret);
    if prior != "" && prior != e3.password then
      e3.(history := e3.history + [PasswordHistory(prior, now)])
    else e3
  }

  /** Saving the collected entry again without a new password adds no history. */
  lemma CollectAgainKeepsHistory(ent: Entry, form: LoginForm, prior: string, now: string, later: string)
    ensures var e := CollectLoginFields(ent, form, prior, now);
      CollectLoginFields(e, form, e.password, later) == e
  {
  }

  /** Opening a login and saving it unedited changes nothing but the attachments. */
  lemma OpenThenCollect(ent: Entry, now: string)
    ensures var (shown, form) := AddLoginFields(ent);
      CollectLoginFields(shown, form, ent.password, now) == ent.(attachments := [])
  {
  }

  /** The TOTP secret as `renderLoginView` uses it: with every space removed. */
  function CleanTotpSecret(secret: string): (clean: string)
    ensures ' ' !in clean
    ensures forall c :: c != ' ' ==> (c in clean <==> c in secret)
  {
    RemoveChar(secret, ' ')
  }

  /** Cleaning a clean secret changes nothing. */
  lemma {:induction false} CleanTotpSecretIdempotent(secret: string)
    ensures CleanTotpSecret(CleanTotpSecret(secret)) == CleanTotpSecret(secret)
  {
    NoSpaceRemoveChar(CleanTotpSecret(secret));
  }

  lemma {:induction false} NoSpaceRemoveChar(s: string)
    requires ' ' !in s
    ensures RemoveChar(s, ' ') == s
  {
    if s != [] {
      NoSpaceRemoveChar(s[1..]);
      assert [s[0]] + s[1..] == s;
    }
  }

  /** The login view: which rows it shows and whether sensitive values stay
    * revealed afterwards. */
  class LoginView {
    var showSensitive: bool
    /** The password row's text, `None` when the row is not shown. */
    var passwordText: Option<string>
    var usernameRow: bool
    var linkRow: bool
    var totpRows: bool

    constructor ()
      ensures !showSensitive && passwordText.None? && !usernameRow && !linkRow && !totpRows
    {
      showSensitive := false;
      passwordText := None;
      usernameRow, linkRow, totpRows := false, false, false;
    }

    /** `renderLoginView`. */
    method Render(ent: Entry)
      modifies this
      ensures usernameRow <==> ent.username != ""
      ensures linkRow <==> TrimSpace(ent.link) != ""
      ensures totpRows <==> CleanTotpSecret(ent.totpSecret) != ""
      ensures ent.password == "" ==> passwordText.None? && !showSensitive
      ensures ent.password != "" ==>
        (showSensitive == old(showSensitive) &&
         passwordText == Some(if showSensitive then ent.password else Repeat('*', ByteLen(ent.password))))
    {
      usernameRow := ent.username != "";
      if ent.password != "" {
        var pass := Repeat('*', ByteLen(ent.password));
        if showSensitive {
          pass := ent.password;
        }
        passwordText := Some(pass);
      } else {
        passwordText := None;
        showSensitive := false;
      }
      linkRow := TrimSpace(ent.link) != "";
      var clean := RemoveChar(ent.totpSecret, ' ');
      totpRows := clean != "";
    }
  }

  /** A hidden password shows one star per byte: as many as its characters
    * when it is ASCII, and nothing of its content. */
  lemma HiddenPasswordShape(a: string, b: string)
    requires ByteLen(a) == ByteLen(b)
    ensures Repeat('*', ByteLen(a)) == Repeat('*', ByteLen(b))
    ensures IsAscii(a) ==> |Repeat('*', ByteLen(a))| == |a|
  {
    ByteLenAscii(a);
  }
}
