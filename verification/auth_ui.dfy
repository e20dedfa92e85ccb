/**
 * The login/register dialog (`AuthUI.js`): the validation chains run before any request,
 * the submit button's loading state with its stashed label, the tab switch and the
 * opening and closing of the dialog.
 */
module AuthUI {
  import opened Wrappers
  import opened Strings
  import opened Images

  const LoginMissing: string := "请输入用户名和密码"
  const RegisterMissing: string := "请填写所有字段"
  const PasswordMismatch: string := "两次输入的密码不一致"
  const PasswordTooShort: string := "密码长度至少6个字符"
  const MinPasswordLength: nat := 6

  /** `el?.value.trim()`: `undefined` for a missing input. */
  function Field(input: Option<string>): (r: Option<string>)
    ensures input.None? <==> r.None?
    ensures input.Some? ==> r.value == Trim(input.value)
  {
    if input.Some? then Some(Trim(input.value)) else None
  }

  datatype LoginCheck = LoginRejected(message: string) | LoginRequest(username: string, password: string)

  /** `handleLoginSubmit`'s guard: one message when either trimmed field is empty, else a request. */
  function ValidateLogin(username: Option<string>, password: Option<string>): (c: LoginCheck)
    ensures c.LoginRequest? <==> Truthy(Field(username)) && Truthy(Field(password))
    ensures c.LoginRejected? ==> c.message == LoginMissing
    ensures c.LoginRequest? ==> c.username == Trim(username.value) && c.password == Trim(password.value)
  {
    var u, p := Field(username), Field(password);
    if !Truthy(u) || !Truthy(p) then LoginRejected(LoginMissing) else LoginRequest(u.value, p.value)
  }

  /** A login whose fields are nothing but whitespace is refused without a request. */
  lemma BlankLoginRefused(username: string, password: string)
    requires forall i :: 0 <= i < |username| ==> IsJsWhitespace(username[i])
    ensures ValidateLogin(Some(username), Some(password)) == LoginRejected(LoginMissing)
  {
    TrimEmptyIffBlank(username);
  }

  datatype RegisterCheck =
    | RegisterRejected(message: string)
    | RegisterRequest(username: string, password: string, email: string)

  /**
   * `handleRegisterSubmit`'s guard, first failure reported: an empty field, then a password
   * that differs from its confirmation, then a password shorter than six characters, where
   * `length` counts UTF-16 code units.
   */
  function ValidateRegister(username: Option<string>, email: Option<string>, password: Option<string>, confirm: Option<string>): (c: RegisterCheck)
    ensures !(Truthy(Field(username)) && Truthy(Field(email)) && Truthy(Field(password)) && Truthy(Field(confirm))) ==>
      c == RegisterRejected(RegisterMissing)
    ensures Truthy(Field(username)) && Truthy(Field(email)) && Truthy(Field(password)) && Truthy(Field(confirm)) ==>
      && (Field(password) != Field(confirm) ==> c == RegisterRejected(PasswordMismatch))
      && (Field(password) == Field(confirm) && Utf16Length(Field(password).value) < MinPasswordLength ==> c == RegisterRejected(PasswordTooShort))
      && (Field(password) == Field(confirm) && Utf16Length(Field(password).value) >= MinPasswordLength ==>
            c == RegisterRequest(Field(username).value, Field(password).value, Field(email).value))
  {
    var u, e, p, cp := Field(username), Field(email), Field(password), Field(confirm);
    if !Truthy(u) || !Truthy(e) || !Truthy(p) || !Truthy(cp) then RegisterRejected(RegisterMissing)
    else if p != cp then RegisterRejected(PasswordMismatch)
    else if Utf16Length(p.value) < MinPasswordLength then RegisterRejected(PasswordTooShort)
    else RegisterRequest(u.value, p.value, e.value)
  }

  /** A registration is sent exactly when every field is filled and the passwords agree with at least six characters. */
  lemma RegisterRequestIff(username: Option<string>, email: Option<string>, password: Option<string>, confirm: Option<string>)
    ensures ValidateRegister(username, email, password, confirm).RegisterRequest? <==>
      && Truthy(Field(username)) && Truthy(Field(email)) && Truthy(Field(password))
      && Field(password) == Field(confirm) && Utf16Length(Field(password).value) >= MinPasswordLength
  {
  }

  /** A password of six code units passes the length check: the comparison is strict. */
  lemma SixCharactersSuffice(username: Option<string>, email: Option<string>, password: Option<string>)
    requires Truthy(Field(username)) && Truthy(Field(email))
    requires Field(password).Some? && Utf16Length(Field(password).value) == 6
    ensures ValidateRegister(username, email, password, password).RegisterRequest?
  {
    RegisterRequestIff(username, email, password, password);
  }

  /**
   * Three characters outside the Basic Multilingual Plane take six code units, so such a
   * password passes the length check although it has only three characters.
   */
  lemma ThreeAstralCharactersSuffice(username: string, email: string)
    requires Trim(username) != [] && Trim(email) != []
    ensures ValidateRegister(Some(username), Some(email), Some("\U{1F600}\U{1F600}\U{1F600}"),
                             Some("\U{1F600}\U{1F600}\U{1F600}")).RegisterRequest?
  {
    var pw := "\U{1F600}\U{1F600}\U{1F600}";
    assert !IsJsWhitespace(pw[0]) && !IsJsWhitespace(pw[2]);
    assert Trim(pw) == pw;
    assert Utf16Length(pw) == 6 by {
      assert pw[1..][1..] == [pw[2]] && [pw[2]][1..] == [];
    }
    SixCharactersSuffice(Some(username), Some(email), Some(pw));
  }

  // ---------------------------------------------------------------- the submit button

  /** A submit button: its label, `disabled`, the `loading` class and `data-original-text`. */
  datatype ButtonState = ButtonState(text: string, disabled: bool, loading: bool, originalText: Option<string>)

  /**
   * `setFormLoading`: going into loading stashes the label, disables the button and shows
   * `text`; coming out re-enables it and, only when the stash is non-empty, restores the
   * label and drops the stash.
   */
  function WithLoading(b: ButtonState, isLoading: bool, text: string): (r: ButtonState)
    ensures isLoading ==> r == ButtonState(text, true, true, Some(b.text))
    ensures !isLoading ==> !r.disabled && !r.loading
    ensures !isLoading && Truthy(b.originalText) ==> r.text == b.originalText.value && r.originalText.None?
    ensures !isLoading && !Truthy(b.originalText) ==> r.text == b.text && r.originalText == b.originalText
  {
    if isLoading then ButtonState(text, true, true, Some(b.text))
    else if Truthy(b.originalText) then ButtonState(b.originalText.value, false, false, None)
    else b.(disabled := false, loading := false)
  }

  /** A loading round trip gives back an enabled button with its label, and no stash. */
  lemma LoadingRoundTrip(b: ButtonState, loadingText: string, defaultText: string)
    requires b.text != ""
    ensures WithLoading(WithLoading(b, true, loadingText), false, defaultText) == ButtonState(b.text, false, false, None)
  {
  }

  /** A button whose label was empty keeps the loading text afterwards: the empty stash is falsy. */
  lemma EmptyLabelNotRestored(b: ButtonState, loadingText: string, defaultText: string)
    requires b.text == ""
    ensures WithLoading(WithLoading(b, true, loadingText), false, defaultText).text == loadingText
  {
  }

  class SubmitButton {
    var text: string
    var disabled: bool
    var loading: bool
    var originalText: Option<string>

    function State(): ButtonState
      reads this
    {
      ButtonState(text, disabled, loading, originalText)
    }

    constructor(caption: string)
      ensures State() == ButtonState(caption, false, false, None)
    {
      text, disabled, loading, originalText := caption, false, false, None;
    }

    method SetFormLoading(isLoading: bool, loadingText: string)
      modifies this
      ensures State() == WithLoading(old(State()), isLoading, loadingText)
    {
      if isLoading {
        originalText := Some(text);
        disabled := true;
        loading := true;
        text := loadingText;
      } else {
        disabled := false;
        loading := false;
        if Truthy(originalText) {
          text := originalText.value;
          originalText := None;
        }
      }
    }
  }

  // ---------------------------------------------------------------- the dialog

  datatype MessageKind = ErrorMessage | SuccessMessage

  /** The message strip: hidden, or shown with a kind and a text. */
  datatype Message = Hidden | Shown(kind: MessageKind, text: string)

  /** The login call's answer, `None` when it threw. */
  datatype AuthResult = AuthResult(success: bool, message: Option<string>)

  /** The message a finished login leaves on the strip. */
  function LoginMessage(result: Option<AuthResult>): (m: Message)
    ensures m.Shown?
    ensures m.kind == SuccessMessage <==> result.Some? && result.value.success
    ensures result.Some? && !result.value.success && Truthy(result.value.message) ==> m.text == result.value.message.value
  {
    match result
    case None => Shown(ErrorMessage, "登录失败，网络可能不稳定，请稍后重试")
    case Some(r) =>
      if r.success then Shown(SuccessMessage, "登录成功！")
      else Shown(ErrorMessage, if Truthy(r.message) then r.message.value else "登录失败，请检查用户名和密码")
  }

  class AuthModal {
    /** Which optional elements the page has: the dialog, the message strip, both forms. */
    const hasModal: bool
    const hasMessageBox: bool
    const hasForms: bool
    /** The `data-tab` values of the tab buttons. */
    const tabNames: set<string>
    const loginButton: SubmitButton

    var active: bool
    var activeTab: Option<string>
    var loginDisplay: string
    var registerDisplay: string
    var message: Message

    /** Once a tab has been chosen, exactly one form is displayed. */
    ghost predicate OneFormShown()
      reads this
    {
      hasForms ==> (loginDisplay == "block") != (registerDisplay == "block")
    }

    constructor(hasModal: bool, hasMessageBox: bool, hasForms: bool, tabNames: set<string>, loginButton: SubmitButton)
      ensures this.hasModal == hasModal && this.hasMessageBox == hasMessageBox && this.hasForms == hasForms
      ensures this.tabNames == tabNames && this.loginButton == loginButton
      ensures !active && activeTab.None? && message.Hidden?
      ensures loginDisplay == "block" && registerDisplay == "none"
    {
      this.hasModal, this.hasMessageBox, this.hasForms := hasModal, hasMessageBox, hasForms;
      this.tabNames, this.loginButton := tabNames, loginButton;
      active, activeTab, message := false, None, Hidden;
      loginDisplay, registerDisplay := "block", "none";
    }

    method HideMessage()
      modifies this
      ensures hasMessageBox ==> message == Hidden
      ensures !hasMessageBox ==> message == old(message)
      ensures active == old(active) && activeTab == old(activeTab)
      ensures loginDisplay == old(loginDisplay) && registerDisplay == old(registerDisplay)
    {
      if hasMessageBox {
        message := Hidden;
      }
    }

    method ShowMessage(m: Message)
      modifies this
      ensures message == (if hasMessageBox then m else old(message))
      ensures active == old(active) && activeTab == old(activeTab)
      ensures loginDisplay == old(loginDisplay) && registerDisplay == old(registerDisplay)
    {
      if hasMessageBox {
        message := m;
      }
    }

    /**
     * `switchTab`: the tab button with that name (if any) becomes the active one; `login`
     * shows the login form and hides the other, any other name the reverse; the message hides.
     */
    method SwitchTab(tab: string)
      modifies this
      ensures activeTab == (if tab in tabNames then Some(tab) else None)
      ensures hasForms ==> (loginDisplay == "block" <==> tab == "login") && (registerDisplay == "block" <==> tab != "login")
      ensures hasForms ==> OneFormShown()
      ensures !hasForms ==> loginDisplay == old(loginDisplay) && registerDisplay == old(registerDisplay)
      ensures hasMessageBox ==> message == Hidden
      ensures !hasMessageBox ==> message == old(message)
      ensures active == old(active)
    {
      activeTab := if tab in tabNames then Some(tab) else None;
      if hasForms {
        if tab == "login" {
          loginDisplay, registerDisplay := "block", "none";
        } else {
          loginDisplay, registerDisplay := "none", "block";
        }
      }
      HideMessage();
    }

    /** `openModal(tab = 'login')`: nothing without the dialog; otherwise it opens on the tab with no message. */
    method OpenModal(tab: Option<string>)
      modifies this
      ensures !hasModal ==>
        && active == old(active) && activeTab == old(activeTab) && message == old(message)
        && loginDisplay == old(loginDisplay) && registerDisplay == old(registerDisplay)
      ensures hasModal ==> active && activeTab == (if tab.GetOr("login") in tabNames then Some(tab.GetOr("login")) else None)
      ensures hasModal && hasForms ==>
        && (loginDisplay == "block" <==> tab.GetOr("login") == "login")
        && (registerDisplay == "block" <==> tab.GetOr("login") != "login")
        && OneFormShown()
      ensures !hasForms ==> loginDisplay == old(loginDisplay) && registerDisplay == old(registerDisplay)
      ensures hasModal && hasMessageBox ==> message == Hidden
      ensures !hasMessageBox ==> message == old(message)
    {
      if !hasModal {
        return;
      }
      active := true;
      SwitchTab(tab.GetOr("login"));
      HideMessage();
    }

    method CloseModal()
      modifies this
      ensures hasModal ==> !active
      ensures hasModal && hasMessageBox ==> message == Hidden
      ensures !hasModal ==> active == old(active) && message == old(message)
      ensures activeTab == old(activeTab) && loginDisplay == old(loginDisplay) && registerDisplay == old(registerDisplay)
    {
      if !hasModal {
        return;
      }
      active := false;
      HideMessage();
    }

    /**
     * `handleLoginSubmit` with the login call's answer passed in: invalid fields show the
     * single message and send nothing; otherwise the button goes through a loading round
     * trip around the call and the strip shows its outcome.
     */
    method HandleLoginSubmit(username: Option<string>, password: Option<string>, result: Option<AuthResult>)
      returns (requested: bool)
      modifies this, loginButton
      ensures requested <==> ValidateLogin(username, password).LoginRequest?
      ensures !requested ==>
        && message == (if hasMessageBox then Shown(ErrorMessage, LoginMissing) else old(message))
        && loginButton.State() == old(loginButton.State())
      ensures requested ==>
        && message == (if hasMessageBox then LoginMessage(result) else old(message))
        && loginButton.State() == WithLoading(WithLoading(old(loginButton.State()), true, "登录中…"), false, "处理中…")
      ensures active == old(active) && activeTab == old(activeTab)
    {
      var check := ValidateLogin(username, password);
      if check.LoginRejected? {
        ShowMessage(Shown(ErrorMessage, check.message));
        return false;
      }
      HideMessage();
      loginButton.SetFormLoading(true, "登录中…");
      ShowMessage(LoginMessage(result));
      loginButton.SetFormLoading(false, "处理中…");
      return true;
    }
  }
}
