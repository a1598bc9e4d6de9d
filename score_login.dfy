// The score client's login screen controller: input validation, the
// status-code messages, the loading flag around the login request, and the
// three PlayerPrefs keys of a saved login.

module ScoreLogin {
  import opened Common
  import opened Prefs

  /** A message shown by the login view. */
  datatype ViewMessage = Info(text: string) | Error(text: string) | Success(text: string)

  datatype Validation = Valid | Invalid(message: string)

  const UsernameRequired: string := "请输入用户名"
  const PasswordRequired: string := "请输入密码"
  const UsernameTooShort: string := "用户名至少需要3个字符"
  const PasswordTooShort: string := "密码至少需要6个字符"

  /**
   * ValidateInput: the first failing check, in the order empty username,
   * empty password, username under 3 characters, password under 6, picks
   * the message.
   */
  function ValidateInput(username: string, password: string): (r: Validation)
    ensures r.Valid? <==> |username| >= 3 && |password| >= 6
    ensures r == Invalid(UsernameRequired) <==> username == ""
    ensures r == Invalid(PasswordRequired) <==> username != "" && password == ""
    ensures r == Invalid(UsernameTooShort) <==> 0 < |username| < 3 && password != ""
    ensures r == Invalid(PasswordTooShort) <==> |username| >= 3 && 0 < |password| < 6
  {
    if username == "" then Invalid(UsernameRequired)
    else if password == "" then Invalid(PasswordRequired)
    else if |username| < 3 then Invalid(UsernameTooShort)
    else if |password| < 6 then Invalid(PasswordTooShort)
    else Valid
  }

  const FailurePrefix: string := "登录失败: "

  /** HandleLoginFailure's message for a status code. */
  function FailureMessage(message: string, statusCode: int): (m: string)
    ensures statusCode == 400 ==> m == "用户名或密码错误"
    ensures statusCode == 401 ==> m == "认证失败，请检查用户名和密码"
    ensures statusCode == 404 ==> m == "用户不存在"
    ensures statusCode == 500 ==> m == "服务器错误，请稍后重试"
    ensures statusCode == 0 ==> m == "无法连接到服务器，请检查网络"
    ensures statusCode !in {400, 401, 404, 500, 0} ==> m == FailurePrefix + message
  {
    match statusCode
    case 400 => "用户名或密码错误"
    case 401 => "认证失败，请检查用户名和密码"
    case 404 => "用户不存在"
    case 500 => "服务器错误，请稍后重试"
    case 0 => "无法连接到服务器，请检查网络"
    case _ => FailurePrefix + message
  }

  /** Only the codes without a message of their own pass the server's message through, after the prefix. */
  lemma FailureMessagePassesThrough(message: string, statusCode: int)
    ensures FailurePrefix <= FailureMessage(message, statusCode) <==> statusCode !in {400, 401, 404, 500, 0}
  {
    var m := FailureMessage(message, statusCode);
    if statusCode in {400, 401, 404, 500, 0} {
      assert m[0] != FailurePrefix[0];
    }
  }

  const TokenKey: string := "AuthToken"
  const UsernameKey: string := "Username"
  const LoginTimeKey: string := "LoginTime"

  /** The store after HandleLoginSuccess writes the token, the user name and the login time. */
  function SavedLogin(store: Store, token: string, username: string, loginTime: string): (r: Store)
    ensures r.Keys == store.Keys + {TokenKey, UsernameKey, LoginTimeKey}
    ensures GetString(r, TokenKey, "") == token
    ensures GetString(r, UsernameKey, "") == username
    ensures GetString(r, LoginTimeKey, "") == loginTime
  {
    store[TokenKey := StringPref(token)][UsernameKey := StringPref(username)][LoginTimeKey := StringPref(loginTime)]
  }

  /** The store after Logout deletes the three login keys. */
  function ClearedLogin(store: Store): (r: Store)
    ensures r.Keys == store.Keys - {TokenKey, UsernameKey, LoginTimeKey}
  {
    store - {TokenKey, UsernameKey, LoginTimeKey}
  }

  /**
   * Logging out after a login leaves the store as logging out alone would:
   * no login key is left and every other key keeps its value.
   */
  lemma LogoutUndoesLogin(store: Store, token: string, username: string, loginTime: string)
    ensures ClearedLogin(SavedLogin(store, token, username, loginTime)) == ClearedLogin(store)
    ensures forall k :: k in store && k !in {TokenKey, UsernameKey, LoginTimeKey} ==>
              k in ClearedLogin(store) && ClearedLogin(store)[k] == store[k]
  {
    var a := ClearedLogin(SavedLogin(store, token, username, loginTime));
    var b := ClearedLogin(store);
    assert a.Keys == b.Keys;
    forall k | k in a.Keys
      ensures a[k] == b[k]
    {
    }
  }

  const LoggingInMessage: string := "正在登录..."

  /**
   * The controller together with what it drives: the view's two input
   * fields, the loading-state calls and messages it makes on the view, the
   * login requests it sends, and the PlayerPrefs store.
   */
  class LoginController {
    var username: string
    var password: string
    var loadingCalls: seq<bool>
    var messages: seq<ViewMessage>
    var requests: seq<(string, string)>
    const prefs: PlayerPrefs

    constructor (prefs: PlayerPrefs, username: string, password: string)
      ensures this.prefs == prefs && this.username == username && this.password == password
      ensures loadingCalls == [] && messages == [] && requests == []
    {
      this.prefs := prefs;
      this.username := username;
      this.password := password;
      loadingCalls := [];
      messages := [];
      requests := [];
    }

    /**
     * OnLoginButtonClicked. Invalid input shows the validation message and
     * returns before the loading state is touched; valid input turns loading
     * on, sends the request and always turns loading off in `finally`.
     * `thrown` is the message of an exception the request raises, if any.
     */
    method OnLoginButtonClicked(thrown: Option<string>)
      modifies this`loadingCalls, this`messages, this`requests
      ensures ValidateInput(username, password).Invalid? ==>
                loadingCalls == old(loadingCalls) && requests == old(requests)
                && messages == old(messages) + [Error(ValidateInput(username, password).message)]
      ensures ValidateInput(username, password).Valid? ==>
                loadingCalls == old(loadingCalls) + [true, false]
                && requests == old(requests) + [(username, password)]
                && messages == old(messages) + [Info(LoggingInMessage)]
                                + (if thrown.Some? then [Error(FailurePrefix + thrown.value)] else [])
    {
      var v := ValidateInput(username, password);
      if v.Invalid? {
        messages := messages + [Error(v.message)];
        return;
      }
      loadingCalls := loadingCalls + [true];
      messages := messages + [Info(LoggingInMessage)];
      requests := requests + [(username, password)];
      if thrown.Some? {
        messages := messages + [Error(FailurePrefix + thrown.value)];
      }
      loadingCalls := loadingCalls + [false];
    }

    /** HandleLoginSuccess: saves the token, the view's user name and the time, then reports success. */
    method HandleLoginSuccess(token: string, now: string)
      modifies prefs, this`messages
      ensures prefs.entries == SavedLogin(old(prefs.entries), token, username, now)
      ensures prefs.saved == prefs.entries
      ensures messages == old(messages) + [Success("登录成功！")]
    {
      prefs.SetString(TokenKey, token);
      prefs.SetString(UsernameKey, username);
      prefs.SetString(LoginTimeKey, now);
      prefs.Save();
      messages := messages + [Success("登录成功！")];
    }

    method HandleLoginFailure(message: string, statusCode: int)
      modifies this`messages
      ensures messages == old(messages) + [Error(FailureMessage(message, statusCode))]
    {
      messages := messages + [Error(FailureMessage(message, statusCode))];
    }

    /** Logout: deletes the three login keys, saves, and reports it. */
    method Logout()
      modifies prefs, this`messages
      ensures prefs.entries == ClearedLogin(old(prefs.entries))
      ensures prefs.saved == prefs.entries
      ensures messages == old(messages) + [Info("已退出登录")]
    {
      prefs.DeleteKey(TokenKey);
      prefs.DeleteKey(UsernameKey);
      prefs.DeleteKey(LoginTimeKey);
      prefs.Save();
      messages := messages + [Info("已退出登录")];
    }

    /** CheckSavedToken: a non-empty saved token is reported as a logged-in state. */
    method CheckSavedToken()
      modifies this`messages
      ensures GetString(prefs.entries, TokenKey, "") != "" ==> messages == old(messages) + [Info("检测到已登录状态")]
      ensures GetString(prefs.entries, TokenKey, "") == "" ==> messages == old(messages)
    {
      var savedToken := GetString(prefs.entries, TokenKey, "");
      if savedToken != "" {
        messages := messages + [Info("检测到已登录状态")];
      }
    }

    /** TestConnection: a login request with the fixed test account. */
    method TestConnection(thrown: bool)
      modifies this`messages, this`requests
      ensures requests == old(requests) + [("test", "test123")]
      ensures messages == old(messages) + [Info("正在测试连接...")] + (if thrown then [Error("连接测试失败")] else [])
    {
      messages := messages + [Info("正在测试连接...")];
      requests := requests + [("test", "test123")];
      if thrown {
        messages := messages + [Error("连接测试失败")];
      }
    }
  }
}
