// The client's event-driven login controller: the LoginState machine moved
// by Login, the login service's callback and Logout, with the events it
// publishes, and IsLoggedIn over the service's token.

module AuthLogin {
  datatype LoginState = NotLoggedIn | LoggingIn | LoggedIn | Failed

  /** An event published on the event system. */
  datatype Event =
    | LoginFailedEvent(message: string)
    | LoginStateChanged(state: LoginState)
    | LoginSuccessEvent(token: string)
    | LogoutEvent

  /** Where one operation leaves the controller: its state, the events it published, whether it asked the service to log in. */
  datatype Step = Step(state: LoginState, events: seq<Event>, requested: bool)

  const EmptyCredentials: string := "用户名或密码不能为空"

  /** Login(username, password) from `state`. */
  function LoginStep(state: LoginState, username: string, password: string): (s: Step)
    ensures state == LoggingIn ==> s == Step(state, [], false)
    ensures state != LoggingIn && (username == "" || password == "") ==>
              s == Step(state, [LoginFailedEvent(EmptyCredentials)], false)
    ensures state != LoggingIn && username != "" && password != "" ==>
              s == Step(LoggingIn, [LoginStateChanged(LoggingIn)], true)
  {
    if state == LoggingIn then Step(state, [], false)
    else if username == "" || password == "" then Step(state, [LoginFailedEvent(EmptyCredentials)], false)
    else Step(LoggingIn, [LoginStateChanged(LoggingIn)], true)
  }

  /** The service's callback: LoggedIn with the success event on success, Failed otherwise, from any state. */
  function CallbackStep(success: bool, token: string): (s: Step)
    ensures s.state == LoggedIn <==> success
    ensures s.state == Failed <==> !success
    ensures |s.events| > 0 && s.events[0] == LoginStateChanged(s.state)
    ensures success ==> s.events == [LoginStateChanged(LoggedIn), LoginSuccessEvent(token)]
    ensures !success ==> s.events == [LoginStateChanged(Failed)]
    ensures !s.requested
  {
    if success then Step(LoggedIn, [LoginStateChanged(LoggedIn), LoginSuccessEvent(token)], false)
    else Step(Failed, [LoginStateChanged(Failed)], false)
  }

  /** Logout from any state. */
  function LogoutStep(): (s: Step)
    ensures s.state == NotLoggedIn && s.events == [LoginStateChanged(NotLoggedIn), LogoutEvent] && !s.requested
  {
    Step(NotLoggedIn, [LoginStateChanged(NotLoggedIn), LogoutEvent], false)
  }

  /** A login in progress is never interrupted by another Login, whatever the input. */
  lemma LoginIgnoredWhileLoggingIn(u1: string, p1: string, u2: string, p2: string)
    requires u1 != "" && p1 != ""
    ensures LoginStep(LoginStep(NotLoggedIn, u1, p1).state, u2, p2) == Step(LoggingIn, [], false)
  {
  }

  /**
   * A Login that moves the state publishes the new state, and it moves the
   * state exactly when it sends a request to the service.
   */
  lemma StateChangesArePublished(state: LoginState, username: string, password: string)
    ensures LoginStep(state, username, password).state != state ==>
              LoginStateChanged(LoginStep(state, username, password).state) in LoginStep(state, username, password).events
    ensures LoginStep(state, username, password).requested <==> LoginStep(state, username, password).state != state
  {
  }

  /**
   * The controller with its login service's token ("" for none), the events
   * it has published and the login requests it has passed to the service.
   */
  class LoginController {
    var loginState: LoginState
    var token: string
    var published: seq<Event>
    var requests: seq<(string, string)>

    constructor ()
      ensures loginState == NotLoggedIn && token == "" && published == [] && requests == []
    {
      loginState := NotLoggedIn;
      token := "";
      published := [];
      requests := [];
    }

    /** IsLoggedIn: the service holds a non-empty token. */
    function IsLoggedIn(): (r: bool)
      reads this
      ensures r <==> token != ""
    {
      token != ""
    }

    method Login(username: string, password: string)
      modifies this`loginState, this`published, this`requests
      ensures var s := LoginStep(old(loginState), username, password);
              loginState == s.state && published == old(published) + s.events
              && requests == old(requests) + (if s.requested then [(username, password)] else [])
    {
      if loginState == LoggingIn {
        return;
      }
      if username == "" || password == "" {
        published := published + [LoginFailedEvent(EmptyCredentials)];
        return;
      }
      loginState := LoggingIn;
      published := published + [LoginStateChanged(loginState)];
      requests := requests + [(username, password)];
    }

    /**
     * The service's answer to a request. On success the service has stored
     * the response's token, which is never empty on that path.
     */
    method LoginCallback(success: bool, responseToken: string)
      requires success ==> responseToken != ""
      modifies this`loginState, this`published, this`token
      ensures var s := CallbackStep(success, responseToken);
              loginState == s.state && published == old(published) + s.events
      ensures token == if success then responseToken else old(token)
      ensures success ==> IsLoggedIn()
    {
      if success {
        token := responseToken;
        loginState := LoggedIn;
        published := published + [LoginStateChanged(loginState), LoginSuccessEvent(responseToken)];
      } else {
        loginState := Failed;
        published := published + [LoginStateChanged(loginState)];
      }
    }

    method Logout()
      modifies this`loginState, this`published, this`token
      ensures loginState == LogoutStep().state && published == old(published) + LogoutStep().events
      ensures token == "" && !IsLoggedIn()
    {
      token := "";
      loginState := NotLoggedIn;
      published := published + [LoginStateChanged(loginState), LogoutEvent];
    }
  }
}
