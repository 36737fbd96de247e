/**
  The admin panel's authentication gate (src/components/AdminPanel.tsx): one
  boolean state cell, two handlers that set it, and the choice between the
  dashboard and the login view. Credential checking happens inside the login
  view, which is not part of this model.
*/
module AdminAuth {

  /** A call of one of the two handlers. */
  datatype AuthEvent = LoginSucceeded | LogoutRequested

  /** The handler a child view receives as its callback prop. */
  datatype Callback = HandleLoginSuccess | HandleLogout

  /** What the panel renders. */
  datatype AdminView = Dashboard(onLogout: Callback) | LoginForm(onLoginSuccess: Callback)

  /** The event a callback raises when the child view calls it. */
  function EventOf(cb: Callback): AuthEvent {
    match cb
    case HandleLoginSuccess => LoginSucceeded
    case HandleLogout => LogoutRequested
  }

  /** `isAuthenticated` after one handler ran: each handler stores a constant,
      whatever the flag held before. */
  function Step(authenticated: bool, e: AuthEvent): (r: bool)
    ensures r <==> e == LoginSucceeded
  {
    e == LoginSucceeded
  }

  /** `isAuthenticated` after a sequence of handler calls, oldest first. */
  function Replay(authenticated: bool, events: seq<AuthEvent>): (r: bool)
    ensures events == [] ==> r == authenticated
    ensures events != [] && events[|events| - 1] == LoginSucceeded ==> r
    decreases |events|
  {
    if events == [] then authenticated else Replay(Step(authenticated, events[0]), events[1..])
  }

  /** The render choice: the dashboard, wired to the logout handler, when
      authenticated; the login view, wired to the login-success handler,
      otherwise. */
  function ViewOf(authenticated: bool): (v: AdminView)
    ensures v.Dashboard? <==> authenticated
    ensures v.Dashboard? ==> v.onLogout == HandleLogout
    ensures v.LoginForm? ==> v.onLoginSuccess == HandleLoginSuccess
  {
    if authenticated then Dashboard(HandleLogout) else LoginForm(HandleLoginSuccess)
  }

  /** The callback a view carries switches to the other view: the panel
      cycles between login and dashboard. */
  lemma CallbackSwitchesView(authenticated: bool)
    ensures
      var v := ViewOf(authenticated);
      var cb := if v.Dashboard? then v.onLogout else v.onLoginSuccess;
      Step(authenticated, EventOf(cb)) == !authenticated
  {
  }

  /** After any sequence of handler calls the flag says whether the last call
      was a login; with no calls it keeps its value. */
  lemma {:induction false} ReplayIsLastEvent(authenticated: bool, events: seq<AuthEvent>)
    ensures Replay(authenticated, events) ==
      if events == [] then authenticated else events[|events| - 1] == LoginSucceeded
    decreases |events|
  {
    if events != [] {
      ReplayIsLastEvent(Step(authenticated, events[0]), events[1..]);
      if |events| > 1 {
        assert events[1..][|events[1..]| - 1] == events[|events| - 1];
      }
    }
  }

  /** From a fresh panel: authenticated exactly when the last call was a
      login, and not authenticated when there was none. */
  lemma {:induction false} FreshPanelFollowsLastEvent(events: seq<AuthEvent>)
    ensures Replay(false, events) <==> |events| > 0 && events[|events| - 1] == LoginSucceeded
  {
    ReplayIsLastEvent(false, events);
  }

  /** Both handlers are idempotent: calling one twice in a row, anywhere in a
      sequence, leaves the flag as calling it once. */
  lemma RepeatedCallIsIdempotent(authenticated: bool, before: seq<AuthEvent>, e: AuthEvent, after: seq<AuthEvent>)
    ensures Replay(authenticated, before + [e, e] + after) == Replay(authenticated, before + [e] + after)
  {
    var twice := before + [e, e] + after;
    var once := before + [e] + after;
    ReplayIsLastEvent(authenticated, twice);
    ReplayIsLastEvent(authenticated, once);
    if after == [] {
      assert twice[|twice| - 1] == e && once[|once| - 1] == e;
    } else {
      assert twice[|twice| - 1] == after[|after| - 1];
      assert once[|once| - 1] == after[|after| - 1];
    }
  }

  class AdminPanel {
    var isAuthenticated: bool

    /** A fresh mount: `useState(false)`. */
    constructor ()
      ensures !isAuthenticated
    {
      isAuthenticated := false;
    }

    /** handleLoginSuccess. */
    method LoginSuccess()
      modifies this
      ensures isAuthenticated
      ensures isAuthenticated == Step(old(isAuthenticated), LoginSucceeded)
    {
      isAuthenticated := true;
    }

    /** handleLogout. */
    method Logout()
      modifies this
      ensures !isAuthenticated
      ensures isAuthenticated == Step(old(isAuthenticated), LogoutRequested)
    {
      isAuthenticated := false;
    }

    /** What the panel returns for the current flag. */
    function View(): (v: AdminView)
      reads this
      ensures v.Dashboard? <==> isAuthenticated
    {
      ViewOf(isAuthenticated)
    }
  }
}
