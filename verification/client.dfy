/**
  The browser page's state: the session belief (`isAdmin`, `currentUser`),
  the admin panel, the message banner and the rendered activity region,
  changed only by the handlers below. Each handler receives the outcome of
  its request as a parameter and reports whether it asks for the activity
  list to be fetched again.
 */
module Client {
  import opened Wrappers
  import Roster
  import opened View

  datatype Kind = Success | Error

  /** The banner's text and style. */
  datatype Message = Message(text: string, kind: Kind)

  /**
    What a request came back with: a 2xx response and its decoded JSON body,
    a non-2xx response whose JSON body may carry a string `detail`, or a
    thrown error (network failure or undecodable body).
   */
  datatype Outcome<B> = Ok(body: B) | NotOk(detail: Option<string>) | Threw

  /** The activity region: as the page was loaded, the rendered cards, or a failure notice. */
  datatype ListRegion = Initial | Shown(cards: seq<Card>) | Failed(notice: string)

  /** The page's initial markup for the parts the script later changes. */
  datatype Markup = Markup(
    loginHidden: bool,
    infoHidden: bool,
    toggleLabel: string,
    welcome: string,
    choices: seq<Choice>,
    signupHidden: bool,
    noticeHidden: bool)

  const LoadFailedNotice := "Failed to load activities. Please try again later."

  /** `detail || fallback`: an absent or empty detail gives the fallback. */
  function DetailOr(detail: Option<string>, fallback: string): (text: string)
    ensures detail.Some? && detail.value != "" ==> text == detail.value
    ensures detail.None? || detail.value == "" ==> text == fallback
  {
    if detail.Some? && detail.value != "" then detail.value else fallback
  }

  /** The welcome line; a missing user prints as "null", as the template literal does. */
  function WelcomeText(user: Option<string>): (text: string)
    ensures user.Some? ==> text == "Welcome, " + user.value + "!"
    ensures user.None? ==> text == "Welcome, null!"
  {
    "Welcome, " + (if user.Some? then user.value else "null") + "!"
  }

  class Page {
    var isAdmin: bool
    var currentUser: Option<string>
    var loginHidden: bool
    var infoHidden: bool
    var toggleLabel: string
    var welcome: string
    var message: Option<Message>
    var list: ListRegion
    var choices: seq<Choice>
    var signupHidden: bool
    var noticeHidden: bool

    /** Logged out means no user. */
    ghost predicate Coherent()
      reads this
    {
      !isAdmin ==> currentUser.None?
    }

    /** The admin panel agrees with the session belief. */
    ghost predicate PanelAgrees()
      reads this
    {
      if isAdmin then loginHidden && !infoHidden && toggleLabel == "Admin Panel" && welcome == WelcomeText(currentUser)
      else infoHidden && toggleLabel == "Admin Login"
    }

    /** The signup form, the notice and any rendered removal buttons agree with the session belief. */
    ghost predicate Synced()
      reads this
    {
      && signupHidden == !isAdmin
      && noticeHidden == isAdmin
      && (list.Shown? ==> AffordancesMatch(list.cards, isAdmin))
    }

    /** The page as loaded, before any request resolves. */
    constructor (m: Markup)
      ensures Coherent()
      ensures !isAdmin && currentUser == None && message == None && list == Initial
      ensures loginHidden == m.loginHidden && infoHidden == m.infoHidden
      ensures toggleLabel == m.toggleLabel && welcome == m.welcome
      ensures choices == m.choices && signupHidden == m.signupHidden && noticeHidden == m.noticeHidden
    {
      isAdmin, currentUser := false, None;
      loginHidden, infoHidden := m.loginHidden, m.infoHidden;
      toggleLabel, welcome := m.toggleLabel, m.welcome;
      message, list := None, Initial;
      choices, signupHidden, noticeHidden := m.choices, m.signupHidden, m.noticeHidden;
    }

    method ShowAdminInterface()
      modifies this`loginHidden, this`infoHidden, this`welcome, this`toggleLabel
      ensures loginHidden && !infoHidden && welcome == WelcomeText(currentUser) && toggleLabel == "Admin Panel"
    {
      loginHidden := true;
      infoHidden := false;
      welcome := WelcomeText(currentUser);
      toggleLabel := "Admin Panel";
    }

    method HideAdminInterface()
      modifies this`loginHidden, this`infoHidden, this`toggleLabel
      ensures loginHidden && infoHidden && toggleLabel == "Admin Login"
    {
      loginHidden := true;
      infoHidden := true;
      toggleLabel := "Admin Login";
    }

    /** Shows a banner; it replaces whatever banner was there. */
    method ShowMessage(text: string, kind: Kind)
      modifies this`message
      ensures message == Some(Message(text, kind))
    {
      message := Some(Message(text, kind));
    }

    /** Signup form iff admin, admin-only notice iff not. */
    method UpdateUIForAdminStatus()
      modifies this`signupHidden, this`noticeHidden
      ensures signupHidden == !isAdmin && noticeHidden == isAdmin
    {
      signupHidden := !isAdmin;
      noticeHidden := isAdmin;
    }

    /**
      Status check: admin iff a 2xx body says authenticated; a non-2xx body
      has no `authenticated` field, and a thrown error counts as logged out.
     */
    method CheckAdminStatus(o: Outcome<Roster.StatusBody>)
      modifies this`isAdmin, this`currentUser, this`loginHidden, this`infoHidden, this`welcome, this`toggleLabel
      ensures isAdmin == (o.Ok? && o.body.authenticated)
      ensures currentUser == if isAdmin then o.body.user else None
      ensures loginHidden
      ensures !isAdmin ==> welcome == old(welcome)
      ensures Coherent() && PanelAgrees()
    {
      if o.Ok? && o.body.authenticated {
        isAdmin := true;
        currentUser := o.body.user;
        ShowAdminInterface();
      } else {
        isAdmin := false;
        currentUser := None;
        HideAdminInterface();
      }
    }

    /** The admin toggle: nothing when admin, otherwise shows or hides the login form. */
    method ToggleAdmin()
      modifies this`loginHidden
      ensures loginHidden == if isAdmin then old(loginHidden) else !old(loginHidden)
      ensures old(PanelAgrees()) ==> PanelAgrees()
      ensures old(Synced()) ==> Synced()
    {
      if isAdmin {
        return;
      }
      loginHidden := !loginHidden;
    }

    /**
      Login form: a 2xx response makes the page admin for the returned user,
      resets the form, announces success and asks for one refetch; otherwise
      only an error banner.
     */
    method SubmitLogin(o: Outcome<Roster.LoginBody>) returns (refetch: bool, resetForm: bool)
      modifies this`isAdmin, this`currentUser, this`loginHidden, this`infoHidden, this`welcome, this`toggleLabel
      modifies this`message
      ensures refetch == o.Ok? && resetForm == o.Ok?
      ensures o.Ok? ==> isAdmin && currentUser == Some(o.body.user) && PanelAgrees()
      ensures o.Ok? ==> message == Some(Message("Login successful!", Success))
      ensures o.NotOk? ==> message == Some(Message(DetailOr(o.detail, "Login failed"), Error))
      ensures o.Threw? ==> message == Some(Message("Login failed. Please try again.", Error))
      ensures !o.Ok? ==> isAdmin == old(isAdmin) && currentUser == old(currentUser)
      ensures !o.Ok? ==> loginHidden == old(loginHidden) && infoHidden == old(infoHidden)
      ensures !o.Ok? ==> welcome == old(welcome) && toggleLabel == old(toggleLabel)
      ensures old(Coherent()) ==> Coherent()
      ensures old(PanelAgrees()) ==> PanelAgrees()
      ensures !refetch ==> (old(Synced()) ==> Synced())
    {
      refetch, resetForm := false, false;
      match o
      case Ok(body) =>
        isAdmin := true;
        currentUser := Some(body.user);
        ShowAdminInterface();
        resetForm := true;
        ShowMessage("Login successful!", Success);
        refetch := true;
      case NotOk(detail) =>
        ShowMessage(DetailOr(detail, "Login failed"), Error);
      case Threw =>
        ShowMessage("Login failed. Please try again.", Error);
    }

    /**
      Logout button: a 2xx response logs the page out, announces it and asks
      for one refetch; a non-2xx response does nothing at all; a thrown error
      only shows an error banner.
     */
    method ClickLogout(o: Outcome<()>) returns (refetch: bool)
      modifies this`isAdmin, this`currentUser, this`loginHidden, this`infoHidden, this`toggleLabel, this`message
      ensures refetch == o.Ok?
      ensures o.Ok? ==> !isAdmin && currentUser == None && PanelAgrees() && loginHidden
      ensures o.Ok? ==> message == Some(Message("Logout successful!", Success))
      ensures o.NotOk? ==> message == old(message)
      ensures o.Threw? ==> message == Some(Message("Logout failed. Please try again.", Error))
      ensures !o.Ok? ==> isAdmin == old(isAdmin) && currentUser == old(currentUser)
      ensures !o.Ok? ==> loginHidden == old(loginHidden) && infoHidden == old(infoHidden) && toggleLabel == old(toggleLabel)
      ensures old(Coherent()) || o.Ok? ==> Coherent()
      ensures old(PanelAgrees()) ==> PanelAgrees()
      ensures !refetch ==> (old(Synced()) ==> Synced())
    {
      refetch := false;
      match o
      case Ok(_) =>
        isAdmin := false;
        currentUser := None;
        HideAdminInterface();
        ShowMessage("Logout successful!", Success);
        refetch := true;
      case NotOk(_) =>
      case Threw =>
        ShowMessage("Logout failed. Please try again.", Error);
    }

    /**
      Fetch and render: a decoded list replaces the cards and the selector
      and sets the form visibility. A non-2xx body is not a list: the cards
      and selector have been cleared when rendering fails, leaving the
      notice and the placeholder. A thrown fetch or decode leaves the
      selector as it was.
     */
    method FetchActivities(o: Outcome<seq<Roster.Activity>>)
      modifies this`list, this`choices, this`signupHidden, this`noticeHidden
      ensures o.Ok? ==> list == Shown(Render(o.body, isAdmin).cards) && choices == Render(o.body, isAdmin).choices
      ensures o.Ok? ==> signupHidden == Render(o.body, isAdmin).signupHidden && noticeHidden == Render(o.body, isAdmin).noticeHidden
      ensures o.Ok? ==> Synced()
      ensures !o.Ok? ==> list == Failed(LoadFailedNotice)
      ensures o.NotOk? ==> choices == [Placeholder]
      ensures o.Threw? ==> choices == old(choices)
      ensures !o.Ok? ==> signupHidden == old(signupHidden) && noticeHidden == old(noticeHidden)
      ensures old(Synced()) ==> Synced()
    {
      match o
      case Ok(acts) =>
        var v := Render(acts, isAdmin);
        list := Shown(v.cards);
        choices := v.choices;
        UpdateUIForAdminStatus();
        RenderAffordancesMatch(acts, isAdmin);
      case NotOk(_) =>
        choices := [Placeholder];
        list := Failed(LoadFailedNotice);
      case Threw =>
        list := Failed(LoadFailedNotice);
    }

    /**
      Removal button: a 2xx response shows the server's message and asks for
      one refetch; otherwise only an error banner.
     */
    method HandleUnregister(o: Outcome<Roster.ChangeBody>) returns (refetch: bool)
      modifies this`message
      ensures refetch == o.Ok?
      ensures o.Ok? ==> message == Some(Message(o.body.message, Success))
      ensures o.NotOk? ==> message == Some(Message(DetailOr(o.detail, "An error occurred"), Error))
      ensures o.Threw? ==> message == Some(Message("Failed to unregister. Please try again.", Error))
      ensures old(Synced()) ==> Synced()
    {
      refetch := false;
      match o
      case Ok(body) =>
        ShowMessage(body.message, Success);
        refetch := true;
      case NotOk(detail) =>
        ShowMessage(DetailOr(detail, "An error occurred"), Error);
      case Threw =>
        ShowMessage("Failed to unregister. Please try again.", Error);
    }

    /**
      Signup form: a 2xx response shows the server's message, resets the
      form and asks for one refetch; otherwise only an error banner.
     */
    method SubmitSignup(o: Outcome<Roster.ChangeBody>) returns (refetch: bool, resetForm: bool)
      modifies this`message
      ensures refetch == o.Ok? && resetForm == o.Ok?
      ensures o.Ok? ==> message == Some(Message(o.body.message, Success))
      ensures o.NotOk? ==> message == Some(Message(DetailOr(o.detail, "An error occurred"), Error))
      ensures o.Threw? ==> message == Some(Message("Failed to sign up. Please try again.", Error))
      ensures old(Synced()) ==> Synced()
    {
      refetch, resetForm := false, false;
      match o
      case Ok(body) =>
        ShowMessage(body.message, Success);
        resetForm := true;
        refetch := true;
      case NotOk(detail) =>
        ShowMessage(DetailOr(detail, "An error occurred"), Error);
      case Threw =>
        ShowMessage("Failed to sign up. Please try again.", Error);
    }

    /** Start-up: the status check resolves before the first fetch, so the first render matches the session. */
    method InitializeApp(status: Outcome<Roster.StatusBody>, listing: Outcome<seq<Roster.Activity>>)
      modifies this`isAdmin, this`currentUser, this`loginHidden, this`infoHidden, this`welcome, this`toggleLabel
      modifies this`list, this`choices, this`signupHidden, this`noticeHidden
      ensures isAdmin == (status.Ok? && status.body.authenticated)
      ensures currentUser == if isAdmin then status.body.user else None
      ensures loginHidden && (isAdmin ==> welcome == WelcomeText(currentUser)) && (!isAdmin ==> welcome == old(welcome))
      ensures Coherent() && PanelAgrees()
      ensures listing.Ok? ==> list == Shown(Render(listing.body, isAdmin).cards) && choices == Render(listing.body, isAdmin).choices
      ensures listing.Ok? ==> Synced()
      ensures !listing.Ok? ==> list == Failed(LoadFailedNotice)
      ensures listing.NotOk? ==> choices == [Placeholder]
      ensures listing.Threw? ==> choices == old(choices)
      ensures !listing.Ok? ==> signupHidden == old(signupHidden) && noticeHidden == old(noticeHidden)
    {
      CheckAdminStatus(status);
      FetchActivities(listing);
    }
  }
}
