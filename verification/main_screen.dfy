/**
 * The main screen's navigation: which of the login screen, the register
 * screen and the two tabs is shown, and how the tab click, the login and
 * register callbacks and logging out change the flags behind that choice.
 * Whether the sign-in service still has a user is an input; the two stored
 * preference flags are part of the state.
 */
module MainScreen {

  datatype Tab = MusicTab | RecordingTab

  /** The stored flags `was_logged_out` and `force_logout`. */
  datatype Prefs = Prefs(wasLoggedOut: bool, forceLogout: bool)

  datatype NavState = NavState(
    selectedTab: Tab,
    isUserLoggedIn: bool,
    showLoginScreen: bool,
    showRegisterScreen: bool,
    prefs: Prefs)

  datatype Screen = LoginScreen | RegisterScreen | Tabs(tab: Tab)

  /** The state on entry, with whatever flags were stored. */
  function Initial(prefs: Prefs): NavState {
    NavState(MusicTab, false, false, false, prefs)
  }

  /** The login screen wins over the register screen, which wins over the tabs. */
  function Displayed(s: NavState): (screen: Screen)
    ensures screen == LoginScreen <==> s.showLoginScreen
    ensures screen == RegisterScreen <==> !s.showLoginScreen && s.showRegisterScreen
    ensures screen.Tabs? ==> screen.tab == s.selectedTab
  {
    if s.showLoginScreen then LoginScreen
    else if s.showRegisterScreen then RegisterScreen
    else Tabs(s.selectedTab)
  }

  /**
   * A tab click. The music tab is always reachable. The recording tab needs a
   * signed-in user and no forced logout; otherwise the login screen is shown
   * and the tab stays as it was.
   */
  function ClickTab(s: NavState, tab: Tab, userPresent: bool): (r: NavState)
    ensures tab == MusicTab ==> r == s.(selectedTab := MusicTab)
    ensures tab == RecordingTab ==>
      && r.isUserLoggedIn == (userPresent && !s.prefs.forceLogout)
      && (r.isUserLoggedIn ==> r == s.(isUserLoggedIn := true, selectedTab := RecordingTab))
      && (!r.isUserLoggedIn ==> r == s.(isUserLoggedIn := false, showLoginScreen := true))
  {
    match tab
    case MusicTab => s.(selectedTab := MusicTab)
    case RecordingTab =>
      var loggedIn := userPresent && !s.prefs.forceLogout;
      if !loggedIn then s.(isUserLoggedIn := false, showLoginScreen := true)
      else s.(isUserLoggedIn := true, selectedTab := RecordingTab)
  }

  /** Login succeeded: leave the login screen signed in, clear both flags, open the recording tab. */
  function OnLoginSuccess(s: NavState): (r: NavState)
    ensures r.isUserLoggedIn && !r.showLoginScreen && r.selectedTab == RecordingTab
    ensures r.prefs == Prefs(false, false)
    ensures r.showRegisterScreen == s.showRegisterScreen
  {
    s.(isUserLoggedIn := true, showLoginScreen := false, prefs := Prefs(false, false), selectedTab := RecordingTab)
  }

  function OnNavigateToRegister(s: NavState): (r: NavState)
    ensures Displayed(r) == RegisterScreen
    ensures r.(showLoginScreen := s.showLoginScreen, showRegisterScreen := s.showRegisterScreen) == s
  {
    s.(showRegisterScreen := true, showLoginScreen := false)
  }

  /** Login cancelled: back to the music tab. */
  function OnLoginCancel(s: NavState): (r: NavState)
    ensures !r.showLoginScreen && r.selectedTab == MusicTab
    ensures r.(showLoginScreen := s.showLoginScreen, selectedTab := s.selectedTab) == s
  {
    s.(showLoginScreen := false, selectedTab := MusicTab)
  }

  /** Registration succeeded: leave the register screen signed in, clear both flags, open the recording tab. */
  function OnRegisterSuccess(s: NavState): (r: NavState)
    ensures r.isUserLoggedIn && !r.showRegisterScreen && r.selectedTab == RecordingTab
    ensures r.prefs == Prefs(false, false)
    ensures r.showLoginScreen == s.showLoginScreen
  {
    s.(showRegisterScreen := false, isUserLoggedIn := true, prefs := Prefs(false, false), selectedTab := RecordingTab)
  }

  function OnNavigateToLogin(s: NavState): (r: NavState)
    ensures Displayed(r) == LoginScreen && !r.showRegisterScreen
    ensures r.(showLoginScreen := s.showLoginScreen, showRegisterScreen := s.showRegisterScreen) == s
  {
    s.(showRegisterScreen := false, showLoginScreen := true)
  }

  /** `performLogout`: music tab, signed out, both flags set. */
  function PerformLogout(s: NavState): (r: NavState)
    ensures r.selectedTab == MusicTab && !r.isUserLoggedIn
    ensures r.prefs == Prefs(true, true)
    ensures r.showLoginScreen == s.showLoginScreen && r.showRegisterScreen == s.showRegisterScreen
  {
    s.(selectedTab := MusicTab, isUserLoggedIn := false, prefs := Prefs(true, true))
  }

  /** Forced logout is sticky: until a login or registration succeeds, the recording tab asks for a login. */
  lemma LogoutBlocksRecordingTab(s: NavState, userPresent: bool)
    ensures var r := ClickTab(PerformLogout(s), RecordingTab, userPresent);
      && !r.isUserLoggedIn && r.showLoginScreen && r.selectedTab == MusicTab
  {
  }

  // ---------------------------------------------------------------------
  // Events

  /** User actions, each delivered only by the screen that offers it. */
  datatype UiEvent =
    | TabClicked(tab: Tab, userPresent: bool)
    | LogoutClicked
    | LoginSucceeded
    | LoginToRegister
    | LoginCancelled
    | RegisterSucceeded
    | RegisterToLogin

  /**
   * One user action. Tab clicks come from the tab row and logout from the
   * button the top bar shows only to a logged-in user; the callbacks come
   * from the login or register screen. An action the displayed screen does
   * not offer changes nothing.
   */
  function Next(s: NavState, e: UiEvent): NavState {
    match Displayed(s)
    case LoginScreen =>
      (match e
       case LoginSucceeded => OnLoginSuccess(s)
       case LoginToRegister => OnNavigateToRegister(s)
       case LoginCancelled => OnLoginCancel(s)
       case _ => s)
    case RegisterScreen =>
      (match e
       case RegisterSucceeded => OnRegisterSuccess(s)
       case RegisterToLogin => OnNavigateToLogin(s)
       case _ => s)
    case Tabs(_) =>
      (match e
       case TabClicked(tab, userPresent) => ClickTab(s, tab, userPresent)
       case LogoutClicked => if s.isUserLoggedIn then PerformLogout(s) else s
       case _ => s)
  }

  function Run(s: NavState, events: seq<UiEvent>): NavState
    decreases |events|
  {
    if |events| == 0 then s else Run(Next(s, events[0]), events[1..])
  }

  /**
   * The gating invariant: a logged-in flag never coexists with a forced
   * logout, the recording tab is on screen only for a logged-in user, and the
   * login and register screens are never both requested.
   */
  predicate Gated(s: NavState) {
    && (s.isUserLoggedIn ==> !s.prefs.forceLogout)
    && (Displayed(s) == Tabs(RecordingTab) ==> s.isUserLoggedIn)
    && !(s.showLoginScreen && s.showRegisterScreen)
  }

  lemma NextPreservesGated(s: NavState, e: UiEvent)
    requires Gated(s)
    ensures Gated(Next(s, e))
  {
  }

  lemma {:induction false} RunPreservesGated(s: NavState, events: seq<UiEvent>)
    requires Gated(s)
    ensures Gated(Run(s, events))
    decreases |events|
  {
    if |events| > 0 {
      NextPreservesGated(s, events[0]);
      RunPreservesGated(Next(s, events[0]), events[1..]);
    }
  }

  /** From a fresh start, any sequence of these actions shows the recording tab only to a logged-in user. */
  lemma RecordingTabOnlyWhenLoggedIn(prefs: Prefs, events: seq<UiEvent>)
    ensures var s := Run(Initial(prefs), events);
      Displayed(s) == Tabs(RecordingTab) ==> s.isUserLoggedIn && !s.prefs.forceLogout
  {
    RunPreservesGated(Initial(prefs), events);
  }
}
