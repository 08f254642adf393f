/**
 * The iOS `AppCoordinator`: a navigation stack of screens, the screen on
 * show, and who is signed in (a teacher, a guest, or nobody). Debate
 * sessions and teachers are referred to by id; the `UserDefaults` entries
 * the coordinator writes are kept as two fields.
 */
module Coordinator {
  import opened Wrappers

  /** `AppCoordinator.Screen`; the timer and feedback screens carry the debate session. */
  datatype Screen = Authentication | DebateSetup | Timer(sessionId: string) | Feedback(sessionId: string) | History

  /** The screen a navigation path shows: its last element, or the authentication screen when it is empty. */
  function ShownScreen(path: seq<Screen>): (s: Screen)
  {
    if path == [] then Authentication else path[|path| - 1]
  }

  /** `canAccessHistory` (and `canAccessAutoPopulation`, which is the same condition). */
  predicate HistoryAllowed(isGuestMode: bool, currentTeacher: Option<string>)
  {
    !isGuestMode && currentTeacher.Some?
  }

  /** Where the sign-in state is consistent (a guest has no teacher), history is open exactly to a signed-in teacher. */
  lemma HistoryForTeachersOnly(isGuestMode: bool, currentTeacher: Option<string>)
    requires isGuestMode ==> currentTeacher.None?
    ensures HistoryAllowed(isGuestMode, currentTeacher) <==> currentTeacher.Some?
    ensures isGuestMode ==> !HistoryAllowed(isGuestMode, currentTeacher)
  {
  }

  /** Going back after going to a screen returns to the screen shown before. */
  lemma {:induction false} BackUndoesNavigate(path: seq<Screen>, s: Screen)
    ensures (path + [s])[..|path + [s]| - 1] == path
    ensures ShownScreen(path + [s]) == s
    ensures ShownScreen((path + [s])[..|path|]) == ShownScreen(path)
  {
    assert (path + [s])[..|path|] == path;
  }

  class AppCoordinator {
    var currentScreen: Screen
    var navigationPath: seq<Screen>
    var isGuestMode: bool
    var currentTeacher: Option<string>
    var currentDebateSession: Option<string>
    /** The `isGuestMode` entry of `UserDefaults`. */
    var storedGuestMode: Option<bool>
    /** Whether `UserDefaults` holds an auth token. */
    var storedAuthToken: bool

    /** The shown screen follows the path, and a guest never has a teacher. */
    predicate Valid()
      reads this
    {
      currentScreen == ShownScreen(navigationPath) && (isGuestMode ==> currentTeacher.None?)
    }

    /**
     * `init` with `checkPreviousSession`: whatever was stored, the app
     * starts on the authentication screen signed out; neither a stored
     * guest flag nor a stored teacher id restores a session.
     */
    constructor(storedGuestMode: Option<bool>, storedAuthToken: bool)
      ensures Valid()
      ensures currentScreen == Authentication && navigationPath == []
      ensures !isGuestMode && currentTeacher.None? && currentDebateSession.None?
      ensures this.storedGuestMode == storedGuestMode && this.storedAuthToken == storedAuthToken
    {
      currentScreen := Authentication;
      navigationPath := [];
      isGuestMode := false;
      currentTeacher := None;
      currentDebateSession := None;
      this.storedGuestMode := storedGuestMode;
      this.storedAuthToken := storedAuthToken;
    }

    predicate CanAccessHistory()
      reads this
    {
      HistoryAllowed(isGuestMode, currentTeacher)
    }

    /** `navigateTo`: push the screen and show it. */
    method NavigateTo(screen: Screen)
      requires Valid()
      modifies `currentScreen, `navigationPath
      ensures Valid()
      ensures navigationPath == old(navigationPath) + [screen] && currentScreen == screen
    {
      currentScreen := screen;
      navigationPath := navigationPath + [screen];
    }

    /** `navigateBack`: on an empty path nothing happens; otherwise pop and show the new top, or authentication. */
    method NavigateBack()
      requires Valid()
      modifies `currentScreen, `navigationPath
      ensures Valid()
      ensures old(navigationPath) == [] ==> navigationPath == [] && currentScreen == old(currentScreen)
      ensures old(navigationPath) != [] ==> navigationPath == old(navigationPath)[..|old(navigationPath)| - 1]
    {
      if navigationPath != [] {
        navigationPath := navigationPath[..|navigationPath| - 1];
        if navigationPath != [] {
          currentScreen := navigationPath[|navigationPath| - 1];
        } else {
          currentScreen := Authentication;
        }
      }
    }

    /** `resetToRoot`: empty the path, show authentication, forget the debate session. */
    method ResetToRoot()
      requires Valid()
      modifies `currentScreen, `navigationPath, `currentDebateSession
      ensures Valid()
      ensures navigationPath == [] && currentScreen == Authentication && currentDebateSession.None?
    {
      navigationPath := [];
      currentScreen := Authentication;
      currentDebateSession := None;
    }

    /** `loginAsTeacher`: sign the teacher in, not as guest, and go to debate setup. */
    method LoginAsTeacher(teacherId: string)
      requires Valid()
      modifies this
      ensures Valid() && CanAccessHistory()
      ensures currentTeacher == Some(teacherId) && !isGuestMode && storedGuestMode == Some(false)
      ensures navigationPath == old(navigationPath) + [DebateSetup] && currentScreen == DebateSetup
      ensures currentDebateSession == old(currentDebateSession) && storedAuthToken == old(storedAuthToken)
    {
      currentTeacher := Some(teacherId);
      isGuestMode := false;
      storedGuestMode := Some(false);
      NavigateTo(DebateSetup);
    }

    /** `loginAsGuest`: guest mode without a teacher, then debate setup. */
    method LoginAsGuest()
      requires Valid()
      modifies this
      ensures Valid() && !CanAccessHistory()
      ensures isGuestMode && currentTeacher.None? && storedGuestMode == Some(true)
      ensures navigationPath == old(navigationPath) + [DebateSetup] && currentScreen == DebateSetup
      ensures currentDebateSession == old(currentDebateSession) && storedAuthToken == old(storedAuthToken)
    {
      isGuestMode := true;
      currentTeacher := None;
      storedGuestMode := Some(true);
      NavigateTo(DebateSetup);
    }

    /** `logout`: sign out, remove the stored flag and token, and reset to the root. */
    method Logout()
      requires Valid()
      modifies this
      ensures Valid() && !CanAccessHistory()
      ensures currentTeacher.None? && !isGuestMode && storedGuestMode.None? && !storedAuthToken
      ensures navigationPath == [] && currentScreen == Authentication && currentDebateSession.None?
    {
      currentTeacher := None;
      isGuestMode := false;
      storedGuestMode := None;
      storedAuthToken := false;
      ResetToRoot();
    }

    /** `startDebate`: remember the session and push its timer screen. */
    method StartDebate(sessionId: string)
      requires Valid()
      modifies `currentDebateSession, `currentScreen, `navigationPath
      ensures Valid()
      ensures currentDebateSession == Some(sessionId)
      ensures navigationPath == old(navigationPath) + [Timer(sessionId)] && currentScreen == Timer(sessionId)
    {
      currentDebateSession := Some(sessionId);
      NavigateTo(Timer(sessionId));
    }

    /** `finishDebate`: without a current session nothing happens; otherwise push its feedback screen. */
    method FinishDebate()
      requires Valid()
      modifies `currentScreen, `navigationPath
      ensures Valid()
      ensures currentDebateSession.None? ==> navigationPath == old(navigationPath) && currentScreen == old(currentScreen)
      ensures currentDebateSession.Some? ==>
        navigationPath == old(navigationPath) + [Feedback(currentDebateSession.value)]
        && currentScreen == Feedback(currentDebateSession.value)
    {
      if currentDebateSession.None? {
        return;
      }
      NavigateTo(Feedback(currentDebateSession.value));
    }

    /** `viewHistory`: push the history screen, whoever is signed in. */
    method ViewHistory()
      requires Valid()
      modifies `currentScreen, `navigationPath
      ensures Valid()
      ensures navigationPath == old(navigationPath) + [History] && currentScreen == History
    {
      NavigateTo(History);
    }
  }
}
