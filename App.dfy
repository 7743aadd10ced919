/** The application shell (src/app/App.tsx): the welcome-screen gate. The
    browser's `localStorage` is the map `storage`, handed in at mount. */
module App {

  const VisitedKey := "hasVisited"

  /** `!localStorage.getItem('hasVisited')`: the key is missing, or holds
      the empty string, which is falsy as well. */
  predicate IsFirstVisit(storage: map<string, string>)
  {
    VisitedKey !in storage || storage[VisitedKey] == ""
  }

  /** What the shell renders inside the provider. */
  datatype Screen = Welcome | UserList

  /** `showWelcome ? <WelcomeScreen/> : <UserListPage/>` */
  function ScreenFor(showWelcome: bool): (s: Screen)
    ensures s == Welcome <==> showWelcome
    ensures s == UserList <==> !showWelcome
  {
    if showWelcome then Welcome else UserList
  }

  class WelcomeGate {
    var showWelcome: bool
    var storage: map<string, string>

    /** The first render: the welcome screen is hidden until the mount
        effect has looked at the storage. */
    constructor (storage: map<string, string>)
      ensures !showWelcome && this.storage == storage
    {
      showWelcome := false;
      this.storage := storage;
    }

    /** The mount effect: on a first visit show the welcome screen and
        remember the visit; on a later one change nothing. */
    method Startup()
      modifies this
      ensures IsFirstVisit(old(storage)) ==> showWelcome && storage == old(storage)[VisitedKey := "true"]
      ensures !IsFirstVisit(old(storage)) ==> showWelcome == old(showWelcome) && storage == old(storage)
      ensures !IsFirstVisit(storage)
    {
      if IsFirstVisit(storage) {
        showWelcome := true;
        storage := storage[VisitedKey := "true"];
      }
    }

    /** `handleCloseWelcome` */
    method CloseWelcome()
      modifies this`showWelcome
      ensures !showWelcome
    {
      showWelcome := false;
    }

    /** `handleOpenWelcome`, the info button in the list's title bar. */
    method OpenWelcome()
      modifies this`showWelcome
      ensures showWelcome
    {
      showWelcome := true;
    }
  }

  /** Two page loads sharing one storage: the welcome screen comes up on the
      first exactly when it is a first visit, and never on the second. */
  method TwoLoads(storage: map<string, string>) returns (first: Screen, second: Screen)
    ensures first == Welcome <==> IsFirstVisit(storage)
    ensures second == UserList
  {
    var gate := new WelcomeGate(storage);
    gate.Startup();
    first := ScreenFor(gate.showWelcome);
    var reload := new WelcomeGate(gate.storage);
    reload.Startup();
    second := ScreenFor(reload.showWelcome);
  }
}
