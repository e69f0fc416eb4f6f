/** NavigationService (src/services/navigation_service.py): the stack of
    previously visited paths and the current path, where no current path
    (`None`) is the disk list at the root. */
module Navigation {
  import opened Wrappers

  /** The history (oldest first, the top of the stack last) and the current
      path. */
  datatype NavState = NavState(history: seq<string>, current: Option<string>)

  /** The state of a new service, and the one `go_home` returns to. */
  const Home: NavState := NavState([], None)

  /** At the root, nothing is left to go back to. */
  predicate Consistent(s: NavState) {
    s.current.None? ==> s.history == []
  }

  /** navigate_to: the old current path is pushed only when there is one. */
  function AfterNavigate(s: NavState, p: string): (r: NavState)
    ensures r.current == Some(p) && Consistent(r)
    ensures s.current.None? ==> r.history == s.history
    ensures s.current.Some? ==> r.history == s.history + [s.current.value]
  {
    match s.current
    case None => NavState(s.history, Some(p))
    case Some(c) => NavState(s.history + [c], Some(p))
  }

  /** go_back: pops the top of the history, makes it current and returns it;
      with an empty history the current path becomes None, which is returned. */
  function AfterBack(s: NavState): (r: (NavState, Option<string>))
    ensures r.1 == r.0.current && Consistent(r.0)
    ensures s.history != [] ==>
              r.0.history == s.history[..|s.history| - 1] && r.1 == Some(s.history[|s.history| - 1])
    ensures s.history == [] ==> r.0 == Home
  {
    if s.history != [] then
      var top := s.history[|s.history| - 1];
      (NavState(s.history[..|s.history| - 1], Some(top)), Some(top))
    else
      (Home, None)
  }

  /** go_home: the history is emptied and the current path cleared. */
  function AfterHome(s: NavState): (r: NavState)
    ensures r == Home && Consistent(r)
  {
    NavState([], None)
  }

  const RootDisplay: string := "磁盘根目录"
  const PathPrefix: string := "当前路径: "

  /** get_current_path_display: the root text exactly when there is no current
      path, otherwise the prefix followed by the path. */
  function PathDisplay(s: NavState): (r: string)
    ensures s.current.None? <==> r == RootDisplay
    ensures s.current.Some? ==> PathPrefix <= r && r[|PathPrefix|..] == s.current.value
  {
    match s.current
    case None => RootDisplay
    case Some(p) => PathPrefix + p
  }

  /** Going back right after navigating away from a path restores the state
      exactly and returns that path. */
  lemma BackUndoesNavigate(s: NavState, p: string)
    requires s.current.Some?
    ensures AfterBack(AfterNavigate(s, p)) == (s, s.current)
  {
    assert (s.history + [s.current.value])[..|s.history|] == s.history;
  }

  /** From the root, navigating somewhere and going back returns None and lands
      at the root again. */
  lemma BackToRoot(s: NavState, p: string)
    requires Consistent(s) && s.current.None?
    ensures AfterBack(AfterNavigate(s, p)) == (Home, None)
  {
  }

  /** Navigating along `ps`, one path after the other. */
  function NavigateAll(s: NavState, ps: seq<string>): NavState
    decreases |ps|
  {
    if ps == [] then s else NavigateAll(AfterNavigate(s, ps[0]), ps[1..])
  }

  /** Going back `n` times. */
  function BackTimes(s: NavState, n: nat): NavState
    decreases n
  {
    if n == 0 then s else BackTimes(AfterBack(s).0, n - 1)
  }

  lemma {:induction false} NavigateAllHistory(s: NavState, ps: seq<string>)
    requires s.current.Some? && ps != []
    ensures NavigateAll(s, ps).current == Some(ps[|ps| - 1])
    ensures NavigateAll(s, ps).history == s.history + [s.current.value] + ps[..|ps| - 1]
    decreases |ps|
  {
    var t := AfterNavigate(s, ps[0]);
    if |ps| > 1 {
      NavigateAllHistory(t, ps[1..]);
      assert [s.current.value] + ps[..|ps| - 1] == [s.current.value] + [ps[0]] + ps[1..][..|ps[1..]| - 1];
    }
  }

  lemma {:induction false} BackTimesPops(h: seq<string>, c: string, n: nat)
    requires n <= |h|
    ensures BackTimes(NavState(h, Some(c)), n) ==
              if n == 0 then NavState(h, Some(c)) else NavState(h[..|h| - n], Some(h[|h| - n]))
    decreases n
  {
    if n > 0 {
      var top := h[|h| - 1];
      BackTimesPops(h[..|h| - 1], top, n - 1);
      if n > 1 {
        assert h[..|h| - 1][..|h| - 1 - (n - 1)] == h[..|h| - n];
        assert h[..|h| - 1][|h| - 1 - (n - 1)] == h[|h| - n];
      }
    }
  }

  /** However deep the user navigates from a path, going back as many times
      returns to exactly where they started: the history is a stack. */
  lemma BackRetracesNavigation(s: NavState, ps: seq<string>)
    requires s.current.Some?
    ensures BackTimes(NavigateAll(s, ps), |ps|) == s
  {
    if ps != [] {
      NavigateAllHistory(s, ps);
      var h := s.history + [s.current.value] + ps[..|ps| - 1];
      BackTimesPops(h, ps[|ps| - 1], |ps|);
      assert h[..|h| - |ps|] == s.history;
      assert h[|h| - |ps|] == s.current.value;
    }
  }

  /** The service object: its two fields are reassigned by every operation. */
  class NavigationService {
    var history: seq<string>
    var currentPath: Option<string>

    function State(): NavState
      reads this
    {
      NavState(history, currentPath)
    }

    constructor()
      ensures State() == Home
    {
      history := [];
      currentPath := None;
    }

    method NavigateTo(path: string)
      modifies this
      ensures State() == AfterNavigate(old(State()), path)
    {
      if currentPath.Some? {
        history := history + [currentPath.value];
      }
      currentPath := Some(path);
    }

    method GoBack() returns (previous: Option<string>)
      modifies this
      ensures (State(), previous) == AfterBack(old(State()))
    {
      if history != [] {
        currentPath := Some(history[|history| - 1]);
        history := history[..|history| - 1];
        return currentPath;
      } else {
        currentPath := None;
        return None;
      }
    }

    method GoHome()
      modifies this
      ensures State() == AfterHome(old(State()))
    {
      history := [];
      currentPath := None;
    }

    method CurrentPathDisplay() returns (text: string)
      ensures text == PathDisplay(State())
    {
      if currentPath.None? {
        return RootDisplay;
      }
      return PathPrefix + currentPath.value;
    }
  }
}
