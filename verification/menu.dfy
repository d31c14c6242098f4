/**
 * The mobile navigation menu: the `active` class on the `.menu-toggle` button
 * and on the `.nav-links` list. The toggle button flips both; a click on a nav
 * link, a click outside the navigation container and an in-page anchor jump
 * to an existing target each clear both.
 */
module Menu {

  /** Whether each of the two elements carries the `active` class. */
  datatype MenuState = MenuState(toggleActive: bool, linksActive: bool)

  /**
   * The click handlers that touch the menu, with what each one inspects. An
   * anchor whose `href` is `#` alone makes the target lookup throw before the
   * menu is touched, which is `AnchorClick(false)`.
   */
  datatype MenuEvent =
    | ToggleClick                             // click on `.menu-toggle`
    | NavLinkClick                            // click on a `.nav-link` or `.nav-cta`
    | DocumentClick(insideNavContainer: bool) // any click, as seen by the document
    | AnchorClick(targetFound: bool)          // click on an `a[href^="#"]`; does the target exist?

  /** Both elements agree. */
  predicate Synced(m: MenuState)
  {
    m.toggleActive == m.linksActive
  }

  predicate IsOpen(m: MenuState)
  {
    m.toggleActive && m.linksActive
  }

  predicate IsClosed(m: MenuState)
  {
    !m.toggleActive && !m.linksActive
  }

  /** `classList.toggle('active')` on both elements. */
  function Toggle(m: MenuState): (r: MenuState)
    ensures r.toggleActive != m.toggleActive && r.linksActive != m.linksActive
    ensures Synced(r) <==> Synced(m)
    ensures IsOpen(r) <==> IsClosed(m)
    ensures IsClosed(r) <==> IsOpen(m)
  {
    MenuState(!m.toggleActive, !m.linksActive)
  }

  /** `classList.remove('active')` on both elements. */
  function Close(m: MenuState): (r: MenuState)
    ensures IsClosed(r) && Synced(r)
  {
    MenuState(false, false)
  }

  /** Does this handler clear the menu? */
  predicate Closes(e: MenuEvent)
  {
    match e
    case ToggleClick => false
    case NavLinkClick => true
    case DocumentClick(inside) => !inside
    case AnchorClick(found) => found
  }

  /** Run one handler. */
  function Handle(m: MenuState, e: MenuEvent): (r: MenuState)
    ensures Synced(m) ==> Synced(r)
    ensures Closes(e) ==> IsClosed(r)
    ensures e.ToggleClick? ==> r.toggleActive != m.toggleActive && r.linksActive != m.linksActive
    ensures !e.ToggleClick? && !Closes(e) ==> r == m
  {
    match e
    case ToggleClick => Toggle(m)
    case NavLinkClick => Close(m)
    case DocumentClick(inside) => if !inside then Close(m) else m
    case AnchorClick(found) => if found then Close(m) else m
  }

  /** Run handlers first to last; one real click may run several of them in bubbling order. */
  function RunMenu(m: MenuState, events: seq<MenuEvent>): MenuState
    decreases |events|
  {
    if |events| == 0 then m else RunMenu(Handle(m, events[0]), events[1..])
  }

  /** Appending one handler to a run is one more step. */
  lemma {:induction false} RunMenuSnoc(m: MenuState, events: seq<MenuEvent>, last: MenuEvent)
    ensures RunMenu(m, events + [last]) == Handle(RunMenu(m, events), last)
    decreases |events|
  {
    if |events| == 0 {
      assert events + [last] == [last];
    } else {
      assert (events + [last])[1..] == events[1..] + [last];
      RunMenuSnoc(Handle(m, events[0]), events[1..], last);
    }
  }

  /** Starting in agreement, the two `active` flags agree after any handlers. */
  lemma {:induction false} RunMenuKeepsSynced(m: MenuState, events: seq<MenuEvent>)
    requires Synced(m)
    ensures Synced(RunMenu(m, events))
    decreases |events|
  {
    if |events| > 0 {
      RunMenuKeepsSynced(Handle(m, events[0]), events[1..]);
    }
  }

  /**
   * Reference definition, read from the end of the run: a closing handler last
   * means closed, a toggle last flips what the rest of the run gives, and any
   * other handler leaves it as the rest of the run gives.
   */
  function ExpectedOpen(open: bool, events: seq<MenuEvent>): bool
    decreases |events|
  {
    if |events| == 0 then open
    else
      var last := events[|events| - 1];
      if Closes(last) then false
      else if last.ToggleClick? then !ExpectedOpen(open, events[..|events| - 1])
      else ExpectedOpen(open, events[..|events| - 1])
  }

  /** A synced menu after any handlers is open exactly as the reference says, else closed. */
  lemma {:induction false} RunMenuIsExpected(m: MenuState, events: seq<MenuEvent>)
    requires Synced(m)
    ensures ExpectedOpen(IsOpen(m), events) ==> IsOpen(RunMenu(m, events))
    ensures !ExpectedOpen(IsOpen(m), events) ==> IsClosed(RunMenu(m, events))
    decreases |events|
  {
    if |events| > 0 {
      var front := events[..|events| - 1];
      var last := events[|events| - 1];
      assert events == front + [last];
      RunMenuSnoc(m, front, last);
      RunMenuIsExpected(m, front);
      RunMenuKeepsSynced(m, front);
    }
  }

  /** Toggling twice restores the menu. */
  lemma ToggleInvolution(m: MenuState)
    ensures Toggle(Toggle(m)) == m
  {
  }

  /** A toggle before a close is forgotten, and closing twice is closing once. */
  lemma CloseAbsorbs(m: MenuState)
    ensures Close(Toggle(m)) == Close(m)
    ensures Close(Close(m)) == Close(m)
  {
  }
}
