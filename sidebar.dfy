/**
 * The mobile sidebar set up by `initSidebar`: the toggle button opens it, the
 * backdrop, the close button and the Escape key close it. Opening adds the
 * `show` class to the sidebar and the backdrop and locks page scrolling with
 * `overflow: hidden`; closing undoes all three.
 */
module Sidebar {

  /** The `overflow` style of the page body while the sidebar is open. */
  const Locked := "hidden"

  /** The key whose press closes an open sidebar. */
  const EscapeKey := "Escape"

  /** Whether the sidebar and the backdrop carry `show`, and the body's `overflow` style. */
  datatype SidebarState = SidebarState(sidebarShown: bool, backdropShown: bool, overflow: string)

  /**
   * What reaches the handlers: a click on the toggle, a call of `closeSidebar`
   * (from the backdrop or the close button), or a key press anywhere.
   */
  datatype SidebarEvent = Open | Close | KeyDown(key: string)

  /** The state the toggle handler leaves, whatever it started from. */
  const Opened := SidebarState(true, true, Locked)

  /** The state `closeSidebar` leaves, whatever it started from. */
  const Closed := SidebarState(false, false, "")

  /** The effect of one event. */
  function Next(s: SidebarState, e: SidebarEvent): SidebarState {
    match e
    case Open => Opened
    case Close => Closed
    case KeyDown(key) => if key == EscapeKey && s.sidebarShown then Closed else s
  }

  /** The state after a sequence of events, in order. */
  function Run(s: SidebarState, events: seq<SidebarEvent>): SidebarState
    decreases |events|
  {
    if events == [] then s else Run(Next(s, events[0]), events[1..])
  }

  /** The backdrop and the scroll lock go with the sidebar. */
  predicate Synced(s: SidebarState) {
    s.backdropShown == s.sidebarShown && (s.overflow == Locked <==> s.sidebarShown)
  }

  /** An event that leaves the sidebar open or closed whatever it was before. */
  predicate Decisive(e: SidebarEvent) {
    e.Open? || e.Close? || e == KeyDown(EscapeKey)
  }

  /** No event after position `i` is decisive (`i == -1`: none at all). */
  predicate NoDecisiveAfter(events: seq<SidebarEvent>, i: int) {
    forall j :: 0 <= j < |events| && i < j ==> !Decisive(events[j])
  }

  /** The last decisive event of the sequence is an open. */
  predicate LastDecisiveIsOpen(events: seq<SidebarEvent>) {
    exists i :: 0 <= i < |events| && events[i].Open? && NoDecisiveAfter(events, i)
  }

  /** Opening is idempotent: a second click on the toggle leaves the sidebar open. */
  lemma OpenIdempotent(s: SidebarState)
    ensures Next(Next(s, Open), Open) == Next(s, Open)
    ensures Run(s, [Open, Open]).sidebarShown
  {
    assert Run(s, [Open, Open]) == Next(Next(s, Open), Open) by {
      assert [Open, Open][1..] == [Open];
    }
  }

  /** Escape closes an open sidebar; on a closed one, and for any other key, nothing changes. */
  lemma KeyDownCloses(s: SidebarState, key: string)
    ensures key == EscapeKey && s.sidebarShown ==> Next(s, KeyDown(key)) == Closed
    ensures !(key == EscapeKey && s.sidebarShown) ==> Next(s, KeyDown(key)) == s
  {
  }

  lemma NextSynced(s: SidebarState, e: SidebarEvent)
    requires Synced(s)
    ensures Synced(Next(s, e))
  {
  }

  /** From a page where backdrop and scroll lock agree with the sidebar, they keep agreeing. */
  lemma {:induction false} RunSynced(s: SidebarState, events: seq<SidebarEvent>)
    requires Synced(s)
    ensures Synced(Run(s, events))
    decreases |events|
  {
    if events != [] {
      NextSynced(s, events[0]);
      RunSynced(Next(s, events[0]), events[1..]);
    }
  }

  lemma NoDecisiveAfterShift(events: seq<SidebarEvent>, i: int)
    requires events != [] && -1 <= i < |events|
    ensures i >= 0 ==> (NoDecisiveAfter(events, i) <==> NoDecisiveAfter(events[1..], i - 1))
    ensures i == -1 ==> (NoDecisiveAfter(events, -1) <==> !Decisive(events[0]) && NoDecisiveAfter(events[1..], -1))
  {
    var rest := events[1..];
    assert forall j :: 0 <= j < |rest| ==> rest[j] == events[j + 1];
  }

  lemma LastDecisiveIsOpenShift(events: seq<SidebarEvent>)
    requires events != []
    ensures LastDecisiveIsOpen(events) <==>
      (events[0].Open? && NoDecisiveAfter(events, 0)) || LastDecisiveIsOpen(events[1..])
  {
    var rest := events[1..];
    if LastDecisiveIsOpen(events) {
      var i :| 0 <= i < |events| && events[i].Open? && NoDecisiveAfter(events, i);
      if i > 0 {
        NoDecisiveAfterShift(events, i);
        assert rest[i - 1].Open?;
      }
    }
    if LastDecisiveIsOpen(rest) {
      var i :| 0 <= i < |rest| && rest[i].Open? && NoDecisiveAfter(rest, i);
      NoDecisiveAfterShift(events, i + 1);
      assert events[i + 1].Open?;
    }
  }

  /**
   * The sidebar is open after a sequence of events exactly when the last decisive
   * event in it (the toggle, `closeSidebar` or an Escape) was the toggle, or, when
   * there is none, when it was open to begin with.
   */
  lemma {:induction false} RunShownIffLastOpen(s: SidebarState, events: seq<SidebarEvent>)
    ensures Run(s, events).sidebarShown <==>
      (NoDecisiveAfter(events, -1) && s.sidebarShown) || LastDecisiveIsOpen(events)
    decreases |events|
  {
    if events != [] {
      var e, rest := events[0], events[1..];
      RunShownIffLastOpen(Next(s, e), rest);
      NoDecisiveAfterShift(events, -1);
      NoDecisiveAfterShift(events, 0);
      LastDecisiveIsOpenShift(events);
    }
  }

  /** The page elements `initSidebar` wires together. */
  class SidebarPage {
    var sidebarShown: bool
    var backdropShown: bool
    var overflow: string

    /** The page as `initSidebar` finds it; a backdrop it has to create starts without `show`. */
    constructor (sidebarShown: bool, backdropShown: bool, overflow: string)
      ensures State() == SidebarState(sidebarShown, backdropShown, overflow)
    {
      this.sidebarShown := sidebarShown;
      this.backdropShown := backdropShown;
      this.overflow := overflow;
    }

    function State(): SidebarState
      reads this
    {
      SidebarState(sidebarShown, backdropShown, overflow)
    }

    /** The toggle button's click handler. */
    method OnToggleClick()
      modifies this
      ensures State() == Next(old(State()), Open)
    {
      sidebarShown := true;
      backdropShown := true;
      overflow := Locked;
    }

    /** `closeSidebar`, run by a click on the backdrop or on the close button. */
    method CloseSidebar()
      modifies this
      ensures State() == Next(old(State()), Close)
    {
      sidebarShown := false;
      backdropShown := false;
      overflow := "";
    }

    /** The document's `keydown` handler. */
    method OnKeyDown(key: string)
      modifies this
      ensures State() == Next(old(State()), KeyDown(key))
    {
      if key == EscapeKey && sidebarShown {
        CloseSidebar();
      }
    }
  }
}
