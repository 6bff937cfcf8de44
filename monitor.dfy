/** The objects of the scroll monitor: a root that owns a viewport window
    and its watchers, and the watchers themselves. Every method is proved
    to do what the matching function of `States` says. */
module ScrollMonitor {
  import opened Wrappers
  import opened Events
  import opened Listeners
  import opened Geometry
  import opened Dispatch
  import opened States

  class Watcher {
    /** The root whose window this watcher is measured against. */
    const root: Root
    const target: Target
    const offsets: Offsets

    var top: int
    var bottom: int
    var height: int

    var isInViewport: bool
    var isFullyInViewport: bool
    var isAboveViewport: bool
    var isBelowViewport: bool

    /** The flags as they were at the end of the last dispatch. */
    var wasInViewport: bool
    var wasFullyInViewport: bool
    var wasAboveViewport: bool
    var wasBelowViewport: bool

    var callbacks: Lists
    var locked: bool

    function Current(): Flags
      reads this
    {
      Flags(isInViewport, isFullyInViewport, isAboveViewport, isBelowViewport)
    }

    function Previous(): Flags
      reads this
    {
      Flags(wasInViewport, wasFullyInViewport, wasAboveViewport, wasBelowViewport)
    }

    function State(): WatcherState
      reads this
    {
      WatcherState(target, offsets, top, bottom, height, Current(), Previous(), callbacks, locked)
    }

    /** A new watcher: locates itself, computes its flags and takes them as
        its snapshot, so that its first dispatch sees no change. */
    constructor (root: Root, target: Target, arg: OffsetsArg, layout: Layout)
      ensures this.root == root
      ensures State() == InitialState(target, arg, root.viewportTop, root.viewportBottom, root.documentHeight, layout)
    {
      this.root := root;
      this.target := target;
      offsets := NormaliseOffsets(arg);
      callbacks := EmptyLists();
      locked := false;
      top, bottom, height := 0, 0, 0;
      new;
      ghost var blank := State();
      InitialStateInSteps(blank, arg, root.viewportTop, root.viewportBottom, root.documentHeight, layout);
      // every list is still empty, so nothing can be called here
      var none := RecalculateLocation(layout);
      Update();
      TakeSnapshot();
    }

    /** Takes the current flags as the snapshot the next dispatch compares
        against. */
    method TakeSnapshot()
      modifies this`wasInViewport, this`wasFullyInViewport, this`wasAboveViewport, this`wasBelowViewport
      ensures State() == old(State()).(previous := old(State()).current)
    {
      wasInViewport := isInViewport;
      wasFullyInViewport := isFullyInViewport;
      wasAboveViewport := isAboveViewport;
      wasBelowViewport := isBelowViewport;
    }

    /** Calls every listener of category `e`, the last registered first,
        and drops the one-shot ones. */
    method TriggerCallbackArray(e: EventType) returns (fired: seq<Invocation>)
      modifies this`callbacks
      ensures (fired, callbacks) == Fire(e, old(callbacks))
    {
      ghost var list := callbacks.Get(e);
      fired := [];
      if |callbacks.Get(e)| == 0 {
        assert Keep(list) == list;
        ListsExtensional(callbacks, callbacks.Set(e, list));
        return;
      }
      var i := |callbacks.Get(e)|;
      assert list[..i] + Keep(list[i..]) == list;
      ListsExtensional(callbacks, callbacks.Set(e, list));
      while i > 0
        invariant 0 <= i <= |list|
        invariant callbacks == old(callbacks).Set(e, list[..i] + Keep(list[i..]))
        invariant fired == Invoked(e, list[i..])
      {
        i := i - 1;
        ghost var cur := callbacks.Get(e);
        assert list[i..][1..] == list[i + 1..];
        assert list[..i + 1] == list[..i] + [list[i]];
        assert cur == list[..i] + ([list[i]] + Keep(list[i + 1..]));
        assert cur[i] == list[i];
        var listener := callbacks.Get(e)[i];
        fired := fired + [Invocation(e, listener.callback)];
        if listener.isOne {
          assert Keep(list[i..]) == Keep(list[i + 1..]);
          assert cur[..i] + cur[i + 1..] == list[..i] + Keep(list[i + 1..]);
          ghost var before := callbacks;
          callbacks := callbacks.Set(e, callbacks.Get(e)[..i] + callbacks.Get(e)[i + 1..]);
          ListsExtensional(callbacks, old(callbacks).Set(e, list[..i] + Keep(list[i..])));
        } else {
          assert Keep(list[i..]) == [list[i]] + Keep(list[i + 1..]);
        }
      }
      assert list[..0] + Keep(list[0..]) == Keep(list);
    }

    /** Fires the listener lists the change of flags calls for, then takes
        the current flags as the snapshot. */
    method TriggerCallbacks() returns (fired: seq<Invocation>)
      modifies this
      ensures (fired, State()) == Triggered(old(State()))
    {
      ghost var start := callbacks;
      var was, now := Previous(), Current();
      fired := FireChanges(was, now);
      RunRulesFollowsPlan(was, now, start);
      TakeSnapshot();
    }

    /** The tests of `triggerCallbacks` on the snapshot `was` and the
        current flags `now`, each firing its category's list as soon as it
        passes. */
    method FireChanges(was: Flags, now: Flags) returns (fired: seq<Invocation>)
      modifies this`callbacks
      ensures (fired, callbacks) == RunRules(was, now, old(callbacks))
    {
      ghost var start := callbacks;
      ghost var jumped := Jumped(was, now);
      ghost var skippedFully := jumped && !was.fullyInViewport && !now.fullyInViewport;
      ghost var skippedIn := jumped && !was.inViewport && !now.inViewport;
      // what has been fired so far, and the lists it left
      ghost var acc: (seq<Invocation>, Lists) := ([], start);
      fired := [];
      var f;
      if now.inViewport && !was.inViewport {
        f := TriggerCallbackArray(EnterViewport);
        fired := fired + f;
      }
      acc := FireIf(now.inViewport && !was.inViewport, EnterViewport, acc);
      assert (fired, callbacks) == acc;
      if now.fullyInViewport && !was.fullyInViewport {
        f := TriggerCallbackArray(FullyEnterViewport);
        fired := fired + f;
      }
      acc := FireIf(now.fullyInViewport && !was.fullyInViewport, FullyEnterViewport, acc);
      assert (fired, callbacks) == acc;
      if now.aboveViewport != was.aboveViewport && now.belowViewport != was.belowViewport {
        f := TriggerCallbackArray(VisibilityChange);
        fired := fired + f;
        acc := FireIf(jumped, VisibilityChange, acc);
        // the target skipped completely past the viewport
        if !was.fullyInViewport && !now.fullyInViewport {
          f := TriggerCallbackArray(FullyEnterViewport);
          fired := fired + f;
          f := TriggerCallbackArray(PartiallyExitViewport);
          fired := fired + f;
        }
        acc := FireIf(skippedFully, PartiallyExitViewport, FireIf(skippedFully, FullyEnterViewport, acc));
        assert (fired, callbacks) == acc;
        if !was.inViewport && !now.inViewport {
          f := TriggerCallbackArray(EnterViewport);
          fired := fired + f;
          f := TriggerCallbackArray(ExitViewport);
          fired := fired + f;
        }
        acc := FireIf(skippedIn, ExitViewport, FireIf(skippedIn, EnterViewport, acc));
      } else {
        acc := FireIf(jumped, VisibilityChange, acc);
        acc := FireIf(skippedFully, PartiallyExitViewport, FireIf(skippedFully, FullyEnterViewport, acc));
        acc := FireIf(skippedIn, ExitViewport, FireIf(skippedIn, EnterViewport, acc));
      }
      assert (fired, callbacks) == acc;
      if !now.fullyInViewport && was.fullyInViewport {
        f := TriggerCallbackArray(PartiallyExitViewport);
        fired := fired + f;
      }
      acc := FireIf(!now.fullyInViewport && was.fullyInViewport, PartiallyExitViewport, acc);
      assert (fired, callbacks) == acc;
      if !now.inViewport && was.inViewport {
        f := TriggerCallbackArray(ExitViewport);
        fired := fired + f;
      }
      acc := FireIf(!now.inViewport && was.inViewport, ExitViewport, acc);
      assert (fired, callbacks) == acc;
      if now.inViewport != was.inViewport {
        f := TriggerCallbackArray(VisibilityChange);
        fired := fired + f;
      }
      acc := FireIf(now.inViewport != was.inViewport, VisibilityChange, acc);
      assert (fired, callbacks) == acc;
      if was.inViewport != now.inViewport || was.fullyInViewport != now.fullyInViewport ||
         was.aboveViewport != now.aboveViewport || was.belowViewport != now.belowViewport {
        f := TriggerCallbackArray(StateChange);
        fired := fired + f;
      }
      acc := FireIf(was != now, StateChange, acc);
    }

    /** Recomputes the location from the target, unless locked; calls the
        `locationChange` listeners when a bound moved. */
    method RecalculateLocation(layout: Layout) returns (fired: seq<Invocation>)
      modifies this
      ensures (fired, State()) == Relocated(old(State()), root.viewportTop, root.documentHeight, layout)
    {
      fired := [];
      if locked {
        return;
      }
      var previousTop, previousBottom := top, bottom;
      var newTop, newBottom;
      match target {
        case Element(id) =>
          var rect := layout(id);
          newTop := rect.top + root.viewportTop;
          newBottom := rect.bottom + root.viewportTop;
        case Number(n) =>
          if n > 0 {
            newTop, newBottom := n, n;
          } else {
            newTop := root.documentHeight - n;
            newBottom := newTop;
          }
        case Region(id) =>
          var fields := layout(id);
          newTop, newBottom := fields.top, fields.bottom;
      }
      newTop := newTop - offsets.top;
      newBottom := newBottom + offsets.bottom;
      ghost var loc := Locate(target, offsets, root.viewportTop, root.documentHeight, layout);
      assert newTop == loc.top && newBottom == loc.bottom;
      top, bottom, height := newTop, newBottom, newBottom - newTop;
      ghost var located := State();
      assert located == old(State()).(top := loc.top, bottom := loc.bottom, height := loc.height);
      if top != previousTop || bottom != previousBottom {
        fired := TriggerCallbackArray(LocationChange);
      }
    }

    /** Registers `callback` for the category named `event`, calling it at
        once if the category's condition already holds. */
    method On(event: string, callback: CallbackId, isOne: bool) returns (r: Result<seq<Invocation>, Error>)
      modifies this
      ensures match Registered(old(State()), event, callback, isOne)
              case Ok(res) => r == Ok(res.0) && State() == res.1
              case Err(error) => r == Err(error) && State() == old(State())
    {
      var fired := [];
      var category := ParseEvent(event);
      if category.Some? && Immediate(category.value, Current()) {
        fired := [Invocation(category.value, callback)];
        if isOne {
          return Ok(fired);
        }
      }
      if category.Some? {
        var e := category.value;
        callbacks := callbacks.Set(e, callbacks.Get(e) + [Listener(callback, isOne)]);
        r := Ok(fired);
      } else {
        r := Err(UnknownEventCategory(event));
      }
    }

    /** `on` for a listener that is dropped after its first call. */
    method One(event: string, callback: CallbackId) returns (r: Result<seq<Invocation>, Error>)
      modifies this
      ensures match Registered(old(State()), event, callback, true)
              case Ok(res) => r == Ok(res.0) && State() == res.1
              case Err(error) => r == Err(error) && State() == old(State())
    {
      r := On(event, callback, true);
    }

    /** Removes the first entry of the category named `event` whose
        callback is `callback`. */
    method Off(event: string, callback: CallbackId) returns (r: Result<(), Error>)
      modifies this
      ensures match Unregistered(old(State()), event, callback)
              case Ok(s) => r == Ok(()) && State() == s
              case Err(error) => r == Err(error) && State() == old(State())
    {
      var category := ParseEvent(event);
      if category.None? {
        return Err(UnknownEventCategory(event));
      }
      var e := category.value;
      var list := callbacks.Get(e);
      var i := 0;
      while i < |list| && list[i].callback != callback
        invariant 0 <= i <= |list|
        invariant forall j :: 0 <= j < i ==> list[j].callback != callback
      {
        i := i + 1;
      }
      if i < |list| {
        RemoveFirstAt(list, callback, i);
        callbacks := callbacks.Set(e, list[..i] + list[i + 1..]);
      } else {
        RemoveFirstAbsent(list, callback);
        ListsExtensional(callbacks, callbacks.Set(e, RemoveFirst(list, callback)));
      }
      r := Ok(());
    }

    /** Takes a fresh height measurement of the element (its offset height). */
    method RecalculateSize(offsetHeight: int)
      modifies this
      ensures State() == Resized(old(State()), offsetHeight)
    {
      height := offsetHeight + offsets.top + offsets.bottom;
      bottom := top + height;
    }

    /** Recomputes the four flags against the root's window. */
    method Update()
      modifies this
      ensures State() == Updated(old(State()), root.viewportTop, root.viewportBottom)
    {
      isAboveViewport := top < root.viewportTop;
      isBelowViewport := bottom > root.viewportBottom;
      isInViewport := top <= root.viewportBottom && bottom >= root.viewportTop;
      isFullyInViewport := (top >= root.viewportTop && bottom <= root.viewportBottom) ||
                           (isAboveViewport && isBelowViewport);
    }

    /** Leaves the root's watcher list (at the position `indexOf` reports)
        and empties every listener list. */
    method Destroy()
      requires root.Valid()
      modifies this, root
      ensures root.Valid()
      ensures root.watchers == SpliceOne(old(root.watchers), IndexOf(old(root.watchers), this))
      ensures State() == old(State()).(callbacks := EmptyLists())
      ensures root.viewportTop == old(root.viewportTop) && root.viewportBottom == old(root.viewportBottom)
      ensures root.viewportHeight == old(root.viewportHeight) && root.documentHeight == old(root.documentHeight)
      ensures root.previousDocumentHeight == old(root.previousDocumentHeight)
    {
      var index := IndexOf(root.watchers, this);
      SpliceOneKeepsDistinct(root.watchers, index);
      root.watchers := SpliceOne(root.watchers, index);
      callbacks := EmptyLists();
    }

    /** Freezes the location: later recalculations leave it as it is. */
    method Lock()
      modifies this
      ensures State() == old(State()).(locked := true)
    {
      locked := true;
    }

    method Unlock()
      modifies this
      ensures State() == old(State()).(locked := false)
    {
      locked := false;
    }
  }

  /** The states of a sequence of watchers. */
  function StatesOf(ws: seq<Watcher>): (r: seq<WatcherState>)
    reads ws
    ensures |r| == |ws|
    ensures forall i :: 0 <= i < |ws| ==> r[i] == ws[i].State()
  {
    if ws == [] then [] else [ws[0].State()] + StatesOf(ws[1..])
  }

  /** When no watcher changed, their states did not change. */
  twostate lemma StatesOfUnchanged(ws: seq<Watcher>)
    requires forall j :: 0 <= j < |ws| ==> unchanged(ws[j])
    ensures StatesOf(ws) == old(StatesOf(ws))
  {
  }

  /** The states of a list with one more watcher at its end. */
  lemma StatesOfAppend(ws: seq<Watcher>, w: Watcher)
    ensures StatesOf(ws + [w]) == StatesOf(ws) + [w.State()]
  {
  }

  /** A root's watcher list: distinct watchers, each of that root. */
  ghost predicate WatchersOf(root: Root, ws: seq<Watcher>) {
    (forall i :: 0 <= i < |ws| ==> ws[i].root == root && ws[i] as object != root) &&
    (forall i, j :: 0 <= i < j < |ws| ==> ws[i] != ws[j])
  }

  /** A new watcher of the root may join its list. */
  lemma WatchersOfAppend(root: Root, ws: seq<Watcher>, w: Watcher)
    requires WatchersOf(root, ws) && w.root == root && w as object != root && w !in ws
    ensures WatchersOf(root, ws + [w])
  {
  }

  /** Removing one element keeps the others distinct and in the list. */
  lemma SpliceOneKeepsDistinct<T>(s: seq<T>, start: int)
    requires forall i, j :: 0 <= i < j < |s| ==> s[i] != s[j]
    ensures var r := SpliceOne(s, start);
            (forall i, j :: 0 <= i < j < |r| ==> r[i] != r[j]) && (forall x :: x in r ==> x in s)
  {
    var r := SpliceOne(s, start);
    var k := if start < 0 then (if |s| + start < 0 then 0 else |s| + start)
             else (if start > |s| then |s| else start);
    if k < |s| {
      assert r == s[..k] + s[k + 1..];
      forall i, j | 0 <= i < j < |r| ensures r[i] != r[j] {
        var i' := if i < k then i else i + 1;
        var j' := if j < k then j else j + 1;
        assert r[i] == s[i'] && r[j] == s[j'];
      }
    }
  }

  class Root {
    var viewportTop: int
    var viewportBottom: int
    var viewportHeight: int
    var documentHeight: int
    var previousDocumentHeight: int
    var watchers: seq<Watcher>

    ghost predicate Valid()
      reads this, watchers
    {
      viewportBottom == viewportTop + viewportHeight && WatchersOf(this, watchers)
    }

    function View(): RootView
      reads this, watchers
    {
      RootView(viewportTop, viewportBottom, viewportHeight, documentHeight, previousDocumentHeight,
               StatesOf(watchers))
    }

    /** A root over a container of the given height, with its first
        viewport computation (over no watchers yet) done. */
    constructor (viewportHeight: int, scrollTop: int, documentHeight: int)
      ensures Valid()
      ensures watchers == []
      ensures this.viewportHeight == viewportHeight
      ensures viewportTop == scrollTop && viewportBottom == scrollTop + viewportHeight
      ensures this.documentHeight == documentHeight && previousDocumentHeight == documentHeight
    {
      this.viewportHeight := viewportHeight;
      watchers := [];
      viewportTop := scrollTop;
      viewportBottom := scrollTop + viewportHeight;
      this.documentHeight := documentHeight;
      previousDocumentHeight := documentHeight;
    }

    /** Sets the viewport window from the scroll offset and, when the
        document height changed, relocates every watcher. */
    method CalculateViewport(scrollTop: int, documentHeight: int, layout: Layout) returns (fired: seq<Invocation>)
      requires Valid()
      modifies this`viewportTop, this`viewportBottom, this`documentHeight, this`previousDocumentHeight, watchers
      ensures Valid()
      ensures viewportTop == scrollTop && this.documentHeight == documentHeight
      ensures previousDocumentHeight == documentHeight
      ensures documentHeight != old(previousDocumentHeight) ==>
                (fired, StatesOf(watchers)) == RelocateAll(old(StatesOf(watchers)), scrollTop, documentHeight, layout)
      ensures documentHeight == old(previousDocumentHeight) ==>
                fired == [] && StatesOf(watchers) == old(StatesOf(watchers))
    {
      ghost var ws := StatesOf(watchers);
      viewportTop := scrollTop;
      viewportBottom := viewportTop + viewportHeight;
      this.documentHeight := documentHeight;
      assert StatesOf(watchers) == ws;
      fired := [];
      if documentHeight != previousDocumentHeight {
        fired := RecalculateLocationsOfWatchers(layout);
        ghost var relocated := StatesOf(watchers);
        previousDocumentHeight := documentHeight;
        assert StatesOf(watchers) == relocated;
      }
    }

    /** The loop of `calculateViewport`: every watcher relocated, the last
        one first. */
    method RecalculateLocationsOfWatchers(layout: Layout) returns (fired: seq<Invocation>)
      requires WatchersOf(this, watchers)
      modifies watchers
      ensures WatchersOf(this, watchers)
      ensures (fired, StatesOf(watchers)) == RelocateAll(old(StatesOf(watchers)), viewportTop, documentHeight, layout)
    {
      ghost var ws := StatesOf(watchers);
      fired := [];
      var i := |watchers|;
      assert ws[..i] + RelocateAll(ws[i..], viewportTop, documentHeight, layout).1 == ws;
      while i > 0
        invariant 0 <= i <= |watchers|
        invariant WatchersOf(this, watchers)
        invariant StatesOf(watchers) == ws[..i] + RelocateAll(ws[i..], viewportTop, documentHeight, layout).1
        invariant fired == RelocateAll(ws[i..], viewportTop, documentHeight, layout).0
      {
        i := i - 1;
        RelocateAllStep(ws, i, viewportTop, documentHeight, layout);
        var f := RecalculateLocationOfWatcher(i, layout);
        fired := fired + f;
      }
      assert ws[..0] + RelocateAll(ws[0..], viewportTop, documentHeight, layout).1
          == RelocateAll(ws, viewportTop, documentHeight, layout).1;
    }

    /** The body of that loop: watcher `i` relocated, the others left as
        they are. */
    method RecalculateLocationOfWatcher(i: nat, layout: Layout) returns (fired: seq<Invocation>)
      requires WatchersOf(this, watchers) && i < |watchers|
      modifies watchers[i]
      ensures fired == Relocated(old(StatesOf(watchers))[i], viewportTop, documentHeight, layout).0
      ensures StatesOf(watchers)
           == old(StatesOf(watchers))[i := Relocated(old(StatesOf(watchers))[i], viewportTop, documentHeight, layout).1]
    {
      fired := watchers[i].RecalculateLocation(layout);
    }

    /** Updates every watcher, then dispatches every watcher; both passes
        go from the last watcher to the first. */
    method UpdateAndTriggerWatchers() returns (fired: seq<Invocation>)
      requires Valid()
      modifies watchers
      ensures Valid()
      ensures (fired, View()) == DispatchStep(old(View()))
    {
      UpdateWatchers();
      fired := TriggerWatchers();
    }

    /** The first loop of `updateAndTriggerWatchers`. */
    method UpdateWatchers()
      requires WatchersOf(this, watchers)
      modifies watchers
      ensures WatchersOf(this, watchers)
      ensures StatesOf(watchers) == UpdateAll(old(StatesOf(watchers)), viewportTop, viewportBottom)
    {
      ghost var ws := StatesOf(watchers);
      var i := |watchers|;
      assert ws[..i] + UpdateAll(ws[i..], viewportTop, viewportBottom) == ws;
      while i > 0
        invariant 0 <= i <= |watchers|
        invariant WatchersOf(this, watchers)
        invariant StatesOf(watchers) == ws[..i] + UpdateAll(ws[i..], viewportTop, viewportBottom)
      {
        i := i - 1;
        UpdateAllStep(ws, i, viewportTop, viewportBottom);
        UpdateWatcher(i);
      }
      assert ws[..0] + UpdateAll(ws[0..], viewportTop, viewportBottom) == UpdateAll(ws, viewportTop, viewportBottom);
    }

    /** The body of that loop: watcher `i` updated, the others left as
        they are. */
    method UpdateWatcher(i: nat)
      requires WatchersOf(this, watchers) && i < |watchers|
      modifies watchers[i]
      ensures StatesOf(watchers)
           == old(StatesOf(watchers))[i := Updated(old(StatesOf(watchers))[i], viewportTop, viewportBottom)]
    {
      watchers[i].Update();
    }

    /** The second loop of `updateAndTriggerWatchers`. */
    method TriggerWatchers() returns (fired: seq<Invocation>)
      requires WatchersOf(this, watchers)
      modifies watchers
      ensures WatchersOf(this, watchers)
      ensures (fired, StatesOf(watchers)) == TriggerAll(old(StatesOf(watchers)))
    {
      ghost var ws := StatesOf(watchers);
      fired := [];
      var i := |watchers|;
      assert ws[..i] + TriggerAll(ws[i..]).1 == ws;
      while i > 0
        invariant 0 <= i <= |watchers|
        invariant WatchersOf(this, watchers)
        invariant StatesOf(watchers) == ws[..i] + TriggerAll(ws[i..]).1
        invariant fired == TriggerAll(ws[i..]).0
      {
        i := i - 1;
        TriggerAllStep(ws, i);
        var f := TriggerWatcher(i);
        fired := fired + f;
      }
      assert ws[..0] + TriggerAll(ws[0..]).1 == TriggerAll(ws).1;
    }

    /** The body of that loop: watcher `i` dispatched, the others left as
        they are. */
    method TriggerWatcher(i: nat) returns (fired: seq<Invocation>)
      requires WatchersOf(this, watchers) && i < |watchers|
      modifies watchers[i]
      ensures fired == Triggered(old(StatesOf(watchers))[i]).0
      ensures StatesOf(watchers) == old(StatesOf(watchers))[i := Triggered(old(StatesOf(watchers))[i]).1]
    {
      fired := watchers[i].TriggerCallbacks();
    }

    /** One cycle: the viewport computation, then the update and dispatch. */
    method Update(scrollTop: int, documentHeight: int, layout: Layout) returns (fired: seq<Invocation>)
      requires Valid()
      modifies this, watchers
      ensures Valid() && watchers == old(watchers)
      ensures (fired, View()) == CycleStep(old(View()), scrollTop, documentHeight, layout)
    {
      ghost var rv := View();
      var f1 := CalculateViewport(scrollTop, documentHeight, layout);
      ghost var afterViewport := View();
      ViewportStepByParts(rv, scrollTop, documentHeight, layout, f1, afterViewport);
      var f2 := UpdateAndTriggerWatchers();
      fired := f1 + f2;
    }

    /** Sets the document height to 0 and runs a cycle; the cycle measures
        the height again before comparing it, so this is a plain cycle. */
    method RecalculateLocations(scrollTop: int, documentHeight: int, layout: Layout) returns (fired: seq<Invocation>)
      requires Valid()
      modifies this, watchers
      ensures Valid() && watchers == old(watchers)
      ensures (fired, View()) == CycleStep(old(View()), scrollTop, documentHeight, layout)
    {
      ghost var rv := View();
      this.documentHeight := 0;
      assert View() == rv.(documentHeight := 0);
      fired := Update(scrollTop, documentHeight, layout);
      CycleIgnoresDocumentHeight(rv, 0, scrollTop, documentHeight, layout);
    }

    /** Creates a watcher for an already resolved target, registers it
        last and updates it once more. */
    method Create(target: Target, arg: OffsetsArg, layout: Layout) returns (w: Watcher)
      requires Valid()
      modifies this`watchers
      ensures Valid() && fresh(w) && w.root == this
      ensures watchers == old(watchers) + [w]
      ensures StatesOf(watchers) == old(StatesOf(watchers)) + [w.State()]
      ensures w.State() == InitialState(target, arg, viewportTop, viewportBottom, documentHeight, layout)
    {
      ghost var before := watchers;
      w := new Watcher(this, target, arg, layout);
      ghost var initial := w.State();
      watchers := watchers + [w];
      CreationFiresNothing(target, arg, viewportTop, viewportBottom, documentHeight, layout);
      w.Update();
      assert w.State() == initial;
      WatchersOfAppend(this, before, w);
      StatesOfUnchanged(before);
      StatesOfAppend(before, w);
    }
  }
}
