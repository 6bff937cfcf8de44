/** The state of one watcher and of a root as values, and what each
    operation of scrollMonitor's watchers and roots does to them. The classes in `ScrollMonitor`
    are proved to follow these functions. */
module States {
  import opened Wrappers
  import opened Events
  import opened Listeners
  import opened Geometry
  import opened Dispatch

  /** Everything a watcher holds: its target and offsets, its location,
      the current flags and the snapshot taken at its last dispatch, its
      listener lists and whether its location is locked. */
  datatype WatcherState = WatcherState(
    target: Target,
    offsets: Offsets,
    top: int,
    bottom: int,
    height: int,
    current: Flags,
    previous: Flags,
    callbacks: Lists,
    locked: bool)

  ghost predicate WellFormed(s: WatcherState) {
    s.height == s.bottom - s.top
  }

  datatype Error = UnknownEventCategory(name: string)

  /** A new watcher: offsets normalised, location computed, flags computed
      and copied into the snapshot, all lists empty, unlocked. */
  function InitialState(target: Target, arg: OffsetsArg, viewportTop: int, viewportBottom: int,
                        documentHeight: int, layout: Layout): (s: WatcherState)
    ensures WellFormed(s)
    ensures s.previous == s.current && !s.locked
  {
    var offsets := NormaliseOffsets(arg);
    var loc := Locate(target, offsets, viewportTop, documentHeight, layout);
    var flags := ComputeFlags(loc.top, loc.bottom, viewportTop, viewportBottom);
    WatcherState(target, offsets, loc.top, loc.bottom, loc.height, flags, flags, EmptyLists(), false)
  }

  /** `update`: the flags recomputed from the location and the viewport. */
  function Updated(s: WatcherState, viewportTop: int, viewportBottom: int): (r: WatcherState)
    ensures r.(current := s.current) == s
    ensures WellFormed(s) ==> WellFormed(r)
  {
    s.(current := ComputeFlags(s.top, s.bottom, viewportTop, viewportBottom))
  }

  /** `recalculateLocation`: nothing when locked; otherwise the new
      location, and the `locationChange` list fired when a bound moved. */
  function Relocated(s: WatcherState, viewportTop: int, documentHeight: int, layout: Layout)
    : (r: (seq<Invocation>, WatcherState))
    ensures WellFormed(s) ==> WellFormed(r.1)
    ensures r.1.current == s.current && r.1.previous == s.previous && r.1.locked == s.locked
    ensures r.1.target == s.target && r.1.offsets == s.offsets
  {
    if s.locked then ([], s)
    else
      var loc := Locate(s.target, s.offsets, viewportTop, documentHeight, layout);
      var moved := loc.top != s.top || loc.bottom != s.bottom;
      var located := s.(top := loc.top, bottom := loc.bottom, height := loc.height);
      if moved then
        var fired := Fire(LocationChange, s.callbacks);
        (fired.0, located.(callbacks := fired.1))
      else ([], located)
  }

  /** `triggerCallbacks`: the plan for the snapshot and the current flags
      run over the lists, then the snapshot taken. */
  function Triggered(s: WatcherState): (r: (seq<Invocation>, WatcherState))
    ensures WellFormed(s) ==> WellFormed(r.1)
    ensures r.1.previous == r.1.current == s.current
  {
    var run := RunPlan(Plan(s.previous, s.current), s.callbacks);
    (run.0, s.(callbacks := run.1, previous := s.current))
  }

  /** `on`: an unknown category is an error and changes nothing; otherwise
      the callback is called at once when the category's condition holds,
      and appended to the category's list unless it was a one-shot
      listener that has just been called. */
  function Registered(s: WatcherState, name: string, cb: CallbackId, isOne: bool)
    : (r: Result<(seq<Invocation>, WatcherState), Error>)
    ensures r.Err? <==> ParseEvent(name).None?
    ensures r.Ok? ==> |r.value.0| <= 1 && r.value.1.(callbacks := s.callbacks) == s
    ensures r.Ok? ==> forall d: EventType :: d != ParseEvent(name).value ==>
                        r.value.1.callbacks.Get(d) == s.callbacks.Get(d)
  {
    match ParseEvent(name)
    case None => Err(UnknownEventCategory(name))
    case Some(e) =>
      var now := Immediate(e, s.current);
      var fired := if now then [Invocation(e, cb)] else [];
      if now && isOne then Ok((fired, s))
      else Ok((fired, s.(callbacks := s.callbacks.Set(e, s.callbacks.Get(e) + [Listener(cb, isOne)]))))
  }

  /** `off`: an unknown category is an error; otherwise the first entry
      with that callback leaves the category's list. */
  function Unregistered(s: WatcherState, name: string, cb: CallbackId): (r: Result<WatcherState, Error>)
    ensures r.Err? <==> ParseEvent(name).None?
    ensures r.Ok? ==> r.value.(callbacks := s.callbacks) == s
    ensures r.Ok? ==> forall d: EventType :: d != ParseEvent(name).value ==>
                        r.value.callbacks.Get(d) == s.callbacks.Get(d)
  {
    match ParseEvent(name)
    case None => Err(UnknownEventCategory(name))
    case Some(e) => Ok(s.(callbacks := s.callbacks.Set(e, RemoveFirst(s.callbacks.Get(e), cb))))
  }

  /** `recalculateSize`: the height taken from a fresh measurement of the
      element plus both offsets, and the bottom moved to match. The lock is
      not consulted. */
  function Resized(s: WatcherState, offsetHeight: int): (r: WatcherState)
    ensures WellFormed(s) ==> WellFormed(r)
    ensures r.top == s.top && r.bottom - r.top == offsetHeight + s.offsets.top + s.offsets.bottom
  {
    var height := offsetHeight + s.offsets.top + s.offsets.bottom;
    s.(height := height, bottom := s.top + height)
  }

  /** A locked watcher keeps its location and lists however the document
      or the layout change. */
  lemma LockedKeepsLocation(s: WatcherState, viewportTop: int, documentHeight: int, layout: Layout)
    requires s.locked
    ensures Relocated(s, viewportTop, documentHeight, layout) == ([], s)
  {
  }

  /** An unlocked watcher takes the computed location, and its
      `locationChange` listeners are called exactly when a bound moved. */
  lemma RelocatedLocation(s: WatcherState, viewportTop: int, documentHeight: int, layout: Layout)
    requires !s.locked
    ensures var loc := Locate(s.target, s.offsets, viewportTop, documentHeight, layout);
            var r := Relocated(s, viewportTop, documentHeight, layout);
            r.1.top == loc.top && r.1.bottom == loc.bottom && r.1.height == loc.height &&
            r.0 == (if loc.top != s.top || loc.bottom != s.bottom
                    then Invoked(LocationChange, s.callbacks.Get(LocationChange)) else [])
  {
  }

  /** A watcher on a non-positive number, placed for one document height,
      moves when the document height changes, and its `locationChange`
      listeners are called. */
  lemma AnchoredTargetMovesWithDocument(s: WatcherState, n: int, viewportTop: int, h1: int, h2: int, layout: Layout)
    requires !s.locked && s.target == Number(n) && n <= 0
    requires s.top == Locate(s.target, s.offsets, viewportTop, h1, layout).top
    requires h1 != h2
    ensures Relocated(s, viewportTop, h2, layout).0 == Invoked(LocationChange, s.callbacks.Get(LocationChange))
    ensures Relocated(s, viewportTop, h2, layout).1.top == s.top + (h2 - h1)
  {
    NumberTargetFollowsDocumentHeight(n, s.offsets, viewportTop, h1, h2, layout);
  }

  /** A watcher on a region object whose fields have changed since its last
      relocation moves to the new fields, and its `locationChange`
      listeners are called. */
  lemma RegionObjectMoved(s: WatcherState, id: ObjectId, viewportTop: int, documentHeight: int, layout: Layout)
    requires !s.locked && s.target == Region(id)
    requires layout(id) != Rect(s.top + s.offsets.top, s.bottom - s.offsets.bottom)
    ensures Relocated(s, viewportTop, documentHeight, layout).0 == Invoked(LocationChange, s.callbacks.Get(LocationChange))
    ensures Relocated(s, viewportTop, documentHeight, layout).1.top == layout(id).top - s.offsets.top
    ensures Relocated(s, viewportTop, documentHeight, layout).1.bottom == layout(id).bottom + s.offsets.bottom
  {
  }

  /** Dispatching again without a change of flags calls nothing and
      changes nothing. */
  lemma TriggeredTwiceFiresNothing(s: WatcherState)
    ensures Triggered(Triggered(s).1) == ([], Triggered(s).1)
  {
    var t := Triggered(s).1;
    PlanEmptyIffUnchanged(t.previous, t.current);
  }

  /** The constructor's steps from a blank watcher: locating it (the
      `locationChange` list is still empty, so that fires nothing),
      computing its flags and taking them as the snapshot give the
      initial state. */
  lemma InitialStateInSteps(s: WatcherState, arg: OffsetsArg, viewportTop: int, viewportBottom: int,
                            documentHeight: int, layout: Layout)
    requires s.offsets == NormaliseOffsets(arg) && s.callbacks == EmptyLists() && !s.locked
    ensures var located := Relocated(s, viewportTop, documentHeight, layout);
            var updated := Updated(located.1, viewportTop, viewportBottom);
            located.0 == [] &&
            updated.(previous := updated.current)
              == InitialState(s.target, arg, viewportTop, viewportBottom, documentHeight, layout)
  {
    ListsExtensional(EmptyLists(), EmptyLists().Set(LocationChange, Keep([])));
  }

  /** A new watcher dispatches nothing until something changes: its
      snapshot is taken from its first flags, and `create`'s extra update
      recomputes the same flags. */
  lemma CreationFiresNothing(target: Target, arg: OffsetsArg, viewportTop: int, viewportBottom: int,
                             documentHeight: int, layout: Layout)
    ensures var s := InitialState(target, arg, viewportTop, viewportBottom, documentHeight, layout);
            Updated(s, viewportTop, viewportBottom) == s && Triggered(s) == ([], s)
  {
    var s := InitialState(target, arg, viewportTop, viewportBottom, documentHeight, layout);
    PlanEmptyIffUnchanged(s.previous, s.current);
  }

  /** `on` then `off` of a callback that was not registered for the
      category restores the lists, unless it was a one-shot listener
      called at once (then nothing was registered in the first place). */
  lemma RegisterThenUnregister(s: WatcherState, e: EventType, cb: CallbackId, isOne: bool)
    requires forall j :: 0 <= j < |s.callbacks.Get(e)| ==> s.callbacks.Get(e)[j].callback != cb
    ensures Registered(s, EventName(e), cb, isOne).Ok?
    ensures var t := Registered(s, EventName(e), cb, isOne).value.1;
            Unregistered(t, EventName(e), cb).Ok? &&
            Unregistered(t, EventName(e), cb).value.callbacks == s.callbacks
  {
    ParseEventName(e);
    var t := Registered(s, EventName(e), cb, isOne).value.1;
    var u := Unregistered(t, EventName(e), cb).value.callbacks;
    if Immediate(e, s.current) && isOne {
      assert t == s;
      RemoveFirstAbsent(s.callbacks.Get(e), cb);
    } else {
      var list := s.callbacks.Get(e) + [Listener(cb, isOne)];
      assert t.callbacks == s.callbacks.Set(e, list);
      RemoveFirstAt(list, cb, |s.callbacks.Get(e)|);
      assert list[..|s.callbacks.Get(e)|] == s.callbacks.Get(e);
      assert list[|s.callbacks.Get(e)| + 1..] == [];
      assert RemoveFirst(list, cb) == s.callbacks.Get(e);
    }
    ListsExtensional(u, s.callbacks);
  }

  /** `on` with a name outside the seven raises the error and changes nothing. */
  lemma RegisterUnknown(s: WatcherState, name: string, cb: CallbackId, isOne: bool)
    requires forall e: EventType :: EventName(e) != name
    ensures Registered(s, name, cb, isOne) == Err(UnknownEventCategory(name))
    ensures Unregistered(s, name, cb) == Err(UnknownEventCategory(name))
  {
  }

  /** A one-shot listener registered while its condition holds is called
      once and not kept; any other registration appends exactly one entry. */
  lemma RegisterImmediate(s: WatcherState, e: EventType, cb: CallbackId, isOne: bool)
    ensures var r := Registered(s, EventName(e), cb, isOne);
            r.Ok? &&
            (Immediate(e, s.current) ==> r.value.0 == [Invocation(e, cb)]) &&
            (!Immediate(e, s.current) ==> r.value.0 == []) &&
            (Immediate(e, s.current) && isOne ==> r.value.1 == s) &&
            (!(Immediate(e, s.current) && isOne) ==>
               r.value.1.callbacks.Get(e) == s.callbacks.Get(e) + [Listener(cb, isOne)])
  {
    ParseEventName(e);
  }

  // ----- the root -----

  /** A root's viewport window, document heights and its watchers in
      registration order. */
  datatype RootView = RootView(
    viewportTop: int,
    viewportBottom: int,
    viewportHeight: int,
    documentHeight: int,
    previousDocumentHeight: int,
    watchers: seq<WatcherState>)

  /** Every watcher relocated, the last one first; the invocations in
      that order. */
  function RelocateAll(ws: seq<WatcherState>, viewportTop: int, documentHeight: int, layout: Layout)
    : (r: (seq<Invocation>, seq<WatcherState>))
    ensures |r.1| == |ws|
    ensures forall i :: 0 <= i < |ws| ==> r.1[i] == Relocated(ws[i], viewportTop, documentHeight, layout).1
  {
    if ws == [] then ([], [])
    else
      var first := Relocated(ws[0], viewportTop, documentHeight, layout);
      var rest := RelocateAll(ws[1..], viewportTop, documentHeight, layout);
      (rest.0 + first.0, [first.1] + rest.1)
  }

  /** Every watcher updated against the same viewport window. */
  function UpdateAll(ws: seq<WatcherState>, viewportTop: int, viewportBottom: int): (r: seq<WatcherState>)
    ensures |r| == |ws|
    ensures forall i :: 0 <= i < |ws| ==> r[i] == Updated(ws[i], viewportTop, viewportBottom)
  {
    seq(|ws|, i requires 0 <= i < |ws| => Updated(ws[i], viewportTop, viewportBottom))
  }

  /** Every watcher dispatched, the last one first; the invocations in that order. */
  function TriggerAll(ws: seq<WatcherState>): (r: (seq<Invocation>, seq<WatcherState>))
    ensures |r.1| == |ws|
    ensures forall i :: 0 <= i < |ws| ==> r.1[i] == Triggered(ws[i]).1
  {
    if ws == [] then ([], [])
    else
      var first := Triggered(ws[0]);
      var rest := TriggerAll(ws[1..]);
      (rest.0 + first.0, [first.1] + rest.1)
  }

  /** Replacing the element between `a` and `b`. */
  lemma ReplaceBetween(a: seq<WatcherState>, y: WatcherState, x: WatcherState, b: seq<WatcherState>)
    ensures (a + [y] + b)[|a|] == y
    ensures (a + [y] + b)[|a| := x] == a + ([x] + b)
  {
  }

  /** One step of a last-first pass: the suffix from `i` is the suffix
      from `i + 1` with watcher `i` relocated in front, its invocations
      after theirs. */
  lemma RelocateAllStep(ws: seq<WatcherState>, i: nat, viewportTop: int, documentHeight: int, layout: Layout)
    requires i < |ws|
    ensures ws[..i] + RelocateAll(ws[i..], viewportTop, documentHeight, layout).1
         == (ws[..i + 1] + RelocateAll(ws[i + 1..], viewportTop, documentHeight, layout).1)
              [i := Relocated(ws[i], viewportTop, documentHeight, layout).1]
    ensures (ws[..i + 1] + RelocateAll(ws[i + 1..], viewportTop, documentHeight, layout).1)[i] == ws[i]
    ensures RelocateAll(ws[i..], viewportTop, documentHeight, layout).0
         == RelocateAll(ws[i + 1..], viewportTop, documentHeight, layout).0
            + Relocated(ws[i], viewportTop, documentHeight, layout).0
  {
    assert ws[i..][0] == ws[i] && ws[i..][1..] == ws[i + 1..];
    assert ws[..i + 1] == ws[..i] + [ws[i]];
    var rest := RelocateAll(ws[i + 1..], viewportTop, documentHeight, layout);
    var first := Relocated(ws[i], viewportTop, documentHeight, layout);
    assert RelocateAll(ws[i..], viewportTop, documentHeight, layout) == (rest.0 + first.0, [first.1] + rest.1);
    ReplaceBetween(ws[..i], ws[i], first.1, rest.1);
  }

  lemma UpdateAllStep(ws: seq<WatcherState>, i: nat, viewportTop: int, viewportBottom: int)
    requires i < |ws|
    ensures ws[..i] + UpdateAll(ws[i..], viewportTop, viewportBottom)
         == (ws[..i + 1] + UpdateAll(ws[i + 1..], viewportTop, viewportBottom))
              [i := Updated(ws[i], viewportTop, viewportBottom)]
    ensures (ws[..i + 1] + UpdateAll(ws[i + 1..], viewportTop, viewportBottom))[i] == ws[i]
  {
    assert ws[..i + 1] == ws[..i] + [ws[i]];
    var rest := UpdateAll(ws[i + 1..], viewportTop, viewportBottom);
    var first := Updated(ws[i], viewportTop, viewportBottom);
    assert UpdateAll(ws[i..], viewportTop, viewportBottom) == [first] + rest;
    ReplaceBetween(ws[..i], ws[i], first, rest);
  }

  lemma TriggerAllStep(ws: seq<WatcherState>, i: nat)
    requires i < |ws|
    ensures ws[..i] + TriggerAll(ws[i..]).1 == (ws[..i + 1] + TriggerAll(ws[i + 1..]).1)[i := Triggered(ws[i]).1]
    ensures (ws[..i + 1] + TriggerAll(ws[i + 1..]).1)[i] == ws[i]
    ensures TriggerAll(ws[i..]).0 == TriggerAll(ws[i + 1..]).0 + Triggered(ws[i]).0
  {
    assert ws[i..][0] == ws[i] && ws[i..][1..] == ws[i + 1..];
    assert ws[..i + 1] == ws[..i] + [ws[i]];
    var rest := TriggerAll(ws[i + 1..]);
    var first := Triggered(ws[i]);
    assert TriggerAll(ws[i..]) == (rest.0 + first.0, [first.1] + rest.1);
    ReplaceBetween(ws[..i], ws[i], first.1, rest.1);
  }

  /** The watcher registered last is dispatched first. */
  lemma {:induction false} TriggerAllLastFirst(ws: seq<WatcherState>, w: WatcherState)
    ensures TriggerAll(ws + [w]).0 == Triggered(w).0 + TriggerAll(ws).0
  {
    var all := ws + [w];
    assert forall i :: 0 <= i < |ws| ==> ws[i] == all[i];
    assert w == all[|ws|];
    if ws == [] {
      assert all == [w];
      assert all[1..] == [];
      assert TriggerAll(all).0 == [] + Triggered(w).0;
    } else {
      assert all[0] == ws[0];
      assert all[1..] == ws[1..] + [w];
      TriggerAllLastFirst(ws[1..], w);
      var head := Triggered(ws[0]).0;
      var tail := TriggerAll(ws[1..]).0;
      var last := Triggered(w).0;
      assert TriggerAll(all).0 == TriggerAll(all[1..]).0 + head;
      assert TriggerAll(ws).0 == tail + head;
      AppendAssociative(last, tail, head);
    }
  }

  /** The watcher registered last is relocated first. */
  lemma {:induction false} RelocateAllLastFirst(ws: seq<WatcherState>, w: WatcherState,
                                                viewportTop: int, documentHeight: int, layout: Layout)
    ensures RelocateAll(ws + [w], viewportTop, documentHeight, layout).0
         == Relocated(w, viewportTop, documentHeight, layout).0 + RelocateAll(ws, viewportTop, documentHeight, layout).0
  {
    var all := ws + [w];
    if ws == [] {
      assert all == [w];
      assert all[1..] == [];
      assert RelocateAll(all, viewportTop, documentHeight, layout).0
          == [] + Relocated(w, viewportTop, documentHeight, layout).0;
    } else {
      assert all[0] == ws[0];
      assert all[1..] == ws[1..] + [w];
      RelocateAllLastFirst(ws[1..], w, viewportTop, documentHeight, layout);
      var head := Relocated(ws[0], viewportTop, documentHeight, layout).0;
      var tail := RelocateAll(ws[1..], viewportTop, documentHeight, layout).0;
      var last := Relocated(w, viewportTop, documentHeight, layout).0;
      assert RelocateAll(all, viewportTop, documentHeight, layout).0
          == RelocateAll(all[1..], viewportTop, documentHeight, layout).0 + head;
      assert RelocateAll(ws, viewportTop, documentHeight, layout).0 == tail + head;
      AppendAssociative(last, tail, head);
    }
  }

  /** `calculateViewport`: the window set from the scroll offset, and every
      watcher relocated when the document height differs from the one
      recorded last time, which is then recorded. */
  function ViewportStep(rv: RootView, scrollTop: int, documentHeight: int, layout: Layout)
    : (r: (seq<Invocation>, RootView))
    ensures r.1.viewportBottom == r.1.viewportTop + r.1.viewportHeight
    ensures r.1.previousDocumentHeight == documentHeight
    ensures |r.1.watchers| == |rv.watchers|
  {
    if documentHeight != rv.previousDocumentHeight then
      var relocated := RelocateAll(rv.watchers, scrollTop, documentHeight, layout);
      (relocated.0, RootView(scrollTop, scrollTop + rv.viewportHeight, rv.viewportHeight, documentHeight,
                             documentHeight, relocated.1))
    else
      ([], RootView(scrollTop, scrollTop + rv.viewportHeight, rv.viewportHeight, documentHeight,
                    rv.previousDocumentHeight, rv.watchers))
  }

  /** `updateAndTriggerWatchers`: every watcher updated, then every watcher
      dispatched. */
  function DispatchStep(rv: RootView): (r: (seq<Invocation>, RootView))
    ensures |r.1.watchers| == |rv.watchers|
    ensures r.1.(watchers := rv.watchers) == rv
    ensures forall i :: 0 <= i < |r.1.watchers| ==>
              r.1.watchers[i].previous == r.1.watchers[i].current ==
              ComputeFlags(r.1.watchers[i].top, r.1.watchers[i].bottom, rv.viewportTop, rv.viewportBottom)
  {
    var triggered := TriggerAll(UpdateAll(rv.watchers, rv.viewportTop, rv.viewportBottom));
    (triggered.0, rv.(watchers := triggered.1))
  }

  /** `update`: one full cycle. */
  function CycleStep(rv: RootView, scrollTop: int, documentHeight: int, layout: Layout)
    : (r: (seq<Invocation>, RootView))
    ensures |r.1.watchers| == |rv.watchers|
    ensures r.1.viewportTop == scrollTop && r.1.viewportHeight == rv.viewportHeight
    ensures r.1.documentHeight == documentHeight && r.1.previousDocumentHeight == documentHeight
  {
    var viewport := ViewportStep(rv, scrollTop, documentHeight, layout);
    var dispatch := DispatchStep(viewport.1);
    (viewport.0 + dispatch.0, dispatch.1)
  }

  /** The viewport step told field by field: the window moved to the
      scroll offset, the height recorded, and the watchers relocated
      exactly when the height differs from the one last recorded. */
  lemma ViewportStepByParts(rv: RootView, scrollTop: int, documentHeight: int, layout: Layout,
                            fired: seq<Invocation>, after: RootView)
    requires after.viewportTop == scrollTop && after.viewportHeight == rv.viewportHeight
    requires after.viewportBottom == scrollTop + rv.viewportHeight
    requires after.documentHeight == documentHeight && after.previousDocumentHeight == documentHeight
    requires documentHeight != rv.previousDocumentHeight ==>
               (fired, after.watchers) == RelocateAll(rv.watchers, scrollTop, documentHeight, layout)
    requires documentHeight == rv.previousDocumentHeight ==> fired == [] && after.watchers == rv.watchers
    ensures (fired, after) == ViewportStep(rv, scrollTop, documentHeight, layout)
  {
  }

  /** A cycle measures the document height afresh, so the height the
      root held before it plays no part. */
  lemma CycleIgnoresDocumentHeight(rv: RootView, h: int, scrollTop: int, documentHeight: int, layout: Layout)
    ensures CycleStep(rv.(documentHeight := h), scrollTop, documentHeight, layout)
         == CycleStep(rv, scrollTop, documentHeight, layout)
  {
  }

  /** What a cycle leaves behind: the window consistent, the height
      recorded, and every watcher's flags computed from its location and
      that window, with the snapshot equal to them. */
  ghost predicate Settled(rv: RootView, documentHeight: int) {
    rv.viewportBottom == rv.viewportTop + rv.viewportHeight &&
    rv.previousDocumentHeight == documentHeight &&
    forall i :: 0 <= i < |rv.watchers| ==>
      rv.watchers[i].current == ComputeFlags(rv.watchers[i].top, rv.watchers[i].bottom, rv.viewportTop, rv.viewportBottom) &&
      rv.watchers[i].previous == rv.watchers[i].current
  }

  lemma CycleSettles(rv: RootView, scrollTop: int, documentHeight: int, layout: Layout)
    ensures Settled(CycleStep(rv, scrollTop, documentHeight, layout).1, documentHeight)
  {
    var rv1 := ViewportStep(rv, scrollTop, documentHeight, layout).1;
    var ws := UpdateAll(rv1.watchers, rv1.viewportTop, rv1.viewportBottom);
    var rv2 := CycleStep(rv, scrollTop, documentHeight, layout).1;
    assert rv2.watchers == TriggerAll(ws).1;
    forall i | 0 <= i < |rv2.watchers|
      ensures rv2.watchers[i].current == ComputeFlags(rv2.watchers[i].top, rv2.watchers[i].bottom, rv2.viewportTop, rv2.viewportBottom)
      ensures rv2.watchers[i].previous == rv2.watchers[i].current
    {
      assert rv2.watchers[i] == Triggered(ws[i]).1;
    }
  }

  /** After a settled state, a cycle with the same scroll offset and
      document height calls nothing and changes nothing but the recorded
      document height (already equal). */
  lemma RepeatedCycleFiresNothing(rv: RootView, scrollTop: int, documentHeight: int, layout: Layout)
    requires Settled(rv, documentHeight) && rv.viewportTop == scrollTop && rv.documentHeight == documentHeight
    ensures CycleStep(rv, scrollTop, documentHeight, layout) == ([], rv)
  {
    var viewport := ViewportStep(rv, scrollTop, documentHeight, layout);
    assert viewport == ([], rv);
    var ws := UpdateAll(rv.watchers, rv.viewportTop, rv.viewportBottom);
    assert ws == rv.watchers;
    QuietTriggerAll(ws);
    assert DispatchStep(rv) == ([], rv);
    var fired: seq<Invocation> := [];
    assert fired + fired == fired;
    assert CycleStep(rv, scrollTop, documentHeight, layout) == (fired + fired, rv);
  }

  /** Dispatching watchers whose snapshots equal their flags calls nothing. */
  lemma {:induction false} QuietTriggerAll(ws: seq<WatcherState>)
    requires forall i :: 0 <= i < |ws| ==> ws[i].previous == ws[i].current
    ensures TriggerAll(ws) == ([], ws)
  {
    if ws != [] {
      PlanEmptyIffUnchanged(ws[0].previous, ws[0].current);
      assert Triggered(ws[0]) == ([], ws[0]);
      QuietTriggerAll(ws[1..]);
      assert TriggerAll(ws) == ([] + [], [ws[0]] + ws[1..]);
      assert [ws[0]] + ws[1..] == ws;
    }
  }

  /** Two cycles with the same measurements in a row: the second calls nothing. */
  lemma SecondCycleFiresNothing(rv: RootView, scrollTop: int, documentHeight: int, layout: Layout)
    ensures var rv1 := CycleStep(rv, scrollTop, documentHeight, layout).1;
            CycleStep(rv1, scrollTop, documentHeight, layout) == ([], rv1)
  {
    var rv1 := CycleStep(rv, scrollTop, documentHeight, layout).1;
    CycleSettles(rv, scrollTop, documentHeight, layout);
    RepeatedCycleFiresNothing(rv1, scrollTop, documentHeight, layout);
  }

  // ----- removal from the watcher list -----

  /** `indexOf`: the first position of `x`, or -1. */
  function IndexOf<T(==)>(s: seq<T>, x: T): (i: int)
    ensures -1 <= i < |s|
    ensures i == -1 <==> x !in s
    ensures 0 <= i ==> i < |s| && s[i] == x && x !in s[..i]
  {
    if s == [] then -1
    else if s[0] == x then 0
    else
      var j := IndexOf(s[1..], x);
      assert s == [s[0]] + s[1..];
      assert j >= 0 ==> s[..j + 1] == [s[0]] + s[1..][..j];
      if j == -1 then -1 else j + 1
  }

  /** `splice(start, 1)`: a negative start counts from the end (clamped at
      0), a start past the end removes nothing. */
  function SpliceOne<T>(s: seq<T>, start: int): (r: seq<T>)
    ensures |r| == if s != [] && start < |s| then |s| - 1 else |s|
    ensures forall i :: 0 <= i < |r| ==> r[i] in s
  {
    var k := if start < 0 then (if |s| + start < 0 then 0 else |s| + start)
             else (if start > |s| then |s| else start);
    if k < |s| then s[..k] + s[k + 1..] else s
  }

  /** Destroying a registered watcher removes exactly it; with the
      watchers all distinct it is then gone. */
  lemma DestroyRemovesIt<T>(s: seq<T>, x: T)
    requires x in s
    requires forall i, j :: 0 <= i < j < |s| ==> s[i] != s[j]
    ensures var r := SpliceOne(s, IndexOf(s, x));
            r == s[..IndexOf(s, x)] + s[IndexOf(s, x) + 1..] && x !in r && |r| == |s| - 1
  {
    var k := IndexOf(s, x);
    var r := SpliceOne(s, k);
    assert r == s[..k] + s[k + 1..];
  }

  /** Destroying a watcher that is no longer registered removes the
      watcher registered last: `indexOf` gives -1 and `splice(-1, 1)`
      takes the final element. */
  lemma DestroyAgainRemovesLast<T>(s: seq<T>, x: T)
    requires x !in s
    ensures SpliceOne(s, IndexOf(s, x)) == if s == [] then [] else s[..|s| - 1]
  {
  }
}
