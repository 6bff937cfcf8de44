/** Which listener lists one `triggerCallbacks` call fires, in which order,
    given the flags of the previous call and the current flags; and which
    categories `on` fires at once. */
module Dispatch {
  import opened Events
  import opened Listeners
  import opened Geometry

  /** Both the above and the below flag flipped in one step: the target
      jumped across the whole viewport. */
  predicate Jumped(was: Flags, now: Flags) {
    now.aboveViewport != was.aboveViewport && now.belowViewport != was.belowViewport
  }

  /** The lists `triggerCallbacks` fires, in firing order: the seven rules
      of scrollMonitor's `triggerCallbacks`, each contributing its own segment. A category may
      appear twice: the jump rule adds to the independent rules. */
  function Plan(was: Flags, now: Flags): seq<EventType> {
    EnterRule(was, now) + FullyEnterRule(was, now) + JumpRules(was, now) +
    PartiallyExitRule(was, now) + ExitRule(was, now) + VisibilityRule(was, now) +
    StateRule(was, now)
  }

  function EnterRule(was: Flags, now: Flags): seq<EventType> {
    if now.inViewport && !was.inViewport then [EnterViewport] else []
  }

  function FullyEnterRule(was: Flags, now: Flags): seq<EventType> {
    if now.fullyInViewport && !was.fullyInViewport then [FullyEnterViewport] else []
  }

  /** The "skipped completely past" rule. */
  function JumpRules(was: Flags, now: Flags): seq<EventType> {
    if Jumped(was, now) then
      [VisibilityChange] +
      (if !was.fullyInViewport && !now.fullyInViewport then [FullyEnterViewport, PartiallyExitViewport] else []) +
      (if !was.inViewport && !now.inViewport then [EnterViewport, ExitViewport] else [])
    else []
  }

  function PartiallyExitRule(was: Flags, now: Flags): seq<EventType> {
    if !now.fullyInViewport && was.fullyInViewport then [PartiallyExitViewport] else []
  }

  function ExitRule(was: Flags, now: Flags): seq<EventType> {
    if !now.inViewport && was.inViewport then [ExitViewport] else []
  }

  function VisibilityRule(was: Flags, now: Flags): seq<EventType> {
    if now.inViewport != was.inViewport then [VisibilityChange] else []
  }

  function StateRule(was: Flags, now: Flags): seq<EventType> {
    if was != now then [StateChange] else []
  }

  /** How often `e` occurs in a plan. */
  function Occurrences(plan: seq<EventType>, e: EventType): nat {
    if plan == [] then 0 else (if plan[0] == e then 1 else 0) + Occurrences(plan[1..], e)
  }

  lemma {:induction false} OccurrencesAppend(a: seq<EventType>, b: seq<EventType>, e: EventType)
    ensures Occurrences(a + b, e) == Occurrences(a, e) + Occurrences(b, e)
  {
    if a == [] {
      assert a + b == b;
    } else {
      assert (a + b)[1..] == a[1..] + b;
      OccurrencesAppend(a[1..], b, e);
    }
  }

  /** A category is in a plan exactly when it occurs at least once. */
  lemma {:induction false} OccurrencesPositive(plan: seq<EventType>, e: EventType)
    ensures e in plan <==> Occurrences(plan, e) > 0
  {
    if plan != [] {
      OccurrencesPositive(plan[1..], e);
      assert plan == [plan[0]] + plan[1..];
    }
  }

  /** How often `e` occurs in one of the rule segments (at most two long). */
  function Indicator(seg: seq<EventType>, e: EventType): nat
    requires |seg| <= 2
  {
    (if |seg| > 0 && seg[0] == e then 1 else 0) + (if |seg| > 1 && seg[1] == e then 1 else 0)
  }

  lemma OccurrencesShort(seg: seq<EventType>, e: EventType)
    requires |seg| <= 2
    ensures Occurrences(seg, e) == Indicator(seg, e)
  {
    if seg != [] {
      assert |seg[1..]| <= 1;
      if seg[1..] != [] {
        assert seg[1..][1..] == [];
      }
    }
  }

  /** The occurrences of `e` in a plan, rule by rule. */
  lemma PlanOccurrences(was: Flags, now: Flags, e: EventType)
    ensures Occurrences(Plan(was, now), e) ==
              Indicator(EnterRule(was, now), e) + Indicator(FullyEnterRule(was, now), e) +
              (if Jumped(was, now) && e == VisibilityChange then 1 else 0) +
              (if Jumped(was, now) && !was.fullyInViewport && !now.fullyInViewport then
                 Indicator([FullyEnterViewport, PartiallyExitViewport], e) else 0) +
              (if Jumped(was, now) && !was.inViewport && !now.inViewport then
                 Indicator([EnterViewport, ExitViewport], e) else 0) +
              Indicator(PartiallyExitRule(was, now), e) + Indicator(ExitRule(was, now), e) +
              Indicator(VisibilityRule(was, now), e) + Indicator(StateRule(was, now), e)
  {
    var a, b, c, d := EnterRule(was, now), FullyEnterRule(was, now), JumpRules(was, now), PartiallyExitRule(was, now);
    var x, y, z := ExitRule(was, now), VisibilityRule(was, now), StateRule(was, now);
    OccurrencesOfSeven(a, b, c, d, x, y, z, e);
    OccurrencesShort(a, e);
    OccurrencesShort(b, e);
    OccurrencesShort(d, e);
    OccurrencesShort(x, e);
    OccurrencesShort(y, e);
    OccurrencesShort(z, e);
    JumpOccurrences(was, now, e);
  }

  lemma OccurrencesOfSeven(a: seq<EventType>, b: seq<EventType>, c: seq<EventType>, d: seq<EventType>,
                           x: seq<EventType>, y: seq<EventType>, z: seq<EventType>, e: EventType)
    ensures Occurrences(a + b + c + d + x + y + z, e) ==
              Occurrences(a, e) + Occurrences(b, e) + Occurrences(c, e) + Occurrences(d, e) +
              Occurrences(x, e) + Occurrences(y, e) + Occurrences(z, e)
  {
    OccurrencesAppend(a + b + c + d + x + y, z, e);
    OccurrencesAppend(a + b + c + d + x, y, e);
    OccurrencesAppend(a + b + c + d, x, e);
    OccurrencesAppend(a + b + c, d, e);
    OccurrencesAppend(a + b, c, e);
    OccurrencesAppend(a, b, e);
  }

  lemma JumpOccurrences(was: Flags, now: Flags, e: EventType)
    ensures Occurrences(JumpRules(was, now), e) ==
              (if Jumped(was, now) && e == VisibilityChange then 1 else 0) +
              (if Jumped(was, now) && !was.fullyInViewport && !now.fullyInViewport then
                 Indicator([FullyEnterViewport, PartiallyExitViewport], e) else 0) +
              (if Jumped(was, now) && !was.inViewport && !now.inViewport then
                 Indicator([EnterViewport, ExitViewport], e) else 0)
  {
    if Jumped(was, now) {
      var f: seq<EventType> := if !was.fullyInViewport && !now.fullyInViewport then [FullyEnterViewport, PartiallyExitViewport] else [];
      var g: seq<EventType> := if !was.inViewport && !now.inViewport then [EnterViewport, ExitViewport] else [];
      assert JumpRules(was, now) == [VisibilityChange] + f + g;
      OccurrencesAppend([VisibilityChange] + f, g, e);
      OccurrencesAppend([VisibilityChange], f, e);
      OccurrencesShort([VisibilityChange], e);
      OccurrencesShort(f, e);
      OccurrencesShort(g, e);
    }
  }

  /** A call fires something exactly when some flag changed. */
  lemma PlanEmptyIffUnchanged(was: Flags, now: Flags)
    ensures Plan(was, now) == [] <==> was == now
  {
    if was != now {
      assert Plan(was, now)[|Plan(was, now)| - 1] == StateChange;
    }
  }

  /** `stateChange` fires once when any flag changed, and never otherwise. */
  lemma StateChangeOnce(was: Flags, now: Flags)
    ensures Occurrences(Plan(was, now), StateChange) == if was != now then 1 else 0
  {
    PlanOccurrences(was, now, StateChange);
  }

  /** `enterViewport` fires once more than `exitViewport` on entering, once
      less on leaving, and equally often otherwise (the jump rule fires the
      two as a pair). */
  lemma EnterExitBalance(was: Flags, now: Flags)
    ensures Occurrences(Plan(was, now), EnterViewport) - Occurrences(Plan(was, now), ExitViewport)
         == (if now.inViewport then 1 else 0) - (if was.inViewport then 1 else 0)
  {
    PlanOccurrences(was, now, EnterViewport);
    PlanOccurrences(was, now, ExitViewport);
  }

  /** The same balance between `fullyEnterViewport` and `partiallyExitViewport`. */
  lemma FullyEnterPartiallyExitBalance(was: Flags, now: Flags)
    ensures Occurrences(Plan(was, now), FullyEnterViewport) - Occurrences(Plan(was, now), PartiallyExitViewport)
         == (if now.fullyInViewport then 1 else 0) - (if was.fullyInViewport then 1 else 0)
  {
    PlanOccurrences(was, now, FullyEnterViewport);
    PlanOccurrences(was, now, PartiallyExitViewport);
  }

  /** `enterViewport` fires on a false-to-true change of in-viewport, and
      `exitViewport` on a true-to-false one. */
  lemma EnterAndExitOnTransition(was: Flags, now: Flags)
    ensures !was.inViewport && now.inViewport ==> EnterViewport in Plan(was, now) && ExitViewport !in Plan(was, now)
    ensures was.inViewport && !now.inViewport ==> ExitViewport in Plan(was, now) && EnterViewport !in Plan(was, now)
  {
    PlanOccurrences(was, now, EnterViewport);
    PlanOccurrences(was, now, ExitViewport);
    OccurrencesPositive(Plan(was, now), EnterViewport);
    OccurrencesPositive(Plan(was, now), ExitViewport);
  }

  /** The jump rule: `visibilityChange` fires, once more if in-viewport also
      changed; a target neither fully in before nor after gets one
      `fullyEnterViewport` and one `partiallyExitViewport`; one neither in
      before nor after gets one `enterViewport` and one `exitViewport`. */
  lemma JumpRule(was: Flags, now: Flags)
    requires Jumped(was, now)
    ensures Occurrences(Plan(was, now), VisibilityChange) == if was.inViewport != now.inViewport then 2 else 1
    ensures !was.fullyInViewport && !now.fullyInViewport ==>
              Occurrences(Plan(was, now), FullyEnterViewport) == 1 &&
              Occurrences(Plan(was, now), PartiallyExitViewport) == 1
    ensures !was.inViewport && !now.inViewport ==>
              Occurrences(Plan(was, now), EnterViewport) == 1 &&
              Occurrences(Plan(was, now), ExitViewport) == 1
  {
    PlanOccurrences(was, now, VisibilityChange);
    PlanOccurrences(was, now, FullyEnterViewport);
    PlanOccurrences(was, now, PartiallyExitViewport);
    PlanOccurrences(was, now, EnterViewport);
    PlanOccurrences(was, now, ExitViewport);
  }

  /** Without a jump, `visibilityChange` fires exactly when in-viewport changed. */
  lemma VisibilityChangeWithoutJump(was: Flags, now: Flags)
    requires !Jumped(was, now)
    ensures Occurrences(Plan(was, now), VisibilityChange) == if was.inViewport != now.inViewport then 1 else 0
  {
    PlanOccurrences(was, now, VisibilityChange);
  }

  /** A target entirely above the viewport that ends up entirely below it
      (or the other way round) in one step gets the full sequence of a
      pass through the viewport. */
  lemma SkippingPast(top: int, bottom: int, vt1: int, vb1: int, vt2: int, vb2: int)
    requires top <= bottom && vt1 <= vb1 && vt2 <= vb2
    requires (bottom < vt1 && top > vb2) || (top > vb1 && bottom < vt2)
    ensures Plan(ComputeFlags(top, bottom, vt1, vb1), ComputeFlags(top, bottom, vt2, vb2))
         == [VisibilityChange, FullyEnterViewport, PartiallyExitViewport, EnterViewport, ExitViewport, StateChange]
  {
  }

  /** Firing the lists of a plan one after the other. */
  function RunPlan(plan: seq<EventType>, lists: Lists): (seq<Invocation>, Lists)
  {
    if plan == [] then ([], lists)
    else
      var first := Fire(plan[0], lists);
      var rest := RunPlan(plan[1..], first.1);
      (first.0 + rest.0, rest.1)
  }

  /** Running a plan only ever removes entries, and a list that was fired
      keeps no one-shot entry. */
  lemma {:induction false} RunPlanOnlyRemoves(plan: seq<EventType>, lists: Lists)
    ensures forall e: EventType, x :: x in RunPlan(plan, lists).1.Get(e) ==> x in lists.Get(e)
    ensures forall e: EventType, x :: e in plan && x in RunPlan(plan, lists).1.Get(e) ==> !x.isOne
  {
    if plan != [] {
      RunPlanOnlyRemoves(plan[1..], Fire(plan[0], lists).1);
      KeepMembers(lists.Get(plan[0]));
      assert forall e :: e in plan ==> e == plan[0] || e in plan[1..];
    }
  }

  /** Running a plan and then one more category is running the longer plan. */
  lemma RunPlanSnoc(plan: seq<EventType>, e: EventType, lists: Lists)
    ensures RunPlan(plan + [e], lists) ==
            (RunPlan(plan, lists).0 + Fire(e, RunPlan(plan, lists).1).0, Fire(e, RunPlan(plan, lists).1).1)
  {
    RunPlanAppend(plan, [e], lists);
    var l1 := RunPlan(plan, lists).1;
    assert [e][1..] == [];
    assert RunPlan([e], l1) == (Fire(e, l1).0 + [], Fire(e, l1).1);
    assert Fire(e, l1).0 + [] == Fire(e, l1).0;
  }

  /** Running two plans one after the other is running their concatenation. */
  lemma {:induction false} RunPlanAppend(a: seq<EventType>, b: seq<EventType>, lists: Lists)
    ensures RunPlan(a + b, lists) ==
            (RunPlan(a, lists).0 + RunPlan(b, RunPlan(a, lists).1).0, RunPlan(b, RunPlan(a, lists).1).1)
  {
    if a == [] {
      assert a + b == b;
      assert [] + RunPlan(b, lists).0 == RunPlan(b, lists).0;
    } else {
      assert (a + b)[0] == a[0];
      assert (a + b)[1..] == a[1..] + b;
      var first := Fire(a[0], lists);
      RunPlanAppend(a[1..], b, first.1);
      var g1 := RunPlan(a[1..], first.1);
      var g2 := RunPlan(b, g1.1);
      assert RunPlan(a, lists) == (first.0 + g1.0, g1.1);
      assert RunPlan(a + b, lists) == (first.0 + (g1.0 + g2.0), g2.1);
      AppendAssociative(first.0, g1.0, g2.0);
    }
  }

  /** Proof step for `RunPlanAppend` and the last-first lemmas of `States`:
      regrouping invocations, kept out of their larger contexts, where the
      solver finds it slowly. */
  lemma AppendAssociative(a: seq<Invocation>, b: seq<Invocation>, c: seq<Invocation>)
    ensures (a + b) + c == a + (b + c)
  {
  }

  /** Category `e` fired after the invocations and lists of `acc` when `c`
      holds; `acc` unchanged otherwise. */
  function FireIf(c: bool, e: EventType, acc: (seq<Invocation>, Lists)): (seq<Invocation>, Lists) {
    if c then (acc.0 + Fire(e, acc.1).0, Fire(e, acc.1).1) else acc
  }

  /** The tests of `triggerCallbacks` in the order scrollMonitor makes them,
      each firing its list as soon as it passes. */
  function RunRules(was: Flags, now: Flags, lists: Lists): (seq<Invocation>, Lists) {
    var jumped := Jumped(was, now);
    var skippedFully := jumped && !was.fullyInViewport && !now.fullyInViewport;
    var skippedIn := jumped && !was.inViewport && !now.inViewport;
    var entered := FireIf(now.inViewport && !was.inViewport, EnterViewport, ([], lists));
    var fullyEntered := FireIf(now.fullyInViewport && !was.fullyInViewport, FullyEnterViewport, entered);
    var visibility := FireIf(jumped, VisibilityChange, fullyEntered);
    var passedFully := FireIf(skippedFully, PartiallyExitViewport, FireIf(skippedFully, FullyEnterViewport, visibility));
    var passedIn := FireIf(skippedIn, ExitViewport, FireIf(skippedIn, EnterViewport, passedFully));
    var partiallyExited := FireIf(!now.fullyInViewport && was.fullyInViewport, PartiallyExitViewport, passedIn);
    var exited := FireIf(!now.inViewport && was.inViewport, ExitViewport, partiallyExited);
    var changed := FireIf(now.inViewport != was.inViewport, VisibilityChange, exited);
    FireIf(was != now, StateChange, changed)
  }

  /** Firing `e` when `c` holds after running `plan` is running the plan
      extended by `e` when `c` holds. */
  lemma FireIfRun(c: bool, e: EventType, plan: seq<EventType>, lists: Lists)
    ensures FireIf(c, e, RunPlan(plan, lists)) == RunPlan(plan + (if c then [e] else []), lists)
  {
    if c {
      RunPlanSnoc(plan, e, lists);
    } else {
      assert plan + [] == plan;
    }
  }

  /** The tests, made one after the other as `triggerCallbacks` does, fire exactly
      the lists of the plan, in the plan's order. */
  lemma RunRulesFollowsPlan(was: Flags, now: Flags, lists: Lists)
    ensures RunRules(was, now, lists) == RunPlan(Plan(was, now), lists)
  {
    var jumped := Jumped(was, now);
    var skippedFully := jumped && !was.fullyInViewport && !now.fullyInViewport;
    var skippedIn := jumped && !was.inViewport && !now.inViewport;
    var p0: seq<EventType> := [];
    assert RunPlan(p0, lists) == ([], lists);
    var c1 := now.inViewport && !was.inViewport;
    FireIfRun(c1, EnterViewport, p0, lists);
    var p1 := p0 + (if c1 then [EnterViewport] else []);
    var c2 := now.fullyInViewport && !was.fullyInViewport;
    FireIfRun(c2, FullyEnterViewport, p1, lists);
    var p2 := p1 + (if c2 then [FullyEnterViewport] else []);
    assert p2 == EnterRule(was, now) + FullyEnterRule(was, now);
    FireIfRun(jumped, VisibilityChange, p2, lists);
    var p3 := p2 + (if jumped then [VisibilityChange] else []);
    FireIfRun(skippedFully, FullyEnterViewport, p3, lists);
    var p4 := p3 + (if skippedFully then [FullyEnterViewport] else []);
    FireIfRun(skippedFully, PartiallyExitViewport, p4, lists);
    var p5 := p4 + (if skippedFully then [PartiallyExitViewport] else []);
    FireIfRun(skippedIn, EnterViewport, p5, lists);
    var p6 := p5 + (if skippedIn then [EnterViewport] else []);
    FireIfRun(skippedIn, ExitViewport, p6, lists);
    var p7 := p6 + (if skippedIn then [ExitViewport] else []);
    JumpRulesInSteps(was, now, p2);
    assert p7 == p2 + JumpRules(was, now);
    LeavingRulesRun(was, now, p7, lists);
  }

  /** The four tests after the jump rule, made one after the other after
      the plan `p`, fire the lists of the last four rules after it. */
  lemma LeavingRulesRun(was: Flags, now: Flags, p: seq<EventType>, lists: Lists)
    ensures FireIf(was != now, StateChange,
              FireIf(now.inViewport != was.inViewport, VisibilityChange,
                FireIf(!now.inViewport && was.inViewport, ExitViewport,
                  FireIf(!now.fullyInViewport && was.fullyInViewport, PartiallyExitViewport,
                    RunPlan(p, lists)))))
         == RunPlan(p + PartiallyExitRule(was, now) + ExitRule(was, now) + VisibilityRule(was, now) +
                    StateRule(was, now), lists)
  {
    var p8 := p + PartiallyExitRule(was, now);
    FireIfRun(!now.fullyInViewport && was.fullyInViewport, PartiallyExitViewport, p, lists);
    var p9 := p8 + ExitRule(was, now);
    FireIfRun(!now.inViewport && was.inViewport, ExitViewport, p8, lists);
    var p10 := p9 + VisibilityRule(was, now);
    FireIfRun(now.inViewport != was.inViewport, VisibilityChange, p9, lists);
    FireIfRun(was != now, StateChange, p10, lists);
  }

  /** The jump rule's lists, appended one test at a time. */
  lemma JumpRulesInSteps(was: Flags, now: Flags, p: seq<EventType>)
    ensures var jumped := Jumped(was, now);
            var skippedFully := jumped && !was.fullyInViewport && !now.fullyInViewport;
            var skippedIn := jumped && !was.inViewport && !now.inViewport;
            p + (if jumped then [VisibilityChange] else []) +
              (if skippedFully then [FullyEnterViewport] else []) +
              (if skippedFully then [PartiallyExitViewport] else []) +
              (if skippedIn then [EnterViewport] else []) +
              (if skippedIn then [ExitViewport] else [])
            == p + JumpRules(was, now)
  {
  }

  /** Whether `on` calls a new listener of category `e` at once: the
      condition of the category already holds. */
  predicate Immediate(e: EventType, f: Flags) {
    match e
    case VisibilityChange => !f.inViewport && f.aboveViewport
    case EnterViewport => f.inViewport
    case FullyEnterViewport => f.fullyInViewport
    case ExitViewport => f.aboveViewport && !f.inViewport
    case PartiallyExitViewport => f.aboveViewport
    case LocationChange => false
    case StateChange => false
  }

  /** What the immediate conditions mean for a target `[top, bottom]`:
      exit and visibility listeners are called at once for a target wholly
      above the viewport, partial-exit listeners for one whose top is above
      it, enter listeners for one that overlaps it. */
  lemma ImmediateMeaning(top: int, bottom: int, viewportTop: int, viewportBottom: int)
    requires top <= bottom && viewportTop <= viewportBottom
    ensures var f := ComputeFlags(top, bottom, viewportTop, viewportBottom);
            (Immediate(ExitViewport, f) <==> bottom < viewportTop) &&
            (Immediate(VisibilityChange, f) <==> bottom < viewportTop) &&
            (Immediate(PartiallyExitViewport, f) <==> top < viewportTop) &&
            (Immediate(EnterViewport, f) <==> top <= viewportBottom && viewportTop <= bottom)
  {
  }
}
