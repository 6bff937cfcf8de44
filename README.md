# scrollMonitor in Dafny

scrollMonitor tracks where watched targets lie relative to a scrolling
viewport. A *root* owns a container's viewport window (`viewportTop`,
`viewportBottom`, `viewportHeight`), the document height measured at the
last cycle, and a list of *watchers*. A watcher watches one target: a DOM
element, a number (a line at a distance from the document top, or anchored
to the document height when it is not positive) or a caller-managed
`{top, bottom}` object, whose fields are read again at every relocation. It keeps the target's document-coordinate
location with its offsets applied, four flags (`isInViewport`,
`isFullyInViewport`, `isAboveViewport`, `isBelowViewport`), a snapshot of
those flags from its last dispatch, a `locked` switch, and seven listener
lists (`visibilityChange`, `enterViewport`, `fullyEnterViewport`,
`exitViewport`, `partiallyExitViewport`, `locationChange`, `stateChange`).

A cycle (`root.update`) does the following, in order:

1. It measures the scroll offset and document height.
2. It relocates every watcher, last one first, if the document height changed.
3. It recomputes every watcher's flags.
4. It dispatches every watcher, last one first. Dispatching compares the flags with the snapshot, fires the lists the change calls for in a fixed order, and takes a new snapshot.

Firing a list calls its entries from the last to the first and drops the
one-shot entries.

The project has two layers:

- **Values and specification functions.** `Events`, `Listeners`, `Geometry`, `Dispatch` and `States` describe the watcher and root state as datatypes. They say what each operation does to that state, and prove the properties of those functions:
  - the flag relations;
  - the firing plan and its rules;
  - one-shot removal;
  - registration and unregistration;
  - idempotence of dispatch and of a settled cycle;
  - the last-first order;
  - the behaviour of `destroy` under `indexOf`/`splice`.
- **Classes.** `ScrollMonitor.Watcher` and `ScrollMonitor.Root` are classes whose fields the methods update in place. Lists are spliced inside the decrementing `while` loops the source uses, and the root walks its watcher sequence from the end. Each method's postcondition ties its result and new state to the specification function of the operation. `Watcher.State()` and `Root.View()` read an object's fields back as a value.

Callbacks are opaque ids, and calling one is recorded as an `Invocation`
(category, id) appended to the result sequence. The result sequence fixes
the order of every call.

The browser measurements are parameters:

- the scroll offset (`scrollTop`);
- the document height;
- an element's bounding client rectangle, and a region object's current `top` and `bottom` fields (a `Layout` mapping an object id to its `Rect`);
- an element's `offsetHeight`.

## Model

| member | source | states |
|---|---|---|
| Events.ParseEvent | scrollMonitor_old.js:293-296 | a name is a category exactly when it is one of the seven names; the category found has that name |
| Events.EventName | scrollMonitor_old.js:28-34 | definition: the seven category names |
| Events.ParseEventName | scrollMonitor_old.js:28-34 | every category's name is recognised as that category |
| Events.EmptyLists | scrollMonitor_old.js:148-152 | a new watcher has an empty list for every category |
| Listeners.Invoked | scrollMonitor_old.js:163-175 | firing a list calls each entry exactly once, the k-th call being entry `n-1-k` (last registered first) |
| Listeners.Keep | scrollMonitor_old.js:168-173 | the entries a fired list keeps: never more than it had (which ones, and in what order, by `KeepMembers` and `KeepAppend`) |
| Listeners.Fire | scrollMonitor_old.js:163-175 | firing a category makes one call per entry of its list, its list afterwards holds exactly the entries that were there and are not one-shot, and every other category's list is unchanged |
| Listeners.KeepMembers | scrollMonitor_old.js:171-173 | after firing, an entry remains iff it was in the list and is not one-shot |
| Listeners.KeepAppend | scrollMonitor_old.js:168-173 | the surviving entries keep their relative order (keeping distributes over concatenation) |
| Listeners.KeepWithoutOnes | scrollMonitor_old.js:171-173 | a list without one-shot entries is left unchanged by firing |
| Listeners.RemoveFirstAt | scrollMonitor_old.js:300-305 | `off` removes exactly the first entry with that callback identity |
| Listeners.RemoveFirstAbsent | scrollMonitor_old.js:300-305 | `off` of a callback not in the list leaves the list as it is |
| Listeners.RemoveFirst | scrollMonitor_old.js:300-305 | `off`'s loop removes at most one entry and adds none; the list keeps its length iff no entry has that callback identity |
| Geometry.NormaliseOffsets | scrollMonitor_old.js:137-146 | no offsets (or 0) give {0,0}, a number n gives {n,n}, an object gives each missing or falsy edge as 0 |
| Geometry.RawBounds | scrollMonitor_old.js:238-256 | the bounds before offsets: an element spans its client rectangle's height, a number target is a line, and a non-positive number lies at or below the document height, and a region is its object's current fields |
| Geometry.Locate | scrollMonitor_old.js:238-260 | for each target form its own location: an element's client rectangle shifted by the scroll offset, a positive number n at n, a non-positive n at `documentHeight - n`, a region at its object's `top` and `bottom` as read now; each with the top offset subtracted and the bottom offset added; height is bottom minus top, that is the raw height plus both offsets |
| Geometry.ElementLocationIgnoresScroll | scrollMonitor_old.js:238-240 | an element's document location does not depend on the scroll offset when its client rectangle moves opposite to the scroll |
| Geometry.NumberTargetFollowsDocumentHeight | scrollMonitor_old.js:246-251 | a positive number target stays put; a non-positive one moves one for one with the document height (`documentHeight - n`) |
| Geometry.NumberTargetHeight | scrollMonitor_old.js:246-260 | a number target is a line whose height is the two offsets together |
| Geometry.RegionFollowsItsFields | scrollMonitor_old.js:253-256 | a region's location depends only on its object's current fields, not on the scroll offset or the document height |
| Geometry.ComputeFlags | scrollMonitor_old.js:318-322 | fully-in and above imply below; for ordered bounds, fully-in implies in, and above-and-below implies in |
| Geometry.InViewportIsOverlap | scrollMonitor_old.js:321 | in-viewport holds iff the target and the viewport share a point |
| Geometry.FullyInViewportIsContainment | scrollMonitor_old.js:322 | fully-in holds iff the target lies within the viewport or sticks out past both edges |
| Geometry.OutsideIsAboveOrBelow | scrollMonitor_old.js:318-321 | a target outside the viewport is on exactly one side of it |
| Dispatch.Jumped | scrollMonitor_old.js:186-187 | definition: above and below both flipped since the snapshot |
| Dispatch.Plan | scrollMonitor_old.js:178-217 | definition: the categories a dispatch fires, in order, as the concatenation of the seven rules below (its properties are the lemmas that follow) |
| Dispatch.EnterRule | scrollMonitor_old.js:178-180 | definition: `enterViewport` when in-viewport became true |
| Dispatch.FullyEnterRule | scrollMonitor_old.js:181-183 | definition: `fullyEnterViewport` when fully-in became true |
| Dispatch.JumpRules | scrollMonitor_old.js:186-200 | definition: on a jump, `visibilityChange`, then the fully-enter/partial-exit pair when fully-in stayed false, then the enter/exit pair when in-viewport stayed false |
| Dispatch.PartiallyExitRule | scrollMonitor_old.js:202-204 | definition: `partiallyExitViewport` when fully-in became false |
| Dispatch.ExitRule | scrollMonitor_old.js:205-207 | definition: `exitViewport` when in-viewport became false |
| Dispatch.VisibilityRule | scrollMonitor_old.js:208-210 | definition: `visibilityChange` when in-viewport changed |
| Dispatch.StateRule | scrollMonitor_old.js:211-217 | definition: `stateChange` when any of the four flags changed |
| Dispatch.PlanEmptyIffUnchanged | scrollMonitor_old.js:176-217 | a dispatch fires something iff some flag differs from the snapshot |
| Dispatch.StateChangeOnce | scrollMonitor_old.js:211-217 | `stateChange` fires exactly once iff a flag changed, never otherwise |
| Dispatch.EnterAndExitOnTransition | scrollMonitor_old.js:178-207 | entering fires `enterViewport` and not `exitViewport`; leaving fires `exitViewport` and not `enterViewport` |
| Dispatch.EnterExitBalance | scrollMonitor_old.js:178-207 | the count of `enterViewport` minus the count of `exitViewport` is the change of in-viewport (+1, -1 or 0) |
| Dispatch.FullyEnterPartiallyExitBalance | scrollMonitor_old.js:181-204 | the count of `fullyEnterViewport` minus the count of `partiallyExitViewport` is the change of fully-in |
| Dispatch.JumpRule | scrollMonitor_old.js:186-210 | when above and below both flip, `visibilityChange` fires once, or twice if in-viewport changed too; the skipped pairs fire once each |
| Dispatch.VisibilityChangeWithoutJump | scrollMonitor_old.js:186-210 | without a jump, `visibilityChange` fires exactly when in-viewport changed |
| Dispatch.SkippingPast | scrollMonitor_old.js:186-200 | a target that goes from wholly above to wholly below (or back) in one step gets the six calls of a full pass, in this order |
| Dispatch.RunPlanOnlyRemoves | scrollMonitor_old.js:163-175 | a dispatch only ever removes listener entries, and no fired list keeps a one-shot entry |
| Dispatch.RunRules | scrollMonitor_old.js:178-217 | definition: the chain of tests as written, each firing its list at once over the lists the previous ones left |
| Dispatch.RunRulesFollowsPlan | scrollMonitor_old.js:176-217 | the tests made one after the other, each firing at once, equal running the rule plan in order |
| Dispatch.Immediate | scrollMonitor_old.js:280-285 | definition: the `switch` cases under which `on` calls the callback at once, per category |
| Dispatch.ImmediateMeaning | scrollMonitor_old.js:280-292 | `on` calls at once: exit and visibility listeners for a target wholly above, partial-exit listeners when its top is above, enter listeners when it overlaps |
| States.InitialState | scrollMonitor_old.js:267-273 | a new watcher's snapshot equals its flags, it is unlocked, and its height is bottom minus top |
| States.Relocated | scrollMonitor_old.js:226-265 | relocating keeps flags, snapshot, lock, target and offsets, and keeps height equal to bottom minus top |
| States.Triggered | scrollMonitor_old.js:219-222 | after a dispatch the snapshot equals the current flags |
| States.Updated | scrollMonitor_old.js:317-323 | `update` changes the four flags and nothing else, and keeps a well-formed state well-formed |
| States.Registered | scrollMonitor_old.js:277-297 | `on` fails iff the name is not a category; otherwise it makes at most one call, changes only the listener lists, and only the named category's list |
| States.Unregistered | scrollMonitor_old.js:298-309 | `off` fails iff the name is not a category; otherwise it changes only the named category's list |
| States.Resized | scrollMonitor_old.js:313-316 | `recalculateSize` keeps the top and spans the measured height plus both offsets |
| States.LockedKeepsLocation | scrollMonitor_old.js:227-229 | a locked watcher's location and lists do not change and nothing fires |
| States.RelocatedLocation | scrollMonitor_old.js:230-264 | an unlocked watcher takes the computed location; `locationChange` fires iff a bound moved |
| States.AnchoredTargetMovesWithDocument | scrollMonitor_old.js:246-263 | a watcher on a non-positive number moves by the change of document height and fires `locationChange` |
| States.RegionObjectMoved | scrollMonitor_old.js:253-263 | a watcher whose region object's fields changed moves to the new fields and fires `locationChange` |
| States.TriggeredTwiceFiresNothing | scrollMonitor_old.js:219-222 | a second dispatch with unchanged flags fires nothing and changes nothing |
| States.CreationFiresNothing | scrollMonitor_old.js:267-273 | a new watcher's first update recomputes the same flags and its first dispatch fires nothing |
| States.RegisterThenUnregister | scrollMonitor_old.js:277-309 | `on` then `off` of a fresh callback restores the lists |
| States.RegisterUnknown | scrollMonitor_old.js:293-296 | `on` and `off` with an unknown category raise the error and change nothing |
| States.RegisterImmediate | scrollMonitor_old.js:280-297 | `on` calls the callback at once iff the condition holds; a one-shot called at once is not kept; otherwise exactly one entry is appended |
| States.RelocateAll | scrollMonitor_old.js:96-100 | every watcher is relocated on its own against the same measurements: the i-th result is watcher i relocated |
| States.RelocateAllLastFirst | scrollMonitor_old.js:97-100 | the watcher registered last is relocated, and its `locationChange` listeners called, first |
| States.TriggerAll | scrollMonitor_old.js:113-116 | every watcher is dispatched on its own: the i-th result is watcher i's dispatch |
| States.TriggerAllLastFirst | scrollMonitor_old.js:113-116 | the watcher registered last is dispatched first |
| States.QuietTriggerAll | scrollMonitor_old.js:113-116 | dispatching watchers whose snapshots equal their flags fires nothing and changes nothing |
| States.ViewportStep | scrollMonitor_old.js:92-103 | the window's bottom is its top plus the viewport height, and the measured height is recorded for the next comparison |
| States.DispatchStep | scrollMonitor_old.js:106-118 | `updateAndTriggerWatchers` keeps the window and the watcher count, and leaves every watcher's snapshot equal to its flags computed against the window |
| States.CycleStep | scrollMonitor_old.js:395-399 | a cycle puts the window at the scroll offset with the same height, records the measured document height, and keeps the watcher count |
| States.CycleIgnoresDocumentHeight | scrollMonitor_old.js:400-403 | `recalculateLocations`' reset of the document height to 0 has no effect on the cycle that follows |
| States.CycleSettles | scrollMonitor_old.js:395-399 | after a cycle, every watcher's flags are computed from its location and the new window, and its snapshot equals them |
| States.RepeatedCycleFiresNothing | scrollMonitor_old.js:92-118 | from a settled state, a cycle with the same measurements fires nothing and changes nothing |
| States.SecondCycleFiresNothing | scrollMonitor_old.js:395-399 | two cycles in a row with the same measurements: the second fires nothing |
| States.IndexOf | scrollMonitor_old.js:326 | `indexOf` gives the first position of the watcher, or -1 iff it is absent |
| States.SpliceOne | scrollMonitor_old.js:328 | `splice(start, 1)` removes one element when the list is non-empty and `start` is below its length (a negative start counting from the end), none otherwise, and adds nothing |
| States.DestroyRemovesIt | scrollMonitor_old.js:325-328 | destroying a registered watcher removes exactly it and shortens the list by one |
| States.DestroyAgainRemovesLast | scrollMonitor_old.js:326-328 | destroying an unregistered watcher removes the last registered one (`splice(-1, 1)`) |
| ScrollMonitor.Watcher.constructor | scrollMonitor_old.js:132-274 | the new watcher's state is the initial state for the target, offsets and the root's window |
| ScrollMonitor.Watcher.TriggerCallbackArray | scrollMonitor_old.js:163-175 | the in-place loop makes the calls and leaves the list that `Fire` specifies (all entries called last first, one-shots spliced out) |
| ScrollMonitor.Watcher.TriggerCallbacks | scrollMonitor_old.js:176-224 | the calls and the new state are those of running the rule plan for snapshot and flags, then taking the snapshot |
| ScrollMonitor.Watcher.FireChanges | scrollMonitor_old.js:178-217 | `triggerCallbacks`' chain of tests fires what the rules specify, in their order |
| ScrollMonitor.Watcher.TakeSnapshot | scrollMonitor_old.js:219-222 | the snapshot becomes the current flags; nothing else changes |
| ScrollMonitor.Watcher.RecalculateLocation | scrollMonitor_old.js:226-265 | the calls and the new state are those `Relocated` specifies for the root's window and document height |
| ScrollMonitor.Watcher.On | scrollMonitor_old.js:277-297 | result and new state follow `Registered`; on an unknown category the error is returned and the state is unchanged |
| ScrollMonitor.Watcher.One | scrollMonitor_old.js:310-312 | `on` with the one-shot flag |
| ScrollMonitor.Watcher.Off | scrollMonitor_old.js:298-309 | result and new state follow `Unregistered`: the first matching entry goes, and an unknown category is an error |
| ScrollMonitor.Watcher.RecalculateSize | scrollMonitor_old.js:313-316 | the new state is `Resized` for the measured height |
| ScrollMonitor.Watcher.Update | scrollMonitor_old.js:317-324 | the flags are recomputed against the root's window; nothing else changes |
| ScrollMonitor.Watcher.Destroy | scrollMonitor_old.js:325-332 | the root's list loses the element at `indexOf` (by `splice`), every listener list is emptied, and the root stays valid |
| ScrollMonitor.Watcher.Lock | scrollMonitor_old.js:334-336 | the watcher becomes locked; nothing else changes |
| ScrollMonitor.Watcher.Unlock | scrollMonitor_old.js:337-339 | the watcher becomes unlocked; nothing else changes |
| ScrollMonitor.Root.constructor | scrollMonitor_old.js:78-86 | a root with no watchers, the given viewport height, and its first viewport computation done |
| ScrollMonitor.Root.CalculateViewport | scrollMonitor_old.js:92-103 | the window moves to the scroll offset; every watcher is relocated as `RelocateAll` says iff the height differs from the recorded one, and is untouched otherwise |
| ScrollMonitor.Root.RecalculateLocationsOfWatchers | scrollMonitor_old.js:96-100 | the decrementing loop leaves the watchers and calls that `RelocateAll` specifies |
| ScrollMonitor.Root.RecalculateLocationOfWatcher | scrollMonitor_old.js:99 | watcher i is relocated and no other watcher changes |
| ScrollMonitor.Root.UpdateAndTriggerWatchers | scrollMonitor_old.js:106-118 | the calls and the new watcher states are those of `DispatchStep`: all updated, then all dispatched |
| ScrollMonitor.Root.UpdateWatchers | scrollMonitor_old.js:108-111 | the first loop leaves every watcher updated as `UpdateAll` says |
| ScrollMonitor.Root.UpdateWatcher | scrollMonitor_old.js:110 | watcher i is updated and no other watcher changes |
| ScrollMonitor.Root.TriggerWatchers | scrollMonitor_old.js:113-116 | the second loop makes the calls and leaves the states that `TriggerAll` specifies |
| ScrollMonitor.Root.TriggerWatcher | scrollMonitor_old.js:115 | watcher i is dispatched and no other watcher changes |
| ScrollMonitor.Root.Update | scrollMonitor_old.js:395-399 | one cycle: the calls and the new root state are those of `CycleStep` |
| ScrollMonitor.Root.RecalculateLocations | scrollMonitor_old.js:400-403 | the calls and the new root state are those of a plain cycle |
| ScrollMonitor.Root.Create | scrollMonitor_old.js:382-393 | a fresh watcher in its initial state is appended last, and the other watchers are untouched |

## Left out

- DOM measurements are not computed; they are parameters. This covers `scrollTop`, `getViewportHeight`, `getDocumentHeight`, `getBoundingClientRect` and `offsetHeight`. The temporary `display` switch around the rectangle read is browser-only and left out.
- Browser glue is left out: the module wrapper and server stubs, the `scroll`/`resize` listener attachment, the old-IE and jQuery fallbacks, and the debounced `recalculateWatchLocationsAndTrigger` with its timer. The viewport height is therefore only set when the root is built.
- The per-category shorthand methods on the prototype (`watcher.enterViewport(cb)` and so on) are left out. Each is `on` with a fixed category name.
- `create`'s `document.querySelector` lookup and array-like unwrapping are left out; `Create` takes an already resolved target.
- The `latestEvent` payload passed to callbacks is not modelled, because it is only passed through. Re-entrancy is not modelled either: a callback cannot change lists or watchers while they are being walked, because callbacks are opaque ids.
- Callbacks are assumed to return normally; an `Invocation` only records that the call was made. Nothing in the code as written catches an exception thrown by a callback, either in `triggerCallbackArray` (scrollMonitor_old.js:170) or in `on`'s immediate call (line 286). When one throws:
  - a one-shot entry that threw stays in its list, because the splice at lines 171-173 is skipped;
  - the rest of that list, the remaining tests of `triggerCallbacks` and the snapshot at lines 219-222 are skipped, so the next dispatch compares against the old snapshot and fires the same lists again;
  - the remaining watchers of the loop are skipped: the dispatch loop at lines 114-116, or the relocation loop at lines 98-100 (for a `locationChange` listener); the latter also skips recording the document height at line 101, so the next cycle relocates every watcher again;
  - in `on`, the callback is not registered.

  The properties that say a dispatch or a cycle settles (`TriggeredTwiceFiresNothing`, `CycleSettles`, `SecondCycleFiresNothing`, `RunPlanOnlyRemoves`) therefore hold only for callbacks that return normally.
- Events.ParseEvent: property names inherited by every JavaScript object (`toString`, `constructor`, …) are treated as unknown categories, so `Registered` and `Unregistered` return the unknown-category error for them. The code as written finds an inherited function on the callbacks object instead: `on('toString', cb)` throws a `TypeError` from `push` rather than the listed error, and `off('toString', cb)` returns normally and removes nothing, because the function's element 0 is undefined and ends the loop at once.
- ScrollMonitor.Watcher.Off: the source's loop would also stop at a falsy entry. Entries are always objects, so the model searches the whole list.
- ScrollMonitor.Watcher.constructor: the source's first `recalculateLocation` fires nothing because no earlier bound exists. The model starts the bounds at 0. Since every list is still empty at that point, nothing is fired either way.
- ScrollMonitor.Root.constructor: the source leaves the window `null` until its first `calculateViewport`. The model builds the root with that first computation already done.
- ScrollMonitor.Watcher: the invariant that height is bottom minus top is proved at the value level. Every specification function of `States` preserves it. The class methods do not restate it.
- Integers are unbounded. JavaScript numbers are doubles; the modelled arithmetic is additions, subtractions, comparisons and `splice`'s index clamping, and every measurement is taken to be a finite integer. The one place where the code as written leaves the numbers is `recalculateSize`, described next.
- States.Resized: takes the measured `offsetHeight` as an integer for every target. For a number or region target the code as written reads `offsetHeight` from a value that has none, so `height` and `bottom` become NaN; every flag comparison with NaN is then false, and the next relocation of that watcher fires `locationChange` because NaN differs from every number. The model does not represent NaN and so does not show this.
- ScrollMonitor.Watcher.RecalculateSize: follows `Resized`, with the same restriction to an integer measurement.

Behaviours of the code as written that a reader of its documentation might not expect. The model follows the code in each case:

- A non-positive number target is placed at `documentHeight - n`. For example, -50 with height 1000 gives 1050.
- `recalculateLocations` writes a document height of 0. The following `calculateViewport` overwrites it before the comparison, so no relocation is forced (`CycleIgnoresDocumentHeight`).
- `locationChange` fires synchronously inside `recalculateLocation`.
- `visibilityChange` can fire twice in one dispatch (`JumpRule`).
- `recalculateSize` ignores the lock.
- `destroy` of a watcher that is no longer registered removes the last registered watcher (`DestroyAgainRemovesLast`).

One further behaviour of the code as written is outside the model, which assumes callbacks return normally (see "## Left out"). Listeners are not isolated from one another: a listener that throws stops the listeners after it in the same list, the later lists of the same dispatch, and the dispatch of every watcher the loop has not reached yet.
