# react-transient in Dafny

A model of the transition bookkeeping of react-transient, a React library that
animates elements in and out with CSS classes. The model covers four pieces:

- the slot and identity helpers: `insertAtIndex` on a sparse list,
  `componentsEqual`, `maybeCall`;
- duration sniffing and completion detection (`transition-utils`):
  - reading CSS time lists;
  - pairing durations with cyclically repeated delays;
  - choosing between the animation and the transition;
  - the one-shot end-event watcher `onAllTransitionsEnd`;
- the single-element controller `Transition`:
  - its React state (`child`, `oldChild`, `isEntering`, `isLeaving`);
  - the `_timeoutClears` cancellation slots;
  - the class lifecycle of the appear, enter and leave phases;
  - the mode rules (`in-out`, `out-in`);
  - cancellation, unmounting and the render rule;
- the keyed-list reconciler `TransitionGroup`:
  - the merge of the old and new child lists over `max(old, new)` indices;
  - leaving entries whose `onAfterLeave` removes them;
  - `_unmountAtKey`;
  - in the compiled build, the move animation of persisting children (`_movingChildren`, `_clearTransitions`, `_transitionChildMove`).

The TypeScript sources (`src/`) and the compiled build (`build/dist/`) differ.
The shared logic is modelled once, and a `Version = Src | Build` flag selects
the build-only branches:

- `noCss`;
- the child-removed and child-added branches of `componentDidUpdate`;
- the `oldChildRef` fallback;
- the revised render rule;
- `_transitionChildOut` starting the leave before its own `setState` commits;
- `Transition` children keeping their own props;
- the move animation.

Layout:

- `wrappers.dfy`: `Option`.
- `utils.dfy` (module `Utils`):
  - elements and their identity;
  - `componentsEqual`, `maybeCall`;
  - `insertAtIndex` as the `SparseArray` class with a specification function `Inserted`.
- `transition_utils.dfy` (module `TransitionUtils`): `durationStringToMs`, `totalTransitionDuration` (a method with its loop, proved against `TotalDuration`), `getSniffedCssInfo`.
- `transitions_end.dfy` (module `TransitionsEnd`): `onAllTransitionsEnd` as the `EndWatcher` class over the state machine `Step`/`Run`.
- `transition.dfy` (module `SingleTransition`): the `Transition` controller as pure functions over a snapshot `State`. React's part is explicit:
  - `setState` queues updates and callbacks;
  - a flush applies them in rounds and commits renders, which is when the wrapper refs change.
- `transition_component.dfy` (module `TransitionComponent`): the `Transition` component as a class. Its fields change step by step, and each method ends in the snapshot the functions of `SingleTransition` describe.
- `transition_props.dfy` (module `TransitionProperties`): what the controller promises.
- `transition_scenario.dfy` (module `TransitionScenario`): the hook log of a change of child, and a sequence of changes, each interrupting the phase the previous one started.
- `transition_group.dfy` (module `Group`): the group's update, moves, cancellers and unmounting as functions over a snapshot `GroupState`, with their lemmas.
- `transition_group_component.dfy` (module `GroupComponent`): the `TransitionGroup` component as a class whose methods end in the snapshots of `Group`.

How the outside world enters the model:

- Frames, timers, DOM end events and hooks calling `done` are explicit input events:
  - `FrameTick`;
  - `FireCompletion` with a completion handle;
  - `OnEndEvent`, `OnTimeout`;
  - `CallDone`;
  - `MoveTransitionsEnd`.
- Values the browser computes are parameters:
  - computed styles;
  - bounding rectangles before and after an update (`before`, `after`);
  - which element a DOM node belongs to: the identity (key and type) of the React element rendered into it.

Two places where the model follows the code rather than the prose description:

- When the animation and the transition take equally long, the code picks the animation (`>` at src/lib/transition-utils.ts:22). `TransitionUtils.SniffedChoice` states this.
- The build's `componentsEqual` coerces to a boolean; the TypeScript one does not (see Findings).

## Model

| member | source | states |
|---|---|---|
| Utils.ComponentsEqual | build/dist/lib/utils.js:10-12 | the result is a boolean, true exactly when both elements are absent or both are present with the same key and type |
| Utils.ComponentsEqualIsEquivalence | src/lib/utils.ts:7-9 | `componentsEqual` is reflexive, symmetric and transitive |
| Utils.ComponentsEqualCases | src/lib/__tests__/utils.test.tsx:16-48 | both absent gives true; exactly one absent gives false; a type or key mismatch gives false; equal key and type gives true |
| Utils.ComponentsEqualAsWritten | src/lib/utils.ts:7-9 | the TypeScript expression yields `true` exactly when the elements are equal and `undefined` exactly when one side is absent |
| Utils.ComponentsEqualAsWrittenNotBoolean | src/lib/utils.ts:8 | with one side absent the TypeScript version yields `undefined`, not the `false` the unit test expects |
| Utils.MaybeCall | src/lib/utils.ts:3-5 | no function gives nothing; a function gives its result on the arguments, passed on unchanged |
| Utils.FirstFree | src/lib/utils.ts:35-37 | the scan stops at the first empty slot at or after the index; every slot passed over is occupied; it ends at or before the end of the list |
| Utils.Write | src/lib/utils.ts:38 | the assignment `array[j] = item` puts the item at `j`, keeps every other slot, and grows the list with holes when `j` is past the end |
| Utils.InsertedSpec | src/lib/utils.ts:34-39 | the item lands in the first free slot at or after the index; skipped slots were occupied; no occupied slot is overwritten; other slots are unchanged; the new length is max(old length, index written + 1) |
| Utils.InsertedCount | src/lib/utils.ts:34-39 | insertion adds exactly one occupied slot, holding the item: counted by any property, the count grows by one exactly when the item has it |
| Utils.InsertedExamples | src/lib/__tests__/utils.test.tsx:52-58 | inserting 1 at 1 into [0,1,2] writes index 3 and gives [0,1,2,1]; inserting at 0 into [ , ,1] writes index 0 and gives [1, ,1] |
| Utils.SparseArray.InsertAtIndex | build/dist/lib/utils.js:21-27 | the loop returns the first free index at or after the requested one, and the array becomes the list with the item written there |
| TransitionUtils.DropLast | src/lib/transition-utils.ts:2 | `slice(0, -1)` drops exactly the last character, and the empty string stays empty |
| TransitionUtils.DurationRoundTrip | src/lib/transition-utils.ts:1-3 | every whole number of milliseconds, written in seconds with exactly three decimals and a unit (`-1.250s`, `0.300s`), reads back to the same number |
| TransitionUtils.LeadingSpaceIgnored | src/lib/transition-utils.ts:2 | white space in front of a duration does not change the milliseconds it reads as, since `Number` trims its argument |
| TransitionUtils.WholeDuration | src/lib/transition-utils.ts:1-3 | digits followed by a unit read as that many seconds in milliseconds (`20s` is 20000) |
| TransitionUtils.DecimalDuration | src/lib/transition-utils.ts:1-3 | digits, a point and up to three digits followed by a unit read as seconds and milliseconds (`.7s` is 700, `3.5s` is 3500) |
| TransitionUtils.BareZeroExample | src/lib/__tests__/transition-utils.test.ts:4-12 | a bare `0` reads as 0 |
| TransitionUtils.Split | src/lib/transition-utils.ts:6-7 | `split(',')` gives at least one piece, and no piece holds a comma |
| TransitionUtils.JoinSplit | src/lib/transition-utils.ts:6 | splitting loses nothing: joining the pieces with commas gives the string back |
| TransitionUtils.SplitJoin | src/lib/transition-utils.ts:6 | joining comma-free pieces and splitting again gives the same pieces |
| TransitionUtils.AddMs | src/lib/transition-utils.ts:11 | a sum is `NaN` exactly when one addend is, otherwise the sum of the two |
| TransitionUtils.MaxOf | src/lib/transition-utils.ts:11 | `Math.max` is `NaN` exactly when some element is; otherwise it bounds every element and is one of them |
| TransitionUtils.EntryTotals | src/lib/transition-utils.ts:11 | one total per duration, in order, each the duration plus its delay |
| TransitionUtils.CycleIsModulo | src/lib/transition-utils.ts:7-10 | duration `i` is paired with delay `i mod (number of delays)` |
| TransitionUtils.CycleShift | src/lib/transition-utils.ts:8-10 | doubling the delay list keeps every pairing: whole turns round the list land on the same delay |
| TransitionUtils.LongestEntryNaN | src/lib/transition-utils.ts:11 | the total is `NaN` exactly when some entry cannot be read |
| TransitionUtils.LongestEntry | src/lib/transition-utils.ts:11 | a readable total is at least every entry's duration plus delay, and equals one of them |
| TransitionUtils.TotalTransitionDuration | src/lib/transition-utils.ts:5-12 | the doubling loop terminates, and the method returns the longest duration-plus-delay, the entries being paired cyclically |
| TransitionUtils.OneDelay | src/lib/transition-utils.ts:11 | with a single delay, every duration is paired with that delay |
| TransitionUtils.GetSniffedCssInfo | src/lib/transition-utils.ts:14-36 | a requested mechanism is kept; the reported duration is that mechanism's longest total; the count is its number of duration entries, at least one |
| TransitionUtils.SniffedChoice | src/lib/transition-utils.ts:22 | without a requested mechanism the transition wins exactly when both totals are numbers and its total is strictly greater; ties go to the animation; a readable result is at least each readable total |
| TransitionsEnd.TimerDelay | src/lib/transition-utils.ts:60 | the timer waits the sniffed duration, or zero when it is `NaN` or negative |
| TransitionsEnd.Configure | src/lib/transition-utils.ts:44-46 | the watcher always waits for at least one end event |
| TransitionsEnd.StepConsistent | src/lib/transition-utils.ts:50-66 | every event keeps the watcher's invariant: timer and listener go together; while armed, the callback has not run and fewer end events than expected were counted; the callback runs at most once |
| TransitionsEnd.AtMostOnce | src/lib/transition-utils.ts:50-66 | after any sequence of events the callback has run at most once |
| TransitionsEnd.StartedConsistent | src/lib/transition-utils.ts:60-61 | the watcher just set up satisfies the invariant |
| TransitionsEnd.SettledStays | src/lib/transition-utils.ts:50-54 | once timer and listener are removed, no event changes anything |
| TransitionsEnd.CancelSilences | src/lib/transition-utils.ts:63-66 | after the canceller has run, the callback never runs again |
| TransitionsEnd.ForeignEventIgnored | src/lib/transition-utils.ts:58 | end events of another element, or of the other kind, are ignored |
| TransitionsEnd.CountsOwnEnds | src/lib/transition-utils.ts:55-59 | with the timer pending, the callback has run after `n` own end events exactly when the count reaches the number of durations; counting stops there |
| TransitionsEnd.TimerFinishes | src/lib/transition-utils.ts:60 | a timer firing while the watcher waits runs the callback and removes the listener |
| TransitionsEnd.EndWatcher.constructor | src/lib/transition-utils.ts:44-61 | set-up sniffs the configuration and arms timer and listener with nothing counted, in a valid state |
| TransitionsEnd.EndWatcher.Finish | src/lib/transition-utils.ts:50-54 | `doneCallback` clears the timer, removes the listener and calls the callback |
| TransitionsEnd.EndWatcher.OnEndEvent | src/lib/transition-utils.ts:55-59 | an end event changes the fields as `Step` says and keeps the invariant |
| TransitionsEnd.EndWatcher.OnTimeout | src/lib/transition-utils.ts:60 | the timer changes the fields as `Step` says and keeps the invariant |
| TransitionsEnd.EndWatcher.Cancel | src/lib/transition-utils.ts:63-66 | `clearTimeouts` removes timer and listener without running the callback, keeping the invariant |
| SingleTransition.Prefix | src/lib/Transition.tsx:156-159 | the prefix is `name`, or `t` when it is empty |
| TransitionProperties.DefaultClassNames | src/lib/Transition.tsx:278-294 | without overrides the six classes are the prefix followed by `-enter`, `-entering`, `-enter-to`, `-leave`, `-leaving`, `-leave-to` |
| TransitionProperties.OverrideReplacesOnlyItsOwnClass | src/lib/Transition.tsx:278-294 | a given override is used as it is, and each class depends only on `name` and its own override |
| TransitionProperties.ClassLifecycle | src/lib/Transition.tsx:296-309 | the start adds the initial and active classes; the frame step swaps initial for post; completion removes active and post; the element ends with none of the three and its other classes as before; other elements are untouched |
| TransitionProperties.InitialState | src/lib/Transition.tsx:56-61 | the child comes from the props; there is no old child; entering exactly when `appear`; not leaving; nothing running; the child ref names the child |
| TransitionProperties.MountStartsAppear | src/lib/Transition.tsx:72-98 | with `appear`, mounting adds the enter stage's initial and active classes to the child, calls `onBeforeAppear` and queues one frame; without it nothing starts |
| TransitionProperties.RenderRule | build/dist/lib/Transition.js:176-178 | without an old child only the child renders; with one, out-in renders only the old child and the other modes render both; the build also renders only the old child when there is no child; the versions agree otherwise |
| TransitionProperties.CommitRefs | src/lib/Transition.tsx:136-146 | after a commit each ref names its element exactly when its wrapper is rendered, and nothing else changes |
| TransitionProperties.OldChildRefFallback | build/dist/lib/Transition.js:195-201 | the build's `oldChildRef` stands in the child's element when `children` is empty |
| TransitionProperties.FrameStep | src/lib/Transition.tsx:191-199 | the frame step swaps the initial class for the post class; a hook taking `done` gets it and nothing is armed; otherwise the hook is called and a completion is armed under a fresh handle in the phase's slot |
| TransitionProperties.TriggerPrecedence | build/dist/lib/Transition.js:208-216 | a given `duration` arms a timer of that many ms; in the build `noCss` arms a timer of `duration \|\| 0` ms; otherwise the CSS is sniffed, and only then |
| TransitionProperties.CancelSlotEffect | src/lib/Transition.tsx:264-267 | one slot: its canceller runs, the cancel hook is called if the slot is occupied, nothing else changes |
| TransitionProperties.CancelOrder | src/lib/Transition.tsx:263-276 | `_clearTimeouts` runs every canceller, calls the cancel hooks of occupied slots in the order appear, enter, leave with the refs' elements, and keeps the slots, so a later call fires the same hooks again |
| TransitionScenario.ChangeLogsCancels | build/dist/lib/Transition.js:132-164 | a change of the child's identity that out-in does not ignore takes the new props, keeps the slots, and without `onBefore*` hooks adds to the log exactly the cancel hooks of `_clearTimeouts`, in order, with the elements of the commit that shows the new props |
| TransitionScenario.InterruptedPhasesCancel | src/lib/__tests__/Transition.test.tsx:162-205 | mounted with `appear` and the three cancel hooks: emptying `children` a frame later calls `onCancelAppear` once, with the child's element; bringing the child back a frame later calls `onCancelLeave` (and `onCancelAppear` again) with that element; replacing it a frame later calls `onCancelEnter` once, and both children are rendered |
| TransitionProperties.CancelledNeverCompletes | src/lib/Transition.tsx:254-261 | a completion whose canceller has run does nothing when it would fire |
| TransitionProperties.UnmountCancels | build/dist/lib/Transition.js:165-168 | unmounting runs `_clearTimeouts`, sets the flag and detaches the refs; the React state stays |
| TransitionProperties.NoElementNoPhase | src/lib/Transition.tsx:187-212 | starting an enter without a child element, or a leave without an old-child element, does nothing |
| TransitionProperties.SetPropsChanged | src/lib/Transition.tsx:100-108 | when the identity of `children` changes, `componentWillReceiveProps` leaves the state alone and `componentDidUpdate` decides |
| TransitionProperties.SameIdentityReplacesChild | src/lib/Transition.tsx:100-108 | with the same identity the new element replaces the child, and nothing starts or is cancelled |
| TransitionProperties.OutInIgnoresChangeWhileLeaving | src/lib/Transition.tsx:113-117 | in out-in mode a change while the old child leaves is ignored |
| TransitionProperties.ModeDispatch | src/lib/Transition.tsx:110-129 | a change between two present children cancels what runs, makes the previous child the old child, and queues the enter frame unless out-in and the leave frame unless in-out (enter first in the sources, leave first in the build) |
| TransitionProperties.BuildChildRemoved | build/dist/lib/Transition.js:140-147 | when `children` becomes empty, the child moves to `oldChild` and starts leaving at once on its element; only the old child is rendered afterwards. This holds in every mode when no old child is shown, and outside out-in mode also while an old child is still leaving, which the removed child then replaces |
| TransitionProperties.BuildChildAdded | build/dist/lib/Transition.js:148-153 | when `children` appears, in every mode the old child is dropped and the new child enters |
| TransitionProperties.CompleteAppear | src/lib/Transition.tsx:81-85 | the appear's completion empties its slot, removes the classes, calls `onAfterAppear` and leaves the React state alone |
| TransitionProperties.CompleteEnter | src/lib/Transition.tsx:229-239 | the enter's completion empties its slot and clears `isEntering`; in in-out mode the leave then starts on the old-child element |
| TransitionProperties.EnterDoneStartsLeave | src/lib/Transition.tsx:237 | in in-out mode, in either version, the enter's completion sets `isLeaving` and queues the leave frame |
| TransitionProperties.CompleteLeave | src/lib/Transition.tsx:241-252 | the leave's completion empties its slot, drops the old child and clears `isLeaving`; in out-in mode the child from the props then enters |
| TransitionProperties.LeaveDoneStartsEnter | src/lib/Transition.tsx:250 | in out-in mode the leave's completion makes the child from the props enter |
| TransitionProperties.LeaveFlushSrc | src/lib/Transition.tsx:205-227 | the sources start the leave after the commit that sets `isLeaving` |
| TransitionProperties.LeaveFlushBuild | build/dist/lib/Transition.js:55-75 | the build starts the leave at once, before the commit that sets `isLeaving` |
| TransitionProperties.ChildOutFrame | build/dist/lib/Transition.js:59-64 | starting a leave queues the leave frame of the old-child element, if there is one, and changes no state |
| TransitionProperties.FiresOnce | src/lib/Transition.tsx:254-261 | a completion fires at most once: afterwards its handle is gone, and firing again changes nothing |
| TransitionProperties.UnmountedFreezesState | build/dist/lib/Transition.js:205-207 | once unmounted, frames, completions and `done` calls leave the React state as it is, and a completion queues no update |
| TransitionProperties.UnmountThenFrozen | build/dist/lib/Transition.js:165-168 | after unmounting, later frames and completions never change the React state |
| TransitionComponent.Transition.constructor | src/lib/Transition.tsx:56-98 | construction, first render and `componentDidMount` end in `Mount` |
| TransitionComponent.Transition.SafelySetState | src/lib/Transition.tsx:173-178 | an update and its callback are queued unless the component is unmounted |
| TransitionComponent.Transition.CallHook | src/lib/utils.ts:3-5 | a hook call is recorded only when the hook is given |
| TransitionComponent.Transition.ApplyInitialClasses | src/lib/Transition.tsx:296-299 | adds the initial and active classes of the stage |
| TransitionComponent.Transition.ApplyActiveClasses | src/lib/Transition.tsx:301-304 | removes the initial class and adds the post class |
| TransitionComponent.Transition.CommitRender | src/lib/Transition.tsx:136-154 | a commit points the child ref at the child's element exactly when its wrapper is rendered, and the old-child ref at the old child's element exactly when its wrapper is, as `Commit` and `RenderView` say |
| TransitionComponent.Transition.AddClass | src/lib/Transition.tsx:296-309 | `classList.add` puts the class on that one element and changes nothing else |
| TransitionComponent.Transition.RemoveClass | src/lib/Transition.tsx:296-309 | `classList.remove` takes the class off that one element and changes nothing else |
| TransitionComponent.Transition.ApplyPostClasses | src/lib/Transition.tsx:306-309 | removes the active and post classes |
| TransitionComponent.Transition.BeginPhase | src/lib/Transition.tsx:187-191 | initial classes, `onBefore*` and one queued frame |
| TransitionComponent.Transition.ChildIn | src/lib/Transition.tsx:186-201 | the enter starts on the child element, or nothing happens without one |
| TransitionComponent.Transition.ChildOut | src/lib/Transition.tsx:210-225 | the leave starts on the old-child element, or nothing happens without one |
| TransitionComponent.Transition.TransitionChildIn | src/lib/Transition.tsx:180-203 | marks entering, takes the child from the props and starts the enter after the commit |
| TransitionComponent.Transition.TransitionChildOut | build/dist/lib/Transition.js:55-75 | marks leaving, and starts the leave after the commit (sources) or at once (build) |
| TransitionComponent.Transition.RunCallback | src/lib/Transition.tsx:123-126 | a queued `setState` callback (the mode dispatch, the start of a phase, the follow-up of a completion) runs as `RunCont` says |
| TransitionComponent.Transition.ArmCompletion | src/lib/Transition.tsx:254-261 | arms a timer or the end-event watcher and keeps its canceller in the phase's slot |
| TransitionComponent.Transition.RunFrameTask | src/lib/Transition.tsx:191-199 | the frame step of a phase |
| TransitionComponent.Transition.CompletePhase | src/lib/Transition.tsx:229-252 | the completion callback of a phase |
| TransitionComponent.Transition.CancelPhase | src/lib/Transition.tsx:264-267 | one slot of `_clearTimeouts` |
| TransitionComponent.Transition.ClearTimeouts | src/lib/Transition.tsx:263-276 | the three slots in order |
| TransitionComponent.Transition.ComponentDidUpdate | build/dist/lib/Transition.js:132-164 | `componentDidUpdate` with the build's removed and added branches |
| TransitionComponent.Transition.SetProps | src/lib/Transition.tsx:100-129 | new `children`: `componentWillReceiveProps`, render and commit, `componentDidUpdate`, flush |
| TransitionComponent.Transition.FrameTick | src/lib/utils.ts:27-29 | a frame runs the oldest queued frame task as `FrameTick` says |
| TransitionComponent.Transition.FireCompletion | src/lib/Transition.tsx:254-261 | a timer or watcher completes; only a live handle does anything |
| TransitionComponent.Transition.CallDone | src/lib/Transition.tsx:192-194 | a hook calls the `done` it was given |
| TransitionComponent.Transition.Unmount | build/dist/lib/Transition.js:165-168 | `componentWillUnmount`, then the refs detach |
| Group.MoveClass | build/dist/lib/TransitionGroup.js:113-119 | the move class is `name` followed by `-move`, or `t-move` |
| Group.WrapChild | build/dist/lib/TransitionGroup.js:120-126 | a wrapped child keeps its key, always has `appear` on, and its `onAfterLeave` is held apart from its props |
| Group.WrapPrecedence | build/dist/lib/TransitionGroup.js:120-126 | a build `Transition` child keeps its own value of every prop and takes the group's only where it has none, keeping its own children; any other child gets exactly the group's props and is wrapped |
| Group.WrapChildren | src/lib/TransitionGroup.tsx:66-72 | every child is wrapped, in order |
| Group.FindKey | src/lib/TransitionGroup.tsx:27 | `findIndex` gives the first index with the key, or -1 when none has it |
| Group.Leaving | src/lib/TransitionGroup.tsx:32-46 | a leaving entry keeps key and props, has no children, and its `onAfterLeave` runs the old one and then unmounts its key |
| Group.Span | src/lib/TransitionGroup.tsx:25 | the loop covers max(old length, new length) indices |
| Group.StepPlacement | src/lib/TransitionGroup.tsx:26-50 | a persisting key's new entry goes to the first free slot at or after its new index; a leaving entry to the first free slot at or after its old index; a new key's entry to the first free slot at or after `i`; occupied slots are kept; past the old length only new keys are placed |
| Group.MergedPlacesEachKeyOnce | src/lib/TransitionGroup.tsx:25-50 | with the keys of each list distinct, every key of either list occupies exactly one slot of the merged list and no other key occupies any |
| Group.MergedOrigins | src/lib/TransitionGroup.tsx:29-50 | every merged entry is an entry of the new list, or a leaving copy of an old entry whose key the new list lacks |
| Group.MovingRecordsPersisting | build/dist/lib/TransitionGroup.js:55-66 | `_movingChildren` holds exactly the persisting old entries, each with its position before the update |
| Group.ChildMoveCases | build/dist/lib/TransitionGroup.js:142-151 | a move does nothing when the element is missing or has not moved; otherwise it sets the inverse offset as transform and queues a frame, and nothing else |
| Group.ClearStep | build/dist/lib/TransitionGroup.js:135-141 | running the cancellers one key at a time, in any order, ends in the same state |
| Group.CancelIsCompletion | build/dist/lib/TransitionGroup.js:155-163 | a canceller does exactly what its watcher's own completion would do |
| Group.ChildMoveValid | build/dist/lib/TransitionGroup.js:142-151 | a move keeps the cancellers consistent with the waiting watchers |
| Group.RunFrameValid | build/dist/lib/TransitionGroup.js:152-164 | a move's frame registers a fresh watcher as its key's canceller and keeps them consistent |
| Group.MoveDoneValid | build/dist/lib/TransitionGroup.js:155-158 | a completion keeps the cancellers consistent |
| Group.ClearTransitionsEffect | build/dist/lib/TransitionGroup.js:135-141 | afterwards no canceller is registered, no cancelled watcher waits, and every element with a move in flight has lost the move class; other elements keep their classes |
| Group.MoveLifecycle | build/dist/lib/TransitionGroup.js:142-165 | a non-zero move puts the transform on and queues a frame; the frame adds the move class, removes the transform and registers a watcher; its completion removes the class and the canceller; other elements' classes are untouched |
| Group.StaleDoneIgnored | build/dist/lib/TransitionGroup.js:155-158 | a watcher that is no longer waiting changes nothing |
| Group.Initial | build/dist/lib/TransitionGroup.js:36-44 | the first list holds every child wrapped with the initial props, and no move is in flight |
| Group.CallbackTwice | build/dist/lib/TransitionGroup.js:89-95 | running the move callback a second time changes nothing when the moving elements had no transform and the records agree per key |
| Group.RepeatedCallbackOnce | build/dist/lib/TransitionGroup.js:85-95 | handing the callback to each of the loop's `setState` calls has the effect of running it once |
| Group.ReceiveValid | build/dist/lib/TransitionGroup.js:45-101 | an update keeps the cancellers consistent |
| Group.FindSlot | build/dist/lib/TransitionGroup.js:129 | `findIndex` finds the first entry with the key, runs off the end, or throws at a hole reached first |
| Group.SpliceOne | build/dist/lib/TransitionGroup.js:130 | `splice(start, 1)` removes the entry at `start`, counts a negative start from the end, and removes nothing past the end |
| Group.UnmountAtKeyAsWritten | build/dist/lib/TransitionGroup.js:127-134 | `_unmountAtKey` as written: a hole reached first throws; a key that is found has its one entry removed, the rest in order; a key that is missing from a non-empty list costs it its last entry |
| Group.UnmountAtKey | build/dist/lib/TransitionGroup.js:127-134 | the corrected removal: the same, except that a missing key leaves the list alone |
| Group.UnmountRemovesEntry | src/lib/TransitionGroup.tsx:74-81 | when the key is there, that one entry goes and the rest keep their order; its key's count drops by one and every other key's count stays |
| Group.UnmountMissingRemovesLast | src/lib/TransitionGroup.tsx:74-81 | as written, a missing key removes the last entry; the corrected version leaves the list alone |
| Group.UnmountIdempotent | build/dist/lib/TransitionGroup.js:127-134 | on a list without holes where the key occurs at most once, a second removal of the same key changes nothing |
| Group.UnmountDenseMissing | build/dist/lib/TransitionGroup.js:127-134 | the corrected removal leaves a list without holes alone when the key is absent |
| Group.LeavingHookThenRemove | build/dist/lib/TransitionGroup.js:69-79 | a leaving entry's `onAfterLeave` calls the wrapped hook first and then removes its key's entry; nothing else changes |
| Group.DoubleLeaveRemovesSibling | build/dist/lib/TransitionGroup.js:67-80 | [a, b] updated to [b] twice wraps a's `onAfterLeave` twice; as written a's completion then empties the list, and corrected it leaves [b] |
| GroupComponent.TransitionGroup.constructor | build/dist/lib/TransitionGroup.js:36-44 | the instance starts as `Initial` |
| GroupComponent.TransitionGroup.ReceiveProps | build/dist/lib/TransitionGroup.js:45-101 | the update, commit and callback end in `Receive` |
| GroupComponent.TransitionGroup.MergeChildren | build/dist/lib/TransitionGroup.js:49-100 | the loop fills the merged list as `Merged` says, records `_movingChildren` when moves are enabled, and resets exactly their transforms |
| GroupComponent.TransitionGroup.MergeIndex | build/dist/lib/TransitionGroup.js:52-84 | one pass places the old entry and the new one as `MergeStep` says and records a persisting child |
| GroupComponent.TransitionGroup.MoveCallback | build/dist/lib/TransitionGroup.js:89-95 | `_clearTransitions`, then a move per record, in order |
| GroupComponent.TransitionGroup.ClearTransitions | build/dist/lib/TransitionGroup.js:135-141 | every registered canceller runs |
| GroupComponent.TransitionGroup.CancelMove | build/dist/lib/TransitionGroup.js:160-163 | one canceller: the watcher goes, then its completion runs |
| GroupComponent.TransitionGroup.TransitionChildMove | build/dist/lib/TransitionGroup.js:142-151 | one move as `ChildMove` says |
| GroupComponent.TransitionGroup.FrameTick | build/dist/lib/TransitionGroup.js:152-164 | the oldest queued move frame as `RunFrame` says |
| GroupComponent.TransitionGroup.MoveTransitionsEnd | build/dist/lib/TransitionGroup.js:155-158 | a watcher's completion as `MoveDone` says |
| GroupComponent.TransitionGroup.UnmountAtKey | build/dist/lib/TransitionGroup.js:127-134 | with `asWritten` the program's removal (a missing key removes the last entry), without it the corrected one; a hole reached first is reported as a throw |
| GroupComponent.TransitionGroup.CallAfterLeave | build/dist/lib/TransitionGroup.js:74-77 | a wrapped `onAfterLeave` runs the inner hook, then the removal of its key, as written or corrected as `asWritten` says |
| GroupComponent.TransitionGroup.LeaveDone | build/dist/lib/Transition.js:84-87 | the `Transition` under a key finishes leaving and calls its `onAfterLeave`, with the removal as written or corrected as `asWritten` says |

## Left out

- Frame scheduling (`raf`, `onNextFrame`, the polyfill) is not modelled. A frame is an input event that runs the oldest queued frame callback.
- Browser APIs (`getComputedStyle`, listeners, `setTimeout`, `getBoundingClientRect`, `findDOMNode`) are not modelled. Their results are parameters or input events.
- Floating point is not modelled:
  - Times are whole milliseconds parsed from decimals with at most three fraction digits.
  - More fraction digits, exponents, hex, `Infinity`, and anything `Number` would read differently, read as `NaN` (`None`).
  - Pixel positions are integers.
- Hook arity (`.length >= 2`) is not inspected. It is an explicit per-phase flag in the configuration.
- React's batching is not modelled in full. `setState` callbacks run after the commit of their round. Outside React's own handlers, React 16 applies `setState` synchronously; the model assumes this for the group's removal after a leave.
- React element details are left out: `React.Children.map`'s re-keying, `cloneElement` merging and `React.Children.only`. Elements are (key, type, props) records; a group child's key is kept as given.
- Remounting of the wrappers is not modelled. A DOM element is named by the identity (key and type) of the element rendered into it. React, however, makes a new wrapper, and so a new DOM node, when a child moves between the lone `child` wrapper and the `bothChildren` wrapper. This happens when the old child appears or disappears in the render (src/lib/Transition.tsx:153, build/dist/lib/Transition.js:176-178), because `TransitionWrapper` renders its children directly (src/lib/TransitionWrapper.tsx:14-22). Classes put on the node before such a move are lost in the browser, but the model keeps them in `classes`, under the element's identity. Two moves are affected. When a change starts outside out-in mode, the previous child's node is re-created. When the leave ends, the current child's node is re-created, so an enter that outlasts the leave loses its classes.
- A prop that is not a string, or a hook that is not a function, counts as absent (`NameText`, `HookCall`).
- TransitionComponent.Transition.constructor: requires a child when `appear` is set. The source throws reading `classList` of `null` there, which the model does not represent.
- GroupComponent.TransitionGroup.MergeChildren: a persisting child whose element cannot be found (`findDOMNode` giving `null`) throws in the build. The model always has a position for it (`before`).
- Group.MergedPlacesEachKeyOnce: assumes that keys are distinct within each list, as React requires. That the merged list has no holes is not proved.
- Group.RepeatedCallbackOnce: the build's repeated `setState` callback is modelled as one run, and this lemma shows the two agree. The intermediate renders between the loop's `setState` calls are not modelled.
- The concrete totals of the `totalTransitionDuration` unit tests (`('1s, 2s', '0, 7s')` and `('1s, 2s', '1s')`) are not restated as examples. `LongestEntry`, `CycleIsModulo` and `OneDelay` state the general rule.
- `TransitionWrapper`, the demo `App`, the build configuration and the test setup are not part of this model. They render only, or do not belong to the library.

## Findings

| source | as written | input that shows it | evidently intended | confidence | as-written member | corrected member |
|---|---|---|---|---|---|---|
| src/lib/utils.ts:8 | `(!a && !b) \|\| (a && b && ...)` yields `undefined` when exactly one element is absent | `componentsEqual(undefined, <div/>)` | a boolean `false`, as the unit test expects and the build's `!!` produces | not executed | Utils.ComponentsEqualAsWrittenNotBoolean | Utils.ComponentsEqual |
| build/dist/lib/TransitionGroup.js:127-134 | `_unmountAtKey` splices at `findIndex`'s answer even when it is -1, which removes the last entry | children [a, b] re-rendered as [b] twice before a's leave ends: a's `onAfterLeave` is wrapped twice, so it unmounts `a` twice and the second call removes `b` | a key that is no longer in the list leaves the list alone | not executed | Group.DoubleLeaveRemovesSibling | Group.UnmountIdempotent |
