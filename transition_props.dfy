/**
 * What the single-element controller promises, stated over the snapshot
 * functions of `SingleTransition`.
 */
module TransitionProperties {
  import opened Wrappers
  import opened Utils
  import opened SingleTransition

  // ---------------------------------------------------------------------------
  // Class names
  // ---------------------------------------------------------------------------

  /** No class-name prop is given. */
  const NoOverrides := ClassOverrides("", "", "", "", "", "")

  /** Without overrides the six names are the prefix (`name`, or `t`) followed by a fixed suffix. */
  lemma {:induction false} DefaultClassNames(cfg: Config)
    requires cfg.overrides == NoOverrides
    ensures var p := if cfg.name == "" then "t" else cfg.name;
      && InitialClass(cfg, EnterStage) == p + "-enter"
      && ActiveClass(cfg, EnterStage) == p + "-entering"
      && PostClass(cfg, EnterStage) == p + "-enter-to"
      && InitialClass(cfg, LeaveStage) == p + "-leave"
      && ActiveClass(cfg, LeaveStage) == p + "-leaving"
      && PostClass(cfg, LeaveStage) == p + "-leave-to"
  {
  }

  /**
   * A given override is used as it is, and each name depends only on `name`
   * and its own override: two configurations that agree on those agree on
   * the name, whatever the other five overrides are.
   */
  lemma {:induction false} OverrideReplacesOnlyItsOwnClass(c1: Config, c2: Config)
    requires c1.name == c2.name
    ensures c1.overrides.enterClass != "" ==> InitialClass(c1, EnterStage) == c1.overrides.enterClass
    ensures c1.overrides.enteringClass != "" ==> ActiveClass(c1, EnterStage) == c1.overrides.enteringClass
    ensures c1.overrides.enterToClass != "" ==> PostClass(c1, EnterStage) == c1.overrides.enterToClass
    ensures c1.overrides.leaveClass != "" ==> InitialClass(c1, LeaveStage) == c1.overrides.leaveClass
    ensures c1.overrides.leavingClass != "" ==> ActiveClass(c1, LeaveStage) == c1.overrides.leavingClass
    ensures c1.overrides.leaveToClass != "" ==> PostClass(c1, LeaveStage) == c1.overrides.leaveToClass
    ensures c1.overrides.enterClass == c2.overrides.enterClass ==> InitialClass(c1, EnterStage) == InitialClass(c2, EnterStage)
    ensures c1.overrides.enteringClass == c2.overrides.enteringClass ==> ActiveClass(c1, EnterStage) == ActiveClass(c2, EnterStage)
    ensures c1.overrides.enterToClass == c2.overrides.enterToClass ==> PostClass(c1, EnterStage) == PostClass(c2, EnterStage)
    ensures c1.overrides.leaveClass == c2.overrides.leaveClass ==> InitialClass(c1, LeaveStage) == InitialClass(c2, LeaveStage)
    ensures c1.overrides.leavingClass == c2.overrides.leavingClass ==> ActiveClass(c1, LeaveStage) == ActiveClass(c2, LeaveStage)
    ensures c1.overrides.leaveToClass == c2.overrides.leaveToClass ==> PostClass(c1, LeaveStage) == PostClass(c2, LeaveStage)
  {
  }

  /**
   * The class lifecycle of a phase on its element: the start adds the
   * initial and the active class, the frame step swaps the initial class
   * for the post class, completion removes the active and the post class.
   * A finished phase leaves none of the three behind, every other class of
   * the element is as before, and no other element is touched.
   */
  lemma {:induction false} ClassLifecycle(cfg: Config, m: ClassLists, st: Stage, el: Identity)
    ensures var i, a, p := InitialClass(cfg, st), ActiveClass(cfg, st), PostClass(cfg, st);
      var m1 := AddInitial(cfg, m, st, el);
      var m2 := AddActive(cfg, m1, st, el);
      var m3 := AddPost(cfg, m2, st, el);
      && i in m1[el] && a in m1[el]
      && (i != p ==> i !in m2[el]) && (a != i ==> a in m2[el]) && p in m2[el]
      && i !in m3[el] && a !in m3[el] && p !in m3[el]
      && (forall c :: c != i && c != a && c != p ==> (c in m3[el] <==> c in ClassesOf(m, el)))
      && (forall e :: e != el ==> ClassesOf(m3, e) == ClassesOf(m, e))
  {
  }

  // ---------------------------------------------------------------------------
  // Mounting
  // ---------------------------------------------------------------------------

  /**
   * The initial state: the child from the props, no old child, entering
   * exactly when `appear` is set, not leaving, nothing running; the first
   * commit points the child ref at the child.
   */
  lemma {:induction false} InitialState(cfg: Config, children: Option<Element>)
    ensures var s := Initial(cfg, children);
      && s.state.child == children && s.state.oldChild == None
      && s.state.isEntering == cfg.appear && !s.state.isLeaving && !s.unmounted
      && s.childRef == IdentityOf(children) && s.oldRef == None
      && s.slots == Slots(None, None, None) && s.live == map[] && Quiet(s)
  {
  }

  /**
   * Mounting with `appear` starts the appear on the child's element: the
   * enter stage's initial and active classes, `onBeforeAppear`, and one frame
   * queued; without `appear` nothing starts.
   */
  lemma {:induction false} MountStartsAppear(cfg: Config, children: Option<Element>)
    requires cfg.appear ==> children.Some?
    ensures var s := Mount(cfg, children);
      && (cfg.appear ==> var el := IdentityOf(children).value;
            && s.frames == [FrameTask(Appear, el)]
            && ClassesOf(s.classes, el) == {InitialClass(cfg, EnterStage), ActiveClass(cfg, EnterStage)}
            && s.log == (if BeforeHook(Appear) in cfg.hooks then [HookCall(BeforeHook(Appear), Some(el))] else []))
      && (!cfg.appear ==> s == Initial(cfg, children) && s.frames == [] && s.log == [])
  {
  }

  // ---------------------------------------------------------------------------
  // Rendering
  // ---------------------------------------------------------------------------

  /**
   * The render rule. Without an old child only the current child renders.
   * With one, out-in renders only the old child and the other modes render
   * both, except that the build renders only the old child when there is no
   * current child; the two versions differ in nothing else.
   */
  lemma {:induction false} RenderRule(v: Version, mode: Mode, child: Option<Element>, oldChild: Option<Element>)
    ensures oldChild.None? ==> RenderView(v, mode, child, oldChild) == OnlyChild
    ensures oldChild.Some? && mode == OutIn ==> RenderView(v, mode, child, oldChild) == OnlyOld
    ensures oldChild.Some? && mode != OutIn && child.Some? ==> RenderView(v, mode, child, oldChild) == Both
    ensures oldChild.Some? && mode != OutIn && child.None? ==>
      RenderView(v, mode, child, oldChild) == (if v == Src then Both else OnlyOld)
    ensures child.Some? ==> RenderView(Src, mode, child, oldChild) == RenderView(Build, mode, child, oldChild)
  {
  }

  /**
   * After a commit the child ref names the current child exactly when its
   * wrapper is rendered, and the old-child ref the old child exactly when
   * its wrapper is.
   */
  lemma {:induction false} CommitRefs(cfg: Config, s: State)
    ensures var r := Commit(cfg, s); var view := RenderView(cfg.version, cfg.mode, s.state.child, s.state.oldChild);
      && (r.childRef.Some? <==> s.state.child.Some? && view != OnlyOld)
      && (r.childRef.Some? ==> r.childRef == IdentityOf(s.state.child))
      && (r.oldRef.Some? <==> s.state.oldChild.Some? && view != OnlyChild)
      && (r.oldRef.Some? ==> r.oldRef == IdentityOf(s.state.oldChild))
      && r.(childRef := s.childRef, oldRef := s.oldRef) == s
  {
  }

  /** The build's `oldChildRef` stands in the current child's element when `children` is empty. */
  lemma {:induction false} OldChildRefFallback(cfg: Config, s: State)
    ensures cfg.version == Build && s.props.None? ==> OldChildRef(cfg, s) == s.childRef
    ensures cfg.version == Src || s.props.Some? ==> OldChildRef(cfg, s) == s.oldRef
  {
  }

  // ---------------------------------------------------------------------------
  // How completion is detected
  // ---------------------------------------------------------------------------

  /**
   * The frame step of a phase. A hook that takes `done` is called with it and
   * nothing is armed; otherwise the `on*` hook (if any) is called and a
   * completion is armed under a fresh handle kept in the phase's slot, with
   * the trigger `ArmTrigger` picks. Either way the initial class gives way
   * to the post class.
   */
  lemma {:induction false} FrameStep(cfg: Config, s: State, f: FrameTask)
    ensures var r := RunFrame(cfg, s, f); var st := StageOf(f.phase);
      && r.classes == AddActive(cfg, s.classes, st, f.el)
      && (ExplicitDone(cfg, f.phase) ==>
            && r.live == s.live && r.slots == s.slots && r.nextHandle == s.nextHandle
            && r.dones == s.dones + [DoneCallback(f.phase, f.el)]
            && r.log == s.log + [HookCall(OnHook(f.phase), Some(f.el))])
      && (!ExplicitDone(cfg, f.phase) ==>
            && s.nextHandle !in s.live ==> s.nextHandle in r.live && r.live[s.nextHandle] == Armed(f.phase, f.el, ArmTrigger(cfg)))
      && (!ExplicitDone(cfg, f.phase) ==>
            && r.slots.Get(f.phase) == Some(s.nextHandle)
            && (forall q :: q != f.phase ==> r.slots.Get(q) == s.slots.Get(q))
            && r.nextHandle == s.nextHandle + 1 && r.dones == s.dones)
  {
  }

  /**
   * `_onTransitionsEnd`'s order of precedence: a given `duration` arms a
   * timer of exactly that many milliseconds (none when it is negative); in
   * the build `noCss` also arms a timer, of zero milliseconds when no
   * duration is given; in every other case the CSS is sniffed.
   */
  lemma {:induction false} TriggerPrecedence(cfg: Config)
    ensures cfg.duration > 0 ==> ArmTrigger(cfg) == Timer(cfg.duration)
    ensures cfg.duration < 0 ==> ArmTrigger(cfg) == Timer(0)
    ensures cfg.duration == 0 && cfg.version == Build && cfg.noCss ==> ArmTrigger(cfg) == Timer(0)
    ensures cfg.duration == 0 && (cfg.version == Src || !cfg.noCss) ==> ArmTrigger(cfg) == Sniffed(cfg.requested)
    ensures ArmTrigger(cfg).Sniffed? <==> cfg.duration == 0 && (cfg.version == Src || !cfg.noCss)
  {
  }

  // ---------------------------------------------------------------------------
  // Cancellation
  // ---------------------------------------------------------------------------

  /** The handles in the slots. */
  function SlotHandles(sl: Slots): set<nat>
  {
    (if sl.appear.Some? then {sl.appear.value} else {})
    + (if sl.enter.Some? then {sl.enter.value} else {})
    + (if sl.leave.Some? then {sl.leave.value} else {})
  }

  /** The cancel hook of a phase, if its slot is occupied and the hook is given. */
  function CancelCall(cfg: Config, sl: Slots, p: Phase, el: Option<Identity>): seq<HookCall>
  {
    if sl.Get(p).Some? && CancelHook(p) in cfg.hooks then [HookCall(CancelHook(p), el)] else []
  }

  /** One slot: the canceller held there (if any) is run and the cancel hook called; nothing else changes. */
  lemma {:induction false} CancelSlotEffect(cfg: Config, s: State, p: Phase, el: Option<Identity>)
    ensures var r := CancelSlot(cfg, s, p, el);
      && r.live == s.live - (if s.slots.Get(p).Some? then {s.slots.Get(p).value} else {})
      && r.log == s.log + CancelCall(cfg, s.slots, p, el)
      && r.(live := s.live, log := s.log) == s
  {
  }

  /**
   * `_clearTimeouts`: every canceller in a slot is run (its completion can
   * no longer fire); the cancel hooks of the occupied slots are called in
   * the order appear, enter, leave, with the element found through the refs;
   * nothing else changes, and in particular the slots keep their cancellers,
   * so a later `_clearTimeouts` calls the same cancel hooks again.
   */
  lemma {:induction false} CancelOrder(cfg: Config, s: State)
    ensures var r := ClearTimeouts(cfg, s);
      var forward := s.childRef.OrElse(OldChildRef(cfg, s));
      var backward := OldChildRef(cfg, s).OrElse(s.childRef);
      && r.slots == s.slots
      && r.live == s.live - SlotHandles(s.slots)
      && r.log == s.log + CancelCall(cfg, s.slots, Appear, forward) + CancelCall(cfg, s.slots, Enter, forward)
                        + CancelCall(cfg, s.slots, Leave, backward)
      && r.(live := s.live, log := s.log) == s
  {
    var forward := s.childRef.OrElse(OldChildRef(cfg, s));
    var backward := OldChildRef(cfg, s).OrElse(s.childRef);
    var s1 := CancelSlot(cfg, s, Appear, forward);
    CancelSlotEffect(cfg, s, Appear, forward);
    var s2 := CancelSlot(cfg, s1, Enter, forward);
    CancelSlotEffect(cfg, s1, Enter, forward);
    var s3 := CancelSlot(cfg, s2, Leave, backward);
    CancelSlotEffect(cfg, s2, Leave, backward);
    assert s3 == ClearTimeouts(cfg, s);
  }

  /** A cancelled completion never fires: its handle is no longer live. */
  lemma {:induction false} CancelledNeverCompletes(cfg: Config, s: State, id: nat)
    requires id in SlotHandles(s.slots)
    ensures FireCompletion(cfg, ClearTimeouts(cfg, s), id) == ClearTimeouts(cfg, s)
  {
    CancelOrder(cfg, s);
  }

  /** Unmounting runs `_clearTimeouts`, then sets the flag and drops the refs. */
  lemma {:induction false} UnmountCancels(cfg: Config, s: State)
    ensures var r := Unmount(cfg, s); var c := ClearTimeouts(cfg, s);
      && r.unmounted && r.childRef == None && r.oldRef == None
      && r.log == c.log && r.live == c.live && r.slots == s.slots
      && r.state == s.state && r.props == s.props
  {
    CancelOrder(cfg, s);
  }

  // ---------------------------------------------------------------------------
  // No element
  // ---------------------------------------------------------------------------

  /** Starting an enter without a child element, or a leave without an old child element, does nothing. */
  lemma {:induction false} NoElementNoPhase(cfg: Config, s: State)
    ensures s.childRef.None? ==> ChildIn(cfg, s) == s
    ensures OldChildRef(cfg, s).None? ==> ChildOut(cfg, s) == s
  {
  }

  // ---------------------------------------------------------------------------
  // A change of child
  // ---------------------------------------------------------------------------

  /** When the identity of `children` changes, `componentWillReceiveProps` leaves the state alone. */
  lemma {:induction false} SetPropsChanged(cfg: Config, s: State, next: Option<Element>)
    requires Quiet(s) && !ComponentsEqual(s.props, next)
    ensures SetProps(cfg, s, next) == Flush(cfg, DidUpdate(cfg, Commit(cfg, s.(props := next)), s.props))
  {
    assert ApplyAll(s.state, s.pending) == s.state;
  }

  /**
   * With the same identity the new element replaces the child in the state
   * and nothing starts or is cancelled.
   */
  lemma {:induction false} SameIdentityReplacesChild(cfg: Config, s: State, next: Option<Element>)
    requires Quiet(s) && !s.unmounted && ComponentsEqual(s.props, next)
    ensures var r := SetProps(cfg, s, next);
      && r.state.child == next && r.props == next
      && r.state.oldChild == s.state.oldChild && r.state.isEntering == s.state.isEntering && r.state.isLeaving == s.state.isLeaving
      && r.frames == s.frames && r.log == s.log && r.live == s.live && r.slots == s.slots
  {
    assert ApplyAll(s.state, [SetChild(next)]) == Apply(ApplyAll(s.state, []), SetChild(next));
  }

  /** In out-in mode a change that arrives while the old child is leaving is ignored (`componentDidUpdate` returns early). */
  lemma {:induction false} OutInIgnoresChangeWhileLeaving(cfg: Config, s: State, next: Option<Element>)
    requires Quiet(s) && !ComponentsEqual(s.props, next)
    requires cfg.mode == OutIn && s.state.isLeaving
    ensures SetProps(cfg, s, next) == Commit(cfg, s.(props := next))
  {
    SetPropsChanged(cfg, s, next);
  }

  /**
   * The frames a change of child queues: the enter of the new child unless
   * the mode is out-in, the leave of the previous child unless it is in-out.
   * The TypeScript sources start both after the same commit, enter first;
   * the build starts the leave at once and the enter one commit later.
   */
  function DispatchOrder(cfg: Config, prev: Identity, next: Identity): seq<FrameTask>
  {
    var enter := if cfg.mode != OutIn then [FrameTask(Enter, next)] else [];
    var leave := if cfg.mode != InOut then [FrameTask(Leave, prev)] else [];
    if cfg.version == Src then enter + leave else leave + enter
  }

  /** A round whose queue holds exactly the given updates and one callback. */
  lemma {:induction false} OneRound(cfg: Config, s: State, us: seq<Update>, k: Cont)
    requires Quiet(s) && !s.unmounted
    ensures !Quiet(SetState(s, us, Some(k)))
    ensures Round(cfg, SetState(s, us, Some(k))) == RunCont(cfg, Commit(cfg, s.(state := ApplyAll(s.state, us))), k)
  {
    var d := SetState(s, us, Some(k));
    assert d.pending == us && d.conts == [k];
    var e := Commit(cfg, s.(state := ApplyAll(s.state, us)));
    assert Commit(cfg, d.(state := ApplyAll(d.state, d.pending), pending := [], conts := [])) == e;
    assert Round(cfg, d) == RunConts(cfg, e, [k]);
    assert [k][..0] == [];
    assert RunConts(cfg, e, [k]) == RunCont(cfg, RunConts(cfg, e, []), k);
  }

  /** Callbacks that only start phases queue nothing, so one round empties the queue. */
  lemma {:induction false} FlushBodies(cfg: Config, f: State)
    requires !Quiet(f) && AllBodies(f.conts)
    ensures Flush(cfg, f) == Round(cfg, f)
  {
  }

  /** A round of the two phase-starting callbacks after the given updates. */
  lemma {:induction false} BodiesRound(cfg: Config, e: State, us: seq<Update>, ks: seq<Cont>)
    requires Quiet(e) && us != [] && AllBodies(ks)
    ensures var g := Commit(cfg, e.(state := ApplyAll(e.state, us)));
      Flush(cfg, e.(pending := us, conts := ks)) == RunConts(cfg, g, ks)
  {
    var f := e.(pending := us, conts := ks);
    FlushBodies(cfg, f);
    assert Commit(cfg, f.(state := ApplyAll(f.state, f.pending), pending := [], conts := []))
        == Commit(cfg, e.(state := ApplyAll(e.state, us)));
  }

  /**
   * The state after the first commit of a change between two present
   * children: the running completions are cancelled, the previous child is
   * the old child and its wrapper is rendered.
   */
  predicate DispatchBase(s: State, next: Option<Element>, e: State)
  {
    && Quiet(e) && !e.unmounted && e.props == next && e.frames == s.frames
    && e.state == s.state.(oldChild := s.props)
    && e.oldRef == IdentityOf(s.props)
    && e.live == s.live - SlotHandles(s.slots)
  }

  /** What `componentDidUpdate` queues when both children are present and differ. */
  lemma {:induction false} DispatchQueued(cfg: Config, s: State, next: Option<Element>)
    requires Quiet(s) && !s.unmounted && s.props.Some? && next.Some? && !ComponentsEqual(s.props, next)
    requires !(cfg.mode == OutIn && s.state.isLeaving)
    ensures exists e :: DispatchBase(s, next, e) && SetProps(cfg, s, next) == Flush(cfg, RunCont(cfg, e, DispatchModes))
  {
    var u := Commit(cfg, s.(props := next));
    var c := ClearTimeouts(cfg, u);
    SetPropsChanged(cfg, s, next);
    CancelOrder(cfg, u);
    var d := SetState(c, [SetOldChild(s.props)], Some(DispatchModes));
    assert DidUpdate(cfg, u, s.props) == d;
    OneRound(cfg, c, [SetOldChild(s.props)], DispatchModes);
    assert ApplyAll(c.state, [SetOldChild(s.props)]) == Apply(ApplyAll(c.state, []), SetOldChild(s.props));
    var e := Commit(cfg, c.(state := s.state.(oldChild := s.props)));
    assert DispatchBase(s, next, e);
  }

  lemma {:induction false} ApplyTwo(c: ComponentState, a: Update, b: Update)
    ensures ApplyAll(c, [a, b]) == Apply(Apply(c, a), b)
  {
    assert [a, b][..1] == [a];
    assert ApplyAll(c, [a]) == Apply(ApplyAll(c, []), a);
  }

  lemma {:induction false} ApplyThree(c: ComponentState, a: Update, b: Update, d: Update)
    ensures ApplyAll(c, [a, b, d]) == Apply(Apply(Apply(c, a), b), d)
  {
    assert [a, b, d][..2] == [a, b];
    ApplyTwo(c, a, b);
  }

  lemma {:induction false} RunTwo(cfg: Config, s: State, a: Cont, b: Cont)
    ensures RunConts(cfg, s, [a, b]) == RunCont(cfg, RunCont(cfg, s, a), b)
  {
    assert [a, b][..1] == [a];
    assert RunConts(cfg, s, [a]) == RunCont(cfg, RunConts(cfg, s, []), a);
  }

  /** `Begin` queues one frame and changes neither the React state nor the refs. */
  lemma {:induction false} BeginKeeps(cfg: Config, s: State, p: Phase, el: Identity)
    ensures var r := Begin(cfg, s, p, el);
      && r.frames == s.frames + [FrameTask(p, el)]
      && r.state == s.state && r.props == s.props && r.childRef == s.childRef && r.oldRef == s.oldRef
      && r.pending == s.pending && r.conts == s.conts && r.unmounted == s.unmounted
      && r.live == s.live && r.slots == s.slots
  {
  }

  /** A round whose only callback is the body of `_transitionChildIn`. */
  lemma {:induction false} EnterRound(cfg: Config, e: State, us: seq<Update>)
    requires Quiet(e) && us != []
    ensures Flush(cfg, e.(pending := us, conts := [ChildInBody]))
         == ChildIn(cfg, Commit(cfg, e.(state := ApplyAll(e.state, us))))
  {
    BodiesRound(cfg, e, us, [ChildInBody]);
    var g := Commit(cfg, e.(state := ApplyAll(e.state, us)));
    assert RunConts(cfg, g, [ChildInBody]) == RunCont(cfg, RunConts(cfg, g, []), ChildInBody);
  }

  /** A round whose only callback is the body of `_transitionChildOut` (TypeScript sources). */
  lemma {:induction false} LeaveRound(cfg: Config, e: State, us: seq<Update>)
    requires Quiet(e) && us != []
    ensures Flush(cfg, e.(pending := us, conts := [ChildOutBody]))
         == ChildOut(cfg, Commit(cfg, e.(state := ApplyAll(e.state, us))))
  {
    BodiesRound(cfg, e, us, [ChildOutBody]);
    var g := Commit(cfg, e.(state := ApplyAll(e.state, us)));
    assert RunConts(cfg, g, [ChildOutBody]) == RunCont(cfg, RunConts(cfg, g, []), ChildOutBody);
  }

  /** The React state a change between two present children ends in. */
  function DispatchedState(cfg: Config, c: ComponentState, prev: Option<Element>, next: Option<Element>): ComponentState
  {
    ComponentState(
      if cfg.mode != OutIn then next else c.child, prev,
      cfg.mode != OutIn || c.isEntering, cfg.mode != InOut || c.isLeaving)
  }

  /** The rounds after the first commit, TypeScript sources, no mode. */
  lemma {:induction false} DispatchRoundsSrcSimultaneous(cfg: Config, s: State, next: Option<Element>, e: State)
    requires cfg.version == Src && cfg.mode == Simultaneous
    requires s.props.Some? && next.Some? && DispatchBase(s, next, e)
    ensures var r := Flush(cfg, RunCont(cfg, e, DispatchModes));
      && r.frames == s.frames + DispatchOrder(cfg, IdentityOf(s.props).value, IdentityOf(next).value)
      && r.live == e.live && r.state == DispatchedState(cfg, s.state, s.props, next)
  {
    SrcSimultaneousFlush(cfg, s, next, e);
    var g := Commit(cfg, e.(state := ComponentState(next, s.props, true, true)));
    var prev, nxt := IdentityOf(s.props).value, IdentityOf(next).value;
    assert g.childRef == Some(nxt) && OldChildRef(cfg, g) == Some(prev) && g.frames == s.frames;
    BothBodies(cfg, g, nxt, prev);
    assert DispatchOrder(cfg, prev, nxt) == [FrameTask(Enter, nxt), FrameTask(Leave, prev)];
  }

  /** TypeScript sources, no mode: one round applies the three updates and runs both phase starters. */
  lemma {:induction false} SrcSimultaneousFlush(cfg: Config, s: State, next: Option<Element>, e: State)
    requires cfg.version == Src && cfg.mode == Simultaneous
    requires s.props.Some? && next.Some? && DispatchBase(s, next, e)
    ensures Flush(cfg, RunCont(cfg, e, DispatchModes))
         == RunConts(cfg, Commit(cfg, e.(state := ComponentState(next, s.props, true, true))), [ChildInBody, ChildOutBody])
  {
    var us := [SetEntering(true), SetChild(next), SetLeaving(true)];
    var ks := [ChildInBody, ChildOutBody];
    assert RunCont(cfg, e, DispatchModes) == e.(pending := us, conts := ks);
    BodiesRound(cfg, e, us, ks);
    ApplyThree(e.state, SetEntering(true), SetChild(next), SetLeaving(true));
  }

  /** The two phase-starting callbacks after one commit: the enter frame, then the leave frame. */
  lemma {:induction false} BothBodies(cfg: Config, g: State, nxt: Identity, prev: Identity)
    requires g.childRef == Some(nxt) && OldChildRef(cfg, g) == Some(prev)
    ensures var r := RunConts(cfg, g, [ChildInBody, ChildOutBody]);
      && r.frames == g.frames + [FrameTask(Enter, nxt), FrameTask(Leave, prev)]
      && r.live == g.live && r.state == g.state
  {
    RunTwo(cfg, g, ChildInBody, ChildOutBody);
    BeginKeeps(cfg, g, Enter, nxt);
    BeginKeeps(cfg, Begin(cfg, g, Enter, nxt), Leave, prev);
  }

  /** The rounds after the first commit, in-out mode, either version. */
  lemma {:induction false} DispatchRoundsInOut(cfg: Config, s: State, next: Option<Element>, e: State)
    requires cfg.mode == InOut
    requires s.props.Some? && next.Some? && DispatchBase(s, next, e)
    ensures var r := Flush(cfg, RunCont(cfg, e, DispatchModes));
      && r.frames == s.frames + DispatchOrder(cfg, IdentityOf(s.props).value, IdentityOf(next).value)
      && r.live == e.live && r.state == DispatchedState(cfg, s.state, s.props, next)
  {
    InOutFlush(cfg, s, next, e);
    var g := Commit(cfg, e.(state := ComponentState(next, s.props, true, s.state.isLeaving)));
    var nxt := IdentityOf(next).value;
    assert g.childRef == Some(nxt) && g.frames == s.frames;
    BeginKeeps(cfg, g, Enter, nxt);
  }

  /** In-out mode: one round applies the child and the enter flag, then the enter starts. */
  lemma {:induction false} InOutFlush(cfg: Config, s: State, next: Option<Element>, e: State)
    requires cfg.mode == InOut
    requires s.props.Some? && next.Some? && DispatchBase(s, next, e)
    ensures Flush(cfg, RunCont(cfg, e, DispatchModes))
         == ChildIn(cfg, Commit(cfg, e.(state := ComponentState(next, s.props, true, s.state.isLeaving))))
  {
    var us := [SetEntering(true), SetChild(next)];
    assert RunCont(cfg, e, DispatchModes) == e.(pending := us, conts := [ChildInBody]);
    EnterRound(cfg, e, us);
    ApplyTwo(e.state, SetEntering(true), SetChild(next));
  }

  /** The rounds after the first commit, TypeScript sources, out-in mode. */
  lemma {:induction false} DispatchRoundsSrcOutIn(cfg: Config, s: State, next: Option<Element>, e: State)
    requires cfg.version == Src && cfg.mode == OutIn
    requires s.props.Some? && next.Some? && DispatchBase(s, next, e)
    ensures var r := Flush(cfg, RunCont(cfg, e, DispatchModes));
      && r.frames == s.frames + DispatchOrder(cfg, IdentityOf(s.props).value, IdentityOf(next).value)
      && r.live == e.live && r.state == DispatchedState(cfg, s.state, s.props, next)
  {
    SrcOutInFlush(cfg, s, next, e);
    var g := Commit(cfg, e.(state := s.state.(oldChild := s.props, isLeaving := true)));
    var prev := IdentityOf(s.props).value;
    assert g.oldRef == Some(prev) && g.frames == s.frames;
    BeginKeeps(cfg, g, Leave, prev);
  }

  /** TypeScript sources, out-in mode: one round sets the leave flag, then the leave starts. */
  lemma {:induction false} SrcOutInFlush(cfg: Config, s: State, next: Option<Element>, e: State)
    requires cfg.version == Src && cfg.mode == OutIn
    requires s.props.Some? && next.Some? && DispatchBase(s, next, e)
    ensures Flush(cfg, RunCont(cfg, e, DispatchModes))
         == ChildOut(cfg, Commit(cfg, e.(state := s.state.(oldChild := s.props, isLeaving := true))))
  {
    var us := [SetLeaving(true)];
    assert RunCont(cfg, e, DispatchModes) == e.(pending := us, conts := [ChildOutBody]);
    LeaveRound(cfg, e, us);
    assert ApplyAll(e.state, us) == Apply(ApplyAll(e.state, []), SetLeaving(true));
  }

  /** The rounds after the first commit, build, no mode: the leave starts before the second commit. */
  lemma {:induction false} DispatchRoundsBuildSimultaneous(cfg: Config, s: State, next: Option<Element>, e: State)
    requires cfg.version == Build && cfg.mode == Simultaneous
    requires s.props.Some? && next.Some? && DispatchBase(s, next, e)
    ensures var r := Flush(cfg, RunCont(cfg, e, DispatchModes));
      && r.frames == s.frames + DispatchOrder(cfg, IdentityOf(s.props).value, IdentityOf(next).value)
      && r.live == e.live && r.state == DispatchedState(cfg, s.state, s.props, next)
  {
    var prev, nxt := IdentityOf(s.props).value, IdentityOf(next).value;
    BuildSimultaneousFlush(cfg, s, next, e);
    var e2 := Begin(cfg, e, Leave, prev);
    BuildSimultaneousEnter(cfg, s, next, e, e2);
    assert DispatchOrder(cfg, prev, nxt) == [FrameTask(Leave, prev), FrameTask(Enter, nxt)];
  }

  /** The build, no mode: the enter starts on the new child after the leave. */
  lemma {:induction false} BuildSimultaneousEnter(cfg: Config, s: State, next: Option<Element>, e: State, e2: State)
    requires cfg.version == Build && cfg.mode == Simultaneous
    requires s.props.Some? && next.Some? && DispatchBase(s, next, e)
    requires e2 == Begin(cfg, e, Leave, IdentityOf(s.props).value)
    ensures var r := ChildIn(cfg, Commit(cfg, e2.(state := ComponentState(next, s.props, true, true))));
      && r.frames == s.frames + [FrameTask(Leave, IdentityOf(s.props).value), FrameTask(Enter, IdentityOf(next).value)]
      && r.live == e.live && r.state == ComponentState(next, s.props, true, true)
  {
    var prev, nxt := IdentityOf(s.props).value, IdentityOf(next).value;
    BeginKeeps(cfg, e, Leave, prev);
    var g := Commit(cfg, e2.(state := ComponentState(next, s.props, true, true)));
    assert RenderView(cfg.version, cfg.mode, next, s.props) == Both;
    assert g.childRef == Some(nxt) && g.frames == s.frames + [FrameTask(Leave, prev)];
    BeginKeeps(cfg, g, Enter, nxt);
  }

  /** The build, no mode: the leave starts, then one round applies the updates and the enter starts. */
  lemma {:induction false} BuildSimultaneousFlush(cfg: Config, s: State, next: Option<Element>, e: State)
    requires cfg.version == Build && cfg.mode == Simultaneous
    requires s.props.Some? && next.Some? && DispatchBase(s, next, e)
    ensures var e2 := Begin(cfg, e, Leave, IdentityOf(s.props).value);
      Flush(cfg, RunCont(cfg, e, DispatchModes)) == ChildIn(cfg, Commit(cfg, e2.(state := ComponentState(next, s.props, true, true))))
  {
    var prev := IdentityOf(s.props).value;
    var e2 := Begin(cfg, e, Leave, prev);
    BeginKeeps(cfg, e, Leave, prev);
    var us := [SetEntering(true), SetChild(next), SetLeaving(true)];
    BuildSimultaneousQueue(cfg, s, next, e);
    EnterRound(cfg, e2, us);
    ApplyThree(e2.state, SetEntering(true), SetChild(next), SetLeaving(true));
  }

  /** The build, no mode: the leave starts at once and the enter waits for the round. */
  lemma {:induction false} BuildSimultaneousQueue(cfg: Config, s: State, next: Option<Element>, e: State)
    requires cfg.version == Build && cfg.mode == Simultaneous
    requires s.props.Some? && next.Some? && DispatchBase(s, next, e)
    ensures var e2 := Begin(cfg, e, Leave, IdentityOf(s.props).value);
      RunCont(cfg, e, DispatchModes) == e2.(pending := [SetEntering(true), SetChild(next), SetLeaving(true)], conts := [ChildInBody])
  {
    var s1 := TransitionChildIn(cfg, e);
    assert s1 == e.(pending := [SetEntering(true), SetChild(next)], conts := [ChildInBody]);
    assert OldChildRef(cfg, s1) == IdentityOf(s.props);
  }

  /** The rounds after the first commit, build, out-in mode: the leave starts at once. */
  lemma {:induction false} DispatchRoundsBuildOutIn(cfg: Config, s: State, next: Option<Element>, e: State)
    requires cfg.version == Build && cfg.mode == OutIn
    requires s.props.Some? && next.Some? && DispatchBase(s, next, e)
    ensures var r := Flush(cfg, RunCont(cfg, e, DispatchModes));
      && r.frames == s.frames + DispatchOrder(cfg, IdentityOf(s.props).value, IdentityOf(next).value)
      && r.live == e.live && r.state == DispatchedState(cfg, s.state, s.props, next)
  {
    var prev := IdentityOf(s.props).value;
    var e2 := Begin(cfg, e, Leave, prev);
    BeginKeeps(cfg, e, Leave, prev);
    var us := [SetLeaving(true)];
    assert RunCont(cfg, e, DispatchModes) == e2.(pending := us, conts := []);
    BodiesRound(cfg, e2, us, []);
    assert ApplyAll(e2.state, us) == Apply(ApplyAll(e2.state, []), SetLeaving(true));
  }

  /**
   * `componentDidUpdate` on a change between two present children: the
   * running completions are cancelled, the previous child becomes the old
   * child, the new one becomes the child unless the mode is out-in, the
   * flags of the phases the mode asks for are set, and their frames are
   * queued in the order of `DispatchOrder` (enter first in the TypeScript
   * sources, leave first in the build).
   */
  lemma {:induction false} ModeDispatch(cfg: Config, s: State, next: Option<Element>)
    requires Quiet(s) && !s.unmounted && s.props.Some? && next.Some? && !ComponentsEqual(s.props, next)
    requires !(cfg.mode == OutIn && s.state.isLeaving)
    ensures var r := SetProps(cfg, s, next);
      && r.frames == s.frames + DispatchOrder(cfg, IdentityOf(s.props).value, IdentityOf(next).value)
      && r.live == s.live - SlotHandles(s.slots)
      && r.state == DispatchedState(cfg, s.state, s.props, next)
  {
    DispatchQueued(cfg, s, next);
    var e :| DispatchBase(s, next, e) && SetProps(cfg, s, next) == Flush(cfg, RunCont(cfg, e, DispatchModes));
    match (cfg.version, cfg.mode) {
      case (_, InOut) => DispatchRoundsInOut(cfg, s, next, e);
      case (Src, Simultaneous) => DispatchRoundsSrcSimultaneous(cfg, s, next, e);
      case (Src, OutIn) => DispatchRoundsSrcOutIn(cfg, s, next, e);
      case (Build, Simultaneous) => DispatchRoundsBuildSimultaneous(cfg, s, next, e);
      case (Build, OutIn) => DispatchRoundsBuildOutIn(cfg, s, next, e);
    }
  }

  /** The state after `componentDidUpdate`'s cancellation, before its own updates are applied. */
  predicate CancelledBase(s: State, next: Option<Element>, c: State)
  {
    && Quiet(c) && !c.unmounted && c.props == next && c.frames == s.frames && c.state == s.state
    && c.live == s.live - SlotHandles(s.slots)
  }

  /** `componentDidUpdate` in the build when `children` becomes empty. */
  lemma {:induction false} RemovedQueued(cfg: Config, s: State)
    requires cfg.version == Build && Quiet(s) && !s.unmounted && s.props.Some?
    requires !(cfg.mode == OutIn && s.state.isLeaving)
    ensures exists c :: (CancelledBase(s, None, c) && c.childRef == Commit(cfg, s).childRef
      && SetProps(cfg, s, None) == Flush(cfg, ChildOut(cfg, c.(pending := Removal(s)))))
  {
    var u := Commit(cfg, s.(props := None));
    var c := ClearTimeouts(cfg, u);
    SetPropsChanged(cfg, s, None);
    CancelOrder(cfg, u);
    assert DidUpdate(cfg, u, s.props) == ChildOut(cfg, c.(pending := [SetChild(None), SetOldChild(s.props)] + [SetLeaving(true)]));
    assert [SetChild(None), SetOldChild(s.props)] + [SetLeaving(true)] == [SetChild(None), SetOldChild(s.props), SetLeaving(true)];
    assert CancelledBase(s, None, c);
  }

  /** The updates `componentDidUpdate` queues in the build when `children` becomes empty. */
  function Removal(s: State): seq<Update>
  {
    [SetChild(None), SetOldChild(s.props), SetLeaving(true)]
  }

  /** The leave started on the removed child and the round that applies the updates. */
  lemma {:induction false} RemovedRounds(cfg: Config, s: State, c: State)
    requires cfg.version == Build && s.props.Some? && CancelledBase(s, None, c) && c.childRef == IdentityOf(s.props)
    ensures var r := Flush(cfg, ChildOut(cfg, c.(pending := Removal(s)))); var prev := IdentityOf(s.props).value;
      && r.state == s.state.(child := None, oldChild := s.props, isLeaving := true)
      && r.frames == s.frames + [FrameTask(Leave, prev)]
      && r.live == s.live - SlotHandles(s.slots)
      && r.childRef == None && r.oldRef == Some(prev)
  {
    var us := Removal(s);
    var prev := IdentityOf(s.props).value;
    var e := Begin(cfg, c, Leave, prev);
    var g := Commit(cfg, e.(state := ApplyAll(e.state, us)));
    assert Flush(cfg, ChildOut(cfg, c.(pending := us))) == g by {
      assert OldChildRef(cfg, c.(pending := us)) == Some(prev);
      assert ChildOut(cfg, c.(pending := us)) == e.(pending := us, conts := []);
      BeginKeeps(cfg, c, Leave, prev);
      BodiesRound(cfg, e, us, []);
    }
    assert e.frames == s.frames + [FrameTask(Leave, prev)] && e.state == s.state && e.live == c.live by {
      BeginKeeps(cfg, c, Leave, prev);
    }
    assert g.state == s.state.(child := None, oldChild := s.props, isLeaving := true) by {
      ApplyThree(e.state, SetChild(None), SetOldChild(s.props), SetLeaving(true));
    }
    CommitRefs(cfg, e.(state := ApplyAll(e.state, us)));
  }

  /**
   * The build, when `children` becomes empty: the child moves to `oldChild`
   * (taking the place of an old child still leaving) and leaves at once, on
   * the element it was rendered into; afterwards only the leaving child is
   * rendered. This holds in every mode when no old child is shown, and in
   * the modes other than out-in also while an old child is still leaving.
   */
  lemma {:induction false} BuildChildRemoved(cfg: Config, s: State)
    requires cfg.version == Build && Quiet(s) && !s.unmounted && s.props.Some?
    requires (s.state.oldChild.None? || cfg.mode != OutIn) && IdentityOf(s.state.child) == IdentityOf(s.props)
    requires !(cfg.mode == OutIn && s.state.isLeaving)
    ensures var r := SetProps(cfg, s, None); var prev := IdentityOf(s.props).value;
      && r.state == s.state.(child := None, oldChild := s.props, isLeaving := true)
      && r.frames == s.frames + [FrameTask(Leave, prev)]
      && r.live == s.live - SlotHandles(s.slots)
      && r.childRef == None && r.oldRef == Some(prev)
  {
    RemovedQueued(cfg, s);
    var c :| CancelledBase(s, None, c) && c.childRef == Commit(cfg, s).childRef
      && SetProps(cfg, s, None) == Flush(cfg, ChildOut(cfg, c.(pending := Removal(s))));
    CommitRefs(cfg, s);
    RemovedRounds(cfg, s, c);
  }

  /** `componentDidUpdate` in the build when `children` appears. */
  lemma {:induction false} AddedQueued(cfg: Config, s: State, next: Option<Element>)
    requires cfg.version == Build && Quiet(s) && !s.unmounted && s.props.None? && next.Some?
    requires !(cfg.mode == OutIn && s.state.isLeaving)
    ensures exists c :: (CancelledBase(s, next, c)
      && SetProps(cfg, s, next) == Flush(cfg, RunCont(cfg, Commit(cfg, c.(state := s.state.(oldChild := None))), StartChildIn)))
  {
    var u := Commit(cfg, s.(props := next));
    var c := ClearTimeouts(cfg, u);
    SetPropsChanged(cfg, s, next);
    CancelOrder(cfg, u);
    var d := SetState(c, [SetOldChild(None)], Some(StartChildIn));
    assert DidUpdate(cfg, u, s.props) == d;
    OneRound(cfg, c, [SetOldChild(None)], StartChildIn);
    assert ApplyAll(c.state, [SetOldChild(None)]) == Apply(ApplyAll(c.state, []), SetOldChild(None));
    assert CancelledBase(s, next, c);
  }

  /** The rounds after the first commit when `children` appears. */
  lemma {:induction false} AddedRounds(cfg: Config, s: State, next: Option<Element>, c: State)
    requires next.Some? && CancelledBase(s, next, c)
    ensures var r := Flush(cfg, RunCont(cfg, Commit(cfg, c.(state := s.state.(oldChild := None))), StartChildIn));
      && r.state == s.state.(child := next, oldChild := None, isEntering := true)
      && r.frames == s.frames + [FrameTask(Enter, IdentityOf(next).value)]
      && r.live == c.live
      && r.childRef == IdentityOf(next) && r.oldRef == None
  {
    var e := Commit(cfg, c.(state := s.state.(oldChild := None)));
    AddedFlush(cfg, next, e);
    var g := Commit(cfg, e.(state := s.state.(child := next, oldChild := None, isEntering := true)));
    var nxt := IdentityOf(next).value;
    assert g.childRef == Some(nxt) && g.frames == s.frames && g.live == c.live;
    BeginKeeps(cfg, g, Enter, nxt);
  }

  /** One round applies the new child and the enter flag, then the enter starts. */
  lemma {:induction false} AddedFlush(cfg: Config, next: Option<Element>, e: State)
    requires Quiet(e) && !e.unmounted && e.props == next
    ensures Flush(cfg, RunCont(cfg, e, StartChildIn))
         == ChildIn(cfg, Commit(cfg, e.(state := e.state.(child := next, isEntering := true))))
  {
    var us := [SetEntering(true), SetChild(next)];
    assert RunCont(cfg, e, StartChildIn) == e.(pending := us, conts := [ChildInBody]);
    EnterRound(cfg, e, us);
    ApplyTwo(e.state, SetEntering(true), SetChild(next));
  }

  /**
   * The build, when `children` appears after being empty: the old child is
   * dropped and the new child enters, in every mode.
   */
  lemma {:induction false} BuildChildAdded(cfg: Config, s: State, next: Option<Element>)
    requires cfg.version == Build && Quiet(s) && !s.unmounted && s.props.None? && next.Some?
    requires !(cfg.mode == OutIn && s.state.isLeaving)
    ensures var r := SetProps(cfg, s, next);
      && r.state == s.state.(child := next, oldChild := None, isEntering := true)
      && r.frames == s.frames + [FrameTask(Enter, IdentityOf(next).value)]
      && r.live == s.live - SlotHandles(s.slots)
      && r.childRef == IdentityOf(next) && r.oldRef == None
  {
    AddedQueued(cfg, s, next);
    var c :| CancelledBase(s, next, c)
      && SetProps(cfg, s, next) == Flush(cfg, RunCont(cfg, Commit(cfg, c.(state := s.state.(oldChild := None))), StartChildIn));
    AddedRounds(cfg, s, next, c);
  }

  // ---------------------------------------------------------------------------
  // Completion
  // ---------------------------------------------------------------------------

  /** What every completion does first: empty the phase's slot, remove the classes, call `onAfter*`. */
  function Finish(cfg: Config, s: State, p: Phase, el: Identity): State
  {
    s.(slots := s.slots.Set(p, None),
       classes := AddPost(cfg, s.classes, StageOf(p), el),
       log := MaybeLog(cfg, s.log, AfterHook(p), Some(el)))
  }

  /** The element `_transitionChildOut` would leave on, given the current state and props. */
  function LeaveTarget(cfg: Config, s: State): Option<Identity>
  {
    OldChildRef(cfg, Commit(cfg, s))
  }

  /** A frame for a phase on an element, if there is one. */
  function FrameOn(p: Phase, el: Option<Identity>): seq<FrameTask>
  {
    if el.Some? then [FrameTask(p, el.value)] else []
  }

  /** The appear completes on its own: the React state is left alone. */
  lemma {:induction false} CompleteAppear(cfg: Config, s: State, el: Identity)
    ensures Complete(cfg, s, Appear, el) == Finish(cfg, s, Appear, el)
    ensures Complete(cfg, s, Appear, el).state == s.state
    ensures Complete(cfg, s, Appear, el).slots.appear == None
  {
  }

  /**
   * `_afterEnterCallback`: after the common steps `isEntering` is cleared;
   * in in-out mode the old child then starts its leave (on the element the
   * old-child ref names), otherwise nothing starts. Completions stay as they
   * were.
   */
  lemma {:induction false} CompleteEnter(cfg: Config, s: State, el: Identity)
    requires Quiet(s) && !s.unmounted
    ensures var r := Complete(cfg, s, Enter, el);
      && r.slots == s.slots.Set(Enter, None)
      && r.live == s.live
      && r.state == s.state.(isEntering := false, isLeaving := cfg.mode == InOut || s.state.isLeaving)
      && r.frames == s.frames + (if cfg.mode == InOut then FrameOn(Leave, LeaveTarget(cfg, s)) else [])
  {
    var s1 := Finish(cfg, s, Enter, el);
    if cfg.mode != InOut {
      assert Complete(cfg, s, Enter, el) == Flush(cfg, s1.(pending := [SetEntering(false)], conts := []));
      BodiesRound(cfg, s1, [SetEntering(false)], []);
      assert ApplyAll(s1.state, [SetEntering(false)]) == Apply(ApplyAll(s1.state, []), SetEntering(false));
    } else {
      OneRound(cfg, s1, [SetEntering(false)], StartChildOut);
      assert ApplyAll(s1.state, [SetEntering(false)]) == Apply(ApplyAll(s1.state, []), SetEntering(false));
      var e := Commit(cfg, s1.(state := s.state.(isEntering := false)));
      assert Complete(cfg, s, Enter, el) == Flush(cfg, RunCont(cfg, e, StartChildOut));
      EnterDoneStartsLeave(cfg, s, e);
    }
  }

  /** In in-out mode the enter's completion starts the leave, in either version. */
  lemma {:induction false} EnterDoneStartsLeave(cfg: Config, s: State, e: State)
    requires Quiet(e) && !e.unmounted && e.props == s.props && e.frames == s.frames && e.live == s.live
    requires e.slots == s.slots.Set(Enter, None) && cfg.mode == InOut
    requires e == Commit(cfg, e) && e.state == s.state.(isEntering := false)
    ensures var r := Flush(cfg, RunCont(cfg, e, StartChildOut));
      && r.slots == e.slots && r.live == e.live
      && r.state == s.state.(isEntering := false, isLeaving := true)
      && r.frames == s.frames + FrameOn(Leave, LeaveTarget(cfg, s))
  {
    assert OldChildRef(cfg, e) == LeaveTarget(cfg, s);
    if cfg.version == Src {
      LeaveFlushSrc(cfg, e);
      var g := Commit(cfg, e.(state := e.state.(isLeaving := true)));
      assert OldChildRef(cfg, g) == LeaveTarget(cfg, s);
      ChildOutFrame(cfg, g);
    } else {
      LeaveFlushBuild(cfg, e);
      ChildOutFrame(cfg, e);
      CommitRefs(cfg, ChildOut(cfg, e).(state := e.state.(isLeaving := true)));
    }
  }

  /** TypeScript sources: one round sets the leave flag, then the leave starts. */
  lemma {:induction false} LeaveFlushSrc(cfg: Config, e: State)
    requires Quiet(e) && !e.unmounted && cfg.version == Src
    ensures Flush(cfg, RunCont(cfg, e, StartChildOut)) == ChildOut(cfg, Commit(cfg, e.(state := e.state.(isLeaving := true))))
  {
    var us := [SetLeaving(true)];
    assert ApplyAll(e.state, us) == Apply(ApplyAll(e.state, []), SetLeaving(true));
    assert RunCont(cfg, e, StartChildOut) == e.(pending := us, conts := [ChildOutBody]);
    LeaveRound(cfg, e, us);
  }

  /** The build: the leave starts at once, then one round sets the leave flag. */
  lemma {:induction false} LeaveFlushBuild(cfg: Config, e: State)
    requires Quiet(e) && !e.unmounted && cfg.version == Build
    ensures var e2 := ChildOut(cfg, e);
      Flush(cfg, RunCont(cfg, e, StartChildOut)) == Commit(cfg, e2.(state := e2.state.(isLeaving := true)))
  {
    var us := [SetLeaving(true)];
    var e2 := ChildOut(cfg, e);
    ChildOutFrame(cfg, e);
    assert ApplyAll(e2.state, us) == Apply(ApplyAll(e2.state, []), SetLeaving(true));
    assert RunCont(cfg, e, StartChildOut) == e2.(pending := us, conts := []);
    BodiesRound(cfg, e2, us, []);
  }

  /** The body of `_transitionChildOut` queues the leave frame of the old-child element, if there is one. */
  lemma {:induction false} ChildOutFrame(cfg: Config, x: State)
    ensures var r := ChildOut(cfg, x);
      && r.frames == x.frames + FrameOn(Leave, OldChildRef(cfg, x))
      && r.state == x.state && r.props == x.props && r.live == x.live && r.slots == x.slots
      && r.pending == x.pending && r.conts == x.conts && r.unmounted == x.unmounted
  {
  }

  /**
   * `_afterLeaveCallback`: after the common steps the old child is dropped
   * and `isLeaving` cleared; in out-in mode the child from the props then
   * enters, otherwise nothing starts. Completions stay as they were.
   */
  lemma {:induction false} CompleteLeave(cfg: Config, s: State, el: Identity)
    requires Quiet(s) && !s.unmounted
    ensures var r := Complete(cfg, s, Leave, el);
      && r.slots == s.slots.Set(Leave, None)
      && r.live == s.live
      && r.state == (if cfg.mode == OutIn then ComponentState(s.props, None, true, false)
                     else s.state.(oldChild := None, isLeaving := false))
      && r.frames == s.frames + (if cfg.mode == OutIn then FrameOn(Enter, IdentityOf(s.props)) else [])
  {
    var s1 := Finish(cfg, s, Leave, el);
    var us := [SetOldChild(None), SetLeaving(false)];
    ApplyTwo(s1.state, SetOldChild(None), SetLeaving(false));
    if cfg.mode != OutIn {
      assert SetState(s1, us, None) == s1.(pending := us, conts := []);
      assert Complete(cfg, s, Leave, el) == Flush(cfg, s1.(pending := us, conts := []));
      BodiesRound(cfg, s1, us, []);
    } else {
      OneRound(cfg, s1, us, StartChildIn);
      var e := Commit(cfg, s1.(state := s.state.(oldChild := None, isLeaving := false)));
      assert Complete(cfg, s, Leave, el) == Flush(cfg, RunCont(cfg, e, StartChildIn));
      LeaveDoneStartsEnter(cfg, s, e);
    }
  }

  /** In out-in mode the leave's completion starts the enter of the child from the props. */
  lemma {:induction false} LeaveDoneStartsEnter(cfg: Config, s: State, e: State)
    requires Quiet(e) && !e.unmounted && e.props == s.props && e.frames == s.frames
    requires e.state == s.state.(oldChild := None, isLeaving := false)
    ensures var r := Flush(cfg, RunCont(cfg, e, StartChildIn));
      && r.slots == e.slots && r.live == e.live
      && r.state == ComponentState(s.props, None, true, false)
      && r.frames == s.frames + FrameOn(Enter, IdentityOf(s.props))
  {
    var us := [SetEntering(true), SetChild(s.props)];
    assert RunCont(cfg, e, StartChildIn) == e.(pending := us, conts := [ChildInBody]);
    EnterRound(cfg, e, us);
    ApplyTwo(e.state, SetEntering(true), SetChild(s.props));
    var g := Commit(cfg, e.(state := ComponentState(s.props, None, true, false)));
    assert g.childRef == IdentityOf(s.props) && g.frames == s.frames;
    assert Flush(cfg, RunCont(cfg, e, StartChildIn)) == ChildIn(cfg, g);
    if g.childRef.Some? {
      BeginKeeps(cfg, g, Enter, g.childRef.value);
    }
  }

  /** A completion fires at most once: afterwards its handle is gone and firing it again does nothing. */
  lemma {:induction false} FiresOnce(cfg: Config, s: State, id: nat)
    requires Quiet(s) && !s.unmounted && id in s.live
    ensures id !in FireCompletion(cfg, s, id).live
    ensures FireCompletion(cfg, FireCompletion(cfg, s, id), id) == FireCompletion(cfg, s, id)
  {
    var a := s.live[id];
    var s1 := s.(live := s.live - {id});
    match a.phase {
      case Appear => CompleteAppear(cfg, s1, a.el);
      case Enter => CompleteEnter(cfg, s1, a.el);
      case Leave => CompleteLeave(cfg, s1, a.el);
    }
  }

  /**
   * After unmounting, `_safelySetState` drops every update: frames,
   * completions and `done` calls still run their class changes and hooks,
   * but the React state stays as it was and nothing new is queued for React.
   */
  lemma {:induction false} UnmountedFreezesState(cfg: Config, s: State, id: nat, i: nat)
    requires Quiet(s) && s.unmounted
    ensures FrameTick(cfg, s).state == s.state
    ensures FireCompletion(cfg, s, id).state == s.state && Quiet(FireCompletion(cfg, s, id))
    ensures i < |s.dones| ==> CallDone(cfg, s, i).state == s.state
  {
  }

  /** Unmounting leaves a state in which nothing moves any more. */
  lemma {:induction false} UnmountThenFrozen(cfg: Config, s: State, id: nat)
    requires Quiet(s)
    ensures var u := Unmount(cfg, s);
      && Quiet(u) && u.unmounted
      && FrameTick(cfg, u).state == s.state
      && FireCompletion(cfg, u, id).state == s.state
  {
    CancelOrder(cfg, s);
    UnmountedFreezesState(cfg, Unmount(cfg, s), id, 0);
  }
}
