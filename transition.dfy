/**
 * The single-element controller `Transition`: it keeps the current child and
 * the child on its way out, runs the appear, enter and leave phases on their
 * DOM elements (class changes, hooks, a frame, then completion) and cancels
 * running phases when the child changes.
 *
 * The state machine is given here as pure functions over a snapshot of the
 * component (`State`), which the lemmas reason about; the class
 * `TransitionComponent.Transition` updates its fields step by step and
 * promises to end in the snapshot these functions describe.
 *
 * React's part is made explicit. `setState` queues its partial update and its
 * callback; a flush applies the queued updates, commits a render (which is
 * when the wrapper refs change) and then runs the callbacks, whose own
 * `setState` calls are flushed in a further round. A DOM element is named by
 * the identity (key and type) of the React element rendered into it.
 */
module SingleTransition {
  import opened Wrappers
  import opened Utils
  import TU = TransitionUtils

  // ---------------------------------------------------------------------------
  // Props
  // ---------------------------------------------------------------------------

  /** The TypeScript sources, or the compiled build that adds `noCss` and the child-removed/added branches. */
  datatype Version = Src | Build

  /** `mode`: absent (both phases at once), `'in-out'` or `'out-in'`. */
  datatype Mode = Simultaneous | InOut | OutIn

  /** The three phases, each with its own cancellation slot and hooks. */
  datatype Phase = Appear | Enter | Leave

  /** The two class families: appear uses the enter classes. */
  datatype Stage = EnterStage | LeaveStage

  function StageOf(p: Phase): Stage
  {
    if p == Leave then LeaveStage else EnterStage
  }

  /** The hooks: `onBefore*`, `on*`, `onAfter*` and `onCancel*` of each phase. */
  datatype Hook = BeforeHook(phase: Phase) | OnHook(phase: Phase) | AfterHook(phase: Phase) | CancelHook(phase: Phase)

  /** The six class-name props; the empty string stands for an absent prop, as `||` treats it. */
  datatype ClassOverrides = ClassOverrides(
    enterClass: string, enteringClass: string, enterToClass: string,
    leaveClass: string, leavingClass: string, leaveToClass: string)

  /**
   * Every prop but `children`. `duration` 0 stands for an absent duration;
   * `hooks` holds the hooks that are given; `explicitDone` holds the phases
   * whose `on*` hook declares a second (`done`) parameter.
   */
  datatype Config = Config(
    version: Version, name: string, appear: bool, duration: int, noCss: bool,
    requested: Option<TU.Mechanism>, mode: Mode, overrides: ClassOverrides,
    hooks: set<Hook>, explicitDone: set<Phase>)

  // ---------------------------------------------------------------------------
  // Class names
  // ---------------------------------------------------------------------------

  /** `prefix`: the `name` prop, or `t`. */
  function Prefix(name: string): (p: string)
    ensures name != "" ==> p == name
    ensures name == "" ==> p == "t"
  {
    if name != "" then name else "t"
  }

  /** JavaScript `a || b` on strings. */
  function OrString(a: string, b: string): string
  {
    if a != "" then a else b
  }

  /** `_getInitialClass`. */
  function InitialClass(cfg: Config, st: Stage): string
  {
    match st
    case EnterStage => OrString(cfg.overrides.enterClass, Prefix(cfg.name) + "-enter")
    case LeaveStage => OrString(cfg.overrides.leaveClass, Prefix(cfg.name) + "-leave")
  }

  /** `_getActiveClass`. */
  function ActiveClass(cfg: Config, st: Stage): string
  {
    match st
    case EnterStage => OrString(cfg.overrides.enteringClass, Prefix(cfg.name) + "-entering")
    case LeaveStage => OrString(cfg.overrides.leavingClass, Prefix(cfg.name) + "-leaving")
  }

  /** `_getPostClass`. */
  function PostClass(cfg: Config, st: Stage): string
  {
    match st
    case EnterStage => OrString(cfg.overrides.enterToClass, Prefix(cfg.name) + "-enter-to")
    case LeaveStage => OrString(cfg.overrides.leaveToClass, Prefix(cfg.name) + "-leave-to")
  }

  /** The class list of every element that has one. */
  type ClassLists = map<Identity, set<string>>

  function ClassesOf(m: ClassLists, el: Identity): set<string>
  {
    if el in m then m[el] else {}
  }

  /** `_applyInitialTransitionClasses`: add the initial and the active class. */
  function AddInitial(cfg: Config, m: ClassLists, st: Stage, el: Identity): ClassLists
  {
    m[el := ClassesOf(m, el) + {InitialClass(cfg, st), ActiveClass(cfg, st)}]
  }

  /** `_applyActiveTransitionClasses`: remove the initial class, add the post class. */
  function AddActive(cfg: Config, m: ClassLists, st: Stage, el: Identity): ClassLists
  {
    m[el := ClassesOf(m, el) - {InitialClass(cfg, st)} + {PostClass(cfg, st)}]
  }

  /** `_applyPostAnimationClasses`: remove the active and the post class. */
  function AddPost(cfg: Config, m: ClassLists, st: Stage, el: Identity): ClassLists
  {
    m[el := ClassesOf(m, el) - {ActiveClass(cfg, st)} - {PostClass(cfg, st)}]
  }

  // ---------------------------------------------------------------------------
  // The snapshot
  // ---------------------------------------------------------------------------

  /** A hook call and the element it was given (`null` is possible for the cancel hooks). */
  datatype HookCall = HookCall(hook: Hook, el: Option<Identity>)

  /** How a running phase will learn that it is over. */
  datatype Trigger = Timer(ms: nat) | Sniffed(requested: Option<TU.Mechanism>)

  /** A completion waiting on a timer or on the end-event watcher. */
  datatype Armed = Armed(phase: Phase, el: Identity, trigger: Trigger)

  /** A `done` callback handed to an `on*` hook that completes the phase itself. */
  datatype DoneCallback = DoneCallback(phase: Phase, el: Identity)

  /** A callback queued with `onNextFrame`: the second step of a phase. */
  datatype FrameTask = FrameTask(phase: Phase, el: Identity)

  /** `_timeoutClears`: per phase the handle of its canceller, or `null`. */
  datatype Slots = Slots(appear: Option<nat>, enter: Option<nat>, leave: Option<nat>)
  {
    function Get(p: Phase): Option<nat>
    {
      match p
      case Appear => appear
      case Enter => enter
      case Leave => leave
    }

    function Set(p: Phase, v: Option<nat>): (r: Slots)
      ensures r.Get(p) == v
      ensures forall q :: q != p ==> r.Get(q) == Get(q)
    {
      match p
      case Appear => this.(appear := v)
      case Enter => this.(enter := v)
      case Leave => this.(leave := v)
    }
  }

  /** One field of a partial `setState` update. */
  datatype Update = SetChild(c: Option<Element>) | SetOldChild(c: Option<Element>) | SetEntering(b: bool) | SetLeaving(b: bool)

  /** The `setState` callbacks the component passes. */
  datatype Cont =
    | DispatchModes   // after `oldChild` is set: enter unless out-in, leave unless in-out
    | StartChildIn    // `_transitionChildIn`
    | StartChildOut   // `_transitionChildOut`
    | ChildInBody     // the callback of `_transitionChildIn`
    | ChildOutBody    // the callback of `_transitionChildOut` in the TypeScript sources

  /** The callbacks that start a phase run after their own `setState` has been committed. */
  predicate IsBody(k: Cont)
  {
    k.ChildInBody? || k.ChildOutBody?
  }

  predicate AllBodies(ks: seq<Cont>)
  {
    forall i :: 0 <= i < |ks| ==> IsBody(ks[i])
  }

  /** The React state of the component. */
  datatype ComponentState = ComponentState(child: Option<Element>, oldChild: Option<Element>, isEntering: bool, isLeaving: bool)

  /**
   * Everything the controller's behaviour depends on: the `children` prop,
   * the React state, the unmounted flag, the committed wrapper refs, the
   * cancellation slots, the running completions by handle, the `done`
   * callbacks handed out, the class lists, the hook calls made, the frame
   * queue and React's queue of state updates and callbacks.
   */
  datatype State = State(
    props: Option<Element>,
    state: ComponentState,
    unmounted: bool,
    childRef: Option<Identity>, oldRef: Option<Identity>,
    slots: Slots, live: map<nat, Armed>, nextHandle: nat,
    dones: seq<DoneCallback>,
    classes: ClassLists, log: seq<HookCall>, frames: seq<FrameTask>,
    pending: seq<Update>, conts: seq<Cont>)

  /** Between two outside events React's queue is empty. */
  predicate Quiet(s: State)
  {
    s.pending == [] && s.conts == []
  }

  // ---------------------------------------------------------------------------
  // Rendering and refs
  // ---------------------------------------------------------------------------

  /** Which wrappers `render` returns. */
  datatype View = OnlyChild | OnlyOld | Both

  /**
   * `render`'s choice. With an old child, out-in renders only the old one
   * (and so does the build when there is no current child); otherwise both
   * render, old first. Without an old child only the current child renders.
   */
  function RenderView(version: Version, mode: Mode, child: Option<Element>, oldChild: Option<Element>): View
  {
    if oldChild.None? then OnlyChild
    else if mode == OutIn || (version == Build && child.None?) then OnlyOld
    else Both
  }

  /** A commit: each wrapper ref points at the element rendered into it, or at nothing. */
  function Commit(cfg: Config, s: State): State
  {
    var view := RenderView(cfg.version, cfg.mode, s.state.child, s.state.oldChild);
    s.(childRef := if view != OnlyOld then IdentityOf(s.state.child) else None,
       oldRef := if view != OnlyChild then IdentityOf(s.state.oldChild) else None)
  }

  /** The `oldChildRef` getter; the build falls back to the current child's element when `children` is empty. */
  function OldChildRef(cfg: Config, s: State): Option<Identity>
  {
    if cfg.version == Build && s.props.None? then s.childRef else s.oldRef
  }

  // ---------------------------------------------------------------------------
  // React's update queue
  // ---------------------------------------------------------------------------

  function Apply(c: ComponentState, u: Update): ComponentState
  {
    match u
    case SetChild(e) => c.(child := e)
    case SetOldChild(e) => c.(oldChild := e)
    case SetEntering(b) => c.(isEntering := b)
    case SetLeaving(b) => c.(isLeaving := b)
  }

  /** The queued updates applied in order. */
  function ApplyAll(c: ComponentState, us: seq<Update>): ComponentState
    decreases |us|
  {
    if us == [] then c else Apply(ApplyAll(c, us[..|us| - 1]), us[|us| - 1])
  }

  /** `_safelySetState`: queue the update and its callback unless the component is unmounted. */
  function SetState(s: State, us: seq<Update>, k: Option<Cont>): State
  {
    if s.unmounted then s
    else s.(pending := s.pending + us, conts := s.conts + (if k.Some? then [k.value] else []))
  }

  /** `maybeCall` of a hook: the call is recorded only when the hook is given. */
  function MaybeLog(cfg: Config, log: seq<HookCall>, h: Hook, el: Option<Identity>): seq<HookCall>
  {
    if h in cfg.hooks then log + [HookCall(h, el)] else log
  }

  /** The start of a phase: initial classes, the `onBefore*` hook and a frame. */
  function Begin(cfg: Config, s: State, p: Phase, el: Identity): State
  {
    s.(classes := AddInitial(cfg, s.classes, StageOf(p), el),
       log := MaybeLog(cfg, s.log, BeforeHook(p), Some(el)),
       frames := s.frames + [FrameTask(p, el)])
  }

  /** The callback of `_transitionChildIn`: nothing without a child element. */
  function ChildIn(cfg: Config, s: State): State
  {
    match s.childRef
    case None => s
    case Some(el) => Begin(cfg, s, Enter, el)
  }

  /** The body of `_transitionChildOut`: nothing without an old child element. */
  function ChildOut(cfg: Config, s: State): State
  {
    match OldChildRef(cfg, s)
    case None => s
    case Some(el) => Begin(cfg, s, Leave, el)
  }

  /** `_transitionChildIn`: mark entering, take the child from the props, start the enter after the commit. */
  function TransitionChildIn(cfg: Config, s: State): State
  {
    SetState(s, [SetEntering(true), SetChild(s.props)], Some(ChildInBody))
  }

  /**
   * `_transitionChildOut`: mark leaving and start the leave, after the commit
   * in the TypeScript sources, right away (with the refs of the last commit)
   * in the build.
   */
  function TransitionChildOut(cfg: Config, s: State): State
  {
    if cfg.version == Src then SetState(s, [SetLeaving(true)], Some(ChildOutBody))
    else ChildOut(cfg, SetState(s, [SetLeaving(true)], None))
  }

  function RunCont(cfg: Config, s: State, k: Cont): (r: State)
    ensures IsBody(k) ==> r.pending == s.pending && r.conts == s.conts
    ensures AllBodies(s.conts) ==> AllBodies(r.conts)
  {
    match k
    case DispatchModes =>
      var s1 := if cfg.mode != OutIn then TransitionChildIn(cfg, s) else s;
      if cfg.mode != InOut then TransitionChildOut(cfg, s1) else s1
    case StartChildIn => TransitionChildIn(cfg, s)
    case StartChildOut => TransitionChildOut(cfg, s)
    case ChildInBody => ChildIn(cfg, s)
    case ChildOutBody => ChildOut(cfg, s)
  }

  /** The callbacks of one commit, run in the order they were queued. */
  function RunConts(cfg: Config, s: State, ks: seq<Cont>): (r: State)
    ensures AllBodies(s.conts) ==> AllBodies(r.conts)
    ensures AllBodies(ks) ==> r.pending == s.pending && r.conts == s.conts
    decreases |ks|
  {
    if ks == [] then s else RunCont(cfg, RunConts(cfg, s, ks[..|ks| - 1]), ks[|ks| - 1])
  }

  /** One round of a flush: apply the queued updates, commit, run the queued callbacks. */
  function Round(cfg: Config, s: State): (r: State)
    ensures AllBodies(r.conts)
    ensures AllBodies(s.conts) ==> Quiet(r)
  {
    var s1 := Commit(cfg, s.(state := ApplyAll(s.state, s.pending), pending := [], conts := []));
    RunConts(cfg, s1, s.conts)
  }

  function FlushMeasure(s: State): nat
  {
    if Quiet(s) then 0 else if AllBodies(s.conts) then 1 else 2
  }

  /** Rounds until nothing is queued; callbacks queue only callbacks that queue nothing, so this ends. */
  function Flush(cfg: Config, s: State): (r: State)
    ensures Quiet(r)
    decreases FlushMeasure(s)
  {
    if Quiet(s) then s else Flush(cfg, Round(cfg, s))
  }

  // ---------------------------------------------------------------------------
  // Phases: frames, completion and cancellation
  // ---------------------------------------------------------------------------

  /** The `on*` hook takes a `done` callback and so drives completion itself. */
  predicate ExplicitDone(cfg: Config, p: Phase)
  {
    OnHook(p) in cfg.hooks && p in cfg.explicitDone
  }

  /** A `setTimeout` delay: negative values count as zero. */
  function Delay(ms: int): nat
  {
    if ms < 0 then 0 else ms
  }

  /**
   * `_onTransitionsEnd`'s choice: a timer when `duration` is given (in the
   * build also when `noCss` is, then of `duration || 0` ms), otherwise the
   * CSS end-event watcher.
   */
  function ArmTrigger(cfg: Config): Trigger
  {
    if cfg.duration != 0 || (cfg.version == Build && cfg.noCss) then Timer(Delay(cfg.duration))
    else Sniffed(cfg.requested)
  }

  /** `_onTransitionsEnd`: arm a completion and keep its canceller in the phase's slot. */
  function Arm(cfg: Config, s: State, p: Phase, el: Identity): State
  {
    s.(live := s.live[s.nextHandle := Armed(p, el, ArmTrigger(cfg))],
       slots := s.slots.Set(p, Some(s.nextHandle)),
       nextHandle := s.nextHandle + 1)
  }

  /** The frame step of a phase: active classes, then the `on*` hook and the wait for completion. */
  function RunFrame(cfg: Config, s: State, f: FrameTask): State
  {
    var s1 := s.(classes := AddActive(cfg, s.classes, StageOf(f.phase), f.el));
    if ExplicitDone(cfg, f.phase) then
      s1.(log := s1.log + [HookCall(OnHook(f.phase), Some(f.el))], dones := s1.dones + [DoneCallback(f.phase, f.el)])
    else
      Arm(cfg, s1.(log := MaybeLog(cfg, s1.log, OnHook(f.phase), Some(f.el))), f.phase, f.el)
  }

  /**
   * The completion callbacks (`doneCallback` of appear, `_afterEnterCallback`,
   * `_afterLeaveCallback`): empty the slot, remove the classes, call
   * `onAfter*`; enter then clears `isEntering` and in in-out mode starts the
   * leave, leave clears `oldChild` and `isLeaving` and in out-in mode starts
   * the enter.
   */
  function Complete(cfg: Config, s: State, p: Phase, el: Identity): State
  {
    var s1 := s.(slots := s.slots.Set(p, None),
                 classes := AddPost(cfg, s.classes, StageOf(p), el),
                 log := MaybeLog(cfg, s.log, AfterHook(p), Some(el)));
    match p
    case Appear => s1
    case Enter =>
      Flush(cfg, SetState(s1, [SetEntering(false)], if cfg.mode == InOut then Some(StartChildOut) else None))
    case Leave =>
      Flush(cfg, SetState(s1, [SetOldChild(None), SetLeaving(false)], if cfg.mode == OutIn then Some(StartChildIn) else None))
  }

  /** One slot of `_clearTimeouts`: if it holds a canceller, run it and call the cancel hook. */
  function CancelSlot(cfg: Config, s: State, p: Phase, el: Option<Identity>): State
  {
    match s.slots.Get(p)
    case None => s
    case Some(id) => s.(live := s.live - {id}, log := MaybeLog(cfg, s.log, CancelHook(p), el))
  }

  /**
   * `_clearTimeouts`: appear, enter, leave in this order; the cancel hooks get
   * `childRef || oldChildRef` (appear, enter) or `oldChildRef || childRef`
   * (leave). The slots keep their cancellers.
   */
  function ClearTimeouts(cfg: Config, s: State): State
  {
    var forward := s.childRef.OrElse(OldChildRef(cfg, s));
    var backward := OldChildRef(cfg, s).OrElse(s.childRef);
    CancelSlot(cfg, CancelSlot(cfg, CancelSlot(cfg, s, Appear, forward), Enter, forward), Leave, backward)
  }

  // ---------------------------------------------------------------------------
  // Lifecycle events
  // ---------------------------------------------------------------------------

  /** The state the constructor sets up and the first render commits. */
  function Initial(cfg: Config, children: Option<Element>): State
  {
    Commit(cfg, State(children, ComponentState(children, None, cfg.appear, false), false, None, None,
      Slots(None, None, None), map[], 0, [], map[], [], [], [], []))
  }

  /** Mounting: the first render, then `componentDidMount`, which starts the appear when asked to. */
  function Mount(cfg: Config, children: Option<Element>): State
    requires cfg.appear ==> children.Some?
  {
    var s := Initial(cfg, children);
    if cfg.appear then Begin(cfg, s, Appear, s.childRef.value) else s
  }

  /**
   * `componentDidUpdate`: when the child's identity changed (and it is not an
   * out-in leave in progress) cancel what runs, then hand the previous child
   * to `oldChild` and start the phases the mode asks for; the build handles a
   * removed and an added child on their own.
   */
  function DidUpdate(cfg: Config, s: State, prev: Option<Element>): State
  {
    var next := s.props;
    if ComponentsEqual(next, prev) || (cfg.mode == OutIn && s.state.isLeaving) then s
    else
      var s1 := ClearTimeouts(cfg, s);
      if cfg.version == Build && next.None? && prev.Some? then
        TransitionChildOut(cfg, SetState(s1, [SetChild(None), SetOldChild(prev)], None))
      else if cfg.version == Build && next.Some? && prev.None? then
        SetState(s1, [SetOldChild(None)], Some(StartChildIn))
      else
        SetState(s1, [SetOldChild(prev)], Some(DispatchModes))
  }

  /**
   * New `children`: `componentWillReceiveProps` takes the new child into the
   * state when its identity is unchanged, React renders and commits, then
   * `componentDidUpdate` runs and its state updates are flushed.
   */
  function SetProps(cfg: Config, s: State, next: Option<Element>): State
    requires Quiet(s)
  {
    var prev := s.props;
    var s1 := if ComponentsEqual(prev, next) then SetState(s, [SetChild(next)], None) else s;
    var s2 := Commit(cfg, s1.(state := ApplyAll(s1.state, s1.pending), pending := [], props := next));
    Flush(cfg, DidUpdate(cfg, s2, prev))
  }

  /** A frame: the oldest queued frame callback runs. */
  function FrameTick(cfg: Config, s: State): State
  {
    if s.frames == [] then s else RunFrame(cfg, s.(frames := s.frames[1..]), s.frames[0])
  }

  /** A timer or the end-event watcher completes: only a completion not yet cancelled or fired does anything. */
  function FireCompletion(cfg: Config, s: State, id: nat): State
  {
    if id in s.live then Complete(cfg, s.(live := s.live - {id}), s.live[id].phase, s.live[id].el) else s
  }

  /** A hook calls the `done` callback it was given (possibly again). */
  function CallDone(cfg: Config, s: State, i: nat): State
    requires i < |s.dones|
  {
    Complete(cfg, s, s.dones[i].phase, s.dones[i].el)
  }

  /** `componentWillUnmount`: cancel what runs, set the flag; React then detaches the refs. */
  function Unmount(cfg: Config, s: State): State
  {
    ClearTimeouts(cfg, s).(unmounted := true, childRef := None, oldRef := None)
  }
}
