/**
 * A change of child followed through the build, event by event: the hook log
 * a change writes when no `onBefore*` hook is given, and the sequence of
 * interruptions in which every running phase is cancelled by the next change.
 */
module TransitionScenario {
  import opened Wrappers
  import opened Utils
  import opened SingleTransition
  import opened TransitionProperties

  // ---------------------------------------------------------------------------
  // What a flush leaves alone
  // ---------------------------------------------------------------------------

  /** None of the `onBefore*` hooks is given, so starting a phase writes nothing to the log. */
  predicate NoBeforeHooks(cfg: Config)
  {
    forall p: Phase :: BeforeHook(p) !in cfg.hooks
  }

  /**
   * React's queue never changes the props, the unmounted flag, the
   * cancellation slots or the next handle; without `onBefore*` hooks it
   * writes nothing to the log either.
   */
  predicate Untouched(cfg: Config, s: State, r: State)
  {
    && r.props == s.props && r.unmounted == s.unmounted
    && r.slots == s.slots && r.nextHandle == s.nextHandle
    && (NoBeforeHooks(cfg) ==> r.log == s.log)
  }

  lemma {:induction false} BeginUntouched(cfg: Config, s: State, p: Phase, el: Identity)
    ensures Untouched(cfg, s, Begin(cfg, s, p, el))
  {
    if NoBeforeHooks(cfg) {
      assert BeforeHook(p) !in cfg.hooks;
    }
  }

  lemma {:induction false} RunContUntouched(cfg: Config, s: State, k: Cont)
    ensures Untouched(cfg, s, RunCont(cfg, s, k))
  {
    match k
    case DispatchModes =>
      var s1 := if cfg.mode != OutIn then TransitionChildIn(cfg, s) else s;
      ChildOutUntouched(cfg, s1);
    case StartChildIn =>
    case StartChildOut =>
      ChildOutUntouched(cfg, s);
    case ChildInBody =>
      if s.childRef.Some? {
        BeginUntouched(cfg, s, Enter, s.childRef.value);
      }
    case ChildOutBody =>
      if OldChildRef(cfg, s).Some? {
        BeginUntouched(cfg, s, Leave, OldChildRef(cfg, s).value);
      }
  }

  lemma {:induction false} ChildOutUntouched(cfg: Config, s: State)
    ensures Untouched(cfg, s, TransitionChildOut(cfg, s))
  {
    var s1 := SetState(s, [SetLeaving(true)], None);
    if cfg.version == Build && OldChildRef(cfg, s1).Some? {
      BeginUntouched(cfg, s1, Leave, OldChildRef(cfg, s1).value);
    }
  }

  lemma {:induction false} RunContsUntouched(cfg: Config, s: State, ks: seq<Cont>)
    ensures Untouched(cfg, s, RunConts(cfg, s, ks))
    decreases |ks|
  {
    if ks != [] {
      RunContsUntouched(cfg, s, ks[..|ks| - 1]);
      RunContUntouched(cfg, RunConts(cfg, s, ks[..|ks| - 1]), ks[|ks| - 1]);
    }
  }

  lemma {:induction false} FlushUntouched(cfg: Config, s: State)
    ensures Untouched(cfg, s, Flush(cfg, s))
    decreases FlushMeasure(s)
  {
    if !Quiet(s) {
      var s1 := Commit(cfg, s.(state := ApplyAll(s.state, s.pending), pending := [], conts := []));
      RunContsUntouched(cfg, s1, s.conts);
      FlushUntouched(cfg, Round(cfg, s));
    }
  }

  /**
   * A change of child's identity (that out-in does not ignore) keeps the
   * slots and the next handle, takes the new props, and, when no
   * `onBefore*` hook is given, adds to the log exactly the cancel hooks of
   * `_clearTimeouts`, with the elements of the commit that shows the new
   * props.
   */
  lemma {:induction false} ChangeLogsCancels(cfg: Config, s: State, next: Option<Element>, forward: Option<Identity>, backward: Option<Identity>)
    requires Quiet(s) && !ComponentsEqual(s.props, next)
    requires !(cfg.mode == OutIn && s.state.isLeaving)
    requires var u := Commit(cfg, s.(props := next));
      forward == u.childRef.OrElse(OldChildRef(cfg, u)) && backward == OldChildRef(cfg, u).OrElse(u.childRef)
    ensures var r := SetProps(cfg, s, next);
      && r.props == next && r.unmounted == s.unmounted && r.slots == s.slots && r.nextHandle == s.nextHandle
      && (NoBeforeHooks(cfg) ==>
            r.log == s.log + CancelCall(cfg, s.slots, Appear, forward) + CancelCall(cfg, s.slots, Enter, forward)
                           + CancelCall(cfg, s.slots, Leave, backward))
  {
    var u := Commit(cfg, s.(props := next));
    var c := ClearTimeouts(cfg, u);
    SetPropsChanged(cfg, s, next);
    CancelOrder(cfg, u);
    var d := DidUpdate(cfg, u, s.props);
    assert Untouched(cfg, c, d) by {
      if cfg.version == Build && next.None? && s.props.Some? {
        ChildOutUntouched(cfg, SetState(c, [SetChild(None), SetOldChild(s.props)], None));
      }
    }
    FlushUntouched(cfg, d);
  }

  // ---------------------------------------------------------------------------
  // The steps of an interrupted sequence
  // ---------------------------------------------------------------------------

  /** Between two events: the snapshot fields the next event depends on. */
  predicate Shows(s: State, props: Option<Element>, st: ComponentState, childRef: Option<Identity>, oldRef: Option<Identity>,
                  slots: Slots, nextHandle: nat, log: seq<HookCall>, frames: seq<FrameTask>)
  {
    && Quiet(s) && !s.unmounted && s.props == props && s.state == st
    && s.childRef == childRef && s.oldRef == oldRef
    && s.slots == slots && s.nextHandle == nextHandle && s.log == log && s.frames == frames
  }

  /** The cancel hooks a change writes when every one of them is given and the element is `el`. */
  function Cancels(sl: Slots, el: Identity): seq<HookCall>
  {
    (if sl.appear.Some? then [HookCall(CancelHook(Appear), Some(el))] else [])
    + (if sl.enter.Some? then [HookCall(CancelHook(Enter), Some(el))] else [])
    + (if sl.leave.Some? then [HookCall(CancelHook(Leave), Some(el))] else [])
  }

  /** The cancel hooks of the slots the sequence fills, in the order `_clearTimeouts` calls them. */
  lemma {:induction false} CancelsInOrder(f: Identity, a: nat, b: nat, c: nat)
    ensures [] + Cancels(Slots(Some(a), None, None), f) == [HookCall(CancelHook(Appear), Some(f))]
    ensures Cancels(Slots(Some(a), None, Some(c)), f) == [HookCall(CancelHook(Appear), Some(f)), HookCall(CancelHook(Leave), Some(f))]
    ensures Cancels(Slots(Some(a), Some(b), Some(c)), f)
         == [HookCall(CancelHook(Appear), Some(f)), HookCall(CancelHook(Enter), Some(f)), HookCall(CancelHook(Leave), Some(f))]
  {
  }

  /** The hooks the interruption sequence gives: the three cancel hooks and nothing else. */
  predicate OnlyCancelHooks(cfg: Config)
  {
    cfg.hooks == {CancelHook(Appear), CancelHook(Enter), CancelHook(Leave)}
  }

  /** The three cancel hooks are given. */
  predicate CancelHooksGiven(cfg: Config)
  {
    CancelHook(Appear) in cfg.hooks && CancelHook(Enter) in cfg.hooks && CancelHook(Leave) in cfg.hooks
  }

  lemma {:induction false} OnlyCancelHooksGiven(cfg: Config)
    requires OnlyCancelHooks(cfg)
    ensures NoBeforeHooks(cfg) && CancelHooksGiven(cfg)
  {
  }

  lemma {:induction false} CancelsGiven(cfg: Config, sl: Slots, el: Identity)
    requires CancelHooksGiven(cfg)
    ensures CancelCall(cfg, sl, Appear, Some(el)) + CancelCall(cfg, sl, Enter, Some(el)) + CancelCall(cfg, sl, Leave, Some(el))
         == Cancels(sl, el)
  {
  }

  /** Mounting with `appear`: the appear's frame is queued and nothing is logged. */
  lemma {:induction false} MountStep(cfg: Config, foo: Element)
    requires cfg.version == Build && cfg.appear && OnlyCancelHooks(cfg)
    ensures var f := IdentityOf(Some(foo)).value;
      Shows(Mount(cfg, Some(foo)), Some(foo), ComponentState(Some(foo), None, true, false), Some(f), None,
            Slots(None, None, None), 0, [], [FrameTask(Appear, f)])
  {
    InitialState(cfg, Some(foo));
    MountStartsAppear(cfg, Some(foo));
    var s := Initial(cfg, Some(foo));
    BeginKeeps(cfg, s, Appear, s.childRef.value);
    BeginUntouched(cfg, s, Appear, s.childRef.value);
    OnlyCancelHooksGiven(cfg);
  }

  /** A frame runs the one queued phase step: its completion is armed under the next handle, and nothing is logged. */
  lemma {:induction false} TickStep(cfg: Config, s: State, props: Option<Element>, st: ComponentState,
                                    childRef: Option<Identity>, oldRef: Option<Identity>, sl: Slots, n: nat,
                                    log: seq<HookCall>, p: Phase, el: Identity)
    requires OnlyCancelHooks(cfg)
    requires Shows(s, props, st, childRef, oldRef, sl, n, log, [FrameTask(p, el)])
    ensures Shows(FrameTick(cfg, s), props, st, childRef, oldRef, sl.Set(p, Some(n)), n + 1, log, [])
  {
    assert OnHook(p) !in cfg.hooks;
    FrameStep(cfg, s.(frames := []), FrameTask(p, el));
    var r := FrameTick(cfg, s);
    assert r.slots == sl.Set(p, Some(n)) by {
      assert r.slots.Get(p) == Some(n);
      assert forall q :: q != p ==> r.slots.Get(q) == sl.Get(q);
      assert sl.Set(p, Some(n)).Get(Appear) == r.slots.Get(Appear);
      assert sl.Set(p, Some(n)).Get(Enter) == r.slots.Get(Enter);
      assert sl.Set(p, Some(n)).Get(Leave) == r.slots.Get(Leave);
    }
  }

  /** The elements `_clearTimeouts` hands to the cancel hooks: those of the commit that shows the new props. */
  lemma {:induction false} ChangeElements(cfg: Config, s: State, next: Option<Element>)
    requires cfg.version == Build && cfg.mode == Simultaneous
    ensures var u := Commit(cfg, s.(props := next));
      var view := RenderView(cfg.version, cfg.mode, s.state.child, s.state.oldChild);
      && u.childRef == (if view != OnlyOld then IdentityOf(s.state.child) else None)
      && OldChildRef(cfg, u) == (if next.None? then u.childRef else if view != OnlyChild then IdentityOf(s.state.oldChild) else None)
  {
  }

  /** A change whose cancel hooks all see the element `f`: the log gains `Cancels`, the slots and the next handle stay. */
  lemma {:induction false} ChangeLog(cfg: Config, s: State, next: Option<Element>, f: Identity)
    requires cfg.mode == Simultaneous && NoBeforeHooks(cfg) && CancelHooksGiven(cfg)
    requires Quiet(s) && !ComponentsEqual(s.props, next)
    requires var u := Commit(cfg, s.(props := next));
      u.childRef.OrElse(OldChildRef(cfg, u)) == Some(f) && OldChildRef(cfg, u).OrElse(u.childRef) == Some(f)
    ensures var r := SetProps(cfg, s, next);
      && r.props == next && r.unmounted == s.unmounted && r.slots == s.slots && r.nextHandle == s.nextHandle
      && r.log == s.log + Cancels(s.slots, f)
  {
    CancelsGiven(cfg, s.slots, f);
    ChangeLogsCancels(cfg, s, next, Some(f), Some(f));
  }

  /** `children` becomes empty while the child is shown alone: its leave starts and every running phase is cancelled on it. */
  lemma {:induction false} RemoveStep(cfg: Config, s: State, foo: Element, isEntering: bool, sl: Slots, n: nat, log: seq<HookCall>)
    requires cfg.version == Build && cfg.mode == Simultaneous && OnlyCancelHooks(cfg)
    requires var f := IdentityOf(Some(foo));
      Shows(s, Some(foo), ComponentState(Some(foo), None, isEntering, false), f, None, sl, n, log, [])
    ensures var f := IdentityOf(Some(foo)).value;
      Shows(SetProps(cfg, s, None), None, ComponentState(None, Some(foo), isEntering, true), None, Some(f),
            sl, n, log + Cancels(sl, f), [FrameTask(Leave, f)])
  {
    ChangeElements(cfg, s, None);
    OnlyCancelHooksGiven(cfg);
    ChangeLog(cfg, s, None, IdentityOf(Some(foo)).value);
    BuildChildRemoved(cfg, s);
  }

  /** `children` comes back while its element is leaving: the child enters again and every running phase is cancelled on it. */
  lemma {:induction false} AddStep(cfg: Config, s: State, foo: Element, sl: Slots, n: nat, log: seq<HookCall>)
    requires cfg.version == Build && cfg.mode == Simultaneous && OnlyCancelHooks(cfg)
    requires var f := IdentityOf(Some(foo));
      Shows(s, None, ComponentState(None, Some(foo), true, true), None, f, sl, n, log, [])
    ensures var f := IdentityOf(Some(foo)).value;
      Shows(SetProps(cfg, s, Some(foo)), Some(foo), ComponentState(Some(foo), None, true, true), Some(f), None,
            sl, n, log + Cancels(sl, f), [FrameTask(Enter, f)])
  {
    ChangeElements(cfg, s, Some(foo));
    OnlyCancelHooksGiven(cfg);
    ChangeLog(cfg, s, Some(foo), IdentityOf(Some(foo)).value);
    BuildChildAdded(cfg, s, Some(foo));
  }

  /** Another child replaces the entering one: every running phase is cancelled on the old element and both children are shown. */
  lemma {:induction false} SwapStep(cfg: Config, s: State, foo: Element, bar: Element, sl: Slots, n: nat, log: seq<HookCall>)
    requires cfg.version == Build && cfg.mode == Simultaneous && OnlyCancelHooks(cfg)
    requires IdentityOf(Some(foo)) != IdentityOf(Some(bar))
    requires var f := IdentityOf(Some(foo));
      Shows(s, Some(foo), ComponentState(Some(foo), None, true, true), f, None, sl, n, log, [])
    ensures var r := SetProps(cfg, s, Some(bar)); var f := IdentityOf(Some(foo)).value;
      && Quiet(r) && r.slots == sl && r.log == log + Cancels(sl, f)
      && r.state == ComponentState(Some(bar), Some(foo), true, true)
  {
    ChangeElements(cfg, s, Some(bar));
    OnlyCancelHooksGiven(cfg);
    ChangeLog(cfg, s, Some(bar), IdentityOf(Some(foo)).value);
    ModeDispatch(cfg, s, Some(bar));
  }

  /** The mount with `appear` and the appear's frame. */
  lemma {:induction false} AppearRuns(cfg: Config, foo: Element)
    requires cfg.version == Build && cfg.appear && OnlyCancelHooks(cfg)
    ensures var f := IdentityOf(Some(foo)).value;
      Shows(FrameTick(cfg, Mount(cfg, Some(foo))), Some(foo), ComponentState(Some(foo), None, true, false), Some(f), None,
            Slots(Some(0), None, None), 1, [], [])
  {
    var f := IdentityOf(Some(foo)).value;
    MountStep(cfg, foo);
    TickStep(cfg, Mount(cfg, Some(foo)), Some(foo), ComponentState(Some(foo), None, true, false), Some(f), None,
             Slots(None, None, None), 0, [], Appear, f);
  }

  /** The removal during the appear and the leave's frame. */
  lemma {:induction false} RemovalRuns(cfg: Config, s: State, foo: Element)
    requires cfg.version == Build && cfg.mode == Simultaneous && OnlyCancelHooks(cfg)
    requires var f := IdentityOf(Some(foo));
      Shows(s, Some(foo), ComponentState(Some(foo), None, true, false), f, None, Slots(Some(0), None, None), 1, [], [])
    ensures var f := IdentityOf(Some(foo)).value; var r := SetProps(cfg, s, None);
      && r.log == [HookCall(CancelHook(Appear), Some(f))]
      && Quiet(r)
      && Shows(FrameTick(cfg, r), None, ComponentState(None, Some(foo), true, true), None, Some(f),
               Slots(Some(0), None, Some(1)), 2, r.log, [])
  {
    var f := IdentityOf(Some(foo)).value;
    var sl := Slots(Some(0), None, None);
    RemoveStep(cfg, s, foo, true, sl, 1, []);
    var r := SetProps(cfg, s, None);
    CancelsInOrder(f, 0, 2, 1);
    TickStep(cfg, r, None, ComponentState(None, Some(foo), true, true), None, Some(f), sl, 1, r.log, Leave, f);
  }

  /** The return of the child during its leave and the enter's frame. */
  lemma {:induction false} ReturnRuns(cfg: Config, s: State, foo: Element, log: seq<HookCall>)
    requires cfg.version == Build && cfg.mode == Simultaneous && OnlyCancelHooks(cfg)
    requires var f := IdentityOf(Some(foo));
      Shows(s, None, ComponentState(None, Some(foo), true, true), None, f, Slots(Some(0), None, Some(1)), 2, log, [])
    ensures var f := IdentityOf(Some(foo)).value; var r := SetProps(cfg, s, Some(foo));
      && r.log == log + [HookCall(CancelHook(Appear), Some(f)), HookCall(CancelHook(Leave), Some(f))]
      && Quiet(r)
      && Shows(FrameTick(cfg, r), Some(foo), ComponentState(Some(foo), None, true, true), Some(f), None,
               Slots(Some(0), Some(2), Some(1)), 3, r.log, [])
  {
    var f := IdentityOf(Some(foo)).value;
    var sl := Slots(Some(0), None, Some(1));
    AddStep(cfg, s, foo, sl, 2, log);
    var r := SetProps(cfg, s, Some(foo));
    CancelsInOrder(f, 0, 2, 1);
    TickStep(cfg, r, Some(foo), ComponentState(Some(foo), None, true, true), Some(f), None, sl, 2, r.log, Enter, f);
  }

  /** The replacement during the enter. */
  lemma {:induction false} ReplacementRuns(cfg: Config, s: State, foo: Element, bar: Element, log: seq<HookCall>)
    requires cfg.version == Build && cfg.mode == Simultaneous && OnlyCancelHooks(cfg)
    requires IdentityOf(Some(foo)) != IdentityOf(Some(bar))
    requires var f := IdentityOf(Some(foo));
      Shows(s, Some(foo), ComponentState(Some(foo), None, true, true), f, None, Slots(Some(0), Some(2), Some(1)), 3, log, [])
    ensures var f := IdentityOf(Some(foo)).value; var r := SetProps(cfg, s, Some(bar));
      && r.log == log + [HookCall(CancelHook(Appear), Some(f)), HookCall(CancelHook(Enter), Some(f)), HookCall(CancelHook(Leave), Some(f))]
      && r.state == ComponentState(Some(bar), Some(foo), true, true)
  {
    var f := IdentityOf(Some(foo)).value;
    var sl := Slots(Some(0), Some(2), Some(1));
    SwapStep(cfg, s, foo, bar, sl, 3, log);
    CancelsInOrder(f, 0, 2, 1);
  }

  /**
   * Each change cancels what runs. Mounted with `appear` and the three
   * cancel hooks, a frame later `children` is emptied: `onCancelAppear` is
   * called with the child's element. A frame later the child comes back:
   * `onCancelLeave` is called with the same element (and `onCancelAppear`
   * again, its slot never being emptied). A frame later another child
   * replaces it: `onCancelEnter` is called once, with the slots of appear
   * and leave calling theirs again, and both children are rendered.
   */
  lemma {:induction false} InterruptedPhasesCancel(cfg: Config, foo: Element, bar: Element)
    requires cfg.version == Build && cfg.mode == Simultaneous && cfg.appear && OnlyCancelHooks(cfg)
    requires IdentityOf(Some(foo)) != IdentityOf(Some(bar))
    ensures var f := IdentityOf(Some(foo));
      var s1 := FrameTick(cfg, Mount(cfg, Some(foo)));
      && Quiet(s1)
      && var s2 := SetProps(cfg, s1, None);
         var s3 := FrameTick(cfg, s2);
      && s2.log == [HookCall(CancelHook(Appear), f)]
      && Quiet(s3)
      && var s4 := SetProps(cfg, s3, Some(foo));
         var s5 := FrameTick(cfg, s4);
      && s4.log == s2.log + [HookCall(CancelHook(Appear), f), HookCall(CancelHook(Leave), f)]
      && Quiet(s5)
      && var s6 := SetProps(cfg, s5, Some(bar));
      && s6.log == s4.log + [HookCall(CancelHook(Appear), f), HookCall(CancelHook(Enter), f), HookCall(CancelHook(Leave), f)]
      && RenderView(cfg.version, cfg.mode, s6.state.child, s6.state.oldChild) == Both
  {
    var s1 := FrameTick(cfg, Mount(cfg, Some(foo)));
    AppearRuns(cfg, foo);
    var s2 := SetProps(cfg, s1, None);
    RemovalRuns(cfg, s1, foo);
    var s4 := SetProps(cfg, FrameTick(cfg, s2), Some(foo));
    ReturnRuns(cfg, FrameTick(cfg, s2), foo, s2.log);
    ReplacementRuns(cfg, FrameTick(cfg, s4), foo, bar, s4.log);
  }
}
