/**
 * The `Transition` component as an object: its methods change its fields in
 * the order the component does, and each ends in the snapshot the
 * corresponding function of `SingleTransition` describes.
 */
module TransitionComponent {
  import opened Wrappers
  import opened Utils
  import opened SingleTransition
  import ST = SingleTransition

  /**
   * The component instance: its props, React state, unmounted flag, wrapper
   * refs and `_timeoutClears`, together with the parts of the outside world
   * it changes (the class lists, the hooks called, the frame queue, the
   * running completions) and React's queue of state updates.
   */
  class Transition {
    const cfg: Config
    var props: Option<Element>
    var state: ComponentState
    var unmounted: bool
    var childRef: Option<Identity>
    var oldRef: Option<Identity>
    var slots: Slots
    var live: map<nat, Armed>
    var nextHandle: nat
    var dones: seq<DoneCallback>
    var classes: ClassLists
    var log: seq<HookCall>
    var frames: seq<FrameTask>
    var pending: seq<Update>
    var conts: seq<Cont>

    /** The fields as a snapshot. */
    function Snap(): State
      reads this
    {
      State(props, state, unmounted, childRef, oldRef, slots, live, nextHandle, dones, classes, log, frames, pending, conts)
    }

    /** Construction, the first render and `componentDidMount`. */
    constructor (config: Config, children: Option<Element>)
      requires config.appear ==> children.Some?
      ensures cfg == config
      ensures Snap() == Mount(config, children)
    {
      cfg := config;
      props := children;
      state := ComponentState(children, None, config.appear, false);
      unmounted := false;
      childRef, oldRef := None, None;
      slots := Slots(None, None, None);
      live, nextHandle, dones := map[], 0, [];
      classes, log, frames := map[], [], [];
      pending, conts := [], [];
      new;
      CommitRender();
      if cfg.appear {
        BeginPhase(Appear, childRef.value);
      }
    }

    /** The commit of a render: each wrapper ref takes the element rendered into it. */
    method CommitRender()
      modifies this
      ensures Snap() == Commit(cfg, old(Snap()))
    {
      var view := RenderView(cfg.version, cfg.mode, state.child, state.oldChild);
      childRef := if view != OnlyOld then IdentityOf(state.child) else None;
      oldRef := if view != OnlyChild then IdentityOf(state.oldChild) else None;
    }

    /** `_safelySetState`. */
    method SafelySetState(us: seq<Update>, k: Option<Cont>)
      modifies this
      ensures Snap() == SetState(old(Snap()), us, k)
    {
      if !unmounted {
        pending := pending + us;
        if k.Some? {
          conts := conts + [k.value];
        }
      }
    }

    /** `maybeCall` of a hook with an element. */
    method CallHook(h: Hook, el: Option<Identity>)
      modifies this
      ensures Snap() == old(Snap()).(log := MaybeLog(cfg, old(log), h, el))
    {
      if h in cfg.hooks {
        log := log + [HookCall(h, el)];
      }
    }

    /** `el.classList.add(c)`. */
    method AddClass(el: Identity, c: string)
      modifies this
      ensures Snap() == old(Snap()).(classes := old(classes)[el := ClassesOf(old(classes), el) + {c}])
    {
      classes := classes[el := ClassesOf(classes, el) + {c}];
    }

    /** `el.classList.remove(c)`. */
    method RemoveClass(el: Identity, c: string)
      modifies this
      ensures Snap() == old(Snap()).(classes := old(classes)[el := ClassesOf(old(classes), el) - {c}])
    {
      classes := classes[el := ClassesOf(classes, el) - {c}];
    }

    /** `_applyInitialTransitionClasses`. */
    method ApplyInitialClasses(st: Stage, el: Identity)
      modifies this
      ensures Snap() == old(Snap()).(classes := AddInitial(cfg, old(classes), st, el))
    {
      ghost var before := ClassesOf(classes, el);
      AddClass(el, InitialClass(cfg, st));
      AddClass(el, ActiveClass(cfg, st));
      assert before + {InitialClass(cfg, st)} + {ActiveClass(cfg, st)} == before + {InitialClass(cfg, st), ActiveClass(cfg, st)};
    }

    /** `_applyActiveTransitionClasses`. */
    method ApplyActiveClasses(st: Stage, el: Identity)
      modifies this
      ensures Snap() == old(Snap()).(classes := AddActive(cfg, old(classes), st, el))
    {
      RemoveClass(el, InitialClass(cfg, st));
      AddClass(el, PostClass(cfg, st));
    }

    /** `_applyPostAnimationClasses`. */
    method ApplyPostClasses(st: Stage, el: Identity)
      modifies this
      ensures Snap() == old(Snap()).(classes := AddPost(cfg, old(classes), st, el))
    {
      RemoveClass(el, ActiveClass(cfg, st));
      RemoveClass(el, PostClass(cfg, st));
    }

    /** The start of a phase: initial classes, `onBefore*`, and the frame step queued with `onNextFrame`. */
    method BeginPhase(p: Phase, el: Identity)
      modifies this
      ensures Snap() == Begin(cfg, old(Snap()), p, el)
    {
      ApplyInitialClasses(StageOf(p), el);
      CallHook(BeforeHook(p), Some(el));
      frames := frames + [FrameTask(p, el)];
    }

    /** The callback of `_transitionChildIn`. */
    method ChildIn()
      modifies this
      ensures Snap() == ST.ChildIn(cfg, old(Snap()))
    {
      if childRef.Some? {
        BeginPhase(Enter, childRef.value);
      }
    }

    /** The body of `_transitionChildOut` after its `setState`. */
    method ChildOut()
      modifies this
      ensures Snap() == ST.ChildOut(cfg, old(Snap()))
    {
      var el := if cfg.version == Build && props.None? then childRef else oldRef;
      if el.Some? {
        BeginPhase(Leave, el.value);
      }
    }

    /** `_transitionChildIn`. */
    method TransitionChildIn()
      modifies this
      ensures Snap() == ST.TransitionChildIn(cfg, old(Snap()))
    {
      SafelySetState([SetEntering(true), SetChild(props)], Some(ChildInBody));
    }

    /** `_transitionChildOut`. */
    method TransitionChildOut()
      modifies this
      ensures Snap() == ST.TransitionChildOut(cfg, old(Snap()))
    {
      if cfg.version == Src {
        SafelySetState([SetLeaving(true)], Some(ChildOutBody));
      } else {
        SafelySetState([SetLeaving(true)], None);
        ChildOut();
      }
    }

    /** A `setState` callback. */
    method RunCallback(k: Cont)
      modifies this
      ensures Snap() == RunCont(cfg, old(Snap()), k)
    {
      match k {
        case DispatchModes =>
          if cfg.mode != OutIn {
            TransitionChildIn();
          }
          if cfg.mode != InOut {
            TransitionChildOut();
          }
        case StartChildIn => TransitionChildIn();
        case StartChildOut => TransitionChildOut();
        case ChildInBody => ChildIn();
        case ChildOutBody => ChildOut();
      }
    }

    /** React applies the queued partial states in order. */
    method ApplyPending()
      modifies this
      ensures Snap() == old(Snap()).(state := ApplyAll(old(state), old(pending)), pending := [])
    {
      var us := pending;
      var st := state;
      var i := 0;
      while i < |us|
        invariant 0 <= i <= |us|
        invariant st == ApplyAll(state, us[..i])
      {
        assert us[..i + 1][..i] == us[..i];
        st := Apply(st, us[i]);
        i := i + 1;
      }
      assert us[..|us|] == us;
      state := st;
      pending := [];
    }

    /** One round of a flush: apply the updates, commit, run the callbacks queued with them. */
    method FlushRound()
      modifies this
      ensures Snap() == Round(cfg, old(Snap()))
    {
      var ks := conts;
      ApplyPending();
      conts := [];
      CommitRender();
      RunCallbacks(ks);
    }

    /** The callbacks of one commit, in the order they were queued. */
    method RunCallbacks(ks: seq<Cont>)
      modifies this
      ensures Snap() == RunConts(cfg, old(Snap()), ks)
    {
      var j := 0;
      while j < |ks|
        invariant 0 <= j <= |ks|
        invariant Snap() == RunConts(cfg, old(Snap()), ks[..j])
      {
        assert ks[..j + 1][..j] == ks[..j];
        RunCallback(ks[j]);
        j := j + 1;
      }
      assert ks[..|ks|] == ks;
    }

    /** React processes its queue until it is empty. */
    method FlushAll()
      modifies this
      ensures Snap() == Flush(cfg, old(Snap()))
    {
      while !(pending == [] && conts == [])
        invariant Flush(cfg, Snap()) == Flush(cfg, old(Snap()))
        decreases FlushMeasure(Snap())
      {
        FlushRound();
      }
    }

    /** `_onTransitionsEnd`: arm a completion and keep its canceller in the phase's slot. */
    method ArmCompletion(p: Phase, el: Identity)
      modifies this
      ensures Snap() == Arm(cfg, old(Snap()), p, el)
    {
      live := live[nextHandle := Armed(p, el, ArmTrigger(cfg))];
      slots := slots.Set(p, Some(nextHandle));
      nextHandle := nextHandle + 1;
    }

    /** The frame step of a phase. */
    method RunFrameTask(f: FrameTask)
      modifies this
      ensures Snap() == RunFrame(cfg, old(Snap()), f)
    {
      ApplyActiveClasses(StageOf(f.phase), f.el);
      if OnHook(f.phase) in cfg.hooks && f.phase in cfg.explicitDone {
        log := log + [HookCall(OnHook(f.phase), Some(f.el))];
        dones := dones + [DoneCallback(f.phase, f.el)];
      } else {
        CallHook(OnHook(f.phase), Some(f.el));
        ArmCompletion(f.phase, f.el);
      }
    }

    /** The completion callback of a phase (appear's `doneCallback`, `_afterEnterCallback`, `_afterLeaveCallback`). */
    method CompletePhase(p: Phase, el: Identity)
      modifies this
      ensures Snap() == Complete(cfg, old(Snap()), p, el)
    {
      slots := slots.Set(p, None);
      ApplyPostClasses(StageOf(p), el);
      CallHook(AfterHook(p), Some(el));
      match p {
        case Appear =>
        case Enter =>
          SafelySetState([SetEntering(false)], if cfg.mode == InOut then Some(StartChildOut) else None);
          FlushAll();
        case Leave =>
          SafelySetState([SetOldChild(None), SetLeaving(false)], if cfg.mode == OutIn then Some(StartChildIn) else None);
          FlushAll();
      }
    }

    /** One slot of `_clearTimeouts`. */
    method CancelPhase(p: Phase, el: Option<Identity>)
      modifies this
      ensures Snap() == CancelSlot(cfg, old(Snap()), p, el)
    {
      if slots.Get(p).Some? {
        live := live - {slots.Get(p).value};
        CallHook(CancelHook(p), el);
      }
    }

    /** `_clearTimeouts`. */
    method ClearTimeouts()
      modifies this
      ensures Snap() == ST.ClearTimeouts(cfg, old(Snap()))
    {
      var oldChildEl := OldChildRef(cfg, Snap());
      var forward := childRef.OrElse(oldChildEl);
      var backward := oldChildEl.OrElse(childRef);
      CancelPhase(Appear, forward);
      CancelPhase(Enter, forward);
      CancelPhase(Leave, backward);
    }

    /** `componentDidUpdate`. */
    method ComponentDidUpdate(prev: Option<Element>)
      modifies this
      ensures Snap() == DidUpdate(cfg, old(Snap()), prev)
    {
      var next := props;
      if !ComponentsEqual(next, prev) && !(cfg.mode == OutIn && state.isLeaving) {
        ClearTimeouts();
        if cfg.version == Build && next.None? && prev.Some? {
          SafelySetState([SetChild(None), SetOldChild(prev)], None);
          TransitionChildOut();
        } else if cfg.version == Build && next.Some? && prev.None? {
          SafelySetState([SetOldChild(None)], Some(StartChildIn));
        } else {
          SafelySetState([SetOldChild(prev)], Some(DispatchModes));
        }
      }
    }

    /** The parent renders with new `children`. */
    method SetProps(next: Option<Element>)
      requires Quiet(Snap())
      modifies this
      ensures Snap() == ST.SetProps(cfg, old(Snap()), next)
    {
      var prev := props;
      if ComponentsEqual(prev, next) {
        SafelySetState([SetChild(next)], None);
      }
      ApplyPending();
      props := next;
      CommitRender();
      ComponentDidUpdate(prev);
      FlushAll();
    }

    /** The browser paints a frame. */
    method FrameTick()
      modifies this
      ensures Snap() == ST.FrameTick(cfg, old(Snap()))
    {
      if frames != [] {
        var f := frames[0];
        frames := frames[1..];
        RunFrameTask(f);
      }
    }

    /** A timer or the end-event watcher calls back. */
    method FireCompletion(id: nat)
      modifies this
      ensures Snap() == ST.FireCompletion(cfg, old(Snap()), id)
    {
      if id in live {
        var a := live[id];
        live := live - {id};
        CompletePhase(a.phase, a.el);
      }
    }

    /** A hook calls the `done` callback it was given. */
    method CallDone(i: nat)
      requires i < |dones|
      modifies this
      ensures Snap() == ST.CallDone(cfg, old(Snap()), i)
    {
      CompletePhase(dones[i].phase, dones[i].el);
    }

    /** `componentWillUnmount`, then React detaching the refs. */
    method Unmount()
      modifies this
      ensures Snap() == ST.Unmount(cfg, old(Snap()))
    {
      ClearTimeouts();
      unmounted := true;
      childRef, oldRef := None, None;
    }
  }
}
