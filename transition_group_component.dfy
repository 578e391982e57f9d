/**
 * The `TransitionGroup` component as an object: its methods change its
 * fields step by step as the component does, and each ends in the snapshot
 * the corresponding function of `Group` describes.
 */
module GroupComponent {
  import opened Wrappers
  import opened Utils
  import opened Group
  import ST = SingleTransition

  /**
   * The component instance: its props and list of children, the
   * `_movingChildren` of the last update, the `_timeouts` cancellers, and
   * the parts of the outside world it changes (inline transforms and move
   * classes on the children's elements, queued frame tasks, the completion
   * watchers still waiting, the user hooks called).
   */
  class TransitionGroup {
    const version: ST.Version
    var props: Props
    var children: seq<Option<Entry>>
    var moving: seq<MoveRecord>
    var transforms: map<Key, Rect>
    var classes: map<Key, set<string>>
    var frames: seq<Key>
    var timeouts: map<Key, nat>
    var watchers: map<nat, Key>
    var nextHandle: nat
    var hookLog: seq<nat>

    /** The fields as a snapshot. */
    function Snap(): GroupState
      reads this
    {
      GroupState(props, children, moving, transforms, classes, frames, timeouts, watchers, nextHandle, hookLog)
    }

    /** Construction: the children wrapped with the initial props. */
    constructor (v: ST.Version, p: Props, elements: seq<Element>)
      ensures version == v
      ensures Snap() == Initial(v, p, elements)
    {
      version := v;
      props := p;
      var wrapped := WrapChildren(v, p, elements);
      children := seq(|wrapped|, i requires 0 <= i < |wrapped| => Some(wrapped[i]));
      moving, transforms, classes, frames := [], map[], map[], [];
      timeouts, watchers, nextHandle, hookLog := map[], map[], 0, [];
    }

    /**
     * `componentWillReceiveProps` followed by the commit and the callback
     * handed to `setState`: the loop over `max(old, new)` indices fills a
     * fresh sparse list with `insertAtIndex`, recording each persisting
     * child (its transform reset first) when moves are enabled.
     */
    method ReceiveProps(nextProps: Props, elements: seq<Element>, before: Key -> Rect, after: Key -> Option<Rect>)
      modifies this
      ensures Snap() == Receive(version, old(Snap()), nextProps, elements, before, after)
    {
      var next := WrapChildren(version, props, elements);
      var moves := MovesEnabled(version, props);
      var n := Span(children, next);
      var merged, recorded := MergeChildren(next, moves, before);
      moving := recorded;
      children := merged;
      props := nextProps;
      if moves && n > 0 {
        MoveCallback(after);
      }
    }

    /**
     * The loop of `componentWillReceiveProps` over `max(old, new)` indices,
     * filling a fresh sparse list with `insertAtIndex` and, when moves are
     * enabled, recording each persisting child after resetting its transform.
     */
    method MergeChildren(next: seq<Entry>, moves: bool, before: Key -> Rect)
      returns (merged: seq<Option<Entry>>, recorded: seq<MoveRecord>)
      modifies this
      ensures merged == Merged(children, next)
      ensures recorded == if moves then MovingUpTo(children, next, before, Span(children, next)) else []
      ensures Snap() == old(Snap()).(transforms := old(transforms) - KeysOf(recorded))
    {
      var list := new SparseArray<Entry>();
      recorded := [];
      ghost var t0 := transforms;
      var n := Span(children, next);
      var i := 0;
      while i < n
        invariant 0 <= i <= n
        invariant list.slots == MergeUpTo(children, next, i)
        invariant recorded == if moves then MovingUpTo(children, next, before, i) else []
        invariant Snap() == old(Snap()).(transforms := t0 - KeysOf(recorded))
      {
        var records := MergeIndex(list, next, i, moves, before);
        ResetInTurn(t0, recorded, records);
        recorded := recorded + records;
        i := i + 1;
      }
      merged := list.slots;
    }

    /**
     * One pass of the merge loop: the old child at `i` persists (placed at
     * its new index, and recorded when moves are enabled) or leaves (placed
     * at `i`); then the new child at `i` is placed if its key is new.
     */
    method MergeIndex(merged: SparseArray<Entry>, next: seq<Entry>, i: nat, moves: bool, before: Key -> Rect)
      returns (records: seq<MoveRecord>)
      modifies this, merged
      ensures merged.slots == MergeStep(children, next, old(merged.slots), i)
      ensures records == if moves then MovingStep(children, next, before, i) else []
      ensures Snap() == old(Snap()).(transforms := old(transforms) - KeysOf(records))
    {
      records := [];
      if OldAt(children, i) {
        var key := children[i].value.key;
        var j := FindKey(next, key);
        if j >= 0 {
          var written := merged.InsertAtIndex(next[j], j);
          if moves {
            transforms := transforms - {key};
            records := [MoveRecord(key, before(key))];
          }
        } else {
          var written := merged.InsertAtIndex(Leaving(children[i].value), i);
        }
      }
      if NewAt(children, next, i) {
        var written := merged.InsertAtIndex(next[i], i);
      }
    }

    /** The setState callback: `_clearTransitions`, then a move for each recorded child. */
    method MoveCallback(after: Key -> Option<Rect>)
      modifies this
      ensures Snap() == Group.MoveCallback(old(Snap()), after)
    {
      ClearTransitions();
      var ms := moving;
      var i := 0;
      while i < |ms|
        invariant 0 <= i <= |ms|
        invariant Snap() == MoveAll(Group.ClearTransitions(old(Snap())), ms[..i], after)
      {
        TransitionChildMove(ms[i], after);
        assert ms[..i + 1][..i] == ms[..i];
        i := i + 1;
      }
      assert ms[..|ms|] == ms;
    }

    /** `_clearTransitions`: run the canceller registered for each key. */
    method ClearTransitions()
      modifies this
      ensures Snap() == Group.ClearTransitions(old(Snap()))
    {
      ghost var s0 := Snap();
      ghost var done: set<Key> := {};
      ClearedByNothing(s0);
      var pending := timeouts.Keys;
      while pending != {}
        invariant done + pending == s0.timeouts.Keys && done !! pending
        invariant Snap() == ClearedBy(s0, done)
        decreases pending
      {
        var k :| k in pending;
        ClearStep(s0, done, k);
        CancelMove(k);
        done := done + {k};
        pending := pending - {k};
      }
    }

    /** The canceller in `_timeouts[k]`: the watcher's listener and timer go, then its `doneCallback` runs. */
    method CancelMove(k: Key)
      requires k in timeouts
      modifies this
      ensures Snap() == Group.CancelMove(old(Snap()), k)
    {
      watchers := watchers - {timeouts[k]};
      classes := classes[k := ClassesOf(classes, k) - {MoveClass(props)}];
      timeouts := timeouts - {k};
    }

    /** `_transitionChildMove` for one recorded child. */
    method TransitionChildMove(m: MoveRecord, after: Key -> Option<Rect>)
      modifies this
      ensures Snap() == ChildMove(old(Snap()), m, after)
    {
      var el := after(m.key);
      if el.None? {
        return;
      }
      var d := Minus(m.rect, Plus(el.value, TransformOf(transforms, m.key)));
      if d == Zero {
        return;
      }
      transforms := transforms[m.key := d];
      frames := frames + [m.key];
    }

    /** A frame: the oldest queued move task adds the class, clears the transform and registers its watcher. */
    method FrameTick()
      modifies this
      ensures Snap() == RunFrame(old(Snap()))
    {
      if frames == [] {
        return;
      }
      var k := frames[0];
      frames := frames[1..];
      classes := classes[k := ClassesOf(classes, k) + {MoveClass(props)}];
      transforms := transforms - {k};
      watchers := watchers[nextHandle := k];
      timeouts := timeouts[k := nextHandle];
      nextHandle := nextHandle + 1;
    }

    /** The watcher `h` sees the element's transitions end: its `doneCallback` runs. */
    method MoveTransitionsEnd(h: nat)
      modifies this
      ensures Snap() == MoveDone(old(Snap()), h)
    {
      if h !in watchers {
        return;
      }
      var k := watchers[h];
      watchers := watchers - {h};
      classes := classes[k := ClassesOf(classes, k) - {MoveClass(props)}];
      timeouts := timeouts - {k};
    }

    /**
     * `_unmountAtKey`. With `asWritten` the entry at `findIndex`'s answer is
     * spliced out as the program does, so a key that is not there removes the
     * last entry; without it such a key leaves the list alone.
     */
    method UnmountAtKey(key: Key, asWritten: bool) returns (threw: bool)
      modifies this
      ensures var u := if asWritten then UnmountAtKeyAsWritten(old(children), key) else Group.UnmountAtKey(old(children), key);
        && threw == u.None?
        && Snap() == old(Snap()).(children := if u.Some? then u.value else old(children))
    {
      match FindSlot(children, key)
      case HitsHole =>
        threw := true;
      case Missing =>
        if asWritten && children != [] {
          children := children[..|children| - 1];
        }
        threw := false;
      case Found(i) =>
        children := children[..i] + children[i + 1..];
        threw := false;
    }

    /** A child's `onAfterLeave`: the wrapped hook first, then the removal of each wrapper's key. */
    method CallAfterLeave(a: AfterLeave, asWritten: bool) returns (threw: bool)
      modifies this
      ensures Ran(Snap(), threw) == RunAfterLeave(old(Snap()), a, asWritten)
      decreases a
    {
      match a
      case UserHook(h) =>
        hookLog := hookLog + HookCall(h);
        threw := false;
      case RemoveAfter(inner, key) =>
        threw := CallAfterLeave(inner, asWritten);
        if !threw {
          threw := UnmountAtKey(key, asWritten);
        }
    }

    /** The child `Transition` under `key` has finished leaving. */
    method LeaveDone(key: Key, asWritten: bool) returns (threw: bool)
      modifies this
      ensures Ran(Snap(), threw) == Group.LeaveDone(old(Snap()), key, asWritten)
    {
      var e := EntryWithKey(children, key);
      if e.None? {
        threw := false;
        return;
      }
      threw := CallAfterLeave(e.value.afterLeave, asWritten);
    }
  }
}
