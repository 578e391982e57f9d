/**
 * `TransitionGroup`: keeps a keyed list of `Transition` children. When the
 * group's children change, the old and new lists are merged so that a
 * removed child stays in place until its leave has finished, and, in the
 * build, children that kept their key but changed position slide from their
 * old place to the new one.
 */
module Group {
  import opened Wrappers
  import opened Utils
  import ST = SingleTransition

  /** A child's React key: a string, or none. */
  type Key = Option<string>

  /** The group's props apart from `children`: what `strippedProps` hands on to every child. */
  type Props = map<string, Value>

  function Get(p: Props, name: string): Option<Value>
  {
    if name in p then Some(p[name]) else None
  }

  /** JavaScript truthiness of a prop that may be absent. */
  predicate Truthy(v: Option<Value>)
  {
    match v
    case None => false
    case Some(Text(s)) => s != ""
    case Some(Flag(b)) => b
    case Some(Number(n)) => n != 0
    case Some(Callback(_)) => true
  }

  predicate NoCss(p: Props)
  {
    Truthy(Get(p, "noCss"))
  }

  /** The `name` prop when it is a string; any other value counts as absent. */
  function NameText(p: Props): string
  {
    if "name" in p && p["name"].Text? then p["name"].s else ""
  }

  /** `moveClassName`: the `name` prop, or `t`, followed by `-move`. */
  function MoveClass(p: Props): (c: string)
    ensures NameText(p) != "" ==> c == NameText(p) + "-move"
    ensures NameText(p) == "" ==> c == "t-move"
  {
    ST.Prefix(NameText(p)) + "-move"
  }

  // ---------------------------------------------------------------------------
  // Wrapping children
  // ---------------------------------------------------------------------------

  /** The type name of the `Transition` component. */
  const TransitionKind := "Transition"

  /**
   * A child's `onAfterLeave` prop: the hook it was given, or the wrapper the
   * merge puts around it for a leaving child, which calls the inner one and
   * then removes the entry with the given key.
   */
  datatype AfterLeave = UserHook(hook: Option<Value>) | RemoveAfter(inner: AfterLeave, key: Key)

  /** What a child `Transition` renders: the wrapped child, its own children, or nothing once it is leaving. */
  datatype Content = Wraps(child: Element) | OwnChildren | NoChildren

  /** One entry of the group's list: a `Transition` element with its key, props and content. */
  datatype Entry = Entry(key: Key, props: Props, content: Content, afterLeave: AfterLeave)

  /**
   * `_wrapChildren` on one child: a new `Transition` around the child with
   * the group's props and `appear` forced on, or, in the build, a child that
   * is already a `Transition` cloned with the group's props under its own,
   * again with `appear` forced on.
   */
  function WrapChild(version: ST.Version, group: Props, child: Element): (e: Entry)
    ensures e.key == child.key
    ensures Get(e.props, "appear") == Some(Flag(true))
    ensures "onAfterLeave" !in e.props
  {
    var p := if version == ST.Build && child.kind == TransitionKind then (group + child.props)["appear" := Flag(true)]
             else group["appear" := Flag(true)];
    var content := if version == ST.Build && child.kind == TransitionKind then OwnChildren else Wraps(child);
    Entry(child.key, p - {"onAfterLeave"}, content, UserHook(Get(p, "onAfterLeave")))
  }

  /** Whether the child keeps its own props over the group's. */
  predicate KeepsOwnProps(version: ST.Version, child: Element)
  {
    version == ST.Build && child.kind == TransitionKind
  }

  /**
   * Which value a wrapped child sees for a prop: `appear` is always on; a
   * `Transition` child in the build keeps its own value of every other prop
   * and takes the group's only where it has none; every other child gets
   * exactly the group's props, and is wrapped rather than cloned.
   */
  lemma {:induction false} WrapPrecedence(version: ST.Version, group: Props, child: Element, name: string)
    requires name != "appear"
    ensures var e := WrapChild(version, group, child);
      var own := if KeepsOwnProps(version, child) then Get(child.props, name) else None;
      && (name != "onAfterLeave" ==> Get(e.props, name) == own.OrElse(Get(group, name)))
      && (name == "onAfterLeave" ==> e.afterLeave == UserHook(own.OrElse(Get(group, name))))
      && (KeepsOwnProps(version, child) <==> e.content == OwnChildren)
      && (!KeepsOwnProps(version, child) ==> e.content == Wraps(child))
  {
  }

  /** `_wrapChildren`: every child wrapped in order. */
  function WrapChildren(version: ST.Version, group: Props, children: seq<Element>): (r: seq<Entry>)
    ensures |r| == |children|
    ensures forall i :: 0 <= i < |r| ==> r[i] == WrapChild(version, group, children[i])
  {
    if children == [] then [] else [WrapChild(version, group, children[0])] + WrapChildren(version, group, children[1..])
  }

  // ---------------------------------------------------------------------------
  // Finding keys
  // ---------------------------------------------------------------------------

  /** `nextChildren.findIndex(c => c.key === key)`: the first index with that key, or -1. */
  function FindKey(next: seq<Entry>, key: Key): (j: int)
    ensures -1 <= j < |next|
    ensures 0 <= j ==> next[j].key == key && forall m :: 0 <= m < j ==> next[m].key != key
    ensures j == -1 ==> forall m :: 0 <= m < |next| ==> next[m].key != key
  {
    if next == [] then -1
    else if next[0].key == key then 0
    else
      var j := FindKey(next[1..], key);
      if j < 0 then -1 else j + 1
  }

  /** `children.some(c => c.key === key)`: `some` passes over holes. */
  predicate HasKey(slots: seq<Option<Entry>>, key: Key)
  {
    exists m :: 0 <= m < |slots| && slots[m].Some? && slots[m].value.key == key
  }

  /** Whether an entry of the new list has the key. */
  predicate InNext(next: seq<Entry>, key: Key)
  {
    exists m :: 0 <= m < |next| && next[m].key == key
  }

  function KeyIs(key: Key): Entry -> bool
  {
    (e: Entry) => e.key == key
  }

  // ---------------------------------------------------------------------------
  // The merge in componentWillReceiveProps
  // ---------------------------------------------------------------------------

  /**
   * A leaving child: the same `Transition` with no children, and with an
   * `onAfterLeave` that runs the one it had and then unmounts its key.
   */
  function Leaving(e: Entry): (r: Entry)
    ensures r.key == e.key && r.props == e.props
    ensures r.content == NoChildren && r.afterLeave == RemoveAfter(e.afterLeave, e.key)
  {
    e.(content := NoChildren, afterLeave := RemoveAfter(e.afterLeave, e.key))
  }

  /** The old list holds an entry at `i`. */
  predicate OldAt(children: seq<Option<Entry>>, i: nat)
  {
    i < |children| && children[i].Some?
  }

  /** The new list's entry at `i` has a key the old list does not have. */
  predicate NewAt(children: seq<Option<Entry>>, next: seq<Entry>, i: nat)
  {
    i < |next| && !HasKey(children, next[i].key)
  }

  /** Step `i`, first half: the old entry at `i` stays (at its new index) or leaves (at `i`). */
  function PlaceOld(children: seq<Option<Entry>>, next: seq<Entry>, acc: seq<Option<Entry>>, i: nat): seq<Option<Entry>>
  {
    if OldAt(children, i) then
      var j := FindKey(next, children[i].value.key);
      if j >= 0 then Inserted(acc, next[j], j) else Inserted(acc, Leaving(children[i].value), i)
    else acc
  }

  /** Step `i` of the merge loop: the old entry at `i`, then the new entry at `i` if its key is new. */
  function MergeStep(children: seq<Option<Entry>>, next: seq<Entry>, acc: seq<Option<Entry>>, i: nat): seq<Option<Entry>>
  {
    var afterOld := PlaceOld(children, next, acc, i);
    if NewAt(children, next, i) then Inserted(afterOld, next[i], i) else afterOld
  }

  /** The merged list after the loop has visited indices `0 .. n-1`. */
  function MergeUpTo(children: seq<Option<Entry>>, next: seq<Entry>, n: nat): seq<Option<Entry>>
  {
    if n == 0 then [] else MergeStep(children, next, MergeUpTo(children, next, n - 1), n - 1)
  }

  /** The loop runs over `max(children.length, nextChildren.length)` indices. */
  function Span(children: seq<Option<Entry>>, next: seq<Entry>): (n: nat)
    ensures |children| <= n && |next| <= n
    ensures n == |children| || n == |next|
  {
    if |children| < |next| then |next| else |children|
  }

  function Merged(children: seq<Option<Entry>>, next: seq<Entry>): seq<Option<Entry>>
  {
    MergeUpTo(children, next, Span(children, next))
  }

  /**
   * Where one step puts things: a persisting key's new entry at the first
   * free slot at or after its new index, a leaving entry at the first free
   * slot at or after its old index, a new key's entry at the first free slot
   * at or after its index; nothing placed earlier is overwritten; and past
   * the end of the old list only new keys are placed.
   */
  lemma {:induction false} StepPlacement(children: seq<Option<Entry>>, next: seq<Entry>, acc: seq<Option<Entry>>, i: nat)
    ensures var afterOld := PlaceOld(children, next, acc, i);
      var r := MergeStep(children, next, acc, i);
      && (OldAt(children, i) && FindKey(next, children[i].value.key) >= 0 ==>
            var j := FindKey(next, children[i].value.key);
            j <= FirstFree(acc, j) < |r| && r[FirstFree(acc, j)] == Some(next[j]))
      && (OldAt(children, i) && FindKey(next, children[i].value.key) < 0 ==>
            i <= FirstFree(acc, i) < |r| && r[FirstFree(acc, i)] == Some(Leaving(children[i].value)))
      && (NewAt(children, next, i) ==>
            i <= FirstFree(afterOld, i) < |r| && r[FirstFree(afterOld, i)] == Some(next[i]))
      && |acc| <= |r|
      && (forall p :: 0 <= p < |acc| && acc[p].Some? ==> r[p] == acc[p])
      && (i >= |children| ==> r == if NewAt(children, next, i) then Inserted(acc, next[i], i) else acc)
  {
    var afterOld := PlaceOld(children, next, acc, i);
    if OldAt(children, i) {
      var j := FindKey(next, children[i].value.key);
      if j >= 0 {
        InsertedSpec(acc, next[j], j);
      } else {
        InsertedSpec(acc, Leaving(children[i].value), i);
      }
    }
    if NewAt(children, next, i) {
      InsertedSpec(afterOld, next[i], i);
    }
  }

  // ---------------------------------------------------------------------------
  // Every key placed exactly once
  // ---------------------------------------------------------------------------

  /** No two entries of the old list share a key. */
  predicate UniqueOld(children: seq<Option<Entry>>)
  {
    forall a, b :: 0 <= a < b < |children| && children[a].Some? && children[b].Some? ==> children[a].value.key != children[b].value.key
  }

  /** No two entries of the new list share a key. */
  predicate UniqueNext(next: seq<Entry>)
  {
    forall a, b :: 0 <= a < b < |next| ==> next[a].key != next[b].key
  }

  /** How many entries with the key step `i` places: one for the old entry there, one for a new key there. */
  function StepHits(children: seq<Option<Entry>>, next: seq<Entry>, key: Key, i: nat): nat
  {
    (if OldAt(children, i) && children[i].value.key == key then 1 else 0)
    + (if NewAt(children, next, i) && next[i].key == key then 1 else 0)
  }

  function Hits(children: seq<Option<Entry>>, next: seq<Entry>, key: Key, n: nat): nat
  {
    if n == 0 then 0 else Hits(children, next, key, n - 1) + StepHits(children, next, key, n - 1)
  }

  lemma {:induction false} StepCount(children: seq<Option<Entry>>, next: seq<Entry>, acc: seq<Option<Entry>>, i: nat, key: Key)
    ensures Count(MergeStep(children, next, acc, i), KeyIs(key)) == Count(acc, KeyIs(key)) + StepHits(children, next, key, i)
  {
    var afterOld := PlaceOld(children, next, acc, i);
    if OldAt(children, i) {
      var j := FindKey(next, children[i].value.key);
      if j >= 0 {
        InsertedCount(acc, next[j], j, KeyIs(key));
      } else {
        InsertedCount(acc, Leaving(children[i].value), i, KeyIs(key));
      }
    }
    if NewAt(children, next, i) {
      InsertedCount(afterOld, next[i], i, KeyIs(key));
    }
  }

  lemma {:induction false} MergeCount(children: seq<Option<Entry>>, next: seq<Entry>, n: nat, key: Key)
    ensures Count(MergeUpTo(children, next, n), KeyIs(key)) == Hits(children, next, key, n)
  {
    if n > 0 {
      var acc := MergeUpTo(children, next, n - 1);
      MergeCount(children, next, n - 1, key);
      StepCount(children, next, acc, n - 1, key);
      assert MergeUpTo(children, next, n) == MergeStep(children, next, acc, n - 1);
    } else {
      assert Count<Entry>([], KeyIs(key)) == 0;
    }
  }

  /** Summing the hits over a range where at most the index `w` scores, and it scores one. */
  lemma {:induction false} HitsOnce(children: seq<Option<Entry>>, next: seq<Entry>, key: Key, n: nat, w: int)
    requires forall i :: 0 <= i < n && i != w ==> StepHits(children, next, key, i) == 0
    requires 0 <= w < n ==> StepHits(children, next, key, w) == 1
    ensures Hits(children, next, key, n) == if 0 <= w < n then 1 else 0
  {
    if n > 0 {
      HitsOnce(children, next, key, n - 1, w);
    }
  }

  /**
   * With the keys of each list distinct, every key of the old list or the new
   * list occupies exactly one slot of the merged list, and no other key
   * occupies any.
   */
  lemma {:induction false} MergedPlacesEachKeyOnce(children: seq<Option<Entry>>, next: seq<Entry>, key: Key)
    requires UniqueOld(children) && UniqueNext(next)
    ensures Count(Merged(children, next), KeyIs(key)) == if HasKey(children, key) || InNext(next, key) then 1 else 0
  {
    var n := Span(children, next);
    MergeCount(children, next, n, key);
    if HasKey(children, key) {
      var w :| 0 <= w < |children| && children[w].Some? && children[w].value.key == key;
      OldKeyScoresOnce(children, next, key, w, n);
      HitsOnce(children, next, key, n, w);
    } else if InNext(next, key) {
      var w :| 0 <= w < |next| && next[w].key == key;
      NewKeyScoresOnce(children, next, key, w, n);
      HitsOnce(children, next, key, n, w);
    } else {
      HitsOnce(children, next, key, n, -1);
    }
  }

  /** A key of the old list is placed by the step at its old index only. */
  lemma {:induction false} OldKeyScoresOnce(children: seq<Option<Entry>>, next: seq<Entry>, key: Key, w: nat, n: nat)
    requires UniqueOld(children)
    requires w < |children| && children[w].Some? && children[w].value.key == key
    ensures StepHits(children, next, key, w) == 1
    ensures forall i :: 0 <= i < n && i != w ==> StepHits(children, next, key, i) == 0
  {
    assert HasKey(children, key);
    forall i | 0 <= i < n && i != w
      ensures StepHits(children, next, key, i) == 0
    {
      if OldAt(children, i) {
        var a, b := if i < w then i else w, if i < w then w else i;
        assert children[a].value.key != children[b].value.key;
      }
    }
  }

  /** A key only the new list has is placed by the step at its new index only. */
  lemma {:induction false} NewKeyScoresOnce(children: seq<Option<Entry>>, next: seq<Entry>, key: Key, w: nat, n: nat)
    requires UniqueNext(next) && !HasKey(children, key)
    requires w < |next| && next[w].key == key
    ensures StepHits(children, next, key, w) == 1
    ensures forall i :: 0 <= i < n && i != w ==> StepHits(children, next, key, i) == 0
  {
    forall i | 0 <= i < n && i != w
      ensures StepHits(children, next, key, i) == 0
    {
      if i < |next| {
        var a, b := if i < w then i else w, if i < w then w else i;
        assert next[a].key != next[b].key;
      }
    }
  }

  // ---------------------------------------------------------------------------
  // Nothing but the new entries and the leaving old ones
  // ---------------------------------------------------------------------------

  /** An entry the merge may place: one of the new list, or a leaving copy of an old entry whose key is gone. */
  predicate Origin(children: seq<Option<Entry>>, next: seq<Entry>, e: Entry)
  {
    || (exists j :: 0 <= j < |next| && e == next[j])
    || (exists i :: 0 <= i < |children| && children[i].Some? && FindKey(next, children[i].value.key) == -1
          && e == Leaving(children[i].value))
  }

  predicate AllFrom(children: seq<Option<Entry>>, next: seq<Entry>, slots: seq<Option<Entry>>)
  {
    forall p :: 0 <= p < |slots| && slots[p].Some? ==> Origin(children, next, slots[p].value)
  }

  lemma {:induction false} InsertedFrom(children: seq<Option<Entry>>, next: seq<Entry>, acc: seq<Option<Entry>>, e: Entry, index: nat)
    requires AllFrom(children, next, acc) && Origin(children, next, e)
    ensures AllFrom(children, next, Inserted(acc, e, index))
  {
    InsertedSpec(acc, e, index);
  }

  /**
   * Every entry of the merged list is an entry of the new list, as given, or
   * a leaving copy of an old entry whose key the new list lacks.
   */
  lemma {:induction false} MergedOrigins(children: seq<Option<Entry>>, next: seq<Entry>, n: nat)
    ensures AllFrom(children, next, MergeUpTo(children, next, n))
  {
    if n > 0 {
      var i := n - 1;
      var acc := MergeUpTo(children, next, i);
      MergedOrigins(children, next, i);
      var afterOld := PlaceOld(children, next, acc, i);
      if OldAt(children, i) {
        var j := FindKey(next, children[i].value.key);
        if j >= 0 {
          InsertedFrom(children, next, acc, next[j], j);
        } else {
          InsertedFrom(children, next, acc, Leaving(children[i].value), i);
        }
      }
      if NewAt(children, next, i) {
        InsertedFrom(children, next, afterOld, next[i], i);
      }
    }
  }

  // ---------------------------------------------------------------------------
  // Children that move (the build)
  // ---------------------------------------------------------------------------

  /** A position or an offset on the page, in whole pixels. */
  datatype Rect = Rect(left: int, top: int)

  const Zero := Rect(0, 0)

  function Plus(a: Rect, b: Rect): Rect
  {
    Rect(a.left + b.left, a.top + b.top)
  }

  function Minus(a: Rect, b: Rect): Rect
  {
    Rect(a.left - b.left, a.top - b.top)
  }

  /** An entry of `_movingChildren`: a persisting key and where its element was before the update. */
  datatype MoveRecord = MoveRecord(key: Key, rect: Rect)

  /** Whether the update records persisting children and animates their moves. */
  predicate MovesEnabled(version: ST.Version, p: Props)
  {
    version == ST.Build && !NoCss(p)
  }

  /** The old entry at `i` keeps its key in the new list. */
  predicate PersistsAt(children: seq<Option<Entry>>, next: seq<Entry>, i: nat)
  {
    OldAt(children, i) && FindKey(next, children[i].value.key) >= 0
  }

  /**
   * `_movingChildren` after the loop has visited `0 .. n-1`: one record per
   * persisting old entry, in index order, holding the element's position
   * read once its transform has been reset (`before`).
   */
  function MovingUpTo(children: seq<Option<Entry>>, next: seq<Entry>, before: Key -> Rect, n: nat): seq<MoveRecord>
  {
    if n == 0 then [] else MovingUpTo(children, next, before, n - 1) + MovingStep(children, next, before, n - 1)
  }

  /** What step `i` adds to `_movingChildren`. */
  function MovingStep(children: seq<Option<Entry>>, next: seq<Entry>, before: Key -> Rect, i: nat): seq<MoveRecord>
  {
    if PersistsAt(children, next, i) then [MoveRecord(children[i].value.key, before(children[i].value.key))] else []
  }

  /** The records are exactly the persisting old entries, each with its position before the update. */
  lemma {:induction false} MovingRecordsPersisting(children: seq<Option<Entry>>, next: seq<Entry>, before: Key -> Rect, n: nat)
    ensures forall r :: r in MovingUpTo(children, next, before, n) ==>
      r.rect == before(r.key) && exists i :: 0 <= i < n && PersistsAt(children, next, i) && children[i].value.key == r.key
    ensures forall i :: 0 <= i < n && PersistsAt(children, next, i) ==>
      MoveRecord(children[i].value.key, before(children[i].value.key)) in MovingUpTo(children, next, before, n)
  {
    if n > 0 {
      MovingRecordsPersisting(children, next, before, n - 1);
    }
  }

  function KeysOf(ms: seq<MoveRecord>): set<Key>
  {
    set r | r in ms :: r.key
  }

  lemma {:induction false} KeysOfAppend(ms: seq<MoveRecord>, more: seq<MoveRecord>)
    ensures KeysOf(ms + more) == KeysOf(ms) + KeysOf(more)
  {
    assert forall r :: r in ms + more <==> r in ms || r in more;
  }

  /** Resetting the transforms record by record is resetting them for the whole list. */
  lemma {:induction false} ResetInTurn(t: map<Key, Rect>, ms: seq<MoveRecord>, more: seq<MoveRecord>)
    ensures t - KeysOf(ms) - KeysOf(more) == t - KeysOf(ms + more)
  {
    KeysOfAppend(ms, more);
  }

  /** The element classes the group itself adds, per key; a key not in the map has none. */
  function ClassesOf(m: map<Key, set<string>>, k: Key): set<string>
  {
    if k in m then m[k] else {}
  }

  /** The element's inline `transform` offset; a key not in the map has none. */
  function TransformOf(m: map<Key, Rect>, k: Key): Rect
  {
    if k in m then m[k] else Zero
  }

  /**
   * What the group keeps between events: its props, its list, the moving
   * records of the last update, the inline transform offsets and move
   * classes it has put on elements, the frame tasks it has queued, the
   * cancellers in `_timeouts` (each a handle of a completion watcher), the
   * watchers still waiting, the next fresh handle, and the user
   * `onAfterLeave` hooks called so far.
   */
  datatype GroupState = GroupState(
    props: Props,
    children: seq<Option<Entry>>,
    moving: seq<MoveRecord>,
    transforms: map<Key, Rect>,
    classes: map<Key, set<string>>,
    frames: seq<Key>,
    timeouts: map<Key, nat>,
    watchers: map<nat, Key>,
    nextHandle: nat,
    hookLog: seq<nat>)

  /** Every registered canceller belongs to a waiting watcher of its own key, and handles are fresh. */
  predicate Valid(s: GroupState)
  {
    && (forall k :: k in s.timeouts ==> s.timeouts[k] in s.watchers && s.watchers[s.timeouts[k]] == k)
    && (forall h :: h in s.watchers ==> h < s.nextHandle)
  }

  /** `_transitionChildMove` for one record, with `after` the element's layout position once the update is in place. */
  function ChildMove(s: GroupState, m: MoveRecord, after: Key -> Option<Rect>): GroupState
  {
    match after(m.key)
    case None => s
    case Some(layout) =>
      var d := Minus(m.rect, Plus(layout, TransformOf(s.transforms, m.key)));
      if d == Zero then s else s.(transforms := s.transforms[m.key := d], frames := s.frames + [m.key])
  }

  /**
   * A move leaves everything as it was when the element is missing or has
   * not moved on screen; otherwise it sets the transform to the offset back
   * to the old position and queues a frame task, and nothing else.
   */
  lemma {:induction false} ChildMoveCases(s: GroupState, m: MoveRecord, after: Key -> Option<Rect>)
    ensures after(m.key).None? ==> ChildMove(s, m, after) == s
    ensures after(m.key).Some? ==>
      var d := Minus(m.rect, Plus(after(m.key).value, TransformOf(s.transforms, m.key)));
      && (d == Zero <==> ChildMove(s, m, after) == s)
      && (d != Zero ==> ChildMove(s, m, after) == s.(transforms := s.transforms[m.key := d], frames := s.frames + [m.key]))
      && (TransformOf(s.transforms, m.key) == Zero ==>
            Plus(after(m.key).value, TransformOf(ChildMove(s, m, after).transforms, m.key)) == m.rect)
  {
    var r := ChildMove(s, m, after);
    if r != s {
      assert |r.frames| == |s.frames| + 1;
    }
  }

  /** The `forEach` over `_movingChildren`: each record in order. */
  function MoveAll(s: GroupState, ms: seq<MoveRecord>, after: Key -> Option<Rect>): GroupState
  {
    if ms == [] then s else ChildMove(MoveAll(s, ms[..|ms| - 1], after), ms[|ms| - 1], after)
  }

  // ---------------------------------------------------------------------------
  // Cancelling moves in flight
  // ---------------------------------------------------------------------------

  /** Whether the watcher `h` is the one registered for one of the keys `d`. */
  predicate Cancels(timeouts: map<Key, nat>, d: set<Key>, h: nat)
  {
    exists k :: k in d && k in timeouts && timeouts[k] == h
  }

  /** The watchers left once those registered for the keys `d` are cancelled. */
  function Uncancelled(watchers: map<nat, Key>, timeouts: map<Key, nat>, d: set<Key>): map<nat, Key>
  {
    map h | h in watchers && !Cancels(timeouts, d, h) :: watchers[h]
  }

  /** The class lists once the class `c` has been taken off the elements of the keys `d`. */
  function Unclassed(classes: map<Key, set<string>>, d: set<Key>, c: string): map<Key, set<string>>
  {
    map k | k in classes.Keys + d :: if k in d then ClassesOf(classes, k) - {c} else classes[k]
  }

  /**
   * The cancellers of the keys `d` all run: each removes its watcher, then
   * does what the watcher's completion would (the move class off, the
   * `_timeouts` slot nulled).
   */
  function ClearedBy(s: GroupState, d: set<Key>): GroupState
  {
    s.(timeouts := s.timeouts - d,
       watchers := Uncancelled(s.watchers, s.timeouts, d),
       classes := Unclassed(s.classes, d, MoveClass(s.props)))
  }

  /** `_clearTransitions`: every registered canceller runs. */
  function ClearTransitions(s: GroupState): GroupState
  {
    ClearedBy(s, s.timeouts.Keys)
  }

  /** One canceller: remove the watcher's listener and timer, then run its completion. */
  function CancelMove(s: GroupState, k: Key): GroupState
    requires k in s.timeouts
  {
    s.(watchers := s.watchers - {s.timeouts[k]},
       classes := s.classes[k := ClassesOf(s.classes, k) - {MoveClass(s.props)}],
       timeouts := s.timeouts - {k})
  }

  lemma {:induction false} ClearedByNothing(s: GroupState)
    ensures ClearedBy(s, {}) == s
  {
    var c := ClearedBy(s, {});
    assert c.timeouts == s.timeouts;
    assert c.watchers == s.watchers;
    assert c.classes == s.classes;
  }

  /** Running the cancellers one key at a time, in any order, ends in `ClearedBy`. */
  lemma {:induction false} ClearStep(s: GroupState, d: set<Key>, k: Key)
    requires d <= s.timeouts.Keys && k in s.timeouts && k !in d
    ensures k in ClearedBy(s, d).timeouts
    ensures CancelMove(ClearedBy(s, d), k) == ClearedBy(s, d + {k})
  {
    var c := ClearedBy(s, d);
    var l := CancelMove(c, k);
    var r := ClearedBy(s, d + {k});
    assert l.timeouts == r.timeouts;
    UncancelledStep(s.watchers, s.timeouts, d, k);
    UnclassedStep(s.classes, d, k, MoveClass(s.props));
  }

  lemma {:induction false} UncancelledStep(watchers: map<nat, Key>, timeouts: map<Key, nat>, d: set<Key>, k: Key)
    requires k in timeouts && k !in d
    ensures Uncancelled(watchers, timeouts, d) - {timeouts[k]} == Uncancelled(watchers, timeouts, d + {k})
  {
    forall h | h in watchers
      ensures Cancels(timeouts, d + {k}, h) <==> Cancels(timeouts, d, h) || timeouts[k] == h
    {
      if Cancels(timeouts, d + {k}, h) && !Cancels(timeouts, d, h) {
        var k' :| k' in d + {k} && k' in timeouts && timeouts[k'] == h;
        assert k' !in d;
      }
    }
  }

  lemma {:induction false} UnclassedStep(classes: map<Key, set<string>>, d: set<Key>, k: Key, c: string)
    requires k !in d
    ensures var u := Unclassed(classes, d, c); u[k := ClassesOf(u, k) - {c}] == Unclassed(classes, d + {k}, c)
  {
    var u := Unclassed(classes, d, c);
    assert ClassesOf(u, k) == ClassesOf(classes, k);
  }

  // ---------------------------------------------------------------------------
  // Frames and completions
  // ---------------------------------------------------------------------------

  /**
   * The oldest queued frame task runs: the move class (for the props as they
   * are now) goes on, the transform comes off so the element slides into
   * place, and a completion watcher is registered as `_timeouts[key]`.
   */
  function RunFrame(s: GroupState): GroupState
  {
    if s.frames == [] then s
    else
      var k := s.frames[0];
      s.(frames := s.frames[1..],
         classes := s.classes[k := ClassesOf(s.classes, k) + {MoveClass(s.props)}],
         transforms := s.transforms - {k},
         timeouts := s.timeouts[k := s.nextHandle],
         watchers := s.watchers[s.nextHandle := k],
         nextHandle := s.nextHandle + 1)
  }

  /**
   * The watcher `h` reports that the element's transitions have ended:
   * `doneCallback` takes the move class off and nulls `_timeouts[key]`. A
   * watcher that was cancelled or has already finished never reports.
   */
  function MoveDone(s: GroupState, h: nat): GroupState
  {
    if h !in s.watchers then s
    else
      var k := s.watchers[h];
      s.(classes := s.classes[k := ClassesOf(s.classes, k) - {MoveClass(s.props)}],
         timeouts := s.timeouts - {k},
         watchers := s.watchers - {h})
  }

  /** A canceller does exactly what its watcher's own completion would do. */
  lemma {:induction false} CancelIsCompletion(s: GroupState, k: Key)
    requires Valid(s) && k in s.timeouts
    ensures CancelMove(s, k) == MoveDone(s, s.timeouts[k])
  {
  }

  lemma {:induction false} ChildMoveValid(s: GroupState, m: MoveRecord, after: Key -> Option<Rect>)
    requires Valid(s)
    ensures Valid(ChildMove(s, m, after))
  {
  }

  lemma {:induction false} RunFrameValid(s: GroupState)
    requires Valid(s)
    ensures Valid(RunFrame(s))
  {
  }

  lemma {:induction false} MoveDoneValid(s: GroupState, h: nat)
    requires Valid(s)
    ensures Valid(MoveDone(s, h))
  {
  }

  /**
   * After `_clearTransitions` no canceller is registered, none of the
   * cancelled watchers is still waiting, and every element that had a move
   * in flight has lost the move class.
   */
  lemma {:induction false} ClearTransitionsEffect(s: GroupState)
    requires Valid(s)
    ensures var c := ClearTransitions(s);
      && Valid(c)
      && c.timeouts == map[]
      && (forall k :: k in s.timeouts ==> s.timeouts[k] !in c.watchers && MoveClass(s.props) !in ClassesOf(c.classes, k))
      && (forall k :: k !in s.timeouts ==> ClassesOf(c.classes, k) == ClassesOf(s.classes, k))
  {
    var c := ClearTransitions(s);
    forall k | k in s.timeouts
      ensures s.timeouts[k] !in c.watchers
    {
      assert Cancels(s.timeouts, s.timeouts.Keys, s.timeouts[k]);
    }
  }

  /**
   * A move's life: a non-zero move puts the transform on and queues a frame;
   * the frame puts the move class on, takes the transform off and registers
   * a watcher; the watcher's completion takes the class off again and
   * nulls the key's canceller.
   */
  lemma {:induction false} MoveLifecycle(s: GroupState, m: MoveRecord, after: Key -> Option<Rect>)
    requires Valid(s) && s.frames == []
    requires after(m.key).Some?
    requires Minus(m.rect, Plus(after(m.key).value, TransformOf(s.transforms, m.key))) != Zero
    ensures var s1 := ChildMove(s, m, after);
      var s2 := RunFrame(s1);
      var s3 := MoveDone(s2, s.nextHandle);
      && TransformOf(s1.transforms, m.key) != Zero && s1.frames == [m.key]
      && MoveClass(s.props) in ClassesOf(s2.classes, m.key) && m.key !in s2.transforms
      && s2.timeouts[m.key] == s.nextHandle && s2.watchers[s.nextHandle] == m.key
      && MoveClass(s.props) !in ClassesOf(s3.classes, m.key) && m.key !in s3.timeouts && m.key !in s3.transforms
      && (forall k :: k != m.key ==> ClassesOf(s3.classes, k) == ClassesOf(s.classes, k))
  {
  }

  /** A watcher that is no longer waiting changes nothing when it would complete. */
  lemma {:induction false} StaleDoneIgnored(s: GroupState, h: nat)
    requires h !in s.watchers
    ensures MoveDone(s, h) == s
  {
  }

  // ---------------------------------------------------------------------------
  // The update as a whole
  // ---------------------------------------------------------------------------

  /**
   * The setState callback of the build's update: clear every move in
   * flight, then move each recorded child from its old position.
   */
  function MoveCallback(s: GroupState, after: Key -> Option<Rect>): GroupState
  {
    MoveAll(ClearTransitions(s), s.moving, after)
  }

  /** The group as first rendered: every child wrapped with the initial props. */
  function Initial(version: ST.Version, p: Props, elements: seq<Element>): (s: GroupState)
    ensures |s.children| == |elements|
    ensures forall i :: 0 <= i < |elements| ==> s.children[i] == Some(WrapChild(version, p, elements[i]))
    ensures Valid(s) && s.timeouts == map[] && s.frames == []
  {
    var next := WrapChildren(version, p, elements);
    GroupState(p, seq(|next|, i requires 0 <= i < |next| => Some(next[i])), [], map[], map[], [], map[], map[], 0, [])
  }

  /**
   * `componentWillReceiveProps` up to the commit: the new children wrapped
   * with the props the group had until now, merged with the old list, the
   * persisting children recorded (with their transforms reset) when moves
   * are enabled, and the new props in place.
   */
  function Committed(version: ST.Version, s: GroupState, nextProps: Props, elements: seq<Element>, before: Key -> Rect): GroupState
  {
    var next := WrapChildren(version, s.props, elements);
    var moving := if MovesEnabled(version, s.props) then MovingUpTo(s.children, next, before, Span(s.children, next)) else [];
    s.(props := nextProps,
       children := Merged(s.children, next),
       moving := moving,
       transforms := s.transforms - KeysOf(moving))
  }

  /**
   * The whole update: the commit, then, when moves are enabled and the loop
   * ran at least once, the callback handed to `setState`.
   */
  function Receive(version: ST.Version, s: GroupState, nextProps: Props, elements: seq<Element>,
                   before: Key -> Rect, after: Key -> Option<Rect>): GroupState
  {
    var c := Committed(version, s, nextProps, elements, before);
    if MovesEnabled(version, s.props) && Span(s.children, WrapChildren(version, s.props, elements)) > 0 then MoveCallback(c, after) else c
  }

  /** The element appears where the record says it was, or it is not there. */
  predicate Settled(s: GroupState, m: MoveRecord, after: Key -> Option<Rect>)
  {
    after(m.key).None? || Plus(after(m.key).value, TransformOf(s.transforms, m.key)) == m.rect
  }

  /** The element has no transform of its own. */
  predicate Untransformed(s: GroupState, m: MoveRecord)
  {
    TransformOf(s.transforms, m.key) == Zero
  }

  /** Records for the same key agree on its old position. */
  predicate ConsistentRecords(ms: seq<MoveRecord>)
  {
    forall i, j :: 0 <= i < |ms| && 0 <= j < |ms| && ms[i].key == ms[j].key ==> ms[i].rect == ms[j].rect
  }

  /** Moving one record settles it and every record of its key, and leaves other keys alone. */
  lemma {:induction false} ChildMoveSettles(t: GroupState, x: MoveRecord, y: MoveRecord, after: Key -> Option<Rect>)
    requires Untransformed(t, x) || Settled(t, x, after)
    requires x.key == y.key ==> x.rect == y.rect
    ensures var t' := ChildMove(t, x, after);
      && Settled(t', x, after)
      && (x.key == y.key ==> Settled(t', y, after))
      && (x.key != y.key ==> TransformOf(t'.transforms, y.key) == TransformOf(t.transforms, y.key))
  {
  }

  /** Running the moves settles every record processed so far. */
  lemma {:induction false} MoveAllSettles(s: GroupState, ms: seq<MoveRecord>, n: nat, after: Key -> Option<Rect>)
    requires n <= |ms| && ConsistentRecords(ms)
    requires forall i :: 0 <= i < |ms| ==> Untransformed(s, ms[i]) || Settled(s, ms[i], after)
    ensures var t := MoveAll(s, ms[..n], after);
      && (forall i :: 0 <= i < |ms| ==> Untransformed(t, ms[i]) || Settled(t, ms[i], after))
      && (forall i :: 0 <= i < n ==> Settled(t, ms[i], after))
  {
    if n > 0 {
      MoveAllSettles(s, ms, n - 1, after);
      var t0 := MoveAll(s, ms[..n - 1], after);
      assert ms[..n][..n - 1] == ms[..n - 1];
      assert MoveAll(s, ms[..n], after) == ChildMove(t0, ms[n - 1], after);
      forall i | 0 <= i < |ms|
        ensures var t := ChildMove(t0, ms[n - 1], after);
          (Untransformed(t, ms[i]) || Settled(t, ms[i], after)) && (i < n ==> Settled(t, ms[i], after))
      {
        ChildMoveSettles(t0, ms[n - 1], ms[i], after);
      }
    }
  }

  /** Moving records that are all settled changes nothing. */
  lemma {:induction false} MoveAllSettledNoop(t: GroupState, ms: seq<MoveRecord>, after: Key -> Option<Rect>)
    requires forall i :: 0 <= i < |ms| ==> Settled(t, ms[i], after)
    ensures MoveAll(t, ms, after) == t
  {
    if ms != [] {
      MoveAllSettledNoop(t, ms[..|ms| - 1], after);
    }
  }

  /** Moves touch only transforms and frame tasks. */
  lemma {:induction false} MoveAllKeeps(s: GroupState, ms: seq<MoveRecord>, after: Key -> Option<Rect>)
    ensures var t := MoveAll(s, ms, after);
      t == s.(transforms := t.transforms, frames := t.frames)
  {
    if ms != [] {
      MoveAllKeeps(s, ms[..|ms| - 1], after);
    }
  }

  /**
   * The callback run a second time changes nothing, provided the moving
   * elements had no transform of their own and the records agree per key.
   */
  lemma {:induction false} CallbackTwice(s: GroupState, after: Key -> Option<Rect>)
    requires ConsistentRecords(s.moving)
    requires forall i :: 0 <= i < |s.moving| ==> Untransformed(s, s.moving[i])
    ensures MoveCallback(MoveCallback(s, after), after) == MoveCallback(s, after)
  {
    var c := ClearTransitions(s);
    assert c.transforms == s.transforms && c.moving == s.moving && c.timeouts == map[];
    MoveAllSettles(c, s.moving, |s.moving|, after);
    assert s.moving[..|s.moving|] == s.moving;
    var r := MoveAll(c, s.moving, after);
    MoveAllKeeps(c, s.moving, after);
    assert r.timeouts.Keys == {};
    ClearedByNothing(r);
    MoveAllSettledNoop(r, s.moving, after);
  }

  /** The callback run `n` times in a row, as the loop hands it to `n` calls of `setState`. */
  function RepeatCallback(s: GroupState, after: Key -> Option<Rect>, n: nat): GroupState
  {
    if n == 0 then s else MoveCallback(RepeatCallback(s, after, n - 1), after)
  }

  /**
   * Handing the callback to every `setState` of the loop has the effect of
   * running it once: the commit resets the transforms of the moving
   * children and records each with its one old position.
   */
  lemma {:induction false} RepeatedCallbackOnce(version: ST.Version, s: GroupState, nextProps: Props, elements: seq<Element>,
                                                before: Key -> Rect, after: Key -> Option<Rect>, n: nat)
    requires n >= 1
    ensures var c := Committed(version, s, nextProps, elements, before);
      RepeatCallback(c, after, n) == MoveCallback(c, after)
  {
    var c := Committed(version, s, nextProps, elements, before);
    var next := WrapChildren(version, s.props, elements);
    MovingRecordsPersisting(s.children, next, before, Span(s.children, next));
    assert forall i :: 0 <= i < |c.moving| ==> c.moving[i] in c.moving;
    assert forall i :: 0 <= i < |c.moving| ==> c.moving[i].key in KeysOf(c.moving);
    CallbackTwice(c, after);
    RepeatOnce(c, after, n);
  }

  lemma {:induction false} RepeatOnce(c: GroupState, after: Key -> Option<Rect>, n: nat)
    requires n >= 1
    requires MoveCallback(MoveCallback(c, after), after) == MoveCallback(c, after)
    ensures RepeatCallback(c, after, n) == MoveCallback(c, after)
  {
    if n > 1 {
      RepeatOnce(c, after, n - 1);
    }
  }

  /** The update keeps the cancellers and watchers consistent. */
  lemma {:induction false} ReceiveValid(version: ST.Version, s: GroupState, nextProps: Props, elements: seq<Element>,
                                        before: Key -> Rect, after: Key -> Option<Rect>)
    requires Valid(s)
    ensures Valid(Receive(version, s, nextProps, elements, before, after))
  {
    var c := Committed(version, s, nextProps, elements, before);
    assert Valid(c);
    ClearTransitionsEffect(c);
    MoveAllKeeps(ClearTransitions(c), c.moving, after);
  }

  // ---------------------------------------------------------------------------
  // Removing a child once its leave is over
  // ---------------------------------------------------------------------------

  /** What `findIndex(c => c.key === key)` does on a list that may have holes. */
  datatype Lookup = Found(index: nat) | Missing | HitsHole

  /**
   * `findIndex` visits holes as `undefined`, so reading `.key` there throws:
   * the search finds the key, runs off the end, or reaches a hole first.
   */
  function FindSlot(slots: seq<Option<Entry>>, key: Key): (r: Lookup)
    ensures r.Found? ==> r.index < |slots| && slots[r.index] != None && slots[r.index].value.key == key
    ensures r.Found? || r.Missing? ==>
      forall m :: 0 <= m < |slots| && (r.Missing? || m < r.index) ==> slots[m] != None && slots[m].value.key != key
    ensures r.HitsHole? <==> exists m :: 0 <= m < |slots| && slots[m] == None && !HasKey(slots[..m], key)
  {
    if slots == [] then Missing
    else if slots[0] == None then (assert slots[..0] == []; HitsHole)
    else if slots[0].value.key == key then Found(0)
    else
      var r := FindSlot(slots[1..], key);
      assert forall m :: 1 <= m <= |slots| ==> slots[..m] == [slots[0]] + slots[1..][..m - 1];
      match r
      case Found(i) => Found(i + 1)
      case Missing => Missing
      case HitsHole => HitsHole
  }

  /**
   * JavaScript's `splice(start, 1)`: a negative start counts from the end,
   * and a start past the end removes nothing.
   */
  function SpliceOne(slots: seq<Option<Entry>>, start: int): (r: seq<Option<Entry>>)
    ensures 0 <= start < |slots| ==> r == slots[..start] + slots[start + 1..]
    ensures -|slots| <= start < 0 ==> r == slots[..|slots| + start] + slots[|slots| + start + 1..]
    ensures start >= |slots| ==> r == slots
  {
    var len := |slots|;
    var actual := if start < 0 then (if len + start < 0 then 0 else len + start) else (if start > len then len else start);
    if actual < len then slots[..actual] + slots[actual + 1..] else slots
  }

  /**
   * `_unmountAtKey` as written: the copy of the list with the entry at
   * `findIndex`'s answer spliced out. When the key is not there, that answer
   * is -1 and the last entry goes. `None` stands for the `TypeError` a hole
   * raises.
   */
  function UnmountAtKeyAsWritten(slots: seq<Option<Entry>>, key: Key): (r: Option<seq<Option<Entry>>>)
    ensures r.None? <==> exists m :: 0 <= m < |slots| && slots[m] == None && !HasKey(slots[..m], key)
    ensures FindSlot(slots, key).Found? ==> var i := FindSlot(slots, key).index; r == Some(slots[..i] + slots[i + 1..])
    ensures FindSlot(slots, key).Missing? && slots != [] ==> r == Some(slots[..|slots| - 1])
    ensures slots == [] ==> r == Some([])
  {
    match FindSlot(slots, key)
    case Found(i) => Some(SpliceOne(slots, i))
    case Missing =>
      assert slots != [] ==> slots[..|slots| - 1] + slots[|slots|..] == slots[..|slots| - 1];
      Some(SpliceOne(slots, -1))
    case HitsHole => None
  }

  /** `_unmountAtKey` with the missing key left alone: the list the rest of this model uses. */
  function UnmountAtKey(slots: seq<Option<Entry>>, key: Key): (r: Option<seq<Option<Entry>>>)
    ensures r.None? <==> exists m :: 0 <= m < |slots| && slots[m] == None && !HasKey(slots[..m], key)
    ensures FindSlot(slots, key).Found? ==> var i := FindSlot(slots, key).index; r == Some(slots[..i] + slots[i + 1..])
    ensures FindSlot(slots, key).Missing? ==> r == Some(slots)
  {
    match FindSlot(slots, key)
    case Found(i) => Some(SpliceOne(slots, i))
    case Missing => Some(slots)
    case HitsHole => None
  }

  /**
   * When the key is there, both versions remove that one entry, keep the
   * rest in order, and the count of entries with that key drops by one while
   * every other key keeps its count.
   */
  lemma {:induction false} UnmountRemovesEntry(slots: seq<Option<Entry>>, key: Key, other: Key)
    requires FindSlot(slots, key).Found?
    ensures var i := FindSlot(slots, key).index;
      && UnmountAtKey(slots, key) == UnmountAtKeyAsWritten(slots, key) == Some(slots[..i] + slots[i + 1..])
      && Count(UnmountAtKey(slots, key).value, KeyIs(key)) + 1 == Count(slots, KeyIs(key))
      && (other != key ==> Count(UnmountAtKey(slots, key).value, KeyIs(other)) == Count(slots, KeyIs(other)))
  {
    var i := FindSlot(slots, key).index;
    assert slots == slots[..i] + [slots[i]] + slots[i + 1..];
    CountAppend(slots[..i] + [slots[i]], slots[i + 1..], KeyIs(key));
    CountAppend(slots[..i], [slots[i]], KeyIs(key));
    CountAppend(slots[..i], slots[i + 1..], KeyIs(key));
    CountAppend(slots[..i] + [slots[i]], slots[i + 1..], KeyIs(other));
    CountAppend(slots[..i], [slots[i]], KeyIs(other));
    CountAppend(slots[..i], slots[i + 1..], KeyIs(other));
    assert [slots[i]][..0] == [];
  }

  /** As written, a key that is not in a list without holes costs the list its last entry. */
  lemma {:induction false} UnmountMissingRemovesLast(slots: seq<Option<Entry>>, key: Key)
    requires slots != []
    requires forall m :: 0 <= m < |slots| ==> slots[m] != None && slots[m].value.key != key
    ensures UnmountAtKeyAsWritten(slots, key) == Some(slots[..|slots| - 1])
    ensures UnmountAtKey(slots, key) == Some(slots)
  {
    assert FindSlot(slots, key).Missing?;
    assert slots[|slots|..] == [];
    assert SpliceOne(slots, -1) == slots[..|slots| - 1] + slots[|slots|..];
    assert UnmountAtKeyAsWritten(slots, key) == Some(SpliceOne(slots, -1));
    assert slots[..|slots| - 1] + slots[|slots|..] == slots[..|slots| - 1];
    assert SpliceOne(slots, -1) == slots[..|slots| - 1];
  }

  /** Entries with no holes between them, each key at most once. */
  predicate Dense(slots: seq<Option<Entry>>)
  {
    forall m :: 0 <= m < |slots| ==> slots[m] != None
  }

  lemma {:induction false} CountZeroAbsent(slots: seq<Option<Entry>>, key: Key)
    requires Count(slots, KeyIs(key)) == 0
    ensures forall m :: 0 <= m < |slots| && slots[m] != None ==> slots[m].value.key != key
  {
    if slots != [] {
      CountZeroAbsent(slots[..|slots| - 1], key);
      assert forall m :: 0 <= m < |slots| - 1 ==> slots[..|slots| - 1][m] == slots[m];
    }
  }

  /**
   * The corrected removal is idempotent on a list without holes in which
   * the key occurs at most once: a second call for the same key changes
   * nothing.
   */
  lemma {:induction false} UnmountIdempotent(slots: seq<Option<Entry>>, key: Key)
    requires Dense(slots) && Count(slots, KeyIs(key)) <= 1
    ensures UnmountAtKey(slots, key).Some?
    ensures UnmountAtKey(UnmountAtKey(slots, key).value, key) == UnmountAtKey(slots, key)
  {
    var f := FindSlot(slots, key);
    assert !f.HitsHole?;
    if f.Found? {
      UnmountRemovesEntry(slots, key, key);
      var r := UnmountAtKey(slots, key).value;
      CountZeroAbsent(r, key);
      RemovedDense(slots, f.index);
      UnmountDenseMissing(r, key);
    }
  }

  lemma {:induction false} RemovedDense(slots: seq<Option<Entry>>, i: nat)
    requires Dense(slots) && i < |slots|
    ensures Dense(slots[..i] + slots[i + 1..])
  {
    var r := slots[..i] + slots[i + 1..];
    forall m | 0 <= m < |r| ensures r[m] != None {
      if m < i { assert r[m] == slots[m]; } else { assert r[m] == slots[m + 1]; }
    }
  }

  lemma {:induction false} UnmountDenseMissing(slots: seq<Option<Entry>>, key: Key)
    requires Dense(slots)
    requires forall m :: 0 <= m < |slots| && slots[m] != None ==> slots[m].value.key != key
    ensures UnmountAtKey(slots, key) == Some(slots)
  {
    assert FindSlot(slots, key).Missing?;
  }

  /** The outcome of running an `onAfterLeave` chain: the new state, and whether it stopped on a `TypeError`. */
  datatype Ran = Ran(state: GroupState, threw: bool)

  /** `maybeCall(hook, el)`: a callback hook is called, anything else is passed over. */
  function HookCall(hook: Option<Value>): seq<nat>
  {
    if hook.Some? && hook.value.Callback? then [hook.value.id] else []
  }

  /**
   * A child's `onAfterLeave` runs: a user hook is called; a wrapper from the
   * merge runs the hook it wraps first and then removes its key's entry.
   * `asWritten` selects the removal as the build writes it.
   */
  function RunAfterLeave(s: GroupState, a: AfterLeave, asWritten: bool): Ran
  {
    match a
    case UserHook(h) => Ran(s.(hookLog := s.hookLog + HookCall(h)), false)
    case RemoveAfter(inner, key) =>
      var r := RunAfterLeave(s, inner, asWritten);
      if r.threw then r
      else
        var u := if asWritten then UnmountAtKeyAsWritten(r.state.children, key) else UnmountAtKey(r.state.children, key);
        if u.None? then Ran(r.state, true) else Ran(r.state.(children := u.value), false)
  }

  /** The first entry with the key, passing over holes: the `Transition` React keeps under that key. */
  function EntryWithKey(slots: seq<Option<Entry>>, key: Key): (r: Option<Entry>)
    ensures r.Some? ==> r.value.key == key && Some(r.value) in slots
    ensures r.None? ==> !HasKey(slots, key)
  {
    if slots == [] then None
    else if slots[0].Some? && slots[0].value.key == key then slots[0]
    else
      var r := EntryWithKey(slots[1..], key);
      assert HasKey(slots, key) ==> HasKey(slots[1..], key) by {
        forall m | 0 <= m < |slots| && slots[m].Some? && slots[m].value.key == key
          ensures HasKey(slots[1..], key)
        {
          assert 0 < m;
          assert slots[1..][m - 1] == slots[m];
        }
      }
      r
  }

  /** The `Transition` under `key` reports that its leave is over and calls its `onAfterLeave`. */
  function LeaveDone(s: GroupState, key: Key, asWritten: bool): Ran
  {
    match EntryWithKey(s.children, key)
    case None => Ran(s, false)
    case Some(e) => RunAfterLeave(s, e.afterLeave, asWritten)
  }

  /**
   * A leaving entry made from one with a plain hook calls that hook first and
   * then removes its own key's entry; nothing else changes.
   */
  lemma {:induction false} LeavingHookThenRemove(s: GroupState, e: Entry, h: Option<Value>)
    requires e.afterLeave == UserHook(h)
    ensures var r := RunAfterLeave(s, Leaving(e).afterLeave, false);
      var u := UnmountAtKey(s.children, e.key);
      && r.state.hookLog == s.hookLog + HookCall(h)
      && (r.threw <==> u.None?)
      && r.state == s.(hookLog := r.state.hookLog, children := if u.Some? then u.value else s.children)
  {
  }

  // ---------------------------------------------------------------------------
  // A child that leaves across two updates
  // ---------------------------------------------------------------------------

  /** A list item keyed `k` as the group wraps it, with no hook of its own. */
  function Item(k: string): Entry
  {
    Entry(Some(k), map[], Wraps(Element(Some(k), "li", map[])), UserHook(None))
  }

  /** A group state holding just the given list. */
  function Holding(children: seq<Option<Entry>>): GroupState
  {
    GroupState(map[], children, [], map[], map[], [], map[], map[], 0, [])
  }

  /**
   * The list [a, b] re-rendered as [b] twice before a's leave is over: the
   * second merge wraps a's `onAfterLeave` a second time, so its completion
   * unmounts `a` twice. As written, the second unmount finds no `a`,
   * `findIndex` answers -1 and `splice(-1, 1)` removes `b`, which was never
   * removed from the children; with the missing key left alone, `b` stays.
   */
  lemma {:induction false} DoubleLeaveRemovesSibling()
    ensures var a, b := Item("a"), Item("b");
      var once := Merged([Some(a), Some(b)], [b]);
      var twice := Merged(once, [b]);
      && once == [Some(Leaving(a)), Some(b)]
      && twice == [Some(Leaving(Leaving(a))), Some(b)]
      && LeaveDone(Holding(twice), Some("a"), true).state.children == []
      && LeaveDone(Holding(twice), Some("a"), false).state.children == [Some(b)]
  {
    var a, b := Item("a"), Item("b");
    var once := ReleaseOne(a, b);
    var twice := ReleaseOne(Leaving(a), b);
    assert EntryWithKey(twice, Some("a")) == Some(Leaving(Leaving(a)));
    LeaveTwice(a, b, true);
    LeaveTwice(a, b, false);
  }

  /** The completion of an entry wrapped twice, in front of an entry with another key. */
  lemma {:induction false} LeaveTwice(x: Entry, b: Entry, asWritten: bool)
    requires x.key != b.key && x.afterLeave == UserHook(None)
    ensures var t := Holding([Some(Leaving(Leaving(x))), Some(b)]);
      RunAfterLeave(t, Leaving(Leaving(x)).afterLeave, asWritten).state.children == if asWritten then [] else [Some(b)]
  {
    var twice := [Some(Leaving(Leaving(x))), Some(b)];
    var t := Holding(twice);
    assert RunAfterLeave(t, UserHook(None), asWritten) == Ran(t, false) by {
      assert t.hookLog + HookCall(None) == t.hookLog;
    }
    assert FindSlot(twice, x.key) == Found(0);
    assert twice[..0] + twice[1..] == [Some(b)];
    assert UnmountAtKey(twice, x.key) == UnmountAtKeyAsWritten(twice, x.key) == Some([Some(b)]);
    var r := RunAfterLeave(t, RemoveAfter(UserHook(None), x.key), asWritten);
    assert r == Ran(t.(children := [Some(b)]), false);
    assert FindSlot([Some(b)], x.key) == Missing;
    assert SpliceOne([Some(b)], -1) == [];
  }

  /** Merging [x, b] with [b], where `b` is keyed "b" and `x` has another key: `x` leaves in place, `b` stays. */
  lemma {:induction false} ReleaseOne(x: Entry, b: Entry) returns (r: seq<Option<Entry>>)
    requires x.key != b.key
    ensures r == Merged([Some(x), Some(b)], [b]) == [Some(Leaving(x)), Some(b)]
  {
    var children, next := [Some(x), Some(b)], [b];
    assert HasKey(children, b.key) by { assert children[1].value.key == b.key; }
    assert FindKey(next, x.key) == -1;
    assert FindKey(next, b.key) == 0;
    var s0 := MergeStep(children, next, [], 0);
    assert s0 == Inserted([], Leaving(x), 0);
    assert FirstFree<Entry>([], 0) == 0;
    assert s0 == [Some(Leaving(x))];
    var s1 := MergeStep(children, next, s0, 1);
    assert s1 == Inserted(s0, b, 0);
    assert FirstFree(s0, 0) == 1;
    assert Holes<Entry>(0) == [];
    assert s1 == [Some(Leaving(x)), Some(b)];
    assert MergeUpTo(children, next, 1) == s0;
    r := MergeUpTo(children, next, 2);
  }
}
