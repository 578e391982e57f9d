/**
 * The small helpers the controllers are built on: slot insertion into a
 * sparse list (`insertAtIndex`), element identity (`componentsEqual`) and the
 * optional hook call (`maybeCall`).
 */
module Utils {
  import opened Wrappers

  // ---------------------------------------------------------------------------
  // Elements and their identity
  // ---------------------------------------------------------------------------

  /** A value a prop can hold. */
  datatype Value = Text(s: string) | Flag(b: bool) | Number(n: int) | Callback(id: nat)

  /**
   * A rendered element reduced to what the transition logic looks at: its
   * `key` (React allows none), its `type` and its other props.
   */
  datatype Element = Element(key: Option<string>, kind: string, props: map<string, Value>)

  /** What React uses to decide whether two elements are "the same": key and type. */
  datatype Identity = Identity(key: Option<string>, kind: string)

  function IdentityOf(e: Option<Element>): Option<Identity>
  {
    match e
    case None => None
    case Some(el) => Some(Identity(el.key, el.kind))
  }

  /**
   * `componentsEqual` as the build ships it: both absent, or both present
   * with equal key and equal type; always a boolean.
   */
  function ComponentsEqual(a: Option<Element>, b: Option<Element>): (r: bool)
    ensures r <==> IdentityOf(a) == IdentityOf(b)
  {
    (a.None? && b.None?) || (a.Some? && b.Some? && a.value.key == b.value.key && a.value.kind == b.value.kind)
  }

  /** `componentsEqual` is an equivalence on optional elements. */
  lemma {:induction false} ComponentsEqualIsEquivalence(a: Option<Element>, b: Option<Element>, c: Option<Element>)
    ensures ComponentsEqual(a, a)
    ensures ComponentsEqual(a, b) == ComponentsEqual(b, a)
    ensures ComponentsEqual(a, b) && ComponentsEqual(b, c) ==> ComponentsEqual(a, c)
  {
  }

  /** The outcomes the unit test expects of `componentsEqual`. */
  lemma {:induction false} ComponentsEqualCases(a: Element, b: Element)
    ensures ComponentsEqual(None, None)
    ensures !ComponentsEqual(None, Some(a)) && !ComponentsEqual(Some(a), None)
    ensures a.kind != b.kind ==> !ComponentsEqual(Some(a), Some(b))
    ensures a.key != b.key ==> !ComponentsEqual(Some(a), Some(b))
    ensures a.key == b.key && a.kind == b.kind ==> ComponentsEqual(Some(a), Some(b))
  {
  }

  /** A JavaScript value as far as `componentsEqual` in the TypeScript sources can produce one. */
  datatype JsValue = Undefined | Bool(b: bool)

  /**
   * `componentsEqual` as written in the TypeScript sources, evaluating
   * `(!a && !b) || (a && b && key === key && type === type)` with JavaScript's
   * `&&`, which yields its first falsy operand rather than `false`.
   */
  function ComponentsEqualAsWritten(a: Option<Element>, b: Option<Element>): (r: JsValue)
    ensures r == Bool(true) <==> ComponentsEqual(a, b)
    ensures r == Undefined <==> a.None? != b.None?
  {
    if a.None? && b.None? then Bool(true)
    else if a.None? then Undefined
    else if b.None? then Undefined
    else Bool(a.value.key == b.value.key && a.value.kind == b.value.kind)
  }

  /**
   * The unit test expects `false` when only one side is present; the
   * TypeScript version yields `undefined` there (the build version coerces
   * with `!!` and yields `false`).
   */
  lemma {:induction false} ComponentsEqualAsWrittenNotBoolean(b: Element)
    ensures ComponentsEqualAsWritten(None, Some(b)) == Undefined
    ensures ComponentsEqualAsWritten(None, Some(b)) != Bool(false)
    ensures !ComponentsEqual(None, Some(b))
  {
  }

  // ---------------------------------------------------------------------------
  // maybeCall
  // ---------------------------------------------------------------------------

  /**
   * `maybeCall(func, ...args)`: nothing (undefined) when no function is
   * given, otherwise the function's result on the arguments, passed on as
   * they are.
   */
  function MaybeCall<A, R>(f: Option<A -> R>, args: A): (r: Option<R>)
    ensures r.Some? <==> f.Some?
    ensures f.Some? ==> r.value == f.value(args)
  {
    match f
    case None => None
    case Some(g) => Some(g(args))
  }

  // ---------------------------------------------------------------------------
  // insertAtIndex on a sparse list
  // ---------------------------------------------------------------------------

  /**
   * The first index at or after `index` whose slot holds nothing; every
   * index past the end of the list holds nothing.
   */
  function FirstFree<T>(slots: seq<Option<T>>, index: nat): (j: nat)
    ensures index <= j
    ensures j < |slots| ==> slots[j].None?
    ensures forall k :: index <= k < j ==> k < |slots| && slots[k].Some?
    ensures j <= |slots| || j == index
    decreases |slots| - index
  {
    if index >= |slots| || slots[index].None? then index else FirstFree(slots, index + 1)
  }

  /** `n` empty slots. */
  function Holes<T>(n: nat): (r: seq<Option<T>>)
    ensures |r| == n
    ensures forall k :: 0 <= k < n ==> r[k] == None
  {
    if n == 0 then [] else Holes(n - 1) + [None]
  }

  /**
   * The list after the JavaScript assignment `array[j] = item`: writing past
   * the end grows the list, leaving holes in between.
   */
  function Write<T>(slots: seq<Option<T>>, j: nat, item: T): (r: seq<Option<T>>)
    ensures |r| == if j < |slots| then |slots| else j + 1
    ensures r[j] == Some(item)
    ensures forall k :: 0 <= k < |slots| && k != j ==> r[k] == slots[k]
    ensures forall k :: |slots| <= k < |r| && k != j ==> r[k] == None
  {
    if j < |slots| then slots[j := Some(item)] else slots + Holes(j - |slots|) + [Some(item)]
  }

  /** The list `insertAtIndex(array, item, index)` leaves behind. */
  function Inserted<T>(slots: seq<Option<T>>, item: T, index: nat): seq<Option<T>>
  {
    Write(slots, FirstFree(slots, index), item)
  }

  /**
   * What `insertAtIndex` promises: the item lands in the first free slot at
   * or after the requested index, every slot skipped over was occupied, no
   * occupied slot is overwritten and nothing else changes.
   */
  lemma {:induction false} InsertedSpec<T>(slots: seq<Option<T>>, item: T, index: nat)
    ensures var j := FirstFree(slots, index); var r := Inserted(slots, item, index);
      && index <= j
      && r[j] == Some(item)
      && (j < |slots| ==> slots[j] == None)
      && (forall k :: index <= k < j ==> slots[k].Some?)
      && (forall k :: 0 <= k < |slots| && slots[k].Some? ==> r[k] == slots[k])
      && (forall k :: 0 <= k < |slots| && k != j ==> r[k] == slots[k])
      && |r| == (if |slots| < j + 1 then j + 1 else |slots|)
  {
  }

  /**
   * Inserting into a list adds exactly one occupied slot, holding the item:
   * counted by any property of the entries, the count grows by one exactly
   * when the item has the property.
   */
  lemma {:induction false} InsertedCount<T>(slots: seq<Option<T>>, item: T, index: nat, p: T -> bool)
    ensures Count(Inserted(slots, item, index), p) == Count(slots, p) + (if p(item) then 1 else 0)
  {
    var j := FirstFree(slots, index);
    if j < |slots| {
      CountUpdate(slots, j, item, p);
    } else {
      CountAppend(slots, Holes(j - |slots|), p);
      HolesCount<T>(j - |slots|, p);
      CountAppend(slots + Holes(j - |slots|), [Some(item)], p);
      assert Count([Some(item)], p) == (if p(item) then 1 else 0) by { assert [Some(item)][..0] == []; }
    }
  }

  /** The number of occupied slots whose entry has the property `p`. */
  function Count<T>(slots: seq<Option<T>>, p: T -> bool): nat
  {
    if slots == [] then 0
    else Count(slots[..|slots| - 1], p) + (if slots[|slots| - 1].Some? && p(slots[|slots| - 1].value) then 1 else 0)
  }

  lemma {:induction false} CountAppend<T>(a: seq<Option<T>>, b: seq<Option<T>>, p: T -> bool)
    ensures Count(a + b, p) == Count(a, p) + Count(b, p)
    decreases |b|
  {
    if b != [] {
      assert (a + b)[..|a + b| - 1] == a + b[..|b| - 1];
      CountAppend(a, b[..|b| - 1], p);
    } else {
      assert a + b == a;
    }
  }

  lemma {:induction false} HolesCount<T>(n: nat, p: T -> bool)
    ensures Count(Holes<T>(n), p) == 0
  {
    if n > 0 {
      assert Holes<T>(n)[..n - 1] == Holes<T>(n - 1);
      HolesCount<T>(n - 1, p);
    }
  }

  lemma {:induction false} CountUpdate<T>(slots: seq<Option<T>>, j: nat, item: T, p: T -> bool)
    requires j < |slots| && slots[j].None?
    ensures Count(slots[j := Some(item)], p) == Count(slots, p) + (if p(item) then 1 else 0)
  {
    var r := slots[j := Some(item)];
    assert slots == slots[..j] + [slots[j]] + slots[j + 1..];
    assert r == slots[..j] + [Some(item)] + slots[j + 1..];
    CountAppend(slots[..j] + [slots[j]], slots[j + 1..], p);
    CountAppend(slots[..j] + [Some(item)], slots[j + 1..], p);
    CountAppend(slots[..j], [slots[j]], p);
    CountAppend(slots[..j], [Some(item)], p);
    assert Count([slots[j]], p) == 0 by { assert [slots[j]][..0] == []; }
    assert Count([Some(item)], p) == (if p(item) then 1 else 0) by { assert [Some(item)][..0] == []; }
  }

  /** The two cases the unit test checks. */
  lemma {:induction false} InsertedExamples()
    ensures FirstFree([Some(0), Some(1), Some(2)], 1) == 3
    ensures Inserted([Some(0), Some(1), Some(2)], 1, 1) == [Some(0), Some(1), Some(2), Some(1)]
    ensures FirstFree([None, None, Some(1)], 0) == 0
    ensures Inserted([None, None, Some(1)], 1, 0) == [Some(1), None, Some(1)]
  {
  }

  /**
   * A JavaScript array the code writes into at arbitrary indices: slots
   * that were never written hold `undefined`.
   */
  class SparseArray<T> {
    var slots: seq<Option<T>>

    constructor ()
      ensures slots == []
    {
      slots := [];
    }

    /**
     * `insertAtIndex(array, item, index)`: step forward from `index` to the
     * first slot holding nothing, write the item there and return that index.
     */
    method InsertAtIndex(item: T, index: nat) returns (written: nat)
      modifies this
      ensures written == FirstFree(old(slots), index)
      ensures slots == Write(old(slots), written, item)
    {
      var i := index;
      while i < |slots| && slots[i].Some?
        invariant index <= i
        invariant FirstFree(slots, i) == FirstFree(slots, index)
        decreases |slots| - i
      {
        i := i + 1;
      }
      slots := Write(slots, i, item);
      written := i;
    }
  }
}
