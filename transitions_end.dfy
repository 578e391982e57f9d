/**
 * `onAllTransitionsEnd`: a one-shot race between a timer and the end events
 * of the element's own transitions or animations. Whichever completes first
 * clears the timer, removes the listener and calls the callback; the
 * canceller it hands back clears both without calling anything.
 */
module TransitionsEnd {
  import opened Wrappers
  import opened Utils
  import opened TransitionUtils

  /** What the sniffing fixed when the watcher was set up. */
  datatype WatchConfig = WatchConfig(element: Identity, eventType: Mechanism, expected: nat, delay: nat)

  /**
   * The watcher's mutable closure state: the end events counted so far,
   * whether the timer and the listener are still registered, and how often
   * the callback has run.
   */
  datatype Watch = Watch(ended: nat, timerArmed: bool, listening: bool, callbackCalls: nat)

  /** What can happen to a watcher. */
  datatype WatchEvent =
    | EndEvent(target: Identity, kind: Mechanism)  // a `transitionend` or `animationend` event reaching the element
    | TimerFires                                    // the timer set for the sniffed duration goes off
    | Cancelled                                     // the returned `clearTimeouts` is called

  /** `setTimeout` treats a `NaN` or negative delay as zero. */
  function TimerDelay(duration: Option<int>): (ms: nat)
    ensures duration.Some? && duration.value >= 0 ==> ms == duration.value
    ensures duration.None? || duration.value < 0 ==> ms == 0
  {
    if duration.Some? && duration.value >= 0 then duration.value else 0
  }

  /** The configuration `onAllTransitionsEnd(type, el, callback)` derives from the computed style. */
  function Configure(requested: Option<Mechanism>, style: ComputedStyle, element: Identity): (c: WatchConfig)
    ensures c.expected >= 1
  {
    var info := GetSniffedCssInfo(requested, style);
    WatchConfig(element, info.kind, info.numDurations, TimerDelay(info.duration))
  }

  /** Right after the call: nothing counted, timer and listener registered, callback not run. */
  const Started := Watch(0, true, true, 0)

  /** `doneCallback`: clear the timer, remove the listener, call the callback. */
  function Finished(w: Watch): Watch
  {
    Watch(w.ended, false, false, w.callbackCalls + 1)
  }

  /** One event applied to the watcher. */
  function Step(c: WatchConfig, w: Watch, e: WatchEvent): Watch
  {
    match e
    case EndEvent(target, kind) =>
      if !w.listening || kind != c.eventType || target != c.element then w
      else if w.ended + 1 >= c.expected then Finished(w.(ended := w.ended + 1))
      else w.(ended := w.ended + 1)
    case TimerFires => if w.timerArmed then Finished(w) else w
    case Cancelled => w.(timerArmed := false, listening := false)
  }

  /** A sequence of events applied in order. */
  function Run(c: WatchConfig, w: Watch, es: seq<WatchEvent>): Watch
    decreases |es|
  {
    if es == [] then w else Run(c, Step(c, w, es[0]), es[1..])
  }

  /**
   * The watcher's invariant: timer and listener are registered or removed
   * together; while they are, the callback has not run and fewer end events
   * than expected have been counted; the callback runs at most once.
   */
  predicate Consistent(c: WatchConfig, w: Watch)
  {
    && w.timerArmed == w.listening
    && w.callbackCalls <= 1
    && (w.listening ==> w.callbackCalls == 0 && w.ended < c.expected)
  }

  lemma {:induction false} StepConsistent(c: WatchConfig, w: Watch, e: WatchEvent)
    requires Consistent(c, w)
    ensures Consistent(c, Step(c, w, e))
  {
  }

  /** Whatever happens after set-up, the callback runs at most once. */
  lemma {:induction false} AtMostOnce(c: WatchConfig, w: Watch, es: seq<WatchEvent>)
    requires Consistent(c, w)
    ensures Consistent(c, Run(c, w, es))
    ensures Run(c, w, es).callbackCalls <= 1
    decreases |es|
  {
    if es != [] {
      StepConsistent(c, w, es[0]);
      AtMostOnce(c, Step(c, w, es[0]), es[1..]);
    }
  }

  lemma {:induction false} StartedConsistent(c: WatchConfig)
    requires c.expected >= 1
    ensures Consistent(c, Started)
  {
  }

  /** Once the timer and the listener are gone, no event changes anything. */
  lemma {:induction false} SettledStays(c: WatchConfig, w: Watch, es: seq<WatchEvent>)
    requires !w.timerArmed && !w.listening
    ensures Run(c, w, es) == w
    decreases |es|
  {
    if es != [] {
      SettledStays(c, Step(c, w, es[0]), es[1..]);
    }
  }

  /** After the canceller has run, the callback never runs. */
  lemma {:induction false} CancelSilences(c: WatchConfig, w: Watch, es: seq<WatchEvent>)
    ensures Run(c, Step(c, w, Cancelled), es).callbackCalls == w.callbackCalls
  {
    SettledStays(c, Step(c, w, Cancelled), es);
  }

  /** End events from another element, or of the other kind, are ignored. */
  lemma {:induction false} ForeignEventIgnored(c: WatchConfig, w: Watch, target: Identity, kind: Mechanism)
    requires target != c.element || kind != c.eventType
    ensures Step(c, w, EndEvent(target, kind)) == w
  {
  }

  /** `n` end events of the element itself, of the sniffed kind. */
  function OwnEnds(c: WatchConfig, n: nat): (es: seq<WatchEvent>)
    ensures |es| == n
    ensures forall i :: 0 <= i < n ==> es[i] == EndEvent(c.element, c.eventType)
  {
    if n == 0 then [] else [EndEvent(c.element, c.eventType)] + OwnEnds(c, n - 1)
  }

  /**
   * Counting: with the timer not yet fired, the callback has run after `n`
   * of the element's own end events exactly when `n` reaches the number of
   * durations, and the count stops there.
   */
  lemma {:induction false} CountsOwnEnds(c: WatchConfig, k: nat, n: nat)
    requires k < c.expected
    ensures var w := Run(c, Watch(k, true, true, 0), OwnEnds(c, n));
      && (w.callbackCalls == 1 <==> k + n >= c.expected)
      && w.callbackCalls <= 1
      && w.ended == if k + n >= c.expected then c.expected else k + n
    decreases n
  {
    if n > 0 {
      var es := OwnEnds(c, n);
      assert es[1..] == OwnEnds(c, n - 1);
      if k + 1 >= c.expected {
        SettledStays(c, Finished(Watch(k + 1, true, true, 0)), es[1..]);
      } else {
        CountsOwnEnds(c, k + 1, n - 1);
      }
    }
  }

  /** The timer wins whenever it fires while the watcher is still waiting. */
  lemma {:induction false} TimerFinishes(c: WatchConfig, w: Watch)
    requires Consistent(c, w) && w.timerArmed
    ensures Step(c, w, TimerFires).callbackCalls == 1
    ensures !Step(c, w, TimerFires).listening
  {
  }

  /** The state `onAllTransitionsEnd` keeps in its closure. */
  class EndWatcher {
    const config: WatchConfig
    var ended: nat
    var timerArmed: bool
    var listening: bool
    var callbackCalls: nat

    function State(): Watch
      reads this
    {
      Watch(ended, timerArmed, listening, callbackCalls)
    }

    ghost predicate Valid()
      reads this
    {
      config.expected >= 1 && Consistent(config, State())
    }

    /** Sniff the element's style, arm the timer and register the listener. */
    constructor (requested: Option<Mechanism>, style: ComputedStyle, element: Identity)
      ensures config == Configure(requested, style, element)
      ensures State() == Started
      ensures Valid()
    {
      config := Configure(requested, style, element);
      ended := 0;
      timerArmed := true;
      listening := true;
      callbackCalls := 0;
    }

    method Finish()
      modifies this
      ensures State() == Finished(old(State()))
    {
      timerArmed := false;
      listening := false;
      callbackCalls := callbackCalls + 1;
    }

    /** `onAnimationEnd`: count an end event of the element itself and finish at the last one. */
    method OnEndEvent(target: Identity, kind: Mechanism)
      requires Valid()
      modifies this
      ensures State() == Step(config, old(State()), EndEvent(target, kind))
      ensures Valid()
    {
      if listening && kind == config.eventType && target == config.element {
        ended := ended + 1;
        if ended >= config.expected {
          Finish();
        }
      }
    }

    /** The timer going off: finish if it is still registered. */
    method OnTimeout()
      requires Valid()
      modifies this
      ensures State() == Step(config, old(State()), TimerFires)
      ensures Valid()
    {
      if timerArmed {
        Finish();
      }
    }

    /** `clearTimeouts`: clear the timer and remove the listener without calling the callback. */
    method Cancel()
      requires Valid()
      modifies this
      ensures State() == Step(config, old(State()), Cancelled)
      ensures Valid()
    {
      timerArmed := false;
      listening := false;
    }
  }
}
