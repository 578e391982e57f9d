/**
 * Reading CSS timing strings: `durationStringToMs`, `totalTransitionDuration`
 * and `getSniffedCssInfo`. Times are whole milliseconds; `None` stands for
 * JavaScript's `NaN`.
 */
module TransitionUtils {
  import opened Wrappers

  // ---------------------------------------------------------------------------
  // Characters and digits
  // ---------------------------------------------------------------------------

  /** The white space `Number(...)` strips from both ends of its argument. */
  predicate IsSpace(c: char)
  {
    c == ' ' || c == '\t' || c == '\n' || c == '\r' || c == '\U{000B}' || c == '\U{000C}'
    || c == '\U{00A0}' || c == '\U{2028}' || c == '\U{2029}' || c == '\U{FEFF}'
  }

  predicate IsDigit(c: char)
  {
    '0' <= c <= '9'
  }

  predicate AllDigits(s: string)
  {
    forall i :: 0 <= i < |s| ==> IsDigit(s[i])
  }

  function DigitValue(c: char): (d: nat)
    requires IsDigit(c)
    ensures d < 10
  {
    (c as int) - ('0' as int)
  }

  function DigitChar(d: nat): (c: char)
    requires d < 10
    ensures IsDigit(c) && DigitValue(c) == d
  {
    (('0' as int) + d) as char
  }

  /** The value of a string of decimal digits, most significant first. */
  function DigitsValue(s: string): nat
    requires AllDigits(s)
  {
    if s == [] then 0 else DigitsValue(s[..|s| - 1]) * 10 + DigitValue(s[|s| - 1])
  }

  /** The position of the first `c` in `s`, or `|s|` when there is none. */
  function IndexOf(s: string, c: char): (k: nat)
    ensures k <= |s|
    ensures k < |s| ==> s[k] == c
    ensures forall i :: 0 <= i < k ==> s[i] != c
  {
    if s == [] then 0 else if s[0] == c then 0 else 1 + IndexOf(s[1..], c)
  }

  lemma {:induction false} IndexOfAt(s: string, c: char, k: nat)
    requires k < |s| && s[k] == c
    requires forall i :: 0 <= i < k ==> s[i] != c
    ensures IndexOf(s, c) == k
  {
    if k > 0 {
      IndexOfAt(s[1..], c, k - 1);
    }
  }

  lemma {:induction false} IndexOfAbsent(s: string, c: char)
    requires c !in s
    ensures IndexOf(s, c) == |s|
  {
    if s != [] {
      IndexOfAbsent(s[1..], c);
    }
  }

  function TrimStart(s: string): (r: string)
    ensures |r| <= |s| && r == s[|s| - |r|..]
    ensures r == [] || !IsSpace(r[0])
  {
    if s != [] && IsSpace(s[0]) then TrimStart(s[1..]) else s
  }

  function TrimEnd(s: string): (r: string)
    ensures |r| <= |s| && r == s[..|r|]
    ensures r == [] || !IsSpace(r[|r| - 1])
  {
    if s != [] && IsSpace(s[|s| - 1]) then TrimEnd(s[..|s| - 1]) else s
  }

  /** `String.prototype.trim` as far as `Number(...)` applies it. */
  function Trim(s: string): string
  {
    TrimEnd(TrimStart(s))
  }

  // ---------------------------------------------------------------------------
  // durationStringToMs
  // ---------------------------------------------------------------------------

  /** The milliseconds in the digits after the point: tenths, hundredths and thousandths. */
  function FractionMs(frac: string): (ms: nat)
    requires AllDigits(frac) && |frac| <= 3
    ensures ms < 1000
  {
    (if |frac| > 0 then DigitValue(frac[0]) * 100 else 0)
    + (if |frac| > 1 then DigitValue(frac[1]) * 10 else 0)
    + (if |frac| > 2 then DigitValue(frac[2]) else 0)
  }

  /**
   * Milliseconds in an unsigned decimal number of seconds: digits, then
   * optionally a point and at most three more digits, with at least one digit
   * in all.
   */
  function UnsignedSecondsToMs(t: string): Option<nat>
  {
    var k := IndexOf(t, '.');
    var whole := t[..k];
    var frac := if k < |t| then t[k + 1..] else [];
    if !AllDigits(whole) || !AllDigits(frac) || (whole == [] && frac == []) || |frac| > 3 then None
    else Some(DigitsValue(whole) * 1000 + FractionMs(frac))
  }

  /** `Number(t) * 1000`: surrounding white space is ignored and an empty string is zero. */
  function SecondsToMs(t: string): (r: Option<int>)
  {
    var u := Trim(t);
    if u == [] then Some(0)
    else if u[0] == '-' then
      match UnsignedSecondsToMs(u[1..])
      case None => None
      case Some(v) => Some(0 - v)
    else if u[0] == '+' then
      match UnsignedSecondsToMs(u[1..])
      case None => None
      case Some(v) => Some(v)
    else
      match UnsignedSecondsToMs(u)
      case None => None
      case Some(v) => Some(v)
  }

  /** `s.slice(0, -1)`: the string without its last character. */
  function DropLast(s: string): (r: string)
    ensures s != [] ==> s == r + [s[|s| - 1]]
    ensures s == [] ==> r == []
  {
    if s == [] then [] else s[..|s| - 1]
  }

  /** `durationStringToMs`: drop the unit character and read the rest as seconds. */
  function DurationStringToMs(s: string): Option<int>
  {
    SecondsToMs(DropLast(s))
  }

  /** The decimal digits of `n`, most significant first, without leading zeros. */
  function NatDigits(n: nat): (s: string)
    ensures AllDigits(s) && s != []
    ensures '.' !in s
  {
    if n < 10 then [DigitChar(n)] else NatDigits(n / 10) + [DigitChar(n % 10)]
  }

  /** Three digits for a millisecond count below one second. */
  function MillisDigits(r: nat): (s: string)
    requires r < 1000
    ensures AllDigits(s) && |s| == 3
  {
    [DigitChar(r / 100), DigitChar(r / 10 % 10), DigitChar(r % 10)]
  }

  /** An unsigned number of milliseconds written as seconds with exactly three decimals. */
  function SecondsText(a: nat): string
  {
    NatDigits(a / 1000) + "." + MillisDigits(a % 1000)
  }

  /** A time in seconds with exactly three decimals and the unit `s`, for instance `-1.250s` or `0.300s`. */
  function FormatSeconds(ms: int): string
  {
    (if ms < 0 then "-" else "") + SecondsText(if ms < 0 then -ms else ms) + "s"
  }

  lemma {:induction false} NatDigitsValue(n: nat)
    ensures DigitsValue(NatDigits(n)) == n
  {
    if n >= 10 {
      var s := NatDigits(n);
      assert s[..|s| - 1] == NatDigits(n / 10);
      NatDigitsValue(n / 10);
    }
  }

  lemma {:induction false} MillisDigitsValue(r: nat)
    requires r < 1000
    ensures FractionMs(MillisDigits(r)) == r
  {
    assert (r / 100) * 100 + (r / 10 % 10) * 10 == (r / 10) * 10;
    assert (r / 10) * 10 + r % 10 == r;
  }

  lemma {:induction false} TrimNoop(s: string)
    requires s != [] && !IsSpace(s[0]) && !IsSpace(s[|s| - 1])
    ensures Trim(s) == s
  {
  }

  /** A string of digits reads as that many whole seconds. */
  lemma {:induction false} WholeSeconds(w: string)
    requires AllDigits(w) && w != []
    ensures UnsignedSecondsToMs(w) == Some(DigitsValue(w) * 1000)
  {
    assert '.' !in w by {
      forall i | 0 <= i < |w| ensures w[i] != '.' { assert IsDigit(w[i]); }
    }
    IndexOfAbsent(w, '.');
    assert w[..|w|] == w;
  }

  /** Digits, a point and at most three digits read as seconds and milliseconds. */
  lemma {:induction false} DecimalSeconds(w: string, f: string)
    requires AllDigits(w) && AllDigits(f) && |f| <= 3 && (w != [] || f != [])
    ensures UnsignedSecondsToMs(w + "." + f) == Some(DigitsValue(w) * 1000 + FractionMs(f))
  {
    var t := w + "." + f;
    assert t[|w|] == '.';
    forall i | 0 <= i < |w| ensures t[i] != '.' {
      assert t[i] == w[i] && IsDigit(w[i]);
    }
    IndexOfAt(t, '.', |w|);
    assert t[..|w|] == w;
    assert t[|w| + 1..] == f;
  }

  /** Reading the unsigned part of a formatted time gives its milliseconds back. */
  lemma {:induction false} SecondsTextReads(a: nat)
    ensures var t := SecondsText(a);
      && UnsignedSecondsToMs(t) == Some(a)
      && t != [] && IsDigit(t[0]) && IsDigit(t[|t| - 1])
  {
    var w, f := NatDigits(a / 1000), MillisDigits(a % 1000);
    DecimalSeconds(w, f);
    NatDigitsValue(a / 1000);
    MillisDigitsValue(a % 1000);
    assert DigitsValue(w) * 1000 + FractionMs(f) == a;
    var t := w + "." + f;
    assert t[0] == w[0] && t[|t| - 1] == f[2];
  }

  /** A leading minus sign negates what follows. */
  lemma {:induction false} NegativeReads(t: string, a: nat)
    requires t != [] && IsDigit(t[0]) && IsDigit(t[|t| - 1])
    requires UnsignedSecondsToMs(t) == Some(a)
    ensures SecondsToMs("-" + t) == Some(-(a as int))
  {
    var u := "-" + t;
    assert u[0] == '-' && u[|u| - 1] == t[|t| - 1];
    TrimNoop(u);
    assert u[1..] == t;
  }

  /** Without a sign the number reads as it is. */
  lemma {:induction false} PositiveReads(t: string, a: nat)
    requires t != [] && !IsSpace(t[0]) && t[0] != '-' && t[0] != '+' && !IsSpace(t[|t| - 1])
    requires UnsignedSecondsToMs(t) == Some(a)
    ensures SecondsToMs(t) == Some(a)
  {
    TrimNoop(t);
  }

  /** `durationStringToMs` reads back every time `FormatSeconds` writes. */
  lemma {:induction false} DurationRoundTrip(ms: int)
    ensures DurationStringToMs(FormatSeconds(ms)) == Some(ms)
  {
    var a := if ms < 0 then -ms else ms;
    var t := SecondsText(a);
    SecondsTextReads(a);
    if ms < 0 {
      assert FormatSeconds(ms) == ("-" + t) + "s";
      DropUnit("-" + t, 's');
      NegativeReads(t, a);
    } else {
      assert FormatSeconds(ms) == t + "s";
      DropUnit(t, 's');
      PositiveReads(t, a);
    }
  }

  /** White space in front of a duration does not change what it reads as. */
  lemma {:induction false} LeadingSpaceIgnored(c: char, s: string)
    requires IsSpace(c)
    ensures DurationStringToMs([c] + s) == DurationStringToMs(s)
  {
    var t := DropLast(s);
    assert DropLast([c] + s) == if s == [] then [] else [c] + t;
    if s != [] {
      TrimLeadingSpace(c, t);
      SameTrimSameMs([c] + t, t);
    }
  }

  lemma {:induction false} SameTrimSameMs(t: string, u: string)
    requires Trim(t) == Trim(u)
    ensures SecondsToMs(t) == SecondsToMs(u)
  {
  }

  lemma {:induction false} TrimLeadingSpace(c: char, t: string)
    requires IsSpace(c)
    ensures Trim([c] + t) == Trim(t)
  {
    assert ([c] + t)[1..] == t;
    assert TrimStart([c] + t) == TrimStart(t);
  }

  lemma {:induction false} DropUnit(s: string, unit: char)
    ensures DropLast(s + [unit]) == s
  {
  }

  /** A time written as whole seconds. */
  lemma {:induction false} WholeDuration(w: string)
    requires AllDigits(w) && w != []
    ensures DurationStringToMs(w + "s") == Some(DigitsValue(w) * 1000)
  {
    DropUnit(w, 's');
    TrimNoop(w);
    WholeSeconds(w);
  }

  /** Digits, a point and digits begin with a digit or the point and end with a digit. */
  lemma {:induction false} DecimalEnds(w: string, f: string)
    requires AllDigits(w) && AllDigits(f) && f != []
    ensures var t := w + "." + f; t != [] && (IsDigit(t[0]) || t[0] == '.') && IsDigit(t[|t| - 1])
  {
    var t := w + "." + f;
    if w == [] { assert t[0] == '.'; } else { assert t[0] == w[0]; }
    assert t[|t| - 1] == f[|f| - 1];
  }

  /** A time written with a decimal point, before the unit is dropped. */
  lemma {:induction false} DecimalReads(w: string, f: string)
    requires AllDigits(w) && AllDigits(f) && f != [] && |f| <= 3
    ensures SecondsToMs(w + "." + f) == Some(DigitsValue(w) * 1000 + FractionMs(f))
  {
    var t := w + "." + f;
    var a := DigitsValue(w) * 1000 + FractionMs(f);
    DecimalEnds(w, f);
    DecimalSeconds(w, f);
    PointReads(t, a);
    assert SecondsToMs(t) == Some(a);
  }

  /** A number starting with a digit or the point reads as it is. */
  lemma {:induction false} PointReads(t: string, a: nat)
    requires t != [] && (IsDigit(t[0]) || t[0] == '.') && IsDigit(t[|t| - 1])
    requires UnsignedSecondsToMs(t) == Some(a)
    ensures SecondsToMs(t) == Some(a)
  {
    PositiveReads(t, a);
  }

  /** A time written with a decimal point. */
  lemma {:induction false} DecimalDuration(w: string, f: string)
    requires AllDigits(w) && AllDigits(f) && f != [] && |f| <= 3
    ensures DurationStringToMs(w + "." + f + "s") == Some(DigitsValue(w) * 1000 + FractionMs(f))
  {
    DecimalReads(w, f);
    DropUnit(w + "." + f, 's');
  }

  /** A bare `0`, as a computed style never writes it, loses its last digit as the unit. */
  lemma {:induction false} BareZeroExample()
    ensures DurationStringToMs("0") == Some(0)
  {
    assert DropLast("0") == "";
  }

  // ---------------------------------------------------------------------------
  // Comma-separated lists
  // ---------------------------------------------------------------------------

  /** `s.split(',')`: the pieces between the commas, always at least one. */
  function Split(s: string): (parts: seq<string>)
    ensures |parts| >= 1
    ensures forall i :: 0 <= i < |parts| ==> ',' !in parts[i]
    decreases |s|
  {
    var k := IndexOf(s, ',');
    if k == |s| then [s] else [s[..k]] + Split(s[k + 1..])
  }

  /** The pieces put back together with a comma between each two. */
  function Join(parts: seq<string>): string
    requires |parts| >= 1
  {
    if |parts| == 1 then parts[0] else parts[0] + "," + Join(parts[1..])
  }

  /** Splitting loses nothing: joining the pieces gives the string back. */
  lemma {:induction false} JoinSplit(s: string)
    ensures Join(Split(s)) == s
    decreases |s|
  {
    var k := IndexOf(s, ',');
    if k == |s| {
      assert Split(s) == [s];
    } else {
      var rest := Split(s[k + 1..]);
      assert Split(s) == [s[..k]] + rest;
      assert ([s[..k]] + rest)[1..] == rest;
      assert Join(Split(s)) == s[..k] + "," + Join(rest);
      JoinSplit(s[k + 1..]);
      assert s == s[..k] + "," + s[k + 1..];
    }
  }

  /** Joining comma-free pieces and splitting again gives the pieces back. */
  lemma {:induction false} SplitJoin(parts: seq<string>)
    requires |parts| >= 1
    requires forall i :: 0 <= i < |parts| ==> ',' !in parts[i]
    ensures Split(Join(parts)) == parts
    decreases |parts|
  {
    var p := parts[0];
    IndexOfAbsent(p, ',');
    if |parts| == 1 {
    } else {
      var rest := Join(parts[1..]);
      var s := p + "," + rest;
      assert s[|p|] == ',';
      forall i | 0 <= i < |p| ensures s[i] != ',' { assert s[i] == p[i]; }
      IndexOfAt(s, ',', |p|);
      assert s[..|p|] == p && s[|p| + 1..] == rest;
      SplitJoin(parts[1..]);
    }
  }

  // ---------------------------------------------------------------------------
  // totalTransitionDuration
  // ---------------------------------------------------------------------------

  /** JavaScript `+` on two durations: `NaN` when either is. */
  function AddMs(a: Option<int>, b: Option<int>): (r: Option<int>)
    ensures r.Some? <==> a.Some? && b.Some?
    ensures r.Some? ==> r.value == a.value + b.value
  {
    if a.Some? && b.Some? then Some(a.value + b.value) else None
  }

  /**
   * `Math.max(...xs)` on a non-empty list: `NaN` as soon as one element is,
   * otherwise the largest element.
   */
  function MaxOf(xs: seq<Option<int>>): (r: Option<int>)
    requires |xs| >= 1
    ensures r.Some? <==> forall i :: 0 <= i < |xs| ==> xs[i].Some?
    ensures r.Some? ==> forall i :: 0 <= i < |xs| ==> xs[i].value <= r.value
    ensures r.Some? ==> exists i :: 0 <= i < |xs| && xs[i] == r
  {
    if |xs| == 1 then xs[0]
    else
      var m := MaxOf(xs[1..]);
      if xs[0].None? || m.None? then None
      else if xs[0].value >= m.value then xs[0]
      else m
  }

  /**
   * The time the `i`th transition takes, counting its delay: CSS repeats the
   * list of delays as often as needed to pair one with every duration.
   */
  function EntryTotal(durations: seq<string>, delays: seq<string>, i: nat): Option<int>
    requires i < |durations| && |delays| >= 1
  {
    AddMs(DurationStringToMs(durations[i]), DurationStringToMs(Cycle(delays, i)))
  }

  /** The `i`th entry of `base` repeated end to end without limit. */
  function Cycle<T>(base: seq<T>, i: nat): T
    requires |base| >= 1
    decreases i
  {
    if i < |base| then base[i] else Cycle(base, i - |base|)
  }

  /** The totals of all entries, in the order of the durations. */
  function EntryTotals(durations: seq<string>, delays: seq<string>): (r: seq<Option<int>>)
    requires |delays| >= 1
    ensures |r| == |durations|
    ensures forall i :: 0 <= i < |durations| ==> r[i] == EntryTotal(durations, delays, i)
  {
    seq(|durations|, i requires 0 <= i < |durations| => EntryTotal(durations, delays, i))
  }

  /**
   * What `totalTransitionDuration` computes: the longest total (duration
   * plus delay) over all entries of the duration list.
   */
  function TotalDuration(durationString: string, delayString: string): Option<int>
  {
    MaxOf(EntryTotals(Split(durationString), Split(delayString)))
  }

  /** The total is `NaN` exactly when some entry cannot be read. */
  lemma {:induction false} LongestEntryNaN(ds: seq<string>, ls: seq<string>)
    requires |ds| >= 1 && |ls| >= 1
    ensures MaxOf(EntryTotals(ds, ls)).None? <==> exists i :: 0 <= i < |ds| && EntryTotal(ds, ls, i).None?
  {
    var xs := EntryTotals(ds, ls);
    if MaxOf(xs).None? {
      var i :| 0 <= i < |xs| && xs[i].None?;
      assert xs[i] == EntryTotal(ds, ls, i);
    } else {
      forall i | 0 <= i < |ds| ensures EntryTotal(ds, ls, i).Some? {
        assert xs[i] == EntryTotal(ds, ls, i);
      }
    }
  }

  /** A readable total bounds every entry and is one of them. */
  lemma {:induction false} LongestEntry(ds: seq<string>, ls: seq<string>)
    requires |ds| >= 1 && |ls| >= 1
    requires MaxOf(EntryTotals(ds, ls)).Some?
    ensures forall i :: 0 <= i < |ds| ==> EntryTotal(ds, ls, i).value <= MaxOf(EntryTotals(ds, ls)).value
    ensures exists i :: 0 <= i < |ds| && EntryTotal(ds, ls, i) == MaxOf(EntryTotals(ds, ls))
  {
    var xs := EntryTotals(ds, ls);
    var t := MaxOf(xs);
    var i :| 0 <= i < |xs| && xs[i] == t;
    assert EntryTotal(ds, ls, i) == t;
  }

  /** The repeated list read at `i` is entry `i mod |base|` of the list. */
  lemma {:induction false} CycleIsModulo<T>(base: seq<T>, i: nat)
    requires |base| >= 1
    ensures Cycle(base, i) == base[i % |base|]
    decreases i
  {
    if i >= |base| {
      CycleIsModulo(base, i - |base|);
      ModStep(i, |base|);
    }
  }

  lemma {:induction false} MulAtLeast(k: int, b: int)
    requires k >= 1 && b > 0
    ensures k * b >= b
  {
  }

  lemma {:induction false} ModUnique(x: int, b: int, q: int, r: int)
    requires b > 0 && 0 <= r < b && x == q * b + r
    ensures x % b == r
  {
    var q', r' := x / b, x % b;
    assert x == q' * b + r';
    assert q * b - q' * b == (q - q') * b;
    if q > q' {
      MulAtLeast(q - q', b);
    } else if q < q' {
      assert q' * b - q * b == (q' - q) * b;
      MulAtLeast(q' - q, b);
    }
  }

  lemma {:induction false} ModStep(i: int, b: int)
    requires b > 0
    ensures (i - b) % b == i % b
  {
    var q, r := i / b, i % b;
    assert i == q * b + r;
    assert (q - 1) * b == q * b - b;
    ModUnique(i - b, b, q - 1, r);
  }

  /** `n` is a whole number of times `b`. */
  predicate MultipleOf(n: nat, b: nat)
    requires b > 0
    decreases n
  {
    n == 0 || (n >= b && MultipleOf(n - b, b))
  }

  lemma {:induction false} MultipleAdd(m: nat, n: nat, b: nat)
    requires b > 0 && MultipleOf(m, b) && MultipleOf(n, b)
    ensures MultipleOf(m + n, b)
    decreases m
  {
    if m > 0 {
      MultipleAdd(m - b, n, b);
    }
  }

  /** Going round the repeated list a whole number of times lands on the same entry. */
  lemma {:induction false} CycleShift<T>(base: seq<T>, i: nat, n: nat)
    requires |base| >= 1 && MultipleOf(n, |base|)
    ensures Cycle(base, i + n) == Cycle(base, i)
    decreases n
  {
    if n > 0 {
      CycleShift(base, i, n - |base|);
    }
  }

  /**
   * `totalTransitionDuration`: split both lists, double the delays until
   * there are at least as many as durations, then take the longest
   * duration-plus-delay.
   */
  method TotalTransitionDuration(durationString: string, delayString: string) returns (total: Option<int>)
    ensures total == TotalDuration(durationString, delayString)
  {
    var durations := Split(durationString);
    var delays := Split(delayString);
    ghost var base := delays;
    while |delays| < |durations|
      invariant |delays| >= |base| >= 1 && MultipleOf(|delays|, |base|)
      invariant forall i :: 0 <= i < |delays| ==> delays[i] == Cycle(base, i)
      decreases |durations| - |delays|
    {
      forall i | |delays| <= i < 2 * |delays|
        ensures (delays + delays)[i] == Cycle(base, i)
      {
        CycleShift(base, i - |delays|, |delays|);
      }
      MultipleAdd(|delays|, |delays|, |base|);
      delays := delays + delays;
    }
    var totals := seq(|durations|, i requires 0 <= i < |durations| =>
      AddMs(DurationStringToMs(durations[i]), DurationStringToMs(delays[i])));
    assert totals == EntryTotals(durations, base) by {
      forall i | 0 <= i < |durations| ensures totals[i] == EntryTotal(durations, base, i) {
      }
    }
    total := MaxOf(totals);
  }

  /** A single delay is added to the longest duration. */
  lemma {:induction false} OneDelay(durationString: string, delay: string)
    requires ',' !in delay
    ensures var ds := Split(durationString);
      forall i :: 0 <= i < |ds| ==> EntryTotal(ds, Split(delay), i) == AddMs(DurationStringToMs(ds[i]), DurationStringToMs(delay))
  {
    IndexOfAbsent(delay, ',');
    forall i: nat ensures Cycle([delay], i) == delay {
      CycleOfOne(delay, i);
    }
  }

  lemma {:induction false} CycleOfOne<T>(x: T, i: nat)
    ensures Cycle([x], i) == x
    decreases i
  {
    if i > 0 {
      CycleOfOne(x, i - 1);
    }
  }

  // ---------------------------------------------------------------------------
  // getSniffedCssInfo
  // ---------------------------------------------------------------------------

  /** The two CSS mechanisms a transition can run on. */
  datatype Mechanism = Transition | Animation

  /** The four properties of an element's computed style the sniffing reads. */
  datatype ComputedStyle = ComputedStyle(
    animationDuration: string, animationDelay: string,
    transitionDuration: string, transitionDelay: string)

  /** What sniffing reports: the mechanism, its longest time and how many end events to wait for. */
  datatype SniffedInfo = SniffedInfo(kind: Mechanism, duration: Option<int>, numDurations: nat)

  /** JavaScript `a > b` on two durations: false as soon as either is `NaN`. */
  predicate Longer(a: Option<int>, b: Option<int>)
  {
    a.Some? && b.Some? && a.value > b.value
  }

  /** The longest total of one mechanism. */
  function MechanismTotal(style: ComputedStyle, m: Mechanism): Option<int>
  {
    match m
    case Transition => TotalDuration(style.transitionDuration, style.transitionDelay)
    case Animation => TotalDuration(style.animationDuration, style.animationDelay)
  }

  /** How many entries one mechanism lists. */
  function MechanismCount(style: ComputedStyle, m: Mechanism): nat
  {
    match m
    case Transition => |Split(style.transitionDuration)|
    case Animation => |Split(style.animationDuration)|
  }

  /**
   * `getSniffedCssInfo(type, el)`: the given mechanism if there is one,
   * otherwise the transition when its total is strictly longer than the
   * animation's and the animation in every other case.
   */
  function GetSniffedCssInfo(requested: Option<Mechanism>, style: ComputedStyle): (info: SniffedInfo)
    ensures requested.Some? ==> info.kind == requested.value
    ensures info.duration == MechanismTotal(style, info.kind)
    ensures info.numDurations == MechanismCount(style, info.kind) && info.numDurations >= 1
  {
    var animation := TotalDuration(style.animationDuration, style.animationDelay);
    var transition := TotalDuration(style.transitionDuration, style.transitionDelay);
    var longest := if Longer(transition, animation) then Transition else Animation;
    var kind := if requested.Some? then requested.value else longest;
    SniffedInfo(kind, if kind == Transition then transition else animation,
      if kind == Transition then |Split(style.transitionDuration)| else |Split(style.animationDuration)|)
  }

  /**
   * Without a requested mechanism the transition wins exactly when its total
   * is strictly the longer one: a tie, or a `NaN` on either side, goes to the
   * animation.
   */
  lemma {:induction false} SniffedChoice(style: ComputedStyle)
    ensures var info := GetSniffedCssInfo(None, style);
      var a, t := MechanismTotal(style, Animation), MechanismTotal(style, Transition);
      && (info.kind == Transition <==> (a.Some? && t.Some? && t.value > a.value))
      && (a == t ==> info.kind == Animation)
      && (info.duration.Some? && MechanismTotal(style, Transition).Some? ==> MechanismTotal(style, Transition).value <= info.duration.value)
      && (info.duration.Some? && MechanismTotal(style, Animation).Some? ==> MechanismTotal(style, Animation).value <= info.duration.value)
  {
  }
}
