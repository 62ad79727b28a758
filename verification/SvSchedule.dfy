/**
 When each frame leaves and what it carries: the deadline loop, the periodic faults and the
 playbacks of `sv_publisher.py` and of the native engine. All of it is floor and modulo
 arithmetic on absolute sample numbers, second * rate + smpCnt.
 */
module SvSchedule {
  import opened Modulo
  import opened Octets
  import opened SvTemplate

  const NS: nat := 1_000_000_000

  // --- the two languages' operators --------------------------------------------------------

  // Python's `%`: floored.
  function FloorDiv(a: int, b: int): int
    requires b > 0
  {
    if a >= 0 then a / b else -((-a + b - 1) / b)
  }

  function FloorMod(a: int, b: int): int
    requires b > 0
  {
    a - b * FloorDiv(a, b)
  }

  // Rust's `%` truncates; `rem_euclid` mends its sign.
  function TruncRem(a: int, b: int): int
    requires b > 0
  {
    if a >= 0 then a % b else -((-a) % b)
  }

  function RemEuclid(a: int, b: int): int
    requires b > 0
  {
    var r := TruncRem(a, b);
    if r < 0 then r + b else r
  }

  // On a positive divisor the three agree, for any dividend.
  lemma RemaindersAgree(a: int, b: int)
    requires b > 0
    ensures FloorMod(a, b) == RemEuclid(a, b) == a % b && FloorDiv(a, b) == a / b
  {
    assert a == b * (a / b) + a % b;
    if a < 0 {
      Negative(a, b);
      RoundedUp(a, b);
    }
  }

  // The quotient and remainder of a negative number, from those of its opposite.
  lemma Negative(a: int, b: int)
    requires b > 0 && a < 0
    ensures a % b == if (-a) % b == 0 then 0 else b - (-a) % b
    ensures a / b == if (-a) % b == 0 then -((-a) / b) else -((-a) / b) - 1
  {
    var q, r := (-a) / b, (-a) % b;
    assert -a == b * q + r;
    if r == 0 {
      assert b * (-q) == -(b * q);
      RemainderIsUnique(a, b, -q, 0);
    } else {
      assert b * (-q - 1) == -(b * q) - b;
      RemainderIsUnique(a, b, -q - 1, b - r);
    }
  }

  lemma RoundedUp(a: int, b: int)
    requires b > 0 && a < 0
    ensures (-a + b - 1) / b == if (-a) % b == 0 then (-a) / b else (-a) / b + 1
  {
    var q, r := (-a) / b, (-a) % b;
    assert -a == b * q + r;
    if r == 0 {
      RemainderIsUnique(-a + b - 1, b, q, b - 1);
    } else {
      assert b * (q + 1) == b * q + b;
      RemainderIsUnique(-a + b - 1, b, q + 1, r - 1);
    }
  }

  // --- faults ------------------------------------------------------------------------------

  // A periodic fault; its duration is a number of samples, None for half the cycle.
  datatype Fault = Fault(cycleS: int, offsetS: int, startSmp: int, duration: Option<int>)

  function Clamp(x: int, lo: int, hi: int): int {
    if x < lo then lo else if x > hi then hi else x
  }

  function Period(f: Fault, rate: nat): (p: nat)
    requires rate > 0
    ensures p > 0
  {
    var cycle := if f.cycleS > 1 then f.cycleS else 1;
    assert cycle * rate >= 1;
    cycle * rate
  }

  function FaultLength(f: Fault, rate: nat): (n: nat)
    requires rate > 0
    ensures n <= Period(f, rate)
  {
    match f.duration
    case None => Period(f, rate) / 2
    case Some(d) => Clamp(d, 0, Period(f, rate))
  }

  // `Fault.active` of the Python engine.
  predicate Active(f: Fault, second: int, smp: int, rate: nat)
    requires rate > 0
  {
    var cycle := if f.cycleS > 1 then f.cycleS else 1;
    var start := FloorMod(f.offsetS, cycle) * rate + Min(if f.startSmp > 0 then f.startSmp else 0, rate - 1);
    FloorMod(second * rate + smp - start, Period(f, rate)) < FaultLength(f, rate)
  }

  // `Fault::active` of the native engine.
  predicate NativeActive(f: Fault, second: int, smp: int, rate: nat)
    requires rate > 0
  {
    var cycle := if f.cycleS > 1 then f.cycleS else 1;
    var start := RemEuclid(f.offsetS, cycle) * rate + Clamp(f.startSmp, 0, rate - 1);
    RemEuclid(second * rate + smp - start, Period(f, rate)) < FaultLength(f, rate)
  }

  // The sample of the cycle at which the fault starts.
  function FaultStart(f: Fault, rate: nat): int
    requires rate > 0
  {
    var cycle := if f.cycleS > 1 then f.cycleS else 1;
    (f.offsetS % cycle) * rate + Clamp(f.startSmp, 0, rate - 1)
  }

  predicate ActiveAt(f: Fault, rate: nat, sample: int)
    requires rate > 0
  {
    (sample - FaultStart(f, rate)) % Period(f, rate) < FaultLength(f, rate)
  }

  // Both engines ask the same question, about the absolute sample number alone.
  lemma EnginesAgreeOnFaults(f: Fault, second: int, smp: int, rate: nat)
    requires rate > 0
    ensures Active(f, second, smp, rate) == NativeActive(f, second, smp, rate) == ActiveAt(f, rate, second * rate + smp)
  {
    var cycle := if f.cycleS > 1 then f.cycleS else 1;
    RemaindersAgree(f.offsetS, cycle);
    RemaindersAgree(second * rate + smp - FaultStart(f, rate), Period(f, rate));
  }

  // The samples in the fault among the `n` from `from` on.
  function ActiveCount(f: Fault, rate: nat, from: int, n: nat): (c: nat)
    requires rate > 0
    ensures c <= n
  {
    if n == 0 then 0 else ActiveCount(f, rate, from, n - 1) + (if ActiveAt(f, rate, from + n - 1) then 1 else 0)
  }

  lemma {:induction false} CountAfterFirst(f: Fault, rate: nat, from: int, n: nat)
    requires rate > 0 && n > 0
    ensures ActiveCount(f, rate, from, n) == (if ActiveAt(f, rate, from) then 1 else 0) + ActiveCount(f, rate, from + 1, n - 1)
  {
    hide ActiveAt;
    if n > 1 {
      CountAfterFirst(f, rate, from, n - 1);
    }
  }

  lemma {:induction false} CountFromStart(f: Fault, rate: nat, n: nat)
    requires rate > 0 && n <= Period(f, rate)
    ensures ActiveCount(f, rate, FaultStart(f, rate), n) == Min(n, FaultLength(f, rate))
  {
    hide FaultStart, FaultLength, Period;
    if n > 0 {
      CountFromStart(f, rate, n - 1);
      RemainderIsUnique(n - 1, Period(f, rate), 0, n - 1);
    }
  }

  // Sliding the window by one drops a sample and takes in the one a period later.
  lemma OneLater(f: Fault, rate: nat, from: int)
    requires rate > 0
    ensures ActiveCount(f, rate, from, Period(f, rate)) == ActiveCount(f, rate, from + 1, Period(f, rate))
  {
    hide FaultStart, FaultLength, Period;
    var p := Period(f, rate);
    CountAfterFirst(f, rate, from, p);
    Shifted(from - FaultStart(f, rate), p, 1);
    assert from + p - FaultStart(f, rate) == (from - FaultStart(f, rate)) + 1 * p;
  }

  // Any `period` consecutive samples hold exactly `length` samples in the fault, wherever
  // they start.
  lemma {:induction false} FaultHasItsLength(f: Fault, rate: nat, from: int)
    requires rate > 0
    ensures ActiveCount(f, rate, from, Period(f, rate)) == FaultLength(f, rate)
    decreases if from < FaultStart(f, rate) then FaultStart(f, rate) - from else from - FaultStart(f, rate)
  {
    hide FaultLength, Period, ActiveCount;
    if from < FaultStart(f, rate) {
      FaultHasItsLength(f, rate, from + 1);
      OneLater(f, rate, from);
    } else if from > FaultStart(f, rate) {
      FaultHasItsLength(f, rate, from - 1);
      OneLater(f, rate, from - 1);
    } else {
      CountFromStart(f, rate, Period(f, rate));
    }
  }

  // The fault begins at its offset in seconds and its sample, within the second, and again
  // every cycle, before and after: those samples and the ones that follow them for its length
  // are in it, and no others.
  lemma FaultIsOn(f: Fault, rate: nat, sample: int)
    requires rate > 0
    ensures ActiveAt(f, rate, sample) <==>
              exists k: int :: 0 <= sample - FaultBegins(f, rate, k) < FaultLength(f, rate)
  {
    hide FaultLength, FaultStart, Period, FaultBegins;
    var p, n := Period(f, rate), FaultLength(f, rate);
    var d := sample - FaultStart(f, rate);
    var q := FaultCycles(f);
    if ActiveAt(f, rate, sample) {
      InSomeTurn(d, p, n);
      FromStart(f, rate, d / p - q);
      assert 0 <= sample - FaultBegins(f, rate, d / p - q) < n;
    }
    if k: int :| 0 <= sample - FaultBegins(f, rate, k) < n {
      FromStart(f, rate, k);
      InTurn(d, p, n, k + q);
    }
  }

  lemma InSomeTurn(d: int, p: nat, n: nat)
    requires p > 0 && d % p < n
    ensures 0 <= d - (d / p) * p < n
  {
    assert d == p * (d / p) + d % p;
  }

  lemma InTurn(d: int, p: nat, n: nat, k: int)
    requires p > 0 && 0 <= d - k * p < n <= p
    ensures d % p < n
  {
    RemainderIsUnique(d, p, k, d - k * p);
  }

  // The whole cycles of the offset.
  function FaultCycles(f: Fault): int {
    f.offsetS / (if f.cycleS > 1 then f.cycleS else 1)
  }

  lemma FromStart(f: Fault, rate: nat, k: int)
    requires rate > 0
    ensures FaultBegins(f, rate, k) == FaultStart(f, rate) + (k + FaultCycles(f)) * Period(f, rate)
  {
    CyclesApart(f.offsetS, if f.cycleS > 1 then f.cycleS else 1, rate, k);
  }

  function FaultBegins(f: Fault, rate: nat, k: int): int {
    var cycle := if f.cycleS > 1 then f.cycleS else 1;
    var within := if f.startSmp < 0 then 0 else if f.startSmp >= rate then rate - 1 else f.startSmp;
    (f.offsetS + k * cycle) * rate + within
  }

  lemma CyclesApart(offset: int, cycle: nat, rate: nat, k: int)
    requires cycle > 0
    ensures (offset + k * cycle) * rate == (offset % cycle) * rate + (k + offset / cycle) * (cycle * rate)
  {
    var q, r := offset / cycle, offset % cycle;
    assert offset == cycle * q + r;
    assert offset + k * cycle == r + (k + q) * cycle;
    assert ((k + q) * cycle) * rate == (k + q) * (cycle * rate);
    assert (r + (k + q) * cycle) * rate == r * rate + ((k + q) * cycle) * rate;
  }

  // A fault of no given duration lasts half of the time, to one sample; one of a given duration
  // lasts that many samples of each period, none if it is negative, all of them at most.
  lemma FaultLasts(f: Fault, rate: nat, from: int)
    requires rate > 0
    ensures var n := ActiveCount(f, rate, from, Period(f, rate));
            match f.duration
            case None => 0 <= Period(f, rate) - n - n <= 1
            case Some(d) => n == (if d < 0 then 0 else if d > Period(f, rate) then Period(f, rate) else d)
  {
    hide ActiveCount, Period;
    FaultHasItsLength(f, rate, from);
  }

  // --- playbacks ---------------------------------------------------------------------------

  // A recording: its rows of values, and of qualities if it has any; the second and the
  // sample of row 0, and after how many seconds it starts again.
  datatype Playback = Playback(values: seq<seq<Int32>>, qualities: Option<seq<seq<Quality>>>, start: (int, int),
                               repeatS: Option<nat>)

  predicate Rectangular<T>(rows: seq<seq<T>>, width: nat) {
    forall i :: 0 <= i < |rows| ==> |rows[i]| == width
  }

  // What the constructor of `Playback` accepts.
  predicate TypedPlayback(p: Playback) {
    && p.values != [] && Rectangular(p.values, |p.values[0]|)
    && (p.qualities.Some? ==> |p.qualities.value| == |p.values| && Rectangular(p.qualities.value, |p.values[0]|))
    && (p.repeatS.Some? ==> p.repeatS.value >= 1)
  }

  // `Playback.index`.
  function Index(p: Playback, second: int, smp: int, rate: nat): Option<nat>
    requires rate > 0 && TypedPlayback(p)
  {
    var i := second * rate + smp - (p.start.0 * rate + p.start.1);
    var j := if p.repeatS.Some? then Wrapped(i, p.repeatS.value, rate) else i;
    if 0 <= j < |p.values| then Some(j) else None
  }

  function Wrapped(i: int, repeatS: nat, rate: nat): int
    requires rate > 0 && repeatS > 0
  {
    assert repeatS * rate > 0;
    FloorMod(i, repeatS * rate)
  }

  // The native engine's copy: rows one after the other, and an absolute start.
  datatype NativePlayback = NativePlayback(values: seq<Int32>, qualities: Option<seq<Quality>>, channels: nat,
                                           start: int, period: Option<nat>)

  function Flatten<T>(rows: seq<seq<T>>): seq<T> {
    if rows == [] then [] else rows[0] + Flatten(rows[1..])
  }

  // `_native_streams`.
  function ToNative(p: Playback, rate: nat): NativePlayback
    requires TypedPlayback(p)
  {
    NativePlayback(Flatten(p.values), match p.qualities case None => None case Some(q) => Some(Flatten(q)),
                   |p.values[0]|, p.start.0 * rate + p.start.1,
                   match p.repeatS case None => None case Some(s) => Some(s * rate))
  }

  // `Playback::index`.
  function NativeIndex(p: NativePlayback, second: int, smp: int, rate: nat): Option<nat>
    requires p.channels > 0 && (p.period.Some? ==> p.period.value > 0)
  {
    var i := second * rate + smp - p.start;
    var j := if p.period.Some? then RemEuclid(i, p.period.value) else i;
    if 0 <= j < |p.values| / p.channels then Some(j) else None
  }

  lemma {:induction false} FlatLength<T>(rows: seq<seq<T>>, width: nat)
    requires Rectangular(rows, width)
    ensures |Flatten(rows)| == |rows| * width
  {
    if rows != [] {
      FlatLength(rows[1..], width);
      assert |rows| * width == width + (|rows| - 1) * width;
    }
  }

  lemma {:induction false} FlatSplit<T>(rows: seq<seq<T>>, i: nat)
    requires i < |rows|
    ensures Flatten(rows) == Flatten(rows[..i]) + rows[i] + Flatten(rows[i + 1..])
  {
    if i == 0 {
      assert rows[..0] == [];
    } else {
      FlatSplit(rows[1..], i - 1);
      assert rows[1..][..i - 1] == rows[..i][1..] && rows[1..][i..] == rows[i + 1..];
    }
  }

  // Row by row, a flat copy holds what the rows hold.
  lemma FlatRow<T>(rows: seq<seq<T>>, width: nat, i: nat, ch: nat)
    requires Rectangular(rows, width) && i < |rows| && ch < width
    ensures 0 <= i * width && i * width + ch < |Flatten(rows)| && Flatten(rows)[i * width + ch] == rows[i][ch]
  {
    hide Flatten;
    FlatSplit(rows, i);
    FlatLength(rows[..i], width);
  }

  // Both engines play the same row at the same sample, channel by channel.
  lemma EnginesPlayTheSame(p: Playback, second: int, smp: int, rate: nat, ch: nat)
    requires rate > 0 && TypedPlayback(p) && ch < |p.values[0]|
    ensures p.repeatS.Some? ==> p.repeatS.value * rate > 0
    ensures var i := Index(p, second, smp, rate);
            var native := ToNative(p, rate);
            && i == NativeIndex(native, second, smp, rate)
            && (i.Some? ==>
                  var at := i.value * native.channels + ch;
                  && at < |native.values| && native.values[at] == p.values[i.value][ch]
                  && (p.qualities.Some? ==> at < |native.qualities.value|
                                            && native.qualities.value[at] == p.qualities.value[i.value][ch]))
  {
    hide Flatten;
    var native := ToNative(p, rate);
    var width := native.channels;
    FlatLength(p.values, width);
    RemainderIsUnique(|p.values| * width, width, |p.values|, 0);
    if p.repeatS.Some? {
      assert p.repeatS.value * rate > 0;
      RemaindersAgree(second * rate + smp - native.start, p.repeatS.value * rate);
    }
    var i := Index(p, second, smp, rate);
    if i.Some? {
      FlatRow(p.values, width, i.value, ch);
      if p.qualities.Some? {
        FlatRow(p.qualities.value, width, i.value, ch);
      }
    }
  }

  // Row `i` is played at exactly these samples: `i` after the start, and whole repetitions
  // before or after that.
  lemma RowIsPlayed(p: Playback, second: int, smp: int, rate: nat, i: nat)
    requires rate > 0 && TypedPlayback(p) && i < |p.values|
    ensures var sample := second * rate + smp;
            var first := p.start.0 * rate + p.start.1 + i;
            Index(p, second, smp, rate) == Some(i)
            <==> match p.repeatS
                 case None => sample == first
                 case Some(s) => i < s * rate && (sample - first) % (s * rate) == 0
  {
    if p.repeatS.Some? {
      var period := p.repeatS.value * rate;
      assert period > 0;
      var d := second * rate + smp - (p.start.0 * rate + p.start.1);
      RemaindersAgree(d, period);
      assert d == period * (d / period) + d % period;
      if d % period == i {
        assert period * (d / period) == d - i;
        RemainderIsUnique(d - i, period, d / period, 0);
      }
      if i < period && (d - i) % period == 0 {
        assert d == period * ((d - i) / period) + i;
        RemainderIsUnique(d, period, (d - i) / period, i);
      }
    }
  }

  // --- what a stream sends -----------------------------------------------------------------

  // A stream's waves, those of its fault, and its recording. The waves are any functions of
  // the second and the sample.
  datatype Signals = Signals(waves: Source, qualities: seq<Quality>, fault: Option<(Fault, Source)>,
                             playback: Option<Playback>)

  // What `build_template` checks of the channels.
  ghost predicate SameChannels(g: Signals, channels: nat) {
    && Channels(g.waves, channels) && |g.qualities| == channels
    && (g.fault.Some? ==> Channels(g.fault.value.1, channels))
    && (g.playback.Some? ==> TypedPlayback(g.playback.value) && |g.playback.value.values[0]| == channels)
  }

  function WithQuality(row: seq<Int32>, qualities: seq<Quality>): (r: seq<(Int32, Quality)>)
    requires |row| == |qualities|
    ensures |r| == |row|
  {
    seq(|row|, i requires 0 <= i < |row| => (row[i], qualities[i]))
  }

  // `_samples`: the recording, else the fault, else the waves.
  ghost function Samples(g: Signals, channels: nat, second: int, smp: nat, rate: nat): (r: seq<(Int32, Quality)>)
    requires rate > 0 && SameChannels(g, channels)
    ensures |r| == channels
  {
    var played := if g.playback.Some? then Index(g.playback.value, second, smp, rate) else None;
    if played.Some? then
      var p := g.playback.value;
      WithQuality(p.values[played.value], if p.qualities.Some? then p.qualities.value[played.value] else g.qualities)
    else if g.fault.Some? && Active(g.fault.value.0, second, smp, rate) then g.fault.value.1(second, smp)
    else g.waves(second, smp)
  }

  // Row `i` of the recording belongs to this sample: `i` after its start, or whole repetitions
  // before or after that.
  predicate Plays(p: Playback, second: int, smp: int, rate: nat, i: nat)
    requires TypedPlayback(p)
  {
    var after := second * rate + smp - (p.start.0 * rate + p.start.1) - i;
    i < |p.values| && match p.repeatS
                      case None => after == 0
                      case Some(s) => i < s * rate && s * rate > 0 && after % (s * rate) == 0
  }

  // What is sent: the row of the recording for that sample, with its qualities or else the
  // stream's; when there is none, the fault's wave while it is on; else the stream's.
  lemma WhatIsSent(g: Signals, channels: nat, second: int, smp: nat, rate: nat)
    requires rate > 0 && SameChannels(g, channels)
    ensures var sent := Samples(g, channels, second, smp, rate);
            && (forall i: nat :: g.playback.Some? && Plays(g.playback.value, second, smp, rate, i) ==>
                  forall ch :: 0 <= ch < channels ==>
                    var p := g.playback.value;
                    && sent[ch].0 == p.values[i][ch]
                    && sent[ch].1 == (if p.qualities.Some? then p.qualities.value[i][ch] else g.qualities[ch]))
            && ((forall i: nat :: !(g.playback.Some? && Plays(g.playback.value, second, smp, rate, i))) ==>
                  sent == if g.fault.Some? && ActiveAt(g.fault.value.0, rate, second * rate + smp)
                          then g.fault.value.1(second, smp) else g.waves(second, smp))
  {
    hide Active, ActiveAt, Index;
    if g.fault.Some? {
      EnginesAgreeOnFaults(g.fault.value.0, second, smp, rate);
    }
    if g.playback.Some? {
      var p := g.playback.value;
      forall i: nat
        ensures Plays(p, second, smp, rate, i) <==> Index(p, second, smp, rate) == Some(i)
      {
        PlaysRow(p, second, smp, rate, i);
      }
    }
  }

  lemma PlaysRow(p: Playback, second: int, smp: int, rate: nat, i: nat)
    requires rate > 0 && TypedPlayback(p)
    ensures Plays(p, second, smp, rate, i) <==> Index(p, second, smp, rate) == Some(i)
  {
    if i < |p.values| {
      RowIsPlayed(p, second, smp, rate, i);
    }
  }

  // --- the deadline loop -------------------------------------------------------------------

  // One frame: when it is due, and the second and first sample it is rendered for.
  datatype Due = Due(target: int, second: int, first: nat)

  function DueAt(start: int, rate: nat, asdus: nat, k: nat): Due
    requires asdus > 0 && rate >= asdus
  {
    var perSecond := rate / asdus;
    assert perSecond >= 1 by { Quotient(rate, asdus); }
    var second, index := start + k / perSecond, k % perSecond;
    Due(second * NS + index * asdus * NS / rate, second, index * asdus)
  }

  lemma Quotient(rate: nat, asdus: nat)
    requires asdus > 0 && rate >= asdus
    ensures rate / asdus >= 1
  {
    assert rate == asdus * (rate / asdus) + rate % asdus;
  }

  // The absolute number of a frame's first sample.
  function FirstSample(start: int, rate: nat, asdus: nat, k: nat): int {
    start * rate + k * asdus
  }

  // Frame `k` carries the `asdus` samples after those of frame `k - 1`, all in one second.
  lemma FrameCarries(start: int, rate: nat, asdus: nat, k: nat)
    requires asdus > 0 && rate >= asdus && rate % asdus == 0
    ensures var due := DueAt(start, rate, asdus, k);
            && due.second * rate + due.first == FirstSample(start, rate, asdus, k)
            && due.first + asdus <= rate
  {
    var perSecond := rate / asdus;
    Quotient(rate, asdus);
    var q, index := k / perSecond, k % perSecond;
    assert rate == asdus * perSecond;
    assert k == perSecond * q + index;
    Regroup(start, perSecond, asdus, q, index);
  }

  lemma Regroup(start: int, perSecond: nat, asdus: nat, q: nat, index: nat)
    requires index < perSecond
    ensures (start + q) * (asdus * perSecond) + index * asdus == start * (asdus * perSecond) + (perSecond * q + index) * asdus
    ensures index * asdus + asdus <= asdus * perSecond
  {
    var rate, left := asdus * perSecond, perSecond - index - 1;
    assert (start + q) * rate == start * rate + q * rate;
    assert (perSecond * q + index) * asdus == (perSecond * q) * asdus + index * asdus;
    Associate(asdus, perSecond, q);
    assert perSecond == index + 1 + left;
    assert asdus * (index + 1 + left) == asdus * index + asdus + asdus * left;
  }

  lemma Associate(x: int, y: int, z: int)
    ensures (y * z) * x == z * (x * y)
  {
    assert (y * z) * x == (z * y) * x;
    assert (z * y) * x == z * (y * x);
  }

  // The deadline of a frame is the floor of the exact time of its first sample: rounding
  // never accumulates.
  lemma DeadlineIsExact(start: int, rate: nat, asdus: nat, k: nat)
    requires asdus > 0 && rate >= asdus && rate % asdus == 0
    ensures DueAt(start, rate, asdus, k).target == FirstSample(start, rate, asdus, k) * NS / rate
    ensures 0 <= FirstSample(start, rate, asdus, k) * NS - DueAt(start, rate, asdus, k).target * rate < rate
  {
    var due := DueAt(start, rate, asdus, k);
    var exact := FirstSample(start, rate, asdus, k) * NS;
    FrameCarries(start, rate, asdus, k);
    assert exact == due.first * NS + (due.second * NS) * rate;
    Shifted(due.first * NS, rate, due.second * NS);
    assert exact == rate * (exact / rate) + exact % rate;
  }

  lemma FloorStep(a: int, d: nat, rate: nat)
    requires rate > 0
    ensures (a + d) / rate - a / rate == d / rate || (a + d) / rate - a / rate == d / rate + 1
  {
    var q, r := a / rate + d / rate, a % rate + d % rate;
    assert a == rate * (a / rate) + a % rate && d == rate * (d / rate) + d % rate;
    assert rate * q == rate * (a / rate) + rate * (d / rate);
    if r < rate {
      RemainderIsUnique(a + d, rate, q, r);
    } else {
      assert rate * (q + 1) == rate * q + rate;
      RemainderIsUnique(a + d, rate, q + 1, r - rate);
    }
  }

  // Consecutive deadlines are one period apart, give or take a nanosecond.
  lemma DeadlinesAreEven(start: int, rate: nat, asdus: nat, k: nat)
    requires asdus > 0 && rate >= asdus && rate % asdus == 0
    ensures var step := DueAt(start, rate, asdus, k + 1).target - DueAt(start, rate, asdus, k).target;
            step == NS * asdus / rate || step == NS * asdus / rate + 1
  {
    DeadlineIsExact(start, rate, asdus, k);
    DeadlineIsExact(start, rate, asdus, k + 1);
    var a := FirstSample(start, rate, asdus, k) * NS;
    assert (k + 1) * asdus == k * asdus + asdus;
    assert FirstSample(start, rate, asdus, k + 1) * NS == a + NS * asdus;
    FloorStep(a, NS * asdus, rate);
  }

  // The absolute samples of a frame, as `render_frame` numbers them.
  function Carried(due: Due, rate: nat, asdus: nat): (r: seq<int>)
    requires rate > 0
    ensures |r| == asdus
  {
    seq(asdus, i requires 0 <= i < asdus => (due.second + (due.first + i) / rate) * rate + (due.first + i) % rate)
  }

  function Range(from: int, n: nat): (r: seq<int>)
    ensures |r| == n
  {
    seq(n, i requires 0 <= i < n => from + i)
  }

  lemma CarriedInOrder(start: int, rate: nat, asdus: nat, k: nat)
    requires asdus > 0 && rate >= asdus && rate % asdus == 0
    ensures Carried(DueAt(start, rate, asdus, k), rate, asdus) == Range(FirstSample(start, rate, asdus, k), asdus)
  {
    var due := DueAt(start, rate, asdus, k);
    FrameCarries(start, rate, asdus, k);
    forall i | 0 <= i < asdus
      ensures Carried(due, rate, asdus)[i] == FirstSample(start, rate, asdus, k) + i
    {
      RemainderIsUnique(due.first + i, rate, 0, due.first + i);
    }
  }

  // What sending a frame gave for each stream, and the time it was sent at.
  datatype Send = Send(now: int, sent: seq<bool>)

  datatype Stats = Stats(framesSent: nat, sendErrors: nat, lateFrames: nat, maxLateness: int)

  function Successes(sent: seq<bool>): (n: nat)
    ensures n <= |sent|
  {
    if sent == [] then 0 else Successes(sent[1..]) + (if sent[0] then 1 else 0)
  }

  method CountSends(sent: seq<bool>) returns (ok: nat, errors: nat)
    ensures ok == Successes(sent) && ok + errors == |sent|
  {
    ok, errors := 0, 0;
    for i := 0 to |sent|
      invariant ok + Successes(sent[i..]) == Successes(sent) && ok + errors == i
    {
      assert sent[i..][1..] == sent[i + 1..];
      if sent[i] {
        ok := ok + 1;
      } else {
        errors := errors + 1;
      }
    }
  }

  // Frames later than a frame period, and the worst lateness, over a run.
  ghost function LateFrames(start: int, rate: nat, asdus: nat, sends: seq<Send>, n: nat): nat
    requires asdus > 0 && rate >= asdus && n <= |sends|
  {
    if n == 0 then 0
    else LateFrames(start, rate, asdus, sends, n - 1)
         + (if sends[n - 1].now - DueAt(start, rate, asdus, n - 1).target > NS * asdus / rate
            then Successes(sends[n - 1].sent) else 0)
  }

  ghost predicate WorstLateness(worst: int, start: int, rate: nat, asdus: nat, sends: seq<Send>)
    requires asdus > 0 && rate >= asdus
  {
    && worst >= 0
    && (forall k :: 0 <= k < |sends| ==> sends[k].now - DueAt(start, rate, asdus, k).target <= worst)
    && (worst == 0 || exists k :: 0 <= k < |sends| && sends[k].now - DueAt(start, rate, asdus, k).target == worst)
  }

  // `_run`, until the publisher is stopped, which ends it before a send: each turn of the
  // loop sends one frame of every stream.
  method Run(start: int, rate: nat, asdus: nat, streams: nat, sends: seq<Send>)
    returns (dues: seq<Due>, stats: Stats)
    requires asdus > 0 && rate >= asdus && rate % asdus == 0
    requires forall k :: 0 <= k < |sends| ==> |sends[k].sent| == streams
    ensures |dues| == |sends|
    ensures forall k :: 0 <= k < |dues| ==> dues[k] == DueAt(start, rate, asdus, k)
    ensures AllCarried(dues, rate, asdus) == Range(start * rate, |dues| * asdus)
    ensures stats.framesSent + stats.sendErrors == |sends| * streams
    ensures stats.lateFrames == LateFrames(start, rate, asdus, sends, |sends|) <= stats.framesSent
    ensures WorstLateness(stats.maxLateness, start, rate, asdus, sends)
  {
    dues, stats := [], Stats(0, 0, 0, 0);
    Quotient(rate, asdus);
    var perSecond := rate / asdus;
    var period := NS * asdus / rate;
    var k := 0;
    while k < |sends|
      invariant k == |dues| <= |sends|
      invariant forall i :: 0 <= i < k ==> dues[i] == DueAt(start, rate, asdus, i)
      invariant Accounted(stats, start, rate, asdus, streams, sends, k)
    {
      var due := NextDue(start, rate, asdus, perSecond, k);
      var lateness := sends[k].now - due.target;
      var ok, errors := CountSends(sends[k].sent);
      dues := dues + [due];
      AccountedStep(stats, start, rate, asdus, streams, sends, k, ok, errors);
      stats := Stats(stats.framesSent + ok, stats.sendErrors + errors,
                     if lateness > period then stats.lateFrames + ok else stats.lateFrames,
                     if lateness > stats.maxLateness then lateness else stats.maxLateness);
      k := k + 1;
    }
    assert sends[..|sends|] == sends;
    EachSampleOnce(start, rate, asdus, dues);
  }

  // What the loop computes for frame `k`.
  method NextDue(start: int, rate: nat, asdus: nat, perSecond: nat, k: nat) returns (due: Due)
    requires asdus > 0 && rate >= asdus && perSecond == rate / asdus && perSecond > 0
    ensures due == DueAt(start, rate, asdus, k)
  {
    var second, index := start + k / perSecond, k % perSecond;
    var target := second * NS + index * asdus * NS / rate;
    return Due(target, second, index * asdus);
  }

  ghost predicate Accounted(stats: Stats, start: int, rate: nat, asdus: nat, streams: nat, sends: seq<Send>, k: nat)
    requires asdus > 0 && rate >= asdus && k <= |sends|
  {
    && stats.framesSent + stats.sendErrors == k * streams
    && stats.lateFrames == LateFrames(start, rate, asdus, sends, k) <= stats.framesSent
    && WorstLateness(stats.maxLateness, start, rate, asdus, sends[..k])
  }

  lemma AccountedStep(stats: Stats, start: int, rate: nat, asdus: nat, streams: nat, sends: seq<Send>, k: nat,
                      ok: nat, errors: nat)
    requires asdus > 0 && rate >= asdus && k < |sends| && |sends[k].sent| == streams
    requires Accounted(stats, start, rate, asdus, streams, sends, k)
    requires ok == Successes(sends[k].sent) && ok + errors == streams
    ensures var lateness := sends[k].now - DueAt(start, rate, asdus, k).target;
            Accounted(Stats(stats.framesSent + ok, stats.sendErrors + errors,
                            if lateness > NS * asdus / rate then stats.lateFrames + ok else stats.lateFrames,
                            if lateness > stats.maxLateness then lateness else stats.maxLateness),
                      start, rate, asdus, streams, sends, k + 1)
  {
    hide DueAt, WorstLateness;
    WorstStep(stats.maxLateness, start, rate, asdus, sends, k);
    assert (k + 1) * streams == k * streams + streams;
  }

  lemma WorstStep(worst: int, start: int, rate: nat, asdus: nat, sends: seq<Send>, k: nat)
    requires asdus > 0 && rate >= asdus && k < |sends|
    requires WorstLateness(worst, start, rate, asdus, sends[..k])
    ensures var lateness := sends[k].now - DueAt(start, rate, asdus, k).target;
            WorstLateness(if lateness > worst then lateness else worst, start, rate, asdus, sends[..k + 1])
  {
    hide DueAt;
    var lateness := sends[k].now - DueAt(start, rate, asdus, k).target;
    var longer := sends[..k + 1];
    assert longer[..k] == sends[..k] && longer[k] == sends[k];
    if lateness <= worst && worst != 0 {
      var j :| 0 <= j < k && sends[..k][j].now - DueAt(start, rate, asdus, j).target == worst;
      assert longer[j].now - DueAt(start, rate, asdus, j).target == worst;
    }
  }

  function AllCarried(dues: seq<Due>, rate: nat, asdus: nat): seq<int>
    requires rate > 0
  {
    if dues == [] then [] else AllCarried(dues[..|dues| - 1], rate, asdus) + Carried(dues[|dues| - 1], rate, asdus)
  }

  // Over a whole run, every absolute sample from the start second on goes out exactly once,
  // in order.
  lemma {:induction false} EachSampleOnce(start: int, rate: nat, asdus: nat, dues: seq<Due>)
    requires asdus > 0 && rate >= asdus && rate % asdus == 0
    requires forall k :: 0 <= k < |dues| ==> dues[k] == DueAt(start, rate, asdus, k)
    ensures AllCarried(dues, rate, asdus) == Range(start * rate, |dues| * asdus)
  {
    hide DueAt, Carried;
    if dues == [] {
      assert 0 * asdus == 0;
    } else {
      var n := |dues| - 1;
      EachSampleOnce(start, rate, asdus, dues[..n]);
      CarriedInOrder(start, rate, asdus, n);
      assert (n + 1) * asdus == n * asdus + asdus;
      assert Range(start * rate, n * asdus) + Range(start * rate + n * asdus, asdus) == Range(start * rate, n * asdus + asdus);
    }
  }
}
