/**
 Supervision of Sampled Values streams (`supervision.py`): smpCnt followed modulo the value it
 wraps at, which is given, announced by the stream, or learnt.
 */
module SvSupervision {
  import opened Modulo
  import opened Octets
  import opened Sv
  import opened Supervision

  const PER_SECOND: nat := 1

  // What the supervisor knows of one svID.
  datatype SvState = SvState(lastSeen: int, smpCnt: nat, confRev: nat, smpSynch: nat, datSet: Option<Bytes>,
                             samples: nat, missed: nat, maxSeen: nat, wrapped: bool, timedOut: bool, recent: seq<nat>)

  predicate Announces(a: Asdu) {
    a.smpRate.Some? && a.smpRate.value > 0 && a.smpMod == Some(PER_SECOND)
  }

  // `wrap`: the rate given for the stream, or its smpRate, or what was learnt.
  function Wrap(rate: nat, s: SvState, a: Asdu): Option<nat> {
    if rate > 0 then Some(rate)
    else if Announces(a) then a.smpRate
    else if s.wrapped then Some(s.maxSeen + 1)
    else None
  }

  // The first wrap of a stream of unknown rate: the highest count seen gives it.
  function Learnt(rate: nat, s: SvState, a: Asdu): (SvState, Option<nat>) {
    var wrap := Wrap(rate, s, a);
    if wrap.None? && s.smpCnt - a.smpCnt > REORDER_WINDOW then (s.(wrapped := true), Some(s.maxSeen + 1)) else (s, wrap)
  }

  // How far the count moved, signed: half the wrap ahead or more is taken as behind.
  function Ahead(wrap: Option<nat>, prev: nat, cnt: nat): int {
    if wrap.Some? && prev < wrap.value && cnt < wrap.value then
      var d := (cnt - prev) % wrap.value;
      if d >= wrap.value / 2 then d - wrap.value else d
    else cnt - prev
  }

  function LateSv(s: SvState, cnt: nat): (SvState, seq<Event>) {
    if cnt in s.recent then (s, [Event(Duplicate, 0)])
    else (s.(recent := Pushed(s.recent, cnt), missed := if s.missed > 0 then s.missed - 1 else 0), [Event(OutOfOrder, 0)])
  }

  // `_follow`.
  function Follow(rate: nat, s: SvState, a: Asdu): (SvState, bool, seq<Event>) {
    var (t, wrap) := Learnt(rate, s, a);
    var ahead := Ahead(wrap, s.smpCnt, a.smpCnt);
    if ahead <= 0 && -ahead <= REORDER_WINDOW then
      var (late, events) := LateSv(t, a.smpCnt);
      (late, false, events)
    else if ahead <= 0 then (t.(recent := []), true, [Event(Restart, 0)])
    else if ahead > 1 then (t.(missed := t.missed + (ahead - 1)), true, [Event(Gap, ahead - 1)])
    else (t, true, [])
  }

  // `_feed_asdu`, for the stream of the ASDU.
  function FeedAsdu(rate: nat, known: Option<SvState>, a: Asdu, now: int): (SvState, seq<Event>) {
    match known
    case None =>
      (SvState(now, a.smpCnt, a.confRev, a.smpSynch, a.datSet, 1, 0, a.smpCnt, false, false, [a.smpCnt]),
       [Event(NewStream, 0)])
    case Some(s) =>
      var before := EventIf(s.timedOut, Resumed)
                    + EventIf(a.confRev != s.confRev || a.datSet != s.datSet, ConfigChanged)
                    + EventIf(a.smpSynch != s.smpSynch, SynchChanged);
      var (t, accept, events) :=
        Follow(rate, s.(timedOut := false, confRev := a.confRev, datSet := a.datSet, smpSynch := a.smpSynch), a);
      var u := t.(samples := t.samples + 1, lastSeen := now);
      (if accept then u.(smpCnt := a.smpCnt, maxSeen := if a.smpCnt > u.maxSeen then a.smpCnt else u.maxSeen,
                         recent := Pushed(u.recent, a.smpCnt)) else u,
       before + events)
  }

  // --- loss accounting ---------------------------------------------------------------------

  // The ASDUs of absolute samples `at`, as a publisher that wraps at `w` numbers them.
  predicate Numbers(asdus: seq<Asdu>, at: seq<int>, w: nat) {
    |asdus| == |at| && w > 0 && forall i :: 0 <= i < |at| ==> asdus[i].smpCnt == at[i] % w
  }

  // Delivered in order, with at most `burst` samples lost in a row.
  predicate InOrder(at: seq<int>, burst: int) {
    forall i {:trigger at[i]} :: 1 <= i < |at| ==> 1 <= at[i] - at[i - 1] <= burst + 1
  }

  function Heard(rate: nat, asdus: seq<Asdu>, times: seq<int>, n: nat): Option<SvState>
    requires n <= |asdus| == |times|
  {
    if n == 0 then None else Some(FeedAsdu(rate, Heard(rate, asdus, times, n - 1), asdus[n - 1], times[n - 1]).0)
  }

  function Reported(rate: nat, asdus: seq<Asdu>, times: seq<int>, n: nat): seq<Event>
    requires n < |asdus| == |times|
  {
    FeedAsdu(rate, Heard(rate, asdus, times, n), asdus[n], times[n]).1
  }

  // An event that takes a sample for one already heard, or for another stream's beginning.
  predicate Misread(events: seq<Event>) {
    Has(events, Restart) || Has(events, Duplicate) || Has(events, OutOfOrder)
  }

  // How far the count moved is how far the samples did, below half the wrap.
  lemma AheadIsDistance(w: nat, a: int, b: int)
    requires w > 0 && b > a
    ensures a % w < w && b % w < w
    ensures b - a < w / 2 ==> Ahead(Some(w), a % w, b % w) == b - a
    ensures b - a == w / 2 ==> Ahead(Some(w), a % w, b % w) == w / 2 - w
  {
    OfDifference(a, b, w);
    if b - a <= w / 2 && b - a < w {
      RemainderIsUnique(b - a, w, 0, b - a);
    }
  }

  // The stream after an accepted sample.
  predicate IsAt(s: SvState, cnt: nat, samples: nat, missed: nat) {
    s.smpCnt == cnt && s.samples == samples && s.missed == missed
  }

  // Nothing is misread among what does not depend on smpCnt.
  lemma BeforeFollow(s: SvState, a: Asdu, events: seq<Event>)
    requires !Misread(events)
    ensures !Misread(EventIf(s.timedOut, Resumed) + EventIf(a.confRev != s.confRev || a.datSet != s.datSet, ConfigChanged)
                     + EventIf(a.smpSynch != s.smpSynch, SynchChanged) + events)
  {
  }

  // A sample `d` after the reference, `d` below half the wrap: `d - 1` are missed.
  lemma FollowsAhead(rate: nat, s: SvState, a: Asdu, d: nat)
    requires Ahead(Learnt(rate, s, a).1, s.smpCnt, a.smpCnt) == d >= 1
    ensures var (t, accept, events) := Follow(rate, s, a);
            && accept && t == s.(missed := s.missed + d - 1, wrapped := t.wrapped)
            && events == (if d > 1 then [Event(Gap, d - 1)] else []) && !Misread(events)
  {
    hide Wrap, Ahead;
  }

  lemma FedAhead(rate: nat, s: SvState, a: Asdu, now: int, d: nat)
    requires Ahead(Learnt(rate, s, a).1, s.smpCnt, a.smpCnt) == d >= 1
    ensures var (t, events) := FeedAsdu(rate, Some(s), a, now);
            && IsAt(t, a.smpCnt, s.samples + 1, s.missed + d - 1) && !Misread(events)
            && t.maxSeen == (if a.smpCnt > s.maxSeen then a.smpCnt else s.maxSeen)
  {
    hide Ahead, Follow, Misread, EventIf;
    var u := s.(timedOut := false, confRev := a.confRev, datSet := a.datSet, smpSynch := a.smpSynch);
    assert Learnt(rate, u, a).1 == Learnt(rate, s, a).1;
    FollowsAhead(rate, u, a, d);
    BeforeFollow(s, a, Follow(rate, u, a).2);
  }

  // The wrap is given to the supervisor, or every ASDU announces it.
  predicate KnownWrap(rate: nat, asdus: seq<Asdu>, w: nat) {
    if rate > 0 then rate == w
    else forall i :: 0 <= i < |asdus| ==> Announces(asdus[i]) && asdus[i].smpRate == Some(w)
  }

  lemma WrapIsKnown(rate: nat, asdus: seq<Asdu>, w: nat, s: SvState, i: nat)
    requires KnownWrap(rate, asdus, w) && i < |asdus|
    ensures Learnt(rate, s, asdus[i]).1 == Some(w)
  {
  }

  // With a known wrap and no burst of losses beyond half of it, what was heard and what was
  // missed add up to the true number of samples, over any number of wraps, and nothing is
  // taken for a restart, a duplicate or a late sample.
  lemma {:induction false} LossesAddUp(rate: nat, w: nat, asdus: seq<Asdu>, times: seq<int>, at: seq<int>, n: nat)
    requires KnownWrap(rate, asdus, w)
    requires Numbers(asdus, at, w) && InOrder(at, w / 2 - 2) && n < |asdus| == |times|
    ensures var s := Heard(rate, asdus, times, n + 1);
            && s.Some? && IsAt(s.value, at[n] % w, n + 1, s.value.missed)
            && s.value.samples + s.value.missed == at[n] - at[0] + 1
    ensures !Misread(Reported(rate, asdus, times, n))
  {
    hide FeedAsdu, Ahead, Misread, Learnt, KnownWrap;
    if n == 0 {
      FirstHeard(rate, asdus[0], times[0]);
    } else {
      LossesAddUp(rate, w, asdus, times, at, n - 1);
      var s := Heard(rate, asdus, times, n).value;
      WrapIsKnown(rate, asdus, w, s, n);
      AheadIsDistance(w, at[n - 1], at[n]);
      FedAhead(rate, s, asdus[n], times[n], at[n] - at[n - 1]);
    }
  }

  lemma FirstHeard(rate: nat, a: Asdu, now: int)
    ensures var (s, events) := FeedAsdu(rate, None, a, now);
            IsAt(s, a.smpCnt, 1, 0) && s.maxSeen == a.smpCnt && !s.wrapped && !Misread(events)
  {
  }

  // The bound on bursts is exact: one sample more, half the wrap ahead, is taken as behind.
  lemma OneMoreIsTooMany(w: nat, s: SvState, a: Asdu, now: int, at: int)
    requires w >= 2 && s.smpCnt == at % w && a.smpCnt == (at + w / 2) % w
    ensures Misread(FeedAsdu(w, Some(s), a, now).1)
  {
    AheadIsDistance(w, at, at + w / 2);
    var u := s.(timedOut := false, confRev := a.confRev, datSet := a.datSet, smpSynch := a.smpSynch);
    assert Ahead(Learnt(w, u, a).1, u.smpCnt, a.smpCnt) == w / 2 - w < 0;
    hide Ahead, Learnt;
    var events := FeedAsdu(w, Some(s), a, now).1;
    assert events[|events| - 1].kind in [Restart, Duplicate, OutOfOrder];
  }

  // --- a wrap that is learnt ---------------------------------------------------------------

  // Nothing says where the counts wrap.
  predicate Unannounced(asdus: seq<Asdu>) {
    forall i :: 0 <= i < |asdus| ==> !Announces(asdus[i])
  }

  // Not beyond the first wrap.
  predicate FirstTurn(at: seq<int>, i: nat, w: nat)
    requires w > 0 && i < |at|
  {
    at[i] / w == at[0] / w
  }

  // The last sample before the first wrap is heard, and the next one lies further below it
  // than what may come late.
  predicate FirstWrapHeard(at: seq<int>, w: nat)
    requires w > 0
  {
    forall i {:trigger at[i]} :: 1 <= i < |at| && FirstTurn(at, i - 1, w) && !FirstTurn(at, i, w) ==>
      at[i - 1] % w == w - 1 && at[i] % w < w - 1 - REORDER_WINDOW
  }

  // What is learnt: the highest count so far and, after the first wrap, the wrap itself.
  predicate Learning(s: SvState, w: nat, first: bool) {
    && s.smpCnt < w && (s.wrapped <==> !first)
    && s.maxSeen == if first then s.smpCnt else w - 1
  }

  lemma WithinTurn(a: int, b: int, w: nat)
    requires w > 0 && b / w == a / w
    ensures b % w == a % w + (b - a)
  {
    assert a == w * (a / w) + a % w && b == w * (b / w) + b % w;
  }

  lemma {:induction false} TurnsGrow(at: seq<int>, burst: int, w: nat, i: nat)
    requires w > 0 && InOrder(at, burst) && i < |at|
    ensures at[0] / w <= at[i] / w
  {
    if i > 0 {
      TurnsGrow(at, burst, w, i - 1);
      QuotientGrows(at[i - 1], at[i], w);
    }
  }

  lemma NextLearnt(s: SvState, a: Asdu, w: nat, at: int, next: int, first: bool, still: bool)
    requires w > 0 && !Announces(a) && Learning(s, w, first) && s.smpCnt == at % w && a.smpCnt == next % w
    requires 1 <= next - at < w / 2 && still == (first && next / w == at / w)
    requires first && !still ==> at % w == w - 1 && next % w < w - 1 - REORDER_WINDOW
    ensures Ahead(Learnt(0, s, a).1, s.smpCnt, a.smpCnt) == next - at
    ensures Learnt(0, s, a).0.wrapped == !still
    ensures a.smpCnt < w && (still ==> a.smpCnt > s.smpCnt)
  {
    AheadIsDistance(w, at, next);
    hide Ahead;
    if still {
      WithinTurn(at, next, w);
      assert Learnt(0, s, a) == (s, None);
      NoWrapAhead(s.smpCnt, a.smpCnt);
    } else {
      assert Learnt(0, s, a).1 == Some(w);
    }
  }

  lemma NoWrapAhead(prev: nat, cnt: nat)
    ensures Ahead(None, prev, cnt) == cnt - prev
  {
  }

  // A stream of unknown rate whose last sample before the first wrap is heard is followed over
  // every wrap, whatever it loses otherwise: at most half the wrap in a row.
  lemma {:induction false} LearntAddsUp(w: nat, asdus: seq<Asdu>, times: seq<int>, at: seq<int>, n: nat)
    requires Unannounced(asdus) && Numbers(asdus, at, w) && InOrder(at, w / 2 - 2) && FirstWrapHeard(at, w)
    requires n < |asdus| == |times|
    ensures var s := Heard(0, asdus, times, n + 1);
            && s.Some? && IsAt(s.value, at[n] % w, n + 1, s.value.missed)
            && s.value.samples + s.value.missed == at[n] - at[0] + 1
            && Learning(s.value, w, FirstTurn(at, n, w))
    ensures !Misread(Reported(0, asdus, times, n))
  {
    hide FeedAsdu, Ahead, Misread, Learnt, FirstTurn;
    assert FirstTurn(at, 0, w) by { SameTurn(at, 0, w); }
    if n == 0 {
      AheadIsDistance(w, at[0], at[0] + 1);
      FirstHeard(0, asdus[0], times[0]);
    } else {
      LearntAddsUp(w, asdus, times, at, n - 1);
      var s := Heard(0, asdus, times, n).value;
      var first, still := FirstTurn(at, n - 1, w), FirstTurn(at, n, w);
      TurnStays(at, w / 2 - 2, w, n);
      NextLearnt(s, asdus[n], w, at[n - 1], at[n], first, still);
      FedAhead(0, s, asdus[n], times[n], at[n] - at[n - 1]);
      FedWrapped(s, asdus[n], times[n], at[n] - at[n - 1]);
    }
  }

  lemma SameTurn(at: seq<int>, i: nat, w: nat)
    requires w > 0 && i < |at|
    ensures FirstTurn(at, i, w) <==> at[i] / w == at[0] / w
  {
  }

  // Once beyond the first turn, always beyond it.
  lemma TurnStays(at: seq<int>, burst: int, w: nat, i: nat)
    requires w > 0 && InOrder(at, burst) && 1 <= i < |at|
    ensures FirstTurn(at, i, w) <==> FirstTurn(at, i - 1, w) && at[i] / w == at[i - 1] / w
  {
    TurnsGrow(at, burst, w, i - 1);
    QuotientGrows(at[i - 1], at[i], w);
  }

  // A stream above 17 samples a turn, heard without loss, is one of those.
  lemma LosslessIsHeard(w: nat, at: seq<int>)
    requires w > REORDER_WINDOW + 1 && InOrder(at, 0)
    ensures InOrder(at, w / 2 - 2) && FirstWrapHeard(at, w)
  {
    forall i | 1 <= i < |at| && FirstTurn(at, i - 1, w) && !FirstTurn(at, i, w)
      ensures at[i - 1] % w == w - 1 && at[i] % w < w - 1 - REORDER_WINDOW
    {
      assert at[i] == at[i - 1] + 1;
      NextCount(at[i - 1], w);
    }
  }

  lemma FedWrapped(s: SvState, a: Asdu, now: int, d: nat)
    requires Ahead(Learnt(0, s, a).1, s.smpCnt, a.smpCnt) == d >= 1
    ensures FeedAsdu(0, Some(s), a, now).0.wrapped == Learnt(0, s, a).0.wrapped
  {
    hide Ahead, EventIf;
  }

  // What is counted for an ASDU whose smpCnt is behind that of the stream, when nothing says
  // where it wraps: late, or a restart, or as if the highest count ended the turn.
  lemma LearntTooEarly(s: SvState, a: Asdu)
    requires !Announces(a) && !s.wrapped && s.maxSeen == s.smpCnt > a.smpCnt
    ensures var (t, accept, events) := Follow(0, s, a);
            if s.smpCnt - a.smpCnt <= REORDER_WINDOW then
              t.missed <= s.missed && |events| == 1 && events[0].kind in [Duplicate, OutOfOrder]
            else
              || (t.missed == s.missed && events == [Event(Restart, 0)])
              || t.missed == s.missed + a.smpCnt
  {
    hide Pushed;
    if s.smpCnt - a.smpCnt > REORDER_WINDOW {
      RemainderIsUnique(a.smpCnt - s.smpCnt, s.smpCnt + 1, -1, a.smpCnt + 1);
    }
  }

  lemma LastIsMisread(s: SvState, a: Asdu, now: int)
    requires var events := Follow(0, s.(timedOut := false, confRev := a.confRev, datSet := a.datSet, smpSynch := a.smpSynch), a).2;
             events != [] && events[|events| - 1].kind in [Restart, Duplicate, OutOfOrder]
    ensures Misread(FeedAsdu(0, Some(s), a, now).1)
  {
    hide Follow;
    var events := FeedAsdu(0, Some(s), a, now).1;
    assert events[|events| - 1].kind in [Restart, Duplicate, OutOfOrder];
  }

  // The condition on the first wrap is exact: there the count is right and nothing is misread
  // if and only if the last sample before the wrap was heard and the next is not taken as late.
  lemma FirstWrapIsExact(s: SvState, a: Asdu, now: int, w: nat, at: int, next: int)
    requires w > 0 && !Announces(a) && Learning(s, w, true) && s.smpCnt == at % w && a.smpCnt == next % w
    requires 1 <= next - at < w / 2 && next / w != at / w
    ensures var (t, events) := FeedAsdu(0, Some(s), a, now);
            (t.samples + t.missed == s.samples + s.missed + (next - at) && !Misread(events))
            <==> at % w == w - 1 && next % w < w - 1 - REORDER_WINDOW
  {
    hide FeedAsdu, Follow, Misread;
    var (t, events) := FeedAsdu(0, Some(s), a, now);
    if at % w == w - 1 && next % w < w - 1 - REORDER_WINDOW {
      NextLearnt(s, a, w, at, next, true, false);
      FedAhead(0, s, a, now, next - at);
    } else {
      IntoNextTurn(at, next, w);
      var u := s.(timedOut := false, confRev := a.confRev, datSet := a.datSet, smpSynch := a.smpSynch);
      LearntTooEarly(u, a);
      FedMissed(s, a, now);
      var followed := Follow(0, u, a).2;
      if followed != [] && followed[|followed| - 1].kind in [Restart, Duplicate, OutOfOrder] {
        LastIsMisread(s, a, now);
      }
    }
  }

  lemma FedMissed(s: SvState, a: Asdu, now: int)
    ensures var u := s.(timedOut := false, confRev := a.confRev, datSet := a.datSet, smpSynch := a.smpSynch);
            var t := FeedAsdu(0, Some(s), a, now).0;
            t.samples == Follow(0, u, a).0.samples + 1 == s.samples + 1 && t.missed == Follow(0, u, a).0.missed
  {
    hide Wrap, Ahead, EventIf, Pushed;
  }

  lemma IntoNextTurn(a: int, b: int, w: nat)
    requires w > 0 && 1 <= b - a < w / 2 && b / w != a / w
    ensures b % w == a % w + (b - a) - w && b % w < a % w
  {
    NextTurn(a, b, w);
    assert a == w * (a / w) + a % w && b == w * (b / w) + b % w;
    assert w * (a / w + 1) == w * (a / w) + w;
  }

  // A wrap of 17 or less is not learnt: it is taken for a duplicate or a late sample.
  lemma ShortWrapIsMisread(s: SvState, a: Asdu, w: nat, now: int)
    requires 1 <= w <= REORDER_WINDOW + 1 && !Announces(a) && !s.wrapped && s.smpCnt == w - 1 && a.smpCnt == 0
    ensures Misread(FeedAsdu(0, Some(s), a, now).1)
  {
    var u := s.(timedOut := false, confRev := a.confRev, datSet := a.datSet, smpSynch := a.smpSynch);
    assert Ahead(Learnt(0, u, a).1, u.smpCnt, 0) == -(w - 1);
    hide Ahead, Learnt;
    var events := FeedAsdu(0, Some(s), a, now).1;
    assert events[|events| - 1].kind in [Duplicate, OutOfOrder];
  }

  // --- the mutable stream ------------------------------------------------------------------

  // What holds of a stream whatever it hears: its counts are bounded by the highest one, and
  // it remembers no more than a late sample can be behind.
  predicate Remembers(s: SvState) {
    s.smpCnt <= s.maxSeen && |s.recent| <= REORDER_WINDOW && s.samples >= 1
  }

  lemma StillRemembers(rate: nat, known: Option<SvState>, a: Asdu, now: int)
    requires known.Some? ==> Remembers(known.value)
    ensures Remembers(FeedAsdu(rate, known, a, now).0)
  {
    hide Wrap, Ahead, EventIf, Pushed;
  }

  class SvStream {
    const rate: nat
    var lastSeen: int
    var smpCnt: nat
    var confRev: nat
    var smpSynch: nat
    var datSet: Option<Bytes>
    var samples: nat
    var missed: nat
    var maxSeen: nat
    var wrapped: bool
    var timedOut: bool
    var recent: seq<nat>

    ghost function Now(): SvState
      reads this
    {
      SvState(lastSeen, smpCnt, confRev, smpSynch, datSet, samples, missed, maxSeen, wrapped, timedOut, recent)
    }

    ghost predicate Valid()
      reads this
    {
      Remembers(Now())
    }

    constructor (given: nat, a: Asdu, now: int)
      ensures rate == given && Now() == FeedAsdu(given, None, a, now).0 && Valid()
    {
      rate, lastSeen, smpCnt, confRev, smpSynch, datSet := given, now, a.smpCnt, a.confRev, a.smpSynch, a.datSet;
      samples, missed, maxSeen, wrapped, timedOut, recent := 1, 0, a.smpCnt, false, false, [a.smpCnt];
    }

    method Push(n: nat)
      modifies `recent
      ensures recent == Pushed(old(recent), n)
    {
      recent := recent + [n];
      if |recent| > REORDER_WINDOW {
        recent := recent[1..];
      }
    }

    method TakeLate(cnt: nat) returns (events: seq<Event>)
      modifies `recent, `missed
      ensures (Now(), events) == LateSv(old(Now()), cnt)
    {
      if cnt in recent {
        return [Event(Duplicate, 0)];
      }
      Push(cnt);
      missed := if missed > 0 then missed - 1 else 0;
      return [Event(OutOfOrder, 0)];
    }

    method FollowCount(a: Asdu) returns (accept: bool, events: seq<Event>)
      modifies `recent, `missed, `wrapped
      ensures (Now(), accept, events) == Follow(rate, old(Now()), a)
    {
      hide LateSv;
      var wrap := if rate > 0 then Some(rate)
                  else if Announces(a) then a.smpRate
                  else if wrapped then Some(maxSeen + 1) else None;
      if wrap.None? && smpCnt - a.smpCnt > REORDER_WINDOW {
        wrapped := true;
        wrap := Some(maxSeen + 1);
      }
      var ahead := Ahead(wrap, smpCnt, a.smpCnt);
      if ahead <= 0 {
        if -ahead <= REORDER_WINDOW {
          events := TakeLate(a.smpCnt);
          return false, events;
        }
        recent := [];
        return true, [Event(Restart, 0)];
      }
      if ahead > 1 {
        missed := missed + (ahead - 1);
        return true, [Event(Gap, ahead - 1)];
      }
      return true, [];
    }

    // The sample becomes the reference.
    method Accept(cnt: nat)
      modifies `smpCnt, `maxSeen, `recent
      ensures Now() == old(Now()).(smpCnt := cnt, maxSeen := if cnt > old(maxSeen) then cnt else old(maxSeen),
                                   recent := Pushed(old(recent), cnt))
    {
      smpCnt := cnt;
      maxSeen := if cnt > maxSeen then cnt else maxSeen;
      Push(cnt);
    }

    method OnAsdu(a: Asdu, now: int) returns (events: seq<Event>)
      requires Valid()
      modifies this
      ensures Valid() && (Now(), events) == FeedAsdu(rate, Some(old(Now())), a, now)
    {
      hide Follow, EventIf, Pushed, Remembers;
      StillRemembers(rate, Some(Now()), a, now);
      events := EventIf(timedOut, Resumed) + EventIf(a.confRev != confRev || a.datSet != datSet, ConfigChanged)
                + EventIf(a.smpSynch != smpSynch, SynchChanged);
      timedOut, confRev, datSet, smpSynch := false, a.confRev, a.datSet, a.smpSynch;
      var accept, followed := FollowCount(a);
      events := events + followed;
      samples := samples + 1;
      lastSeen := now;
      if accept {
        Accept(a.smpCnt);
      }
    }
  }
}
