/**
 What a supervisor says of a sample (`supervision.py`): how far smpCnt moved, each kind of event
 exactly when its condition holds, and what losses and late samples are counted as.
 */
module SvVerdicts {
  import opened Modulo
  import opened Octets
  import opened Sv
  import opened Supervision
  import opened SvSupervision

  // --- how far a count moved -----------------------------------------------------------------

  // The value smpCnt wraps at: given for the stream, announced by an ASDU that counts in samples
  // a second, or one more than the highest count seen once it fell by more than 16.
  function Turn(rate: nat, s: SvState, a: Asdu): Option<nat> {
    if rate > 0 then Some(rate)
    else if a.smpRate.Some? && a.smpRate.value > 0 && a.smpMod == Some(1) then a.smpRate
    else if s.wrapped || s.smpCnt > a.smpCnt + 16 then Some(s.maxSeen + 1)
    else None
  }

  // The move is the difference of the counts, but for whole turns, and less than half a turn
  // ahead or at most half behind; a count that cannot be of that turn moved by the difference.
  ghost predicate Moved(turn: Option<nat>, was: nat, now: nat, d: int) {
    if turn.Some? && was < turn.value && now < turn.value then
      (turn.value / 2) - turn.value <= d < turn.value / 2 && exists k: int :: now - was == d + k * turn.value
    else d == now - was
  }

  lemma MoveIsFound(rate: nat, s: SvState, a: Asdu, d: int)
    ensures Ahead(Learnt(rate, s, a).1, s.smpCnt, a.smpCnt) == d <==> Moved(Turn(rate, s, a), s.smpCnt, a.smpCnt, d)
    ensures Learnt(rate, s, a).0 == s.(wrapped := s.wrapped || (Wrap(rate, s, a).None? && s.smpCnt > a.smpCnt + 16))
  {
    assert Learnt(rate, s, a).1 == Turn(rate, s, a);
    hide Learnt, Turn;
    MoveIsOne(Turn(rate, s, a), s.smpCnt, a.smpCnt, d);
  }

  lemma MoveIsOne(turn: Option<nat>, was: nat, now: nat, d: int)
    ensures Ahead(turn, was, now) == d <==> Moved(turn, was, now, d)
  {
    if turn.Some? && was < turn.value && now < turn.value {
      var w := turn.value;
      var e := Ahead(turn, was, now);
      NearestIs(now - was, w, e);
      if k: int :| now - was == d + k * w {
        if w / 2 - w <= d < w / 2 {
          NearestIsOne(now - was, w, d, k);
        }
      }
    }
  }

  // The remainder, or that less a turn.
  lemma NearestIs(m: int, w: nat, e: int)
    requires w > 0 && e == if m % w >= w / 2 then m % w - w else m % w
    ensures w / 2 - w <= e < w / 2 && exists k: int :: m == e + k * w
  {
    var q := m / w;
    assert m == w * q + m % w;
    if m % w >= w / 2 {
      assert (q + 1) * w == q * w + w;
      assert m == e + (q + 1) * w;
    } else {
      assert m == e + q * w;
    }
  }

  lemma NearestIsOne(m: int, w: nat, d: int, k: int)
    requires w > 0 && w / 2 - w <= d < w / 2 && m == d + k * w
    ensures d == if m % w >= w / 2 then m % w - w else m % w
  {
    if d >= 0 {
      RemainderIsUnique(m, w, k, d);
    } else {
      assert (k - 1) * w == k * w - w;
      RemainderIsUnique(m, w, k - 1, d + w);
    }
  }

  // --- one sample ----------------------------------------------------------------------------

  // What the count says, moved by `d`: one further is as it should be, more is a gap of what was
  // not heard; up to 16 back or none is late, a duplicate if it is one of the counts taken last;
  // further back is a restart.
  lemma FollowSays(rate: nat, s: SvState, a: Asdu, d: int)
    requires Moved(Turn(rate, s, a), s.smpCnt, a.smpCnt, d)
    ensures var (t, accept, events) := Follow(rate, s, a);
            && (accept <==> d > 0 || d < -16)
            && t == s.(missed := t.missed, recent := t.recent, wrapped := t.wrapped)
            && (d > 1 ==> events == [Event(Gap, d - 1)] && t.missed == s.missed + (d - 1) && t.recent == s.recent)
            && (d == 1 ==> events == [] && t.missed == s.missed && t.recent == s.recent)
            && (-16 <= d <= 0 && a.smpCnt in s.recent ==>
                  events == [Event(Duplicate, 0)] && t.missed == s.missed && t.recent == s.recent)
            && (-16 <= d <= 0 && a.smpCnt !in s.recent ==>
                  && events == [Event(OutOfOrder, 0)] && t.missed == (if s.missed > 0 then s.missed - 1 else 0)
                  && t.recent == Pushed(s.recent, a.smpCnt))
            && (d < -16 ==> events == [Event(Restart, 0)] && t.missed == s.missed && t.recent == [])
  {
    MoveIsFound(rate, s, a, d);
    hide Moved, Turn, Ahead, Learnt;
  }

  // Every event of a sample of a known stream: a silence that is over, another configuration,
  // another synchronisation, and what its count says. Whatever it is, the stream was heard, and
  // the sample is counted; it is the reference unless it is late.
  lemma FeedSays(rate: nat, s: SvState, a: Asdu, now: int, kind: Kind)
    ensures var (u, events) := FeedAsdu(rate, Some(s), a, now);
            var (t, accept, followed) := Follow(rate, s.(timedOut := false, confRev := a.confRev, datSet := a.datSet,
                                                         smpSynch := a.smpSynch), a);
            && (Has(events, kind) <==>
                  || (kind == Resumed && s.timedOut)
                  || (kind == ConfigChanged && (a.confRev != s.confRev || a.datSet != s.datSet))
                  || (kind == SynchChanged && a.smpSynch != s.smpSynch)
                  || Has(followed, kind))
            && u.lastSeen == now && u.samples == s.samples + 1 && !u.timedOut && u.missed == t.missed
            && u.confRev == a.confRev && u.datSet == a.datSet && u.smpSynch == a.smpSynch && u.wrapped == t.wrapped
            && u.smpCnt == (if accept then a.smpCnt else s.smpCnt)
            && u.maxSeen == (if accept && a.smpCnt > s.maxSeen then a.smpCnt else s.maxSeen)
            && u.recent == (if accept then Pushed(t.recent, a.smpCnt) else t.recent)
  {
    var v := s.(timedOut := false, confRev := a.confRev, datSet := a.datSet, smpSynch := a.smpSynch);
    var (t, accept, followed) := Follow(rate, v, a);
    FollowKeeps(rate, v, a);
    hide Follow;
    var resumed := EventIf(s.timedOut, Resumed);
    var config := EventIf(a.confRev != s.confRev || a.datSet != s.datSet, ConfigChanged);
    var synch := EventIf(a.smpSynch != s.smpSynch, SynchChanged);
    HasConcat(resumed, config, kind);
    HasConcat(resumed + config, synch, kind);
    HasConcat(resumed + config + synch, followed, kind);
    IfHas(s.timedOut, Resumed, kind);
    IfHas(a.confRev != s.confRev || a.datSet != s.datSet, ConfigChanged, kind);
    IfHas(a.smpSynch != s.smpSynch, SynchChanged, kind);
  }

  lemma FollowKeeps(rate: nat, s: SvState, a: Asdu)
    ensures var t := Follow(rate, s, a).0; t == s.(missed := t.missed, recent := t.recent, wrapped := t.wrapped)
  {
    hide Ahead, Wrap;
  }

  function Rank(kind: Kind): nat {
    match kind
    case Resumed => 0
    case ConfigChanged => 1
    case SynchChanged => 2
    case _ => 3
  }

  // Each is said once at most, and in this order: what was silence, what is configured, what the
  // count says.
  lemma SaidInOrder(rate: nat, known: Option<SvState>, a: Asdu, now: int)
    ensures var events := FeedAsdu(rate, known, a, now).1;
            forall i, j :: 0 <= i < j < |events| ==> Rank(events[i].kind) < Rank(events[j].kind)
  {
    if known.Some? {
      var s := known.value;
      OneVerdict(rate, s.(timedOut := false, confRev := a.confRev, datSet := a.datSet, smpSynch := a.smpSynch), a);
    }
    hide Follow;
  }

  lemma OneVerdict(rate: nat, s: SvState, a: Asdu)
    ensures var events := Follow(rate, s, a).2;
            |events| <= 1 && forall i :: 0 <= i < |events| ==> Rank(events[i].kind) == 3
  {
    hide Ahead, Learnt;
  }

  // The first sample of a stream makes it known, and says nothing else.
  lemma OpeningSays(rate: nat, a: Asdu, now: int)
    ensures FeedAsdu(rate, None, a, now)
            == (SvState(now, a.smpCnt, a.confRev, a.smpSynch, a.datSet, 1, 0, a.smpCnt, false, false, [a.smpCnt]),
                [Event(NewStream, 0)])
  {
  }

  // --- late samples --------------------------------------------------------------------------

  // A supervisor that knows the turn, with nothing else to say of the stream.
  predicate Quiet(s: SvState, a: Asdu) {
    !s.timedOut && a.confRev == s.confRev && a.datSet == s.datSet && a.smpSynch == s.smpSynch
  }

  lemma QuietSays(rate: nat, s: SvState, a: Asdu, now: int)
    requires Quiet(s, a)
    ensures var (u, events) := FeedAsdu(rate, Some(s), a, now);
            var (t, accept, followed) := Follow(rate, s, a);
            && events == followed && u.missed == t.missed && Quiet(u, a)
            && u.smpCnt == (if accept then a.smpCnt else s.smpCnt)
            && u.recent == (if accept then Pushed(t.recent, a.smpCnt) else t.recent)
  {
    var v := s.(timedOut := false, confRev := a.confRev, datSet := a.datSet, smpSynch := a.smpSynch);
    assert v == s;
    FollowKeeps(rate, s, a);
    hide Follow;
    assert [] + [] + [] + Follow(rate, s, a).2 == Follow(rate, s, a).2;
  }

  // A sample that was overtaken by the next one is counted as missed when that one comes, and no
  // longer when it comes itself; once more, it is a duplicate. The counts may wrap between them.
  lemma OvertakenIsMended(w: nat, s: SvState, k: int, x: Asdu, n: Asdu, now: int)
    requires w >= 6 && s.smpCnt == k % w && x.smpCnt == (k + 1) % w && n.smpCnt == (k + 2) % w
    requires Quiet(s, x) && Quiet(s, n) && x.smpCnt !in s.recent
    ensures var (s1, e1) := FeedAsdu(w, Some(s), n, now);
            var (s2, e2) := FeedAsdu(w, Some(s1), x, now);
            var (s3, e3) := FeedAsdu(w, Some(s2), x, now);
            && e1 == [Event(Gap, 1)] && s1.missed == s.missed + 1
            && e2 == [Event(OutOfOrder, 0)] && s2.missed == s.missed && s2.smpCnt == n.smpCnt
            && e3 == [Event(Duplicate, 0)] && s3.missed == s.missed && s3.smpCnt == n.smpCnt
  {
    hide FeedAsdu, Follow, Moved, Turn, Pushed;
    MovedBy(w, k, 2, s, n);
    QuietSays(w, s, n, now);
    FollowSays(w, s, n, 2);
    var s1 := FeedAsdu(w, Some(s), n, now).0;
    StaysAbsent(s.recent, n.smpCnt, x.smpCnt) by { NextDiffers(w, k); }
    MovedBy(w, k + 2, -1, s1, x);
    QuietSays(w, s1, x, now);
    FollowSays(w, s1, x, -1);
    var s2 := FeedAsdu(w, Some(s1), x, now).0;
    PushedHolds(s1.recent, x.smpCnt);
    MovedBy(w, k + 2, -1, s2, x);
    QuietSays(w, s2, x, now);
    FollowSays(w, s2, x, -1);
  }

  lemma MovedBy(w: nat, k: int, d: int, s: SvState, a: Asdu)
    requires w >= 6 && s.smpCnt == k % w && a.smpCnt == (k + d) % w && (d == 2 || d == -1)
    ensures Moved(Turn(w, s, a), s.smpCnt, a.smpCnt, d)
  {
    var p, q := k / w, (k + d) / w;
    assert k == w * p + k % w && k + d == w * q + (k + d) % w;
    assert a.smpCnt - s.smpCnt == d + (p - q) * w by {
      assert (p - q) * w == w * p - w * q;
    }
  }

  lemma NextDiffers(w: nat, k: int)
    requires w >= 2
    ensures (k + 1) % w != (k + 2) % w
  {
    NextCount(k + 1, w);
  }

  lemma StaysAbsent(recent: seq<nat>, n: nat, x: nat)
    requires x !in recent && x != n
    ensures x !in Pushed(recent, n)
  {
  }

}
