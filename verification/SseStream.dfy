/**
 A live-view session over the request log: it remembers the last number it delivered,
 polls the ring for newer events and writes them out one frame at a time, while
 recorders go on recording.  A client that disconnects simply ends the run early.
 */
module SseStream {
  import opened Prelude
  import opened CsvRows
  import RequestLog

  const POLL_LIMIT: nat := 500

  /** `outbox` holds the polled events whose frames are still to be written. */
  datatype Session = Session(lastSeq: nat, outbox: seq<RequestEvent>)

  /** `all` is every event recorded since the log was made, `from` the newest number at connect, `delivered` the frames written. */
  datatype Sys = Sys(log: RequestLog.Fields, all: seq<RequestEvent>, session: Session, from: nat, delivered: seq<RequestEvent>)

  datatype Step = RecordStep(event: RequestEvent) | PollStep | FrameStep

  function Connect(log: RequestLog.Fields, all: seq<RequestEvent>): Sys {
    Sys(log, all, Session(|all|, []), |all|, [])
  }

  predicate Enabled(s: Sys, step: Step) {
    match step
    case RecordStep(_) => true
    case PollStep => s.session.outbox == []
    case FrameStep => s.session.outbox != []
  }

  function Apply(s: Sys, step: Step): Sys
    requires Enabled(s, step)
  {
    match step
    case RecordStep(event) => s.(log := RequestLog.Record(s.log, event), all := s.all + [event.(seqNo := s.log.nextSeq)])
    case PollStep => s.(session := s.session.(outbox := RequestLog.EventsSince(s.log, s.session.lastSeq, POLL_LIMIT)))
    case FrameStep =>
      var frame := s.session.outbox[0];
      s.(session := Session(frame.seqNo, s.session.outbox[1..]), delivered := s.delivered + [frame])
  }

  /** The log as any run of the request log leaves it: numbered from 1, the ring holding the newest events. */
  ghost predicate LogOk(log: RequestLog.Fields, all: seq<RequestEvent>) {
    && log.nextSeq == |all| + 1
    && (forall i :: 0 <= i < |all| ==> all[i].seqNo == i + 1)
    && log.buffer == RequestLog.Suffix(all, log.capacity)
  }

  /** Every run of the request log leaves it so: what is proved of sessions here holds of every log there is. */
  lemma {:induction false} RecordedLogsAreOk(capacity: nat, steps: seq<RequestLog.Step>)
    requires RequestLog.Feasible(capacity, steps)
    ensures LogOk(RequestLog.Run(capacity, steps).fields, RequestLog.Run(capacity, steps).all)
  {
    RequestLog.RunKeepsInv(capacity, steps);
  }

  /** A feasible run from a connect to a log in order. */
  predicate Feasible(start: Sys, steps: seq<Step>)
    decreases |steps|, 0
  {
    steps == [] || (Feasible(start, Front(steps)) && Enabled(Run(start, Front(steps)), Last(steps)))
  }

  function Run(start: Sys, steps: seq<Step>): Sys
    requires Feasible(start, steps)
    decreases |steps|, 1
  {
    if steps == [] then start else Apply(Run(start, Front(steps)), Last(steps))
  }

  // ------------------------------------------------------------------ one poll

  /** The part of consecutively numbered events that is newer than `since`. */
  function Newer(events: seq<RequestEvent>, first: nat, since: nat): seq<RequestEvent> {
    if since < first then events else if |events| <= since - first then [] else events[since - first + 1..]
  }

  lemma {:induction false} NewerSnoc(events: seq<RequestEvent>, first: nat, since: nat)
    requires events != []
    ensures Newer(events, first, since)
         == Newer(Front(events), first, since) + if since < first + |events| - 1 then [Last(events)] else []
  {
    assert events == Front(events) + [Last(events)];
  }

  lemma {:induction false} AfterNumbered(events: seq<RequestEvent>, first: nat, since: nat)
    requires forall i :: 0 <= i < |events| ==> events[i].seqNo == first + i
    ensures RequestLog.After(events, since) == Newer(events, first, since)
  {
    if events != [] {
      AfterNumbered(Front(events), first, since);
      NewerSnoc(events, first, since);
      assert Last(events).seqNo == first + |events| - 1;
    }
  }

  /** The number of the oldest event a poll can still see. */
  function Oldest(s: Sys): int {
    |s.all| - |s.log.buffer| + 1
  }

  function Max(a: int, b: int): int { if a < b then b else a }

  function Min(a: int, b: int): int { if a < b then a else b }

  lemma {:induction false} AfterOfTail(all: seq<RequestEvent>, base: nat, since: nat)
    requires forall i :: 0 <= i < |all| ==> all[i].seqNo == i + 1
    requires base <= |all| && since <= |all|
    ensures RequestLog.After(all[base..], since) == all[Max(since, base)..]
  {
    AfterNumbered(all[base..], base + 1, since);
    if base < since { TailOfTail(all, base, since - base); }
  }

  /** What a poll finds: a consecutive stretch of the recorded events, from the first one not yet delivered that the ring still has. */
  lemma {:induction false} PollFinds(s: Sys)
    requires LogOk(s.log, s.all) && s.session.lastSeq <= |s.all|
    ensures var lo := Max(s.session.lastSeq, Oldest(s) - 1); var hi := Min(lo + 500, |s.all|);
            0 <= lo <= hi <= |s.all| && RequestLog.EventsSince(s.log, s.session.lastSeq, POLL_LIMIT) == s.all[lo..hi]
  {
    var base := |s.all| - |s.log.buffer|;
    assert s.log.buffer == s.all[base..];
    AfterOfTail(s.all, base, s.session.lastSeq);
    StartOfTail(s.all, Max(s.session.lastSeq, base), POLL_LIMIT);
  }

  lemma {:induction false} StartOfTail<T>(s: seq<T>, lo: nat, n: nat)
    requires lo <= |s|
    ensures (if |s[lo..]| <= n then s[lo..] else s[lo..][..n]) == s[lo..Min(lo + n, |s|)]
  {
  }

  lemma {:induction false} TailOfTail<T>(s: seq<T>, a: nat, b: nat)
    requires a + b <= |s|
    ensures s[a..][b..] == s[a + b..]
  {
  }

  /** A poll skips events exactly when more were recorded since the last frame than the ring holds. */
  lemma {:induction false} PollSkipsExactly(s: Sys)
    requires LogOk(s.log, s.all) && s.session.lastSeq <= |s.all|
    ensures var polled := RequestLog.EventsSince(s.log, s.session.lastSeq, POLL_LIMIT);
            (s.session.lastSeq < |s.all| ==> polled != [] && polled[0] == s.all[s.session.lastSeq])
            <==> |s.all| - s.session.lastSeq <= s.log.capacity
  {
    PollFinds(s);
    if s.session.lastSeq < |s.all| {
      var polled := RequestLog.EventsSince(s.log, s.session.lastSeq, POLL_LIMIT);
      if polled != [] { assert polled[0].seqNo == Max(s.session.lastSeq, Oldest(s) - 1) + 1; }
      assert s.all[s.session.lastSeq].seqNo == s.session.lastSeq + 1;
    }
  }

  // ------------------------------------------------------------------ whole sessions

  /** Everything written or about to be written since connect. */
  function Sent(s: Sys): seq<RequestEvent> {
    s.delivered + s.session.outbox
  }

  ghost predicate Increasing(events: seq<RequestEvent>, from: nat) {
    && (forall i :: 0 <= i < |events| ==> from < events[i].seqNo)
    && (forall i, j :: 0 <= i < j < |events| ==> events[i].seqNo < events[j].seqNo)
  }

  ghost predicate Inv(s: Sys) {
    && LogOk(s.log, s.all)
    && s.from <= s.session.lastSeq <= |s.all|
    && s.session.lastSeq == (if s.delivered == [] then s.from else Last(s.delivered).seqNo)
    && Increasing(Sent(s), s.from)
    && (forall e :: e in Sent(s) ==> e in s.all)
  }

  lemma {:induction false} StepKeepsInv(s: Sys, step: Step)
    requires Inv(s) && Enabled(s, step)
    ensures Inv(Apply(s, step))
  {
    match step
    case RecordStep(event) =>
    case PollStep => PollKeepsInv(s);
    case FrameStep =>
      var t := Apply(s, step);
      assert Sent(t) == Sent(s);
      assert Sent(s)[|s.delivered|] in Sent(s);
  }

  lemma {:induction false} PollKeepsInv(s: Sys)
    requires Inv(s) && s.session.outbox == []
    ensures Inv(Apply(s, PollStep))
  {
    var t := Apply(s, PollStep);
    assert Sent(s) == s.delivered;
    PollFinds(s);
    var lo := Max(s.session.lastSeq, Oldest(s) - 1);
    var hi := Min(lo + POLL_LIMIT, |s.all|);
    assert t.session.outbox == s.all[lo..hi];
    StretchIsLater(s.delivered, s.from, s.all, lo, hi);
  }

  lemma {:induction false} StretchIsLater(delivered: seq<RequestEvent>, from: nat, all: seq<RequestEvent>, lo: nat, hi: nat)
    requires lo <= hi <= |all| && forall i :: 0 <= i < |all| ==> all[i].seqNo == i + 1
    requires Increasing(delivered, from) && from <= lo && (delivered != [] ==> Last(delivered).seqNo <= lo)
    ensures Increasing(delivered + all[lo..hi], from)
    ensures forall e :: e in all[lo..hi] ==> e in all
  {
    var sent := delivered + all[lo..hi];
    forall i | 0 <= i < |sent| ensures from < sent[i].seqNo {
      if i >= |delivered| { assert sent[i] == all[lo + i - |delivered|]; }
    }
    forall i, j | 0 <= i < j < |sent| ensures sent[i].seqNo < sent[j].seqNo {
      if j >= |delivered| {
        assert sent[j] == all[lo + j - |delivered|];
        if i >= |delivered| { assert sent[i] == all[lo + i - |delivered|]; }
        else { assert delivered[i].seqNo <= Last(delivered).seqNo; }
      }
    }
  }

  lemma {:induction false} RunKeepsInv(log: RequestLog.Fields, all: seq<RequestEvent>, steps: seq<Step>)
    requires LogOk(log, all) && Feasible(Connect(log, all), steps)
    ensures Inv(Run(Connect(log, all), steps))
    ensures Run(Connect(log, all), steps).from == |all| && Run(Connect(log, all), steps).log.capacity == log.capacity
  {
    if steps != [] {
      RunKeepsInv(log, all, Front(steps));
      StepKeepsInv(Run(Connect(log, all), Front(steps)), Last(steps));
    }
  }

  /** Every session: real events only, each at most once, in order, none from before the connect. */
  lemma {:induction false} DeliveredInOrder(log: RequestLog.Fields, all: seq<RequestEvent>, steps: seq<Step>)
    requires LogOk(log, all) && Feasible(Connect(log, all), steps)
    ensures var s := Run(Connect(log, all), steps);
            Increasing(s.delivered, |all|) && forall e :: e in s.delivered ==> e in s.all
  {
    RunKeepsInv(log, all, steps);
    var s := Run(Connect(log, all), steps);
    assert forall i :: 0 <= i < |s.delivered| ==> s.delivered[i] == Sent(s)[i];
  }

  /** No poll of the run comes after more new events than the ring holds. */
  predicate KeepsUp(start: Sys, steps: seq<Step>)
    requires Feasible(start, steps)
  {
    steps == [] ||
    (&& KeepsUp(start, Front(steps))
     && var s := Run(start, Front(steps));
        Last(steps).PollStep? ==> |s.all| - s.session.lastSeq <= s.log.capacity)
  }

  ghost predicate Gapless(s: Sys) {
    s.from + |Sent(s)| <= |s.all| && Sent(s) == s.all[s.from..s.from + |Sent(s)|]
  }

  lemma {:induction false} KeepsUpSendsAll(log: RequestLog.Fields, all: seq<RequestEvent>, steps: seq<Step>)
    requires LogOk(log, all) && Feasible(Connect(log, all), steps) && KeepsUp(Connect(log, all), steps)
    ensures Gapless(Run(Connect(log, all), steps))
  {
    if steps != [] {
      KeepsUpSendsAll(log, all, Front(steps));
      RunKeepsInv(log, all, Front(steps));
      StepSendsAll(Run(Connect(log, all), Front(steps)), Last(steps));
    }
  }

  lemma {:induction false} StepSendsAll(s: Sys, step: Step)
    requires Inv(s) && Enabled(s, step) && Gapless(s)
    requires step.PollStep? ==> |s.all| - s.session.lastSeq <= s.log.capacity
    ensures Gapless(Apply(s, step))
  {
    if step.PollStep? {
      assert Sent(s) == s.delivered;
      PollSendsAll(s);
    } else {
      OthersSendNothing(s, step);
    }
  }

  lemma {:induction false} OthersSendNothing(s: Sys, step: Step)
    requires Enabled(s, step) && !step.PollStep? && Gapless(s)
    ensures Gapless(Apply(s, step))
  {
    var t, n := Apply(s, step), |Sent(s)|;
    assert Sent(t) == Sent(s);
    assert s.all <= t.all;
    assert t.all[s.from..s.from + n] == s.all[s.from..s.from + n];
  }

  lemma {:induction false} PollSendsAll(s: Sys)
    requires Inv(s) && s.session.outbox == []
    requires s.from + |s.delivered| <= |s.all| && s.delivered == s.all[s.from..s.from + |s.delivered|]
    requires |s.all| - s.session.lastSeq <= s.log.capacity
    ensures Gapless(Apply(s, PollStep))
  {
    LastSeqWithoutGap(s);
    var lo := s.from + |s.delivered|;
    PollInTime(s);
    JoinedWithoutGap(Apply(s, PollStep), lo, Min(lo + POLL_LIMIT, |s.all|));
  }

  /** A poll that comes in time finds what follows the last frame. */
  lemma {:induction false} PollInTime(s: Sys)
    requires Inv(s) && s.session.outbox == [] && |s.all| - s.session.lastSeq <= s.log.capacity
    ensures Apply(s, PollStep).session.outbox == s.all[s.session.lastSeq..Min(s.session.lastSeq + POLL_LIMIT, |s.all|)]
  {
    PollFinds(s);
  }

  lemma {:induction false} JoinedWithoutGap(s: Sys, lo: nat, hi: nat)
    requires s.from <= lo <= hi <= |s.all| && s.delivered == s.all[s.from..lo] && s.session.outbox == s.all[lo..hi]
    ensures Gapless(s)
  {
    SlicesJoin(s.all, s.from, lo, hi);
  }

  lemma {:induction false} LastSeqWithoutGap(s: Sys)
    requires Inv(s) && s.from + |s.delivered| <= |s.all| && s.delivered == s.all[s.from..s.from + |s.delivered|]
    ensures s.session.lastSeq == s.from + |s.delivered|
  {
    if s.delivered != [] { assert Last(s.delivered) == s.all[s.from + |s.delivered| - 1]; }
  }

  lemma {:induction false} SlicesJoin<T>(all: seq<T>, a: nat, b: nat, c: nat)
    requires a <= b <= c <= |all|
    ensures all[a..b] + all[b..c] == all[a..c] && |all[a..c]| == c - a
  {
  }

  /** A session that keeps up delivers exactly the consecutive events recorded after it connected, however each poll is capped. */
  lemma {:induction false} KeepsUpDeliversAll(log: RequestLog.Fields, all: seq<RequestEvent>, steps: seq<Step>)
    requires LogOk(log, all) && Feasible(Connect(log, all), steps) && KeepsUp(Connect(log, all), steps)
    ensures var s := Run(Connect(log, all), steps);
            |all| + |s.delivered| <= |s.all| && s.delivered == s.all[|all|..|all| + |s.delivered|]
  {
    KeepsUpSendsAll(log, all, steps);
    RunKeepsInv(log, all, steps);
    var s := Run(Connect(log, all), steps);
    assert s.delivered == Sent(s)[..|s.delivered|];
  }

  /** The numbers that follow `from`, none left out. */
  ghost predicate Consecutive(events: seq<RequestEvent>, from: nat) {
    forall i :: 0 <= i < |events| ==> events[i].seqNo == from + 1 + i
  }

  lemma {:induction false} GaplessIsConsecutive(s: Sys)
    requires LogOk(s.log, s.all) && Gapless(s)
    ensures Consecutive(Sent(s), s.from)
  {
    var n := |Sent(s)|;
    forall i | 0 <= i < n ensures Sent(s)[i].seqNo == s.from + 1 + i {
      assert Sent(s)[i] == s.all[s.from..s.from + n][i] == s.all[s.from + i];
    }
  }

  lemma {:induction false} SentGrows(s: Sys, step: Step)
    requires Enabled(s, step)
    ensures Sent(s) <= Sent(Apply(s, step)) && Apply(s, step).from == s.from
  {
    match step
    case RecordStep(event) =>
    case PollStep =>
    case FrameStep => assert Sent(Apply(s, step)) == Sent(s);
  }

  /** A poll that comes too late leaves a gap behind what was sent without one. */
  lemma {:induction false} LatePollSkips(s: Sys)
    requires Inv(s) && s.session.outbox == [] && Consecutive(s.delivered, s.from)
    requires 0 < s.log.capacity < |s.all| - s.session.lastSeq
    ensures !Consecutive(Sent(Apply(s, PollStep)), s.from)
  {
    PollFinds(s);
    var t := Apply(s, PollStep);
    var lo := Max(s.session.lastSeq, Oldest(s) - 1);
    assert s.session.lastSeq == s.from + |s.delivered|;
    assert lo == Oldest(s) - 1 > s.session.lastSeq;
    assert t.session.outbox[0] == s.all[lo];
    assert Sent(t)[|s.delivered|] == t.session.outbox[0];
  }

  /** A session sends the consecutive events since its connect, none left out, if and only if it keeps up. */
  lemma {:induction false} GaplessExactly(log: RequestLog.Fields, all: seq<RequestEvent>, steps: seq<Step>)
    requires LogOk(log, all) && Feasible(Connect(log, all), steps) && log.capacity > 0
    ensures Consecutive(Sent(Run(Connect(log, all), steps)), |all|) <==> KeepsUp(Connect(log, all), steps)
  {
    RunKeepsInv(log, all, steps);
    if KeepsUp(Connect(log, all), steps) {
      KeepsUpSendsAll(log, all, steps);
      GaplessIsConsecutive(Run(Connect(log, all), steps));
    } else {
      var s := Run(Connect(log, all), Front(steps));
      GaplessExactly(log, all, Front(steps));
      RunKeepsInv(log, all, Front(steps));
      SentGrows(s, Last(steps));
      if KeepsUp(Connect(log, all), Front(steps)) {
        assert Sent(s) == s.delivered;
        LatePollSkips(s);
      } else {
        var i :| 0 <= i < |Sent(s)| && Sent(s)[i].seqNo != |all| + 1 + i;
        assert Sent(Apply(s, Last(steps)))[i] == Sent(s)[i];
      }
    }
  }

  // ------------------------------------------------------------------ polls of any size

  lemma {:induction false} NewerInRing(s: Sys, since: nat, base: nat)
    requires LogOk(s.log, s.all) && since <= |s.all| && base == |s.all| - |s.log.buffer|
    ensures RequestLog.After(s.log.buffer, since) == s.all[Max(since, base)..]
  {
    assert s.log.buffer == s.all[base..];
    AfterOfTail(s.all, base, since);
  }

  lemma {:induction false} EventsFrom(s: Sys, since: nat, limit: nat, base: nat)
    requires LogOk(s.log, s.all) && since <= |s.all| && base == |s.all| - |s.log.buffer|
    ensures var lo := Max(since, base);
            RequestLog.EventsSince(s.log, since, limit) == s.all[lo..Min(lo + Max(limit, 1), |s.all|)]
  {
    NewerInRing(s, since, base);
    FirstOfTail(s.log, s.all, since, limit, Max(since, base));
  }

  lemma {:induction false} FirstOfTail(log: RequestLog.Fields, all: seq<RequestEvent>, since: nat, limit: nat, lo: nat)
    requires lo <= |all| && RequestLog.After(log.buffer, since) == all[lo..]
    ensures RequestLog.EventsSince(log, since, limit) == all[lo..Min(lo + Max(limit, 1), |all|)]
  {
    StartOfTail(all, lo, Max(limit, 1));
  }

  /** The events newer than a number, from the oldest that the ring still has and as many as asked for, but at least one. */
  lemma {:induction false} EventsSinceExactly(s: Sys, since: nat, limit: nat)
    requires LogOk(s.log, s.all) && since <= |s.all|
    ensures var lost := |s.all| - |s.log.buffer|;
            var lo := if lost < since then since else lost;
            var most := if limit < 1 then 1 else limit;
            var hi := if lo + most < |s.all| then lo + most else |s.all|;
            lo <= hi && RequestLog.EventsSince(s.log, since, limit) == s.all[lo..hi]
  {
    EventsFrom(s, since, limit, |s.all| - |s.log.buffer|);
  }
}
