/**
 In-flight WebAuthn challenges: a map from ceremony key to challenge, and a queue
 of stamps for expiry and for the hard cap.  Unlike the score tracker, a stamp is
 matched to its map entry by the deadline, so two starts of one key with the same
 deadline are indistinguishable to the queue.  `SurvivesExactly` says what that costs.
 */
module ChallengeStore {
  import opened Prelude

  const K_MAX_ENTRIES: nat := 10_000

  type Bytes = seq<int>

  datatype Entry = Entry(challenge: Bytes, expiresAt: int)

  datatype Stamp = Stamp(key: string, expiresAt: int)

  datatype State = State(entries: map<string, Entry>, order: seq<Stamp>)

  /** Every live entry still has a stamp of its own deadline in the queue, and the queue is within the cap. */
  ghost predicate Valid(s: State) {
    && |s.order| <= K_MAX_ENTRIES
    && Stamped(s)
  }

  ghost predicate Stamped(s: State) {
    forall key :: key in s.entries ==> StampOf(s, key) in s.order
  }

  ghost function StampOf(s: State, key: string): Stamp
    requires key in s.entries
  {
    Stamp(key, s.entries[key].expiresAt)
  }

  function Pop(s: State): State
    requires s.order != []
  {
    var oldest := s.order[0];
    State(if oldest.key in s.entries && s.entries[oldest.key].expiresAt == oldest.expiresAt
          then s.entries - {oldest.key} else s.entries,
          s.order[1..])
  }

  predicate MustPop(s: State, now: int) {
    s.order != [] && (|s.order| > K_MAX_ENTRIES || s.order[0].expiresAt <= now)
  }

  function Sweep(s: State, now: int): State
    decreases |s.order|
  {
    if MustPop(s, now) then Sweep(Pop(s), now) else s
  }

  function Push(s: State, key: string, challenge: Bytes, expiresAt: int): State {
    State(s.entries[key := Entry(challenge, expiresAt)], s.order + [Stamp(key, expiresAt)])
  }

  function Start(s: State, key: string, challenge: Bytes, now: int, ttl: int): State {
    Sweep(Push(s, key, challenge, now + ttl), now)
  }

  function Consume(s: State, key: string, now: int): (State, Option<Bytes>) {
    if key !in s.entries then (s, None)
    else
      var entry := s.entries[key];
      (s.(entries := s.entries - {key}), if now > entry.expiresAt then None else Some(entry.challenge))
  }

  class Store {
    var entries: map<string, Entry>
    var order: seq<Stamp>

    ghost function Abs(): State
      reads this
    {
      State(entries, order)
    }

    constructor ()
      ensures Abs() == State(map[], [])
    {
      entries := map[];
      order := [];
    }

    method Begin(key: string, challenge: Bytes, now: int, ttl: int)
      modifies this
      ensures Abs() == Start(old(Abs()), key, challenge, now, ttl)
    {
      var expiresAt := now + ttl;
      entries := entries[key := Entry(challenge, expiresAt)];
      order := order + [Stamp(key, expiresAt)];
      ghost var pushed := Abs();
      while order != [] && (|order| > K_MAX_ENTRIES || order[0].expiresAt <= now)
        invariant Sweep(Abs(), now) == Sweep(pushed, now)
        decreases |order|
      {
        var oldest := order[0];
        if oldest.key in entries && entries[oldest.key].expiresAt == oldest.expiresAt {
          entries := entries - {oldest.key};
        }
        order := order[1..];
      }
    }

    method Take(key: string, now: int) returns (challenge: Option<Bytes>)
      modifies this
      ensures (Abs(), challenge) == Consume(old(Abs()), key, now)
    {
      if key !in entries {
        return None;
      }
      var entry := entries[key];
      entries := entries - {key};
      if now > entry.expiresAt {
        return None;
      }
      return Some(entry.challenge);
    }
  }

  // ------------------------------------------------------------------ what every call keeps

  lemma {:induction false} PopKeepsStamped(s: State)
    requires Stamped(s) && s.order != []
    ensures Stamped(Pop(s))
  {
    var t := Pop(s);
    forall key | key in t.entries
      ensures StampOf(t, key) in t.order
    {
      assert StampOf(s, key) in s.order && StampOf(s, key) != s.order[0];
    }
  }

  lemma {:induction false} SweepKeeps(s: State, now: int)
    requires Stamped(s)
    ensures Valid(Sweep(s, now)) && !MustPop(Sweep(s, now), now)
    ensures Sweep(s, now).entries.Items <= s.entries.Items
    decreases |s.order|
  {
    if MustPop(s, now) {
      PopKeepsStamped(s);
      SweepKeeps(Pop(s), now);
      assert Pop(s).entries.Items <= s.entries.Items;
    }
  }

  lemma {:induction false} PushKeepsStamped(s: State, key: string, challenge: Bytes, expiresAt: int)
    requires Stamped(s)
    ensures Stamped(Push(s, key, challenge, expiresAt))
  {
    var t := Push(s, key, challenge, expiresAt);
    forall k | k in t.entries
      ensures StampOf(t, k) in t.order
    {
      if k == key {
        assert t.order[|s.order|] == StampOf(t, k);
      } else {
        assert StampOf(s, k) in s.order;
      }
    }
  }

  lemma {:induction false} StartKeepsValid(s: State, key: string, challenge: Bytes, now: int, ttl: int)
    requires Valid(s)
    ensures Valid(Start(s, key, challenge, now, ttl))
    ensures Start(s, key, challenge, now, ttl).entries.Items <= Push(s, key, challenge, now + ttl).entries.Items
  {
    PushKeepsStamped(s, key, challenge, now + ttl);
    SweepKeeps(Push(s, key, challenge, now + ttl), now);
  }

  /** Live entries never outnumber the stamps, which never exceed the cap. */
  lemma {:induction false} SizeBound(s: State)
    requires Valid(s)
    ensures |s.entries| <= |s.order| <= 10_000
  {
    var stamps := set key | key in s.entries :: StampOf(s, key);
    StampsOfKeys(s, s.entries.Keys);
    SetFitsInSeq(stamps, s.order);
    assert stamps == set key | key in s.entries.Keys :: StampOf(s, key);
  }

  lemma {:induction false} StampsOfKeys(s: State, keys: set<string>)
    requires keys <= s.entries.Keys
    ensures |set key | key in keys :: StampOf(s, key)| == |keys|
  {
    if keys != {} {
      var k :| k in keys;
      StampsOfKeys(s, keys - {k});
      assert (set key | key in keys :: StampOf(s, key)) == (set key | key in keys - {k} :: StampOf(s, key)) + {StampOf(s, k)};
    }
  }

  lemma {:induction false} SetFitsInSeq<T>(xs: set<T>, s: seq<T>)
    requires forall x :: x in xs ==> x in s
    ensures |xs| <= |s|
  {
    if s == [] {
      assert xs == {};
    } else {
      SetFitsInSeq(xs - {s[0]}, s[1..]);
    }
  }

  // ------------------------------------------------------------------ runs: single use

  datatype Op =
    | StartOp(key: string, challenge: Bytes, now: int, ttl: int)
    | ConsumeOp(key: string, now: int)

  function Apply(s: State, op: Op): State {
    match op
    case StartOp(key, challenge, now, ttl) => Start(s, key, challenge, now, ttl)
    case ConsumeOp(key, now) => Consume(s, key, now).0
  }

  function Run(s: State, ops: seq<Op>): State {
    if ops == [] then s else Apply(Run(s, Front(ops)), Last(ops))
  }

  const INITIAL := State(map[], [])

  /** The last start of `key`, unless a consume of `key` came after it. */
  function Outstanding(ops: seq<Op>, key: string): Option<nat> {
    if ops == [] then None
    else if Last(ops).key == key then (if Last(ops).StartOp? then Some(|ops| - 1) else None)
    else Outstanding(Front(ops), key)
  }

  lemma {:induction false} OutstandingMeaning(ops: seq<Op>, key: string)
    ensures match Outstanding(ops, key)
            case Some(i) => i < |ops| && ops[i].StartOp? && ops[i].key == key && forall j :: i < j < |ops| ==> ops[j].key != key
            case None => forall i :: 0 <= i < |ops| && ops[i].key == key && ops[i].StartOp? ==>
                                       exists j :: i < j < |ops| && ops[j] == ConsumeOp(key, ops[j].now)
  {
    if ops != [] && Last(ops).key != key {
      OutstandingMeaning(Front(ops), key);
      if Outstanding(ops, key).None? {
        forall i | 0 <= i < |ops| && ops[i].key == key && ops[i].StartOp?
          ensures exists j :: i < j < |ops| && ops[j] == ConsumeOp(key, ops[j].now)
        {
          var j :| i < j < |ops| - 1 && Front(ops)[j] == ConsumeOp(key, Front(ops)[j].now);
          assert ops[j] == ConsumeOp(key, ops[j].now);
        }
      }
    } else if ops != [] && Last(ops).ConsumeOp? {
      assert ops[|ops| - 1] == ConsumeOp(key, ops[|ops| - 1].now);
    }
  }

  ghost predicate FromOutstanding(s: State, ops: seq<Op>, key: string) {
    key in s.entries ==>
      && Outstanding(ops, key).Some?
      && Outstanding(ops, key).value < |ops|
      && var op := ops[Outstanding(ops, key).value];
      && op.StartOp?
      && s.entries[key] == Entry(op.challenge, op.now + op.ttl)
  }

  /** Whatever was called, the store is valid and each live entry is the outstanding start of its key. */
  lemma {:induction false} RunInvariant(ops: seq<Op>)
    ensures Valid(Run(INITIAL, ops))
    ensures forall key :: FromOutstanding(Run(INITIAL, ops), ops, key)
  {
    if ops != [] {
      RunInvariant(Front(ops));
      var s := Run(INITIAL, Front(ops));
      match Last(ops)
      case StartOp(key, challenge, now, ttl) =>
        StartKeepsValid(s, key, challenge, now, ttl);
        var t := Start(s, key, challenge, now, ttl);
        forall k
          ensures FromOutstanding(t, ops, k)
        {
          assert FromOutstanding(s, Front(ops), k);
          if k in t.entries { assert (k, t.entries[k]) in Push(s, key, challenge, now + ttl).entries.Items; }
        }
      case ConsumeOp(key, now) =>
        var t := Consume(s, key, now).0;
        forall k | k in t.entries
          ensures StampOf(t, k) in t.order
        {
          assert StampOf(s, k) in s.order;
        }
        forall k
          ensures FromOutstanding(t, ops, k)
        {
          assert FromOutstanding(s, Front(ops), k);
        }
    }
  }

  /** What call number `j` hands out, when it is a consume. */
  function Handed(ops: seq<Op>, j: nat): Option<Bytes>
    requires j < |ops|
  {
    match ops[j]
    case ConsumeOp(key, now) => Consume(Run(INITIAL, ops[..j]), key, now).1
    case StartOp(_, _, _, _) => None
  }

  /** A consume only ever hands out the latest start of its key, before its deadline and before any other consume of it. */
  lemma {:induction false} HandsOutLatestStart(ops: seq<Op>, j: nat)
    requires j < |ops| && Handed(ops, j).Some?
    ensures ops[j].ConsumeOp?
    ensures exists i :: && 0 <= i < j && ops[i].StartOp? && ops[i].key == ops[j].key
                        && Handed(ops, j) == Some(ops[i].challenge)
                        && ops[j].now <= ops[i].now + ops[i].ttl
                        && forall k :: i < k < j ==> ops[k].key != ops[j].key
  {
    RunInvariant(ops[..j]);
    assert FromOutstanding(Run(INITIAL, ops[..j]), ops[..j], ops[j].key);
    OutstandingMeaning(ops[..j], ops[j].key);
    var i := Outstanding(ops[..j], ops[j].key).value;
    assert ops[i] == ops[..j][i];
    forall k | i < k < j
      ensures ops[k].key != ops[j].key
    {
      assert ops[..j][k] == ops[k];
    }
  }

  /** Single use: two different consumes of one key are served by two different starts, the later by a later one. */
  lemma {:induction false} SingleUse(ops: seq<Op>, j1: nat, j2: nat)
    requires j1 < j2 < |ops| && Handed(ops, j1).Some? && Handed(ops, j2).Some? && ops[j1].key == ops[j2].key
    ensures exists i :: j1 < i < j2 && ops[i].StartOp? && ops[i].key == ops[j2].key && Handed(ops, j2) == Some(ops[i].challenge)
  {
    HandsOutLatestStart(ops, j1);
    HandsOutLatestStart(ops, j2);
  }

  // ------------------------------------------------------------------ runs: how long an entry survives

  /** How many stamps lie from the first copy of `st` to the back of the queue. */
  ghost function Depth(order: seq<Stamp>, st: Stamp): nat
    requires st in order
  {
    if order[0] == st then |order| else Depth(order[1..], st)
  }

  lemma {:induction false} DepthOfPush(order: seq<Stamp>, st: Stamp, next: Stamp)
    ensures st in order ==> st in order + [next] && Depth(order + [next], st) == Depth(order, st) + 1
    ensures st !in order && st == next ==> st in order + [next] && Depth(order + [next], st) == 1
  {
    if order == [] {
      assert order + [next] == [next];
    } else {
      assert (order + [next])[1..] == order[1..] + [next];
      assert next in order + [next] by { assert (order + [next])[|order|] == next; }
      if st in order { assert st in order + [next] by { var i :| 0 <= i < |order| && order[i] == st; assert (order + [next])[i] == st; } }
      DepthOfPush(order[1..], st, next);
    }
  }

  lemma {:induction false} DepthBound(order: seq<Stamp>, st: Stamp)
    requires st in order
    ensures 1 <= Depth(order, st) <= |order|
  {
    if order[0] != st { DepthBound(order[1..], st); }
  }

  ghost predicate AliveAt(s: State, key: string, e: Entry, depth: nat) {
    && key in s.entries && s.entries[key] == e
    && Stamp(key, e.expiresAt) in s.order
    && Depth(s.order, Stamp(key, e.expiresAt)) == depth
  }

  /** The eviction loop drops an unexpired entry exactly when its first stamp no longer fits under the cap. */
  lemma {:induction false} SweepSparesExactly(s: State, now: int, key: string, e: Entry, depth: nat)
    requires AliveAt(s, key, e, depth) && now < e.expiresAt
    ensures if depth <= K_MAX_ENTRIES then AliveAt(Sweep(s, now), key, e, depth) else key !in Sweep(s, now).entries
    decreases |s.order|
  {
    var st := Stamp(key, e.expiresAt);
    DepthBound(s.order, st);
    if MustPop(s, now) {
      if s.order[0] == st {
        SweepNeverAdds(Pop(s), now, key);
      } else {
        SweepSparesExactly(Pop(s), now, key, e, depth);
      }
    }
  }

  lemma {:induction false} SweepNeverAdds(s: State, now: int, key: string)
    requires key !in s.entries
    ensures key !in Sweep(s, now).entries
    decreases |s.order|
  {
    if MustPop(s, now) { SweepNeverAdds(Pop(s), now, key); }
  }

  function Starts(ops: seq<Op>): nat {
    if ops == [] then 0 else Starts(Front(ops)) + if Last(ops).StartOp? then 1 else 0
  }

  ghost predicate LeavesAlone(ops: seq<Op>, key: string, deadline: int) {
    forall op :: op in ops ==> op.key != key && op.now < deadline
  }

  /**
   While other keys come and go before its deadline, an entry lives exactly as long as its first stamp and all
   the stamps behind it, old and new, still fit under the cap.
   */
  lemma {:induction false} SurvivesExactly(s: State, ops: seq<Op>, key: string, e: Entry, depth: nat)
    requires AliveAt(s, key, e, depth) && depth <= K_MAX_ENTRIES && LeavesAlone(ops, key, e.expiresAt)
    ensures if depth + Starts(ops) <= K_MAX_ENTRIES then AliveAt(Run(s, ops), key, e, depth + Starts(ops))
            else key !in Run(s, ops).entries
    decreases |ops|
  {
    if ops != [] {
      assert forall op :: op in Front(ops) ==> op in ops;
      assert Last(ops) in ops;
      SurvivesExactly(s, Front(ops), key, e, depth);
      OthersStep(Run(s, Front(ops)), Last(ops), key, e, depth + Starts(Front(ops)));
    }
  }

  lemma {:induction false} OthersStep(s: State, op: Op, key: string, e: Entry, depth: nat)
    requires if depth <= K_MAX_ENTRIES then AliveAt(s, key, e, depth) else key !in s.entries
    requires op.key != key && op.now < e.expiresAt
    ensures var depth' := depth + if op.StartOp? then 1 else 0;
            if depth' <= K_MAX_ENTRIES then AliveAt(Apply(s, op), key, e, depth') else key !in Apply(s, op).entries
  {
    match op
    case ConsumeOp(_, _) =>
    case StartOp(k, challenge, now, ttl) =>
      var pushed := Push(s, k, challenge, now + ttl);
      if depth <= K_MAX_ENTRIES {
        DepthOfPush(s.order, Stamp(key, e.expiresAt), Stamp(k, now + ttl));
        SweepSparesExactly(pushed, now, key, e, depth + 1);
      } else {
        SweepNeverAdds(pushed, now, key);
      }
  }

  /** A start whose deadline is not already stamped for its key begins at depth one. */
  lemma {:induction false} FreshStartIsDeepOne(s: State, key: string, challenge: Bytes, now: int, ttl: int)
    requires 0 < ttl && Stamp(key, now + ttl) !in s.order
    ensures AliveAt(Start(s, key, challenge, now, ttl), key, Entry(challenge, now + ttl), 1)
  {
    DepthOfPush(s.order, Stamp(key, now + ttl), Stamp(key, now + ttl));
    SweepSparesExactly(Push(s, key, challenge, now + ttl), now, key, Entry(challenge, now + ttl), 1);
  }

  /** So a challenge with a deadline of its own is still there to be consumed after fewer than the cap of later starts. */
  lemma {:induction false} FreshStartSurvives(s: State, key: string, challenge: Bytes, now: int, ttl: int, ops: seq<Op>, later: int)
    requires 0 < ttl && Stamp(key, now + ttl) !in s.order
    requires LeavesAlone(ops, key, now + ttl) && later <= now + ttl
    ensures Consume(Run(Start(s, key, challenge, now, ttl), ops), key, later).1
            == if Starts(ops) < 10_000 then Some(challenge) else None
  {
    FreshStartIsDeepOne(s, key, challenge, now, ttl);
    SurvivesExactly(Start(s, key, challenge, now, ttl), ops, key, Entry(challenge, now + ttl), 1);
  }

  /**
   The same promise fails for a key restarted within one clock tick: the older stamp carries the same deadline, so when it
   is popped it takes the newer challenge with it, one start earlier than the cap allows.
   */
  lemma {:induction false} RestartInOneTickDiesEarly(key: string, c1: Bytes, c2: Bytes, now: int, ttl: int, ops: seq<Op>)
    requires 0 < ttl && LeavesAlone(ops, key, now + ttl) && Starts(ops) == K_MAX_ENTRIES - 1
    ensures key !in Run(Start(Start(INITIAL, key, c1, now, ttl), key, c2, now, ttl), ops).entries
  {
    var st := Stamp(key, now + ttl);
    FreshStartIsDeepOne(INITIAL, key, c1, now, ttl);
    var s := Start(INITIAL, key, c1, now, ttl);
    DepthOfPush(s.order, st, st);
    SweepSparesExactly(Push(s, key, c2, now + ttl), now, key, Entry(c2, now + ttl), 2);
    SurvivesExactly(Start(s, key, c2, now, ttl), ops, key, Entry(c2, now + ttl), 2);
  }

  // ------------------------------------------------------------------ runs: nothing expired is kept

  ghost predicate Sorted(order: seq<Stamp>) {
    forall i, j :: 0 <= i < j < |order| ==> order[i].expiresAt <= order[j].expiresAt
  }

  ghost predicate SteadyClock(ops: seq<Op>, ttl: int) {
    && (forall i :: 0 <= i < |ops| && ops[i].StartOp? ==> ops[i].ttl == ttl)
    && (forall i, j :: 0 <= i < j < |ops| ==> ops[i].now <= ops[j].now)
  }

  lemma {:induction false} SweepKeepsSorted(s: State, now: int, bound: int)
    requires Sorted(s.order) && Before(s.order, bound)
    ensures Sorted(Sweep(s, now).order) && Before(Sweep(s, now).order, bound)
    decreases |s.order|
  {
    if MustPop(s, now) { SweepKeepsSorted(Pop(s), now, bound); }
  }

  ghost predicate Before(order: seq<Stamp>, deadline: int) {
    forall st :: st in order ==> st.expiresAt <= deadline
  }

  lemma {:induction false} StartKeepsSorted(s: State, key: string, challenge: Bytes, now: int, ttl: int)
    requires Sorted(s.order) && Before(s.order, now + ttl)
    ensures Sorted(Start(s, key, challenge, now, ttl).order) && Before(Start(s, key, challenge, now, ttl).order, now + ttl)
  {
    SweepKeepsSorted(Push(s, key, challenge, now + ttl), now, now + ttl);
  }

  lemma {:induction false} QueueIsSorted(ops: seq<Op>, ttl: int)
    requires SteadyClock(ops, ttl)
    ensures Sorted(Run(INITIAL, ops).order)
    ensures ops != [] ==> Before(Run(INITIAL, ops).order, Last(ops).now + ttl)
  {
    if ops != [] {
      var op := Last(ops);
      assert op == ops[|ops| - 1] && SteadyClock(Front(ops), ttl);
      QueueIsSorted(Front(ops), ttl);
      var s := Run(INITIAL, Front(ops));
      if Front(ops) != [] { assert Last(Front(ops)).now <= op.now; }
      assert Before(s.order, op.now + ttl);
      if op.StartOp? { StartKeepsSorted(s, op.key, op.challenge, op.now, ttl); }
    }
  }

  /** With one time to live and a clock that does not step back, no start leaves an expired entry behind. */
  lemma {:induction false} NothingExpiredRemains(ops: seq<Op>, ttl: int, key: string)
    requires ops != [] && Last(ops).StartOp? && SteadyClock(ops, ttl)
    requires key in Run(INITIAL, ops).entries
    ensures Last(ops).now < Run(INITIAL, ops).entries[key].expiresAt
  {
    var t := Run(INITIAL, ops);
    RunInvariant(ops);
    RunInvariant(Front(ops));
    QueueIsSorted(ops, ttl);
    var st := StampOf(t, key);
    assert st in t.order;
    var op := Last(ops);
    var s := Run(INITIAL, Front(ops));
    SweepEnds(Push(s, op.key, op.challenge, op.now + op.ttl), op.now);
  }

  lemma {:induction false} SweepEnds(s: State, now: int)
    ensures !MustPop(Sweep(s, now), now)
    decreases |s.order|
  {
    if MustPop(s, now) { SweepEnds(Pop(s), now); }
  }
}
