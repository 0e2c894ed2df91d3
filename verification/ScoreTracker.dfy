/**
 The per-IP running score of the ban system: a hash map for the scores and a
 queue that remembers the age of each entry.  A queue item is matched to its map
 entry by a sequence number, so items of entries since reset are stale and are
 skipped when they are popped.

 `State` and the functions on it say what one call does; `Tracker` is the object
 whose methods do it in place.  The run lemmas compare the bounded structure
 with `History`, which keeps every insertion ever made and never pops anything.
 */
module ScoreTracker {
  import opened Prelude

  const INT_MAX := 0x7FFF_FFFF
  const INT_MIN := -0x8000_0000

  function Clamp(x: int): int {
    if x < INT_MIN then INT_MIN else if x > INT_MAX then INT_MAX else x
  }

  datatype Entry = Entry(score: int, stamp: nat)

  datatype Item = Item(ip: string, stamp: nat)

  datatype State = State(cap: nat, scores: map<string, Entry>, order: seq<Item>, nextSeq: nat)

  /** The queue holds consecutive stamps ending just below `nextSeq`, and every score has its queue item. */
  ghost predicate Valid(s: State) {
    && 1 <= s.cap
    && |s.order| <= s.cap
    && |s.order| <= s.nextSeq
    && (forall i :: 0 <= i < |s.order| ==> s.order[i].stamp == s.nextSeq - |s.order| + i)
    && (forall ip :: ip in s.scores ==> Queued(s.order, ip, s.scores[ip].stamp, s.nextSeq))
  }

  ghost predicate Queued(order: seq<Item>, ip: string, stamp: nat, nextSeq: nat) {
    && nextSeq - |order| <= stamp < nextSeq
    && order[stamp - (nextSeq - |order|)] == Item(ip, stamp)
  }

  /** The score map after the front item `oldest` is popped. */
  function PopItem(scores: map<string, Entry>, oldest: Item): map<string, Entry> {
    if oldest.ip in scores && scores[oldest.ip].stamp == oldest.stamp then scores - {oldest.ip} else scores
  }

  /** The whole eviction loop. */
  function Evict(s: State): State
    decreases |s.order|
  {
    if |s.order| <= s.cap then s
    else Evict(s.(scores := PopItem(s.scores, s.order[0]), order := s.order[1..]))
  }

  function Insert(s: State, ip: string): State {
    s.(scores := s.scores[ip := Entry(0, s.nextSeq)],
       order := s.order + [Item(ip, s.nextSeq)],
       nextSeq := s.nextSeq + 1)
  }

  /** A first offence enters the map and the queue and may push the oldest item out. */
  function Ensured(s: State, ip: string): State {
    if ip in s.scores then s else Evict(Insert(s, ip))
  }

  lemma {:induction false} EnsuredTracks(s: State, ip: string)
    requires Valid(s)
    ensures Valid(Ensured(s, ip))
    ensures ip in Ensured(s, ip).scores
    ensures Ensured(s, ip).cap == s.cap
  {
    if ip !in s.scores {
      var t := Insert(s, ip);
      if |t.order| > t.cap {
        PoppedIsValid(s, ip);
        assert Evict(t) == t.(scores := PopItem(t.scores, t.order[0]), order := t.order[1..]);
      }
    }
  }

  /** The insertion was one too many: the front item goes. */
  lemma {:induction false} PoppedIsValid(s: State, ip: string)
    requires Valid(s) && ip !in s.scores && |s.order| == s.cap
    ensures var t := Insert(s, ip);
            var u := t.(scores := PopItem(t.scores, t.order[0]), order := t.order[1..]);
            Valid(u) && ip in u.scores
  {
    var t := Insert(s, ip);
    var u := t.(scores := PopItem(t.scores, t.order[0]), order := t.order[1..]);
    forall x | x in u.scores
      ensures Queued(u.order, x, u.scores[x].stamp, u.nextSeq)
    {
      assert x in t.scores && u.scores[x] == t.scores[x];
      if x != ip {
        assert Queued(s.order, x, s.scores[x].stamp, s.nextSeq);
        assert t.scores[x].stamp != t.order[0].stamp;
      }
    }
  }

  function AddPoints(s: State, ip: string, points: int): (r: State)
    requires Valid(s)
    ensures Valid(r) && ip in r.scores && r.cap == s.cap
  {
    EnsuredTracks(s, ip);
    var t := Ensured(s, ip);
    var e := t.scores[ip];
    t.(scores := t.scores[ip := e.(score := Clamp(e.score + points))])
  }

  function Reset(s: State, ip: string): (r: State)
    requires Valid(s)
    ensures Valid(r) && r.cap == s.cap && ip !in r.scores
  {
    s.(scores := s.scores - {ip})
  }

  function Current(s: State, ip: string): int {
    if ip in s.scores then s.scores[ip].score else 0
  }

  class Tracker {
    const maxTrackedIps: nat
    var scores: map<string, Entry>
    var order: seq<Item>
    var nextSeq: nat

    ghost function Abs(): State
      reads this
    {
      State(maxTrackedIps, scores, order, nextSeq)
    }

    constructor (max: nat)
      ensures Valid(Abs())
      ensures Abs() == Empty(max) && maxTrackedIps == if max == 0 then 1 else max
    {
      maxTrackedIps := if max < 1 then 1 else max;
      scores := map[];
      order := [];
      nextSeq := 0;
    }

    method Add(ip: string, points: int) returns (total: int)
      requires Valid(Abs())
      modifies this
      ensures Abs() == AddPoints(old(Abs()), ip, points)
      ensures total == Current(Abs(), ip)
    {
      ghost var before := Abs();
      EnsureTracked(ip);
      EnsuredTracks(before, ip);
      total := Clamp(scores[ip].score + points);
      scores := scores[ip := scores[ip].(score := total)];
    }

    method EnsureTracked(ip: string)
      modifies this
      ensures Abs() == Ensured(old(Abs()), ip)
    {
      if ip !in scores {
        scores := scores[ip := Entry(0, nextSeq)];
        order := order + [Item(ip, nextSeq)];
        nextSeq := nextSeq + 1;
        EvictOldest();
      }
    }

    method EvictOldest()
      modifies this
      ensures Abs() == Evict(old(Abs()))
    {
      while |order| > maxTrackedIps
        invariant Evict(Abs()) == Evict(old(Abs()))
        decreases |order|
      {
        var oldest := order[0];
        if oldest.ip in scores && scores[oldest.ip].stamp == oldest.stamp {
          scores := scores - {oldest.ip};
        }
        order := order[1..];
      }
    }

    method ResetScore(ip: string)
      requires Valid(Abs())
      modifies this
      ensures Abs() == Reset(old(Abs()), ip)
    {
      scores := scores - {ip};
    }
  }

  // ------------------------------------------------------------------ runs

  datatype Op = Add(ip: string, points: int) | Forget(ip: string)

  function Empty(max: nat): State {
    State(if max < 1 then 1 else max, map[], [], 0)
  }

  function Apply(s: State, op: Op): (r: State)
    requires Valid(s)
    ensures Valid(r) && r.cap == s.cap
  {
    match op
    case Add(ip, points) => AddPoints(s, ip, points)
    case Forget(ip) => Reset(s, ip)
  }

  function Run(ops: seq<Op>, max: nat): (s: State)
    ensures Valid(s) && s.cap == Empty(max).cap
  {
    if ops == [] then Empty(max) else Apply(Run(Front(ops), max), Last(ops))
  }

  /** Where an IP's latest fresh insertion stands: its rank among all insertions, and the call that made it. */
  datatype Birth = Birth(rank: nat, call: nat)

  /** Every insertion ever made, and the latest one of each IP that was not reset since. */
  datatype Ref = Ref(inserted: seq<string>, live: map<string, Birth>)

  predicate Tracked(r: Ref, cap: nat, ip: string) {
    ip in r.live && |r.inserted| - cap <= r.live[ip].rank
  }

  function History(ops: seq<Op>, cap: nat): Ref {
    if ops == [] then Ref([], map[])
    else
      var r := History(Front(ops), cap);
      match Last(ops)
      case Add(ip, _) =>
        if Tracked(r, cap, ip) then r
        else Ref(r.inserted + [ip], r.live[ip := Birth(|r.inserted|, |ops| - 1)])
      case Forget(ip) => r.(live := r.live - {ip})
  }

  /** The saturating sum of the points given to `ip` by the calls from number `from` on. */
  function PointsSince(ops: seq<Op>, ip: string, from: nat): int {
    if |ops| <= from then 0
    else
      var before := PointsSince(Front(ops), ip, from);
      match Last(ops)
      case Add(x, points) => if x == ip then Clamp(before + points) else before
      case Forget(_) => before
  }

  /** What the reference means in terms of the calls alone. */
  lemma {:induction false} HistoryMeaning(ops: seq<Op>, cap: nat, ip: string)
    requires ip in History(ops, cap).live
    ensures var r := History(ops, cap); var b := r.live[ip];
            && b.rank < |r.inserted| && r.inserted[b.rank] == ip
            && b.call < |ops| && ops[b.call].Add? && ops[b.call].ip == ip
            && ip !in r.inserted[b.rank + 1..]
            && Forget(ip) !in ops[b.call..]
  {
    var r0 := History(Front(ops), cap);
    var r := History(ops, cap);
    if r.live[ip] == Birth(|r0.inserted|, |ops| - 1) && r.inserted == r0.inserted + [ip] {
      assert ops[|ops| - 1..] == [Last(ops)];
      assert r.inserted[|r0.inserted| + 1..] == [];
    } else {
      HistoryMeaning(Front(ops), cap, ip);
      var b := r.live[ip];
      assert ops[b.call..] == Front(ops)[b.call..] + [Last(ops)];
      if |r.inserted| > |r0.inserted| {
        assert r.inserted[b.rank + 1..] == r0.inserted[b.rank + 1..] + [Last(ops).ip];
      }
    }
  }

  /** Call number `c` inserts `ip` afresh. */
  predicate Inserts(ops: seq<Op>, cap: nat, ip: string, c: nat)
    requires c < |ops|
  {
    ops[c].Add? && ops[c].ip == ip && !Tracked(History(ops[..c], cap), cap, ip)
  }

  lemma {:induction false} InsertsFront(ops: seq<Op>, cap: nat, ip: string, c: nat)
    requires c + 1 < |ops|
    ensures Inserts(ops, cap, ip, c) == Inserts(Front(ops), cap, ip, c)
    ensures Forget(ip) in ops[c..] <==> Forget(ip) in Front(ops)[c..] || Last(ops) == Forget(ip)
  {
    assert ops[..c] == Front(ops)[..c];
    assert ops[c..] == Front(ops)[c..] + [Last(ops)];
  }

  /**
   The other direction: an IP is live exactly when one of its insertions was not followed by a reset, and then the
   reference holds the latest insertion.
   */
  lemma {:induction false} LiveExactly(ops: seq<Op>, cap: nat, ip: string)
    ensures var r := History(ops, cap);
            && (ip in r.live <==> exists c :: 0 <= c < |ops| && Inserts(ops, cap, ip, c) && Forget(ip) !in ops[c..])
            && (ip in r.live ==>
                  var b := r.live[ip].call;
                  && b < |ops| && Inserts(ops, cap, ip, b) && Forget(ip) !in ops[b..]
                  && forall c :: b < c < |ops| ==> !Inserts(ops, cap, ip, c))
  {
    if ops != [] {
      LiveExactly(Front(ops), cap, ip);
      var n := |ops| - 1;
      assert ops[..n] == Front(ops) && ops[n..] == [Last(ops)];
      forall c: nat | c < n
        ensures Inserts(ops, cap, ip, c) == Inserts(Front(ops), cap, ip, c)
        ensures Forget(ip) in ops[c..] <==> Forget(ip) in Front(ops)[c..] || Last(ops) == Forget(ip)
      {
        InsertsFront(ops, cap, ip, c);
      }
      if Inserts(ops, cap, ip, n) { assert Forget(ip) !in ops[n..]; }
    }
  }

  /** Adding saturates at the bounds of a 32-bit int and is plain addition between them. */
  lemma {:induction false} AddingSaturates(s: State, ip: string, points: int)
    requires Valid(s)
    ensures var sum, total := Current(s, ip) + points, Current(AddPoints(s, ip, points), ip);
            && -2147483648 <= total <= 2147483647
            && (-2147483648 <= sum <= 2147483647 ==> total == sum)
            && (sum < -2147483648 ==> total == -2147483648) && (sum > 2147483647 ==> total == 2147483647)
  {
    if ip !in s.scores { FreshOutcome(s, ip, points); }
  }

  /** The plain sum of the points given to `ip` by the calls from number `from` on. */
  function PlainSince(ops: seq<Op>, ip: string, from: nat): int {
    if |ops| <= from then 0
    else PlainSince(Front(ops), ip, from) + if Last(ops).Add? && Last(ops).ip == ip then Last(ops).points else 0
  }

  ghost predicate NoNegativePoints(ops: seq<Op>) {
    forall i :: 0 <= i < |ops| && ops[i].Add? ==> ops[i].points >= 0
  }

  /** Of points that are not negative, what is held is the plain sum as far as it fits an int. */
  lemma {:induction false} SumsArePlain(ops: seq<Op>, ip: string, from: nat)
    requires NoNegativePoints(ops)
    ensures PlainSince(ops, ip, from) >= 0
    ensures PointsSince(ops, ip, from) == if PlainSince(ops, ip, from) > 2147483647 then 2147483647 else PlainSince(ops, ip, from)
  {
    if |ops| > from {
      assert Last(ops) == ops[|ops| - 1];
      assert forall i :: 0 <= i < |Front(ops)| ==> Front(ops)[i] == ops[i];
      SumsArePlain(Front(ops), ip, from);
    }
  }

  /** The queue of `s` is the last `cap` insertions of the unbounded history `r`. */
  ghost predicate QueueIsSuffix(s: State, r: Ref) {
    && s.nextSeq == |r.inserted|
    && |s.order| == (if |r.inserted| < s.cap then |r.inserted| else s.cap)
    && (forall i :: 0 <= i < |s.order| ==> s.order[i] == Item(r.inserted[s.nextSeq - |s.order| + i], s.nextSeq - |s.order| + i))
  }

  /** `ip` has a score exactly when its latest insertion is among the last `cap`, and the score is what it earned since. */
  ghost predicate Agrees(s: State, r: Ref, ops: seq<Op>, ip: string) {
    && (ip in s.scores <==> Tracked(r, s.cap, ip))
    && (ip in s.scores ==> s.scores[ip] == Entry(PointsSince(ops, ip, r.live[ip].call), r.live[ip].rank))
  }

  ghost predicate Window(s: State, ops: seq<Op>) {
    && QueueIsSuffix(s, History(ops, s.cap))
    && forall ip :: Agrees(s, History(ops, s.cap), ops, ip)
  }

  /** After any calls whatever, the tracker is exactly the window of the full history. */
  lemma {:induction false} RunIsWindow(ops: seq<Op>, max: nat)
    ensures Window(Run(ops, max), ops)
  {
    if ops != [] {
      RunIsWindow(Front(ops), max);
      StepKeepsWindow(Front(ops), Run(Front(ops), max), Last(ops));
      assert ops == Front(ops) + [Last(ops)];
    }
  }

  lemma {:induction false} StepKeepsWindow(ops: seq<Op>, s: State, op: Op)
    requires Valid(s) && Window(s, ops)
    ensures Window(Apply(s, op), ops + [op])
  {
    var r := History(ops, s.cap);
    assert Agrees(s, r, ops, op.ip);
    forall x
      ensures Agrees(Apply(s, op), History(ops + [op], s.cap), ops + [op], x)
    {
      assert Agrees(s, r, ops, x);
      match op
      case Forget(ip) => ForgetAgrees(ops, s, ip, x);
      case Add(ip, points) =>
        if ip in s.scores { AgainAgrees(ops, s, ip, points, x); } else { FreshAgrees(ops, s, ip, points, x); }
    }
    StepKeepsQueue(ops, s, op);
  }

  lemma {:induction false} StepKeepsQueue(ops: seq<Op>, s: State, op: Op)
    requires Valid(s) && QueueIsSuffix(s, History(ops, s.cap)) && Agrees(s, History(ops, s.cap), ops, op.ip)
    ensures QueueIsSuffix(Apply(s, op), History(ops + [op], s.cap))
  {
    assert Front(ops + [op]) == ops;
    if op.Add? && op.ip !in s.scores { FreshStepQueue(s, History(ops, s.cap), op.ip, op.points, |ops|); }
  }

  lemma {:induction false} FreshStepQueue(s: State, r: Ref, ip: string, points: int, call: nat)
    requires Valid(s) && QueueIsSuffix(s, r) && ip !in s.scores
    ensures QueueIsSuffix(AddPoints(s, ip, points), Ref(r.inserted + [ip], r.live[ip := Birth(|r.inserted|, call)]))
  {
    FreshOrder(s, ip, points);
    PushedIsSuffix(s, r, AddPoints(s, ip, points), ip, Ref(r.inserted + [ip], r.live[ip := Birth(|r.inserted|, call)]));
  }

  lemma {:induction false} PushedIsSuffix(s: State, r: Ref, t: State, ip: string, u: Ref)
    requires 1 <= s.cap && QueueIsSuffix(s, r) && u.inserted == r.inserted + [ip]
    requires t.order == (s.order + [Item(ip, s.nextSeq)])[if |s.order| == s.cap then 1 else 0..] && t.nextSeq == s.nextSeq + 1 && t.cap == s.cap
    ensures QueueIsSuffix(t, u)
  {
    FreshQueue(s.order, r.inserted, ip, if |s.order| == s.cap then 1 else 0);
  }

  lemma {:induction false} FreshOrder(s: State, ip: string, points: int)
    requires Valid(s) && ip !in s.scores
    ensures var popped := if |s.order| == s.cap then 1 else 0; var t := AddPoints(s, ip, points);
            t.order == (s.order + [Item(ip, s.nextSeq)])[popped..] && t.nextSeq == s.nextSeq + 1 && t.cap == s.cap
  {
    FreshOutcome(s, ip, points);
  }

  lemma {:induction false} FreshQueue(order: seq<Item>, inserted: seq<string>, ip: string, popped: nat)
    requires |order| <= |inserted| && popped <= |order|
    requires forall i :: 0 <= i < |order| ==> order[i] == Item(inserted[|inserted| - |order| + i], |inserted| - |order| + i)
    ensures var o := (order + [Item(ip, |inserted|)])[popped..]; var n := |inserted| + 1;
            forall i :: 0 <= i < |o| ==> o[i] == Item((inserted + [ip])[n - |o| + i], n - |o| + i)
  {
  }

  lemma {:induction false} ForgetAgrees(ops: seq<Op>, s: State, ip: string, x: string)
    requires Valid(s) && Agrees(s, History(ops, s.cap), ops, x)
    ensures var ops' := ops + [Forget(ip)]; Agrees(Reset(s, ip), History(ops', s.cap), ops', x)
  {
    assert Front(ops + [Forget(ip)]) == ops;
    if x in s.scores { HistoryMeaning(ops, s.cap, x); }
  }

  lemma {:induction false} AgainAgrees(ops: seq<Op>, s: State, ip: string, points: int, x: string)
    requires Valid(s) && ip in s.scores
    requires Agrees(s, History(ops, s.cap), ops, ip) && Agrees(s, History(ops, s.cap), ops, x)
    ensures var ops' := ops + [Add(ip, points)]; Agrees(AddPoints(s, ip, points), History(ops', s.cap), ops', x)
  {
    var ops' := ops + [Add(ip, points)];
    assert Front(ops') == ops;
    if x in s.scores { HistoryMeaning(ops, s.cap, x); }
  }

  lemma {:induction false} FreshAgrees(ops: seq<Op>, s: State, ip: string, points: int, x: string)
    requires Valid(s) && ip !in s.scores && QueueIsSuffix(s, History(ops, s.cap))
    requires Agrees(s, History(ops, s.cap), ops, ip) && Agrees(s, History(ops, s.cap), ops, x)
    ensures var ops' := ops + [Add(ip, points)]; Agrees(AddPoints(s, ip, points), History(ops', s.cap), ops', x)
  {
    var ops', r := ops + [Add(ip, points)], History(ops, s.cap);
    assert Front(ops') == ops;
    assert History(ops', s.cap) == Ref(r.inserted + [ip], r.live[ip := Birth(|r.inserted|, |ops|)]);
    if x == ip {
      FreshOutcome(s, ip, points);
      assert PointsSince(ops, x, |ops|) == 0;
    } else {
      FreshScore(s, ip, points, x);
      if x in s.scores { HistoryMeaning(ops, s.cap, x); }
    }
  }

  /** Another IP keeps its score, unless its queue item is the one that is popped. */
  lemma {:induction false} FreshScore(s: State, ip: string, points: int, x: string)
    requires Valid(s) && ip !in s.scores && x != ip
    ensures var t := AddPoints(s, ip, points);
            && (x in t.scores <==> x in s.scores && s.scores[x].stamp > s.nextSeq - s.cap)
            && (x in t.scores ==> t.scores[x] == s.scores[x])
  {
    FreshOutcome(s, ip, points);
    if x in s.scores {
      assert Queued(s.order, x, s.scores[x].stamp, s.nextSeq);
    }
  }

  /** A fresh insertion, with the eviction loop unrolled: it pops at most the one item that no longer fits. */
  lemma {:induction false} FreshOutcome(s: State, ip: string, points: int)
    requires Valid(s) && ip !in s.scores
    ensures var t := Insert(s, ip);
            var popped := |s.order| == s.cap;
            var scores := if popped then PopItem(t.scores, t.order[0]) else t.scores;
            && ip in scores
            && AddPoints(s, ip, points) ==
               t.(scores := scores[ip := Entry(Clamp(points), s.nextSeq)], order := if popped then t.order[1..] else t.order)
  {
    EnsuredTracks(s, ip);
    var t := Insert(s, ip);
    if |s.order| == s.cap {
      var u := t.(scores := PopItem(t.scores, t.order[0]), order := t.order[1..]);
      assert Evict(t) == Evict(u) == u;
    }
  }

  /** The map never outgrows the cap: its entries have different queue items. */
  lemma {:induction false} TrackedIpsBounded(s: State)
    requires Valid(s)
    ensures |s.scores| <= s.cap
  {
    var ranks := Below(|s.order|);
    var owner := map ip | ip in s.scores :: s.scores[ip].stamp - (s.nextSeq - |s.order|);
    forall ip | ip in owner
      ensures owner[ip] in ranks && s.order[owner[ip]].ip == ip
    {
      assert Queued(s.order, ip, s.scores[ip].stamp, s.nextSeq);
    }
    InjectionSize(owner, ranks);
    assert owner.Keys == s.scores.Keys;
  }

  ghost function Below(n: nat): (r: set<int>)
    ensures |r| == n
    ensures forall i :: i in r <==> 0 <= i < n
  {
    if n == 0 then {} else Below(n - 1) + {n - 1}
  }

  lemma {:induction false} InjectionSize<K>(f: map<K, int>, range: set<int>)
    requires forall k :: k in f ==> f[k] in range
    requires forall k, l :: k in f && l in f && k != l ==> f[k] != f[l]
    ensures |f| <= |range|
    decreases |f|
  {
    if f != map[] {
      var k :| k in f;
      var g := f - {k};
      assert g.Keys == f.Keys - {k};
      InjectionSize(g, range - {f[k]});
    }
  }
}
