/**
 The per-IP sliding window of request times.  A call trims the times of its own IP and,
 once per window, sweeps out every IP with nothing left inside the window.  The run
 lemmas compare its answers with the plain log of all requests.
 */
module RequestRateTracker {
  import opened Prelude

  datatype State = State(history: map<string, seq<int>>, lastSweep: int)

  const INITIAL := State(map[], 0)

  /** How many times from position `i` on are too old, up to the first that is not. */
  function Skip(times: seq<int>, cutoff: int, i: nat): (r: nat)
    requires i <= |times|
    ensures i <= r <= |times|
    ensures forall k :: i <= k < r ==> times[k] < cutoff
    ensures r < |times| ==> times[r] >= cutoff
    decreases |times| - i
  {
    if i < |times| && times[i] < cutoff then Skip(times, cutoff, i + 1) else i
  }

  function Trim(times: seq<int>, cutoff: int): seq<int> {
    times[Skip(times, cutoff, 0)..]
  }

  predicate Idle(times: seq<int>, cutoff: int) {
    times == [] || Last(times) < cutoff
  }

  function Sweep(history: map<string, seq<int>>, cutoff: int): map<string, seq<int>> {
    map ip | ip in history && !Idle(history[ip], cutoff) :: history[ip]
  }

  function Swept(s: State, now: int, window: int): State {
    if now - s.lastSweep >= window then State(Sweep(s.history, now - window), now) else s
  }

  /** The times kept for an IP; none is the same as an empty list. */
  function Held(s: State, ip: string): seq<int> {
    if ip in s.history then s.history[ip] else []
  }

  function Record(s: State, ip: string, now: int, window: int): State {
    var t := Swept(s, now, window);
    t.(history := t.history[ip := Trim(Held(t, ip) + [now], now - window)])
  }

  class Tracker {
    var history: map<string, seq<int>>
    var lastSweep: int

    ghost function Abs(): State
      reads this
    {
      State(history, lastSweep)
    }

    constructor ()
      ensures Abs() == INITIAL
    {
      history, lastSweep := map[], 0;
    }

    method Hit(ip: string, now: int, window: int) returns (count: nat)
      modifies this
      ensures Abs() == Record(old(Abs()), ip, now, window)
      ensures count == |Held(Abs(), ip)|
    {
      var cutoff := now - window;
      if now - lastSweep >= window {
        SweepAll(cutoff);
        lastSweep := now;
      }
      assert Abs() == Swept(old(Abs()), now, window);
      var times := (if ip in history then history[ip] else []) + [now];
      times := DropBefore(times, cutoff);
      history := history[ip := times];
      count := |times|;
    }

    static method DropBefore(all: seq<int>, cutoff: int) returns (times: seq<int>)
      ensures times == Trim(all, cutoff)
    {
      times := all;
      ghost var i := 0;
      while times != [] && times[0] < cutoff
        invariant i <= |all| && times == all[i..]
        invariant Skip(all, cutoff, i) == Skip(all, cutoff, 0)
        decreases |times|
      {
        times, i := times[1..], i + 1;
      }
    }

    method SweepAll(cutoff: int)
      modifies `history
      ensures history == Sweep(old(history), cutoff)
    {
      var rest := history.Keys;
      while rest != {}
        invariant rest <= history.Keys <= old(history).Keys
        invariant forall ip :: ip in history ==> history[ip] == old(history)[ip]
        invariant forall ip :: ip in old(history) && ip !in rest ==> (ip in history <==> !Idle(old(history)[ip], cutoff))
        decreases |rest|
      {
        var ip :| ip in rest;
        if history[ip] == [] || Last(history[ip]) < cutoff {
          history := history - {ip};
        }
        rest := rest - {ip};
      }
    }
  }

  // ------------------------------------------------------------------ runs

  datatype Request = Request(ip: string, now: int)

  function Run(log: seq<Request>, window: int): State {
    if log == [] then INITIAL else Record(Run(Front(log), window), Last(log).ip, Last(log).now, window)
  }

  /** The times of all requests of `ip`, in order. */
  function TimesOf(log: seq<Request>, ip: string): seq<int> {
    if log == [] then [] else TimesOf(Front(log), ip) + if Last(log).ip == ip then [Last(log).now] else []
  }

  /** How many of them are not before `since`. */
  function CountSince(times: seq<int>, since: int): nat {
    if times == [] then 0 else CountSince(Front(times), since) + if Last(times) >= since then 1 else 0
  }

  ghost predicate Steady(log: seq<Request>) {
    forall i, j :: 0 <= i < j < |log| ==> log[i].now <= log[j].now
  }

  ghost predicate Sorted(times: seq<int>) {
    forall i, j :: 0 <= i < j < |times| ==> times[i] <= times[j]
  }

  ghost predicate AllBelow(times: seq<int>, cutoff: int) {
    forall t :: t in times ==> t < cutoff
  }

  /** What is kept for an IP is a tail of all its times, and what was dropped is older than `cutoff`. */
  ghost predicate Tail(kept: seq<int>, times: seq<int>, cutoff: int) {
    exists dropped :: AllBelow(dropped, cutoff) && times == dropped + kept
  }

  lemma {:induction false} TimesSorted(log: seq<Request>, ip: string)
    requires Steady(log)
    ensures Sorted(TimesOf(log, ip))
    ensures forall t :: t in TimesOf(log, ip) ==> log != [] && t <= Last(log).now
  {
    if log != [] {
      TimesSorted(Front(log), ip);
      if Front(log) != [] { assert Last(Front(log)).now <= Last(log).now; }
      var earlier, all := TimesOf(Front(log), ip), TimesOf(log, ip);
      forall i, j | 0 <= i < j < |all| ensures all[i] <= all[j] {
        assert all[i] == earlier[i];
        assert earlier[i] in earlier;
      }
    }
  }

  lemma {:induction false} TrimIsTail(times: seq<int>, cutoff: int)
    ensures Tail(Trim(times, cutoff), times, cutoff)
    ensures Trim(times, cutoff) != [] ==> Trim(times, cutoff)[0] >= cutoff
  {
    var dropped := times[..Skip(times, cutoff, 0)];
    assert AllBelow(dropped, cutoff) && times == dropped + Trim(times, cutoff);
  }

  lemma {:induction false} TailOfTail(kept: seq<int>, mid: seq<int>, times: seq<int>, cutoff1: int, cutoff2: int)
    requires Tail(mid, times, cutoff1) && Tail(kept, mid, cutoff2) && cutoff1 <= cutoff2
    ensures Tail(kept, times, cutoff2)
  {
    var d1 :| AllBelow(d1, cutoff1) && times == d1 + mid;
    var d2 :| AllBelow(d2, cutoff2) && mid == d2 + kept;
    assert AllBelow(d1 + d2, cutoff2) && times == (d1 + d2) + kept;
  }

  lemma {:induction false} TailAppend(kept: seq<int>, times: seq<int>, cutoff: int, now: int)
    requires Tail(kept, times, cutoff)
    ensures Tail(kept + [now], times + [now], cutoff)
  {
    var dropped :| AllBelow(dropped, cutoff) && times == dropped + kept;
    assert times + [now] == dropped + (kept + [now]);
  }

  lemma {:induction false} TailSorted(kept: seq<int>, times: seq<int>, cutoff: int)
    requires Tail(kept, times, cutoff) && Sorted(times)
    ensures Sorted(kept)
  {
    var dropped :| AllBelow(dropped, cutoff) && times == dropped + kept;
    forall i, j | 0 <= i < j < |kept| ensures kept[i] <= kept[j] {
      assert kept[i] == times[|dropped| + i] && kept[j] == times[|dropped| + j];
    }
  }

  lemma {:induction false} CountConcat(a: seq<int>, b: seq<int>, since: int)
    ensures CountSince(a + b, since) == CountSince(a, since) + CountSince(b, since)
  {
    if b == [] {
      assert a + b == a;
    } else {
      assert Front(a + b) == a + Front(b);
      CountConcat(a, Front(b), since);
    }
  }

  lemma {:induction false} CountNone(times: seq<int>, since: int)
    requires AllBelow(times, since)
    ensures CountSince(times, since) == 0
  {
    if times != [] {
      assert forall t :: t in Front(times) ==> t in times;
      CountNone(Front(times), since);
      assert Last(times) in times;
    }
  }

  lemma {:induction false} CountAll(times: seq<int>, since: int)
    requires forall t :: t in times ==> since <= t
    ensures CountSince(times, since) == |times|
  {
    if times != [] {
      assert forall t :: t in Front(times) ==> t in times;
      CountAll(Front(times), since);
      assert Last(times) in times;
    }
  }

  lemma {:induction false} CountOfTail(kept: seq<int>, times: seq<int>, cutoff: int)
    requires Tail(kept, times, cutoff) && Sorted(times) && (kept != [] ==> kept[0] >= cutoff)
    ensures CountSince(times, cutoff) == |kept|
  {
    var dropped :| AllBelow(dropped, cutoff) && times == dropped + kept;
    TailSorted(kept, times, cutoff);
    CountConcat(dropped, kept, cutoff);
    CountNone(dropped, cutoff);
    CountAll(kept, cutoff);
  }

  /** Sweeping forgets only IPs whose every kept time is too old anyway. */
  lemma {:induction false} SweepIsTail(s: State, ip: string, now: int, window: int)
    requires Sorted(Held(s, ip))
    ensures Tail(Held(Swept(s, now, window), ip), Held(s, ip), now - window)
  {
    var held := Held(s, ip);
    var kept := Held(Swept(s, now, window), ip);
    var dropped := if kept == held then [] else held;
    assert held == dropped + kept;
    assert AllBelow(dropped, now - window);
  }

  lemma {:induction false} RunKeepsTails(log: seq<Request>, window: int, ip: string)
    requires Steady(log)
    ensures Tail(Held(Run(log, window), ip), TimesOf(log, ip), if log == [] then 0 else Last(log).now - window)
  {
    if log == [] {
      assert [] == [] + Held(INITIAL, ip) && AllBelow([], 0);
    } else {
      RunKeepsTails(Front(log), window, ip);
      TimesSorted(Front(log), ip);
      if Front(log) == [] { assert [] == [] + Held(INITIAL, ip) && AllBelow([], Last(log).now - window); }
      var cutoff := if Front(log) == [] then Last(log).now - window else Last(Front(log)).now - window;
      StepKeepsTail(Run(Front(log), window), TimesOf(Front(log), ip), cutoff, Last(log), window, ip);
    }
  }

  function TimesPlus(times: seq<int>, r: Request, ip: string): seq<int> {
    times + if r.ip == ip then [r.now] else []
  }

  lemma {:induction false} StepKeepsTail(s: State, times: seq<int>, cutoff: int, r: Request, window: int, ip: string)
    requires Tail(Held(s, ip), times, cutoff) && Sorted(times) && cutoff <= r.now - window
    ensures Tail(Held(Record(s, r.ip, r.now, window), ip), TimesPlus(times, r, ip), r.now - window)
  {
    SweptTail(s, times, cutoff, r.now, window, ip);
    HeldAfter(s, r, window, ip);
    PushedTail(Held(Swept(s, r.now, window), ip), times, r, window, ip);
  }

  lemma {:induction false} PushedTail(swept: seq<int>, times: seq<int>, r: Request, window: int, ip: string)
    requires Tail(swept, times, r.now - window)
    ensures Tail(if r.ip == ip then Trim(swept + [r.now], r.now - window) else swept, TimesPlus(times, r, ip), r.now - window)
  {
    if r.ip == ip {
      TrimmedPush(swept, times, r.now - window, r.now);
    } else {
      assert times + [] == times;
    }
  }

  lemma {:induction false} SweptTail(s: State, times: seq<int>, cutoff: int, now: int, window: int, ip: string)
    requires Tail(Held(s, ip), times, cutoff) && Sorted(times) && cutoff <= now - window
    ensures Tail(Held(Swept(s, now, window), ip), times, now - window)
  {
    TailSorted(Held(s, ip), times, cutoff);
    SweepIsTail(s, ip, now, window);
    TailOfTail(Held(Swept(s, now, window), ip), Held(s, ip), times, cutoff, now - window);
  }

  lemma {:induction false} HeldAfter(s: State, r: Request, window: int, ip: string)
    ensures Held(Record(s, r.ip, r.now, window), ip)
            == var swept := Held(Swept(s, r.now, window), ip);
               if r.ip == ip then Trim(swept + [r.now], r.now - window) else swept
  {
  }

  lemma {:induction false} TrimmedPush(kept: seq<int>, times: seq<int>, cutoff: int, now: int)
    requires Tail(kept, times, cutoff)
    ensures Tail(Trim(kept + [now], cutoff), times + [now], cutoff)
  {
    TailAppend(kept, times, cutoff, now);
    TrimIsTail(kept + [now], cutoff);
    TailOfTail(Trim(kept + [now], cutoff), kept + [now], times + [now], cutoff, cutoff);
  }

  /**
   With one window and a clock that does not step back, the answer of the latest call is exactly the number of requests of
   its IP in the whole log that are inside the window, however much was trimmed and swept before.
   */
  lemma {:induction false} AnswerIsExact(log: seq<Request>, window: int)
    requires log != [] && Steady(log)
    ensures |Held(Run(log, window), Last(log).ip)| == CountSince(TimesOf(log, Last(log).ip), Last(log).now - window)
  {
    var ip := Last(log).ip;
    var s := Swept(Run(Front(log), window), Last(log).now, window);
    RunKeepsTails(log, window, ip);
    TimesSorted(log, ip);
    TrimIsTail(Held(s, ip) + [Last(log).now], Last(log).now - window);
    CountOfTail(Held(Run(log, window), ip), TimesOf(log, ip), Last(log).now - window);
  }

  // ------------------------------------------------------------------ nothing stays for long

  /** Every IP kept has been seen since the last sweep's cutoff, and that sweep is at most a window ago. */
  ghost predicate Recent(s: State, now: int, window: int) {
    && s.lastSweep <= now <= s.lastSweep + window
    && forall ip :: ip in s.history ==> s.history[ip] != [] && Last(s.history[ip]) >= s.lastSweep - window
  }

  lemma {:induction false} RecordKeepsRecent(s: State, ip: string, before: int, now: int, window: int)
    requires 0 <= window && before <= now && ((s == INITIAL && 0 <= now) || Recent(s, before, window))
    ensures Recent(Record(s, ip, now, window), now, window)
  {
    var t := Swept(s, now, window);
    assert Recent(t, now, window);
    TrimKeepsLast(Held(t, ip), now, now - window);
  }

  lemma {:induction false} TrimKeepsLast(times: seq<int>, now: int, cutoff: int)
    requires cutoff <= now
    ensures Trim(times + [now], cutoff) != [] && Last(Trim(times + [now], cutoff)) == now
  {
    var all := times + [now];
    assert all[|all| - 1] == now;
  }

  /** After any call, each tracked IP made a request no longer ago than two windows. */
  lemma {:induction false} NothingStaysForLong(log: seq<Request>, window: int, ip: string)
    requires log != [] && Steady(log) && 0 <= window && 0 <= log[0].now
    requires ip in Run(log, window).history
    ensures exists i :: 0 <= i < |log| && log[i].ip == ip && log[i].now >= Last(log).now - 2 * window
  {
    RunRecent(log, window);
    RunKeepsTails(log, window, ip);
    var times := Run(log, window).history[ip];
    var all := TimesOf(log, ip);
    assert Last(times) == Last(all);
    TimeIsLogged(log, ip, |all| - 1);
  }

  lemma {:induction false} RunRecent(log: seq<Request>, window: int)
    requires log != [] && Steady(log) && 0 <= window && 0 <= log[0].now
    ensures Recent(Run(log, window), Last(log).now, window)
  {
    var before := if |log| == 1 then log[0].now else Last(Front(log)).now;
    if |log| > 1 { RunRecent(Front(log), window); }
    RecordKeepsRecent(Run(Front(log), window), Last(log).ip, before, Last(log).now, window);
  }

  lemma {:induction false} TimeIsLogged(log: seq<Request>, ip: string, k: nat)
    requires k < |TimesOf(log, ip)|
    ensures exists i :: 0 <= i < |log| && log[i].ip == ip && log[i].now == TimesOf(log, ip)[k]
  {
    if k < |TimesOf(Front(log), ip)| {
      TimeIsLogged(Front(log), ip, k);
      var i :| 0 <= i < |Front(log)| && Front(log)[i].ip == ip && Front(log)[i].now == TimesOf(Front(log), ip)[k];
      assert log[i] == Front(log)[i];
    } else {
      assert log[|log| - 1].ip == ip;
    }
  }
}
