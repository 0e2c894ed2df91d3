/**
 Time-based one-time codes (RFC 6238): the three steps that are tried, and the memory of the
 last step accepted, which bounds how many codes an interval of time can accept.  What is
 said of runs is said of any table of six-digit codes; `VerifyTotp` uses the one of `Hotp`.
 */
module Totp {
  import opened Prelude
  import Hotp
  import Base32

  const STEP_SECONDS := 30
  const TWO_64 := 0x1_0000_0000_0000_0000

  /** The six digits that a key shows at a step. */
  type Codes = (seq<int>, int) -> string

  ghost predicate AlwaysSix(codes: Codes) {
    forall key, step :: Hotp.CodeShape(codes(key, step))
  }

  function U64(x: int): nat {
    x % TWO_64
  }

  /** The codes that `hotp` and `format_code` produce, the step taken as an unsigned 64-bit counter. */
  ghost predicate Faithful(mac: Hotp.Mac, codes: Codes)
    requires Hotp.IsMac(mac)
  {
    forall key, step {:trigger Hotp.CodeAt(mac, key, U64(step))} :: codes(key, step) == Hotp.Printed(Hotp.CodeAt(mac, key, U64(step)))
  }

  ghost function PrintedAt(mac: Hotp.Mac, key: seq<int>, step: int): string
    requires Hotp.IsMac(mac)
  {
    Hotp.Printed(Hotp.CodeAt(mac, key, U64(step)))
  }

  lemma {:induction false} PrintedIsSix(mac: Hotp.Mac, key: seq<int>, step: int)
    requires Hotp.IsMac(mac)
    ensures Hotp.CodeShape(PrintedAt(mac, key, step))
  {
    Hotp.PrintedSpells(Hotp.CodeAt(mac, key, U64(step)));
  }

  ghost function CodesOf(mac: Hotp.Mac): (codes: Codes)
    requires Hotp.IsMac(mac)
    ensures Faithful(mac, codes) && AlwaysSix(codes)
  {
    var codes := (key: seq<int>, step: int) => PrintedAt(mac, key, step);
    assert AlwaysSix(codes) by {
      forall key, step ensures Hotp.CodeShape(codes(key, step)) { PrintedIsSix(mac, key, step); }
    }
    codes
  }

  // ------------------------------------------------------------------ verification

  /** C++ division, which truncates toward zero. */
  function TruncDiv(a: int, b: int): int
    requires b > 0
  {
    if a >= 0 then a / b else -((-a) / b)
  }

  /** `code` is the one that the secret shows at `step`. */
  ghost predicate Shows(codes: Codes, secret: string, code: string, step: int) {
    exists key :: ShowsByKey(codes, secret, key, code, step)
  }

  ghost predicate ShowsByKey(codes: Codes, secret: string, key: seq<int>, code: string, step: int) {
    Base32.Decodes(secret, key) && key != [] && codes(key, step) == code
  }

  /** The earliest of the current step and its two neighbours that shows the code. */
  ghost function FirstMatch(codes: Codes, secret: string, code: string, now: int): (r: Option<int>)
    ensures r.Some? ==> TruncDiv(now, STEP_SECONDS) - 1 <= r.value <= TruncDiv(now, STEP_SECONDS) + 1
    ensures r.Some? ==> Shows(codes, secret, code, r.value)
  {
    var step := TruncDiv(now, STEP_SECONDS);
    Earliest(step, Shows(codes, secret, code, step - 1), Shows(codes, secret, code, step), Shows(codes, secret, code, step + 1))
  }

  function Earliest(step: int, before: bool, here: bool, after: bool): Option<int> {
    if before then Some(step - 1) else if here then Some(step) else if after then Some(step + 1) else None
  }

  method VerifyTotp(mac: Hotp.Mac, secret: string, code: string, now: int) returns (ok: bool, step: int)
    requires Hotp.IsMac(mac)
    ensures FirstMatch(CodesOf(mac), secret, code, now) == if ok then Some(step) else None
  {
    ok, step := Verify(mac, CodesOf(mac), secret, code, now);
  }

  method Verify(mac: Hotp.Mac, ghost codes: Codes, secret: string, code: string, now: int) returns (ok: bool, step: int)
    requires Hotp.IsMac(mac) && Faithful(mac, codes) && AlwaysSix(codes)
    ensures FirstMatch(codes, secret, code, now) == if ok then Some(step) else None
  {
    if !Hotp.CodeShape(code) {
      return false, 0;
    }
    var decoded := Base32.Decode(secret);
    if decoded.Err? || decoded.value == [] {
      NoUsableKey(codes, secret, code);
      return false, 0;
    }
    ok, step := TrySteps(mac, codes, secret, decoded.value, code, now);
  }

  /** The steps around the current one, earliest first. */
  method TrySteps(mac: Hotp.Mac, ghost codes: Codes, ghost secret: string, key: seq<int>, code: string, now: int) returns (ok: bool, step: int)
    requires Hotp.IsMac(mac) && Faithful(mac, codes) && Base32.Decodes(secret, key) && key != []
    ensures FirstMatch(codes, secret, code, now) == if ok then Some(step) else None
  {
    var counter := TruncDiv(now, STEP_SECONDS);
    for drift := -1 to 2
      invariant NoneBefore(codes, secret, code, counter, counter + drift)
    {
      step := counter + drift;
      var hit := TryStep(mac, codes, key, code, step);
      OneKey(codes, secret, key, code, step);
      if hit {
        FirstOfThree(codes, secret, code, now, step);
        return true, step;
      }
    }
    NoneOfThree(codes, secret, code, now);
    return false, 0;
  }

  method TryStep(mac: Hotp.Mac, ghost codes: Codes, key: seq<int>, code: string, step: int) returns (hit: bool)
    requires Hotp.IsMac(mac) && Faithful(mac, codes)
    ensures hit <==> codes(key, step) == code
  {
    var value := Hotp.Generate(mac, key, U64(step));
    hit := Hotp.Printed(value) == code;
  }

  ghost predicate NoneBefore(codes: Codes, secret: string, code: string, counter: int, end: int) {
    forall step :: counter - 1 <= step < end ==> !Shows(codes, secret, code, step)
  }

  lemma {:induction false} NoUsableKey(codes: Codes, secret: string, code: string)
    requires !Base32.InAlphabet(Base32.Cleaned(secret)) || Base32.Decodes(secret, [])
    ensures forall step :: !Shows(codes, secret, code, step)
  {
  }

  /** A secret stands for one key. */
  lemma {:induction false} OneKey(codes: Codes, secret: string, key: seq<int>, code: string, step: int)
    requires Base32.Decodes(secret, key) && key != []
    ensures codes(key, step) == code <==> Shows(codes, secret, code, step)
  {
    if codes(key, step) == code { assert ShowsByKey(codes, secret, key, code, step); }
    if Shows(codes, secret, code, step) {
      var other :| ShowsByKey(codes, secret, other, code, step);
      Base32.OneDecoding(secret, key, other);
    }
  }

  lemma {:induction false} FirstOfThree(codes: Codes, secret: string, code: string, now: int, step: int)
    requires Shows(codes, secret, code, step) && NoneBefore(codes, secret, code, TruncDiv(now, STEP_SECONDS), step)
    requires TruncDiv(now, STEP_SECONDS) - 1 <= step <= TruncDiv(now, STEP_SECONDS) + 1
    ensures FirstMatch(codes, secret, code, now) == Some(step)
  {
    var counter := TruncDiv(now, STEP_SECONDS);
    assert step > counter - 1 ==> !Shows(codes, secret, code, counter - 1);
    assert step > counter ==> !Shows(codes, secret, code, counter);
  }

  lemma {:induction false} NoneOfThree(codes: Codes, secret: string, code: string, now: int)
    requires NoneBefore(codes, secret, code, TruncDiv(now, STEP_SECONDS), TruncDiv(now, STEP_SECONDS) + 2)
    ensures FirstMatch(codes, secret, code, now) == None
  {
  }

  // ------------------------------------------------------------------ one use per step

  /** `UserStore::consume_totp_step`: a user's steps only ever go up. */
  function ConsumeStep(last: map<string, int>, user: string, step: int): (r: (map<string, int>, bool)) {
    if user in last && step <= last[user] then (last, false) else (last[user := step], true)
  }

  /** One code offered at login: the secret is the user's at that moment. */
  datatype Attempt = Attempt(user: string, secret: string, code: string, now: int)

  ghost function Offer(codes: Codes, last: map<string, int>, a: Attempt): (map<string, int>, bool)
  {
    match FirstMatch(codes, a.secret, a.code, a.now)
    case None => (last, false)
    case Some(step) => ConsumeStep(last, a.user, step)
  }

  ghost function LastSteps(codes: Codes, start: map<string, int>, attempts: seq<Attempt>): map<string, int>
  {
    if attempts == [] then start else Offer(codes, LastSteps(codes, start, Front(attempts)), Last(attempts)).0
  }

  ghost predicate Accepted(codes: Codes, start: map<string, int>, attempts: seq<Attempt>, i: nat)
    requires i < |attempts|
  {
    Offer(codes, LastSteps(codes, start, attempts[..i]), attempts[i]).1
  }

  /** How many codes of `user` a run accepts with the clock in [t0, t1]. */
  ghost function AcceptedBetween(codes: Codes, start: map<string, int>, attempts: seq<Attempt>, user: string, t0: int, t1: int): nat
  {
    if attempts == [] then 0
    else
      var a := Last(attempts);
      AcceptedBetween(codes, start, Front(attempts), user, t0, t1)
      + if a.user == user && t0 <= a.now <= t1 && Accepted(codes, start, attempts, |attempts| - 1) then 1 else 0
  }

  /** Whatever happened in between, a later accepted step is a higher one: no code is taken twice. */
  lemma {:induction false} StepsIncrease(codes: Codes, start: map<string, int>, attempts: seq<Attempt>, i: nat, j: nat)
    requires i < j < |attempts| && attempts[i].user == attempts[j].user
    requires Accepted(codes, start, attempts, i) && Accepted(codes, start, attempts, j)
    ensures FirstMatch(codes, attempts[i].secret, attempts[i].code, attempts[i].now).value
         <  FirstMatch(codes, attempts[j].secret, attempts[j].code, attempts[j].now).value
  {
    var step := FirstMatch(codes, attempts[i].secret, attempts[i].code, attempts[i].now).value;
    OneAttempt(codes, start, attempts, i);
    LastStepsGrow(codes, start, attempts, attempts[i].user, step, i + 1, j);
  }

  lemma {:induction false} OneAttempt(codes: Codes, start: map<string, int>, attempts: seq<Attempt>, i: nat)
    requires i < |attempts|
    ensures LastSteps(codes, start, attempts[..i + 1]) == Offer(codes, LastSteps(codes, start, attempts[..i]), attempts[i]).0
  {
    assert Front(attempts[..i + 1]) == attempts[..i];
  }

  lemma {:induction false} LastStepsGrow(codes: Codes, start: map<string, int>, attempts: seq<Attempt>, user: string, step: int, i: nat, j: nat)
    requires i <= j <= |attempts|
    requires var last := LastSteps(codes, start, attempts[..i]); user in last && step <= last[user]
    ensures var last := LastSteps(codes, start, attempts[..j]); user in last && step <= last[user]
    decreases j - i
  {
    if i < j {
      OneAttempt(codes, start, attempts, i);
      LastStepsGrow(codes, start, attempts, user, step, i + 1, j);
    }
  }

  /** Codes accepted with the clock in [t0, t1] have steps between these two, and no two of them the same. */
  lemma {:induction false} AcceptanceBound(codes: Codes, start: map<string, int>, attempts: seq<Attempt>, user: string, t0: int, t1: int)
    requires t0 <= t1
    ensures AcceptedBetween(codes, start, attempts, user, t0, t1) <= TruncDiv(t1, STEP_SECONDS) - TruncDiv(t0, STEP_SECONDS) + 3
  {
    CountBelow(codes, start, attempts, user, t0, t1);
    TruncDivMonotone(t0, t1);
  }

  lemma {:induction false} TruncDivMonotone(a: int, b: int)
    requires a <= b
    ensures TruncDiv(a, STEP_SECONDS) <= TruncDiv(b, STEP_SECONDS)
  {
  }

  /** Each one counted raised the user's last step. */
  lemma {:induction false} CountBelow(codes: Codes, start: map<string, int>, attempts: seq<Attempt>, user: string, t0: int, t1: int)
    requires t0 <= t1
    ensures var n := AcceptedBetween(codes, start, attempts, user, t0, t1);
            var last := LastSteps(codes, start, attempts);
            && n <= TruncDiv(t1, STEP_SECONDS) - TruncDiv(t0, STEP_SECONDS) + 3
            && (n > 0 ==> user in last && last[user] >= TruncDiv(t0, STEP_SECONDS) - 2 + n)
  {
    TruncDivMonotone(t0, t1);
    if attempts != [] {
      var a := Last(attempts);
      CountBelow(codes, start, Front(attempts), user, t0, t1);
      assert attempts[..|attempts| - 1] == Front(attempts);
      if a.user == user && t0 <= a.now <= t1 && Accepted(codes, start, attempts, |attempts| - 1) {
        TruncDivMonotone(t0, a.now);
        TruncDivMonotone(a.now, t1);
      }
    }
  }

  /** The bound is met: in one second all three neighbouring codes can be used, if they differ. */
  lemma {:induction false} ThreeAtOnce(codes: Codes, user: string, secret: string, key: seq<int>, now: int)
    requires Base32.Decodes(secret, key) && key != []
    requires var step := TruncDiv(now, STEP_SECONDS);
             && codes(key, step - 1) != codes(key, step) && codes(key, step) != codes(key, step + 1)
             && codes(key, step - 1) != codes(key, step + 1)
    ensures AcceptedBetween(codes, map[], Offers(codes, user, secret, key, now), user, now, now) == 3
  {
    var step := TruncDiv(now, STEP_SECONDS);
    MatchOf(codes, secret, key, codes(key, step - 1), now);
    MatchOf(codes, secret, key, codes(key, step), now);
    MatchOf(codes, secret, key, codes(key, step + 1), now);
    ThreeInOrder(codes, Offers(codes, user, secret, key, now), user, step);
  }

  ghost function Offers(codes: Codes, user: string, secret: string, key: seq<int>, now: int): seq<Attempt> {
    var step := TruncDiv(now, STEP_SECONDS);
    [Attempt(user, secret, codes(key, step - 1), now), Attempt(user, secret, codes(key, step), now), Attempt(user, secret, codes(key, step + 1), now)]
  }

  ghost function EarliestOf(codes: Codes, key: seq<int>, code: string, step: int): Option<int> {
    Earliest(step, code == codes(key, step - 1), code == codes(key, step), code == codes(key, step + 1))
  }

  lemma {:induction false} MatchOf(codes: Codes, secret: string, key: seq<int>, code: string, now: int)
    requires Base32.Decodes(secret, key) && key != []
    ensures FirstMatch(codes, secret, code, now) == EarliestOf(codes, key, code, TruncDiv(now, STEP_SECONDS))
  {
    var step := TruncDiv(now, STEP_SECONDS);
    OneKey(codes, secret, key, code, step - 1);
    OneKey(codes, secret, key, code, step);
    OneKey(codes, secret, key, code, step + 1);
  }

  lemma {:induction false} ThreeInOrder(codes: Codes, a: seq<Attempt>, user: string, step: int)
    requires |a| == 3 && a[0].user == a[1].user == a[2].user == user && a[0].now == a[1].now == a[2].now
    requires FirstMatch(codes, a[0].secret, a[0].code, a[0].now) == Some(step - 1)
    requires FirstMatch(codes, a[1].secret, a[1].code, a[1].now) == Some(step)
    requires FirstMatch(codes, a[2].secret, a[2].code, a[2].now) == Some(step + 1)
    ensures AcceptedBetween(codes, map[], a, user, a[0].now, a[0].now) == 3
  {
    ThreeAccepted(codes, a, user, step);
    CountOne(codes, map[], a, user, 1);
    CountOne(codes, map[], a, user, 2);
    CountOne(codes, map[], a, user, 3);
    assert a[..3] == a;
  }

  lemma {:induction false} ThreeAccepted(codes: Codes, a: seq<Attempt>, user: string, step: int)
    requires |a| == 3 && a[0].user == a[1].user == a[2].user == user
    requires FirstMatch(codes, a[0].secret, a[0].code, a[0].now) == Some(step - 1)
    requires FirstMatch(codes, a[1].secret, a[1].code, a[1].now) == Some(step)
    requires FirstMatch(codes, a[2].secret, a[2].code, a[2].now) == Some(step + 1)
    ensures Accepted(codes, map[], a, 0) && Accepted(codes, map[], a, 1) && Accepted(codes, map[], a, 2)
  {
    var none: map<string, int> := map[];
    AcceptNext(codes, a, 0, none, step - 1);
    AcceptNext(codes, a, 1, none[user := step - 1], step);
    AcceptNext(codes, a, 2, none[user := step - 1][user := step], step + 1);
  }

  lemma {:induction false} AcceptNext(codes: Codes, a: seq<Attempt>, i: nat, last: map<string, int>, step: int)
    requires i < |a| && LastSteps(codes, map[], a[..i]) == last
    requires FirstMatch(codes, a[i].secret, a[i].code, a[i].now) == Some(step)
    requires a[i].user in last ==> last[a[i].user] < step
    ensures Accepted(codes, map[], a, i) && LastSteps(codes, map[], a[..i + 1]) == last[a[i].user := step]
  {
    OneAttempt(codes, map[], a, i);
  }

  lemma {:induction false} CountOne(codes: Codes, start: map<string, int>, a: seq<Attempt>, user: string, n: nat)
    requires 0 < n <= |a| && a[n - 1].user == user && a[n - 1].now == a[0].now && Accepted(codes, start, a, n - 1)
    ensures AcceptedBetween(codes, start, a[..n], user, a[0].now, a[0].now)
         == AcceptedBetween(codes, start, a[..n - 1], user, a[0].now, a[0].now) + 1
  {
    assert Front(a[..n]) == a[..n - 1] && a[..n][..n - 1] == a[..n - 1];
  }

  // ------------------------------------------------------------------ in seconds

  /** The time step that a moment falls in: thirty seconds each. */
  predicate InStep(now: int, step: int) {
    30 * step <= now < 30 * step + 30
  }

  /** Some key that the secret stands for shows the code at that step: the HOTP code of the step as a counter, in six digits. */
  ghost predicate CodeOf(mac: Hotp.Mac, secret: string, code: string, step: int)
    requires Hotp.IsMac(mac)
  {
    exists key :: CodeOfKey(mac, secret, key, code, step)
  }

  ghost predicate CodeOfKey(mac: Hotp.Mac, secret: string, key: seq<int>, code: string, step: int)
    requires Hotp.IsMac(mac)
  {
    Base32.Decodes(secret, key) && key != [] && Hotp.CodeShape(code)
    && Hotp.Spelled(code) == Hotp.CodeAt(mac, key, step % 0x1_0000_0000_0000_0000)
  }

  lemma {:induction false} ShowsCodeOf(mac: Hotp.Mac, secret: string, code: string, step: int)
    requires Hotp.IsMac(mac)
    ensures Shows(CodesOf(mac), secret, code, step) <==> CodeOf(mac, secret, code, step)
  {
    var codes := CodesOf(mac);
    if key :| ShowsByKey(codes, secret, key, code, step) {
      Hotp.PrintedSpells(Hotp.CodeAt(mac, key, U64(step)));
      assert codes(key, step) == Hotp.Printed(Hotp.CodeAt(mac, key, U64(step)));
      assert CodeOfKey(mac, secret, key, code, step);
    }
    if key :| CodeOfKey(mac, secret, key, code, step) {
      Hotp.EveryShapeIsPrinted(code);
      assert codes(key, step) == Hotp.Printed(Hotp.CodeAt(mac, key, U64(step)));
      assert ShowsByKey(codes, secret, key, code, step);
    }
  }

  lemma {:induction false} StepIs(now: int, step: int)
    requires now >= 0 && InStep(now, step)
    ensures TruncDiv(now, STEP_SECONDS) == step
  {
  }

  /** From the epoch on, a code is accepted exactly if it is the code of the present step or of a neighbour, and counts for the earliest of them. */
  lemma {:induction false} AcceptedExactly(mac: Hotp.Mac, secret: string, code: string, now: int, step: int)
    requires Hotp.IsMac(mac) && now >= 0 && InStep(now, step)
    ensures FirstMatch(CodesOf(mac), secret, code, now)
         == if CodeOf(mac, secret, code, step - 1) then Some(step - 1)
            else if CodeOf(mac, secret, code, step) then Some(step)
            else if CodeOf(mac, secret, code, step + 1) then Some(step + 1) else None
  {
    StepIs(now, step);
    ShowsCodeOf(mac, secret, code, step - 1);
    ShowsCodeOf(mac, secret, code, step);
    ShowsCodeOf(mac, secret, code, step + 1);
  }
}
