/**
 The gates a request passes on its way upstream, in the order in which `run_http_session`
 tries them, and what each leaves behind in the rate tracker, the score tracker and the block
 tracker.  The checks themselves are inputs: each says which check refused, if any.
 */
module HttpSession {
  import opened Prelude
  import Rates = RequestRateTracker
  import Scores = ScoreTracker
  import Blocks = IpBlockTracker
  import A = AwardScore

  datatype SpeedCheck = SpeedCheck(enabled: bool, window: int, maxRequests: int)

  datatype Config = Config(emergencyOff: bool, ban: A.BanConfig, speed: SpeedCheck, interval: int)

  /**
   One request as the pipeline sees it.  `methodCheck`, `headerCheck` and `bodyCheck` name
   the check that refuses it; `upstream` is the status of the upstream's answer.
   */
  datatype Request = Request(
    ip: Blocks.Ip, text: string, now: int, steadyNow: int,
    siteEnabled: bool, whitelisted: bool, navigation: bool,
    methodCheck: Option<string>, headerCheck: Option<string>, robots: bool, bodyCheck: Option<string>,
    upstream: Option<int>, keepAlive: bool)

  datatype Gate = Emergency | SiteDisabled | Banned | Refused(check: string) | Robots | Unreachable | Forwarded

  /** The event recorded, and whether the connection stays open. */
  datatype Outcome = Outcome(gate: Gate, blocked: bool, status: int, open: bool, ban: Option<Blocks.Block>)

  datatype World = World(rates: Rates.State, sys: A.Sys)

  const SPEED_CHECK := "speed_check"

  function Block(gate: Gate, status: int, ban: Option<Blocks.Block>): Outcome {
    Outcome(gate, true, status, false, ban)
  }

  predicate Counted(config: Config, r: Request) {
    config.speed.enabled && r.navigation
  }

  /** The rate tracker after the speed check, which counts whitelisted visitors too. */
  function Rated(config: Config, rates: Rates.State, r: Request): Rates.State {
    if Counted(config, r) then Rates.Record(rates, r.text, r.steadyNow, config.speed.window) else rates
  }

  predicate TooFast(config: Config, rates: Rates.State, r: Request) {
    Counted(config, r) && |Rates.Held(Rated(config, rates, r), r.text)| > config.speed.maxRequests
  }

  /** The first check that refuses a request that got past the ban gate. */
  function FirstRefusal(config: Config, rates: Rates.State, r: Request): Option<string> {
    if TooFast(config, rates, r) then Some(SPEED_CHECK)
    else if r.methodCheck.Some? then r.methodCheck
    else if r.headerCheck.Some? then r.headerCheck
    else if r.robots then None
    else r.bodyCheck
  }

  function Pass(r: Request): Outcome {
    if r.robots then Outcome(Robots, false, 200, false, None)
    else match r.upstream
         case None => Outcome(Unreachable, false, 502, false, None)
         case Some(status) => Outcome(Forwarded, false, status, r.keepAlive, None)
  }

  /** What one request does and how it is answered. */
  ghost function Handle(config: Config, w: World, r: Request): (result: (World, Outcome))
    requires Scores.Valid(w.sys.scores)
    ensures Scores.Valid(result.0.sys.scores) && result.0.sys.scores.cap == w.sys.scores.cap
  {
    if config.emergencyOff then (w, Block(Emergency, 503, None))
    else if !r.siteEnabled then (w, Block(SiteDisabled, 403, None))
    else if !r.whitelisted && Blocks.Blocked(w.sys.blocks, r.ip, r.now) then (w, Block(Banned, 403, None))
    else
      var rates := Rated(config, w.rates, r);
      match FirstRefusal(config, w.rates, r)
      case Some(check) =>
        if r.whitelisted then (World(rates, w.sys), Pass(r))
        else
          var punished := A.Award(config.ban, config.interval, w.sys, OffenceOf(r, check));
          (World(rates, punished.0), Block(Refused(check), 403, punished.1))
      case None => (World(rates, w.sys), Pass(r))
  }

  function OffenceOf(r: Request, check: string): A.Offence {
    A.Offence(r.ip, r.text, check, r.now)
  }

  // ------------------------------------------------------------------ the session loop's body

  method Refuse(config: Config, scores: Scores.Tracker, blocks: Blocks.Tracker, r: Request, check: string) returns (outcome: Outcome)
    requires Scores.Valid(scores.Abs()) && blocks.pruneInterval == config.interval
    modifies scores, blocks
    ensures var punished := A.Award(config.ban, config.interval, old(A.Sys(scores.Abs(), blocks.Abs())), OffenceOf(r, check));
            && A.Sys(scores.Abs(), blocks.Abs()) == punished.0
            && outcome == Block(Refused(check), 403, punished.1)
  {
    var ban := A.Punish(config.ban, scores, blocks, OffenceOf(r, check));
    outcome := Block(Refused(check), 403, ban);
  }

  method CheckRequestRate(speed: SpeedCheck, rates: Rates.Tracker, r: Request, ghost config: Config) returns (blocked: bool)
    requires speed == config.speed
    modifies rates
    ensures rates.Abs() == Rated(config, old(rates.Abs()), r)
    ensures blocked == TooFast(config, old(rates.Abs()), r)
  {
    if !speed.enabled || !r.navigation {
      return false;
    }
    var count := rates.Hit(r.text, r.steadyNow, speed.window);
    blocked := count > speed.maxRequests;
  }

  /** One turn of the session loop. */
  method Serve(config: Config, rates: Rates.Tracker, scores: Scores.Tracker, blocks: Blocks.Tracker, r: Request)
    returns (outcome: Outcome)
    requires Scores.Valid(scores.Abs()) && Blocks.Valid(blocks.Abs()) && blocks.pruneInterval == config.interval
    modifies rates, scores, blocks
    ensures (World(rates.Abs(), A.Sys(scores.Abs(), blocks.Abs())), outcome)
         == Handle(config, old(World(rates.Abs(), A.Sys(scores.Abs(), blocks.Abs()))), r)
  {
    if config.emergencyOff {
      return Block(Emergency, 503, None);
    }
    if !r.siteEnabled {
      return Block(SiteDisabled, 403, None);
    }
    if !r.whitelisted {
      var banned := blocks.IsBlocked(r.ip, r.now);
      if banned {
        return Block(Banned, 403, None);
      }
    }
    var tooFast := CheckRequestRate(config.speed, rates, r, config);
    if !r.whitelisted && tooFast {
      outcome := Refuse(config, scores, blocks, r, SPEED_CHECK);
      return;
    }
    if !r.whitelisted && r.methodCheck.Some? {
      outcome := Refuse(config, scores, blocks, r, r.methodCheck.value);
      return;
    }
    if !r.whitelisted && r.headerCheck.Some? {
      outcome := Refuse(config, scores, blocks, r, r.headerCheck.value);
      return;
    }
    if r.robots {
      return Outcome(Robots, false, 200, false, None);
    }
    if !r.whitelisted && r.bodyCheck.Some? {
      outcome := Refuse(config, scores, blocks, r, r.bodyCheck.value);
      return;
    }
    if r.upstream.None? {
      return Outcome(Unreachable, false, 502, false, None);
    }
    return Outcome(Forwarded, false, r.upstream.value, r.keepAlive, None);
  }

  // ------------------------------------------------------------------ one request

  ghost predicate Admitted(config: Config, w: World, r: Request) {
    && !config.emergencyOff
    && r.siteEnabled
    && (r.whitelisted || (!Blocks.Blocked(w.sys.blocks, r.ip, r.now) && FirstRefusal(config, w.rates, r).None?))
  }

  /** A request is let through exactly when no gate that applies to it stands in the way. */
  lemma {:induction false} LetThrough(config: Config, w: World, r: Request)
    requires Scores.Valid(w.sys.scores)
    ensures var outcome := Handle(config, w, r).1;
            && (!outcome.blocked <==> Admitted(config, w, r))
            && (outcome.open ==> !outcome.blocked && outcome.gate == Forwarded && r.keepAlive)
  {
  }

  /** Points are given for a refusal by a check and for nothing else; a visitor on the whitelist is never refused by one. */
  lemma {:induction false} OnlyChecksPunish(config: Config, w: World, r: Request)
    requires Scores.Valid(w.sys.scores)
    ensures var (after, outcome) := Handle(config, w, r);
            && (after.sys != w.sys ==> outcome.gate.Refused?)
            && (r.whitelisted ==> after.sys == w.sys && outcome.gate !in {Banned} && !outcome.gate.Refused?)
            && (outcome.ban.Some? ==> outcome.gate.Refused? && !r.whitelisted)
  {
  }

  /** More navigation requests in the window than allowed, this one included. */
  predicate OverTheLimit(config: Config, w: World, r: Request) {
    && config.speed.enabled && r.navigation
    && |Rates.Held(Rates.Record(w.rates, r.text, r.steadyNow, config.speed.window), r.text)| > config.speed.maxRequests
  }

  ghost predicate BlockedNow(w: World, r: Request) {
    exists b: Blocks.Block :: Blocks.Holds(w.sys.blocks, b) && b.expiresAt > r.now && Blocks.Covers(b, r.ip)
  }

  /** The request meets the checks: no earlier gate turned it away, and the visitor is not on the whitelist. */
  ghost predicate Checked(config: Config, w: World, r: Request) {
    !config.emergencyOff && r.siteEnabled && !r.whitelisted && !BlockedNow(w, r)
  }

  lemma {:induction false} BlockedIs(w: World, r: Request)
    ensures BlockedNow(w, r) <==> Blocks.Blocked(w.sys.blocks, r.ip, r.now)
  {
    if b: Blocks.Block :| Blocks.Holds(w.sys.blocks, b) && b.expiresAt > r.now && Blocks.Covers(b, r.ip) {
      assert Blocks.Blocks(b, r.ip, r.now);
    }
    if b: Blocks.Block :| Blocks.Holds(w.sys.blocks, b) && Blocks.Blocks(b, r.ip, r.now) {
      assert Blocks.Covers(b, r.ip);
    }
  }

  /** Which check refuses a request, if any: speed, method, headers, and the body unless robots.txt was asked for, in this order. */
  lemma {:induction false} RefusedExactly(config: Config, w: World, r: Request)
    requires Scores.Valid(w.sys.scores) && Checked(config, w, r)
    ensures var outcome := Handle(config, w, r).1;
            && (outcome.blocked <==> OverTheLimit(config, w, r) || r.methodCheck.Some? || r.headerCheck.Some? || (!r.robots && r.bodyCheck.Some?))
            && (OverTheLimit(config, w, r) ==> outcome.gate == Refused("speed_check"))
            && (!OverTheLimit(config, w, r) && r.methodCheck.Some? ==> outcome.gate == Refused(r.methodCheck.value))
            && (!OverTheLimit(config, w, r) && r.methodCheck.None? && r.headerCheck.Some? ==> outcome.gate == Refused(r.headerCheck.value))
            && (!OverTheLimit(config, w, r) && r.methodCheck.None? && r.headerCheck.None? && !r.robots && r.bodyCheck.Some?
                ==> outcome.gate == Refused(r.bodyCheck.value))
  {
    BlockedIs(w, r);
  }

  /** Where every request ends, refusals by a check aside. */
  lemma {:induction false} GatesExactly(config: Config, w: World, r: Request)
    requires Scores.Valid(w.sys.scores)
    ensures var gate := Handle(config, w, r).1.gate;
            && (gate == Emergency <==> config.emergencyOff)
            && (gate == SiteDisabled <==> !config.emergencyOff && !r.siteEnabled)
            && (gate == Banned <==> !config.emergencyOff && r.siteEnabled && !r.whitelisted && BlockedNow(w, r))
            && (gate.Refused? ==> Checked(config, w, r))
            && (!gate.Refused? && gate !in {Emergency, SiteDisabled, Banned} ==>
                  gate == if r.robots then Robots else if r.upstream.None? then Unreachable else Forwarded)
  {
    BlockedIs(w, r);
  }

  /** Status, verdict and connection at each gate; only a forwarded request keeps the connection, if the client wants it. */
  lemma {:induction false} AnswersExactly(config: Config, w: World, r: Request)
    requires Scores.Valid(w.sys.scores)
    ensures var outcome := Handle(config, w, r).1;
            && (outcome.blocked <==> outcome.gate in {Emergency, SiteDisabled, Banned} || outcome.gate.Refused?)
            && (outcome.open <==> outcome.gate == Forwarded && r.keepAlive)
            && (outcome.gate == Emergency ==> outcome.status == 503)
            && (outcome.gate in {SiteDisabled, Banned} || outcome.gate.Refused? ==> outcome.status == 403)
            && (outcome.gate == Robots ==> outcome.status == 200)
            && (outcome.gate == Unreachable ==> outcome.status == 502)
            && (outcome.gate == Forwarded ==> r.upstream == Some(outcome.status))
  {
  }

  /** What a request leaves behind: an award for a refusal, and one more time in the rate window of whoever got past the ban gate. */
  lemma {:induction false} LeavesExactly(config: Config, w: World, r: Request)
    requires Scores.Valid(w.sys.scores)
    ensures var (after, outcome) := Handle(config, w, r);
            && (outcome.gate.Refused? ==>
                  (after.sys, outcome.ban) == A.Award(config.ban, config.interval, w.sys, A.Offence(r.ip, r.text, outcome.gate.check, r.now)))
            && (!outcome.gate.Refused? ==> after.sys == w.sys && outcome.ban.None?)
            && after.rates == if outcome.gate !in {Emergency, SiteDisabled, Banned} && config.speed.enabled && r.navigation
                              then Rates.Record(w.rates, r.text, r.steadyNow, config.speed.window) else w.rates
  {
  }

  // ------------------------------------------------------------------ runs

  ghost function Run(config: Config, start: World, requests: seq<Request>): (w: World)
    requires Scores.Valid(start.sys.scores)
    ensures Scores.Valid(w.sys.scores) && w.sys.scores.cap == start.sys.scores.cap
  {
    if requests == [] then start else Handle(config, Run(config, start, Front(requests)), Last(requests)).0
  }

  ghost function OutcomeOf(config: Config, start: World, requests: seq<Request>, i: nat): Outcome
    requires Scores.Valid(start.sys.scores) && i < |requests|
  {
    Handle(config, Run(config, start, requests[..i]), requests[i]).1
  }

  function Fresh(maxTrackedIps: nat): World {
    World(Rates.INITIAL, A.Sys(Scores.Empty(maxTrackedIps), Blocks.State(map[], [], 0)))
  }

  /** What the outcome of a request costs its visitor: one offence if a check refused it. */
  function Charged(outcome: Outcome, r: Request): seq<A.Offence> {
    if outcome.gate.Refused? then [OffenceOf(r, outcome.gate.check)] else []
  }

  /** The refusals of a run, in order. */
  ghost function Offences(config: Config, start: World, requests: seq<Request>): seq<A.Offence>
    requires Scores.Valid(start.sys.scores)
  {
    if requests == [] then []
    else
      Offences(config, start, Front(requests)) + Charged(Handle(config, Run(config, start, Front(requests)), Last(requests)).1, Last(requests))
  }

  /** Scores and bans of a run of requests are those of its refusals, one award each: what is proved of awards holds of sessions. */
  lemma {:induction false} OneAwardPerRefusal(config: Config, maxTrackedIps: nat, requests: seq<Request>)
    ensures Run(config, Fresh(maxTrackedIps), requests).sys
         == A.Run(A.Rules(config.ban, config.interval, maxTrackedIps), Offences(config, Fresh(maxTrackedIps), requests))
  {
    if requests != [] {
      OneAwardPerRefusal(config, maxTrackedIps, Front(requests));
      StepAward(config, Run(config, Fresh(maxTrackedIps), Front(requests)), Last(requests),
                A.Rules(config.ban, config.interval, maxTrackedIps), Offences(config, Fresh(maxTrackedIps), Front(requests)));
    }
  }

  lemma {:induction false} StepAward(config: Config, w: World, r: Request, rules: A.Rules, before: seq<A.Offence>)
    requires Scores.Valid(w.sys.scores) && rules.config == config.ban && rules.interval == config.interval
    requires w.sys == A.Run(rules, before)
    ensures var (after, outcome) := Handle(config, w, r); after.sys == A.Run(rules, before + Charged(outcome, r))
  {
    var (after, outcome) := Handle(config, w, r);
    if outcome.gate.Refused? {
      assert Front(before + Charged(outcome, r)) == before;
    } else {
      assert before + Charged(outcome, r) == before;
    }
  }

  /** Every offence of a run is a request that was made, by a visitor not on the whitelist. */
  lemma {:induction false} OffencesAreRequests(config: Config, start: World, requests: seq<Request>, o: A.Offence)
    requires Scores.Valid(start.sys.scores) && o in Offences(config, start, requests)
    ensures exists r :: r in requests && !r.whitelisted && r.ip == o.ip && r.text == o.text && r.now == o.now
  {
    if requests != [] {
      if o in Offences(config, start, Front(requests)) {
        OffencesAreRequests(config, start, Front(requests), o);
      } else {
        assert Last(requests) in requests;
      }
    }
  }

  predicate SteadyClock(requests: seq<Request>) {
    forall i, j :: 0 <= i < j < |requests| ==> requests[i].now <= requests[j].now
  }

  /** From the ban on and until it ends, no request of that address gets anywhere, unless it is on the whitelist. */
  lemma {:induction false} BansHold(config: Config, start: World, requests: seq<Request>, i: nat, j: nat)
    requires Scores.Valid(start.sys.scores) && SteadyClock(requests) && i < j < |requests|
    requires OutcomeOf(config, start, requests, i).ban.Some?
    requires requests[j].ip == requests[i].ip && !requests[j].whitelisted
    requires requests[j].now < OutcomeOf(config, start, requests, i).ban.value.expiresAt
    ensures OutcomeOf(config, start, requests, j).gate in {Emergency, SiteDisabled, Banned}
  {
    var ban := OutcomeOf(config, start, requests, i).ban.value;
    StepIs(config, start, requests, i);
    BanIsFiled(config, Run(config, start, requests[..i]), requests[i]);
    BanStays(config, start, requests, ban, i + 1, j);
    assert Blocks.Blocks(ban, requests[j].ip, requests[j].now);
  }

  lemma {:induction false} StepIs(config: Config, start: World, requests: seq<Request>, i: nat)
    requires Scores.Valid(start.sys.scores) && i < |requests|
    ensures Run(config, start, requests[..i + 1]) == Handle(config, Run(config, start, requests[..i]), requests[i]).0
  {
    assert Front(requests[..i + 1]) == requests[..i];
  }

  lemma {:induction false} BanIsFiled(config: Config, w: World, r: Request)
    requires Scores.Valid(w.sys.scores) && Handle(config, w, r).1.ban.Some?
    ensures var ban := Handle(config, w, r).1.ban.value;
            Blocks.Holds(Handle(config, w, r).0.sys.blocks, ban) && !ban.isCidr && ban.address == r.ip
  {
  }

  lemma {:induction false} BanStays(config: Config, start: World, requests: seq<Request>, ban: Blocks.Block, i: nat, j: nat)
    requires Scores.Valid(start.sys.scores) && SteadyClock(requests) && i <= j < |requests|
    requires !ban.isCidr && requests[j].now < ban.expiresAt
    requires Blocks.Holds(Run(config, start, requests[..i]).sys.blocks, ban)
    ensures Blocks.Holds(Run(config, start, requests[..j]).sys.blocks, ban)
    decreases j - i
  {
    if i < j {
      assert requests[i].now <= requests[j].now;
      StepIs(config, start, requests, i);
      StepKeepsBan(config, Run(config, start, requests[..i]), requests[i], ban);
      BanStays(config, start, requests, ban, i + 1, j);
    }
  }

  lemma {:induction false} StepKeepsBan(config: Config, w: World, r: Request, ban: Blocks.Block)
    requires Scores.Valid(w.sys.scores) && !ban.isCidr && r.now < ban.expiresAt && Blocks.Holds(w.sys.blocks, ban)
    ensures Blocks.Holds(Handle(config, w, r).0.sys.blocks, ban)
  {
    if Handle(config, w, r).1.ban.Some? {
      if r.ip == ban.address {
        assert Blocks.Blocks(ban, r.ip, r.now);
        assert Blocks.Blocked(w.sys.blocks, r.ip, r.now);
        assert false;
      }
    }
  }

  // ------------------------------------------------------------------ the speed check

  predicate PastBanGate(gate: Gate) {
    gate !in {Emergency, SiteDisabled, Banned}
  }

  function SeenIn(config: Config, outcome: Outcome, r: Request): seq<Rates.Request> {
    if Counted(config, r) && PastBanGate(outcome.gate) then [Rates.Request(r.text, r.steadyNow)] else []
  }

  /** The requests the rate tracker saw: those that got past the ban gate, on the whitelist or not. */
  ghost function Seen(config: Config, start: World, requests: seq<Request>): seq<Rates.Request>
    requires Scores.Valid(start.sys.scores)
  {
    if requests == [] then []
    else
      Seen(config, start, Front(requests)) + SeenIn(config, Handle(config, Run(config, start, Front(requests)), Last(requests)).1, Last(requests))
  }

  lemma {:induction false} RatesAreOfSeen(config: Config, maxTrackedIps: nat, requests: seq<Request>)
    ensures Run(config, Fresh(maxTrackedIps), requests).rates == Rates.Run(Seen(config, Fresh(maxTrackedIps), requests), config.speed.window)
  {
    if requests != [] {
      RatesAreOfSeen(config, maxTrackedIps, Front(requests));
      StepRates(config, Run(config, Fresh(maxTrackedIps), Front(requests)), Last(requests), Seen(config, Fresh(maxTrackedIps), Front(requests)));
    }
  }

  lemma {:induction false} StepRates(config: Config, w: World, r: Request, before: seq<Rates.Request>)
    requires Scores.Valid(w.sys.scores) && w.rates == Rates.Run(before, config.speed.window)
    ensures var (after, outcome) := Handle(config, w, r); after.rates == Rates.Run(before + SeenIn(config, outcome, r), config.speed.window)
  {
    var (after, outcome) := Handle(config, w, r);
    if SeenIn(config, outcome, r) == [] {
      assert before + SeenIn(config, outcome, r) == before;
    } else {
      assert Front(before + SeenIn(config, outcome, r)) == before;
    }
  }

  predicate SteadyTicks(requests: seq<Request>) {
    requests == [] || (SteadyTicks(Front(requests)) && (Front(requests) == [] || Last(Front(requests)).steadyNow <= Last(requests).steadyNow))
  }

  ghost predicate SeenBy(log: seq<Rates.Request>, tick: int) {
    Rates.Steady(log) && forall x :: x in log ==> x.now <= tick
  }

  lemma {:induction false} SeenIsSteady(config: Config, start: World, requests: seq<Request>, tick: int)
    requires Scores.Valid(start.sys.scores) && SteadyTicks(requests) && (requests == [] || Last(requests).steadyNow <= tick)
    ensures SeenBy(Seen(config, start, requests), tick)
  {
    if requests != [] {
      var r := Last(requests);
      SeenIsSteady(config, start, Front(requests), r.steadyNow);
      SteadyNext(Seen(config, start, Front(requests)), SeenIn(config, Handle(config, Run(config, start, Front(requests)), r).1, r), r.steadyNow, tick);
    }
  }

  lemma {:induction false} SteadyNext(log: seq<Rates.Request>, more: seq<Rates.Request>, tick: int, later: int)
    requires SeenBy(log, tick) && tick <= later && |more| <= 1 && forall x :: x in more ==> x.now == tick
    ensures SeenBy(log + more, later)
  {
  }

  /** A counted visitor is too fast exactly when the requests seen from it in the last window, this one included, exceed the limit. */
  lemma {:induction false} SpeedCheckCounts(config: Config, maxTrackedIps: nat, requests: seq<Request>, r: Request)
    requires SteadyTicks(requests) && (requests == [] || Last(requests).steadyNow <= r.steadyNow) && Counted(config, r)
    ensures var seen := Seen(config, Fresh(maxTrackedIps), requests) + [Rates.Request(r.text, r.steadyNow)];
            TooFast(config, Run(config, Fresh(maxTrackedIps), requests).rates, r)
            <==> Rates.CountSince(Rates.TimesOf(seen, r.text), r.steadyNow - config.speed.window) > config.speed.maxRequests
  {
    RatesAreOfSeen(config, maxTrackedIps, requests);
    SeenIsSteady(config, Fresh(maxTrackedIps), requests, r.steadyNow);
    CountOne(config, Seen(config, Fresh(maxTrackedIps), requests), r);
  }

  lemma {:induction false} CountOne(config: Config, before: seq<Rates.Request>, r: Request)
    requires SeenBy(before, r.steadyNow) && Counted(config, r)
    ensures TooFast(config, Rates.Run(before, config.speed.window), r)
       <==> Rates.CountSince(Rates.TimesOf(before + [Rates.Request(r.text, r.steadyNow)], r.text), r.steadyNow - config.speed.window) > config.speed.maxRequests
  {
    var x := Rates.Request(r.text, r.steadyNow);
    HeldCount(before, x, config.speed.window);
    TooFastMeans(config, Rates.Run(before, config.speed.window), r);
  }

  lemma {:induction false} TooFastMeans(config: Config, rates: Rates.State, r: Request)
    requires Counted(config, r)
    ensures TooFast(config, rates, r)
       <==> |Rates.Held(Rates.Record(rates, r.text, r.steadyNow, config.speed.window), r.text)| > config.speed.maxRequests
  {
  }

  lemma {:induction false} HeldCount(before: seq<Rates.Request>, x: Rates.Request, window: int)
    requires SeenBy(before, x.now)
    ensures |Rates.Held(Rates.Record(Rates.Run(before, window), x.ip, x.now, window), x.ip)|
         == Rates.CountSince(Rates.TimesOf(before + [x], x.ip), x.now - window)
  {
    RatesSnoc(before, x, window);
    SteadyNext(before, [x], x.now, x.now);
    assert Last(before + [x]) == x;
    Rates.AnswerIsExact(before + [x], window);
  }

  lemma {:induction false} RatesSnoc(log: seq<Rates.Request>, x: Rates.Request, window: int)
    ensures Rates.Run(log + [x], window) == Rates.Record(Rates.Run(log, window), x.ip, x.now, window)
  {
    assert Front(log + [x]) == log;
  }
}
