/**
 Points for offences and the ban that follows when an address has collected enough of them:
 `award_score` over the score tracker and the block tracker.  The books of a run balance for
 every configuration, and every ban is backed by points earned since the last one.
 */
module AwardScore {
  import opened Prelude
  import Scores = ScoreTracker
  import Blocks = IpBlockTracker

  const MAX_BAN_HOURS := 24 * 365 * 10
  const HOUR := 3600

  datatype BanConfig = BanConfig(enabled: bool, threshold: int, banHours: int, points: map<string, int>)

  /** A blocked request: whose, found by which check, and when. */
  datatype Offence = Offence(ip: Blocks.Ip, text: string, check: string, now: int)

  datatype Sys = Sys(scores: Scores.State, blocks: Blocks.State)

  /** What an offence is worth; nothing when bans are off or the check has no positive score. */
  function Points(config: BanConfig, check: string): (p: int)
    ensures p >= 0
  {
    if config.enabled && check in config.points && config.points[check] > 0 then config.points[check] else 0
  }

  function BanOf(config: BanConfig, o: Offence, total: int): Blocks.Block {
    Blocks.Entry(o.text, false, o.ip, 0, "score", total, o.now,
                 o.now + HOUR * if config.banHours < MAX_BAN_HOURS then config.banHours else MAX_BAN_HOURS)
  }

  function Award(config: BanConfig, interval: int, s: Sys, o: Offence): (r: (Sys, Option<Blocks.Block>))
    requires Scores.Valid(s.scores)
    ensures Scores.Valid(r.0.scores) && r.0.scores.cap == s.scores.cap
  {
    var p := Points(config, o.check);
    if p == 0 then (s, None)
    else
      var added := Scores.AddPoints(s.scores, o.text, p);
      var total := Scores.Current(added, o.text);
      if total < config.threshold then (Sys(added, s.blocks), None)
      else
        var ban := BanOf(config, o, total);
        (Sys(Scores.Reset(added, o.text), Blocks.Add(s.blocks, interval, ban, o.now)), Some(ban))
  }

  /** `award_score` itself, on the two trackers. */
  method Punish(config: BanConfig, scores: Scores.Tracker, blocks: Blocks.Tracker, o: Offence)
    returns (ban: Option<Blocks.Block>)
    requires Scores.Valid(scores.Abs())
    modifies scores, blocks
    ensures (Sys(scores.Abs(), blocks.Abs()), ban)
         == Award(config, blocks.pruneInterval, old(Sys(scores.Abs(), blocks.Abs())), o)
  {
    ban := None;
    if !config.enabled || o.check !in config.points || config.points[o.check] <= 0 {
      return;
    }
    var total := scores.Add(o.text, config.points[o.check]);
    if total >= config.threshold {
      var hours := if config.banHours < MAX_BAN_HOURS then config.banHours else MAX_BAN_HOURS;
      var block := Blocks.Entry(o.text, false, o.ip, 0, "score", total, o.now, o.now + HOUR * hours);
      blocks.AddBlock(block, o.now);
      scores.ResetScore(o.text);
      ban := Some(block);
    }
  }

  // ------------------------------------------------------------------ one award in full

  /** An award is worth something if bans are on and the check is configured with a positive score. */
  predicate Costs(config: BanConfig, check: string) {
    config.enabled && check in config.points && config.points[check] >= 1
  }

  function ScoreBefore(s: Sys, text: string): int {
    if text in s.scores.scores then s.scores.scores[text].score else 0
  }

  /** The points are added up to the largest int, and the ban comes with reaching the threshold, ends the score and lasts the configured hours, ten years at most. */
  lemma {:induction false} AwardExactly(config: BanConfig, interval: int, s: Sys, o: Offence)
    requires Scores.Valid(s.scores)
    ensures var (t, ban) := Award(config, interval, s, o);
            if !Costs(config, o.check) then t == s && ban.None?
            else
              var sum := ScoreBefore(s, o.text) + config.points[o.check];
              var total := if sum > 2147483647 then 2147483647 else if sum < -2147483648 then -2147483648 else sum;
              if total < config.threshold
              then ban.None? && t.blocks == s.blocks && o.text in t.scores.scores && t.scores.scores[o.text].score == total
              else
                && o.text !in t.scores.scores
                && ban == Some(Blocks.Entry(o.text, false, o.ip, 0, "score", total, o.now,
                                            o.now + 3600 * if config.banHours > 87600 then 87600 else config.banHours))
                && Blocks.Holds(t.blocks, ban.value)
  {
    if Costs(config, o.check) {
      AddTouches(s.scores, o.text, config.points[o.check]);
      if Scores.Current(Scores.AddPoints(s.scores, o.text, config.points[o.check]), o.text) >= config.threshold {
        BanIsFiled(config, interval, s, o);
      }
    }
  }

  lemma {:induction false} BanIsFiled(config: BanConfig, interval: int, s: Sys, o: Offence)
    requires Scores.Valid(s.scores) && Award(config, interval, s, o).1.Some?
    ensures Blocks.Holds(Award(config, interval, s, o).0.blocks, Award(config, interval, s, o).1.value)
  {
  }

  // ------------------------------------------------------------------ sums of scores

  ghost function Total(scores: map<string, Scores.Entry>): int
    decreases |scores|
  {
    if scores == map[] then 0
    else
      var ip :| ip in scores;
      assert |scores - {ip}| < |scores| by { Smaller(scores, ip); }
      scores[ip].score + Total(scores - {ip})
  }

  lemma {:induction false} Smaller<V>(m: map<string, V>, k: string)
    requires k in m
    ensures |m - {k}| == |m| - 1
  {
    assert (m - {k}).Keys == m.Keys - {k};
  }

  lemma {:induction false} TotalWithout(scores: map<string, Scores.Entry>, ip: string)
    requires ip in scores
    ensures Total(scores) == scores[ip].score + Total(scores - {ip})
    decreases |scores|
  {
    var first :| first in scores && Total(scores) == scores[first].score + Total(scores - {first});
    if first != ip {
      Smaller(scores, first);
      TotalWithout(scores - {first}, ip);
      Smaller(scores, ip);
      TotalWithout(scores - {ip}, first);
      assert scores - {first} - {ip} == scores - {ip} - {first};
    }
  }

  lemma {:induction false} TotalSplits(all: map<string, Scores.Entry>, kept: map<string, Scores.Entry>)
    requires forall x :: x in kept ==> x in all && all[x] == kept[x]
    ensures Total(all) == Total(kept) + Total(Missing(all, kept))
    decreases |kept|
  {
    if kept == map[] {
      assert Missing(all, kept) == all;
    } else {
      var ip :| ip in kept;
      Smaller(kept, ip);
      TotalWithout(kept, ip);
      TotalWithout(all, ip);
      TotalSplits(all - {ip}, kept - {ip});
      assert Missing(all - {ip}, kept - {ip}) == Missing(all, kept);
    }
  }

  /** The entries of `all` that are no longer in `kept`. */
  function Missing(all: map<string, Scores.Entry>, kept: map<string, Scores.Entry>): map<string, Scores.Entry> {
    map x | x in all && x !in kept :: all[x]
  }

  /** Points that eviction drops when an award for `ip` turns `before` into `after`. */
  ghost function Dropped(before: map<string, Scores.Entry>, after: map<string, Scores.Entry>, ip: string): int {
    Total(Missing(before - {ip}, after))
  }

  // ------------------------------------------------------------------ one award

  /** What adding points does to the other addresses and to this one. */
  lemma {:induction false} AddTouches(s: Scores.State, ip: string, points: int)
    requires Scores.Valid(s)
    ensures var t := Scores.AddPoints(s, ip, points);
            && ip in t.scores && t.scores[ip].score == Scores.Clamp(Scores.Current(s, ip) + points)
            && forall x :: x in t.scores && x != ip ==> x in s.scores && t.scores[x] == s.scores[x]
  {
    if ip !in s.scores { Scores.FreshOutcome(s, ip, points); }
  }

  lemma {:induction false} AddBalances(s: Scores.State, ip: string, points: int)
    requires Scores.Valid(s)
    ensures Total(Scores.AddPoints(s, ip, points).scores) + Dropped(s.scores, Scores.AddPoints(s, ip, points).scores, ip)
         == Total(s.scores) + Scores.Clamp(Scores.Current(s, ip) + points) - Scores.Current(s, ip)
  {
    var t := Scores.AddPoints(s, ip, points);
    AddTouches(s, ip, points);
    TotalWithout(t.scores, ip);
    var others, kept := s.scores - {ip}, t.scores - {ip};
    TotalSplits(others, kept);
    assert Missing(others, kept) == Missing(others, t.scores);
    if ip in s.scores { TotalWithout(s.scores, ip); } else { assert others == s.scores; }
  }

  // ------------------------------------------------------------------ the books of a run

  datatype Rules = Rules(config: BanConfig, interval: int, maxTrackedIps: nat)

  function Run(rules: Rules, offences: seq<Offence>): (s: Sys)
    ensures Scores.Valid(s.scores) && s.scores.cap == Scores.Empty(rules.maxTrackedIps).cap
  {
    if offences == [] then Sys(Scores.Empty(rules.maxTrackedIps), Blocks.State(map[], [], 0))
    else Award(rules.config, rules.interval, Run(rules, Front(offences)), Last(offences)).0
  }

  /** The ban that the last offence brought, if any. */
  function BanBy(rules: Rules, offences: seq<Offence>): Option<Blocks.Block>
    requires offences != []
  {
    Award(rules.config, rules.interval, Run(rules, Front(offences)), Last(offences)).1
  }

  function Awarded(rules: Rules, offences: seq<Offence>): int {
    if offences == [] then 0 else Awarded(rules, Front(offences)) + Points(rules.config, Last(offences).check)
  }

  /** The sum of `score_at_block` over all bans. */
  function Banned(rules: Rules, offences: seq<Offence>): int {
    if offences == [] then 0
    else Banned(rules, Front(offences)) + match BanBy(rules, offences) case None => 0 case Some(ban) => ban.scoreAtBlock
  }

  ghost function Evicted(rules: Rules, offences: seq<Offence>): int {
    if offences == [] then 0
    else
      var o := Last(offences);
      Evicted(rules, Front(offences))
      + Dropped(Run(rules, Front(offences)).scores.scores, Run(rules, offences).scores.scores, o.text)
  }

  /** Points that did not fit under INT_MAX. */
  function Saturated(rules: Rules, offences: seq<Offence>): int {
    if offences == [] then 0
    else
      var o := Last(offences);
      var sum := Scores.Current(Run(rules, Front(offences)).scores, o.text) + Points(rules.config, o.check);
      Saturated(rules, Front(offences)) + if Points(rules.config, o.check) == 0 then 0 else sum - Scores.Clamp(sum)
  }

  lemma {:induction false} NothingMissing(m: map<string, Scores.Entry>, ip: string)
    ensures Dropped(m, m, ip) == 0
  {
    assert Missing(m - {ip}, m) == map[];
  }

  /** Points awarded are in a ban, in a live score, or were dropped by an eviction or by saturation. */
  lemma {:induction false} PointsAreConserved(rules: Rules, offences: seq<Offence>)
    ensures Awarded(rules, offences)
         == Banned(rules, offences) + Total(Run(rules, offences).scores.scores) + Evicted(rules, offences) + Saturated(rules, offences)
  {
    if offences != [] {
      PointsAreConserved(rules, Front(offences));
      AwardBalances(rules, offences);
    }
  }

  lemma {:induction false} AwardBalances(rules: Rules, offences: seq<Offence>)
    requires offences != []
    ensures Total(Run(rules, offences).scores.scores) - Total(Run(rules, Front(offences)).scores.scores)
         == (Awarded(rules, offences) - Awarded(rules, Front(offences))) - (Banned(rules, offences) - Banned(rules, Front(offences)))
          - (Evicted(rules, offences) - Evicted(rules, Front(offences))) - (Saturated(rules, offences) - Saturated(rules, Front(offences)))
  {
    var s, o := Run(rules, Front(offences)).scores, Last(offences);
    var p := Points(rules.config, o.check);
    if p == 0 {
      NothingMissing(s.scores, o.text);
    } else {
      var added := Scores.AddPoints(s, o.text, p);
      AddBalances(s, o.text, p);
      if BanBy(rules, offences).Some? { ResetBalances(s, added, o.text); }
    }
  }

  lemma {:induction false} ResetBalances(s: Scores.State, added: Scores.State, ip: string)
    requires Scores.Valid(added) && ip in added.scores
    ensures var t := Scores.Reset(added, ip);
            && Total(t.scores) == Total(added.scores) - Scores.Current(added, ip)
            && Dropped(s.scores, t.scores, ip) == Dropped(s.scores, added.scores, ip)
  {
    TotalWithout(added.scores, ip);
    assert Missing(s.scores - {ip}, added.scores) == Missing(s.scores - {ip}, added.scores - {ip});
  }

  /** Between awards no live score reaches the threshold, and none is zero. */
  lemma {:induction false} LiveScoresAreBelowThreshold(rules: Rules, offences: seq<Offence>, ip: string)
    requires ip in Run(rules, offences).scores.scores
    ensures 0 < Run(rules, offences).scores.scores[ip].score < rules.config.threshold
  {
    var s, o := Run(rules, Front(offences)).scores, Last(offences);
    var p := Points(rules.config, o.check);
    if p > 0 {
      AddTouches(s, o.text, p);
      if o.text in s.scores { LiveScoresAreBelowThreshold(rules, Front(offences), o.text); }
    }
    if ip in s.scores { LiveScoresAreBelowThreshold(rules, Front(offences), ip); }
  }

  /** No award can carry a live score past INT_MAX. */
  ghost predicate RoomForEveryAward(config: BanConfig) {
    forall check :: Points(config, check) <= Scores.INT_MAX && config.threshold - 1 + Points(config, check) <= Scores.INT_MAX
  }

  lemma {:induction false} NothingSaturates(rules: Rules, offences: seq<Offence>)
    requires RoomForEveryAward(rules.config)
    ensures Saturated(rules, offences) == 0
  {
    if offences != [] {
      NothingSaturates(rules, Front(offences));
      var s, o := Run(rules, Front(offences)).scores, Last(offences);
      if o.text in s.scores { LiveScoresAreBelowThreshold(rules, Front(offences), o.text); }
      assert Points(rules.config, o.check) <= Scores.INT_MAX;
    }
  }

  // ------------------------------------------------------------------ what a ban rests on

  /** The calls that the offences make on the score tracker. */
  function Calls(rules: Rules, offences: seq<Offence>): seq<Scores.Op> {
    if offences == [] then []
    else
      var o := Last(offences);
      var before := Calls(rules, Front(offences));
      var p := Points(rules.config, o.check);
      if p == 0 then before
      else if BanBy(rules, offences).Some? then before + [Scores.Add(o.text, p)] + [Scores.Forget(o.text)]
      else before + [Scores.Add(o.text, p)]
  }

  lemma {:induction false} RunIsCalls(rules: Rules, offences: seq<Offence>)
    ensures Run(rules, offences).scores == Scores.Run(Calls(rules, offences), rules.maxTrackedIps)
  {
    if offences != [] {
      RunIsCalls(rules, Front(offences));
      var o := Last(offences);
      CallsSnoc(rules, Calls(rules, Front(offences)), o.text, Points(rules.config, o.check));
    }
  }

  lemma {:induction false} CallsSnoc(rules: Rules, before: seq<Scores.Op>, text: string, points: int)
    ensures var s := Scores.Run(before, rules.maxTrackedIps);
            var added := before + [Scores.Add(text, points)];
            && Scores.Run(added, rules.maxTrackedIps) == Scores.AddPoints(s, text, points)
            && Scores.Run(added + [Scores.Forget(text)], rules.maxTrackedIps) == Scores.Reset(Scores.AddPoints(s, text, points), text)
  {
    var added := before + [Scores.Add(text, points)];
    assert Front(added) == before;
    assert Front(added + [Scores.Forget(text)]) == added;
  }

  /** Every call that adds points comes from an offence of that address, and adds what its check is worth. */
  lemma {:induction false} CallsComeFromOffences(rules: Rules, offences: seq<Offence>, text: string, points: int)
    requires Scores.Add(text, points) in Calls(rules, offences)
    ensures points > 0 && exists o :: o in offences && o.text == text && Points(rules.config, o.check) == points
  {
    if offences == [] {
    } else if Scores.Add(text, points) in Calls(rules, Front(offences)) {
      CallsComeFromOffences(rules, Front(offences), text, points);
    } else {
      assert Last(offences) in offences;
    }
  }

  /**
   The points on which a ban rests: those since call `from`, the latest with which the address came into the tracker
   anew, and which no ban has followed.
   */
  ghost predicate Earned(calls: seq<Scores.Op>, cap: nat, text: string, from: nat, total: int) {
    && from < |calls| && Scores.Inserts(calls, cap, text, from) && Scores.Forget(text) !in calls[from..]
    && (forall c :: from < c < |calls| ==> !Scores.Inserts(calls, cap, text, c))
    && Scores.PointsSince(calls, text, from) == total
  }

  /** The calls that lead to a ban, the one of the last offence included. */
  function CallsUpTo(rules: Rules, offences: seq<Offence>): seq<Scores.Op>
    requires offences != []
  {
    Calls(rules, Front(offences)) + [Scores.Add(Last(offences).text, Points(rules.config, Last(offences).check))]
  }

  /**
   A ban carries exactly the points that its address earned since it last came into the tracker, which is after its last
   ban and after any eviction, and they reach the threshold.
   */
  lemma {:induction false} BansAreEarned(rules: Rules, offences: seq<Offence>)
    requires offences != [] && BanBy(rules, offences).Some?
    ensures var ban, o := BanBy(rules, offences).value, Last(offences);
            && ban.text == o.text && ban.address == o.ip && ban.source == "score" && ban.createdAt == o.now
            && ban.scoreAtBlock >= rules.config.threshold
            && exists from :: Earned(CallsUpTo(rules, offences), Scores.Empty(rules.maxTrackedIps).cap, o.text, from, ban.scoreAtBlock)
  {
    var o := Last(offences);
    var calls := CallsUpTo(rules, offences);
    RunIsCalls(rules, Front(offences));
    assert Front(calls) == Calls(rules, Front(offences));
    var t := Scores.Run(calls, rules.maxTrackedIps);
    Scores.RunIsWindow(calls, rules.maxTrackedIps);
    assert Scores.Agrees(t, Scores.History(calls, t.cap), calls, o.text);
    Scores.LiveExactly(calls, t.cap, o.text);
    assert Earned(calls, t.cap, o.text, Scores.History(calls, t.cap).live[o.text].call, t.scores[o.text].score);
  }

  /** The ban takes effect at once and lasts exactly as long as the configuration says, at most ten years. */
  lemma {:induction false} BansTakeEffect(rules: Rules, s: Sys, o: Offence, at: int)
    requires Scores.Valid(s.scores) && Award(rules.config, rules.interval, s, o).1.Some?
    ensures var t := Award(rules.config, rules.interval, s, o); var ban := t.1.value;
            && Blocks.Holds(t.0.blocks, ban)
            && (Blocks.Blocks(ban, o.ip, at) <==> at < o.now + HOUR * rules.config.banHours && at < o.now + HOUR * MAX_BAN_HOURS)
  {
  }
}
