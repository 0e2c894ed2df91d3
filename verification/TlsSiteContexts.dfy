/**
 The cache of per-site TLS contexts.  A handshake asks for the map belonging to a
 configuration snapshot; at most one caller at a time rebuilds it, outside the lock,
 while the others go on with the previous map.

 Snapshots are immutable and compared by address, so a snapshot is its address and
 `Env.sites` says what is there.  A file system says when each file was last written
 (0: it does not exist); loading a key pair is a function of the two files as written at
 those times.  Files are looked at one after the other, and any of them may change
 between two looks: to any time, later, earlier or none.
 */
module TlsSiteContexts {
  import opened Prelude

  datatype SiteConfig = SiteConfig(domain: string, certFile: string, keyFile: string)

  type Files = string -> nat

  datatype Env<!T> = Env(sites: nat -> seq<SiteConfig>, load: (string, nat, string, nat) -> Option<T>)

  datatype SiteFingerprint = SiteFingerprint(domain: string, certFile: string, keyFile: string, certTime: nat, keyTime: nat)

  type Fingerprint = seq<SiteFingerprint>

  predicate HasOwnCert(site: SiteConfig) {
    site.certFile != "" && site.keyFile != ""
  }

  /** The sites with a certificate of their own. */
  function Own(sites: seq<SiteConfig>): seq<SiteConfig> {
    if sites == [] then [] else Own(Front(sites)) + if HasOwnCert(Last(sites)) then [Last(sites)] else []
  }

  /** The files of such sites in the order in which they are looked at: certificate, key, certificate, key. */
  function Path(own: seq<SiteConfig>, j: nat): string
    requires j < 2 * |own|
  {
    if j % 2 == 0 then own[j / 2].certFile else own[j / 2].keyFile
  }

  /** The fingerprint with these times. */
  function Stamp(own: seq<SiteConfig>, times: seq<nat>): (fp: Fingerprint)
    requires |times| == 2 * |own|
    ensures |fp| == |own|
  {
    seq(|own|, i requires 0 <= i < |own| => SiteFingerprint(own[i].domain, own[i].certFile, own[i].keyFile, times[2 * i], times[2 * i + 1]))
  }

  /** What the looks see when look number `j` finds the file system `at(j)`. */
  function Looks(own: seq<SiteConfig>, at: nat -> Files): (times: seq<nat>)
    ensures |times| == 2 * |own|
  {
    seq<nat>(2 * |own|, j requires 0 <= j < 2 * |own| => at(j)(Path(own, j)))
  }

  function Taken(sites: seq<SiteConfig>, at: nat -> Files): (fp: Fingerprint)
    ensures |fp| == |Own(sites)|
  {
    Stamp(Own(sites), Looks(Own(sites), at))
  }

  function FingerprintOf(sites: seq<SiteConfig>, fs: Files): Fingerprint {
    Taken(sites, _ => fs)
  }

  /** The map a fingerprint stands for, whatever configuration it was taken from.  A pair that does not load leaves the map as it was. */
  function BuildFrom<T>(env: Env<T>, fp: Fingerprint): map<string, T> {
    if fp == [] then map[]
    else
      var built := BuildFrom(env, Front(fp));
      var e := Last(fp);
      match env.load(e.certFile, e.certTime, e.keyFile, e.keyTime)
      case Some(context) => built[e.domain := context]
      case None => built
  }

  /** The map of a configuration whose files stay as they are. */
  function Build<T>(env: Env<T>, sites: seq<SiteConfig>, fs: Files): map<string, T> {
    if sites == [] then map[]
    else
      var built := Build(env, Front(sites), fs);
      var site := Last(sites);
      if !HasOwnCert(site) then built
      else match env.load(site.certFile, fs(site.certFile), site.keyFile, fs(site.keyFile))
           case Some(context) => built[site.domain := context]
           case None => built
  }

  lemma {:induction false} StampSnoc(own: seq<SiteConfig>, site: SiteConfig, times: seq<nat>, cert: nat, key: nat)
    requires |times| == 2 * |own|
    ensures Stamp(own + [site], times + [cert] + [key])
         == Stamp(own, times) + [SiteFingerprint(site.domain, site.certFile, site.keyFile, cert, key)]
  {
  }

  lemma {:induction false} LooksSnoc(own: seq<SiteConfig>, site: SiteConfig, at: nat -> Files)
    ensures Looks(own + [site], at) == Looks(own, at) + [at(2 * |own|)(site.certFile)] + [at(2 * |own| + 1)(site.keyFile)]
  {
    var all := own + [site];
    forall j | 0 <= j < 2 * |own| ensures Path(all, j) == Path(own, j) { }
  }

  /** One more site adds at most one entry. */
  lemma {:induction false} TakenSnoc(sites: seq<SiteConfig>, site: SiteConfig, at: nat -> Files)
    ensures var own := Own(sites);
            && Own(sites + [site]) == own + (if HasOwnCert(site) then [site] else [])
            && Taken(sites + [site], at) == Taken(sites, at)
               + if HasOwnCert(site)
                 then [SiteFingerprint(site.domain, site.certFile, site.keyFile, at(2 * |own|)(site.certFile), at(2 * |own| + 1)(site.keyFile))]
                 else []
  {
    var own := Own(sites);
    assert Front(sites + [site]) == sites;
    if HasOwnCert(site) {
      LooksSnoc(own, site, at);
      StampSnoc(own, site, Looks(own, at), at(2 * |own|)(site.certFile), at(2 * |own| + 1)(site.keyFile));
    } else {
      assert own + [] == own && Taken(sites, at) + [] == Taken(sites, at);
    }
  }

  lemma {:induction false} BuildSnoc<T>(env: Env<T>, fp: Fingerprint, e: SiteFingerprint)
    ensures BuildFrom(env, fp + [e])
         == match env.load(e.certFile, e.certTime, e.keyFile, e.keyTime)
            case Some(context) => BuildFrom(env, fp)[e.domain := context]
            case None => BuildFrom(env, fp)
  {
    assert Front(fp + [e]) == fp;
  }

  lemma {:induction false} BuildIsFromFingerprint<T>(env: Env<T>, sites: seq<SiteConfig>, fs: Files)
    ensures Build(env, sites, fs) == BuildFrom(env, FingerprintOf(sites, fs))
  {
    if sites != [] {
      var site := Last(sites);
      BuildIsFromFingerprint(env, Front(sites), fs);
      TakenSnoc(Front(sites), site, _ => fs);
      assert sites == Front(sites) + [site];
      BuildSnoc(env, FingerprintOf(Front(sites), fs), SiteFingerprint(site.domain, site.certFile, site.keyFile, fs(site.certFile), fs(site.keyFile)));
      assert FingerprintOf(Front(sites), fs) + [] == FingerprintOf(Front(sites), fs);
    }
  }

  /** Equal fingerprints give equal maps, whatever the two configurations and the two moments. */
  lemma {:induction false} EqualFingerprintsEqualBuilds<T>(
    env: Env<T>, sites1: seq<SiteConfig>, fs1: Files, sites2: seq<SiteConfig>, fs2: Files)
    requires FingerprintOf(sites1, fs1) == FingerprintOf(sites2, fs2)
    ensures Build(env, sites1, fs1) == Build(env, sites2, fs2)
  {
    BuildIsFromFingerprint(env, sites1, fs1);
    BuildIsFromFingerprint(env, sites2, fs2);
  }

  /** A fingerprint says which sites were looked at, and what was seen. */
  lemma {:induction false} StampInjective(own1: seq<SiteConfig>, times1: seq<nat>, own2: seq<SiteConfig>, times2: seq<nat>)
    requires |times1| == 2 * |own1| && |times2| == 2 * |own2| && Stamp(own1, times1) == Stamp(own2, times2)
    ensures own1 == own2 && times1 == times2
  {
    var f, g := Stamp(own1, times1), Stamp(own2, times2);
    assert |f| == |g|;
    forall i | 0 <= i < |own1| ensures own1[i] == own2[i] {
      assert f[i] == g[i];
    }
    forall j | 0 <= j < |times1| ensures times1[j] == times2[j] {
      assert f[j / 2] == g[j / 2];
    }
  }

  // ------------------------------------------------------------------ what a map holds

  /** How many of these sites name both a certificate and a key: two looks each. */
  function Named(sites: seq<SiteConfig>): nat {
    if sites == [] then 0 else Named(Front(sites)) + if Last(sites).certFile == "" || Last(sites).keyFile == "" then 0 else 1
  }

  /** What loading the pair of site `i` gives, when it names one: its two looks come after those of the sites before it. */
  function ContextAt<T>(env: Env<T>, sites: seq<SiteConfig>, at: nat -> Files, i: nat): Option<T>
    requires i < |sites|
  {
    var site, k := sites[i], 2 * Named(sites[..i]);
    if site.certFile == "" || site.keyFile == "" then None
    else env.load(site.certFile, at(k)(site.certFile), site.keyFile, at(k + 1)(site.keyFile))
  }

  /** Some site of this domain names a pair that loads. */
  ghost predicate Loads<T>(env: Env<T>, sites: seq<SiteConfig>, at: nat -> Files, d: string) {
    exists i: nat :: i < |sites| && sites[i].domain == d && ContextAt(env, sites, at, i).Some?
  }

  /** Site `i` is the last one of its domain whose pair loads. */
  ghost predicate Rules<T>(env: Env<T>, sites: seq<SiteConfig>, at: nat -> Files, d: string, i: nat)
    requires i < |sites|
  {
    && sites[i].domain == d && ContextAt(env, sites, at, i).Some?
    && forall j :: i < j < |sites| && sites[j].domain == d ==> ContextAt(env, sites, at, j).None?
  }

  /** The map has exactly the domains with a pair that loads, and for each the context of the last such site. */
  ghost predicate HoldsExactly<T>(env: Env<T>, sites: seq<SiteConfig>, at: nat -> Files, built: map<string, T>) {
    && (forall d :: d in built <==> Loads(env, sites, at, d))
    && (forall d :: d in built ==> HoldsLast(env, sites, at, built, d))
  }

  ghost predicate HoldsLast<T>(env: Env<T>, sites: seq<SiteConfig>, at: nat -> Files, built: map<string, T>, d: string) {
    d in built && exists i: nat :: i < |sites| && Rules(env, sites, at, d, i) && ContextAt(env, sites, at, i) == Some(built[d])
  }

  /** The entry of a site whose looks are numbers 2k and 2k + 1. */
  function EntryAt(site: SiteConfig, at: nat -> Files, k: nat): SiteFingerprint {
    SiteFingerprint(site.domain, site.certFile, site.keyFile, at(2 * k)(site.certFile), at(2 * k + 1)(site.keyFile))
  }

  /** One entry for each site that names a pair and none else, in their order, with what the looks found. */
  ghost predicate ListsExactly(sites: seq<SiteConfig>, at: nat -> Files, fp: Fingerprint) {
    && |fp| == Named(sites)
    && forall i: nat :: i < |sites| && sites[i].certFile != "" && sites[i].keyFile != "" ==> ListsAt(sites, at, fp, i)
  }

  ghost predicate ListsAt(sites: seq<SiteConfig>, at: nat -> Files, fp: Fingerprint, i: nat)
    requires i < |sites|
  {
    var site, k := sites[i], Named(sites[..i]);
    k < |fp| && fp[k] == EntryAt(site, at, k)
  }

  lemma {:induction false} ListsSnoc(before: seq<SiteConfig>, site: SiteConfig, at: nat -> Files, fp: Fingerprint)
    requires ListsExactly(before, at, fp)
    ensures ListsExactly(before + [site], at, fp + if site.certFile == "" || site.keyFile == "" then [] else [EntryAt(site, at, Named(before))])
  {
    var sites := before + [site];
    var after := fp + if site.certFile == "" || site.keyFile == "" then [] else [EntryAt(site, at, Named(before))];
    assert Front(sites) == before && sites[..|before|] == before;
    forall i: nat | i < |sites| && sites[i].certFile != "" && sites[i].keyFile != "" ensures ListsAt(sites, at, after, i) {
      if i < |before| {
        assert ListsAt(before, at, fp, i);
        assert sites[..i] == before[..i];
      }
    }
  }

  lemma {:induction false} TakenLists(sites: seq<SiteConfig>, at: nat -> Files)
    ensures ListsExactly(sites, at, Taken(sites, at))
  {
    if sites != [] {
      var before, site := Front(sites), Last(sites);
      assert before + [site] == sites;
      TakenLists(before, at);
      TakenListsSnoc(before, site, at);
    }
  }

  lemma {:induction false} TakenListsSnoc(before: seq<SiteConfig>, site: SiteConfig, at: nat -> Files)
    requires ListsExactly(before, at, Taken(before, at))
    ensures ListsExactly(before + [site], at, Taken(before + [site], at))
  {
    TakenStep(before, site, at);
    ListsSnoc(before, site, at, Taken(before, at));
  }

  lemma {:induction false} TakenStep(before: seq<SiteConfig>, site: SiteConfig, at: nat -> Files)
    requires |Taken(before, at)| == Named(before)
    ensures Taken(before + [site], at)
         == Taken(before, at) + if site.certFile == "" || site.keyFile == "" then [] else [EntryAt(site, at, Named(before))]
  {
    TakenSnoc(before, site, at);
  }

  lemma {:induction false} ContextAtFront<T>(env: Env<T>, sites: seq<SiteConfig>, at: nat -> Files, i: nat)
    requires i + 1 < |sites|
    ensures ContextAt(env, sites, at, i) == ContextAt(env, Front(sites), at, i)
  {
    assert Front(sites)[..i] == sites[..i];
  }

  /** The map after the last of these sites: its context replaces what was there for its domain. */
  function AndLast<T>(env: Env<T>, sites: seq<SiteConfig>, at: nat -> Files, built: map<string, T>): map<string, T>
    requires sites != []
  {
    match ContextAt(env, sites, at, |sites| - 1) case None => built case Some(c) => built[Last(sites).domain := c]
  }

  lemma {:induction false} LoadsSnoc<T>(env: Env<T>, sites: seq<SiteConfig>, at: nat -> Files, d: string)
    requires sites != []
    ensures Loads(env, sites, at, d)
       <==> Loads(env, Front(sites), at, d) || (Last(sites).domain == d && ContextAt(env, sites, at, |sites| - 1).Some?)
  {
    if Loads(env, sites, at, d) {
      var i: nat :| i < |sites| && sites[i].domain == d && ContextAt(env, sites, at, i).Some?;
      if i < |sites| - 1 { ContextAtFront(env, sites, at, i); }
    }
    if Loads(env, Front(sites), at, d) {
      var i: nat :| i < |Front(sites)| && Front(sites)[i].domain == d && ContextAt(env, Front(sites), at, i).Some?;
      ContextAtFront(env, sites, at, i);
    }
  }

  lemma {:induction false} RulesSnoc<T>(env: Env<T>, sites: seq<SiteConfig>, at: nat -> Files, d: string, i: nat)
    requires i + 1 < |sites| && Rules(env, Front(sites), at, d, i)
    requires Last(sites).domain == d ==> ContextAt(env, sites, at, |sites| - 1).None?
    ensures Rules(env, sites, at, d, i)
  {
    ContextAtFront(env, sites, at, i);
    forall j | i < j < |sites| && sites[j].domain == d ensures ContextAt(env, sites, at, j).None? {
      if j < |sites| - 1 {
        ContextAtFront(env, sites, at, j);
        assert Front(sites)[j].domain == d;
      }
    }
  }

  lemma {:induction false} LastSnoc<T>(env: Env<T>, sites: seq<SiteConfig>, at: nat -> Files, built: map<string, T>, d: string)
    requires sites != [] && d in AndLast(env, sites, at, built)
    requires d in built ==> HoldsLast(env, Front(sites), at, built, d)
    ensures HoldsLast(env, sites, at, AndLast(env, sites, at, built), d)
  {
    var n := |sites| - 1;
    if ContextAt(env, sites, at, n).Some? && sites[n].domain == d {
      assert Rules(env, sites, at, d, n);
    } else {
      var i: nat :| i < |Front(sites)| && Rules(env, Front(sites), at, d, i) && ContextAt(env, Front(sites), at, i) == Some(built[d]);
      RulesSnoc(env, sites, at, d, i);
      ContextAtFront(env, sites, at, i);
    }
  }

  lemma {:induction false} HoldsSnoc<T>(env: Env<T>, sites: seq<SiteConfig>, at: nat -> Files, built: map<string, T>)
    requires sites != [] && HoldsExactly(env, Front(sites), at, built)
    ensures HoldsExactly(env, sites, at, AndLast(env, sites, at, built))
  {
    var after := AndLast(env, sites, at, built);
    forall d ensures d in after <==> Loads(env, sites, at, d) {
      LoadsSnoc(env, sites, at, d);
      assert d in built <==> Loads(env, Front(sites), at, d);
    }
    forall d | d in after ensures HoldsLast(env, sites, at, after, d) {
      LastSnoc(env, sites, at, built, d);
    }
  }

  lemma {:induction false} TakenHolds<T>(env: Env<T>, sites: seq<SiteConfig>, at: nat -> Files)
    ensures HoldsExactly(env, sites, at, BuildFrom(env, Taken(sites, at)))
  {
    if sites != [] {
      var before, site := Front(sites), Last(sites);
      assert before + [site] == sites;
      TakenHolds(env, before, at);
      TakenHoldsSnoc(env, before, site, at);
    }
  }

  lemma {:induction false} TakenHoldsSnoc<T>(env: Env<T>, before: seq<SiteConfig>, site: SiteConfig, at: nat -> Files)
    requires HoldsExactly(env, before, at, BuildFrom(env, Taken(before, at)))
    ensures HoldsExactly(env, before + [site], at, BuildFrom(env, Taken(before + [site], at)))
  {
    assert Front(before + [site]) == before;
    TakenLists(before, at);
    TakenStep(before, site, at);
    BuildAndLast(env, before + [site], at, Taken(before, at));
    HoldsSnoc(env, before + [site], at, BuildFrom(env, Taken(before, at)));
  }

  lemma {:induction false} BuildAndLast<T>(env: Env<T>, sites: seq<SiteConfig>, at: nat -> Files, fp: Fingerprint)
    requires sites != []
    ensures var site := Last(sites);
            BuildFrom(env, fp + if site.certFile == "" || site.keyFile == "" then [] else [EntryAt(site, at, Named(Front(sites)))])
            == AndLast(env, sites, at, BuildFrom(env, fp))
  {
    assert sites[..|sites| - 1] == Front(sites);
    if Last(sites).certFile == "" || Last(sites).keyFile == "" {
      assert fp + [] == fp;
    } else {
      BuildSnoc(env, fp, EntryAt(Last(sites), at, Named(Front(sites))));
    }
  }

  /** The map of files that stay as they are. */
  lemma {:induction false} BuildHolds<T>(env: Env<T>, sites: seq<SiteConfig>, fs: Files)
    ensures HoldsExactly(env, sites, _ => fs, Build(env, sites, fs))
  {
    TakenHolds(env, sites, _ => fs);
    BuildIsFromFingerprint(env, sites, fs);
  }

  // ------------------------------------------------------------------ the object

  /** The fields under the lock; `checked` is the address of the last snapshot compared. */
  datatype Fields<T> = Fields(checked: Option<nat>, builtFingerprint: Fingerprint, contexts: Option<map<string, T>>, refreshing: bool)

  class Cache<T> {
    var checkedConfig: Option<nat>
    var builtFingerprint: Fingerprint
    var contexts: Option<map<string, T>>
    var refreshing: bool

    ghost function Abs(): Fields<T>
      reads this
    {
      Fields(checkedConfig, builtFingerprint, contexts, refreshing)
    }

    constructor ()
      ensures Abs() == Fields(None, [], None, false)
    {
      checkedConfig, builtFingerprint, contexts, refreshing := None, [], None, false;
    }

    static method TakeFingerprint(sites: seq<SiteConfig>, at: nat -> Files) returns (fp: Fingerprint)
      ensures fp == Taken(sites, at) && ListsExactly(sites, at, fp)
    {
      fp := [];
      for i := 0 to |sites|
        invariant fp == Taken(sites[..i], at)
      {
        TakenNext(sites, i, at);
        var site := sites[i];
        if HasOwnCert(site) {
          fp := fp + [SiteFingerprint(site.domain, site.certFile, site.keyFile, at(2 * |fp|)(site.certFile), at(2 * |fp| + 1)(site.keyFile))];
        }
      }
      assert sites[..|sites|] == sites;
      TakenLists(sites, at);
    }

    static method BuildContexts(env: Env<T>, sites: seq<SiteConfig>, at: nat -> Files) returns (built: map<string, T>)
      ensures built == BuildFrom(env, Taken(sites, at)) && HoldsExactly(env, sites, at, built)
    {
      built := map[];
      var looked: nat := 0;
      for i := 0 to |sites|
        invariant looked == 2 * |Taken(sites[..i], at)|
        invariant built == BuildFrom(env, Taken(sites[..i], at))
      {
        BuildNext(env, sites, i, at);
        if HasOwnCert(sites[i]) {
          var cert, key := at(looked)(sites[i].certFile), at(looked + 1)(sites[i].keyFile);
          var context := env.load(sites[i].certFile, cert, sites[i].keyFile, key);
          if context.Some? {
            built := built[sites[i].domain := context.value];
          }
          looked := looked + 2;
        }
      }
      assert sites[..|sites|] == sites;
      TakenHolds(env, sites, at);
    }

    /**
     A whole call with no other caller in between; the files may change all the time.  `printAt` and `readAt` are what
     the looks of the two phases find.
     */
    method Current(env: Env<T>, config: nat, printAt: nat -> Files, readAt: nat -> Files) returns (result: map<string, T>)
      requires !refreshing
      modifies this
      ensures checkedConfig == Some(config) && contexts == Some(result) && !refreshing
      ensures old(checkedConfig) == Some(config) && old(contexts).Some? ==> Abs() == old(Abs())
      ensures old(checkedConfig) != Some(config) || old(contexts).None? ==>
                && builtFingerprint == Taken(env.sites(config), printAt)
                && (old(contexts).Some? && builtFingerprint == old(builtFingerprint)
                    ==> Some(result) == old(contexts)
                        && (old(contexts.value == BuildFrom(env, builtFingerprint)) ==> result == BuildFrom(env, Taken(env.sites(config), printAt))))
                && (old(contexts).None? || builtFingerprint != old(builtFingerprint)
                    ==> result == BuildFrom(env, Taken(env.sites(config), readAt)))
    {
      if checkedConfig == Some(config) && contexts.Some? {
        return contexts.value;
      }
      refreshing := true;
      var fingerprint := TakeFingerprint(env.sites(config), printAt);
      if contexts.Some? && fingerprint == builtFingerprint {
        checkedConfig := Some(config);
        result := contexts.value;
      } else {
        result := BuildContexts(env, env.sites(config), readAt);
        contexts := Some(result);
        builtFingerprint := fingerprint;
        checkedConfig := Some(config);
      }
      refreshing := false;
    }
  }

  lemma {:induction false} BuildNext<T>(env: Env<T>, sites: seq<SiteConfig>, i: nat, at: nat -> Files)
    requires i < |sites|
    ensures var k, site, built := 2 * |Taken(sites[..i], at)|, sites[i], BuildFrom(env, Taken(sites[..i], at));
            && 2 * |Taken(sites[..i + 1], at)| == (if HasOwnCert(site) then k + 2 else k)
            && BuildFrom(env, Taken(sites[..i + 1], at))
               == if !HasOwnCert(site) then built
                  else match env.load(site.certFile, at(k)(site.certFile), site.keyFile, at(k + 1)(site.keyFile))
                       case Some(context) => built[site.domain := context]
                       case None => built
  {
    TakenNext(sites, i, at);
    var fp, site := Taken(sites[..i], at), sites[i];
    BuildSnoc(env, fp, SiteFingerprint(site.domain, site.certFile, site.keyFile, at(2 * |fp|)(site.certFile), at(2 * |fp| + 1)(site.keyFile)));
  }

  lemma {:induction false} TakenNext(sites: seq<SiteConfig>, i: nat, at: nat -> Files)
    requires i < |sites|
    ensures var fp, site := Taken(sites[..i], at), sites[i];
            Taken(sites[..i + 1], at) == if HasOwnCert(site)
              then fp + [SiteFingerprint(site.domain, site.certFile, site.keyFile, at(2 * |fp|)(site.certFile), at(2 * |fp| + 1)(site.keyFile))]
              else fp
  {
    TakenSnoc(sites[..i], sites[i], at);
    assert sites[..i + 1] == sites[..i] + [sites[i]];
  }

  // ------------------------------------------------------------------ the protocol

  /** Looks at files so far: what each found, and at which moment of the run. */
  datatype Seen = Seen(times: seq<nat>, moments: seq<nat>)

  const NOTHING := Seen([], [])

  /** How far the refreshing caller got; `began` is the moment its call began. */
  datatype Pc<!T> =
    | Printing(config: nat, began: nat, seen: Seen)
    | Reading(config: nat, began: nat, printed: Seen, seen: Seen)
    | Leaving(config: nat, began: nat, rebuilt: bool, result: map<string, T>, seen: Seen)

  datatype Kind = Fast | Stale | Confirmed | Rebuilt

  /** What a finished call returned; for all but stale answers `seen` are the looks that it rests on. */
  datatype Return<T> = Return(config: nat, kind: Kind, result: map<string, T>, began: nat, ended: nat, seen: Seen)

  /** The looks behind the stored fingerprint and behind the stored map, and the configuration they were for. */
  datatype Origin = Origin(config: nat, printed: Seen, read: Seen)

  /**
   `hist` holds the file system at every moment so far, the present one last; `pcs` the callers between becoming the
   refresher and leaving.  `origin` and `checkedSeen` say what the stored map and the last check rest on.
   */
  datatype Sys<!T> = Sys(
    fields: Fields<T>, pcs: map<nat, Pc<T>>, hist: seq<Files>, answered: seq<Return<T>>,
    origin: Origin, checkedSeen: Seen)

  datatype Step =
    | CallStep(tid: nat, config: nat)
    | StatStep(tid: nat)
    | CompareStep(tid: nat)
    | LoadStep(tid: nat)
    | InstallStep(tid: nat)
    | LeaveStep(tid: nat)
    | TouchStep(path: string, time: nat)

  function Init<T>(fs: Files): Sys<T> {
    Sys(Fields(None, [], None, false), map[], [fs], [], Origin(0, NOTHING, NOTHING), NOTHING)
  }

  function OwnOf<T>(env: Env<T>, config: nat): seq<SiteConfig> {
    Own(env.sites(config))
  }

  predicate Full<T>(env: Env<T>, config: nat, seen: Seen) {
    |seen.times| == 2 * |OwnOf(env, config)|
  }

  predicate Enabled<T>(env: Env<T>, s: Sys<T>, step: Step) {
    && s.hist != []
    && match step
       case CallStep(tid, _) => tid !in s.pcs
       case StatStep(tid) => tid in s.pcs && s.pcs[tid].Printing? && |s.pcs[tid].seen.times| < 2 * |OwnOf(env, s.pcs[tid].config)|
       case CompareStep(tid) => tid in s.pcs && s.pcs[tid].Printing? && Full(env, s.pcs[tid].config, s.pcs[tid].seen)
       case LoadStep(tid) => tid in s.pcs && s.pcs[tid].Reading? && |s.pcs[tid].seen.times| < 2 * |OwnOf(env, s.pcs[tid].config)|
       case InstallStep(tid) => tid in s.pcs && s.pcs[tid].Reading? && Full(env, s.pcs[tid].config, s.pcs[tid].seen)
                                && Full(env, s.pcs[tid].config, s.pcs[tid].printed)
       case LeaveStep(tid) => tid in s.pcs && s.pcs[tid].Leaving?
       case TouchStep(_, _) => true
  }

  function Touched(fs: Files, path: string, time: nat): Files {
    p => if p == path then time else fs(p)
  }

  function Now<T>(s: Sys<T>): nat
    requires s.hist != []
  {
    |s.hist| - 1
  }

  /** One more look at a file. */
  function Looked<T>(env: Env<T>, s: Sys<T>, config: nat, seen: Seen): Seen
    requires s.hist != [] && |seen.times| < 2 * |OwnOf(env, config)|
  {
    Seen(seen.times + [Last(s.hist)(Path(OwnOf(env, config), |seen.times|))], seen.moments + [Now(s)])
  }

  /** The first critical section: answer at once, or become the one that refreshes. */
  function Call<T>(s: Sys<T>, tid: nat, config: nat): Sys<T>
    requires s.hist != []
  {
    var k := s.fields;
    if k.checked == Some(config) && k.contexts.Some?
    then s.(answered := s.answered + [Return(config, Fast, k.contexts.value, Now(s), Now(s), s.checkedSeen)])
    else if k.refreshing
    then s.(answered := s.answered + [Return(config, Stale, if k.contexts.Some? then k.contexts.value else map[], Now(s), Now(s), NOTHING)])
    else s.(fields := k.(refreshing := true), pcs := s.pcs[tid := Printing(config, Now(s), NOTHING)])
  }

  function Compare<T>(env: Env<T>, s: Sys<T>, tid: nat): Sys<T>
    requires Enabled(env, s, CompareStep(tid))
  {
    var pc := s.pcs[tid];
    if s.fields.contexts.Some? && Stamp(OwnOf(env, pc.config), pc.seen.times) == s.fields.builtFingerprint
    then s.(fields := s.fields.(checked := Some(pc.config)), checkedSeen := pc.seen,
            pcs := s.pcs[tid := Leaving(pc.config, pc.began, false, s.fields.contexts.value, pc.seen)])
    else s.(pcs := s.pcs[tid := Reading(pc.config, pc.began, pc.seen, NOTHING)])
  }

  function Install<T>(env: Env<T>, s: Sys<T>, tid: nat): Sys<T>
    requires Enabled(env, s, InstallStep(tid))
  {
    var pc := s.pcs[tid];
    var built := BuildFrom(env, Stamp(OwnOf(env, pc.config), pc.seen.times));
    s.(fields := s.fields.(contexts := Some(built), builtFingerprint := Stamp(OwnOf(env, pc.config), pc.printed.times), checked := Some(pc.config)),
       origin := Origin(pc.config, pc.printed, pc.seen), checkedSeen := pc.seen,
       pcs := s.pcs[tid := Leaving(pc.config, pc.began, true, built, pc.seen)])
  }

  function Leave<T>(s: Sys<T>, tid: nat): Sys<T>
    requires s.hist != [] && tid in s.pcs && s.pcs[tid].Leaving?
  {
    var pc := s.pcs[tid];
    s.(fields := s.fields.(refreshing := false), pcs := s.pcs - {tid},
       answered := s.answered + [Return(pc.config, if pc.rebuilt then Rebuilt else Confirmed, pc.result, pc.began, Now(s), pc.seen)])
  }

  function Change<T>(env: Env<T>, s: Sys<T>, step: Step): Sys<T>
    requires Enabled(env, s, step)
  {
    match step
    case CallStep(tid, config) => Call(s, tid, config)
    case StatStep(tid) => var pc := s.pcs[tid]; s.(pcs := s.pcs[tid := Printing(pc.config, pc.began, Looked(env, s, pc.config, pc.seen))])
    case CompareStep(tid) => Compare(env, s, tid)
    case LoadStep(tid) => var pc := s.pcs[tid]; s.(pcs := s.pcs[tid := Reading(pc.config, pc.began, pc.printed, Looked(env, s, pc.config, pc.seen))])
    case InstallStep(tid) => Install(env, s, tid)
    case LeaveStep(tid) => Leave(s, tid)
    case TouchStep(_, _) => s
  }

  /** The file system after a step. */
  function FilesAfter(fs: Files, step: Step): Files {
    match step
    case TouchStep(path, time) => Touched(fs, path, time)
    case _ => fs
  }

  /** Every step is a moment of its own. */
  function Apply<T>(env: Env<T>, s: Sys<T>, step: Step): Sys<T>
    requires Enabled(env, s, step)
  {
    Change(env, s, step).(hist := s.hist + [FilesAfter(Last(s.hist), step)])
  }

  predicate Feasible<T>(env: Env<T>, fs: Files, steps: seq<Step>)
    decreases |steps|, 0
  {
    steps == [] || (Feasible(env, fs, Front(steps)) && Enabled(env, Run(env, fs, Front(steps)), Last(steps)))
  }

  function Run<T>(env: Env<T>, fs: Files, steps: seq<Step>): Sys<T>
    requires Feasible(env, fs, steps)
    decreases |steps|, 1
  {
    if steps == [] then Init(fs) else Apply(env, Run(env, fs, Front(steps)), Last(steps))
  }

  // ------------------------------------------------------------------ what every step keeps

  /** The looks were made at moments from `from` to `to`, in order, and found what was there then. */
  ghost predicate SeenOk(hist: seq<Files>, own: seq<SiteConfig>, seen: Seen, from: nat, to: nat) {
    && |seen.times| == |seen.moments| <= 2 * |own|
    && from <= to < |hist|
    && forall j :: 0 <= j < |seen.times| ==> LookOk(hist, own, seen, j, from, to)
  }

  ghost predicate LookOk(hist: seq<Files>, own: seq<SiteConfig>, seen: Seen, j: nat, from: nat, to: nat)
    requires j < |seen.times| == |seen.moments| <= 2 * |own| && to < |hist|
  {
    from <= seen.moments[j] <= to && hist[seen.moments[j]](Path(own, j)) == seen.times[j]
  }

  /** The two phases of one refresh: each file was printed before it was read. */
  ghost predicate InOrder(printed: Seen, read: Seen) {
    && |printed.moments| >= |read.moments|
    && forall j :: 0 <= j < |read.moments| ==> printed.moments[j] <= read.moments[j]
  }

  ghost predicate OneRefresher<T>(s: Sys<T>) {
    && (forall a, b :: a in s.pcs && b in s.pcs ==> a == b)
    && (s.fields.refreshing <==> s.pcs != map[])
  }

  /** The stored map and fingerprint are what some refresh read and printed. */
  ghost predicate MapOk<T>(env: Env<T>, s: Sys<T>)
    requires s.hist != []
  {
    && (s.fields.contexts.Some? <==> s.fields.checked.Some?)
    && (s.fields.contexts.None? ==> s.origin.read == NOTHING)
    && (s.fields.contexts.Some? ==>
          var own := OwnOf(env, s.origin.config);
          && SeenOk(s.hist, own, s.origin.printed, 0, Now(s)) && Full(env, s.origin.config, s.origin.printed)
          && SeenOk(s.hist, own, s.origin.read, 0, Now(s)) && Full(env, s.origin.config, s.origin.read)
          && InOrder(s.origin.printed, s.origin.read)
          && s.fields.contexts.value == BuildFrom(env, Stamp(own, s.origin.read.times))
          && s.fields.builtFingerprint == Stamp(own, s.origin.printed.times))
  }

  /** The times of these sites' files never go down. */
  ghost predicate Rising(hist: seq<Files>, own: seq<SiteConfig>) {
    forall a, b, j: nat :: 0 <= a <= b < |hist| && j < 2 * |own| ==> hist[a](Path(own, j)) <= hist[b](Path(own, j))
  }

  /** `result` is the map of `config` with every file as it was found in `seen`. */
  ghost predicate RestsOn<T>(env: Env<T>, config: nat, result: map<string, T>, seen: Seen) {
    Full(env, config, seen) && result == BuildFrom(env, Stamp(OwnOf(env, config), seen.times))
  }

  ghost predicate CheckOk<T>(env: Env<T>, s: Sys<T>)
    requires s.hist != []
  {
    s.fields.contexts.Some? && s.fields.checked.Some? ==>
      && SeenOk(s.hist, OwnOf(env, s.fields.checked.value), s.checkedSeen, 0, Now(s))
      && Full(env, s.fields.checked.value, s.checkedSeen)
      && (Rising(s.hist, OwnOf(env, s.fields.checked.value)) ==> RestsOn(env, s.fields.checked.value, s.fields.contexts.value, s.checkedSeen))
  }

  ghost predicate PcOk<T>(env: Env<T>, hist: seq<Files>, stored: Seen, pc: Pc<T>)
    requires hist != []
  {
    match pc
    case Printing(config, began, seen) =>
      SeenOk(hist, OwnOf(env, config), seen, began, |hist| - 1) && After(stored, began)
    case Reading(config, began, printed, seen) =>
      && SeenOk(hist, OwnOf(env, config), printed, began, |hist| - 1) && Full(env, config, printed)
      && SeenOk(hist, OwnOf(env, config), seen, began, |hist| - 1) && InOrder(printed, seen)
    case Leaving(config, began, rebuilt, result, seen) =>
      && SeenOk(hist, OwnOf(env, config), seen, began, |hist| - 1) && Full(env, config, seen)
      && (rebuilt || Rising(hist, OwnOf(env, config)) ==> RestsOn(env, config, result, seen))
  }

  /** What the stored map was read from is no later than that moment. */
  ghost predicate After(read: Seen, began: nat) {
    forall j :: 0 <= j < |read.moments| ==> read.moments[j] <= began
  }

  ghost predicate ReturnOk<T>(env: Env<T>, hist: seq<Files>, r: Return<T>) {
    r.ended < |hist| &&
    match r.kind
    case Stale => true
    case Fast =>
      && SeenOk(hist, OwnOf(env, r.config), r.seen, 0, r.ended) && Full(env, r.config, r.seen)
      && (Rising(hist[..r.ended + 1], OwnOf(env, r.config)) ==> RestsOn(env, r.config, r.result, r.seen))
    case Confirmed =>
      && SeenOk(hist, OwnOf(env, r.config), r.seen, r.began, r.ended) && Full(env, r.config, r.seen)
      && (Rising(hist[..r.ended + 1], OwnOf(env, r.config)) ==> RestsOn(env, r.config, r.result, r.seen))
    case Rebuilt =>
      SeenOk(hist, OwnOf(env, r.config), r.seen, r.began, r.ended) && RestsOn(env, r.config, r.result, r.seen)
  }

  ghost predicate Inv<T>(env: Env<T>, s: Sys<T>) {
    && s.hist != [] && OneRefresher(s) && MapOk(env, s) && CheckOk(env, s)
    && (forall tid :: tid in s.pcs ==> PcOk(env, s.hist, s.origin.read, s.pcs[tid]))
    && (forall r :: r in s.answered ==> ReturnOk(env, s.hist, r))
  }

  // ------------------------------------------------------------------ time goes on

  lemma {:induction false} SeenStays(hist: seq<Files>, fs: Files, own: seq<SiteConfig>, seen: Seen, from: nat, to: nat, later: nat)
    requires SeenOk(hist, own, seen, from, to) && to <= later <= |hist|
    ensures SeenOk(hist + [fs], own, seen, from, later)
  {
    forall j | 0 <= j < |seen.times| ensures LookOk(hist + [fs], own, seen, j, from, later) {
      assert LookOk(hist, own, seen, j, from, to);
    }
  }

  lemma {:induction false} RisingBefore(hist: seq<Files>, fs: Files, own: seq<SiteConfig>)
    requires Rising(hist + [fs], own)
    ensures Rising(hist, own)
  {
    forall a, b, j: nat | 0 <= a <= b < |hist| && j < 2 * |own| ensures hist[a](Path(own, j)) <= hist[b](Path(own, j)) {
      assert (hist + [fs])[a](Path(own, j)) <= (hist + [fs])[b](Path(own, j));
    }
  }

  /** A moment later everything that was said still holds. */
  lemma {:induction false} MomentLater<T>(env: Env<T>, s: Sys<T>, fs: Files)
    requires Inv(env, s)
    ensures Inv(env, s.(hist := s.hist + [fs]))
  {
    var t := s.(hist := s.hist + [fs]);
    if s.fields.contexts.Some? {
      if Rising(t.hist, OwnOf(env, s.fields.checked.value)) { RisingBefore(s.hist, fs, OwnOf(env, s.fields.checked.value)); }
      var own := OwnOf(env, s.origin.config);
      SeenStays(s.hist, fs, own, s.origin.printed, 0, Now(s), Now(t));
      SeenStays(s.hist, fs, own, s.origin.read, 0, Now(s), Now(t));
      SeenStays(s.hist, fs, OwnOf(env, s.fields.checked.value), s.checkedSeen, 0, Now(s), Now(t));
    }
    forall tid | tid in t.pcs ensures PcOk(env, t.hist, t.origin.read, t.pcs[tid]) { PcLater(env, s.hist, fs, s.origin.read, s.pcs[tid]); }
    forall r | r in t.answered ensures ReturnOk(env, t.hist, r) { ReturnLater(env, s.hist, fs, r); }
  }

  lemma {:induction false} PcLater<T>(env: Env<T>, hist: seq<Files>, fs: Files, stored: Seen, pc: Pc<T>)
    requires hist != [] && PcOk(env, hist, stored, pc)
    ensures PcOk(env, hist + [fs], stored, pc)
  {
    var n := |hist|;
    if Rising(hist + [fs], OwnOf(env, pc.config)) { RisingBefore(hist, fs, OwnOf(env, pc.config)); }
    SeenStays(hist, fs, OwnOf(env, pc.config), pc.seen, pc.began, n - 1, n);
    if pc.Reading? { SeenStays(hist, fs, OwnOf(env, pc.config), pc.printed, pc.began, n - 1, n); }
  }

  lemma {:induction false} ReturnLater<T>(env: Env<T>, hist: seq<Files>, fs: Files, r: Return<T>)
    requires ReturnOk(env, hist, r)
    ensures ReturnOk(env, hist + [fs], r)
  {
    assert (hist + [fs])[..r.ended + 1] == hist[..r.ended + 1];
    if !r.kind.Stale? {
      SeenStays(hist, fs, OwnOf(env, r.config), r.seen, if r.kind.Fast? then 0 else r.began, r.ended, r.ended);
    }
  }

  // ------------------------------------------------------------------ one step at a time

  /** A call that is answered at once. */
  lemma {:induction false} AnswerKeeps<T>(env: Env<T>, s: Sys<T>, r: Return<T>)
    requires Inv(env, s) && ReturnOk(env, s.hist, r)
    ensures Inv(env, s.(answered := s.answered + [r]))
  {
  }

  /** A call that becomes the refresher. */
  lemma {:induction false} BeginKeeps<T>(env: Env<T>, s: Sys<T>, tid: nat, config: nat)
    requires Inv(env, s) && tid !in s.pcs && !s.fields.refreshing
    ensures Inv(env, s.(fields := s.fields.(refreshing := true), pcs := s.pcs[tid := Printing(config, Now(s), NOTHING)]))
  {
    var t := s.(fields := s.fields.(refreshing := true), pcs := s.pcs[tid := Printing(config, Now(s), NOTHING)]);
    if s.fields.contexts.Some? { StoredBefore(env, s); }
    assert PcOk(env, s.hist, s.origin.read, Printing(config, Now(s), NOTHING));
    assert tid in t.pcs;
    forall other | other in t.pcs ensures other == tid { }
  }

  lemma {:induction false} CallKeeps<T>(env: Env<T>, s: Sys<T>, tid: nat, config: nat)
    requires Inv(env, s) && Enabled(env, s, CallStep(tid, config))
    ensures Inv(env, Call(s, tid, config))
  {
    var k := s.fields;
    if k.checked == Some(config) && k.contexts.Some? {
      assert s.hist[..Now(s) + 1] == s.hist;
      AnswerKeeps(env, s, Return(config, Fast, k.contexts.value, Now(s), Now(s), s.checkedSeen));
    } else if k.refreshing {
      AnswerKeeps(env, s, Return(config, Stale, if k.contexts.Some? then k.contexts.value else map[], Now(s), Now(s), NOTHING));
    } else {
      BeginKeeps(env, s, tid, config);
    }
  }

  lemma {:induction false} StoredBefore<T>(env: Env<T>, s: Sys<T>)
    requires s.hist != [] && MapOk(env, s) && s.fields.contexts.Some?
    ensures After(s.origin.read, Now(s))
  {
    var read := s.origin.read;
    forall j | 0 <= j < |read.moments| ensures read.moments[j] <= Now(s) {
      assert LookOk(s.hist, OwnOf(env, s.origin.config), read, j, 0, Now(s));
    }
  }

  lemma {:induction false} LookKeeps<T>(env: Env<T>, s: Sys<T>, config: nat, seen: Seen, from: nat)
    requires s.hist != [] && SeenOk(s.hist, OwnOf(env, config), seen, from, Now(s)) && |seen.times| < 2 * |OwnOf(env, config)|
    ensures SeenOk(s.hist, OwnOf(env, config), Looked(env, s, config, seen), from, Now(s))
  {
    var more := Looked(env, s, config, seen);
    forall j | 0 <= j < |more.times| ensures LookOk(s.hist, OwnOf(env, config), more, j, from, Now(s)) {
      if j < |seen.times| { assert LookOk(s.hist, OwnOf(env, config), seen, j, from, Now(s)); }
    }
  }

  lemma {:induction false} StatKeeps<T>(env: Env<T>, s: Sys<T>, tid: nat)
    requires Inv(env, s) && Enabled(env, s, StatStep(tid))
    ensures Inv(env, Change(env, s, StatStep(tid)))
  {
    var pc := s.pcs[tid];
    LookKeeps(env, s, pc.config, pc.seen, pc.began);
    OnlyThisOne(env, s, tid, Printing(pc.config, pc.began, Looked(env, s, pc.config, pc.seen)));
  }

  /** A step that only moves the refresher on. */
  lemma {:induction false} OnlyThisOne<T>(env: Env<T>, s: Sys<T>, tid: nat, pc: Pc<T>)
    requires Inv(env, s) && tid in s.pcs && PcOk(env, s.hist, s.origin.read, pc)
    ensures Inv(env, s.(pcs := s.pcs[tid := pc]))
  {
    var t := s.(pcs := s.pcs[tid := pc]);
    assert tid in t.pcs;
    forall other | other in t.pcs ensures other == tid && PcOk(env, t.hist, t.origin.read, t.pcs[other]) { }
  }

  lemma {:induction false} LoadKeeps<T>(env: Env<T>, s: Sys<T>, tid: nat)
    requires Inv(env, s) && Enabled(env, s, LoadStep(tid))
    ensures Inv(env, Change(env, s, LoadStep(tid)))
  {
    var pc := s.pcs[tid];
    var more := Looked(env, s, pc.config, pc.seen);
    LookKeeps(env, s, pc.config, pc.seen, pc.began);
    forall j | 0 <= j < |more.moments| ensures pc.printed.moments[j] <= more.moments[j] {
      assert LookOk(s.hist, OwnOf(env, pc.config), pc.printed, j, pc.began, Now(s));
    }
    OnlyThisOne(env, s, tid, Reading(pc.config, pc.began, pc.printed, more));
  }

  /** Where file times only rise, nothing was read before the time at which it was printed. */
  lemma {:induction false} ReadIsNoOlder<T>(env: Env<T>, hist: seq<Files>, origin: Origin, j: nat)
    requires hist != [] && Rising(hist, OwnOf(env, origin.config))
    requires var own := OwnOf(env, origin.config);
             && SeenOk(hist, own, origin.printed, 0, |hist| - 1) && SeenOk(hist, own, origin.read, 0, |hist| - 1)
             && j < |origin.read.times| <= |origin.printed.times| && InOrder(origin.printed, origin.read)
    ensures origin.printed.times[j] <= origin.read.times[j]
  {
    var own := OwnOf(env, origin.config);
    assert LookOk(hist, own, origin.printed, j, 0, |hist| - 1);
    assert LookOk(hist, own, origin.read, j, 0, |hist| - 1);
    assert hist[origin.printed.moments[j]](Path(own, j)) <= hist[origin.read.moments[j]](Path(own, j));
  }

  /**
   Where file times only rise, a fingerprint that matches the stored one was taken from the very files that were read:
   each was printed, then read, then printed again with the first time.
   */
  lemma {:induction false} Squeeze<T>(env: Env<T>, hist: seq<Files>, origin: Origin, config: nat, seen: Seen, began: nat)
    requires hist != [] && Rising(hist, OwnOf(env, config))
    requires var own := OwnOf(env, origin.config);
             && SeenOk(hist, own, origin.printed, 0, |hist| - 1) && Full(env, origin.config, origin.printed)
             && SeenOk(hist, own, origin.read, 0, |hist| - 1) && Full(env, origin.config, origin.read)
             && InOrder(origin.printed, origin.read) && After(origin.read, began)
    requires SeenOk(hist, OwnOf(env, config), seen, began, |hist| - 1) && Full(env, config, seen)
    requires Stamp(OwnOf(env, config), seen.times) == Stamp(OwnOf(env, origin.config), origin.printed.times)
    ensures Stamp(OwnOf(env, config), seen.times) == Stamp(OwnOf(env, origin.config), origin.read.times)
  {
    var first, own := OwnOf(env, origin.config), OwnOf(env, config);
    StampInjective(first, origin.printed.times, own, seen.times);
    forall j | 0 <= j < 2 * |own| ensures origin.read.times[j] == seen.times[j] {
      ReadIsNoOlder(env, hist, origin, j);
      assert LookOk(hist, first, origin.read, j, 0, |hist| - 1);
      assert LookOk(hist, own, seen, j, began, |hist| - 1);
      assert hist[origin.read.moments[j]](Path(own, j)) <= hist[seen.moments[j]](Path(own, j));
    }
    assert origin.read.times == seen.times == origin.printed.times;
  }

  lemma {:induction false} CompareKeeps<T>(env: Env<T>, s: Sys<T>, tid: nat)
    requires Inv(env, s) && Enabled(env, s, CompareStep(tid))
    ensures Inv(env, Compare(env, s, tid))
  {
    var pc, t := s.pcs[tid], Compare(env, s, tid);
    if t.pcs[tid].Leaving? {
      CheckKeeps(env, s, pc.config, pc.seen, pc.began);
      OnlyThisOne(env, s.(fields := t.fields, checkedSeen := pc.seen), tid, t.pcs[tid]);
    } else {
      OnlyThisOne(env, s, tid, t.pcs[tid]);
    }
  }

  /** The stored map is confirmed for a configuration. */
  lemma {:induction false} CheckKeeps<T>(env: Env<T>, s: Sys<T>, config: nat, seen: Seen, began: nat)
    requires Inv(env, s) && s.fields.contexts.Some? && After(s.origin.read, began)
    requires SeenOk(s.hist, OwnOf(env, config), seen, began, Now(s)) && Full(env, config, seen)
    requires Stamp(OwnOf(env, config), seen.times) == s.fields.builtFingerprint
    ensures Inv(env, s.(fields := s.fields.(checked := Some(config)), checkedSeen := seen))
    ensures Rising(s.hist, OwnOf(env, config)) ==> RestsOn(env, config, s.fields.contexts.value, seen)
  {
    SeenSoon(s.hist, OwnOf(env, config), seen, began, Now(s));
    if Rising(s.hist, OwnOf(env, config)) { Squeeze(env, s.hist, s.origin, config, seen, began); }
  }

  lemma {:induction false} SeenSoon(hist: seq<Files>, own: seq<SiteConfig>, seen: Seen, from: nat, to: nat)
    requires SeenOk(hist, own, seen, from, to)
    ensures SeenOk(hist, own, seen, 0, to)
  {
    forall j | 0 <= j < |seen.times| ensures LookOk(hist, own, seen, j, 0, to) {
      assert LookOk(hist, own, seen, j, from, to);
    }
  }

  lemma {:induction false} InstallKeeps<T>(env: Env<T>, s: Sys<T>, tid: nat)
    requires Inv(env, s) && Enabled(env, s, InstallStep(tid))
    ensures Inv(env, Install(env, s, tid))
  {
    var pc, t := s.pcs[tid], Install(env, s, tid);
    SeenSoon(s.hist, OwnOf(env, pc.config), pc.printed, pc.began, Now(s));
    SeenSoon(s.hist, OwnOf(env, pc.config), pc.seen, pc.began, Now(s));
    assert tid in t.pcs;
    forall other | other in t.pcs ensures other == tid && PcOk(env, t.hist, t.origin.read, t.pcs[other]) { }
    forall r | r in t.answered ensures ReturnOk(env, t.hist, r) {
      assert ReturnOk(env, s.hist, r);
    }
  }

  lemma {:induction false} LeaveKeeps<T>(env: Env<T>, s: Sys<T>, tid: nat)
    requires Inv(env, s) && Enabled(env, s, LeaveStep(tid))
    ensures Inv(env, Leave(s, tid))
  {
    var t := Leave(s, tid);
    assert t.answered == s.answered + [Last(t.answered)];
    assert ReturnOk(env, t.hist, Last(t.answered));
    assert forall other :: other in s.pcs ==> other == tid;
  }

  lemma {:induction false} StepKeepsInv<T>(env: Env<T>, s: Sys<T>, step: Step)
    requires Inv(env, s) && Enabled(env, s, step)
    ensures Inv(env, Apply(env, s, step))
  {
    match step {
      case CallStep(tid, config) => CallKeeps(env, s, tid, config);
      case StatStep(tid) => StatKeeps(env, s, tid);
      case CompareStep(tid) => CompareKeeps(env, s, tid);
      case LoadStep(tid) => LoadKeeps(env, s, tid);
      case InstallStep(tid) => InstallKeeps(env, s, tid);
      case LeaveStep(tid) => LeaveKeeps(env, s, tid);
      case TouchStep(_, _) =>
    }
    MomentLater(env, Change(env, s, step), FilesAfter(Last(s.hist), step));
  }

  /** In every run, with callers and file changes interleaved in any way. */
  lemma {:induction false} RunKeepsInv<T>(env: Env<T>, fs: Files, steps: seq<Step>)
    requires Feasible(env, fs, steps)
    ensures Inv(env, Run(env, fs, steps))
  {
    if steps != [] {
      RunKeepsInv(env, fs, Front(steps));
      StepKeepsInv(env, Run(env, fs, Front(steps)), Last(steps));
    }
  }

  // ------------------------------------------------------------------ what callers can rely on

  /** At most one caller is past the first section at any moment, and the flag is up exactly while one is. */
  lemma {:induction false} SingleFlight<T>(env: Env<T>, fs: Files, steps: seq<Step>, a: nat, b: nat)
    requires Feasible(env, fs, steps)
    ensures var s := Run(env, fs, steps);
            && (a in s.pcs && b in s.pcs ==> a == b)
            && (s.fields.refreshing <==> exists tid :: tid in s.pcs)
  {
    RunKeepsInv(env, fs, steps);
    var s := Run(env, fs, steps);
    if s.pcs != map[] {
      var tid :| tid in s.pcs;
    }
  }

  ghost predicate Leads<T>(env: Env<T>, s: Sys<T>, steps: seq<Step>, t: Sys<T>)
    decreases |steps|
  {
    if steps == [] then s == t else Enabled(env, s, steps[0]) && Leads(env, Apply(env, s, steps[0]), steps[1..], t)
  }

  /** How many steps a refresher has left at most: its looks, the comparison, its looks again, the installation and the way out. */
  ghost function StepsLeft<T>(env: Env<T>, pc: Pc<T>): int {
    match pc
    case Printing(config, _, seen) => 4 * |OwnOf(env, config)| + 3 - |seen.times|
    case Reading(config, _, _, seen) => 2 * |OwnOf(env, config)| + 2 - |seen.times|
    case Leaving(_, _, _, _, _) => 1
  }

  ghost function NextStep<T>(env: Env<T>, pc: Pc<T>, tid: nat): Step {
    match pc
    case Printing(config, _, seen) => if Full(env, config, seen) then CompareStep(tid) else StatStep(tid)
    case Reading(config, _, _, seen) => if Full(env, config, seen) then InstallStep(tid) else LoadStep(tid)
    case Leaving(_, _, _, _, _) => LeaveStep(tid)
  }

  /** Whoever raised the flag lowers it: the refresher's own steps lead it out, with an answer, within two looks at each file and three steps. */
  lemma {:induction false} RefresherFinishes<T>(env: Env<T>, s: Sys<T>, tid: nat) returns (steps: seq<Step>, t: Sys<T>)
    requires Inv(env, s) && tid in s.pcs
    ensures |steps| <= StepsLeft(env, s.pcs[tid]) && Leads(env, s, steps, t)
    ensures tid !in t.pcs && !t.fields.refreshing && |t.answered| == |s.answered| + 1 && Last(t.answered).config == s.pcs[tid].config
    decreases StepsLeft(env, s.pcs[tid])
  {
    var step := NextStep(env, s.pcs[tid], tid);
    assert PcOk(env, s.hist, s.origin.read, s.pcs[tid]);
    OwnStep(env, s, tid);
    StepKeepsInv(env, s, step);
    var next := Apply(env, s, step);
    if step.LeaveStep? {
      steps, t := [step], next;
      assert steps[1..] == [];
    } else {
      var rest;
      rest, t := RefresherFinishes(env, next, tid);
      steps := [step] + rest;
      assert steps[1..] == rest;
    }
  }

  lemma {:induction false} OwnStep<T>(env: Env<T>, s: Sys<T>, tid: nat)
    requires Inv(env, s) && tid in s.pcs
    ensures var pc, step := s.pcs[tid], NextStep(env, s.pcs[tid], tid);
            && Enabled(env, s, step)
            && var t := Apply(env, s, step);
               if pc.Leaving?
               then tid !in t.pcs && !t.fields.refreshing && t.answered != [] && Front(t.answered) == s.answered && Last(t.answered).config == pc.config
               else tid in t.pcs && t.pcs[tid].config == pc.config && t.answered == s.answered && 0 < StepsLeft(env, t.pcs[tid]) < StepsLeft(env, pc)
  {
    assert PcOk(env, s.hist, s.origin.read, s.pcs[tid]);
  }

  /** `hist[k]` is the file system after `k` steps. */
  lemma {:induction false} HistIsTheRun<T>(env: Env<T>, fs: Files, steps: seq<Step>, k: nat)
    requires Feasible(env, fs, steps) && k <= |steps|
    ensures Feasible(env, fs, steps[..k])
    ensures var hist := Run(env, fs, steps).hist; |hist| == |steps| + 1 && hist[k] == Last(Run(env, fs, steps[..k]).hist)
  {
    if steps == [] {
      assert steps[..k] == steps;
    } else {
      HistIsTheRun(env, fs, Front(steps), if k < |steps| then k else k - 1);
      assert steps[..k] == if k < |steps| then Front(steps)[..k] else steps;
    }
  }

  lemma {:induction false} OneStepOn<T>(env: Env<T>, fs: Files, steps: seq<Step>, path: string, k: nat)
    requires Feasible(env, fs, steps) && k < |steps| && !(steps[k].TouchStep? && steps[k].path == path)
    ensures var hist := Run(env, fs, steps).hist; |hist| == |steps| + 1 && hist[k](path) == hist[k + 1](path)
  {
    HistIsTheRun(env, fs, steps, k);
    HistIsTheRun(env, fs, steps, k + 1);
    assert Front(steps[..k + 1]) == steps[..k] && Last(steps[..k + 1]) == steps[k];
  }

  /** A file nobody touches stays as it is. */
  lemma {:induction false} UntouchedStays<T>(env: Env<T>, fs: Files, steps: seq<Step>, path: string, from: nat, to: nat)
    requires Feasible(env, fs, steps) && from <= to <= |steps|
    requires forall k :: from <= k < to ==> !(steps[k].TouchStep? && steps[k].path == path)
    ensures var hist := Run(env, fs, steps).hist; |hist| == |steps| + 1 && hist[from](path) == hist[to](path)
  {
    HistIsTheRun(env, fs, steps, from);
    if from < to {
      OneStepOn(env, fs, steps, path, to - 1);
      UntouchedStays(env, fs, steps, path, from, to - 1);
    }
  }

  /** The file systems that the looks found. */
  ghost function FoundAt(hist: seq<Files>, seen: Seen): nat -> Files {
    (j: nat) => if j < |seen.moments| && seen.moments[j] < |hist| then hist[seen.moments[j]] else p => 0
  }

  lemma {:induction false} SeenIsTaken<T>(env: Env<T>, hist: seq<Files>, config: nat, seen: Seen, from: nat, to: nat)
    requires SeenOk(hist, OwnOf(env, config), seen, from, to) && Full(env, config, seen)
    ensures Stamp(OwnOf(env, config), seen.times) == Taken(env.sites(config), FoundAt(hist, seen))
  {
    var own := OwnOf(env, config);
    forall j | 0 <= j < 2 * |own| ensures Looks(own, FoundAt(hist, seen))[j] == seen.times[j] {
      assert LookOk(hist, own, seen, j, from, to);
    }
    assert Looks(own, FoundAt(hist, seen)) == seen.times;
  }

  /** A refresh that rebuilds rests on the files as they were during that call; one that keeps the map does so where the times of its files only rose. */
  ghost predicate Sound<T>(env: Env<T>, hist: seq<Files>, r: Return<T>) {
    r.kind.Rebuilt? || (!r.kind.Stale? && Rising(if r.ended < |hist| then hist[..r.ended + 1] else hist, OwnOf(env, r.config)))
  }

  /**
   An answer is its caller's map with every listed file as it was at some moment that had passed when the call ended;
   for a refreshing call, at a moment during that call, whatever is written meanwhile.
   */
  lemma {:induction false} AnswerRestsOnLooks<T>(env: Env<T>, fs: Files, steps: seq<Step>, r: Return<T>)
    requires Feasible(env, fs, steps) && r in Run(env, fs, steps).answered && Sound(env, Run(env, fs, steps).hist, r)
    ensures r.ended <= |steps| && |r.seen.moments| == 2 * |OwnOf(env, r.config)|
    ensures forall j :: 0 <= j < |r.seen.moments| ==> (if r.kind.Fast? then 0 else r.began) <= r.seen.moments[j] <= r.ended
    ensures r.result == BuildFrom(env, Taken(env.sites(r.config), FoundAt(Run(env, fs, steps).hist, r.seen)))
  {
    var hist, from := Run(env, fs, steps).hist, if r.kind.Fast? then 0 else r.began;
    RunKeepsInv(env, fs, steps);
    HistIsTheRun(env, fs, steps, 0);
    assert ReturnOk(env, hist, r);
    SeenIsTaken(env, hist, r.config, r.seen, from, r.ended);
    forall j | 0 <= j < |r.seen.moments| ensures from <= r.seen.moments[j] <= r.ended {
      assert LookOk(hist, OwnOf(env, r.config), r.seen, j, from, r.ended);
    }
  }

  /** A caller that refreshes while its files rest gets the map of those files. */
  lemma {:induction false} AnswersAtRest<T>(env: Env<T>, fs: Files, steps: seq<Step>, r: Return<T>)
    requires Feasible(env, fs, steps) && r in Run(env, fs, steps).answered && Sound(env, Run(env, fs, steps).hist, r) && !r.kind.Fast?
    requires var hist, own := Run(env, fs, steps).hist, OwnOf(env, r.config);
             forall m, j :: r.began <= m <= r.ended < |hist| && 0 <= j < 2 * |own| ==> hist[m](Path(own, j)) == hist[r.began](Path(own, j))
    ensures r.began <= r.ended < |Run(env, fs, steps).hist|
    ensures r.result == Build(env, env.sites(r.config), Run(env, fs, steps).hist[r.began])
  {
    var hist, own := Run(env, fs, steps).hist, OwnOf(env, r.config);
    RunKeepsInv(env, fs, steps);
    assert ReturnOk(env, hist, r);
    forall j | 0 <= j < |r.seen.times| ensures r.seen.times[j] == hist[r.began](Path(own, j)) {
      assert LookOk(hist, own, r.seen, j, r.began, r.ended);
    }
    SeenAtOnce(env, r.config, r.seen, hist[r.began]);
    BuildIsFromFingerprint(env, env.sites(r.config), hist[r.began]);
  }

  /** No listed file has another time now than when it was looked at. */
  ghost predicate StillSo<T>(env: Env<T>, config: nat, seen: Seen, fs: Files)
    requires Full(env, config, seen)
  {
    forall j :: 0 <= j < |seen.times| ==> seen.times[j] == fs(Path(OwnOf(env, config), j))
  }

  /** Looks that all found what one file system has. */
  lemma {:induction false} SeenAtOnce<T>(env: Env<T>, config: nat, seen: Seen, fs: Files)
    requires Full(env, config, seen) && StillSo(env, config, seen, fs)
    ensures Stamp(OwnOf(env, config), seen.times) == FingerprintOf(env.sites(config), fs)
  {
    assert seen.times == Looks(OwnOf(env, config), _ => fs);
  }

  /** A loader that loads every pair and tells the times of the files apart. */
  ghost predicate TellsTimes<T(!new)>(env: Env<T>) {
    && (forall c: string, t: nat, k: string, u: nat :: env.load(c, t, k, u).Some?)
    && (forall c: string, k: string, t: nat, u: nat, t': nat, u': nat :: env.load(c, t, k, u) == env.load(c, t', k, u') ==> t == t' && u == u')
  }

  ghost predicate OneEach(own: seq<SiteConfig>) {
    forall i, j :: 0 <= i < j < |own| ==> own[i].domain != own[j].domain
  }

  lemma {:induction false} BuildHas<T(!new)>(env: Env<T>, own: seq<SiteConfig>, times: seq<nat>, i: nat)
    requires |times| == 2 * |own| && i < |own| && OneEach(own)
    requires forall c: string, t: nat, k: string, u: nat :: env.load(c, t, k, u).Some?
    ensures var map_ := BuildFrom(env, Stamp(own, times));
            && own[i].domain in map_
            && Some(map_[own[i].domain]) == env.load(own[i].certFile, times[2 * i], own[i].keyFile, times[2 * i + 1])
  {
    var n := |own| - 1;
    var fp := Stamp(own, times);
    assert Front(fp) == Stamp(own[..n], times[..2 * n]);
    if i < n {
      BuildHas(env, own[..n], times[..2 * n], i);
    }
  }

  /** For such a loader, where no domain is listed twice, the map tells what the looks found. */
  lemma {:induction false} BuildTellsTimes<T(!new)>(env: Env<T>, own: seq<SiteConfig>, times1: seq<nat>, times2: seq<nat>)
    requires |times1| == |times2| == 2 * |own| && OneEach(own) && TellsTimes(env)
    requires BuildFrom(env, Stamp(own, times1)) == BuildFrom(env, Stamp(own, times2))
    ensures times1 == times2
  {
    forall j | 0 <= j < 2 * |own| ensures times1[j] == times2[j] {
      BuildHas(env, own, times1, j / 2);
      BuildHas(env, own, times2, j / 2);
    }
  }

  /**
   The stored map was read for the very sites of the configuration checked last; what that check saw is what was read, or
   what was printed before.  A caller about to leave holds the stored map for that configuration.
   */
  ghost predicate Linked<T>(env: Env<T>, s: Sys<T>) {
    && (s.fields.contexts.Some? ==>
          && s.fields.checked.Some? && OwnOf(env, s.fields.checked.value) == OwnOf(env, s.origin.config)
          && (s.checkedSeen == s.origin.read || s.checkedSeen.times == s.origin.printed.times))
    && (forall tid :: tid in s.pcs && s.pcs[tid].Leaving? ==> HoldsStored(s, s.pcs[tid]))
  }

  ghost predicate HoldsStored<T>(s: Sys<T>, pc: Pc<T>)
    requires pc.Leaving?
  {
    && s.fields.contexts == Some(pc.result) && s.fields.checked == Some(pc.config) && s.checkedSeen == pc.seen
    && if pc.rebuilt then pc.seen == s.origin.read else pc.seen.times == s.origin.printed.times
  }

  lemma {:induction false} CompareLinks<T>(env: Env<T>, s: Sys<T>, tid: nat)
    requires Inv(env, s) && Linked(env, s) && Enabled(env, s, CompareStep(tid))
    ensures Linked(env, Compare(env, s, tid))
  {
    var pc, t := s.pcs[tid], Compare(env, s, tid);
    if t.pcs[tid].Leaving? {
      StampInjective(OwnOf(env, pc.config), pc.seen.times, OwnOf(env, s.origin.config), s.origin.printed.times);
    }
    forall other | other in t.pcs ensures other == tid { assert other in s.pcs; }
  }

  lemma {:induction false} InstallLinks<T>(env: Env<T>, s: Sys<T>, tid: nat)
    requires Inv(env, s) && Enabled(env, s, InstallStep(tid))
    ensures Linked(env, Install(env, s, tid))
  {
    var t := Install(env, s, tid);
    forall other | other in t.pcs ensures other == tid { assert other in s.pcs; }
  }

  lemma {:induction false} StepKeepsLinked<T>(env: Env<T>, s: Sys<T>, step: Step)
    requires Inv(env, s) && Linked(env, s) && Enabled(env, s, step)
    ensures Linked(env, Change(env, s, step))
  {
    match step {
      case CompareStep(tid) => CompareLinks(env, s, tid);
      case InstallStep(tid) => InstallLinks(env, s, tid);
      case _ =>
    }
  }

  lemma {:induction false} RunKeepsLinked<T>(env: Env<T>, fs: Files, steps: seq<Step>)
    requires Feasible(env, fs, steps)
    ensures Linked(env, Run(env, fs, steps))
  {
    if steps != [] {
      var s := Run(env, fs, Front(steps));
      RunKeepsLinked(env, fs, Front(steps));
      RunKeepsInv(env, fs, Front(steps));
      StepKeepsLinked(env, s, Last(steps));
      LinkedLater(env, Change(env, s, Last(steps)), Run(env, fs, steps).hist);
    }
  }

  lemma {:induction false} LinkedLater<T>(env: Env<T>, s: Sys<T>, hist: seq<Files>)
    requires Linked(env, s)
    ensures Linked(env, s.(hist := hist))
  {
    var t := s.(hist := hist);
    forall tid | tid in t.pcs && t.pcs[tid].Leaving? ensures HoldsStored(t, t.pcs[tid]) { assert HoldsStored(s, s.pcs[tid]); }
  }

  /** A refresher keeps the stored map exactly if its looks saw the sites and the times of the stored fingerprint. */
  lemma {:induction false} KeepsExactly<T>(env: Env<T>, s: Sys<T>, tid: nat)
    requires Inv(env, s) && Enabled(env, s, CompareStep(tid))
    ensures var pc, after := s.pcs[tid], Apply(env, s, CompareStep(tid)).pcs;
            && tid in after
            && (after[tid].Leaving? <==> s.fields.contexts.Some? && OwnOf(env, pc.config) == OwnOf(env, s.origin.config)
                                         && pc.seen.times == s.origin.printed.times)
            && (!after[tid].Leaving? ==> after[tid].Reading?)
  {
    var pc := s.pcs[tid];
    if s.fields.contexts.Some? && Stamp(OwnOf(env, pc.config), pc.seen.times) == s.fields.builtFingerprint {
      StampInjective(OwnOf(env, pc.config), pc.seen.times, OwnOf(env, s.origin.config), s.origin.printed.times);
    }
  }

  /** Every answer but a stale one is the map stored at that moment, for the configuration checked last. */
  ghost predicate AnswersStored<T>(s: Sys<T>, r: Return<T>) {
    && s.fields.contexts == Some(r.result) && s.fields.checked == Some(r.config) && s.checkedSeen == r.seen
    && (r.kind.Rebuilt? ==> r.seen == s.origin.read)
    && (r.kind.Confirmed? ==> r.seen.times == s.origin.printed.times)
  }

  lemma {:induction false} StoredIsAnswered<T>(env: Env<T>, fs: Files, steps: seq<Step>, r: Return<T>)
    requires Feasible(env, fs, steps) && r in Run(env, fs, steps).answered && !r.kind.Stale?
    ensures r.ended <= |steps| && Feasible(env, fs, steps[..r.ended]) && AnswersStored(Run(env, fs, steps[..r.ended]), r)
  {
    if steps != [] {
      var before := Run(env, fs, Front(steps));
      HistIsTheRun(env, fs, Front(steps), 0);
      if r in before.answered {
        StoredIsAnswered(env, fs, Front(steps), r);
        assert steps[..r.ended] == Front(steps)[..r.ended];
      } else {
        RunKeepsLinked(env, fs, Front(steps));
        StoredNow(env, before, Last(steps), r);
        assert steps[..|steps| - 1] == Front(steps);
      }
    }
  }

  lemma {:induction false} StoredNow<T>(env: Env<T>, s: Sys<T>, step: Step, r: Return<T>)
    requires Linked(env, s) && Enabled(env, s, step) && r in Apply(env, s, step).answered && r !in s.answered && !r.kind.Stale?
    ensures r.ended == Now(s) && AnswersStored(s, r)
  {
    if step.LeaveStep? { assert HoldsStored(s, s.pcs[step.tid]); }
  }

  /** What the stored map was read from, at the end of a call. */
  ghost function ReadBy<T>(env: Env<T>, fs: Files, steps: seq<Step>, r: Return<T>): Origin
    requires r.ended <= |steps| && Feasible(env, fs, steps[..r.ended])
  {
    Run(env, fs, steps[..r.ended]).origin
  }

  /** Every answer but a stale one is its caller's map of the files as they were read, by that call or an earlier one. */
  lemma {:induction false} AnswerIsWhatWasRead<T>(env: Env<T>, fs: Files, steps: seq<Step>, r: Return<T>)
    requires Feasible(env, fs, steps) && r in Run(env, fs, steps).answered && !r.kind.Stale?
    ensures r.ended <= |steps| && Feasible(env, fs, steps[..r.ended]) && r.ended < |Run(env, fs, steps).hist|
    ensures RestsOn(env, r.config, r.result, ReadBy(env, fs, steps, r).read)
    ensures r.kind.Rebuilt? ==> r.seen == ReadBy(env, fs, steps, r).read
    ensures r.kind.Confirmed? ==> r.seen.times == ReadBy(env, fs, steps, r).printed.times
  {
    StoredIsAnswered(env, fs, steps, r);
    RunKeepsInv(env, fs, steps[..r.ended]);
    RunKeepsLinked(env, fs, steps[..r.ended]);
    HistIsTheRun(env, fs, steps, 0);
  }

  /**
   An answer is the map of the files as they are when it is given if no listed file has another time then than when the
   map was read, and only then if the loader can tell.  So a repeated snapshot, which is answered without a look, misses
   exactly the certificates renewed since the map was read.
   */
  lemma {:induction false} AnswerIsCurrentExactly<T(!new)>(env: Env<T>, fs: Files, steps: seq<Step>, r: Return<T>)
    requires Feasible(env, fs, steps) && r in Run(env, fs, steps).answered && !r.kind.Stale?
    ensures r.ended <= |steps| && Feasible(env, fs, steps[..r.ended]) && r.ended < |Run(env, fs, steps).hist|
    ensures Full(env, r.config, ReadBy(env, fs, steps, r).read)
    ensures var read, present := ReadBy(env, fs, steps, r).read, Run(env, fs, steps).hist[r.ended];
            && (StillSo(env, r.config, read, present) ==> r.result == Build(env, env.sites(r.config), present))
            && (TellsTimes(env) && OneEach(OwnOf(env, r.config)) && r.result == Build(env, env.sites(r.config), present)
                ==> StillSo(env, r.config, read, present))
  {
    AnswerIsWhatWasRead(env, fs, steps, r);
    ReadIsCurrentExactly(env, r.config, r.result, ReadBy(env, fs, steps, r).read, Run(env, fs, steps).hist[r.ended]);
  }

  lemma {:induction false} ReadIsCurrentExactly<T(!new)>(env: Env<T>, config: nat, result: map<string, T>, read: Seen, present: Files)
    requires RestsOn(env, config, result, read)
    ensures StillSo(env, config, read, present) ==> result == Build(env, env.sites(config), present)
    ensures TellsTimes(env) && OneEach(OwnOf(env, config)) && result == Build(env, env.sites(config), present) ==> StillSo(env, config, read, present)
  {
    var own := OwnOf(env, config);
    BuildIsFromFingerprint(env, env.sites(config), present);
    if StillSo(env, config, read, present) {
      SeenAtOnce(env, config, read, present);
    }
    if TellsTimes(env) && OneEach(own) && result == Build(env, env.sites(config), present) {
      BuildTellsTimes(env, own, read.times, Looks(own, _ => present));
    }
  }

  /**
   A refreshing call that keeps the stored map gets the map of what its own looks found if that map belonged to its
   fingerprint, and only then if the loader can tell; file times may have gone up and down.
   */
  lemma {:induction false} KeptMapIsOwnExactly<T(!new)>(env: Env<T>, fs: Files, steps: seq<Step>, r: Return<T>)
    requires Feasible(env, fs, steps) && r in Run(env, fs, steps).answered && r.kind.Confirmed?
    ensures r.ended <= |steps| && Feasible(env, fs, steps[..r.ended])
    ensures var o := ReadBy(env, fs, steps, r);
            && (o.printed.times == o.read.times ==> RestsOn(env, r.config, r.result, r.seen))
            && (TellsTimes(env) && OneEach(OwnOf(env, r.config)) && RestsOn(env, r.config, r.result, r.seen) ==> o.printed.times == o.read.times)
  {
    AnswerIsWhatWasRead(env, fs, steps, r);
    var o, own := ReadBy(env, fs, steps, r), OwnOf(env, r.config);
    if TellsTimes(env) && OneEach(own) && RestsOn(env, r.config, r.result, r.seen) {
      BuildTellsTimes(env, own, r.seen.times, o.read.times);
    }
  }

  /** What a call gets that finds its snapshot checked already, or another caller refreshing: the map stored at that moment. */
  lemma {:induction false} OthersGetTheStoredMap<T>(env: Env<T>, fs: Files, steps: seq<Step>, r: Return<T>)
    requires Feasible(env, fs, steps) && r in Run(env, fs, steps).answered && (r.kind.Fast? || r.kind.Stale?)
    ensures r.began == r.ended <= |steps| && Feasible(env, fs, steps[..r.ended])
    ensures var earlier := Run(env, fs, steps[..r.ended]);
            && r.result == (if earlier.fields.contexts.Some? then earlier.fields.contexts.value else map[])
            && (r.kind.Fast? <==> earlier.fields.contexts.Some? && earlier.fields.checked == Some(r.config))
            && (r.kind.Stale? ==> earlier.fields.refreshing)
  {
    if steps != [] {
      var before := Run(env, fs, Front(steps));
      HistIsTheRun(env, fs, Front(steps), 0);
      if r in before.answered {
        OthersGetTheStoredMap(env, fs, Front(steps), r);
        assert steps[..r.ended] == Front(steps)[..r.ended];
      } else {
        AnsweredNow(env, before, Last(steps), r);
        assert steps[..|steps| - 1] == Front(steps);
      }
    }
  }

  lemma {:induction false} AnsweredNow<T>(env: Env<T>, s: Sys<T>, step: Step, r: Return<T>)
    requires Enabled(env, s, step) && r in Apply(env, s, step).answered && r !in s.answered && (r.kind.Fast? || r.kind.Stale?)
    ensures r.began == r.ended == Now(s)
    ensures r.result == (if s.fields.contexts.Some? then s.fields.contexts.value else map[])
    ensures r.kind.Fast? <==> s.fields.contexts.Some? && s.fields.checked == Some(r.config)
    ensures r.kind.Stale? ==> s.fields.refreshing
  {
  }

  /** The stored map was read after its fingerprint was taken: it belongs to it if no listed file changed in between, and only then if the loader can tell. */
  lemma {:induction false} MapBelongsExactly<T(!new)>(env: Env<T>, fs: Files, steps: seq<Step>)
    requires Feasible(env, fs, steps) && Run(env, fs, steps).fields.contexts.Some?
    ensures var s := Run(env, fs, steps);
            && |s.origin.printed.times| == |s.origin.read.times| == 2 * |OwnOf(env, s.origin.config)|
            && (s.origin.printed.times == s.origin.read.times ==> s.fields.contexts.value == BuildFrom(env, s.fields.builtFingerprint))
            && (TellsTimes(env) && OneEach(OwnOf(env, s.origin.config)) && s.fields.contexts.value == BuildFrom(env, s.fields.builtFingerprint)
                ==> s.origin.printed.times == s.origin.read.times)
  {
    var s := Run(env, fs, steps);
    RunKeepsInv(env, fs, steps);
    if TellsTimes(env) && OneEach(OwnOf(env, s.origin.config)) && s.fields.contexts.value == BuildFrom(env, s.fields.builtFingerprint) {
      BuildTellsTimes(env, OwnOf(env, s.origin.config), s.origin.printed.times, s.origin.read.times);
    }
  }

  /** Nobody touches a listed file between its print and its read. */
  lemma {:induction false} UntouchedMapBelongs<T(!new)>(env: Env<T>, fs: Files, steps: seq<Step>)
    requires Feasible(env, fs, steps) && Run(env, fs, steps).fields.contexts.Some?
    requires var o := Run(env, fs, steps).origin;
             forall j, k :: 0 <= j < |o.printed.moments| && j < |o.read.moments| && j < 2 * |OwnOf(env, o.config)|
                            && o.printed.moments[j] <= k < o.read.moments[j] && k < |steps| && steps[k].TouchStep?
                            ==> steps[k].path != Path(OwnOf(env, o.config), j)
    ensures Run(env, fs, steps).fields.contexts.value == BuildFrom(env, Run(env, fs, steps).fields.builtFingerprint)
  {
    var s := Run(env, fs, steps);
    var o, own := s.origin, OwnOf(env, s.origin.config);
    RunKeepsInv(env, fs, steps);
    HistIsTheRun(env, fs, steps, 0);
    forall j | 0 <= j < 2 * |own| ensures o.printed.times[j] == o.read.times[j] {
      assert LookOk(s.hist, own, o.printed, j, 0, Now(s));
      assert LookOk(s.hist, own, o.read, j, 0, Now(s));
      UntouchedStays(env, fs, steps, Path(own, j), o.printed.moments[j], o.read.moments[j]);
    }
    assert o.printed.times == o.read.times;
  }

  /** Looks to come find none of these sites' files older than it is now. */
  ghost predicate NoneOlder(own: seq<SiteConfig>, times: seq<nat>, fs: Files) {
    |times| == 2 * |own| && forall j: nat :: j < |times| ==> fs(Path(own, j)) <= times[j]
  }

  lemma {:induction false} MatchedIsRead<T>(env: Env<T>, hist: seq<Files>, origin: Origin, own: seq<SiteConfig>, times: seq<nat>)
    requires hist != [] && Rising(hist, own) && NoneOlder(own, times, Last(hist))
    requires var first := OwnOf(env, origin.config);
             && SeenOk(hist, first, origin.printed, 0, |hist| - 1) && Full(env, origin.config, origin.printed)
             && SeenOk(hist, first, origin.read, 0, |hist| - 1) && Full(env, origin.config, origin.read)
             && InOrder(origin.printed, origin.read)
    requires Stamp(own, times) == Stamp(OwnOf(env, origin.config), origin.printed.times)
    ensures origin.printed.times == origin.read.times
  {
    var first := OwnOf(env, origin.config);
    StampInjective(own, times, first, origin.printed.times);
    forall j: nat | j < |origin.read.times| ensures origin.printed.times[j] == origin.read.times[j] {
      ReadIsNoOlder(env, hist, origin, j);
      assert LookOk(hist, first, origin.read, j, 0, |hist| - 1);
      assert hist[origin.read.moments[j]](Path(own, j)) <= hist[|hist| - 1](Path(own, j)) <= times[j];
    }
  }

  lemma {:induction false} MatchedMapBelongs<T>(env: Env<T>, s: Sys<T>, own: seq<SiteConfig>, times: seq<nat>)
    requires s.hist != [] && MapOk(env, s) && s.fields.contexts.Some? && Rising(s.hist, own) && NoneOlder(own, times, Last(s.hist))
    requires Stamp(own, times) == s.fields.builtFingerprint
    ensures s.fields.contexts.value == BuildFrom(env, s.fields.builtFingerprint)
  {
    MatchedIsRead(env, s.hist, s.origin, own, times);
  }

  /**
   Where file times only rise, any later fingerprint that matches the stored one has the stored map for its map, even if
   that map had outrun its own fingerprint: so a call of `Cache.Current` that keeps the map returns what its own look stands for.
   */
  lemma {:induction false} MatchMeansBelongs<T>(env: Env<T>, fs: Files, steps: seq<Step>, config: nat, times: seq<nat>)
    requires Feasible(env, fs, steps)
    requires var s, own := Run(env, fs, steps), OwnOf(env, config);
             && s.fields.contexts.Some? && s.hist != [] && Rising(s.hist, own) && NoneOlder(own, times, Last(s.hist))
             && Stamp(own, times) == s.fields.builtFingerprint
    ensures Run(env, fs, steps).fields.contexts.value == BuildFrom(env, Run(env, fs, steps).fields.builtFingerprint)
  {
    RunKeepsInv(env, fs, steps);
    MatchedMapBelongs(env, Run(env, fs, steps), OwnOf(env, config), times);
  }

  // ------------------------------------------------------------------ three runs

  const SITE := SiteConfig("d", "c", "k")

  /** One site, whichever snapshot; the loader returns the time of the certificate. */
  function Demo(): Env<nat> {
    Env(_ => [SITE], (c, t, k, u) => Some(t))
  }

  ghost predicate StepAt<T>(env: Env<T>, states: seq<Sys<T>>, steps: seq<Step>, i: nat)
    requires i < |steps| && |states| == |steps| + 1
  {
    Enabled(env, states[i], steps[i]) && states[i + 1] == Apply(env, states[i], steps[i])
  }

  /** A run written out state by state. */
  ghost predicate Written<T>(env: Env<T>, fs: Files, states: seq<Sys<T>>, steps: seq<Step>, s: Sys<T>) {
    && |states| == |steps| + 1 && states[0] == Init(fs) && Last(states) == s
    && forall i :: 0 <= i < |steps| ==> StepAt(env, states, steps, i)
  }

  ghost predicate Reachable(s: Sys<nat>) {
    exists states: seq<Sys<nat>>, steps :: Written(Demo(), AllOnes(), states, steps, s)
  }

  lemma {:induction false} OneMore(s: Sys<nat>, step: Step)
    requires Reachable(s) && Enabled(Demo(), s, step)
    ensures Reachable(Apply(Demo(), s, step))
  {
    var t := Apply(Demo(), s, step);
    var states: seq<Sys<nat>>, steps :| Written(Demo(), AllOnes(), states, steps, s);
    forall i | 0 <= i < |steps| + 1 ensures StepAt(Demo(), states + [t], steps + [step], i) {
      if i < |steps| { assert StepAt(Demo(), states, steps, i); }
    }
    assert Written(Demo(), AllOnes(), states + [t], steps + [step], t);
  }

  lemma {:induction false} WrittenIsRun<T>(env: Env<T>, fs: Files, states: seq<Sys<T>>, steps: seq<Step>, s: Sys<T>)
    requires Written(env, fs, states, steps, s)
    ensures Feasible(env, fs, steps) && Run(env, fs, steps) == s
    decreases |steps|
  {
    if steps != [] {
      assert StepAt(env, states, steps, |steps| - 1);
      forall i | 0 <= i < |steps| - 1 ensures StepAt(env, Front(states), Front(steps), i) {
        assert StepAt(env, states, steps, i);
      }
      WrittenIsRun(env, fs, Front(states), Front(steps), Last(Front(states)));
    }
  }

  lemma {:induction false} ReachableIsRun(s: Sys<nat>)
    requires Reachable(s)
    ensures exists steps :: Feasible(Demo(), AllOnes(), steps) && Run(Demo(), AllOnes(), steps) == s
  {
    var states: seq<Sys<nat>>, steps :| Written(Demo(), AllOnes(), states, steps, s);
    WrittenIsRun(Demo(), AllOnes(), states, steps, s);
  }

  lemma {:induction false} DemoSites(config: nat)
    ensures OwnOf(Demo(), config) == [SITE] && Path([SITE], 0) == "c" && Path([SITE], 1) == "k"
  {
    assert Own([]) == [];
    assert Front([SITE]) == [];
  }

  lemma {:induction false} DemoBuild(c: nat, k: nat)
    ensures BuildFrom(Demo(), Stamp([SITE], [c, k])) == map["d" := c]
  {
    var fp := Stamp([SITE], [c, k]);
    assert Front(fp) == [] && BuildFrom(Demo(), []) == map[];
  }

  /** What a look of the only refresher finds. */
  function DemoLook(s: Sys<nat>, seen: Seen): Seen
    requires s.hist != []
  {
    Seen(seen.times + [Last(s.hist)(if |seen.times| == 0 then "c" else "k")], seen.moments + [Now(s)])
  }

  lemma {:induction false} Calls(s: Sys<nat>, tid: nat, config: nat)
    requires s.hist != [] && s.pcs == map[] && !s.fields.refreshing && (s.fields.checked != Some(config) || s.fields.contexts.None?)
    ensures Enabled(Demo(), s, CallStep(tid, config))
    ensures Apply(Demo(), s, CallStep(tid, config)) == s.(fields := s.fields.(refreshing := true), hist := s.hist + [Last(s.hist)],
                                                         pcs := map[tid := Printing(config, Now(s), NOTHING)])
  {
  }

  lemma {:induction false} Stat(s: Sys<nat>, tid: nat, config: nat, began: nat, seen: Seen)
    requires s.hist != [] && s.pcs == map[tid := Printing(config, began, seen)] && |seen.times| < 2
    ensures Enabled(Demo(), s, StatStep(tid))
    ensures Apply(Demo(), s, StatStep(tid)) == s.(hist := s.hist + [Last(s.hist)], pcs := map[tid := Printing(config, began, DemoLook(s, seen))])
  {
    DemoSites(config);
  }

  lemma {:induction false} Load(s: Sys<nat>, tid: nat, config: nat, began: nat, printed: Seen, seen: Seen)
    requires s.hist != [] && s.pcs == map[tid := Reading(config, began, printed, seen)] && |seen.times| < 2
    ensures Enabled(Demo(), s, LoadStep(tid))
    ensures Apply(Demo(), s, LoadStep(tid)) == s.(hist := s.hist + [Last(s.hist)], pcs := map[tid := Reading(config, began, printed, DemoLook(s, seen))])
  {
    DemoSites(config);
  }

  lemma {:induction false} Stores(s: Sys<nat>, tid: nat, config: nat, began: nat, printed: Seen, seen: Seen)
    requires s.hist != [] && s.pcs == map[tid := Reading(config, began, printed, seen)] && |printed.times| == 2 == |seen.times|
    ensures Enabled(Demo(), s, InstallStep(tid))
    ensures var built := map["d" := seen.times[0]];
            Apply(Demo(), s, InstallStep(tid)) == Sys(
              Fields(Some(config), Stamp([SITE], printed.times), Some(built), s.fields.refreshing), map[tid := Leaving(config, began, true, built, seen)],
              s.hist + [Last(s.hist)], s.answered, Origin(config, printed, seen), seen)
  {
    DemoSites(config);
    DemoBuild(seen.times[0], seen.times[1]);
    assert seen.times == [seen.times[0], seen.times[1]];
  }

  lemma {:induction false} Leaves(s: Sys<nat>, tid: nat, pc: Pc<nat>)
    requires s.hist != [] && s.pcs == map[tid := pc] && pc.Leaving?
    ensures Enabled(Demo(), s, LeaveStep(tid))
    ensures Apply(Demo(), s, LeaveStep(tid)) == s.(
              fields := s.fields.(refreshing := false), pcs := map[], hist := s.hist + [Last(s.hist)],
              answered := s.answered + [Return(pc.config, if pc.rebuilt then Rebuilt else Confirmed, pc.result, pc.began, Now(s), pc.seen)])
  {
    assert s.pcs - {tid} == map[];
  }

  function AllOnes(): Files {
    _ => 1
  }

  lemma {:induction false} Starts() returns (t: Sys<nat>)
    ensures t == Init(AllOnes()) && Reachable(t)
  {
    t := Init(AllOnes());
    assert Written(Demo(), AllOnes(), [t], [], t);
  }

  /** A caller becomes the refresher and looks at both files. */
  lemma {:induction false} Prints(s: Sys<nat>, tid: nat, config: nat) returns (t: Sys<nat>)
    requires s.hist != [] && s.pcs == map[] && !s.fields.refreshing && (s.fields.checked != Some(config) || s.fields.contexts.None?)
    requires Reachable(s)
    ensures var n, now := Now(s), Last(s.hist);
            t == s.(fields := s.fields.(refreshing := true), hist := s.hist + [now] + [now] + [now],
                    pcs := map[tid := Printing(config, n, Seen([now("c"), now("k")], [n + 1, n + 2]))])
    ensures Reachable(t)
  {
    var n, now := Now(s), Last(s.hist);
    Calls(s, tid, config);
    OneMore(s, CallStep(tid, config));
    var called := Apply(Demo(), s, CallStep(tid, config));
    Stat(called, tid, config, n, NOTHING);
    OneMore(called, StatStep(tid));
    var once := Apply(Demo(), called, StatStep(tid));
    assert DemoLook(called, NOTHING) == Seen([now("c")], [n + 1]);
    Stat(once, tid, config, n, Seen([now("c")], [n + 1]));
    OneMore(once, StatStep(tid));
    assert DemoLook(once, Seen([now("c")], [n + 1])) == Seen([now("c"), now("k")], [n + 1, n + 2]);
    t := Apply(Demo(), once, StatStep(tid));
  }

  /** It reads both files, stores the map and leaves. */
  lemma {:induction false} Reads(s: Sys<nat>, tid: nat, config: nat, began: nat, printed: Seen) returns (t: Sys<nat>)
    requires s.hist != [] && s.pcs == map[tid := Reading(config, began, printed, NOTHING)] && |printed.times| == 2 && Reachable(s)
    ensures Reachable(t)
    ensures t.fields == Fields(Some(config), Stamp([SITE], printed.times), Some(map["d" := Last(s.hist)("c")]), false) && t.pcs == map[]
    ensures t.hist != [] && Last(t.hist) == Last(s.hist)
  {
    var n, now := Now(s), Last(s.hist);
    Load(s, tid, config, began, printed, NOTHING);
    OneMore(s, LoadStep(tid));
    var once := Apply(Demo(), s, LoadStep(tid));
    assert DemoLook(s, NOTHING) == Seen([now("c")], [n]);
    Load(once, tid, config, began, printed, Seen([now("c")], [n]));
    OneMore(once, LoadStep(tid));
    var twice := Apply(Demo(), once, LoadStep(tid));
    var seen := Seen([now("c"), now("k")], [n, n + 1]);
    assert DemoLook(once, Seen([now("c")], [n])) == seen;
    t := Finishes(twice, tid, config, began, printed, seen);
  }

  lemma {:induction false} Finishes(s: Sys<nat>, tid: nat, config: nat, began: nat, printed: Seen, seen: Seen) returns (t: Sys<nat>)
    requires s.hist != [] && s.pcs == map[tid := Reading(config, began, printed, seen)] && |printed.times| == 2 == |seen.times|
    requires Reachable(s)
    ensures Reachable(t)
    ensures t.fields == Fields(Some(config), Stamp([SITE], printed.times), Some(map["d" := seen.times[0]]), false) && t.pcs == map[]
    ensures t.hist != [] && Last(t.hist) == Last(s.hist)
  {
    Stores(s, tid, config, began, printed, seen);
    OneMore(s, InstallStep(tid));
    var stored := Apply(Demo(), s, InstallStep(tid));
    Leaves(stored, tid, Leaving(config, began, true, map["d" := seen.times[0]], seen));
    OneMore(stored, LeaveStep(tid));
    t := Apply(Demo(), stored, LeaveStep(tid));
  }

  lemma {:induction false} Touch(s: Sys<nat>, time: nat) returns (t: Sys<nat>)
    requires s.hist != [] && Reachable(s)
    ensures Reachable(t)
    ensures t == s.(hist := s.hist + [Touched(Last(s.hist), "c", time)])
  {
    OneMore(s, TouchStep("c", time));
    t := Apply(Demo(), s, TouchStep("c", time));
  }

  /** The first caller prints both files at time 1; then the certificate gets time `time`; then the caller reads. */
  lemma {:induction false} FirstRefresh(time: nat) returns (t: Sys<nat>)
    ensures Reachable(t)
    ensures t.fields == Fields(Some(0), Stamp([SITE], [1, 1]), Some(map["d" := time]), false) && t.pcs == map[]
    ensures t.hist != [] && Last(t.hist) == Touched(AllOnes(), "c", time)
  {
    var s := Starts();
    var printed := Prints(s, 0, 0);
    DemoSites(0);
    OneMore(printed, CompareStep(0));
    var compared := Apply(Demo(), printed, CompareStep(0));
    assert compared.pcs == map[0 := Reading(0, 0, Seen([1, 1], [1, 2]), NOTHING)];
    var touched := Touch(compared, time);
    t := Reads(touched, 0, 0, 0, Seen([1, 1], [1, 2]));
  }

  /** Nobody is refreshing, and the stored map is not the one of the stored fingerprint. */
  ghost predicate Outrun(s: Sys<nat>) {
    !s.fields.refreshing && s.fields.contexts == Some(map["d" := 2]) && BuildFrom(Demo(), s.fields.builtFingerprint) == map["d" := 1]
  }

  /** Both files are printed at time 1, the certificate is renewed to time 2, both files are read: the stored map is newer than its fingerprint. */
  lemma {:induction false} MapCanOutrunFingerprint()
    ensures exists steps :: Feasible(Demo(), AllOnes(), steps) && Outrun(Run(Demo(), AllOnes(), steps))
  {
    var s := FirstRefresh(2);
    DemoBuild(1, 1);
    ReachableIsRun(s);
  }

  /** A new snapshot of the same site, whose files have time 1, against a fingerprint with time 1. */
  lemma {:induction false} Confirms(s: Sys<nat>, result: map<string, nat>) returns (t: Sys<nat>)
    requires s.fields == Fields(Some(0), Stamp([SITE], [1, 1]), Some(result), false) && s.pcs == map[]
    requires s.hist != [] && Last(s.hist)("c") == 1 && Last(s.hist)("k") == 1 && Reachable(s)
    ensures Reachable(t)
    ensures var n, now := Now(s), Last(s.hist);
            && t.hist == s.hist + [now] + [now] + [now] + [now] + [now]
            && t.answered == s.answered + [Return(1, Confirmed, result, n, n + 4, Seen([1, 1], [n + 1, n + 2]))]
  {
    var n := Now(s);
    var printed := Prints(s, 1, 1);
    DemoSites(1);
    OneMore(printed, CompareStep(1));
    var compared := Apply(Demo(), printed, CompareStep(1));
    assert compared.pcs == map[1 := Leaving(1, n, false, result, Seen([1, 1], [n + 1, n + 2]))];
    Leaves(compared, 1, Leaving(1, n, false, result, Seen([1, 1], [n + 1, n + 2])));
    OneMore(compared, LeaveStep(1));
    t := Apply(Demo(), compared, LeaveStep(1));
  }

  /** The last call refreshed while the certificate had time 1 all along, and got the map of the certificate of time 2. */
  ghost predicate MissedRestore(s: Sys<nat>) {
    && s.answered != []
    && var r := Last(s.answered);
       && r.kind == Confirmed && r.result == map["d" := 2] && r.began < r.ended < |s.hist|
       && forall m :: r.began <= m <= r.ended ==> s.hist[m]("c") == 1
  }

  /** After the renewal above the old certificate comes back with its old time, and a call with a new snapshot follows. */
  lemma {:induction false} RestoredFileIsMissed()
    ensures exists steps :: Feasible(Demo(), AllOnes(), steps) && MissedRestore(Run(Demo(), AllOnes(), steps))
  {
    var first := FirstRefresh(2);
    var restored := Touch(first, 1);
    var s := Confirms(restored, map["d" := 2]);
    ReachableIsRun(s);
  }

  /** The last call was answered at once, and not with the map of the files as they were then. */
  ghost predicate MissedRenewal(s: Sys<nat>) {
    && s.answered != []
    && var r := Last(s.answered);
       && r.kind == Fast && r.result == map["d" := 1] && r.ended < |s.hist| && s.hist[r.ended]("c") == 2
  }

  /** A certificate renewed while the snapshot stays: a call with that snapshot is answered with the old one. */
  lemma {:induction false} RenewalIsMissed()
    ensures exists steps :: Feasible(Demo(), AllOnes(), steps) && MissedRenewal(Run(Demo(), AllOnes(), steps))
  {
    var first := FirstRefresh(1);
    var renewed := Touch(first, 2);
    OneMore(renewed, CallStep(1, 0));
    var s := Apply(Demo(), renewed, CallStep(1, 0));
    assert MissedRenewal(s);
    ReachableIsRun(s);
  }
}
