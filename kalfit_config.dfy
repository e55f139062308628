/**
 * Construction of the Kalman-fit driver from its parameter set: defaults for
 * the optional parameters, the consistency checks on the per-step lists, and
 * one ambiguity resolver per annealing step.
 */
module KalFitConfig {
  import opened Base
  import opened KalFitTypes

  /** Ambiguity-strategy ids of the configuration. */
  const FixedAmbigId: int := 0
  const PocaAmbigId: int := 1
  const HitAmbigId: int := 2
  const PanelAmbigId: int := 3
  const HitAmbigHackId: int := 4

  /**
   * The parameters the driver reads. Those with a default in the source are
   * optional here; the others must be present.
   */
  datatype Params = Params(
    hitErr: seq<real>,
    ambiguityStrategy: seq<int>,
    t0Tolerance: seq<real>,
    hitMinDrift: real,
    scaleErrDoublet: real,
    iLoopMarkDoublets: int,
    minDriftDoublet: real,
    deltaDriftDoublet: real,
    weedHits: Option<bool>,
    maxHitChi: Option<real>,
    maxWeed: Option<nat>,
    updateT0: Option<bool>,
    daveMode: Option<int>,
    minNStraws: Option<nat>,
    maxIterations: Option<nat>,
    removeFailed: Option<bool>)

  /** The configuration the driver runs with. */
  datatype Config = Config(
    herr: seq<real>,
    t0tol: seq<real>,
    resolvers: seq<Strategy>,
    minHitDrift: real,
    scaleErrDoublet: real,
    iLoopMarkDoublets: int,
    minDriftDoublet: real,
    deltaDriftDoublet: real,
    weedHits: bool,
    maxHitChi: real,
    maxWeed: nat,
    updateT0: bool,
    daveMode: int,
    minNStraws: nat,
    maxIterations: nat,
    removeFailed: bool)
  {
    /** One hit error, one T0 tolerance and one resolver per annealing step, at least one step. */
    predicate Valid()
    {
      |herr| > 0 && |t0tol| == |herr| && |resolvers| == |herr|
    }
  }

  /** Why construction throws. */
  datatype ConfigError = NoHitErrors | InconsistentAmbiguityResolution | InconsistentT0Tolerance

  function OrElse<T>(o: Option<T>, d: T): T
  {
    if o.Some? then o.value else d
  }

  /** The resolver for one step; ids outside the known set fall back to the fixed resolver. */
  function StrategyOf(id: int, herr: real): (s: Strategy)
    ensures s == FixedAmbig <==> id !in {PocaAmbigId, HitAmbigId, PanelAmbigId, HitAmbigHackId}
    ensures s.HitAmbigHack? <==> id == HitAmbigHackId
    ensures s.HitAmbigHack? ==> s.herr == herr
  {
    if id == HitAmbigId then HitAmbig
    else if id == PanelAmbigId then PanelAmbig
    else if id == PocaAmbigId then PocaAmbig
    else if id == HitAmbigHackId then HitAmbigHack(herr)
    else FixedAmbig
  }

  /**
   * The constructor: it fails on an empty hit-error list, then on a strategy
   * list of another length, then on a T0-tolerance list of another length, in
   * that order. Otherwise the configuration is valid, carries one resolver per
   * step chosen by that step's strategy id, and the optional parameters take
   * their defaults when absent.
   */
  method Configure(p: Params) returns (r: Result<Config, ConfigError>)
    ensures r == Err(NoHitErrors) <==> |p.hitErr| == 0
    ensures r == Err(InconsistentAmbiguityResolution) <==>
      |p.hitErr| > 0 && |p.ambiguityStrategy| != |p.hitErr|
    ensures r == Err(InconsistentT0Tolerance) <==>
      |p.hitErr| > 0 && |p.ambiguityStrategy| == |p.hitErr| && |p.t0Tolerance| != |p.hitErr|
    ensures r.Ok? ==>
      var c := r.value;
      && c.Valid()
      && c.herr == p.hitErr && c.t0tol == p.t0Tolerance
      && (forall i :: 0 <= i < |c.resolvers| ==> c.resolvers[i] == StrategyOf(p.ambiguityStrategy[i], p.hitErr[i]))
      && c.weedHits == OrElse(p.weedHits, true)
      && c.maxHitChi == OrElse(p.maxHitChi, 4.0)
      && c.maxWeed == OrElse(p.maxWeed, 10)
      && c.updateT0 == OrElse(p.updateT0, true)
      && c.daveMode == OrElse(p.daveMode, 0)
      && c.minNStraws == OrElse(p.minNStraws, 15)
      && c.maxIterations == OrElse(p.maxIterations, 10)
      && c.removeFailed == OrElse(p.removeFailed, true)
      && c.minHitDrift == p.hitMinDrift && c.scaleErrDoublet == p.scaleErrDoublet
      && c.iLoopMarkDoublets == p.iLoopMarkDoublets
      && c.minDriftDoublet == p.minDriftDoublet && c.deltaDriftDoublet == p.deltaDriftDoublet
  {
    if |p.hitErr| <= 0 {
      return Err(NoHitErrors);
    }
    if |p.hitErr| != |p.ambiguityStrategy| {
      return Err(InconsistentAmbiguityResolution);
    }
    if |p.hitErr| != |p.t0Tolerance| {
      return Err(InconsistentT0Tolerance);
    }
    var resolvers: seq<Strategy> := [];
    for i := 0 to |p.ambiguityStrategy|
      invariant |resolvers| == i
      invariant forall j :: 0 <= j < i ==> resolvers[j] == StrategyOf(p.ambiguityStrategy[j], p.hitErr[j])
    {
      resolvers := resolvers + [StrategyOf(p.ambiguityStrategy[i], p.hitErr[i])];
    }
    r := Ok(Config(
      p.hitErr, p.t0Tolerance, resolvers,
      p.hitMinDrift, p.scaleErrDoublet, p.iLoopMarkDoublets, p.minDriftDoublet, p.deltaDriftDoublet,
      OrElse(p.weedHits, true), OrElse(p.maxHitChi, 4.0), OrElse(p.maxWeed, 10),
      OrElse(p.updateT0, true), OrElse(p.daveMode, 0), OrElse(p.minNStraws, 15),
      OrElse(p.maxIterations, 10), OrElse(p.removeFailed, true)));
  }

  /** fitable: a track definition can be fitted iff it has at least minnstraws straw hits. */
  predicate Fitable(c: Config, nStrawHits: nat)
  {
    nStrawHits >= c.minNStraws
  }

  /**
   * Fitability is a threshold on the hit count: a definition with more hits
   * than a fitable one is fitable, one with fewer than an unfitable one is
   * not, and one hit short of minnstraws (when that is positive) is unfitable.
   */
  lemma FitableThreshold(c: Config, n: nat, m: nat)
    requires n <= m
    ensures Fitable(c, n) ==> Fitable(c, m)
    ensures !Fitable(c, m) ==> !Fitable(c, n)
    ensures c.minNStraws > 0 ==> Fitable(c, c.minNStraws) && !Fitable(c, c.minNStraws - 1)
  {
  }
}
