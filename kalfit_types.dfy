/**
 * The entities the Kalman-fit driver works on: straw hits, doublets, the
 * annealing configuration, and the external services (fit engine, ambiguity
 * resolvers, T0 estimators, trajectory and panel geometry) whose numerics are
 * not modelled and enter the model as total functions.
 */
module KalFitTypes {
  import opened Base

  /** Number of entries of each scratch ambiguity table (indexed by straw index). */
  const TableSize: nat := 40000
  /** Value both tables are reset to: "no ambiguity resolved for this straw". */
  const Sentinel: int := -9999
  /** An entry greater than this threshold counts as a resolved ambiguity. */
  const ResolvedAbove: int := -10
  /** Half-width of the window in which a tangent-line slope matches the track slope. */
  const MaxSlopeDist: real := 0.10
  /** Usability code given to a hit that weeding deactivated. */
  const WeededUsability: int := 5
  /** Usability code given to a hit that unweeding reactivated. */
  const UnweededUsability: int := 4

  datatype Vec3 = Vec3(x: real, y: real, z: real)

  /**
   * One straw hit on the track. `shId` is the straw index that keys the
   * ambiguity tables, `station`/`panel` the detector element, `flt` the
   * flight length, `rdrift` the (unsigned) drift radius.
   */
  datatype TrkHit = TrkHit(
    shId: nat, station: nat, panel: nat, wdir: Vec3,
    flt: real, rdrift: real,
    active: bool, usability: int, ambig: int, ambigUpdate: bool, extErr: real)

  /** Track direction and position sampled at a hit's flight length. */
  datatype TrackSample = TrackSample(dir: Vec3, pos: Vec3)

  /**
   * Hits of one (station, panel) traversal, with the wire direction of the
   * first hit and, per member hit, the track direction and position sampled
   * when the doublet was built.
   */
  datatype Doublet = Doublet(
    station: nat, panel: nat, shDir: Vec3,
    hits: seq<TrkHit>, trkDirs: seq<Vec3>, trkPoss: seq<Vec3>)

  /** Four values, one per bitangent configuration of two circles. */
  datatype Quad<T> = Quad(c0: T, c1: T, c2: T, c3: T)
  {
    function At(i: nat): T
      requires i < 4
    {
      [c0, c1, c2, c3][i]
    }
  }

  /**
   * Raw output of the two-circle tangent computation for one configuration:
   * the line slope and, per hit, the dot product whose sign tells on which
   * side of the wire the tangent point lies.
   */
  datatype RawTangent = RawTangent(slope: real, sideA: real, sideB: real)

  /** Outcome of a refit: success flag and, per hit, the unbiased resid/residErr if available. */
  datatype Fit = Fit(success: bool, chi: seq<Option<real>>)

  /** Ambiguity-resolution strategies; the hack resolver also carries its step's hit error. */
  datatype Strategy = FixedAmbig | PocaAmbig | HitAmbig | PanelAmbig | HitAmbigHack(herr: real)

  /** Fit direction, which decides the order of hits by flight length. */
  datatype FitDirection = Downstream | Upstream

  /**
   * Calls into code this model does not contain. Each is a total function of
   * what the driver hands it:
   * - refit: reset and refit the Kalman representation with these hits and T0;
   * - resolve: the strategy's resolver, given the hits, the last fit and T0,
   *   returning the new ambiguity of each hit;
   * - updateT0: the T0 re-estimate (calorimeter-seeded when the flag is set);
   * - sample: track direction and position at a hit, from the track fitted
   *   to these hits with this T0;
   * - localSlope: dx/dz of a direction in the panel frame of the given hit;
   * - lines: the four tangent lines to the drift circles of two hits;
   * - physicalDrift: the hit's own test that its drift radius is physical.
   */
  datatype Services = Services(
    refit: (seq<TrkHit>, real) -> Fit,
    resolve: (Strategy, seq<TrkHit>, Fit, real) -> seq<int>,
    updateT0: (bool, seq<TrkHit>, real) -> real,
    sample: (seq<TrkHit>, real, TrkHit) -> TrackSample,
    localSlope: (TrkHit, Vec3) -> real,
    lines: (TrkHit, TrkHit) -> Quad<RawTangent>,
    physicalDrift: (TrkHit, real) -> bool)

  /** Every straw index of these hits fits in the ambiguity tables. */
  predicate IdsInTable(hs: seq<TrkHit>)
  {
    forall i :: 0 <= i < |hs| ==> hs[i].shId < TableSize
  }

  /** The residual ratio of hit `i`, or None when the fit did not provide one. */
  function ChiAt(f: Fit, i: nat): Option<real>
  {
    if i < |f.chi| then f.chi[i] else None
  }

  /** Number of active hits. */
  function ActiveCount(hs: seq<TrkHit>): (n: nat)
    ensures n <= |hs|
  {
    if hs == [] then 0 else ActiveCount(hs[..|hs| - 1]) + (if hs[|hs| - 1].active then 1 else 0)
  }
}
