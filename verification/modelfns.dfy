/**
 * The arithmetic kernels of the simulation code: the right-hand sides of the
 * generalized Lotka-Volterra and the linear consumer-resource ODEs, the
 * geometric copy-number weights, the competition-matrix diagonal, the
 * aggregation of a trial's final abundances, the bootstrap fit of p and the
 * initial state of the resource sweep. The integrator, the random draws and
 * the lookups by rounded keys are inputs.
 */
module ModelFns {
  import opened Wrappers
  import opened ArgMin
  import opened RealArith

  // ---------------------------------------------------------------------------
  // Sums

  /** `np.sum(v)`, accumulated from the front. */
  function Sum(v: seq<real>): real {
    if v == [] then 0.0 else Sum(v[..|v| - 1]) + v[|v| - 1]
  }

  // ---------------------------------------------------------------------------
  // Generalized Lotka-Volterra right-hand side

  /** The shapes `dX_dt_GLV` indexes: N abundances, N rates, an N×N competition matrix. */
  predicate GlvShape(x: seq<real>, r: seq<real>, alpha: array2<real>, n: nat) {
    n <= |x| && n <= |r| && n <= alpha.Length0 && n <= alpha.Length1
  }

  /** Σ_{j<m} alpha[k,j]·x[j]: the competition felt by species k from the first m species. */
  function Competition(alpha: array2<real>, x: seq<real>, k: nat, m: nat): (c: real)
    reads alpha
    requires k < alpha.Length0 && m <= alpha.Length1 && m <= |x|
    ensures (forall j :: 0 <= j < m ==> x[j] == 0.0) ==> c == 0.0
  {
    if m == 0 then 0.0 else Competition(alpha, x, k, m - 1) + alpha[k, m - 1] * x[m - 1]
  }

  /** The per-capita Lotka-Volterra growth of species k, times its abundance. */
  function GlvRate(x: seq<real>, r: seq<real>, alpha: array2<real>, delta: real, n: nat, k: nat): (g: real)
    reads alpha
    requires GlvShape(x, r, alpha, n) && k < n
    ensures x[k] == 0.0 ==> g == 0.0
  {
    x[k] * (r[k] * (1.0 - Competition(alpha, x, k, n)) - delta)
  }

  /**
   * `dX_dt_GLV`: the competition sums are accumulated into an array by a
   * nested loop, then the derivatives are appended one species at a time.
   */
  method DxDtGlv(x: seq<real>, r: seq<real>, alpha: array2<real>, delta: real, n: nat) returns (out: seq<real>)
    requires GlvShape(x, r, alpha, n)
    ensures |out| == n
    ensures forall k :: 0 <= k < n ==> out[k] == GlvRate(x, r, alpha, delta, n, k)
  {
    var compSum := new real[n](_ => 0.0);
    for k := 0 to n
      invariant forall i :: 0 <= i < k ==> compSum[i] == Competition(alpha, x, i, n)
      invariant forall i :: k <= i < n ==> compSum[i] == 0.0
    {
      for j := 0 to n
        invariant compSum[k] == Competition(alpha, x, k, j)
        invariant forall i :: 0 <= i < k ==> compSum[i] == Competition(alpha, x, i, n)
        invariant forall i :: k < i < n ==> compSum[i] == 0.0
      {
        compSum[k] := compSum[k] + alpha[k, j] * x[j];
      }
    }
    out := [];
    for k := 0 to n
      invariant |out| == k
      invariant forall i :: 0 <= i < k ==> out[i] == GlvRate(x, r, alpha, delta, n, i)
    {
      out := out + [x[k] * (r[k] * (1.0 - compSum[k]) - delta)];
    }
  }

  /** Only the species present compete: with every other species absent, the sum is k's own term. */
  lemma {:induction false} CompetitionOfLoneSpecies(alpha: array2<real>, x: seq<real>, k: nat, m: nat)
    requires k < alpha.Length0 && m <= alpha.Length1 && m <= |x|
    requires forall j :: 0 <= j < m && j != k ==> x[j] == 0.0
    ensures Competition(alpha, x, k, m) == if k < m then alpha[k, k] * x[k] else 0.0
  {
    if m > 0 {
      CompetitionOfLoneSpecies(alpha, x, k, m - 1);
    }
  }

  /**
   * With the diagonal of alpha at 1, a species alone follows logistic growth
   * with carrying capacity 1, reduced by the death rate.
   */
  lemma LoneSpeciesIsLogistic(x: seq<real>, r: seq<real>, alpha: array2<real>, delta: real, n: nat, k: nat)
    requires GlvShape(x, r, alpha, n) && k < n && alpha[k, k] == 1.0
    requires forall j :: 0 <= j < n && j != k ==> x[j] == 0.0
    ensures GlvRate(x, r, alpha, delta, n, k) == x[k] * (r[k] * (1.0 - x[k]) - delta)
  {
    CompetitionOfLoneSpecies(alpha, x, k, n);
  }

  /** One species at abundance 1 with alpha = [[1]] and no death is an equilibrium: a concrete instance of `LoneSpeciesIsLogistic`. */
  lemma SingleSpeciesEquilibrium(r: seq<real>, alpha: array2<real>)
    requires |r| == 1 && alpha.Length0 == 1 && alpha.Length1 == 1 && alpha[0, 0] == 1.0
    ensures GlvShape([1.0], r, alpha, 1) && GlvRate([1.0], r, alpha, 0.0, 1, 0) == 0.0
  {
    LoneSpeciesIsLogistic([1.0], r, alpha, 0.0, 1, 0);
  }

  // ---------------------------------------------------------------------------
  // Linear consumer-resource right-hand side

  /** The shapes `dX_dt_GenSR` indexes: species then resources in X, an s×m rate matrix, m supplies. */
  predicate GenSrShape(x: seq<real>, r: array2<real>, co: seq<real>, s: nat, m: nat) {
    s + m <= |x| && s <= r.Length0 && m <= r.Length1 && m <= |co|
  }

  /** Σ_{j<m} r[k,j]·C[j], with C[j] = x[s+j]: the uptake rate of species k (`rp_all_C[k]`). */
  function Uptake(r: array2<real>, x: seq<real>, s: nat, k: nat, m: nat): real
    reads r
    requires k < r.Length0 && m <= r.Length1 && s + m <= |x|
  {
    if m == 0 then 0.0 else Uptake(r, x, s, k, m - 1) + r[k, m - 1] * x[s + m - 1]
  }

  /** Σ_{k<n} r[k,j]·x[k]: the consumption pressure on resource j (`r_all_N[j]`). */
  function Demand(r: array2<real>, x: seq<real>, j: nat, n: nat): real
    reads r
    requires n <= r.Length0 && j < r.Length1 && n <= |x|
  {
    if n == 0 then 0.0 else Demand(r, x, j, n - 1) + r[n - 1, j] * x[n - 1]
  }

  /**
   * Entry i of the derivative: a species grows by its uptake and dies at rate
   * delta; a resource is resupplied towards Co and consumed by every species.
   */
  function GenSrRate(x: seq<real>, r: array2<real>, delta: real, co: seq<real>, s: nat, m: nat, i: nat): (g: real)
    reads r
    requires GenSrShape(x, r, co, s, m) && i < s + m
    ensures i < s && x[i] == 0.0 ==> g == 0.0
    ensures s <= i && x[i] == 0.0 ==> g == delta * co[i - s]
  {
    if i < s then x[i] * (Uptake(r, x, s, i, m) - delta)
    else
      var j := i - s;
      delta * (co[j] - x[s + j]) - x[s + j] * Demand(r, x, j, s)
  }

  /**
   * `dX_dt_GenSR`: the resource vector, the products r[k,j]·C[j] and
   * r[k,j]·X[k], their row and column sums, then the derivatives, each
   * stage in its own loop.
   */
  method DxDtGenSr(x: seq<real>, r: array2<real>, delta: real, co: seq<real>, s: nat, m: nat) returns (out: seq<real>)
    requires GenSrShape(x, r, co, s, m)
    ensures |out| == s + m
    ensures forall i :: 0 <= i < s + m ==> out[i] == GenSrRate(x, r, delta, co, s, m, i)
  {
    var c := ResourceVector(x, s, m);
    var rpc := UptakeTerms(r, c, s, m);
    var rpAllC := UptakeTotals(x, r, rpc, s, m);
    var rc := ConsumptionTerms(x, r, s, m);
    var rAllN := DemandTotals(x, r, rc, s, m);
    out := [];
    for k := 0 to s
      invariant |out| == k
      invariant forall i :: 0 <= i < k ==> out[i] == GenSrRate(x, r, delta, co, s, m, i)
    {
      out := out + [x[k] * (rpAllC[k] - delta)];
    }
    for j := 0 to m
      invariant |out| == s + j
      invariant forall i :: 0 <= i < s + j ==> out[i] == GenSrRate(x, r, delta, co, s, m, i)
    {
      out := out + [delta * (co[j] - c[j]) - c[j] * rAllN[j]];
    }
  }

  /** `C[k] = X[k + num_species]`. */
  method ResourceVector(x: seq<real>, s: nat, m: nat) returns (c: array<real>)
    requires s + m <= |x|
    ensures fresh(c) && c.Length == m
    ensures forall j :: 0 <= j < m ==> c[j] == x[s + j]
  {
    c := new real[m](_ => 0.0);
    for k := 0 to m
      invariant forall j :: 0 <= j < k ==> c[j] == x[s + j]
    {
      c[k] := x[k + s];
    }
  }

  /** `rpc[k,j] = r[k,j]*C[j]`. */
  method UptakeTerms(r: array2<real>, c: array<real>, s: nat, m: nat) returns (rpc: array2<real>)
    requires s <= r.Length0 && m <= r.Length1 && m <= c.Length
    ensures fresh(rpc) && rpc.Length0 == s && rpc.Length1 == m
    ensures forall k, j :: 0 <= k < s && 0 <= j < m ==> rpc[k, j] == r[k, j] * c[j]
  {
    rpc := new real[s, m]((_, _) => 0.0);
    for k := 0 to s
      invariant forall i, j :: 0 <= i < k && 0 <= j < m ==> rpc[i, j] == r[i, j] * c[j]
    {
      for j := 0 to m
        invariant forall i, l :: 0 <= i < k && 0 <= l < m ==> rpc[i, l] == r[i, l] * c[l]
        invariant forall l :: 0 <= l < j ==> rpc[k, l] == r[k, l] * c[l]
      {
        rpc[k, j] := r[k, j] * c[j];
      }
    }
  }

  /** `rp_all_C[k] = np.sum(rpc[k,:])`. */
  method UptakeTotals(x: seq<real>, r: array2<real>, rpc: array2<real>, s: nat, m: nat) returns (rpAllC: array<real>)
    requires s + m <= |x| && s <= r.Length0 && m <= r.Length1
    requires rpc.Length0 == s && rpc.Length1 == m
    requires forall k, j :: 0 <= k < s && 0 <= j < m ==> rpc[k, j] == r[k, j] * x[s + j]
    ensures fresh(rpAllC) && rpAllC.Length == s
    ensures forall k :: 0 <= k < s ==> rpAllC[k] == Uptake(r, x, s, k, m)
  {
    rpAllC := new real[s](_ => 0.0);
    for k := 0 to s
      invariant forall i :: 0 <= i < k ==> rpAllC[i] == Uptake(r, x, s, i, m)
    {
      var total := 0.0;
      for j := 0 to m
        invariant total == Uptake(r, x, s, k, j)
      {
        total := total + rpc[k, j];
      }
      rpAllC[k] := total;
    }
  }

  /** `r_c[k,j] = r[k,j]*X[k]`. */
  method ConsumptionTerms(x: seq<real>, r: array2<real>, s: nat, m: nat) returns (rc: array2<real>)
    requires s <= |x| && s <= r.Length0 && m <= r.Length1
    ensures fresh(rc) && rc.Length0 == s && rc.Length1 == m
    ensures forall k, j :: 0 <= k < s && 0 <= j < m ==> rc[k, j] == r[k, j] * x[k]
  {
    rc := new real[s, m]((_, _) => 0.0);
    for k := 0 to s
      invariant forall i, j :: 0 <= i < k && 0 <= j < m ==> rc[i, j] == r[i, j] * x[i]
    {
      for j := 0 to m
        invariant forall i, l :: 0 <= i < k && 0 <= l < m ==> rc[i, l] == r[i, l] * x[i]
        invariant forall l :: 0 <= l < j ==> rc[k, l] == r[k, l] * x[k]
      {
        rc[k, j] := r[k, j] * x[k];
      }
    }
  }

  /** `r_all_N[j] = np.sum(r_c[:,j])`. */
  method DemandTotals(x: seq<real>, r: array2<real>, rc: array2<real>, s: nat, m: nat) returns (rAllN: array<real>)
    requires s <= |x| && s <= r.Length0 && m <= r.Length1
    requires rc.Length0 == s && rc.Length1 == m
    requires forall k, j :: 0 <= k < s && 0 <= j < m ==> rc[k, j] == r[k, j] * x[k]
    ensures fresh(rAllN) && rAllN.Length == m
    ensures forall j :: 0 <= j < m ==> rAllN[j] == Demand(r, x, j, s)
  {
    rAllN := new real[m](_ => 0.0);
    for j := 0 to m
      invariant forall l :: 0 <= l < j ==> rAllN[l] == Demand(r, x, l, s)
    {
      var total := 0.0;
      for k := 0 to s
        invariant total == Demand(r, x, j, k)
      {
        total := total + rc[k, j];
      }
      rAllN[j] := total;
    }
  }

  /** Σ_{k<n} x[k]·Uptake(k): the total uptake by the first n species. */
  function SpeciesUptake(r: array2<real>, x: seq<real>, s: nat, m: nat, n: nat): real
    reads r
    requires n <= s && s <= r.Length0 && m <= r.Length1 && s + m <= |x|
  {
    if n == 0 then 0.0 else SpeciesUptake(r, x, s, m, n - 1) + x[n - 1] * Uptake(r, x, s, n - 1, m)
  }

  /** Σ_{j<mm} C[j]·Demand(j, n): the total consumption of the first mm resources by the first n species. */
  function ResourceRemoval(r: array2<real>, x: seq<real>, s: nat, n: nat, mm: nat): real
    reads r
    requires n <= s && s <= r.Length0 && mm <= r.Length1 && s + mm <= |x|
  {
    if mm == 0 then 0.0 else ResourceRemoval(r, x, s, n, mm - 1) + x[s + mm - 1] * Demand(r, x, mm - 1, n)
  }

  lemma {:induction false} NoSpeciesRemoveNothing(r: array2<real>, x: seq<real>, s: nat, mm: nat)
    requires s <= r.Length0 && mm <= r.Length1 && s + mm <= |x|
    ensures ResourceRemoval(r, x, s, 0, mm) == 0.0
  {
    if mm > 0 {
      NoSpeciesRemoveNothing(r, x, s, mm - 1);
      assert Demand(r, x, mm - 1, 0) == 0.0;
    }
  }

  /** Adding species n to the consumers adds exactly its uptake of the first mm resources. */
  lemma {:induction false} RemovalAddSpecies(r: array2<real>, x: seq<real>, s: nat, n: nat, mm: nat)
    requires n < s && s <= r.Length0 && mm <= r.Length1 && s + mm <= |x|
    ensures ResourceRemoval(r, x, s, n + 1, mm) == ResourceRemoval(r, x, s, n, mm) + x[n] * Uptake(r, x, s, n, mm)
  {
    if mm == 0 {
      assert x[n] * 0.0 == 0.0;
    } else {
      var j := mm - 1;
      RemovalAddSpecies(r, x, s, n, j);
      ExchangeStep(ResourceRemoval(r, x, s, n, j), Uptake(r, x, s, n, j), x[s + j], Demand(r, x, j, n), r[n, j], x[n],
        ResourceRemoval(r, x, s, n + 1, j), Demand(r, x, j, n + 1), ResourceRemoval(r, x, s, n + 1, mm),
        Uptake(r, x, s, n, mm), ResourceRemoval(r, x, s, n, mm));
    }
  }

  /** The ring rearrangement behind one step of exchanging the two sums. */
  lemma {:induction false} ExchangeStep(a: real, u0: real, c: real, d: real, q: real, xn: real,
                                        r1: real, d1: real, left: real, u1: real, r0: real)
    requires r1 == a + xn * u0 && d1 == d + q * xn && left == r1 + c * d1
    requires u1 == u0 + q * c && r0 == a + c * d
    ensures left == r0 + xn * u1
  {
  }

  /** What all species take up equals what is taken from all resources. */
  lemma {:induction false} UptakeEqualsRemoval(r: array2<real>, x: seq<real>, s: nat, m: nat, n: nat)
    requires n <= s && s <= r.Length0 && m <= r.Length1 && s + m <= |x|
    ensures SpeciesUptake(r, x, s, m, n) == ResourceRemoval(r, x, s, n, m)
  {
    if n == 0 {
      NoSpeciesRemoveNothing(r, x, s, m);
    } else {
      UptakeEqualsRemoval(r, x, s, m, n - 1);
      RemovalAddSpecies(r, x, s, n - 1, m);
    }
  }

  /** Σ_{k<n} (dX[k] + delta·X[k]): the species' growth before death. */
  function GrowthBeforeDeath(out: seq<real>, x: seq<real>, delta: real, n: nat): real
    requires n <= |out| && n <= |x|
  {
    if n == 0 then 0.0 else GrowthBeforeDeath(out, x, delta, n - 1) + (out[n - 1] + delta * x[n - 1])
  }

  /** Σ_{j<mm} (delta·(Co[j] − C[j]) − dC[j]): what consumption removes from the resources. */
  function ConsumedResource(out: seq<real>, x: seq<real>, co: seq<real>, delta: real, s: nat, mm: nat): real
    requires s + mm <= |out| && s + mm <= |x| && mm <= |co|
  {
    if mm == 0 then 0.0
    else ConsumedResource(out, x, co, delta, s, mm - 1) + (delta * (co[mm - 1] - x[s + mm - 1]) - out[s + mm - 1])
  }

  lemma {:induction false} GrowthIsUptake(x: seq<real>, r: array2<real>, delta: real, co: seq<real>, s: nat, m: nat,
                                          out: seq<real>, n: nat)
    requires GenSrShape(x, r, co, s, m) && n <= s && |out| == s + m
    requires forall i :: 0 <= i < s + m ==> out[i] == GenSrRate(x, r, delta, co, s, m, i)
    ensures GrowthBeforeDeath(out, x, delta, n) == SpeciesUptake(r, x, s, m, n)
  {
    if n > 0 {
      GrowthIsUptake(x, r, delta, co, s, m, out, n - 1);
      var k := n - 1;
      assert out[k] == x[k] * (Uptake(r, x, s, k, m) - delta);
    }
  }

  lemma {:induction false} ConsumedIsRemoval(x: seq<real>, r: array2<real>, delta: real, co: seq<real>, s: nat, m: nat,
                                             out: seq<real>, mm: nat)
    requires GenSrShape(x, r, co, s, m) && mm <= m && |out| == s + m
    requires forall i :: 0 <= i < s + m ==> out[i] == GenSrRate(x, r, delta, co, s, m, i)
    ensures ConsumedResource(out, x, co, delta, s, mm) == ResourceRemoval(r, x, s, s, mm)
  {
    if mm > 0 {
      ConsumedIsRemoval(x, r, delta, co, s, m, out, mm - 1);
      var j := mm - 1;
      var c, d := x[s + j], Demand(r, x, j, s);
      assert out[s + j] == GenSrRate(x, r, delta, co, s, m, s + j) == delta * (co[j] - c) - c * d;
      assert ConsumedResource(out, x, co, delta, s, mm)
          == ConsumedResource(out, x, co, delta, s, j) + (delta * (co[j] - c) - out[s + j]);
      assert ResourceRemoval(r, x, s, s, mm) == ResourceRemoval(r, x, s, s, j) + c * d;
    }
  }

  /**
   * Mass balance of the consumer-resource model: apart from death and
   * resupply, what the species gain is exactly what the resources lose.
   */
  lemma GenSrMassBalance(x: seq<real>, r: array2<real>, delta: real, co: seq<real>, s: nat, m: nat, out: seq<real>)
    requires GenSrShape(x, r, co, s, m) && |out| == s + m
    requires forall i :: 0 <= i < s + m ==> out[i] == GenSrRate(x, r, delta, co, s, m, i)
    ensures GrowthBeforeDeath(out, x, delta, s) == ConsumedResource(out, x, co, delta, s, m)
  {
    GrowthIsUptake(x, r, delta, co, s, m, out, s);
    ConsumedIsRemoval(x, r, delta, co, s, m, out, m);
    UptakeEqualsRemoval(r, x, s, m, s);
  }

  // ---------------------------------------------------------------------------
  // Geometric copy-number weights

  function Pow(b: real, n: nat): real {
    if n == 0 then 1.0 else b * Pow(b, n - 1)
  }

  /** `p*(1-p)**n`: the unnormalised weight of copy number n. */
  function GeomTerm(p: real, n: nat): real {
    p * Pow(1.0 - p, n)
  }

  /** Σ_{n=1..maxCn} p·(1−p)^n: the normaliser of the weights. */
  function GeomTotal(p: real, maxCn: nat): real {
    if maxCn == 0 then 0.0 else GeomTotal(p, maxCn - 1) + GeomTerm(p, maxCn)
  }

  /** `geom_dist`: one unnormalised weight per copy number 1..maxCn, appended in a loop. */
  method GeomDist(p: real, maxCn: nat) returns (d: seq<real>)
    ensures |d| == maxCn
    ensures forall i :: 0 <= i < maxCn ==> d[i] == GeomTerm(p, i + 1)
    ensures Sum(d) == GeomTotal(p, maxCn)
  {
    d := [];
    for n := 1 to maxCn + 1
      invariant |d| == n - 1
      invariant forall i :: 0 <= i < n - 1 ==> d[i] == GeomTerm(p, i + 1)
      invariant Sum(d) == GeomTotal(p, n - 1)
    {
      assert (d + [GeomTerm(p, n)])[..n - 1] == d;
      d := d + [GeomTerm(p, n)];
    }
  }

  /** `v/np.sum(v)`; a zero sum makes every entry NaN, `None` here. */
  function Normalize(v: seq<real>): (w: Option<seq<real>>)
    ensures w.None? <==> Sum(v) == 0.0
    ensures w.Some? ==> |w.value| == |v| && forall i :: 0 <= i < |v| ==> w.value[i] * Sum(v) == v[i]
  {
    if Sum(v) == 0.0 then None
    else Some(seq(|v|, i requires 0 <= i < |v| => v[i] / Sum(v)))
  }

  /** `geom_weights`: the geometric distribution over copy numbers 1..maxCn, normalised. */
  method GeomWeights(p: real, maxCn: nat) returns (w: Option<seq<real>>)
    ensures w.None? <==> GeomTotal(p, maxCn) == 0.0
    ensures w.Some? ==> |w.value| == maxCn
    ensures w.Some? ==> forall i :: 0 <= i < maxCn ==> w.value[i] == GeomTerm(p, i + 1) / GeomTotal(p, maxCn)
  {
    var d := GeomDist(p, maxCn);
    w := Normalize(d);
  }

  /** Entries each divided by the same total t sum to the sum divided by t. */
  lemma {:induction false} SumOfQuotients(v: seq<real>, w: seq<real>, t: real)
    requires t != 0.0 && |w| == |v| && forall i :: 0 <= i < |v| ==> w[i] == v[i] / t
    ensures Sum(w) == Sum(v) / t
  {
    if v != [] {
      var n := |v| - 1;
      SumOfQuotients(v[..n], w[..n], t);
      DivideSum(Sum(v[..n]), v[n], t);
    }
  }

  /** A normalised vector sums to 1. */
  lemma NormalizedSumsToOne(v: seq<real>)
    requires Normalize(v).Some?
    ensures Sum(Normalize(v).value) == 1.0
  {
    var t := Sum(v);
    SumOfQuotients(v, Normalize(v).value, t);
    SelfQuotient(t);
  }

  /** The weights `GeomWeights` returns sum to 1. */
  lemma GeomWeightsSumToOne(p: real, maxCn: nat, w: seq<real>)
    requires GeomTotal(p, maxCn) != 0.0 && |w| == maxCn
    requires forall i :: 0 <= i < maxCn ==> w[i] == GeomTerm(p, i + 1) / GeomTotal(p, maxCn)
    ensures Sum(w) == 1.0
  {
    var d := seq(maxCn, i requires 0 <= i < maxCn => GeomTerm(p, i + 1));
    var t := GeomTotal(p, maxCn);
    GeomPrefixTotal(p, d, maxCn);
    SumOfQuotients(d, w, t);
    SelfQuotient(t);
  }

  lemma {:induction false} GeomPrefixTotal(p: real, d: seq<real>, n: nat)
    requires |d| == n && forall i :: 0 <= i < n ==> d[i] == GeomTerm(p, i + 1)
    ensures Sum(d) == GeomTotal(p, n)
  {
    if n > 0 {
      GeomPrefixTotal(p, d[..n - 1], n - 1);
    }
  }

  lemma {:induction false} PowPositive(b: real, n: nat)
    requires b > 0.0
    ensures Pow(b, n) > 0.0
  {
    if n > 0 {
      PowPositive(b, n - 1);
      assert b * Pow(b, n - 1) > 0.0;
    }
  }

  /** For 0 < p < 1 every unnormalised weight is positive and each is smaller than the one before. */
  lemma {:induction false} GeomTermDecreasing(p: real, n: nat)
    requires 0.0 < p < 1.0
    ensures 0.0 < GeomTerm(p, n + 1) < GeomTerm(p, n)
  {
    var q := Pow(1.0 - p, n);
    PowPositive(1.0 - p, n);
    ShrinkByComplement(p, q, Pow(1.0 - p, n + 1), GeomTerm(p, n + 1), GeomTerm(p, n));
  }

  lemma {:induction false} ShrinkByComplement(p: real, q: real, q1: real, next: real, cur: real)
    requires 0.0 < p < 1.0 && q > 0.0
    requires q1 == (1.0 - p) * q && next == p * q1 && cur == p * q
    ensures 0.0 < next < cur
  {
    var b := 1.0 - p;
    assert b > 0.0;
    assert q1 == b * q;
    assert b * q > 0.0;
    assert q - q1 == p * q;
    assert next > 0.0;
    assert cur - next == p * (q - q1);
    assert p * (q - q1) > 0.0;
  }

  lemma {:induction false} GeomTotalPositive(p: real, maxCn: nat)
    requires 0.0 < p < 1.0 && maxCn >= 1
    ensures GeomTotal(p, maxCn) > 0.0
  {
    GeomTermDecreasing(p, maxCn - 1);
    if maxCn > 1 {
      GeomTotalPositive(p, maxCn - 1);
    } else {
      assert GeomTotal(p, 0) == 0.0;
    }
  }

  /**
   * For 0 < p < 1 the weights exist, are positive, and strictly decrease with
   * the copy number: copy number 1 is the most likely draw.
   */
  lemma GeomWeightsDecreasing(p: real, maxCn: nat, i: nat)
    requires 0.0 < p < 1.0 && i + 1 < maxCn
    ensures GeomTotal(p, maxCn) > 0.0
    ensures 0.0 < GeomTerm(p, i + 2) / GeomTotal(p, maxCn) < GeomTerm(p, i + 1) / GeomTotal(p, maxCn)
  {
    GeomTotalPositive(p, maxCn);
    GeomTermDecreasing(p, i + 1);
    DividePositive(GeomTerm(p, i + 2), GeomTerm(p, i + 1), GeomTotal(p, maxCn));
  }

  lemma {:induction false} DividePositive(a: real, b: real, t: real)
    requires 0.0 < a < b && t > 0.0
    ensures 0.0 < a / t < b / t
  {
    assert (a / t) * t == a && (b / t) * t == b;
  }

  // ---------------------------------------------------------------------------
  // The competition matrix

  /** `alpha[k,k] = 1` for the first n species; the rest of the matrix is untouched. */
  method SetDiagonal(alpha: array2<real>, n: nat)
    requires n <= alpha.Length0 && n <= alpha.Length1
    modifies alpha
    ensures forall k, j :: 0 <= k < alpha.Length0 && 0 <= j < alpha.Length1 ==>
      alpha[k, j] == if k == j && k < n then 1.0 else old(alpha[k, j])
  {
    for k := 0 to n
      invariant forall i, j :: 0 <= i < alpha.Length0 && 0 <= j < alpha.Length1 ==>
        alpha[i, j] == if i == j && i < k then 1.0 else old(alpha[i, j])
    {
      alpha[k, k] := 1.0;
    }
  }

  // ---------------------------------------------------------------------------
  // Aggregating a trial's final abundances

  /** Σ_{k<n} x[k]/b: the relative abundances of the first n species (`X/Biomass`). */
  function RelativeTotal(x: seq<real>, b: real, n: nat): (t: real)
    requires b != 0.0 && n <= |x|
  {
    if n == 0 then 0.0 else RelativeTotal(x, b, n - 1) + x[n - 1] / b
  }

  /** Σ_{k<n} cn[k]·(x[k]/b): the accumulation `WMCN[o,t] += copynums[k]*(X[k]/Biomass)`. */
  function MeanCopyNumber(cn: seq<nat>, x: seq<real>, b: real, n: nat): (w: real)
    requires b != 0.0 && n <= |cn| && n <= |x|
    ensures (forall k :: 0 <= k < n ==> cn[k] == 1) ==> w == RelativeTotal(x, b, n)
  {
    if n == 0 then 0.0 else MeanCopyNumber(cn, x, b, n - 1) + (cn[n - 1] as real) * (x[n - 1] / b)
  }

  /** Σ_{k<n, cn[k]=c} x[k]/b: `np.sum(rel_abunds[R==c])` over the first n species. */
  function CopyNumberShare(cn: seq<nat>, x: seq<real>, b: real, c: nat, n: nat): (share: real)
    requires b != 0.0 && n <= |cn| && n <= |x|
    ensures (forall k :: 0 <= k < n ==> cn[k] != c) ==> share == 0.0
    ensures (forall k :: 0 <= k < n ==> cn[k] == c) ==> share == RelativeTotal(x, b, n)
  {
    if n == 0 then 0.0
    else CopyNumberShare(cn, x, b, c, n - 1) + (if cn[n - 1] == c then x[n - 1] / b else 0.0)
  }

  /** One trial at one temperature: its WMCN and the relative abundance of each copy number 1..maxCn. */
  datatype TrialSummary = TrialSummary(wmcn: real, cnRelAbund: seq<real>)

  /**
   * The biomass is the sum of the final abundances; a zero biomass makes
   * every quotient NaN, `None` here. Otherwise WMCN is accumulated species by
   * species and the share of each copy number is summed over its species.
   */
  method AggregateTrial(x: seq<real>, cn: seq<nat>, maxCn: nat) returns (res: Option<TrialSummary>)
    requires |cn| == |x|
    ensures res.None? <==> Sum(x) == 0.0
    ensures res.Some? ==> res.value.wmcn == MeanCopyNumber(cn, x, Sum(x), |x|)
    ensures res.Some? ==> |res.value.cnRelAbund| == maxCn
    ensures res.Some? ==> forall c :: 0 <= c < maxCn ==>
      res.value.cnRelAbund[c] == CopyNumberShare(cn, x, Sum(x), c + 1, |x|)
  {
    var biomass := Sum(x);
    if biomass == 0.0 {
      return None;
    }
    var wmcn := 0.0;
    for k := 0 to |x|
      invariant wmcn == MeanCopyNumber(cn, x, biomass, k)
    {
      wmcn := wmcn + (cn[k] as real) * (x[k] / biomass);
    }
    var shares := new real[maxCn](_ => 0.0);
    for c := 0 to maxCn
      invariant forall i :: 0 <= i < c ==> shares[i] == CopyNumberShare(cn, x, biomass, i + 1, |x|)
    {
      shares[c] := CopyNumberShare(cn, x, biomass, c + 1, |x|);
    }
    res := Some(TrialSummary(wmcn, shares[..]));
  }

  /** The relative abundances sum to 1. */
  lemma {:induction false} RelativeTotalIsOne(x: seq<real>)
    requires Sum(x) != 0.0
    ensures RelativeTotal(x, Sum(x), |x|) == 1.0
  {
    RelativePrefix(x, Sum(x), |x|);
    assert x[..|x|] == x;
    SelfQuotient(Sum(x));
  }

  lemma {:induction false} RelativePrefix(x: seq<real>, b: real, n: nat)
    requires b != 0.0 && n <= |x|
    ensures RelativeTotal(x, b, n) == Sum(x[..n]) / b
  {
    if n > 0 {
      RelativePrefix(x, b, n - 1);
      assert x[..n][..n - 1] == x[..n - 1];
      DivideSum(Sum(x[..n - 1]), x[n - 1], b);
    }
  }

  lemma {:induction false} MeanCopyNumberBetween(cn: seq<nat>, x: seq<real>, b: real, n: nat, lo: real, hi: real)
    requires b > 0.0 && n <= |cn| && n <= |x|
    requires forall k :: 0 <= k < n ==> x[k] >= 0.0 && lo <= cn[k] as real <= hi
    ensures WeightedBetween(RelativeTotal(x, b, n), MeanCopyNumber(cn, x, b, n), lo, hi)
  {
    if n == 0 {
      ZeroBetween(RelativeTotal(x, b, n), MeanCopyNumber(cn, x, b, n), lo, hi);
    } else {
      var k := n - 1;
      MeanCopyNumberBetween(cn, x, b, k, lo, hi);
      NonNegativeQuotient(x[k], b);
      StepBetween(x[k] / b, cn[k] as real, RelativeTotal(x, b, k), MeanCopyNumber(cn, x, b, k),
        RelativeTotal(x, b, n), MeanCopyNumber(cn, x, b, n), lo, hi);
    }
  }

  lemma {:induction false} NonNegativeQuotient(a: real, b: real)
    ensures a >= 0.0 && b > 0.0 ==> a / b >= 0.0
  {
    if b > 0.0 {
      assert (a / b) * b == a;
    }
  }

  /**
   * With non-negative final abundances, a positive biomass and every copy
   * number in 1..maxCn, the trial's WMCN lies in [1, maxCn].
   */
  lemma TrialWmcnInRange(x: seq<real>, cn: seq<nat>, maxCn: nat)
    requires |cn| == |x| && Sum(x) > 0.0
    requires forall k :: 0 <= k < |x| ==> x[k] >= 0.0 && 1 <= cn[k] <= maxCn
    ensures 1.0 <= MeanCopyNumber(cn, x, Sum(x), |x|) <= maxCn as real
  {
    MeanCopyNumberBetween(cn, x, Sum(x), |x|, 1.0, maxCn as real);
    RelativeTotalIsOne(x);
  }

  /** Σ_{c<cc} CopyNumberShare(c+1): the shares of copy numbers 1..cc. */
  function SharesUpTo(cn: seq<nat>, x: seq<real>, b: real, cc: nat, n: nat): real
    requires b != 0.0 && n <= |cn| && n <= |x|
  {
    if cc == 0 then 0.0 else SharesUpTo(cn, x, b, cc - 1, n) + CopyNumberShare(cn, x, b, cc, n)
  }

  /** Counting species n adds its relative abundance to the one class it belongs to, if that class is counted. */
  lemma {:induction false} SharesAddSpecies(cn: seq<nat>, x: seq<real>, b: real, cc: nat, n: nat)
    requires b != 0.0 && n < |cn| && n < |x|
    ensures SharesUpTo(cn, x, b, cc, n + 1)
         == SharesUpTo(cn, x, b, cc, n) + (if 1 <= cn[n] <= cc then x[n] / b else 0.0)
  {
    if cc > 0 {
      SharesAddSpecies(cn, x, b, cc - 1, n);
    }
  }

  lemma {:induction false} SharesCoverAll(cn: seq<nat>, x: seq<real>, b: real, maxCn: nat, n: nat)
    requires b != 0.0 && n <= |cn| && n <= |x|
    requires forall k :: 0 <= k < n ==> 1 <= cn[k] <= maxCn
    ensures SharesUpTo(cn, x, b, maxCn, n) == RelativeTotal(x, b, n)
  {
    if n == 0 {
      SharesOfNothing(cn, x, b, maxCn);
    } else {
      SharesCoverAll(cn, x, b, maxCn, n - 1);
      SharesAddSpecies(cn, x, b, maxCn, n - 1);
    }
  }

  lemma {:induction false} SharesOfNothing(cn: seq<nat>, x: seq<real>, b: real, cc: nat)
    requires b != 0.0
    ensures SharesUpTo(cn, x, b, cc, 0) == 0.0
  {
    if cc > 0 {
      SharesOfNothing(cn, x, b, cc - 1);
    }
  }

  lemma {:induction false} SumOfShares(cn: seq<nat>, x: seq<real>, b: real, w: seq<real>, cc: nat)
    requires b != 0.0 && |cn| == |x| && cc <= |w|
    requires forall c :: 0 <= c < |w| ==> w[c] == CopyNumberShare(cn, x, b, c + 1, |x|)
    ensures Sum(w[..cc]) == SharesUpTo(cn, x, b, cc, |x|)
  {
    if cc > 0 {
      SumOfShares(cn, x, b, w, cc - 1);
      assert w[..cc][..cc - 1] == w[..cc - 1];
    }
  }

  /**
   * When every copy number lies in 1..maxCn, the per-copy-number relative
   * abundances of a trial sum to 1.
   */
  lemma CnRelAbundSumToOne(x: seq<real>, cn: seq<nat>, maxCn: nat, w: seq<real>)
    requires |cn| == |x| && Sum(x) != 0.0 && |w| == maxCn
    requires forall k :: 0 <= k < |x| ==> 1 <= cn[k] <= maxCn
    requires forall c :: 0 <= c < maxCn ==> w[c] == CopyNumberShare(cn, x, Sum(x), c + 1, |x|)
    ensures Sum(w) == 1.0
  {
    SumOfShares(cn, x, Sum(x), w, maxCn);
    assert w[..maxCn] == w;
    SharesCoverAll(cn, x, Sum(x), maxCn, |x|);
    RelativeTotalIsOne(x);
  }

  // ---------------------------------------------------------------------------
  // Bootstrap fit of p

  /**
   * The simulated WMCN for each (temperature, p) pair; it stands for the
   * simulation table looked up by rounded temperature and rounded p.
   */
  type SimGrid = map<(real, real), real>

  /** The observed WMCNs and temperatures, and one replicate's drawn sample indices. */
  predicate Draws(wmcns: seq<real>, temps: seq<real>, draw: seq<nat>) {
    |wmcns| == |temps| && forall k :: 0 <= k < |draw| ==> draw[k] < |wmcns|
  }

  /** Every lookup of the replicate finds its key: each drawn temperature with each p. */
  predicate Covered(temps: seq<real>, draw: seq<nat>, grid: SimGrid, pRange: seq<real>)
    requires forall k :: 0 <= k < |draw| ==> draw[k] < |temps|
  {
    forall k, j :: 0 <= k < |draw| && 0 <= j < |pRange| ==> (temps[draw[k]], pRange[j]) in grid
  }

  function Square(d: real): real {
    d * d
  }

  /** Σ over the first n draws of (observed − simulated WMCN at p)²: `track_rms_error[j]`. */
  function SquaredError(wmcns: seq<real>, temps: seq<real>, draw: seq<nat>, grid: SimGrid, p: real, n: nat): (e: real)
    requires Draws(wmcns, temps, draw) && n <= |draw|
    requires forall k :: 0 <= k < n ==> (temps[draw[k]], p) in grid
  {
    if n == 0 then 0.0
    else
      var i := draw[n - 1];
      SquaredError(wmcns, temps, draw, grid, p, n - 1) + Square(wmcns[i] - grid[(temps[i], p)])
  }

  /** The accumulated error of every p of the range. */
  function Errors(wmcns: seq<real>, temps: seq<real>, draw: seq<nat>, grid: SimGrid, pRange: seq<real>): (e: seq<real>)
    requires Draws(wmcns, temps, draw) && Covered(temps, draw, grid, pRange)
    ensures |e| == |pRange|
    ensures forall j :: 0 <= j < |pRange| ==> e[j] == SquaredError(wmcns, temps, draw, grid, pRange[j], |draw|)
  {
    seq(|pRange|, j requires 0 <= j < |pRange| => SquaredError(wmcns, temps, draw, grid, pRange[j], |draw|))
  }

  /**
   * One replicate's estimate and its error: p at the first minimum of the
   * accumulated squared error, and that minimum. A failed lookup (a KeyError)
   * or an empty range (the minimum of an empty list) gives `None`.
   */
  function ReplicateFit(wmcns: seq<real>, temps: seq<real>, draw: seq<nat>, grid: SimGrid, pRange: seq<real>): (fit: Option<(real, real)>)
    requires Draws(wmcns, temps, draw)
    ensures fit.None? <==> pRange == [] || !Covered(temps, draw, grid, pRange)
    ensures fit.Some? ==> exists i :: 0 <= i < |pRange| && fit.value.0 == pRange[i] && Fits(wmcns, temps, draw, grid, pRange, i, fit.value.1)
  {
    if pRange == [] || !Covered(temps, draw, grid, pRange) then None
    else
      var e := Errors(wmcns, temps, draw, grid, pRange);
      var i := FirstMinIndex(e);
      assert Fits(wmcns, temps, draw, grid, pRange, i, e[i]);
      Some((pRange[i], e[i]))
  }

  /** p_range[i] has error `err`, no p has a smaller error, and every earlier p has a larger one. */
  predicate Fits(wmcns: seq<real>, temps: seq<real>, draw: seq<nat>, grid: SimGrid, pRange: seq<real>, i: nat, err: real)
    requires Draws(wmcns, temps, draw) && Covered(temps, draw, grid, pRange) && i < |pRange|
  {
    err == SquaredError(wmcns, temps, draw, grid, pRange[i], |draw|) &&
    (forall j :: 0 <= j < |pRange| ==> err <= SquaredError(wmcns, temps, draw, grid, pRange[j], |draw|)) &&
    (forall j :: 0 <= j < i ==> err < SquaredError(wmcns, temps, draw, grid, pRange[j], |draw|))
  }

  /**
   * The loop of one bootstrap replicate: for each drawn sample, the squared
   * error against every p is added to `track_rms_error`, then the first
   * minimum is picked.
   */
  method BootstrapReplicate(wmcns: seq<real>, temps: seq<real>, draw: seq<nat>, grid: SimGrid, pRange: seq<real>)
    returns (fit: Option<(real, real)>)
    requires Draws(wmcns, temps, draw)
    ensures fit == ReplicateFit(wmcns, temps, draw, grid, pRange)
  {
    var track := new real[|pRange|](_ => 0.0);
    for k := 0 to |draw|
      invariant forall k', j :: 0 <= k' < k && 0 <= j < |pRange| ==> (temps[draw[k']], pRange[j]) in grid
      invariant forall j :: 0 <= j < |pRange| ==> track[j] == SquaredError(wmcns, temps, draw, grid, pRange[j], k)
    {
      var i := draw[k];
      for j := 0 to |pRange|
        invariant forall k', l :: 0 <= k' < k && 0 <= l < |pRange| ==> (temps[draw[k']], pRange[l]) in grid
        invariant forall l :: 0 <= l < j ==> (temps[i], pRange[l]) in grid
        invariant forall l :: 0 <= l < j ==> track[l] == SquaredError(wmcns, temps, draw, grid, pRange[l], k + 1)
        invariant forall l :: j <= l < |pRange| ==> track[l] == SquaredError(wmcns, temps, draw, grid, pRange[l], k)
      {
        var key := (temps[i], pRange[j]);
        if key !in grid {
          assert !Covered(temps, draw, grid, pRange);
          return None;
        }
        track[j] := track[j] + Square(wmcns[i] - grid[key]);
      }
    }
    if |pRange| == 0 {
      return None;
    }
    var e := track[..];
    assert e == Errors(wmcns, temps, draw, grid, pRange);
    var best := FirstMinIndex(e);
    fit := Some((pRange[best], e[best]));
  }

  /**
   * `bootstrap_p` up to the summary statistics: one (estimate, error) pair per
   * replicate, or `None` when a replicate fails.
   */
  method BootstrapP(wmcns: seq<real>, temps: seq<real>, draws: seq<seq<nat>>, grid: SimGrid, pRange: seq<real>)
    returns (res: Option<(seq<real>, seq<real>)>)
    requires forall o :: 0 <= o < |draws| ==> Draws(wmcns, temps, draws[o])
    ensures res.None? <==> exists o :: 0 <= o < |draws| && ReplicateFit(wmcns, temps, draws[o], grid, pRange).None?
    ensures res.Some? ==> |res.value.0| == |draws| && |res.value.1| == |draws|
    ensures res.Some? ==> forall o :: 0 <= o < |draws| ==>
      ReplicateFit(wmcns, temps, draws[o], grid, pRange) == Some((res.value.0[o], res.value.1[o]))
  {
    var pEst, minError := [], [];
    for o := 0 to |draws|
      invariant |pEst| == o && |minError| == o
      invariant forall q :: 0 <= q < o ==> ReplicateFit(wmcns, temps, draws[q], grid, pRange) == Some((pEst[q], minError[q]))
    {
      var fit := BootstrapReplicate(wmcns, temps, draws[o], grid, pRange);
      if fit.None? {
        return None;
      }
      pEst, minError := pEst + [fit.value.0], minError + [fit.value.1];
    }
    res := Some((pEst, minError));
  }

  // ---------------------------------------------------------------------------
  // Initial state of the consumer-resource sweep

  /** `No = start_density + np.zeros(num_species+num_resource)`. */
  method InitialAbundances(s: nat, m: nat, startDensity: real) returns (no: array<real>)
    ensures fresh(no) && no.Length == s + m
    ensures forall i :: 0 <= i < s + m ==> no[i] == startDensity
  {
    no := new real[s + m](_ => startDensity);
  }

  /** `No[j+num_species] = Co[0]` for every resource j; the species entries are untouched. */
  method SupplyResources(no: array<real>, s: nat, m: nat, conc: real)
    requires s + m <= no.Length
    modifies no
    ensures forall i :: 0 <= i < no.Length ==> no[i] == if s <= i < s + m then conc else old(no[i])
  {
    for j := 0 to m
      invariant forall i :: 0 <= i < no.Length ==> no[i] == if s <= i < s + j then conc else old(no[i])
    {
      no[j + s] := conc;
    }
  }

  /**
   * The initial state handed to the integrator at each supply concentration
   * of the sweep: `No` is reused from step to step, and at step c its species
   * hold the starting density and its resources the supply concentration c.
   */
  method SweepInitialStates(s: nat, m: nat, startDensity: real, rConc: seq<real>) returns (states: seq<seq<real>>)
    ensures |states| == |rConc|
    ensures forall c :: 0 <= c < |rConc| ==> |states[c]| == s + m
    ensures forall c, i :: 0 <= c < |rConc| && 0 <= i < |states[c]| ==>
      states[c][i] == if i < s then startDensity else rConc[c]
  {
    var no := InitialAbundances(s, m, startDensity);
    states := [];
    for c := 0 to |rConc|
      invariant |states| == c
      invariant forall i :: 0 <= i < s ==> no[i] == startDensity
      invariant forall q :: 0 <= q < c ==> |states[q]| == s + m
      invariant forall q, i :: 0 <= q < c && 0 <= i < |states[q]| ==>
        states[q][i] == if i < s then startDensity else rConc[q]
    {
      SupplyResources(no, s, m, rConc[c]);
      states := states + [no[..]];
    }
  }
}
