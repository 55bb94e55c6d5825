/**
 * Community-level metrics of one sample: the weighted mean copy number (WMCN,
 * the abundance-weighted harmonic mean of the 16S copy numbers, which turns read
 * counts into cell counts) and the weighted mean growth rate (WMGR), each over
 * the whole community and over a few subsets of it, written into the sample
 * metadata table.
 *
 * Real numbers are exact; a NaN cell is `None`. A quotient whose denominator is
 * zero (0/0 is NaN in numpy) is `None`.
 */
module CommunityMetrics {
  import opened Wrappers
  import CopyNumbers
  import opened RealArith

  // ---------------------------------------------------------------------------
  // The abundance table

  /** One OTU row: the columns the metrics read, and its abundance in each sample column. */
  datatype TaxonRow = TaxonRow(
    order: Option<string>,
    copyNumber: Option<real>,
    growthRate: Option<real>,
    phototroph: Option<real>,
    abundance: map<string, real>)

  /** The row filters: the four subsets, and the two not-NaN steps applied after them. */
  datatype Mask = All | NoSar11 | NoCn1 | Copio | Heterotrophs | HasCopyNumber | HasGrowthRate

  /** The growth rate above which an OTU counts as a copiotroph. */
  const CopioThreshold: real := 0.1386

  /**
   * pandas comparisons: `!=` on a NaN Order is true (the row stays), `>` and `==`
   * against NaN are false (the row goes).
   */
  predicate Keeps(m: Mask, r: TaxonRow)
    ensures Keeps(m, r) && m in {NoCn1, HasCopyNumber} ==> r.copyNumber.Some?
    ensures Keeps(m, r) && m in {Copio, HasGrowthRate} ==> r.growthRate.Some?
    ensures Keeps(m, r) && m == Heterotrophs ==> r.phototroph.Some?
    ensures m == NoSar11 && r.order.None? ==> Keeps(m, r)
  {
    match m
    case All => true
    case NoSar11 =>
      r.order != Some("SAR11_clade") && r.order != Some("SAR11 clade") && r.order != Some("Pelagibacterales")
    case NoCn1 => r.copyNumber.Some? && r.copyNumber.value > 1.0
    case Copio => r.growthRate.Some? && r.growthRate.value > CopioThreshold
    case Heterotrophs => r.phototroph == Some(0.0)
    case HasCopyNumber => r.copyNumber.Some?
    case HasGrowthRate => r.growthRate.Some?
  }

  /** `df[mask]`: the rows the mask keeps, in their order. */
  function Filter(rows: seq<TaxonRow>, m: Mask): (r: seq<TaxonRow>)
    ensures |r| <= |rows|
    ensures forall x :: x in r <==> x in rows && Keeps(m, x)
  {
    if rows == [] then []
    else (if Keeps(m, rows[0]) then [rows[0]] else []) + Filter(rows[1..], m)
  }

  /** `df[mask]` keeps each row the mask accepts as often as it occurs, and no other row. */
  lemma {:induction false} FilterMultiplicity(rows: seq<TaxonRow>, m: Mask)
    ensures forall x :: multiset(Filter(rows, m))[x] == if Keeps(m, x) then multiset(rows)[x] else 0
  {
    if rows != [] {
      FilterMultiplicity(rows[1..], m);
      assert rows == [rows[0]] + rows[1..];
    }
  }

  /** Every row has an abundance in column `s`. */
  predicate HasSample(rows: seq<TaxonRow>, s: string) {
    forall r :: r in rows ==> s in r.abundance
  }

  /** No copy number is zero (a copy number is a mean number of gene copies, at least 1). */
  predicate NonzeroCopyNumbers(rows: seq<TaxonRow>) {
    forall r :: r in rows && r.copyNumber.Some? ==> r.copyNumber.value != 0.0
  }

  /** `np.sum(df[s])`. */
  function AbundanceSum(rows: seq<TaxonRow>, s: string): real
    requires HasSample(rows, s)
  {
    if rows == [] then 0.0
    else rows[0].abundance[s] + AbundanceSum(rows[1..], s)
  }

  /** `np.sum(df[s] / df['Copy Number'])`: the estimated number of cells. */
  function PerCopySum(rows: seq<TaxonRow>, s: string): real
    requires HasSample(rows, s) && NonzeroCopyNumbers(rows)
    requires forall r :: r in rows ==> r.copyNumber.Some?
  {
    if rows == [] then 0.0
    else rows[0].abundance[s] / rows[0].copyNumber.value + PerCopySum(rows[1..], s)
  }

  /** `np.sum(df[s] * df['Growth Rate'])`. */
  function GrowthWeightedSum(rows: seq<TaxonRow>, s: string): real
    requires HasSample(rows, s)
    requires forall r :: r in rows ==> r.growthRate.Some?
  {
    if rows == [] then 0.0
    else rows[0].abundance[s] * rows[0].growthRate.value + GrowthWeightedSum(rows[1..], s)
  }

  /** Division as numpy does it on finite floats, with a zero denominator giving NaN. */
  function Quotient(n: real, d: real): (q: Option<real>)
    ensures q.None? <==> d == 0.0
    ensures q.Some? ==> q.value * d == n
  {
    if d == 0.0 then None else Some(n / d)
  }

  /** The rows a WMCN is computed over: the subset, then the rows with a copy number. */
  function CnRows(rows: seq<TaxonRow>, sub: Mask): (c: seq<TaxonRow>)
    ensures forall x :: x in c <==> x in rows && Keeps(sub, x) && x.copyNumber.Some?
  {
    Filter(Filter(rows, sub), HasCopyNumber)
  }

  /** The rows a WMGR is computed over: the subset, then the rows with a growth rate. */
  function GrowthRows(rows: seq<TaxonRow>, sub: Mask): (g: seq<TaxonRow>)
    ensures forall x :: x in g <==> x in rows && Keeps(sub, x) && x.growthRate.Some?
  {
    Filter(Filter(rows, sub), HasGrowthRate)
  }

  /**
   * The rows behind each metric keep their multiplicity: a row of the subset
   * with a copy number (a growth rate) counts as often as it occurs in the table.
   */
  lemma MetricRowsMultiplicity(rows: seq<TaxonRow>, sub: Mask)
    ensures forall x ::
      multiset(CnRows(rows, sub))[x] == if Keeps(sub, x) && x.copyNumber.Some? then multiset(rows)[x] else 0
    ensures forall x ::
      multiset(GrowthRows(rows, sub))[x] == if Keeps(sub, x) && x.growthRate.Some? then multiset(rows)[x] else 0
  {
    FilterMultiplicity(rows, sub);
    FilterMultiplicity(Filter(rows, sub), HasCopyNumber);
    FilterMultiplicity(Filter(rows, sub), HasGrowthRate);
  }

  /** Total abundance over estimated cell count, among the subset's rows with a copy number. */
  function Wmcn(rows: seq<TaxonRow>, sub: Mask, s: string): (w: Option<real>)
    requires HasSample(rows, s) && NonzeroCopyNumbers(rows)
    ensures w.None? <==> PerCopySum(CnRows(rows, sub), s) == 0.0
    ensures w.Some? ==> w.value * PerCopySum(CnRows(rows, sub), s) == AbundanceSum(CnRows(rows, sub), s)
  {
    var c := CnRows(rows, sub);
    Quotient(AbundanceSum(c, s), PerCopySum(c, s))
  }

  /** Abundance-weighted mean growth rate among the subset's rows with a growth rate. */
  function Wmgr(rows: seq<TaxonRow>, sub: Mask, s: string): (w: Option<real>)
    requires HasSample(rows, s)
    ensures w.None? <==> AbundanceSum(GrowthRows(rows, sub), s) == 0.0
    ensures w.Some? ==>
      w.value * AbundanceSum(GrowthRows(rows, sub), s) == GrowthWeightedSum(GrowthRows(rows, sub), s)
  {
    var g := GrowthRows(rows, sub);
    Quotient(GrowthWeightedSum(g, s), AbundanceSum(g, s))
  }

  // ---------------------------------------------------------------------------
  // What the metrics mean

  /** A sample holding one OTU with a copy number has that copy number as its WMCN. */
  lemma SingleTaxonWmcn(r: TaxonRow, s: string)
    requires s in r.abundance && r.abundance[s] != 0.0
    requires r.copyNumber.Some? && r.copyNumber.value != 0.0
    ensures Wmcn([r], All, s) == Some(r.copyNumber.value)
  {
    assert [r][1..] == [];
    assert Filter([r], All) == [r];
    assert Filter([r], HasCopyNumber) == [r];
    var a, c := r.abundance[s], r.copyNumber.value;
    assert AbundanceSum([r], s) == a;
    assert PerCopySum([r], s) == a / c;
    assert CnRows([r], All) == [r];
    assert a / (a / c) == c by {
      assert a / c != 0.0;
      assert c * (a / c) == a;
    }
  }

  /** With non-negative abundances and copy numbers in [lo, hi], the cell count lies in [total/hi, total/lo]. */
  lemma {:induction false} PerCopySumBounds(rows: seq<TaxonRow>, s: string, lo: real, hi: real)
    requires HasSample(rows, s) && NonzeroCopyNumbers(rows) && forall r :: r in rows ==> r.copyNumber.Some?
    requires 0.0 < lo <= hi
    requires forall r :: r in rows ==> r.abundance[s] >= 0.0 && lo <= r.copyNumber.value <= hi
    ensures AbundanceSum(rows, s) / hi <= PerCopySum(rows, s) <= AbundanceSum(rows, s) / lo
  {
    if rows != [] {
      assert forall r :: r in rows[1..] ==> r in rows;
      PerCopySumBounds(rows[1..], s, lo, hi);
      var a, c := rows[0].abundance[s], rows[0].copyNumber.value;
      var rest := AbundanceSum(rows[1..], s);
      assert rows[0] in rows;
      DivideByLarger(a, c, hi);
      DivideByLarger(a, lo, c);
      DivideSum(a, rest, hi);
      DivideSum(a, rest, lo);
    }
  }

  /**
   * WMCN is a mean of the copy numbers: with non-negative abundances, some of
   * them positive, and every copy number in [lo, hi], it lies in [lo, hi].
   */
  lemma WmcnBounds(rows: seq<TaxonRow>, sub: Mask, s: string, lo: real, hi: real)
    requires HasSample(rows, s) && NonzeroCopyNumbers(rows)
    requires 0.0 < lo <= hi
    requires forall r :: r in CnRows(rows, sub) ==> r.abundance[s] >= 0.0 && lo <= r.copyNumber.value <= hi
    requires AbundanceSum(CnRows(rows, sub), s) > 0.0
    ensures Wmcn(rows, sub, s).Some?
    ensures lo <= Wmcn(rows, sub, s).value <= hi
  {
    var c := CnRows(rows, sub);
    PerCopySumBounds(c, s, lo, hi);
    HarmonicBetween(AbundanceSum(c, s), PerCopySum(c, s), lo, hi);
  }

  /** A total over a cell count that lies in [total/hi, total/lo] lies in [lo, hi]. */
  lemma {:induction false} HarmonicBetween(a: real, d: real, lo: real, hi: real)
    requires a > 0.0 && 0.0 < lo <= hi
    requires a / hi <= d <= a / lo
    ensures Quotient(a, d).Some? && lo <= Quotient(a, d).value <= hi
  {
    ScaleAbove(a / hi, d, hi, a);
    ScaleAbove(d, a / lo, lo, a);
    QuotientBetween(a, d, lo, hi);
  }

  /** A quotient whose numerator lies in [lo·d, hi·d] for a positive d lies in [lo, hi]. */
  lemma {:induction false} QuotientBetween(n: real, d: real, lo: real, hi: real)
    requires d > 0.0 && WeightedBetween(d, n, lo, hi)
    ensures Quotient(n, d).Some? && lo <= Quotient(n, d).value <= hi
  {
    var w := n / d;
    assert w * d == n;
    assert (w - lo) * d >= 0.0;
    assert (hi - w) * d >= 0.0;
  }

  /** With non-negative abundances and growth rates in [lo, hi], the weighted sum lies in [lo·total, hi·total]. */
  lemma {:induction false} GrowthWeightedSumBounds(rows: seq<TaxonRow>, s: string, lo: real, hi: real)
    requires HasSample(rows, s) && forall r :: r in rows ==> r.growthRate.Some?
    requires forall r :: r in rows ==> r.abundance[s] >= 0.0 && lo <= r.growthRate.value <= hi
    ensures WeightedBetween(AbundanceSum(rows, s), GrowthWeightedSum(rows, s), lo, hi)
  {
    if rows != [] {
      var head, tail := rows[0], rows[1..];
      assert forall r :: r in tail ==> r in rows;
      assert head in rows;
      GrowthWeightedSumBounds(tail, s, lo, hi);
      var a, g := head.abundance[s], head.growthRate.value;
      StepBetween(a, g, AbundanceSum(tail, s), GrowthWeightedSum(tail, s),
        AbundanceSum(rows, s), GrowthWeightedSum(rows, s), lo, hi);
    } else {
      ZeroBetween(AbundanceSum(rows, s), GrowthWeightedSum(rows, s), lo, hi);
    }
  }

  /** WMGR is a mean of the growth rates: it lies between the smallest and the largest. */
  lemma WmgrBounds(rows: seq<TaxonRow>, sub: Mask, s: string, lo: real, hi: real)
    requires HasSample(rows, s)
    requires forall r :: r in GrowthRows(rows, sub) ==> r.abundance[s] >= 0.0 && lo <= r.growthRate.value <= hi
    requires AbundanceSum(GrowthRows(rows, sub), s) > 0.0
    ensures Wmgr(rows, sub, s).Some?
    ensures lo <= Wmgr(rows, sub, s).value <= hi
  {
    var g := GrowthRows(rows, sub);
    GrowthWeightedSumBounds(g, s, lo, hi);
    QuotientBetween(GrowthWeightedSum(g, s), AbundanceSum(g, s), lo, hi);
  }

  /** Two OTUs of equal abundance: WMGR is the plain mean of their growth rates. */
  lemma EqualAbundancesWmgr(r1: TaxonRow, r2: TaxonRow, s: string)
    requires s in r1.abundance && s in r2.abundance && r1.abundance[s] == r2.abundance[s] != 0.0
    requires r1.growthRate.Some? && r2.growthRate.Some?
    ensures Wmgr([r1, r2], All, s) == Some((r1.growthRate.value + r2.growthRate.value) / 2.0)
  {
    var rows := [r1, r2];
    assert rows[1..] == [r2] && [r2][1..] == [];
    assert Filter([r2], All) == [r2] && Filter(rows, All) == rows;
    assert Filter([r2], HasGrowthRate) == [r2] && Filter(rows, HasGrowthRate) == rows;
    var a, g1, g2 := r1.abundance[s], r1.growthRate.value, r2.growthRate.value;
    assert AbundanceSum([r2], s) == a;
    assert GrowthWeightedSum([r2], s) == r2.abundance[s] * g2 + GrowthWeightedSum([], s);
    assert AbundanceSum(rows, s) == a + a;
    assert GrowthWeightedSum(rows, s) == a * g1 + a * g2;
    MeanOfTwo(a, g1, g2);
  }

  lemma {:induction false} MeanOfTwo(a: real, g1: real, g2: real)
    requires a != 0.0
    ensures (a * g1 + a * g2) / (a + a) == (g1 + g2) / 2.0
  {
    assert a * g1 + a * g2 == (a + a) * ((g1 + g2) / 2.0);
  }

  /** A subset that keeps no row has no metric: the cell stays NaN. */
  lemma EmptySubsetIsNan(rows: seq<TaxonRow>, sub: Mask, s: string)
    requires HasSample(rows, s) && NonzeroCopyNumbers(rows)
    requires forall r :: r in rows ==> !Keeps(sub, r)
    ensures Wmcn(rows, sub, s).None? && Wmgr(rows, sub, s).None?
  {
  }

  // ---------------------------------------------------------------------------
  // Only relative abundance matters

  /** A row with its abundance in column `s` multiplied by `c`. */
  function ScaleRow(r: TaxonRow, s: string, c: real): (x: TaxonRow)
    requires s in r.abundance
    ensures s in x.abundance && x.abundance[s] == c * r.abundance[s]
    ensures x.order == r.order && x.copyNumber == r.copyNumber
    ensures x.growthRate == r.growthRate && x.phototroph == r.phototroph
  {
    r.(abundance := r.abundance[s := c * r.abundance[s]])
  }

  /** The rows with their abundance in column `s` multiplied by `c`. */
  function Scale(rows: seq<TaxonRow>, s: string, c: real): (r: seq<TaxonRow>)
    requires HasSample(rows, s)
    ensures |r| == |rows| && HasSample(r, s)
    ensures forall i :: 0 <= i < |rows| ==> r[i] == ScaleRow(rows[i], s, c)
  {
    if rows == [] then [] else [ScaleRow(rows[0], s, c)] + Scale(rows[1..], s, c)
  }

  lemma {:induction false} FilterScale(rows: seq<TaxonRow>, m: Mask, s: string, c: real)
    requires HasSample(rows, s)
    ensures HasSample(Filter(rows, m), s)
    ensures Filter(Scale(rows, s, c), m) == Scale(Filter(rows, m), s, c)
  {
    if rows != [] {
      var sc := Scale(rows, s, c);
      assert sc[1..] == Scale(rows[1..], s, c);
      assert Keeps(m, sc[0]) == Keeps(m, rows[0]);
      FilterScale(rows[1..], m, s, c);
      var rest := Filter(rows[1..], m);
      if Keeps(m, rows[0]) {
        assert Filter(rows, m) == [rows[0]] + rest;
        assert ([rows[0]] + rest)[1..] == rest;
      } else {
        assert Filter(rows, m) == rest;
      }
    }
  }

  lemma {:induction false} AbundanceSumScale(rows: seq<TaxonRow>, s: string, c: real)
    requires HasSample(rows, s)
    ensures AbundanceSum(Scale(rows, s, c), s) == c * AbundanceSum(rows, s)
  {
    if rows != [] {
      assert Scale(rows, s, c)[1..] == Scale(rows[1..], s, c);
      AbundanceSumScale(rows[1..], s, c);
    }
  }

  /** Scaling touches only the abundances: each scaled row has an unscaled original with the same columns. */
  lemma ScaleKeepsColumns(rows: seq<TaxonRow>, s: string, c: real)
    requires HasSample(rows, s)
    ensures forall x :: x in Scale(rows, s, c) ==>
      exists y :: y in rows && y.copyNumber == x.copyNumber && y.growthRate == x.growthRate
  {
    var sc := Scale(rows, s, c);
    forall x | x in sc
      ensures exists y :: y in rows && y.copyNumber == x.copyNumber && y.growthRate == x.growthRate
    {
      var i :| 0 <= i < |sc| && sc[i] == x;
      assert rows[i] in rows;
    }
  }

  /** Scaling keeps every growth rate. */
  lemma ScaleKeepsGrowth(rows: seq<TaxonRow>, s: string, c: real)
    requires HasSample(rows, s) && forall r :: r in rows ==> r.growthRate.Some?
    ensures forall r :: r in Scale(rows, s, c) ==> r.growthRate.Some?
  {
    ScaleKeepsColumns(rows, s, c);
  }

  /** Scaling keeps every copy number, and keeps them nonzero. */
  lemma ScaleKeepsCopyNumbers(rows: seq<TaxonRow>, s: string, c: real)
    requires HasSample(rows, s) && NonzeroCopyNumbers(rows) && forall r :: r in rows ==> r.copyNumber.Some?
    ensures NonzeroCopyNumbers(Scale(rows, s, c)) && forall r :: r in Scale(rows, s, c) ==> r.copyNumber.Some?
  {
    ScaleKeepsColumns(rows, s, c);
  }

  /**
   * `sc` is `rows` with every abundance in column `s` multiplied by `c` and the
   * other columns kept, stated head first so that each step sees one product.
   */
  predicate AbundancesScaled(sc: seq<TaxonRow>, rows: seq<TaxonRow>, s: string, c: real)
    requires HasSample(sc, s) && HasSample(rows, s)
  {
    |sc| == |rows| &&
    (rows != [] ==>
      sc[0].abundance[s] == c * rows[0].abundance[s] &&
      sc[0].copyNumber == rows[0].copyNumber && sc[0].growthRate == rows[0].growthRate &&
      AbundancesScaled(sc[1..], rows[1..], s, c))
  }

  lemma {:induction false} ScaleIsScaled(rows: seq<TaxonRow>, s: string, c: real)
    requires HasSample(rows, s)
    ensures AbundancesScaled(Scale(rows, s, c), rows, s, c)
  {
    if rows != [] {
      var sc := Scale(rows, s, c);
      assert sc[1..] == Scale(rows[1..], s, c);
      assert sc[0] == ScaleRow(rows[0], s, c);
      ScaleIsScaled(rows[1..], s, c);
    }
  }

  lemma GrowthWeightedSumScale(rows: seq<TaxonRow>, s: string, c: real)
    requires HasSample(rows, s) && forall r :: r in rows ==> r.growthRate.Some?
    ensures forall r :: r in Scale(rows, s, c) ==> r.growthRate.Some?
    ensures GrowthWeightedSum(Scale(rows, s, c), s) == c * GrowthWeightedSum(rows, s)
  {
    ScaleKeepsGrowth(rows, s, c);
    ScaleIsScaled(rows, s, c);
    ScaledGrowthWeightedSum(rows, Scale(rows, s, c), s, c);
  }

  /** The growth-weighted sum of rows whose abundances are those of `rows` times c. */
  lemma {:induction false} ScaledGrowthWeightedSum(rows: seq<TaxonRow>, sc: seq<TaxonRow>, s: string, c: real)
    requires HasSample(rows, s) && forall r :: r in rows ==> r.growthRate.Some?
    requires HasSample(sc, s) && forall r :: r in sc ==> r.growthRate.Some?
    requires AbundancesScaled(sc, rows, s, c)
    ensures GrowthWeightedSum(sc, s) == c * GrowthWeightedSum(rows, s)
  {
    if rows == [] {
      assert GrowthWeightedSum(sc, s) == 0.0 && GrowthWeightedSum(rows, s) == 0.0;
      assert c * 0.0 == 0.0;
    } else {
      ScaledGrowthWeightedSum(rows[1..], sc[1..], s, c);
      assert rows[0] in rows && sc[0] in sc;
      ProductStep(rows[0].abundance[s], rows[0].growthRate.value, c, sc[0].abundance[s],
        GrowthWeightedSum(rows[1..], s), GrowthWeightedSum(sc[1..], s),
        GrowthWeightedSum(rows, s), GrowthWeightedSum(sc, s));
    }
  }

  /** One step of a weighted sum whose weights are all multiplied by c. */
  lemma {:induction false} ProductStep(a: real, g: real, c: real, x: real, rest: real, rest2: real, total: real, total2: real)
    requires x == c * a && rest2 == c * rest
    requires total == a * g + rest && total2 == x * g + rest2
    ensures total2 == c * total
  {
  }

  lemma PerCopySumScale(rows: seq<TaxonRow>, s: string, c: real)
    requires HasSample(rows, s) && NonzeroCopyNumbers(rows) && forall r :: r in rows ==> r.copyNumber.Some?
    ensures NonzeroCopyNumbers(Scale(rows, s, c)) && forall r :: r in Scale(rows, s, c) ==> r.copyNumber.Some?
    ensures PerCopySum(Scale(rows, s, c), s) == c * PerCopySum(rows, s)
  {
    ScaleKeepsCopyNumbers(rows, s, c);
    ScaleIsScaled(rows, s, c);
    ScaledPerCopySum(rows, Scale(rows, s, c), s, c);
  }

  /** The cell count of rows whose abundances are those of `rows` times c. */
  lemma {:induction false} ScaledPerCopySum(rows: seq<TaxonRow>, sc: seq<TaxonRow>, s: string, c: real)
    requires HasSample(rows, s) && NonzeroCopyNumbers(rows) && forall r :: r in rows ==> r.copyNumber.Some?
    requires HasSample(sc, s) && NonzeroCopyNumbers(sc) && forall r :: r in sc ==> r.copyNumber.Some?
    requires AbundancesScaled(sc, rows, s, c)
    ensures PerCopySum(sc, s) == c * PerCopySum(rows, s)
  {
    if rows == [] {
      assert PerCopySum(sc, s) == 0.0 && PerCopySum(rows, s) == 0.0;
      assert c * 0.0 == 0.0;
    } else {
      ScaledPerCopySum(rows[1..], sc[1..], s, c);
      assert rows[0] in rows && sc[0] in sc;
      QuotientStep(rows[0].abundance[s], rows[0].copyNumber.value, c, sc[0].abundance[s],
        PerCopySum(rows[1..], s), PerCopySum(sc[1..], s), PerCopySum(rows, s), PerCopySum(sc, s));
    }
  }

  /** One step of a sum of quotients whose numerators are all multiplied by c. */
  lemma {:induction false} QuotientStep(a: real, n: real, c: real, x: real, rest: real, rest2: real, total: real, total2: real)
    requires n != 0.0 && x == c * a && rest2 == c * rest
    requires total == a / n + rest && total2 == x / n + rest2
    ensures total2 == c * total
  {
    assert (c * a) / n == c * (a / n);
  }

  /** Scaling the rows a WMCN is computed over leaves the quotient unchanged. */
  lemma CellRatioScale(cn: seq<TaxonRow>, s: string, c: real)
    requires HasSample(cn, s) && NonzeroCopyNumbers(cn) && forall r :: r in cn ==> r.copyNumber.Some?
    requires c > 0.0
    ensures NonzeroCopyNumbers(Scale(cn, s, c)) && forall r :: r in Scale(cn, s, c) ==> r.copyNumber.Some?
    ensures Quotient(AbundanceSum(Scale(cn, s, c), s), PerCopySum(Scale(cn, s, c), s))
         == Quotient(AbundanceSum(cn, s), PerCopySum(cn, s))
  {
    AbundanceSumScale(cn, s, c);
    PerCopySumScale(cn, s, c);
    ScaledQuotient(AbundanceSum(cn, s), PerCopySum(cn, s),
      AbundanceSum(Scale(cn, s, c), s), PerCopySum(Scale(cn, s, c), s), c);
  }

  /** Scaling the rows a WMGR is computed over leaves the quotient unchanged. */
  lemma GrowthRatioScale(gr: seq<TaxonRow>, s: string, c: real)
    requires HasSample(gr, s) && forall r :: r in gr ==> r.growthRate.Some?
    requires c > 0.0
    ensures forall r :: r in Scale(gr, s, c) ==> r.growthRate.Some?
    ensures Quotient(GrowthWeightedSum(Scale(gr, s, c), s), AbundanceSum(Scale(gr, s, c), s))
         == Quotient(GrowthWeightedSum(gr, s), AbundanceSum(gr, s))
  {
    AbundanceSumScale(gr, s, c);
    GrowthWeightedSumScale(gr, s, c);
    ScaledQuotient(GrowthWeightedSum(gr, s), AbundanceSum(gr, s),
      GrowthWeightedSum(Scale(gr, s, c), s), AbundanceSum(Scale(gr, s, c), s), c);
  }

  /**
   * Multiplying a sample's abundances by a positive factor (read counts versus
   * relative abundances) does not change its WMCN.
   */
  lemma WmcnDependsOnRelativeAbundance(rows: seq<TaxonRow>, sub: Mask, s: string, c: real)
    requires HasSample(rows, s) && NonzeroCopyNumbers(rows) && c > 0.0
    ensures NonzeroCopyNumbers(Scale(rows, s, c))
    ensures Wmcn(Scale(rows, s, c), sub, s) == Wmcn(rows, sub, s)
  {
    FilterScale(rows, sub, s, c);
    FilterScale(Filter(rows, sub), HasCopyNumber, s, c);
    CellRatioScale(CnRows(rows, sub), s, c);
  }

  /** The same for WMGR. */
  lemma WmgrDependsOnRelativeAbundance(rows: seq<TaxonRow>, sub: Mask, s: string, c: real)
    requires HasSample(rows, s) && c > 0.0
    ensures Wmgr(Scale(rows, s, c), sub, s) == Wmgr(rows, sub, s)
  {
    FilterScale(rows, sub, s, c);
    FilterScale(Filter(rows, sub), HasGrowthRate, s, c);
    GrowthRatioScale(GrowthRows(rows, sub), s, c);
  }

  lemma {:induction false} ScaledQuotient(n: real, d: real, n2: real, d2: real, c: real)
    requires c > 0.0 && n2 == c * n && d2 == c * d
    ensures Quotient(n2, d2) == Quotient(n, d)
  {
    if d != 0.0 {
      var w, x := n / d, (c * n) / (c * d);
      assert w * d == n;
      assert x * (c * d) == c * n;
      assert c * ((x - w) * d) == 0.0;
      assert (x - w) * d == 0.0;
      assert x == w;
    }
  }

  // ---------------------------------------------------------------------------
  // Reading back the copy-number column

  /**
   * The 'Copy Number' column as the metric functions read it back: a mean is a
   * number; both an untouched NaN and the text 'nan' read as NaN.
   */
  function ReadCopyNumber(cell: CopyNumbers.CopyNumberCell): (v: Option<real>)
    ensures v.Some? <==> cell.Mean?
    ensures v.Some? ==> v.value == cell.value
  {
    match cell
    case Mean(m) => Some(m)
    case _ => None
  }

  /** A row enters a WMCN exactly when the copy-number assignment matched it. */
  lemma ReadBackCounts(o: CopyNumbers.Outcome)
    ensures ReadCopyNumber(CopyNumbers.CellOf(o)).Some? <==> o.Assigned?
    ensures o.Assigned? ==> ReadCopyNumber(CopyNumbers.CellOf(o)) == Some(o.mean)
  {
  }

  // ---------------------------------------------------------------------------
  // The metadata table, updated in place

  /** The abundance table: its sample columns and its OTU rows. */
  datatype Table = Table(samples: set<string>, rows: seq<TaxonRow>)

  /** Every row has an abundance for every sample column, and no copy number is zero. */
  predicate WellFormed(t: Table) {
    && (forall r :: r in t.rows ==> t.samples <= r.abundance.Keys)
    && NonzeroCopyNumbers(t.rows)
  }

  /** The WMCN cell of each metadata row: NaN unless the sample is a column of the table. */
  function WmcnColumn(t: Table, sub: Mask, samples: seq<string>): (col: seq<Option<real>>)
    requires WellFormed(t)
    ensures |col| == |samples|
    ensures forall k :: 0 <= k < |samples| ==>
      col[k] == if samples[k] in t.samples then Wmcn(t.rows, sub, samples[k]) else None
  {
    seq(|samples|, k requires 0 <= k < |samples| =>
      if samples[k] in t.samples then Wmcn(t.rows, sub, samples[k]) else None)
  }

  /** The WMGR cell of each metadata row: NaN unless the sample is a column of the table. */
  function WmgrColumn(t: Table, sub: Mask, samples: seq<string>): (col: seq<Option<real>>)
    requires WellFormed(t)
    ensures |col| == |samples|
    ensures forall k :: 0 <= k < |samples| ==>
      col[k] == if samples[k] in t.samples then Wmgr(t.rows, sub, samples[k]) else None
  {
    seq(|samples|, k requires 0 <= k < |samples| =>
      if samples[k] in t.samples then Wmgr(t.rows, sub, samples[k]) else None)
  }

  /** The sample metadata table: one row per sample, columns by name. */
  class SampleMetadata {
    const samples: seq<string>
    var columns: map<string, seq<Option<real>>>

    ghost predicate Valid()
      reads this
    {
      forall name :: name in columns ==> |columns[name]| == |samples|
    }

    constructor (samples: seq<string>, columns: map<string, seq<Option<real>>>)
      requires forall name :: name in columns ==> |columns[name]| == |samples|
      ensures Valid() && this.samples == samples && this.columns == columns
    {
      this.samples := samples;
      this.columns := columns;
    }

    /** A column of NaN, one cell per sample. */
    function NanColumn(): (col: seq<Option<real>>)
      ensures |col| == |samples| && forall k :: 0 <= k < |col| ==> col[k].None?
    {
      seq(|samples|, _ => None)
    }

    /** `df_meta[name] = np.nan`: a new or reset column of NaN. */
    method ResetColumn(name: string)
      requires Valid()
      modifies this
      ensures Valid()
      ensures columns == old(columns)[name := NanColumn()]
    {
      columns := columns[name := NanColumn()];
    }

    /** One `for k in range(len(All_samples))` loop writing a WMCN column. */
    method WriteWmcn(name: string, t: Table, sub: Mask)
      requires Valid() && WellFormed(t)
      requires name in columns && columns[name] == NanColumn()
      modifies this
      ensures Valid()
      ensures columns == old(columns)[name := WmcnColumn(t, sub, samples)]
    {
      ghost var target := WmcnColumn(t, sub, samples);
      for k := 0 to |samples|
        invariant Valid() && name in columns
        invariant columns == old(columns)[name := columns[name]]
        invariant forall j :: 0 <= j < k ==> columns[name][j] == target[j]
        invariant forall j :: k <= j < |samples| ==> columns[name][j].None?
      {
        var sample := samples[k];
        if sample in t.samples {
          var w := Wmcn(t.rows, sub, sample);
          columns := columns[name := columns[name][k := w]];
        }
      }
      assert columns[name] == target;
    }

    /** One `for k in range(len(All_samples))` loop writing a WMGR column. */
    method WriteWmgr(name: string, t: Table, sub: Mask)
      requires Valid() && WellFormed(t)
      requires name in columns && columns[name] == NanColumn()
      modifies this
      ensures Valid()
      ensures columns == old(columns)[name := WmgrColumn(t, sub, samples)]
    {
      ghost var target := WmgrColumn(t, sub, samples);
      for k := 0 to |samples|
        invariant Valid() && name in columns
        invariant columns == old(columns)[name := columns[name]]
        invariant forall j :: 0 <= j < k ==> columns[name][j] == target[j]
        invariant forall j :: k <= j < |samples| ==> columns[name][j].None?
      {
        var sample := samples[k];
        if sample in t.samples {
          var w := Wmgr(t.rows, sub, sample);
          columns := columns[name := columns[name][k := w]];
        }
      }
      assert columns[name] == target;
    }

    /** `calc_wmcn_only`: the four WMCN columns; every other column is kept. */
    method CalcWmcnOnly(t: Table)
      requires Valid() && WellFormed(t)
      modifies this
      ensures Valid()
      ensures columns == old(columns)
        ["WMCN" := WmcnColumn(t, All, samples)]
        ["WMCN, no SAR11" := WmcnColumn(t, NoSar11, samples)]
        ["WMCN, no CN1" := WmcnColumn(t, NoCn1, samples)]
        ["WMCN, Heterotrophs" := WmcnColumn(t, Heterotrophs, samples)]
    {
      ResetWmcnColumns();
      WriteWmcnColumns(t);
    }

    /** The four WMCN columns set to NaN. */
    method ResetWmcnColumns()
      requires Valid()
      modifies this
      ensures Valid()
      ensures columns == old(columns)
        ["WMCN" := NanColumn()]["WMCN, no SAR11" := NanColumn()]
        ["WMCN, no CN1" := NanColumn()]["WMCN, Heterotrophs" := NanColumn()]
    {
      ResetColumn("WMCN");
      ResetColumn("WMCN, no SAR11");
      ResetColumn("WMCN, no CN1");
      ResetColumn("WMCN, Heterotrophs");
    }

    /** The four WMCN loops, over columns already set to NaN. */
    method WriteWmcnColumns(t: Table)
      requires Valid() && WellFormed(t)
      requires "WMCN" in columns && columns["WMCN"] == NanColumn()
      requires "WMCN, no SAR11" in columns && columns["WMCN, no SAR11"] == NanColumn()
      requires "WMCN, no CN1" in columns && columns["WMCN, no CN1"] == NanColumn()
      requires "WMCN, Heterotrophs" in columns && columns["WMCN, Heterotrophs"] == NanColumn()
      modifies this
      ensures Valid()
      ensures columns == old(columns)
        ["WMCN" := WmcnColumn(t, All, samples)]
        ["WMCN, no SAR11" := WmcnColumn(t, NoSar11, samples)]
        ["WMCN, no CN1" := WmcnColumn(t, NoCn1, samples)]
        ["WMCN, Heterotrophs" := WmcnColumn(t, Heterotrophs, samples)]
    {
      WriteWmcn("WMCN", t, All);
      WriteWmcn("WMCN, no SAR11", t, NoSar11);
      WriteWmcn("WMCN, no CN1", t, NoCn1);
      WriteWmcn("WMCN, Heterotrophs", t, Heterotrophs);
    }

    /** `calc_wmgr_wmcn`: the four WMGR columns, then the four WMCN columns. */
    method CalcWmgrWmcn(t: Table)
      requires Valid() && WellFormed(t)
      modifies this
      ensures Valid()
      ensures columns == old(columns)
        ["WMGR" := WmgrColumn(t, All, samples)]
        ["WMGR, no SAR11" := WmgrColumn(t, NoSar11, samples)]
        ["WMGR, copio" := WmgrColumn(t, Copio, samples)]
        ["WMGR, Heterotrophs" := WmgrColumn(t, Heterotrophs, samples)]
        ["WMCN" := WmcnColumn(t, All, samples)]
        ["WMCN, no SAR11" := WmcnColumn(t, NoSar11, samples)]
        ["WMCN, no CN1" := WmcnColumn(t, NoCn1, samples)]
        ["WMCN, Heterotrophs" := WmcnColumn(t, Heterotrophs, samples)]
    {
      ResetWmgrColumns();
      ResetWmcnColumns();
      WriteWmgrColumns(t);
      WriteWmcnColumns(t);
    }

    /** The four WMGR columns set to NaN. */
    method ResetWmgrColumns()
      requires Valid()
      modifies this
      ensures Valid()
      ensures columns == old(columns)
        ["WMGR" := NanColumn()]["WMGR, no SAR11" := NanColumn()]
        ["WMGR, copio" := NanColumn()]["WMGR, Heterotrophs" := NanColumn()]
    {
      ResetColumn("WMGR");
      ResetColumn("WMGR, no SAR11");
      ResetColumn("WMGR, copio");
      ResetColumn("WMGR, Heterotrophs");
    }

    /** The four WMGR loops, over columns already set to NaN. */
    method WriteWmgrColumns(t: Table)
      requires Valid() && WellFormed(t)
      requires "WMGR" in columns && columns["WMGR"] == NanColumn()
      requires "WMGR, no SAR11" in columns && columns["WMGR, no SAR11"] == NanColumn()
      requires "WMGR, copio" in columns && columns["WMGR, copio"] == NanColumn()
      requires "WMGR, Heterotrophs" in columns && columns["WMGR, Heterotrophs"] == NanColumn()
      modifies this
      ensures Valid()
      ensures columns == old(columns)
        ["WMGR" := WmgrColumn(t, All, samples)]
        ["WMGR, no SAR11" := WmgrColumn(t, NoSar11, samples)]
        ["WMGR, copio" := WmgrColumn(t, Copio, samples)]
        ["WMGR, Heterotrophs" := WmgrColumn(t, Heterotrophs, samples)]
    {
      WriteWmgr("WMGR", t, All);
      WriteWmgr("WMGR, no SAR11", t, NoSar11);
      WriteWmgr("WMGR, copio", t, Copio);
      WriteWmgr("WMGR, Heterotrophs", t, Heterotrophs);
    }
  }
}
