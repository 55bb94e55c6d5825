/**
 * Copy-number assignment for an OTU abundance table.
 *
 * Each OTU row carries one optional name per taxonomic rank. Starting at the
 * finest rank whose name is present, the row's whitespace-stripped name is
 * looked up in that rank's partition of the reference table (rrnDB pan-taxa
 * statistics: rank, name, mean copy number). Exactly one match assigns the
 * entry's mean and a rank label; several matches stop the search with a warning;
 * no match falls back to the next coarser rank. A row that matches nowhere gets
 * the text 'nan' as copy number, and its OTU ID and a numeric code are appended
 * to two parallel lists.
 *
 * The nested if/else chains of the source are written here as a "plan": the list
 * of (partition, name, label) steps a row goes through, and the code recorded
 * when all of them find nothing. One cascade function walks any plan.
 */
module CopyNumbers {
  import opened Wrappers

  // ---------------------------------------------------------------------------
  // Whitespace stripping, as pandas' Series.str.strip() (Python's str.strip())

  /** The characters Python's str.isspace() accepts. */
  predicate IsSpace(c: char) {
    c == ' ' || '\t' <= c <= '\r' || '\U{1c}' <= c <= '\U{1f}' || c == '\U{85}' || c == '\U{a0}'
    || c == '\U{1680}' || '\U{2000}' <= c <= '\U{200a}' || c == '\U{2028}' || c == '\U{2029}'
    || c == '\U{202f}' || c == '\U{205f}' || c == '\U{3000}'
  }

  /** Drops leading whitespace: the result is the suffix after a run of spaces. */
  function StripLeft(s: string): (r: string)
    ensures |r| <= |s| && r == s[|s| - |r|..]
    ensures forall i :: 0 <= i < |s| - |r| ==> IsSpace(s[i])
    ensures r == [] || !IsSpace(r[0])
    decreases |s|
  {
    if |s| > 0 && IsSpace(s[0]) then StripLeft(s[1..]) else s
  }

  /** Drops trailing whitespace: the result is the prefix before a run of spaces. */
  function StripRight(s: string): (r: string)
    ensures |r| <= |s| && r == s[..|r|]
    ensures forall i :: |r| <= i < |s| ==> IsSpace(s[i])
    ensures r == [] || !IsSpace(r[|r| - 1])
    decreases |s|
  {
    if |s| > 0 && IsSpace(s[|s| - 1]) then StripRight(s[..|s| - 1]) else s
  }

  /** Number of whitespace characters Strip removes from the front of `s`. */
  function Leading(s: string): nat {
    |s| - |StripLeft(s)|
  }

  /**
   * str.strip(): the result is the infix of `s` that starts after its leading
   * whitespace; everything outside that infix is whitespace, and the result
   * neither starts nor ends with whitespace.
   */
  function Strip(s: string): (r: string)
    ensures Leading(s) + |r| <= |s| && r == s[Leading(s)..Leading(s) + |r|]
    ensures forall i :: 0 <= i < Leading(s) || Leading(s) + |r| <= i < |s| ==> IsSpace(s[i])
    ensures r == [] || (!IsSpace(r[0]) && !IsSpace(r[|r| - 1]))
  {
    var l := StripLeft(s);
    var r := StripRight(l);
    assert r == [] || r[0] == l[0];
    r
  }

  lemma StripIdempotent(s: string)
    ensures Strip(Strip(s)) == Strip(s)
  {
  }

  function StripName(n: Option<string>): (r: Option<string>)
    ensures r.None? <==> n.None?
  {
    match n
    case Some(s) => Some(Strip(s))
    case None => None
  }

  // ---------------------------------------------------------------------------
  // Data model

  /** The taxonomic names of one OTU row; a missing (NaN) name is `None`. */
  datatype Taxonomy = Taxonomy(
    species: Option<string>,
    genus: Option<string>,
    family: Option<string>,
    order: Option<string>,
    taxClass: Option<string>,
    phylum: Option<string>)

  /**
   * The strip step at the top of either function: every name column is stripped;
   * the Species column only by the species-aware variant.
   */
  function StripTaxonomy(t: Taxonomy, withSpecies: bool): (r: Taxonomy)
    ensures r.species == (if withSpecies then StripName(t.species) else t.species)
    ensures r.genus == StripName(t.genus) && r.family == StripName(t.family)
    ensures r.order == StripName(t.order) && r.taxClass == StripName(t.taxClass)
    ensures r.phylum == StripName(t.phylum)
  {
    Taxonomy(
      if withSpecies then StripName(t.species) else t.species,
      StripName(t.genus), StripName(t.family), StripName(t.order),
      StripName(t.taxClass), StripName(t.phylum))
  }

  function StripAll(ts: seq<Taxonomy>, withSpecies: bool): (r: seq<Taxonomy>)
    ensures |r| == |ts|
    ensures forall k :: 0 <= k < |ts| ==> r[k] == StripTaxonomy(ts[k], withSpecies)
  {
    seq(|ts|, k requires 0 <= k < |ts| => StripTaxonomy(ts[k], withSpecies))
  }

  /** One row of the reference table: its `rank` column, `name` and `mean`. */
  datatype RefEntry = RefEntry(rank: string, name: string, mean: real)

  /** The label written to 'Copy Number Classification Level'. */
  datatype Level = Species | Genus | Family | Order | Class | Phylum

  /**
   * A 'Copy Number' cell: untouched (NaN), a mean copy number, or the text 'nan'
   * written for an OTU that resolved at no rank.
   */
  datatype CopyNumberCell = Missing | Mean(value: real) | NanText

  /** `NCBI_copy_nums[NCBI_copy_nums['rank'] == rank]`, order kept. */
  function Partition(ref: seq<RefEntry>, rank: string): (p: seq<RefEntry>)
    ensures |p| <= |ref|
    ensures forall e :: e in p <==> e in ref && e.rank == rank
  {
    if ref == [] then []
    else (if ref[0].rank == rank then [ref[0]] else []) + Partition(ref[1..], rank)
  }

  /**
   * `part[part['name'] == name]`: exact, case-sensitive equality; a missing
   * name is NaN, which equals nothing.
   */
  function Matches(part: seq<RefEntry>, name: Option<string>): (m: seq<RefEntry>)
    ensures |m| <= |part|
    ensures forall e :: e in m <==> e in part && name == Some(e.name)
    ensures name.None? ==> m == []
  {
    if part == [] then []
    else (if name == Some(part[0].name) then [part[0]] else []) + Matches(part[1..], name)
  }

  /** Each entry of the partition carrying the name is kept as often as it occurs there, and no other entry. */
  lemma {:induction false} MatchesMultiplicity(part: seq<RefEntry>, name: Option<string>)
    ensures forall e :: multiset(Matches(part, name))[e] == if name == Some(e.name) then multiset(part)[e] else 0
  {
    if part != [] {
      MatchesMultiplicity(part[1..], name);
      assert part == [part[0]] + part[1..];
    }
  }

  // ---------------------------------------------------------------------------
  // The cascade

  /** One rung of the fallback ladder: which partition, which name, which label. */
  datatype Step = Step(partition: string, name: Option<string>, assigns: Level)

  /** The steps a row goes through, and the code recorded if all of them miss. */
  datatype Plan = Plan(steps: seq<Step>, code: nat)

  datatype Outcome = Assigned(mean: real, level: Level) | Ambiguous | Unresolved(code: nat)

  function Hits(ref: seq<RefEntry>, s: Step): seq<RefEntry> {
    Matches(Partition(ref, s.partition), s.name)
  }

  /**
   * Walks the steps in order: zero hits moves on, one hit assigns, more than one
   * stops without a value; running out of steps is unresolved with `code`.
   * Its own contract only fixes the unresolved code: what the walk decides is
   * stated by `FirstHitDecides`, `UnresolvedIffNoHits` and `AssignedFromReference`.
   */
  function Cascade(ref: seq<RefEntry>, steps: seq<Step>, code: nat): (o: Outcome)
    ensures o.Unresolved? ==> o.code == code
    decreases |steps|
  {
    if steps == [] then Unresolved(code)
    else
      var m := Hits(ref, steps[0]);
      if |m| == 0 then Cascade(ref, steps[1..], code)
      else if |m| == 1 then Assigned(m[0].mean, steps[0].assigns)
      else Ambiguous
  }

  function GenusStep(t: Taxonomy): Step { Step("genus", t.genus, Genus) }
  function FamilyStep(t: Taxonomy): Step { Step("family", t.family, Family) }
  function OrderStep(t: Taxonomy): Step { Step("order", t.order, Order) }
  function ClassStep(t: Taxonomy): Step { Step("class", t.taxClass, Class) }
  function PhylumStep(t: Taxonomy): Step { Step("phylum", t.phylum, Phylum) }

  /** The five rungs below species, finest first, each with its own rank as label. */
  function Ladder(t: Taxonomy): (l: seq<Step>)
    ensures |l| == 5
  {
    [GenusStep(t), FamilyStep(t), OrderStep(t), ClassStep(t), PhylumStep(t)]
  }

  /**
   * The branches of `assign_copynums`: the row starts at its finest named rank
   * and falls back through every coarser rank of the ladder, in order; code c
   * (1 genus … 5 phylum) names the starting rank, 6 a row with no name.
   */
  function SpeciesBlindPlan(t: Taxonomy): (p: Plan)
    ensures p.code == FinestRankCode(t)
    ensures p.steps == Ladder(t)[p.code - 1..]
    ensures p.steps != [] ==> p.steps[0].name.Some?
    ensures p.steps == [] <==> p.code == 6
  {
    if t.genus.Some? then
      Plan([GenusStep(t), FamilyStep(t), OrderStep(t), ClassStep(t), PhylumStep(t)], 1)
    else if t.family.Some? then
      Plan([FamilyStep(t), OrderStep(t), ClassStep(t), PhylumStep(t)], 2)
    else if t.order.Some? then
      Plan([OrderStep(t), ClassStep(t), PhylumStep(t)], 3)
    else if t.taxClass.Some? then
      Plan([ClassStep(t), PhylumStep(t)], 4)
    else if t.phylum.Some? then
      Plan([PhylumStep(t)], 5)
    else
      Plan([], 6)
  }

  /**
   * The branches of `assign_copynums_with_species`. A row with a species name
   * looks it up in the GENUS partition (the species partition is built from the
   * genus mask), labels a phylum hit 'Class', and records code 1 when nothing
   * matches. Without a species name the branches are those of the species-blind
   * variant, line for line.
   */
  function WithSpeciesPlan(t: Taxonomy): (p: Plan)
    ensures p.steps != [] ==> p.steps[0].name.Some?
    ensures t.species.None? ==> p == SpeciesBlindPlan(t)
    ensures t.species.Some? ==>
      (&& p.code == 1 && |p.steps| == 6
       && p.steps[0] == Step("genus", t.species, Species)
       && p.steps[1..5] == Ladder(t)[..4]
       && p.steps[5] == PhylumStep(t).(assigns := Class))
  {
    if t.species.Some? then
      Plan([Step("genus", t.species, Species), GenusStep(t), FamilyStep(t), OrderStep(t), ClassStep(t),
            Step("phylum", t.phylum, Class)], 1)
    else
      SpeciesBlindPlan(t)
  }

  function PlanFor(withSpecies: bool, t: Taxonomy): Plan {
    if withSpecies then WithSpeciesPlan(t) else SpeciesBlindPlan(t)
  }

  /** The names a row carries, at any rank. */
  function NamesOf(t: Taxonomy): set<Option<string>> {
    {t.species, t.genus, t.family, t.order, t.taxClass, t.phylum}
  }

  /**
   * What the loop body does for one (already stripped) row. An assigned mean is
   * the mean of a reference entry carrying the row's name at one of its ranks;
   * an unresolved row carries the code of its plan.
   */
  function Resolve(withSpecies: bool, ref: seq<RefEntry>, t: Taxonomy): (o: Outcome)
    ensures o.Unresolved? ==> o.code == if withSpecies && t.species.Some? then 1 else FinestRankCode(t)
    ensures o.Assigned? ==> exists e :: e in ref && e.mean == o.mean && Some(e.name) in NamesOf(t)
  {
    var p := PlanFor(withSpecies, t);
    AssignedFromReference(ref, p.steps, p.code);
    PlanNames(withSpecies, t);
    Cascade(ref, p.steps, p.code)
  }

  /** Every step of a row's plan looks up one of the row's own names. */
  lemma PlanNames(withSpecies: bool, t: Taxonomy)
    ensures forall i :: 0 <= i < |PlanFor(withSpecies, t).steps| ==> PlanFor(withSpecies, t).steps[i].name in NamesOf(t)
  {
    var l := Ladder(t);
    assert forall i :: 0 <= i < 5 ==> l[i].name in NamesOf(t);
  }

  /** The 'Copy Number' cell a row's outcome writes: its mean, 'nan' when unresolved, untouched when ambiguous. */
  function CellOf(o: Outcome): (c: CopyNumberCell)
    ensures c.Mean? <==> o.Assigned?
    ensures c.Mean? ==> c.value == o.mean
    ensures c.NanText? <==> o.Unresolved?
  {
    match o
    case Assigned(m, _) => Mean(m)
    case Ambiguous => Missing
    case Unresolved(_) => NanText
  }

  /** The 'Copy Number Classification Level' cell: written only for an assigned row. */
  function LevelOf(o: Outcome): (l: Option<Level>)
    ensures l.Some? <==> o.Assigned?
    ensures l.Some? ==> l.value == o.level
  {
    match o
    case Assigned(_, l) => Some(l)
    case _ => None
  }

  function Outcomes(withSpecies: bool, ref: seq<RefEntry>, ts: seq<Taxonomy>): (os: seq<Outcome>)
    ensures |os| == |ts|
    ensures forall k :: 0 <= k < |ts| ==> os[k] == Resolve(withSpecies, ref, ts[k])
  {
    seq(|ts|, k requires 0 <= k < |ts| => Resolve(withSpecies, ref, ts[k]))
  }

  /**
   * The indices, among the first `n` rows, that end up in `to_sequence` and
   * `unknown_levels`: exactly the unresolved rows, each once, in row order.
   */
  function UnresolvedRows(os: seq<Outcome>, n: nat): (u: seq<nat>)
    requires n <= |os|
    ensures forall i :: 0 <= i < |u| ==> u[i] < n && os[u[i]].Unresolved?
  {
    if n == 0 then []
    else UnresolvedRows(os, n - 1) + (if os[n - 1].Unresolved? then [n - 1] else [])
  }

  /** Every unresolved row among the first `n` is listed, once, in row order. */
  lemma {:induction false} UnresolvedRowsComplete(os: seq<Outcome>, n: nat)
    requires n <= |os|
    ensures var u := UnresolvedRows(os, n);
      && (forall i, j :: 0 <= i < j < |u| ==> u[i] < u[j])
      && (forall k :: 0 <= k < n && os[k].Unresolved? ==> k in u)
  {
    if n > 0 {
      UnresolvedRowsComplete(os, n - 1);
    }
  }

  // ---------------------------------------------------------------------------
  // What the cascade guarantees

  /** The first step with any hit decides: one hit assigns, several are ambiguous. */
  lemma {:induction false} FirstHitDecides(ref: seq<RefEntry>, steps: seq<Step>, code: nat, i: nat)
    requires i < |steps|
    requires forall j :: 0 <= j < i ==> Hits(ref, steps[j]) == []
    requires Hits(ref, steps[i]) != []
    ensures Cascade(ref, steps, code) ==
      if |Hits(ref, steps[i])| == 1 then Assigned(Hits(ref, steps[i])[0].mean, steps[i].assigns) else Ambiguous
    decreases i
  {
    if i > 0 {
      assert Hits(ref, steps[0]) == [];
      assert forall j :: 0 <= j < i - 1 ==> steps[1..][j] == steps[j + 1];
      FirstHitDecides(ref, steps[1..], code, i - 1);
    }
  }

  /** A row is unresolved exactly when every step of its plan finds nothing. */
  lemma {:induction false} UnresolvedIffNoHits(ref: seq<RefEntry>, steps: seq<Step>, code: nat)
    ensures Cascade(ref, steps, code) == Unresolved(code) <==> forall j :: 0 <= j < |steps| ==> Hits(ref, steps[j]) == []
    decreases |steps|
  {
    if steps != [] {
      UnresolvedIffNoHits(ref, steps[1..], code);
      assert forall j :: 1 <= j < |steps| ==> steps[j] == steps[1..][j - 1];
    }
  }

  /**
   * An assigned mean is the mean of a reference row whose rank is the step's
   * partition and whose name is the row's name at that step.
   */
  lemma {:induction false} AssignedFromReference(ref: seq<RefEntry>, steps: seq<Step>, code: nat)
    ensures Cascade(ref, steps, code).Assigned? ==>
      exists i, e :: 0 <= i < |steps| && e in ref && e.rank == steps[i].partition && steps[i].name == Some(e.name)
        && e.mean == Cascade(ref, steps, code).mean && steps[i].assigns == Cascade(ref, steps, code).level
    decreases |steps|
  {
    if steps != [] {
      var m := Hits(ref, steps[0]);
      if |m| == 0 {
        AssignedFromReference(ref, steps[1..], code);
        if Cascade(ref, steps, code).Assigned? {
          var i, e :| 0 <= i < |steps[1..]| && e in ref && e.rank == steps[1..][i].partition && steps[1..][i].name == Some(e.name)
            && e.mean == Cascade(ref, steps[1..], code).mean && steps[1..][i].assigns == Cascade(ref, steps[1..], code).level;
          assert steps[i + 1] == steps[1..][i];
        }
      } else if |m| == 1 {
        assert m[0] in m;
      }
    }
  }

  /** The Unresolved code recorded when the species-blind plan finds nothing: the finest rank present. */
  function FinestRankCode(t: Taxonomy): (c: nat)
    ensures 1 <= c <= 6
    ensures forall j :: 0 <= j < c - 1 ==> Ladder(t)[j].name.None?
    ensures c < 6 ==> Ladder(t)[c - 1].name.Some?
  {
    if t.genus.Some? then 1
    else if t.family.Some? then 2
    else if t.order.Some? then 3
    else if t.taxClass.Some? then 4
    else if t.phylum.Some? then 5
    else 6
  }

  /**
   * The code in `unknown_levels`: the finest named rank of the row (1 genus …
   * 5 phylum, 6 none); the species-aware variant records 1 for any row with a
   * species name.
   */
  lemma UnresolvedCode(withSpecies: bool, ref: seq<RefEntry>, t: Taxonomy)
    ensures Resolve(withSpecies, ref, t).Unresolved? ==>
      Resolve(withSpecies, ref, t).code == if withSpecies && t.species.Some? then 1 else FinestRankCode(t)
  {
  }

  /** A row with no names at all is unresolved with code 6, whatever the reference holds. */
  lemma {:induction false} NoNamesUnresolved(withSpecies: bool, ref: seq<RefEntry>, t: Taxonomy)
    requires t == Taxonomy(None, None, None, None, None, None)
    ensures Resolve(withSpecies, ref, t) == Unresolved(6)
  {
  }

  /** Without a Species name the two variants resolve a row identically. */
  lemma VariantsAgreeWithoutSpecies(ref: seq<RefEntry>, t: Taxonomy)
    requires t.species.None?
    ensures Resolve(true, ref, t) == Resolve(false, ref, t)
  {
  }

  /** The reference table without its rows of one rank. */
  function DropRank(ref: seq<RefEntry>, rank: string): (r: seq<RefEntry>)
    ensures forall e :: e in r <==> e in ref && e.rank != rank
  {
    if ref == [] then []
    else (if ref[0].rank == rank then [] else [ref[0]]) + DropRank(ref[1..], rank)
  }

  lemma {:induction false} PartitionIgnoresDroppedRank(ref: seq<RefEntry>, dropped: string, rank: string)
    requires rank != dropped
    ensures Partition(DropRank(ref, dropped), rank) == Partition(ref, rank)
  {
    if ref != [] {
      PartitionIgnoresDroppedRank(ref[1..], dropped, rank);
      var d := if ref[0].rank == dropped then [] else [ref[0]];
      assert DropRank(ref, dropped) == d + DropRank(ref[1..], dropped);
      PartitionAppend(d, DropRank(ref[1..], dropped), rank);
    }
  }

  lemma {:induction false} PartitionAppend(a: seq<RefEntry>, b: seq<RefEntry>, rank: string)
    ensures Partition(a + b, rank) == Partition(a, rank) + Partition(b, rank)
  {
    if a != [] {
      assert (a + b)[1..] == a[1..] + b;
      PartitionAppend(a[1..], b, rank);
    } else {
      assert a + b == b;
    }
  }

  /** Two references whose hits agree step by step give the same outcome. */
  lemma {:induction false} CascadeDependsOnlyOnHits(ref1: seq<RefEntry>, ref2: seq<RefEntry>, steps: seq<Step>, code: nat)
    requires forall j :: 0 <= j < |steps| ==> Hits(ref1, steps[j]) == Hits(ref2, steps[j])
    ensures Cascade(ref1, steps, code) == Cascade(ref2, steps, code)
    decreases |steps|
  {
    if steps != [] {
      assert Hits(ref1, steps[0]) == Hits(ref2, steps[0]);
      assert forall j :: 0 <= j < |steps[1..]| ==> steps[1..][j] == steps[j + 1];
      CascadeDependsOnlyOnHits(ref1, ref2, steps[1..], code);
    }
  }

  /**
   * The species lookup goes to the genus partition, so reference rows of rank
   * 'species' are never consulted: dropping them changes no outcome.
   */
  lemma SpeciesRowsNeverConsulted(withSpecies: bool, ref: seq<RefEntry>, t: Taxonomy)
    ensures Resolve(withSpecies, DropRank(ref, "species"), t) == Resolve(withSpecies, ref, t)
  {
    var p := PlanFor(withSpecies, t);
    forall j | 0 <= j < |p.steps|
      ensures Hits(DropRank(ref, "species"), p.steps[j]) == Hits(ref, p.steps[j])
    {
      assert p.steps[j].partition in {"genus", "family", "order", "class", "phylum"};
      PartitionIgnoresDroppedRank(ref, "species", p.steps[j].partition);
    }
    CascadeDependsOnlyOnHits(DropRank(ref, "species"), ref, p.steps, p.code);
  }

  /**
   * A row without a species name but with a genus name is decided at genus
   * whenever the genus partition holds its name: one entry assigns that entry's
   * mean, labelled Genus; several leave the row ambiguous.
   */
  lemma GenusScenario(withSpecies: bool, ref: seq<RefEntry>, t: Taxonomy)
    requires t.species.None? && t.genus.Some?
    requires Hits(ref, GenusStep(t)) != []
    ensures Resolve(withSpecies, ref, t) ==
      if |Hits(ref, GenusStep(t))| == 1 then Assigned(Hits(ref, GenusStep(t))[0].mean, Genus) else Ambiguous
  {
    var p := SpeciesBlindPlan(t);
    assert p.steps[0] == GenusStep(t);
    FirstHitDecides(ref, p.steps, p.code, 0);
  }

  /**
   * A species name is looked up among the genus entries: exactly one genus entry
   * of that name assigns its mean, labelled Species.
   */
  lemma SpeciesMatchesGenusRow(ref: seq<RefEntry>, t: Taxonomy)
    requires t.species.Some?
    requires |Matches(Partition(ref, "genus"), t.species)| == 1
    ensures Resolve(true, ref, t) == Assigned(Matches(Partition(ref, "genus"), t.species)[0].mean, Species)
  {
    var p := WithSpeciesPlan(t);
    FirstHitDecides(ref, p.steps, p.code, 0);
  }

  /**
   * The species-blind cascade: the first rank of the ladder whose partition
   * holds the row's name decides, with that rank's label.
   */
  lemma LadderDecides(ref: seq<RefEntry>, t: Taxonomy, i: nat)
    requires i < 5
    requires forall j :: 0 <= j < i ==> Hits(ref, Ladder(t)[j]) == []
    requires Hits(ref, Ladder(t)[i]) != []
    ensures Resolve(false, ref, t) ==
      if |Hits(ref, Ladder(t)[i])| == 1 then Assigned(Hits(ref, Ladder(t)[i])[0].mean, Ladder(t)[i].assigns)
      else Ambiguous
  {
    var q := SpeciesBlindPlan(t);
    var c := q.code;
    assert Ladder(t)[i].name.Some?;
    assert c - 1 <= i;
    assert forall j :: 0 <= j < |q.steps| ==> q.steps[j] == Ladder(t)[c - 1 + j];
    FirstHitDecides(ref, q.steps, c, i - (c - 1));
  }

  /**
   * The species-aware cascade of a row with a species name: the first of its six
   * steps whose partition holds the step's name decides, with the step's label.
   */
  lemma SpeciesLadderDecides(ref: seq<RefEntry>, t: Taxonomy, i: nat)
    requires t.species.Some? && i < 6
    requires forall j :: 0 <= j < i ==> Hits(ref, WithSpeciesPlan(t).steps[j]) == []
    requires Hits(ref, WithSpeciesPlan(t).steps[i]) != []
    ensures Resolve(true, ref, t) ==
      if |Hits(ref, WithSpeciesPlan(t).steps[i])| == 1
      then Assigned(Hits(ref, WithSpeciesPlan(t).steps[i])[0].mean, WithSpeciesPlan(t).steps[i].assigns)
      else Ambiguous
  {
    FirstHitDecides(ref, WithSpeciesPlan(t).steps, 1, i);
  }

  /**
   * A row with a species name that finds nothing at species, genus, family,
   * order and class and exactly one entry at phylum is labelled 'Class' by the
   * species-aware variant, and 'Phylum' by the species-blind one.
   */
  lemma PhylumViaSpeciesLabelledClass(ref: seq<RefEntry>, t: Taxonomy)
    requires t.species.Some?
    requires Matches(Partition(ref, "genus"), t.species) == []
    requires forall j :: 0 <= j < 4 ==> Hits(ref, Ladder(t)[j]) == []
    requires |Hits(ref, PhylumStep(t))| == 1
    ensures Resolve(true, ref, t) == Assigned(Hits(ref, PhylumStep(t))[0].mean, Class)
    ensures Resolve(false, ref, t) == Assigned(Hits(ref, PhylumStep(t))[0].mean, Phylum)
  {
    SpeciesPlanFallsToPhylum(ref, t);
    LadderDecides(ref, t, 4);
  }

  lemma SpeciesPlanFallsToPhylum(ref: seq<RefEntry>, t: Taxonomy)
    requires t.species.Some?
    requires Matches(Partition(ref, "genus"), t.species) == []
    requires forall j :: 0 <= j < 4 ==> Hits(ref, Ladder(t)[j]) == []
    requires |Hits(ref, PhylumStep(t))| == 1
    ensures Resolve(true, ref, t) == Assigned(Hits(ref, PhylumStep(t))[0].mean, Class)
  {
    var steps := WithSpeciesPlan(t).steps;
    assert forall j :: 1 <= j < 5 ==> steps[j] == steps[1..5][j - 1];
    FirstHitDecides(ref, steps, 1, 5);
  }

  /**
   * Two reference rows of the same genus name make the row ambiguous: it keeps NaN and is not listed.
   * A concrete instance of `GenusScenario`, spelled out down to the written cells.
   */
  lemma DuplicateNameAmbiguous(withSpecies: bool, t: Taxonomy, a: real, b: real)
    requires t.species.None? && t.genus == Some("G")
    ensures Resolve(withSpecies, [RefEntry("genus", "G", a), RefEntry("genus", "G", b)], t) == Ambiguous
    ensures CellOf(Ambiguous) == Missing && LevelOf(Ambiguous) == None
  {
    var ref := [RefEntry("genus", "G", a), RefEntry("genus", "G", b)];
    assert Partition(ref, "genus") == ref;
    assert Hits(ref, GenusStep(t)) == ref;
    GenusScenario(withSpecies, ref, t);
  }

  // ---------------------------------------------------------------------------
  // The table, updated in place


  /**
   * An abundance table as the two functions see it: the 'OTU ID' column, the
   * taxonomic name columns, and the two columns they write.
   */
  class OtuTable {
    const ids: seq<string>
    var taxa: seq<Taxonomy>
    var copyNumber: array<CopyNumberCell>
    var level: array<Option<Level>>

    ghost predicate Valid()
      reads this
    {
      && |taxa| == |ids| && copyNumber.Length == |ids| && level.Length == |ids|
      && copyNumber as object != level as object
    }

    constructor (ids: seq<string>, taxa: seq<Taxonomy>)
      requires |ids| == |taxa|
      ensures Valid() && this.ids == ids && this.taxa == taxa
    {
      this.ids := ids;
      this.taxa := taxa;
      copyNumber := new CopyNumberCell[|ids|](_ => Missing);
      level := new Option<Level>[|ids|](_ => None);
    }

    /** `assign_copynums_with_species`. */
    method AssignCopyNumsWithSpecies(ref: seq<RefEntry>) returns (toSequence: seq<string>, unknownLevels: seq<nat>)
      requires Valid()
      modifies this
      ensures Valid()
      ensures taxa == StripAll(old(taxa), true)
      ensures fresh(copyNumber) && fresh(level)
      ensures forall k :: 0 <= k < |ids| ==>
        copyNumber[k] == CellOf(Resolve(true, ref, taxa[k])) && level[k] == LevelOf(Resolve(true, ref, taxa[k]))
      ensures var u := UnresolvedRows(Outcomes(true, ref, taxa), |ids|);
        |toSequence| == |u| && |unknownLevels| == |u| &&
        forall i :: 0 <= i < |u| ==>
          toSequence[i] == ids[u[i]] && unknownLevels[i] == Resolve(true, ref, taxa[u[i]]).code
    {
      toSequence, unknownLevels := Assign(true, ref);
    }

    /** `assign_copynums`: the same without the Species column. */
    method AssignCopyNums(ref: seq<RefEntry>) returns (toSequence: seq<string>, unknownLevels: seq<nat>)
      requires Valid()
      modifies this
      ensures Valid()
      ensures taxa == StripAll(old(taxa), false)
      ensures fresh(copyNumber) && fresh(level)
      ensures forall k :: 0 <= k < |ids| ==>
        copyNumber[k] == CellOf(Resolve(false, ref, taxa[k])) && level[k] == LevelOf(Resolve(false, ref, taxa[k]))
      ensures var u := UnresolvedRows(Outcomes(false, ref, taxa), |ids|);
        |toSequence| == |u| && |unknownLevels| == |u| &&
        forall i :: 0 <= i < |u| ==>
          toSequence[i] == ids[u[i]] && unknownLevels[i] == Resolve(false, ref, taxa[u[i]]).code
    {
      toSequence, unknownLevels := Assign(false, ref);
    }

    /**
     * The body both functions share: strip the name columns, reset the two
     * result columns to NaN, then visit every row once.
     */
    method Assign(withSpecies: bool, ref: seq<RefEntry>) returns (toSequence: seq<string>, unknownLevels: seq<nat>)
      requires Valid()
      modifies this
      ensures Valid()
      ensures taxa == StripAll(old(taxa), withSpecies)
      ensures fresh(copyNumber) && fresh(level)
      ensures forall k :: 0 <= k < |ids| ==>
        copyNumber[k] == CellOf(Resolve(withSpecies, ref, taxa[k]))
        && level[k] == LevelOf(Resolve(withSpecies, ref, taxa[k]))
      ensures var u := UnresolvedRows(Outcomes(withSpecies, ref, taxa), |ids|);
        |toSequence| == |u| && |unknownLevels| == |u| &&
        forall i :: 0 <= i < |u| ==>
          toSequence[i] == ids[u[i]] && unknownLevels[i] == Resolve(withSpecies, ref, taxa[u[i]]).code
    {
      taxa := StripAll(taxa, withSpecies);
      copyNumber := new CopyNumberCell[|ids|](_ => Missing);
      level := new Option<Level>[|ids|](_ => None);
      var outcomes := Outcomes(withSpecies, ref, taxa);
      toSequence, unknownLevels := FillRows(outcomes);
    }

    /**
     * The `for k in range(len(data))` loop over the (stripped) rows, given each
     * row's outcome: a match writes the mean and its label, an unresolved row
     * writes 'nan' and is appended to both lists, an ambiguous row is left as it is.
     */
    method FillRows(outcomes: seq<Outcome>) returns (toSequence: seq<string>, unknownLevels: seq<nat>)
      requires Valid() && |outcomes| == |ids|
      requires forall k :: 0 <= k < |ids| ==> copyNumber[k] == Missing && level[k] == None
      modifies copyNumber, level
      ensures forall k :: 0 <= k < |ids| ==> copyNumber[k] == CellOf(outcomes[k]) && level[k] == LevelOf(outcomes[k])
      ensures var u := UnresolvedRows(outcomes, |ids|);
        |toSequence| == |u| && |unknownLevels| == |u| &&
        forall i :: 0 <= i < |u| ==> toSequence[i] == ids[u[i]] && unknownLevels[i] == outcomes[u[i]].code
    {
      var n := |ids|;
      ghost var u: seq<nat> := [];
      toSequence, unknownLevels := [], [];
      for k := 0 to n
        invariant forall j :: 0 <= j < k ==> copyNumber[j] == CellOf(outcomes[j]) && level[j] == LevelOf(outcomes[j])
        invariant forall j :: k <= j < n ==> copyNumber[j] == Missing && level[j] == None
        invariant u == UnresolvedRows(outcomes, k)
        invariant |toSequence| == |u| && |unknownLevels| == |u|
        invariant forall i :: 0 <= i < |u| ==> toSequence[i] == ids[u[i]] && unknownLevels[i] == outcomes[u[i]].code
      {
        var o := outcomes[k];
        if o.Assigned? {
          copyNumber[k] := Mean(o.mean);
          level[k] := Some(o.level);
        } else if o.Unresolved? {
          copyNumber[k] := NanText;
          toSequence := toSequence + [ids[k]];
          unknownLevels := unknownLevels + [o.code];
          u := u + [k];
        }
        // an ambiguous row only prints a warning in the source: nothing is written
      }
    }
  }
}
