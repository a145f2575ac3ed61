/** get_delta_scores, the unbatched per-record scorer: its specification as
    a function of the scored (allele, transcript) pairs, the nested loops
    the source runs, and the annotated record it leads to. */
module Scoring {
  import opened Sequences
  import opened Tensors
  import opened Variant
  import opened Annotation
  import opened Encoding
  import opened DeltaScores
  import opened Pairs

  /** The record-level gates: a readable ALT list, a non-empty genome slice,
      and a predictable location; the transcript gate is in Scores. */
  predicate Predictable(r: Record, ann: Annotator, dist: nat)
    requires AnnValid(ann)
    ensures var wid := GetWid(GetCov(dist));
      Predictable(r, ann, dist) <==> IsRecordValid(r) && IsLocationPredictable(r, GetSeq(r, ann, wid), wid, dist)
  {
    var wid := GetWid(GetCov(dist));
    var sequence := GetSeq(r, ann, wid);
    IsRecordValid(r) && sequence != "" && IsLocationPredictable(r, sequence, wid, dist)
  }

  /** The entry for one (allele, transcript) pair of a predictable record:
      the unhandled text for a complex indel, else the four scores of the
      model's tracks on the encoded windows. */
  function ScorePair(r: Record, ann: Annotator, dist: nat, mask: bool, gi: GeneInfo, p: Pair): (d: DeltaScore)
    requires AnnValid(ann) && WellFormed(r) && Predictable(r, ann, dist)
    requires Covers(ann, gi, r.pos) && ValidAlt(r, p.alt) && p.gene < |gi.idxs|
    ensures IsComplexIndel(r.ref, r.alts.value[p.alt]) ==>
      d == Unhandled(CreateUnhandledDeltaScore(r.alts.value[p.alt], gi.genes[p.gene]))
    ensures !IsComplexIndel(r.ref, r.alts.value[p.alt]) ==>
      var cov := GetCov(dist);
      var x := EncodeSeqs(r, GetSeq(r, ann, GetWid(cov)), ann, gi, p.gene, p.alt, GetWid(cov));
      && |ann.model(x.0)| == cov && |ann.model(x.1)| + |r.ref| == cov + |r.alts.value[p.alt]|
      && d == GetAltGeneDeltaScore(r, ann, p.alt, p.gene, ann.model(x.0), ann.model(x.1), cov, gi, mask)
  {
    var alt := r.alts.value[p.alt];
    if IsComplexIndel(r.ref, alt) then
      Unhandled(CreateUnhandledDeltaScore(alt, gi.genes[p.gene]))
    else
      var cov := GetCov(dist);
      var wid := GetWid(cov);
      var sequence := GetSeq(r, ann, wid);
      var x := EncodeSeqs(r, sequence, ann, gi, p.gene, p.alt, wid);
      EncodedLengths(r, sequence, ann, gi, p.gene, p.alt, dist);
      GetAltGeneDeltaScore(r, ann, p.alt, p.gene, ann.model(x.0), ann.model(x.1), cov, gi, mask)
  }

  /** The entries of a list of pairs, one each, in order. */
  function ScoreAll(r: Record, ann: Annotator, dist: nat, mask: bool, gi: GeneInfo, ps: seq<Pair>): (ds: seq<DeltaScore>)
    requires AnnValid(ann) && WellFormed(r) && Predictable(r, ann, dist) && Covers(ann, gi, r.pos)
    requires forall k :: 0 <= k < |ps| ==> ValidAlt(r, ps[k].alt) && ps[k].gene < |gi.idxs|
    ensures |ds| == |ps|
    ensures forall k :: 0 <= k < |ps| ==> ds[k] == ScorePair(r, ann, dist, mask, gi, ps[k])
  {
    seq(|ps|, k requires 0 <= k < |ps| => ScorePair(r, ann, dist, mask, gi, ps[k]))
  }

  lemma ScoreAllAppend(r: Record, ann: Annotator, dist: nat, mask: bool, gi: GeneInfo, ps: seq<Pair>, p: Pair)
    requires AnnValid(ann) && WellFormed(r) && Predictable(r, ann, dist) && Covers(ann, gi, r.pos)
    requires forall k :: 0 <= k < |ps| ==> ValidAlt(r, ps[k].alt) && ps[k].gene < |gi.idxs|
    requires ValidAlt(r, p.alt) && p.gene < |gi.idxs|
    ensures ScoreAll(r, ann, dist, mask, gi, ps + [p])
         == ScoreAll(r, ann, dist, mask, gi, ps) + [ScorePair(r, ann, dist, mask, gi, p)]
  {
    var a, b := ScoreAll(r, ann, dist, mask, gi, ps + [p]), ScoreAll(r, ann, dist, mask, gi, ps) + [ScorePair(r, ann, dist, mask, gi, p)];
    forall k | 0 <= k < |a| ensures a[k] == b[k] {
      assert (ps + [p])[k] == if k < |ps| then ps[k] else p;
    }
  }

  /** The entries of the valid pairs the two loops have passed before
      reaching (a, g). */
  predicate ScoredUpTo(r: Record, ann: Annotator, dist: nat, mask: bool, gi: GeneInfo, a: nat, g: nat,
                       deltaScores: seq<DeltaScore>)
    requires AnnValid(ann) && WellFormed(r) && Predictable(r, ann, dist) && Covers(ann, gi, r.pos)
    requires g <= |gi.idxs|
  {
    deltaScores == ScoreAll(r, ann, dist, mask, gi, VisitedValid(r, a, g, |gi.idxs|))
  }

  /** One step of the scorer's inner loop: the pair (a, g) adds its entry
      exactly when a is valid. */
  lemma ScoreStep(r: Record, ann: Annotator, dist: nat, mask: bool, gi: GeneInfo, a: nat, g: nat,
                  deltaScores: seq<DeltaScore>)
    requires AnnValid(ann) && WellFormed(r) && Predictable(r, ann, dist) && Covers(ann, gi, r.pos)
    requires g < |gi.idxs| && ScoredUpTo(r, ann, dist, mask, gi, a, g, deltaScores)
    ensures !ValidAlt(r, a) ==> ScoredUpTo(r, ann, dist, mask, gi, a, g + 1, deltaScores)
    ensures ValidAlt(r, a) ==>
      ScoredUpTo(r, ann, dist, mask, gi, a, g + 1, deltaScores + [ScorePair(r, ann, dist, mask, gi, Pair(a, g))])
  {
    var visited := VisitedValid(r, a, g, |gi.idxs|);
    VisitedStep(r, a, g, |gi.idxs|);
    if ValidAlt(r, a) {
      ScoreAllAppend(r, ann, dist, mask, gi, visited, Pair(a, g));
    } else {
      assert visited + [] == visited;
    }
  }

  /** Moving from the last gene of allele a to the first of a + 1. */
  lemma ScoredNextAllele(r: Record, ann: Annotator, dist: nat, mask: bool, gi: GeneInfo, a: nat,
                         deltaScores: seq<DeltaScore>)
    requires AnnValid(ann) && WellFormed(r) && Predictable(r, ann, dist) && Covers(ann, gi, r.pos)
    requires ScoredUpTo(r, ann, dist, mask, gi, a, |gi.idxs|, deltaScores)
    ensures ScoredUpTo(r, ann, dist, mask, gi, a + 1, 0, deltaScores)
  {
    VisitedNextAllele(r, a, |gi.idxs|);
  }

  /** The loops start with no entries and end with every scored pair's. */
  lemma ScoredEnds(r: Record, ann: Annotator, dist: nat, mask: bool, gi: GeneInfo, deltaScores: seq<DeltaScore>)
    requires AnnValid(ann) && WellFormed(r) && Predictable(r, ann, dist) && Covers(ann, gi, r.pos)
    ensures ScoredUpTo(r, ann, dist, mask, gi, 0, 0, [])
    ensures ScoredUpTo(r, ann, dist, mask, gi, |AltList(r)|, 0, deltaScores) ==>
      deltaScores == Scores(r, ann, dist, mask, gi)
  {
    VisitedEnds(r, |gi.idxs|);
  }

  /** The entries for a record and a gene selection covering it: none unless
      the record passes the gates, else one per scored pair. */
  function Scores(r: Record, ann: Annotator, dist: nat, mask: bool, gi: GeneInfo): (ds: seq<DeltaScore>)
    requires AnnValid(ann) && WellFormed(r) && Covers(ann, gi, r.pos)
    ensures !IsRecordValid(r) ==> ds == []
    ensures Predictable(r, ann, dist) ==> |ds| == |ScoredPairs(r, |gi.idxs|)|
  {
    if Predictable(r, ann, dist) then ScoreAll(r, ann, dist, mask, gi, ScoredPairs(r, |gi.idxs|)) else []
  }

  /** What get_delta_scores returns for a record: the entries for the genes
      the annotation finds at its position. */
  function DeltaScoresOf(ann: Annotator, r: Record, dist: nat, mask: bool): (ds: seq<DeltaScore>)
    requires AnnValid(ann) && WellFormed(r)
    ensures !IsRecordValid(r) ==> ds == []
  {
    Scores(r, ann, dist, mask, GetNameAndStrand(ann, r.chrom, r.pos))
  }

  /** The k-th entry belongs to the k-th scored pair in alt-outer,
      gene-inner order; it carries that pair's allele and gene; it is the
      unhandled text exactly for a complex indel and a score otherwise; and
      only alleles free of symbolic characters appear. */
  lemma ScoresFollowPairs(r: Record, ann: Annotator, dist: nat, mask: bool, gi: GeneInfo)
    requires AnnValid(ann) && WellFormed(r) && Covers(ann, gi, r.pos) && Predictable(r, ann, dist)
    ensures var ds, ps := Scores(r, ann, dist, mask, gi), ScoredPairs(r, |gi.idxs|);
      && |ds| == |ps| && Ascending(ps)
      && forall k :: 0 <= k < |ds| ==>
        var alt, gene := r.alts.value[ps[k].alt], gi.genes[ps[k].gene];
        && (ds[k].Unhandled? <==> IsComplexIndel(r.ref, alt))
        && (ds[k].Unhandled? ==> ds[k].text == CreateUnhandledDeltaScore(alt, gene))
        && (ds[k].Scored? ==> ds[k].allele == alt && ds[k].gene == gene)
  {
    ScoredPairsExactly(r, |gi.idxs|);
  }

  /** get_delta_scores returns no entry exactly when the record fails a
      gate, no gene covers it, or none of its alleles is scorable. */
  lemma NoScoresExactly(r: Record, ann: Annotator, dist: nat, mask: bool, gi: GeneInfo)
    requires AnnValid(ann) && WellFormed(r) && Covers(ann, gi, r.pos)
    ensures Scores(r, ann, dist, mask, gi) == [] <==>
      || !Predictable(r, ann, dist) || |gi.idxs| == 0
      || forall a :: 0 <= a < |AltList(r)| ==> !IsValidAltRecord(r, a)
  {
    var ps := ScoredPairs(r, |gi.idxs|);
    ScoredPairsExactly(r, |gi.idxs|);
    if Predictable(r, ann, dist) && |gi.idxs| > 0 {
      if a :| 0 <= a < |AltList(r)| && IsValidAltRecord(r, a) {
        assert Pair(a, 0) in ps;
      }
      if ps != [] {
        assert ValidAlt(r, ps[0].alt);
      }
    }
  }

  /** There are at most |alts| * |genes| entries; exactly that many times the
      number of scorable alleles when the record passes the gates. */
  lemma ScoresCount(r: Record, ann: Annotator, dist: nat, mask: bool, gi: GeneInfo)
    requires AnnValid(ann) && WellFormed(r) && Covers(ann, gi, r.pos)
    ensures |Scores(r, ann, dist, mask, gi)| <= |AltList(r)| * |gi.idxs|
    ensures Predictable(r, ann, dist) ==>
      |Scores(r, ann, dist, mask, gi)| == ValidAltCount(r, |AltList(r)|) * |gi.idxs|
  {
    ScoredPairsCount(r, |gi.idxs|);
  }

  /** get_delta_scores: the gates in order, then the alt-outer, gene-inner
      loops, skipping invalid alleles and reporting complex indels as
      unhandled. */
  method GetDeltaScores(r: Record, ann: Annotator, dist: nat, mask: bool) returns (deltaScores: seq<DeltaScore>)
    requires AnnValid(ann) && WellFormed(r)
    ensures deltaScores == DeltaScoresOf(ann, r, dist, mask)
  {
    var cov := GetCov(dist);
    var wid := GetWid(cov);
    deltaScores := [];
    if !IsRecordValid(r) {
      return;
    }
    var gi := GetNameAndStrand(ann, r.chrom, r.pos);
    if |gi.idxs| == 0 {
      assert ScoredPairs(r, 0) == [];
      return;
    }
    var sequence := GetSeq(r, ann, wid);
    if sequence == "" {
      return;
    }
    if !IsLocationPredictable(r, sequence, wid, dist) {
      return;
    }
    deltaScores := ScoreGenes(r, ann, dist, mask, gi, sequence);
  }

  /** The loops of get_delta_scores for a record past the gates: alleles
      outer, genes inner, skipping invalid alleles. */
  method ScoreGenes(r: Record, ann: Annotator, dist: nat, mask: bool, gi: GeneInfo, sequence: string)
    returns (deltaScores: seq<DeltaScore>)
    requires AnnValid(ann) && WellFormed(r) && Predictable(r, ann, dist) && Covers(ann, gi, r.pos)
    requires sequence == GetSeq(r, ann, GetWid(GetCov(dist)))
    ensures deltaScores == Scores(r, ann, dist, mask, gi)
  {
    ScoredEnds(r, ann, dist, mask, gi, []);
    deltaScores := [];
    var altIx := 0;
    while altIx < |r.alts.value|
      invariant altIx <= |r.alts.value|
      invariant ScoredUpTo(r, ann, dist, mask, gi, altIx, 0, deltaScores)
    {
      deltaScores := ScoreAllele(r, ann, dist, mask, gi, sequence, altIx, deltaScores);
      ScoredNextAllele(r, ann, dist, mask, gi, altIx, deltaScores);
      altIx := altIx + 1;
    }
    ScoredEnds(r, ann, dist, mask, gi, deltaScores);
  }

  /** The inner loop of get_delta_scores: every transcript for one allele,
      in order, when the allele is valid. */
  method ScoreAllele(r: Record, ann: Annotator, dist: nat, mask: bool, gi: GeneInfo, sequence: string, altIx: nat,
                     before: seq<DeltaScore>) returns (deltaScores: seq<DeltaScore>)
    requires AnnValid(ann) && WellFormed(r) && Predictable(r, ann, dist) && Covers(ann, gi, r.pos)
    requires sequence == GetSeq(r, ann, GetWid(GetCov(dist))) && altIx < |AltList(r)|
    requires ScoredUpTo(r, ann, dist, mask, gi, altIx, 0, before)
    ensures ScoredUpTo(r, ann, dist, mask, gi, altIx, |gi.idxs|, deltaScores)
  {
    deltaScores := before;
    var geneIx := 0;
    while geneIx < |gi.idxs|
      invariant geneIx <= |gi.idxs|
      invariant ScoredUpTo(r, ann, dist, mask, gi, altIx, geneIx, deltaScores)
    {
      ScoreStep(r, ann, dist, mask, gi, altIx, geneIx, deltaScores);
      if IsValidAltRecord(r, altIx) {
        var deltaScore := ScoreAlleleGene(r, ann, dist, mask, gi, sequence, altIx, geneIx);
        deltaScores := deltaScores + [deltaScore];
      }
      geneIx := geneIx + 1;
    }
  }

  /** The body of get_delta_scores' inner loop for a valid allele: the
      unhandled text for a complex indel, else the model run on both
      encoded windows and the four scores. */
  method ScoreAlleleGene(r: Record, ann: Annotator, dist: nat, mask: bool, gi: GeneInfo, sequence: string, altIx: nat, geneIx: nat)
    returns (deltaScore: DeltaScore)
    requires AnnValid(ann) && WellFormed(r) && Predictable(r, ann, dist) && Covers(ann, gi, r.pos)
    requires sequence == GetSeq(r, ann, GetWid(GetCov(dist)))
    requires ValidAlt(r, altIx) && geneIx < |gi.idxs|
    ensures deltaScore == ScorePair(r, ann, dist, mask, gi, Pair(altIx, geneIx))
  {
    var alt := r.alts.value[altIx];
    if |r.ref| > 1 && |alt| > 1 {
      deltaScore := Unhandled(CreateUnhandledDeltaScore(alt, gi.genes[geneIx]));
    } else {
      var cov := GetCov(dist);
      var wid := GetWid(cov);
      var x := EncodeSeqs(r, sequence, ann, gi, geneIx, altIx, wid);
      EncodedLengths(r, sequence, ann, gi, geneIx, altIx, dist);
      var yRef := ann.model(x.0);
      var yAlt := ann.model(x.1);
      deltaScore := GetAltGeneDeltaScore(r, ann, altIx, geneIx, yRef, yAlt, cov, gi, mask);
    }
  }

  /** A record as written out: its SpliceAI INFO field holds the entries
      when there are any; otherwise the record goes out unchanged. */
  datatype Written = Written(record: Record, spliceAI: Option<seq<DeltaScore>>)

  function Annotate(r: Record, ds: seq<DeltaScore>): (w: Written)
    ensures w.record == r
    ensures w.spliceAI.Some? <==> ds != []
    ensures w.spliceAI.Some? ==> w.spliceAI.value == ds
  {
    Written(r, if ds != [] then Some(ds) else None)
  }

  /** Every record annotated with its own entries, in input order. */
  function AnnotateAll(ann: Annotator, rs: seq<Record>, dist: nat, mask: bool): (ws: seq<Written>)
    requires AnnValid(ann) && forall k :: 0 <= k < |rs| ==> WellFormed(rs[k])
    ensures |ws| == |rs|
    ensures forall k :: 0 <= k < |rs| ==> ws[k] == Annotate(rs[k], DeltaScoresOf(ann, rs[k], dist, mask))
  {
    seq(|rs|, k requires 0 <= k < |rs| => Annotate(rs[k], DeltaScoresOf(ann, rs[k], dist, mask)))
  }

  lemma AnnotateAllAppend(ann: Annotator, rs: seq<Record>, r: Record, dist: nat, mask: bool)
    requires AnnValid(ann) && WellFormed(r) && forall k :: 0 <= k < |rs| ==> WellFormed(rs[k])
    ensures AnnotateAll(ann, rs + [r], dist, mask)
         == AnnotateAll(ann, rs, dist, mask) + [Annotate(r, DeltaScoresOf(ann, r, dist, mask))]
  {
  }
}
