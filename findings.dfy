/** Two inputs on which the batched run and the one-record-at-a-time run
    part ways as the code is written, over the one-transcript sample
    annotation: a record whose last allele is symbolic, and a record
    without an ALT list. */
module Findings {
  import opened Sequences
  import opened Tensors
  import opened Chrom
  import opened Variant
  import opened Annotation
  import opened Encoding
  import opened Pairs
  import opened Scoring
  import opened BatchUtils
  import opened Batch

  /** A SNV allele followed by a '*' allele, inside the sample transcript. */
  function StarRecord(): (r: Record)
    ensures WellFormed(r)
  {
    Record("1", 20000, "A", Some(["C", "*"]))
  }

  /** The same site with no ALT list (a '.' ALT column). */
  function NoAltRecord(): (r: Record)
    ensures WellFormed(r)
  {
    Record("1", 20000, "A", None)
  }

  /** A strictly ascending list of integers in [lo, n) has at most n - lo
      entries. */
  lemma {:induction false} AscendingBound(xs: seq<int>, lo: int, n: int)
    requires lo <= n
    requires forall k, l :: 0 <= k < l < |xs| ==> xs[k] < xs[l]
    requires forall k :: 0 <= k < |xs| ==> lo <= xs[k] < n
    ensures |xs| <= n - lo
    decreases |xs|
  {
    if |xs| > 0 {
      AscendingBound(xs[1..], xs[0] + 1, n);
    }
  }

  /** The sample annotation finds its one transcript at 20000 on "1". */
  lemma SampleGenes()
    ensures GetNameAndStrand(SampleAnnotator(), "1", 20000).idxs == [0]
  {
    var ann := SampleAnnotator();
    var gi := GetNameAndStrand(ann, "1", 20000);
    SameStyleUnchanged("1", "1");
    assert 0 in gi.idxs;
    assert forall k :: 0 <= k < |gi.idxs| ==> gi.idxs[k] == 0;
    AscendingBound(gi.idxs, 0, 1);
  }

  /** With flank 1 the sample genome yields a full window of A's whose
      centre matches REF "A". */
  lemma StarPredictable()
    ensures Predictable(StarRecord(), SampleAnnotator(), 1)
  {
    var ann, r := SampleAnnotator(), StarRecord();
    var wid := GetWid(GetCov(1));
    var sequence := GetSeq(r, ann, wid);
    SameStyleUnchanged("1", "1");
    assert sequence == Repeat('A', wid);
    assert Slice(sequence, wid / 2, wid / 2 + 1) == ['A'];
    assert Upper(['A']) == "A";
  }

  /** Of the two alleles, "C" is scorable and "*" is not. */
  lemma StarAlleles()
    ensures var r := StarRecord();
      ValidAlt(r, 0) && !ValidAlt(r, 1) && ValidAltCount(r, |AltList(r)|) == 1
  {
    var r := StarRecord();
    assert '*' in r.alts.value[1];
    assert ValidAlt(r, 0);
    assert ValidAltCount(r, 1) == 1;
  }

  /** The star record has rows in a batch: it is predictable, and allele 0
      with transcript 0 is a scorable pair. */
  lemma StarHasRows()
    ensures var ann, r := SampleAnnotator(), StarRecord();
      HasRows(r, ann, 1, GetNameAndStrand(ann, r.chrom, r.pos))
  {
    var ann, r := SampleAnnotator(), StarRecord();
    SampleGenes();
    StarPredictable();
    StarAlleles();
    ScoredPairsExactly(r, 1);
    assert Pair(0, 0) in ScoredPairs(r, 1);
  }

  /** Finding: after the last scorable pair, the cursor equals the length
      of the prediction lists; the next pair, whose allele is '*', is read
      before the allele is checked, so the as-written extractor raises
      IndexError (ExtractDeltaScoresAsWritten's contract gives exactly this
      condition) on a record for which get_delta_scores returns one entry. */
  lemma LastAlleleInvalidRaises()
    ensures var ann, r := SampleAnnotator(), StarRecord();
      var gi := GetNameAndStrand(ann, r.chrom, r.pos);
      && HasRows(r, ann, 1, gi) && !ValidAlt(r, |AltList(r)| - 1)
      && |Scores(r, ann, 1, false, gi)| == 1
  {
    var ann, r := SampleAnnotator(), StarRecord();
    var gi := GetNameAndStrand(ann, r.chrom, r.pos);
    SampleGenes();
    StarHasRows();
    StarAlleles();
    ScoresCount(r, ann, 1, false, gi);
  }

  /** Finding: the batch counts len(record.alts) * len(genes) before
      anything checks the ALT list, so a record without one raises
      TypeError in the batched run, while get_delta_scores returns no entry
      and the record is written unchanged; the corrected count is 0. */
  lemma MissingAltRaises()
    ensures var ann, r := SampleAnnotator(), NoAltRecord();
      var gi := GetNameAndStrand(ann, r.chrom, r.pos);
      && PredictionCountAsWritten(r, gi).None?
      && DeltaScoresOf(ann, r, 1, false) == []
      && Annotate(r, DeltaScoresOf(ann, r, 1, false)) == Written(r, None)
      && PredictionCount(r, gi) == 0
  {
    var ann, r := SampleAnnotator(), NoAltRecord();
    assert !Predictable(r, ann, 1);
  }
}
