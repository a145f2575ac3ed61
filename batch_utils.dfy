/** The batched split of get_delta_scores: every scorable pair of a record is
    encoded up front, the model runs on whole batches, and the rows it hands
    back are turned into entries by walking the same pairs with a cursor. */
module BatchUtils {
  import opened Sequences
  import opened Tensors
  import opened Variant
  import opened Annotation
  import opened Encoding
  import opened DeltaScores
  import opened Pairs
  import opened Scoring

  /** The encoded windows of one scorable pair of a predictable record:
      the reference window is wid wide, the mutated one wid + |alt| - |ref|,
      and neither is empty. */
  function EncodePair(r: Record, ann: Annotator, dist: nat, gi: GeneInfo, p: Pair): (x: (Window, Window))
    requires AnnValid(ann) && WellFormed(r) && Predictable(r, ann, dist) && Covers(ann, gi, r.pos)
    requires ValidAlt(r, p.alt) && p.gene < |gi.idxs|
    ensures |x.0| == GetWid(GetCov(dist)) && |x.1| + |r.ref| == |x.0| + |r.alts.value[p.alt]|
    ensures |x.0| > 0 && |x.1| > 0
  {
    var wid := GetWid(GetCov(dist));
    var sequence := GetSeq(r, ann, wid);
    EncodedLengths(r, sequence, ann, gi, p.gene, p.alt, dist);
    EncodeSeqs(r, sequence, ann, gi, p.gene, p.alt, wid)
  }

  /** The encodings of a list of pairs, one row each per role, in order. */
  function EncodeRows(r: Record, ann: Annotator, dist: nat, gi: GeneInfo, ps: seq<Pair>): (xs: (seq<Window>, seq<Window>))
    requires AnnValid(ann) && WellFormed(r) && Predictable(r, ann, dist) && Covers(ann, gi, r.pos)
    requires forall k :: 0 <= k < |ps| ==> ValidAlt(r, ps[k].alt) && ps[k].gene < |gi.idxs|
    ensures |xs.0| == |ps| && |xs.1| == |ps|
  {
    if ps == [] then ([], [])
    else
      var xs := EncodeRows(r, ann, dist, gi, ps[..|ps| - 1]);
      var x := EncodePair(r, ann, dist, gi, ps[|ps| - 1]);
      (xs.0 + [x.0], xs.1 + [x.1])
  }

  /** Row k of the encodings is the encoding of pair k. */
  lemma {:induction false} EncodeRowsAt(r: Record, ann: Annotator, dist: nat, gi: GeneInfo, ps: seq<Pair>, k: nat)
    requires AnnValid(ann) && WellFormed(r) && Predictable(r, ann, dist) && Covers(ann, gi, r.pos)
    requires forall k :: 0 <= k < |ps| ==> ValidAlt(r, ps[k].alt) && ps[k].gene < |gi.idxs|
    requires k < |ps|
    ensures EncodeRows(r, ann, dist, gi, ps).0[k] == EncodePair(r, ann, dist, gi, ps[k]).0
    ensures EncodeRows(r, ann, dist, gi, ps).1[k] == EncodePair(r, ann, dist, gi, ps[k]).1
  {
    var prev := ps[..|ps| - 1];
    var xs := EncodeRows(r, ann, dist, gi, prev);
    var x := EncodePair(r, ann, dist, gi, ps[|ps| - 1]);
    assert EncodeRows(r, ann, dist, gi, ps) == (xs.0 + [x.0], xs.1 + [x.1]);
    if k < |ps| - 1 {
      EncodeRowsAt(r, ann, dist, gi, prev, k);
      assert prev[k] == ps[k];
    }
  }

  /** What encode_batch_records returns: nothing unless the record passes
      the gates, else the windows of every scored pair. */
  function EncodeSpec(r: Record, ann: Annotator, dist: nat, gi: GeneInfo): (xs: (seq<Window>, seq<Window>))
    requires AnnValid(ann) && WellFormed(r) && Covers(ann, gi, r.pos)
    ensures |xs.0| == |xs.1|
    ensures !Predictable(r, ann, dist) ==> xs == ([], [])
  {
    if Predictable(r, ann, dist) then EncodeRows(r, ann, dist, gi, ScoredPairs(r, |gi.idxs|)) else ([], [])
  }

  /** The encoder emits one pair of rows per (allele, transcript) pair with
      a scorable allele, complex indels included, in alt-outer, gene-inner
      order; the rows are never empty, and each mutated row differs in
      width from the reference row by |alt| - |ref|. */
  lemma EncodedRowsMatchPairs(r: Record, ann: Annotator, dist: nat, gi: GeneInfo)
    requires AnnValid(ann) && WellFormed(r) && Covers(ann, gi, r.pos) && Predictable(r, ann, dist)
    ensures var xs, ps := EncodeSpec(r, ann, dist, gi), ScoredPairs(r, |gi.idxs|);
      && |xs.0| == |ps| && |xs.1| == |ps|
      && forall k :: 0 <= k < |ps| ==>
        && ps[k].alt < |r.alts.value| && IsValidAltRecord(r, ps[k].alt) && ps[k].gene < |gi.idxs|
        && |xs.0[k]| == GetWid(GetCov(dist)) > 0
        && |xs.1[k]| + |r.ref| == |xs.0[k]| + |r.alts.value[ps[k].alt]| && |xs.1[k]| > 0
  {
    var ps := ScoredPairs(r, |gi.idxs|);
    forall k | 0 <= k < |ps| {
      EncodeRowsAt(r, ann, dist, gi, ps, k);
    }
  }

  /** The rows of the valid pairs the encoder's loops have passed before
      reaching (a, g). */
  predicate EncodedUpTo(r: Record, ann: Annotator, dist: nat, gi: GeneInfo, a: nat, g: nat,
                        allXRef: seq<Window>, allXAlt: seq<Window>)
    requires AnnValid(ann) && WellFormed(r) && Predictable(r, ann, dist) && Covers(ann, gi, r.pos)
    requires g <= |gi.idxs|
  {
    (allXRef, allXAlt) == EncodeRows(r, ann, dist, gi, VisitedValid(r, a, g, |gi.idxs|))
  }

  /** One step of the encoder's inner loop: the pair (a, g) adds its rows
      exactly when a is valid. */
  lemma EncodeStep(r: Record, ann: Annotator, dist: nat, gi: GeneInfo, a: nat, g: nat,
                   allXRef: seq<Window>, allXAlt: seq<Window>)
    requires AnnValid(ann) && WellFormed(r) && Predictable(r, ann, dist) && Covers(ann, gi, r.pos)
    requires g < |gi.idxs| && EncodedUpTo(r, ann, dist, gi, a, g, allXRef, allXAlt)
    ensures !ValidAlt(r, a) ==> EncodedUpTo(r, ann, dist, gi, a, g + 1, allXRef, allXAlt)
    ensures ValidAlt(r, a) ==>
      var x := EncodePair(r, ann, dist, gi, Pair(a, g));
      EncodedUpTo(r, ann, dist, gi, a, g + 1, allXRef + [x.0], allXAlt + [x.1])
  {
    var nGenes := |gi.idxs|;
    VisitedStep(r, a, g, nGenes);
    var visited := VisitedValid(r, a, g, nGenes);
    if ValidAlt(r, a) {
      var next := VisitedValid(r, a, g + 1, nGenes);
      assert next[..|next| - 1] == visited;
    } else {
      assert visited + [] == visited;
    }
  }

  /** The loops start with no rows and end with every scored pair's. */
  lemma EncodedEnds(r: Record, ann: Annotator, dist: nat, gi: GeneInfo)
    requires AnnValid(ann) && WellFormed(r) && Predictable(r, ann, dist) && Covers(ann, gi, r.pos)
    ensures EncodedUpTo(r, ann, dist, gi, 0, 0, [], [])
    ensures forall allXRef, allXAlt :: EncodedUpTo(r, ann, dist, gi, |AltList(r)|, 0, allXRef, allXAlt) ==>
      (allXRef, allXAlt) == EncodeSpec(r, ann, dist, gi)
  {
    VisitedEnds(r, |gi.idxs|);
  }

  /** encode_batch_records: the gates, then the alt-outer, gene-inner loops
      appending both windows of every pair whose allele is valid. */
  method EncodeBatchRecords(r: Record, ann: Annotator, dist: nat, gi: GeneInfo)
    returns (allXRef: seq<Window>, allXAlt: seq<Window>)
    requires AnnValid(ann) && WellFormed(r) && Covers(ann, gi, r.pos)
    ensures (allXRef, allXAlt) == EncodeSpec(r, ann, dist, gi)
  {
    var cov := GetCov(dist);
    var wid := GetWid(cov);
    allXRef, allXAlt := [], [];
    if !IsRecordValid(r) {
      return;
    }
    var sequence := GetSeq(r, ann, wid);
    if sequence == "" {
      return;
    }
    if !IsLocationPredictable(r, sequence, wid, dist) {
      return;
    }
    allXRef, allXAlt := EncodeAlleles(r, ann, dist, gi, sequence);
  }

  /** The outer loop of encode_batch_records for a record past the gates,
      over the alleles. */
  method EncodeAlleles(r: Record, ann: Annotator, dist: nat, gi: GeneInfo, sequence: string)
    returns (allXRef: seq<Window>, allXAlt: seq<Window>)
    requires AnnValid(ann) && WellFormed(r) && Predictable(r, ann, dist) && Covers(ann, gi, r.pos)
    requires sequence == GetSeq(r, ann, GetWid(GetCov(dist)))
    ensures (allXRef, allXAlt) == EncodeSpec(r, ann, dist, gi)
  {
    EncodedEnds(r, ann, dist, gi);
    allXRef, allXAlt := [], [];
    var altIx := 0;
    while altIx < |r.alts.value|
      invariant altIx <= |r.alts.value|
      invariant EncodedUpTo(r, ann, dist, gi, altIx, 0, allXRef, allXAlt)
    {
      allXRef, allXAlt := EncodeGenes(r, ann, dist, gi, sequence, altIx, allXRef, allXAlt);
      altIx := altIx + 1;
    }
  }

  /** The inner loop of encode_batch_records, over the transcripts for one
      allele: both windows of each pair are appended when the allele is
      valid. */
  method EncodeGenes(r: Record, ann: Annotator, dist: nat, gi: GeneInfo, sequence: string, altIx: nat,
                     xRefs: seq<Window>, xAlts: seq<Window>)
    returns (allXRef: seq<Window>, allXAlt: seq<Window>)
    requires AnnValid(ann) && WellFormed(r) && Predictable(r, ann, dist) && Covers(ann, gi, r.pos)
    requires sequence == GetSeq(r, ann, GetWid(GetCov(dist))) && altIx < |r.alts.value|
    requires EncodedUpTo(r, ann, dist, gi, altIx, 0, xRefs, xAlts)
    ensures EncodedUpTo(r, ann, dist, gi, altIx + 1, 0, allXRef, allXAlt)
  {
    var wid := GetWid(GetCov(dist));
    allXRef, allXAlt := xRefs, xAlts;
    var geneIx := 0;
    while geneIx < |gi.idxs|
      invariant geneIx <= |gi.idxs|
      invariant EncodedUpTo(r, ann, dist, gi, altIx, geneIx, allXRef, allXAlt)
    {
      EncodeStep(r, ann, dist, gi, altIx, geneIx, allXRef, allXAlt);
      if IsValidAltRecord(r, altIx) {
        var x := EncodeSeqs(r, sequence, ann, gi, geneIx, altIx, wid);
        assert x == EncodePair(r, ann, dist, gi, Pair(altIx, geneIx));
        allXRef := allXRef + [x.0];
        allXAlt := allXAlt + [x.1];
      }
      geneIx := geneIx + 1;
    }
    VisitedNextAllele(r, altIx, |gi.idxs|);
  }

  /** What the batch hands back for one role of a record: the model's track
      for each encoded row, or the single placeholder None when the record
      had no rows. */
  function Predictions(ann: Annotator, rows: seq<Window>): (ys: seq<Option<Track>>)
    ensures rows == [] ==> ys == [None]
    ensures rows != [] ==> |ys| == |rows| && forall k :: 0 <= k < |rows| ==> ys[k] == Some(ann.model(rows[k]))
  {
    if rows == [] then [None] else seq(|rows|, k requires 0 <= k < |rows| => Some(ann.model(rows[k])))
  }

  /** The outcome of extract_delta_scores as written: the entries, or the
      exception the walk raises. */
  datatype Extracted = Extracted(scores: seq<DeltaScore>) | IndexError | TypeError

  /** Whether the model's rows for a record are real rows rather than the
      placeholder: the record passed the gates and has a scored pair. */
  predicate HasRows(r: Record, ann: Annotator, dist: nat, gi: GeneInfo)
    requires AnnValid(ann)
  {
    Predictable(r, ann, dist) && ScoredPairs(r, |gi.idxs|) != []
  }

  /** With rows, the valid pairs passed before a valid pair (a, g) count
      out the index of (a, g)'s own rows. */
  lemma RowsAt(r: Record, ann: Annotator, dist: nat, gi: GeneInfo, a: nat, g: nat)
    requires AnnValid(ann) && WellFormed(r) && Covers(ann, gi, r.pos) && Predictable(r, ann, dist)
    requires a < |AltList(r)| && ValidAlt(r, a) && g < |gi.idxs|
    ensures var xs, n := EncodeSpec(r, ann, dist, gi), |VisitedValid(r, a, g, |gi.idxs|)|;
      && n < |xs.0|
      && xs.0[n] == EncodePair(r, ann, dist, gi, Pair(a, g)).0
      && xs.1[n] == EncodePair(r, ann, dist, gi, Pair(a, g)).1
  {
    var ps := ScoredPairs(r, |gi.idxs|);
    VisitedValidAt(r, a, g, |gi.idxs|);
    EncodeRowsAt(r, ann, dist, gi, ps, |VisitedValid(r, a, g, |gi.idxs|)|);
  }

  /** The model's tracks on a pair's rows score the pair as the unbatched
      scorer does. */
  lemma ScoreFromRows(r: Record, ann: Annotator, dist: nat, mask: bool, gi: GeneInfo, p: Pair)
    requires AnnValid(ann) && WellFormed(r) && Predictable(r, ann, dist) && Covers(ann, gi, r.pos)
    requires ValidAlt(r, p.alt) && p.gene < |gi.idxs| && !IsComplexIndel(r.ref, r.alts.value[p.alt])
    ensures var x, cov := EncodePair(r, ann, dist, gi, p), GetCov(dist);
      && |ann.model(x.0)| == cov && |ann.model(x.1)| + |r.ref| == cov + |r.alts.value[p.alt]|
      && ScorePair(r, ann, dist, mask, gi, p)
         == GetAltGeneDeltaScore(r, ann, p.alt, p.gene, ann.model(x.0), ann.model(x.1), cov, gi, mask)
  {
  }

  /** What the extractor finds at the cursor for the pair (a, g): with no
      rows, the placeholder; with rows, one row per scored pair, so the
      cursor (the number of valid pairs passed) is in range exactly while a
      valid allele remains, and for a valid allele it reads a prediction on
      which the delta score is the unbatched scorer's entry. */
  predicate CursorReads(allYRef: seq<Option<Track>>, allYAlt: seq<Option<Track>>, r: Record,
                        ann: Annotator, dist: nat, mask: bool, gi: GeneInfo, a: nat, g: nat)
    requires AnnValid(ann) && WellFormed(r) && Covers(ann, gi, r.pos)
    requires a < |AltList(r)| && g < |gi.idxs|
  {
    && (!HasRows(r, ann, dist, gi) ==> allYRef == [None] && allYAlt == [None])
    && (HasRows(r, ann, dist, gi) ==>
          var n := |VisitedValid(r, a, g, |gi.idxs|)|;
          && |allYRef| == |allYAlt| == |ScoredPairs(r, |gi.idxs|)|
          && (n < |allYRef| <==> ValidAlt(r, a) || !NoValidFrom(r, a, |AltList(r)|))
          && (n < |allYRef| ==> allYRef[n].Some? && allYAlt[n].Some?))
    && (HasRows(r, ann, dist, gi) && ValidAlt(r, a) && !IsComplexIndel(r.ref, r.alts.value[a]) ==>
          var n, cov := |VisitedValid(r, a, g, |gi.idxs|)|, GetCov(dist);
          && n < |allYRef| && n < |allYAlt| && allYRef[n].Some? && allYAlt[n].Some?
          && |allYRef[n].value| == cov && |allYAlt[n].value| + |r.ref| == cov + |r.alts.value[a]|
          && GetAltGeneDeltaScore(r, ann, a, g, allYRef[n].value, allYAlt[n].value, cov, gi, mask)
             == ScorePair(r, ann, dist, mask, gi, Pair(a, g)))
  }

  /** On the rows the batch hands back for a record, the cursor reads as
      described at every pair. */
  lemma CursorStep(allYRef: seq<Option<Track>>, allYAlt: seq<Option<Track>>, r: Record,
                   ann: Annotator, dist: nat, mask: bool, gi: GeneInfo, a: nat, g: nat)
    requires AnnValid(ann) && WellFormed(r) && Covers(ann, gi, r.pos)
    requires allYRef == Predictions(ann, EncodeSpec(r, ann, dist, gi).0)
    requires allYAlt == Predictions(ann, EncodeSpec(r, ann, dist, gi).1)
    requires a < |AltList(r)| && g < |gi.idxs|
    ensures CursorReads(allYRef, allYAlt, r, ann, dist, mask, gi, a, g)
  {
    if HasRows(r, ann, dist, gi) {
      var nGenes := |gi.idxs|;
      var n := |VisitedValid(r, a, g, nGenes)|;
      CursorBound(r, a, g, nGenes);
      if ValidAlt(r, a) {
        RowsAt(r, ann, dist, gi, a, g);
        if !IsComplexIndel(r.ref, r.alts.value[a]) {
          ScoreFromRows(r, ann, dist, mask, gi, Pair(a, g));
        }
      }
    }
  }

  /** Where the extractor stands before the pair (a, g): with rows, the
      cursor has passed one row per valid pair visited and the entries are
      those pairs' entries; without rows, it has passed nothing. */
  predicate Walked(r: Record, ann: Annotator, dist: nat, mask: bool, gi: GeneInfo, a: nat, g: nat,
                   predIx: nat, deltaScores: seq<DeltaScore>)
    requires AnnValid(ann) && WellFormed(r) && Covers(ann, gi, r.pos) && g <= |gi.idxs|
  {
    if HasRows(r, ann, dist, gi) then
      predIx == |VisitedValid(r, a, g, |gi.idxs|)| && ScoredUpTo(r, ann, dist, mask, gi, a, g, deltaScores)
    else
      predIx == 0 && deltaScores == []
  }

  /** The walk starts at the first pair with nothing passed, and past the
      last allele it has produced the unbatched scorer's entries. */
  lemma WalkedEnds(r: Record, ann: Annotator, dist: nat, mask: bool, gi: GeneInfo, predIx: nat, deltaScores: seq<DeltaScore>)
    requires AnnValid(ann) && WellFormed(r) && Covers(ann, gi, r.pos)
    ensures Walked(r, ann, dist, mask, gi, 0, 0, 0, [])
    ensures Walked(r, ann, dist, mask, gi, |AltList(r)|, 0, predIx, deltaScores) ==>
      deltaScores == Scores(r, ann, dist, mask, gi)
  {
    VisitedEnds(r, |gi.idxs|);
    if HasRows(r, ann, dist, gi) {
      ScoredEnds(r, ann, dist, mask, gi, deltaScores);
    }
  }

  /** Moving from the last gene of allele a to the first of a + 1. */
  lemma WalkedNextAllele(r: Record, ann: Annotator, dist: nat, mask: bool, gi: GeneInfo, a: nat,
                         predIx: nat, deltaScores: seq<DeltaScore>)
    requires AnnValid(ann) && WellFormed(r) && Covers(ann, gi, r.pos)
    requires Walked(r, ann, dist, mask, gi, a, |gi.idxs|, predIx, deltaScores)
    ensures Walked(r, ann, dist, mask, gi, a + 1, 0, predIx, deltaScores)
  {
    VisitedNextAllele(r, a, |gi.idxs|);
    if HasRows(r, ann, dist, gi) {
      ScoredNextAllele(r, ann, dist, mask, gi, a, deltaScores);
    }
  }

  /** The as-written read at the cursor is in range except when, with
      rows, the allele is not valid and no later one is. */
  lemma CursorInRange(allYRef: seq<Option<Track>>, allYAlt: seq<Option<Track>>, r: Record,
                      ann: Annotator, dist: nat, mask: bool, gi: GeneInfo, altIx: nat, geneIx: nat,
                      predIx: nat, deltaScores: seq<DeltaScore>)
    requires AnnValid(ann) && WellFormed(r) && Covers(ann, gi, r.pos)
    requires altIx < |AltList(r)| && geneIx < |gi.idxs|
    requires CursorReads(allYRef, allYAlt, r, ann, dist, mask, gi, altIx, geneIx)
    requires Walked(r, ann, dist, mask, gi, altIx, geneIx, predIx, deltaScores)
    ensures predIx < |allYRef| && predIx < |allYAlt|
        <==> !(HasRows(r, ann, dist, gi) && !ValidAlt(r, altIx) && NoValidFrom(r, altIx, |AltList(r)|))
  {
  }

  /** One pass of extract_delta_scores' inner loop as written: the rows at
      the cursor are read before the allele is checked, which fails (ok
      false) exactly when, with rows, the allele is not valid and no later
      one is; otherwise the walk moves on to (a, g + 1). */
  method ExtractPairAsWritten(allYRef: seq<Option<Track>>, allYAlt: seq<Option<Track>>, r: Record,
                              ann: Annotator, dist: nat, mask: bool, gi: GeneInfo, altIx: nat, geneIx: nat,
                              predIx: nat, deltaScores: seq<DeltaScore>)
    returns (ok: bool, predIx': nat, deltaScores': seq<DeltaScore>)
    requires AnnValid(ann) && WellFormed(r) && Covers(ann, gi, r.pos) && IsRecordValid(r)
    requires altIx < |AltList(r)| && geneIx < |gi.idxs|
    requires CursorReads(allYRef, allYAlt, r, ann, dist, mask, gi, altIx, geneIx)
    requires Walked(r, ann, dist, mask, gi, altIx, geneIx, predIx, deltaScores)
    ensures !ok <==> HasRows(r, ann, dist, gi) && !ValidAlt(r, altIx) && NoValidFrom(r, altIx, |AltList(r)|)
    ensures ok ==> Walked(r, ann, dist, mask, gi, altIx, geneIx + 1, predIx', deltaScores')
  {
    CursorInRange(allYRef, allYAlt, r, ann, dist, mask, gi, altIx, geneIx, predIx, deltaScores);
    if predIx >= |allYRef| || predIx >= |allYAlt| {
      return false, predIx, deltaScores;
    }
    var cov := GetCov(dist);
    var alts := r.alts.value;
    if HasRows(r, ann, dist, gi) {
      ScoreStep(r, ann, dist, mask, gi, altIx, geneIx, deltaScores);
      VisitedStep(r, altIx, geneIx, |gi.idxs|);
    }
    ok, predIx', deltaScores' := true, predIx, deltaScores;
    var yRef := allYRef[predIx];
    var yAlt := allYAlt[predIx];
    if yRef.Some? && yAlt.Some? && IsValidAltRecord(r, altIx) {
      if |r.ref| > 1 && |alts[altIx]| > 1 {
        predIx' := predIx + 1;
        var deltaScore := CreateUnhandledDeltaScore(alts[altIx], gi.genes[geneIx]);
        deltaScores' := deltaScores + [Unhandled(deltaScore)];
      } else {
        var deltaScore := GetAltGeneDeltaScore(r, ann, altIx, geneIx, yRef.value, yAlt.value, cov, gi, mask);
        assert deltaScore == ScorePair(r, ann, dist, mask, gi, Pair(altIx, geneIx));
        deltaScores' := deltaScores + [deltaScore];
        predIx' := predIx + 1;
      }
    }
  }

  /** extract_delta_scores as written, on the rows the batch hands back for
      the same record: it reads the cursor's rows before checking the
      allele, so a record whose last allele is not scorable (and which has
      rows) reads past the end; a record without an ALT list fails on its
      length; otherwise the result is the unbatched scorer's. */
  method ExtractDeltaScoresAsWritten(allYRef: seq<Option<Track>>, allYAlt: seq<Option<Track>>, r: Record,
                                     ann: Annotator, dist: nat, mask: bool, gi: GeneInfo) returns (out: Extracted)
    requires AnnValid(ann) && WellFormed(r) && Covers(ann, gi, r.pos)
    requires allYRef == Predictions(ann, EncodeSpec(r, ann, dist, gi).0)
    requires allYAlt == Predictions(ann, EncodeSpec(r, ann, dist, gi).1)
    ensures out.TypeError? <==> !IsRecordValid(r)
    ensures out.IndexError? <==> HasRows(r, ann, dist, gi) && !ValidAlt(r, |AltList(r)| - 1)
    ensures out.Extracted? ==> out.scores == Scores(r, ann, dist, mask, gi)
  {
    if !IsRecordValid(r) {
      return TypeError;
    }
    forall a: nat, g: nat | a < |AltList(r)| && g < |gi.idxs|
      ensures CursorReads(allYRef, allYAlt, r, ann, dist, mask, gi, a, g)
    {
      CursorStep(allYRef, allYAlt, r, ann, dist, mask, gi, a, g);
    }
    out := ExtractAllelesAsWritten(allYRef, allYAlt, r, ann, dist, mask, gi);
  }

  /** The outer loop of extract_delta_scores as written, for a record whose
      ALT list is readable. */
  method ExtractAllelesAsWritten(allYRef: seq<Option<Track>>, allYAlt: seq<Option<Track>>, r: Record,
                                 ann: Annotator, dist: nat, mask: bool, gi: GeneInfo) returns (out: Extracted)
    requires AnnValid(ann) && WellFormed(r) && Covers(ann, gi, r.pos) && IsRecordValid(r)
    requires forall a: nat, g: nat :: a < |AltList(r)| && g < |gi.idxs| ==>
      CursorReads(allYRef, allYAlt, r, ann, dist, mask, gi, a, g)
    ensures !out.TypeError?
    ensures out.IndexError? <==> HasRows(r, ann, dist, gi) && !ValidAlt(r, |AltList(r)| - 1)
    ensures out.Extracted? ==> out.scores == Scores(r, ann, dist, mask, gi)
  {
    WalkedEnds(r, ann, dist, mask, gi, 0, []);
    var deltaScores: seq<DeltaScore> := [];
    var predIx: nat := 0;
    var altIx := 0;
    while altIx < |r.alts.value|
      invariant altIx <= |r.alts.value|
      invariant Walked(r, ann, dist, mask, gi, altIx, 0, predIx, deltaScores)
      invariant HasRows(r, ann, dist, gi) && altIx > 0 ==>
        ValidAlt(r, altIx - 1) || !NoValidFrom(r, altIx - 1, |AltList(r)|)
    {
      var ok;
      ok, predIx, deltaScores := ExtractGenesAsWritten(allYRef, allYAlt, r, ann, dist, mask, gi, altIx, predIx, deltaScores);
      if !ok {
        return IndexError;
      }
      altIx := altIx + 1;
    }
    WalkedEnds(r, ann, dist, mask, gi, predIx, deltaScores);
    return Extracted(deltaScores);
  }

  /** The inner loop of extract_delta_scores as written, over the genes for
      one allele: it stops (ok false) at the first read past the end. */
  method ExtractGenesAsWritten(allYRef: seq<Option<Track>>, allYAlt: seq<Option<Track>>, r: Record,
                               ann: Annotator, dist: nat, mask: bool, gi: GeneInfo, altIx: nat,
                               predIx0: nat, deltaScores0: seq<DeltaScore>)
    returns (ok: bool, predIx: nat, deltaScores: seq<DeltaScore>)
    requires AnnValid(ann) && WellFormed(r) && Covers(ann, gi, r.pos) && IsRecordValid(r)
    requires altIx < |AltList(r)|
    requires forall g: nat :: g < |gi.idxs| ==> CursorReads(allYRef, allYAlt, r, ann, dist, mask, gi, altIx, g)
    requires Walked(r, ann, dist, mask, gi, altIx, 0, predIx0, deltaScores0)
    ensures ok ==> Walked(r, ann, dist, mask, gi, altIx + 1, 0, predIx, deltaScores)
    ensures ok ==> (HasRows(r, ann, dist, gi) ==> ValidAlt(r, altIx) || !NoValidFrom(r, altIx, |AltList(r)|))
    ensures !ok ==> HasRows(r, ann, dist, gi) && !ValidAlt(r, |AltList(r)| - 1)
  {
    if HasRows(r, ann, dist, gi) && |gi.idxs| == 0 {
      NoGenesNoPairs(r);
      assert false;
    }
    ok, predIx, deltaScores := true, predIx0, deltaScores0;
    var geneIx := 0;
    while geneIx < |gi.idxs|
      invariant geneIx <= |gi.idxs|
      invariant Walked(r, ann, dist, mask, gi, altIx, geneIx, predIx, deltaScores)
      invariant HasRows(r, ann, dist, gi) && geneIx > 0 ==> ValidAlt(r, altIx) || !NoValidFrom(r, altIx, |AltList(r)|)
    {
      ok, predIx, deltaScores := ExtractPairAsWritten(allYRef, allYAlt, r, ann, dist, mask, gi, altIx, geneIx, predIx, deltaScores);
      if !ok {
        return;
      }
      geneIx := geneIx + 1;
    }
    WalkedNextAllele(r, ann, dist, mask, gi, altIx, predIx, deltaScores);
  }

  /** One pass of the corrected inner loop: the allele is checked before the
      cursor is read, so the read is always in range. */
  method ExtractPair(allYRef: seq<Option<Track>>, allYAlt: seq<Option<Track>>, r: Record,
                     ann: Annotator, dist: nat, mask: bool, gi: GeneInfo, altIx: nat, geneIx: nat,
                     predIx: nat, deltaScores: seq<DeltaScore>)
    returns (predIx': nat, deltaScores': seq<DeltaScore>)
    requires AnnValid(ann) && WellFormed(r) && Covers(ann, gi, r.pos)
    requires altIx < |AltList(r)| && geneIx < |gi.idxs|
    requires CursorReads(allYRef, allYAlt, r, ann, dist, mask, gi, altIx, geneIx)
    requires Walked(r, ann, dist, mask, gi, altIx, geneIx, predIx, deltaScores)
    ensures Walked(r, ann, dist, mask, gi, altIx, geneIx + 1, predIx', deltaScores')
  {
    var cov := GetCov(dist);
    var alts := AltList(r);
    if HasRows(r, ann, dist, gi) {
      ScoreStep(r, ann, dist, mask, gi, altIx, geneIx, deltaScores);
      VisitedStep(r, altIx, geneIx, |gi.idxs|);
    }
    predIx', deltaScores' := predIx, deltaScores;
    if IsValidAltRecord(r, altIx) {
      var yRef := allYRef[predIx];
      var yAlt := allYAlt[predIx];
      if yRef.Some? && yAlt.Some? {
        if |r.ref| > 1 && |alts[altIx]| > 1 {
          predIx' := predIx + 1;
          var deltaScore := CreateUnhandledDeltaScore(alts[altIx], gi.genes[geneIx]);
          deltaScores' := deltaScores + [Unhandled(deltaScore)];
        } else {
          var deltaScore := GetAltGeneDeltaScore(r, ann, altIx, geneIx, yRef.value, yAlt.value, cov, gi, mask);
          assert deltaScore == ScorePair(r, ann, dist, mask, gi, Pair(altIx, geneIx));
          deltaScores' := deltaScores + [deltaScore];
          predIx' := predIx + 1;
        }
      }
    }
  }

  /** extract_delta_scores with the allele check moved ahead of the read:
      the cursor is only dereferenced for a scorable pair, and a record
      without an ALT list has no alleles. On the rows the batch hands back
      for the same record, the result is the unbatched scorer's. */
  method ExtractDeltaScores(allYRef: seq<Option<Track>>, allYAlt: seq<Option<Track>>, r: Record,
                            ann: Annotator, dist: nat, mask: bool, gi: GeneInfo) returns (deltaScores: seq<DeltaScore>)
    requires AnnValid(ann) && WellFormed(r) && Covers(ann, gi, r.pos)
    requires allYRef == Predictions(ann, EncodeSpec(r, ann, dist, gi).0)
    requires allYAlt == Predictions(ann, EncodeSpec(r, ann, dist, gi).1)
    ensures deltaScores == Scores(r, ann, dist, mask, gi)
  {
    forall a: nat, g: nat | a < |AltList(r)| && g < |gi.idxs|
      ensures CursorReads(allYRef, allYAlt, r, ann, dist, mask, gi, a, g)
    {
      CursorStep(allYRef, allYAlt, r, ann, dist, mask, gi, a, g);
    }
    deltaScores := ExtractAlleles(allYRef, allYAlt, r, ann, dist, mask, gi);
  }

  /** The outer loop of the corrected extractor. */
  method ExtractAlleles(allYRef: seq<Option<Track>>, allYAlt: seq<Option<Track>>, r: Record,
                        ann: Annotator, dist: nat, mask: bool, gi: GeneInfo) returns (deltaScores: seq<DeltaScore>)
    requires AnnValid(ann) && WellFormed(r) && Covers(ann, gi, r.pos)
    requires forall a: nat, g: nat :: a < |AltList(r)| && g < |gi.idxs| ==>
      CursorReads(allYRef, allYAlt, r, ann, dist, mask, gi, a, g)
    ensures deltaScores == Scores(r, ann, dist, mask, gi)
  {
    WalkedEnds(r, ann, dist, mask, gi, 0, []);
    deltaScores := [];
    var predIx: nat := 0;
    var altIx := 0;
    while altIx < |AltList(r)|
      invariant altIx <= |AltList(r)|
      invariant Walked(r, ann, dist, mask, gi, altIx, 0, predIx, deltaScores)
    {
      predIx, deltaScores := ExtractGenes(allYRef, allYAlt, r, ann, dist, mask, gi, altIx, predIx, deltaScores);
      altIx := altIx + 1;
    }
    WalkedEnds(r, ann, dist, mask, gi, predIx, deltaScores);
  }

  /** The inner loop of the corrected extractor, over the genes for one
      allele. */
  method ExtractGenes(allYRef: seq<Option<Track>>, allYAlt: seq<Option<Track>>, r: Record,
                      ann: Annotator, dist: nat, mask: bool, gi: GeneInfo, altIx: nat,
                      predIx0: nat, deltaScores0: seq<DeltaScore>)
    returns (predIx: nat, deltaScores: seq<DeltaScore>)
    requires AnnValid(ann) && WellFormed(r) && Covers(ann, gi, r.pos)
    requires altIx < |AltList(r)|
    requires forall g: nat :: g < |gi.idxs| ==> CursorReads(allYRef, allYAlt, r, ann, dist, mask, gi, altIx, g)
    requires Walked(r, ann, dist, mask, gi, altIx, 0, predIx0, deltaScores0)
    ensures Walked(r, ann, dist, mask, gi, altIx + 1, 0, predIx, deltaScores)
  {
    predIx, deltaScores := predIx0, deltaScores0;
    var geneIx := 0;
    while geneIx < |gi.idxs|
      invariant geneIx <= |gi.idxs|
      invariant Walked(r, ann, dist, mask, gi, altIx, geneIx, predIx, deltaScores)
    {
      predIx, deltaScores := ExtractPair(allYRef, allYAlt, r, ann, dist, mask, gi, altIx, geneIx, predIx, deltaScores);
      geneIx := geneIx + 1;
    }
    WalkedNextAllele(r, ann, dist, mask, gi, altIx, predIx, deltaScores);
  }
}
