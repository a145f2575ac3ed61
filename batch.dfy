/** VCFPredictionBatch: records are encoded as they arrive, their rows are
    dropped into per-size batches with a lookup token each, and once enough
    predictions are pending the model runs on every batch and each pending
    record is annotated from its own rows and written, in arrival order. */
module Batch {
  import opened Sequences
  import opened Tensors
  import opened Variant
  import opened Annotation
  import opened DeltaScores
  import opened Pairs
  import opened Scoring
  import opened BatchUtils

  /** SequenceType_REF and SequenceType_ALT. */
  datatype SequenceType = Ref | Alt

  /** Where a row's prediction is found once the batch has run: the role of
      the row, the size of the batch it went into (its window length) and
      its index there. Size 0 marks a role with no rows. */
  datatype BatchLookupIndex = BatchLookupIndex(sequenceType: SequenceType, tensorSize: nat, batchIndex: nat)

  /** A record waiting for its predictions: the record, the genes found for
      it when it was added, and the tokens of its rows. */
  datatype PreparedVCFRecord = PreparedVCFRecord(vcfRecord: Record, geneInfo: GeneInfo, locations: seq<BatchLookupIndex>)

  /** The encoded rows waiting for the model, by window length. */
  type Batches = map<nat, seq<Window>>

  /** The rows after one more row is appended to the batch of its size. */
  function Insert(b: Batches, row: Window): Batches
  {
    b[|row| := (if |row| in b then b[|row|] else []) + [row]]
  }

  /** The rows after a list of rows is appended, one by one. */
  function Place(b: Batches, rows: seq<Window>): Batches
  {
    if rows == [] then b else Insert(Place(b, rows[..|rows| - 1]), rows[|rows| - 1])
  }

  /** Batches only grow: every batch of b is a prefix of the same batch in c. */
  predicate Grows(b: Batches, c: Batches)
  {
    forall s :: s in b ==> s in c && b[s] <= c[s]
  }

  /** A token that finds row in the batches: the role is right, the size is
      the row's (never 0), and the index is in bounds and holds the row. */
  predicate Finds(b: Batches, loc: BatchLookupIndex, role: SequenceType, row: Window)
  {
    && loc.sequenceType == role && loc.tensorSize == |row| > 0
    && loc.tensorSize in b && loc.batchIndex < |b[loc.tensorSize]|
    && b[loc.tensorSize][loc.batchIndex] == row
  }

  /** The tokens of one role of a record: the single placeholder when the
      role has no rows, else one token per row, in order, each finding its
      row. */
  predicate Resolves(b: Batches, locs: seq<BatchLookupIndex>, role: SequenceType, rows: seq<Window>)
  {
    if rows == [] then locs == [BatchLookupIndex(role, 0, 0)]
    else |locs| == |rows| && forall k :: 0 <= k < |rows| ==> Finds(b, locs[k], role, rows[k])
  }

  lemma FindsGrow(b: Batches, c: Batches, loc: BatchLookupIndex, role: SequenceType, row: Window)
    requires Finds(b, loc, role, row) && Grows(b, c)
    ensures Finds(c, loc, role, row)
  {
    var s := loc.tensorSize;
    assert b[s] <= c[s];
    assert c[s][loc.batchIndex] == b[s][loc.batchIndex];
  }

  /** Tokens keep finding their rows while the batches grow. */
  lemma ResolvesGrow(b: Batches, c: Batches, locs: seq<BatchLookupIndex>, role: SequenceType, rows: seq<Window>)
    requires Resolves(b, locs, role, rows) && Grows(b, c)
    ensures Resolves(c, locs, role, rows)
  {
    if rows != [] {
      forall k | 0 <= k < |rows| ensures Finds(c, locs[k], role, rows[k]) {
        FindsGrow(b, c, locs[k], role, rows[k]);
      }
    }
  }

  lemma GrowsTrans(a: Batches, b: Batches, c: Batches)
    requires Grows(a, b) && Grows(b, c)
    ensures Grows(a, c)
  {
    forall s | s in a ensures s in c && a[s] <= c[s] {
      assert a[s] <= b[s] && b[s] <= c[s];
      assert c[s][..|a[s]|] == b[s][..|a[s]|];
    }
  }

  /** len(record.alts) * len(gene_info.genes), as written: taking the length
      of a missing ALT list raises TypeError (None here). */
  function PredictionCountAsWritten(r: Record, gi: GeneInfo): (n: Option<nat>)
    ensures n.None? <==> !IsRecordValid(r)
    ensures n.Some? ==> n.value == |r.alts.value| * |gi.genes|
  {
    if r.alts.None? then None else Some(|r.alts.value| * |gi.genes|)
  }

  /** The corrected count: a missing ALT list has no alternates. */
  function PredictionCount(r: Record, gi: GeneInfo): (n: nat)
    ensures IsRecordValid(r) ==> Some(n) == PredictionCountAsWritten(r, gi)
    ensures !IsRecordValid(r) ==> n == 0
  {
    |AltList(r)| * |gi.genes|
  }

  /** The count bounds the entries the record can receive: every scored
      pair is one of the counted (allele, gene) combinations. */
  lemma PredictionCountBoundsScores(ann: LoadedAnnotator, r: Record, dist: nat, mask: bool)
    requires WellFormed(r)
    ensures var gi := GetNameAndStrand(ann, r.chrom, r.pos);
      |DeltaScoresOf(ann, r, dist, mask)| <= PredictionCount(r, gi)
  {
    var gi := GetNameAndStrand(ann, r.chrom, r.pos);
    ScoresCount(r, ann, dist, mask, gi);
  }

  /** The predictions counted for a list of pending records. */
  function PendingPredictions(ps: seq<PreparedVCFRecord>): (n: nat)
    ensures ps == [] ==> n == 0
  {
    if ps == [] then 0
    else PendingPredictions(ps[..|ps| - 1]) + PredictionCount(ps[|ps| - 1].vcfRecord, ps[|ps| - 1].geneInfo)
  }

  /** What a pending record's tokens find: with the genes looked up for the
      record, the REF tokens resolve the encoder's reference rows and the
      ALT tokens, which follow them, the encoder's mutated rows. */
  ghost predicate Prepared(ann: LoadedAnnotator, dist: nat, b: Batches, p: PreparedVCFRecord)
  {
    && WellFormed(p.vcfRecord)
    && p.geneInfo == GetNameAndStrand(ann, p.vcfRecord.chrom, p.vcfRecord.pos)
    && TokensFor(b, p.locations, EncodeSpec(p.vcfRecord, ann, dist, p.geneInfo))
  }

  /** Every pending record is prepared. Instantiated only where a record's
      preparation is asked for, not at every index of the list. */
  ghost predicate AllPrepared(ann: LoadedAnnotator, dist: nat, b: Batches, ps: seq<PreparedVCFRecord>)
  {
    && (forall k :: 0 <= k < |ps| ==> WellFormed(ps[k].vcfRecord))
    && forall k {:trigger Prepared(ann, dist, b, ps[k])} :: 0 <= k < |ps| ==> Prepared(ann, dist, b, ps[k])
  }

  /** A record's tokens: those of its REF rows, then those of its ALT rows. */
  predicate TokensFor(b: Batches, locs: seq<BatchLookupIndex>, xs: (seq<Window>, seq<Window>))
  {
    var nRef := if xs.0 == [] then 1 else |xs.0|;
    && nRef <= |locs|
    && Resolves(b, locs[..nRef], Ref, xs.0)
    && Resolves(b, locs[nRef..], Alt, xs.1)
  }

  lemma PreparedGrow(ann: LoadedAnnotator, dist: nat, b: Batches, c: Batches, p: PreparedVCFRecord)
    requires Prepared(ann, dist, b, p) && Grows(b, c)
    ensures Prepared(ann, dist, c, p)
  {
    var r, gi := p.vcfRecord, p.geneInfo;
    var xs := EncodeSpec(r, ann, dist, gi);
    var nRef := if xs.0 == [] then 1 else |xs.0|;
    ResolvesGrow(b, c, p.locations[..nRef], Ref, xs.0);
    ResolvesGrow(b, c, p.locations[nRef..], Alt, xs.1);
  }

  /** The model's output for every batch: one track per row, in order. */
  ghost predicate Predicted(ann: Annotator, b: Batches, preds: map<nat, seq<Track>>)
  {
    forall s :: s in b ==>
      && s in preds && |preds[s]| == |b[s]|
      && forall i :: 0 <= i < |b[s]| ==> preds[s][i] == ann.model(b[s][i])
  }

  /** Every non-placeholder token is in bounds of the predictions. */
  predicate InBounds(preds: map<nat, seq<Track>>, locs: seq<BatchLookupIndex>)
  {
    forall k :: 0 <= k < |locs| && locs[k].tensorSize != 0 ==>
      locs[k].tensorSize in preds && locs[k].batchIndex < |preds[locs[k].tensorSize]|
  }

  /** What _write_record collects for one role: None for the role's
      placeholder, the prediction at the token otherwise, in token order. */
  function Gather(preds: map<nat, seq<Track>>, locs: seq<BatchLookupIndex>, role: SequenceType): seq<Option<Track>>
    requires InBounds(preds, locs)
  {
    if locs == [] then []
    else
      var loc := locs[|locs| - 1];
      var y := if loc.tensorSize == 0 then None else Some(preds[loc.tensorSize][loc.batchIndex]);
      Gather(preds, locs[..|locs| - 1], role) + if loc.sequenceType == role then [y] else []
  }

  lemma {:induction false} GatherAppend(preds: map<nat, seq<Track>>, xs: seq<BatchLookupIndex>, ys: seq<BatchLookupIndex>, role: SequenceType)
    requires InBounds(preds, xs + ys)
    ensures InBounds(preds, xs) && InBounds(preds, ys)
    ensures Gather(preds, xs + ys, role) == Gather(preds, xs, role) + Gather(preds, ys, role)
  {
    assert forall k :: 0 <= k < |xs| ==> xs[k] == (xs + ys)[k];
    assert forall k :: 0 <= k < |ys| ==> ys[k] == (xs + ys)[|xs| + k];
    if ys != [] {
      var front := ys[..|ys| - 1];
      assert (xs + ys)[..|xs + ys| - 1] == xs + front;
      GatherAppend(preds, xs, front, role);
    } else {
      assert xs + ys == xs;
    }
  }

  /** Tokens that find rows in predicted batches gather the model's tracks
      on those rows, for their own role, and nothing for the other role. */
  lemma {:induction false} GatherFinds(ann: Annotator, b: Batches, preds: map<nat, seq<Track>>,
                                       locs: seq<BatchLookupIndex>, role: SequenceType, rows: seq<Window>)
    requires Predicted(ann, b, preds)
    requires |locs| == |rows| && forall k :: 0 <= k < |rows| ==> Finds(b, locs[k], role, rows[k])
    ensures InBounds(preds, locs)
    ensures Gather(preds, locs, role) == seq(|rows|, k requires 0 <= k < |rows| => Some(ann.model(rows[k])))
    ensures forall other :: other != role ==> Gather(preds, locs, other) == []
  {
    if locs != [] {
      var n := |locs| - 1;
      GatherFinds(ann, b, preds, locs[..n], role, rows[..n]);
      assert Finds(b, locs[n], role, rows[n]);
      var want := seq(|rows|, k requires 0 <= k < |rows| => Some(ann.model(rows[k])));
      assert want == seq(n, k requires 0 <= k < n => Some(ann.model(rows[..n][k]))) + [Some(ann.model(rows[n]))];
    }
  }

  /** A role's tokens gather exactly what the batch hands back for that
      role's rows. */
  lemma GatherResolves(ann: Annotator, b: Batches, preds: map<nat, seq<Track>>,
                       locs: seq<BatchLookupIndex>, role: SequenceType, rows: seq<Window>)
    requires Predicted(ann, b, preds) && Resolves(b, locs, role, rows)
    ensures InBounds(preds, locs)
    ensures Gather(preds, locs, role) == Predictions(ann, rows)
    ensures forall other :: other != role ==> Gather(preds, locs, other) == []
  {
    if rows == [] {
      assert locs[..0] == [];
    } else {
      GatherFinds(ann, b, preds, locs, role, rows);
    }
  }

  lemma InBoundsJoin(preds: map<nat, seq<Track>>, xs: seq<BatchLookupIndex>, ys: seq<BatchLookupIndex>)
    requires InBounds(preds, xs) && InBounds(preds, ys)
    ensures InBounds(preds, xs + ys)
  {
    forall k | 0 <= k < |xs + ys| && (xs + ys)[k].tensorSize != 0
      ensures (xs + ys)[k].tensorSize in preds && (xs + ys)[k].batchIndex < |preds[(xs + ys)[k].tensorSize]|
    {
      if k >= |xs| {
        assert (xs + ys)[k] == ys[k - |xs|];
      }
    }
  }

  /** A record's tokens gather what the batch hands back for its REF rows
      and for its ALT rows. */
  lemma GatherTokens(ann: Annotator, b: Batches, preds: map<nat, seq<Track>>,
                     locs: seq<BatchLookupIndex>, xs: (seq<Window>, seq<Window>))
    requires TokensFor(b, locs, xs) && Predicted(ann, b, preds)
    ensures InBounds(preds, locs)
    ensures Gather(preds, locs, Ref) == Predictions(ann, xs.0)
    ensures Gather(preds, locs, Alt) == Predictions(ann, xs.1)
  {
    var nRef := if xs.0 == [] then 1 else |xs.0|;
    var front, back := locs[..nRef], locs[nRef..];
    assert locs == front + back;
    GatherResolves(ann, b, preds, front, Ref, xs.0);
    GatherResolves(ann, b, preds, back, Alt, xs.1);
    InBoundsJoin(preds, front, back);
    GatherAppend(preds, front, back, Ref);
    GatherAppend(preds, front, back, Alt);
  }

  /** The rows _write_record gathers for a pending record are those the
      batch hands back for it: the model's tracks on the encoder's rows, or
      the placeholder. */
  lemma GatherPrepared(ann: LoadedAnnotator, dist: nat, b: Batches, preds: map<nat, seq<Track>>, p: PreparedVCFRecord)
    requires Prepared(ann, dist, b, p) && Predicted(ann, b, preds)
    ensures InBounds(preds, p.locations)
    ensures var xs := EncodeSpec(p.vcfRecord, ann, dist, p.geneInfo);
      && Gather(preds, p.locations, Ref) == Predictions(ann, xs.0)
      && Gather(preds, p.locations, Alt) == Predictions(ann, xs.1)
  {
    GatherTokens(ann, b, preds, p.locations, EncodeSpec(p.vcfRecord, ann, dist, p.geneInfo));
  }

  /** The records of a list of pending records, in order. */
  function RecordsOf(ps: seq<PreparedVCFRecord>): (rs: seq<Record>)
    ensures |rs| == |ps|
    ensures forall k :: 0 <= k < |ps| ==> rs[k] == ps[k].vcfRecord
  {
    seq(|ps|, k requires 0 <= k < |ps| => ps[k].vcfRecord)
  }

  lemma RecordsOfStep(ps: seq<PreparedVCFRecord>, i: nat)
    requires i < |ps|
    ensures RecordsOf(ps[..i + 1]) == RecordsOf(ps[..i]) + [ps[i].vcfRecord]
  {
    var rs := RecordsOf(ps[..i + 1]);
    assert forall k :: 0 <= k < i ==> rs[k] == (RecordsOf(ps[..i]) + [ps[i].vcfRecord])[k];
  }

  /** Writing the next pending record extends the output by that record's
      annotation. */
  lemma WriteStep(ann: LoadedAnnotator, dist: nat, mask: bool, pending: seq<PreparedVCFRecord>, i: nat,
                  before: seq<Written>, start: seq<Written>, after: seq<Written>)
    requires (forall k :: 0 <= k < |pending| ==> WellFormed(pending[k].vcfRecord)) && i < |pending|
    requires before == start + AnnotateAll(ann, RecordsOf(pending[..i]), dist, mask)
    requires after == before + [Annotate(pending[i].vcfRecord, DeltaScoresOf(ann, pending[i].vcfRecord, dist, mask))]
    ensures after == start + AnnotateAll(ann, RecordsOf(pending[..i + 1]), dist, mask)
  {
    RecordsOfStep(pending, i);
    var rs, r := RecordsOf(pending[..i]), pending[i].vcfRecord;
    PrefixWellFormed(pending, i);
    AnnotateAllAppend(ann, rs, r, dist, mask);
    AppendAssoc(start, AnnotateAll(ann, rs, dist, mask), [Annotate(r, DeltaScoresOf(ann, r, dist, mask))]);
  }

  /** The records of a prefix of well-formed pending records are well formed. */
  lemma PrefixWellFormed(pending: seq<PreparedVCFRecord>, i: nat)
    requires (forall k :: 0 <= k < |pending| ==> WellFormed(pending[k].vcfRecord)) && i <= |pending|
    ensures forall k :: 0 <= k < |RecordsOf(pending[..i])| ==> WellFormed(RecordsOf(pending[..i])[k])
  {
  }

  lemma AppendAssoc<T>(a: seq<T>, b: seq<T>, c: seq<T>)
    ensures a + b + c == a + (b + c)
  {
  }

  /** One more pending record adds its own count. */
  lemma PendingPredictionsAppend(ps: seq<PreparedVCFRecord>, p: PreparedVCFRecord, qs: seq<PreparedVCFRecord>, n: int)
    requires qs == ps + [p] && n == PendingPredictions(ps) + PredictionCount(p.vcfRecord, p.geneInfo)
    ensures n == PendingPredictions(qs)
  {
    assert qs[..|ps|] == ps;
  }

  lemma RecordsOfAppend(ps: seq<PreparedVCFRecord>, p: PreparedVCFRecord)
    ensures RecordsOf(ps + [p]) == RecordsOf(ps) + [p.vcfRecord]
  {
    var rs := RecordsOf(ps + [p]);
    assert forall k :: 0 <= k < |ps| ==> rs[k] == (RecordsOf(ps) + [p.vcfRecord])[k];
  }

  /** Every row the encoder emits is a non-empty window. */
  lemma EncodedRowsNonEmpty(r: Record, ann: LoadedAnnotator, dist: nat, gi: GeneInfo)
    requires WellFormed(r) && Covers(ann, gi, r.pos)
    ensures var xs := EncodeSpec(r, ann, dist, gi);
      && (forall k :: 0 <= k < |xs.0| ==> |xs.0[k]| > 0)
      && (forall k :: 0 <= k < |xs.1| ==> |xs.1[k]| > 0)
  {
    if Predictable(r, ann, dist) {
      EncodedRowsMatchPairs(r, ann, dist, gi);
    }
  }

  /** The REF tokens followed by the ALT tokens are the record's tokens. */
  lemma TokensJoin(b: Batches, refLocs: seq<BatchLookupIndex>, altLocs: seq<BatchLookupIndex>, xs: (seq<Window>, seq<Window>))
    requires Resolves(b, refLocs, Ref, xs.0) && Resolves(b, altLocs, Alt, xs.1)
    ensures TokensFor(b, refLocs + altLocs, xs)
  {
    var locs := refLocs + altLocs;
    assert locs[..|refLocs|] == refLocs && locs[|refLocs|..] == altLocs;
  }

  lemma AllPreparedGrow(ann: LoadedAnnotator, dist: nat, b: Batches, c: Batches, ps: seq<PreparedVCFRecord>)
    requires AllPrepared(ann, dist, b, ps) && Grows(b, c)
    ensures AllPrepared(ann, dist, c, ps)
  {
    forall k | 0 <= k < |ps| ensures Prepared(ann, dist, c, ps[k]) {
      assert Prepared(ann, dist, b, ps[k]);
      PreparedGrow(ann, dist, b, c, ps[k]);
    }
  }

  lemma AllPreparedAppend(ann: LoadedAnnotator, dist: nat, b: Batches, ps: seq<PreparedVCFRecord>, p: PreparedVCFRecord, qs: seq<PreparedVCFRecord>)
    requires AllPrepared(ann, dist, b, ps) && Prepared(ann, dist, b, p) && qs == ps + [p]
    ensures AllPrepared(ann, dist, b, qs)
  {
    forall k | 0 <= k < |qs| ensures Prepared(ann, dist, b, qs[k]) {
      if k < |ps| {
        assert qs[k] == ps[k];
        assert Prepared(ann, dist, b, ps[k]);
      }
    }
  }

  /** The loop of add_record over one role's rows: each row goes to the
      end of the batch of its size and gets a token for that place; a role
      with no rows gets the placeholder. */
  method PlaceRows(batches: Batches, role: SequenceType, rows: seq<Window>)
    returns (placed: Batches, locs: seq<BatchLookupIndex>)
    requires forall k :: 0 <= k < |rows| ==> |rows[k]| > 0
    ensures placed == Place(batches, rows)
    ensures Grows(batches, placed)
    ensures Resolves(placed, locs, role, rows)
  {
    placed := batches;
    if |rows| == 0 {
      return placed, [BatchLookupIndex(role, 0, 0)];
    }
    locs := [];
    var i := 0;
    while i < |rows|
      invariant i <= |rows|
      invariant PlacedUpTo(batches, role, rows, i, placed, locs)
    {
      var row := rows[i];
      var before := placed;
      var tensorSize := |row|;
      if tensorSize !in placed {
        placed := placed[tensorSize := []];
      }
      placed := placed[tensorSize := placed[tensorSize] + [row]];
      var curBatchRecordIx := |placed[tensorSize]| - 1;
      InsertGrows(before, row, placed);
      PlaceStep(batches, role, rows, i, before, locs);
      locs := locs + [BatchLookupIndex(role, tensorSize, curBatchRecordIx)];
      i := i + 1;
    }
    PlacedAll(batches, role, rows, placed, locs);
  }

  /** The first i rows are placed: the batches grew by exactly them, and
      the tokens so far find them. */
  predicate PlacedUpTo(batches: Batches, role: SequenceType, rows: seq<Window>, i: nat, placed: Batches, locs: seq<BatchLookupIndex>)
    requires i <= |rows|
  {
    && placed == Place(batches, rows[..i])
    && Grows(batches, placed)
    && |locs| == i
    && forall k :: 0 <= k < i ==> Finds(placed, locs[k], role, rows[k])
  }

  lemma PlaceStep(batches: Batches, role: SequenceType, rows: seq<Window>, i: nat, placed: Batches, locs: seq<BatchLookupIndex>)
    requires i < |rows| && |rows[i]| > 0 && PlacedUpTo(batches, role, rows, i, placed, locs)
    ensures var c := Insert(placed, rows[i]);
      PlacedUpTo(batches, role, rows, i + 1, c, locs + [BatchLookupIndex(role, |rows[i]|, |c[|rows[i]|]| - 1)])
  {
    var c := Insert(placed, rows[i]);
    var locs' := locs + [BatchLookupIndex(role, |rows[i]|, |c[|rows[i]|]| - 1)];
    assert rows[..i + 1][..i] == rows[..i];
    assert Grows(placed, c);
    GrowsTrans(batches, placed, c);
    forall k | 0 <= k < i + 1 ensures Finds(c, locs'[k], role, rows[k]) {
      if k < i {
        FindsGrow(placed, c, locs[k], role, rows[k]);
      }
    }
  }

  lemma PlacedAll(batches: Batches, role: SequenceType, rows: seq<Window>, placed: Batches, locs: seq<BatchLookupIndex>)
    requires rows != [] && PlacedUpTo(batches, role, rows, |rows|, placed, locs)
    ensures placed == Place(batches, rows) && Grows(batches, placed) && Resolves(placed, locs, role, rows)
  {
    assert rows[..|rows|] == rows;
  }

  lemma InsertGrows(b: Batches, row: Window, c: Batches)
    requires c == b[|row| := (if |row| in b then b[|row|] else []) + [row]]
    ensures c == Insert(b, row) && Grows(b, c)
  {
  }

  /** The body of add_record after the encoding: the record's REF rows,
      then its ALT rows, placed with their tokens. */
  method PlaceRecord(ann: LoadedAnnotator, dist: nat, batches: Batches, record: Record, geneInfo: GeneInfo,
                     xRef: seq<Window>, xAlt: seq<Window>)
    returns (placed: Batches, p: PreparedVCFRecord)
    requires WellFormed(record) && geneInfo == GetNameAndStrand(ann, record.chrom, record.pos)
    requires (xRef, xAlt) == EncodeSpec(record, ann, dist, geneInfo)
    ensures placed == Place(Place(batches, xRef), xAlt) && Grows(batches, placed)
    ensures Prepared(ann, dist, placed, p)
    ensures p.vcfRecord == record && p.geneInfo == geneInfo
  {
    EncodedRowsNonEmpty(record, ann, dist, geneInfo);
    var b1, refLocs := PlaceRows(batches, Ref, xRef);
    var altLocs;
    placed, altLocs := PlaceRows(b1, Alt, xAlt);
    GrowsTrans(batches, b1, placed);
    ResolvesGrow(b1, placed, refLocs, Ref, xRef);
    TokensJoin(placed, refLocs, altLocs, (xRef, xAlt));
    p := PreparedVCFRecord(record, geneInfo, refLocs + altLocs);
  }

  /** The value part of add_record: the record's count, its rows placed
      (the batches only grow) and the record joining the pending ones,
      every earlier token still finding its row. */
  method AppendRecord(ann: LoadedAnnotator, dist: nat, batches: Batches, pending: seq<PreparedVCFRecord>, record: Record)
    returns (placed: Batches, prepared: seq<PreparedVCFRecord>, predictionCount: nat)
    requires AllPrepared(ann, dist, batches, pending) && WellFormed(record)
    ensures predictionCount == PredictionCount(record, GetNameAndStrand(ann, record.chrom, record.pos))
    ensures AllPrepared(ann, dist, placed, prepared) && prepared != []
    ensures PendingPredictions(prepared) == PendingPredictions(pending) + predictionCount
    ensures RecordsOf(prepared) == RecordsOf(pending) + [record]
    ensures var xs := EncodeSpec(record, ann, dist, GetNameAndStrand(ann, record.chrom, record.pos));
      placed == Place(Place(batches, xs.0), xs.1) && Grows(batches, placed)
  {
    var geneInfo := GetNameAndStrand(ann, record.chrom, record.pos);
    predictionCount := PredictionCount(record, geneInfo);
    var xRef, xAlt := EncodeBatchRecords(record, ann, dist, geneInfo);
    var p;
    placed, p := PlaceRecord(ann, dist, batches, record, geneInfo, xRef, xAlt);
    AllPreparedGrow(ann, dist, batches, placed, pending);
    prepared := pending + [p];
    AllPreparedAppend(ann, dist, placed, pending, p, prepared);
    PendingPredictionsAppend(pending, p, prepared, PendingPredictions(pending) + predictionCount);
    RecordsOfAppend(pending, p);
  }

  class VCFPredictionBatch {
    const ann: LoadedAnnotator
    const dist: nat
    const mask: bool
    /** The number of pending predictions that triggers a run of the model. */
    const predictionBatchSize: int
    /** Stored but never used. */
    const tensorflowBatchSize: int

    /** The records written so far. */
    var output: seq<Written>
    var batches: Batches
    var preparedVcfRecords: seq<PreparedVCFRecord>
    var batchPredictions: int
    var totalPredictions: int
    var totalVcfRecords: int

    /** The records waiting to be written, in arrival order. */
    function PendingRecords(): seq<Record>
      reads this
    {
      RecordsOf(preparedVcfRecords)
    }

    /** Every pending record's tokens find its rows; batch_predictions counts
      the pending records' predictions; with nothing pending there are no
      rows. */
    ghost predicate Consistent()
      reads this
    {
      && AllPrepared(ann, dist, batches, preparedVcfRecords)
      && batchPredictions == PendingPredictions(preparedVcfRecords)
      && (preparedVcfRecords == [] ==> batches == map[])
    }

    /** Between calls, records are pending only while their predictions
        stay below the threshold. */
    ghost predicate Valid()
      reads this
    {
      Consistent() && (preparedVcfRecords != [] ==> batchPredictions < predictionBatchSize)
    }

    constructor(ann: LoadedAnnotator, dist: nat, mask: bool, predictionBatchSize: int, tensorflowBatchSize: int)
      ensures Valid()
      ensures this.ann == ann && this.dist == dist && this.mask == mask
      ensures this.predictionBatchSize == predictionBatchSize && this.tensorflowBatchSize == tensorflowBatchSize
      ensures output == [] && batches == map[] && preparedVcfRecords == []
      ensures batchPredictions == 0 && totalPredictions == 0 && totalVcfRecords == 0
    {
      this.ann := ann;
      this.dist := dist;
      this.mask := mask;
      this.predictionBatchSize := predictionBatchSize;
      this.tensorflowBatchSize := tensorflowBatchSize;
      output := [];
      batches := map[];
      preparedVcfRecords := [];
      batchPredictions := 0;
      totalPredictions := 0;
      totalVcfRecords := 0;
    }

    /** _clear_batch: nothing pending, no rows, no pending predictions. */
    method ClearBatch()
      modifies this`batchPredictions, this`batches, this`preparedVcfRecords
      ensures Valid()
      ensures batchPredictions == 0 && batches == map[] && preparedVcfRecords == []
    {
      batchPredictions := 0;
      batches := map[];
      preparedVcfRecords := [];
    }

    /** The first loop of _process_batch: the model on every batch. */
    method PredictBatches() returns (batchPreds: map<nat, seq<Track>>)
      ensures Predicted(ann, batches, batchPreds)
    {
      batchPreds := map[];
      var todo := batches.Keys;
      while todo != {}
        invariant todo <= batches.Keys
        invariant forall s :: s in batches && s !in todo ==>
          s in batchPreds && |batchPreds[s]| == |batches[s]|
          && forall i :: 0 <= i < |batches[s]| ==> batchPreds[s][i] == ann.model(batches[s][i])
        decreases |todo|
      {
        var tensorSize :| tensorSize in todo;
        var batch := batches[tensorSize];
        batchPreds := batchPreds[tensorSize := seq(|batch|, i requires 0 <= i < |batch| => ann.model(batch[i]))];
        todo := todo - {tensorSize};
      }
    }

    /** _process_batch: the model runs on every batch, each pending record
        is annotated from its rows and written, in arrival order, and the
        batch is cleared. */
    method ProcessBatch()
      requires Consistent()
      modifies this
      ensures Valid()
      ensures output == old(output) + AnnotateAll(ann, old(PendingRecords()), dist, mask)
      ensures batches == map[] && preparedVcfRecords == [] && batchPredictions == 0
      ensures totalPredictions == old(totalPredictions) && totalVcfRecords == old(totalVcfRecords)
    {
      var batchPreds := PredictBatches();
      WriteRecords(preparedVcfRecords, batchPreds);
      ClearBatch();
    }

    /** The second loop of _process_batch: every pending record written,
        in order. */
    method WriteRecords(pending: seq<PreparedVCFRecord>, batchPreds: map<nat, seq<Track>>)
      requires Predicted(ann, batches, batchPreds)
      requires AllPrepared(ann, dist, batches, pending)
      modifies this`output
      ensures output == old(output) + AnnotateAll(ann, RecordsOf(pending), dist, mask)
    {
      var i := 0;
      while i < |pending|
        invariant i <= |pending|
        invariant output == old(output) + AnnotateAll(ann, RecordsOf(pending[..i]), dist, mask)
      {
        var p := pending[i];
        assert Prepared(ann, dist, batches, pending[i]);
        ghost var before := output;
        var recordPredictions := WriteRecord(p, batchPreds);
        WriteStep(ann, dist, mask, pending, i, before, old(output), output);
        i := i + 1;
      }
      assert pending[..i] == pending;
    }

    /** _write_record: the record's predictions are looked up by its
        tokens, its entries extracted, and the record written with them in
        its SpliceAI field when there are any. */
    method WriteRecord(p: PreparedVCFRecord, batchPreds: map<nat, seq<Track>>) returns (recordPredictions: nat)
      requires Prepared(ann, dist, batches, p) && Predicted(ann, batches, batchPreds)
      modifies this`output
      ensures output == old(output) + [Annotate(p.vcfRecord, DeltaScoresOf(ann, p.vcfRecord, dist, mask))]
      ensures recordPredictions == |DeltaScoresOf(ann, p.vcfRecord, dist, mask)|
    {
      var r, gi := p.vcfRecord, p.geneInfo;
      GatherPrepared(ann, dist, batches, batchPreds, p);
      var allYRef, allYAlt := GatherRows(batchPreds, p.locations);
      var deltaScores := ExtractDeltaScores(allYRef, allYAlt, r, ann, dist, mask, gi);
      recordPredictions := 0;
      var written := Written(r, None);
      if |deltaScores| > 0 {
        written := Written(r, Some(deltaScores));
        recordPredictions := recordPredictions + |deltaScores|;
      }
      output := output + [written];
    }

    /** The loop of _write_record over a record's tokens. */
    method GatherRows(batchPreds: map<nat, seq<Track>>, locations: seq<BatchLookupIndex>)
      returns (allYRef: seq<Option<Track>>, allYAlt: seq<Option<Track>>)
      requires InBounds(batchPreds, locations)
      ensures allYRef == Gather(batchPreds, locations, Ref) && allYAlt == Gather(batchPreds, locations, Alt)
    {
      allYRef, allYAlt := [], [];
      var i := 0;
      while i < |locations|
        invariant i <= |locations|
        invariant InBounds(batchPreds, locations[..i])
        invariant allYRef == Gather(batchPreds, locations[..i], Ref)
        invariant allYAlt == Gather(batchPreds, locations[..i], Alt)
      {
        var location := locations[i];
        assert locations[..i + 1][..i] == locations[..i];
        assert locations[..i + 1][i] == location;
        if location.tensorSize == 0 {
          if location.sequenceType == Ref {
            allYRef := allYRef + [None];
          } else {
            allYAlt := allYAlt + [None];
          }
        } else {
          var batch := batchPreds[location.tensorSize];
          if location.sequenceType == Ref {
            allYRef := allYRef + [Some(batch[location.batchIndex])];
          } else {
            allYAlt := allYAlt + [Some(batch[location.batchIndex])];
          }
        }
        i := i + 1;
      }
      assert locations[..i] == locations;
    }

    /** add_record: the record is counted, encoded, its rows placed with a
        token each (REF rows first, then ALT rows), and it joins the pending
        records; when the pending predictions reach the threshold, the batch
        is processed. */
    method AddRecord(record: Record)
      requires Valid() && WellFormed(record)
      modifies this
      ensures Valid()
      ensures var gi := GetNameAndStrand(ann, record.chrom, record.pos);
        && totalVcfRecords == old(totalVcfRecords) + 1
        && totalPredictions == old(totalPredictions) + PredictionCount(record, gi)
        && (old(batchPredictions) + PredictionCount(record, gi) >= predictionBatchSize ==>
              && output == old(output) + AnnotateAll(ann, old(PendingRecords()) + [record], dist, mask)
              && preparedVcfRecords == [] && batches == map[] && batchPredictions == 0)
        && (old(batchPredictions) + PredictionCount(record, gi) < predictionBatchSize ==>
              && output == old(output) && PendingRecords() == old(PendingRecords()) + [record]
              && batchPredictions == old(batchPredictions) + PredictionCount(record, gi)
              && var xs := EncodeSpec(record, ann, dist, gi);
                 batches == Place(Place(old(batches), xs.0), xs.1) && Grows(old(batches), batches))
    {
      totalVcfRecords := totalVcfRecords + 1;
      var placed, prepared, predictionCount := AppendRecord(ann, dist, batches, preparedVcfRecords, record);
      batchPredictions := batchPredictions + predictionCount;
      totalPredictions := totalPredictions + predictionCount;
      batches := placed;
      preparedVcfRecords := prepared;
      ghost var xs := EncodeSpec(record, ann, dist, GetNameAndStrand(ann, record.chrom, record.pos));
      assert batches == Place(Place(old(batches), xs.0), xs.1) && Grows(old(batches), batches);
      if batchPredictions >= predictionBatchSize {
        ProcessBatch();
      }
    }

    /** finish: whatever is pending is processed. */
    method Finish()
      requires Valid()
      modifies this
      ensures Valid()
      ensures output == old(output) + AnnotateAll(ann, old(PendingRecords()), dist, mask)
      ensures preparedVcfRecords == [] && batches == map[] && batchPredictions == 0
      ensures totalPredictions == old(totalPredictions) && totalVcfRecords == old(totalVcfRecords)
    {
      if |preparedVcfRecords| > 0 {
        ProcessBatch();
      }
    }
  }
}
