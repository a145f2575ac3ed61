/** The scoring loop of the command line: every VCF record is scored and
    written, through a VCFPredictionBatch when prediction_batch_size > 1,
    one record at a time otherwise. Either way the output is every record,
    in input order, annotated with its own get_delta_scores entries. */
module Driver {
  import opened Sequences
  import opened Variant
  import opened Annotation
  import opened DeltaScores
  import opened Scoring
  import opened Batch

  /** What the VCF reader hands over: a list of well-formed records. */
  predicate AllWellFormed(rs: seq<Record>)
  {
    forall k :: 0 <= k < |rs| ==> WellFormed(rs[k])
  }

  lemma WellFormedAppend(rs: seq<Record>, r: Record)
    requires AllWellFormed(rs) && WellFormed(r)
    ensures AllWellFormed(rs + [r])
  {
    assert forall k :: 0 <= k < |rs| ==> (rs + [r])[k] == rs[k];
  }

  /** Writing what is pending after what is written, one more record
      included, is writing the records seen so far plus that record. */
  lemma PendingStep(ann: LoadedAnnotator, dist: nat, mask: bool, written: seq<Written>,
                    pending: seq<Record>, seen: seq<Record>, r: Record)
    requires AllWellFormed(pending) && AllWellFormed(seen) && WellFormed(r)
    requires written + AnnotateAll(ann, pending, dist, mask) == AnnotateAll(ann, seen, dist, mask)
    ensures AllWellFormed(pending + [r]) && AllWellFormed(seen + [r])
    ensures written + AnnotateAll(ann, pending + [r], dist, mask) == AnnotateAll(ann, seen + [r], dist, mask)
  {
    WellFormedAppend(pending, r);
    WellFormedAppend(seen, r);
    AnnotateAllAppend(ann, pending, r, dist, mask);
    AnnotateAllAppend(ann, seen, r, dist, mask);
  }

  lemma SeenStep(records: seq<Record>, i: nat)
    requires i < |records| && AllWellFormed(records)
    ensures records[..i + 1] == records[..i] + [records[i]]
    ensures AllWellFormed(records[..i]) && WellFormed(records[i])
  {
    assert records[..i + 1] == records[..i] + [records[i]];
  }

  /** One add_record keeps what is written plus what is pending equal to
      the annotation of the records seen so far. */
  method AddNext(batch: VCFPredictionBatch, seen: seq<Record>, r: Record)
    requires batch.Valid() && AllWellFormed(batch.PendingRecords()) && AllWellFormed(seen) && WellFormed(r)
    requires batch.output + AnnotateAll(batch.ann, batch.PendingRecords(), batch.dist, batch.mask)
          == AnnotateAll(batch.ann, seen, batch.dist, batch.mask)
    modifies batch
    ensures batch.Valid() && AllWellFormed(batch.PendingRecords()) && AllWellFormed(seen + [r])
    ensures batch.output + AnnotateAll(batch.ann, batch.PendingRecords(), batch.dist, batch.mask)
         == AnnotateAll(batch.ann, seen + [r], batch.dist, batch.mask)
  {
    PendingStep(batch.ann, batch.dist, batch.mask, batch.output, batch.PendingRecords(), seen, r);
    batch.AddRecord(r);
  }

  /** The batched branch: every record added, then the batch finished. */
  method RunBatched(ann: LoadedAnnotator, dist: nat, mask: bool, predictionBatchSize: int,
                    tensorflowBatchSize: int, records: seq<Record>) returns (written: seq<Written>)
    requires AllWellFormed(records)
    ensures written == AnnotateAll(ann, records, dist, mask)
  {
    var batch := new VCFPredictionBatch(ann, dist, mask, predictionBatchSize, tensorflowBatchSize);
    var i := 0;
    while i < |records|
      invariant i <= |records|
      invariant batch.Valid() && batch.ann == ann && batch.dist == dist && batch.mask == mask
      invariant AllWellFormed(batch.PendingRecords())
      invariant batch.output + AnnotateAll(ann, batch.PendingRecords(), dist, mask)
             == AnnotateAll(ann, records[..i], dist, mask)
    {
      SeenStep(records, i);
      AddNext(batch, records[..i], records[i]);
      i := i + 1;
    }
    batch.Finish();
    assert records[..i] == records;
    written := batch.output;
  }

  /** The unbatched branch: get_delta_scores per record, the SpliceAI
      field set only when there are entries, the record written. */
  method RunUnbatched(ann: LoadedAnnotator, dist: nat, mask: bool, records: seq<Record>) returns (written: seq<Written>)
    requires AllWellFormed(records)
    ensures written == AnnotateAll(ann, records, dist, mask)
  {
    written := [];
    var i := 0;
    while i < |records|
      invariant i <= |records|
      invariant written == AnnotateAll(ann, records[..i], dist, mask)
    {
      var record := records[i];
      var scores := GetDeltaScores(record, ann, dist, mask);
      var out := Written(record, None);
      if |scores| > 0 {
        out := Written(record, Some(scores));
      }
      SeenStep(records, i);
      AnnotateAllAppend(ann, records[..i], record, dist, mask);
      written := written + [out];
      i := i + 1;
    }
    assert records[..i] == records;
  }

  /** The dispatch of the main loop: batching only when
      prediction_batch_size > 1. The output does not depend on the batch
      size. */
  method RunSpliceAI(ann: LoadedAnnotator, dist: nat, mask: bool, predictionBatchSize: int,
                     tensorflowBatchSize: int, records: seq<Record>) returns (written: seq<Written>)
    requires AllWellFormed(records)
    ensures written == AnnotateAll(ann, records, dist, mask)
  {
    if predictionBatchSize > 1 {
      written := RunBatched(ann, dist, mask, predictionBatchSize, tensorflowBatchSize, records);
    } else {
      written := RunUnbatched(ann, dist, mask, records);
    }
  }
}
