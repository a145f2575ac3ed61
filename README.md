# SpliceAI batch scoring, modelled in Dafny

This project models the scoring core of SpliceAI with prediction batching. A
VCF record is scored against the transcripts that cover it. Each scorable
(allele, transcript) pair gets a reference window and an alternate window
around the variant. Both are one-hot encoded and flipped for '-' strand
transcripts, then run through the scorer. The two output tracks are realigned
for indels and reduced to four delta scores (acceptor/donor gain/loss) with
their positions. The record is then written with those entries in its
SpliceAI INFO field.

Scoring runs in one of two modes:

- **Unbatched.** `get_delta_scores` does all of this for one record at a time.
- **Batched.** `VCFPredictionBatch` encodes each record as it arrives, and
  drops every row into a batch keyed by its window length with a lookup
  token. Once the pending prediction count reaches `prediction_batch_size`,
  it runs the scorer on every batch. It then puts each pending record's
  tracks back together from its tokens and extracts its entries with a
  cursor. Finally it writes the records in arrival order.

The main results:

- **Both modes agree.** Batched and unbatched runs write the same records
  with the same entries, for every batch size (`Driver.RunSpliceAI`,
  `Driver.RunBatched`, `Driver.RunUnbatched`).
- **Batch state.** The batch keeps these invariants:
  - every token finds its row;
  - the output follows the input order;
  - the state is empty after a flush.
- **Strict model.** The encoder, the indel realignment, the arg-max and mask
  rule, the gates and chromosome-name normalisation are modelled exactly as
  the code computes them.
- **Two defects.** The batched code as written can raise where the
  unbatched code does not (see "## Findings"). The batch class is modelled
  with both defects corrected, and the as-written behaviour is modelled
  beside it.

Modules, one per concern:

- `Chrom` (`normalise_chrom`);
- `Sequences` (Python slicing helpers, `Option`);
- `Tensors` (windows, probability tracks, the scorer's shape contract);
- `Variant` (records and the allele gates);
- `Annotation` (the loaded annotation table, `get_name_and_strand`, `get_pos_data`, `get_seq`);
- `Encoding` (`one_hot_encode`, `encode_seqs`, `is_location_predictable`);
- `DeltaScores` (`get_alt_gene_delta_score`, `create_unhandled_delta_score`);
- `Pairs` (the alt-outer, gene-inner walk over (allele, transcript) pairs);
- `Scoring` (`get_delta_scores`, and writing a record);
- `BatchUtils` (`encode_batch_records`, `extract_delta_scores` as written and corrected);
- `Batch` (`VCFPredictionBatch`);
- `Driver` (the record loop of `run_spliceai`);
- `Findings` (concrete inputs for the two defects).

The scorer is `Annotator.model`: a deterministic function from one encoded
window to one track, standing for the mean of the five networks. Its only
stated property is its shape: it crops 5000 positions on each side. The
reference genome is `Annotator.fetch`, a lookup that yields "" when the slice
cannot be read.

## Model

| member | source | states |
|---|---|---|
| Chrom.NormaliseChrom | spliceai/normalise_chrom.py:12-18 | the result is 'chr'-prefixed exactly when the target is ("match a target style") |
| Chrom.SameStyleUnchanged | spliceai/normalise_chrom.py:14-18 | source and target both prefixed or both bare: the source comes back unchanged |
| Chrom.PrefixAdded | spliceai/normalise_chrom.py:16-17 | bare source, prefixed target: the result is "chr" + source |
| Chrom.PrefixStripped | spliceai/normalise_chrom.py:14-15 | prefixed source, bare target: at least the three prefix characters go, and the result neither starts nor ends with 'c', 'h' or 'r' (str.strip removes a character set, not a prefix) |
| Chrom.Strip | spliceai/normalise_chrom.py:15 | strip('chr') returns an infix of the input: everything cut off on either side is in {c, h, r}, and what remains neither starts nor ends with one of them |
| Chrom.LeadingStripped | spliceai/normalise_chrom.py:15 | the leading run strip removes is exactly the maximal run of characters from {c, h, r} |
| Chrom.TrailingStripped | spliceai/normalise_chrom.py:15 | the same for the trailing run |
| Chrom.Idempotent | spliceai/normalise_chrom.py:12-18 | normalising twice against the same target is normalising once |
| Chrom.UnitCases | tests/test_normalise_chrom.py:10-14 | the five cases of the unit test hold, including 'chr1' against '2' giving '1' |
| Sequences.Slice | spliceai/utils.py:157 | Python's s[i:j]: never longer than s, and s[i..j] whenever 0 <= i <= j <= len(s) |
| Sequences.Reverse | spliceai/utils.py:121-122 | s[::-1]: same length, element i is element len-1-i |
| Sequences.Repeat | spliceai/utils.py:114 | 'N' * k and the like: k copies of the element |
| Variant.AltList | spliceai/utils.py:127-133 | the ALT list when is_record_valid holds, no alternates when it does not |
| Variant.IsRecordValid | spliceai/utils.py:127-133 | is_record_valid holds exactly when the record's ALT list can be read |
| Variant.IsValidAltRecord | spliceai/utils.py:148-153 | an allele is_valid_alt_record accepts contains none of '.', '-', '*', '<', '>' |
| Variant.ValidAltMeansNoSymbol | spliceai/utils.py:148-153 | is_valid_alt_record is true exactly when the allele contains none of '.', '-', '*', '<', '>' |
| Annotation.MatchingRows | spliceai/utils.py:56-58 | the intersect1d of the three nonzero sets: ascending, every index matches chrom and covers pos, and every matching index is present |
| Annotation.GetNameAndStrand | spliceai/utils.py:53-63 | idxs are exactly the rows on the normalised chromosome whose [tx_start, tx_end] holds pos, ascending; genes and strands are those rows' own; empty when none matches |
| Annotation.ClosestBoundary | spliceai/utils.py:69 | min(union1d(bounds) - pos, key=abs): an element of bounds - pos of least absolute value, and on a -k/+k tie the negative one |
| Annotation.GetPosData | spliceai/utils.py:65-72 | the distances to tx_start and tx_end, and to the closest exon boundary, with the tie going to the boundary below pos |
| Annotation.GetSeq | spliceai/utils.py:136-145 | get_seq is the genome lookup on normalise_chrom(record.chrom, first genome name), which has the genome's naming style, over a span of 2 (wid // 2) + 1 positions that puts pos - 1 at offset wid // 2 |
| Encoding.Upper | spliceai/utils.py:157 | str.upper() on ASCII: same length, every character upper-cased |
| Encoding.OneHotIndex | spliceai/utils.py:83-86 | the table row a character selects is one of the five rows |
| Encoding.OneHotEncode | spliceai/utils.py:75-86 | one row per character |
| Encoding.OneHotRows | spliceai/utils.py:75-86 | every row is 4 wide; A, C, G, T in either case give the unit rows e1..e4, N the zero row |
| Encoding.FlipStrand | spliceai/utils.py:120-122 | x[:, ::-1, ::-1] keeps the window length |
| Encoding.FlipRow | spliceai/utils.py:77-86 | reversing the channel axis turns the row of a base into the row of its complement |
| Encoding.FlipIsReverseComplement | spliceai/utils.py:120-122 | on a sequence of A/C/G/T/N (either case) the '-' strand flip of the encoding is the encoding of the reverse complement |
| Encoding.GetCov | spliceai/utils.py:102-103 | cov is odd and cov // 2 == dist |
| Encoding.GetWid | spliceai/utils.py:106-107 | wid is cov plus 5000 of context on each side; for odd cov, wid // 2 == cov // 2 + 5000 |
| Encoding.PadSizes | spliceai/utils.py:112 | each pad is max(wid // 2 + d, 0) for the transcript-start distance and max(wid // 2 - d, 0) for the end distance, so at most wid // 2 when the transcript covers pos |
| Encoding.RefWindow | spliceai/utils.py:114 | x_ref has length wid when len(seq) == wid and the transcript covers pos, and is 'N' before the start pad ends |
| Encoding.AltWindow | spliceai/utils.py:115 | when the ref allele fits in x_ref, x_alt is len(alt) - len(ref) longer than x_ref and holds alt at wid // 2 |
| Encoding.RefWindowShape | spliceai/utils.py:112-114 | for an odd wid, len(seq) == wid and a covering transcript, x_ref has length wid, is 'N' outside the transcript and the sequence inside |
| Encoding.EncodeSeqs | spliceai/utils.py:110-124 | for a covering transcript, a full slice and a ref allele that fits, the ref window has wid rows and the alt window wid + len(alt) - len(ref) |
| Encoding.WindowShape | spliceai/utils.py:110-115 | with tx_start <= pos <= tx_end and len(seq) == wid: the ref window has length wid, is 'N' outside the transcript and the sequence inside; the alt window has length wid + len(alt) - len(ref), equals the ref window before wid // 2, holds alt at wid // 2 and the ref window's suffix after the ref allele |
| Encoding.EncodedLengths | spliceai/utils.py:110-124 | for a predictable location the encoded ref window is wid rows and the alt window wid + len(alt) - len(ref) |
| Encoding.PredictableMeansRefMatches | spliceai/utils.py:156-172 | is_location_predictable holds exactly when len(seq) == wid, len(ref) <= 2 dist, the ref allele fits after wid // 2, and the upper-cased sequence at wid // 2 spells ref |
| Encoding.IsLocationPredictable | spliceai/utils.py:156-172 | is_location_predictable implies len(seq) == wid, the ref allele fits after wid // 2 and the upper-cased slice there equals ref |
| DeltaScores.CreateUnhandledDeltaScore | spliceai/utils.py:175-176 | for names without '|', the entry splits into alt, gene and eight '.' fields |
| DeltaScores.UnhandledFields | spliceai/utils.py:175-176 | the format string alt|gene|.|.|.|.|.|.|.|. has those ten fields |
| DeltaScores.MaxOf | spliceai/utils.py:254 | np.max bounds every element |
| DeltaScores.MaxOfAttained | spliceai/utils.py:254 | and is one of the elements |
| DeltaScores.MaxOfColumn | spliceai/utils.py:254 | the max of one channel's column bounds that channel at every position |
| DeltaScores.MaxProbs | spliceai/utils.py:254 | the per-channel max over a span bounds every position on each channel |
| DeltaScores.MaxProbsAttained | spliceai/utils.py:254 | each channel's max is attained at some position of the span |
| DeltaScores.Oriented | spliceai/utils.py:241-243 | the '-' strand reversal keeps the track length |
| DeltaScores.CorrectIndel | spliceai/utils.py:245-256 | for anything but a complex indel, the corrected alt track has length cov |
| DeltaScores.DeletionRealigns | spliceai/utils.py:245-250 | a deletion of len(ref) <= dist + 1 keeps the track up to cov // 2 + 1, inserts len(ref) - 1 zero triples there, then the rest of the alt track |
| DeltaScores.LongDeletionZerosAtEnd | spliceai/utils.py:245-250 | a longer deletion: numpy clamps the slices and the zeros land after the whole alt track |
| DeltaScores.InsertionCollapses | spliceai/utils.py:251-256 | an insertion keeps the track before cov // 2, puts the per-channel max of [cov // 2, cov // 2 + len(alt)) at cov // 2, then the rest shifted back |
| DeltaScores.InsertionBranch | spliceai/utils.py:251-256 | the corrected track is exactly the three-part concatenation the code builds |
| DeltaScores.Signal | spliceai/utils.py:260-263 | a signed difference of the aligned tracks has one value per position |
| DeltaScores.ArgMax | spliceai/utils.py:260-263 | argmax returns an index of the signal |
| DeltaScores.ArgMaxIsFirstMax | spliceai/utils.py:260-263 | the index is a maximum and no earlier index reaches it (numpy's first occurrence) |
| DeltaScores.FirstMaxUnique | spliceai/utils.py:260-263 | the first maximum is unique, so the reported position is determined |
| DeltaScores.AlignedTracks | spliceai/utils.py:241-258 | after orientation and indel correction both tracks have length cov |
| DeltaScores.Report | spliceai/utils.py:265-280 | the reported position idx - cov // 2 lies in [-dist, dist] |
| DeltaScores.ReportReports | spliceai/utils.py:260-280 | the position is the first arg-max shifted by cov // 2, and the score is 0 when the mask rule applies and the signal there otherwise |
| DeltaScores.GetAltGeneDeltaScore | spliceai/utils.py:235-282 | the entry names the pair's allele and gene, and every position lies in [-dist, dist] |
| DeltaScores.DeltaScoreReports | spliceai/utils.py:260-280 | the four scores report the first arg-max of alt - ref (gains) and ref - alt (losses) per channel; with mask on a gain is zeroed exactly at the boundary distance, a loss exactly away from it; with mask off nothing is zeroed |
| Pairs.Row | spliceai/utils.py:200 | the inner loop visits (a, 0) ... (a, n-1) in order |
| Pairs.AllPairsSize | spliceai/utils.py:199-200 | the nested loops visit len(alts) * len(genes) pairs |
| Pairs.AllPairsExactly | spliceai/utils.py:199-200 | they visit exactly the pairs in range, in ascending alt-outer, gene-inner order |
| Pairs.KeepValid | spliceai/utils.py:202-203 | skipping invalid alleles never adds a pair |
| Pairs.KeepValidExactly | spliceai/utils.py:202-203 | a pair is kept exactly when it was visited and its allele is valid, and the order is kept |
| Pairs.ScoredPairs | spliceai/utils.py:199-203 | at most len(alts) * len(genes) pairs, each with a valid allele and a gene in range |
| Pairs.ScoredPairsExactly | spliceai/utils.py:199-203 | the scored pairs are exactly those with a valid allele, ascending |
| Pairs.KeepValidAppend | spliceai/utils.py:202-203 | filtering distributes over concatenation |
| Pairs.KeepValidRow | spliceai/utils.py:200-203 | one allele's row is kept whole or dropped whole |
| Pairs.ValidPairsGrow | spliceai/utils.py:199-203 | one more allele adds its row exactly when it is valid |
| Pairs.ValidPairsPrefix | spliceai/utils.py:199-203 | the pairs kept before allele a are a prefix of those kept before any later allele |
| Pairs.ValidPairAt | spliceai/utils.py:199-203 | a valid pair (a, g) sits at the count of kept pairs before a, plus g |
| Pairs.NoGenesNoPairs | spliceai/utils.py:200 | without transcripts nothing is scored |
| Pairs.ValidPairsExhausted | spliceai/batch/batch_utils.py:67-72 | with a transcript, the pairs kept before allele a are all the kept pairs exactly when no allele from a on is valid |
| Pairs.Visited | spliceai/batch/batch_utils.py:67-68 | the pairs the cursor loop has passed before (a, g) are all in range |
| Pairs.VisitedValid | spliceai/batch/batch_utils.py:78-85 | the passed pairs that advanced pred_ix all have a valid allele |
| Pairs.VisitedStep | spliceai/batch/batch_utils.py:78-105 | one more pair advances pred_ix exactly when its allele is valid |
| Pairs.VisitedNextAllele | spliceai/batch/batch_utils.py:67-68 | after the last gene the walk continues at the next allele's first gene |
| Pairs.VisitedEnds | spliceai/batch/batch_utils.py:66-107 | the walk starts with nothing passed and, past the last allele, has passed exactly the scored pairs |
| Pairs.VisitedValidAt | spliceai/batch/batch_utils.py:71-72 | at a valid pair, pred_ix is the index of that pair among the encoder's pairs |
| Pairs.VisitedInvalidAt | spliceai/batch/batch_utils.py:78-79 | at an invalid allele, pred_ix stays at the count of kept pairs before it |
| Pairs.ValidAltCount | spliceai/utils.py:199-203 | at most as many valid alleles as alleles |
| Pairs.ValidPairsCount | spliceai/utils.py:199-203 | each valid allele contributes one pair per transcript |
| Pairs.ScoredPairsCount | spliceai/utils.py:199-203 | number of scored pairs = valid alleles * transcripts |
| Pairs.CursorBound | spliceai/batch/batch_utils.py:71-72 | pred_ix is below the number of encoded pairs exactly when a valid allele remains from the current one on |
| Scoring.ScorePair | spliceai/utils.py:202-230 | a complex indel gives the unhandled text; any other pair gives get_alt_gene_delta_score on the scorer's tracks for the encoded windows, whose lengths are cov and cov + len(alt) - len(ref) |
| Scoring.ScoreAll | spliceai/utils.py:199-230 | one entry per pair, the k-th being the k-th pair's score |
| Scoring.ScoreAllAppend | spliceai/utils.py:205-230 | scoring one more pair appends its entry |
| Scoring.ScoreStep | spliceai/utils.py:199-230 | one pass of the inner loop appends exactly the pair's entry when its allele is valid, nothing otherwise |
| Scoring.ScoredNextAllele | spliceai/utils.py:199-200 | the inner loop's end is the next allele's start |
| Scoring.ScoredEnds | spliceai/utils.py:183-232 | the loop starts with no entries and ends with get_delta_scores' list |
| Scoring.Scores | spliceai/utils.py:185-232 | no entries when a gate fails; otherwise one entry per scored pair |
| Scoring.Predictable | spliceai/utils.py:185-197 | the record gates pass exactly when the ALT list is readable and the location is predictable on the fetched slice; the empty-slice gate is subsumed because an empty slice never has length wid |
| Scoring.DeltaScoresOf | spliceai/utils.py:179-232 | get_delta_scores returns no entries for a record whose ALT list cannot be read |
| Scoring.ScoresFollowPairs | spliceai/utils.py:199-230 | entries in alt-outer, gene-inner order over valid alleles; the k-th is unhandled exactly for a complex indel, with the alt\|gene\|. text, and otherwise is scored for that pair's allele and gene |
| Scoring.NoScoresExactly | spliceai/utils.py:185-203 | no entries exactly when the record is invalid, the sequence is empty, the location unpredictable, no transcript matches, or no allele is valid |
| Scoring.ScoresCount | spliceai/utils.py:199-230 | at most len(alts) * len(genes) entries, exactly valid alleles * genes for a predictable record |
| Scoring.GetDeltaScores | spliceai/utils.py:179-232 | the loop computes the list Scores describes, after the same gates |
| Scoring.ScoreGenes | spliceai/utils.py:199-230 | the nested loops produce Scores' list |
| Scoring.ScoreAllele | spliceai/utils.py:200-230 | the inner loop over genes produces that allele's entries |
| Scoring.ScoreAlleleGene | spliceai/utils.py:202-230 | one pair's entry is ScorePair's |
| Scoring.Annotate | spliceai/__main__.py:117-120 | the record is written with the SpliceAI field set exactly when there are entries, and then to those entries |
| Scoring.AnnotateAll | spliceai/__main__.py:111-120 | every record written with its own entries, in input order |
| Scoring.AnnotateAllAppend | spliceai/__main__.py:111-120 | writing one more record appends its annotation |
| BatchUtils.EncodePair | spliceai/batch/batch_utils.py:45-54 | the pair's ref window has wid rows, its alt window wid + len(alt) - len(ref), and neither is empty |
| BatchUtils.EncodeRows | spliceai/batch/batch_utils.py:39-56 | one ref and one alt window per pair |
| BatchUtils.EncodeRowsAt | spliceai/batch/batch_utils.py:53-54 | the k-th windows are the k-th pair's |
| BatchUtils.EncodeSpec | spliceai/batch/batch_utils.py:21-56 | two lists of equal length, ([], []) when a gate fails |
| BatchUtils.EncodedRowsMatchPairs | spliceai/batch/batch_utils.py:37-56 | one ref and one alt window per scored pair, in alt-outer, gene-inner order, complex indels included, with the window lengths above |
| BatchUtils.EncodeStep | spliceai/batch/batch_utils.py:40-54 | one pass of the inner loop appends the pair's windows exactly when its allele is valid |
| BatchUtils.EncodedEnds | spliceai/batch/batch_utils.py:37-56 | the loop starts empty and ends with the encoder's lists |
| BatchUtils.EncodeBatchRecords | spliceai/batch/batch_utils.py:21-56 | encode_batch_records returns EncodeSpec's lists |
| BatchUtils.EncodeAlleles | spliceai/batch/batch_utils.py:37-56 | the nested loops produce those lists |
| BatchUtils.EncodeGenes | spliceai/batch/batch_utils.py:40-54 | the inner loop over genes produces one allele's windows |
| BatchUtils.Predictions | spliceai/batch/batch.py:95-109 | what the batch hands back for one role: the scorer's track for each row, or [None] when the role had no rows |
| BatchUtils.RowsAt | spliceai/batch/batch_utils.py:71-72 | at a valid pair, the row at pred_ix is that pair's encoded window |
| BatchUtils.ScoreFromRows | spliceai/batch/batch_utils.py:94-102 | scoring the rows found at the cursor gives ScorePair's entry |
| BatchUtils.CursorStep | spliceai/batch/batch_utils.py:71-76 | on the batch's rows for the record, the cursor reads are as CursorReads describes: [None] for a record without rows; otherwise the cursor is in range exactly when the current or a later allele is valid, and a valid pair finds its tracks there |
| BatchUtils.WalkedEnds | spliceai/batch/batch_utils.py:65-107 | the walk starts at zero and ends with get_delta_scores' entries |
| BatchUtils.WalkedNextAllele | spliceai/batch/batch_utils.py:67-68 | moving on to the next allele keeps the walk's invariant |
| BatchUtils.CursorInRange | spliceai/batch/batch_utils.py:71-72 | the read at pred_ix is in range exactly unless the record has rows, the allele is invalid, and no later allele is valid |
| BatchUtils.ExtractPairAsWritten | spliceai/batch/batch_utils.py:68-105 | one pass as written fails exactly in that case, and otherwise advances the walk |
| BatchUtils.ExtractGenesAsWritten | spliceai/batch/batch_utils.py:68-105 | the inner loop as written stops only when the record has rows and its last allele is invalid |
| BatchUtils.ExtractAllelesAsWritten | spliceai/batch/batch_utils.py:67-107 | the outer loop as written raises IndexError exactly when the record has rows and its last allele is invalid, and otherwise returns get_delta_scores' entries |
| BatchUtils.ExtractDeltaScoresAsWritten | spliceai/batch/batch_utils.py:61-107 | as written: TypeError exactly without an ALT list, IndexError exactly when the record has rows and its last allele is invalid, otherwise get_delta_scores' entries |
| BatchUtils.ExtractPair | spliceai/batch/batch_utils.py:68-105 | the corrected pass (allele checked before the read) always advances the walk |
| BatchUtils.ExtractGenes | spliceai/batch/batch_utils.py:68-105 | the corrected inner loop completes one allele |
| BatchUtils.ExtractAlleles | spliceai/batch/batch_utils.py:67-107 | the corrected outer loop returns get_delta_scores' entries |
| BatchUtils.ExtractDeltaScores | spliceai/batch/batch_utils.py:61-107 | corrected: on the batch's rows for the same record, the result is get_delta_scores' entries, for every record |
| Batch.FindsGrow | spliceai/batch/batch.py:173-180 | a token that finds its row keeps finding it as the batches grow |
| Batch.ResolvesGrow | spliceai/batch/batch.py:173-183 | so does a role's whole list of tokens |
| Batch.GrowsTrans | spliceai/batch/batch.py:173-177 | growing twice is growing |
| Batch.InsertGrows | spliceai/batch/batch.py:173-177 | appending a row to the batch of its size grows the batches |
| Batch.PlaceRows | spliceai/batch/batch.py:158-183 | the loop over one role's rows appends each to the batch of its length, the batches only grow, and its tokens (one per row, or the placeholder (role, 0, 0) when there are none) each find their row |
| Batch.PlaceStep | spliceai/batch/batch.py:168-183 | one row's token has size = row length and index = its position in that batch |
| Batch.PlacedAll | spliceai/batch/batch.py:158-183 | after the loop the tokens resolve the role's rows |
| Batch.TokensJoin | spliceai/batch/batch.py:155-187 | REF tokens followed by ALT tokens resolve the record's two lists |
| Batch.PlaceRecord | spliceai/batch/batch.py:150-188 | after encoding, the batches are the old ones with the REF rows and then the ALT rows appended one by one by size, so they only grow, and the record's tokens find its rows |
| Batch.PreparedGrow | spliceai/batch/batch.py:168-183 | a pending record's tokens stay valid as later records are added |
| Batch.AllPreparedGrow | spliceai/batch/batch.py:168-183 | so do all pending records' tokens |
| Batch.AllPreparedAppend | spliceai/batch/batch.py:186-189 | appending a prepared record keeps every pending record prepared |
| Batch.AppendRecord | spliceai/batch/batch.py:141-189 | add_record's value work: the count is len(alts) * len(genes) (0 without ALT list), the pending predictions grow by it, the record joins the pending list last, the batches become the old ones with the record's REF rows and then its ALT rows appended (so they only grow), and every pending token still finds its row |
| Batch.PredictionCountAsWritten | spliceai/batch/batch.py:146 | as written, the count raises (None) exactly when the ALT list is missing, and is len(alts) * len(genes) otherwise |
| Batch.PredictionCount | spliceai/batch/batch.py:146 | corrected: the as-written count wherever it is defined, 0 without an ALT list |
| Batch.PredictionCountBoundsScores | spliceai/batch/batch.py:145-148 | a record never receives more entries than the predictions counted for it |
| Batch.PendingPredictions | spliceai/batch/batch.py:43-48 | nothing pending counts 0 |
| Batch.PendingPredictionsAppend | spliceai/batch/batch.py:147 | the pending count grows by exactly the added record's count |
| Batch.GatherAppend | spliceai/batch/batch.py:95-109 | collecting over two runs of tokens is collecting over each |
| Batch.GatherFinds | spliceai/batch/batch.py:104-109 | tokens that find rows collect the scorer's track of each row, in order, and nothing for the other role |
| Batch.GatherResolves | spliceai/batch/batch.py:95-109 | a role's tokens collect Predictions of its rows, the placeholder giving [None] |
| Batch.InBoundsJoin | spliceai/batch/batch.py:105-109 | in-bounds token runs join |
| Batch.GatherTokens | spliceai/batch/batch.py:95-109 | a record's tokens collect exactly the model's tracks for its REF rows and for its ALT rows |
| Batch.GatherPrepared | spliceai/batch/batch.py:95-109 | for a pending record, every token is in bounds and all_y_ref, all_y_alt are the tracks of the encoder's two lists |
| Batch.RecordsOf | spliceai/batch/batch.py:73 | the pending records in order |
| Batch.RecordsOfStep | spliceai/batch/batch.py:73-75 | one more pending record extends the list by it |
| Batch.RecordsOfAppend | spliceai/batch/batch.py:189 | appending a prepared record appends its record |
| Batch.WriteStep | spliceai/batch/batch.py:73-75 | writing the next pending record extends the output by that record's annotation |
| Batch.EncodedRowsNonEmpty | spliceai/batch/batch_utils.py:45-54 | no encoded row is empty, so a real token's size is never 0 |
| Batch.VCFPredictionBatch.constructor | spliceai/batch/batch.py:28-45 | empty batches, nothing pending, counters 0, nothing written |
| Batch.VCFPredictionBatch.ClearBatch | spliceai/batch/batch.py:47-50 | _clear_batch: count 0, no batches, nothing pending |
| Batch.VCFPredictionBatch.PredictBatches | spliceai/batch/batch.py:62-70 | the scorer's track for every row of every batch, in order |
| Batch.VCFPredictionBatch.GatherRows | spliceai/batch/batch.py:91-109 | the token loop collects Gather's lists: None for a placeholder, the prediction at the token otherwise |
| Batch.VCFPredictionBatch.WriteRecord | spliceai/batch/batch.py:86-127 | _write_record appends the record annotated with get_delta_scores' entries, and returns their number |
| Batch.VCFPredictionBatch.WriteRecords | spliceai/batch/batch.py:73-75 | every pending record written once, in order, each with its own entries |
| Batch.VCFPredictionBatch.ProcessBatch | spliceai/batch/batch.py:52-77 | _process_batch appends every pending record with its entries in order, then leaves no batches, nothing pending and count 0; the totals are untouched |
| Batch.VCFPredictionBatch.AddRecord | spliceai/batch/batch.py:129-193 | total_vcf_records + 1 and total_predictions raised by the record's count; a flush exactly when batch_predictions plus that count reaches prediction_batch_size, writing all pending records and this one in order and leaving nothing pending and count 0; otherwise nothing written, the record pending last, batch_predictions raised by its count, and the batches the old ones with the record's REF rows and then its ALT rows appended, so they only grow between flushes |
| Batch.VCFPredictionBatch.Finish | spliceai/batch/batch.py:195-200 | finish writes whatever is pending, in order, leaves nothing pending, and leaves the prediction and record totals unchanged |
| Driver.RunBatched | spliceai/__main__.py:101-125 | add_record for every record, then finish: the output is every record with its get_delta_scores entries, in input order, whatever the batch size |
| Driver.RunUnbatched | spliceai/__main__.py:111-120 | the unbatched loop writes the same |
| Driver.RunSpliceAI | spliceai/__main__.py:101-125 | batching only when prediction_batch_size > 1, and the output is the same either way (the batch-size invariance the tests check at tests/test_batches.py:42-53) |
| Findings.SampleGenes | spliceai/utils.py:53-63 | the sample annotation finds its one transcript for chromosome "1" at 20000 |
| Findings.StarPredictable | spliceai/utils.py:156-172 | the sample record at 20000 passes is_location_predictable with dist 1 |
| Findings.StarAlleles | spliceai/utils.py:148-153 | of ALT ["C", "*"], "C" is valid and "*" is not |
| Findings.StarHasRows | spliceai/batch/batch_utils.py:37-56 | that record has rows in a batch |
| Findings.LastAlleleInvalidRaises | spliceai/batch/batch_utils.py:71-72 | on that record extract_delta_scores as written raises IndexError, while get_delta_scores returns one entry |
| Findings.MissingAltRaises | spliceai/batch/batch.py:146 | a record without ALT list makes add_record's count raise, while get_delta_scores returns no entry and the record is written unchanged; the corrected count is 0 |

## Left out

- Loading the annotation table, reference genome and networks (`Annotator.__init__`, pandas, pyfaidx, keras) is I/O. The model takes the table as given sequences. It requires aligned columns, at least one row, and an exon boundary per transcript.
- `get_seq` is modelled by `Annotation.GetSeq` over an abstract, total genome lookup that yields "" when the slice cannot be read. Fasta key order is not modelled. Neither is any lookup failure other than the IndexError and ValueError that `get_seq` catches (utils.py:138-144). An example is a KeyError for a contig missing from the genome, which `get_seq` lets escape.
- The order of the gates differs between the two paths, and the model does not capture the consequence. `get_delta_scores` returns at the transcript gate (utils.py:188-190) before it calls `get_seq`. `encode_batch_records` calls `get_seq` for every record with an ALT list (batch_utils.py:27-32), whether or not a transcript covers it. So a genome lookup that raises for a record with no transcript aborts `add_record` in batched mode, while the unbatched run writes that record unchanged. With the total lookup the two paths agree.
- The five networks and their mean (`predict`, `get_preds`, `np.mean`) are replaced by one deterministic row-wise scorer, `Annotator.model`. Because it is row-wise, scoring a row inside a batch and scoring it alone agree by construction.
  - `get_preds`' batch size argument has no effect on the results and is not modelled.
  - `tensorflow_batch_size` is stored and never used.
- Scores are reals. Python's float arithmetic, the `{:.2f}` rendering and the rendering of -0.0 are not modelled. Positions are exact integers.
- `one_hot_encode` is modelled on ASCII characters, with the mod-5 rule for characters other than ACGTN. Non-ASCII input, whose byte encoding and `np.int8` wrap-around differ, is not modelled. The same goes for `str.upper` beyond ASCII.
- `is_record_valid` relies on a TypeError from attribute access. It is modelled as "the ALT list is present", the only access in it that can fail.
- Records are assumed well formed: a non-empty REF and non-empty ALT alleles, as a VCF reader yields them.
- The LookupError at batch_utils.py:87-92 is not modelled. It checks the same index that lines 71-72 have just read successfully, so it cannot fire.
- Logging, timing, `total_batch_predictions` (which feeds only the timing log) and the debug dump of batch sizes are left out. `WriteRecord` still returns the record's count.
- Written records are values, `Written(record, entries)`, appended to a sequence. The source sets `record.info['SpliceAI']` on the pysam record and writes it to a file.
- The order in which `_process_batch` visits the batch dictionary is left open: any order gives the same predictions.
- Batch.AppendRecord: `add_record`'s appends to `self.batches` and `self.prepared_vcf_records` are computed on values and then assigned to the fields. `_clear_batch` likewise assigns empty values instead of clearing the same objects. Aliasing of those containers by other holders is not modelled.
- Batch.VCFPredictionBatch.AddRecord: it counts 0 predictions for a record without an ALT list, where the code raises TypeError (see Findings).
- Batch.VCFPredictionBatch.WriteRecord: it uses the corrected extractor. The code as written raises IndexError for a record with rows whose last allele is not scorable (see Findings). As a result the batch-size invariance of `Driver.RunSpliceAI` is proved for the corrected batch code. For the code as written it holds only for inputs that avoid both findings, whose conditions the contracts of `BatchUtils.ExtractDeltaScoresAsWritten` and `Batch.PredictionCountAsWritten` state, and whose genome lookup does not raise (see the gate-order line above).
- Driver.RunSpliceAI: its batch-size invariance is proved for the corrected batch code and a total genome lookup. As written, the inputs of both Findings rows make the batched run raise, and so does a genome lookup that raises for a record no transcript covers (see the gate-order line above). The unbatched run writes those records.
- `__main__.py`'s argument parsing, the pysam reader and writer, and the header line are left out. `Driver.RunSpliceAI` takes the records as a sequence and returns what is written.
- `spliceai/__init__.py` (signal handler, version) is not part of this model. Neither is `GffAnnotator`, which a test imports but which is not in utils.py.

## Findings

| source | as written | input that shows it | evidently intended | confidence | as-written member | corrected member |
|---|---|---|---|---|---|---|
| spliceai/batch/batch_utils.py:71-72 | `all_y_ref[pred_ix]` and `all_y_alt[pred_ix]` are read before `is_valid_alt_record` is checked. After the last scorable pair, pred_ix equals the length of the lists, so a trailing non-scorable allele reads past the end | a predictable record with REF "A" and ALT ["C", "*"] under one transcript: one row is encoded; the pair ("*", gene) reads index 1 of one-element lists and raises IndexError; unbatched `get_delta_scores` returns one entry | check the allele (and skip) before reading at the cursor, so the batched entries equal the unbatched ones | not executed | BatchUtils.ExtractDeltaScoresAsWritten, Findings.LastAlleleInvalidRaises | BatchUtils.ExtractDeltaScores |
| spliceai/batch/batch.py:146 | `len(record.alts) * len(gene_info.genes)` is computed before anything checks the ALT list | a record whose ALT column is '.' (the reader gives no ALT list) raises TypeError in `add_record`; unbatched, `is_record_valid` is false and the record is written without entries | treat a missing ALT list as no alternates: count 0, no rows, the record written unchanged | not executed | Batch.PredictionCountAsWritten, Findings.MissingAltRaises | Batch.PredictionCount |
