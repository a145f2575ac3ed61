/** The annotation table, the reference genome and the scoring model, as the
    Annotator holds them once it is loaded, and the two table queries. */
module Annotation {
  import opened Sequences
  import opened Tensors
  import opened Chrom
  import opened Variant

  /** The loaded annotation: one row per transcript (TX_START already
      shifted to 1-based), the reference genome as a lookup by
      (chromosome, start, end) that yields "" when the slice cannot be read,
      its chromosome names, and the (ensemble-averaged) scoring model. */
  datatype Annotator = Annotator(
    genes: seq<string>,
    chroms: seq<string>,
    strands: seq<string>,
    txStarts: seq<int>,
    txEnds: seq<int>,
    exonStarts: seq<seq<int>>,
    exonEnds: seq<seq<int>>,
    fastaNames: seq<string>,
    fetch: (string, int, int) -> string,
    model: Window -> Track)

  function Rows(ann: Annotator): nat { |ann.genes| }

  /** A loaded annotation: columns aligned, at least one row and one
      reference chromosome (the first of each gives the naming style), every
      transcript with an exon boundary, and the model's shape contract. */
  ghost predicate AnnValid(ann: Annotator)
  {
    && |ann.genes| > 0
    && |ann.chroms| == |ann.genes| && |ann.strands| == |ann.genes|
    && |ann.txStarts| == |ann.genes| && |ann.txEnds| == |ann.genes|
    && |ann.exonStarts| == |ann.genes| && |ann.exonEnds| == |ann.genes|
    && (forall i :: 0 <= i < |ann.genes| ==> |ann.exonStarts[i]| + |ann.exonEnds[i]| > 0)
    && |ann.fastaNames| > 0
    && ModelShape(ann.model)
  }

  /** An Annotator once loaded. */
  type LoadedAnnotator = ann: Annotator | AnnValid(ann) witness SampleAnnotator()

  /** A one-transcript annotation on chromosome "1" over a genome of A's,
      with a scorer that predicts nothing anywhere. */
  function SampleAnnotator(): (ann: Annotator)
    ensures AnnValid(ann)
  {
    Annotator(["GENE"], ["1"], ["+"], [1], [100000], [[50]], [[60]], ["1"],
              (c, s, e) => Repeat('A', if s <= e then e - s else 0),
              x => Repeat(Probs(0.0, 0.0, 0.0), if |x| >= 2 * Flank then |x| - 2 * Flank else 0))
  }

  /** GeneInfo: the matching genes, their strands and their row indices. */
  datatype GeneInfo = GeneInfo(genes: seq<string>, strands: seq<string>, idxs: seq<nat>)

  /** Row i is on chromosome chrom and its transcript covers pos. */
  predicate Matches(ann: Annotator, chrom: string, pos: int, i: nat)
    requires AnnValid(ann) && i < Rows(ann)
  {
    ann.chroms[i] == chrom && ann.txStarts[i] <= pos && pos <= ann.txEnds[i]
  }

  /** The matching rows below n, in ascending order. */
  function MatchingRows(ann: Annotator, chrom: string, pos: int, n: nat): (idxs: seq<nat>)
    requires AnnValid(ann) && n <= Rows(ann)
    ensures forall k :: 0 <= k < |idxs| ==> idxs[k] < n && Matches(ann, chrom, pos, idxs[k])
    ensures forall i :: 0 <= i < n && Matches(ann, chrom, pos, i) ==> i in idxs
    ensures forall k, l :: 0 <= k < l < |idxs| ==> idxs[k] < idxs[l]
  {
    if n == 0 then []
    else
      var prev := MatchingRows(ann, chrom, pos, n - 1);
      if Matches(ann, chrom, pos, n - 1) then prev + [n - 1] else prev
  }

  /** A gene selection over the table: aligned lists of rows of the table. */
  ghost predicate Aligned(ann: Annotator, gi: GeneInfo)
  {
    && AnnValid(ann)
    && |gi.genes| == |gi.idxs| && |gi.strands| == |gi.idxs|
    && forall k :: 0 <= k < |gi.idxs| ==> gi.idxs[k] < Rows(ann)
  }

  /** A gene selection usable for pos: every selected transcript covers pos. */
  ghost predicate Covers(ann: Annotator, gi: GeneInfo, pos: int)
  {
    && Aligned(ann, gi)
    && forall k :: 0 <= k < |gi.idxs| ==> ann.txStarts[gi.idxs[k]] <= pos <= ann.txEnds[gi.idxs[k]]
  }

  /** get_name_and_strand: the chromosome name is put in the table's style,
      then every row on that chromosome whose transcript covers pos is
      selected, in ascending order, with its gene name and strand. */
  function GetNameAndStrand(ann: Annotator, chrom: string, pos: int): (gi: GeneInfo)
    requires AnnValid(ann)
    ensures Covers(ann, gi, pos)
    ensures forall i :: 0 <= i < Rows(ann) ==>
      (i in gi.idxs <==> Matches(ann, NormaliseChrom(chrom, ann.chroms[0]), pos, i))
    ensures forall k, l :: 0 <= k < l < |gi.idxs| ==> gi.idxs[k] < gi.idxs[l]
    ensures forall k :: 0 <= k < |gi.idxs| ==>
      gi.genes[k] == ann.genes[gi.idxs[k]] && gi.strands[k] == ann.strands[gi.idxs[k]]
  {
    var c := NormaliseChrom(chrom, ann.chroms[0]);
    var idxs := MatchingRows(ann, c, pos, Rows(ann));
    GeneInfo(seq(|idxs|, k requires 0 <= k < |idxs| => ann.genes[idxs[k]]),
             seq(|idxs|, k requires 0 <= k < |idxs| => ann.strands[idxs[k]]),
             idxs)
  }

  /** min(union1d(bounds) - pos, key=abs): union1d sorts, and min keeps the
      first of equally distant candidates, so the nearest boundary wins and
      among a -k/+k tie the one below pos (the negative offset) wins. */
  function ClosestBoundary(bounds: seq<int>, pos: int): (d: int)
    requires |bounds| > 0
    ensures d + pos in bounds
    ensures forall k :: 0 <= k < |bounds| ==> Abs(d) <= Abs(bounds[k] - pos)
    ensures forall k :: 0 <= k < |bounds| && Abs(bounds[k] - pos) == Abs(d) ==> d <= bounds[k] - pos
  {
    var here := bounds[0] - pos;
    if |bounds| == 1 then here
    else
      var rest := ClosestBoundary(bounds[1..], pos);
      if Abs(here) < Abs(rest) || (Abs(here) == Abs(rest) && here < rest) then here else rest
  }

  /** get_pos_data: signed distances from pos to the transcript start, the
      transcript end and the nearest exon boundary. */
  function GetPosData(ann: Annotator, idx: nat, pos: int): (dist: (int, int, int))
    requires AnnValid(ann) && idx < Rows(ann)
    ensures dist.0 == ann.txStarts[idx] - pos && dist.1 == ann.txEnds[idx] - pos
    ensures dist.2 + pos in ann.exonStarts[idx] + ann.exonEnds[idx]
    ensures forall b :: b in ann.exonStarts[idx] + ann.exonEnds[idx] ==> Abs(dist.2) <= Abs(b - pos)
    ensures forall b :: b in ann.exonStarts[idx] + ann.exonEnds[idx] && Abs(b - pos) == Abs(dist.2) ==>
      dist.2 <= b - pos
  {
    (ann.txStarts[idx] - pos, ann.txEnds[idx] - pos,
     ClosestBoundary(ann.exonStarts[idx] + ann.exonEnds[idx], pos))
  }

  /** get_seq: the reference slice [pos - wid/2 - 1, pos + wid/2) of the
      record's chromosome, renamed to the genome's style; "" when the lookup
      fails. */
  function GetSeq(r: Record, ann: Annotator, wid: nat): (s: string)
    requires AnnValid(ann)
    ensures exists c, lo, hi ::
      && s == ann.fetch(c, lo, hi)
      && c == NormaliseChrom(r.chrom, ann.fastaNames[0])
      && HasPrefix(c) == HasPrefix(ann.fastaNames[0])
      && hi - lo == 2 * (wid / 2) + 1 && lo + wid / 2 == r.pos - 1
  {
    ann.fetch(NormaliseChrom(r.chrom, ann.fastaNames[0]), r.pos - wid / 2 - 1, r.pos + wid / 2)
  }
}
