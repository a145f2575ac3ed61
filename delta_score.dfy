/** get_alt_gene_delta_score: from the scorer's reference and alternate
    tracks for one (allele, transcript) pair to the four delta scores and
    their positions, and the text reported for alleles that are not scored. */
module DeltaScores {
  import opened Sequences
  import opened Tensors
  import opened Variant
  import opened Annotation

  /** One entry of the SpliceAI INFO field. A scored entry carries
      ALLELE|SYMBOL|DS_AG|DS_AL|DS_DG|DS_DL|DP_AG|DP_AL|DP_DG|DP_DL; an
      unhandled one carries its text. */
  datatype DeltaScore =
    | Unhandled(text: string)
    | Scored(allele: string, gene: string,
             dsAG: real, dsAL: real, dsDG: real, dsDL: real,
             dpAG: int, dpAL: int, dpDG: int, dpDL: int)

  /** The '|'-separated fields of an entry. */
  function Fields(s: string): (fs: seq<string>)
    ensures |fs| >= 1
  {
    if s == [] then [[]]
    else
      var rest := Fields(s[1..]);
      if s[0] == '|' then [[]] + rest else [[s[0]] + rest[0]] + rest[1..]
  }

  /** A field free of '|' followed by a separator is split off whole. */
  lemma {:induction false} FieldsAfter(a: string, b: string)
    requires '|' !in a
    ensures Fields(a + "|" + b) == [a] + Fields(b)
  {
    if a == [] {
      assert (a + "|" + b)[1..] == b;
    } else {
      FieldsAfter(a[1..], b);
      assert (a + "|" + b)[1..] == a[1..] + "|" + b;
      assert [a[0]] + a[1..] == a;
    }
  }

  lemma FieldsOfDot()
    ensures Fields(".") == ["."]
  {
    var rest := Fields("");
    assert "."[1..] == "" && "."[0] == '.';
    assert rest == [[]];
    assert ['.'] + rest[0] == ".";
    assert rest[1..] == [];
  }

  /** n '.' placeholders joined by '|'. */
  function Dots(n: nat): (d: string)
    requires n >= 1
  {
    if n == 1 then "." else "." + "|" + Dots(n - 1)
  }

  lemma {:induction false} FieldsOfDots(n: nat)
    requires n >= 1
    ensures Fields(Dots(n)) == Repeat(".", n)
  {
    if n == 1 {
      FieldsOfDot();
    } else {
      assert "."[0] == '.' && |"."| == 1;
      FieldsAfter(".", Dots(n - 1));
      FieldsOfDots(n - 1);
      assert ["."] + Repeat(".", n - 1) == Repeat(".", n);
    }
  }

  /** The placeholder tail of the unhandled text is eight '.' fields. */
  lemma EightDots()
    ensures Dots(8) == ".|.|.|.|.|.|.|."
  {
    assert Dots(1) == ".";
    assert Dots(2) == ".|.";
    assert Dots(3) == ".|.|.";
    assert Dots(4) == ".|.|.|.";
    assert Dots(5) == ".|.|.|.|.";
    assert Dots(6) == ".|.|.|.|.|.";
    assert Dots(7) == ".|.|.|.|.|.|.";
  }

  lemma TextShape(alt: string, gene: string)
    ensures alt + "|" + gene + "|.|.|.|.|.|.|.|." == alt + "|" + (gene + "|" + Dots(8))
  {
    EightDots();
    assert "|.|.|.|.|.|.|.|." == "|" + Dots(8);
  }

  /** The unhandled text has ten fields: the allele, the gene and eight '.'
      placeholders for the scores and positions. */
  lemma {:induction false} UnhandledFields(alt: string, gene: string)
    ensures '|' !in alt && '|' !in gene ==>
      Fields(alt + "|" + gene + "|.|.|.|.|.|.|.|.") == [alt, gene] + Repeat(".", 8)
  {
    if '|' !in alt && '|' !in gene {
      var dots := Dots(8);
      TextShape(alt, gene);
      FieldsOfDots(8);
      FieldsAfter(gene, dots);
      FieldsAfter(alt, gene + "|" + dots);
    }
  }

  /** create_unhandled_delta_score: an allele and gene with every score and
      position field left as '.'. */
  function CreateUnhandledDeltaScore(alt: string, gene: string): (s: string)
    ensures '|' !in alt && '|' !in gene ==> Fields(s) == [alt, gene] + Repeat(".", 8)
  {
    UnhandledFields(alt, gene);
    alt + "|" + gene + "|.|.|.|.|.|.|.|."
  }

  const Zero: Probs := Probs(0.0, 0.0, 0.0)

  /** Channel c of every position of a track. */
  function Column(span: Track, c: nat): (col: seq<real>)
    ensures |col| == |span|
  {
    seq(|span|, i requires 0 <= i < |span| => Chan(span[i], c))
  }

  /** The largest element of a non-empty list: an upper bound of it here,
      and one of its elements by MaxOfAttained. */
  function MaxOf(s: seq<real>): (r: real)
    requires |s| > 0
    ensures forall i :: 0 <= i < |s| ==> s[i] <= r
  {
    if |s| == 1 then s[0]
    else
      var m := MaxOf(s[..|s| - 1]);
      if m < s[|s| - 1] then s[|s| - 1] else m
  }

  lemma {:induction false} MaxOfAttained(s: seq<real>)
    requires |s| > 0
    ensures MaxOf(s) in s
  {
    if |s| > 1 {
      var front := s[..|s| - 1];
      MaxOfAttained(front);
      assert MaxOf(front) in s;
    }
  }

  /** v bounds channel c of every position of span. */
  predicate BoundsColumn(span: Track, v: real, c: nat)
  {
    forall i :: 0 <= i < |span| ==> Chan(span[i], c) <= v
  }

  lemma MaxOfColumn(span: Track, c: nat)
    requires |span| > 0
    ensures BoundsColumn(span, MaxOf(Column(span, c)), c)
  {
    var col := Column(span, c);
    forall i | 0 <= i < |span| ensures Chan(span[i], c) <= MaxOf(col) {
      assert col[i] == Chan(span[i], c);
    }
  }

  /** np.max over positions: a per-channel upper bound of a non-empty span
      (that each channel is attained is MaxProbsAttained). */
  function MaxProbs(span: Track): (m: Probs)
    requires |span| > 0
    ensures BoundsColumn(span, m.neither, 0) && BoundsColumn(span, m.acceptor, Acceptor) && BoundsColumn(span, m.donor, Donor)
  {
    MaxOfColumn(span, 0);
    MaxOfColumn(span, Acceptor);
    MaxOfColumn(span, Donor);
    Probs(MaxOf(Column(span, 0)), MaxOf(Column(span, Acceptor)), MaxOf(Column(span, Donor)))
  }

  /** Each channel of the maximum is the value of that channel at some
      position of the span. */
  lemma MaxProbsAttained(span: Track)
    requires |span| > 0
    ensures var m := MaxProbs(span);
      && (exists i :: 0 <= i < |span| && span[i].neither == m.neither)
      && (exists i :: 0 <= i < |span| && span[i].acceptor == m.acceptor)
      && (exists i :: 0 <= i < |span| && span[i].donor == m.donor)
  {
    forall c: nat | c < 3 ensures exists i :: 0 <= i < |span| && Chan(span[i], c) == MaxOf(Column(span, c)) {
      var col := Column(span, c);
      MaxOfAttained(col);
      var i :| 0 <= i < |col| && col[i] == MaxOf(col);
      assert Chan(span[i], c) == MaxOf(col);
    }
    assert forall i :: 0 <= i < |span| ==> Chan(span[i], 0) == span[i].neither;
    assert forall i :: 0 <= i < |span| ==> Chan(span[i], 1) == span[i].acceptor;
    assert forall i :: 0 <= i < |span| ==> Chan(span[i], 2) == span[i].donor;
  }

  /** y[:, ::-1] for a '-' strand transcript: positions back in genome order. */
  function Oriented(y: Track, strand: string): (o: Track)
    ensures |o| == |y|
  {
    if strand == "-" then Reverse(y) else y
  }

  /** The indel correction of the alternate track: a deletion gets zero
      triples for its deleted bases after the first cov/2 + |alt| positions,
      an insertion has its inserted positions [cov/2, cov/2 + |alt|) collapsed
      to their per-channel maximum, anything else is left as it is. */
  function CorrectIndel(yAlt: Track, refLen: nat, altLen: nat, cov: nat): (y: Track)
    requires refLen >= 1 && altLen >= 1 && cov % 2 == 1
    requires |yAlt| + refLen == cov + altLen
    ensures !(refLen > 1 && altLen > 1) ==> |y| == cov
  {
    var h := cov / 2;
    if refLen > 1 && altLen == 1 then
      SliceSplit(yAlt, h + altLen);
      Slice(yAlt, 0, h + altLen) + Repeat(Zero, refLen - altLen) + Slice(yAlt, h + altLen, |yAlt|)
    else if refLen == 1 && altLen > 1 then
      var span := Slice(yAlt, h, h + altLen);
      assert span == yAlt[h..h + altLen];
      Slice(yAlt, 0, h) + [MaxProbs(span)] + Slice(yAlt, h + altLen, |yAlt|)
    else
      yAlt
  }

  /** A deletion that ends inside the scored span: the alternate track is put
      back into reference coordinates; the positions up to the kept first
      base are unchanged, the deleted bases score zero, and every later
      reference position reads the alternate track refLen - 1 places
      earlier. */
  lemma DeletionRealigns(yAlt: Track, refLen: nat, cov: nat)
    requires refLen > 1 && cov % 2 == 1 && |yAlt| + refLen == cov + 1
    requires refLen <= cov / 2 + 1
    ensures var y := CorrectIndel(yAlt, refLen, 1, cov); var h := cov / 2;
      && |y| == cov
      && y[..h + 1] == yAlt[..h + 1]
      && (forall i :: h + 1 <= i < h + refLen ==> y[i] == Zero)
      && (forall i :: h + refLen <= i < cov ==> y[i] == yAlt[i - refLen + 1])
  {
    var h := cov / 2;
    var y := CorrectIndel(yAlt, refLen, 1, cov);
    assert y == yAlt[..h + 1] + Repeat(Zero, refLen - 1) + yAlt[h + 1..];
  }

  /** A deletion reaching past the scored span: numpy's clamped slicing keeps
      the whole alternate track and the zero triples land at its end. */
  lemma LongDeletionZerosAtEnd(yAlt: Track, refLen: nat, cov: nat)
    requires refLen > 1 && cov % 2 == 1 && |yAlt| + refLen == cov + 1
    requires refLen > cov / 2 + 1
    ensures CorrectIndel(yAlt, refLen, 1, cov) == yAlt + Repeat(Zero, refLen - 1)
  {
    assert Slice(yAlt, 0, cov / 2 + 1) == yAlt;
  }

  /** The shape of a list that replaces the run [h, h + n) of src by one
      element m. */
  lemma CollapsedRun<T>(src: seq<T>, h: nat, n: nat, m: T)
    requires h + n <= |src|
    ensures var y := Slice(src, 0, h) + [m] + Slice(src, h + n, |src|);
      && |y| == |src| - n + 1
      && y[..h] == src[..h] && y[h] == m
      && forall i :: h < i < |y| ==> y[i] == src[i + n - 1]
  {
    var y := Slice(src, 0, h) + [m] + Slice(src, h + n, |src|);
    assert y == src[..h] + [m] + src[h + n..];
    assert y[..h] == src[..h];
    forall i | h < i < |y| ensures y[i] == src[i + n - 1] {
      assert y[i] == src[h + n..][i - h - 1];
    }
  }

  /** An insertion: the positions before the variant are unchanged, the
      variant position holds the per-channel maximum over the inserted
      bases, and every later reference position reads the alternate track
      |alt| - 1 places later. */
  lemma InsertionCollapses(yAlt: Track, altLen: nat, cov: nat)
    requires altLen > 1 && cov % 2 == 1 && |yAlt| + 1 == cov + altLen
    ensures var y := CorrectIndel(yAlt, 1, altLen, cov); var h := cov / 2;
      && |y| == cov
      && y[..h] == yAlt[..h]
      && y[h] == MaxProbs(yAlt[h..h + altLen])
      && (forall i :: h < i < cov ==> y[i] == yAlt[i + altLen - 1])
  {
    var h := cov / 2;
    var span := Slice(yAlt, h, h + altLen);
    assert span == yAlt[h..h + altLen];
    InsertionBranch(yAlt, altLen, cov);
    CollapsedRun(yAlt, h, altLen, MaxProbs(span));
  }

  lemma InsertionBranch(yAlt: Track, altLen: nat, cov: nat)
    requires altLen > 1 && cov % 2 == 1 && |yAlt| + 1 == cov + altLen
    ensures CorrectIndel(yAlt, 1, altLen, cov)
         == Slice(yAlt, 0, cov / 2) + [MaxProbs(Slice(yAlt, cov / 2, cov / 2 + altLen))] + Slice(yAlt, cov / 2 + altLen, |yAlt|)
  {
  }

  /** The per-position difference a score is taken from: alt - ref in
      channel c for a gain, ref - alt for a loss. */
  function Signal(yRef: Track, yAlt: Track, c: nat, gain: bool): (s: seq<real>)
    requires |yRef| == |yAlt|
    ensures |s| == |yRef|
  {
    seq(|yRef|, i requires 0 <= i < |yRef| =>
      if gain then Chan(yAlt[i], c) - Chan(yRef[i], c) else Chan(yRef[i], c) - Chan(yAlt[i], c))
  }

  /** k is where s first reaches its maximum. */
  predicate IsFirstMax(s: seq<real>, k: int)
  {
    && 0 <= k < |s|
    && (forall i :: 0 <= i < |s| ==> s[i] <= s[k])
    && (forall i :: 0 <= i < k ==> s[i] < s[k])
  }

  /** numpy's argmax: the first index of the maximum. */
  function ArgMax(s: seq<real>): (k: nat)
    requires |s| > 0
    ensures k < |s|
  {
    if |s| == 1 then 0
    else
      var k := ArgMax(s[..|s| - 1]);
      if s[|s| - 1] > s[k] then |s| - 1 else k
  }

  /** ArgMax finds the first maximum: a later equal value does not displace
      an earlier one. */
  lemma {:induction false} ArgMaxIsFirstMax(s: seq<real>)
    requires |s| > 0
    ensures IsFirstMax(s, ArgMax(s))
  {
    if |s| > 1 {
      ArgMaxIsFirstMax(s[..|s| - 1]);
    }
  }

  /** The first maximum is unique, so the reported position is determined by
      the tracks alone. */
  lemma FirstMaxUnique(s: seq<real>, k: int, l: int)
    requires IsFirstMax(s, k) && IsFirstMax(s, l)
    ensures k == l
  {
    assert s[k] == s[l];
  }

  /** The reference and (indel-corrected) alternate tracks in genome order,
      both cov long. */
  function AlignedTracks(r: Record, altIx: nat, strand: string, yRef: Track, yAlt: Track, cov: nat): (t: (Track, Track))
    requires WellFormed(r) && IsRecordValid(r) && altIx < |r.alts.value|
    requires !IsComplexIndel(r.ref, r.alts.value[altIx]) && cov % 2 == 1
    requires |yRef| == cov && |yAlt| + |r.ref| == cov + |r.alts.value[altIx]|
    ensures |t.0| == cov && |t.1| == cov
  {
    var alt := r.alts.value[altIx];
    assert alt in r.alts.value;
    (Oriented(yRef, strand), CorrectIndel(Oriented(yAlt, strand), |r.ref|, |alt|, cov))
  }

  /** A score and its position as reported: the position is the first
      arg-max of the signal, shifted by half the span, and the score is the
      signal there, or zero when masked. */
  predicate Reports(s: seq<real>, ds: real, dp: int, half: nat, masked: bool)
  {
    IsFirstMax(s, dp + half) && ds == (if masked then 0.0 else s[dp + half])
  }

  /** One of the four scores: the first arg-max of the signal, as a position
      relative to the variant, and the signal there, zeroed when the mask
      rule applies (a gain at the boundary, a loss away from it). */
  function Report(s: seq<real>, half: nat, bd: int, gain: bool, mask: bool): (p: (real, int))
    requires |s| == 2 * half + 1
    ensures -(half as int) <= p.1 <= half
  {
    var k := ArgMax(s);
    var masked := mask && (if gain then k - half == bd else k - half != bd);
    (if masked then 0.0 else s[k], k - half)
  }

  lemma ReportReports(s: seq<real>, half: nat, bd: int, gain: bool, mask: bool)
    requires |s| == 2 * half + 1
    ensures var p := Report(s, half, bd, gain, mask);
      Reports(s, p.0, p.1, half, mask && (if gain then p.1 == bd else p.1 != bd))
  {
    ArgMaxIsFirstMax(s);
  }

  /** get_alt_gene_delta_score: acceptor and donor gain and loss are each
      reported at the first position of the largest change between the
      aligned tracks, relative to the variant; with mask on, a gain at the
      annotated exon boundary and a loss away from it are reported as zero. */
  function GetAltGeneDeltaScore(r: Record, ann: Annotator, altIx: nat, geneIx: nat, yRef: Track, yAlt: Track,
                                cov: nat, gi: GeneInfo, mask: bool): (d: DeltaScore)
    requires WellFormed(r) && IsRecordValid(r) && altIx < |r.alts.value|
    requires Aligned(ann, gi) && geneIx < |gi.idxs|
    requires !IsComplexIndel(r.ref, r.alts.value[altIx]) && cov % 2 == 1
    requires |yRef| == cov && |yAlt| + |r.ref| == cov + |r.alts.value[altIx]|
    ensures d.Scored? && d.allele == r.alts.value[altIx] && d.gene == gi.genes[geneIx]
    ensures -(cov / 2 as int) <= d.dpAG <= cov / 2 && -(cov / 2 as int) <= d.dpAL <= cov / 2
    ensures -(cov / 2 as int) <= d.dpDG <= cov / 2 && -(cov / 2 as int) <= d.dpDL <= cov / 2
  {
    var h := cov / 2;
    var bd := GetPosData(ann, gi.idxs[geneIx], r.pos).2;
    var t := AlignedTracks(r, altIx, gi.strands[geneIx], yRef, yAlt, cov);
    var pa := Report(Signal(t.0, t.1, Acceptor, true), h, bd, true, mask);
    var na := Report(Signal(t.0, t.1, Acceptor, false), h, bd, false, mask);
    var pd := Report(Signal(t.0, t.1, Donor, true), h, bd, true, mask);
    var nd := Report(Signal(t.0, t.1, Donor, false), h, bd, false, mask);
    Scored(r.alts.value[altIx], gi.genes[geneIx], pa.0, na.0, pd.0, nd.0, pa.1, na.1, pd.1, nd.1)
  }

  /** The four scores of get_alt_gene_delta_score: each position is the
      first arg-max of its signal between the aligned tracks (alt - ref for
      a gain, ref - alt for a loss), relative to the variant, and each score
      is the signal there, zeroed exactly when mask is on and a gain sits at
      the nearest exon boundary or a loss away from it. */
  lemma DeltaScoreReports(r: Record, ann: Annotator, altIx: nat, geneIx: nat, yRef: Track, yAlt: Track,
                          cov: nat, gi: GeneInfo, mask: bool)
    requires WellFormed(r) && IsRecordValid(r) && altIx < |r.alts.value|
    requires Aligned(ann, gi) && geneIx < |gi.idxs|
    requires !IsComplexIndel(r.ref, r.alts.value[altIx]) && cov % 2 == 1
    requires |yRef| == cov && |yAlt| + |r.ref| == cov + |r.alts.value[altIx]|
    ensures var d := GetAltGeneDeltaScore(r, ann, altIx, geneIx, yRef, yAlt, cov, gi, mask);
      var t := AlignedTracks(r, altIx, gi.strands[geneIx], yRef, yAlt, cov);
      var bd := GetPosData(ann, gi.idxs[geneIx], r.pos).2;
      && Reports(Signal(t.0, t.1, Acceptor, true), d.dsAG, d.dpAG, cov / 2, mask && d.dpAG == bd)
      && Reports(Signal(t.0, t.1, Acceptor, false), d.dsAL, d.dpAL, cov / 2, mask && d.dpAL != bd)
      && Reports(Signal(t.0, t.1, Donor, true), d.dsDG, d.dpDG, cov / 2, mask && d.dpDG == bd)
      && Reports(Signal(t.0, t.1, Donor, false), d.dsDL, d.dpDL, cov / 2, mask && d.dpDL != bd)
  {
    var h, bd := cov / 2, GetPosData(ann, gi.idxs[geneIx], r.pos).2;
    var t := AlignedTracks(r, altIx, gi.strands[geneIx], yRef, yAlt, cov);
    ReportReports(Signal(t.0, t.1, Acceptor, true), h, bd, true, mask);
    ReportReports(Signal(t.0, t.1, Acceptor, false), h, bd, false, mask);
    ReportReports(Signal(t.0, t.1, Donor, true), h, bd, true, mask);
    ReportReports(Signal(t.0, t.1, Donor, false), h, bd, false, mask);
  }
}
