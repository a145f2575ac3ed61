/** The window encoder: the padded reference window around a variant, the
    mutated window, their one-hot encodings with the strand flip, and the
    per-record location gate. */
module Encoding {
  import opened Sequences
  import opened Tensors
  import opened Variant
  import opened Annotation

  /** str.upper on ASCII letters. */
  function UpperChar(c: char): char
  {
    if 'a' <= c <= 'z' then (c as int - 32) as char else c
  }

  function Upper(s: string): (r: string)
    ensures |r| == |s|
    ensures forall i :: 0 <= i < |s| ==> r[i] == UpperChar(s[i])
  {
    seq(|s|, i requires 0 <= i < |s| => UpperChar(s[i]))
  }

  /** The lookup table of one_hot_encode: row 0 is the unknown base. */
  const OneHotTable: seq<seq<int>> := [[0, 0, 0, 0], [1, 0, 0, 0], [0, 1, 0, 0], [0, 0, 1, 0], [0, 0, 0, 1]]

  /** The table row a character selects: A, C, G, T (either case) select 1 to 4,
      N selects 0, and any other character its upper-cased code modulo 5. */
  function OneHotIndex(c: char): (k: nat)
    ensures k < 5
  {
    var u := UpperChar(c);
    if u == 'A' then 1 else if u == 'C' then 2 else if u == 'G' then 3
    else if u == 'T' then 4 else if u == 'N' then 0 else (u as int) % 5
  }

  /** one_hot_encode: one row per character. */
  function OneHotEncode(s: string): (x: Window)
    ensures |x| == |s|
  {
    seq(|s|, i requires 0 <= i < |s| => OneHotTable[OneHotIndex(s[i])])
  }

  /** Every row is 4 wide: A, C, G and T (in either case) set channels 0 to
      3, and N sets none. */
  lemma OneHotRows(s: string)
    ensures var x := OneHotEncode(s);
      && (forall i :: 0 <= i < |s| ==> |x[i]| == 4)
      && (forall i :: 0 <= i < |s| && UpperChar(s[i]) == 'A' ==> x[i] == [1, 0, 0, 0])
      && (forall i :: 0 <= i < |s| && UpperChar(s[i]) == 'C' ==> x[i] == [0, 1, 0, 0])
      && (forall i :: 0 <= i < |s| && UpperChar(s[i]) == 'G' ==> x[i] == [0, 0, 1, 0])
      && (forall i :: 0 <= i < |s| && UpperChar(s[i]) == 'T' ==> x[i] == [0, 0, 0, 1])
      && (forall i :: 0 <= i < |s| && UpperChar(s[i]) == 'N' ==> x[i] == [0, 0, 0, 0])
  {
  }

  /** x[:, ::-1, ::-1]: positions and channels both reversed. */
  function FlipStrand(x: Window): (y: Window)
    ensures |y| == |x|
  {
    Reverse(seq(|x|, i requires 0 <= i < |x| => Reverse(x[i])))
  }

  predicate IsBase(c: char)
  {
    UpperChar(c) in {'A', 'C', 'G', 'T', 'N'}
  }

  function Complement(c: char): char
  {
    match UpperChar(c)
    case 'A' => 'T'
    case 'C' => 'G'
    case 'G' => 'C'
    case 'T' => 'A'
    case _ => 'N'
  }

  function ReverseComplement(s: string): (r: string)
    ensures |r| == |s|
  {
    Reverse(seq(|s|, i requires 0 <= i < |s| => Complement(s[i])))
  }

  lemma FlipRow(c: char)
    requires IsBase(c)
    ensures Reverse(OneHotTable[OneHotIndex(c)]) == OneHotTable[OneHotIndex(Complement(c))]
  {
    var u := UpperChar(c);
    var row := OneHotTable[OneHotIndex(c)];
    var want := OneHotTable[OneHotIndex(Complement(c))];
    assert |Reverse(row)| == 4 == |want|;
    forall i | 0 <= i < 4 ensures Reverse(row)[i] == want[i] {
      if u == 'A' {} else if u == 'C' {} else if u == 'G' {} else if u == 'T' {} else {}
    }
  }

  lemma FlipAt(s: string, i: nat)
    requires i < |s| && IsBase(s[|s| - 1 - i])
    ensures FlipStrand(OneHotEncode(s))[i] == OneHotEncode(ReverseComplement(s))[i]
  {
    var j := |s| - 1 - i;
    var x := OneHotEncode(s);
    FlipRow(s[j]);
    assert FlipStrand(x)[i] == Reverse(x[j]);
  }

  /** Flipping the encoding of a '-' strand window is encoding its reverse
      complement: reversing the channel order maps A, C, G, T to T, G, C, A. */
  lemma FlipIsReverseComplement(s: string)
    requires forall i :: 0 <= i < |s| ==> IsBase(s[i])
    ensures FlipStrand(OneHotEncode(s)) == OneHotEncode(ReverseComplement(s))
  {
    forall i | 0 <= i < |s|
      ensures FlipStrand(OneHotEncode(s))[i] == OneHotEncode(ReverseComplement(s))[i]
    {
      FlipAt(s, i);
    }
  }

  /** The scored span: dist positions on each side of the variant. */
  function GetCov(dist: nat): (cov: nat)
    ensures cov % 2 == 1 && cov / 2 == dist
  {
    2 * dist + 1
  }

  /** The encoded window: the scored span plus the 5000 positions of
      context the model consumes on each side. */
  function GetWid(cov: nat): (wid: nat)
    ensures wid == cov + 2 * Flank
    ensures cov % 2 == 1 ==> wid % 2 == 1 && wid / 2 == cov / 2 + Flank
  {
    10000 + cov
  }

  /** The amounts of 'N' padding on each side: the parts of the window
      beyond the transcript start and end. */
  function PadSizes(wid: nat, dTxStart: int, dTxEnd: int): (pads: (nat, nat))
    ensures pads.0 >= wid / 2 + dTxStart && (pads.0 == 0 || pads.0 == wid / 2 + dTxStart)
    ensures pads.1 >= wid / 2 - dTxEnd && (pads.1 == 0 || pads.1 == wid / 2 - dTxEnd)
    ensures dTxStart <= 0 ==> pads.0 <= wid / 2
    ensures dTxEnd >= 0 ==> pads.1 <= wid / 2
  {
    (if wid / 2 + dTxStart > 0 then wid / 2 + dTxStart else 0,
     if wid / 2 - dTxEnd > 0 then wid / 2 - dTxEnd else 0)
  }

  /** The reference window: the genome slice with the parts outside the
      transcript replaced by 'N'. */
  function RefWindow(sequence: string, wid: nat, dTxStart: int, dTxEnd: int): (x: string)
    ensures |sequence| == wid && dTxStart <= 0 <= dTxEnd ==> |x| == wid
    ensures forall i :: 0 <= i < |x| && i < PadSizes(wid, dTxStart, dTxEnd).0 ==> x[i] == 'N'
  {
    var pads := PadSizes(wid, dTxStart, dTxEnd);
    Repeat('N', pads.0) + Slice(sequence, pads.0, wid - pads.1) + Repeat('N', pads.1)
  }

  /** The mutated window: the alt allele put in place of the ref allele at
      offset wid/2. */
  function AltWindow(xRef: string, alt: string, refLen: nat, wid: nat): (y: string)
    ensures wid / 2 + refLen <= |xRef| ==>
      && |y| + refLen == |xRef| + |alt|
      && forall i :: 0 <= i < |alt| ==> y[wid / 2 + i] == alt[i]
  {
    Slice(xRef, 0, wid / 2) + alt + Slice(xRef, wid / 2 + refLen, |xRef|)
  }

  /** The reference window of a transcript covering the variant, over a
      full genome slice of odd width: exactly wid characters, 'N' at the
      positions outside the transcript and the genome elsewhere. */
  lemma RefWindowShape(sequence: string, wid: nat, dTxStart: int, dTxEnd: int)
    requires |sequence| == wid && wid % 2 == 1 && dTxStart <= 0 <= dTxEnd
    ensures var x := RefWindow(sequence, wid, dTxStart, dTxEnd);
      && |x| == wid
      && (forall i :: 0 <= i < wid ==>
            x[i] == if i < wid / 2 + dTxStart || i > wid / 2 + dTxEnd then 'N' else sequence[i])
  {
    var pads := PadSizes(wid, dTxStart, dTxEnd);
    var p0, p1 := pads.0, pads.1;
    assert p0 <= wid / 2 && p1 <= wid / 2;
    var mid := Slice(sequence, p0, wid - p1);
    assert mid == sequence[p0..wid - p1];
    var x := RefWindow(sequence, wid, dTxStart, dTxEnd);
    assert x == Repeat('N', p0) + mid + Repeat('N', p1);
    forall i | 0 <= i < wid
      ensures x[i] == if i < wid / 2 + dTxStart || i > wid / 2 + dTxEnd then 'N' else sequence[i]
    {
      if i < p0 {
        assert x[i] == Repeat('N', p0)[i];
      } else if i < wid - p1 {
        assert x[i] == mid[i - p0];
      } else {
        assert x[i] == Repeat('N', p1)[i - (wid - p1)];
      }
    }
  }

  /** With the reference window as above and an odd width, the mutated
      window has wid + |alt| - |ref| characters, agrees with the reference
      window before the variant, holds alt at offset wid/2 and continues
      with the reference window after the ref allele. */
  lemma WindowShape(sequence: string, wid: nat, dTxStart: int, dTxEnd: int, alt: string, refLen: nat)
    requires |sequence| == wid && wid % 2 == 1
    requires dTxStart <= 0 <= dTxEnd
    requires wid / 2 + refLen <= wid
    ensures var x := RefWindow(sequence, wid, dTxStart, dTxEnd);
      && |x| == wid
      && (forall i :: 0 <= i < wid ==>
            x[i] == if i < wid / 2 + dTxStart || i > wid / 2 + dTxEnd then 'N' else sequence[i])
    ensures var x := RefWindow(sequence, wid, dTxStart, dTxEnd);
      var y := AltWindow(x, alt, refLen, wid);
      && |y| == wid + |alt| - refLen
      && y[..wid / 2] == x[..wid / 2]
      && y[wid / 2..wid / 2 + |alt|] == alt
      && y[wid / 2 + |alt|..] == x[wid / 2 + refLen..]
  {
    RefWindowShape(sequence, wid, dTxStart, dTxEnd);
    var x := RefWindow(sequence, wid, dTxStart, dTxEnd);
    var y := AltWindow(x, alt, refLen, wid);
    assert Slice(x, 0, wid / 2) == x[..wid / 2];
    assert Slice(x, wid / 2 + refLen, |x|) == x[wid / 2 + refLen..];
    assert y == x[..wid / 2] + alt + x[wid / 2 + refLen..];
  }

  /** encode_seqs: both windows for one (allele, transcript) pair, one-hot
      encoded and flipped for a '-' strand transcript. */
  function EncodeSeqs(r: Record, sequence: string, ann: Annotator, gi: GeneInfo, geneIx: nat, altIx: nat, wid: nat): (x: (Window, Window))
    requires IsRecordValid(r) && altIx < |r.alts.value|
    requires Aligned(ann, gi) && geneIx < |gi.idxs|
    ensures var dAnn := GetPosData(ann, gi.idxs[geneIx], r.pos);
      dAnn.0 <= 0 <= dAnn.1 && |sequence| == wid && wid / 2 + |r.ref| <= wid ==>
        |x.0| == wid && |x.1| + |r.ref| == wid + |r.alts.value[altIx]|
  {
    var dAnn := GetPosData(ann, gi.idxs[geneIx], r.pos);
    var xRef := RefWindow(sequence, wid, dAnn.0, dAnn.1);
    var xAlt := AltWindow(xRef, r.alts.value[altIx], |r.ref|, wid);
    var hRef, hAlt := OneHotEncode(xRef), OneHotEncode(xAlt);
    if gi.strands[geneIx] == "-" then (FlipStrand(hRef), FlipStrand(hAlt)) else (hRef, hAlt)
  }

  /** The encoded windows of a pair whose transcript covers the variant have
      lengths wid and wid + |alt| - |ref|: the tensor sizes batches are keyed
      by. */
  lemma EncodedLengths(r: Record, sequence: string, ann: Annotator, gi: GeneInfo, geneIx: nat, altIx: nat, dist: nat)
    requires IsRecordValid(r) && altIx < |r.alts.value|
    requires Covers(ann, gi, r.pos) && geneIx < |gi.idxs|
    requires IsLocationPredictable(r, sequence, GetWid(GetCov(dist)), dist)
    ensures var wid := GetWid(GetCov(dist));
      var x := EncodeSeqs(r, sequence, ann, gi, geneIx, altIx, wid);
      |x.0| == wid && |x.1| + |r.ref| == wid + |r.alts.value[altIx]|
  {
    var wid := GetWid(GetCov(dist));
    var dAnn := GetPosData(ann, gi.idxs[geneIx], r.pos);
    PredictableMeansRefMatches(r, sequence, dist);
    WindowShape(sequence, wid, dAnn.0, dAnn.1, r.alts.value[altIx], |r.ref|);
  }

  /** is_location_predictable: the upper-cased genome at the variant offset
      spells the ref allele, the slice is complete, and the ref allele is at
      most 2 * dist long. */
  predicate IsLocationPredictable(r: Record, sequence: string, wid: nat, dist: nat)
    ensures IsLocationPredictable(r, sequence, wid, dist) ==>
      && |sequence| == wid && wid / 2 + |r.ref| <= wid
      && Upper(sequence[wid / 2..wid / 2 + |r.ref|]) == r.ref
  {
    Upper(Slice(sequence, wid / 2, wid / 2 + |r.ref|)) == r.ref && |sequence| == wid && |r.ref| <= 2 * dist
  }

  /** A slice that runs past the end is shorter than asked for. */
  lemma SliceShort<T>(s: seq<T>, i: int, j: int)
    requires 0 <= i <= |s| < j
    ensures |Slice(s, i, j)| < j - i
  {
  }

  /** Upper-casing spells t exactly when every upper-cased character does. */
  lemma UpperSpells(s: string, t: string)
    requires |s| == |t|
    ensures Upper(s) == t <==> forall i :: 0 <= i < |s| ==> UpperChar(s[i]) == t[i]
  {
    if forall i :: 0 <= i < |s| ==> UpperChar(s[i]) == t[i] {
      assert forall i :: 0 <= i < |s| ==> Upper(s)[i] == t[i];
    }
  }

  lemma PredictableMeansRefMatches(r: Record, sequence: string, dist: nat)
    ensures var wid := GetWid(GetCov(dist));
      IsLocationPredictable(r, sequence, wid, dist) <==>
        && |sequence| == wid && |r.ref| <= 2 * dist && wid / 2 + |r.ref| <= wid
        && forall i :: 0 <= i < |r.ref| ==> UpperChar(sequence[wid / 2 + i]) == r.ref[i]
  {
    var wid := GetWid(GetCov(dist));
    var lo, n := wid / 2, |r.ref|;
    if |sequence| != wid || n > 2 * dist {
      assert !IsLocationPredictable(r, sequence, wid, dist);
    } else if lo + n <= wid {
      var piece := sequence[lo..lo + n];
      assert Slice(sequence, lo, lo + n) == piece;
      assert IsLocationPredictable(r, sequence, wid, dist) <==> Upper(piece) == r.ref;
      UpperSpells(piece, r.ref);
      assert forall i :: 0 <= i < n ==> piece[i] == sequence[lo + i];
    } else {
      SliceShort(sequence, lo, lo + n);
      assert !IsLocationPredictable(r, sequence, wid, dist);
    }
  }
}
