/** A VCF record as the scoring engine sees it, and the per-record and
    per-allele gates applied before encoding. */
module Variant {
  import opened Sequences

  /** chrom, 1-based pos, ref allele and the ALT list. A record whose ALT
      list cannot be read (the reader hands back no list) has alts == None. */
  datatype Record = Record(chrom: string, pos: int, ref: string, alts: Option<seq<string>>)

  /** What the VCF reader guarantees of every record: REF and every ALT are
      non-empty strings. */
  predicate WellFormed(r: Record)
  {
    |r.ref| >= 1 && (r.alts.Some? ==> forall a :: a in r.alts.value ==> |a| >= 1)
  }

  /** is_record_valid: the attribute accesses succeed, i.e. the ALT list
      exists (taking its length is the only access that can fail). */
  predicate IsRecordValid(r: Record)
    ensures IsRecordValid(r) <==> r.alts != None
  {
    r.alts.Some?
  }

  /** The ALT list, or no alternates when it is missing. */
  function AltList(r: Record): (alts: seq<string>)
    ensures IsRecordValid(r) ==> alts == r.alts.value
    ensures !IsRecordValid(r) ==> alts == []
  {
    if r.alts.Some? then r.alts.value else []
  }

  /** is_valid_alt_record: an ALT allele is scored unless it contains one of
      the symbolic characters '.', '-', '*', '<', '>'. */
  predicate IsValidAltRecord(r: Record, altIx: nat)
    requires IsRecordValid(r) && altIx < |r.alts.value|
    ensures IsValidAltRecord(r, altIx) ==>
      forall i :: 0 <= i < |r.alts.value[altIx]| ==> r.alts.value[altIx][i] !in {'.', '-', '*', '<', '>'}
  {
    var alt := r.alts.value[altIx];
    !('.' in alt || '-' in alt || '*' in alt) && !('<' in alt || '>' in alt)
  }

  lemma ValidAltMeansNoSymbol(r: Record, altIx: nat)
    requires IsRecordValid(r) && altIx < |r.alts.value|
    ensures IsValidAltRecord(r, altIx) <==>
      forall i :: 0 <= i < |r.alts.value[altIx]| ==>
        r.alts.value[altIx][i] !in {'.', '-', '*', '<', '>'}
  {
    var alt := r.alts.value[altIx];
    if !IsValidAltRecord(r, altIx) {
      var c :| c in alt && c in {'.', '-', '*', '<', '>'};
      var i :| 0 <= i < |alt| && alt[i] == c;
    }
  }

  /** Both alleles longer than one base: not scored, reported as unhandled. */
  predicate IsComplexIndel(ref: string, alt: string)
  {
    |ref| > 1 && |alt| > 1
  }
}
