/** Chromosome-name normalisation: make a chromosome name follow the
    'chr'-prefixed or bare style of a target name. */
module Chrom {

  predicate HasPrefix(x: string)
  {
    |x| >= 3 && x[..3] == "chr"
  }

  /** The characters str.strip('chr') removes: it strips a SET of characters,
      not the prefix "chr". */
  predicate InStripSet(c: char)
  {
    c == 'c' || c == 'h' || c == 'r'
  }

  /** How many leading characters strip removes. */
  function LeadingStripped(s: string): (n: nat)
    ensures n <= |s|
    ensures forall i :: 0 <= i < n ==> InStripSet(s[i])
    ensures n == |s| || !InStripSet(s[n])
  {
    if |s| > 0 && InStripSet(s[0]) then 1 + LeadingStripped(s[1..]) else 0
  }

  /** How many trailing characters strip removes. */
  function TrailingStripped(s: string): (n: nat)
    ensures n <= |s|
    ensures forall i :: |s| - n <= i < |s| ==> InStripSet(s[i])
    ensures n == |s| || !InStripSet(s[|s| - 1 - n])
  {
    if |s| > 0 && InStripSet(s[|s| - 1]) then 1 + TrailingStripped(s[..|s| - 1]) else 0
  }

  /** s.strip('chr'): the longest infix of s that neither starts nor ends
      with one of 'c', 'h', 'r', with everything cut off from the set. */
  function Strip(s: string): (r: string)
    ensures exists i, j {:trigger s[i..j]} ::
              && 0 <= i <= j <= |s| && r == s[i..j]
              && (forall k :: 0 <= k < i ==> InStripSet(s[k]))
              && (forall k :: j <= k < |s| ==> InStripSet(s[k]))
    ensures r == [] || (!InStripSet(r[0]) && !InStripSet(r[|r| - 1]))
  {
    var i := LeadingStripped(s);
    var t := s[i..];
    var j := i + |t| - TrailingStripped(t);
    assert t[..|t| - TrailingStripped(t)] == s[i..j];
    s[i..j]
  }

  /** normalise_chrom(source, target): the result is 'chr'-prefixed exactly
      when the target is. */
  function NormaliseChrom(source: string, target: string): (r: string)
    ensures HasPrefix(r) <==> HasPrefix(target)
  {
    if HasPrefix(source) && !HasPrefix(target) then
      var r := Strip(source);
      assert r != [] ==> r[0] != 'c';
      r
    else if !HasPrefix(source) && HasPrefix(target) then
      assert ("chr" + source)[..3] == "chr";
      "chr" + source
    else
      source
  }

  /** Same style: the source comes back unchanged. */
  lemma SameStyleUnchanged(source: string, target: string)
    requires HasPrefix(source) == HasPrefix(target)
    ensures NormaliseChrom(source, target) == source
  {
  }

  /** Bare source, prefixed target: 'chr' is prepended. */
  lemma PrefixAdded(source: string, target: string)
    requires !HasPrefix(source) && HasPrefix(target)
    ensures NormaliseChrom(source, target) == "chr" + source
  {
  }

  /** Prefixed source, bare target: leading and trailing 'c', 'h', 'r' are
      all removed (so "chrX" and "chr1" lose their prefix, "chrchr1" loses
      both copies, and trailing letters of the set go too). */
  lemma PrefixStripped(source: string, target: string)
    requires HasPrefix(source) && !HasPrefix(target)
    ensures var r := NormaliseChrom(source, target);
      |r| <= |source| - 3 && (r == [] || (!InStripSet(r[0]) && !InStripSet(r[|r| - 1])))
  {
    var r := NormaliseChrom(source, target);
    assert source[0] == 'c' && source[1] == 'h' && source[2] == 'r';
    var i := LeadingStripped(source);
    assert i >= 3 by {
      assert LeadingStripped(source) == 1 + LeadingStripped(source[1..]);
      assert source[1..][0] == 'h';
      assert LeadingStripped(source[1..]) == 1 + LeadingStripped(source[2..]);
      assert source[2..][0] == 'r';
    }
  }

  /** Normalising twice against the same target is normalising once. */
  lemma {:induction false} Idempotent(source: string, target: string)
    ensures NormaliseChrom(NormaliseChrom(source, target), target) == NormaliseChrom(source, target)
  {
    var r := NormaliseChrom(source, target);
    SameStyleUnchanged(r, target);
  }

  /** The cases of the repository's unit test. */
  lemma UnitCases()
    ensures NormaliseChrom("1", "1") == "1"
    ensures NormaliseChrom("1", "2") == "1"
    ensures NormaliseChrom("1", "chr2") == "chr1"
    ensures NormaliseChrom("chr1", "chr2") == "chr1"
    ensures NormaliseChrom("chr1", "2") == "1"
  {
    var s := "chr1";
    assert LeadingStripped(s[3..]) == 0;
    assert LeadingStripped(s[2..]) == 1;
    assert LeadingStripped(s[1..]) == 2;
    assert LeadingStripped(s) == 3;
    assert TrailingStripped("1") == 0;
  }
}
