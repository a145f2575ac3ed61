/** The (allele, transcript) pairs a record is scored on, in the order the
    nested loops of the scorer, the encoder and the extractor visit them:
    alleles outside, transcripts inside, alleles with a symbolic ALT
    skipped. */
module Pairs {
  import opened Variant

  datatype Pair = Pair(alt: nat, gene: nat)

  /** p is visited before q. */
  predicate Before(p: Pair, q: Pair)
  {
    p.alt < q.alt || (p.alt == q.alt && p.gene < q.gene)
  }

  predicate Ascending(ps: seq<Pair>)
  {
    forall k, l :: 0 <= k < l < |ps| ==> Before(ps[k], ps[l])
  }

  /** The inner loop for allele a over the first n transcripts. */
  function Row(a: nat, n: nat): (ps: seq<Pair>)
    ensures |ps| == n
    ensures forall g :: 0 <= g < n ==> ps[g] == Pair(a, g)
  {
    seq(n, g requires 0 <= g < n => Pair(a, g))
  }

  /** Both loops over nAlts alleles and nGenes transcripts, in visiting
      order (that every pair occurs once is AllPairsExactly). */
  function AllPairs(nAlts: nat, nGenes: nat): (ps: seq<Pair>)
  {
    if nAlts == 0 then []
    else
      AllPairs(nAlts - 1, nGenes) + Row(nAlts - 1, nGenes)
  }

  /** Every pair is visited: nAlts * nGenes of them. */
  lemma {:induction false} AllPairsSize(nAlts: nat, nGenes: nat)
    ensures |AllPairs(nAlts, nGenes)| == nAlts * nGenes
  {
    if nAlts > 0 {
      AllPairsSize(nAlts - 1, nGenes);
      assert (nAlts - 1) * nGenes + nGenes == nAlts * nGenes;
    }
  }

  /** The pairs visited are exactly those of an allele below nAlts and a
      transcript below nGenes, each visited after every pair before it. */
  lemma {:induction false} AllPairsExactly(nAlts: nat, nGenes: nat)
    ensures forall p :: p in AllPairs(nAlts, nGenes) <==> p.alt < nAlts && p.gene < nGenes
    ensures Ascending(AllPairs(nAlts, nGenes))
  {
    if nAlts > 0 {
      AllPairsExactly(nAlts - 1, nGenes);
      var front, row := AllPairs(nAlts - 1, nGenes), Row(nAlts - 1, nGenes);
      assert AllPairs(nAlts, nGenes) == front + row;
      forall p | p in row ensures p.alt == nAlts - 1 && p.gene < nGenes {
        var g :| 0 <= g < nGenes && row[g] == p;
      }
      forall p: Pair | p.alt == nAlts - 1 && p.gene < nGenes ensures p in row {
        assert row[p.gene] == p;
      }
    }
  }

  /** Allele a exists and is not symbolic (is_valid_alt_record). */
  predicate ValidAlt(r: Record, a: nat)
  {
    a < |AltList(r)| && IsValidAltRecord(r, a)
  }

  /** The visited pairs whose allele passes is_valid_alt_record, in order
      (that no valid pair is dropped is KeepValidExactly). */
  function KeepValid(r: Record, ps: seq<Pair>): (kept: seq<Pair>)
    ensures |kept| <= |ps|
  {
    if ps == [] then []
    else
      var front := KeepValid(r, ps[..|ps| - 1]);
      var p := ps[|ps| - 1];
      if ValidAlt(r, p.alt) then front + [p] else front
  }

  /** The kept pairs are exactly the valid visited ones, and keep the
      visiting order. */
  lemma {:induction false} KeepValidExactly(r: Record, ps: seq<Pair>)
    ensures forall p :: p in KeepValid(r, ps) <==> p in ps && ValidAlt(r, p.alt)
    ensures Ascending(ps) ==> Ascending(KeepValid(r, ps))
  {
    if ps != [] {
      var init := ps[..|ps| - 1];
      var p := ps[|ps| - 1];
      KeepValidExactly(r, init);
      assert ps == init + [p];
      if Ascending(ps) {
        assert Ascending(init);
        forall q | q in KeepValid(r, init) ensures Before(q, p) {
          var k :| 0 <= k < |init| && init[k] == q;
        }
      }
    }
  }

  /** The pairs a record is scored on with nGenes transcripts: the valid
      ones among all (allele, transcript) pairs, in visiting order. */
  function ScoredPairs(r: Record, nGenes: nat): (ps: seq<Pair>)
    ensures |ps| <= |AltList(r)| * nGenes
    ensures forall k :: 0 <= k < |ps| ==> ValidAlt(r, ps[k].alt) && ps[k].gene < nGenes
  {
    var all := AllPairs(|AltList(r)|, nGenes);
    AllPairsSize(|AltList(r)|, nGenes);
    AllPairsExactly(|AltList(r)|, nGenes);
    var ps := KeepValid(r, all);
    KeepValidExactly(r, all);
    assert forall k :: 0 <= k < |ps| ==> ps[k] in all;
    ps
  }

  /** A pair is scored exactly when its allele is valid and its transcript
      is one of the nGenes, and the scored pairs follow the visiting order. */
  lemma ScoredPairsExactly(r: Record, nGenes: nat)
    ensures forall p :: p in ScoredPairs(r, nGenes) <==> ValidAlt(r, p.alt) && p.gene < nGenes
    ensures Ascending(ScoredPairs(r, nGenes))
  {
    var all := AllPairs(|AltList(r)|, nGenes);
    AllPairsExactly(|AltList(r)|, nGenes);
    KeepValidExactly(r, all);
  }

  /** Filtering commutes with joining. */
  lemma {:induction false} KeepValidAppend(r: Record, ps: seq<Pair>, qs: seq<Pair>)
    ensures KeepValid(r, ps + qs) == KeepValid(r, ps) + KeepValid(r, qs)
  {
    if qs == [] {
      assert ps + qs == ps;
    } else {
      var front := qs[..|qs| - 1];
      KeepValidAppend(r, ps, front);
      assert (ps + qs)[..|ps + qs| - 1] == ps + front;
      assert (ps + qs)[|ps + qs| - 1] == qs[|qs| - 1];
    }
  }

  /** A whole inner loop is kept or dropped at once: validity depends on the
      allele only. */
  lemma {:induction false} KeepValidRow(r: Record, a: nat, n: nat)
    ensures KeepValid(r, Row(a, n)) == if ValidAlt(r, a) then Row(a, n) else []
  {
    if n > 0 {
      KeepValidRow(r, a, n - 1);
      assert Row(a, n)[..n - 1] == Row(a, n - 1);
      assert Row(a, n - 1) + [Pair(a, n - 1)] == Row(a, n);
    }
  }

  /** One more allele adds its whole row of pairs when it is valid and
      nothing otherwise. */
  lemma ValidPairsGrow(r: Record, a: nat, nGenes: nat)
    ensures KeepValid(r, AllPairs(a + 1, nGenes))
         == KeepValid(r, AllPairs(a, nGenes)) + if ValidAlt(r, a) then Row(a, nGenes) else []
  {
    KeepValidAppend(r, AllPairs(a, nGenes), Row(a, nGenes));
    KeepValidRow(r, a, nGenes);
  }

  /** A prefix of a prefix is a prefix. */
  lemma PrefixOfPrefix<T>(x: seq<T>, extra: seq<T>, z: seq<T>)
    requires x + extra <= z
    ensures x <= z
  {
    assert (x + extra)[..|x|] == x;
  }

  /** Element g of a row sitting after x inside z. */
  lemma IndexThroughPrefix<T>(x: seq<T>, row: seq<T>, z: seq<T>, g: nat)
    requires x + row <= z && g < |row|
    ensures |x| + g < |z| && z[|x| + g] == row[g]
  {
    assert (x + row)[|x| + g] == row[g];
  }

  /** The kept pairs of fewer alleles are a prefix of the kept pairs of more. */
  lemma {:induction false} ValidPairsPrefix(r: Record, a: nat, b: nat, nGenes: nat)
    requires a <= b
    ensures KeepValid(r, AllPairs(a, nGenes)) <= KeepValid(r, AllPairs(b, nGenes))
    decreases b - a
  {
    if a < b {
      ValidPairsPrefix(r, a + 1, b, nGenes);
      ValidPairsGrow(r, a, nGenes);
      PrefixOfPrefix(KeepValid(r, AllPairs(a, nGenes)), if ValidAlt(r, a) then Row(a, nGenes) else [],
                     KeepValid(r, AllPairs(b, nGenes)));
    }
  }

  /** The kept pair of valid allele a and transcript g sits right after the
      kept pairs of the alleles before a and the transcripts before g. */
  lemma ValidPairAt(r: Record, a: nat, g: nat, nAlts: nat, nGenes: nat)
    requires a < nAlts && g < nGenes && ValidAlt(r, a)
    ensures var n := |KeepValid(r, AllPairs(a, nGenes))|;
      && n + g < |KeepValid(r, AllPairs(nAlts, nGenes))|
      && KeepValid(r, AllPairs(nAlts, nGenes))[n + g] == Pair(a, g)
  {
    ValidPairsGrow(r, a, nGenes);
    ValidPairsPrefix(r, a + 1, nAlts, nGenes);
    IndexThroughPrefix(KeepValid(r, AllPairs(a, nGenes)), Row(a, nGenes), KeepValid(r, AllPairs(nAlts, nGenes)), g);
  }

  /** No allele from a on is valid. */
  predicate NoValidFrom(r: Record, a: nat, nAlts: nat)
  {
    forall b :: a <= b < nAlts ==> !ValidAlt(r, b)
  }

  /** Without transcripts there is no pair to score. */
  lemma NoGenesNoPairs(r: Record)
    ensures ScoredPairs(r, 0) == []
  {
    ScoredPairsCount(r, 0);
  }

  /** The pairs kept before allele a are all the kept pairs exactly when no
      allele from a on is valid (given at least one transcript). */
  lemma {:induction false} ValidPairsExhausted(r: Record, a: nat, nAlts: nat, nGenes: nat)
    requires a <= nAlts && nGenes > 0
    ensures |KeepValid(r, AllPairs(a, nGenes))| == |KeepValid(r, AllPairs(nAlts, nGenes))|
        <==> NoValidFrom(r, a, nAlts)
    decreases nAlts - a
  {
    if a < nAlts {
      var x, y, z := KeepValid(r, AllPairs(a, nGenes)), KeepValid(r, AllPairs(a + 1, nGenes)), KeepValid(r, AllPairs(nAlts, nGenes));
      ValidPairsGrow(r, a, nGenes);
      ValidPairsPrefix(r, a + 1, nAlts, nGenes);
      ValidPairsExhausted(r, a + 1, nAlts, nGenes);
      assert |y| <= |z|;
      if ValidAlt(r, a) {
        assert |y| == |x| + nGenes;
        assert !NoValidFrom(r, a, nAlts);
      } else {
        assert y == x;
        assert NoValidFrom(r, a, nAlts) <==> NoValidFrom(r, a + 1, nAlts);
      }
    }
  }

  /** The pairs the two loops have passed before reaching (a, g). */
  function Visited(a: nat, g: nat, nGenes: nat): (ps: seq<Pair>)
    requires g <= nGenes
    ensures forall k :: 0 <= k < |ps| ==> ps[k].alt <= a && ps[k].gene < nGenes
  {
    var ps := AllPairs(a, nGenes) + Row(a, g);
    AllPairsExactly(a, nGenes);
    assert forall k :: 0 <= k < |ps| && k < |AllPairs(a, nGenes)| ==> ps[k] in AllPairs(a, nGenes);
    ps
  }

  /** The valid pairs among them: what has been scored, encoded or
      extracted when the loops reach (a, g). */
  function VisitedValid(r: Record, a: nat, g: nat, nGenes: nat): (ps: seq<Pair>)
    requires g <= nGenes
    ensures forall k :: 0 <= k < |ps| ==> ValidAlt(r, ps[k].alt) && ps[k].gene < nGenes
  {
    var visited := Visited(a, g, nGenes);
    KeepValidExactly(r, visited);
    assert forall k :: 0 <= k < |KeepValid(r, visited)| ==> KeepValid(r, visited)[k] in visited;
    KeepValid(r, visited)
  }

  /** One step of the inner loop adds the pair (a, g) when a is valid. */
  lemma VisitedStep(r: Record, a: nat, g: nat, nGenes: nat)
    requires g < nGenes
    ensures VisitedValid(r, a, g + 1, nGenes)
         == VisitedValid(r, a, g, nGenes) + if ValidAlt(r, a) then [Pair(a, g)] else []
  {
    var before := Visited(a, g, nGenes);
    assert Visited(a, g + 1, nGenes) == before + [Pair(a, g)] by {
      assert Row(a, g + 1) == Row(a, g) + [Pair(a, g)];
    }
    assert (before + [Pair(a, g)])[..|before|] == before;
  }

  /** Finishing the inner loop is starting the next allele. */
  lemma VisitedNextAllele(r: Record, a: nat, nGenes: nat)
    ensures VisitedValid(r, a, nGenes, nGenes) == VisitedValid(r, a + 1, 0, nGenes)
  {
    assert Visited(a, nGenes, nGenes) == Visited(a + 1, 0, nGenes);
  }

  /** Before the first allele nothing is visited; after the last one every
      scored pair is. */
  lemma VisitedEnds(r: Record, nGenes: nat)
    ensures VisitedValid(r, 0, 0, nGenes) == []
    ensures VisitedValid(r, |AltList(r)|, 0, nGenes) == ScoredPairs(r, nGenes)
  {
    assert Visited(0, 0, nGenes) == [];
    assert Visited(|AltList(r)|, 0, nGenes) == AllPairs(|AltList(r)|, nGenes);
  }

  /** At a valid allele a the pairs already passed are those of the alleles
      before a plus g of a's own, and the next scored pair is (a, g). */
  lemma VisitedValidAt(r: Record, a: nat, g: nat, nGenes: nat)
    requires a < |AltList(r)| && g < nGenes && ValidAlt(r, a)
    ensures |VisitedValid(r, a, g, nGenes)| < |ScoredPairs(r, nGenes)|
    ensures ScoredPairs(r, nGenes)[|VisitedValid(r, a, g, nGenes)|] == Pair(a, g)
  {
    var prior := KeepValid(r, AllPairs(a, nGenes));
    KeepValidAppend(r, AllPairs(a, nGenes), Row(a, g));
    KeepValidRow(r, a, g);
    assert |VisitedValid(r, a, g, nGenes)| == |prior| + g;
    ValidPairAt(r, a, g, |AltList(r)|, nGenes);
  }

  /** At an invalid allele a nothing of a's own has been passed. */
  lemma VisitedInvalidAt(r: Record, a: nat, g: nat, nGenes: nat)
    requires g <= nGenes && !ValidAlt(r, a)
    ensures VisitedValid(r, a, g, nGenes) == KeepValid(r, AllPairs(a, nGenes))
  {
    KeepValidAppend(r, AllPairs(a, nGenes), Row(a, g));
    KeepValidRow(r, a, g);
  }

  /** The number of scorable alleles among the first n. */
  function ValidAltCount(r: Record, n: nat): (c: nat)
    ensures c <= n
  {
    if n == 0 then 0 else ValidAltCount(r, n - 1) + if ValidAlt(r, n - 1) then 1 else 0
  }

  /** Each scorable allele contributes one pair per gene. */
  lemma {:induction false} ValidPairsCount(r: Record, a: nat, nGenes: nat)
    ensures |KeepValid(r, AllPairs(a, nGenes))| == ValidAltCount(r, a) * nGenes
  {
    if a > 0 {
      ValidPairsGrow(r, a - 1, nGenes);
      ValidPairsCount(r, a - 1, nGenes);
      var c := ValidAltCount(r, a - 1);
      var before := |KeepValid(r, AllPairs(a - 1, nGenes))|;
      assert before == c * nGenes;
      if ValidAlt(r, a - 1) {
        assert |KeepValid(r, AllPairs(a, nGenes))| == before + nGenes;
        MulSucc(c, nGenes);
      } else {
        assert |KeepValid(r, AllPairs(a, nGenes))| == before;
      }
    }
  }

  lemma MulSucc(c: nat, n: nat)
    ensures (c + 1) * n == c * n + n
  {
  }

  lemma ScoredPairsCount(r: Record, nGenes: nat)
    ensures |ScoredPairs(r, nGenes)| == ValidAltCount(r, |AltList(r)|) * nGenes
  {
    ValidPairsCount(r, |AltList(r)|, nGenes);
  }

  /** The count of valid pairs passed before (a, g) still indexes a scored
      pair exactly when a valid allele remains from a on. */
  lemma CursorBound(r: Record, a: nat, g: nat, nGenes: nat)
    requires a < |AltList(r)| && g < nGenes
    ensures |VisitedValid(r, a, g, nGenes)| < |ScoredPairs(r, nGenes)|
        <==> !NoValidFrom(r, a, |AltList(r)|)
  {
    if ValidAlt(r, a) {
      VisitedValidAt(r, a, g, nGenes);
    } else {
      VisitedInvalidAt(r, a, g, nGenes);
      ValidPairsPrefix(r, a, |AltList(r)|, nGenes);
      ValidPairsExhausted(r, a, |AltList(r)|, nGenes);
    }
  }
}
