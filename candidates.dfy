/**
  The candidates of `conversions_remaining` in slip39/invoice/artifact.py
  (lines 383-386): the symbols, other than ETH, of the pairs still None, in
  dict order. Their order is stated through an explicit list of the key
  sides ("slots") the comprehension visits.
 */
module Candidacy {
  import opened Strings
  import opened Ratios
  import opened Remaining

  /** One side of the key at position i of the dict: its first symbol, or its second. */
  datatype Slot = Slot(i: nat, second: bool)

  /** Line 385's `sum(..., ())` order: key by key, and within a key its first symbol first. */
  predicate SlotBefore(x: Slot, y: Slot)
  {
    x.i < y.i || (x.i == y.i && !x.second && y.second)
  }

  function SlotSym(c: Conv, x: Slot): Symbol
    requires x.i < |c.keys|
  {
    if x.second then c.keys[x.i].1 else c.keys[x.i].0
  }

  /** A side line 384 lets through: of a pair still None, and not ETH. */
  predicate Offered(c: Conv, x: Slot)
  {
    x.i < |c.keys| && Get(c, c.keys[x.i]).Unset? && SlotSym(c, x) != "ETH"
  }

  /** Whether `flags` lets the side x through: `flags[i]` holds the flags of the two sides of key i. */
  predicate LetThrough(flags: seq<(bool, bool)>, x: Slot)
  {
    x.i < |flags| && (if x.second then flags[x.i].1 else flags[x.i].0)
  }

  /** The sides of the key at position i that `flags` lets through, first side first. */
  function SidesAt(flags: seq<(bool, bool)>, i: nat): seq<Slot>
    requires i < |flags|
  {
    (if flags[i].0 then [Slot(i, false)] else []) + (if flags[i].1 then [Slot(i, true)] else [])
  }

  /** The sides `flags` lets through among the first n keys, key by key. */
  function Sides(flags: seq<(bool, bool)>, n: nat): seq<Slot>
    requires n <= |flags|
  {
    if n == 0 then [] else Sides(flags, n - 1) + SidesAt(flags, n - 1)
  }

  /** For each key of the dict, whether line 384 lets its first and its second symbol through. */
  function OfferFlags(c: Conv): (r: seq<(bool, bool)>)
    ensures |r| == |c.keys|
  {
    FlagsUpTo(c, |c.keys|)
  }

  function FlagsUpTo(c: Conv, n: nat): (r: seq<(bool, bool)>)
    requires n <= |c.keys|
    ensures |r| == n
  {
    if n == 0 then [] else FlagsUpTo(c, n - 1) + [(Offered(c, Slot(n - 1, false)), Offered(c, Slot(n - 1, true)))]
  }

  lemma {:induction false} FlagsUpToAt(c: Conv, n: nat, i: nat)
    requires i < n <= |c.keys|
    ensures FlagsUpTo(c, n)[i] == (Offered(c, Slot(i, false)), Offered(c, Slot(i, true)))
  {
    if i < n - 1 {
      FlagsUpToAt(c, n - 1, i);
    }
  }

  /** The flags of key i are those of its two sides. */
  lemma OfferFlagsAt(c: Conv, i: nat)
    requires i < |c.keys|
    ensures OfferFlags(c)[i] == (Offered(c, Slot(i, false)), Offered(c, Slot(i, true)))
  {
    FlagsUpToAt(c, |c.keys|, i);
  }

  lemma OfferFlagsOffered(c: Conv, x: Slot)
    ensures LetThrough(OfferFlags(c), x) <==> Offered(c, x)
  {
    if x.i < |c.keys| {
      OfferFlagsAt(c, x.i);
    }
  }

  /** The sides lines 384-385 offer among the first n keys, in order. */
  function Slots(c: Conv, n: nat): seq<Slot>
    requires n <= |c.keys|
  {
    Sides(OfferFlags(c), n)
  }

  lemma SidesAtMember(flags: seq<(bool, bool)>, i: nat, x: Slot)
    requires i < |flags|
    ensures x in SidesAt(flags, i) <==> x.i == i && LetThrough(flags, x)
  {
    if x.i == i && LetThrough(flags, x) {
      assert x == Slot(i, x.second);
    }
  }

  /** Every side listed among the first n keys is let through, and has a key below n. */
  lemma {:induction false} SidesLetThrough(flags: seq<(bool, bool)>, n: nat)
    requires n <= |flags|
    ensures forall p :: 0 <= p < |Sides(flags, n)| ==> Sides(flags, n)[p].i < n && LetThrough(flags, Sides(flags, n)[p])
  {
    if n > 0 {
      SidesLetThrough(flags, n - 1);
      var init: seq<Slot>, here: seq<Slot> := Sides(flags, n - 1), SidesAt(flags, n - 1);
      forall p | 0 <= p < |init + here| ensures (init + here)[p].i < n && LetThrough(flags, (init + here)[p]) {
        if p < |init| {
          assert (init + here)[p] == init[p];
        } else {
          var x := here[p - |init|];
          assert (init + here)[p] == x && x in here;
          SidesAtMember(flags, n - 1, x);
        }
      }
    }
  }

  /** Every side let through with a key below n is listed: at position p. */
  lemma {:induction false} SidesComplete(flags: seq<(bool, bool)>, n: nat, x: Slot) returns (p: nat)
    requires n <= |flags| && x.i < n && LetThrough(flags, x)
    ensures p < |Sides(flags, n)| && Sides(flags, n)[p] == x
  {
    var init: seq<Slot>, here: seq<Slot> := Sides(flags, n - 1), SidesAt(flags, n - 1);
    if x.i < n - 1 {
      p := SidesComplete(flags, n - 1, x);
      assert (init + here)[p] == init[p];
    } else {
      var q := if x.second then |here| - 1 else 0;
      assert x == Slot(n - 1, x.second);
      p := |init| + q;
      assert (init + here)[p] == here[q];
    }
  }

  /** The sides of one key: at most two, the first before the second. */
  lemma SidesAtShape(flags: seq<(bool, bool)>, i: nat)
    requires i < |flags|
    ensures var h := SidesAt(flags, i);
      |h| <= 2 && (forall p :: 0 <= p < |h| ==> h[p].i == i) && (|h| == 2 ==> !h[0].second && h[1].second)
  {
  }

  /** The sides are listed key by key, first side first, so each at most once. */
  lemma {:induction false} SidesOrdered(flags: seq<(bool, bool)>, n: nat)
    requires n <= |flags|
    ensures forall p, q :: 0 <= p < q < |Sides(flags, n)| ==> SlotBefore(Sides(flags, n)[p], Sides(flags, n)[q])
  {
    if n > 0 {
      SidesOrdered(flags, n - 1);
      SidesLetThrough(flags, n - 1);
      SidesAtShape(flags, n - 1);
      var init: seq<Slot>, here: seq<Slot> := Sides(flags, n - 1), SidesAt(flags, n - 1);
      var all := init + here;
      forall p, q | 0 <= p < q < |all| ensures SlotBefore(all[p], all[q]) {
        if q < |init| {
          assert all[p] == init[p] && all[q] == init[q];
        } else if p < |init| {
          assert all[p] == init[p];
          assert all[q] == here[q - |init|];
        } else {
          assert all[p] == here[p - |init|] && all[q] == here[q - |init|];
        }
      }
    }
  }

  /** Every offered side of the first n keys is listed, and nothing else. */
  lemma SlotsOffered(c: Conv, n: nat)
    requires n <= |c.keys|
    ensures forall x :: x in Slots(c, n) <==> x.i < n && Offered(c, x)
  {
    var flags := OfferFlags(c);
    SidesLetThrough(flags, n);
    forall x ensures x in Slots(c, n) <==> x.i < n && Offered(c, x) {
      OfferFlagsOffered(c, x);
      if x.i < n && Offered(c, x) {
        var p := SidesComplete(flags, n, x);
        assert Slots(c, n)[p] in Slots(c, n);
      }
    }
  }

  /** The sides are listed in line 385's order, so each at most once. */
  lemma SlotsOrdered(c: Conv, n: nat)
    requires n <= |c.keys|
    ensures forall p, q :: 0 <= p < q < |Slots(c, n)| ==> SlotBefore(Slots(c, n)[p], Slots(c, n)[q])
  {
    SidesOrdered(OfferFlags(c), n);
  }

  /**
    Line 384's candidates among the first n keys: the symbols at the sides
    `Slots` lists, in that order and with repeats.
   */
  function Candidates(c: Conv, n: nat): seq<Symbol>
    requires n <= |c.keys|
  {
    var ss := Slots(c, n);
    SidesLetThrough(OfferFlags(c), n);
    seq(|ss|, p requires 0 <= p < |ss| && ss[p].i < |c.keys| => SlotSym(c, ss[p]))
  }

  /** A symbol is a candidate exactly when it is not ETH and belongs to a pair still None among the first n keys. */
  lemma CandidatesMembers(c: Conv, n: nat)
    requires n <= |c.keys|
    ensures forall s :: s in Candidates(c, n) <==>
      s != "ETH" && exists i :: 0 <= i < n && Get(c, c.keys[i]).Unset? && s in Members(c.keys[i])
  {
    SlotsOffered(c, n);
    forall s | s in Candidates(c, n)
      ensures s != "ETH" && exists i :: 0 <= i < n && Get(c, c.keys[i]).Unset? && s in Members(c.keys[i])
    {
      CandidateOffered(c, n, s);
    }
    forall s, i | s != "ETH" && 0 <= i < n && Get(c, c.keys[i]).Unset? && s in Members(c.keys[i])
      ensures s in Candidates(c, n)
    {
      OfferedCandidate(c, n, s, i);
    }
  }

  /** A candidate is the symbol, other than ETH, of a listed side: of a pair still None. */
  lemma CandidateOffered(c: Conv, n: nat, s: Symbol)
    requires n <= |c.keys| && s in Candidates(c, n)
    requires forall x :: x in Slots(c, n) <==> x.i < n && Offered(c, x)
    ensures s != "ETH" && exists i :: 0 <= i < n && Get(c, c.keys[i]).Unset? && s in Members(c.keys[i])
  {
    var ss, cs := Slots(c, n), Candidates(c, n);
    var p :| 0 <= p < |cs| && cs[p] == s;
    var x := ss[p];
    assert x in ss;
    assert Get(c, c.keys[x.i]).Unset? && s in Members(c.keys[x.i]);
  }

  /** A symbol, other than ETH, of a pair still None is the candidate at its side. */
  lemma OfferedCandidate(c: Conv, n: nat, s: Symbol, i: nat)
    requires n <= |c.keys| && s != "ETH" && i < n && Get(c, c.keys[i]).Unset? && s in Members(c.keys[i])
    requires forall x :: x in Slots(c, n) <==> x.i < n && Offered(c, x)
    ensures s in Candidates(c, n)
  {
    var ss, cs := Slots(c, n), Candidates(c, n);
    var x := Slot(i, s != c.keys[i].0);
    assert Offered(c, x);
    var p :| 0 <= p < |ss| && ss[p] == x;
    assert cs[p] == s;
  }
}
