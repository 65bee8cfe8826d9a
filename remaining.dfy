/**
  One whole call of `conversions_remaining` (slip39/invoice/artifact.py
  lines 126-193) as a function of the mapping it is given: the first pass of
  module Ratios, then the search for a shared pivot, then the report of what
  is still unknown. The proofs here are the call's result protocol and what
  the resolution loops need to terminate.
 */
module Remaining {
  import opened Options
  import opened Strings
  import opened Ratios

  /** `set(c2)`: the one or two symbols of a pair. */
  function Members(k: Pair): set<Symbol>
  {
    {k.0, k.1}
  }

  /**
    Lines 170-172 for the wanted pair `k` = (a,b): `c2` has a truthy ratio
    and contains a, `c3` is another pair with a truthy ratio that contains b,
    and the two pairs share a symbol.
   */
  predicate PivotAt(c: Conv, k: Pair, c2: Pair, c3: Pair)
  {
    Truthy(Get(c, c2)) && k.0 in Members(c2) &&
    c2 != c3 && Truthy(Get(c, c3)) && k.1 in Members(c3) && Members(c2) * Members(c3) != {}
  }

  /** The innermost loop (line 171): the first position from `l` on whose key can serve as c3. */
  function FindC3(c: Conv, k: Pair, c2: Pair, l: nat): (r: Option<nat>)
    requires l <= |c.keys|
    ensures r.Some? ==> l <= r.value < |c.keys| && PivotAt(c, k, c2, c.keys[r.value])
    ensures r.Some? ==> forall m :: l <= m < r.value ==> !PivotAt(c, k, c2, c.keys[m])
    ensures r.None? ==> forall m :: l <= m < |c.keys| ==> !PivotAt(c, k, c2, c.keys[m])
    decreases |c.keys| - l
  {
    if l == |c.keys| then None
    else if PivotAt(c, k, c2, c.keys[l]) then Some(l)
    else FindC3(c, k, c2, l + 1)
  }

  /** Line 170's guard on the candidate c2 for the wanted pair k. */
  predicate C2At(c: Conv, k: Pair, c2: Pair)
  {
    Truthy(Get(c, c2)) && k.0 in Members(c2)
  }

  /**
    The middle loop (line 169): the first position j from `j0` on whose key
    passes line 170 and has some c3, with the position of that c3.
   */
  function FindC2(c: Conv, k: Pair, j0: nat): (r: Option<(nat, nat)>)
    requires j0 <= |c.keys|
    ensures r.Some? ==> (j0 <= r.value.0 < |c.keys| && r.value.1 < |c.keys| &&
      PivotAt(c, k, c.keys[r.value.0], c.keys[r.value.1]))
    ensures r.Some? ==> r.value.1 == FindC3(c, k, c.keys[r.value.0], 0).value
    ensures r.Some? ==> forall j :: j0 <= j < r.value.0 ==> !(C2At(c, k, c.keys[j]) && FindC3(c, k, c.keys[j], 0).Some?)
    ensures r.None? ==> forall j, l :: j0 <= j < |c.keys| && 0 <= l < |c.keys| ==> !PivotAt(c, k, c.keys[j], c.keys[l])
    decreases |c.keys| - j0
  {
    if j0 == |c.keys| then None
    else if C2At(c, k, c.keys[j0]) && FindC3(c, k, c.keys[j0], 0).Some? then
      Some((j0, FindC3(c, k, c.keys[j0], 0).value))
    else
      FindC2(c, k, j0 + 1)
  }

  /** A wanted pair, found at position i, and the positions of its c2 and c3. */
  datatype Pivot = Pivot(i: nat, j: nat, l: nat)

  /**
    The outer loop (line 166): the first position i from `i0` on whose key is
    None and has a c2 and c3.
   */
  function FindPivot(c: Conv, i0: nat): (r: Option<Pivot>)
    requires i0 <= |c.keys|
    ensures r.Some? ==> i0 <= r.value.i < |c.keys| && r.value.j < |c.keys| && r.value.l < |c.keys|
    ensures r.Some? ==> (Get(c, c.keys[r.value.i]).Unset? &&
      PivotAt(c, c.keys[r.value.i], c.keys[r.value.j], c.keys[r.value.l]))
    ensures r.Some? ==> FindC2(c, c.keys[r.value.i], 0) == Some((r.value.j, r.value.l))
    ensures r.None? ==> forall i, j, l :: (i0 <= i < |c.keys| && 0 <= j < |c.keys| && 0 <= l < |c.keys| &&
      Get(c, c.keys[i]).Unset?) ==> !PivotAt(c, c.keys[i], c.keys[j], c.keys[l])
    decreases |c.keys| - i0
  {
    if i0 == |c.keys| then None
    else if Get(c, c.keys[i0]).Ratio? then FindPivot(c, i0 + 1)
    else
      var found := FindC2(c, c.keys[i0], 0);
      if found.Some? then Some(Pivot(i0, found.value.0, found.value.1))
      else FindPivot(c, i0 + 1)
  }

  /** The pivot found is the first: no wanted pair before it has a c2. */
  lemma {:induction false} FindPivotFirst(c: Conv, i0: nat)
    requires i0 <= |c.keys|
    ensures FindPivot(c, i0).Some? ==>
      forall i :: i0 <= i < FindPivot(c, i0).value.i && Get(c, c.keys[i]).Unset? ==> FindC2(c, c.keys[i], 0).None?
    decreases |c.keys| - i0
  {
    if i0 < |c.keys| && (Get(c, c.keys[i0]).Ratio? || FindC2(c, c.keys[i0], 0).None?) {
      FindPivotFirst(c, i0 + 1);
    }
  }

  /** The Python exceptions lines 176-179 can raise. */
  datatype Fault =
    | Unpack        // `x, = x_s` on a set of two symbols: ValueError
    | MissingKey    // `conversions[a,x]` or `conversions[b,x]` absent: KeyError
    | NoneOperand   // one of the two factors is None: TypeError
    | ZeroDivision  // `1 / conversions[a,b]` with a zero product: ZeroDivisionError

  /** Line 177's right-hand side: (a,x) * (b,x), both known. */
  function PivotProduct(c: Conv, k: Pair, x: Symbol): real
    requires Known(c, (k.0, x)) && Known(c, (k.1, x))
  {
    Get(c, (k.0, x)).ratio * Get(c, (k.1, x)).ratio
  }

  /**
    Lines 176-180 for the wanted pair k = (a,b) and the pairs c2, c3: take
    the shared symbol x, store (a,b) = (a,x) * (b,x) (a product, as written)
    and (b,a) as its inverse. A fault leaves the mapping as it was when the
    exception was raised.
   */
  function ApplyPivot(c: Conv, k: Pair, c2: Pair, c3: Pair): (Conv, Option<Fault>)
  {
    var xs := Members(c2) * Members(c3);
    if xs != {c2.0} && xs != {c2.1} then (c, Some(Unpack))
    else
      var x := if xs == {c2.0} then c2.0 else c2.1;
      if (k.0, x) !in c.vals || (k.1, x) !in c.vals then (c, Some(MissingKey))
      else if c.vals[(k.0, x)].Unset? || c.vals[(k.1, x)].Unset? then (c, Some(NoneOperand))
      else
        var p := PivotProduct(c, k, x);
        var d := Assign(c, k, Ratio(p));
        if p == 0.0 then (d, Some(ZeroDivision))
        else (Assign(d, (k.1, k.0), Ratio(1.0 / p)), None)
  }

  /** `f'{a}/{b}'`. */
  function Label(k: Pair): string
  {
    k.0 + "/" + k.1
  }

  /** Line 185's comprehension over the first n keys: the labels of the pairs still None. */
  function UnsetLabels(c: Conv, n: nat): (r: seq<string>)
    requires n <= |c.keys|
    ensures |r| <= n
    ensures forall s :: s in r <==> exists i :: 0 <= i < n && Get(c, c.keys[i]).Unset? && s == Label(c.keys[i])
  {
    if n == 0 then []
    else UnsetLabels(c, n - 1) + (if Get(c, c.keys[n - 1]).Unset? then [Label(c.keys[n - 1])] else [])
  }

  /** Line 188's test `v > 1`, which passes only for a ratio. */
  predicate Above(v: Value)
  {
    v.Ratio? && v.ratio > 1.0
  }

  /** Line 188's comprehension over the first n keys: the labels of the pairs with a ratio above 1. */
  function ViaLabels(c: Conv, n: nat): (r: seq<string>)
    requires n <= |c.keys|
    ensures |r| <= n
    ensures forall s :: s in r <==> exists i :: 0 <= i < n && Above(Get(c, c.keys[i])) && s == Label(c.keys[i])
  {
    if n == 0 then []
    else ViaLabels(c, n - 1) + (if Above(Get(c, c.keys[n - 1])) then [Label(c.keys[n - 1])] else [])
  }

  /** The labels are empty exactly when no key of the first n is None. */
  lemma {:induction false} UnsetLabelsEmpty(c: Conv, n: nat)
    requires n <= |c.keys|
    ensures UnsetLabels(c, n) == [] <==> forall i :: 0 <= i < n ==> Get(c, c.keys[i]).Ratio?
  {
    if n > 0 {
      UnsetLabelsEmpty(c, n - 1);
    }
  }

  /** What one call reports. */
  datatype Outcome =
    | Updated                                        // `return True`
    | Done                                           // `return False`
    | Stuck(remains: seq<string>, via: seq<string>)  // the "Failed to find ratio(s)" message, returned
    | Failed(remains: seq<string>, via: seq<string>) // the same message, raised as RuntimeError (verify)
    | Faulted(fault: Fault)                          // an exception from lines 176-179

  /**
    Lines 184-193, reached when no pivot was found: Done when nothing is
    None, otherwise the message with the sorted labels of the None pairs and
    of the ratios above 1, raised under `verify` and returned otherwise.
   */
  function Report(c: Conv, verify: bool): (r: Outcome)
    ensures r.Done? || (r.Failed? && verify) || (r.Stuck? && !verify)
    ensures r.Done? <==> forall i :: 0 <= i < |c.keys| ==> Get(c, c.keys[i]).Ratio?
    ensures !r.Done? ==> (Sorted(r.remains) && Sorted(r.via) &&
      multiset(r.remains) == multiset(UnsetLabels(c, |c.keys|)) && multiset(r.via) == multiset(ViaLabels(c, |c.keys|)))
  {
    UnsetLabelsEmpty(c, |c.keys|);
    var remains := Sort(UnsetLabels(c, |c.keys|));
    if remains == [] then Done
    else
      var via := Sort(ViaLabels(c, |c.keys|));
      if verify then Failed(remains, via) else Stuck(remains, via)
  }

  /** Lines 164-193, after a first pass that changed nothing. */
  function Quiet(c: Conv, verify: bool): (Conv, Outcome)
  {
    match FindPivot(c, 0)
    case Some(pv) =>
      var (d, fault) := ApplyPivot(c, c.keys[pv.i], c.keys[pv.j], c.keys[pv.l]);
      if fault.None? then (d, Updated) else (d, Faulted(fault.value))
    case None => (c, Report(c, verify))
  }

  /** The call: the mapping it leaves behind and what it reports. */
  function Remaining(c: Conv, verify: bool): (Conv, Outcome)
    requires Valid(c)
  {
    var p := FirstPass(c);
    if p.updated then (p.conv, Updated) else Quiet(c, verify)
  }

  // ---------------------------------------------------------------------
  // The pivot branch after a quiet first pass
  // ---------------------------------------------------------------------

  /**
    Once the mapping is closed, no wanted pair (a,b) with a != b has a pivot:
    the pairs line 172 looks for would already have produced (a,b) by
    inversion or composition.
   */
  lemma NoPivotOffDiagonal(c: Conv, k: Pair, c2: Pair, c3: Pair)
    requires Valid(c) && Closed(c) && !Known(c, k) && k.0 != k.1
    ensures !PivotAt(c, k, c2, c3)
  {
  }

  /**
    After a quiet first pass, whatever pivot lines 166-172 find belongs to a
    wanted diagonal pair (a,a), and lines 176-179 then raise instead of
    storing a ratio: the two pairs share two symbols, or the factor (a,a) is
    None.
   */
  lemma PivotFaults(c: Conv)
    requires Valid(c) && Closed(c) && FindPivot(c, 0).Some?
    ensures var pv := FindPivot(c, 0).value;
      c.keys[pv.i].0 == c.keys[pv.i].1 &&
      ApplyPivot(c, c.keys[pv.i], c.keys[pv.j], c.keys[pv.l]).1.Some? &&
      ApplyPivot(c, c.keys[pv.i], c.keys[pv.j], c.keys[pv.l]).0 == c
  {
    var pv := FindPivot(c, 0).value;
    var k, c2, c3 := c.keys[pv.i], c.keys[pv.j], c.keys[pv.l];
    if k.0 != k.1 {
      NoPivotOffDiagonal(c, k, c2, c3);
      assert false;
    }
    var a := k.0;
    assert k == (a, a) && k in c.vals && c.vals[k].Unset?;
    assert c2 != k && c3 != k;
    var y := if c2.0 == a then c2.1 else c2.0;
    var z := if c3.0 == a then c3.1 else c3.0;
    assert Members(c2) == {a, y} && y != a;
    assert Members(c3) == {a, z} && z != a;
    var xs := Members(c2) * Members(c3);
    if y == z {
      assert xs == {a, y};
      assert xs != {c2.0} && xs != {c2.1} by {
        assert a in xs && y in xs;
      }
    } else {
      assert xs == {a};
      var r := ApplyPivot(c, k, c2, c3);
      if xs == {c2.0} || xs == {c2.1} {
        var x := if xs == {c2.0} then c2.0 else c2.1;
        assert x == a;
        assert (k.0, x) == k;
      }
    }
  }

  // ---------------------------------------------------------------------
  // The result protocol
  // ---------------------------------------------------------------------

  /**
    The call reports Updated exactly when its first pass changed the
    mapping, and then leaves the first pass's result; otherwise it leaves the
    mapping as it was, also when the pivot branch raised.
   */
  lemma RemainingUpdated(c: Conv, verify: bool)
    requires Valid(c)
    ensures Remaining(c, verify).1 == Updated <==> FirstPass(c).updated
    ensures FirstPass(c).updated ==> Remaining(c, verify).0 == FirstPass(c).conv
    ensures !Remaining(c, verify).1.Updated? ==> Remaining(c, verify).0 == c
  {
    if !FirstPass(c).updated {
      FirstPassQuietIffClosed(c);
      if FindPivot(c, 0).Some? {
        PivotFaults(c);
      }
    }
  }

  /** No value is None exactly when the labels of line 185 are empty. */
  lemma AllKnownIffNoLabels(c: Conv)
    requires Valid(c)
    ensures (forall k :: k in c.vals ==> c.vals[k].Ratio?) <==> Sort(UnsetLabels(c, |c.keys|)) == []
  {
    var labels := UnsetLabels(c, |c.keys|);
    UnsetLabelsEmpty(c, |c.keys|);
    assert Sort(labels) == [] <==> labels == [] by {
      assert |Sort(labels)| == |labels|;
    }
    if labels == [] {
      forall k | k in c.vals ensures c.vals[k].Ratio? {
        var i :| 0 <= i < |c.keys| && c.keys[i] == k;
        assert Get(c, c.keys[i]).Ratio?;
      }
    } else {
      var i :| 0 <= i < |c.keys| && !Get(c, c.keys[i]).Ratio?;
      assert c.keys[i] in c.vals;
    }
  }

  /** With no value None there is no wanted pair for lines 166-172 to find. */
  lemma NoPivotWhenKnown(c: Conv)
    requires Valid(c) && forall k :: k in c.vals ==> c.vals[k].Ratio?
    ensures FindPivot(c, 0).None?
  {
    forall i | 0 <= i < |c.keys| ensures Get(c, c.keys[i]).Ratio? {
      assert c.keys[i] in c.keys;
    }
  }

  /**
    The call reports Done exactly when the first pass has nothing to add and
    no value is None.
   */
  lemma RemainingDone(c: Conv, verify: bool)
    requires Valid(c)
    ensures Remaining(c, verify).1 == Done <==>
      !FirstPass(c).updated && forall k :: k in c.vals ==> c.vals[k].Ratio?
  {
    var o := Remaining(c, verify).1;
    if FirstPass(c).updated {
      assert o == Updated;
    } else if FindPivot(c, 0).Some? {
      assert o.Updated? || o.Faulted?;
      if forall k :: k in c.vals ==> c.vals[k].Ratio? {
        NoPivotWhenKnown(c);
      }
    } else {
      assert o == Report(c, verify);
      AllKnownIffNoLabels(c);
    }
  }

  /**
    The call reports Stuck, or Failed under `verify`, when the first pass has
    nothing to add, no pivot was found and some value is None: with the
    sorted labels of the None pairs and of the ratios above 1.
   */
  lemma RemainingStuck(c: Conv, verify: bool)
    requires Valid(c)
    ensures var o := Remaining(c, verify).1;
      o.Stuck? || o.Failed? ==>
        !FirstPass(c).updated && FindPivot(c, 0).None? &&
        (o.Failed? <==> verify) &&
        o.remains == Sort(UnsetLabels(c, |c.keys|)) && o.remains != [] &&
        o.via == Sort(ViaLabels(c, |c.keys|))
    ensures (!FirstPass(c).updated && FindPivot(c, 0).None? &&
      exists k :: k in c.vals && c.vals[k].Unset?) ==> Remaining(c, verify).1.Stuck? || Remaining(c, verify).1.Failed?
  {
    var o := Remaining(c, verify).1;
    if FirstPass(c).updated {
      assert o == Updated;
    } else if FindPivot(c, 0).Some? {
      assert o.Updated? || o.Faulted?;
    } else {
      assert o == Report(c, verify);
      AllKnownIffNoLabels(c);
    }
  }

  /**
    The pivot branch raises only for a mapping that wants a diagonal pair
    (a,a): after a quiet first pass nothing else reaches it.
   */
  lemma RemainingFaults(c: Conv, verify: bool)
    requires Valid(c) && Remaining(c, verify).1.Faulted?
    ensures !FirstPass(c).updated && Remaining(c, verify).0 == c
    ensures exists a :: (a, a) in c.vals && c.vals[(a, a)].Unset?
  {
    FirstPassQuietIffClosed(c);
    PivotFaults(c);
    var k := c.keys[FindPivot(c, 0).value.i];
    assert (k.0, k.0) == k;
  }

  /**
    After Done, the mapping is closed and has no None value, and calling
    again (with or without `verify`) changes nothing and reports Done again.
   */
  lemma DoneIsFixpoint(c: Conv, verify: bool, again: bool)
    requires Valid(c) && Remaining(c, verify).1 == Done
    ensures Remaining(c, verify).0 == c
    ensures Closed(c) && forall k :: k in c.vals ==> Known(c, k)
    ensures Remaining(c, again) == (c, Done)
  {
    RemainingDone(c, verify);
    RemainingDone(c, again);
    RemainingUpdated(c, verify);
    FirstPassQuietIffClosed(c);
  }

  // ---------------------------------------------------------------------
  // Termination of `while conversions_remaining(...)`
  // ---------------------------------------------------------------------

  /** The pairs over the mapping's symbols that have no known ratio yet. */
  function Unknowns(c: Conv): set<Pair>
  {
    AllPairs(Syms(c)) - KnownSet(c)
  }

  lemma KnownWithin(c: Conv)
    ensures KnownSet(c) <= AllPairs(Syms(c))
  {
    forall k | k in KnownSet(c) ensures k in AllPairs(Syms(c)) {
      assert k.0 in Syms(c) && k.1 in Syms(c);
    }
  }

  lemma UnknownsShrink(c: Conv, d: Conv)
    requires Syms(d) == Syms(c) && KnownSet(c) < KnownSet(d)
    ensures |Unknowns(d)| < |Unknowns(c)|
  {
    KnownWithin(d);
    var k :| k in KnownSet(d) && k !in KnownSet(c);
    assert k in Unknowns(c);
    var rest := Unknowns(c) - {k};
    assert Unknowns(d) <= rest;
    assert rest == Unknowns(d) + (rest - Unknowns(d));
    assert |rest| == |Unknowns(c)| - 1;
  }

  /**
    Every Updated report learns a pair over the symbols already present and
    forgets none, so the number of pairs still to learn strictly drops: the
    loops at lines 374 and 403 terminate.
   */
  lemma RemainingProgress(c: Conv, verify: bool)
    requires Valid(c) && Remaining(c, verify).1 == Updated
    ensures var d := Remaining(c, verify).0;
      Valid(d) && Grows(c, d) && UnsetShrinks(c, d) && c.keys <= d.keys &&
      Syms(d) == Syms(c) && |Unknowns(d)| < |Unknowns(c)|
  {
    RemainingUpdated(c, verify);
    FirstPassPreserves(c);
    UnknownsShrink(c, FirstPass(c).conv);
  }
}
