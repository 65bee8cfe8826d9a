/**
  The conversions graph of slip39/invoice/artifact.py, as values: a flat
  mapping from an ordered currency pair (a, b) to "units of b per unit of a",
  or to None for a pair that is wanted but not yet known. A Python dict keeps
  its keys in insertion order and that order decides how the deduction loops
  run, so the mapping is a key sequence next to a map.

  This module gives the first pass of one call of `conversions_remaining`
  and proves what it promises; module Remaining completes the call, and the
  in-place implementation is class Conversions in module Resolver.
 */
module Ratios {
  import opened Options
  import opened Strings

  type Symbol = string
  type Pair = (Symbol, Symbol)

  /** A value of the dict: a ratio, or Python's None for a pair still wanted. */
  datatype Value = Unset | Ratio(ratio: real)

  /** The conversions dict: its keys in insertion order, and the value of each. */
  datatype Conv = Conv(keys: seq<Pair>, vals: map<Pair, Value>)

  /** Every key once, and exactly the keys of the map. */
  ghost predicate Valid(c: Conv)
  {
    Distinct(c.keys) && (forall k :: k in c.vals <==> k in c.keys)
  }

  /** `conversions.get(k)`: an absent key and a None value both read as Unset. */
  function Get(c: Conv, k: Pair): Value
  {
    if k in c.vals then c.vals[k] else Unset
  }

  /** A ratio is known for `k` (the source's `conversions.get(k) is not None`). */
  predicate Known(c: Conv, k: Pair)
  {
    Get(c, k).Ratio?
  }

  /** Python truthiness of a ratio: present and non-zero. */
  predicate Truthy(v: Value)
  {
    v.Ratio? && v.ratio != 0.0
  }

  /** The pairs with a known ratio. */
  function KnownSet(c: Conv): set<Pair>
  {
    set k | k in c.vals && c.vals[k].Ratio?
  }

  /** The symbols that occur in some key. */
  function Syms(c: Conv): set<Symbol>
  {
    (set k | k in c.vals :: k.0) + (set k | k in c.vals :: k.1)
  }

  /** Every key is built from symbols of `s`. */
  ghost predicate Within(c: Conv, s: set<Symbol>)
  {
    forall k :: k in c.vals ==> k.0 in s && k.1 in s
  }

  /** All ordered pairs over `s`: the most keys a mapping Within(s) can have. */
  function AllPairs(s: set<Symbol>): set<Pair>
  {
    set a, b | a in s && b in s :: (a, b)
  }

  /**
    `conversions[k] = v`: an existing key keeps its place in the order, a new
    key goes last.
   */
  function Assign(c: Conv, k: Pair, v: Value): (r: Conv)
    ensures Get(r, k) == v
    ensures forall k' :: k' != k ==> Get(r, k') == Get(c, k')
    ensures c.keys <= r.keys && k in r.vals
    ensures r.vals.Keys == c.vals.Keys + {k}
  {
    if k in c.vals then Conv(c.keys, c.vals[k := v])
    else Conv(c.keys + [k], c.vals[k := v])
  }

  /** An assignment keeps every key once and the keys those of the map. */
  lemma AssignValid(c: Conv, k: Pair, v: Value)
    requires Valid(c)
    ensures Valid(Assign(c, k, v))
  {
    if k !in c.vals {
      assert k !in c.keys;
      assert Distinct(c.keys + [k]);
    }
  }

  /** Storing a ratio forgets no known pair and adds no None. */
  lemma AssignRatio(c: Conv, k: Pair, v: real)
    ensures UnsetShrinks(c, Assign(c, k, Ratio(v)))
    ensures forall t :: Known(c, t) ==> Known(Assign(c, k, Ratio(v)), t)
  {
    var d := Assign(c, k, Ratio(v));
    forall t | t in d.vals && d.vals[t].Unset? ensures t in c.vals && c.vals[t].Unset? {
      assert Get(d, t).Unset? && t != k;
    }
  }

  /** `d` extends `c`: it has every key of `c`, and no known ratio of `c` has changed. */
  ghost predicate Grows(c: Conv, d: Conv)
  {
    c.vals.Keys <= d.vals.Keys &&
    forall k :: Known(c, k) ==> Get(d, k) == Get(c, k)
  }

  /** Every None of `d` was already a None of `c`: no step ever writes None. */
  ghost predicate UnsetShrinks(c: Conv, d: Conv)
  {
    forall k :: k in d.vals && d.vals[k].Unset? ==> k in c.vals && c.vals[k].Unset?
  }

  lemma GrowsTransitive(c: Conv, d: Conv, e: Conv)
    requires Grows(c, d) && Grows(d, e)
    ensures Grows(c, e)
  {
  }

  lemma UnsetShrinksTransitive(c: Conv, d: Conv, e: Conv)
    requires UnsetShrinks(c, d) && UnsetShrinks(d, e)
    ensures UnsetShrinks(c, e)
  {
  }

  lemma GrowsKnownSet(c: Conv, d: Conv)
    requires Grows(c, d)
    ensures KnownSet(c) <= KnownSet(d)
  {
    forall k | k in KnownSet(c) ensures k in KnownSet(d) {
      assert Known(c, k);
    }
  }

  /** Assigning a ratio to a pair that had none extends the mapping by that pair. */
  lemma AssignUnknown(c: Conv, k: Pair, v: real)
    requires !Known(c, k)
    ensures Grows(c, Assign(c, k, Ratio(v)))
    ensures KnownSet(Assign(c, k, Ratio(v))) == KnownSet(c) + {k}
    ensures k !in KnownSet(c)
  {
    var r := Assign(c, k, Ratio(v));
    forall q | q in KnownSet(r) ensures q in KnownSet(c) + {k} {
      assert Known(r, q);
    }
    forall q | q in KnownSet(c) + {k} ensures q in KnownSet(r) {
      if q != k { assert Known(c, q); }
    }
  }

  // ---------------------------------------------------------------------
  // The first pass (artifact.py lines 145-161)
  // ---------------------------------------------------------------------

  /** The state of the first pass: the mapping and the `updated` flag. */
  datatype Pass = Pass(conv: Conv, updated: bool)

  /** Line 148's guard: the ratio r of (a,b) is truthy and (b,a) is unknown in `d`. */
  predicate InvertFires(d: Conv, k: Pair, r: Value)
  {
    Truthy(r) && !Known(d, (k.1, k.0))
  }

  /** Lines 148-151: a truthy ratio (a,b) = r fills an unknown (b,a) with 1/r. */
  function Invert(p: Pass, k: Pair, r: Value): Pass
  {
    if InvertFires(p.conv, k, r)
    then Pass(Assign(p.conv, (k.1, k.0), Ratio(1.0 / r.ratio)), true)
    else p
  }

  /**
    Lines 155-157's guard for the outer key (a,b) and the inner entry
    (a2,b2) = r2: r2 is not None, b == a2, a != b2 and (a,b2) is unknown in `d`.
   */
  predicate ComposeFires(d: Conv, k: Pair, k2: Pair, r2: Value)
  {
    r2.Ratio? && k.1 == k2.0 && k.0 != k2.1 && !Known(d, (k.0, k2.1))
  }

  /**
    Lines 155-161 for one inner snapshot entry (a2,b2) = r2: when b == a2,
    a != b2 and (a,b2) is unknown, it becomes r * r2.
   */
  function Compose(p: Pass, k: Pair, r: real, k2: Pair, r2: Value): Pass
  {
    if ComposeFires(p.conv, k, k2, r2)
    then Pass(Assign(p.conv, (k.0, k2.1), Ratio(r * r2.ratio)), true)
    else p
  }

  /** When its guard holds, one inner step stores the product for (a,b2) and sets the flag. */
  lemma ComposeStep(p: Pass, k: Pair, r: real, k2: Pair, r2: Value)
    requires ComposeFires(p.conv, k, k2, r2)
    ensures Compose(p, k, r, k2, r2).conv == Assign(p.conv, (k.0, k2.1), Ratio(r * r2.ratio))
    ensures Compose(p, k, r, k2, r2).updated
  {
  }

  /** The inner loop (line 154) over the first `n` entries of its snapshot `s`. */
  function ComposeAll(p: Pass, k: Pair, r: real, s: Conv, n: nat): Pass
    requires n <= |s.keys|
  {
    if n == 0 then p
    else Compose(ComposeAll(p, k, r, s, n - 1), k, r, s.keys[n - 1], Get(s, s.keys[n - 1]))
  }

  /**
    One iteration of the outer loop (line 147) for the snapshot entry k = r:
    the inversion, then (for a non-None r) the inner loop over a snapshot
    taken now, so that it sees what earlier iterations added.
   */
  function Visit(p: Pass, k: Pair, r: Value): Pass
  {
    var p1 := Invert(p, k, r);
    if r.Unset? then p1 else ComposeAll(p1, k, r.ratio, p1.conv, |p1.conv.keys|)
  }

  /** The outer loop over the first `n` entries of the snapshot `s`. */
  function VisitAll(p: Pass, s: Conv, n: nat): Pass
    requires n <= |s.keys|
  {
    if n == 0 then p
    else Visit(VisitAll(p, s, n - 1), s.keys[n - 1], Get(s, s.keys[n - 1]))
  }

  /** Lines 145-161: the whole first pass over the snapshot of line 147. */
  function FirstPass(c: Conv): Pass
  {
    VisitAll(Pass(c, false), c, |c.keys|)
  }

  // ---------------------------------------------------------------------
  // What the first pass preserves
  // ---------------------------------------------------------------------

  /** The known ratio of `k` is the inverse of a known non-zero ratio of its reverse. */
  ghost predicate InverseIn(d: Conv, k: Pair)
  {
    Truthy(Get(d, (k.1, k.0))) && Get(d, k) == Ratio(1.0 / Get(d, (k.1, k.0)).ratio)
  }

  /** The known ratio of (a,c) is (a,m) * (m,c), two known ratios, and a != c. */
  ghost predicate ViaIn(d: Conv, k: Pair, m: Symbol)
  {
    k.0 != k.1 && Known(d, (k.0, m)) && Known(d, (m, k.1)) &&
    Get(d, k) == Ratio(Get(d, (k.0, m)).ratio * Get(d, (m, k.1)).ratio)
  }

  /** The ratio `d` knows for `k` is an inversion or a composition of ratios of `d`. */
  ghost predicate Justified(d: Conv, k: Pair)
  {
    InverseIn(d, k) || exists m :: ViaIn(d, k, m)
  }

  /** Every ratio of `d` that `c` did not know is justified in `d`. */
  ghost predicate Sound(c: Conv, d: Conv)
  {
    forall k {:trigger Justified(d, k)} :: Known(d, k) && !Known(c, k) ==> Justified(d, k)
  }

  lemma ViaGrows(d: Conv, e: Conv, k: Pair, m: Symbol)
    requires Grows(d, e) && ViaIn(d, k, m)
    ensures ViaIn(e, k, m)
  {
    assert Known(d, (k.0, m)) && Known(d, (m, k.1)) && Known(d, k);
  }

  lemma JustifiedGrows(d: Conv, e: Conv, k: Pair)
    requires Grows(d, e) && Known(d, k) && Justified(d, k)
    ensures Justified(e, k)
  {
    if InverseIn(d, k) {
      assert InverseIn(e, k);
    } else {
      var m :| ViaIn(d, k, m);
      ViaGrows(d, e, k, m);
    }
  }

  /**
    The facts the first pass keeps from step to step, with `c` the mapping it
    started from and `u` the symbols of its keys.
   */
  ghost predicate PassInv(c: Conv, u: set<Symbol>, p: Pass)
  {
    Valid(p.conv) && Grows(c, p.conv) && UnsetShrinks(c, p.conv) && Within(p.conv, u) && Sound(c, p.conv) && c.keys <= p.conv.keys &&
    (if p.updated then KnownSet(c) < KnownSet(p.conv) else p.conv == c)
  }

  /** Growth keeps each old justification valid. */
  lemma SoundGrows(c: Conv, d: Conv, e: Conv)
    requires Sound(c, d) && Grows(d, e)
    requires forall k :: Known(e, k) && !Known(d, k) ==> Justified(e, k)
    ensures Sound(c, e)
  {
    forall k | Known(e, k) && !Known(c, k) ensures Justified(e, k) {
      if Known(d, k) {
        JustifiedGrows(d, e, k);
      }
    }
  }

  /** Storing a justified ratio for an unknown pair keeps the mapping sound. */
  lemma SoundAssign(c: Conv, d: Conv, t: Pair, v: real)
    requires Sound(c, d) && !Known(d, t)
    requires Justified(Assign(d, t, Ratio(v)), t)
    ensures Sound(c, Assign(d, t, Ratio(v)))
  {
    var e := Assign(d, t, Ratio(v));
    AssignUnknown(d, t, v);
    forall q | Known(e, q) && !Known(d, q) ensures Justified(e, q) {
      assert q == t;
    }
    SoundGrows(c, d, e);
  }

  /** Assigning a pair over symbols of `u` keeps the keys over `u`. */
  lemma WithinAssign(d: Conv, u: set<Symbol>, t: Pair, v: Value)
    requires Within(d, u) && t.0 in u && t.1 in u
    ensures Within(Assign(d, t, v), u)
  {
  }

  /** The ratio line 159 stores is the composition of the two it multiplies. */
  lemma ComposeJustified(c: Conv, s: Conv, d: Conv, k: Pair, r: real, k2: Pair, r2: Value)
    requires Grows(c, d) && Grows(s, d) && Get(c, k) == Ratio(r) && Get(s, k2) == r2 && r2.Ratio?
    requires k.1 == k2.0 && k.0 != k2.1 && !Known(d, (k.0, k2.1))
    ensures ViaIn(Assign(d, (k.0, k2.1), Ratio(r * r2.ratio)), (k.0, k2.1), k.1)
  {
    var t := (k.0, k2.1);
    var e := Assign(d, t, Ratio(r * r2.ratio));
    assert Known(c, k) && Known(s, k2);
    assert Get(d, k) == Ratio(r) && Get(d, k2) == r2;
    assert k != t && k2 != t;
    assert (k.0, k.1) == k && (k.1, k2.1) == k2;
    assert ViaIn(e, t, k.1);
  }

  /** Storing a justified ratio for an unknown pair over `u` keeps the pass invariant. */
  lemma StoreKeeps(c: Conv, u: set<Symbol>, d: Conv, t: Pair, v: real)
    requires Grows(c, d) && Within(d, u) && Sound(c, d) && !Known(d, t) && t.0 in u && t.1 in u
    requires c.keys <= d.keys && Valid(d) && UnsetShrinks(c, d)
    requires Justified(Assign(d, t, Ratio(v)), t)
    ensures PassInv(c, u, Pass(Assign(d, t, Ratio(v)), true))
  {
    var e := Assign(d, t, Ratio(v));
    AssignValid(d, t, Ratio(v));
    AssignUnknown(d, t, v);
    GrowsKnownSet(c, d);
    SoundAssign(c, d, t, v);
    GrowsTransitive(c, d, e);
    WithinAssign(d, u, t, Ratio(v));
  }

  lemma InvertKeeps(c: Conv, u: set<Symbol>, p: Pass, k: Pair)
    requires PassInv(c, u, p) && Within(c, u)
    ensures PassInv(c, u, Invert(p, k, Get(c, k)))
  {
    var r := Get(c, k);
    var d := p.conv;
    if Truthy(r) && !Known(d, (k.1, k.0)) {
      var t := (k.1, k.0);
      var e := Assign(d, t, Ratio(1.0 / r.ratio));
      assert Known(c, k);
      assert Get(e, k) == r;
      assert InverseIn(e, t);
      StoreKeeps(c, u, d, t, 1.0 / r.ratio);
    }
  }

  lemma ComposeStores(c: Conv, u: set<Symbol>, p: Pass, k: Pair, r: real, s: Conv, k2: Pair, r2: Value)
    requires PassInv(c, u, p) && Get(c, k) == Ratio(r) && Within(c, u)
    requires Grows(s, p.conv) && Get(s, k2) == r2 && Within(s, u)
    requires ComposeFires(p.conv, k, k2, r2)
    ensures PassInv(c, u, Compose(p, k, r, k2, r2))
    ensures Grows(s, Compose(p, k, r, k2, r2).conv)
  {
    var d := p.conv;
    var t := (k.0, k2.1);
    var e := Assign(d, t, Ratio(r * r2.ratio));
    assert Compose(p, k, r, k2, r2).conv == e;
    assert Justified(e, t) by {
      ComposeJustified(c, s, d, k, r, k2, r2);
    }
    StoreKeeps(c, u, d, t, r * r2.ratio);
    AssignUnknown(d, t, r * r2.ratio);
    GrowsTransitive(s, d, e);
  }

  lemma ComposeKeeps(c: Conv, u: set<Symbol>, p: Pass, k: Pair, r: real, s: Conv, k2: Pair, r2: Value)
    requires PassInv(c, u, p) && Get(c, k) == Ratio(r) && Within(c, u)
    requires Grows(s, p.conv) && Get(s, k2) == r2 && Within(s, u)
    ensures PassInv(c, u, Compose(p, k, r, k2, r2))
    ensures Grows(s, Compose(p, k, r, k2, r2).conv)
  {
    if r2.Ratio? && k.1 == k2.0 && k.0 != k2.1 && !Known(p.conv, (k.0, k2.1)) {
      ComposeStores(c, u, p, k, r, s, k2, r2);
    } else {
      assert Compose(p, k, r, k2, r2) == p;
    }
  }

  lemma {:induction false} ComposeAllKeeps(c: Conv, u: set<Symbol>, p: Pass, k: Pair, r: real, s: Conv, n: nat)
    requires PassInv(c, u, p) && Get(c, k) == Ratio(r) && Within(c, u)
    requires Grows(s, p.conv) && Within(s, u) && n <= |s.keys|
    ensures PassInv(c, u, ComposeAll(p, k, r, s, n))
    ensures Grows(s, ComposeAll(p, k, r, s, n).conv)
  {
    if n > 0 {
      ComposeAllKeeps(c, u, p, k, r, s, n - 1);
      ComposeKeeps(c, u, ComposeAll(p, k, r, s, n - 1), k, r, s, s.keys[n - 1], Get(s, s.keys[n - 1]));
    }
  }

  lemma VisitKeeps(c: Conv, u: set<Symbol>, p: Pass, k: Pair)
    requires PassInv(c, u, p) && Within(c, u)
    ensures PassInv(c, u, Visit(p, k, Get(c, k)))
  {
    var r := Get(c, k);
    InvertKeeps(c, u, p, k);
    var p1 := Invert(p, k, r);
    if r.Ratio? {
      ComposeAllKeeps(c, u, p1, k, r.ratio, p1.conv, |p1.conv.keys|);
    }
  }

  lemma WithinSyms(c: Conv)
    ensures Within(c, Syms(c))
  {
    forall k | k in c.vals ensures k.0 in Syms(c) && k.1 in Syms(c) { }
  }

  lemma {:induction false} VisitAllKeeps(c: Conv, n: nat)
    requires Valid(c) && n <= |c.keys|
    ensures PassInv(c, Syms(c), VisitAll(Pass(c, false), c, n))
  {
    WithinSyms(c);
    if n > 0 {
      VisitAllKeeps(c, n - 1);
      var p := VisitAll(Pass(c, false), c, n - 1);
      var k := c.keys[n - 1];
      VisitKeeps(c, Syms(c), p, k);
      assert VisitAll(Pass(c, false), c, n) == Visit(p, k, Get(c, k));
    }
  }

  /**
    The first pass never changes a known ratio and never drops a key; it only
    uses symbols already present; every ratio it adds is the inverse of a
    known non-zero ratio or the product of two known ratios; and it reports
    an update exactly when it learned a new pair.
   */
  lemma FirstPassPreserves(c: Conv)
    requires Valid(c)
    ensures Valid(FirstPass(c).conv)
    ensures Grows(c, FirstPass(c).conv) && UnsetShrinks(c, FirstPass(c).conv)
    ensures c.keys <= FirstPass(c).conv.keys
    ensures Syms(FirstPass(c).conv) == Syms(c)
    ensures Sound(c, FirstPass(c).conv)
    ensures FirstPass(c).updated ==> KnownSet(c) < KnownSet(FirstPass(c).conv)
    ensures !FirstPass(c).updated ==> FirstPass(c).conv == c
  {
    VisitAllKeeps(c, |c.keys|);
    var d := FirstPass(c).conv;
    forall x | x in Syms(d) ensures x in Syms(c) {
      var k :| k in d.vals && (k.0 == x || k.1 == x);
    }
  }

  // ---------------------------------------------------------------------
  // What the first pass reaches, and when it stays quiet
  // ---------------------------------------------------------------------

  /**
    Nothing the first pass could add: the reverse of every truthy ratio is
    known, and so is (a,c) for every two known ratios (a,b), (b,c) with a != c.
   */
  ghost predicate Closed(c: Conv)
  {
    (forall k :: k in c.vals && Truthy(c.vals[k]) ==> Known(c, (k.1, k.0))) &&
    (forall k, k2 :: (k in c.vals && k2 in c.vals && c.vals[k].Ratio? && c.vals[k2].Ratio? &&
      k.1 == k2.0 && k.0 != k2.1) ==> Known(c, (k.0, k2.1)))
  }

  lemma InvertGrows(p: Pass, k: Pair, r: Value)
    ensures Grows(p.conv, Invert(p, k, r).conv)
  {
    if InvertFires(p.conv, k, r) {
      AssignUnknown(p.conv, (k.1, k.0), 1.0 / r.ratio);
    }
  }

  lemma ComposeGrows(p: Pass, k: Pair, r: real, k2: Pair, r2: Value)
    ensures Grows(p.conv, Compose(p, k, r, k2, r2).conv)
  {
    if ComposeFires(p.conv, k, k2, r2) {
      AssignUnknown(p.conv, (k.0, k2.1), r * r2.ratio);
    }
  }

  lemma {:induction false} ComposeAllGrows(p: Pass, k: Pair, r: real, s: Conv, m: nat, n: nat)
    requires m <= n <= |s.keys|
    ensures Grows(ComposeAll(p, k, r, s, m).conv, ComposeAll(p, k, r, s, n).conv)
  {
    if m < n {
      ComposeAllGrows(p, k, r, s, m, n - 1);
      ComposeGrows(ComposeAll(p, k, r, s, n - 1), k, r, s.keys[n - 1], Get(s, s.keys[n - 1]));
    }
  }

  lemma VisitGrows(p: Pass, k: Pair, r: Value)
    ensures Grows(p.conv, Visit(p, k, r).conv)
  {
    InvertGrows(p, k, r);
    var p1 := Invert(p, k, r);
    if r.Ratio? {
      ComposeAllGrows(p1, k, r.ratio, p1.conv, 0, |p1.conv.keys|);
    }
  }

  lemma {:induction false} VisitAllGrows(p: Pass, s: Conv, m: nat, n: nat)
    requires m <= n <= |s.keys|
    ensures Grows(VisitAll(p, s, m).conv, VisitAll(p, s, n).conv)
  {
    if m < n {
      VisitAllGrows(p, s, m, n - 1);
      VisitGrows(VisitAll(p, s, n - 1), s.keys[n - 1], Get(s, s.keys[n - 1]));
    }
  }

  /** The inner loop makes (a,b2) known for its entry (b,b2) at position l. */
  lemma {:induction false} ComposeAllReaches(p: Pass, k: Pair, r: real, s: Conv, n: nat, l: nat)
    requires l < n <= |s.keys|
    requires Get(s, s.keys[l]).Ratio? && k.1 == s.keys[l].0 && k.0 != s.keys[l].1
    ensures Known(ComposeAll(p, k, r, s, n).conv, (k.0, s.keys[l].1))
  {
    ComposeAllGrows(p, k, r, s, l + 1, n);
    var q := ComposeAll(p, k, r, s, l);
    if !ComposeFires(q.conv, k, s.keys[l], Get(s, s.keys[l])) {
      assert Compose(q, k, r, s.keys[l], Get(s, s.keys[l])) == q;
    }
  }

  /**
    Visiting (a,b) = r with r not None makes (a,c) known for every known
    (b,c) of the starting mapping, with a != c; visiting a truthy (a,b) makes
    (b,a) known.
   */
  lemma VisitReaches(c: Conv, p: Pass, k: Pair)
    requires PassInv(c, Syms(c), p) && Within(c, Syms(c)) && k in c.vals
    ensures Truthy(c.vals[k]) ==> Known(Visit(p, k, c.vals[k]).conv, (k.1, k.0))
    ensures forall l :: (0 <= l < |c.keys| && c.vals[k].Ratio? && Get(c, c.keys[l]).Ratio? &&
      k.1 == c.keys[l].0 && k.0 != c.keys[l].1) ==> Known(Visit(p, k, c.vals[k]).conv, (k.0, c.keys[l].1))
  {
    var r := c.vals[k];
    InvertKeeps(c, Syms(c), p, k);
    var p1 := Invert(p, k, r);
    if r.Ratio? {
      var s := p1.conv;
      ComposeAllGrows(p1, k, r.ratio, s, 0, |s.keys|);
      forall l | 0 <= l < |c.keys| && Get(c, c.keys[l]).Ratio? && k.1 == c.keys[l].0 && k.0 != c.keys[l].1
        ensures Known(Visit(p, k, r).conv, (k.0, c.keys[l].1))
      {
        assert s.keys[l] == c.keys[l];
        assert Known(c, c.keys[l]);
        ComposeAllReaches(p1, k, r.ratio, s, |s.keys|, l);
      }
    }
    if Truthy(r) {
      if !InvertFires(p.conv, k, r) {
        assert Known(p1.conv, (k.1, k.0));
      }
      VisitGrows(p, k, r);
      InvertGrows(p, k, r);
      assert Known(p1.conv, (k.1, k.0));
      if r.Ratio? {
        ComposeAllGrows(p1, k, r.ratio, p1.conv, 0, |p1.conv.keys|);
      }
    }
  }

  /** What visiting the entry at position i contributes to the result of the whole pass. */
  lemma FirstPassReachesAt(c: Conv, i: nat)
    requires Valid(c) && i < |c.keys|
    ensures Truthy(Get(c, c.keys[i])) ==> Known(FirstPass(c).conv, (c.keys[i].1, c.keys[i].0))
    ensures forall l :: (0 <= l < |c.keys| && Get(c, c.keys[i]).Ratio? && Get(c, c.keys[l]).Ratio? &&
      c.keys[i].1 == c.keys[l].0 && c.keys[i].0 != c.keys[l].1) ==> Known(FirstPass(c).conv, (c.keys[i].0, c.keys[l].1))
  {
    WithinSyms(c);
    var start := Pass(c, false);
    var k := c.keys[i];
    var before := VisitAll(start, c, i);
    var after := VisitAll(start, c, i + 1);
    assert after == Visit(before, k, c.vals[k]);
    VisitAllKeeps(c, i);
    VisitReaches(c, before, k);
    VisitAllGrows(start, c, i + 1, |c.keys|);
    assert FirstPass(c) == VisitAll(start, c, |c.keys|);
    forall l | 0 <= l < |c.keys| && Get(c, k).Ratio? && Get(c, c.keys[l]).Ratio? && k.1 == c.keys[l].0 && k.0 != c.keys[l].1
      ensures Known(FirstPass(c).conv, (k.0, c.keys[l].1))
    {
      assert Known(after.conv, (k.0, c.keys[l].1));
    }
  }

  /**
    The first pass closes its snapshot: for every truthy ratio (a,b) of the
    starting mapping the result knows (b,a), and for every two known ratios
    (a,b), (b,c) of it with a != c the result knows (a,c).
   */
  lemma FirstPassReaches(c: Conv)
    requires Valid(c)
    ensures forall k :: k in c.vals && Truthy(c.vals[k]) ==> Known(FirstPass(c).conv, (k.1, k.0))
    ensures forall k, k2 :: (k in c.vals && k2 in c.vals && c.vals[k].Ratio? && c.vals[k2].Ratio? &&
      k.1 == k2.0 && k.0 != k2.1) ==> Known(FirstPass(c).conv, (k.0, k2.1))
  {
    forall k, k2 | k in c.vals && k2 in c.vals && c.vals[k].Ratio? && c.vals[k2].Ratio? && k.1 == k2.0 && k.0 != k2.1
      ensures Known(FirstPass(c).conv, (k.0, k2.1))
    {
      var i :| 0 <= i < |c.keys| && c.keys[i] == k;
      var l :| 0 <= l < |c.keys| && c.keys[l] == k2;
      FirstPassReachesAt(c, i);
    }
    forall k | k in c.vals && Truthy(c.vals[k]) ensures Known(FirstPass(c).conv, (k.1, k.0)) {
      var i :| 0 <= i < |c.keys| && c.keys[i] == k;
      FirstPassReachesAt(c, i);
    }
  }

  /** A quiet inner loop started quiet, left the pass as it was and none of its guards fired. */
  lemma {:induction false} QuietComposeAll(p: Pass, k: Pair, r: real, s: Conv, n: nat)
    requires n <= |s.keys| && !ComposeAll(p, k, r, s, n).updated
    ensures ComposeAll(p, k, r, s, n) == p && !p.updated
    ensures forall l :: 0 <= l < n ==> !ComposeFires(p.conv, k, s.keys[l], Get(s, s.keys[l]))
  {
    if n > 0 {
      var q := ComposeAll(p, k, r, s, n - 1);
      assert !q.updated && !ComposeFires(q.conv, k, s.keys[n - 1], Get(s, s.keys[n - 1]));
      QuietComposeAll(p, k, r, s, n - 1);
    }
  }

  /** A quiet outer loop left the pass as it was and none of its guards fired. */
  lemma {:induction false} QuietVisitAll(c: Conv, n: nat)
    requires n <= |c.keys| && !VisitAll(Pass(c, false), c, n).updated
    ensures VisitAll(Pass(c, false), c, n) == Pass(c, false)
    ensures forall i :: 0 <= i < n ==> !InvertFires(c, c.keys[i], Get(c, c.keys[i]))
    ensures forall i, l :: (0 <= i < n && 0 <= l < |c.keys| && Get(c, c.keys[i]).Ratio?) ==>
      !ComposeFires(c, c.keys[i], c.keys[l], Get(c, c.keys[l]))
  {
    if n > 0 {
      var q := VisitAll(Pass(c, false), c, n - 1);
      var k := c.keys[n - 1];
      var r := Get(c, k);
      var q1 := Invert(q, k, r);
      if r.Ratio? {
        QuietComposeAll(q1, k, r.ratio, q1.conv, |q1.conv.keys|);
      }
      assert !q1.updated;
      QuietVisitAll(c, n - 1);
      assert q1 == q;
    }
  }

  lemma {:induction false} ClosedComposeAll(c: Conv, k: Pair, r: real, n: nat)
    requires Closed(c) && Get(c, k) == Ratio(r) && n <= |c.keys|
    ensures ComposeAll(Pass(c, false), k, r, c, n) == Pass(c, false)
  {
    if n > 0 {
      ClosedComposeAll(c, k, r, n - 1);
      var k2 := c.keys[n - 1];
      assert k in c.vals;
      assert Get(c, k2).Ratio? ==> k2 in c.vals;
      assert !ComposeFires(c, k, k2, Get(c, k2));
    }
  }

  lemma {:induction false} ClosedVisitAll(c: Conv, n: nat)
    requires Closed(c) && n <= |c.keys|
    ensures VisitAll(Pass(c, false), c, n) == Pass(c, false)
  {
    if n > 0 {
      ClosedVisitAll(c, n - 1);
      var k := c.keys[n - 1];
      assert Get(c, k).Ratio? ==> k in c.vals;
      assert !InvertFires(c, k, Get(c, k));
      if Get(c, k).Ratio? {
        ClosedComposeAll(c, k, Get(c, k).ratio, |c.keys|);
      }
    }
  }

  /**
    Lines 147-163 report no update exactly when the mapping is already closed
    under inversion of truthy ratios and single-hop composition.
   */
  lemma FirstPassQuietIffClosed(c: Conv)
    requires Valid(c)
    ensures !FirstPass(c).updated <==> Closed(c)
  {
    if Closed(c) {
      ClosedVisitAll(c, |c.keys|);
    }
    if !FirstPass(c).updated {
      QuietVisitAll(c, |c.keys|);
      forall k | k in c.vals && Truthy(c.vals[k]) ensures Known(c, (k.1, k.0)) {
        var i :| 0 <= i < |c.keys| && c.keys[i] == k;
        assert !InvertFires(c, c.keys[i], Get(c, c.keys[i]));
      }
      forall k, k2 | k in c.vals && k2 in c.vals && c.vals[k].Ratio? && c.vals[k2].Ratio? && k.1 == k2.0 && k.0 != k2.1
        ensures Known(c, (k.0, k2.1))
      {
        var i :| 0 <= i < |c.keys| && c.keys[i] == k;
        var l :| 0 <= l < |c.keys| && c.keys[l] == k2;
        assert !ComposeFires(c, c.keys[i], c.keys[l], Get(c, c.keys[l]));
      }
    }
  }
}
