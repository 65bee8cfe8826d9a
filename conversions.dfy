/**
  The conversions dict of slip39/invoice/artifact.py as the mutable object it
  is: `conversions_remaining` and `Invoice.__init__` update it in place. Each
  method here is proved against the value-level specification of modules
  Ratios and Remaining.
 */
module Resolver {
  import opened Options
  import opened Strings
  import opened Ratios
  import opened Remaining
  import opened Candidacy

  /** A price the oracle `tokenprices(c)` reports: `ratio` units of `two` per unit of `one`. */
  datatype Quote = Quote(one: Symbol, two: Symbol, ratio: real)

  /** Why resolving the conversions raised. */
  datatype ResolveError =
    | Unresolved(remains: seq<string>)  // line 402: no candidate got a new price
    | PivotFault(fault: Fault)          // an exception from lines 176-179

  /**
    Lines 393-399's guard for the candidate `s`: the oracle quotes it, and
    (s, two) or (one, two) is still unknown.
   */
  predicate Wanted(c: Conv, oracle: map<Symbol, Quote>, s: Symbol)
  {
    s in oracle && (!Known(c, (s, oracle[s].two)) || !Known(c, (oracle[s].one, oracle[s].two)))
  }

  /** The symbols of pairs still None. */
  function UnsetSyms(c: Conv): set<Symbol>
  {
    set k, s | k in c.vals && c.vals[k].Unset? && s in Members(k) :: s
  }

  /** The candidates whose price the oracle could still usefully supply. */
  function Pending(c: Conv, oracle: map<Symbol, Quote>): set<Symbol>
  {
    set s | s in UnsetSyms(c) && s != "ETH" && Wanted(c, oracle, s)
  }

  /**
    A candidate that was stored no longer counts as pending, and nothing
    becomes pending while ratios are only learned.
   */
  lemma PendingShrinks(c: Conv, d: Conv, oracle: map<Symbol, Quote>, s: Symbol)
    requires UnsetShrinks(c, d) && (forall k :: Known(c, k) ==> Known(d, k))
    requires s in Pending(c, oracle) && !Wanted(d, oracle, s)
    ensures |Pending(d, oracle)| < |Pending(c, oracle)|
  {
    var before := Pending(c, oracle) - {s};
    forall t | t in Pending(d, oracle) ensures t in before {
      var k :| k in d.vals && d.vals[k].Unset? && t in Members(k);
      assert t in UnsetSyms(c);
    }
    assert Pending(d, oracle) <= before;
    assert before == Pending(d, oracle) + (before - Pending(d, oracle));
  }

  /**
    Lines 397-399: the quote for candidate `s` is stored for (s, two) and,
    when the quoted token `one` is not `s` itself (a proxy such as WBTC for
    BTC), for (one, two) as well.
   */
  function StoreQuote(c: Conv, s: Symbol, q: Quote): (d: Conv)
    ensures Get(d, (s, q.two)) == Ratio(q.ratio) && Get(d, (q.one, q.two)) == Ratio(q.ratio)
    ensures forall k :: k != (s, q.two) && k != (q.one, q.two) ==> Get(d, k) == Get(c, k)
    ensures c.keys <= d.keys && d.vals.Keys == c.vals.Keys + {(s, q.two), (q.one, q.two)}
  {
    var d := Assign(c, (s, q.two), Ratio(q.ratio));
    if s != q.one then Assign(d, (q.one, q.two), Ratio(q.ratio)) else d
  }

  /**
    Storing a quote keeps the dict well formed, forgets no known pair, adds
    no None, and leaves the candidate no longer wanted.
   */
  lemma StoreQuoteKeeps(c: Conv, oracle: map<Symbol, Quote>, s: Symbol)
    requires Ratios.Valid(c) && s in oracle
    ensures var d := StoreQuote(c, s, oracle[s]);
      Ratios.Valid(d) && c.keys <= d.keys && UnsetShrinks(c, d) &&
      (forall k :: Known(c, k) ==> Known(d, k)) && !Wanted(d, oracle, s)
  {
    var q := oracle[s];
    var d := Assign(c, (s, q.two), Ratio(q.ratio));
    AssignValid(c, (s, q.two), Ratio(q.ratio));
    AssignRatio(c, (s, q.two), q.ratio);
    if s != q.one {
      var e := Assign(d, (q.one, q.two), Ratio(q.ratio));
      AssignValid(d, (q.one, q.two), Ratio(q.ratio));
      AssignRatio(d, (q.one, q.two), q.ratio);
      UnsetShrinksTransitive(c, d, e);
    }
  }

  /**
    A round that priced the wanted candidate `s` and then only learned
    ratios leaves fewer candidates pending: the loop at line 380 terminates.
   */
  lemma QuoteProgress(c: Conv, d: Conv, oracle: map<Symbol, Quote>, s: Symbol)
    requires Ratios.Valid(c) && s in Candidates(c, |c.keys|) && Wanted(c, oracle, s)
    requires Grows(StoreQuote(c, s, oracle[s]), d) && UnsetShrinks(StoreQuote(c, s, oracle[s]), d)
    ensures |Pending(d, oracle)| < |Pending(c, oracle)|
  {
    var stored := StoreQuote(c, s, oracle[s]);
    CandidatesMembers(c, |c.keys|);
    StoreQuoteKeeps(c, oracle, s);
    assert s in Pending(c, oracle);
    forall k | Known(c, k) ensures Known(d, k) {
      assert Known(stored, k);
    }
    assert Known(stored, (s, oracle[s].two)) && Known(stored, (oracle[s].one, oracle[s].two));
    UnsetShrinksTransitive(c, stored, d);
    PendingShrinks(c, d, oracle, s);
  }

  /** `conversions.setdefault(k, None)`: an absent key is added as None, a present one is kept. */
  function SetDefault(c: Conv, k: Pair): Conv
  {
    if k in c.vals then c else Assign(c, k, Unset)
  }

  /** Lines 358-359 for one line symbol: seed (ls, x) for every invoice currency x other than ls. */
  function SeedRow(c: Conv, ls: Symbol, cs: seq<Symbol>): Conv
    decreases |cs|
  {
    if cs == [] then c
    else
      var d := SeedRow(c, ls, cs[..|cs| - 1]);
      var x := cs[|cs| - 1];
      if ls != x then SetDefault(d, (ls, x)) else d
  }

  /** Lines 356-359: seed every line symbol against every invoice currency. */
  function Seeded(c: Conv, lss: seq<Symbol>, cs: seq<Symbol>): Conv
    decreases |lss|
  {
    if lss == [] then c else SeedRow(Seeded(c, lss[..|lss| - 1], cs), lss[|lss| - 1], cs)
  }

  /** The pairs the seeding wants: line symbol to a different invoice currency. */
  function WantedPairs(lss: seq<Symbol>, cs: seq<Symbol>): set<Pair>
  {
    set ls, x | ls in lss && x in cs && ls != x :: (ls, x)
  }

  /** The pairs seeded for one line symbol. */
  function RowPairs(ls: Symbol, cs: seq<Symbol>): set<Pair>
  {
    set x | x in cs && ls != x :: (ls, x)
  }

  lemma RowPairsSnoc(ls: Symbol, cs: seq<Symbol>, x: Symbol)
    ensures RowPairs(ls, cs + [x]) == RowPairs(ls, cs) + (if ls != x then {(ls, x)} else {})
  {
    var s := cs + [x];
    forall y | y in s ensures y in cs || y == x {
      var i :| 0 <= i < |s| && s[i] == y;
      if i < |cs| { assert cs[i] == y; }
    }
  }

  /** Seeding one key keeps the dict well formed and changes no value that `get` reads. */
  lemma SetDefaultKeeps(c: Conv, k: Pair)
    requires Ratios.Valid(c)
    ensures var d := SetDefault(c, k);
      Ratios.Valid(d) && c.keys <= d.keys && d.vals.Keys == c.vals.Keys + {k} &&
      forall t :: Get(d, t) == Get(c, t)
  {
    if k !in c.vals {
      AssignValid(c, k, Unset);
    }
  }

  lemma {:induction false} SeedRowKeeps(c: Conv, ls: Symbol, cs: seq<Symbol>)
    requires Ratios.Valid(c)
    ensures var d := SeedRow(c, ls, cs);
      Ratios.Valid(d) && c.keys <= d.keys &&
      d.vals.Keys == c.vals.Keys + RowPairs(ls, cs) &&
      forall t :: Get(d, t) == Get(c, t)
    decreases |cs|
  {
    if cs != [] {
      var init := cs[..|cs| - 1];
      var x := cs[|cs| - 1];
      SeedRowKeeps(c, ls, init);
      var d := SeedRow(c, ls, init);
      assert cs == init + [x];
      RowPairsSnoc(ls, init, x);
      if ls != x {
        SetDefaultKeeps(d, (ls, x));
        assert SeedRow(c, ls, cs) == SetDefault(d, (ls, x));
      } else {
        assert SeedRow(c, ls, cs) == d;
      }
    }
  }

  /**
    Seeding keeps the dict well formed, only appends keys, leaves every
    value as `get` reads it (old ratios are kept, new keys read as None),
    and afterwards every wanted pair is a key.
   */
  lemma {:induction false} SeededKeeps(c: Conv, lss: seq<Symbol>, cs: seq<Symbol>)
    requires Ratios.Valid(c)
    ensures var d := Seeded(c, lss, cs);
      Ratios.Valid(d) && c.keys <= d.keys &&
      d.vals.Keys == c.vals.Keys + WantedPairs(lss, cs) &&
      forall t :: Get(d, t) == Get(c, t)
    decreases |lss|
  {
    if lss != [] {
      var init := lss[..|lss| - 1];
      var ls := lss[|lss| - 1];
      SeededKeeps(c, init, cs);
      SeedRowKeeps(Seeded(c, init, cs), ls, cs);
      assert lss == init + [ls];
      assert WantedPairs(lss, cs) == WantedPairs(init, cs) + RowPairs(ls, cs);
    }
  }

  /** The conversions dict, its keys in insertion order. */
  class Conversions {
    var keys: seq<Pair>
    var vals: map<Pair, Value>

    /** The dict as a value. */
    function Model(): Conv
      reads this
    {
      Conv(keys, vals)
    }

    ghost predicate Valid()
      reads this
    {
      Ratios.Valid(Model())
    }

    /** A dict with the given entries, as a caller passes it in. */
    constructor (c: Conv)
      requires Ratios.Valid(c)
      ensures Model() == c && Valid()
    {
      keys := c.keys;
      vals := c.vals;
    }

    /** `conversions[k] = v`. */
    method Store(k: Pair, v: Value)
      modifies this
      ensures Model() == Assign(old(Model()), k, v)
    {
      if k !in vals {
        keys := keys + [k];
      }
      vals := vals[k := v];
    }

    /** Lines 356-359: `setdefault((ls, c), None)` for each line symbol and each other invoice currency. */
    method Seed(lss: seq<Symbol>, cs: seq<Symbol>)
      modifies this
      ensures Model() == Seeded(old(Model()), lss, cs)
    {
      ghost var c := Model();
      var i := 0;
      while i < |lss|
        invariant 0 <= i <= |lss| && Model() == Seeded(c, lss[..i], cs)
      {
        ghost var before := Model();
        var j := 0;
        while j < |cs|
          invariant 0 <= j <= |cs| && Model() == SeedRow(before, lss[i], cs[..j])
        {
          if lss[i] != cs[j] && (lss[i], cs[j]) !in vals {
            Store((lss[i], cs[j]), Unset);
          }
          assert cs[..j + 1][..j] == cs[..j];
          j := j + 1;
        }
        assert cs[..j] == cs;
        assert lss[..i + 1][..i] == lss[..i];
        i := i + 1;
      }
      assert lss[..i] == lss;
    }

    /** Lines 148-151 for the outer entry (a,b) = r: a truthy r fills an unknown (b,a) with 1/r. */
    method InvertFrom(k: Pair, r: Value, updated0: bool) returns (updated: bool)
      modifies this
      ensures Pass(Model(), updated) == Invert(Pass(old(Model()), updated0), k, r)
    {
      updated := updated0;
      if Truthy(r) && !Known(Model(), (k.1, k.0)) {
        Store((k.1, k.0), Ratio(1.0 / r.ratio));
        updated := true;
      }
    }

    /**
      Lines 154-161: the inner loop for the outer entry (a,b) = r, over a
      snapshot of the dict taken when it starts.
     */
    method ComposeFrom(k: Pair, r: real, updated0: bool) returns (updated: bool)
      modifies this
      ensures Pass(Model(), updated) == ComposeAll(Pass(old(Model()), updated0), k, r, old(Model()), |old(keys)|)
    {
      ghost var p1 := Pass(Model(), updated0);
      var inner, innerVals := keys, vals;
      updated := updated0;
      var j := 0;
      while j < |inner|
        invariant 0 <= j <= |inner| && Conv(inner, innerVals) == p1.conv
        invariant Pass(Model(), updated) == ComposeAll(p1, k, r, p1.conv, j)
      {
        var k2 := inner[j];
        var r2 := Get(Conv(inner, innerVals), k2);
        ghost var q := Pass(Model(), updated);
        if r2.Ratio? && k.1 == k2.0 && k.0 != k2.1 && !Known(Model(), (k.0, k2.1)) {
          assert ComposeFires(q.conv, k, k2, r2);
          ComposeStep(q, k, r, k2, r2);
          Store((k.0, k2.1), Ratio(r * r2.ratio));
          updated := true;
          assert Model() == Assign(q.conv, (k.0, k2.1), Ratio(r * r2.ratio));
        } else {
          assert !ComposeFires(q.conv, k, k2, r2);
        }
        j := j + 1;
      }
    }

    /**
      Lines 145-161: the first pass, in place. The outer loop walks the
      snapshot taken on entry; the inner loop walks a snapshot taken afresh
      for each outer entry.
     */
    method FirstPass() returns (updated: bool)
      requires Valid()
      modifies this
      ensures Pass(Model(), updated) == Ratios.FirstPass(old(Model()))
      ensures Valid() && old(keys) <= keys
    {
      ghost var c := Model();
      var snap, snapVals := keys, vals;
      updated := false;
      var i := 0;
      while i < |snap|
        invariant 0 <= i <= |snap| && snap == c.keys && snapVals == c.vals
        invariant Pass(Model(), updated) == VisitAll(Pass(c, false), c, i)
      {
        var k := snap[i];
        var r := snapVals[k];
        ghost var before := Pass(Model(), updated);
        updated := InvertFrom(k, r, updated);
        if r.Ratio? {
          updated := ComposeFrom(k, r.ratio, updated);
        }
        assert Pass(Model(), updated) == Visit(before, k, r);
        i := i + 1;
      }
      FirstPassPreserves(c);
    }

    /** Line 171's loop for the wanted pair k and the candidate c2: the first c3, by position. */
    method FindC3(k: Pair, c2: Pair) returns (r: Option<nat>)
      ensures r == Remaining.FindC3(Model(), k, c2, 0)
    {
      ghost var c := Model();
      var l := 0;
      while l < |keys|
        invariant 0 <= l <= |keys| && Model() == c
        invariant Remaining.FindC3(c, k, c2, 0) == Remaining.FindC3(c, k, c2, l)
      {
        if Truthy(Get(Model(), c2)) && k.0 in Members(c2) && c2 != keys[l] &&
          Truthy(Get(Model(), keys[l])) && k.1 in Members(keys[l]) && Members(c2) * Members(keys[l]) != {}
        {
          return Some(l);
        }
        l := l + 1;
      }
      return None;
    }

    /** Line 169's loop for the wanted pair k: the first c2 that has a c3. */
    method FindC2(k: Pair) returns (r: Option<(nat, nat)>)
      ensures r == Remaining.FindC2(Model(), k, 0)
    {
      ghost var c := Model();
      var j := 0;
      while j < |keys|
        invariant 0 <= j <= |keys| && Model() == c
        invariant Remaining.FindC2(c, k, 0) == Remaining.FindC2(c, k, j)
      {
        var c2 := keys[j];
        if Truthy(Get(Model(), c2)) && k.0 in Members(c2) {
          var l := FindC3(k, c2);
          if l.Some? {
            return Some((j, l.value));
          }
        }
        j := j + 1;
      }
      return None;
    }

    /**
      Lines 166-172: the first wanted pair, in key order, with a pivot c2 and
      c3, and their positions.
     */
    method FindPivot() returns (pv: Option<Pivot>)
      ensures pv == Remaining.FindPivot(Model(), 0)
    {
      ghost var c := Model();
      var i := 0;
      while i < |keys|
        invariant 0 <= i <= |keys| && Model() == c
        invariant Remaining.FindPivot(c, 0) == Remaining.FindPivot(c, i)
      {
        var k := keys[i];
        var found := None;
        if Get(Model(), k).Unset? {
          found := FindC2(k);
        }
        if found.Some? {
          return Some(Pivot(i, found.value.0, found.value.1));
        }
        i := i + 1;
      }
      return None;
    }

    /**
      Lines 176-180, in place: store (a,b) as the product of (a,x) and (b,x)
      and then (b,a) as its inverse, or raise.
     */
    method ApplyPivot(k: Pair, c2: Pair, c3: Pair) returns (fault: Option<Fault>)
      requires Valid()
      modifies this
      ensures (Model(), fault) == Remaining.ApplyPivot(old(Model()), k, c2, c3)
      ensures Valid() && old(keys) <= keys
    {
      ghost var c := Model();
      var xs := Members(c2) * Members(c3);
      if xs != {c2.0} && xs != {c2.1} {
        return Some(Unpack);
      }
      var x := if xs == {c2.0} then c2.0 else c2.1;
      if (k.0, x) !in vals || (k.1, x) !in vals {
        return Some(MissingKey);
      }
      if vals[(k.0, x)].Unset? || vals[(k.1, x)].Unset? {
        return Some(NoneOperand);
      }
      var product := PivotProduct(Model(), k, x);
      AssignValid(c, k, Ratio(product));
      Store(k, Ratio(product));
      if product == 0.0 {
        return Some(ZeroDivision);
      }
      AssignValid(Model(), (k.1, k.0), Ratio(1.0 / product));
      Store((k.1, k.0), Ratio(1.0 / product));
      return None;
    }

    /**
      One call of `conversions_remaining(conversions, verify)`, in place:
      the first pass, the pivot branch, and the report.
     */
    method Deduce(verify: bool) returns (o: Outcome)
      requires Valid()
      modifies this
      ensures (Model(), o) == Remaining.Remaining(old(Model()), verify)
      ensures Valid() && old(keys) <= keys
    {
      ghost var c := Model();
      FirstPassPreserves(c);
      var updated := FirstPass();
      if updated {
        return Updated;
      }
      assert Model() == c;
      var pv := FindPivot();
      match pv
      case Some(p) =>
        var fault := ApplyPivot(keys[p.i], keys[p.j], keys[p.l]);
        if fault.None? {
          return Updated;
        }
        return Faulted(fault.value);
      case None =>
        var remains := Sort(UnsetLabels(Model(), |keys|));
        if remains == [] {
          return Done;
        }
        var via := Sort(ViaLabels(Model(), |keys|));
        if verify {
          return Failed(remains, via);
        }
        return Stuck(remains, via);
    }

    /**
      Lines 374 and 403: call `conversions_remaining(conversions)` while it
      returns True. The loop ends; on Done the dict is closed and every
      pair known.
     */
    method DeduceAll() returns (o: Outcome)
      requires Valid()
      modifies this
      ensures Valid() && old(keys) <= keys
      ensures o.Done? || o.Stuck? || o.Faulted?
      ensures Grows(old(Model()), Model()) && UnsetShrinks(old(Model()), Model())
      ensures o.Done? ==> Closed(Model()) && forall k :: k in vals ==> Known(Model(), k)
      ensures o.Faulted? ==> exists a :: (a, a) in vals && vals[(a, a)].Unset?
      ensures o.Stuck? ==> (Closed(Model()) && Remaining.FindPivot(Model(), 0).None? &&
        o.remains == Sort(UnsetLabels(Model(), |keys|)) && o.remains != [] &&
        o.via == Sort(ViaLabels(Model(), |keys|)))
    {
      ghost var c0 := Model();
      while true
        invariant Valid() && Grows(c0, Model()) && UnsetShrinks(c0, Model()) && c0.keys <= keys
        decreases |Unknowns(Model())|
      {
        ghost var before := Model();
        o := Deduce(false);
        if !o.Updated? {
          assert !o.Failed? && (o.Stuck? ==> (!Ratios.FirstPass(before).updated && Remaining.FindPivot(before, 0).None? &&
            o.remains == Sort(UnsetLabels(before, |before.keys|)) && o.remains != [] &&
            o.via == Sort(ViaLabels(before, |before.keys|)))) by {
            RemainingStuck(before, false);
          }
          assert Model() == before by {
            RemainingUpdated(before, false);
          }
          if o.Faulted? {
            RemainingFaults(before, false);
          }
          if o.Stuck? {
            FirstPassQuietIffClosed(before);
          }
          if o.Done? {
            assert Closed(Model()) && forall k :: k in vals ==> Known(Model(), k) by {
              DoneIsFixpoint(before, false, false);
            }
          }
          return;
        }
        assert Valid() && Grows(before, Model()) && UnsetShrinks(before, Model()) && before.keys <= keys &&
          |Unknowns(Model())| < |Unknowns(before)| by {
          RemainingProgress(before, false);
        }
        GrowsTransitive(c0, before, Model());
      }
    }

    /**
      Lines 390-401: walk the candidates in order, skip those the oracle
      cannot price, and store the quote of the first one that still has an
      unknown pair. Returns its position, or |cands| when none was priced.
     */
    method PriceFirst(oracle: map<Symbol, Quote>, cands: seq<Symbol>) returns (n: nat)
      requires Valid()
      modifies this
      ensures n <= |cands| && forall m :: 0 <= m < n ==> !Wanted(old(Model()), oracle, cands[m])
      ensures n == |cands| ==> Model() == old(Model()) && forall s :: s in cands ==> !Wanted(Model(), oracle, s)
      ensures n < |cands| ==> (Wanted(old(Model()), oracle, cands[n]) &&
        Model() == StoreQuote(old(Model()), cands[n], oracle[cands[n]]))
      ensures Valid() && old(keys) <= keys
    {
      ghost var c := Model();
      n := 0;
      while n < |cands|
        invariant n <= |cands| && Model() == c
        invariant forall m :: 0 <= m < n ==> !Wanted(c, oracle, cands[m])
      {
        var s := cands[n];
        if s in oracle {
          var q := oracle[s];
          if !Known(Model(), (s, q.two)) || !Known(Model(), (q.one, q.two)) {
            StoreQuoteKeeps(c, oracle, s);
            Store((s, q.two), Ratio(q.ratio));
            if s != q.one {
              Store((q.one, q.two), Ratio(q.ratio));
            }
            return;
          }
        }
        n := n + 1;
      }
      forall s | s in cands ensures !Wanted(c, oracle, s) {
        var m :| 0 <= m < |cands| && cands[m] == s;
      }
    }

    /**
      One round of lines 384-403: price the first candidate that still has
      an unknown pair, then deduce again. Without a priced candidate the
      dict is left as it was.
     */
    method Attempt(oracle: map<Symbol, Quote>) returns (priced: bool, o: Outcome)
      requires Valid()
      modifies this
      ensures Valid() && old(keys) <= keys
      ensures !priced ==> (Model() == old(Model()) &&
        forall s :: s in Candidates(Model(), |keys|) ==> !Wanted(Model(), oracle, s))
      ensures priced ==> o.Done? || o.Stuck? || o.Faulted?
      ensures priced && o.Done? ==> Closed(Model()) && forall k :: k in vals ==> Known(Model(), k)
      ensures priced && o.Stuck? ==> o.remains == Sort(UnsetLabels(Model(), |keys|)) && o.remains != []
      ensures priced && o.Faulted? ==> exists a :: (a, a) in vals && vals[(a, a)].Unset?
      ensures priced ==> |Pending(Model(), oracle)| < |Pending(old(Model()), oracle)|
    {
      ghost var before := Model();
      var cands := Candidates(Model(), |keys|);
      var n := PriceFirst(oracle, cands);
      if n == |cands| {
        return false, Done;
      }
      priced := true;
      o := DeduceAll();
      QuoteProgress(before, Model(), oracle, cands[n]);
    }

    /**
      Lines 374-405: deduce what can be deduced; while pairs stay unknown,
      ask the oracle for the first candidate it can price and that still
      has an unknown pair, store the quote, and deduce again. The oracle is
      a map: a symbol it lacks is a `tokenprices` call that raised.
     */
    method Resolve(oracle: map<Symbol, Quote>) returns (r: Result<(), ResolveError>)
      requires Valid()
      modifies this
      ensures Valid() && old(Model()).keys <= keys
      ensures r.Ok? ==> Closed(Model()) && forall k :: k in vals ==> Known(Model(), k)
      ensures r.Err? && r.error.Unresolved? ==>
        r.error.remains == Sort(UnsetLabels(Model(), |keys|)) && r.error.remains != [] &&
        forall s :: s in Candidates(Model(), |keys|) ==> !Wanted(Model(), oracle, s)
      ensures r.Err? && r.error.PivotFault? ==> exists a :: (a, a) in vals && vals[(a, a)].Unset?
    {
      var o := DeduceAll();
      while o.Stuck?
        invariant Valid() && old(Model()).keys <= keys
        invariant o.Done? || o.Stuck? || o.Faulted?
        invariant o.Stuck? ==> o.remains == Sort(UnsetLabels(Model(), |keys|)) && o.remains != []
        invariant o.Faulted? ==> exists a :: (a, a) in vals && vals[(a, a)].Unset?
        invariant o.Done? ==> Closed(Model()) && forall k :: k in vals ==> Known(Model(), k)
        decreases |Pending(Model(), oracle)|
      {
        var priced, next := Attempt(oracle);
        if !priced {
          return Err(Unresolved(o.remains));
        }
        o := next;
        if o.Faulted? {
          return Err(PivotFault(o.fault));
        }
      }
      if o.Faulted? {
        return Err(PivotFault(o.fault));
      }
      return Ok(());
    }
  }
}
