/**
  Choosing the columns of the invoice tables (`Invoice.tables`,
  slip39/invoice/artifact.py lines 551-572): column names compare in a
  canonical form, and by default every column whose header starts with an
  underscore is hidden.
 */
module Columns {
  import opened Options

  /** `str.strip('_')`, its first half: drop leading underscores. */
  function StripLeading(s: string): (r: string)
    ensures |r| <= |s| && r == s[|s| - |r|..]
    ensures r == [] || r[0] != '_'
    ensures forall i :: 0 <= i < |s| - |r| ==> s[i] == '_'
    decreases |s|
  {
    if s != [] && s[0] == '_' then StripLeading(s[1..]) else s
  }

  /** The second half: drop trailing underscores. */
  function StripTrailing(s: string): (r: string)
    ensures |r| <= |s| && r == s[..|r|]
    ensures r == [] || r[|r| - 1] != '_'
    ensures forall i :: |r| <= i < |s| ==> s[i] == '_'
    decreases |s|
  {
    if s != [] && s[|s| - 1] == '_' then StripTrailing(s[..|s| - 1]) else s
  }

  /** `str.lower()` on one character; letters outside A-Z are left as they are. */
  function LowerChar(ch: char): char
  {
    if 'A' <= ch <= 'Z' then (ch as int - 'A' as int + 'a' as int) as char else ch
  }

  function Lower(s: string): (r: string)
    ensures |r| == |s| && forall i :: 0 <= i < |s| ==> r[i] == LowerChar(s[i])
  {
    seq(|s|, i requires 0 <= i < |s| => LowerChar(s[i]))
  }

  /** `can(c)` at line 554: strip underscores at both ends, then lower-case. */
  function Canon(s: string): string
  {
    Lower(StripTrailing(StripLeading(s)))
  }

  lemma StripLeadingFixed(s: string)
    requires s == [] || s[0] != '_'
    ensures StripLeading(s) == s
  {
  }

  lemma StripTrailingFixed(s: string)
    requires s == [] || s[|s| - 1] != '_'
    ensures StripTrailing(s) == s
  {
  }

  lemma LowerIdempotent(s: string)
    ensures Lower(Lower(s)) == Lower(s)
  {
  }

  /** The canonical form ignores an underscore added in front. */
  lemma CanonIgnoresLeading(s: string)
    ensures Canon("_" + s) == Canon(s)
  {
    assert ("_" + s)[1..] == s;
  }

  /** The canonical form ignores an underscore added at the end. */
  lemma CanonIgnoresTrailing(s: string)
    ensures Canon(s + "_") == Canon(s)
  {
    StripLeadingSnoc(s);
    var t := StripLeading(s);
    if t != [] {
      assert (t + "_")[..|t|] == t;
      assert StripTrailing(t + "_") == StripTrailing(t);
    }
  }

  /** An underscore at the end survives stripping the front unless nothing else does. */
  lemma {:induction false} StripLeadingSnoc(s: string)
    ensures StripLeading(s + "_") == if StripLeading(s) == [] then [] else StripLeading(s) + "_"
    decreases |s|
  {
    if s != [] {
      assert (s + "_")[1..] == s[1..] + "_";
      if s[0] == '_' {
        StripLeadingSnoc(s[1..]);
      }
    }
  }

  /** Canonicalising twice changes nothing, so canonical names can be compared again. */
  lemma CanonIdempotent(s: string)
    ensures Canon(Canon(s)) == Canon(s)
  {
    var t := StripTrailing(StripLeading(s));
    var l := Lower(t);
    assert l == [] || (l[0] != '_' && l[|l| - 1] != '_');
    StripLeadingFixed(l);
    StripTrailingFixed(l);
    LowerIdempotent(t);
  }

  /**
    The indices, in increasing order, of the names `keep` accepts: the
    source's `tuple(i for i, h in enumerate(headers) if ...)`.
   */
  function Where(hs: seq<string>, keep: string -> bool): (r: seq<nat>)
    ensures forall i :: i in r ==> i < |hs|
    ensures forall i :: 0 <= i < |hs| ==> (i in r <==> keep(hs[i]))
    ensures forall a, b :: 0 <= a < b < |r| ==> r[a] < r[b]
    decreases |hs|
  {
    if hs == [] then []
    else
      var n := |hs| - 1;
      var init := Where(hs[..n], keep);
      assert |hs[..n]| == n && forall i :: 0 <= i < n ==> hs[..n][i] == hs[i];
      forall a | 0 <= a < |init| ensures init[a] < n {
        assert init[a] in init;
      }
      init + (if keep(hs[n]) then [n] else [])
  }

  /** `list.index(x)`: the first position holding `x`, or the ValueError it raises. */
  function IndexOf(s: seq<string>, x: string): (r: Option<nat>)
    ensures r.Some? ==> r.value < |s| && s[r.value] == x && forall j :: 0 <= j < r.value ==> s[j] != x
    ensures r.None? <==> x !in s
    decreases |s|
  {
    if s == [] then None
    else if s[0] == x then Some(0)
    else
      var t := IndexOf(s[1..], x);
      if t.Some? then Some(t.value + 1) else None
  }

  /**
    The `columns` argument: absent, a list of names (selected in its
    order), a container of names (membership, header order), or a
    predicate on the raw header.
   */
  datatype Columns = Unspecified | Listed(names: seq<string>) | Container(names: seq<string>) | Predicate(keep: string -> bool)

  datatype ColumnError = NotFound(missing: seq<string>) | NoneMatched

  function CanonAll(s: seq<string>): (r: seq<string>)
    ensures |r| == |s| && forall i :: 0 <= i < |s| ==> r[i] == Canon(s[i])
  {
    seq(|s|, i requires 0 <= i < |s| => Canon(s[i]))
  }

  /** The test of line 560's message: a canonical name that no canonical header matches. */
  function Absent(can: seq<string>): string -> bool
  {
    w => w !in can
  }

  /**
    The names whose canonical form (`wanted`, position by position) is not
    in `can`, for line 560's message: every such name and no other.
   */
  function Missing(names: seq<string>, wanted: seq<string>, can: seq<string>): (r: seq<string>)
    requires |wanted| == |names|
    ensures r == [] <==> forall j :: 0 <= j < |names| ==> wanted[j] in can
    ensures forall j :: 0 <= j < |names| && wanted[j] !in can ==> names[j] in r
    ensures forall n :: n in r ==> exists j :: 0 <= j < |names| && names[j] == n && wanted[j] !in can
    decreases |names|
  {
    if names == [] then []
    else
      var n := |names| - 1;
      var init := Missing(names[..n], wanted[..n], can);
      assert forall j :: 0 <= j < n ==> wanted[..n][j] == wanted[j] && names[..n][j] == names[j];
      init + (if wanted[n] in can then [] else [names[n]])
  }

  /** Position by position, `r` holds the names at the positions `at`. */
  predicate NamesAt(names: seq<string>, r: seq<string>, at: seq<nat>)
  {
    |r| == |at| && forall t :: 0 <= t < |r| ==> at[t] < |names| && r[t] == names[at[t]]
  }

  lemma NamesAtConcat(names: seq<string>, r: seq<string>, at: seq<nat>, r2: seq<string>, at2: seq<nat>)
    requires NamesAt(names, r, at) && NamesAt(names, r2, at2)
    ensures NamesAt(names, r + r2, at + at2)
  {
    forall t | 0 <= t < |r + r2| ensures (at + at2)[t] < |names| && (r + r2)[t] == names[(at + at2)[t]] {
      if t < |r| {
        assert (r + r2)[t] == r[t] && (at + at2)[t] == at[t];
      } else {
        assert (r + r2)[t] == r2[t - |r|] && (at + at2)[t] == at2[t - |r|];
      }
    }
  }

  lemma NamesAtPrefix(names: seq<string>, n: nat, r: seq<string>, at: seq<nat>)
    requires n <= |names| && NamesAt(names[..n], r, at)
    ensures NamesAt(names, r, at)
  {
    forall t | 0 <= t < |r| ensures at[t] < |names| && r[t] == names[at[t]] {
      assert names[..n][at[t]] == names[at[t]];
    }
  }

  /**
    The names of line 560's message come in the order of `names`, with
    repeats: the t-th is the name at the t-th position whose canonical form
    has no header.
   */
  lemma {:induction false} MissingOrder(names: seq<string>, wanted: seq<string>, can: seq<string>)
    requires |wanted| == |names|
    ensures NamesAt(names, Missing(names, wanted, can), Where(wanted, Absent(can)))
    decreases |names|
  {
    if names != [] {
      var n := |names| - 1;
      MissingOrder(names[..n], wanted[..n], can);
      NamesAtPrefix(names, n, Missing(names[..n], wanted[..n], can), Where(wanted[..n], Absent(can)));
      var last := Absent(can)(wanted[n]);
      assert last == (wanted[n] !in can);
      NamesAtConcat(names, Missing(names[..n], wanted[..n], can), Where(wanted[..n], Absent(can)),
        if last then [names[n]] else [], if last then [n] else []);
    }
  }

  predicate Hidden(h: string)
  {
    |h| > 0 && h[0] == '_'
  }

  /** `if columns:`: an empty list or container reads as no choice. */
  predicate Given(cols: Columns)
  {
    match cols
    case Unspecified => false
    case Listed(names) => names != []
    case Container(names) => names != []
    case Predicate(_) => true
  }

  /**
    Line 557-561: each listed name at the first header with the same
    canonical form, or, when some name has none, the error naming every
    such name.
   */
  function SelectListed(headers: seq<string>, names: seq<string>): (r: Result<seq<nat>, ColumnError>)
    ensures var can := CanonAll(headers); var wanted := CanonAll(names);
      (r.Err? <==> exists j :: 0 <= j < |names| && wanted[j] !in can) &&
      (r.Ok? ==>
        |r.value| == |names| &&
        forall j :: 0 <= j < |names| ==>
          r.value[j] < |headers| && can[r.value[j]] == wanted[j] &&
          forall i :: 0 <= i < r.value[j] ==> can[i] != wanted[j]) &&
      (r.Err? ==> r == Err(NotFound(Missing(names, wanted, can))))
  {
    var can := CanonAll(headers);
    var wanted := CanonAll(names);
    var missing := Missing(names, wanted, can);
    if missing != [] then Err(NotFound(missing))
    else Ok(FirstIndices(can, wanted))
  }

  /** For each wanted form, the index of its first occurrence in `can`. */
  function FirstIndices(can: seq<string>, wanted: seq<string>): (r: seq<nat>)
    requires forall j :: 0 <= j < |wanted| ==> wanted[j] in can
    ensures |r| == |wanted|
    ensures forall j :: 0 <= j < |wanted| ==>
      r[j] < |can| && can[r[j]] == wanted[j] && forall i :: 0 <= i < r[j] ==> can[i] != wanted[j]
  {
    seq(|wanted|, j requires 0 <= j < |wanted| => IndexOf(can, wanted[j]).value)
  }

  /** Lines 562-565: the headers whose canonical form is among the canonical names; none is an error. */
  function SelectContainer(headers: seq<string>, names: seq<string>): (r: Result<seq<nat>, ColumnError>)
    ensures r.Err? <==> forall i :: 0 <= i < |headers| ==> Canon(headers[i]) !in CanonAll(names)
    ensures r.Err? ==> r.error == NoneMatched
    ensures r.Ok? ==> forall i :: 0 <= i < |headers| ==> (i in r.value <==> Canon(headers[i]) in CanonAll(names))
    ensures r.Ok? ==> forall i :: i in r.value ==> i < |headers|
  {
    var wanted := CanonAll(names);
    var sel := Where(headers, Among(wanted));
    assert forall i :: 0 <= i < |headers| ==> (i in sel <==> Canon(headers[i]) in wanted) by {
      forall i | 0 <= i < |headers| ensures i in sel <==> Canon(headers[i]) in wanted {
        assert Among(wanted)(headers[i]) == (Canon(headers[i]) in wanted);
      }
    }
    if sel == [] then Err(NoneMatched)
    else
      assert sel[0] in sel && sel[0] < |headers|;
      Ok(sel)
  }

  /** The test of line 563: a header whose canonical form is among `wanted`. */
  function Among(wanted: seq<string>): string -> bool { h => Canon(h) in wanted }

  /** Lines 555-572: the indices of the selected headers, or the error raised. */
  function Select(headers: seq<string>, cols: Columns): (r: Result<seq<nat>, ColumnError>)
    ensures r.Ok? ==> forall i :: i in r.value ==> i < |headers|
    ensures !Given(cols) ==>
      r.Ok? && forall i :: 0 <= i < |headers| ==> (i in r.value <==> !Hidden(headers[i]))
    ensures Given(cols) && cols.Predicate? ==>
      r.Ok? && forall i :: 0 <= i < |headers| ==> (i in r.value <==> cols.keep(headers[i]))
    ensures Given(cols) && cols.Listed? ==> r == SelectListed(headers, cols.names)
    ensures Given(cols) && cols.Container? ==> r == SelectContainer(headers, cols.names)
  {
    if !Given(cols) then Ok(Where(headers, h => !Hidden(h)))
    else match cols
      case Listed(names) => SelectListed(headers, names)
      case Container(names) => SelectContainer(headers, names)
      case Predicate(keep) => Ok(Where(headers, keep))
  }
}
