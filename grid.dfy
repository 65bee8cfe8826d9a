/**
  The grid behind `conversions_table` (slip39/invoice/artifact.py lines
  103-124): one row per symbol, one column per symbol, 1 on the diagonal,
  an empty cell for a pair that is not a key, and the value otherwise
  (None is shown as the table's missing value). The text layout that
  `tabulate` gives the grid is not modelled.
 */
module Grid {
  import opened Strings
  import opened Ratios

  datatype Cell = One | Blank | Missing | Num(x: real)

  /** The cell of row `r`, column `c` (lines 113-114). */
  function CellOf(conv: Conv, r: Symbol, c: Symbol): Cell
  {
    if r == c then One
    else if (r, c) !in conv.vals then Blank
    else match conv.vals[(r, c)]
      case Unset => Missing
      case Ratio(x) => Num(x)
  }

  /** The two symbols of every key, in key order: `sum(conversions.keys(), ())`. */
  function KeySymbols(keys: seq<Pair>): (r: seq<Symbol>)
    ensures forall s :: s in r <==> exists k :: k in keys && (s == k.0 || s == k.1)
    decreases |keys|
  {
    if keys == [] then []
    else
      var n := |keys| - 1;
      assert keys == keys[..n] + [keys[n]];
      KeySymbols(keys[..n]) + [keys[n].0, keys[n].1]
  }

  /**
    Line 105: with no symbols given, every symbol of every key, once each,
    sorted.
   */
  function DefaultSymbols(conv: Conv): (r: seq<Symbol>)
    ensures Sorted(r) && Distinct(r)
    ensures forall s :: s in r <==> exists k :: k in conv.keys && (s == k.0 || s == k.1)
  {
    var d := Dedup(KeySymbols(conv.keys));
    SortDistinct(d);
    var r := Sort(d);
    assert forall s :: s in r <==> s in d by {
      forall s ensures s in r <==> s in d {
        assert s in r <==> s in multiset(r);
        assert s in d <==> s in multiset(d);
      }
    }
    r
  }

  /** The body of the table: each symbol with its row of cells. */
  function Table(conv: Conv, symbols: seq<Symbol>): (t: seq<(Symbol, seq<Cell>)>)
    ensures |t| == |symbols|
    ensures forall i :: 0 <= i < |t| ==> t[i].0 == symbols[i] && |t[i].1| == |symbols|
    ensures forall i, j :: 0 <= i < |t| && 0 <= j < |symbols| ==> t[i].1[j] == CellOf(conv, symbols[i], symbols[j])
  {
    seq(|symbols|, i requires 0 <= i < |symbols| =>
      (symbols[i], seq(|symbols|, j requires 0 <= j < |symbols| => CellOf(conv, symbols[i], symbols[j]))))
  }

  /**
    What a cell shows says what the dict holds for its pair: off the
    diagonal a number exactly for a known ratio, the missing marker exactly
    for a None, and a blank exactly for a pair that is not a key.
   */
  lemma CellShows(conv: Conv, r: Symbol, c: Symbol)
    requires r != c
    ensures CellOf(conv, r, c).Num? <==> Known(conv, (r, c))
    ensures CellOf(conv, r, c).Num? ==> Get(conv, (r, c)) == Ratio(CellOf(conv, r, c).x)
    ensures CellOf(conv, r, c) == Missing <==> (r, c) in conv.vals && conv.vals[(r, c)].Unset?
    ensures CellOf(conv, r, c) == Blank <==> (r, c) !in conv.vals
  {
  }

  /**
    The default table shows every entry of a well-formed dict whose two
    symbols differ; as the default symbols are distinct, it is shown in
    exactly one cell.
   */
  lemma DefaultTableShowsAll(conv: Conv, k: Pair)
    requires Ratios.Valid(conv) && k in conv.vals && k.0 != k.1
    ensures var syms := DefaultSymbols(conv);
      exists i, j :: 0 <= i < |syms| && 0 <= j < |syms| &&
        syms[i] == k.0 && syms[j] == k.1 && Table(conv, syms)[i].1[j] != Blank
  {
    var syms := DefaultSymbols(conv);
    assert k in conv.keys;
    assert k.0 in syms && k.1 in syms;
    var i :| 0 <= i < |syms| && syms[i] == k.0;
    var j :| 0 <= j < |syms| && syms[j] == k.1;
    assert Table(conv, syms)[i].1[j] == CellOf(conv, k.0, k.1);
  }
}
