/**
  `Invoice.pages` (slip39/invoice/artifact.py lines 500-527): rows are
  gathered into pages of a fixed number of rows, the last page holding
  what is left over, and an optional filter on the page number picks
  which pages are yielded.
 */
module Pages {

  /**
    The `page` argument: None yields every page, a container yields the
    pages whose number it holds, anything else the one page equal to it.
   */
  datatype PageFilter = All | Among(pages: set<int>) | Only(page: int)

  /** `page_match` at lines 512-517. */
  predicate Matches(f: PageFilter, i: nat)
  {
    match f
    case All => true
    case Among(pages) => i in pages
    case Only(page) => i == page
  }

  /**
    The page size the loop really uses: a page is closed as soon as it
    holds `rows` rows or more, so a count below 1 closes every page at one
    row.
   */
  function PageSize(rows: int): (n: nat)
    ensures n >= 1 && (rows >= 1 ==> n == rows)
  {
    if rows < 1 then 1 else rows
  }

  /** The rows cut into pages of `n`: every page full but the last, which holds the rest. */
  function Chunks<T>(s: seq<T>, n: nat): seq<seq<T>>
    requires n >= 1
    decreases |s|
  {
    if s == [] then []
    else if |s| <= n then [s]
    else [s[..n]] + Chunks(s[n..], n)
  }

  /** The pages of `ps` whose numbers, counting from `from`, the filter accepts, in order. */
  function Keep<T>(ps: seq<seq<T>>, f: PageFilter, from: nat): seq<seq<T>>
    decreases |ps|
  {
    if ps == [] then []
    else (if Matches(f, from) then [ps[0]] else []) + Keep(ps[1..], f, from + 1)
  }

  function Flatten<T>(ps: seq<seq<T>>): seq<T>
    decreases |ps|
  {
    if ps == [] then [] else ps[0] + Flatten(ps[1..])
  }

  /** Concatenating the pages gives back the rows. */
  lemma {:induction false} ChunksFlatten<T>(s: seq<T>, n: nat)
    requires n >= 1
    ensures Flatten(Chunks(s, n)) == s
    decreases |s|
  {
    if s != [] && |s| > n {
      ChunksFlatten(s[n..], n);
      assert Chunks(s, n)[1..] == Chunks(s[n..], n);
      assert s == s[..n] + s[n..];
    } else if s != [] {
      assert Chunks(s, n)[1..] == [];
    }
  }

  /** Every page but the last holds exactly `n` rows; the last holds 1 to `n`. */
  lemma {:induction false} ChunksSizes<T>(s: seq<T>, n: nat)
    requires n >= 1
    ensures var ps := Chunks(s, n);
      (forall i :: 0 <= i < |ps| - 1 ==> |ps[i]| == n) &&
      (ps != [] ==> 1 <= |ps[|ps| - 1]| <= n) &&
      (ps == [] <==> s == [])
    decreases |s|
  {
    if s != [] && |s| > n {
      ChunksSizes(s[n..], n);
      var ps := Chunks(s, n);
      assert ps[1..] == Chunks(s[n..], n);
    }
  }

  /** Without a filter every page is yielded. */
  lemma {:induction false} KeepAll<T>(ps: seq<seq<T>>, from: nat)
    ensures Keep(ps, All, from) == ps
    decreases |ps|
  {
    if ps != [] {
      KeepAll(ps[1..], from + 1);
    }
  }

  /** Asking for one page number yields at most that one page, the one at that place. */
  lemma {:induction false} KeepOnly<T>(ps: seq<seq<T>>, page: int, from: nat)
    ensures Keep(ps, Only(page), from) ==
      if from <= page < from + |ps| then [ps[page - from]] else []
    decreases |ps|
  {
    if ps != [] {
      KeepOnly(ps[1..], page, from + 1);
      if page != from && from <= page < from + |ps| {
        assert ps[1..][page - (from + 1)] == ps[page - from];
      }
    }
  }

  /** `s` is a whole number of full pages of `n` rows. */
  predicate Whole<T>(s: seq<T>, n: nat)
    requires n >= 1
    decreases |s|
  {
    s == [] || (|s| >= n && Whole(s[n..], n))
  }

  lemma {:induction false} WholeSnoc<T>(s: seq<T>, t: seq<T>, n: nat)
    requires n >= 1 && Whole(s, n) && |t| == n
    ensures Whole(s + t, n)
    decreases |s|
  {
    if s == [] {
      assert (s + t)[n..] == [];
    } else {
      assert (s + t)[n..] == s[n..] + t;
      WholeSnoc(s[n..], t, n);
    }
  }

  /** Adding a page of 1 to `n` rows after whole pages adds it as the next page. */
  lemma {:induction false} ChunksSnoc<T>(s: seq<T>, t: seq<T>, n: nat)
    requires n >= 1 && 1 <= |t| <= n && Whole(s, n)
    ensures Chunks(s + t, n) == Chunks(s, n) + [t]
    decreases |s|
  {
    if s == [] {
      assert s + t == t;
    } else {
      assert (s + t)[..n] == s[..n];
      assert (s + t)[n..] == s[n..] + t;
      ChunksSnoc(s[n..], t, n);
    }
  }

  /** Filtering page by page: a page added at the end is kept exactly when its number matches. */
  lemma {:induction false} KeepSnoc<T>(ps: seq<seq<T>>, p: seq<T>, f: PageFilter, from: nat)
    ensures Keep(ps + [p], f, from) == Keep(ps, f, from) + (if Matches(f, from + |ps|) then [p] else [])
    decreases |ps|
  {
    if ps != [] {
      assert (ps + [p])[1..] == ps[1..] + [p];
      KeepSnoc(ps[1..], p, f, from + 1);
    }
  }

  /** Closing a page of rows `done` to `i` after whole pages adds it as the next page, kept when its number matches. */
  lemma ClosePage<T>(rows: seq<T>, done: nat, i: nat, n: nat, f: PageFilter)
    requires n >= 1 && done <= i <= |rows| && 1 <= i - done <= n && Whole(rows[..done], n)
    ensures Chunks(rows[..i], n) == Chunks(rows[..done], n) + [rows[done..i]]
    ensures Keep(Chunks(rows[..i], n), f, 0) ==
      Keep(Chunks(rows[..done], n), f, 0) + (if Matches(f, |Chunks(rows[..done], n)|) then [rows[done..i]] else [])
    ensures i - done == n ==> Whole(rows[..i], n)
  {
    var prefix := rows[..done];
    assert rows[..i] == prefix + rows[done..i];
    ChunksSnoc(prefix, rows[done..i], n);
    KeepSnoc(Chunks(prefix, n), rows[done..i], f, 0);
    if i - done == n {
      WholeSnoc(prefix, rows[done..i], n);
    }
  }

  /**
    Lines 519-527: fill the current page row by row; a full page is yielded
    when the filter accepts its number, and the number advances whether or
    not it was; a last partial page is yielded the same way.
   */
  method Paginate<T>(rows: seq<T>, f: PageFilter, size: int) returns (pages: seq<seq<T>>)
    ensures pages == Keep(Chunks(rows, PageSize(size)), f, 0)
  {
    var n := PageSize(size);
    var pageI: nat := 0;
    var pageL: seq<T> := [];
    ghost var done: nat := 0;
    pages := [];
    var i := 0;
    while i < |rows|
      invariant 0 <= done <= i <= |rows|
      invariant pageL == rows[done..i] && |pageL| < n
      invariant Whole(rows[..done], n) && |Chunks(rows[..done], n)| == pageI
      invariant pages == Keep(Chunks(rows[..done], n), f, 0)
    {
      pageL := pageL + [rows[i]];
      i := i + 1;
      assert pageL == rows[done..i];
      if |pageL| >= n {
        ClosePage(rows, done, i, n, f);
        if Matches(f, pageI) {
          pages := pages + [pageL];
        }
        pageI, pageL := pageI + 1, [];
        done := i;
      }
    }
    if pageL != [] {
      ClosePage(rows, done, i, n, f);
      if Matches(f, pageI) {
        pages := pages + [pageL];
      }
    }
    assert rows[..i] == rows;
  }
}
