/** `merge_data` in scripts/features.py: the closing prices of the three assets outer-joined
    on their trading date and sorted by date. Dates are modelled as day numbers. */
module Merge {
  import opened Wrappers

  /** One `(Date, Close)` row of an asset's price table. */
  datatype PriceRow = PriceRow(date: int, close: real)

  datatype Asset = Tsla | Bnd | Spy

  /** One row of the merged table: a date and each asset's close on it, `None` where pandas
      leaves NaN because the asset has no row for that date. */
  datatype MergedRow = MergedRow(date: int, tsla: Option<real>, bnd: Option<real>, spy: Option<real>)
  {
    function Get(a: Asset): Option<real>
    {
      match a
      case Tsla => tsla
      case Bnd => bnd
      case Spy => spy
    }

    function With(a: Asset, v: Option<real>): (r: MergedRow)
      ensures r.date == date && r.Get(a) == v
      ensures forall b :: b != a ==> r.Get(b) == Get(b)
    {
      match a
      case Tsla => this.(tsla := v)
      case Bnd => this.(bnd := v)
      case Spy => this.(spy := v)
    }
  }

  /** A row of the merged table where no asset has a value yet. */
  function Blank(date: int): MergedRow
  {
    MergedRow(date, None, None, None)
  }

  /** The three price tables `stockData['tesla']`, `stockData['bond']`, `stockData['spy']`. */
  datatype Assets = Assets(tsla: seq<PriceRow>, bnd: seq<PriceRow>, spy: seq<PriceRow>)
  {
    function Series(a: Asset): seq<PriceRow>
    {
      match a
      case Tsla => tsla
      case Bnd => bnd
      case Spy => spy
    }
  }

  predicate UniqueDates(s: seq<PriceRow>)
  {
    forall i, j :: 0 <= i < j < |s| ==> s[i].date != s[j].date
  }

  function Dates(s: seq<PriceRow>): set<int>
  {
    set r | r in s :: r.date
  }

  /** The close recorded for `date`, if the table has a row for it. */
  function Lookup(s: seq<PriceRow>, date: int): (v: Option<real>)
    ensures v.Some? <==> date in Dates(s)
    ensures v.Some? ==> PriceRow(date, v.value) in s
  {
    if |s| == 0 then None
    else if s[0].date == date then Some(s[0].close)
    else
      assert Dates(s) == {s[0].date} + Dates(s[1..]) by {
        assert s == [s[0]] + s[1..];
      }
      Lookup(s[1..], date)
  }

  /** With unique dates, `Lookup` returns the close of the one row carrying the date. */
  lemma {:induction false} LookupFindsRow(s: seq<PriceRow>, i: int)
    requires UniqueDates(s) && 0 <= i < |s|
    ensures Lookup(s, s[i].date) == Some(s[i].close)
  {
    if i > 0 {
      assert s[1..][i - 1] == s[i];
      LookupFindsRow(s[1..], i - 1);
    }
  }

  function RowDates(rows: seq<MergedRow>): set<int>
  {
    set r | r in rows :: r.date
  }

  predicate DistinctDates(rows: seq<MergedRow>)
  {
    forall i, j :: 0 <= i < j < |rows| ==> rows[i].date != rows[j].date
  }

  /** The left rows of an outer join, each completed with the right table's value on its date. */
  function Attach(left: seq<MergedRow>, right: seq<PriceRow>, a: Asset): seq<MergedRow>
  {
    seq(|left|, i requires 0 <= i < |left| => left[i].With(a, Lookup(right, left[i].date)))
  }

  /** The right rows of an outer join whose date the left side lacks, with NaN in the left columns. */
  function Unmatched(right: seq<PriceRow>, taken: set<int>, a: Asset): seq<MergedRow>
  {
    if |right| == 0 then []
    else if right[0].date in taken then Unmatched(right[1..], taken, a)
    else [Blank(right[0].date).With(a, Some(right[0].close))] + Unmatched(right[1..], taken, a)
  }

  /** The rows of `left.merge(right, on='Date', how='outer')` for tables without duplicate dates:
      one row per date of either side. pandas orders these rows by date; the order here (left
      rows, then the right-only dates) is the model's own, and `MergeData` sorts afterwards, so
      its result does not depend on it. */
  function OuterJoin(left: seq<MergedRow>, right: seq<PriceRow>, a: Asset): seq<MergedRow>
  {
    Attach(left, right, a) + Unmatched(right, RowDates(left), a)
  }

  predicate StrictlyIncreasing(rows: seq<MergedRow>)
  {
    forall i, j :: 0 <= i < j < |rows| ==> rows[i].date < rows[j].date
  }

  /** Insertion of one row into a table sorted by date that lacks the row's date. */
  function Insert(x: MergedRow, rows: seq<MergedRow>): (r: seq<MergedRow>)
    requires StrictlyIncreasing(rows)
    requires forall i :: 0 <= i < |rows| ==> rows[i].date != x.date
    ensures StrictlyIncreasing(r)
    ensures multiset(r) == multiset(rows) + multiset{x}
    ensures |r| == |rows| + 1
    ensures |rows| == 0 ==> r == [x]
    ensures |rows| > 0 ==> r[0] == x || r[0] == rows[0]
  {
    if |rows| == 0 then [x]
    else if x.date < rows[0].date then [x] + rows
    else
      assert rows == [rows[0]] + rows[1..];
      var tail := Insert(x, rows[1..]);
      var r := [rows[0]] + tail;
      assert rows[0].date < tail[0].date;
      assert forall j :: 0 < j < |r| ==> r[j] == tail[j - 1];
      r
  }

  /** `df.sort_values('Date')` on a table whose dates are distinct. */
  function SortByDate(rows: seq<MergedRow>): (r: seq<MergedRow>)
    requires DistinctDates(rows)
    ensures StrictlyIncreasing(r)
    ensures multiset(r) == multiset(rows)
  {
    if |rows| == 0 then []
    else
      assert rows == [rows[0]] + rows[1..];
      var sorted := SortByDate(rows[1..]);
      assert forall i :: 0 <= i < |sorted| ==> sorted[i].date != rows[0].date by {
        forall i | 0 <= i < |sorted| ensures sorted[i].date != rows[0].date {
          var y := sorted[i];
          assert y in multiset(sorted);
          assert y in multiset(rows[1..]);
          var k :| 0 <= k < |rows[1..]| && rows[1..][k] == y;
          assert rows[k + 1] == y;
        }
      }
      Insert(rows[0], sorted)
  }

  /** The dates of the assets in `joined`. */
  function DatesOf(p: Assets, joined: set<Asset>): set<int>
  {
    (if Tsla in joined then Dates(p.tsla) else {})
    + (if Bnd in joined then Dates(p.bnd) else {})
    + (if Spy in joined then Dates(p.spy) else {})
  }

  /** What an outer join of the assets in `joined` holds in asset `a`'s column on `date`. */
  function Expected(p: Assets, joined: set<Asset>, a: Asset, date: int): Option<real>
  {
    if a in joined then Lookup(p.Series(a), date) else None
  }

  /** Every column of row `r` holds what the join of `joined` puts there. */
  predicate RowAgrees(r: MergedRow, p: Assets, joined: set<Asset>)
  {
    && r.Get(Tsla) == Expected(p, joined, Tsla, r.date)
    && r.Get(Bnd) == Expected(p, joined, Bnd, r.date)
    && r.Get(Spy) == Expected(p, joined, Spy, r.date)
  }

  /** `rows` is the outer join of the assets in `joined`: one row per date any of them has,
      and in each row every joined asset's close on that date, NaN for the others. */
  ghost predicate JoinOf(rows: seq<MergedRow>, p: Assets, joined: set<Asset>)
  {
    && DistinctDates(rows)
    && RowDates(rows) == DatesOf(p, joined)
    && forall r :: r in rows ==> RowAgrees(r, p, joined)
  }

  /** A table with unique dates keeps them unique without its first row, and its first
      date occurs nowhere else. */
  lemma UniqueDatesTail(right: seq<PriceRow>)
    requires UniqueDates(right) && |right| > 0
    ensures UniqueDates(right[1..])
    ensures Dates(right) == {right[0].date} + Dates(right[1..])
    ensures right[0].date !in Dates(right[1..])
  {
    assert right == [right[0]] + right[1..];
    forall k | 0 <= k < |right[1..]| ensures right[1..][k].date != right[0].date {
      assert right[1..][k] == right[k + 1];
    }
  }

  /** `Unmatched` adds one row per right date not already taken, each date once. */
  lemma {:induction false} UnmatchedDates(right: seq<PriceRow>, taken: set<int>, a: Asset)
    requires UniqueDates(right)
    ensures DistinctDates(Unmatched(right, taken, a))
    ensures RowDates(Unmatched(right, taken, a)) == Dates(right) - taken
  {
    if |right| > 0 {
      var rest := Unmatched(right[1..], taken, a);
      UniqueDatesTail(right);
      UnmatchedDates(right[1..], taken, a);
      if right[0].date !in taken {
        var x := Blank(right[0].date).With(a, Some(right[0].close));
        var all := [x] + rest;
        assert all == Unmatched(right, taken, a);
        forall i, j | 0 <= i < j < |all| ensures all[i].date != all[j].date {
          if i == 0 {
            assert all[j] == rest[j - 1];
            assert all[j].date in RowDates(rest);
          } else {
            assert all[i] == rest[i - 1] && all[j] == rest[j - 1];
          }
        }
        assert RowDates(all) == {x.date} + RowDates(rest);
      }
    }
  }

  /** Each row `Unmatched` adds carries the right table's close for its date and nothing else. */
  lemma {:induction false} UnmatchedValuesOfRight(right: seq<PriceRow>, taken: set<int>, a: Asset)
    requires UniqueDates(right)
    ensures forall r :: r in Unmatched(right, taken, a) ==> r == Blank(r.date).With(a, Lookup(right, r.date))
  {
    if |right| > 0 {
      var rest := Unmatched(right[1..], taken, a);
      UniqueDatesTail(right);
      UnmatchedDates(right[1..], taken, a);
      UnmatchedValuesOfRight(right[1..], taken, a);
      forall r | r in rest ensures r == Blank(r.date).With(a, Lookup(right, r.date)) {
        assert r.date in RowDates(rest);
      }
      if right[0].date !in taken {
        LookupFindsRow(right, 0);
        assert Unmatched(right, taken, a) == [Blank(right[0].date).With(a, Some(right[0].close))] + rest;
      }
    }
  }

  /** `Attach` keeps the left rows' dates, position by position. */
  lemma AttachKeepsDates(rows: seq<MergedRow>, right: seq<PriceRow>, a: Asset)
    ensures |Attach(rows, right, a)| == |rows|
    ensures forall k :: 0 <= k < |rows| ==> Attach(rows, right, a)[k].date == rows[k].date
    ensures RowDates(Attach(rows, right, a)) == RowDates(rows)
    ensures DistinctDates(rows) ==> DistinctDates(Attach(rows, right, a))
  {
    var attached := Attach(rows, right, a);
    forall d | d in RowDates(rows) ensures d in RowDates(attached) {
      var k :| 0 <= k < |rows| && rows[k].date == d;
      assert attached[k].date == d;
    }
  }

  /** Two tables with distinct dates and no date in common concatenate to one with distinct dates. */
  lemma ConcatDistinct(xs: seq<MergedRow>, ys: seq<MergedRow>)
    requires DistinctDates(xs) && DistinctDates(ys) && RowDates(xs) !! RowDates(ys)
    ensures DistinctDates(xs + ys)
    ensures RowDates(xs + ys) == RowDates(xs) + RowDates(ys)
  {
    var all := xs + ys;
    forall i, j | 0 <= i < j < |all| ensures all[i].date != all[j].date {
      if j < |xs| {
        assert all[i] == xs[i] && all[j] == xs[j];
      } else if i < |xs| {
        assert all[i] == xs[i] && all[j] == ys[j - |xs|];
        assert all[i].date in RowDates(xs) && all[j].date in RowDates(ys);
      } else {
        assert all[i] == ys[i - |xs|] && all[j] == ys[j - |xs|];
      }
    }
  }

  /** The values the attached rows carry: the new asset's close, the earlier assets' unchanged. */
  lemma AttachValues(rows: seq<MergedRow>, p: Assets, joined: set<Asset>, a: Asset)
    requires forall r :: r in rows ==> RowAgrees(r, p, joined)
    ensures forall r :: r in Attach(rows, p.Series(a), a) ==> RowAgrees(r, p, joined + {a})
  {
    var attached := Attach(rows, p.Series(a), a);
    forall r | r in attached ensures RowAgrees(r, p, joined + {a}) {
      var k :| 0 <= k < |attached| && attached[k] == r;
      assert RowAgrees(rows[k], p, joined);
    }
  }

  /** The values the unmatched rows carry: the new asset's close, and NaN for the earlier
      assets, none of which has the date. */
  lemma UnmatchedValues(rows: seq<MergedRow>, p: Assets, joined: set<Asset>, a: Asset)
    requires RowDates(rows) == DatesOf(p, joined) && UniqueDates(p.Series(a))
    ensures forall r :: r in Unmatched(p.Series(a), RowDates(rows), a) ==> RowAgrees(r, p, joined + {a})
  {
    var extra := Unmatched(p.Series(a), RowDates(rows), a);
    UnmatchedDates(p.Series(a), RowDates(rows), a);
    UnmatchedValuesOfRight(p.Series(a), RowDates(rows), a);
    forall r | r in extra ensures RowAgrees(r, p, joined + {a}) {
      assert r.date in RowDates(extra);
      assert r.date !in DatesOf(p, joined);
    }
  }

  lemma DatesOfAdd(p: Assets, joined: set<Asset>, a: Asset)
    ensures DatesOf(p, joined + {a}) == DatesOf(p, joined) + Dates(p.Series(a))
  {
  }

  /** Outer-joining one more asset's table onto a join of the others gives the join of all of them. */
  lemma OuterJoinExtends(rows: seq<MergedRow>, p: Assets, joined: set<Asset>, a: Asset)
    requires JoinOf(rows, p, joined) && a !in joined && UniqueDates(p.Series(a))
    ensures JoinOf(OuterJoin(rows, p.Series(a), a), p, joined + {a})
  {
    var right := p.Series(a);
    var attached := Attach(rows, right, a);
    var extra := Unmatched(right, RowDates(rows), a);
    UnmatchedDates(right, RowDates(rows), a);
    AttachKeepsDates(rows, right, a);
    ConcatDistinct(attached, extra);
    DatesOfAdd(p, joined, a);
    AttachValues(rows, p, joined, a);
    UnmatchedValues(rows, p, joined, a);
    assert OuterJoin(rows, right, a) == attached + extra;
    assert forall r :: r in attached + extra ==> r in attached || r in extra;
  }

  /** `merge_data(stockData)`: TSLA outer-joined with BND, then with SPY, then sorted by date.
      Dates are assumed unique within each asset's table. */
  function MergeData(p: Assets): (rows: seq<MergedRow>)
    requires UniqueDates(p.tsla) && UniqueDates(p.bnd) && UniqueDates(p.spy)
    // sorted ascending, so each date appears once
    ensures StrictlyIncreasing(rows)
    // exactly the dates at least one asset traded on
    ensures RowDates(rows) == Dates(p.tsla) + Dates(p.bnd) + Dates(p.spy)
    // a column has a value on a date exactly when that asset has a row for the date, and it is that row's close
    ensures forall r :: r in rows ==>
      && r.tsla == Lookup(p.tsla, r.date)
      && r.bnd == Lookup(p.bnd, r.date)
      && r.spy == Lookup(p.spy, r.date)
  {
    var withTsla := OuterJoin([], p.tsla, Tsla);
    var withBnd := OuterJoin(withTsla, p.bnd, Bnd);
    var merged := OuterJoin(withBnd, p.spy, Spy);
    OuterJoinExtends([], p, {}, Tsla);
    OuterJoinExtends(withTsla, p, {Tsla}, Bnd);
    OuterJoinExtends(withBnd, p, {Tsla, Bnd}, Spy);
    var sorted := SortByDate(merged);
    assert forall r :: r in sorted <==> r in merged by {
      forall r ensures r in sorted <==> r in merged {
        assert r in sorted <==> r in multiset(sorted);
      }
    }
    assert forall r :: r in sorted ==> RowAgrees(r, p, {Tsla, Bnd, Spy});
    sorted
  }
}
