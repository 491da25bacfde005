/** The read-only queries over the built records: the records of a date range
    in date order, and the unfiltered search. */
module Queries {
  import opened Dates
  import opened Repository

  /** `begin_date <= context['date'] <= end_date` */
  predicate InRange(c: Context, begin: Day, end: Day)
  {
    begin <= c.date <= end
  }

  /** `filter(check_date, s)`: the records of `s` in the range, in their order. */
  function Filter(s: seq<Context>, begin: Day, end: Day): (r: seq<Context>)
    ensures |r| <= |s|
  {
    if s == [] then []
    else (if InRange(s[0], begin, end) then [s[0]] else []) + Filter(s[1..], begin, end)
  }

  lemma {:induction false} FilterConcat(a: seq<Context>, b: seq<Context>, begin: Day, end: Day)
    ensures Filter(a + b, begin, end) == Filter(a, begin, end) + Filter(b, begin, end)
  {
    if a == [] {
      assert a + b == b;
    } else {
      var head := if InRange(a[0], begin, end) then [a[0]] else [];
      assert (a + b)[0] == a[0] && (a + b)[1..] == a[1..] + b;
      FilterConcat(a[1..], b, begin, end);
      calc {
        Filter(a + b, begin, end);
        head + Filter(a[1..] + b, begin, end);
        head + (Filter(a[1..], begin, end) + Filter(b, begin, end));
        (head + Filter(a[1..], begin, end)) + Filter(b, begin, end);
      }
    }
  }

  /** The records kept are exactly the records of the range. */
  lemma {:induction false} FilterMembers(s: seq<Context>, begin: Day, end: Day)
    ensures forall i :: 0 <= i < |Filter(s, begin, end)| ==>
      Filter(s, begin, end)[i] in s && InRange(Filter(s, begin, end)[i], begin, end)
    ensures forall i :: 0 <= i < |s| && InRange(s[i], begin, end) ==> s[i] in Filter(s, begin, end)
  {
    if s != [] {
      FilterMembers(s[1..], begin, end);
      assert forall i :: 1 <= i < |s| ==> s[i] == s[1..][i - 1];
    }
  }

  /** Appending a record not earlier than all the others is inserting it. */
  lemma InsertAtEnd(r: seq<Context>, x: Context)
    requires forall j :: 0 <= j < |r| ==> r[j].date <= x.date
    ensures Insert(r, x) == r + [x]
  {
    assert r + [] == r;
    InsertPosAt(r, [], x);
  }

  /** Every record in the first `k` places is not later than `x`, and the record at
      place `k`, if any, is later: `x` goes in at `k`. */
  lemma {:induction false} InsertPosAt(a: seq<Context>, b: seq<Context>, x: Context)
    requires forall j :: 0 <= j < |a| ==> a[j].date <= x.date
    requires b != [] ==> x.date < b[0].date
    ensures InsertPos(a + b, x) == |a|
  {
    if a != [] {
      assert (a + b)[1..] == a[1..] + b;
      InsertPosAt(a[1..], b, x);
    }
  }

  /** `x` inserted between a part not later than it and a part that starts
      later. */
  lemma InsertBetween(a: seq<Context>, b: seq<Context>, x: Context)
    requires forall j :: 0 <= j < |a| ==> a[j].date <= x.date
    requires b != [] ==> x.date < b[0].date
    ensures Insert(a + b, x) == a + [x] + b
  {
    InsertPosAt(a, b, x);
    assert (a + b)[..|a|] == a && (a + b)[|a|..] == b;
  }

  /** In a sorted list, the records before `x`'s place are not later than `x`
      and the records from it on are later. */
  lemma InsertPosSplits(r: seq<Context>, x: Context)
    requires SortedByDate(r)
    ensures forall j :: 0 <= j < InsertPos(r, x) ==> r[..InsertPos(r, x)][j].date <= x.date
    ensures forall j :: 0 <= j < |r| - InsertPos(r, x) ==> x.date < r[InsertPos(r, x)..][j].date
  {
    var k := InsertPos(r, x);
    forall j | 0 <= j < |r| - k ensures x.date < r[k..][j].date {
      assert r[k..][j] == r[k + j];
      assert r[k].date <= r[k + j].date;
    }
  }

  /** Filtering keeps a bound that every record meets. */
  lemma {:induction false} FilterBounds(s: seq<Context>, x: Context, begin: Day, end: Day)
    ensures (forall j :: 0 <= j < |s| ==> s[j].date <= x.date) ==>
      forall j :: 0 <= j < |Filter(s, begin, end)| ==> Filter(s, begin, end)[j].date <= x.date
    ensures (forall j :: 0 <= j < |s| ==> x.date < s[j].date) ==>
      forall j :: 0 <= j < |Filter(s, begin, end)| ==> x.date < Filter(s, begin, end)[j].date
  {
    if s != [] {
      FilterBounds(s[1..], x, begin, end);
    }
  }

  /** Filtering around the place where `x` goes in. */
  lemma FilterAroundInsert(r: seq<Context>, x: Context, begin: Day, end: Day)
    ensures var k := InsertPos(r, x);
      && Filter(Insert(r, x), begin, end) ==
           Filter(r[..k], begin, end) + (Filter([x], begin, end) + Filter(r[k..], begin, end))
      && Filter(r, begin, end) == Filter(r[..k], begin, end) + Filter(r[k..], begin, end)
  {
    var k := InsertPos(r, x);
    var lo, hi := r[..k], r[k..];
    assert Insert(r, x) == lo + ([x] + hi);
    FilterConcat(lo, [x] + hi, begin, end);
    FilterConcat([x], hi, begin, end);
    assert r == lo + hi;
    FilterConcat(lo, hi, begin, end);
  }

  /** In a sorted list, `x` goes in between the filtered records before its place
      and the filtered records after it. */
  lemma InsertFiltered(r: seq<Context>, x: Context, begin: Day, end: Day)
    requires SortedByDate(r)
    ensures var k := InsertPos(r, x);
      Insert(Filter(r[..k], begin, end) + Filter(r[k..], begin, end), x) ==
        Filter(r[..k], begin, end) + [x] + Filter(r[k..], begin, end)
  {
    var k := InsertPos(r, x);
    InsertPosSplits(r, x);
    FilterBounds(r[..k], x, begin, end);
    FilterBounds(r[k..], x, begin, end);
    InsertBetween(Filter(r[..k], begin, end), Filter(r[k..], begin, end), x);
  }

  /** Filtering the records of a sorted list after inserting a record in range
      is inserting it into the filtered list. */
  lemma FilterInsertIn(r: seq<Context>, x: Context, begin: Day, end: Day)
    requires SortedByDate(r) && InRange(x, begin, end)
    ensures Filter(Insert(r, x), begin, end) == Insert(Filter(r, begin, end), x)
  {
    var k := InsertPos(r, x);
    var flo, fhi := Filter(r[..k], begin, end), Filter(r[k..], begin, end);
    calc {
      Filter(Insert(r, x), begin, end);
      { FilterAroundInsert(r, x, begin, end); }
      flo + (Filter([x], begin, end) + fhi);
      { assert Filter([x], begin, end) == [x]; }
      flo + [x] + fhi;
      { InsertFiltered(r, x, begin, end); }
      Insert(flo + fhi, x);
      { FilterAroundInsert(r, x, begin, end); }
      Insert(Filter(r, begin, end), x);
    }
  }

  /** Inserting a record out of range does not change what the filter keeps. */
  lemma FilterInsertOut(r: seq<Context>, x: Context, begin: Day, end: Day)
    requires !InRange(x, begin, end)
    ensures Filter(Insert(r, x), begin, end) == Filter(r, begin, end)
  {
    var k := InsertPos(r, x);
    var flo, fhi := Filter(r[..k], begin, end), Filter(r[k..], begin, end);
    FilterAroundInsert(r, x, begin, end);
    assert Filter([x], begin, end) == [];
    assert flo + ([] + fhi) == flo + fhi;
  }

  /** Sorting and filtering commute: the stable sort of the records in range is
      the records in range of the stable sort. */
  lemma {:induction false} SortFilterCommute(s: seq<Context>, begin: Day, end: Day)
    ensures Filter(SortByDate(s), begin, end) == SortByDate(Filter(s, begin, end))
  {
    if s != [] {
      var init, x := s[..|s| - 1], s[|s| - 1];
      assert s == init + [x];
      SortFilterCommute(init, begin, end);
      SortLast(s);
      FilterConcat(init, [x], begin, end);
      var f := Filter(init, begin, end);
      if InRange(x, begin, end) {
        FilterInsertIn(SortByDate(init), x, begin, end);
        assert Filter(s, begin, end) == f + [x];
        assert (f + [x])[..|f|] == f;
        SortLast(f + [x]);
      } else {
        FilterInsertOut(SortByDate(init), x, begin, end);
        assert Filter(s, begin, end) == f + [];
        assert f + [] == f;
      }
    }
  }

  /** Records that all share one date are already in sorted order. */
  lemma {:induction false} SortSameDate(s: seq<Context>, d: Day)
    requires forall i :: 0 <= i < |s| ==> s[i].date == d
    ensures SortByDate(s) == s
  {
    if s != [] {
      var init, x := s[..|s| - 1], s[|s| - 1];
      SortSameDate(init, d);
      SortLast(s);
      InsertAtEnd(init, x);
      assert s == init + [x];
    }
  }

  lemma ListMembers(cs: seq<Context>, begin: Day, end: Day)
    ensures var r := Filter(SortByDate(cs), begin, end);
      && (forall i :: 0 <= i < |r| ==> r[i] in cs && InRange(r[i], begin, end))
      && (forall i :: 0 <= i < |cs| && InRange(cs[i], begin, end) ==> cs[i] in r)
  {
    var sorted := SortByDate(cs);
    SortMembers(cs);
    FilterMembers(sorted, begin, end);
    SortPerm(cs);
    forall i | 0 <= i < |cs| && InRange(cs[i], begin, end)
      ensures cs[i] in Filter(sorted, begin, end)
    {
      var j :| 0 <= j < |sorted| && sorted[j] == cs[i];
    }
  }

  /** list_contexts(begin, end): the records dated within [begin, end], in date
      order, ties in enumeration order; none when there are no records. */
  function ListContexts(cs: seq<Context>, begin: Day, end: Day): (r: seq<Context>)
    ensures r == SortByDate(Filter(cs, begin, end))
    ensures SortedByDate(r)
    ensures forall i :: 0 <= i < |r| ==> r[i] in cs && InRange(r[i], begin, end)
    ensures forall i :: 0 <= i < |cs| && InRange(cs[i], begin, end) ==> cs[i] in r
  {
    if |cs| == 0 then []
    else
      SortFilterCommute(cs, begin, end);
      ListMembers(cs, begin, end);
      Filter(SortByDate(cs), begin, end)
  }

  /** The records of a single day, in the order the directory lists them. */
  lemma ListSingleDay(cs: seq<Context>, d: Day)
    ensures ListContexts(cs, d, d) == Filter(cs, d, d)
  {
    FilterMembers(cs, d, d);
    SortSameDate(Filter(cs, d, d), d);
  }

  /** fsearch: every record, whatever the query. */
  function Fsearch(cs: seq<Context>, query: string): (r: seq<Context>)
    ensures r == cs
  {
    cs
  }
}
