/** The context repository: every note file parsed into a record, the records
    numbered 1..N in date order (ties in the order the directory lists them),
    and first-match lookups over a list of records. */
module Repository {
  import opened Wrappers
  import opened Text
  import opened Dates
  import opened Paths

  /** One note as build_contexts keeps it. The parsed fields never change; the id
      is written into the record after the records have been sorted, and the same
      record is shared by every list that holds it. */
  class Context {
    const fullPath: string
    const filename: string
    const dateStr: string
    const date: Day
    const name: string
    /** 0 until build_contexts numbers the record; ids start at 1. */
    var id: int

    constructor (data: ContextData)
      ensures Data() == data && id == 0
    {
      fullPath, filename, dateStr, date, name :=
        data.fullPath, data.filename, data.dateStr, data.date, data.name;
      id := 0;
    }

    /** The parsed fields, as data_from_path returned them. */
    function Data(): ContextData
    {
      ContextData(fullPath, filename, dateStr, date, name)
    }
  }

  /** No record occurs twice. */
  predicate Distinct(s: seq<Context>)
  {
    forall i, j :: 0 <= i < j < |s| ==> s[i] != s[j]
  }

  predicate SortedByDate(s: seq<Context>)
  {
    forall i, j :: 0 <= i < j < |s| ==> s[i].date <= s[j].date
  }

  // ---------------------------------------------------------------- sort_contexts

  /** Where a stable insertion puts `x`: after every leading record whose date is
      not later than `x`'s. */
  function InsertPos(r: seq<Context>, x: Context): (k: nat)
    ensures k <= |r|
    ensures forall j :: 0 <= j < k ==> r[j].date <= x.date
    ensures k < |r| ==> x.date < r[k].date
  {
    if r == [] || x.date < r[0].date then 0 else 1 + InsertPos(r[1..], x)
  }

  function Insert(r: seq<Context>, x: Context): (t: seq<Context>)
    ensures |t| == |r| + 1
  {
    var k := InsertPos(r, x);
    r[..k] + [x] + r[k..]
  }

  /** Inserting adds `x` and keeps every other record. */
  lemma InsertPerm(r: seq<Context>, x: Context)
    ensures multiset(Insert(r, x)) == multiset(r) + multiset{x}
  {
    var k := InsertPos(r, x);
    assert r == r[..k] + r[k..];
  }

  /** Where each record of `Insert(r, x)` comes from. */
  lemma InsertAt(r: seq<Context>, x: Context)
    ensures |Insert(r, x)| == |r| + 1
    ensures forall i :: 0 <= i < |r| + 1 ==>
      Insert(r, x)[i] == if i < InsertPos(r, x) then r[i] else if i == InsertPos(r, x) then x else r[i - 1]
  {
  }

  /** Inserting into a sorted list keeps it sorted. */
  lemma InsertSorted(r: seq<Context>, x: Context)
    requires SortedByDate(r)
    ensures SortedByDate(Insert(r, x))
  {
    var k, t := InsertPos(r, x), Insert(r, x);
    InsertAt(r, x);
    forall i, j | 0 <= i < j < |t| ensures t[i].date <= t[j].date {
      if j == k {
        assert t[i] == r[i];
      } else if i == k {
        assert t[j] == r[j - 1] && r[k].date <= r[j - 1].date;
      }
    }
  }

  /** Inserting a record that is not there yet keeps the records distinct. */
  lemma InsertDistinct(r: seq<Context>, x: Context)
    requires Distinct(r) && x !in r
    ensures Distinct(Insert(r, x))
  {
    var k, t := InsertPos(r, x), Insert(r, x);
    InsertAt(r, x);
    forall i, j | 0 <= i < j < |t| ensures t[i] != t[j] {
      if j == k {
        assert t[i] == r[i];
      } else if i == k {
        assert t[j] == r[j - 1];
      } else {
        var i', j' := if i < k then i else i - 1, if j < k then j else j - 1;
        assert t[i] == r[i'] && t[j] == r[j'] && i' < j';
      }
    }
  }

  /** sort_contexts: `sorted(contexts, key=date)`. Python's sort is stable, and a
      stable sort by one key has a single possible result, which insertion sort
      computes as well. */
  function SortByDate(s: seq<Context>): (r: seq<Context>)
    ensures |r| == |s|
    ensures SortedByDate(r)
  {
    if s == [] then []
    else
      assert s == s[..|s| - 1] + [s[|s| - 1]];
      var r := SortByDate(s[..|s| - 1]);
      InsertSorted(r, s[|s| - 1]);
      Insert(r, s[|s| - 1])
  }

  /** The sort is a permutation of its input. */
  lemma {:induction false} SortPerm(s: seq<Context>)
    ensures multiset(SortByDate(s)) == multiset(s)
  {
    if s != [] {
      var init, x := s[..|s| - 1], s[|s| - 1];
      assert s == init + [x];
      SortPerm(init);
      InsertPerm(SortByDate(init), x);
    }
  }

  /** The sort holds the records of its input and nothing else. */
  lemma SortMembers(s: seq<Context>)
    ensures forall i :: 0 <= i < |s| ==> s[i] in SortByDate(s)
    ensures forall i :: 0 <= i < |s| ==> SortByDate(s)[i] in s
  {
    SortPerm(s);
    var r := SortByDate(s);
    forall i | 0 <= i < |s| ensures s[i] in r && r[i] in s {
      assert s[i] in multiset(s);
      assert r[i] in multiset(r);
    }
  }

  /** The first place where `x` occurs in `s`. */
  function IndexOf(s: seq<Context>, x: Context): (k: nat)
    requires x in s
    ensures k < |s| && s[k] == x
    ensures forall j :: 0 <= j < k ==> s[j] != x
  {
    if s[0] == x then 0 else 1 + IndexOf(s[1..], x)
  }

  /** The order the sort establishes between the records at places i and j of
      its input: earlier date first, and for equal dates enumeration order. */
  predicate Precedes(s: seq<Context>, i: int, j: int)
    requires 0 <= i < |s| && 0 <= j < |s|
  {
    s[i].date < s[j].date || (s[i].date == s[j].date && i < j)
  }

  lemma {:induction false} SortDistinct(s: seq<Context>)
    requires Distinct(s)
    ensures Distinct(SortByDate(s))
  {
    if s != [] {
      var init, x := s[..|s| - 1], s[|s| - 1];
      SortDistinct(init);
      var r := SortByDate(init);
      assert x !in multiset(init);
      assert x !in r by { SortPerm(init); }
      InsertDistinct(r, x);
    }
  }

  /** A place holding `x` with no `x` before it is the first place of `x`. */
  lemma {:induction false} IndexOfIs(s: seq<Context>, x: Context, p: int)
    requires 0 <= p < |s| && s[p] == x
    requires forall j :: 0 <= j < p ==> s[j] != x
    ensures x in s && IndexOf(s, x) == p
  {
    if p > 0 {
      IndexOfIs(s[1..], x, p - 1);
    }
  }

  /** Inserting `x` moves the records at or after its place one step later. */
  lemma IndexAfterInsert(r: seq<Context>, x: Context, y: Context)
    requires y in r && x !in r
    ensures y in Insert(r, x) && x in Insert(r, x)
    ensures IndexOf(Insert(r, x), x) == InsertPos(r, x)
    ensures IndexOf(Insert(r, x), y) ==
      if IndexOf(r, y) < InsertPos(r, x) then IndexOf(r, y) else IndexOf(r, y) + 1
  {
    var k, q := InsertPos(r, x), IndexOf(r, y);
    var t := Insert(r, x);
    InsertAt(r, x);
    IndexOfIs(t, x, k);
    if q < k {
      IndexOfIs(t, y, q);
    } else {
      IndexOfIs(t, y, q + 1);
    }
  }

  /** The last record of the input is inserted into the sorted rest. */
  lemma SortLast(s: seq<Context>)
    requires s != []
    ensures SortByDate(s) == Insert(SortByDate(s[..|s| - 1]), s[|s| - 1])
  {
  }

  /** In distinct records, the last one is not among the sorted others. */
  lemma LastNotInSortedInit(s: seq<Context>)
    requires Distinct(s) && s != []
    ensures s[|s| - 1] !in SortByDate(s[..|s| - 1])
    ensures forall i :: 0 <= i < |s| - 1 ==> s[i] in SortByDate(s[..|s| - 1])
  {
    var init := s[..|s| - 1];
    var r := SortByDate(init);
    SortPerm(init);
    assert s[|s| - 1] !in multiset(init);
    forall i | 0 <= i < |s| - 1 ensures s[i] in r {
      assert init[i] == s[i];
      assert s[i] in multiset(init);
    }
  }

  /** The sort is stable: a record that Precedes another in the input comes
      before it in the output. */
  lemma {:induction false} SortKeepsOrder(s: seq<Context>, i: int, j: int)
    requires Distinct(s)
    requires 0 <= i < |s| && 0 <= j < |s| && Precedes(s, i, j)
    ensures s[i] in SortByDate(s) && s[j] in SortByDate(s)
    ensures IndexOf(SortByDate(s), s[i]) < IndexOf(SortByDate(s), s[j])
  {
    var n := |s| - 1;
    var init, x := s[..n], s[n];
    var r := SortByDate(init);
    SortLast(s);
    LastNotInSortedInit(s);
    if i < n && j < n {
      assert init[i] == s[i] && init[j] == s[j];
      SortKeepsOrder(init, i, j);
      InsertKeepsOrder(r, x, s[i], s[j]);
    } else if i < n {
      assert j == n && s[i].date <= x.date && s[i] in r;
      InsertedAfter(r, x, s[i]);
    } else {
      assert i == n && j < n && x.date < s[j].date && s[j] in r;
      InsertedBefore(r, x, s[j]);
    }
  }

  /** Inserting `x` keeps the order of the records already there. */
  lemma InsertKeepsOrder(r: seq<Context>, x: Context, y: Context, z: Context)
    requires y in r && z in r && x !in r && IndexOf(r, y) < IndexOf(r, z)
    ensures y in Insert(r, x) && z in Insert(r, x)
    ensures IndexOf(Insert(r, x), y) < IndexOf(Insert(r, x), z)
  {
    IndexAfterInsert(r, x, y);
    IndexAfterInsert(r, x, z);
  }

  /** A record not later than `x` stays in front of it. */
  lemma InsertedAfter(r: seq<Context>, x: Context, y: Context)
    requires SortedByDate(r) && y in r && x !in r && y.date <= x.date
    ensures y in Insert(r, x) && x in Insert(r, x)
    ensures IndexOf(Insert(r, x), y) < IndexOf(Insert(r, x), x)
  {
    IndexAfterInsert(r, x, y);
  }

  /** A record later than `x` ends up behind it. */
  lemma InsertedBefore(r: seq<Context>, x: Context, y: Context)
    requires y in r && x !in r && x.date < y.date
    ensures y in Insert(r, x) && x in Insert(r, x)
    ensures IndexOf(Insert(r, x), x) < IndexOf(Insert(r, x), y)
  {
    IndexAfterInsert(r, x, y);
  }

  // ---------------------------------------------------------------- build_contexts

  /** The ids build_contexts writes: a record's id is one more than its place in
      the sorted list. */
  predicate IdsAssigned(cs: seq<Context>)
    reads cs
  {
    forall i :: 0 <= i < |cs| ==>
      cs[i] in SortByDate(cs) && cs[i].id == IndexOf(SortByDate(cs), cs[i]) + 1
  }

  /** The set of ids in use. */
  function Ids(cs: seq<Context>): set<int>
    reads cs
  {
    set i | 0 <= i < |cs| :: cs[i].id
  }

  /** What the numbering promises about the records in enumeration order: the ids
      are exactly 1..N, each used once, an earlier date has a smaller id, and
      among records of one date the one listed first has the smaller id. */
  ghost predicate NumberedByDate(cs: seq<Context>)
    reads cs
  {
    && (forall k :: k in Ids(cs) <==> 1 <= k <= |cs|)
    && (forall i, j :: 0 <= i < |cs| && 0 <= j < |cs| && i != j ==> cs[i].id != cs[j].id)
    && (forall i, j :: 0 <= i < |cs| && 0 <= j < |cs| && cs[i].date < cs[j].date ==> cs[i].id < cs[j].id)
    && (forall i, j :: 0 <= i < j < |cs| && cs[i].date == cs[j].date ==> cs[i].id < cs[j].id)
  }

  lemma IdInRange(cs: seq<Context>, i: int)
    requires IdsAssigned(cs) && 0 <= i < |cs|
    ensures 1 <= cs[i].id <= |cs|
  {
    var r := SortByDate(cs);
    assert cs[i].id == IndexOf(r, cs[i]) + 1;
  }

  /** In distinct records, the first place of each record is its only place. */
  lemma IndexOfDistinct(r: seq<Context>, p: int)
    requires Distinct(r) && 0 <= p < |r|
    ensures IndexOf(r, r[p]) == p
  {
  }

  lemma IdsAreOneToN(cs: seq<Context>)
    requires Distinct(cs) && IdsAssigned(cs)
    ensures forall k :: k in Ids(cs) <==> 1 <= k <= |cs|
  {
    var r := SortByDate(cs);
    SortDistinct(cs);
    forall k | k in Ids(cs) ensures 1 <= k <= |cs| {
      var i :| 0 <= i < |cs| && cs[i].id == k;
      IdInRange(cs, i);
    }
    SortPerm(cs);
    forall k | 1 <= k <= |cs| ensures k in Ids(cs) {
      var x := r[k - 1];
      assert x in multiset(cs);
      var i :| 0 <= i < |cs| && cs[i] == x;
      IndexOfDistinct(r, k - 1);
      assert cs[i].id == k;
    }
  }

  lemma IdsOrdered(cs: seq<Context>, i: int, j: int)
    requires Distinct(cs) && IdsAssigned(cs)
    requires 0 <= i < |cs| && 0 <= j < |cs| && Precedes(cs, i, j)
    ensures cs[i].id < cs[j].id
  {
    SortKeepsOrder(cs, i, j);
  }

  /** Numbering the sorted records gives the ids their meaning in terms of the
      enumeration order. */
  lemma IdsFollowDates(cs: seq<Context>)
    requires Distinct(cs) && IdsAssigned(cs)
    ensures NumberedByDate(cs)
  {
    IdsAreOneToN(cs);
    forall i, j | 0 <= i < |cs| && 0 <= j < |cs| && i != j ensures cs[i].id != cs[j].id {
      if Precedes(cs, i, j) { IdsOrdered(cs, i, j); } else { IdsOrdered(cs, j, i); }
    }
    forall i, j | 0 <= i < |cs| && 0 <= j < |cs| && cs[i].date < cs[j].date
      ensures cs[i].id < cs[j].id
    {
      IdsOrdered(cs, i, j);
    }
    forall i, j | 0 <= i < j < |cs| && cs[i].date == cs[j].date ensures cs[i].id < cs[j].id {
      IdsOrdered(cs, i, j);
    }
  }

  /** What the first loop of build_contexts computes: the parsed fields of every
      listed path, in listing order, or the error of the first path whose date
      does not parse. */
  function ParseAll(cal: Calendar, paths: seq<string>): (r: Result<seq<ContextData>, Error>)
    ensures r.Ok? <==> forall i :: 0 <= i < |paths| ==> DataFromPath(cal, paths[i]).Ok?
    ensures r.Ok? ==>
      |r.value| == |paths| && forall i :: 0 <= i < |paths| ==> DataFromPath(cal, paths[i]) == Ok(r.value[i])
    ensures r.Err? ==>
      exists i :: 0 <= i < |paths| && DataFromPath(cal, paths[i]) == Err(r.error)
                  && forall j :: 0 <= j < i ==> DataFromPath(cal, paths[j]).Ok?
  {
    if paths == [] then Ok([])
    else
      match DataFromPath(cal, paths[0])
      case Err(e) => Err(e)
      case Ok(d) =>
        match ParseAll(cal, paths[1..])
        case Err(e) =>
          assert forall j :: 1 <= j < |paths| ==> paths[j] == paths[1..][j - 1];
          Err(e)
        case Ok(ds) => Ok([d] + ds)
  }

  /** A new record for each parsed note, in order, each still without an id. */
  method MakeRecords(datas: seq<ContextData>) returns (cs: seq<Context>)
    ensures |cs| == |datas| && forall i :: 0 <= i < |datas| ==> cs[i].Data() == datas[i]
    ensures forall i :: 0 <= i < |cs| ==> fresh(cs[i]) && cs[i].id == 0
    ensures Distinct(cs)
  {
    cs := [];
    var i := 0;
    while i < |datas|
      invariant 0 <= i <= |datas| && |cs| == i
      invariant forall j :: 0 <= j < i ==> cs[j].Data() == datas[j]
      invariant forall j :: 0 <= j < i ==> fresh(cs[j]) && cs[j].id == 0
      invariant Distinct(cs)
    {
      var c := new Context(datas[i]);
      cs := cs + [c];
      i := i + 1;
    }
  }

  /** The first loop of build_contexts: parse every listed path into a new
      record, in listing order; the first path whose date does not parse ends the
      build with that error. The paths are parsed before any record is made,
      which no caller can tell apart from making each record as its path is
      parsed, since the records made before an error are never seen. */
  method ParseContexts(cal: Calendar, paths: seq<string>) returns (res: Result<seq<Context>, Error>)
    ensures ParseAll(cal, paths).Err? ==> res == Err(ParseAll(cal, paths).error)
    ensures ParseAll(cal, paths).Ok? ==>
      && res.Ok?
      && |res.value| == |ParseAll(cal, paths).value|
      && (forall i :: 0 <= i < |res.value| ==> res.value[i].Data() == ParseAll(cal, paths).value[i])
      && (forall i :: 0 <= i < |res.value| ==> fresh(res.value[i]) && res.value[i].id == 0)
      && Distinct(res.value)
  {
    var parsed := ParseAll(cal, paths);
    if parsed.Err? {
      return Err(parsed.error);
    }
    var cs := MakeRecords(parsed.value);
    res := Ok(cs);
  }

  /** The second loop of build_contexts: walk the records in sorted order and
      write `id = place + 1` into each of them. */
  method NumberByDate(cs: seq<Context>)
    requires Distinct(cs)
    modifies set x | x in cs
    ensures IdsAssigned(cs)
    ensures NumberedByDate(cs)
  {
    var sorted := SortByDate(cs);
    SortDistinct(cs);
    SortMembers(cs);
    for k := 0 to |sorted|
      invariant forall j :: 0 <= j < k ==> sorted[j].id == j + 1
    {
      assert forall j :: 0 <= j < k ==> sorted[j] != sorted[k];
      sorted[k].id := k + 1;
    }
    assert IdsAssigned(cs) by {
      forall i | 0 <= i < |cs| ensures cs[i].id == IndexOf(sorted, cs[i]) + 1 {
        var p := IndexOf(sorted, cs[i]);
      }
    }
    IdsFollowDates(cs);
  }

  /** build_contexts: the records of every note file of the listing, in listing
      order (not sorted), each numbered by its place in date order. */
  method BuildContexts(cal: Calendar, entries: seq<string>) returns (res: Result<seq<Context>, Error>)
    ensures var parsed := ParseAll(cal, ContextsPaths(entries));
      parsed.Err? ==> res == Err(parsed.error)
    ensures var parsed := ParseAll(cal, ContextsPaths(entries));
      parsed.Ok? ==>
        && res.Ok?
        && |res.value| == |parsed.value|
        && (forall i :: 0 <= i < |res.value| ==> res.value[i].Data() == parsed.value[i])
        && (forall i :: 0 <= i < |res.value| ==> fresh(res.value[i]))
        && Distinct(res.value)
        && IdsAssigned(res.value)
        && NumberedByDate(res.value)
  {
    res := ParseContexts(cal, ContextsPaths(entries));
    if res.Ok? {
      NumberByDate(res.value);
    }
  }

  // ---------------------------------------------------------------- lookups

  /** The record fields a lookup compares: `find_context_by(contexts, key, value)`
      is called with the key 'id' and with the key 'name'. */
  datatype Field = IdField(id: int) | NameField(name: string)

  /** `context[key] == value` */
  predicate HasField(c: Context, f: Field)
    reads c
  {
    match f
    case IdField(v) => c.id == v
    case NameField(v) => c.name == v
  }

  /** The first record holding the field, or None when no record does. */
  function FirstMatch(cs: seq<Context>, f: Field): (found: Option<Context>)
    reads set c | c in cs
    ensures found.None? <==> forall i :: 0 <= i < |cs| ==> !HasField(cs[i], f)
    ensures found.Some? ==>
      exists i :: 0 <= i < |cs| && cs[i] == found.value && HasField(cs[i], f)
                  && forall j :: 0 <= j < i ==> !HasField(cs[j], f)
  {
    if cs == [] then None
    else if HasField(cs[0], f) then Some(cs[0])
    else
      var rest := FirstMatch(cs[1..], f);
      assert forall i :: 1 <= i < |cs| ==> cs[i] == cs[1..][i - 1];
      rest
  }

  /** find_context_by: scan the records in order and stop at the first one
      holding the field. */
  method FindContextBy(cs: seq<Context>, f: Field) returns (found: Option<Context>)
    ensures found == FirstMatch(cs, f)
  {
    found := None;
    var i := 0;
    while i < |cs|
      invariant 0 <= i <= |cs|
      invariant found.None?
      invariant FirstMatch(cs, f) == FirstMatch(cs[i..], f)
    {
      if HasField(cs[i], f) {
        found := Some(cs[i]);
        break;
      }
      assert cs[i..][1..] == cs[i + 1..];
      i := i + 1;
    }
  }

  /** find_context: the first record whose id is `int(idText)`; text that `int`
      rejects is an error. */
  method FindContext(cs: seq<Context>, idText: string) returns (r: Result<Option<Context>, Error>)
    ensures ParseInt(idText).None? ==> r == Err(InvalidId(idText))
    ensures ParseInt(idText).Some? ==> r == Ok(FirstMatch(cs, IdField(ParseInt(idText).value)))
  {
    match ParseInt(idText)
    case None =>
      r := Err(InvalidId(idText));
    case Some(id) =>
      var found := FindContextBy(cs, IdField(id));
      r := Ok(found);
  }

  /** After numbering, looking up the text of a record's id finds that record. */
  lemma FindListedId(cs: seq<Context>, i: int)
    requires NumberedByDate(cs) && 0 <= i < |cs|
    ensures ParseInt(IntText(cs[i].id)) == Some(cs[i].id)
    ensures FirstMatch(cs, IdField(cs[i].id)) == Some(cs[i])
  {
    IntTextRoundTrip(cs[i].id);
  }
}
