/** What a bounded index window returns, told on evidence alone: the best-ranked matches and an exact flag. */
module Windows {
  import opened Basics
  import opened Sequences
  import opened Features
  import opened Store

  function Payloads(rows: seq<Row>): seq<Txn> {
    Map(rows, PayloadOf())
  }

  function TxnCell(t: Txn, c: Column): Option<string> {
    match c
    case AccountColumn => Some(t.account)
    case SourceColumn => if IsTransfer(t) then Some(t.account) else None
    case TargetColumn => if IsTransfer(t) then t.counterparty else None
  }

  function Matches(c: Column, key: string, start: int, end: int): Txn -> bool {
    (t: Txn) => TxnCell(t, c) == Some(key) && start <= t.time < end
  }

  predicate TxnFirst(a: Txn, b: Txn) {
    a.time > b.time || (a.time == b.time && LexAtMost(a.id, b.id))
  }

  /** The matches of a full scan, and the `limit` of them that rank first. */
  function Kept(all: seq<Txn>, c: Column, key: string, start: int, end: int, limit: nat): seq<Txn> {
    Take(Sort(Filter(all, Matches(c, key, start, end)), TxnFirst), limit)
  }

  // ---- Ranking ----------------------------------------------------------------------------

  lemma {:induction false} LexTotal(a: string, b: string)
    ensures LexAtMost(a, b) || LexAtMost(b, a)
    ensures LexAtMost(a, b) && LexAtMost(b, a) ==> a == b
  {
    if a != [] && b != [] {
      LexTotal(a[1..], b[1..]);
      assert a == [a[0]] + a[1..] && b == [b[0]] + b[1..];
    }
  }

  lemma {:induction false} LexTransitive(a: string, b: string, d: string)
    requires LexAtMost(a, b) && LexAtMost(b, d)
    ensures LexAtMost(a, d)
  {
    if a != [] && a[0] == b[0] == d[0] {
      LexTransitive(a[1..], b[1..], d[1..]);
    }
  }

  lemma TxnFirstOrders()
    ensures Ordering(TxnFirst)
  {
    forall x: Txn, y: Txn
      ensures TxnFirst(x, y) || TxnFirst(y, x)
    {
      LexTotal(x.id, y.id);
    }
    forall x: Txn, y: Txn, z: Txn | TxnFirst(x, y) && TxnFirst(y, z)
      ensures TxnFirst(x, z)
    {
      if x.time == y.time == z.time {
        LexTransitive(x.id, y.id, z.id);
      }
    }
  }

  ghost predicate DistinctIds(all: seq<Txn>) {
    forall i, j :: 0 <= i < j < |all| ==> all[i].id != all[j].id
  }

  /** Among transactions with distinct identifiers the ranking never ties. */
  lemma NoTies(all: seq<Txn>, p: Txn -> bool)
    requires DistinctIds(all)
    ensures forall x, y :: x in Filter(all, p) && y in Filter(all, p) && TxnFirst(x, y) && TxnFirst(y, x) ==> x == y
  {
    forall x, y | x in Filter(all, p) && y in Filter(all, p) && TxnFirst(x, y) && TxnFirst(y, x)
      ensures x == y
    {
      LexTotal(x.id, y.id);
      FilterMember(all, p, x);
      FilterMember(all, p, y);
      var i :| 0 <= i < |all| && all[i] == x;
      var j :| 0 <= j < |all| && all[j] == y;
    }
  }

  // ---- From rows to evidence --------------------------------------------------------------

  lemma RowMatches(r: Row, c: Column, key: string, start: int, end: int)
    requires RowOk(r)
    ensures InWindow(c, key, start, end)(r) == Matches(c, key, start, end)(r.payload)
  {
  }

  lemma {:induction false} FilterPayloads(rows: seq<Row>, c: Column, key: string, start: int, end: int)
    requires forall r :: r in rows ==> RowOk(r)
    ensures Payloads(Filter(rows, InWindow(c, key, start, end))) == Filter(Payloads(rows), Matches(c, key, start, end))
    decreases |rows|
  {
    hide RowOk, InWindow, Matches;
    if rows != [] {
      RowMatches(rows[0], c, key, start, end);
      assert forall r :: r in rows[1..] ==> r in rows;
      FilterPayloads(rows[1..], c, key, start, end);
      var rest := Filter(rows[1..], InWindow(c, key, start, end));
      MapPrepend(rows[0], rest, PayloadOf());
      assert [] + rest == rest;
      assert Payloads(rows)[1..] == Payloads(rows[1..]);
    }
  }

  lemma {:induction false} InsertPayload(r: Row, rows: seq<Row>)
    requires RowOk(r) && forall q :: q in rows ==> RowOk(q)
    ensures Payloads(Insert(r, rows, RowFirst)) == Insert(r.payload, Payloads(rows), TxnFirst)
  {
    if rows == [] || RowFirst(r, rows[0]) {
      MapPrepend(r, rows, PayloadOf());
      assert rows != [] ==> RowOk(rows[0]);
    } else {
      assert RowOk(rows[0]);
      assert forall q :: q in rows[1..] ==> q in rows;
      InsertPayload(r, rows[1..]);
      MapPrepend(rows[0], Insert(r, rows[1..], RowFirst), PayloadOf());
      assert Payloads(rows)[1..] == Payloads(rows[1..]);
    }
  }

  lemma {:induction false} InsertMembers<T>(x: T, s: seq<T>, leq: (T, T) -> bool)
    ensures forall y :: y in Insert(x, s, leq) ==> y == x || y in s
  {
    InsertMultiset(x, s, leq);
    forall y | y in Insert(x, s, leq)
      ensures y == x || y in s
    {
      assert y in multiset(Insert(x, s, leq));
    }
  }

  lemma {:induction false} SortMembers<T>(s: seq<T>, leq: (T, T) -> bool)
    ensures forall y :: y in Sort(s, leq) ==> y in s
  {
    if s != [] {
      SortMembers(s[1..], leq);
      InsertMembers(s[0], Sort(s[1..], leq), leq);
      assert forall y :: y in s[1..] ==> y in s;
    }
  }

  lemma {:induction false} SortPayloads(rows: seq<Row>)
    requires forall r :: r in rows ==> RowOk(r)
    ensures Payloads(Sort(rows, RowFirst)) == Sort(Payloads(rows), TxnFirst)
  {
    if rows != [] {
      assert rows[0] in rows;
      assert forall r :: r in rows[1..] ==> r in rows;
      SortPayloads(rows[1..]);
      SortMembers(rows[1..], RowFirst);
      InsertPayload(rows[0], Sort(rows[1..], RowFirst));
      assert Payloads(rows)[1..] == Payloads(rows[1..]);
    }
  }

  lemma {:induction false} MapTake<T, U>(s: seq<T>, n: nat, f: T -> U)
    ensures Map(Take(s, n), f) == Take(Map(s, f), n)
  {
    MapIndex(s, f);
    MapIndex(Take(s, n), f);
  }

  /** The query's answer depends only on the evidence in the rows. */
  lemma WindowOnPayloads(rows: seq<Row>, c: Column, key: string, start: int, end: int, limit: nat)
    requires forall r :: r in rows ==> RowOk(r)
    ensures Window(rows, c, key, start, end, limit).0 == Kept(Payloads(rows), c, key, start, end, limit)
    ensures Window(rows, c, key, start, end, limit).1 <==>
            |Filter(Payloads(rows), Matches(c, key, start, end))| > limit
  {
    var found := Filter(rows, InWindow(c, key, start, end));
    forall r | r in found
      ensures RowOk(r)
    {
      FilterMember(rows, InWindow(c, key, start, end), r);
    }
    FilterPayloads(rows, c, key, start, end);
    SortPayloads(found);
    MapIndex(found, PayloadOf());
    var sorted := Sort(found, RowFirst);
    assert Take(Take(sorted, limit + 1), limit) == Take(sorted, limit);
    MapTake(sorted, limit, PayloadOf());
  }

  // ---- Truncation -------------------------------------------------------------------------

  lemma TakeSplits<T>(s: seq<T>, n: nat)
    ensures multiset(s) == multiset(Take(s, n)) + multiset(s[|Take(s, n)|..])
    ensures multiset(s) - multiset(Take(s, n)) == multiset(s[|Take(s, n)|..])
  {
    assert s == Take(s, n) + s[|Take(s, n)|..];
  }

  lemma TakeRanksFirst<T>(s: seq<T>, n: nat, leq: (T, T) -> bool, x: T, y: T)
    requires SortedBy(s, leq) && x in s[|Take(s, n)|..] && y in Take(s, n)
    ensures leq(y, x)
  {
    var k := |Take(s, n)|;
    var i :| 0 <= i < k && s[i] == y;
    var j :| 0 <= j < |s[k..]| && s[k..][j] == x;
    assert s[k + j] == x;
  }

  /** Main result: the kept transactions are exactly the `limit` best-ranked of all that match. */
  lemma TruncationIsExact(all: seq<Txn>, c: Column, key: string, start: int, end: int, limit: nat)
    ensures var matching := Filter(all, Matches(c, key, start, end));
            var kept := Kept(all, c, key, start, end, limit);
            && |kept| == MinInt(limit, |matching|)
            && multiset(kept) <= multiset(matching)
            && SortedBy(kept, TxnFirst)
            && (forall x, y :: x in multiset(matching) - multiset(kept) && y in kept ==> TxnFirst(y, x))
            && (|matching| <= limit ==> multiset(kept) == multiset(matching))
  {
    hide TxnFirst, Filter, Sort;
    var matching := Filter(all, Matches(c, key, start, end));
    var sorted := Sort(matching, TxnFirst);
    TxnFirstOrders();
    SortSorts(matching, TxnFirst);
    TakeSplits(sorted, limit);
    var kept, rest := Take(sorted, limit), sorted[|Take(sorted, limit)|..];
    forall x, y | x in multiset(rest) && y in kept
      ensures TxnFirst(y, x)
    {
      assert x in rest;
      TakeRanksFirst(sorted, limit, TxnFirst, x, y);
    }
  }

  /** The ranking has no ties, so the kept transactions do not depend on the order of storage. */
  lemma KeptPerm(a: seq<Txn>, b: seq<Txn>, c: Column, key: string, start: int, end: int, limit: nat)
    requires DistinctIds(a) && multiset(a) == multiset(b)
    ensures Kept(a, c, key, start, end, limit) == Kept(b, c, key, start, end, limit)
    ensures |Filter(a, Matches(c, key, start, end))| == |Filter(b, Matches(c, key, start, end))|
  {
    var p := Matches(c, key, start, end);
    TxnFirstOrders();
    NoTies(a, p);
    FilterPerm(a, b, p);
    SortPerm(Filter(a, p), Filter(b, p), TxnFirst);
    SizePerm(Filter(a, p), Filter(b, p));
  }

  // ---- What truncation keeps is the most recent part --------------------------------------

  lemma RecentMatches(all: seq<Txn>, c: Column, key: string, start: int, end: int, recent: int)
    requires start <= recent
    ensures multiset(Filter(Filter(all, Matches(c, key, start, end)), Since(recent)))
            == multiset(Filter(all, Matches(c, key, recent, end)))
  {
    hide Filter;
    var a := Filter(Filter(all, Matches(c, key, start, end)), Since(recent));
    var b := Filter(all, Matches(c, key, recent, end));
    forall x
      ensures multiset(a)[x] == multiset(b)[x]
    {
      FilterMultiplicity(Filter(all, Matches(c, key, start, end)), Since(recent), x);
      FilterMultiplicity(all, Matches(c, key, start, end), x);
      FilterMultiplicity(all, Matches(c, key, recent, end), x);
    }
  }

  /** If something older than `recent` is kept, everything since `recent` is. */
  lemma OlderKeptMeansAllRecent(all: seq<Txn>, c: Column, key: string, start: int, end: int, limit: nat,
                                recent: int, y: Txn)
    requires start <= recent && y in Kept(all, c, key, start, end, limit) && y.time < recent
    ensures multiset(Filter(all, Matches(c, key, recent, end)))
            <= multiset(Filter(Kept(all, c, key, start, end, limit), Since(recent)))
  {
    hide Filter, Kept;
    var kept, matching := Kept(all, c, key, start, end, limit), Filter(all, Matches(c, key, start, end));
    TruncationIsExact(all, c, key, start, end, limit);
    RecentMatches(all, c, key, start, end, recent);
    forall x
      ensures multiset(Filter(matching, Since(recent)))[x] <= multiset(Filter(kept, Since(recent)))[x]
    {
      FilterMultiplicity(matching, Since(recent), x);
      FilterMultiplicity(kept, Since(recent), x);
      if x.time >= recent && multiset(matching)[x] > multiset(kept)[x] {
        assert x in multiset(matching) - multiset(kept);
        assert TxnFirst(y, x);
      }
    }
  }

  /** Main result: of any most recent part of a window, truncation keeps all it has room for: the whole
      part when it fits the limit, and nothing but that part when it does not. */
  lemma RecentSurvives(all: seq<Txn>, c: Column, key: string, start: int, end: int, limit: nat, recent: int)
    requires start <= recent
    ensures var part := Filter(all, Matches(c, key, recent, end));
            var kept := Filter(Kept(all, c, key, start, end, limit), Since(recent));
            && multiset(kept) <= multiset(part)
            && |kept| == MinInt(limit, |part|)
            && (|part| <= limit ==> multiset(kept) == multiset(part))
  {
    hide Filter, Kept;
    var whole, matching := Kept(all, c, key, start, end, limit), Filter(all, Matches(c, key, start, end));
    var part, kept := Filter(all, Matches(c, key, recent, end)), Filter(whole, Since(recent));
    TruncationIsExact(all, c, key, start, end, limit);
    RecentMatches(all, c, key, start, end, recent);
    FilterSub(whole, matching, Since(recent));
    SizeSub(kept, part);
    FilterLength(whole, Since(recent));
    if y :| y in whole && y.time < recent {
      OlderKeptMeansAllRecent(all, c, key, start, end, limit, recent, y);
      SizeSub(part, kept);
    } else {
      FilterAll(whole, Since(recent));
      FilterLength(matching, Since(recent));
      SizePerm(Filter(matching, Since(recent)), part);
    }
    if |part| <= |kept| {
      SubOfSameSize(kept, part);
      SizePerm(kept, part);
    }
  }
}
