/** Paging the due index (services/actions/src/store.ts, listDuePage).

    The index is four partitions, each ordered by due time; a page merges one query of each. An entry carries the
    shard it was read from, as the source's `{ shard, item }` does. */
module DueIndex {
  import opened Wrappers

  const DUE_SHARDS: nat := 4

  datatype Entry = Entry(shard: nat, due: int, id: nat)

  datatype Page = Page(deliveries: seq<Entry>, cursor: Option<map<nat, Entry>>)

  ghost predicate Ordered(s: seq<Entry>) { forall i, j :: 0 <= i < j < |s| ==> s[i].due <= s[j].due }

  ghost predicate AllOf(s: seq<Entry>, shard: nat) { forall i :: 0 <= i < |s| ==> s[i].shard == shard }

  /** The four partitions as they stand: ordered by due time, every item once. */
  ghost predicate IsIndex(index: seq<seq<Entry>>) {
    && |index| == DUE_SHARDS
    && (forall s :: 0 <= s < |index| ==> Ordered(index[s]) && AllOf(index[s], s))
    && (forall s, i, j :: 0 <= s < |index| && 0 <= i < j < |index[s]| ==> index[s][i] != index[s][j])
  }

  // The order the pages should come in: all partitions merged, oldest first, ties by shard

  function Merge(a: seq<Entry>, b: seq<Entry>): (m: seq<Entry>)
    ensures |m| == |a| + |b|
    decreases |a| + |b|
  {
    if a == [] then b
    else if b == [] then a
    else if b[0].due < a[0].due then [b[0]] + Merge(a, b[1..])
    else [a[0]] + Merge(a[1..], b)
  }

  function MergeAll(lists: seq<seq<Entry>>): seq<Entry> {
    if lists == [] then []
    else Merge(MergeAll(lists[..|lists| - 1]), lists[|lists| - 1])
  }

  lemma {:induction false} MergeKeepsAll(a: seq<Entry>, b: seq<Entry>)
    ensures multiset(Merge(a, b)) == multiset(a) + multiset(b)
    decreases |a| + |b|
  {
    if a != [] && b != [] {
      if b[0].due < a[0].due {
        assert b == [b[0]] + b[1..];
        MergeKeepsAll(a, b[1..]);
      } else {
        assert a == [a[0]] + a[1..];
        MergeKeepsAll(a[1..], b);
      }
    }
  }

  lemma {:induction false} MergeKeepsOrder(a: seq<Entry>, b: seq<Entry>)
    requires Ordered(a) && Ordered(b)
    ensures Ordered(Merge(a, b))
    decreases |a| + |b|
  {
    if a != [] && b != [] {
      if b[0].due < a[0].due {
        MergeKeepsOrder(a, b[1..]);
        HeadIsLeast(b[0], a, b[1..]);
      } else {
        MergeKeepsOrder(a[1..], b);
        HeadIsLeast(a[0], a[1..], b);
      }
    }
  }

  lemma HeadIsLeast(x: Entry, a: seq<Entry>, b: seq<Entry>)
    requires Ordered(Merge(a, b))
    requires forall e :: e in a || e in b ==> x.due <= e.due
    ensures Ordered([x] + Merge(a, b))
  {
    MergeKeepsAll(a, b);
    forall i | 0 <= i < |Merge(a, b)| ensures x.due <= Merge(a, b)[i].due {
      assert Merge(a, b)[i] in multiset(Merge(a, b));
    }
  }

  function Together(lists: seq<seq<Entry>>): multiset<Entry> {
    if lists == [] then multiset{} else Together(lists[..|lists| - 1]) + multiset(lists[|lists| - 1])
  }

  /** The merge is in due order and holds exactly the entries of the partitions. */
  lemma {:induction false} MergeAllHolds(lists: seq<seq<Entry>>)
    requires forall s :: 0 <= s < |lists| ==> Ordered(lists[s])
    ensures Ordered(MergeAll(lists)) && multiset(MergeAll(lists)) == Together(lists)
  {
    if lists != [] {
      MergeAllHolds(lists[..|lists| - 1]);
      MergeKeepsAll(MergeAll(lists[..|lists| - 1]), lists[|lists| - 1]);
      MergeKeepsOrder(MergeAll(lists[..|lists| - 1]), lists[|lists| - 1]);
    }
  }

  // JavaScript's sort is stable: an element goes behind every earlier one it does not come before

  function Insert(sorted: seq<Entry>, e: Entry): seq<Entry> {
    if sorted == [] || sorted[|sorted| - 1].due <= e.due then sorted + [e]
    else Insert(sorted[..|sorted| - 1], e) + [sorted[|sorted| - 1]]
  }

  function SortByDue(s: seq<Entry>): seq<Entry> {
    if s == [] then [] else Insert(SortByDue(s[..|s| - 1]), s[|s| - 1])
  }

  lemma {:induction false} InsertFromFront(h: Entry, t: seq<Entry>, e: Entry)
    requires Ordered([h] + t) && h.due <= e.due
    ensures Insert([h] + t, e) == [h] + Insert(t, e)
  {
    var s := [h] + t;
    if t == [] {
    } else if s[|s| - 1].due <= e.due {
    } else {
      assert s[..|s| - 1] == [h] + t[..|t| - 1];
      InsertFromFront(h, t[..|t| - 1], e);
    }
  }

  lemma {:induction false} InsertBeforeAll(s: seq<Entry>, e: Entry)
    requires forall i :: 0 <= i < |s| ==> e.due < s[i].due
    ensures Insert(s, e) == [e] + s
  {
    if s != [] { InsertBeforeAll(s[..|s| - 1], e); }
  }

  lemma OrderedFront(b: seq<Entry>, e: Entry)
    requires Ordered(b + [e])
    ensures Ordered(b) && (b != [] ==> b[0].due <= e.due && b[|b| - 1].due <= e.due)
    ensures b != [] ==> (b + [e])[1..] == b[1..] + [e] && Ordered(b[1..] + [e])
  {
    assert forall i :: 0 <= i < |b| ==> b[i] == (b + [e])[i];
    assert (b + [e])[|b|] == e;
    if b != [] { assert (b + [e])[1..] == b[1..] + [e]; }
  }

  /** Inserting the next element of an ordered list into a merge extends that list in the merge. */
  lemma {:induction false} InsertExtendsMerge(a: seq<Entry>, b: seq<Entry>, e: Entry)
    requires Ordered(a) && Ordered(b + [e])
    ensures Insert(Merge(a, b), e) == Merge(a, b + [e])
    decreases |a| + |b|
  {
    hide Ordered, Insert;
    OrderedFront(b, e);
    if a == [] {
      InsertLast(b, e);
    } else if b == [] {
      assert b + [e] == [e] && Merge(a, b) == a;
      InsertIsMergeOfOne(a, e);
    } else if b[0].due < a[0].due {
      InsertExtendsMerge(a, b[1..], e);
      MergeKeepsOrder(a, b);
      InsertFromFront(b[0], Merge(a, b[1..]), e);
    } else {
      OrderedTail(a);
      InsertExtendsMerge(a[1..], b, e);
      MergeKeepsOrder(a, b);
      InsertFromFront(a[0], Merge(a[1..], b), e);
    }
  }

  lemma InsertLast(b: seq<Entry>, e: Entry)
    requires b != [] ==> b[|b| - 1].due <= e.due
    ensures Insert(b, e) == b + [e]
  {
  }

  lemma OrderedTail(a: seq<Entry>)
    requires Ordered(a) && a != []
    ensures Ordered(a[1..])
  {
  }

  lemma {:induction false} InsertIsMergeOfOne(a: seq<Entry>, e: Entry)
    requires Ordered(a) && a != []
    ensures Insert(a, e) == Merge(a, [e])
  {
    assert a == [a[0]] + a[1..];
    if e.due < a[0].due {
      InsertBeforeAll(a, e);
      assert [e][1..] == [];
    } else {
      InsertFromFront(a[0], a[1..], e);
      if a[1..] != [] { InsertIsMergeOfOne(a[1..], e); }
    }
  }

  /** Sorting behind an already sorted part an ordered list is merging the two. */
  lemma {:induction false} SortIsMerge(a: seq<Entry>, b: seq<Entry>)
    requires Ordered(SortByDue(a)) && Ordered(b)
    ensures SortByDue(a + b) == Merge(SortByDue(a), b)
    decreases |b|
  {
    hide Merge, Insert;
    if b == [] {
      assert a + b == a;
      MergeWithNone(SortByDue(a));
    } else {
      var front, last := b[..|b| - 1], b[|b| - 1];
      assert (a + b)[..|a + b| - 1] == a + front && b == front + [last];
      SortIsMerge(a, front);
      InsertExtendsMerge(SortByDue(a), front, last);
    }
  }

  function Concat(lists: seq<seq<Entry>>): seq<Entry> {
    if lists == [] then [] else Concat(lists[..|lists| - 1]) + lists[|lists| - 1]
  }

  /** The source's concatenate-and-sort is the merge of the partitions. */
  lemma {:induction false} SortedConcatIsMergeAll(lists: seq<seq<Entry>>)
    requires forall s :: 0 <= s < |lists| ==> Ordered(lists[s])
    ensures SortByDue(Concat(lists)) == MergeAll(lists)
  {
    if lists != [] {
      SortedConcatIsMergeAll(lists[..|lists| - 1]);
      MergeAllHolds(lists[..|lists| - 1]);
      SortIsMerge(Concat(lists[..|lists| - 1]), lists[|lists| - 1]);
    }
  }

  // A page reads only the first `limit` of each partition

  function Cut(s: seq<Entry>, n: nat): seq<Entry> { if |s| <= n then s else s[..n] }

  function CutAll(lists: seq<seq<Entry>>, n: nat): (c: seq<seq<Entry>>)
    ensures |c| == |lists| && forall s :: 0 <= s < |c| ==> c[s] == Cut(lists[s], n)
  {
    if lists == [] then [] else CutAll(lists[..|lists| - 1], n) + [Cut(lists[|lists| - 1], n)]
  }

  /** The first n of a merge depend only on the first n of each side. */
  lemma {:induction false} MergeOfPrefixes(a: seq<Entry>, b: seq<Entry>, x: seq<Entry>, y: seq<Entry>, n: nat)
    requires Cut(a, n) == Cut(x, n) && Cut(b, n) == Cut(y, n)
    ensures Cut(Merge(a, b), n) == Cut(Merge(x, y), n)
    decreases |a| + |b|
  {
    if n == 0 || a == [] || b == [] {
    } else {
      assert a[0] == Cut(a, n)[0] && b[0] == Cut(b, n)[0];
      assert x[0] == Cut(x, n)[0] && y[0] == Cut(y, n)[0];
      if b[0].due < a[0].due {
        CutTail(b, y, n);
        CutShorter(a, x, n);
        MergeOfPrefixes(a, b[1..], x, y[1..], n - 1);
        CutHead(b[0], Merge(a, b[1..]), n);
        CutHead(y[0], Merge(x, y[1..]), n);
      } else {
        CutTail(a, x, n);
        CutShorter(b, y, n);
        MergeOfPrefixes(a[1..], b, x[1..], y, n - 1);
        CutHead(a[0], Merge(a[1..], b), n);
        CutHead(x[0], Merge(x[1..], y), n);
      }
    }
  }

  lemma CutTail(a: seq<Entry>, x: seq<Entry>, n: nat)
    requires n > 0 && a != [] && x != [] && Cut(a, n) == Cut(x, n)
    ensures Cut(a[1..], n - 1) == Cut(x[1..], n - 1)
  {
    assert Cut(a[1..], n - 1) == Cut(a, n)[1..];
    assert Cut(x[1..], n - 1) == Cut(x, n)[1..];
  }

  lemma CutShorter(a: seq<Entry>, x: seq<Entry>, n: nat)
    requires n > 0 && Cut(a, n) == Cut(x, n)
    ensures Cut(a, n - 1) == Cut(x, n - 1)
  {
    assert Cut(a, n - 1) == Cut(Cut(a, n), n - 1);
    assert Cut(x, n - 1) == Cut(Cut(x, n), n - 1);
  }

  lemma CutHead(h: Entry, t: seq<Entry>, n: nat)
    requires n > 0
    ensures Cut([h] + t, n) == [h] + Cut(t, n - 1)
  {
  }

  lemma {:induction false} PageIsFirstOfMerge(lists: seq<seq<Entry>>, n: nat)
    ensures Cut(MergeAll(CutAll(lists, n)), n) == Cut(MergeAll(lists), n)
  {
    if lists != [] {
      var front, last := lists[..|lists| - 1], lists[|lists| - 1];
      PageIsFirstOfMerge(front, n);
      assert CutAll(lists, n)[..|lists| - 1] == CutAll(front, n);
      MergeOfPrefixes(MergeAll(CutAll(front, n)), Cut(last, n), MergeAll(front), last, n);
    }
  }

  // What is left after a page

  /** A merge is the merge of a prefix of each side, and then the merge of the rest of each. */
  lemma {:induction false} SplitMerge(a: seq<Entry>, b: seq<Entry>, n: nat) returns (i: nat, j: nat)
    requires n <= |a| + |b|
    ensures i <= |a| && j <= |b| && i + j == n
    ensures Merge(a, b) == Merge(a[..i], b[..j]) + Merge(a[i..], b[j..])
    decreases |a| + |b|
  {
    hide Merge;
    if n == 0 {
      i, j := 0, 0;
      NoneFirst(a, b);
    } else if a == [] || b == [] {
      i, j := if a == [] then 0 else n, if a == [] then n else 0;
      OneSide(a, b, i, j);
    } else if b[0].due < a[0].due {
      i, j := SplitMerge(a, b[1..], n - 1);
      TakesRight(a, b, i, j + 1);
      j := j + 1;
    } else {
      i, j := SplitMerge(a[1..], b, n - 1);
      TakesLeft(a, b, i + 1, j);
      i := i + 1;
    }
  }

  lemma NoneFirst(a: seq<Entry>, b: seq<Entry>)
    ensures Merge(a, b) == Merge(a[..0], b[..0]) + Merge(a[0..], b[0..])
  {
    assert a[0..] == a && b[0..] == b;
  }

  lemma OneSide(a: seq<Entry>, b: seq<Entry>, i: nat, j: nat)
    requires i <= |a| && j <= |b| && (a == [] || b == [])
    ensures Merge(a, b) == Merge(a[..i], b[..j]) + Merge(a[i..], b[j..])
  {
    MergeWithNone(a);
    MergeWithNone(a[..i]);
    MergeWithNone(a[i..]);
  }

  lemma TakesRight(a: seq<Entry>, b: seq<Entry>, i: nat, j: nat)
    requires a != [] && i <= |a| && 0 < j <= |b| && b[0].due < a[0].due
    requires Merge(a, b[1..]) == Merge(a[..i], b[1..][..j - 1]) + Merge(a[i..], b[1..][j - 1..])
    ensures Merge(a, b) == Merge(a[..i], b[..j]) + Merge(a[i..], b[j..])
  {
    PrefixesFromRight(a, b, i, j);
    PrefixesFromRight(a, b, |a|, |b|);
    assert a[..|a|] == a && b[..|b|] == b && b[1..][..|b| - 1] == b[1..];
    assert b[1..][j - 1..] == b[j..];
    Regroup([b[0]], Merge(a[..i], b[1..][..j - 1]), Merge(a[i..], b[j..]));
  }

  lemma TakesLeft(a: seq<Entry>, b: seq<Entry>, i: nat, j: nat)
    requires b != [] && j <= |b| && 0 < i <= |a| && !(b[0].due < a[0].due)
    requires Merge(a[1..], b) == Merge(a[1..][..i - 1], b[..j]) + Merge(a[1..][i - 1..], b[j..])
    ensures Merge(a, b) == Merge(a[..i], b[..j]) + Merge(a[i..], b[j..])
  {
    PrefixesFromLeft(a, b, i, j);
    PrefixesFromLeft(a, b, |a|, |b|);
    assert a[..|a|] == a && b[..|b|] == b && a[1..][..|a| - 1] == a[1..];
    assert a[1..][i - 1..] == a[i..];
    Regroup([a[0]], Merge(a[1..][..i - 1], b[..j]), Merge(a[i..], b[j..]));
  }

  lemma PrefixesFromRight(a: seq<Entry>, b: seq<Entry>, i: nat, j: nat)
    requires a != [] && i <= |a| && 0 < j <= |b| && b[0].due < a[0].due
    ensures Merge(a[..i], b[..j]) == [b[0]] + Merge(a[..i], b[1..][..j - 1])
  {
    assert b[1..][..j - 1] == b[..j][1..];
    if i == 0 {
      assert b[..j] == [b[0]] + b[..j][1..];
    }
  }

  lemma PrefixesFromLeft(a: seq<Entry>, b: seq<Entry>, i: nat, j: nat)
    requires b != [] && j <= |b| && 0 < i <= |a| && !(b[0].due < a[0].due)
    ensures Merge(a[..i], b[..j]) == [a[0]] + Merge(a[1..][..i - 1], b[..j])
  {
    assert a[1..][..i - 1] == a[..i][1..];
    if j == 0 {
      assert a[..i] == [a[0]] + a[..i][1..];
      MergeWithNone(a[..i][1..]);
    }
  }

  lemma CutAt(a: seq<Entry>, b: seq<Entry>, n: nat)
    requires |a| == n
    ensures (a + b)[..n] == a && (a + b)[n..] == b
  {
  }

  lemma MergeWithNone(a: seq<Entry>)
    ensures Merge(a, []) == a
  {
  }

  function Take(lists: seq<seq<Entry>>, counts: seq<nat>): (t: seq<seq<Entry>>)
    requires Within(lists, counts)
    ensures |t| == |lists| && forall s :: 0 <= s < |t| ==> t[s] == lists[s][..counts[s]]
  {
    seq(|lists|, s requires 0 <= s < |lists| => lists[s][..counts[s]])
  }

  function Skip(lists: seq<seq<Entry>>, counts: seq<nat>): (t: seq<seq<Entry>>)
    requires Within(lists, counts)
    ensures |t| == |lists| && forall s :: 0 <= s < |t| ==> t[s] == lists[s][counts[s]..]
  {
    seq(|lists|, s requires 0 <= s < |lists| => lists[s][counts[s]..])
  }

  predicate Within(lists: seq<seq<Entry>>, counts: seq<nat>) {
    |counts| == |lists| && forall s :: 0 <= s < |lists| ==> counts[s] <= |lists[s]|
  }

  /** The first n of the merge of all partitions are the merge of a prefix of each, and the rest the merge of the rest. */
  lemma {:induction false} SplitMergeAll(lists: seq<seq<Entry>>, n: nat) returns (counts: seq<nat>)
    requires n <= |MergeAll(lists)|
    ensures Within(lists, counts)
    ensures MergeAll(lists)[..n] == MergeAll(Take(lists, counts))
    ensures MergeAll(lists)[n..] == MergeAll(Skip(lists, counts))
  {
    hide Merge;
    if lists == [] {
      counts := [];
    } else {
      var front, last := lists[..|lists| - 1], lists[|lists| - 1];
      var i, j := SplitMerge(MergeAll(front), last, n);
      var before := SplitMergeAll(front, i);
      counts := before + [j];
      assert Take(lists, counts)[..|lists| - 1] == Take(front, before);
      assert Skip(lists, counts)[..|lists| - 1] == Skip(front, before);
      CutAt(Merge(MergeAll(front)[..i], last[..j]), Merge(MergeAll(front)[i..], last[j..]), n);
    }
  }

  // What of a page came from one shard

  function Of(page: seq<Entry>, shard: nat): seq<Entry> {
    if page == [] then []
    else (if page[0].shard == shard then [page[0]] else []) + Of(page[1..], shard)
  }

  lemma {:induction false} OfAll(s: seq<Entry>, t: nat, shard: nat)
    requires AllOf(s, t)
    ensures Of(s, shard) == if shard == t then s else []
  {
    if s != [] { OfAll(s[1..], t, shard); }
  }

  lemma OfCons(x: Entry, rest: seq<Entry>, shard: nat)
    ensures Of([x] + rest, shard) == (if x.shard == shard then [x] else []) + Of(rest, shard)
  {
    assert ([x] + rest)[1..] == rest;
  }

  lemma AllOfTail(b: seq<Entry>, t: nat)
    requires AllOf(b, t) && b != []
    ensures b[0].shard == t && AllOf(b[1..], t) && b == [b[0]] + b[1..]
  {
  }

  lemma {:induction false} OfMerge(a: seq<Entry>, b: seq<Entry>, t: nat, shard: nat)
    requires AllOf(b, t)
    ensures shard != t ==> Of(Merge(a, b), shard) == Of(a, shard)
    ensures Of(a, t) == [] ==> Of(Merge(a, b), t) == b
    decreases |a| + |b|
  {
    hide Of, AllOf;
    OfAll(b, t, shard);
    OfAll(b, t, t);
    OfNone(shard);
    if a != [] && b != [] {
      AllOfTail(b, t);
      assert a == [a[0]] + a[1..];
      OfCons(a[0], a[1..], shard);
      OfCons(a[0], a[1..], t);
      if b[0].due < a[0].due {
        OfMerge(a, b[1..], t, shard);
        OfCons(b[0], Merge(a, b[1..]), shard);
        OfCons(b[0], Merge(a, b[1..]), t);
      } else {
        OfMerge(a[1..], b, t, shard);
        OfCons(a[0], Merge(a[1..], b), shard);
        OfCons(a[0], Merge(a[1..], b), t);
      }
    }
  }

  lemma OfNone(shard: nat)
    ensures Of([], shard) == []
  {
  }

  lemma {:induction false} OfMergeAll(lists: seq<seq<Entry>>, shard: nat)
    requires forall s :: 0 <= s < |lists| ==> AllOf(lists[s], s)
    ensures Of(MergeAll(lists), shard) == if shard < |lists| then lists[shard] else []
  {
    hide Merge, Of, AllOf;
    if lists == [] {
      OfNone(shard);
    } else {
      var n := |lists| - 1;
      OfMergeAll(lists[..n], shard);
      OfMerge(MergeAll(lists[..n]), lists[n], n, shard);
    }
  }

  // Queries

  function DueBy(s: seq<Entry>, now: int): (d: seq<Entry>)
    ensures |d| <= |s| && d == s[..|d|]
  {
    if s == [] || s[0].due > now then [] else [s[0]] + DueBy(s[1..], now)
  }

  /** What a query with this start key still sees of a partition. */
  function Following(s: seq<Entry>, from: Option<Entry>): seq<Entry> {
    if from.None? then s
    else if s == [] then []
    else if s[0] == from.value then s[1..]
    else Following(s[1..], from)
  }

  lemma {:induction false} FollowingAt(s: seq<Entry>, p: nat)
    requires 0 < p <= |s| && forall i, j :: 0 <= i < j < |s| ==> s[i] != s[j]
    ensures Following(s, Some(s[p - 1])) == s[p..]
  {
    if p > 1 {
      assert s[0] != s[p - 1];
      FollowingAt(s[1..], p - 1);
    }
  }

  lemma {:induction false} DueBySkips(s: seq<Entry>, now: int, p: nat)
    requires p <= |DueBy(s, now)|
    ensures DueBy(s[p..], now) == DueBy(s, now)[p..]
  {
    if p == 0 {
      assert s[0..] == s;
    } else {
      DueBySkips(s[1..], now, p - 1);
      assert s[1..][p - 1..] == s[p..];
    }
  }

  /** Every entry of a partition that is due is in its due prefix. */
  lemma {:induction false} DueByIsAllDue(s: seq<Entry>, now: int, e: Entry)
    requires Ordered(s)
    ensures e in DueBy(s, now) <==> e in s && e.due <= now
  {
    if s != [] {
      assert s == [s[0]] + s[1..];
      DueByIsAllDue(s[1..], now, e);
    }
  }

  /** What DynamoDB answers to a query that could list these entries: the first of them, at least one if there are any and
      never more than the limit. It stops at the limit, and at a megabyte wherever that falls; stopped, it reports more,
      which it may also do at the last entry. */
  predicate Answers(due: seq<Entry>, limit: nat, items: seq<Entry>, more: bool) {
    && |items| <= |due| && items == due[..|items|] && |items| <= limit
    && (due != [] ==> items != []) && (|items| < |due| ==> more) && (more ==> items != [])
  }

  /** The query stopped for the size of its answer. */
  predicate StopsShort(limit: nat, items: seq<Entry>, more: bool) { more && |items| < limit }

  method Query(part: seq<Entry>, now: int, limit: nat, from: Option<Entry>) returns (items: seq<Entry>, more: bool)
    requires limit >= 1
    ensures Answers(DueBy(Following(part, from), now), limit, items, more)
  {
    var due := DueBy(Following(part, from), now);
    var fits: nat := *;
    items := Cut(due, if fits < 1 then 1 else if fits > limit then limit else fits);
    var atLast: bool := *;
    more := |items| < |due| || (due != [] && atLast);
  }

  // Pages

  function AllDue(index: seq<seq<Entry>>, now: int): (due: seq<seq<Entry>>)
    ensures |due| == |index| && forall s :: 0 <= s < |due| ==> due[s] == DueBy(index[s], now)
  {
    seq(|index|, s requires 0 <= s < |index| => DueBy(index[s], now))
  }

  /** The cursor stands for how much of each shard was handed out: nothing where it has no key. */
  ghost predicate Marks(index: seq<seq<Entry>>, cursor: map<nat, Entry>, pos: seq<nat>) {
    && |pos| == |index|
    && forall s :: 0 <= s < |index| ==>
         pos[s] <= |index[s]| && (s in cursor <==> pos[s] > 0) && (s in cursor ==> cursor[s] == index[s][pos[s] - 1])
  }

  function From(cursor: map<nat, Entry>, s: nat): Option<Entry> {
    if s in cursor then Some(cursor[s]) else None
  }

  lemma QueryAt(index: seq<seq<Entry>>, now: int, cursor: map<nat, Entry>, pos: seq<nat>, s: nat)
    requires IsIndex(index) && Marks(index, cursor, pos) && Within(AllDue(index, now), pos) && s < |index|
    ensures DueBy(Following(index[s], From(cursor, s)), now) == Skip(AllDue(index, now), pos)[s]
  {
    if s in cursor {
      FollowingAt(index[s], pos[s]);
    } else {
      assert index[s][0..] == index[s];
    }
    DueBySkips(index[s], now, pos[s]);
  }

  function Plus(pos: seq<nat>, counts: seq<nat>): (sum: seq<nat>)
    requires |pos| == |counts|
    ensures |sum| == |pos| && forall s :: 0 <= s < |sum| ==> sum[s] == pos[s] + counts[s]
  {
    seq(|pos|, s requires 0 <= s < |pos| => pos[s] + counts[s])
  }

  lemma SkipTwice(lists: seq<seq<Entry>>, pos: seq<nat>, counts: seq<nat>)
    requires Within(lists, pos) && Within(Skip(lists, pos), counts)
    ensures Within(lists, Plus(pos, counts))
    ensures Skip(lists, Plus(pos, counts)) == Skip(Skip(lists, pos), counts)
  {
    forall s | 0 <= s < |lists|
      ensures lists[s][pos[s]..][counts[s]..] == lists[s][pos[s] + counts[s]..]
    {
    }
    assert Skip(lists, Plus(pos, counts)) == Skip(Skip(lists, pos), counts);
  }

  lemma AllOfRest(index: seq<seq<Entry>>, now: int, pos: seq<nat>)
    requires IsIndex(index) && Within(AllDue(index, now), pos)
    ensures forall s :: 0 <= s < |index| ==>
              AllOf(Skip(AllDue(index, now), pos)[s], s) && Ordered(Skip(AllDue(index, now), pos)[s])
  {
  }

  /** The start keys of the next page: for each shard the last entry the page took, or the key it began with. */
  ghost predicate StartKeys(page: seq<Entry>, cursor: map<nat, Entry>, next: map<nat, Entry>) {
    && (forall s: nat :: s in next <==> s < DUE_SHARDS && (Of(page, s) != [] || s in cursor))
    && (forall s :: s in next ==>
          next[s] == if Of(page, s) != [] then Of(page, s)[|Of(page, s)| - 1] else cursor[s])
  }

  method NextCursor(page: seq<Entry>, cursor: map<nat, Entry>) returns (next: map<nat, Entry>)
    ensures StartKeys(page, cursor, next)
  {
    next := map[];
    for shard := 0 to DUE_SHARDS
      invariant forall s: nat :: s in next <==> s < shard && (Of(page, s) != [] || s in cursor)
      invariant forall s :: s in next ==>
                  next[s] == if Of(page, s) != [] then Of(page, s)[|Of(page, s)| - 1] else cursor[s]
    {
      var taken := Of(page, shard);
      if taken != [] {
        next := next[shard := taken[|taken| - 1]];
      } else if shard in cursor {
        next := next[shard := cursor[shard]];
      }
    }
  }

  lemma IndexIsFour(index: seq<seq<Entry>>)
    requires IsIndex(index)
    ensures |index| == DUE_SHARDS
  {
  }

  /** A page takes from each shard the next entries of it, in the shard's own order. */
  lemma TakenInOrder(index: seq<seq<Entry>>, now: int, pos: seq<nat>, counts: seq<nat>, page: seq<Entry>, s: nat)
    requires IsIndex(index) && Within(AllDue(index, now), pos) && s < |index|
    requires Within(Skip(AllDue(index, now), pos), counts)
    requires page == MergeAll(Take(Skip(AllDue(index, now), pos), counts))
    ensures pos[s] + counts[s] <= |index[s]| && Of(page, s) == index[s][pos[s]..pos[s] + counts[s]]
  {
    hide IsIndex, AllOf, Ordered, MergeAll, Of;
    var due := AllDue(index, now);
    var rest := Skip(due, pos);
    AllOfRest(index, now, pos);
    TakeKeepsShards(rest, counts);
    IndexIsFour(index);
    OfMergeAll(Take(rest, counts), s);
    SliceOfPrefix(index[s], due[s], pos[s], counts[s]);
  }

  lemma TakeKeepsShards(lists: seq<seq<Entry>>, counts: seq<nat>)
    requires Within(lists, counts) && forall s :: 0 <= s < |lists| ==> AllOf(lists[s], s)
    ensures forall s :: 0 <= s < |lists| ==> AllOf(Take(lists, counts)[s], s)
  {
  }

  lemma SliceOfPrefix(s: seq<Entry>, due: seq<Entry>, pos: nat, count: nat)
    requires |due| <= |s| && due == s[..|due|] && pos + count <= |due|
    ensures due[pos..][..count] == s[pos..pos + count]
  {
  }

  ghost predicate Took(index: seq<seq<Entry>>, pos: seq<nat>, counts: seq<nat>, page: seq<Entry>) {
    && |pos| == |counts| == |index|
    && forall s: nat :: s < |index| ==>
         pos[s] + counts[s] <= |index[s]| && Of(page, s) == index[s][pos[s]..pos[s] + counts[s]]
  }

  lemma TookNext(index: seq<seq<Entry>>, now: int, pos: seq<nat>, counts: seq<nat>, page: seq<Entry>)
    requires IsIndex(index) && Within(AllDue(index, now), pos)
    requires Within(Skip(AllDue(index, now), pos), counts)
    requires page == MergeAll(Take(Skip(AllDue(index, now), pos), counts))
    ensures Took(index, pos, counts, page)
  {
    forall s: nat | s < |index|
      ensures pos[s] + counts[s] <= |index[s]| && Of(page, s) == index[s][pos[s]..pos[s] + counts[s]]
    {
      TakenInOrder(index, now, pos, counts, page, s);
    }
  }

  lemma NextMarks(index: seq<seq<Entry>>, cursor: map<nat, Entry>, pos: seq<nat>, counts: seq<nat>,
                  page: seq<Entry>, next: map<nat, Entry>)
    requires |index| == DUE_SHARDS && Marks(index, cursor, pos) && Took(index, pos, counts, page)
    requires StartKeys(page, cursor, next)
    ensures Marks(index, next, Plus(pos, counts))
  {
    hide Of;
    forall s: nat | s < |index|
      ensures pos[s] + counts[s] <= |index[s]| && (s in next <==> pos[s] + counts[s] > 0)
      ensures s in next ==> next[s] == index[s][pos[s] + counts[s] - 1]
    {
      var taken := index[s][pos[s]..pos[s] + counts[s]];
      assert Of(page, s) == taken;
      assert taken != [] ==> taken[|taken| - 1] == index[s][pos[s] + counts[s] - 1];
    }
  }

  /** What a query gave of a shard: its next entries, as many as it came to. */
  predicate IsRead(rest: seq<Entry>, limit: nat, items: seq<Entry>) {
    |items| <= |rest| && items == rest[..|items|] && |items| <= limit && (rest != [] ==> items != [])
  }

  ghost predicate Reads(rest: seq<seq<Entry>>, limit: nat, lists: seq<seq<Entry>>) {
    |lists| == |rest| && forall s :: 0 <= s < |rest| ==> IsRead(rest[s], limit, lists[s])
  }

  lemma AnswerIsRead(rest: seq<Entry>, limit: nat, items: seq<Entry>, more: bool)
    requires Answers(rest, limit, items, more) && limit >= 1
    ensures IsRead(rest, limit, items)
    ensures !more ==> items == rest
    ensures more ==> items != []
    ensures !StopsShort(limit, items, more) ==> items == Cut(rest, limit) && (more ==> |items| == limit)
  {
  }

  /** The queries of one page; whether any reported more, and whether any stopped short of the limit doing so. */
  method QueryAll(index: seq<seq<Entry>>, now: int, limit: nat, given: map<nat, Entry>, ghost pos: seq<nat>)
    returns (lists: seq<seq<Entry>>, anyMore: bool, ghost short: bool)
    requires IsIndex(index) && Marks(index, given, pos) && Within(AllDue(index, now), pos) && limit >= 1
    ensures Reads(Skip(AllDue(index, now), pos), limit, lists)
    ensures !anyMore ==> lists == Skip(AllDue(index, now), pos)
    ensures anyMore ==> exists s :: 0 <= s < |lists| && lists[s] != []
    ensures !short ==> lists == CutAll(Skip(AllDue(index, now), pos), limit)
    ensures !short && anyMore ==> exists s :: 0 <= s < |lists| && |lists[s]| == limit
    ensures short ==> anyMore
  {
    hide IsIndex, Marks, DueBy, Following, Answers, IsRead, StopsShort, Cut;
    ghost var rest := Skip(AllDue(index, now), pos);
    assert |index| == DUE_SHARDS by { IndexIsFour(index); }
    lists := [];
    anyMore, short := false, false;
    ghost var at := 0;
    for shard := 0 to DUE_SHARDS
      invariant |lists| == shard
      invariant forall s :: 0 <= s < shard ==> IsRead(rest[s], limit, lists[s])
      invariant !anyMore ==> forall s :: 0 <= s < shard ==> lists[s] == rest[s]
      invariant anyMore ==> 0 <= at < shard && lists[at] != []
      invariant !short ==> forall s :: 0 <= s < shard ==> lists[s] == Cut(rest[s], limit)
      invariant !short && anyMore ==> |lists[at]| == limit
      invariant short ==> anyMore
    {
      var items, more := Query(index[shard], now, limit, From(given, shard));
      QueryAt(index, now, given, pos, shard);
      AnswerIsRead(rest[shard], limit, items, more);
      lists := lists + [items];
      anyMore := anyMore || more;
      short := short || StopsShort(limit, items, more);
      if more { at := shard; ShortReportsMore(limit, items, more); } else { NotShort(limit, items, more); }
    }
    if !short { assert lists == CutAll(rest, limit); }
  }

  lemma ShortReportsMore(limit: nat, items: seq<Entry>, more: bool)
    requires more
    ensures !StopsShort(limit, items, more) ==> |items| >= limit
  {
  }

  lemma NotShort(limit: nat, items: seq<Entry>, more: bool)
    requires !more
    ensures !StopsShort(limit, items, more)
  {
  }

  /** The page made of what the queries gave. */
  function PageOf(lists: seq<seq<Entry>>, limit: nat): seq<Entry> { Cut(SortByDue(Concat(lists)), limit) }

  /** A page, whatever was handed out before it and wherever its queries stopped. It is in order, takes from each shard the
      next entries of it, and its cursor stands for what is left, absent only when nothing is; while a cursor comes back,
      the page is not empty. It is full or the last exactly unless a query stopped short of the limit and the queries
      together gave too little; and if none stopped short, it is the next `limit` entries of the merged index. */
  method ListDuePage(index: seq<seq<Entry>>, now: int, limit: nat, cursor: Option<map<nat, Entry>>, ghost pos: seq<nat>)
    returns (page: Page, ghost next: seq<nat>, ghost short: bool, ghost lists: seq<seq<Entry>>)
    requires IsIndex(index) && limit >= 1
    requires Marks(index, if cursor.Some? then cursor.value else map[], pos) && Within(AllDue(index, now), pos)
    ensures Reads(Skip(AllDue(index, now), pos), limit, lists) && page.deliveries == PageOf(lists, limit)
    ensures Within(AllDue(index, now), next) && Ordered(page.deliveries)
    ensures TakesNext(Skip(AllDue(index, now), pos), page.deliveries, Skip(AllDue(index, now), next))
    ensures page.cursor.Some? ==> Marks(index, page.cursor.value, next) && page.deliveries != []
    ensures page.cursor.None? ==> Together(Skip(AllDue(index, now), next)) == multiset{}
    ensures |page.deliveries| == limit || page.cursor.None? <==> !(short && |MergeAll(lists)| < limit)
    ensures !short ==>
              && page.deliveries == Cut(MergeAll(Skip(AllDue(index, now), pos)), limit)
              && MergeAll(Skip(AllDue(index, now), pos)) == page.deliveries + MergeAll(Skip(AllDue(index, now), next))
  {
    hide IsIndex, Marks, StartKeys, Within, Reads, TakesNext, Ordered, MergeAll, Together, Concat, SortByDue;
    var given := if cursor.Some? then cursor.value else map[];
    ghost var rest := Skip(AllDue(index, now), pos);
    var read, anyMore;
    read, anyMore, short := QueryAll(index, now, limit, given, pos);
    lists := read;
    ReadsAreOrdered(index, now, pos, limit, lists);
    SortedConcatIsMergeAll(lists);
    var merged := SortByDue(Concat(read));
    var deliveries := Cut(merged, limit);
    var marks := NextCursor(deliveries, given);
    var drained := |deliveries| == |merged| && !anyMore;
    page := Page(deliveries, if drained then None else Some(marks));
    ghost var counts := Counts(rest, limit, lists, deliveries, short);
    next := Advance(index, now, given, pos, counts, deliveries, marks);
    PageIsInOrder(lists, limit);
    if !short { LongListsFill(lists, limit, anyMore); }
    if anyMore { SomethingIsTaken(lists); }
    if drained { NothingLeft(rest, lists, deliveries, Skip(AllDue(index, now), next)); }
  }

  lemma ReadsAreOrdered(index: seq<seq<Entry>>, now: int, pos: seq<nat>, limit: nat, lists: seq<seq<Entry>>)
    requires IsIndex(index) && Within(AllDue(index, now), pos) && Reads(Skip(AllDue(index, now), pos), limit, lists)
    ensures forall s :: 0 <= s < |lists| ==> Ordered(lists[s])
    ensures forall s :: 0 <= s < |lists| ==> Ordered(Skip(AllDue(index, now), pos)[s])
  {
    AllOfRest(index, now, pos);
  }

  /** If some query stopped at the limit, the page is full; a merge that fits the page means nothing was cut off. */
  lemma LongListsFill(lists: seq<seq<Entry>>, limit: nat, anyMore: bool)
    requires anyMore ==> exists s :: 0 <= s < |lists| && |lists[s]| == limit
    ensures anyMore ==> |MergeAll(lists)| >= limit
  {
    forall s | 0 <= s < |lists| ensures |MergeAll(lists)| >= |lists[s]| {
      MergeIsLong(lists, s);
    }
  }

  lemma SomethingIsTaken(lists: seq<seq<Entry>>)
    requires exists s :: 0 <= s < |lists| && lists[s] != []
    ensures MergeAll(lists) != []
  {
    var s :| 0 <= s < |lists| && lists[s] != [];
    MergeIsLong(lists, s);
  }

  lemma {:induction false} MergeIsLong(lists: seq<seq<Entry>>, s: nat)
    requires s < |lists|
    ensures |MergeAll(lists)| >= |lists[s]|
  {
    if s < |lists| - 1 { MergeIsLong(lists[..|lists| - 1], s); }
  }

  lemma PageIsInOrder(lists: seq<seq<Entry>>, limit: nat)
    requires forall s :: 0 <= s < |lists| ==> Ordered(lists[s])
    requires SortByDue(Concat(lists)) == MergeAll(lists)
    ensures Ordered(PageOf(lists, limit))
  {
    hide MergeAll, SortByDue, Concat, Together;
    MergeAllHolds(lists);
  }

  /** The page takes the next entries of each shard, and what it leaves is what it did not take. */
  ghost predicate TakesNext(rest: seq<seq<Entry>>, page: seq<Entry>, left: seq<seq<Entry>>) {
    && |left| == |rest| && Together(rest) == multiset(page) + Together(left)
    && forall s: nat :: s < |rest| ==> rest[s] == Of(page, s) + left[s]
  }

  /** How many of each shard are on the page. */
  lemma Counts(rest: seq<seq<Entry>>, limit: nat, lists: seq<seq<Entry>>, page: seq<Entry>, short: bool)
    returns (counts: seq<nat>)
    requires Reads(rest, limit, lists) && page == Cut(MergeAll(lists), limit)
    requires !short ==> lists == CutAll(rest, limit)
    ensures Within(rest, counts) && page == MergeAll(Take(rest, counts))
    ensures !short ==> page == Cut(MergeAll(rest), limit) && MergeAll(rest) == page + MergeAll(Skip(rest, counts))
  {
    hide MergeAll;
    if short {
      CutIsPrefix(MergeAll(lists), limit);
      counts := SplitMergeAll(lists, |page|);
      PrefixOfReads(rest, limit, lists, counts);
    } else {
      PageIsFirstOfMerge(rest, limit);
      CutIsPrefix(MergeAll(rest), limit);
      counts := SplitMergeAll(rest, |page|);
    }
  }

  lemma PrefixOfReads(rest: seq<seq<Entry>>, limit: nat, lists: seq<seq<Entry>>, counts: seq<nat>)
    requires Reads(rest, limit, lists) && Within(lists, counts)
    ensures Within(rest, counts) && Take(rest, counts) == Take(lists, counts)
  {
    forall s | 0 <= s < |rest| ensures counts[s] <= |rest[s]| && rest[s][..counts[s]] == lists[s][..counts[s]] {
      assert counts[s] <= |lists[s]|;
    }
    assert Take(rest, counts) == Take(lists, counts);
  }

  lemma Advance(index: seq<seq<Entry>>, now: int, given: map<nat, Entry>, pos: seq<nat>, counts: seq<nat>,
                deliveries: seq<Entry>, marks: map<nat, Entry>)
    returns (next: seq<nat>)
    requires IsIndex(index) && Marks(index, given, pos) && Within(AllDue(index, now), pos)
    requires Within(Skip(AllDue(index, now), pos), counts)
    requires deliveries == MergeAll(Take(Skip(AllDue(index, now), pos), counts))
    requires StartKeys(deliveries, given, marks)
    ensures Within(AllDue(index, now), next) && Marks(index, marks, next)
    ensures Skip(AllDue(index, now), next) == Skip(Skip(AllDue(index, now), pos), counts)
    ensures TakesNext(Skip(AllDue(index, now), pos), deliveries, Skip(AllDue(index, now), next))
  {
    hide IsIndex, Marks, StartKeys, Within, Took, MergeAll, TakesNext;
    var rest := Skip(AllDue(index, now), pos);
    IndexIsFour(index);
    TookNext(index, now, pos, counts, deliveries);
    assert |counts| == |pos| by { WithinSize(rest, counts); WithinSize(AllDue(index, now), pos); }
    next := Plus(pos, counts);
    SkipTwice(AllDue(index, now), pos, counts);
    NextMarks(index, given, pos, counts, deliveries, marks);
    PageTakesNext(index, now, pos, counts, deliveries);
  }

  lemma PageTakesNext(index: seq<seq<Entry>>, now: int, pos: seq<nat>, counts: seq<nat>, page: seq<Entry>)
    requires IsIndex(index) && Within(AllDue(index, now), pos)
    requires Within(Skip(AllDue(index, now), pos), counts)
    requires page == MergeAll(Take(Skip(AllDue(index, now), pos), counts))
    ensures TakesNext(Skip(AllDue(index, now), pos), page, Skip(Skip(AllDue(index, now), pos), counts))
  {
    hide IsIndex, MergeAll, Of, Ordered, AllOf, Together, AllDue;
    var rest := Skip(AllDue(index, now), pos);
    AllOfRest(index, now, pos);
    MergeTakesNext(rest, counts);
  }

  lemma MergeTakesNext(rest: seq<seq<Entry>>, counts: seq<nat>)
    requires Within(rest, counts) && forall s :: 0 <= s < |rest| ==> AllOf(rest[s], s) && Ordered(rest[s])
    ensures TakesNext(rest, MergeAll(Take(rest, counts)), Skip(rest, counts))
  {
    hide MergeAll, Of, Ordered, AllOf, Together;
    var taken, left := Take(rest, counts), Skip(rest, counts);
    TakeKeepsShards(rest, counts);
    TakeKeepsOrder(rest, counts);
    MergeAllHolds(taken);
    TogetherSplits(rest, counts);
    forall s: nat | s < |rest| ensures rest[s] == Of(MergeAll(taken), s) + left[s] {
      OfMergeAll(taken, s);
    }
  }

  lemma TakeKeepsOrder(lists: seq<seq<Entry>>, counts: seq<nat>)
    requires Within(lists, counts) && forall s :: 0 <= s < |lists| ==> Ordered(lists[s])
    ensures forall s :: 0 <= s < |lists| ==> Ordered(Take(lists, counts)[s])
  {
  }

  lemma {:induction false} TogetherSplits(lists: seq<seq<Entry>>, counts: seq<nat>)
    requires Within(lists, counts)
    ensures Together(lists) == Together(Take(lists, counts)) + Together(Skip(lists, counts))
  {
    if lists != [] {
      hide Together;
      var n := |lists| - 1;
      var taken, left := Take(lists, counts), Skip(lists, counts);
      TogetherSplits(lists[..n], counts[..n]);
      assert taken[..n] == Take(lists[..n], counts[..n]);
      assert left[..n] == Skip(lists[..n], counts[..n]);
      TogetherLast(lists);
      TogetherLast(taken);
      TogetherLast(left);
      Parts(lists[n], counts[n]);
    }
  }

  lemma TogetherLast(lists: seq<seq<Entry>>)
    requires lists != []
    ensures Together(lists) == Together(lists[..|lists| - 1]) + multiset(lists[|lists| - 1])
  {
  }

  lemma Parts(s: seq<Entry>, n: nat)
    requires n <= |s|
    ensures multiset(s) == multiset(s[..n]) + multiset(s[n..])
  {
    assert s == s[..n] + s[n..];
  }

  /** When the queries gave all there was and all of it is on the page, nothing is left. */
  lemma NothingLeft(rest: seq<seq<Entry>>, lists: seq<seq<Entry>>, page: seq<Entry>, left: seq<seq<Entry>>)
    requires lists == rest && page == MergeAll(lists) && TakesNext(rest, page, left)
    requires forall s :: 0 <= s < |lists| ==> Ordered(lists[s])
    ensures Together(left) == multiset{}
  {
    hide MergeAll, Ordered, Together, Of;
    MergeAllHolds(lists);
  }

  lemma CutIsPrefix(s: seq<Entry>, n: nat)
    ensures |Cut(s, n)| <= |s| && s[..|Cut(s, n)|] == Cut(s, n) && s == Cut(s, n) + s[|Cut(s, n)|..]
  {
  }

  lemma WithinSize(lists: seq<seq<Entry>>, counts: seq<nat>)
    requires Within(lists, counts)
    ensures |counts| == |lists|
  {
  }

  function Flatten(pages: seq<seq<Entry>>): seq<Entry> {
    if pages == [] then [] else Flatten(pages[..|pages| - 1]) + pages[|pages| - 1]
  }

  ghost predicate FullButLast(pages: seq<seq<Entry>>, limit: nat) {
    forall i :: 0 <= i < |pages| - 1 ==> |pages[i]| == limit
  }

  lemma NoPages(limit: nat)
    ensures FullButLast([], limit) && Flatten([]) == []
  {
  }

  lemma Regroup(a: seq<Entry>, b: seq<Entry>, c: seq<Entry>)
    ensures a + (b + c) == (a + b) + c
  {
  }

  lemma AppendPage(pages: seq<seq<Entry>>, page: seq<Entry>)
    ensures Flatten(pages + [page]) == Flatten(pages) + page
  {
    assert (pages + [page])[..|pages|] == pages;
  }

  lemma FullSoFar(pages: seq<seq<Entry>>, page: seq<Entry>, limit: nat)
    requires FullButLast(pages, limit) && (pages != [] ==> |pages[|pages| - 1]| == limit)
    ensures FullButLast(pages + [page], limit)
  {
  }

  lemma Start(index: seq<seq<Entry>>, now: int) returns (pos: seq<nat>)
    requires IsIndex(index)
    ensures Marks(index, map[], pos) && Within(AllDue(index, now), pos)
    ensures Skip(AllDue(index, now), pos) == AllDue(index, now)
  {
    pos := seq(DUE_SHARDS, _ => 0);
    assert Skip(AllDue(index, now), pos) == AllDue(index, now);
  }

  lemma OrderedParts(index: seq<seq<Entry>>, now: int)
    requires IsIndex(index)
    ensures forall s :: 0 <= s < |index| ==> Ordered(AllDue(index, now)[s])
  {
  }

  lemma {:induction false} OfConcat(a: seq<Entry>, b: seq<Entry>, shard: nat)
    ensures Of(a + b, shard) == Of(a, shard) + Of(b, shard)
  {
    hide Of;
    if a == [] {
      assert a + b == b;
      OfNone(shard);
      assert [] + Of(b, shard) == Of(b, shard);
    } else {
      var h, t := a[0], a[1..];
      OfConcat(t, b, shard);
      assert a == [h] + t && a + b == [h] + (t + b);
      OfCons(h, t, shard);
      OfCons(h, t + b, shard);
      Regroup(if h.shard == shard then [h] else [], Of(t, shard), Of(b, shard));
    }
  }

  /** What was handed out and what is left make up the whole: as entries, and shard by shard in the shard's order. */
  ghost predicate Partition(all: seq<seq<Entry>>, out: seq<Entry>, left: seq<seq<Entry>>) {
    && |left| == |all| && Together(all) == multiset(out) + Together(left)
    && forall s: nat :: s < |all| ==> all[s] == Of(out, s) + left[s]
  }

  lemma PartitionNext(all: seq<seq<Entry>>, out: seq<Entry>, rest: seq<seq<Entry>>, page: seq<Entry>, left: seq<seq<Entry>>)
    requires Partition(all, out, rest) && TakesNext(rest, page, left)
    ensures Partition(all, out + page, left)
    ensures |Together(left)| == |Together(rest)| - |page|
  {
    hide Together, Of;
    forall s: nat | s < |all| ensures all[s] == Of(out + page, s) + left[s] {
      OfConcat(out, page, s);
      Regroup(Of(out, s), Of(page, s), left[s]);
    }
    assert |Together(rest)| == |multiset(page)| + |Together(left)|;
  }

  lemma PartitionEnds(all: seq<seq<Entry>>, out: seq<Entry>, left: seq<seq<Entry>>)
    requires Partition(all, out, left) && Together(left) == multiset{}
    ensures multiset(out) == Together(all) && forall s: nat :: s < |all| ==> Of(out, s) == all[s]
    ensures MergeAll(left) == []
  {
    forall s: nat | s < |left| ensures left[s] == [] {
      TogetherHas(left, s);
    }
    NothingMerges(left);
  }

  lemma {:induction false} TogetherHas(lists: seq<seq<Entry>>, s: nat)
    requires s < |lists|
    ensures multiset(lists[s]) <= Together(lists)
    ensures Together(lists) == multiset{} ==> lists[s] == []
  {
    if s < |lists| - 1 { TogetherHas(lists[..|lists| - 1], s); }
    if lists[s] != [] { assert lists[s][0] in multiset(lists[s]); }
  }

  lemma {:induction false} NothingMerges(lists: seq<seq<Entry>>)
    requires forall s: nat :: s < |lists| ==> lists[s] == []
    ensures MergeAll(lists) == []
  {
    if lists != [] { NothingMerges(lists[..|lists| - 1]); }
  }

  /** So far no query stopped short, and the pages are the beginning of the one sorted index. */
  ghost predicate InTurn(all: seq<seq<Entry>>, pages: seq<seq<Entry>>, left: seq<seq<Entry>>, limit: nat) {
    MergeAll(all) == Flatten(pages) + MergeAll(left) && FullButLast(pages, limit)
  }

  lemma InTurnNext(all: seq<seq<Entry>>, pages: seq<seq<Entry>>, rest: seq<seq<Entry>>, page: seq<Entry>,
                   left: seq<seq<Entry>>, limit: nat)
    requires InTurn(all, pages, rest, limit) && (pages != [] ==> |pages[|pages| - 1]| == limit)
    requires MergeAll(rest) == page + MergeAll(left)
    ensures InTurn(all, pages + [page], left, limit)
  {
    hide MergeAll, Flatten, FullButLast;
    AppendPage(pages, page);
    FullSoFar(pages, page, limit);
    Regroup(Flatten(pages), page, MergeAll(left));
  }

  lemma InTurnStarts(all: seq<seq<Entry>>, limit: nat)
    ensures InTurn(all, [], all, limit)
  {
    NoPages(limit);
    assert [] + MergeAll(all) == MergeAll(all);
  }

  lemma InTurnEnds(all: seq<seq<Entry>>, pages: seq<seq<Entry>>, left: seq<seq<Entry>>, limit: nat)
    requires InTurn(all, pages, left, limit) && MergeAll(left) == []
    requires forall s :: 0 <= s < |all| ==> Ordered(all[s])
    ensures Flatten(pages) == MergeAll(all) && Ordered(Flatten(pages)) && FullButLast(pages, limit)
  {
    hide MergeAll, Flatten, FullButLast;
    MergeAllHolds(all);
    assert Flatten(pages) + [] == Flatten(pages);
  }

  /** Walking the pages by their cursor over an unchanging index ends, wherever the queries stop, and gives every due entry
      exactly once, each page in order and each shard in its own order over all pages. If no query stopped short of the
      limit, the pages in turn are the one sorted index, oldest first, and every page but the last is full. */
  method WalkDue(index: seq<seq<Entry>>, now: int, limit: nat) returns (pages: seq<seq<Entry>>, ghost short: bool)
    requires IsIndex(index) && limit >= 1
    ensures multiset(Flatten(pages)) == Together(AllDue(index, now))
    ensures forall s: nat :: s < DUE_SHARDS ==> Of(Flatten(pages), s) == DueBy(index[s], now)
    ensures forall i :: 0 <= i < |pages| ==> Ordered(pages[i])
    ensures !short ==>
              && Flatten(pages) == MergeAll(AllDue(index, now)) && Ordered(Flatten(pages)) && FullButLast(pages, limit)
  {
    hide IsIndex, Marks, Within, FullButLast, MergeAll, Flatten, Ordered, Together, Partition, TakesNext, PageOf, Reads, Of,
         InTurn, Cut, DueBy;
    OrderedParts(index, now);
    IndexIsFour(index);
    pages := [];
    short := false;
    ghost var all := AllDue(index, now);
    ghost var pos := Start(index, now);
    ghost var left := all;
    NoPages(limit);
    NothingOut(all);
    InTurnStarts(all, limit);
    var cursor: Option<map<nat, Entry>> := None;
    var more := true;
    while more
      invariant Within(all, pos) && left == Skip(all, pos) && Partition(all, Flatten(pages), left)
      invariant more ==> Marks(index, if cursor.Some? then cursor.value else map[], pos)
      invariant !more ==> Together(left) == multiset{}
      invariant forall i :: 0 <= i < |pages| ==> Ordered(pages[i])
      invariant !short ==> InTurn(all, pages, left, limit) && (more && pages != [] ==> |pages[|pages| - 1]| == limit)
      decreases more, |Together(left)|
    {
      ghost var rest := left;
      var page;
      ghost var stopped, lists;
      page, pos, stopped, lists := ListDuePage(index, now, limit, cursor, pos);
      left := Skip(all, pos);
      AppendPage(pages, page.deliveries);
      PartitionNext(all, Flatten(pages), rest, page.deliveries, left);
      if !short && !stopped { InTurnNext(all, pages, rest, page.deliveries, left, limit); }
      short := short || stopped;
      pages := pages + [page.deliveries];
      cursor := page.cursor;
      more := cursor.Some?;
    }
    PartitionEnds(all, Flatten(pages), left);
    if !short { InTurnEnds(all, pages, left, limit); }
  }

  lemma NothingOut(all: seq<seq<Entry>>)
    ensures Partition(all, [], all)
  {
    hide Together;
  }

  // When a page is the oldest of what is left

  /** Nothing left behind is due before anything on the page. */
  ghost predicate OldestFirst(page: seq<Entry>, left: seq<seq<Entry>>) {
    forall e, u :: e in page && u in Together(left) ==> e.due <= u.due
  }

  /** No shard's first entry that its query did not come to is due before the last of the page. */
  ghost predicate UnreadIsLater(rest: seq<seq<Entry>>, lists: seq<seq<Entry>>, page: seq<Entry>)
    requires |lists| == |rest|
  {
    forall s :: 0 <= s < |rest| && |lists[s]| < |rest[s]| && page != [] ==>
      page[|page| - 1].due <= rest[s][|lists[s]|].due
  }

  /** The page takes a prefix of what was read of each shard, and what was read and left behind is due no earlier than its
      last entry. */
  lemma PageOfReads(lists: seq<seq<Entry>>, limit: nat) returns (counts: seq<nat>)
    requires forall s :: 0 <= s < |lists| ==> Ordered(lists[s]) && AllOf(lists[s], s)
    ensures Within(lists, counts)
    ensures var page := PageOf(lists, limit);
            && Ordered(page) && (forall s: nat :: s < |lists| ==> Of(page, s) == lists[s][..counts[s]])
            && forall s, i :: 0 <= s < |lists| && counts[s] <= i < |lists[s]| && page != [] ==>
                 page[|page| - 1].due <= lists[s][i].due
  {
    hide MergeAll, Of, Together, SortByDue, Concat;
    SortedConcatIsMergeAll(lists);
    PageIsInOrder(lists, limit);
    var merged, page := MergeAll(lists), PageOf(lists, limit);
    CutIsPrefix(merged, limit);
    counts := SplitMergeAll(lists, |page|);
    TakeKeepsShards(lists, counts);
    forall s: nat | s < |lists| ensures Of(page, s) == lists[s][..counts[s]] {
      OfMergeAll(Take(lists, counts), s);
    }
    MergeAllHolds(lists);
    forall s, i | 0 <= s < |lists| && counts[s] <= i < |lists[s]| && page != []
      ensures page[|page| - 1].due <= lists[s][i].due
    {
      LeftIsLater(lists, counts, merged, page, s, i);
    }
  }

  lemma LeftIsLater(lists: seq<seq<Entry>>, counts: seq<nat>, merged: seq<Entry>, page: seq<Entry>, s: nat, i: nat)
    requires Within(lists, counts) && s < |lists| && counts[s] <= i < |lists[s]| && page != []
    requires Ordered(merged) && |page| <= |merged| && merged[..|page|] == page
    requires merged[|page|..] == MergeAll(Skip(lists, counts))
    requires forall k :: 0 <= k < |lists| ==> Ordered(lists[k])
    ensures page[|page| - 1].due <= lists[s][i].due
  {
    hide MergeAll, Together;
    var left := Skip(lists, counts);
    SkipKeepsOrder(lists, counts);
    MergeAllHolds(left);
    TogetherHas(left, s);
    assert left[s][i - counts[s]] == lists[s][i];
    assert lists[s][i] in multiset(left[s]);
    assert lists[s][i] in multiset(merged[|page|..]);
    var j :| 0 <= j < |merged[|page|..]| && merged[|page|..][j] == lists[s][i];
    assert merged[|page| + j] == lists[s][i] && merged[|page| - 1] == page[|page| - 1];
  }

  lemma SkipKeepsOrder(lists: seq<seq<Entry>>, counts: seq<nat>)
    requires Within(lists, counts) && forall s :: 0 <= s < |lists| ==> Ordered(lists[s])
    ensures forall s :: 0 <= s < |lists| ==> Ordered(Skip(lists, counts)[s])
  {
  }

  lemma {:induction false} InSome(lists: seq<seq<Entry>>, u: Entry) returns (s: nat, i: nat)
    requires u in Together(lists)
    ensures s < |lists| && i < |lists[s]| && lists[s][i] == u
  {
    var n := |lists| - 1;
    if u in multiset(lists[n]) {
      s := n;
      i :| 0 <= i < |lists[n]| && lists[n][i] == u;
    } else {
      s, i := InSome(lists[..n], u);
    }
  }

  /** A page holds the oldest of what is left exactly when no shard's first unread entry is due before the page's last. */
  lemma OldestFirstExactly(rest: seq<seq<Entry>>, limit: nat, lists: seq<seq<Entry>>, page: seq<Entry>, left: seq<seq<Entry>>)
    requires Reads(rest, limit, lists) && page == PageOf(lists, limit) && TakesNext(rest, page, left)
    requires forall s :: 0 <= s < |rest| ==> Ordered(rest[s]) && AllOf(rest[s], s)
    ensures OldestFirst(page, left) <==> UnreadIsLater(rest, lists, page)
  {
    hide Together, Of, PageOf, Ordered, AllOf;
    ReadsKeep(rest, limit, lists);
    var counts := PageOfReads(lists, limit);
    forall s: nat | s < |rest| ensures left[s] == rest[s][counts[s]..] {
      assert rest[s] == lists[s][..counts[s]] + left[s];
    }
    if UnreadIsLater(rest, lists, page) {
      forall e, u | e in page && u in Together(left) ensures e.due <= u.due {
        var s, i := InSome(left, u);
        LastIsLatest(page, e);
        assert rest[s][counts[s] + i] == u;
        if counts[s] + i < |lists[s]| {
          assert lists[s][counts[s] + i] == u;
        } else {
          LaterInShard(rest[s], |lists[s]|, counts[s] + i);
        }
      }
    }
    if OldestFirst(page, left) {
      forall s | 0 <= s < |rest| && |lists[s]| < |rest[s]| && page != []
        ensures page[|page| - 1].due <= rest[s][|lists[s]|].due
      {
        assert left[s][|lists[s]| - counts[s]] == rest[s][|lists[s]|];
        TogetherHas(left, s);
        assert rest[s][|lists[s]|] in multiset(left[s]);
      }
    }
  }

  lemma ReadsKeep(rest: seq<seq<Entry>>, limit: nat, lists: seq<seq<Entry>>)
    requires Reads(rest, limit, lists) && forall s :: 0 <= s < |rest| ==> Ordered(rest[s]) && AllOf(rest[s], s)
    ensures forall s :: 0 <= s < |lists| ==> Ordered(lists[s]) && AllOf(lists[s], s)
  {
  }

  lemma LastIsLatest(page: seq<Entry>, e: Entry)
    requires Ordered(page) && e in page
    ensures e.due <= page[|page| - 1].due
  {
  }

  lemma LaterInShard(s: seq<Entry>, i: nat, j: nat)
    requires Ordered(s) && i <= j < |s|
    ensures s[i].due <= s[j].due
  {
  }

  // A query that stops short

  lemma ConcatFour(a: seq<Entry>, b: seq<Entry>, c: seq<Entry>, d: seq<Entry>)
    ensures Concat([a, b, c, d]) == a + b + c + d
  {
    ConcatNext([a, b, c], d);
    ConcatNext([a, b], c);
    ConcatNext([a], b);
    ConcatNext([], a);
    assert [a, b, c] + [d] == [a, b, c, d] && [a, b] + [c] == [a, b, c] && [a] + [b] == [a, b] && [] + [a] == [a];
  }

  lemma ConcatNext(lists: seq<seq<Entry>>, last: seq<Entry>)
    ensures Concat(lists + [last]) == Concat(lists) + last
  {
    assert (lists + [last])[..|lists|] == lists;
  }

  lemma {:induction false} SortedStays(s: seq<Entry>)
    requires Ordered(s)
    ensures SortByDue(s) == s
  {
    hide Insert, Ordered;
    if s != [] {
      var front, last := s[..|s| - 1], s[|s| - 1];
      assert s == front + [last];
      OrderedFront(front, last);
      SortedStays(front);
      InsertLast(front, last);
    }
  }

  lemma PageIs(a: seq<Entry>, b: seq<Entry>, limit: nat)
    requires Ordered(a + b) && |a + b| <= limit
    ensures PageOf([a, b, [], []], limit) == a + b
  {
    ConcatFour(a, b, [], []);
    assert a + b + [] + [] == a + b;
    SortedStays(a + b);
  }

  lemma OfTwo(a: Entry, c: Entry, s: nat)
    requires a.shard == 0 && c.shard == 1
    ensures Of([a] + [c], s) == if s == 0 then [a] else if s == 1 then [c] else []
  {
    OfCons(a, [c], s);
    assert [c] == [c] + [];
    OfCons(c, [], s);
  }

  lemma TwoDue(a: Entry, b: Entry, now: int)
    requires a.due <= now && b.due <= now
    ensures DueBy([a, b], now) == [a, b] && DueBy([a], now) == [a]
  {
    assert [a, b][1..] == [b] && [b][1..] == [] && [a][1..] == [];
  }

  /** Two entries in one shard and a much later one in another: when the first shard's query stops after one entry, the
      page is not full, is not the last, and lists the late entry before an earlier one. */
  lemma ShortQueriesBreakTheOrder(limit: nat)
    returns (index: seq<seq<Entry>>, first: seq<seq<Entry>>, second: seq<seq<Entry>>)
    requires limit >= 3
    ensures IsIndex(index) && |first| == |second| == DUE_SHARDS
    // the first page's queries, one of which stops short, and the second's, which go on from that page
    ensures forall s :: 0 <= s < DUE_SHARDS ==> Answers(DueBy(index[s], 100), limit, first[s], s == 0)
    ensures StopsShort(limit, first[0], true)
    ensures forall s :: 0 <= s < DUE_SHARDS ==>
              && |Of(PageOf(first, limit), s)| <= |index[s]|
              && Answers(DueBy(index[s][|Of(PageOf(first, limit), s)|..], 100), limit, second[s], false)
    ensures 0 < |PageOf(first, limit)| < limit && PageOf(second, limit) != []
    ensures !Ordered(PageOf(first, limit) + PageOf(second, limit))
  {
    hide PageOf, Of, DueBy, IsIndex, Ordered;
    var a, b, c := Entry(0, 0, 0), Entry(0, 1, 1), Entry(1, 100, 2);
    index := [[a, b], [c], [], []];
    first := [[a], [c], [], []];
    second := [[b], [], [], []];
    SmallIndex(a, b, c);
    SmallPages(a, b, c, limit);
    TwoDue(a, b, 100);
    TwoDue(b, c, 100);
    TwoDue(c, c, 100);
    NoneDue(100);
    OfTwo(a, c, 0);
    OfTwo(a, c, 1);
    OfTwo(a, c, 2);
    OfTwo(a, c, 3);
    assert [a, b][1..] == [b] && [c][1..] == [] && [a, b][..1] == [a] && [c][..1] == [c] && [b][..1] == [b];
  }

  lemma SmallIndex(a: Entry, b: Entry, c: Entry)
    requires a == Entry(0, 0, 0) && b == Entry(0, 1, 1) && c == Entry(1, 100, 2)
    ensures IsIndex([[a, b], [c], [], []])
  {
  }

  lemma SmallPages(a: Entry, b: Entry, c: Entry, limit: nat)
    requires a == Entry(0, 0, 0) && b == Entry(0, 1, 1) && c == Entry(1, 100, 2) && limit >= 3
    ensures PageOf([[a], [c], [], []], limit) == [a] + [c] && PageOf([[b], [], [], []], limit) == [b]
    ensures !Ordered(PageOf([[a], [c], [], []], limit) + PageOf([[b], [], [], []], limit))
  {
    hide PageOf;
    PageIs([a], [c], limit);
    PageIs([b], [], limit);
    var pages := [a] + [c] + [b];
    assert pages[1] == c && pages[2] == b;
    assert [b] + [] == [b];
  }

  lemma NoneDue(now: int)
    ensures DueBy([], now) == []
  {
  }
}
