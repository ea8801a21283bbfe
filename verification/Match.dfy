/** Matching logs to rules, and the ordinals that name the matches of one transaction (packages/core/src/match.ts).

    Hex text is compared in lower case, so a hash here is the value it spells. */
module LogMatching {
  datatype Log = Log(blockNumber: nat, blockHash: nat, transaction: nat, logIndex: nat, content: nat)

  datatype LogMatch = LogMatch(rule: nat, log: Log)

  datatype KeyedMatch = KeyedMatch(match_: LogMatch, ordinal: nat)

  /** Whether a rule's topic, addresses, decoding and conditions all take a log: a pure function of the two. */
  type Hits = (nat, Log) -> bool

  ghost function Elems<T>(s: seq<T>): set<T> { set x | x in s }

  predicate SameLog(a: Log, b: Log) { a.blockHash == b.blockHash && a.logIndex == b.logIndex }

  predicate SameGroup(a: LogMatch, b: LogMatch) {
    a.log.blockHash == b.log.blockHash && a.log.transaction == b.log.transaction && a.rule == b.rule
  }

  // dedupeLogs

  function Dedupe(logs: seq<Log>): seq<Log> {
    if logs == [] then []
    else
      var front, last := logs[..|logs| - 1], logs[|logs| - 1];
      if exists x :: x in front && SameLog(x, last) then Dedupe(front) else Dedupe(front) + [last]
  }

  method DedupeLogs(logs: seq<Log>) returns (kept: seq<Log>)
    ensures kept == Dedupe(logs)
  {
    var seen: set<(nat, nat)> := {};
    kept := [];
    for i := 0 to |logs|
      invariant kept == Dedupe(logs[..i])
      invariant forall x :: x in logs[..i] ==> (x.blockHash, x.logIndex) in seen
      invariant forall p :: p in seen ==> exists x :: x in logs[..i] && (x.blockHash, x.logIndex) == p
    {
      var log := logs[i];
      var key := (log.blockHash, log.logIndex);
      assert logs[..i + 1][..i] == logs[..i];
      if key !in seen {
        kept := kept + [log];
        seen := seen + {key};
      }
    }
    assert logs[..|logs|] == logs;
  }

  /** Copies of a log agree, and so do the numbers of a block: what a node reports is a function of the chain. */
  ghost predicate Coherent(logs: set<Log>) {
    forall a, b :: a in logs && b in logs ==>
      (SameLog(a, b) ==> a == b) && (a.blockHash == b.blockHash ==> a.blockNumber == b.blockNumber)
  }

  ghost predicate NoTwice(logs: seq<Log>) { forall i, j :: 0 <= i < j < |logs| ==> !SameLog(logs[i], logs[j]) }

  /** Of coherent logs, dedupe keeps exactly one copy each. */
  lemma {:induction false} DedupeKeepsEach(logs: seq<Log>)
    requires Coherent(Elems(logs))
    ensures NoTwice(Dedupe(logs))
    ensures Elems(Dedupe(logs)) == Elems(logs)
  {
    if logs != [] {
      var front, last := logs[..|logs| - 1], logs[|logs| - 1];
      assert logs == front + [last];
      DedupeKeepsEach(front);
      forall l ensures l in Dedupe(logs) <==> l in logs {
        assert l in Dedupe(front) <==> l in Elems(Dedupe(front));
        assert l in front <==> l in Elems(front);
        if x :| x in front && SameLog(x, last) {
          assert x in Elems(logs) && last in Elems(logs);
          assert last in Elems(front);
        }
      }
      if !exists x :: x in front && SameLog(x, last) {
        forall i | 0 <= i < |Dedupe(front)| ensures !SameLog(Dedupe(front)[i], last) {
          assert Dedupe(front)[i] in Elems(Dedupe(front));
        }
      }
    }
  }

  // matchLog

  function MatchLog(rules: seq<nat>, log: Log, hits: Hits): seq<LogMatch> {
    if rules == [] then []
    else MatchLog(rules[..|rules| - 1], log, hits)
         + (if hits(rules[|rules| - 1], log) then [LogMatch(rules[|rules| - 1], log)] else [])
  }

  function MatchLogs(rules: seq<nat>, logs: seq<Log>, hits: Hits): seq<LogMatch> {
    if logs == [] then []
    else MatchLogs(rules, logs[..|logs| - 1], hits) + MatchLog(rules, logs[|logs| - 1], hits)
  }

  ghost predicate Distinct<T>(s: seq<T>) { forall i, j :: 0 <= i < j < |s| ==> s[i] != s[j] }

  /** The matches as a set: which logs there are, and which of the rules take each. */
  ghost function MatchesOf(rules: set<nat>, logs: set<Log>, hits: Hits): set<LogMatch> {
    set r, l | r in rules && l in logs && hits(r, l) :: LogMatch(r, l)
  }

  lemma {:induction false} MatchLogHolds(rules: seq<nat>, log: Log, hits: Hits)
    requires Distinct(rules)
    ensures Distinct(MatchLog(rules, log, hits))
    ensures forall m :: m in MatchLog(rules, log, hits) <==> m.rule in rules && m.log == log && hits(m.rule, m.log)
  {
    if rules != [] {
      var front, last := rules[..|rules| - 1], rules[|rules| - 1];
      assert rules == front + [last];
      MatchLogHolds(front, log, hits);
      assert last !in front;
    }
  }

  lemma {:induction false} MatchLogsHolds(rules: seq<nat>, logs: seq<Log>, hits: Hits)
    requires Distinct(rules) && NoTwice(logs)
    ensures Distinct(MatchLogs(rules, logs, hits))
    ensures forall m :: m in MatchLogs(rules, logs, hits) <==> m.rule in rules && m.log in logs && hits(m.rule, m.log)
  {
    if logs != [] {
      var front, last := logs[..|logs| - 1], logs[|logs| - 1];
      assert logs == front + [last];
      MatchLogsHolds(rules, front, hits);
      MatchLogHolds(rules, last, hits);
      assert last !in front;
    }
  }

  // assignOrdinals

  /** The comparator of the sort. */
  predicate Earlier(a: Log, b: Log) {
    a.blockNumber < b.blockNumber || (a.blockNumber == b.blockNumber && a.logIndex < b.logIndex)
  }

  /** The order a stable sort by that comparator leaves: ties keep their places in the input. */
  predicate Before(ms: seq<LogMatch>, j: nat, i: nat)
    requires j < |ms| && i < |ms|
  {
    Earlier(ms[j].log, ms[i].log) || (!Earlier(ms[i].log, ms[j].log) && j < i)
  }

  predicate Fits(ms: seq<LogMatch>, order: seq<nat>) { forall k :: 0 <= k < |order| ==> order[k] < |ms| }

  /** Where a stable insertion puts index i: behind everything it does not come before. */
  function Place(ms: seq<LogMatch>, order: seq<nat>, i: nat): (placed: seq<nat>)
    requires i < |ms| && Fits(ms, order)
    ensures Fits(ms, placed) && |placed| == |order| + 1
    ensures forall j :: j in placed <==> j in order || j == i
  {
    if order != [] && Before(ms, i, order[|order| - 1]) then
      assert order == order[..|order| - 1] + [order[|order| - 1]];
      Place(ms, order[..|order| - 1], i) + [order[|order| - 1]]
    else order + [i]
  }

  /** The sorted order of the first n matches. */
  function Order(ms: seq<LogMatch>, n: nat): (order: seq<nat>)
    requires n <= |ms|
    ensures Fits(ms, order) && |order| == n
  {
    if n == 0 then [] else Place(ms, Order(ms, n - 1), n - 1)
  }

  lemma {:induction false} OrderHoldsEach(ms: seq<LogMatch>, n: nat, j: nat)
    requires n <= |ms|
    ensures j in Order(ms, n) <==> j < n
  {
    if n > 0 {
      OrderHoldsEach(ms, n - 1, j);
      var rest := Order(ms, n - 1);
      assert Order(ms, n) == Place(ms, rest, n - 1);
    }
  }

  ghost predicate Sorted(ms: seq<LogMatch>, order: seq<nat>)
    requires Fits(ms, order)
  {
    forall a, b :: 0 <= a < b < |order| ==> Before(ms, order[a], order[b])
  }

  lemma BeforeIsStrict(ms: seq<LogMatch>, a: nat, b: nat, c: nat)
    requires a < |ms| && b < |ms| && c < |ms|
    ensures Before(ms, a, b) && Before(ms, b, c) ==> Before(ms, a, c)
    ensures a != b ==> (Before(ms, a, b) <==> !Before(ms, b, a))
    ensures !Before(ms, a, a)
  {
  }

  lemma {:induction false} PlaceKeepsSorted(ms: seq<LogMatch>, order: seq<nat>, i: nat)
    requires i < |ms| && Fits(ms, order) && i !in order && Sorted(ms, order)
    ensures Sorted(ms, Place(ms, order, i))
  {
    if order == [] {
    } else {
      var front, last := order[..|order| - 1], order[|order| - 1];
      assert order == front + [last];
      if Before(ms, i, last) {
        PlaceKeepsSorted(ms, front, i);
        var placed := Place(ms, front, i);
        forall a | 0 <= a < |placed| ensures Before(ms, placed[a], last) {
          assert placed[a] in placed;
          if placed[a] != i {
            assert placed[a] in front;
          }
        }
      } else {
        forall a | 0 <= a < |order| ensures Before(ms, order[a], i) {
          BeforeIsStrict(ms, last, i, i);
          if a < |order| - 1 { BeforeIsStrict(ms, order[a], last, i); }
        }
      }
    }
  }

  lemma {:induction false} OrderIsSorted(ms: seq<LogMatch>, n: nat)
    requires n <= |ms|
    ensures Sorted(ms, Order(ms, n))
  {
    hide Place, Before;
    if n > 0 {
      OrderIsSorted(ms, n - 1);
      OrderHoldsEach(ms, n - 1, n - 1);
      PlaceKeepsSorted(ms, Order(ms, n - 1), n - 1);
    }
  }

  /** The matches of i's group that the sort puts before it. */
  ghost function Ahead(ms: seq<LogMatch>, i: nat): set<nat>
    requires i < |ms|
  {
    set j: nat | j < |ms| && SameGroup(ms[j], ms[i]) && Before(ms, j, i)
  }

  method AssignOrdinals(ms: seq<LogMatch>) returns (keyed: seq<KeyedMatch>)
    ensures |keyed| == |ms|
    ensures forall i :: 0 <= i < |ms| ==> keyed[i] == KeyedMatch(ms[i], |Ahead(ms, i)|)
  {
    hide Order, Done, Ahead, Sorted;
    var ordinals := new nat[|ms|];
    var counts: map<(nat, nat, nat), nat> := map[];
    var order := Order(ms, |ms|);
    OrderIsSorted(ms, |ms|);
    NoneDone(ms, order);
    for n := 0 to |order|
      invariant forall g :: GroupCount(counts, g) == |Done(ms, order, n, g)|
      invariant forall a :: 0 <= a < n ==> ordinals[order[a]] == |Ahead(ms, order[a])|
    {
      var i := order[n];
      var group := GroupOf(ms[i]);
      var ordinal := if group in counts then counts[group] else 0;
      DoneIsAhead(ms, order, n);
      SortedIsDistinct(ms, order, n);
      counts := counts[group := ordinal + 1];
      forall g ensures GroupCount(counts, g) == |Done(ms, order, n + 1, g)| {
        CountOne(ms, order, n, g);
      }
      ordinals[i] := ordinal;
      assert forall a :: 0 <= a < n ==> order[a] == order[..n][a] && order[a] != i;
    }
    keyed := [];
    for i := 0 to |ms|
      invariant |keyed| == i
      invariant forall a :: 0 <= a < |order| ==> ordinals[order[a]] == |Ahead(ms, order[a])|
      invariant forall a :: 0 <= a < i ==> keyed[a] == KeyedMatch(ms[a], |Ahead(ms, a)|)
    {
      OrderHoldsEach(ms, |ms|, i);
      var a :| 0 <= a < |order| && order[a] == i;
      assert ordinals[order[a]] == |Ahead(ms, order[a])|;
      keyed := keyed + [KeyedMatch(ms[i], ordinals[i])];
    }
  }

  function GroupOf(m: LogMatch): (nat, nat, nat) { (m.log.blockHash, m.log.transaction, m.rule) }

  ghost function GroupCount(counts: map<(nat, nat, nat), nat>, g: (nat, nat, nat)): nat {
    if g in counts then counts[g] else 0
  }

  /** The matches of a group among the first n of the sorted order. */
  ghost function Done(ms: seq<LogMatch>, order: seq<nat>, n: nat, g: (nat, nat, nat)): set<nat>
    requires Fits(ms, order) && n <= |order|
  {
    set a | 0 <= a < n && GroupOf(ms[order[a]]) == g :: order[a]
  }

  lemma NoneDone(ms: seq<LogMatch>, order: seq<nat>)
    requires Fits(ms, order)
    ensures forall g :: Done(ms, order, 0, g) == {}
  {
  }

  lemma CountOne(ms: seq<LogMatch>, order: seq<nat>, n: nat, g: (nat, nat, nat))
    requires Fits(ms, order) && n < |order| && order[n] !in order[..n]
    ensures |Done(ms, order, n + 1, g)| == |Done(ms, order, n, g)| + if g == GroupOf(ms[order[n]]) then 1 else 0
  {
    if g == GroupOf(ms[order[n]]) {
      assert Done(ms, order, n + 1, g) == Done(ms, order, n, g) + {order[n]};
      assert forall a :: 0 <= a < n ==> order[a] == order[..n][a];
    } else {
      assert Done(ms, order, n + 1, g) == Done(ms, order, n, g);
    }
  }

  lemma SortedIsDistinct(ms: seq<LogMatch>, order: seq<nat>, n: nat)
    requires Fits(ms, order) && Sorted(ms, order) && n < |order|
    ensures order[n] !in order[..n]
  {
    forall a | 0 <= a < n ensures order[a] != order[n] {
      BeforeIsStrict(ms, order[a], order[n], order[a]);
    }
  }

  lemma DoneIsAhead(ms: seq<LogMatch>, order: seq<nat>, n: nat)
    requires order == Order(ms, |ms|) && Sorted(ms, order) && n < |order|
    ensures Done(ms, order, n, GroupOf(ms[order[n]])) == Ahead(ms, order[n])
  {
    hide Order, Before, SameGroup, Sorted;
    var i := order[n];
    forall j: nat ensures j in Done(ms, order, n, GroupOf(ms[i])) <==> j in Ahead(ms, i) {
      if j < |ms| {
        OrderHoldsEach(ms, |ms|, j);
        var a :| 0 <= a < |order| && order[a] == j;
        PlaceTells(ms, order, n, a);
        SameGroupOf(ms[j], ms[i]);
      }
    }
  }

  /** In a sorted order, an index stands before another exactly when its match comes before. */
  lemma PlaceTells(ms: seq<LogMatch>, order: seq<nat>, n: nat, a: nat)
    requires Fits(ms, order) && Sorted(ms, order) && n < |order| && a < |order|
    ensures Before(ms, order[a], order[n]) <==> a < n
    ensures forall b :: 0 <= b < |order| && order[b] == order[a] ==> b == a
  {
    forall b | 0 <= b < |order| && order[b] == order[a] ensures b == a {
      BeforeIsStrict(ms, order[a], order[a], order[a]);
    }
    BeforeIsStrict(ms, order[a], order[n], order[a]);
  }

  lemma SameGroupOf(x: LogMatch, y: LogMatch)
    ensures SameGroup(x, y) <==> GroupOf(x) == GroupOf(y)
  {
  }

  // What an ordinal is

  /** The group of a match, as a set: what was logged and matched in its block by its transaction for its rule. */
  ghost function Group(ms: set<LogMatch>, m: LogMatch): set<LogMatch> {
    set x | x in ms && SameGroup(x, m)
  }

  /** The ordinal of a match: how many of its group were logged before it. */
  ghost function Ordinal(ms: set<LogMatch>, m: LogMatch): nat {
    |set x | x in Group(ms, m) && x.log.logIndex < m.log.logIndex|
  }

  ghost predicate CoherentMatches(ms: seq<LogMatch>) {
    && Distinct(ms)
    && forall i, j :: 0 <= i < |ms| && 0 <= j < |ms| && i != j && SameGroup(ms[i], ms[j]) ==>
         ms[i].log.blockNumber == ms[j].log.blockNumber && ms[i].log.logIndex != ms[j].log.logIndex
  }

  lemma {:induction false} ImageSize(ms: seq<LogMatch>, js: set<nat>, image: set<LogMatch>)
    requires Distinct(ms) && forall j :: j in js ==> j < |ms|
    requires image == set j | j in js :: ms[j]
    ensures |image| == |js|
  {
    if js != {} {
      var j :| j in js;
      assert image - {ms[j]} == set k | k in js - {j} :: ms[k];
      ImageSize(ms, js - {j}, image - {ms[j]});
    } else {
      assert image == {};
    }
  }

  /** What assignOrdinals counts is the ordinal of the match in the set of matches. */
  lemma AheadIsOrdinal(ms: seq<LogMatch>, i: nat)
    requires i < |ms| && CoherentMatches(ms)
    ensures |Ahead(ms, i)| == Ordinal(Elems(ms), ms[i])
  {
    var all := Elems(ms);
    var image := set x | x in Group(all, ms[i]) && x.log.logIndex < ms[i].log.logIndex;
    forall x ensures x in image <==> exists j :: j in Ahead(ms, i) && ms[j] == x {
      if x in image {
        var j: nat :| j < |ms| && ms[j] == x;
        assert j in Ahead(ms, i);
      }
    }
    assert image == set j | j in Ahead(ms, i) :: ms[j];
    ImageSize(ms, Ahead(ms, i), image);
  }

  /** The whole of what the scans do with the logs of a read: dedupe, match, number. Every match of a coherent read
      comes out once, with the ordinal it has among all of them. */
  method KeyedMatches(rules: seq<nat>, logs: seq<Log>, hits: Hits) returns (keyed: seq<KeyedMatch>)
    requires Distinct(rules) && Coherent(Elems(logs))
    ensures var all := MatchesOf(Elems(rules), Elems(logs), hits);
            forall k :: k in keyed <==> k.match_ in all && k.ordinal == Ordinal(all, k.match_)
    ensures Distinct(keyed)
  {
    var kept := DedupeLogs(logs);
    DedupeKeepsEach(logs);
    var ms := MatchLogs(rules, kept, hits);
    MatchLogsHolds(rules, kept, hits);
    SameMatches(rules, logs, kept, hits, ms);
    keyed := AssignOrdinals(ms);
    forall i | 0 <= i < |ms| ensures |Ahead(ms, i)| == Ordinal(Elems(ms), ms[i]) {
      AheadIsOrdinal(ms, i);
    }
    forall k ensures k in keyed ==> k.match_ in ms && k.ordinal == Ordinal(Elems(ms), k.match_) {}
    forall m | m in ms ensures KeyedMatch(m, Ordinal(Elems(ms), m)) in keyed {
      var i :| 0 <= i < |ms| && ms[i] == m;
      assert keyed[i] in keyed;
    }
  }

  lemma SameMatches(rules: seq<nat>, logs: seq<Log>, kept: seq<Log>, hits: Hits, ms: seq<LogMatch>)
    requires Coherent(Elems(logs)) && NoTwice(kept)
    requires Elems(kept) == Elems(logs)
    requires Distinct(ms)
    requires forall m :: m in ms <==> m.rule in rules && m.log in kept && hits(m.rule, m.log)
    ensures Elems(ms) == MatchesOf(Elems(rules), Elems(logs), hits)
    ensures CoherentMatches(ms)
  {
    forall l ensures l in kept <==> l in logs {
      assert l in kept <==> l in Elems(kept);
    }
    forall m ensures m in Elems(ms) <==> m in MatchesOf(Elems(rules), Elems(logs), hits) {}
    forall i, j | 0 <= i < |ms| && 0 <= j < |ms| && i != j && SameGroup(ms[i], ms[j])
      ensures ms[i].log.blockNumber == ms[j].log.blockNumber && ms[i].log.logIndex != ms[j].log.logIndex
    {
      assert ms[i] in ms && ms[j] in ms;
      assert ms[i].log in Elems(logs) && ms[j].log in Elems(logs);
      assert ms[i] != ms[j];
      assert ms[i].log != ms[j].log;
    }
  }

  // What an ordinal depends on

  /** Any two reads with the same logs name the same matches alike: order and copies do not count. */
  lemma OrderAndCopiesDoNotCount(rules: set<nat>, a: seq<Log>, b: seq<Log>, hits: Hits, m: LogMatch)
    requires forall l :: l in a <==> l in b
    ensures var x, y := MatchesOf(rules, Elems(a), hits), MatchesOf(rules, Elems(b), hits);
            (m in x <==> m in y) && Ordinal(x, m) == Ordinal(y, m)
  {
    assert Elems(a) == Elems(b);
  }

  /** A match keeps its ordinal in any other read, for any other rules, that has the same logs of its block and
      transaction among those its rule takes. */
  lemma OrdinalIsLocal(rulesA: set<nat>, rulesB: set<nat>, a: set<Log>, b: set<Log>, hits: Hits, m: LogMatch)
    requires m.rule in rulesA && m.rule in rulesB
    requires forall l: Log :: l.blockHash == m.log.blockHash && l.transaction == m.log.transaction && hits(m.rule, l) ==>
               (l in a <==> l in b)
    ensures var x, y := MatchesOf(rulesA, a, hits), MatchesOf(rulesB, b, hits);
            (m in x <==> m in y) && Group(x, m) == Group(y, m) && Ordinal(x, m) == Ordinal(y, m)
  {
    var x, y := MatchesOf(rulesA, a, hits), MatchesOf(rulesB, b, hits);
    assert Group(x, m) == Group(y, m);
  }

  /** A range split at block boundaries names exactly the matches the whole range does, each the same. */
  lemma SplittingDoesNotCount(rules: set<nat>, a: set<Log>, b: set<Log>, hits: Hits, k: KeyedMatch)
    requires forall x, y :: x in a && y in b ==> x.blockHash != y.blockHash
    ensures var whole := MatchesOf(rules, a + b, hits);
            var left, right := MatchesOf(rules, a, hits), MatchesOf(rules, b, hits);
            (k.match_ in whole && k.ordinal == Ordinal(whole, k.match_))
            <==> || (k.match_ in left && k.ordinal == Ordinal(left, k.match_))
                 || (k.match_ in right && k.ordinal == Ordinal(right, k.match_))
  {
    var m := k.match_;
    if m.rule in rules && m.log in a {
      OrdinalIsLocal(rules, rules, a + b, a, hits, m);
    }
    if m.rule in rules && m.log in b {
      OrdinalIsLocal(rules, rules, a + b, b, hits, m);
    }
  }

  /** In a group, ordinals follow the log order and are the numbers below the group's size, each once. */
  lemma GroupIsNumbered(ms: set<LogMatch>, m: LogMatch, x: LogMatch, y: LogMatch)
    requires forall p, q :: p in Group(ms, m) && q in Group(ms, m) && p != q ==> p.log.logIndex != q.log.logIndex
    requires x in Group(ms, m) && y in Group(ms, m)
    ensures Ordinal(ms, x) < |Group(ms, m)|
    ensures x.log.logIndex < y.log.logIndex <==> Ordinal(ms, x) < Ordinal(ms, y)
    ensures x == y <==> Ordinal(ms, x) == Ordinal(ms, y)
  {
    var g := Group(ms, m);
    assert Group(ms, x) == g && Group(ms, y) == g;
    var aheadX := set z | z in g && z.log.logIndex < x.log.logIndex;
    var aheadY := set z | z in g && z.log.logIndex < y.log.logIndex;
    ProperSubsetSmaller(aheadX, g, x);
    if x.log.logIndex < y.log.logIndex {
      ProperSubsetSmaller(aheadX, aheadY, x);
    } else if y.log.logIndex < x.log.logIndex {
      ProperSubsetSmaller(aheadY, aheadX, y);
    }
  }

  lemma ProperSubsetSmaller<T>(a: set<T>, b: set<T>, missing: T)
    requires a <= b && missing in b && missing !in a
    ensures |a| < |b|
  {
    SubsetSize(a, b - {missing});
  }

  lemma {:induction false} SubsetSize<T>(a: set<T>, b: set<T>)
    requires a <= b
    ensures |a| <= |b|
  {
    if a != {} {
      var x :| x in a;
      SubsetSize(a - {x}, b - {x});
    }
  }

  /** Every number below the size of a group is some member's ordinal. */
  lemma {:induction false} EveryNumberIsTaken(g: set<LogMatch>, n: nat)
    requires forall p, q :: p in g && q in g && p != q ==> p.log.logIndex != q.log.logIndex
    requires n < |g|
    ensures exists x :: x in g && |set z | z in g && z.log.logIndex < x.log.logIndex| == n
  {
    var top := Latest(g);
    var below := set z | z in g && z.log.logIndex < top.log.logIndex;
    assert below == g - {top};
    if n < |below| {
      EveryNumberIsTaken(below, n);
      var x :| x in below && |set z | z in below && z.log.logIndex < x.log.logIndex| == n;
      assert (set z | z in below && z.log.logIndex < x.log.logIndex)
          == set z | z in g && z.log.logIndex < x.log.logIndex;
    }
  }

  lemma {:induction false} Latest(g: set<LogMatch>) returns (top: LogMatch)
    requires g != {}
    ensures top in g && forall z :: z in g ==> z.log.logIndex <= top.log.logIndex
  {
    top :| top in g;
    if g != {top} {
      var rest := Latest(g - {top});
      if rest.log.logIndex > top.log.logIndex { top := rest; }
    }
  }
}
