/** The keys of the matches of a range of blocks: what both scans of the monitor make of the logs they read
    (packages/core/src/match.ts, services/monitor/src/cycle.ts). */
module MatchKeys {
  import opened FetchLogs
  import opened LogMatching
  import opened MonitorProtocol

  /** Every block ever mined, by hash, with the logs that some rule's filter lets through; and the hash of the canonical
      block of each number. */
  datatype Ledger = Ledger(mined: nat -> seq<Log>, canonical: nat -> nat) {
    function Block(b: nat): seq<Log> { mined(canonical(b)) }

    ghost predicate Valid() {
      && (forall h: nat, l :: l in mined(h) ==> l.blockHash == h)
      && (forall h: nat, x, y :: x in mined(h) && y in mined(h) ==>
            x.blockNumber == y.blockNumber && (x.logIndex == y.logIndex ==> x == y))
      && (forall b: nat, l :: l in Block(b) ==> l.blockNumber == b)
    }

    /** Logs of blocks that are or were part of the chain. */
    ghost predicate Holds(logs: seq<Log>) { forall l :: l in logs ==> l in mined(l.blockHash) }

    /** The canonical logs of a range, block after block. */
    function Range(from: int, to: int): seq<Log>
      decreases (to - from)
    {
      if from > to || to < 0 then [] else Range(from, to - 1) + Block(to)
    }
  }

  lemma {:induction false} RangeHolds(ledger: Ledger, from: int, to: int, l: Log)
    requires ledger.Valid()
    ensures l in ledger.Range(from, to) <==> from <= l.blockNumber <= to && l in ledger.Block(l.blockNumber)
    decreases (to - from)
  {
    if from <= to && to >= 0 { RangeHolds(ledger, from, to - 1, l); }
  }

  lemma LedgerIsCoherent(ledger: Ledger, logs: seq<Log>)
    requires ledger.Valid() && ledger.Holds(logs)
    ensures Coherent(Elems(logs))
  {
  }

  function KeyOf(k: KeyedMatch): Key { Key(k.match_.log.transaction, k.ordinal, k.match_.rule) }

  /** The match is one of a read of these logs, and this is its key there. */
  ghost predicate IsKeyIn(rules: set<nat>, logs: set<Log>, hits: Hits, m: LogMatch, k: Key) {
    var all := MatchesOf(rules, logs, hits);
    m in all && k == KeyOf(KeyedMatch(m, Ordinal(all, m)))
  }

  /** The keys a read of these logs gives. */
  ghost function KeysIn(rules: set<nat>, logs: set<Log>, hits: Hits): set<Key> {
    set m | m in MatchesOf(rules, logs, hits) :: KeyOf(KeyedMatch(m, Ordinal(MatchesOf(rules, logs, hits), m)))
  }

  lemma KeysInHolds(rules: set<nat>, logs: set<Log>, hits: Hits, k: Key)
    ensures k in KeysIn(rules, logs, hits) <==> exists m :: IsKeyIn(rules, logs, hits, m, k)
  {
    var all := MatchesOf(rules, logs, hits);
    if k in KeysIn(rules, logs, hits) {
      var m :| m in all && k == KeyOf(KeyedMatch(m, Ordinal(all, m)));
      assert IsKeyIn(rules, logs, hits, m, k);
    }
  }

  /** Two reads that agree on a match's block name it alike. */
  lemma SameKey(rules: set<nat>, a: set<Log>, b: set<Log>, hits: Hits, m: LogMatch, k: Key)
    requires forall l: Log :: l.blockHash == m.log.blockHash && hits(m.rule, l) ==> (l in a <==> l in b)
    ensures IsKeyIn(rules, a, hits, m, k) <==> IsKeyIn(rules, b, hits, m, k)
  {
    if m.rule in rules { OrdinalIsLocal(rules, rules, a, b, hits, m); }
  }

  /** The logs of one block in a range are the block's. */
  lemma BlockOfRange(ledger: Ledger, from: int, to: int, b: nat, l: Log)
    requires ledger.Valid() && from <= b <= to && l.blockHash == ledger.canonical(b)
    ensures l in ledger.Range(from, to) <==> l in ledger.Block(b)
  {
    RangeHolds(ledger, from, to, l);
  }

  /** The keys of a canonical range are those of its blocks, in whatever order and with whatever copies a node sends the
      logs. */
  lemma KeysOfRange(ledger: Ledger, rules: set<nat>, hits: Hits, logs: seq<Log>, from: int, to: int, k: Key)
    requires ledger.Valid() && SameLogs(logs, ledger.Range(from, to))
    ensures k in KeysIn(rules, Elems(logs), hits)
       <==> exists b: nat :: from <= b <= to && k in KeysIn(rules, Elems(ledger.Block(b)), hits)
  {
    hide IsKeyIn, KeysIn;
    KeysInHolds(rules, Elems(logs), hits, k);
    if m :| IsKeyIn(rules, Elems(logs), hits, m, k) {
      MatchIsOf(rules, Elems(logs), hits, m, k);
      RangeHolds(ledger, from, to, m.log);
      var b := m.log.blockNumber;
      KeyInBlock(ledger, rules, hits, logs, from, to, b, m, k);
      KeysInHolds(rules, Elems(ledger.Block(b)), hits, k);
      assert k in KeysIn(rules, Elems(ledger.Block(b)), hits);
    }
    if b: nat :| from <= b <= to && k in KeysIn(rules, Elems(ledger.Block(b)), hits) {
      KeysInHolds(rules, Elems(ledger.Block(b)), hits, k);
      var m :| IsKeyIn(rules, Elems(ledger.Block(b)), hits, m, k);
      MatchIsOf(rules, Elems(ledger.Block(b)), hits, m, k);
      KeyInBlock(ledger, rules, hits, logs, from, to, b, m, k);
    }
  }

  lemma MatchIsOf(rules: set<nat>, logs: set<Log>, hits: Hits, m: LogMatch, k: Key)
    requires IsKeyIn(rules, logs, hits, m, k)
    ensures m.log in logs && m.rule in rules && hits(m.rule, m.log)
  {
  }

  lemma KeyInBlock(ledger: Ledger, rules: set<nat>, hits: Hits, logs: seq<Log>, from: int, to: int, b: nat, m: LogMatch,
                   k: Key)
    requires ledger.Valid() && SameLogs(logs, ledger.Range(from, to)) && from <= b <= to
    requires m.log.blockHash == ledger.canonical(b)
    ensures IsKeyIn(rules, Elems(logs), hits, m, k) <==> IsKeyIn(rules, Elems(ledger.Block(b)), hits, m, k)
  {
    hide IsKeyIn;
    forall l: Log | l.blockHash == m.log.blockHash ensures l in Elems(logs) <==> l in Elems(ledger.Block(b)) {
      BlockOfRange(ledger, from, to, b, l);
    }
    SameKey(rules, Elems(logs), Elems(ledger.Block(b)), hits, m, k);
  }

  /** What KeyedMatches returns for a read, as keys. */
  lemma KeyedAreKeys(rules: seq<nat>, logs: seq<Log>, hits: Hits, keyed: seq<KeyedMatch>, keys: set<Key>)
    requires var all := MatchesOf(Elems(rules), Elems(logs), hits);
             forall k :: k in keyed <==> k.match_ in all && k.ordinal == Ordinal(all, k.match_)
    requires forall j :: 0 <= j < |keyed| ==> KeyOf(keyed[j]) in keys
    ensures KeysIn(Elems(rules), Elems(logs), hits) <= keys
  {
    var all := MatchesOf(Elems(rules), Elems(logs), hits);
    forall k | k in KeysIn(Elems(rules), Elems(logs), hits) ensures k in keys {
      var m :| m in all && k == KeyOf(KeyedMatch(m, Ordinal(all, m)));
      assert KeyedMatch(m, Ordinal(all, m)) in keyed;
    }
  }

  /** Some chunk has this block in its range. */
  lemma {:induction false} TileOf(chunks: seq<Chunk<Log>>, from: int, to: int, b: int) returns (c: Chunk<Log>)
    requires Tiles(chunks, from, to) && from <= b <= to
    ensures c in chunks && c.from <= b <= c.to
  {
    c := chunks[0];
    if b > c.to { c := TileOf(chunks[1..], c.to + 1, to, b); }
  }

  /** However a canonical range is cut into chunks, keyed one by one they give the range's own keys. */
  lemma AnyChunkingNamesAlike(ledger: Ledger, rules: set<nat>, hits: Hits, chunks: seq<Chunk<Log>>, from: int, to: int, k: Key)
    requires ledger.Valid() && Tiles(chunks, from, to) && AreOf(chunks, (f, t) => ledger.Range(f, t))
    ensures k in KeysIn(rules, Elems(ledger.Range(from, to)), hits)
       <==> exists c :: c in chunks && k in KeysIn(rules, Elems(c.logs), hits)
  {
    hide KeysIn, Tiles;
    KeysOfRange(ledger, rules, hits, ledger.Range(from, to), from, to, k);
    if b: nat :| from <= b <= to && k in KeysIn(rules, Elems(ledger.Block(b)), hits) {
      var c := TileOf(chunks, from, to, b);
      KeysOfRange(ledger, rules, hits, c.logs, c.from, c.to, k);
    }
    if c :| c in chunks && k in KeysIn(rules, Elems(c.logs), hits) {
      TilesBounds(chunks, from, to);
      KeysOfRange(ledger, rules, hits, c.logs, c.from, c.to, k);
      var b: nat :| c.from <= b <= c.to && k in KeysIn(rules, Elems(ledger.Block(b)), hits);
      assert from <= b <= to;
    }
  }

  /** A read has all the logs of the canonical block that one of these rules takes. */
  ghost predicate HasBlock(ledger: Ledger, rules: set<nat>, hits: Hits, logs: seq<Log>, b: nat) {
    forall r, l :: r in rules && l in ledger.Block(b) && hits(r, l) ==> l in logs
  }

  /** Whatever else a fast read has, orphaned blocks and copies included, the matches of a canonical block it has in full
      get the keys the durable scan will give them, also if it asks for fewer rules. */
  lemma FastAgreesWithDurable(ledger: Ledger, fast: set<nat>, rules: set<nat>, hits: Hits, logs: seq<Log>, b: nat, m: LogMatch,
                              k: Key)
    requires ledger.Valid() && ledger.Holds(logs) && fast <= rules && HasBlock(ledger, fast, hits, logs, b)
    requires m.rule in fast && m.log in ledger.Block(b)
    ensures IsKeyIn(fast, Elems(logs), hits, m, k) <==> IsKeyIn(rules, Elems(ledger.Block(b)), hits, m, k)
  {
    forall l: Log | l.blockHash == m.log.blockHash && hits(m.rule, l) ensures l in Elems(logs) <==> l in Elems(ledger.Block(b)) {
    }
    OrdinalIsLocal(fast, rules, Elems(logs), Elems(ledger.Block(b)), hits, m);
  }

  /** So the keys of the block's fast matches are among the fast read's, and among those of the durable scan. */
  lemma FastBlockIsNamedAlike(ledger: Ledger, fast: set<nat>, rules: set<nat>, hits: Hits, logs: seq<Log>, b: nat)
    requires ledger.Valid() && ledger.Holds(logs) && fast <= rules && HasBlock(ledger, fast, hits, logs, b)
    ensures KeysIn(fast, Elems(ledger.Block(b)), hits) <= KeysIn(fast, Elems(logs), hits)
    ensures KeysIn(fast, Elems(ledger.Block(b)), hits) <= KeysIn(rules, Elems(ledger.Block(b)), hits)
  {
    hide IsKeyIn, KeysIn, HasBlock;
    var block := Elems(ledger.Block(b));
    forall k | k in KeysIn(fast, block, hits) ensures k in KeysIn(fast, Elems(logs), hits) && k in KeysIn(rules, block, hits) {
      KeysInHolds(fast, block, hits, k);
      var m :| IsKeyIn(fast, block, hits, m, k);
      MatchIsOf(fast, block, hits, m, k);
      BlockHasItself(ledger, fast, hits, b);
      FastAgreesWithDurable(ledger, fast, rules, hits, logs, b, m, k);
      FastAgreesWithDurable(ledger, fast, rules, hits, ledger.Block(b), b, m, k);
      KeysInHolds(rules, block, hits, k);
      KeysInHolds(fast, Elems(logs), hits, k);
    }
  }

  lemma BlockHasItself(ledger: Ledger, rules: set<nat>, hits: Hits, b: nat)
    requires ledger.Valid()
    ensures ledger.Holds(ledger.Block(b)) && HasBlock(ledger, rules, hits, ledger.Block(b), b)
  {
  }

  /** A transaction is in one canonical block. */
  ghost predicate MinedOnce(ledger: Ledger) {
    forall b: nat, c: nat, x, y :: x in ledger.Block(b) && y in ledger.Block(c) && x.transaction == y.transaction ==> b == c
  }

  /** On the canonical chain a key names one match. */
  lemma KeyNamesOneMatch(ledger: Ledger, rules: set<nat>, hits: Hits, b: nat, c: nat, m: LogMatch, n: LogMatch, k: Key)
    requires ledger.Valid() && MinedOnce(ledger)
    requires IsKeyIn(rules, Elems(ledger.Block(b)), hits, m, k) && IsKeyIn(rules, Elems(ledger.Block(c)), hits, n, k)
    ensures b == c && m == n
  {
    MatchIsOf(rules, Elems(ledger.Block(b)), hits, m, k);
    MatchIsOf(rules, Elems(ledger.Block(c)), hits, n, k);
    GroupIsNumbered(MatchesOf(rules, Elems(ledger.Block(b)), hits), m, m, n);
  }
}
