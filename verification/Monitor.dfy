/** The monitor's store and its polling cycle (services/monitor/src/store.ts and cycle.ts).

    Every call into the store first lets other cycles take any number of steps (`Others`); what a call itself writes is one
    step of the protocol. Nothing here relies on the lease. */
module Monitor {
  import opened Wrappers
  import opened FetchLogs
  import opened MonitorProtocol
  import opened MatchKeys
  import LogMatching

  type Log = LogMatching.Log

  type LogChunk = Chunk<Log>

  const DROP_AFTER_BLOCKS: nat := 64
  const FAST_OVERLAP: nat := 20
  const FAST_MAX_RANGE: nat := 2000

  predicate SameCycle(w: World, u: World, c: nat) {
    (c in w.cycles <==> c in u.cycles) && (c in w.cycles ==> u.cycles[c] == w.cycles[c])
  }

  /** The cycle holds this cursor: it read it, or saved it last. */
  predicate Holds(w: World, c: nat, cursor: Cursor) { c in w.cycles && w.cycles[c].held == Some(cursor) }

  lemma StepNext(w: World, u: World, chain: Chain, step: Step)
    requires WorldOk(u, chain) && Reaches(w, u, chain) && CanStep(u, chain, step)
    ensures WorldOk(Do(u, step), chain) && Reaches(w, Do(u, step), chain)
  {
    hide CanStep, Do, WorldOk, Reaches;
    WorldStep(u, chain, step);
    ReachesNext(w, u, chain, step);
  }

  datatype Saved = Saved(cursor: Cursor) | Conflict

  /** What a store was asked to do and did: final and provisional records made, the blocks of those dropped, and saves of the
      cursor that conflicted. */
  datatype Tally = Tally(finals: nat, provisionals: nat, drops: seq<nat>, conflicts: nat)

  /** So many records made, nothing dropped. */
  predicate Counted(was: Tally, now: Tally, finals: nat, provisionals: nat) {
    && now.finals == was.finals + finals && now.provisionals == was.provisionals + provisionals && now.drops == was.drops
    && was.conflicts <= now.conflicts
  }

  datatype FinalWrite = Created | Upgraded | Unchanged

  datatype FastRead = FastLogs(logs: seq<Log>) | OutOfTime | Broke

  class MonitorStore {
    ghost const chain: Chain
    var cursor: Option<Cursor>
    var matches: map<Key, Match>
    ghost var saved: seq<Cursor>
    ghost var cycles: map<nat, Cycle>
    ghost var tally: Tally

    ghost function Here(): World reads this { World(State(cursor, matches, saved), cycles) }

    ghost predicate Valid() reads this { WorldOk(Here(), chain) }

    constructor (ghost chain: Chain)
      ensures Valid() && this.chain == chain && Nothing(Here())
    {
      this.chain := chain;
      cursor, matches, saved, cycles, tally := None, map[], [], map[], Tally(0, 0, [], 0);
    }

    /** Other cycles take any number of steps. A caller is verified against the contract alone, so against every
        environment that keeps it; the body is the quietest of them. */
    method Others(ghost c: nat)
      requires Valid()
      modifies this
      ensures Valid() && Reaches(old(Here()), Here(), chain) && SameCycle(old(Here()), Here(), c) && tally == old(tally)
    {
      ReachesItself(Here(), chain);
    }

    method GetCursor(ghost c: nat) returns (read: Option<Cursor>)
      requires Valid()
      modifies this
      ensures Valid() && Reaches(old(Here()), Here(), chain)
      ensures read == cursor && c in cycles && cycles[c] == Cycle(read, {}) && tally == old(tally)
    {
      hide WorldOk, Reaches;
      Others(c);
      StepNext(old(Here()), Here(), chain, Reads(c));
      read := cursor;
      cycles := cycles[c := Cycle(cursor, {})];
    }

    /** A conditional write of the cursor. The precondition is what the protocol asks of it: the durable block does not go
        back, and every match newly covered was written by the caller. */
    method SaveCursor(next: Cursor, ghost c: nat) returns (r: Saved)
      requires Valid() && c in cycles && MaySave(cycles[c], chain, next)
      modifies this
      ensures Valid() && Reaches(old(Here()), Here(), chain)
      ensures r.Saved? ==>
                && r.cursor == next.(version := next.version + 1) && cursor == Some(r.cursor)
                && c in cycles && cycles[c] == old(cycles)[c].(held := Some(r.cursor))
      ensures r.Conflict? ==>
                SameCycle(old(Here()), Here(), c) && (if cursor.None? then 0 else cursor.value.version) != next.version
      ensures tally == old(tally).(conflicts := tally.conflicts)
      ensures tally.conflicts == old(tally).conflicts + if r.Conflict? then 1 else 0
    {
      hide WorldOk, Reaches, HoldsAll;
      Others(c);
      var expected := if cursor.None? then 0 else cursor.value.version;
      if expected != next.version {
        tally := tally.(conflicts := tally.conflicts + 1);
        return Conflict;
      }
      var done := next.(version := next.version + 1);
      StepNext(old(Here()), Here(), chain, Saves(c, next));
      cursor, saved, cycles := Some(done), saved + [done], cycles[c := cycles[c].(held := Some(done))];
      return Saved.Saved(done);
    }

    method WriteProvisional(k: Key, block: nat, ghost c: nat) returns (written: bool)
      requires Valid()
      modifies this
      ensures Valid() && Reaches(old(Here()), Here(), chain) && SameCycle(old(Here()), Here(), c)
      ensures k in matches && (written ==> matches[k] == Match(Provisional, block)) && (written ==> k !in old(matches))
      ensures tally == old(tally).(provisionals := old(tally).provisionals + if written then 1 else 0)
    {
      hide WorldOk, Reaches;
      Others(c);
      ReachesEvolves(old(Here()), Here(), chain);
      written := k !in matches;
      if written {
        StepNext(old(Here()), Here(), chain, WritesProvisional(k, block));
        matches := matches[k := Match(Provisional, block)];
        tally := tally.(provisionals := tally.provisionals + 1);
      }
    }

    method WriteFinal(k: Key, block: nat, ghost c: nat) returns (r: FinalWrite)
      requires Valid() && c in cycles
      modifies this
      ensures Valid() && Reaches(old(Here()), Here(), chain)
      ensures k in matches && matches[k].status == Final && (!r.Unchanged? ==> matches[k] == Match(Final, block))
      ensures c in cycles && cycles[c] == old(cycles)[c].(wrote := old(cycles)[c].wrote + {k})
      ensures tally == old(tally).(finals := old(tally).finals + if r.Unchanged? then 0 else 1)
      ensures k in old(matches) && old(matches)[k].status == Final ==> r.Unchanged?
    {
      hide WorldOk, Reaches;
      Others(c);
      ReachesEvolves(old(Here()), Here(), chain);
      StepNext(old(Here()), Here(), chain, WritesFinal(c, k, block));
      cycles := cycles[c := cycles[c].(wrote := cycles[c].wrote + {k})];
      if k in matches && matches[k].status == Final {
        return Unchanged;
      }
      r := if k in matches then Upgraded else Created;
      matches := matches[k := Match(Final, block)];
      tally := tally.(finals := tally.finals + 1);
    }

    /** The update of one item a query of the provisional index returned: conditional on still being provisional. Whether
        it goes through or not, the record is not provisional any more. */
    method DropOne(k: Key, ghost c: nat) returns (dropped: bool)
      requires Valid() && k in matches
      modifies this
      ensures Valid() && Reaches(old(Here()), Here(), chain) && SameCycle(old(Here()), Here(), c)
      ensures k in matches && matches[k].status != Provisional
      // what it drops is no canonical match the cursor has passed
      ensures dropped ==> matches[k].status == Dropped
      ensures tally == old(tally).(drops := old(tally).drops + if dropped then [matches[k].block] else [])
      ensures dropped ==> old(matches)[k] == Match(Provisional, matches[k].block)
      ensures dropped && cursor.Some? && saved != [] ==>
                forall b: nat :: Origin(Here().state) < b <= cursor.value.durable ==> k !in chain(b)
    {
      hide WorldOk, Reaches;
      Others(c);
      ReachesEvolves(old(Here()), Here(), chain);
      dropped := matches[k].status == Provisional;
      if dropped {
        StepNext(old(Here()), Here(), chain, Drops(k));
        matches := matches[k := matches[k].(status := Dropped)];
        tally := tally.(drops := tally.drops + [matches[k].block]);
        if cursor.Some? && saved != [] {
          forall b: nat | Origin(Here().state) < b <= cursor.value.durable ensures k !in chain(b) {
            NonFinalIsNotCovered(Here(), chain, k, b);
          }
        }
      }
    }

    /** What the index listed is updated one by one, and others write in between. The index lags, so it may leave
        provisional records out and list ones that are final by now. Afterwards none of those listed is provisional, and
        nothing above `maxBlock` was dropped. */
    method DropStaleProvisional(maxBlock: int, ghost c: nat) returns (dropped: nat, listed: set<Key>)
      requires Valid()
      modifies this
      ensures Valid() && Reaches(old(Here()), Here(), chain) && SameCycle(old(Here()), Here(), c)
      ensures dropped <= |listed| && forall k :: k in listed ==> k in matches && matches[k].status != Provisional
      ensures old(tally).drops <= tally.drops && tally == old(tally).(drops := tally.drops)
      ensures dropped == |tally.drops| - |old(tally).drops|
      ensures forall i :: |old(tally).drops| <= i < |tally.drops| ==> tally.drops[i] <= maxBlock
    {
      hide WorldOk, Reaches;
      Others(c);
      listed := *;
      listed := set k | k in listed && k in matches && matches[k].block <= maxBlock;
      var rest: set<Key> := listed;
      dropped := 0;
      while rest != {}
        invariant Valid() && Reaches(old(Here()), Here(), chain) && SameCycle(old(Here()), Here(), c)
        invariant rest <= listed && dropped <= |listed| - |rest|
        invariant forall k :: k in listed ==> k in matches && (k in rest || matches[k].status != Provisional)
        invariant forall k :: k in rest && matches[k].status == Provisional ==> matches[k].block <= maxBlock
        invariant old(tally).drops <= tally.drops && tally == old(tally).(drops := tally.drops)
        invariant dropped == |tally.drops| - |old(tally).drops|
        invariant forall i :: |old(tally).drops| <= i < |tally.drops| ==> tally.drops[i] <= maxBlock
        decreases |rest|
      {
        var k :| k in rest;
        ghost var before := Here();
        var one := DropOne(k, c);
        ReachesEvolves(before, Here(), chain);
        ReachesTransitively(old(Here()), before, Here(), chain);
        if one {
          dropped := dropped + 1;
        }
        rest := rest - {k};
      }
    }
  }

  // The polling cycle

  datatype Ended = Ran | Lagging | Failed | DeadlineHit | CursorConflict

  /** What a walk's ending is to the scan. */
  function EndedBy(end: Ending): Ended {
    match end
    case Done => Ran
    case Stopped => DeadlineHit
    case ReadFailed => Ended.Failed
    case Lagged => Ended.Lagging
    case CallbackFailed => CursorConflict
  }

  /** How the parts of a run ended, and what its drop was asked for; a part that was not begun has no ending. */
  datatype Parts = Parts(durable: Option<Ended>, dropped: Option<set<Key>>, fast: Option<Ended>) {
    /** A failed read or a conflict in the durable scan ends the run. */
    predicate GoesOn() { durable.Some? ==> !durable.value.Failed? && !durable.value.CursorConflict? }
  }

  /** What the durable loop remembers between ranges. */
  datatype Pace = Pace(span: int, ceiling: int, lastFitted: Option<int>) {
    /** The bookkeeping of one chunk that was written and saved. */
    function AfterChunk(whole: bool, first: bool, size: int): Pace {
      if whole then Pace(if ceiling < span * 2 then ceiling else span * 2, ceiling, Some(size))
      else
        var c := if first && lastFitted.Some? && lastFitted.value < ceiling then lastFitted.value else ceiling;
        Pace(size, c, Some(size))
    }

    predicate InBounds(maxRange: int) {
      1 <= span <= ceiling <= maxRange && (lastFitted.Some? ==> 1 <= lastFitted.value)
    }

    /** The next range is at most twice what last fitted. */
    predicate Cautious() { lastFitted.Some? ==> span <= 2 * lastFitted.value }
  }

  function Minimum(a: int, b: int): int { if a < b then a else b }

  function Maximum(a: int, b: int): int { if a > b then a else b }

  class Poller {
    const store: MonitorStore
    // what the nodes answer from; the durable scan's reads through `reader`
    const ledger: Ledger
    const reader: LogReader<Log>
    // the active rules, those of them in fast mode, and which logs a rule takes
    const rules: seq<nat>
    const fastRules: seq<nat>
    const hits: LogMatching.Hits
    const maxRange: int
    // ranges of this run's durable loop that were larger than the node's limit
    var refused: nat
    // late readings of the clock, and reads of the fast scan that broke
    ghost var lates: nat
    ghost var broken: nat
    // what the fast scan read, in order
    ghost var fastReads: seq<LogChunk>

    ghost predicate Ready()
      reads store
    {
      && store.Valid() && maxRange >= 1 && Linked()
      // a node that had reached a final range sends its canonical logs; one that had not sends anything, and the reader's
      // head checks are what tells the two apart
      && reader.truth == Some((f, t) => ledger.Range(f, t)) && reader.checksHeads
    }

    /** The keys the protocol speaks of are those of the canonical blocks' matches. */
    ghost predicate Linked() {
      && ledger.Valid() && LogMatching.Distinct(rules) && LogMatching.Distinct(fastRules) && RuleSet(fastRules) <= RuleSet(rules)
      && forall b: nat :: store.chain(b) == Keys(ledger.Block(b))
    }

    ghost function RuleSet(rules: seq<nat>): set<nat> { LogMatching.Elems(rules) }

    /** The keys of a read, for all rules and for the fast ones. */
    ghost function Keys(logs: seq<Log>): set<Key> { KeysIn(RuleSet(rules), LogMatching.Elems(logs), hits) }

    ghost function FastKeys(logs: seq<Log>): set<Key> { KeysIn(RuleSet(fastRules), LogMatching.Elems(logs), hits) }

    constructor (store: MonitorStore, ledger: Ledger, reader: LogReader<Log>, rules: seq<nat>, fastRules: seq<nat>,
                 hits: LogMatching.Hits, maxRange: int)
      ensures this.store == store && this.ledger == ledger && this.reader == reader && this.rules == rules
      ensures this.fastRules == fastRules && this.hits == hits && this.maxRange == maxRange && refused == 0
      ensures lates == 0 && broken == 0
    {
      this.store, this.ledger, this.reader, this.rules, this.fastRules := store, ledger, reader, rules, fastRules;
      this.hits, this.maxRange, refused, lates, broken, fastReads := hits, maxRange, 0, 0, 0, [];
    }

    /** A scan ends early only with a cause. */
    twostate predicate HasCause(end: Ended)
      reads this, store, reader
    {
      && old(lates) <= lates && old(broken) <= broken && old(store.tally.conflicts) <= store.tally.conflicts
      && old(reader.lates) <= reader.lates && old(reader.failures) <= reader.failures && old(reader.lags) <= reader.lags
      && old(reader.thrown) <= reader.thrown
      && match end
         case Ran => true
         case Lagging => reader.lags > old(reader.lags)
         case Failed => reader.failures + broken > old(reader.failures + broken)
         case DeadlineHit => reader.lates + lates > old(reader.lates + lates)
         case CursorConflict => store.tally.conflicts + reader.thrown > old(store.tally.conflicts + reader.thrown)
    }

    /** The same of the fast scan, which has no reader of its own. */
    twostate predicate HasFastCause(end: Ended)
      reads this, store
    {
      && old(lates) <= lates && old(broken) <= broken && old(store.tally.conflicts) <= store.tally.conflicts
      && match end
         case Ran => true
         case Lagging => false
         case Failed => broken > old(broken)
         case DeadlineHit => lates > old(lates)
         case CursorConflict => store.tally.conflicts > old(store.tally.conflicts)
    }

    /** Whether the deadline has passed. */
    method Late() returns (late: bool)
      modifies this`lates
      ensures lates == old(lates) + if late then 1 else 0
    {
      late := *;
      if late { lates := lates + 1; }
    }

    /** One chunk of a final range: every match of its logs is written before the cursor moves over the chunk. */
    method WriteChunk(cursor: Cursor, chunk: LogChunk, ghost c: nat) returns (r: Saved, written: nat)
      requires store.Valid() && Linked() && Holds(store.Here(), c, cursor) && cursor.version > 0
      requires chunk.from == cursor.durable + 1 <= chunk.to
      requires SameLogs(chunk.logs, ledger.Range(chunk.from, chunk.to))
      modifies store
      ensures store.Valid() && Reaches(old(store.Here()), store.Here(), store.chain)
      ensures r.Saved? ==>
                && r.cursor == Cursor(chunk.to, cursor.fast, cursor.version + 1) && Holds(store.Here(), c, r.cursor)
                && old(store.cycles)[c].wrote + Keys(chunk.logs) <= store.cycles[c].wrote
      ensures r.Conflict? ==> Holds(store.Here(), c, cursor) && store.tally.conflicts > old(store.tally).conflicts
      ensures Counted(old(store.tally), store.tally, written, 0)
    {
      hide WorldOk, Reaches, Linked, KeysIn;
      ReachesItself(store.Here(), store.chain);
      ChunkIsCoherent(chunk);
      var keyed := LogMatching.KeyedMatches(rules, chunk.logs, hits);
      written := 0;
      for i := 0 to |keyed|
        invariant store.Valid() && Reaches(old(store.Here()), store.Here(), store.chain)
        invariant Holds(store.Here(), c, cursor) && old(store.cycles)[c].wrote <= store.cycles[c].wrote
        invariant forall j :: 0 <= j < i ==> KeyOf(keyed[j]) in store.cycles[c].wrote
        invariant Counted(old(store.tally), store.tally, written, 0)
      {
        ghost var before := store.Here();
        var w := store.WriteFinal(KeyOf(keyed[i]), keyed[i].match_.log.blockNumber, c);
        ReachesTransitively(old(store.Here()), before, store.Here(), store.chain);
        if w != Unchanged {
          written := written + 1;
        }
      }
      KeyedAreKeys(rules, chunk.logs, hits, keyed, store.cycles[c].wrote);
      ChunkKeysAreOwed(cursor, chunk, store.cycles[c].wrote);
      ghost var before := store.Here();
      r := store.SaveCursor(cursor.(durable := chunk.to), c);
      ReachesTransitively(old(store.Here()), before, store.Here(), store.chain);
    }

    lemma ChunkIsCoherent(chunk: LogChunk)
      requires Linked() && SameLogs(chunk.logs, ledger.Range(chunk.from, chunk.to))
      ensures LogMatching.Distinct(rules) && LogMatching.Coherent(LogMatching.Elems(chunk.logs))
    {
      forall l | l in chunk.logs ensures l in ledger.mined(l.blockHash) { RangeHolds(ledger, chunk.from, chunk.to, l); }
      LedgerIsCoherent(ledger, chunk.logs);
    }

    /** The keys of a chunk are all that the cursor owes for moving over it. */
    lemma ChunkKeysAreOwed(cursor: Cursor, chunk: LogChunk, wrote: set<Key>)
      requires Linked() && SameLogs(chunk.logs, ledger.Range(chunk.from, chunk.to)) && chunk.from == cursor.durable + 1
      requires Keys(chunk.logs) <= wrote
      ensures HoldsAll(wrote, store.chain, cursor.durable, chunk.to)
    {
      hide KeysIn;
      forall b: nat, k | cursor.durable < b <= chunk.to && k in store.chain(b) ensures k in wrote {
        KeysOfRange(ledger, RuleSet(rules), hits, chunk.logs, chunk.from, chunk.to, k);
      }
    }

    /** Every chunk of one range in order: the onChunk calls of one fetchLogsAdaptive. */
    method WriteChunks(c0: Cursor, news: seq<LogChunk>, from: int, to: int, pace0: Pace, ghost c: nat)
      returns (cursor: Cursor, pace: Pace, written: nat, ok: bool)
      requires store.Valid() && Linked() && Holds(store.Here(), c, c0) && c0.version > 0 && c0.durable + 1 == from <= to
      requires TilesPrefix(news, from, to) && WholeOrHalved(news, from, to)
      requires AreOf(news, (f, t) => ledger.Range(f, t))
      modifies store
      ensures store.Valid() && Reaches(old(store.Here()), store.Here(), store.chain)
      ensures Holds(store.Here(), c, cursor) && c0.durable <= cursor.durable && cursor.version > 0
      ensures ok ==> Tiles(news, from, cursor.durable) && pace == Paced(pace0, news, from, to, |news|)
      ensures ok ==> Written(news, store.cycles[c].wrote)
      ensures Counted(old(store.tally), store.tally, written, 0)
      ensures !ok ==> store.tally.conflicts > old(store.tally).conflicts
    {
      hide WorldOk, Reaches, Tiles, WholeOrHalved, KeysIn, Linked, SameLogs, Written, Keys, AreOf, IsWhole;
      ReachesItself(store.Here(), store.chain);
      cursor, pace, written, ok := c0, pace0, 0, true;
      ghost var end :| from - 1 <= end <= to && Tiles(news, from, end);
      var halved := false;
      assert news[0..] == news;
      NoneWritten(news, store.cycles[c].wrote);
      for i := 0 to |news|
        invariant store.Valid() && Reaches(old(store.Here()), store.Here(), store.chain)
        invariant Holds(store.Here(), c, cursor) && cursor.version > 0 && c0.durable <= cursor.durable
        invariant Tiles(news[i..], cursor.durable + 1, end)
        invariant pace == Paced(pace0, news, from, to, i)
        invariant halved <==> i > 0 && !IsWhole(news[i - 1], from, to)
        invariant Written(news[..i], store.cycles[c].wrote)
        invariant Counted(old(store.tally), store.tally, written, 0)
      {
        var chunk := news[i];
        ChunkIsOf(news, i);
        TilesNext(news, i, cursor.durable + 1, end);
        ghost var before := store.Here();
        var saved, count := WriteChunk(cursor, chunk, c);
        ReachesTransitively(old(store.Here()), before, store.Here(), store.chain);
        written := written + count;
        if saved.Conflict? {
          ok := false;
          return;
        }
        cursor := saved.cursor;
        WrittenNext(news, i, before.cycles[c].wrote, store.cycles[c].wrote);
        var whole := IsWhole(chunk, from, to);
        if i > 0 { PartsAreNotWhole(news, from, to, i); }
        pace := pace.AfterChunk(whole, !halved, chunk.Size());
        if !whole { halved := true; }
      }
      NoMoreTiles(news, cursor.durable + 1, end);
      assert news[..|news|] == news;
    }

    /** Every match of these chunks is among the keys written. */
    ghost predicate Written(news: seq<LogChunk>, wrote: set<Key>) { forall n :: n in news ==> Keys(n.logs) <= wrote }

    lemma NoneWritten(news: seq<LogChunk>, wrote: set<Key>)
      ensures Written(news[..0], wrote)
    {
    }

    lemma WrittenNext(news: seq<LogChunk>, i: nat, before: set<Key>, wrote: set<Key>)
      requires i < |news| && Written(news[..i], before) && before + Keys(news[i].logs) <= wrote
      ensures Written(news[..i + 1], wrote)
    {
      hide Keys;
    }

    lemma ChunkIsOf(news: seq<LogChunk>, i: nat)
      requires i < |news| && AreOf(news, (f, t) => ledger.Range(f, t))
      ensures SameLogs(news[i].logs, ledger.Range(news[i].from, news[i].to))
    {
      hide SameLogs;
      assert news[i] in news;
    }

    /** The durable loop of poll. However cycles overlap and wherever this one stops, everything it does is steps of the
        protocol, and the cursor it ends with is not behind the one it began with. It stops short of the finalized block only
        with a cause. Against a node that refuses exactly the ranges above a fixed size, at most two of its ranges are
        refused. */
    method DurableScan(c0: Cursor, finalized: int, ghost c: nat)
      returns (cursor: Cursor, written: nat, ended: Ended)
      requires Ready() && Holds(store.Here(), c, c0) && c0.version > 0
      modifies store, reader, this`refused, this`lates
      ensures Ready() && Reaches(old(store.Here()), store.Here(), store.chain)
      ensures Holds(store.Here(), c, cursor) && c0.durable <= cursor.durable && cursor.version > 0
      ensures ended.Ran? ==> finalized <= cursor.durable
      ensures HasCause(ended) && Counted(old(store.tally), store.tally, written, 0)
      ensures reader.limit.Some? && reader.limit.value > 0 ==> refused <= old(refused) + 2
    {
      hide WorldOk, Reaches, Linked;
      ReachesItself(store.Here(), store.chain);
      cursor, written := c0, 0;
      var pace := Pace(maxRange, maxRange, None);
      while cursor.durable < finalized
        invariant Ready() && Reaches(old(store.Here()), store.Here(), store.chain)
        invariant Holds(store.Here(), c, cursor) && cursor.version > 0 && c0.durable <= cursor.durable
        invariant pace.InBounds(maxRange)
        invariant cursor.durable < finalized ==> pace.Cautious()
        invariant HasCause(Ran) && Counted(old(store.tally), store.tally, written, 0)
        invariant reader.limit.Some? && reader.limit.value > 0 ==>
                    FewRefusals(pace, reader.limit.value, refused - old(refused))
        decreases finalized - cursor.durable
      {
        var late := Late();
        if late {
          return cursor, written, DeadlineHit;
        }
        ghost var before := store.Here();
        if rules == [] {
          NoRulesNoKeys();
          var saved := store.SaveCursor(cursor.(durable := finalized), c);
          ReachesTransitively(old(store.Here()), before, store.Here(), store.chain);
          if saved.Conflict? {
            return cursor, written, CursorConflict;
          }
          cursor := saved.cursor;
        } else {
          var to := Minimum(finalized, cursor.durable + pace.span);
          var count, next;
          cursor, next, count, ended := ScanRange(cursor, pace, to, c);
          ReachesTransitively(old(store.Here()), before, store.Here(), store.chain);
          written := written + count;
          if ended != Ran {
            return;
          }
          pace := next;
        }
      }
      ended := Ran;
    }

    /** One range of the durable loop: read, halved where the node refuses, and written chunk by chunk. */
    method ScanRange(c0: Cursor, pace0: Pace, to: int, ghost c: nat)
      returns (cursor: Cursor, pace: Pace, written: nat, ended: Ended)
      requires Ready() && Holds(store.Here(), c, c0) && c0.version > 0
      requires pace0.InBounds(maxRange) && pace0.Cautious() && c0.durable < to <= c0.durable + pace0.span
      modifies store, reader, this`refused
      ensures HasCause(ended) && Counted(old(store.tally), store.tally, written, 0)
      ensures Ready() && Reaches(old(store.Here()), store.Here(), store.chain)
      ensures Holds(store.Here(), c, cursor) && c0.durable <= cursor.durable && cursor.version > 0
      ensures ended == Ran ==>
                && cursor.durable == to && pace.InBounds(maxRange)
                && (to - c0.durable == pace0.span ==> pace.Cautious())
                && Keys(ledger.Range(c0.durable + 1, to)) <= store.cycles[c].wrote
      ensures old(refused) <= refused <= old(refused) + 1
      ensures reader.limit.Some? && reader.limit.value > 0 ==>
                forall n: int :: FewRefusals(pace0, reader.limit.value, n) ==>
                  && n + refused - old(refused) <= 2
                  && (ended == Ran ==> FewRefusals(pace, reader.limit.value, n + refused - old(refused)))
    {
      hide WorldOk, Reaches, FewRefusals, Covers, AreOf, Under, Tiles, TilesPrefix, WholeOrHalved, Paced, Linked, KeysIn,
           Written, Keys;
      var from := c0.durable + 1;
      if reader.limit.Some? && to - from + 1 > reader.limit.value {
        refused := refused + 1;
      }
      var end, news := reader.Walk(from, to);
      WalkGives(end, news, from, to);
      var ok;
      cursor, pace, written, ok := WriteChunks(c0, news, from, to, pace0, c);
      if reader.limit.Some? && reader.limit.value > 0 {
        RefusalsAfter(pace0, end, news, from, to, reader.limit.value, refused - old(refused), maxRange);
      }
      ended := if ok then EndedBy(end) else CursorConflict;
      if ended == Ran {
        RangeDone(pace0, news, from, to, cursor.durable, maxRange);
        RangeIsWritten(news, from, to, store.cycles[c].wrote);
      }
    }

    /** With every chunk's keys, however the range was cut, the range's own keys are written. */
    lemma RangeIsWritten(news: seq<LogChunk>, from: int, to: int, wrote: set<Key>)
      requires Linked() && Tiles(news, from, to) && AreOf(news, (f, t) => ledger.Range(f, t))
      requires Written(news, wrote)
      ensures Keys(ledger.Range(from, to)) <= wrote
    {
      hide KeysIn, Tiles, AreOf;
      forall k | k in Keys(ledger.Range(from, to)) ensures k in wrote {
        AnyChunkingNamesAlike(ledger, RuleSet(rules), hits, news, from, to, k);
      }
    }

    lemma NoRulesNoKeys()
      requires Linked() && rules == []
      ensures forall b: nat :: store.chain(b) == {}
    {
    }

    /** The logs of a range for the fast rules, from nodes that may answer from blocks that will not last: logs of any
        mined blocks, in any order and number. */
    method ReadFast(f: int, t: int) returns (found: FastRead)
      requires ledger.Valid()
      modifies this`lates, this`broken, this`fastReads
      ensures found.FastLogs? ==> ledger.Holds(found.logs)
      ensures lates == old(lates) + if found.OutOfTime? then 1 else 0
      ensures broken == old(broken) + if found.Broke? then 1 else 0
      ensures fastReads == old(fastReads) + if found.FastLogs? then [Chunk(f, t, found.logs)] else []
    {
      var blocks: seq<nat>, indices: seq<nat> := *, *;
      var logs := [];
      for i := 0 to |blocks|
        invariant ledger.Holds(logs)
      {
        var mined := ledger.mined(blocks[i]);
        if i < |indices| && indices[i] < |mined| { logs := logs + [mined[indices[i]]]; }
      }
      found := *;
      match found {
        case FastLogs(_) =>
          found := FastLogs(logs);
          fastReads := fastReads + [Chunk(f, t, logs)];
        case OutOfTime => lates := lates + 1;
        case Broke => broken := broken + 1;
      }
    }

    /** The fast scan: provisional records behind the head. It reads without a gap from where the overlap starts, up to the
        head unless a cause is named, and the fast cursor ends at or below the head and what was read. Every match of what it
        read has a record afterwards, and so has every match a fast rule has in a canonical block that one of its reads had in
        full: under the key the durable scan gives it. */
    method FastScan(c0: Cursor, head: nat, ghost c: nat)
      returns (cursor: Cursor, written: nat, ended: Ended, ghost fetched: seq<LogChunk>, ghost reached: int)
      requires store.Valid() && Linked() && Holds(store.Here(), c, c0) && c0.version > 0 && maxRange >= 1
      modifies store, this`lates, this`broken, this`fastReads
      ensures store.Valid() && Reaches(old(store.Here()), store.Here(), store.chain)
      ensures Holds(store.Here(), c, cursor) && cursor.durable == c0.durable && cursor.version > 0
      // what was read
      ensures fastReads == old(fastReads) + fetched
      ensures var start := Maximum(Maximum(c0.durable, c0.fast - FAST_OVERLAP), head - FAST_MAX_RANGE);
              start <= reached && Tiles(fetched, start + 1, reached) && (ended.Ran? ==> head <= reached)
      // a run stopped anywhere pulls the fast cursor back only to the head
      ensures Minimum(c0.fast, head) <= cursor.fast
      ensures ended != CursorConflict ==> cursor.fast <= head && cursor.fast <= Maximum(c0.fast, reached)
      ensures ended.Ran? ==> cursor.fast == head || head <= c0.durable
      ensures HasFastCause(ended) && Counted(old(store.tally), store.tally, 0, written)
      ensures AllNamed(fetched, store.matches.Keys)
    {
      hide WorldOk, Reaches, Evolves, KeysIn, HasBlock, Tiles, Linked, AllNamed;
      ReachesItself(store.Here(), store.chain);
      cursor, written, fetched := c0, 0, [];
      var from := FastStart(c0, head);
      reached := from;
      NoTiles(from);
      NoneNamed(store.matches.Keys);
      var ok;
      cursor, ok := MoveFast(cursor, head, head < cursor.fast, c);
      if !ok {
        return cursor, written, CursorConflict, fetched, reached;
      }
      if from >= head {
        return cursor, written, Ran, fetched, reached;
      }
      ghost var before := store.Here();
      var at;
      at, written, ended, fetched := ReadUp(cursor, from, head, c);
      reached := at;
      ReachesTransitively(old(store.Here()), before, store.Here(), store.chain);
      if ended.Failed? {
        return;
      }
      var fast: nat := if cursor.fast > at then cursor.fast else at;
      before := store.Here();
      cursor, ok := MoveFast(cursor, fast, at > from && fast != cursor.fast, c);
      RecordsStay(before, store.Here(), store.chain);
      NamedStays(fetched, before.state.matches.Keys, store.matches.Keys);
      ReachesTransitively(old(store.Here()), before, store.Here(), store.chain);
      if !ok { ended := CursorConflict; }
    }

    /** Where the overlap starts, or the longest range a run reads. */
    method FastStart(cursor: Cursor, head: nat) returns (from: int)
      ensures from == Maximum(Maximum(cursor.durable, cursor.fast - FAST_OVERLAP), head - FAST_MAX_RANGE)
    {
      from := if cursor.durable > cursor.fast - FAST_OVERLAP then cursor.durable else cursor.fast - FAST_OVERLAP;
      if head - from > FAST_MAX_RANGE {
        from := head - FAST_MAX_RANGE;
      }
    }

    /** The reads of the fast scan, chunk by chunk up to the head. */
    method ReadUp(cursor: Cursor, from: int, head: nat, ghost c: nat)
      returns (at: int, written: nat, ended: Ended, ghost fetched: seq<LogChunk>)
      requires store.Valid() && Linked() && Holds(store.Here(), c, cursor) && maxRange >= 1 && from < head
      modifies store, this`lates, this`broken, this`fastReads
      ensures store.Valid() && Reaches(old(store.Here()), store.Here(), store.chain) && Holds(store.Here(), c, cursor)
      ensures fastReads == old(fastReads) + fetched && from <= at <= head && Tiles(fetched, from + 1, at)
      ensures ended.Ran? ==> at == head
      ensures ended.Ran? || ended.DeadlineHit? || ended.Failed?
      ensures HasFastCause(ended) && store.tally.conflicts == old(store.tally).conflicts
      ensures Counted(old(store.tally), store.tally, 0, written)
      ensures AllNamed(fetched, store.matches.Keys)
    {
      hide WorldOk, Reaches, Evolves, KeysIn, HasBlock, Tiles;
      ReachesItself(store.Here(), store.chain);
      at, written, fetched := from, 0, [];
      NoTiles(from);
      ended := Ran;
      while at < head
        invariant store.Valid() && Reaches(old(store.Here()), store.Here(), store.chain)
        invariant Holds(store.Here(), c, cursor)
        invariant from <= at <= head
        invariant Recorded(fetched, store.matches.Keys) && fastReads == old(fastReads) + fetched
        invariant Tiles(fetched, from + 1, at)
        invariant HasFastCause(Ran) && Counted(old(store.tally), store.tally, 0, written)
        invariant store.tally.conflicts == old(store.tally).conflicts
        decreases head - at
      {
        var end := Minimum(head, at + maxRange);
        var found := ReadFast(at + 1, end);
        if !found.FastLogs? {
          ended := if found.OutOfTime? then DeadlineHit else Ended.Failed;
          break;
        }
        ghost var before := store.Here();
        var count := WriteProvisionals(found.logs, cursor, c);
        RecordsStay(before, store.Here(), store.chain);
        ReachesTransitively(old(store.Here()), before, store.Here(), store.chain);
        written := written + count;
        ghost var chunk := Chunk(at + 1, end, found.logs);
        OneTile(chunk);
        TilesConcat(fetched, [chunk], from + 1, at, end);
        fetched := fetched + [chunk];
        at := end;
      }
      FastReadsAgree(fetched, store.matches.Keys);
    }

    lemma NoneNamed(recorded: set<Key>)
      ensures forall more :: AllNamed([], more)
    {
    }

    lemma NoTiles(from: int)
      ensures Tiles<Log>([], from + 1, from)
    {
    }

    lemma OneTile(chunk: LogChunk)
      requires chunk.from <= chunk.to
      ensures Tiles([chunk], chunk.from, chunk.to)
    {
      OneChunk(chunk);
    }

    /** Logs of mined blocks, and every match of them has a record. */
    ghost predicate Recorded(fetched: seq<LogChunk>, recorded: set<Key>) {
      forall n :: n in fetched ==> ledger.Holds(n.logs) && FastKeys(n.logs) <= recorded
    }

    /** Every match of these reads is among the keys; so is every fast match of a canonical block that one of them has in
        full, under the key the durable scan gives it. */
    ghost predicate AllNamed(fetched: seq<LogChunk>, recorded: set<Key>) {
      && (forall n :: n in fetched ==> FastKeys(n.logs) <= recorded)
      && forall n, b: nat :: n in fetched && HasBlock(ledger, RuleSet(fastRules), hits, n.logs, b) ==>
           FastKeys(ledger.Block(b)) <= store.chain(b) && FastKeys(ledger.Block(b)) <= recorded
    }

    lemma FastReadsAgree(fetched: seq<LogChunk>, recorded: set<Key>)
      requires Linked() && Recorded(fetched, recorded)
      ensures AllNamed(fetched, recorded)
    {
      hide KeysIn, HasBlock;
      forall n, b: nat | n in fetched && HasBlock(ledger, RuleSet(fastRules), hits, n.logs, b)
        ensures FastKeys(ledger.Block(b)) <= store.chain(b) && FastKeys(ledger.Block(b)) <= FastKeys(n.logs)
      {
        FastBlockIsNamedAlike(ledger, RuleSet(fastRules), RuleSet(rules), hits, n.logs, b);
      }
    }

    lemma NamedStays(fetched: seq<LogChunk>, some: set<Key>, more: set<Key>)
      requires AllNamed(fetched, some) && some <= more
      ensures AllNamed(fetched, more)
    {
      hide KeysIn, HasBlock, FastKeys;
    }

    /** saveCursor({ ...cursor, fastBlock }), if it is needed; the durable scan's duties allow it for any fast block. */
    method MoveFast(c0: Cursor, fast: nat, needed: bool, ghost c: nat) returns (cursor: Cursor, ok: bool)
      requires store.Valid() && Holds(store.Here(), c, c0) && c0.version > 0
      modifies store
      ensures store.Valid() && Reaches(old(store.Here()), store.Here(), store.chain) && Holds(store.Here(), c, cursor)
      ensures ok && needed ==> cursor == Cursor(c0.durable, fast, c0.version + 1)
      ensures !ok || !needed ==> cursor == c0
      ensures Counted(old(store.tally), store.tally, 0, 0)
      ensures if ok then store.tally == old(store.tally) else store.tally.conflicts > old(store.tally).conflicts
    {
      hide WorldOk, Reaches;
      ReachesItself(store.Here(), store.chain);
      cursor, ok := c0, true;
      if needed {
        var saved := store.SaveCursor(c0.(fast := fast), c);
        ok := saved.Saved?;
        if ok { cursor := saved.cursor; }
      }
    }

    lemma FastIsCoherent(logs: seq<Log>)
      requires Linked() && ledger.Holds(logs)
      ensures LogMatching.Distinct(fastRules) && LogMatching.Coherent(LogMatching.Elems(logs))
    {
      LedgerIsCoherent(ledger, logs);
    }

    method WriteProvisionals(logs: seq<Log>, ghost cursor: Cursor, ghost c: nat) returns (written: nat)
      requires store.Valid() && Linked() && Holds(store.Here(), c, cursor) && ledger.Holds(logs)
      modifies store
      ensures store.Valid() && Reaches(old(store.Here()), store.Here(), store.chain) && Holds(store.Here(), c, cursor)
      ensures FastKeys(logs) <= store.matches.Keys
      ensures Counted(old(store.tally), store.tally, 0, written) && store.tally.conflicts == old(store.tally).conflicts
    {
      hide WorldOk, Reaches, Evolves, KeysIn, Linked;
      ReachesItself(store.Here(), store.chain);
      FastIsCoherent(logs);
      var keyed := LogMatching.KeyedMatches(fastRules, logs, hits);
      written := 0;
      for i := 0 to |keyed|
        invariant store.Valid() && Reaches(old(store.Here()), store.Here(), store.chain)
        invariant Holds(store.Here(), c, cursor)
        invariant forall j :: 0 <= j < i ==> KeyOf(keyed[j]) in store.matches
        invariant Counted(old(store.tally), store.tally, 0, written)
        invariant store.tally.conflicts == old(store.tally).conflicts
      {
        ghost var before := store.Here();
        var w := store.WriteProvisional(KeyOf(keyed[i]), keyed[i].match_.log.blockNumber, c);
        RecordsStay(before, store.Here(), store.chain);
        ReachesTransitively(old(store.Here()), before, store.Here(), store.chain);
        if w {
          written := written + 1;
        }
      }
      KeyedAreKeys(fastRules, logs, hits, keyed, store.matches.Keys);
    }

    /** One run of poll with any head, finalized block and start block, interleaved with any others. Whatever it does
        is a step of the protocol, and the cursor it reports it read or saved itself, never behind the one it read. It scans
        up to the finalized block, drops stale provisional matches and scans up to the head, each unless a cause is named. */
    method Poll(head: nat, finalized: Option<nat>, startBlock: Option<nat>, ghost c: nat)
      returns (cursor: Option<Cursor>, stored: Option<Cursor>, run: Parts)
      requires Ready()
      modifies store, reader, this`refused, this`lates, this`broken, this`fastReads
      ensures Ready() && Reaches(old(store.Here()), store.Here(), store.chain)
      ensures cursor.Some? ==> Holds(store.Here(), c, cursor.value)
      ensures cursor.Some? && stored.Some? ==> stored.value.durable <= cursor.value.durable
      ensures cursor.Some? && stored.None? ==>
                (if startBlock.Some? then startBlock.value else if finalized.Some? then finalized.value else 0)
                <= cursor.value.durable
      // without a cursor there was nothing to begin with, or another cycle began
      ensures cursor.None? ==> stored.None?
      ensures cursor.None? && (startBlock.Some? || finalized.Some?) ==> store.tally.conflicts > old(store.tally).conflicts
      ensures cursor.Some? ==> Complete(run, head, finalized, cursor.value)
      ensures run.durable.Some? ==> HasCause(run.durable.value)
      ensures cursor.Some? && run.durable.Some? && run.GoesOn() && run.dropped.None? ==>
                cursor.value.durable < DROP_AFTER_BLOCKS || lates > old(lates)
      ensures run.dropped.Some? ==>
                forall k :: k in run.dropped.value ==> k in store.matches && store.matches[k].status != Provisional
      ensures cursor.Some? && run.GoesOn() && fastRules != [] && run.fast.None? ==> lates > old(lates)
      ensures run.fast.Some? ==> HasCause(run.fast.value)
      // what was dropped was deep enough below the cursor
      ensures forall i :: |old(store.tally).drops| <= i < |store.tally.drops| ==>
                cursor.Some? && store.tally.drops[i] <= cursor.value.durable - DROP_AFTER_BLOCKS
    {
      hide WorldOk, Reaches, Linked, Complete;
      run := Parts(None, None, None);
      stored := store.GetCursor(c);
      ghost var read := store.Here();
      ReadVersion(read, store.chain, c);
      var current: Cursor;
      if stored.Some? {
        current := stored.value;
      } else if startBlock.Some? {
        current := Cursor(startBlock.value, startBlock.value, 0);
      } else if finalized.Some? {
        current := Cursor(finalized.value, head, 0);
      } else {
        return None, stored, run;
      }
      if current.version == 0 {
        var saved := store.SaveCursor(current, c);
        ReachesTransitively(old(store.Here()), read, store.Here(), store.chain);
        if saved.Conflict? {
          return None, stored, run;
        }
        current := saved.cursor;
      }
      ghost var began := store.Here();
      current, run := PollFrom(current, head, finalized, c);
      ReachesTransitively(old(store.Here()), began, store.Here(), store.chain);
      cursor := Some(current);
    }

    /** What a complete run has reached. */
    predicate Complete(run: Parts, head: nat, finalized: Option<nat>, cursor: Cursor) {
      && (run.durable.Some? <==> finalized.Some?)
      && (run.durable == Some(Ran) ==> finalized.value <= cursor.durable)
      && (run.fast == Some(Ran) ==> cursor.fast == head || head <= cursor.durable)
    }

    method PollFrom(c0: Cursor, head: nat, finalized: Option<nat>, ghost c: nat)
      returns (cursor: Cursor, run: Parts)
      requires Ready() && Holds(store.Here(), c, c0) && c0.version > 0
      modifies store, reader, this`refused, this`lates, this`broken, this`fastReads
      ensures Ready() && Reaches(old(store.Here()), store.Here(), store.chain)
      ensures Holds(store.Here(), c, cursor) && c0.durable <= cursor.durable
      ensures Complete(run, head, finalized, cursor)
      ensures HasCause(Ran)
      ensures run.durable.Some? ==> HasCause(run.durable.value)
      ensures run.durable.Some? && run.GoesOn() && cursor.durable >= DROP_AFTER_BLOCKS && run.dropped.None? ==>
                lates > old(lates)
      ensures run.dropped.Some? ==>
                forall k :: k in run.dropped.value ==> k in store.matches && store.matches[k].status != Provisional
      ensures run.GoesOn() && fastRules != [] && run.fast.None? ==> lates > old(lates)
      ensures run.fast.Some? ==> HasCause(run.fast.value)
      ensures forall i :: |old(store.tally).drops| <= i < |store.tally.drops| ==>
                store.tally.drops[i] <= cursor.durable - DROP_AFTER_BLOCKS
    {
      hide WorldOk, Reaches, Linked;
      ReachesItself(store.Here(), store.chain);
      cursor, run := c0, Parts(None, None, None);
      if finalized.Some? {
        var written, ended;
        cursor, written, ended := DurableScan(cursor, finalized.value, c);
        run := run.(durable := Some(ended));
        if ended == CursorConflict || ended == Ended.Failed {
          return;
        }
        ghost var scanned := store.Here();
        var listed := DropStale(cursor, c);
        ReachesTransitively(old(store.Here()), scanned, store.Here(), store.chain);
        run := run.(dropped := listed);
      }
      ghost var before := store.Here();
      var fast;
      cursor, fast := FastPart(cursor, head, c);
      run := run.(fast := fast);
      if run.dropped.Some? { StillNotProvisional(before, store.Here(), store.chain, run.dropped.value); }
      ReachesTransitively(old(store.Here()), before, store.Here(), store.chain);
    }

    method FastPart(c0: Cursor, head: nat, ghost c: nat) returns (cursor: Cursor, ended: Option<Ended>)
      requires store.Valid() && Linked() && Holds(store.Here(), c, c0) && c0.version > 0 && maxRange >= 1
      modifies store, this`lates, this`broken, this`fastReads
      ensures store.Valid() && Reaches(old(store.Here()), store.Here(), store.chain)
      ensures Holds(store.Here(), c, cursor) && cursor.durable == c0.durable
      ensures ended == Some(Ran) ==> cursor.fast == head || head <= c0.durable
      ensures HasFastCause(if ended.Some? then ended.value else Ran) && old(store.tally).drops == store.tally.drops
      ensures ended.None? && fastRules != [] ==> lates > old(lates)
    {
      hide WorldOk, Reaches, Linked, AllNamed;
      ReachesItself(store.Here(), store.chain);
      cursor, ended := c0, None;
      if fastRules != [] {
        var late := Late();
        if late {
          return;
        }
        ghost var fetched, reached;
        var written, end;
        cursor, written, end, fetched, reached := FastScan(cursor, head, c);
        ended := Some(end);
      }
    }

    method DropStale(cursor: Cursor, ghost c: nat) returns (listed: Option<set<Key>>)
      requires store.Valid() && Holds(store.Here(), c, cursor)
      modifies store, this`lates
      ensures store.Valid() && Reaches(old(store.Here()), store.Here(), store.chain) && Holds(store.Here(), c, cursor)
      ensures HasCause(Ran) && store.tally.conflicts == old(store.tally).conflicts && old(store.tally).drops <= store.tally.drops
      ensures listed.None? && cursor.durable >= DROP_AFTER_BLOCKS ==> lates > old(lates)
      ensures listed.Some? ==> forall k :: k in listed.value ==> k in store.matches && store.matches[k].status != Provisional
      ensures forall i :: |old(store.tally).drops| <= i < |store.tally.drops| ==>
                store.tally.drops[i] <= cursor.durable - DROP_AFTER_BLOCKS
    {
      hide WorldOk, Reaches;
      ReachesItself(store.Here(), store.chain);
      if cursor.durable >= DROP_AFTER_BLOCKS {
        var late := Late();
        if !late {
          var dropped, some := store.DropStaleProvisional(cursor.durable - DROP_AFTER_BLOCKS, c);
          return Some(some);
        }
      }
      return None;
    }
  }

  lemma StillNotProvisional(w: World, u: World, chain: Chain, keys: set<Key>)
    requires WorldOk(w, chain) && Reaches(w, u, chain)
    requires forall k :: k in keys ==> k in w.state.matches && w.state.matches[k].status != Provisional
    ensures forall k :: k in keys ==> k in u.state.matches && u.state.matches[k].status != Provisional
  {
    hide WorldOk, Reaches;
    ReachesEvolves(w, u, chain);
  }

  /** Whatever a cycle reads has been saved, so its version is not zero. */
  lemma ReadVersion(w: World, chain: Chain, c: nat)
    requires WorldOk(w, chain) && c in w.cycles
    ensures w.cycles[c].held.Some? ==> w.cycles[c].held.value.version > 0
  {
    assert CycleOk(w.state, w.cycles[c]);
  }

  lemma RecordsStay(w: World, u: World, chain: Chain)
    requires WorldOk(w, chain) && Reaches(w, u, chain)
    ensures w.state.matches.Keys <= u.state.matches.Keys
  {
    hide WorldOk, Reaches;
    ReachesEvolves(w, u, chain);
  }

  lemma TilesNext(news: seq<LogChunk>, i: nat, from: int, to: int)
    requires i < |news| && Tiles(news[i..], from, to)
    ensures news[i].from == from <= news[i].to && Tiles(news[i + 1..], news[i].to + 1, to)
  {
    assert news[i..][1..] == news[i + 1..] && news[i..][0] == news[i];
  }

  lemma NoMoreTiles(news: seq<LogChunk>, from: int, to: int)
    requires Tiles(news[|news|..], from, to)
    ensures from == to + 1
  {
    assert news[|news|..] == [];
  }

  /** What a walk hands on, done or not. */
  lemma WalkGives(end: Ending, news: seq<LogChunk>, from: int, to: int)
    requires from <= to && Covers(end, news, from, to)
    ensures TilesPrefix(news, from, to) && WholeOrHalved(news, from, to) && (end.Done? ==> Tiles(news, from, to))
  {
    hide WholeOrHalved, Tiles;
  }

  /** A range read and written to its end. */
  lemma RangeDone(pace: Pace, news: seq<LogChunk>, from: int, to: int, last: int, maxRange: int)
    requires Tiles(news, from, to) && Tiles(news, from, last) && WholeOrHalved(news, from, to)
    requires pace.InBounds(maxRange) && pace.Cautious() && from <= to && to - from + 1 <= pace.span
    ensures last == to && news != []
    ensures var q := Paced(pace, news, from, to, |news|);
            q.InBounds(maxRange) && (to - from + 1 == pace.span ==> q.Cautious())
  {
    hide WholeOrHalved, Paced;
    TilesEndsOnce(news, from, to, last);
    TilesBounds(news, from, to);
    PacedKeepsBounds(pace, news, from, to, maxRange);
  }

  lemma RefusalsAfter(pace: Pace, end: Ending, news: seq<LogChunk>, from: int, to: int, limit: nat, more: int, maxRange: int)
    requires pace.InBounds(maxRange) && from <= to && to - from + 1 <= pace.span
    requires WholeOrHalved(news, from, to) && Under(limit, end, news, from, to)
    requires more == if to - from + 1 > limit then 1 else 0
    ensures forall n: int :: FewRefusals(pace, limit, n) ==>
              n + more <= 2 && (news != [] ==> FewRefusals(Paced(pace, news, from, to, |news|), limit, n + more))
  {
    hide WholeOrHalved, Paced, FewRefusals;
    forall n: int | FewRefusals(pace, limit, n)
      ensures n + more <= 2 && (news != [] ==> FewRefusals(Paced(pace, news, from, to, |news|), limit, n + more))
    {
      RefusalsStayFew(pace, news, from, to, limit, n, maxRange);
    }
  }

  /** How many ranges a node with this limit has refused: none before a read fitted, and at most two, after which no
      range can be above the limit. */
  predicate FewRefusals(pace: Pace, limit: nat, count: int) {
    && 0 <= count <= 2
    && (pace.lastFitted.None? ==> count == 0)
    && (pace.lastFitted.Some? ==> pace.lastFitted.value <= limit)
    && (count == 2 ==> pace.ceiling <= limit)
  }

  /** One more range against a node with this limit; it counts as refused when it was larger. */
  lemma RefusalsStayFew(pace: Pace, news: seq<LogChunk>, from: int, to: int, limit: nat, count: int, maxRange: int)
    requires pace.InBounds(maxRange) && from <= to && to - from + 1 <= pace.span
    requires FewRefusals(pace, limit, count)
    requires WholeOrHalved(news, from, to) && forall c :: c in news ==> c.Size() <= limit
    requires to - from + 1 <= limit ==> |news| <= 1 && forall c :: c in news ==> IsWhole(c, from, to)
    ensures var k := if to - from + 1 > limit then count + 1 else count;
            k <= 2 && (news != [] ==> FewRefusals(Paced(pace, news, from, to, |news|), limit, k))
  {
    if news == [] {
    } else if to - from + 1 <= limit {
      assert news[0] in news && Paced(pace, news, from, to, 0) == pace;
    } else {
      forall c | c in news ensures !IsWhole(c, from, to) {}
      PacedByParts(pace, news, from, to, |news|);
      assert news[|news| - 1] in news;
    }
  }

  predicate IsWhole(c: LogChunk, from: int, to: int) { c.from == from && c.to == to }

  lemma PartsAreNotWhole(news: seq<LogChunk>, from: int, to: int, i: nat)
    requires WholeOrHalved(news, from, to) && from <= to && 0 < i < |news|
    ensures !IsWhole(news[i - 1], from, to) && !IsWhole(news[i], from, to)
  {
    assert news[i - 1] in news && news[i] in news;
  }

  /** The loop's bookkeeping after the first i chunks of a range. */
  function Paced(pace: Pace, news: seq<LogChunk>, from: int, to: int, i: nat): Pace
    requires i <= |news|
  {
    if i == 0 then pace
    else Paced(pace, news, from, to, i - 1).AfterChunk(IsWhole(news[i - 1], from, to), i == 1, news[i - 1].Size())
  }

  /** A range read in parts: the last part is the next span, and if an earlier read had fitted, growth is capped by it. */
  lemma {:induction false} PacedByParts(pace: Pace, news: seq<LogChunk>, from: int, to: int, i: nat)
    requires 0 < i <= |news|
    requires forall c :: c in news ==> !IsWhole(c, from, to)
    ensures Paced(pace, news, from, to, i)
         == Pace(news[i - 1].Size(), CappedCeiling(pace), Some(news[i - 1].Size()))
  {
    assert news[i - 1] in news;
    if i > 1 { PacedByParts(pace, news, from, to, i - 1); }
  }

  /** Pace keeps its bounds over a range, whole or in parts, and stays cautious unless the range was cut short by the
      end of the scan. */
  lemma PacedKeepsBounds(pace: Pace, news: seq<LogChunk>, from: int, to: int, maxRange: int)
    requires pace.InBounds(maxRange) && pace.Cautious()
    requires from <= to && to - from + 1 <= pace.span
    requires WholeOrHalved(news, from, to)
    ensures var q := Paced(pace, news, from, to, |news|);
            && q.InBounds(maxRange) && q.ceiling <= pace.ceiling
            && (to - from + 1 == pace.span ==> q.Cautious())
            && (news != [] ==> q.lastFitted == Some(news[|news| - 1].Size()))
            && (news != [] && !(|news| == 1 && IsWhole(news[0], from, to)) ==> q.ceiling == CappedCeiling(pace))
  {
    if news == [] {
    } else if |news| == 1 && IsWhole(news[0], from, to) {
      assert Paced(pace, news, from, to, 0) == pace;
    } else {
      forall c | c in news ensures !IsWhole(c, from, to) {}
      PacedByParts(pace, news, from, to, |news|);
      assert news[|news| - 1] in news;
    }
  }

  /** After so many ranges of the whole span that all fitted. */
  function AfterWhole(pace: Pace, n: nat): Pace {
    if n == 0 then pace
    else
      var before := AfterWhole(pace, n - 1);
      before.AfterChunk(true, true, before.span)
  }

  function Doubled(span: int, n: nat): int { if n == 0 then span else 2 * Doubled(span, n - 1) }

  /** A span that shrank grows back, doubling with each range read whole, up to the ceiling. */
  lemma {:induction false} GrowsBack(pace: Pace, maxRange: int, n: nat)
    requires pace.InBounds(maxRange)
    ensures AfterWhole(pace, n).span == Minimum(pace.ceiling, Doubled(pace.span, n)) && Doubled(pace.span, n) >= pace.span
    ensures AfterWhole(pace, n).ceiling == pace.ceiling
  {
    if n > 0 { GrowsBack(pace, maxRange, n - 1); }
  }

  /** A range read whole is such a step. */
  lemma PacedByWhole(pace: Pace, news: seq<LogChunk>, from: int, to: int)
    requires |news| == 1 && IsWhole(news[0], from, to) && to - from + 1 == pace.span
    ensures Paced(pace, news, from, to, 1) == AfterWhole(pace, 1)
  {
    assert Paced(pace, news, from, to, 0) == pace && AfterWhole(pace, 0) == pace;
  }

  function CappedCeiling(pace: Pace): int {
    if pace.lastFitted.Some? && pace.lastFitted.value < pace.ceiling then pace.lastFitted.value else pace.ceiling
  }
}
