/** The monitor's table and every atomic write to it (services/monitor/src/store.ts), by any number of polling cycles.

    Cycles may overlap, since a lease can expire under a running one, and any cycle can stop anywhere. A cycle keeps the
    cursor it read or saved last, and the matches it has written as final since. */
module MonitorProtocol {
  import opened Wrappers

  datatype Cursor = Cursor(durable: nat, fast: nat, version: nat)

  /** matchKey hashes the chain, transaction, ordinal and rule; hashes are taken as injective, so a key is the triple. */
  datatype Key = Key(transaction: nat, ordinal: nat, rule: nat)

  datatype Status = Provisional | Final | Dropped

  datatype Match = Match(status: Status, block: nat)

  /** Keys of the matches the canonical chain holds in each block, for the rules in force. */
  type Chain = nat -> set<Key>

  /** The table, with the cursors ever saved: the one of version v is saved[v - 1]. */
  datatype State = State(cursor: Option<Cursor>, matches: map<Key, Match>, saved: seq<Cursor>) {
    predicate IsFinal(k: Key) { k in matches && matches[k].status == Final }

    /** A cursor some cycle read or saved once; it may be out of date by now. */
    predicate Held(c: Cursor) { 1 <= c.version <= |saved| && saved[c.version - 1] == c }
  }

  datatype Cycle = Cycle(held: Option<Cursor>, wrote: set<Key>)

  datatype World = World(state: State, cycles: map<nat, Cycle>)

  // The steps

  datatype Step =
    | Reads(cycle: nat)                                 // getCursor
    | WritesProvisional(key: Key, block: nat)           // writeProvisional of a match not there yet
    | WritesFinal(cycle: nat, key: Key, block: nat)     // writeFinal, also of a match that is final
    | Saves(cycle: nat, next: Cursor)                   // saveCursor over the version it read
    | Drops(key: Key)                                   // one update of dropStaleProvisional

  /** Every canonical match of the blocks above one and up to another is among these keys. */
  ghost predicate HoldsAll(keys: set<Key>, chain: Chain, above: int, upTo: int) {
    forall b: nat, k :: above < b <= upTo && k in chain(b) ==> k in keys
  }

  /** What a cycle may save: the first cursor, when it read none; or over the cursor it holds one that is not behind it
      and covers only blocks whose matches the cycle has written. */
  ghost predicate MaySave(cycle: Cycle, chain: Chain, next: Cursor) {
    if next.version == 0 then cycle.held.None?
    else
      && cycle.held.Some? && cycle.held.value.version == next.version && cycle.held.value.durable <= next.durable
      && HoldsAll(cycle.wrote, chain, cycle.held.value.durable, next.durable)
  }

  ghost predicate CanStep(w: World, chain: Chain, step: Step) {
    match step
    case Reads(_) => true
    case WritesProvisional(k, _) => k !in w.state.matches
    case WritesFinal(c, _, _) => c in w.cycles
    case Saves(c, next) =>
      && c in w.cycles && MaySave(w.cycles[c], chain, next)
      && next.version == (if w.state.cursor.None? then 0 else w.state.cursor.value.version)
    case Drops(k) => k in w.state.matches && w.state.matches[k].status == Provisional
  }

  function Do(w: World, step: Step): World {
    match step
    case Reads(c) => w.(cycles := w.cycles[c := Cycle(w.state.cursor, {})])
    case WritesProvisional(k, block) => w.(state := w.state.(matches := w.state.matches[k := Match(Provisional, block)]))
    case WritesFinal(c, k, block) =>
      if c !in w.cycles then w
      else
        var cycle := w.cycles[c];
        World(if w.state.IsFinal(k) then w.state else w.state.(matches := w.state.matches[k := Match(Final, block)]),
              w.cycles[c := cycle.(wrote := cycle.wrote + {k})])
    case Saves(c, next) =>
      if c !in w.cycles then w
      else
        var done := next.(version := next.version + 1);
        World(State(Some(done), w.state.matches, w.state.saved + [done]), w.cycles[c := w.cycles[c].(held := Some(done))])
    case Drops(k) =>
      if k !in w.state.matches then w
      else w.(state := w.state.(matches := w.state.matches[k := w.state.matches[k].(status := Dropped)]))
  }

  // The invariant

  ghost predicate AllFinal(s: State, chain: Chain, above: int, upTo: int) {
    forall b: nat, k :: above < b <= upTo && k in chain(b) ==> s.IsFinal(k)
  }

  /** The block the cursor started at; matches up to it were never scanned for. */
  function Origin(s: State): nat
    requires s.saved != []
  {
    s.saved[0].durable
  }

  /** The cursor is the last one saved; versions count the saves and the durable block never went back. */
  ghost predicate CursorsOk(s: State) {
    && (s.saved == [] <==> s.cursor.None?)
    && (s.cursor.Some? ==> s.cursor.value == s.saved[|s.saved| - 1])
    && (forall i :: 0 <= i < |s.saved| ==> s.saved[i].version == i + 1)
    && (forall i, j :: 0 <= i <= j < |s.saved| ==> s.saved[i].durable <= s.saved[j].durable)
  }

  /** Every canonical match between the scan's start and the durable cursor has a final record. */
  ghost predicate Covered(s: State, chain: Chain) {
    s.cursor.Some? && s.saved != [] ==> AllFinal(s, chain, Origin(s), s.cursor.value.durable)
  }

  /** What a cycle remembers is true of the table. */
  ghost predicate CycleOk(s: State, cycle: Cycle) {
    (cycle.held.Some? ==> s.Held(cycle.held.value)) && forall k :: k in cycle.wrote ==> s.IsFinal(k)
  }

  ghost predicate WorldOk(w: World, chain: Chain) {
    && CursorsOk(w.state) && Covered(w.state, chain)
    && forall c :: c in w.cycles ==> CycleOk(w.state, w.cycles[c])
  }

  /** What any number of steps by any cycles can do: cursors are only added, records are never lost, a final record
      stays final, and one that is still provisional is as it was. */
  ghost predicate Evolves(s: State, t: State) {
    && s.saved <= t.saved
    && (forall k :: k in s.matches ==> k in t.matches)
    && (forall k :: s.IsFinal(k) ==> t.IsFinal(k))
    && (forall k :: k in s.matches && t.matches[k].status == Provisional ==> t.matches[k] == s.matches[k])
  }

  lemma StepEvolves(w: World, chain: Chain, step: Step)
    requires CanStep(w, chain, step)
    ensures Evolves(w.state, Do(w, step).state)
  {
    hide HoldsAll;
  }

  lemma CyclesStay(w: World, u: World, chain: Chain)
    requires WorldOk(w, chain) && Evolves(w.state, u.state)
    ensures forall c :: c in w.cycles ==> CycleOk(u.state, w.cycles[c])
  {
    forall c | c in w.cycles ensures CycleOk(u.state, w.cycles[c]) {
      assert CycleOk(w.state, w.cycles[c]);
    }
  }

  /** The save of a cycle whose cursor is still the stored one. */
  lemma SaveCovers(w: World, chain: Chain, c: nat, next: Cursor)
    requires WorldOk(w, chain) && CanStep(w, chain, Saves(c, next))
    ensures var t := Do(w, Saves(c, next)).state;
            CursorsOk(t) && Covered(t, chain) && t.Held(next.(version := next.version + 1))
  {
    var s, t := w.state, Do(w, Saves(c, next)).state;
    assert CycleOk(s, w.cycles[c]);
    if next.version != 0 {
      assert w.cycles[c].held == s.cursor;
      forall b: nat, k | Origin(t) < b <= next.durable && k in chain(b) ensures t.IsFinal(k) {
        if b <= s.cursor.value.durable { assert AllFinal(s, chain, Origin(s), s.cursor.value.durable); }
        assert s.IsFinal(k);
      }
    }
  }

  /** Every atomic write of every cycle keeps the invariant. */
  lemma WorldStep(w: World, chain: Chain, step: Step)
    requires WorldOk(w, chain) && CanStep(w, chain, step)
    ensures WorldOk(Do(w, step), chain) && Evolves(w.state, Do(w, step).state)
  {
    var u := Do(w, step);
    StepEvolves(w, chain, step);
    CyclesStay(w, u, chain);
    if step.Saves? { SaveCovers(w, chain, step.cycle, step.next); }
    forall c | c in u.cycles ensures CycleOk(u.state, u.cycles[c]) {
      if c in w.cycles { assert CycleOk(u.state, w.cycles[c]); }
    }
  }

  // Whole runs

  predicate Nothing(w: World) { w == World(State(None, map[], []), map[]) }

  /** The table from the start on, one write of one cycle after another. */
  ghost predicate IsRun(ws: seq<World>, steps: seq<Step>, chain: Chain) {
    && |ws| == |steps| + 1 && Nothing(ws[0])
    && forall i :: 0 <= i < |steps| ==> CanStep(ws[i], chain, steps[i]) && ws[i + 1] == Do(ws[i], steps[i])
  }

  lemma {:induction false} EveryWorldIsOk(ws: seq<World>, steps: seq<Step>, chain: Chain, i: nat)
    requires IsRun(ws, steps, chain) && i < |ws|
    ensures WorldOk(ws[i], chain)
    decreases i
  {
    hide CanStep, Do;
    if i > 0 {
      EveryWorldIsOk(ws, steps, chain, i - 1);
      assert CanStep(ws[i - 1], chain, steps[i - 1]) && ws[i] == Do(ws[i - 1], steps[i - 1]);
      WorldStep(ws[i - 1], chain, steps[i - 1]);
    }
  }

  lemma {:induction false} RunEvolves(ws: seq<World>, steps: seq<Step>, chain: Chain, i: nat, j: nat)
    requires IsRun(ws, steps, chain) && i <= j < |ws|
    ensures Evolves(ws[i].state, ws[j].state)
    decreases j - i
  {
    hide CanStep, Do;
    if i < j {
      RunEvolves(ws, steps, chain, i, j - 1);
      assert CanStep(ws[j - 1], chain, steps[j - 1]) && ws[j] == Do(ws[j - 1], steps[j - 1]);
      StepEvolves(ws[j - 1], chain, steps[j - 1]);
    }
  }

  /** Over every run of every interleaving, a canonical match the durable cursor has once passed has a final record ever
      after, and the cursor does not go back. */
  lemma CanonicalStaysFinal(ws: seq<World>, steps: seq<Step>, chain: Chain, i: nat, j: nat, b: nat, k: Key)
    requires IsRun(ws, steps, chain) && i <= j < |ws| && ws[i].state.saved != [] && ws[i].state.cursor.Some?
    requires Origin(ws[i].state) < b <= ws[i].state.cursor.value.durable && k in chain(b)
    ensures ws[j].state.IsFinal(k)
    ensures ws[j].state.cursor.Some? && ws[i].state.cursor.value.durable <= ws[j].state.cursor.value.durable
    ensures ws[i].state.cursor.value.version <= ws[j].state.cursor.value.version
  {
    hide IsRun;
    EveryWorldIsOk(ws, steps, chain, i);
    EveryWorldIsOk(ws, steps, chain, j);
    RunEvolves(ws, steps, chain, i, j);
    assert AllFinal(ws[i].state, chain, Origin(ws[i].state), ws[i].state.cursor.value.durable);
  }

  /** In every world of every run, a record that is provisional or dropped belongs to no canonical match the durable cursor
      has passed. */
  lemma NonFinalIsNotCanonical(ws: seq<World>, steps: seq<Step>, chain: Chain, i: nat, k: Key, b: nat)
    requires IsRun(ws, steps, chain) && i < |ws| && ws[i].state.cursor.Some? && ws[i].state.saved != []
    requires k in ws[i].state.matches && ws[i].state.matches[k].status != Final
    requires Origin(ws[i].state) < b <= ws[i].state.cursor.value.durable
    ensures k !in chain(b)
  {
    hide IsRun;
    EveryWorldIsOk(ws, steps, chain, i);
    NonFinalIsNotCovered(ws[i], chain, k, b);
  }

  lemma NonFinalIsNotCovered(w: World, chain: Chain, k: Key, b: nat)
    requires WorldOk(w, chain) && w.state.cursor.Some? && !w.state.IsFinal(k)
    requires w.state.saved != [] && Origin(w.state) < b <= w.state.cursor.value.durable
    ensures k !in chain(b)
  {
    assert AllFinal(w.state, chain, Origin(w.state), w.state.cursor.value.durable);
  }

  // Reaching one world from another

  ghost predicate CanFollow(w: World, u: World, chain: Chain) {
    exists step :: CanStep(w, chain, step) && u == Do(w, step)
  }

  ghost predicate IsPath(ws: seq<World>, chain: Chain) {
    ws != [] && forall i :: 0 < i < |ws| ==> CanFollow(ws[i - 1], ws[i], chain)
  }

  /** Any number of steps lead from one world to the other. */
  ghost predicate Reaches(w: World, u: World, chain: Chain) {
    exists ws :: IsPath(ws, chain) && ws[0] == w && ws[|ws| - 1] == u
  }

  lemma ReachesItself(w: World, chain: Chain)
    ensures Reaches(w, w, chain)
  {
    assert IsPath([w], chain);
  }

  lemma ReachesNext(w: World, u: World, chain: Chain, step: Step)
    requires Reaches(w, u, chain) && CanStep(u, chain, step)
    ensures Reaches(w, Do(u, step), chain)
  {
    hide CanFollow;
    var ws :| IsPath(ws, chain) && ws[0] == w && ws[|ws| - 1] == u;
    var v := Do(u, step);
    CanFollowNext(u, chain, step);
    var more := ws + [v];
    assert IsPath(more, chain);
    assert more[0] == w && more[|more| - 1] == v;
  }

  lemma CanFollowNext(u: World, chain: Chain, step: Step)
    requires CanStep(u, chain, step)
    ensures CanFollow(u, Do(u, step), chain)
  {
  }

  lemma ReachesTransitively(w: World, u: World, v: World, chain: Chain)
    requires Reaches(w, u, chain) && Reaches(u, v, chain)
    ensures Reaches(w, v, chain)
  {
    hide CanFollow;
    var a :| IsPath(a, chain) && a[0] == w && a[|a| - 1] == u;
    var b :| IsPath(b, chain) && b[0] == u && b[|b| - 1] == v;
    var c := a + b[1..];
    forall i | 0 < i < |c| ensures CanFollow(c[i - 1], c[i], chain) {
      if i >= |a| {
        assert c[i] == b[i - |a| + 1] && c[i - 1] == b[i - |a|];
      }
    }
    assert IsPath(c, chain) && c[0] == w && c[|c| - 1] == v;
  }

  lemma {:induction false} PathEvolves(ws: seq<World>, chain: Chain)
    requires IsPath(ws, chain) && WorldOk(ws[0], chain)
    ensures WorldOk(ws[|ws| - 1], chain) && Evolves(ws[0].state, ws[|ws| - 1].state)
    decreases |ws|
  {
    hide CanStep, Do, WorldOk;
    if |ws| > 1 {
      PathEvolves(ws[..|ws| - 1], chain);
      assert CanFollow(ws[|ws| - 2], ws[|ws| - 1], chain);
      var step :| CanStep(ws[|ws| - 2], chain, step) && ws[|ws| - 1] == Do(ws[|ws| - 2], step);
      WorldStep(ws[|ws| - 2], chain, step);
    }
  }

  lemma ReachesEvolves(w: World, u: World, chain: Chain)
    requires WorldOk(w, chain) && Reaches(w, u, chain)
    ensures WorldOk(u, chain) && Evolves(w.state, u.state)
  {
    hide WorldOk, CanFollow, Evolves;
    var ws :| IsPath(ws, chain) && ws[0] == w && ws[|ws| - 1] == u;
    PathEvolves(ws, chain);
  }
}
