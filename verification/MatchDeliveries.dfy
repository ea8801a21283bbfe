/** The deliveries of a match: what the store has once the writes of its record were dispatched, and what they say of the
    chain (services/actions/src/dispatcher.ts, events.ts; services/monitor/src/store.ts). */
module MatchDeliveries {
  import opened Wrappers
  import opened Deliveries
  import opened DeliveryDispatch
  import RelayerRecords
  import M = MonitorProtocol

  /** The stream's record of one write of a match's record. */
  function WriteOf(subject: nat, rows: seq<MatchRow>, i: nat): StreamRecord
    requires i < |rows|
  {
    MatchSaved(subject, if i == 0 then None else Some(rows[i - 1]), rows[i])
  }

  /** The write changed the status, or created the record. */
  predicate Turned(rows: seq<MatchRow>, i: nat)
    requires i < |rows|
  {
    i == 0 || rows[i - 1].status != rows[i].status
  }

  ghost predicate MatchDispatched(lives: map<Ref, Life>, l: Lookups, subject: nat, rows: seq<MatchRow>) {
    forall i :: 0 <= i < |rows| ==> HasAll(lives, l, ChangesOf(WriteOf(subject, rows, i)))
  }

  /** The stream's records of this subject are these writes. */
  ghost predicate FromTheMatch(mayExist: Ref -> bool, l: Lookups, subject: nat, rows: seq<MatchRow>) {
    forall ref :: mayExist(ref) && ref.subject == subject ==>
      exists i :: 0 <= i < |rows| && AsksFor(l, ChangesOf(WriteOf(subject, rows, i)), ref)
  }

  /** An action hears of this status of a match: its rule has it, is a fast one unless the status is final, and the action
      names no secret, or one a level below a prefix of the list. */
  ghost predicate Hears(l: Lookups, row: MatchRow, action: nat) {
    && l.rules(row.rule).Some? && (row.status == M.Final || l.rules(row.rule).value.fast)
    && exists a :: a in l.rules(row.rule).value.actions && a.id == action && NamesNoForeignSecret(l, a)
  }

  ghost predicate NamesNoForeignSecret(l: Lookups, a: Action) {
    a.secret.Some? ==> exists i :: 0 <= i < |l.prefixes| && LevelBelow(l.prefixes[i], a.secret.value)
  }

  lemma ActionsHear(l: Lookups, subject: nat, row: MatchRow, action: nat)
    ensures action in ActionsFor(l, MatchChange(subject, row)) <==> Hears(l, row, action)
  {
    hide UnderAnyPrefix, LevelBelow;
    if l.rules(row.rule).Some? {
      forall a | a in l.rules(row.rule).value.actions ensures MayName(l.prefixes, a) <==> NamesNoForeignSecret(l, a) {
        if a.secret.Some? { UnderIsALevelBelow(l.prefixes, a.secret.value); }
      }
    }
  }

  /** The record came to this status in a write whose payload fits, and this action hears of it. */
  ghost predicate Announces(l: Lookups, subject: nat, rows: seq<MatchRow>, i: nat, ref: Ref)
    requires i < |rows|
  {
    && Turned(rows, i) && ref.event == MatchCode(rows[i].status) && ref.seqNo == 0
    && Hears(l, rows[i], ref.action) && l.fits(MatchChange(subject, rows[i]))
  }

  /** One write: it asks for exactly the deliveries that announce it. */
  lemma WriteAsksFor(l: Lookups, subject: nat, rows: seq<MatchRow>, i: nat, ref: Ref)
    requires i < |rows| && ref.subject == subject
    ensures AsksFor(l, ChangesOf(WriteOf(subject, rows, i)), ref) <==> Announces(l, subject, rows, i, ref)
  {
    hide ActionsFor, MatchCode, Hears;
    ActionsHear(l, subject, rows[i], ref.action);
    var changes := ChangesOf(WriteOf(subject, rows, i));
    if Announces(l, subject, rows, i, ref) {
      assert changes == [MatchChange(subject, rows[i])] && changes[1..] == [] && !IsPoison(l, changes[0]);
      assert 0 < BeforePoison(l, changes) && ref == RefFor(changes[0], ref.action);
    }
    if AsksFor(l, changes, ref) {
      var k, a :| 0 <= k < BeforePoison(l, changes) && a in ActionsFor(l, changes[k]) && ref == RefFor(changes[k], a);
      assert k == 0 && changes[0] == MatchChange(subject, rows[i]) && !IsPoison(l, changes[0]);
    }
  }

  /** Once the writes of a match's record were dispatched, however often: the store has a delivery of it exactly where the
      record came to the delivery's status, a fast rule or a final record hears of it, the action names no secret outside
      the list, and the payload fits. There is one for each status and action. */
  lemma OneDeliveryAStatus(items: map<Ref, Item>, lives: map<Ref, Life>, mayExist: Ref -> bool, l: Lookups, subject: nat,
                           rows: seq<MatchRow>, ref: Ref)
    requires TableOk(items, lives) && OnlyAskedFor(lives, mayExist)
    requires FromTheMatch(mayExist, l, subject, rows) && MatchDispatched(lives, l, subject, rows)
    requires ref.subject == subject
    ensures ref in items <==> exists i :: 0 <= i < |rows| && Announces(l, subject, rows, i, ref)
  {
    hide IsLife, ItemOf, AsksFor, HasAll, ChangesOf, Announces;
    if ref in items {
      var i :| 0 <= i < |rows| && AsksFor(l, ChangesOf(WriteOf(subject, rows, i)), ref);
      WriteAsksFor(l, subject, rows, i, ref);
    }
    if i :| 0 <= i < |rows| && Announces(l, subject, rows, i, ref) {
      WriteAsksFor(l, subject, rows, i, ref);
      AskedForIsMade(lives, l, ChangesOf(WriteOf(subject, rows, i)), ref);
    }
  }

  lemma AskedForIsMade(lives: map<Ref, Life>, l: Lookups, changes: seq<Change>, ref: Ref)
    requires HasAll(lives, l, changes) && AsksFor(l, changes, ref)
    ensures ref in lives
  {
    hide BeforePoison, ActionsFor, RefFor;
  }

  /** Nothing in the store delivers a match to an action that names a secret outside the prefixes. */
  lemma NoForeignSecret(items: map<Ref, Item>, lives: map<Ref, Life>, mayExist: Ref -> bool, l: Lookups, subject: nat,
                        rows: seq<MatchRow>, ref: Ref)
    requires TableOk(items, lives) && OnlyAskedFor(lives, mayExist) && FromTheMatch(mayExist, l, subject, rows)
    requires ref.subject == subject && ref in items
    ensures exists i, a: Action ::
              && 0 <= i < |rows| && l.rules(rows[i].rule).Some? && a in l.rules(rows[i].rule).value.actions
              && a.id == ref.action && NamesNoForeignSecret(l, a)
  {
    hide IsLife, ItemOf, AsksFor, HasAll, ChangesOf, NamesNoForeignSecret, MatchCode;
    var i :| 0 <= i < |rows| && AsksFor(l, ChangesOf(WriteOf(subject, rows, i)), ref);
    WriteAsksFor(l, subject, rows, i, ref);
    var a :| a in l.rules(rows[i].rule).value.actions && a.id == ref.action && NamesNoForeignSecret(l, a);
  }

  /** Two statuses never share a delivery. */
  lemma AnnouncementsDiffer(l: Lookups, subject: nat, rows: seq<MatchRow>, i: nat, j: nat, ref: Ref)
    requires i < |rows| && j < |rows| && Announces(l, subject, rows, i, ref) && Announces(l, subject, rows, j, ref)
    ensures rows[i].status == rows[j].status
  {
    CodesDiffer(RelayerRecords.Queued, RelayerRecords.Queued, rows[i].status, rows[j].status);
  }

  ghost function Statuses(rows: seq<MatchRow>): set<M.Status> { set row | row in rows :: row.status }

  /** An action that hears of every status has as many deliveries of a match as the record went through statuses. */
  lemma AsManyAsStatuses(items: map<Ref, Item>, lives: map<Ref, Life>, mayExist: Ref -> bool, l: Lookups, subject: nat,
                         rows: seq<MatchRow>, action: nat)
    requires TableOk(items, lives) && OnlyAskedFor(lives, mayExist)
    requires FromTheMatch(mayExist, l, subject, rows) && MatchDispatched(lives, l, subject, rows)
    requires forall i :: 0 <= i < |rows| ==> Hears(l, rows[i], action) && l.fits(MatchChange(subject, rows[i]))
    ensures |DeliveriesTo(items, subject, action)| == |Statuses(rows)|
  {
    hide TableOk, OnlyAskedFor, FromTheMatch, MatchDispatched, Hears, MatchCode;
    var f := (status: M.Status) => Ref(subject, action, MatchCode(status), 0);
    forall ref ensures ref in DeliveriesTo(items, subject, action) <==> ref in ImageOf(Statuses(rows), f) {
      if ref.subject == subject && ref.action == action {
        OneDeliveryAStatus(items, lives, mayExist, l, subject, rows, ref);
        if s :| s in Statuses(rows) && ref == f(s) {
          var n :| 0 <= n < |rows| && rows[n].status == s;
          var i := CameTo(rows, s, n);
          assert Announces(l, subject, rows, i, ref);
        }
        if i :| 0 <= i < |rows| && Announces(l, subject, rows, i, ref) {
          assert rows[i].status in Statuses(rows) && ref == f(rows[i].status);
        }
      }
    }
    assert DeliveriesTo(items, subject, action) == ImageOf(Statuses(rows), f);
    forall s, u | s in Statuses(rows) && u in Statuses(rows) && f(s) == f(u) ensures s == u {
      CodesDiffer(RelayerRecords.Queued, RelayerRecords.Queued, s, u);
    }
    ImageHasItsSize(Statuses(rows), f);
  }

  // The matches of the monitor

  /** The record of a key in every world from the first that has it on. A step that leaves the record as it is counts as a
      write that changes nothing; ChangesOf makes nothing of that. */
  ghost predicate IsRecordOf(ws: seq<M.World>, key: M.Key, first: nat, rows: seq<MatchRow>) {
    && rows != [] && first + |rows| <= |ws|
    && (first > 0 ==> key !in ws[first - 1].state.matches)
    && forall i :: 0 <= i < |rows| ==>
         key in ws[first + i].state.matches && rows[i] == MatchRow(ws[first + i].state.matches[key].status, key.rule)
  }

  lemma {:induction false} CameTo(rows: seq<MatchRow>, status: M.Status, n: nat) returns (i: nat)
    requires n < |rows| && rows[n].status == status
    ensures i <= n && rows[i].status == status && Turned(rows, i)
  {
    i := n;
    if !Turned(rows, n) { i := CameTo(rows, status, n - 1); }
  }

  /** From the chain to the delivery, over every interleaving of polling cycles: once the durable cursor has passed a
      canonical match and the writes of its record were dispatched, each allowed action of its rule has its match.final
      delivery, if the payload fits. */
  lemma EveryCanonicalMatchIsDelivered(ws: seq<M.World>, steps: seq<M.Step>, chain: M.Chain, b: nat, key: M.Key, first: nat,
                                       rows: seq<MatchRow>, lives: map<Ref, Life>, l: Lookups, subject: nat, action: nat)
    requires M.IsRun(ws, steps, chain) && IsRecordOf(ws, key, first, rows) && MatchDispatched(lives, l, subject, rows)
    requires var s := ws[first + |rows| - 1].state;
             s.cursor.Some? && s.saved != [] && M.Origin(s) < b <= s.cursor.value.durable && key in chain(b)
    requires Hears(l, MatchRow(M.Final, key.rule), action)
    requires l.fits(MatchChange(subject, MatchRow(M.Final, key.rule)))
    ensures Ref(subject, action, MatchCode(M.Final), 0) in lives
  {
    hide M.IsRun, HasAll, AsksFor, ChangesOf, Hears;
    var n := |rows| - 1;
    M.CanonicalStaysFinal(ws, steps, chain, first + n, first + n, b, key);
    var i := CameTo(rows, M.Final, n);
    var ref := Ref(subject, action, MatchCode(M.Final), 0);
    assert rows[i] == MatchRow(M.Final, key.rule);
    WriteAsksFor(l, subject, rows, i, ref);
    AskedForIsMade(lives, l, ChangesOf(WriteOf(subject, rows, i)), ref);
  }

  /** And a drop notice is true when it is made: if the store has one, then in some world its record was dropped, and no
      canonical block the cursor had passed there holds the match. */
  lemma DropNoticesAreTrue(ws: seq<M.World>, steps: seq<M.Step>, chain: M.Chain, key: M.Key, first: nat, rows: seq<MatchRow>,
                           items: map<Ref, Item>, lives: map<Ref, Life>, mayExist: Ref -> bool, l: Lookups, ref: Ref)
    returns (i: nat)
    requires M.IsRun(ws, steps, chain) && IsRecordOf(ws, key, first, rows)
    requires TableOk(items, lives) && OnlyAskedFor(lives, mayExist) && FromTheMatch(mayExist, l, ref.subject, rows)
    requires ref in items && ref.event == MatchCode(M.Dropped)
    ensures first + i < |ws| && key in ws[first + i].state.matches
    ensures ws[first + i].state.matches[key].status == M.Dropped && l.rules(key.rule).Some? && l.rules(key.rule).value.fast
    ensures var s := ws[first + i].state;
            s.cursor.Some? && s.saved != [] ==>
              forall b: nat :: M.Origin(s) < b <= s.cursor.value.durable ==> key !in chain(b)
  {
    hide M.IsRun, IsLife, ItemOf, AsksFor, ChangesOf, Allowed;
    i :| 0 <= i < |rows| && AsksFor(l, ChangesOf(WriteOf(ref.subject, rows, i)), ref);
    WriteAsksFor(l, ref.subject, rows, i, ref);
    var s := ws[first + i].state;
    if s.cursor.Some? && s.saved != [] {
      forall b: nat | M.Origin(s) < b <= s.cursor.value.durable ensures key !in chain(b) {
        M.NonFinalIsNotCanonical(ws, steps, chain, first + i, key, b);
      }
    }
  }
}
