/** The dispatcher: the deliveries it makes of stream records, and what the store then has for a transaction
    (services/actions/src/dispatcher.ts, events.ts). */
module DeliveryDispatch {
  import opened Wrappers
  import opened Deliveries
  import RelayerRecords
  import RelayerEvents
  import RelayerInvariants
  import RelayerRuns
  import H = RelayerHistory
  import M = MonitorProtocol

  type TxRecord = RelayerRecords.TxRecord

  const MAX_SEQ: nat := 9999

  /** An action of a rule. A webhook action may name the parameter that holds its secret. */
  datatype Action = Action(id: nat, secret: Option<string>)

  datatype Rule = Rule(fast: bool, actions: seq<Action>)

  datatype MatchRow = MatchRow(status: M.Status, rule: nat)

  /** A record of the table's stream: a write of a transaction's item or a match's, with its old and new image, or anything
      else, which makes no change. */
  datatype StreamRecord =
    | TxSaved(subject: nat, before: Option<TxRecord>, after: TxRecord)
    | MatchSaved(subject: nat, was: Option<MatchRow>, row: MatchRow)
    | Unrelated

  datatype Change = TxChange(subject: nat, change: H.Change, tx: TxRecord) | MatchChange(subject: nat, row: MatchRow)

  function TxChanges(subject: nat, row: TxRecord, changes: seq<H.Change>): (r: seq<Change>)
    ensures |r| == |changes| && forall k :: 0 <= k < |r| ==> r[k] == TxChange(subject, changes[k], row)
  {
    seq(|changes|, k requires 0 <= k < |changes| => TxChange(subject, changes[k], row))
  }

  /** changesFor. */
  function ChangesOf(record: StreamRecord): seq<Change> {
    match record
    case TxSaved(subject, before, after) => TxChanges(subject, after, H.ChangesFor(before, after))
    case MatchSaved(subject, was, row) =>
      if was.Some? && was.value.status == row.status then [] else [MatchChange(subject, row)]
    case Unrelated => []
  }

  // plan

  /** What the dispatcher looks up and is configured with: rules and signers' webhooks by number, the prefixes of the
      secrets a rule may name, and whether the payload of a change is within the size cap. */
  datatype Lookups =
    Lookups(rules: nat -> Option<Rule>, webhooks: nat -> Option<seq<nat>>, prefixes: seq<string>, fits: Change -> bool)

  /** underAnyPrefix. */
  predicate UnderAnyPrefix(prefixes: seq<string>, name: string) {
    exists i :: 0 <= i < |prefixes| && Closed(prefixes[i]) <= name
  }

  function Closed(prefix: string): string {
    if prefix != "" && prefix[|prefix| - 1] == '/' then prefix else prefix + "/"
  }

  /** The name is a level below the prefix: behind its slash if it ends in one, and behind a slash more in any case. */
  ghost predicate LevelBelow(prefix: string, name: string) {
    || (exists rest :: name == prefix + "/" + rest)
    || (prefix != "" && prefix[|prefix| - 1] == '/' && exists rest :: name == prefix + rest)
  }

  /** A name is let in exactly when it is a level below one of the prefixes. */
  lemma UnderIsALevelBelow(prefixes: seq<string>, name: string)
    ensures UnderAnyPrefix(prefixes, name) <==> exists i :: 0 <= i < |prefixes| && LevelBelow(prefixes[i], name)
  {
    forall i | 0 <= i < |prefixes| ensures Closed(prefixes[i]) <= name <==> LevelBelow(prefixes[i], name) {
      ClosedIsALevelBelow(prefixes[i], name);
    }
  }

  lemma ClosedIsALevelBelow(prefix: string, name: string)
    ensures Closed(prefix) <= name <==> LevelBelow(prefix, name)
  {
    var closed := Closed(prefix);
    if closed <= name {
      assert name == closed + name[|closed|..];
      if closed != prefix { assert name == prefix + "/" + name[|closed|..]; }
    }
    if rest :| name == prefix + "/" + rest {
      assert name == prefix + ("/" + rest) && name == (prefix + "/") + rest;
    }
  }

  predicate MayName(prefixes: seq<string>, action: Action) {
    action.secret.Some? ==> UnderAnyPrefix(prefixes, action.secret.value)
  }

  function Allowed(actions: seq<Action>, prefixes: seq<string>): (ids: seq<nat>)
    ensures forall id :: id in ids <==> exists a :: a in actions && a.id == id && MayName(prefixes, a)
  {
    if actions == [] then []
    else
      assert actions == [actions[0]] + actions[1..];
      (if MayName(prefixes, actions[0]) then [actions[0].id] else []) + Allowed(actions[1..], prefixes)
  }

  /** The actions that get a delivery of a change. */
  function ActionsFor(l: Lookups, c: Change): seq<nat> {
    match c
    case TxChange(_, _, tx) => WebhooksOf(l, tx)
    case MatchChange(_, row) =>
      var rule := l.rules(row.rule);
      if rule.None? || (row.status != M.Final && !rule.value.fast) then [] else Allowed(rule.value.actions, l.prefixes)
  }

  function WebhooksOf(l: Lookups, row: TxRecord): seq<nat> {
    var webhooks := l.webhooks(row.pair.signer);
    if webhooks.Some? then webhooks.value else []
  }

  function Code(status: RelayerRecords.Status): nat {
    match status
    case Queued => 0
    case Submitted => 1
    case Mined => 2
    case Confirmed => 3
    case Failed => 4
    case Cancelled => 5
  }

  function MatchCode(status: M.Status): nat {
    match status
    case Provisional => 6
    case Final => 7
    case Dropped => 8
  }

  /** Every status of a transaction and of a match has a name of its own. */
  lemma CodesDiffer(a: RelayerRecords.Status, b: RelayerRecords.Status, c: M.Status, d: M.Status)
    ensures Code(a) == Code(b) <==> a == b
    ensures MatchCode(c) == MatchCode(d) <==> c == d
    ensures Code(a) != MatchCode(c)
  {
  }

  function SeqOf(c: Change): nat { if c.TxChange? then c.change.seqNo else 0 }

  function EventOf(c: Change): nat { if c.TxChange? then Code(c.change.status) else MatchCode(c.row.status) }

  /** The key of the delivery of one change to one action. */
  function RefFor(c: Change, action: nat): Ref {
    Ref(c.subject, action, EventOf(c), SeqOf(c))
  }

  /** No delivery can be made of such a change, however often it is tried: its number does not fit the sort key, or its
      payload is over the cap. */
  predicate IsPoison(l: Lookups, c: Change) { ActionsFor(l, c) != [] && (SeqOf(c) > MAX_SEQ || !l.fits(c)) }

  /** How many changes of a record come before the first that is poison. */
  function BeforePoison(l: Lookups, changes: seq<Change>): (k: nat)
    ensures k <= |changes| && forall i :: 0 <= i < k ==> !IsPoison(l, changes[i])
    ensures k < |changes| ==> IsPoison(l, changes[k])
  {
    if changes == [] || IsPoison(l, changes[0]) then 0 else 1 + BeforePoison(l, changes[1..])
  }

  /** The deliveries one stream record is for: each of its changes before the first poison one, to each of its actions. */
  ghost predicate AsksFor(l: Lookups, changes: seq<Change>, ref: Ref) {
    exists k, a :: 0 <= k < BeforePoison(l, changes) && a in ActionsFor(l, changes[k]) && ref == RefFor(changes[k], a)
  }

  ghost predicate HasAll(lives: map<Ref, Life>, l: Lookups, changes: seq<Change>) {
    forall k, a :: 0 <= k < BeforePoison(l, changes) && a in ActionsFor(l, changes[k]) ==> RefFor(changes[k], a) in lives
  }

  datatype Dispatched = AllMade | Poison | Reported

  /** A record as the stream hands it over; one without a sequence number cannot be named in the answer. */
  datatype StreamItem = StreamItem(record: StreamRecord, named: bool)

  datatype BatchResult = NoFailures | FailedAt(index: nat) | Raised(index: nat)

  /** What was created was messaged, all of it unless the call ended early. */
  predicate AllMessaged(created: seq<Ref>, messages: seq<Ref>, ended: bool) {
    messages <= created && (ended ==> messages == created)
  }

  class Dispatcher {
    const store: DeliveryStore
    const lookups: Lookups
    // messages to the delivery queue, in order
    var messages: seq<Ref>
    // how many lookups failed, and how many messages the queue did not take
    ghost var lost: nat

    constructor (store: DeliveryStore, lookups: Lookups)
      ensures this.store == store && this.lookups == lookups && messages == [] && lost == 0
    {
      this.store, this.lookups, messages, lost := store, lookups, [], 0;
    }

    /** One batch of the stream. It stops at the first record that has to come again, which it names if it can; of every
        record before that, the store has all the deliveries it asks for, and none that no record asks for. What it created
        got its message. */
    method DispatchRecords(items: seq<StreamItem>, idOf: Ref -> string, now: int)
      returns (r: BatchResult, ghost made: seq<Ref>, ghost sent: seq<Ref>)
      requires store.Valid()
      requires forall i, ref :: 0 <= i < |items| && AsksFor(lookups, ChangesOf(items[i].record), ref) ==> store.mayExist(ref)
      modifies store, this
      ensures store.Valid() && Extends(old(store.lives), store.lives)
      ensures r.NoFailures? || (r.index < |items| && (r.FailedAt? <==> items[r.index].named))
      ensures forall i :: 0 <= i < (if r.NoFailures? then |items| else r.index) ==>
                HasAll(store.lives, lookups, ChangesOf(items[i].record))
      ensures !r.NoFailures? ==> store.missed + lost > old(store.missed + lost)
      ensures store.created == old(store.created) + made && messages == old(messages) + sent
      ensures AllMessaged(made, sent, r.NoFailures?)
    {
      hide Good, TableOk, OnlyAskedFor, HasAll, AsksFor, ChangesOf, Extends;
      ExtendsItself(store.lives);
      made, sent := [], [];
      for i := 0 to |items|
        invariant store.Valid() && Extends(old(store.lives), store.lives)
        invariant forall j :: 0 <= j < i ==> HasAll(store.lives, lookups, ChangesOf(items[j].record))
        invariant store.created == old(store.created) + made && messages == old(messages) + sent && sent == made
        invariant store.missed + lost >= old(store.missed + lost)
      {
        ghost var was := store.lives;
        var one: Dispatched;
        ghost var created, messaged: seq<Ref>;
        one, created, messaged := Dispatch(items[i].record, idOf, now);
        made, sent := made + created, sent + messaged;
        ExtendsTransitively(old(store.lives), was, store.lives);
        forall j | 0 <= j < i ensures HasAll(store.lives, lookups, ChangesOf(items[j].record)) {
          HasAllStays(was, store.lives, lookups, ChangesOf(items[j].record));
        }
        if one.Reported? {
          r := if items[i].named then FailedAt(i) else Raised(i);
          return;
        }
      }
      r := NoFailures;
    }

    /** One record: a delivery for each of its changes and each action, each made once however often the record comes, and
        none that it does not ask for; each it made gets a message. A poison change ends the record for good, and any other
        failure is reported, so that the record comes again. */
    method Dispatch(record: StreamRecord, idOf: Ref -> string, now: int)
      returns (r: Dispatched, ghost made: seq<Ref>, ghost sent: seq<Ref>)
      requires store.Valid()
      requires forall ref :: AsksFor(lookups, ChangesOf(record), ref) ==> store.mayExist(ref)
      modifies store, this
      ensures store.Valid() && Extends(old(store.lives), store.lives)
      ensures !r.Reported? ==> HasAll(store.lives, lookups, ChangesOf(record))
      ensures r.Poison? ==> exists c :: c in ChangesOf(record) && IsPoison(lookups, c)
      ensures r.AllMade? ==> forall c :: c in ChangesOf(record) ==> !IsPoison(lookups, c)
      ensures store.missed + lost >= old(store.missed + lost) + if r.Reported? then 1 else 0
      ensures store.created == old(store.created) + made && messages == old(messages) + sent
      ensures AllMessaged(made, sent, !r.Reported?)
    {
      hide Good, TableOk, ChangesOf, OnlyAskedFor, BeforePoison, IsPoison, ActionsFor, RefFor, Extends;
      ExtendsItself(store.lives);
      made, sent := [], [];
      var changes := ChangesOf(record);
      for i := 0 to |changes|
        invariant store.Valid() && Extends(old(store.lives), store.lives)
        invariant i <= BeforePoison(lookups, changes)
        invariant forall k, a :: 0 <= k < i && a in ActionsFor(lookups, changes[k]) ==> RefFor(changes[k], a) in store.lives
        invariant store.missed + lost >= old(store.missed + lost)
        invariant store.created == old(store.created) + made && messages == old(messages) + sent && sent == made
      {
        var found: bool := *;
        if !found {
          lost := lost + 1;
          r := Reported;
          return;
        }
        if IsPoison(lookups, changes[i]) {
          assert changes[i] in changes;
          r := Poison;
          return;
        }
        ghost var was := store.lives;
        var ok: bool;
        ghost var created, messaged: seq<Ref>;
        ok, created, messaged := MakeAll(changes, i, idOf, now);
        made, sent := made + created, sent + messaged;
        ExtendsTransitively(old(store.lives), was, store.lives);
        StillThere(was, store.lives);
        if !ok {
          r := Reported;
          return;
        }
      }
      r := AllMade;
    }

    method MakeAll(changes: seq<Change>, i: nat, idOf: Ref -> string, now: int)
      returns (ok: bool, ghost made: seq<Ref>, ghost sent: seq<Ref>)
      requires store.Valid() && i < |changes| && i < BeforePoison(lookups, changes)
      requires forall ref :: AsksFor(lookups, changes, ref) ==> store.mayExist(ref)
      modifies store, this
      ensures store.Valid() && Extends(old(store.lives), store.lives)
      ensures ok ==> forall a :: a in ActionsFor(lookups, changes[i]) ==> RefFor(changes[i], a) in store.lives
      ensures store.missed + lost >= old(store.missed + lost) + if ok then 0 else 1
      ensures store.created == old(store.created) + made && messages == old(messages) + sent
      ensures AllMessaged(made, sent, ok)
    {
      hide Good, TableOk, OnlyAskedFor, BeforePoison, RefFor, ActionsFor, Extends;
      ExtendsItself(store.lives);
      made, sent := [], [];
      var actions := ActionsFor(lookups, changes[i]);
      for j := 0 to |actions|
        invariant store.Valid() && Extends(old(store.lives), store.lives)
        invariant forall k :: 0 <= k < j ==> RefFor(changes[i], actions[k]) in store.lives
        invariant store.missed + lost >= old(store.missed + lost)
        invariant store.created == old(store.created) + made && messages == old(messages) + sent && sent == made
      {
        ghost var was := store.lives;
        var ref := RefFor(changes[i], actions[j]);
        assert actions[j] in actions && AsksFor(lookups, changes, ref);
        var one: bool;
        ghost var created, messaged: seq<Ref>;
        one, created, messaged := MakeOne(ref, idOf(ref), now);
        made, sent := made + created, sent + messaged;
        ExtendsTransitively(old(store.lives), was, store.lives);
        StillThere(was, store.lives);
        if !one {
          ok := false;
          return;
        }
      }
      ok := true;
    }

    /** Creates the delivery, sends its message and then saves it as queued, due after the grace. One that was there already is
        left alone. The record is due when it is created, so the index lists it whether or not the message went out. */
    method MakeOne(ref: Ref, id: string, now: int) returns (ok: bool, ghost made: seq<Ref>, ghost sent: seq<Ref>)
      requires store.Valid() && store.mayExist(ref)
      modifies store, this
      ensures store.Valid() && Extends(old(store.lives), store.lives)
      ensures ok ==> ref in store.lives
      ensures ok && made != [] ==>
                exists d: Delivery :: d.ref == ref && Seen(store.lives, d)
                            && Became(store.lives, d, Deliveries.Queued, 0, Some(now + REAPER_GRACE_MS), None)
      ensures store.missed + lost >= old(store.missed + lost) + if ok then 0 else 1
      ensures store.created == old(store.created) + made && messages == old(messages) + sent
      ensures AllMessaged(made, sent, ok)
    {
      hide Good, IsLife, Extends;
      made, sent := [], [];
      var created := store.Create(ref, id, now);
      if !created.Created? {
        ok := created.WasThere?;
        return;
      }
      made := [ref];
      var taken: bool := *;
      if !taken {
        lost := lost + 1;
        ok := false;
        return;
      }
      messages, sent := messages + [ref], [ref];
      ghost var before := store.lives;
      var d := created.record;
      var saved := store.Save(d.(status := Deliveries.Queued, nextAttemptAt := Some(now + REAPER_GRACE_MS)), d,
                              MarkQueued(now));
      ExtendsTransitively(old(store.lives), before, store.lives);
      SeenStays(before, store.lives, d);
      ok := saved.Saved?;
    }
  }

  lemma StillThere(a: map<Ref, Life>, b: map<Ref, Life>)
    requires Extends(a, b)
    ensures forall ref :: ref in a ==> ref in b
  {
  }

  lemma HasAllStays(a: map<Ref, Life>, b: map<Ref, Life>, l: Lookups, changes: seq<Change>)
    requires Extends(a, b) && HasAll(a, l, changes)
    ensures HasAll(b, l, changes)
  {
    hide BeforePoison, ActionsFor, RefFor;
  }

  // The deliveries of a transaction

  /** The changes of one save of a run. */
  function ChangesAt(images: seq<TxRecord>, i: nat): seq<H.Change>
    requires i < |images|
  {
    H.ChangesFor(if i == 0 then None else Some(images[i - 1]), images[i])
  }

  /** The stream's record of that save. */
  function SaveOf(subject: nat, images: seq<TxRecord>, i: nat): StreamRecord
    requires i < |images|
  {
    TxSaved(subject, if i == 0 then None else Some(images[i - 1]), images[i])
  }

  lemma {:induction false} EmittedIsAllChanges(images: seq<TxRecord>, n: nat, c: H.Change)
    requires n < |images|
    ensures c in H.Emitted(images, n) <==> exists i :: 0 <= i <= n && c in ChangesAt(images, i)
  {
    hide H.ChangesFor;
    if n == 0 {
      assert H.Emitted(images, 0) == ChangesAt(images, 0);
    } else {
      EmittedIsAllChanges(images, n - 1, c);
      assert H.Emitted(images, n) == H.Emitted(images, n - 1) + ChangesAt(images, n);
    }
  }

  /** A save of a run is for one change at most. */
  lemma OneChangeASave(images: seq<TxRecord>, events: seq<RelayerEvents.Event>, i: nat)
    requires RelayerRuns.IsRun(images, events) && i < |images|
    ensures |ChangesAt(images, i)| <= 1
  {
    hide RelayerRecords.HistoryCount, H.ChangesFor, RelayerEvents.Enabled, RelayerEvents.Apply, RelayerEvents.Good;
    if i == 0 {
      H.FirstChange(images[0]);
    } else {
      RelayerRuns.EveryImageIsGood(images, events, i - 1);
      assert RelayerEvents.Enabled(events[i - 1], images[i - 1])
          && images[i] == RelayerEvents.Apply(events[i - 1], images[i - 1]);
      H.ChangesOfStep(events[i - 1], images[i - 1]);
    }
  }

  /** A transaction stays its signer's. */
  lemma {:induction false} SignerStays(l: Lookups, images: seq<TxRecord>, events: seq<RelayerEvents.Event>, i: nat)
    requires RelayerRuns.IsRun(images, events) && i < |images|
    ensures WebhooksOf(l, images[i]) == WebhooksOf(l, images[0])
  {
    hide RelayerEvents.Enabled, RelayerEvents.Apply, RelayerEvents.Good;
    if i > 0 {
      SignerStays(l, images, events, i - 1);
      assert RelayerEvents.Enabled(events[i - 1], images[i - 1])
          && images[i] == RelayerEvents.Apply(events[i - 1], images[i - 1]);
      RelayerInvariants.Columns(events[i - 1], images[i - 1]);
    }
  }

  /** Every save up to the n-th was dispatched, any number of times and in any order, and not only reported. */
  ghost predicate AllDispatched(lives: map<Ref, Life>, l: Lookups, subject: nat, images: seq<TxRecord>, n: nat)
    requires n < |images|
  {
    forall i :: 0 <= i <= n ==> HasAll(lives, l, ChangesOf(SaveOf(subject, images, i)))
  }

  /** The stream's records of this subject are the saves of this run. */
  ghost predicate FromTheRun(mayExist: Ref -> bool, l: Lookups, subject: nat, images: seq<TxRecord>, n: nat)
    requires n < |images|
  {
    forall ref :: mayExist(ref) && ref.subject == subject ==>
      exists i :: 0 <= i <= n && AsksFor(l, ChangesOf(SaveOf(subject, images, i)), ref)
  }

  /** The k-th status change was saved with a row whose payload fits. */
  ghost predicate ChangeFits(l: Lookups, subject: nat, images: seq<TxRecord>, n: nat, k: nat)
    requires n < |images|
  {
    exists i, c :: 0 <= i <= n && c in ChangesAt(images, i) && c.seqNo == k && l.fits(TxChange(subject, c, images[i]))
  }

  /** Dispatching again what was dispatched changes nothing of it. */
  lemma DispatchedStays(a: map<Ref, Life>, b: map<Ref, Life>, l: Lookups, subject: nat, images: seq<TxRecord>, n: nat)
    requires Extends(a, b) && n < |images| && AllDispatched(a, l, subject, images, n)
    ensures AllDispatched(b, l, subject, images, n)
  {
    hide HasAll, ChangesOf;
    forall i | 0 <= i <= n ensures HasAll(b, l, ChangesOf(SaveOf(subject, images, i))) {
      HasAllStays(a, b, l, ChangesOf(SaveOf(subject, images, i)));
    }
  }

  /** Once every save of a transaction's run was dispatched, whatever was dispatched twice or failed before: the store has,
      for each of its signer's webhooks, one delivery for each status the transaction went through whose number fits the
      key and whose payload fits, under that number, and no other. A status change past the key's width has none. */
  lemma OneDeliveryAChange(items: map<Ref, Item>, lives: map<Ref, Life>, mayExist: Ref -> bool, l: Lookups, subject: nat,
                           images: seq<TxRecord>, events: seq<RelayerEvents.Event>, n: nat, ref: Ref)
    requires TableOk(items, lives) && OnlyAskedFor(lives, mayExist) && RelayerRuns.IsRun(images, events) && n < |images|
    requires FromTheRun(mayExist, l, subject, images, n) && AllDispatched(lives, l, subject, images, n)
    requires ref.subject == subject
    ensures |H.Trail(images, n)| == RelayerRecords.HistoryCount(images[n])
    ensures ref in items <==>
              && l.webhooks(images[0].pair.signer).Some? && ref.action in l.webhooks(images[0].pair.signer).value
              && ref.seqNo < |H.Trail(images, n)| && ref.event == Code(H.Trail(images, n)[ref.seqNo])
              && ref.seqNo <= MAX_SEQ && ChangeFits(l, subject, images, n, ref.seqNo)
  {
    hide RelayerRuns.IsRun, H.ChangesFor, Code, IsLife, ItemOf, BeforePoison, RelayerRecords.HistoryCount, ChangeFits,
         FromTheRun, AllDispatched, WebhooksOf;
    H.EveryChangeExactlyOnce(images, events, n);
    WebhooksAre(l, images[0], ref.action);
    if ref in items { OnlyChanges(mayExist, l, subject, images, events, n, ref); }
    if ref.action in WebhooksOf(l, images[0]) && ref.seqNo < |H.Trail(images, n)|
       && ref.event == Code(H.Trail(images, n)[ref.seqNo]) && ref.seqNo <= MAX_SEQ
       && ChangeFits(l, subject, images, n, ref.seqNo)
    {
      EveryChange(lives, l, subject, images, events, n, ref);
    }
  }

  lemma WebhooksAre(l: Lookups, tx: TxRecord, action: nat)
    ensures action in WebhooksOf(l, tx) <==> l.webhooks(tx.pair.signer).Some? && action in l.webhooks(tx.pair.signer).value
  {
  }

  lemma OnlyChanges(mayExist: Ref -> bool, l: Lookups, subject: nat, images: seq<TxRecord>,
                    events: seq<RelayerEvents.Event>, n: nat, ref: Ref)
    requires RelayerRuns.IsRun(images, events) && n < |images|
    requires FromTheRun(mayExist, l, subject, images, n) && mayExist(ref) && ref.subject == subject
    ensures ref.action in WebhooksOf(l, images[0])
    ensures ref.seqNo < |H.Trail(images, n)| && ref.event == Code(H.Trail(images, n)[ref.seqNo])
    ensures ref.seqNo <= MAX_SEQ && ChangeFits(l, subject, images, n, ref.seqNo)
  {
    hide RelayerRuns.IsRun, H.ChangesFor, Code, BeforePoison, RelayerRecords.HistoryCount, WebhooksOf;
    H.EveryChangeExactlyOnce(images, events, n);
    var i :| 0 <= i <= n && AsksFor(l, ChangesOf(SaveOf(subject, images, i)), ref);
    var changes := ChangesOf(SaveOf(subject, images, i));
    var k, a :| 0 <= k < BeforePoison(l, changes) && a in ActionsFor(l, changes[k]) && ref == RefFor(changes[k], a);
    var c := ChangesAt(images, i)[k];
    assert changes[k] == TxChange(subject, c, images[i]) && !IsPoison(l, changes[k]) && c in ChangesAt(images, i);
    SignerStays(l, images, events, i);
    EmittedIsAllChanges(images, n, c);
    var m :| 0 <= m < |H.Emitted(images, n)| && H.Emitted(images, n)[m] == c;
  }

  lemma EveryChange(lives: map<Ref, Life>, l: Lookups, subject: nat, images: seq<TxRecord>,
                    events: seq<RelayerEvents.Event>, n: nat, ref: Ref)
    requires RelayerRuns.IsRun(images, events) && n < |images|
    requires AllDispatched(lives, l, subject, images, n) && ref.subject == subject && ref.action in WebhooksOf(l, images[0])
    requires ref.seqNo < |H.Trail(images, n)| && ref.event == Code(H.Trail(images, n)[ref.seqNo])
    requires ref.seqNo <= MAX_SEQ && ChangeFits(l, subject, images, n, ref.seqNo)
    ensures ref in lives
  {
    hide RelayerRuns.IsRun, ChangesAt, Code, RelayerRecords.HistoryCount, HasAll, H.Emitted, H.Trail, IsPoison, RefFor,
         WebhooksOf, ChangesOf;
    H.EveryChangeExactlyOnce(images, events, n);
    var i, c :| 0 <= i <= n && c in ChangesAt(images, i) && c.seqNo == ref.seqNo && l.fits(TxChange(subject, c, images[i]));
    EmittedIsAllChanges(images, n, c);
    var m :| 0 <= m < |H.Emitted(images, n)| && H.Emitted(images, n)[m] == c;
    OneChangeASave(images, events, i);
    SignerStays(l, images, events, i);
    RefIs(subject, c, images[i], ref);
    OneIsMade(lives, l, subject, images, i, c, ref.action);
  }

  lemma RefIs(subject: nat, c: H.Change, row: TxRecord, ref: Ref)
    requires ref.subject == subject && ref.event == Code(c.status) && ref.seqNo == c.seqNo
    ensures ref == RefFor(TxChange(subject, c, row), ref.action)
  {
  }

  lemma OneIsMade(lives: map<Ref, Life>, l: Lookups, subject: nat, images: seq<TxRecord>, i: nat, c: H.Change, action: nat)
    requires i < |images| && HasAll(lives, l, ChangesOf(SaveOf(subject, images, i)))
    requires |ChangesAt(images, i)| <= 1 && c in ChangesAt(images, i) && action in WebhooksOf(l, images[i])
    requires c.seqNo <= MAX_SEQ && l.fits(TxChange(subject, c, images[i]))
    ensures RefFor(TxChange(subject, c, images[i]), action) in lives
  {
    hide Code, H.ChangesFor, WebhooksOf;
    assert ChangesAt(images, i)[0] == c;
    assert ChangesOf(SaveOf(subject, images, i))[0] == TxChange(subject, c, images[i]);
  }

  /** So where every payload fits, the k-th status change has its delivery exactly when its number is at most 9999. */
  lemma PastTheWidthThereIsNone(items: map<Ref, Item>, lives: map<Ref, Life>, mayExist: Ref -> bool, l: Lookups,
                                subject: nat, images: seq<TxRecord>, events: seq<RelayerEvents.Event>, n: nat, action: nat,
                                k: nat)
    requires TableOk(items, lives) && OnlyAskedFor(lives, mayExist) && RelayerRuns.IsRun(images, events) && n < |images|
    requires FromTheRun(mayExist, l, subject, images, n) && AllDispatched(lives, l, subject, images, n)
    requires action in WebhooksOf(l, images[0]) && k < |H.Trail(images, n)| && forall c :: l.fits(c)
    ensures Ref(subject, action, Code(H.Trail(images, n)[k]), k) in items <==> k <= MAX_SEQ
  {
    hide RelayerRuns.IsRun, H.ChangesFor, Code, TableOk, OnlyAskedFor, FromTheRun, AllDispatched,
         RelayerRecords.HistoryCount, WebhooksOf;
    WebhooksAre(l, images[0], action);
    OneDeliveryAChange(items, lives, mayExist, l, subject, images, events, n,
                       Ref(subject, action, Code(H.Trail(images, n)[k]), k));
    H.EveryChangeExactlyOnce(images, events, n);
    var c := H.Emitted(images, n)[k];
    EmittedIsAllChanges(images, n, c);
    var i :| 0 <= i <= n && c in ChangesAt(images, i);
    assert l.fits(TxChange(subject, c, images[i]));
  }

  /** The deliveries of a subject to one action. */
  ghost function DeliveriesTo(items: map<Ref, Item>, subject: nat, action: nat): set<Ref> {
    set ref | ref in items && ref.subject == subject && ref.action == action
  }

  ghost function ImageOf<T>(xs: set<T>, f: T -> Ref): set<Ref> { set x | x in xs :: f(x) }

  lemma {:induction false} ImageHasItsSize<T>(xs: set<T>, f: T -> Ref)
    requires forall x, y :: x in xs && y in xs && f(x) == f(y) ==> x == y
    ensures |ImageOf(xs, f)| == |xs|
  {
    if xs != {} {
      var x :| x in xs;
      ImageHasItsSize(xs - {x}, f);
      assert ImageOf(xs, f) == ImageOf(xs - {x}, f) + {f(x)};
    }
  }

  ghost function Below(n: nat): (ks: set<nat>)
    ensures |ks| == n && forall k: nat :: k in ks <==> k < n
  {
    if n == 0 then {} else Below(n - 1) + {n - 1}
  }

  /** Where payloads fit, a webhook has exactly as many deliveries of a transaction as it had status changes, up to 10,000. */
  lemma AsManyAsChanges(items: map<Ref, Item>, lives: map<Ref, Life>, mayExist: Ref -> bool, l: Lookups, subject: nat,
                        images: seq<TxRecord>, events: seq<RelayerEvents.Event>, n: nat, action: nat)
    requires TableOk(items, lives) && OnlyAskedFor(lives, mayExist) && RelayerRuns.IsRun(images, events) && n < |images|
    requires FromTheRun(mayExist, l, subject, images, n) && AllDispatched(lives, l, subject, images, n)
    requires l.webhooks(images[0].pair.signer).Some? && action in l.webhooks(images[0].pair.signer).value
    requires forall c :: l.fits(c)
    ensures var count := RelayerRecords.HistoryCount(images[n]);
            |DeliveriesTo(items, subject, action)| == if count <= MAX_SEQ + 1 then count else MAX_SEQ + 1
  {
    hide RelayerRuns.IsRun, H.ChangesFor, Code, TableOk, OnlyAskedFor, FromTheRun, AllDispatched,
         RelayerRecords.HistoryCount, H.Trail, ChangeFits;
    H.EveryChangeExactlyOnce(images, events, n);
    var trail := H.Trail(images, n);
    var count := if |trail| <= MAX_SEQ + 1 then |trail| else MAX_SEQ + 1;
    var numbers := Below(count);
    var f := (k: nat) => Ref(subject, action, if k < |trail| then Code(trail[k]) else 0, k);
    forall ref ensures ref in DeliveriesTo(items, subject, action) <==> ref in ImageOf(numbers, f) {
      if ref.subject == subject && ref.action == action {
        OneDeliveryAChange(items, lives, mayExist, l, subject, images, events, n, ref);
        if ref.seqNo < |trail| && ref.seqNo <= MAX_SEQ { Fitting(l, subject, images, events, n, ref.seqNo); }
        if ref in items { assert ref == f(ref.seqNo); }
      }
    }
    assert DeliveriesTo(items, subject, action) == ImageOf(numbers, f);
    ImageHasItsSize(numbers, f);
  }

  lemma Fitting(l: Lookups, subject: nat, images: seq<TxRecord>, events: seq<RelayerEvents.Event>, n: nat, k: nat)
    requires RelayerRuns.IsRun(images, events) && n < |images| && k < |H.Trail(images, n)| && forall c :: l.fits(c)
    ensures ChangeFits(l, subject, images, n, k)
  {
    hide RelayerRuns.IsRun, H.ChangesFor, H.Trail, RelayerRecords.HistoryCount;
    H.EveryChangeExactlyOnce(images, events, n);
    var c := H.Emitted(images, n)[k];
    EmittedIsAllChanges(images, n, c);
    var i :| 0 <= i <= n && c in ChangesAt(images, i);
    assert l.fits(TxChange(subject, c, images[i]));
  }
}
