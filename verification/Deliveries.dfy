/** Deliveries: their records, their index entries and the writes that move them on (services/actions/src/store.ts,
    sender.ts, dispatcher.ts, keys.ts; services/api/src/store.ts, requeueDelivery).

    A write is conditional on the version read, so each is one step from the stored image. A claim can lapse and be made
    again, so a send may happen more than once; what is proved is about the records. */
module Deliveries {
  import opened Wrappers
  import DueIndex

  const MAX_ATTEMPTS: nat := 8
  const CLAIM_LEASE_MS: nat := 120_000
  const REAPER_GRACE_MS: nat := 60_000

  datatype Status = Pending | Queued | Delivering | Delivered | Failed | Dead

  /** The table key: the subject's partition, and a sort key made of the other three. */
  datatype Ref = Ref(subject: nat, action: nat, event: nat, seqNo: nat)

  datatype Delivery = Delivery(
    ref: Ref,
    id: string,
    status: Status,
    attempts: nat,
    nextAttemptAt: Option<int>,
    firstAttemptAt: Option<int>,
    lastAttemptAt: Option<int>,
    lastError: Option<string>,
    lastStatusCode: Option<nat>,
    version: nat)

  predicate Terminal(status: Status) { status == Delivered || status == Dead }

  // Index entries

  function HexDigit(c: char): Option<nat> {
    if '0' <= c <= '9' then Some(c as nat - '0' as nat)
    else if 'a' <= c <= 'f' then Some(c as nat - 'a' as nat + 10)
    else if 'A' <= c <= 'F' then Some(c as nat - 'A' as nat + 10)
    else None
  }

  /** A function of the id, so no write moves an index entry to another shard. */
  function DueShard(id: string): (shard: nat)
    ensures shard < DueIndex.DUE_SHARDS
  {
    if id == "" || HexDigit(id[|id| - 1]).None? then 0 else HexDigit(id[|id| - 1]).value % DueIndex.DUE_SHARDS
  }

  datatype DueKey = DueKey(shard: nat, at: int)

  /** An item: the record, its entry in the due index, and whether the dead index lists it. */
  datatype Item = Item(delivery: Delivery, due: Option<DueKey>, listedDead: bool)

  /** An image and what the two indexes list of it: Terminal decides the due entry, Dead the other. */
  function ItemOf(d: Delivery): Item {
    Item(d,
         if Terminal(d.status) then None
         else Some(DueKey(DueShard(d.id), if d.nextAttemptAt.Some? then d.nextAttemptAt.value else 0)),
         d.status == Dead)
  }

  // The writes

  datatype Event =
    | MarkQueued(now: int)
    | Claim(now: int)
    | MarkDelivered(code: Option<nat>)
    | ScheduleRetry(at: int, error: string, code: Option<nat>)
    | MarkDead(error: string, code: Option<nat>)
    | Reset(now: int)

  /** What the code has checked of its copy before it makes the write. */
  predicate Enabled(e: Event, d: Delivery) {
    match e
    case MarkQueued(_) => !Terminal(d.status) && d.attempts < MAX_ATTEMPTS
    case Claim(_) => !Terminal(d.status)
    case MarkDelivered(_) => d.status == Delivering
    case ScheduleRetry(_, _, _) => d.status == Delivering && d.attempts < MAX_ATTEMPTS
    case MarkDead(_, _) => d.status == Delivering || (!Terminal(d.status) && d.attempts >= MAX_ATTEMPTS)
    case Reset(_) => d.status == Dead
  }

  function CodeOf(code: Option<nat>, before: Option<nat>): Option<nat> { if code.Some? then code else before }

  function Image(e: Event, d: Delivery): Delivery {
    match e
    case MarkQueued(now) => d.(status := Queued, nextAttemptAt := Some(now + REAPER_GRACE_MS))
    case Claim(now) =>
      d.(status := Delivering, attempts := d.attempts + 1,
         firstAttemptAt := if d.firstAttemptAt.Some? then d.firstAttemptAt else Some(now),
         lastAttemptAt := Some(now), nextAttemptAt := Some(now + CLAIM_LEASE_MS))
    case MarkDelivered(code) =>
      d.(status := Delivered, nextAttemptAt := None, lastError := None, lastStatusCode := CodeOf(code, d.lastStatusCode))
    case ScheduleRetry(at, error, code) =>
      d.(status := Failed, nextAttemptAt := Some(at), lastError := Some(error),
         lastStatusCode := CodeOf(code, d.lastStatusCode))
    case MarkDead(error, code) =>
      d.(status := Dead, nextAttemptAt := None, lastError := Some(error), lastStatusCode := CodeOf(code, d.lastStatusCode))
    case Reset(now) =>
      d.(status := Pending, attempts := 0, nextAttemptAt := Some(now), lastError := None, lastStatusCode := None,
         firstAttemptAt := None)
  }

  function Apply(e: Event, d: Delivery): Delivery { Image(e, d).(version := d.version + 1) }

  predicate IsNew(d: Delivery) {
    && d.status == Pending && d.attempts == 0 && d.nextAttemptAt.Some? && d.firstAttemptAt.None? && d.lastError.None?
    && d.version == 0
  }

  // Lives

  /** Every image of a delivery and every write made to it. */
  datatype Life = Life(images: seq<Delivery>, events: seq<Event>)

  function Last(life: Life): Delivery
    requires life.images != []
  {
    life.images[|life.images| - 1]
  }

  ghost predicate IsLife(life: Life) {
    && |life.images| == |life.events| + 1 && IsNew(life.images[0])
    && forall i :: 0 <= i < |life.events| ==>
         Enabled(life.events[i], life.images[i]) && life.images[i + 1] == Apply(life.events[i], life.images[i])
  }

  /** What every image keeps. The bound on attempts is one for the statuses between claims: a claim that lapsed can be made
      again past it. */
  predicate Good(d: Delivery) {
    && (Terminal(d.status) <==> d.nextAttemptAt.None?)
    && (d.status == Pending || d.status == Queued || d.status == Failed ==> d.attempts < MAX_ATTEMPTS)
    && (d.status == Delivering || d.status == Delivered ==> d.attempts >= 1 && d.firstAttemptAt.Some?)
    && (d.status == Pending ==> d.attempts == 0 && d.firstAttemptAt.None? && d.lastError.None?)
    && (d.status == Failed || d.status == Dead ==> d.attempts >= 1 && d.lastError.Some?)
    && (d.status == Delivered ==> d.lastError.None?)
  }

  /** Claims made since the delivery was created or redriven. */
  function ClaimsSince(events: seq<Event>, n: nat): nat
    requires n <= |events|
  {
    if n == 0 then 0
    else if events[n - 1].Reset? then 0
    else ClaimsSince(events, n - 1) + if events[n - 1].Claim? then 1 else 0
  }

  /** Every image is good, versions count the writes, and attempts count the claims of the present life: no crash, lapse or
      requeue loses or invents one. */
  lemma {:induction false} EveryImageIsGood(life: Life, n: nat)
    requires IsLife(life) && n < |life.images|
    ensures Good(life.images[n]) && life.images[n].version == n
    ensures life.images[n].attempts == ClaimsSince(life.events, n)
    ensures life.images[n].ref == life.images[0].ref && life.images[n].id == life.images[0].id
    decreases n
  {
    if n > 0 {
      EveryImageIsGood(life, n - 1);
      var e, d := life.events[n - 1], life.images[n - 1];
      assert Enabled(e, d) && life.images[n] == Apply(e, d);
    }
  }

  /** A delivered delivery is never written again: not requeued, claimed, redriven or marked dead. */
  lemma DeliveredIsFinal(life: Life, n: nat)
    requires IsLife(life) && n < |life.images| && life.images[n].status == Delivered
    ensures n == |life.images| - 1
  {
    hide Enabled;
    if n < |life.events| { WritableIsNotDelivered(life.events[n], life.images[n]); }
  }

  lemma WritableIsNotDelivered(e: Event, d: Delivery)
    requires Enabled(e, d)
    ensures d.status != Delivered
  {
  }

  /** Between a delivery's death and its next claim lies a redrive, and nothing else brings it back. */
  lemma OnlyRedriveRevives(life: Life, n: nat)
    requires IsLife(life) && n < |life.events| && life.images[n].status == Dead
    ensures life.events[n].Reset? && life.images[n + 1].status == Pending && life.images[n + 1].attempts == 0
  {
    assert Enabled(life.events[n], life.images[n]) && life.images[n + 1] == Apply(life.events[n], life.images[n]);
  }

  /** A delivery claimed over and over, each time after its claim lapsed. */
  function ClaimedAgain(d: Delivery, k: nat, now: int): Delivery {
    if k == 0 then d else Apply(Claim(now), ClaimedAgain(d, k - 1, now))
  }

  /** The limit is on scheduling: claims are not counted against it, so lapsed ones can take attempts past any number. */
  lemma {:induction false} ClaimsPassTheLimit(d: Delivery, k: nat, now: int)
    requires !Terminal(d.status)
    ensures ClaimedAgain(d, k, now).attempts == d.attempts + k
    ensures Enabled(Claim(now), ClaimedAgain(d, k, now))
  {
    if k > 0 { ClaimsPassTheLimit(d, k - 1, now); }
  }

  // The table

  predicate Seen(lives: map<Ref, Life>, d: Delivery) {
    d.ref in lives && d.version < |lives[d.ref].images| && lives[d.ref].images[d.version] == d
  }

  ghost predicate Extends(a: map<Ref, Life>, b: map<Ref, Life>) {
    forall r :: r in a ==> r in b && a[r].images <= b[r].images && a[r].events <= b[r].events
  }

  ghost predicate TableOk(items: map<Ref, Item>, lives: map<Ref, Life>) {
    && items.Keys == lives.Keys
    && forall r :: r in lives ==> IsLife(lives[r]) && Last(lives[r]).ref == r && items[r] == ItemOf(Last(lives[r]))
  }

  ghost predicate OnlyAskedFor(lives: map<Ref, Life>, mayExist: Ref -> bool) { forall r :: r in lives ==> mayExist(r) }

  lemma SeenStays(a: map<Ref, Life>, b: map<Ref, Life>, d: Delivery)
    requires Extends(a, b) && Seen(a, d)
    ensures Seen(b, d)
  {
    assert a[d.ref].images <= b[d.ref].images;
  }

  lemma ExtendsItself(a: map<Ref, Life>)
    ensures Extends(a, a)
  {
  }

  lemma ExtendsTransitively(a: map<Ref, Life>, b: map<Ref, Life>, c: map<Ref, Life>)
    requires Extends(a, b) && Extends(b, c)
    ensures Extends(a, c)
  {
    forall r | r in a ensures r in c && a[r].images <= c[r].images && a[r].events <= c[r].events {
      assert b[r].images <= c[r].images && a[r].images <= b[r].images;
      assert b[r].events <= c[r].events && a[r].events <= b[r].events;
    }
  }

  /** A copy with the stored version is the stored record. */
  lemma SameVersionSameDelivery(items: map<Ref, Item>, lives: map<Ref, Life>, d: Delivery)
    requires TableOk(items, lives) && Seen(lives, d)
    ensures d.ref in items && d.ref in lives && lives[d.ref].images != []
    ensures Good(d) && Good(items[d.ref].delivery)
    ensures items[d.ref].delivery.version == d.version ==> items[d.ref].delivery == d == Last(lives[d.ref])
  {
    EveryImageIsGood(lives[d.ref], |lives[d.ref].images| - 1);
    EveryImageIsGood(lives[d.ref], d.version);
  }

  function Written(life: Life, e: Event): Life
    requires life.images != []
  {
    Life(life.images + [Apply(e, Last(life))], life.events + [e])
  }

  lemma WrittenIsLife(life: Life, e: Event)
    requires IsLife(life) && Enabled(e, Last(life))
    ensures IsLife(Written(life, e)) && Last(Written(life, e)) == Apply(e, Last(life))
  {
    hide Enabled, Apply, IsNew;
    var next := Written(life, e);
    forall i | 0 <= i < |next.events|
      ensures Enabled(next.events[i], next.images[i]) && next.images[i + 1] == Apply(next.events[i], next.images[i])
    {
      if i < |life.events| {
        assert Enabled(life.events[i], life.images[i]) && life.images[i + 1] == Apply(life.events[i], life.images[i]);
      }
    }
    assert next.images[0] == life.images[0];
  }

  lemma WriteKeepsTable(items: map<Ref, Item>, lives: map<Ref, Life>, d: Delivery, e: Event)
    requires TableOk(items, lives) && d.ref in lives && Last(lives[d.ref]) == d && Enabled(e, d)
    ensures TableOk(items[d.ref := ItemOf(Apply(e, d))], lives[d.ref := Written(lives[d.ref], e)])
    ensures Extends(lives, lives[d.ref := Written(lives[d.ref], e)])
    ensures Seen(lives[d.ref := Written(lives[d.ref], e)], Apply(e, d)) && Apply(e, d).ref == d.ref
  {
    var life, next := lives[d.ref], Written(lives[d.ref], e);
    hide IsLife, ItemOf, Enabled, Image;
    WrittenIsLife(life, e);
    LastVersion(life);
    ImageKeepsKey(e, d);
    assert life.images <= next.images && life.events <= next.events;
  }

  lemma LastVersion(life: Life)
    requires IsLife(life)
    ensures Last(life).version == |life.images| - 1 && Good(Last(life))
  {
    hide Good;
    EveryImageIsGood(life, |life.images| - 1);
  }

  lemma CreateKeepsTable(items: map<Ref, Item>, lives: map<Ref, Life>, d: Delivery)
    requires TableOk(items, lives) && d.ref !in items && IsNew(d)
    ensures TableOk(items[d.ref := ItemOf(d)], lives[d.ref := Life([d], [])])
    ensures Extends(lives, lives[d.ref := Life([d], [])]) && Seen(lives[d.ref := Life([d], [])], d)
  {
  }

  /** How a save ended. A broken one may have gone through. */
  datatype SaveResult = Saved(record: Delivery) | Conflict | Broke

  datatype CreateResult = Created(record: Delivery) | WasThere | NotCreated

  class DeliveryStore {
    var items: map<Ref, Item>
    ghost var lives: map<Ref, Life>
    // how many writes of this invocation were not reported as done, and what it created
    ghost var missed: nat
    ghost var created: seq<Ref>
    // the deliveries that some stream record asks for: dispatchers create no others
    ghost const mayExist: Ref -> bool

    ghost predicate Valid()
      reads this
    {
      TableOk(items, lives) && OnlyAskedFor(lives, mayExist)
    }

    constructor (ghost mayExist: Ref -> bool)
      ensures Valid() && items == map[] && this.mayExist == mayExist
    {
      items, lives, missed, created := map[], map[], 0, [];
      this.mayExist := mayExist;
    }

    /** Dispatchers, senders, sweeps and redrives take any number of steps. A caller is verified against the contract
        alone; the body is the quietest of them. */
    method Others()
      requires Valid()
      modifies this
      ensures Valid() && Extends(old(lives), lives) && missed == old(missed) && created == old(created)
    {
    }

    /** The first to create a delivery does; a record the stream delivers again finds it there. */
    method Create(ref: Ref, id: string, now: int) returns (r: CreateResult)
      requires Valid() && mayExist(ref)
      modifies this
      ensures Valid() && Extends(old(lives), lives)
      ensures r.Created? ==>
                && r.record.ref == ref && r.record.id == id && IsNew(r.record) && r.record.nextAttemptAt == Some(now)
                && Seen(lives, r.record) && ref !in old(items) && created == old(created) + [ref]
      ensures !r.Created? ==> created == old(created)
      ensures r.WasThere? ==> ref in items
      ensures missed == old(missed) + if r.NotCreated? then 1 else 0
    {
      hide IsLife, Good;
      Others();
      if ref in items { return WasThere; }
      var reached: bool, answered: bool := *, *;
      if reached {
        ghost var before := lives;
        var d := Delivery(ref, id, Pending, 0, Some(now), None, None, None, None, 0);
        CreateKeepsTable(items, lives, d);
        items := items[ref := ItemOf(d)];
        lives := lives[ref := Life([d], [])];
        ExtendsTransitively(old(lives), before, lives);
        if answered {
          created := created + [ref];
          return Created(d);
        }
      }
      missed := missed + 1;
      return NotCreated;
    }

    /** The record as it stands, so not older than any this caller knows of. */
    method Get(ref: Ref) returns (d: Option<Delivery>)
      requires Valid()
      modifies this
      ensures Valid() && Extends(old(lives), lives) && missed == old(missed) && created == old(created)
      ensures d == if ref in items then Some(items[ref].delivery) else None
      ensures d.Some? ==> d.value.ref == ref && Seen(lives, d.value)
      ensures ref in old(items) ==> d.Some? && old(items)[ref].delivery.version <= d.value.version
    {
      hide IsLife, Good;
      Others();
      if ref in old(items) { StoredOnlyGrows(old(items), old(lives), items, lives, ref); }
      if ref !in items { return None; }
      StoredIsSeen(items, lives, ref);
      return Some(items[ref].delivery);
    }

    /** A conditional write: nothing changes unless the caller's copy has the version in the table. */
    method Save(next: Delivery, ghost copy: Delivery, ghost e: Event) returns (r: SaveResult)
      requires Valid() && Seen(lives, copy) && Enabled(e, copy) && next == Image(e, copy)
      modifies this
      ensures Valid() && Extends(old(lives), lives) && created == old(created)
      ensures r.Saved? ==>
                r.record == Apply(e, copy) && Seen(lives, r.record) && copy.ref in items && items[copy.ref] == ItemOf(r.record)
      ensures r.Conflict? ==> copy.ref in items && items[copy.ref].delivery.version != copy.version
      ensures missed == old(missed) + if r.Saved? then 0 else 1
    {
      hide IsLife, Good, Enabled, Image, ItemOf, Extends, TableOk, Seen;
      Others();
      SeenStays(old(lives), lives, copy);
      SameVersionSameDelivery(items, lives, copy);
      ImageKeepsKey(e, copy);
      if items[next.ref].delivery.version != next.version {
        missed := missed + 1;
        return Conflict;
      }
      var reached: bool, answered: bool := *, *;
      if reached {
        var done := next.(version := next.version + 1);
        ghost var before := lives;
        WriteKeepsTable(items, lives, copy, e);
        items := items[done.ref := ItemOf(done)];
        lives := lives[copy.ref := Written(lives[copy.ref], e)];
        ExtendsTransitively(old(lives), before, lives);
        if answered { return Saved(done); }
      }
      missed := missed + 1;
      return Broke;
    }

    /** The API's redrive: attributes set and removed in place, only while the delivery is dead. The item it leaves is the
        one reset would have written, due index entry and all. */
    method RequeueDelivery(ref: Ref, id: string, now: int) returns (requeued: bool)
      requires Valid() && ref in items && items[ref].delivery.id == id
      modifies this
      ensures Valid() && Extends(old(lives), lives) && ref in items
      ensures requeued ==>
                && items[ref].delivery.status == Pending && items[ref].delivery.attempts == 0
                && items[ref] == ItemOf(items[ref].delivery) && items[ref].due == Some(DueKey(DueShard(id), now))
                && exists d :: Seen(lives, d) && d.ref == ref && d.status == Dead && items[ref].delivery == Apply(Reset(now), d)
      ensures !requeued ==> items[ref].delivery.status != Dead
    {
      hide IsLife, Good, ItemOf, Extends, Image;
      ghost var was := items[ref].delivery;
      StoredIsSeen(items, lives, ref);
      ghost var read := lives;
      Others();
      SeenStays(read, lives, was);
      SameId(items, lives, was);
      if items[ref].delivery.status != Dead { return false; }
      ghost var before, d := lives, items[ref].delivery;
      StoredIsSeen(items, lives, ref);
      WriteKeepsTable(items, lives, d, Reset(now));
      var it := Redriven(items[ref], id, now);
      RedrivenIsReset(d, now);
      items := items[ref := it];
      lives := lives[ref := Written(lives[ref], Reset(now))];
      ExtendsTransitively(old(lives), before, lives);
      SeenStays(before, lives, d);
      return true;
    }
  }

  /** The update expression: what it sets and what it removes, the record's attributes and the indexes' alike. */
  function Redriven(it: Item, id: string, now: int): Item {
    Item(it.delivery.(status := Pending, attempts := 0, nextAttemptAt := Some(now), version := it.delivery.version + 1,
                      lastError := None, lastStatusCode := None, firstAttemptAt := None),
         Some(DueKey(DueShard(id), now)), false)
  }

  /** The API's in-place redrive and the pipeline's reset leave the same item, so the two services agree on the shard. */
  lemma RedrivenIsReset(d: Delivery, now: int)
    ensures Redriven(ItemOf(d), d.id, now) == ItemOf(Apply(Reset(now), d))
    ensures Apply(Reset(now), d).status == Pending && Apply(Reset(now), d).attempts == 0
    ensures ItemOf(Apply(Reset(now), d)).delivery == Apply(Reset(now), d)
    ensures ItemOf(Apply(Reset(now), d)).due == Some(DueKey(DueShard(d.id), now))
  {
  }

  lemma ImageKeepsKey(e: Event, d: Delivery)
    ensures Image(e, d).ref == d.ref && Image(e, d).version == d.version && Image(e, d).id == d.id
  {
  }

  lemma StoredIsSeen(items: map<Ref, Item>, lives: map<Ref, Life>, ref: Ref)
    requires TableOk(items, lives) && ref in items
    ensures Seen(lives, items[ref].delivery) && items[ref].delivery == Last(lives[ref]) && items[ref].delivery.ref == ref
    ensures Good(items[ref].delivery) && items[ref] == ItemOf(items[ref].delivery)
  {
    EveryImageIsGood(lives[ref], |lives[ref].images| - 1);
  }

  lemma StoredOnlyGrows(items: map<Ref, Item>, lives: map<Ref, Life>, later: map<Ref, Item>, more: map<Ref, Life>, ref: Ref)
    requires TableOk(items, lives) && TableOk(later, more) && Extends(lives, more) && ref in items
    ensures ref in later && items[ref].delivery.version <= later[ref].delivery.version
  {
    assert lives[ref].images <= more[ref].images;
    LastVersion(lives[ref]);
    LastVersion(more[ref]);
  }

  lemma SameId(items: map<Ref, Item>, lives: map<Ref, Life>, d: Delivery)
    requires TableOk(items, lives) && Seen(lives, d)
    ensures d.ref in items && items[d.ref].delivery.id == d.id
  {
    EveryImageIsGood(lives[d.ref], |lives[d.ref].images| - 1);
    EveryImageIsGood(lives[d.ref], d.version);
  }

  /** The index and the records never disagree: a delivery is in the due index exactly while something is outstanding, in
      the shard of its id, at the time of its next attempt; and in the dead index exactly while it is dead. */
  lemma IndexedWhileOutstanding(items: map<Ref, Item>, lives: map<Ref, Life>, ref: Ref)
    requires TableOk(items, lives) && ref in items
    ensures var d := items[ref].delivery;
            && (items[ref].due.Some? <==> d.nextAttemptAt.Some?)
            && (items[ref].due.Some? ==> items[ref].due.value == DueKey(DueShard(d.id), d.nextAttemptAt.value))
            && (items[ref].due.None? <==> d.status == Delivered || d.status == Dead)
            && (items[ref].listedDead <==> d.status == Dead)
  {
    StoredIsSeen(items, lives, ref);
  }

  /** The due index as its queries see it: one entry for each item that has a due key, in the key's shard. */
  ghost predicate Represents(items: map<Ref, Item>, index: seq<seq<DueIndex.Entry>>, number: Ref -> nat)
    requires |index| == DueIndex.DUE_SHARDS
  {
    && (forall r :: r in items && items[r].due.Some? ==> IsListed(items[r].due.value, number(r), index))
    && (forall s, e :: 0 <= s < |index| && e in index[s] ==>
          exists r :: r in items && items[r].due == Some(DueKey(s, e.due)) && number(r) == e.id)
  }

  predicate IsListed(key: DueKey, id: nat, index: seq<seq<DueIndex.Entry>>) {
    key.shard < |index| && DueIndex.Entry(key.shard, key.at, id) in index[key.shard]
  }

  lemma {:induction false} InTogether(lists: seq<seq<DueIndex.Entry>>, s: nat, e: DueIndex.Entry)
    requires s < |lists| && e in lists[s]
    ensures e in DueIndex.Together(lists)
  {
    if s < |lists| - 1 { InTogether(lists[..|lists| - 1], s, e); }
  }

  /** A delivery with something outstanding is among what a walk of the due pages lists once its time has come: a message
      that was lost is swept, not forgotten. */
  lemma OutstandingIsListed(items: map<Ref, Item>, lives: map<Ref, Life>, index: seq<seq<DueIndex.Entry>>,
                            number: Ref -> nat, now: int, ref: Ref)
    requires TableOk(items, lives) && DueIndex.IsIndex(index) && Represents(items, index, number) && ref in items
    requires items[ref].delivery.nextAttemptAt.Some? && items[ref].delivery.nextAttemptAt.value <= now
    ensures var d := items[ref].delivery;
            DueIndex.Entry(DueShard(d.id), d.nextAttemptAt.value, number(ref))
              in DueIndex.Together(DueIndex.AllDue(index, now))
  {
    hide TableOk, DueShard;
    IndexedWhileOutstanding(items, lives, ref);
    var key := items[ref].due.value;
    var e := DueIndex.Entry(key.shard, key.at, number(ref));
    assert IsListed(key, number(ref), index);
    DueIndex.DueByIsAllDue(index[key.shard], now, e);
    InTogether(DueIndex.AllDue(index, now), key.shard, e);
  }

  /** The due pages list this delivery. */
  ghost predicate Listed(index: seq<seq<DueIndex.Entry>>, number: Ref -> nat, ref: Ref, now: int)
    requires |index| == DueIndex.DUE_SHARDS
  {
    exists e :: e in DueIndex.Together(DueIndex.AllDue(index, now)) && e.id == number(ref)
  }

  lemma {:induction false} FromOneList(lists: seq<seq<DueIndex.Entry>>, e: DueIndex.Entry) returns (s: nat)
    requires e in DueIndex.Together(lists)
    ensures s < |lists| && e in lists[s]
  {
    s := |lists| - 1;
    if e !in lists[s] { s := FromOneList(lists[..|lists| - 1], e); }
  }

  /** A delivery is listed from the time of its next attempt on, and never before. */
  lemma ListedExactlyWhenDue(items: map<Ref, Item>, lives: map<Ref, Life>, index: seq<seq<DueIndex.Entry>>,
                             number: Ref -> nat, now: int, ref: Ref)
    requires TableOk(items, lives) && DueIndex.IsIndex(index) && Represents(items, index, number) && ref in items
    requires forall r, q :: r in items && q in items && number(r) == number(q) ==> r == q
    ensures Listed(index, number, ref, now)
       <==> items[ref].delivery.nextAttemptAt.Some? && items[ref].delivery.nextAttemptAt.value <= now
  {
    hide TableOk, DueShard;
    IndexedWhileOutstanding(items, lives, ref);
    var d := items[ref].delivery;
    if d.nextAttemptAt.Some? && d.nextAttemptAt.value <= now {
      OutstandingIsListed(items, lives, index, number, now, ref);
    }
    if Listed(index, number, ref, now) {
      var e :| e in DueIndex.Together(DueIndex.AllDue(index, now)) && e.id == number(ref);
      var s := FromOneList(DueIndex.AllDue(index, now), e);
      DueIndex.DueByIsAllDue(index[s], now, e);
    }
  }

  // What each write leaves

  /** The image after this copy. */
  predicate Became(lives: map<Ref, Life>, copy: Delivery, status: Status, attempts: nat, due: Option<int>,
                   error: Option<string>)
  {
    copy.ref in lives && copy.version + 1 < |lives[copy.ref].images|
    && var n := lives[copy.ref].images[copy.version + 1];
       n.status == status && n.attempts == attempts && n.nextAttemptAt == due && n.lastError == error
  }

  /** The lease, the grace and the backoff are when the sweep next lists the delivery; what is over is not listed. */
  lemma ListedAfterWrite(items: map<Ref, Item>, lives: map<Ref, Life>, index: seq<seq<DueIndex.Entry>>, number: Ref -> nat,
                         now: int, e: Event, d: Delivery)
    requires TableOk(items, lives) && DueIndex.IsIndex(index) && Represents(items, index, number)
    requires forall r, q :: r in items && q in items && number(r) == number(q) ==> r == q
    requires Enabled(e, d) && d.ref in items && items[d.ref].delivery == Apply(e, d)
    ensures Listed(index, number, d.ref, now) <==>
            match e
            case MarkQueued(at) => at + REAPER_GRACE_MS <= now
            case Claim(at) => at + CLAIM_LEASE_MS <= now
            case ScheduleRetry(at, _, _) => at <= now
            case Reset(at) => at <= now
            case MarkDelivered(_) => false
            case MarkDead(_, _) => false
  {
    hide TableOk, Listed, Represents;
    ListedExactlyWhenDue(items, lives, index, number, now, d.ref);
  }
}
