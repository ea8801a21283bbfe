/** The delivery pipeline: what sends deliveries, and what sweeps up those left over (services/actions/src/sender.ts and
    the sweep of dispatcher.ts). */
module DeliveryPipeline {
  import opened Wrappers
  import opened Deliveries

  datatype SendResult =
    | Ok(code: Option<nat>)
    | Retry(error: string, code: Option<nat>)
    | Permanent(error: string, code: Option<nat>)

  datatype Outcome = SentOk | Retrying | DeadNow | Skipped | Threw

  /** Some image of the delivery is this write's. */
  predicate Wrote(lives: map<Ref, Life>, copy: Delivery, e: Event) { Enabled(e, copy) && Seen(lives, Apply(e, copy)) }

  /** The attempt's ending, on the record that was claimed: what the send came to, and nothing else. */
  ghost predicate EndedAs(lives: map<Ref, Life>, claimed: Delivery, result: SendResult, now: int, delay: nat, r: Outcome) {
    match r
    case SentOk =>
      && result.Ok? && Wrote(lives, claimed, MarkDelivered(result.code))
      && Became(lives, claimed, Delivered, claimed.attempts, None, None)
    case Retrying =>
      && result.Retry? && claimed.attempts < MAX_ATTEMPTS
      && Wrote(lives, claimed, ScheduleRetry(now + delay * 1000, result.error, result.code))
      && Became(lives, claimed, Failed, claimed.attempts, Some(now + delay * 1000), Some(result.error))
    case DeadNow =>
      && !result.Ok? && (result.Permanent? || claimed.attempts >= MAX_ATTEMPTS)
      && Wrote(lives, claimed, MarkDead(result.error, result.code))
      && Became(lives, claimed, Dead, claimed.attempts, None, Some(result.error))
    case _ => true
  }

  class Sender {
    const store: DeliveryStore
    // whether this build has a sender for the delivery's channel
    const knows: Delivery -> bool
    // what was sent; copies to the dead-letter queue, and messages back to the queue, in order
    ghost var sends: seq<Delivery>
    var copies: seq<Ref>
    var messages: seq<Ref>
    // how many copies and messages a queue did not take
    ghost var lost: nat

    constructor (store: DeliveryStore, knows: Delivery -> bool)
      ensures this.store == store && this.knows == knows && sends == [] && copies == [] && messages == [] && lost == 0
    {
      this.store, this.knows, sends, copies, messages, lost := store, knows, [], [], [], 0;
    }

    /** What the channel's sender makes of a claimed delivery: anything. */
    method Send(d: Delivery) returns (r: SendResult)
      modifies this`sends
      ensures sends == old(sends) + [d]
    {
      sends := sends + [d];
      r := *;
    }

    /** A copy to the dead-letter queue, unless the queue does not take it. */
    method Copy(ref: Ref) returns (ok: bool)
      modifies this`copies, this`lost
      ensures copies == (if ok then old(copies) + [ref] else old(copies)) && lost == old(lost) + if ok then 0 else 1
    {
      ok := *;
      if ok { copies := copies + [ref]; } else { lost := lost + 1; }
    }

    method Message(ref: Ref) returns (ok: bool)
      modifies this`messages, this`lost
      ensures messages == (if ok then old(messages) + [ref] else old(messages)) && lost == old(lost) + if ok then 0 else 1
    {
      ok := *;
      if ok { messages := messages + [ref]; } else { lost := lost + 1; }
    }

    /** Claim, send once, and write down how it ended. Only a delivery with something outstanding is sent, and an ending is
        written only while the claim is the delivery's last write. Nothing is skipped, and nothing throws, but for a delivery
        that is not there or over, a write that did not go through, or a queue that failed. */
    method ProcessDelivery(ref: Ref, now: int, delay: nat)
      returns (r: Outcome, sent: Option<SendResult>, claimed: Option<Delivery>, found: Option<Delivery>)
      requires store.Valid()
      modifies store, this
      ensures store.Valid() && Extends(old(store.lives), store.lives)
      ensures old(store.missed) <= store.missed && old(lost) <= lost
      // what it read
      ensures found.None? ==> ref !in old(store.items)
      ensures found.Some? ==> Seen(store.lives, found.value) && found.value.ref == ref
      ensures found.Some? && ref in old(store.items) ==> old(store.items)[ref].delivery.version <= found.value.version
      // the claim, and the send
      ensures claimed.Some? ==>
                && found.Some? && !Terminal(found.value.status) && claimed.value == Apply(Claim(now), found.value)
                && Became(store.lives, found.value, Delivering, found.value.attempts + 1, Some(now + CLAIM_LEASE_MS),
                          found.value.lastError)
      ensures claimed.None? && found.Some? && !Terminal(found.value.status) ==> store.missed > old(store.missed)
      ensures sent.Some? <==> claimed.Some? && knows(claimed.value)
      ensures sends == old(sends) + if sent.Some? then [claimed.value] else []
      // the ending
      ensures sent.Some? ==> EndedAs(store.lives, claimed.value, sent.value, now, delay, r)
      ensures claimed.Some? && sent.None? ==> r.DeadNow? || r.Threw?
      ensures claimed.Some? && r.DeadNow? ==>
                exists error, code :: Wrote(store.lives, claimed.value, MarkDead(error, code))
      ensures claimed.None? ==> r.Skipped? || r.Threw?
      ensures r.Skipped? && claimed.Some? ==> store.missed > old(store.missed)
      ensures r.Threw? ==> store.missed > old(store.missed) || lost > old(lost)
      // the copies and messages
      ensures r.DeadNow? || (r.Skipped? && found.Some? && found.value.status == Dead) ==> copies == old(copies) + [ref]
      ensures copies == old(copies) || (copies == old(copies) + [ref] && WasDead(store.lives, ref))
      ensures messages == if r.Retrying? then old(messages) + [ref] else old(messages)
    {
      hide Good, TableOk, OnlyAskedFor, WasDead, Seen, Became, Image, EndedAs, Wrote, Extends;
      ExtendsItself(store.lives);
      sent, claimed, r := None, None, Skipped;
      found := store.Get(ref);
      if found.None? { return; }
      var d := found.value;
      // finished already; a dead delivery's copy to the dead-letter queue may not have gone out
      if Terminal(d.status) {
        if d.status == Dead {
          assert WasDead(store.lives, ref) by { DeadIsDead(store.lives, d); }
          var ok := Copy(ref);
          if !ok { r := Threw; }
        }
        return;
      }
      ghost var before := store.lives;
      ghost var e := Claim(now);
      ClaimImage(d, now);
      var claim := store.Save(d.(status := Delivering, attempts := d.attempts + 1,
                                 firstAttemptAt := if d.firstAttemptAt.Some? then d.firstAttemptAt else Some(now),
                                 lastAttemptAt := Some(now), nextAttemptAt := Some(now + CLAIM_LEASE_MS)), d, e);
      ExtendsTransitively(old(store.lives), before, store.lives);
      SeenStays(before, store.lives, d);
      if !claim.Saved? {
        r := if claim.Conflict? then Skipped else Threw;
        return;
      }
      claimed := Some(claim.record);
      ClaimBecame(store.lives, d, now);
      before := store.lives;
      r, sent := Attempt(claimed.value, now, delay);
      ExtendsTransitively(old(store.lives), before, store.lives);
      SeenStays(before, store.lives, d);
      BecameStays(before, store.lives, d, Delivering, d.attempts + 1, Some(now + CLAIM_LEASE_MS), d.lastError);
    }

    /** The attempt a claim was made for. */
    method Attempt(claimed: Delivery, now: int, delay: nat) returns (r: Outcome, sent: Option<SendResult>)
      requires store.Valid() && Seen(store.lives, claimed) && claimed.status == Delivering
      modifies store, this
      ensures store.Valid() && Extends(old(store.lives), store.lives)
      ensures old(store.missed) <= store.missed && old(lost) <= lost
      ensures sent.Some? <==> knows(claimed)
      ensures sends == old(sends) + if sent.Some? then [claimed] else []
      ensures sent.Some? ==> EndedAs(store.lives, claimed, sent.value, now, delay, r)
      ensures sent.None? ==> r.DeadNow? || r.Threw?
      ensures r.DeadNow? ==> exists error, code :: Wrote(store.lives, claimed, MarkDead(error, code))
      ensures r.Skipped? ==> store.missed > old(store.missed)
      ensures r.Threw? ==> store.missed > old(store.missed) || lost > old(lost)
      ensures copies == if r.DeadNow? then old(copies) + [claimed.ref] else old(copies)
      ensures copies != old(copies) ==> WasDead(store.lives, claimed.ref)
      ensures messages == if r.Retrying? then old(messages) + [claimed.ref] else old(messages)
    {
      hide Good, TableOk, OnlyAskedFor, WasDead, Seen, Became, Image, Wrote;
      sent := None;
      if !knows(claimed) {
        var conflict;
        r, conflict := Bury(claimed, "no sender for channel", None);
        return;
      }
      var result := Send(claimed);
      sent := Some(result);
      r := RecordOutcome(claimed, result, now, delay);
    }

    /** The dead-letter queue gets its copy once the delivery is dead. */
    method Bury(d: Delivery, error: string, code: Option<nat>) returns (r: Outcome, conflict: bool)
      requires store.Valid() && Seen(store.lives, d) && Enabled(MarkDead(error, code), d)
      modifies store, this`copies, this`lost
      ensures store.Valid() && Extends(old(store.lives), store.lives)
      ensures r.DeadNow? ==>
                && Wrote(store.lives, d, MarkDead(error, code)) && copies == old(copies) + [d.ref]
                && Became(store.lives, d, Dead, d.attempts, None, Some(error))
      ensures r.Threw? ==> copies == old(copies) && (store.missed > old(store.missed) || lost > old(lost))
      ensures conflict ==> store.missed > old(store.missed)
      ensures copies != old(copies) ==> WasDead(store.lives, d.ref)
      ensures (r.DeadNow? || r.Threw?) && (conflict ==> r.Threw?)
      ensures old(store.missed) <= store.missed && old(lost) <= lost
    {
      hide Good, TableOk, OnlyAskedFor;
      var saved := store.Save(d.(status := Dead, nextAttemptAt := None, lastError := Some(error),
                                 lastStatusCode := CodeOf(code, d.lastStatusCode)), d, MarkDead(error, code));
      if !saved.Saved? { return Threw, saved.Conflict?; }
      IsDead(store.lives, d, error, code);
      var ok := Copy(d.ref);
      return if ok then DeadNow else Threw, false;
    }

    /** Saves what the attempt ended in: a retry unless the failure is permanent or the attempts are used up. When the save
        conflicts, nothing of this attempt is written. */
    method RecordOutcome(claimed: Delivery, result: SendResult, now: int, delay: nat) returns (r: Outcome)
      requires store.Valid() && Seen(store.lives, claimed) && claimed.status == Delivering
      modifies store, this`copies, this`messages, this`lost
      ensures store.Valid() && Extends(old(store.lives), store.lives)
      ensures EndedAs(store.lives, claimed, result, now, delay, r)
      ensures r.Skipped? ==> store.missed > old(store.missed)
      ensures r.Threw? ==> store.missed > old(store.missed) || lost > old(lost)
      ensures copies == if r.DeadNow? then old(copies) + [claimed.ref] else old(copies)
      ensures copies != old(copies) ==> WasDead(store.lives, claimed.ref)
      ensures messages == if r.Retrying? then old(messages) + [claimed.ref] else old(messages)
      ensures old(store.missed) <= store.missed && old(lost) <= lost
    {
      hide Good, TableOk, OnlyAskedFor;
      if result.Ok? {
        var saved := store.Save(claimed.(status := Delivered, nextAttemptAt := None, lastError := None,
                                         lastStatusCode := CodeOf(result.code, claimed.lastStatusCode)),
                                claimed, MarkDelivered(result.code));
        return if saved.Saved? then SentOk else if saved.Conflict? then Skipped else Threw;
      }
      var exhausted := claimed.attempts >= MAX_ATTEMPTS;
      if result.Permanent? || exhausted {
        var conflict;
        r, conflict := Bury(claimed, result.error, result.code);
        if conflict { r := Skipped; }
        return;
      }
      var at := now + delay * 1000;
      var saved := store.Save(claimed.(status := Failed, nextAttemptAt := Some(at), lastError := Some(result.error),
                                       lastStatusCode := CodeOf(result.code, claimed.lastStatusCode)),
                              claimed, ScheduleRetry(at, result.error, result.code));
      if !saved.Saved? { return if saved.Conflict? then Skipped else Threw; }
      var ok := Message(claimed.ref);
      return if ok then Retrying else Threw;
    }
  }

  lemma ClaimImage(d: Delivery, now: int)
    ensures Image(Claim(now), d)
         == d.(status := Delivering, attempts := d.attempts + 1,
               firstAttemptAt := if d.firstAttemptAt.Some? then d.firstAttemptAt else Some(now),
               lastAttemptAt := Some(now), nextAttemptAt := Some(now + CLAIM_LEASE_MS))
  {
  }

  lemma ClaimBecame(lives: map<Ref, Life>, d: Delivery, now: int)
    requires Seen(lives, Apply(Claim(now), d))
    ensures Became(lives, d, Delivering, d.attempts + 1, Some(now + CLAIM_LEASE_MS), d.lastError)
  {
  }

  lemma BecameStays(a: map<Ref, Life>, b: map<Ref, Life>, d: Delivery, status: Status, attempts: nat, due: Option<int>,
                    error: Option<string>)
    requires Extends(a, b) && Became(a, d, status, attempts, due, error)
    ensures Became(b, d, status, attempts, due, error)
  {
    assert a[d.ref].images <= b[d.ref].images;
  }

  /** Some image of the delivery is dead. */
  ghost predicate WasDead(lives: map<Ref, Life>, ref: Ref) { exists d :: Seen(lives, d) && d.ref == ref && d.status == Dead }

  lemma DeadIsDead(lives: map<Ref, Life>, d: Delivery)
    requires Seen(lives, d) && d.status == Dead
    ensures WasDead(lives, d.ref)
  {
  }

  lemma IsDead(lives: map<Ref, Life>, d: Delivery, error: string, code: Option<nat>)
    requires Wrote(lives, d, MarkDead(error, code))
    ensures WasDead(lives, d.ref)
  {
    hide Seen;
    ImageKeepsKey(MarkDead(error, code), d);
    assert Apply(MarkDead(error, code), d).status == Dead;
  }

  // The sweep

  const NO_SENDER_FINISHED: string := "every attempt was used and no sender finished it"

  /** What a sweep does with a delivery, in order. */
  datatype Deed = Copied(ref: Ref) | Buried(ref: Ref) | MarkedQueued(ref: Ref) | Messaged(ref: Ref)

  /** One delivery's part of a sweep: out of attempts, its dead-letter copy and then its death; with attempts left, its new
      due time and then its message. Either stops where a call fails, and what was written is the write that goes with it. */
  ghost predicate Swept(lives: map<Ref, Life>, d: Delivery, deeds: seq<Deed>, now: int) {
    if d.attempts >= MAX_ATTEMPTS then
      && deeds <= Ending(d)
      && (Buried(d.ref) in deeds ==> Became(lives, d, Dead, d.attempts, None, Some(NO_SENDER_FINISHED)))
    else
      && deeds <= Requeuing(d)
      && (MarkedQueued(d.ref) in deeds ==> Became(lives, d, Queued, d.attempts, Some(now + REAPER_GRACE_MS), d.lastError))
  }

  lemma SweptStays(a: map<Ref, Life>, b: map<Ref, Life>, d: Delivery, deeds: seq<Deed>, now: int)
    requires Extends(a, b) && Swept(a, d, deeds, now)
    ensures Swept(b, d, deeds, now)
  {
    hide Extends, Became;
    if d.attempts >= MAX_ATTEMPTS {
      if Buried(d.ref) in deeds { BecameStays(a, b, d, Dead, d.attempts, None, Some(NO_SENDER_FINISHED)); }
    } else if MarkedQueued(d.ref) in deeds {
      BecameStays(a, b, d, Queued, d.attempts, Some(now + REAPER_GRACE_MS), d.lastError);
    }
  }

  function AllDeeds(parts: seq<seq<Deed>>): seq<Deed> {
    if parts == [] then [] else AllDeeds(parts[..|parts| - 1]) + parts[|parts| - 1]
  }

  lemma DeedsNext(parts: seq<seq<Deed>>, part: seq<Deed>)
    ensures AllDeeds(parts + [part]) == AllDeeds(parts) + part
  {
    assert (parts + [part])[..|parts|] == parts;
  }

  class Reaper {
    const store: DeliveryStore
    var deeds: seq<Deed>
    // how many copies and messages a queue did not take
    ghost var lost: nat

    constructor (store: DeliveryStore)
      ensures this.store == store && deeds == [] && lost == 0
    {
      this.store, deeds, lost := store, [], 0;
    }

    /** One page of due deliveries, as the index gave them: requeued while attempts are left, and otherwise dead, the copy
        first. What it did is one part for each delivery of the page, in the page's order, and each number it returns is
        that of the parts that came to their end; no more are left over than writes and queues failed. */
    method SweepPage(due: seq<Delivery>, now: int) returns (requeued: nat, dead: nat, ghost parts: seq<seq<Deed>>)
      requires store.Valid() && forall i :: 0 <= i < |due| ==> Seen(store.lives, due[i]) && !Terminal(due[i].status)
      modifies store, this
      ensures store.Valid() && Extends(old(store.lives), store.lives)
      ensures |parts| == |due| && deeds == old(deeds) + AllDeeds(parts)
      ensures forall i :: 0 <= i < |due| ==> Swept(store.lives, due[i], parts[i], now)
      ensures requeued == |Through(due, parts, Requeuing)| && dead == |Through(due, parts, Ending)|
      ensures |due| - requeued - dead <= store.missed + lost - old(store.missed + lost)
    {
      hide Good, TableOk, Seen, Swept, AllDeeds, OnlyAskedFor, Through, Extends;
      ExtendsItself(store.lives);
      requeued, dead, parts := 0, 0, [];
      NoDeeds(due);
      for i := 0 to |due|
        invariant store.Valid() && Extends(old(store.lives), store.lives)
        invariant |parts| == i && deeds == old(deeds) + AllDeeds(parts)
        invariant requeued == |Through(due, parts, Requeuing)| && dead == |Through(due, parts, Ending)|
        invariant i - requeued - dead <= store.missed + lost - old(store.missed + lost)
        invariant forall j :: 0 <= j < i ==> Swept(store.lives, due[j], parts[j], now)
        invariant forall j :: 0 <= j < |due| ==> Seen(store.lives, due[j])
      {
        ghost var before, was := store.lives, deeds;
        var d := due[i];
        var done: bool;
        ghost var part;
        if d.attempts >= MAX_ATTEMPTS {
          done, part := Finish(d, now);
          if done { dead := dead + 1; }
        } else {
          done, part := Requeue(d, now);
          if done { requeued := requeued + 1; }
        }
        ExtendsTransitively(old(store.lives), before, store.lives);
        forall j | 0 <= j < |due| ensures Seen(store.lives, due[j]) { SeenStays(before, store.lives, due[j]); }
        forall j | 0 <= j < i ensures Swept(store.lives, due[j], parts[j], now) {
          SweptStays(before, store.lives, due[j], parts[j], now);
        }
        DeedsNext(parts, part);
        ThroughNext(due, parts, part, Requeuing);
        ThroughNext(due, parts, part, Ending);
        assert deeds == old(deeds) + (AllDeeds(parts) + part);
        parts := parts + [part];
      }
    }

    /** The copy before the mark: marked first, a copy that failed would never be tried again. */
    method Finish(d: Delivery, now: int) returns (done: bool, ghost part: seq<Deed>)
      requires store.Valid() && Seen(store.lives, d) && !Terminal(d.status) && d.attempts >= MAX_ATTEMPTS
      modifies store, this`deeds, this`lost
      ensures store.Valid() && Extends(old(store.lives), store.lives)
      ensures deeds == old(deeds) + part && Swept(store.lives, d, part, now)
      ensures part <= Ending(d) && (done <==> part == Ending(d))
      ensures store.missed + lost >= old(store.missed + lost) + if done then 0 else 1
    {
      hide Good, TableOk, OnlyAskedFor;
      ExtendsItself(store.lives);
      part := [];
      var copied: bool := *;
      if !copied {
        lost := lost + 1;
        return false, part;
      }
      deeds, part := deeds + [Copied(d.ref)], [Copied(d.ref)];
      var saved := store.Save(d.(status := Dead, nextAttemptAt := None, lastError := Some(NO_SENDER_FINISHED)), d,
                              MarkDead(NO_SENDER_FINISHED, None));
      if !saved.Saved? { return false, part; }
      deeds, part := deeds + [Buried(d.ref)], part + [Buried(d.ref)];
      return true, part;
    }

    method Requeue(d: Delivery, now: int) returns (done: bool, ghost part: seq<Deed>)
      requires store.Valid() && Seen(store.lives, d) && !Terminal(d.status) && d.attempts < MAX_ATTEMPTS
      modifies store, this`deeds, this`lost
      ensures store.Valid() && Extends(old(store.lives), store.lives)
      ensures deeds == old(deeds) + part && Swept(store.lives, d, part, now)
      ensures part <= Requeuing(d) && (done <==> part == Requeuing(d))
      ensures store.missed + lost >= old(store.missed + lost) + if done then 0 else 1
    {
      hide Good, TableOk, OnlyAskedFor;
      part := [];
      var saved := store.Save(d.(status := Queued, nextAttemptAt := Some(now + REAPER_GRACE_MS)), d, MarkQueued(now));
      if !saved.Saved? { return false, part; }
      deeds, part := deeds + [MarkedQueued(d.ref)], [MarkedQueued(d.ref)];
      // a message that does not go out leaves the delivery due again after the grace
      var sent: bool := *;
      if !sent {
        lost := lost + 1;
        return false, part;
      }
      deeds, part := deeds + [Messaged(d.ref)], part + [Messaged(d.ref)];
      return true, part;
    }
  }

  lemma NoDeeds(due: seq<Delivery>)
    ensures AllDeeds([]) == [] && forall full :: Through(due, [], full) == {}
  {
  }

  function Requeuing(d: Delivery): seq<Deed> { [MarkedQueued(d.ref), Messaged(d.ref)] }

  function Ending(d: Delivery): seq<Deed> { [Copied(d.ref), Buried(d.ref)] }

  /** The deliveries of a page whose part is the whole of this. */
  ghost function Through(due: seq<Delivery>, parts: seq<seq<Deed>>, full: Delivery -> seq<Deed>): set<nat> {
    set i: nat | i < |due| && i < |parts| && parts[i] == full(due[i])
  }

  lemma ThroughNext(due: seq<Delivery>, parts: seq<seq<Deed>>, part: seq<Deed>, full: Delivery -> seq<Deed>)
    requires |parts| < |due|
    ensures |Through(due, parts + [part], full)| == |Through(due, parts, full)| + if part == full(due[|parts|]) then 1 else 0
  {
    var i, more := |parts|, parts + [part];
    assert forall j :: 0 <= j < i ==> more[j] == parts[j];
    assert Through(due, more, full) == Through(due, parts, full) + if part == full(due[i]) then {i} else {};
  }
}
