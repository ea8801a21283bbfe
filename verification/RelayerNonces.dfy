/** What becomes of every nonce the relayer hands out (services/relayer/src/store.ts:240-345, refusal.ts:47-96,
    signer.ts:145-168): the part of the protocol that concerns nonces, on a table of where each transaction stands. */
module RelayerNonces {
  import opened Wrappers
  import opened RelayerRecords

  datatype SendOutcome =
    | Accepted
    | AlreadyKnown
    | NonceTooLow(message: string)
    | Underpriced(message: string)
    | InsufficientFunds(message: string)
    | Rejected(message: string)
    | Unknown(message: string)

  datatype Slot = Slot(pair: Pair, nonce: nat)

  datatype Send = Send(txId: TxId, slot: Slot, hash: Hash, outcome: SendOutcome)

  /** What became of a nonce that was handed out: a record holds it, it was given up after a send at it was answered
      nonce too low, its record failed on a report that the chain had used it, or its filler was refused. */
  datatype Fate = Held(id: TxId) | GivenUp(id: TxId) | ReportedUsed(id: TxId) | FillerRefused(id: TxId)

  datatype Phase = Live | Lost(why: TxError)

  datatype Standing = Standing(
    kind: Kind,
    pair: Pair,
    nonce: Option<nat>,
    phase: Phase,
    filler: Option<TxId>,
    fills: Option<TxId>)

  datatype Table = Table(
    all: map<TxId, Standing>,
    counter: map<Pair, nat>,
    sends: seq<Send>,
    fate: map<Slot, Fate>)

  function NextNonceOf(counter: map<Pair, nat>, pair: Pair): nat { if pair in counter then counter[pair] else 0 }

  predicate At(x: Standing, slot: Slot) { x.nonce == Some(slot.nonce) && x.pair == slot.pair }

  function SlotOf(x: Standing): (slot: Slot)
    requires x.nonce.Some?
    ensures At(x, slot)
  {
    Slot(x.pair, x.nonce.value)
  }

  /** How many sends were ever made at a nonce. */
  function CountAt(sends: seq<Send>, slot: Slot): nat {
    if sends == [] then 0
    else CountAt(sends[..|sends| - 1], slot) + if sends[|sends| - 1].slot == slot then 1 else 0
  }

  // The invariant

  predicate FateIs(t: Table, slot: Slot, f: Fate) { slot in t.fate && t.fate[slot] == f }

  /** This filler took the nonce of that transaction. */
  predicate HandedOver(t: Table, id: TxId, filler: TxId) {
    && id in t.all && filler in t.all
    && t.all[filler].kind == Filler && t.all[filler].fills == Some(id)
    && t.all[filler].pair == t.all[id].pair && t.all[filler].nonce == t.all[id].nonce
  }

  predicate StandingOk(t: Table, id: TxId)
    requires id in t.all
  {
    var x := t.all[id];
    && (x.nonce.Some? ==>
          match x.phase
          case Live => FateIs(t, SlotOf(x), Held(id))
          case Lost(NonceUsed) => FateIs(t, SlotOf(x), ReportedUsed(id))
          case Lost(Refused(_)) =>
            if x.kind == Filler then FateIs(t, SlotOf(x), FillerRefused(id))
            else x.filler.Some? && HandedOver(t, id, x.filler.value)
          case Lost(DependencyFailed(_)) => false)
    && (x.filler.Some? ==> x.kind == Relay && x.phase.Lost? && x.phase.why.Refused? && x.nonce.Some?)
    && (x.kind == Filler ==>
          && x.nonce.Some? && x.fills.Some? && x.fills.value in t.all && t.all[x.fills.value].filler == Some(id))
  }

  /** Exactly one send was ever made at this nonce, this transaction's, and it was answered nonce too low. */
  predicate AnsweredTooLow(sends: seq<Send>, slot: Slot, id: TxId) {
    && CountAt(sends, slot) == 1
    && exists i :: 0 <= i < |sends| && sends[i].slot == slot && sends[i].txId == id && sends[i].outcome.NonceTooLow?
  }

  predicate FateOk(t: Table, slot: Slot)
    requires slot in t.fate
  {
    && slot.nonce < NextNonceOf(t.counter, slot.pair)
    && match t.fate[slot]
       case Held(id) => id in t.all && At(t.all[id], slot) && t.all[id].phase == Live
       case ReportedUsed(id) => id in t.all && At(t.all[id], slot) && t.all[id].phase == Lost(NonceUsed)
       case FillerRefused(id) =>
         && id in t.all && At(t.all[id], slot) && t.all[id].kind == Filler
         && t.all[id].phase.Lost? && t.all[id].phase.why.Refused?
       case GivenUp(id) => id in t.all && t.all[id].kind == Relay && AnsweredTooLow(t.sends, slot, id)
  }

  ghost predicate StandingsOk(t: Table) { forall id :: id in t.all ==> StandingOk(t, id) }

  ghost predicate FatesOk(t: Table) { forall slot :: slot in t.fate ==> FateOk(t, slot) }

  /** Nothing was ever sent at a nonce that was not handed out. */
  ghost predicate SendsOk(t: Table) { forall i :: 0 <= i < |t.sends| ==> t.sends[i].slot in t.fate }

  ghost predicate Ok(t: Table) { StandingsOk(t) && FatesOk(t) && SendsOk(t) }

  // The moves

  datatype Move =
    | Quiet
    | Join(id: TxId, pair: Pair)
    | RaiseTo(pair: Pair, atLeast: nat)
    | Assign(id: TxId)
    | GiveUp(id: TxId)
    | FindUsed(id: TxId)
    | FailDependent(id: TxId, reason: string)
    | RefuseFiller(id: TxId, reason: string)
    | HandOver(id: TxId, reason: string, filler: TxId)
    | SendAt(send: Send)

  predicate Keeps(t: Table, id: TxId) { id in t.all && t.all[id].phase.Live? && t.all[id].nonce.Some? }

  predicate CanMove(t: Table, m: Move) {
    match m
    case Quiet => true
    case Join(id, _) => id !in t.all
    case RaiseTo(_, _) => true
    case Assign(id) => id in t.all && t.all[id].phase.Live? && t.all[id].nonce.None?
    case GiveUp(id) => Keeps(t, id) && t.all[id].kind == Relay && AnsweredTooLow(t.sends, SlotOf(t.all[id]), id)
    case FindUsed(id) => Keeps(t, id)
    case FailDependent(id, _) => id in t.all && t.all[id].phase.Live? && t.all[id].nonce.None?
    case RefuseFiller(id, _) => Keeps(t, id) && t.all[id].kind == Filler
    case HandOver(id, _, f) => Keeps(t, id) && t.all[id].kind == Relay && f !in t.all
    case SendAt(send) => send.slot in t.fate && !t.fate[send.slot].GivenUp?
  }

  function After(t: Table, m: Move): Table
    requires CanMove(t, m)
  {
    match m
    case Quiet => t
    case Join(id, pair) => t.(all := t.all[id := Standing(Relay, pair, None, Live, None, None)])
    case RaiseTo(pair, atLeast) =>
      if pair !in t.counter || t.counter[pair] < atLeast then t.(counter := t.counter[pair := atLeast]) else t
    case Assign(id) =>
      var x := t.all[id];
      var n := NextNonceOf(t.counter, x.pair);
      t.(all := t.all[id := x.(nonce := Some(n))], counter := t.counter[x.pair := n + 1],
         fate := t.fate[Slot(x.pair, n) := Held(id)])
    case GiveUp(id) =>
      t.(all := t.all[id := t.all[id].(nonce := None)], fate := t.fate[SlotOf(t.all[id]) := GivenUp(id)])
    case FindUsed(id) =>
      t.(all := t.all[id := t.all[id].(phase := Lost(NonceUsed))],
         fate := t.fate[SlotOf(t.all[id]) := ReportedUsed(id)])
    case FailDependent(id, reason) => t.(all := t.all[id := t.all[id].(phase := Lost(DependencyFailed(reason)))])
    case RefuseFiller(id, reason) =>
      t.(all := t.all[id := t.all[id].(phase := Lost(Refused(reason)))],
         fate := t.fate[SlotOf(t.all[id]) := FillerRefused(id)])
    case HandOver(id, reason, f) =>
      var x := t.all[id];
      t.(all := t.all[id := x.(phase := Lost(Refused(reason)), filler := Some(f))]
                     [f := Standing(Filler, x.pair, x.nonce, Live, None, Some(id))],
         fate := t.fate[SlotOf(x) := Held(f)])
    case SendAt(send) => t.(sends := t.sends + [send])
  }

  // Every move keeps the invariant

  lemma OneMoreSend(sends: seq<Send>, send: Send, slot: Slot)
    ensures CountAt(sends + [send], slot) == CountAt(sends, slot) + if send.slot == slot then 1 else 0
  {
    assert (sends + [send])[..|sends|] == sends;
  }

  lemma {:induction false} NoneSent(sends: seq<Send>, slot: Slot)
    requires forall i :: 0 <= i < |sends| ==> sends[i].slot != slot
    ensures CountAt(sends, slot) == 0
  {
    if sends != [] { NoneSent(sends[..|sends| - 1], slot); }
  }

  /** A record with a nonce holds one that was handed out, also after it handed it on. */
  lemma NonceWasHandedOut(t: Table, id: TxId)
    requires Ok(t) && id in t.all && t.all[id].nonce.Some?
    ensures SlotOf(t.all[id]) in t.fate && !t.fate[SlotOf(t.all[id])].GivenUp?
  {
    assert StandingOk(t, id);
    var x := t.all[id];
    if x.phase.Lost? && x.phase.why.Refused? && x.kind == Relay {
      assert StandingOk(t, x.filler.value);
    }
  }

  /** Whose nonce it is: a live record at the slot is the only one, and a record at the slot that is not live is its
      owner's or handed it to the owner. */
  lemma LiveIsAlone(t: Table, id: TxId, other: TxId)
    requires Ok(t) && Keeps(t, id) && other in t.all && other != id && At(t.all[other], SlotOf(t.all[id]))
    ensures t.all[other].kind == Relay && t.all[other].filler == Some(id) && t.all[id].fills == Some(other)
    ensures t.all[id].kind == Filler && t.all[other].phase.Lost?
  {
    assert StandingOk(t, id) && StandingOk(t, other);
    assert SlotOf(t.all[other]) == SlotOf(t.all[id]);
    var x := t.all[other];
    assert x.phase.Lost? && x.phase.why.Refused? && x.kind == Relay;
    assert StandingOk(t, x.filler.value);
  }

  lemma AssignKeeps(t: Table, id: TxId)
    requires Ok(t) && CanMove(t, Assign(id))
    ensures Ok(After(t, Assign(id)))
  {
    var u := After(t, Assign(id));
    var given := SlotOf(u.all[id]);
    assert StandingOk(t, id);
    forall o | o in u.all ensures StandingOk(u, o) {
      assert StandingOk(t, o);
      if o != id && t.all[o].nonce.Some? {
        NonceWasHandedOut(t, o);
        assert FateOk(t, SlotOf(t.all[o]));
      }
    }
    forall slot | slot in u.fate ensures FateOk(u, slot) {
      if slot != given { assert FateOk(t, slot); }
    }
  }

  lemma GiveUpKeeps(t: Table, id: TxId)
    requires Ok(t) && CanMove(t, GiveUp(id))
    ensures Ok(After(t, GiveUp(id)))
  {
    var u := After(t, GiveUp(id));
    var gone := SlotOf(t.all[id]);
    assert StandingOk(t, id);
    forall o | o in u.all ensures StandingOk(u, o) {
      assert StandingOk(t, o);
      if o != id && At(t.all[o], gone) { LiveIsAlone(t, id, o); }
    }
    forall slot | slot in u.fate ensures FateOk(u, slot) {
      if slot != gone { assert FateOk(t, slot); } else { assert FateOk(t, gone); }
    }
  }

  lemma LossKeeps(t: Table, id: TxId, m: Move)
    requires Ok(t) && CanMove(t, m)
    requires m == FindUsed(id) || (m.RefuseFiller? && m.id == id)
    ensures Ok(After(t, m))
  {
    var u := After(t, m);
    var gone := SlotOf(t.all[id]);
    assert StandingOk(t, id);
    forall o | o in u.all ensures StandingOk(u, o) {
      assert StandingOk(t, o);
      if o != id && At(t.all[o], gone) { LiveIsAlone(t, id, o); }
    }
    forall slot | slot in u.fate ensures FateOk(u, slot) {
      assert FateOk(t, slot);
    }
  }

  lemma FailDependentKeeps(t: Table, id: TxId, reason: string)
    requires Ok(t) && CanMove(t, FailDependent(id, reason))
    ensures Ok(After(t, FailDependent(id, reason)))
  {
    var u := After(t, FailDependent(id, reason));
    assert StandingOk(t, id);
    forall o | o in u.all ensures StandingOk(u, o) {
      assert StandingOk(t, o);
    }
    forall slot | slot in u.fate ensures FateOk(u, slot) {
      assert FateOk(t, slot);
    }
  }

  lemma HandOverKeeps(t: Table, id: TxId, reason: string, f: TxId)
    requires Ok(t) && CanMove(t, HandOver(id, reason, f))
    ensures Ok(After(t, HandOver(id, reason, f)))
  {
    var u := After(t, HandOver(id, reason, f));
    var slot0 := SlotOf(t.all[id]);
    assert StandingOk(t, id);
    forall o | o in u.all ensures StandingOk(u, o) {
      if o != f {
        assert StandingOk(t, o);
        if o != id && At(t.all[o], slot0) { LiveIsAlone(t, id, o); }
      }
    }
    forall slot | slot in u.fate ensures FateOk(u, slot) {
      assert FateOk(t, slot);
    }
  }

  lemma SendKeeps(t: Table, send: Send)
    requires Ok(t) && CanMove(t, SendAt(send))
    ensures Ok(After(t, SendAt(send)))
  {
    var u := After(t, SendAt(send));
    forall o | o in u.all ensures StandingOk(u, o) {
      assert StandingOk(t, o);
    }
    forall slot | slot in u.fate ensures FateOk(u, slot) {
      assert FateOk(t, slot);
      if t.fate[slot].GivenUp? {
        OneMoreSend(t.sends, send, slot);
        var i :| 0 <= i < |t.sends| && t.sends[i].slot == slot && t.sends[i].txId == t.fate[slot].id
                 && t.sends[i].outcome.NonceTooLow?;
        assert u.sends[i] == t.sends[i];
      }
    }
  }

  lemma JoinOrRaiseKeeps(t: Table, m: Move)
    requires Ok(t) && CanMove(t, m) && (m.Join? || m.RaiseTo?)
    ensures Ok(After(t, m))
  {
    var u := After(t, m);
    forall o | o in u.all ensures StandingOk(u, o) {
      if o in t.all { assert StandingOk(t, o); }
    }
    forall slot | slot in u.fate ensures FateOk(u, slot) {
      assert FateOk(t, slot);
    }
  }

  lemma MoveKeeps(t: Table, m: Move)
    requires Ok(t) && CanMove(t, m)
    ensures Ok(After(t, m))
  {
    hide Ok;
    match m {
      case Quiet =>
      case Join(_, _) => JoinOrRaiseKeeps(t, m);
      case RaiseTo(_, _) => JoinOrRaiseKeeps(t, m);
      case Assign(id) => AssignKeeps(t, id);
      case GiveUp(id) => GiveUpKeeps(t, id);
      case FindUsed(id) => LossKeeps(t, id, m);
      case FailDependent(id, reason) => FailDependentKeeps(t, id, reason);
      case RefuseFiller(id, _) => LossKeeps(t, id, m);
      case HandOver(id, reason, f) => HandOverKeeps(t, id, reason, f);
      case SendAt(send) => SendKeeps(t, send);
    }
  }

  // What the invariant says

  /** A nonce that was handed out and is held is held by exactly one live record, and a live record's nonce was handed
      out to it. */
  lemma HeldByExactlyOne(t: Table, slot: Slot, id: TxId)
    requires Ok(t)
    ensures slot in t.fate && t.fate[slot] == Held(id) <==> Keeps(t, id) && At(t.all[id], slot)
    ensures Keeps(t, id) && At(t.all[id], slot) ==>
              forall other :: Keeps(t, other) && At(t.all[other], slot) ==> other == id
  {
    if slot in t.fate { assert FateOk(t, slot); }
    forall o | Keeps(t, o) && At(t.all[o], slot) ensures slot in t.fate && t.fate[slot] == Held(o) {
      assert StandingOk(t, o);
      assert SlotOf(t.all[o]) == slot;
    }
  }

  /** The nonce a counter gives next was never handed out and is above every nonce that was. */
  lemma NextIsNew(t: Table, pair: Pair)
    requires Ok(t)
    ensures forall slot :: slot in t.fate && slot.pair == pair ==> slot.nonce < NextNonceOf(t.counter, pair)
    ensures Slot(pair, NextNonceOf(t.counter, pair)) !in t.fate
    ensures CountAt(t.sends, Slot(pair, NextNonceOf(t.counter, pair))) == 0
  {
    forall slot | slot in t.fate ensures slot.nonce < NextNonceOf(t.counter, slot.pair) {
      assert FateOk(t, slot);
    }
    NoneSent(t.sends, Slot(pair, NextNonceOf(t.counter, pair)));
  }

  // Whole runs

  predicate Empty(t: Table) { t.all == map[] && t.sends == [] && t.fate == map[] }

  ghost predicate IsHistory(ts: seq<Table>, ms: seq<Move>) {
    && |ts| == |ms| + 1 && Empty(ts[0])
    && forall i :: 0 <= i < |ms| ==> CanMove(ts[i], ms[i]) && ts[i + 1] == After(ts[i], ms[i])
  }

  lemma {:induction false} EveryTableIsOk(ts: seq<Table>, ms: seq<Move>, i: nat)
    requires IsHistory(ts, ms) && i < |ts|
    ensures Ok(ts[i])
    decreases i
  {
    hide After, CanMove;
    if i > 0 {
      EveryTableIsOk(ts, ms, i - 1);
      assert CanMove(ts[i - 1], ms[i - 1]) && ts[i] == After(ts[i - 1], ms[i - 1]);
      MoveKeeps(ts[i - 1], ms[i - 1]);
    }
  }

  /** What can become of a nonce later. Only a held nonce changes hands, and only a relay transaction's: to its filler,
      or to nobody. */
  predicate CanBecome(t: Table, was: Fate, u: Table, now: Fate) {
    || now == was
    || (was.Held? && was.id in t.all && match now
        case Held(f) => t.all[was.id].kind == Relay && f in u.all && u.all[f].kind == Filler && u.all[f].fills == Some(was.id)
        case GivenUp(id) => id == was.id && t.all[id].kind == Relay
        case ReportedUsed(id) => id == was.id
        case FillerRefused(id) => id == was.id && t.all[id].kind == Filler)
  }

  /** A record stays what it is, a filler keeps its nonce, and a lost record stays lost. */
  predicate StaysItself(x: Standing, y: Standing) {
    && y.kind == x.kind && y.pair == x.pair && y.fills == x.fills
    && (x.kind == Filler ==> y.nonce == x.nonce) && (x.phase.Lost? ==> y == x)
  }

  lemma MoveEvolves(t: Table, m: Move)
    requires Ok(t) && CanMove(t, m)
    ensures var u := After(t, m);
            && (forall pair :: NextNonceOf(t.counter, pair) <= NextNonceOf(u.counter, pair))
            && t.sends <= u.sends
            && (forall slot :: slot in t.fate ==> slot in u.fate && CanBecome(t, t.fate[slot], u, u.fate[slot]))
            && (forall id :: id in t.all ==> id in u.all && StaysItself(t.all[id], u.all[id]))
  {
    var u := After(t, m);
    forall slot | slot in t.fate ensures slot in u.fate && CanBecome(t, t.fate[slot], u, u.fate[slot]) {
      assert FateOk(t, slot);
    }
    forall id | id in t.all ensures id in u.all && StaysItself(t.all[id], u.all[id]) {
      assert StandingOk(t, id);
    }
  }

  /** Over any run, the counters never go back and no handed-out nonce is lost sight of. A nonce given up stays given up:
      the one send answered nonce too low is the only one ever made at it. */
  lemma {:induction false} GivenUpForGood(ts: seq<Table>, ms: seq<Move>, i: nat, j: nat, slot: Slot)
    requires IsHistory(ts, ms) && i <= j < |ts| && slot in ts[i].fate
    ensures slot in ts[j].fate
    ensures !ts[i].fate[slot].Held? ==> ts[j].fate[slot] == ts[i].fate[slot]
    ensures ts[i].fate[slot].GivenUp? ==> AnsweredTooLow(ts[j].sends, slot, ts[i].fate[slot].id)
    ensures forall pair :: NextNonceOf(ts[i].counter, pair) <= NextNonceOf(ts[j].counter, pair)
    decreases j - i
  {
    hide After, CanMove;
    EveryTableIsOk(ts, ms, j);
    if i < j {
      GivenUpForGood(ts, ms, i, j - 1, slot);
      EveryTableIsOk(ts, ms, j - 1);
      assert CanMove(ts[j - 1], ms[j - 1]) && ts[j] == After(ts[j - 1], ms[j - 1]);
      MoveEvolves(ts[j - 1], ms[j - 1]);
    }
    assert FateOk(ts[j], slot);
  }

  /** A filler has its nonce for good: it is live at it, or the chain used it, or a node refused the filler outright. The
      transaction it fills lost the same nonce to it. */
  lemma {:induction false} FillerKeepsItsNonce(ts: seq<Table>, ms: seq<Move>, i: nat, j: nat, f: TxId)
    requires IsHistory(ts, ms) && i <= j < |ts| && f in ts[i].all && ts[i].all[f].kind == Filler
    ensures f in ts[j].all && StaysItself(ts[i].all[f], ts[j].all[f]) && ts[j].all[f].nonce.Some?
    ensures var slot := SlotOf(ts[j].all[f]);
            slot in ts[j].fate && (ts[j].fate[slot] == Held(f) || ts[j].fate[slot] == ReportedUsed(f)
                                   || ts[j].fate[slot] == FillerRefused(f))
    ensures ts[j].all[f].fills.Some? && ts[j].all[f].fills.value in ts[j].all
    ensures var filled := ts[j].all[ts[j].all[f].fills.value];
            filled.phase.Lost? && filled.nonce == ts[j].all[f].nonce && filled.pair == ts[j].all[f].pair
    decreases j - i
  {
    hide After, CanMove;
    EveryTableIsOk(ts, ms, j);
    if i < j {
      FillerKeepsItsNonce(ts, ms, i, j - 1, f);
      EveryTableIsOk(ts, ms, j - 1);
      assert CanMove(ts[j - 1], ms[j - 1]) && ts[j] == After(ts[j - 1], ms[j - 1]);
      MoveEvolves(ts[j - 1], ms[j - 1]);
    }
    FillerStands(ts[j], f);
  }

  lemma FillerStands(t: Table, f: TxId)
    requires Ok(t) && f in t.all && t.all[f].kind == Filler
    ensures t.all[f].nonce.Some?
    ensures var slot := SlotOf(t.all[f]);
            slot in t.fate && (t.fate[slot] == Held(f) || t.fate[slot] == ReportedUsed(f) || t.fate[slot] == FillerRefused(f))
    ensures t.all[f].fills.Some? && t.all[f].fills.value in t.all
    ensures var filled := t.all[t.all[f].fills.value];
            filled.phase.Lost? && filled.nonce == t.all[f].nonce && filled.pair == t.all[f].pair
  {
    assert StandingOk(t, f);
    assert StandingOk(t, t.all[f].fills.value);
  }
}
