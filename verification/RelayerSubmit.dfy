/** Submissions (services/relayer/src/submit.ts): a request is stored once for its idempotency key, and only within the
    signer's daily spend cap. */
module RelayerSubmit {
  import opened Wrappers
  import opened ReplacementFees
  import opened RelayerRecords
  import opened RelayerEvents
  import opened RelayerInvariants
  import opened RelayerRuns
  import opened RelayerNonces
  import opened RelayerProtocol
  import opened RelayerSafety
  import opened RelayerBehaviours
  import opened DailySpend
  import opened RelayerStore
  import opened RelayerReplacement

  const ESTIMATE_HEADROOM_PERCENT: nat := 120

  datatype Request = Request(pair: Pair, value: nat, gasLimit: Option<nat>, dependsOn: Option<TxId>, hash: nat)

  datatype SubmitResult =
    | Accepted(txId: TxId)
    | Replayed(txId: TxId)
    | IdempotencyConflict
    | SignerNotAllowed
    | NotServed
    | PolicyViolation
    | EstimateFailed
    | InvalidRequest
    | DependencyNotFound
    | DependencyFailed
    | SpendCapExceeded
    | SubmitFailed

  /** A new transaction, as it is stored. */
  function NewTx(request: Request, id: TxId, gasLimit: nat, now: int): (tx: TxRecord)
    ensures Initial(tx) && tx.kind == Relay && tx.txId == id && tx.dependsOn == request.dependsOn
  {
    TxRecord(id, Relay, request.pair, request.value, gasLimit, Queued, None, [], [], [], false, false, None, false, false,
             None, None, None, None, None, None, request.dependsOn, now, 1, 0, [HistoryEntry(Queued, now)], now, 1)
  }

  /** What the caller's key may sign with, whether the signer is known and relays on the chain, whether the policy takes the
      address, the function and the recipient, and the node's estimate, if it gives one. */
  datatype Circumstances = Circumstances(signers: set<nat>, served: bool, allowed: bool, estimate: Option<nat>)

  /** The gas limit to reserve: the request's own, or the estimate and a fifth. */
  function GasOf(request: Request, estimate: Option<nat>): (gas: Option<nat>)
    ensures request.gasLimit.Some? ==> gas == request.gasLimit
    ensures request.gasLimit.None? && estimate.Some? ==>
              gas.Some? && estimate.value <= gas.value && 5 * gas.value <= 6 * estimate.value < 5 * gas.value + 5
  {
    if request.gasLimit.Some? then request.gasLimit
    else if estimate.Some? then Some(estimate.value * ESTIMATE_HEADROOM_PERCENT / 100)
    else None
  }

  class Submitter {
    const store: Store
    // messages to the signer's queue, in order, and how many it did not take
    var messages: seq<TxId>
    ghost var lost: nat

    constructor (store: Store)
      ensures this.store == store && messages == [] && lost == 0
    {
      this.store, messages, lost := store, [], 0;
    }

    /** A key seen before is answered with its own transaction, or refused if the request differs. */
    method Replay(claim: Claim, claimed: Claimed, hash: nat) returns (r: SubmitResult)
      requires store.Valid() && claim in store.claims && store.claims[claim] == claimed
      modifies store
      ensures store.Valid() && Reaches(old(store.w), store.w)
      ensures claim in store.claims && store.claims[claim] == claimed
      ensures r == if claimed.requestHash == hash then Replayed(claimed.txId) else IdempotencyConflict
      ensures store.Called(false) && store.clashes == old(store.clashes)
    {
      hide WorldOk, Mirrors, Books, AllReserved, ClaimsOk, Reaches;
      var existing := store.GetTx(claimed.txId);
      ClaimIsStored(store.claims, store.w.lives, store.w, store.txs, claim);
      assert existing.Some?;
      return if claimed.requestHash == hash then Replayed(claimed.txId) else IdempotencyConflict;
    }

    /** The gas limit, or why there is none: a dependent request needs its own, and a dependency it may name that had not
        failed; any other needs the node's estimate. */
    method GasLimit(request: Request, c: Circumstances) returns (refused: Option<SubmitResult>, gasLimit: nat)
      requires store.Valid() && request.pair.signer in c.signers
      modifies store
      ensures store.Valid() && Reaches(old(store.w), store.w) && old(store.made) <= store.made
      ensures forall c :: c in old(store.claims) ==> c in store.claims && store.claims[c] == old(store.claims)[c]
      ensures refused.Some? ==>
                refused.value in [InvalidRequest, DependencyNotFound, SubmitResult.DependencyFailed, EstimateFailed]
      ensures refused.Some? ==> HasReason(refused.value, request, c, old(store.txs), store.w)
      ensures refused.None? ==> Some(gasLimit) == GasOf(request, c.estimate)
      ensures refused.None? && request.dependsOn.Some? ==>
                request.gasLimit.Some? && DependsWell(store.w, request.dependsOn.value, request.pair.chain, c.signers)
      ensures refused.None? && request.dependsOn.None? ==> c.estimate.Some?
      ensures store.Called(false) && store.clashes == old(store.clashes)
    {
      hide WorldOk, Mirrors, Books, AllReserved, ClaimsOk, Reaches;
      ReachesItself(store.w);
      if request.dependsOn.Some? {
        if request.gasLimit.None? { return Some(InvalidRequest), 0; }
        var dependency := store.GetTx(request.dependsOn.value);
        if dependency.Some? { assert Seen(store.w, dependency.value) && dependency.value.txId == request.dependsOn.value; }
        if !dependency.Some? || dependency.value.pair.signer !in c.signers
           || dependency.value.pair.chain != request.pair.chain
        {
          return Some(DependencyNotFound), 0;
        }
        if DependencyStateOf(dependency) == DependencyUnsuccessful { return Some(SubmitResult.DependencyFailed), 0; }
        return None, request.gasLimit.value;
      }
      if c.estimate.None? { return Some(EstimateFailed), 0; }
      return None, if request.gasLimit.Some? then request.gasLimit.value else c.estimate.value * ESTIMATE_HEADROOM_PERCENT / 100;
    }

    method SubmitTx(request: Request, claim: Claim, policy: Policy, newTxId: TxId, now: int, day: nat, c: Circumstances)
      returns (r: SubmitResult)
      requires store.Valid()
      modifies store, this`messages, this`lost
      ensures store.Valid() && Reaches(old(store.w), store.w)
      // one transaction a key: stored with the claim, or found by it
      ensures r.Accepted? ==>
                && r.txId == newTxId && newTxId in store.txs && store.txs[newTxId].status == Queued
                && claim in store.claims && store.claims[claim] == Claimed(newTxId, request.hash)
      ensures r.Replayed? ==> claim in store.claims && store.claims[claim] == Claimed(r.txId, request.hash)
      ensures r.IdempotencyConflict? ==> claim in store.claims && store.claims[claim].requestHash != request.hash
      ensures claim in old(store.claims) && request.pair.signer in c.signers ==>
                r == if old(store.claims)[claim].requestHash == request.hash then Replayed(old(store.claims)[claim].txId)
                     else IdempotencyConflict
      // stored with the reservation of its worst case, and its message sent
      ensures r.Accepted? ==>
                && store.made != []
                && var last := store.made[|store.made| - 1];
                   && last.txId == newTxId && last.Key() == SpendKey(request.pair, day) && last.policy == policy
                   && last.value == request.value && last.gasLimit <= policy.maxGasLimit
                   && last.gasLimit == store.txs[newTxId].gasLimit && Some(last.gasLimit) == GasOf(request, c.estimate)
      ensures if r.Accepted? && lost == old(lost) then messages == old(messages) + [newTxId] else messages == old(messages)
      // with a dependency that is stored, on its chain, and had not failed
      ensures r.Accepted? && request.dependsOn.Some? ==>
                request.gasLimit.Some? && DependsWell(store.w, request.dependsOn.value, request.pair.chain, c.signers)
      // and otherwise refused for a reason
      ensures r.Accepted? ==>
                request.pair.signer in c.signers && c.served && c.allowed && (request.dependsOn.None? ==> c.estimate.Some?)
      ensures r.PolicyViolation? ==>
                !c.allowed || (GasOf(request, c.estimate).Some? && GasOf(request, c.estimate).value > policy.maxGasLimit)
      ensures r.SpendCapExceeded? ==>
                && GasOf(request, c.estimate).Some?
                && var wanted := Reservation(newTxId, request.pair, day, request.value, GasOf(request, c.estimate).value, policy);
                   || wanted.CostWei() > policy.dailySpendCapWei
                   || Spent(store.spent, wanted.Key()) + wanted.CostGwei() > wanted.CapGwei()
      ensures HasReason(r, request, c, old(store.txs), store.w)
      ensures r.SubmitFailed? ==> store.clashes > old(store.clashes) || newTxId in store.txs
    {
      hide WorldOk, Mirrors, Books, AllReserved, ClaimsOk, Reaches, DependsWell, HasReason;
      ReachesItself(store.w);
      if request.pair.signer !in c.signers {
        PlainReason(request, c, store.txs, store.w);
        return SignerNotAllowed;
      }
      var previous := store.GetIdempotency(claim);
      ghost var read := store.w;
      PlainReason(request, c, old(store.txs), store.w);
      if previous.Some? {
        r := Replay(claim, previous.value, request.hash);
        PlainReason(request, c, old(store.txs), store.w);
        ReachesTransitively(old(store.w), read, store.w);
        return;
      }
      if !c.served { return NotServed; }
      if !c.allowed || (request.gasLimit.Some? && request.gasLimit.value > policy.maxGasLimit) { return PolicyViolation; }
      ghost var txs := store.txs;
      var refused, gasLimit := GasLimit(request, c);
      if refused.Some? { ReasonStays(old(store.w), read, old(store.txs), txs, store.w, refused.value, request, c); }
      ReachesTransitively(old(store.w), read, store.w);
      if refused.Some? { return refused.value; }
      PlainReason(request, c, old(store.txs), store.w);
      if gasLimit > policy.maxGasLimit { return PolicyViolation; }
      ghost var before := store.w;
      r := StoreNew(request, claim, policy, newTxId, now, day, gasLimit);
      PlainReason(request, c, old(store.txs), store.w);
      if request.dependsOn.Some? { DependsWellStays(before, store.w, request.dependsOn.value, request.pair.chain, c.signers); }
      ReachesTransitively(old(store.w), before, store.w);
    }

    /** The reservation, the record with its claim, and the message. */
    method StoreNew(request: Request, claim: Claim, policy: Policy, newTxId: TxId, now: int, day: nat, gasLimit: nat)
      returns (r: SubmitResult)
      requires store.Valid() && gasLimit <= policy.maxGasLimit
      modifies store, this`messages, this`lost
      ensures store.Valid() && Reaches(old(store.w), store.w)
      ensures r.Accepted? || r.Replayed? || r.IdempotencyConflict? || r.SubmitFailed? || r.SpendCapExceeded?
      ensures r.Accepted? ==>
                && r.txId == newTxId && newTxId in store.txs && store.txs[newTxId].status == Queued
                && claim in store.claims && store.claims[claim] == Claimed(newTxId, request.hash)
                && store.made != []
                && var last := store.made[|store.made| - 1];
                   && last.txId == newTxId && last.Key() == SpendKey(request.pair, day) && last.policy == policy
                   && last.value == request.value && last.gasLimit == gasLimit == store.txs[newTxId].gasLimit
      ensures r.Replayed? ==> claim in store.claims && store.claims[claim] == Claimed(r.txId, request.hash)
      ensures r.IdempotencyConflict? ==> claim in store.claims && store.claims[claim].requestHash != request.hash
      ensures r.SpendCapExceeded? ==>
                var wanted := Reservation(newTxId, request.pair, day, request.value, gasLimit, policy);
                || wanted.CostWei() > policy.dailySpendCapWei
                || Spent(store.spent, wanted.Key()) + wanted.CostGwei() > wanted.CapGwei()
      ensures r.SubmitFailed? ==> store.clashes > old(store.clashes) || newTxId in store.txs
      ensures if r.Accepted? && lost == old(lost) then messages == old(messages) + [newTxId] else messages == old(messages)
    {
      hide WorldOk, Mirrors, Books, AllReserved, ClaimsOk, Reaches;
      ReachesItself(store.w);
      var cost := WorstCaseCostWei(policy, request.value, gasLimit);
      var reservation := Reservation(newTxId, request.pair, day, request.value, gasLimit, policy);
      if cost > policy.dailySpendCapWei {
        assert reservation.CostWei() > policy.dailySpendCapWei;
        return SpendCapExceeded;
      }
      var created := store.CreateTx(NewTx(request, newTxId, gasLimit, now), reservation, claim, request.hash);
      match created {
        case Created =>
          var taken: bool := *;
          if taken { messages := messages + [newTxId]; } else { lost := lost + 1; }
          return SubmitResult.Accepted(newTxId);
        case CreateFailed => return SubmitFailed;
        case SpendCap => return SpendCapExceeded;
        case Duplicate =>
          ghost var before := store.w;
          var raced := store.GetIdempotency(claim);
          ReachesTransitively(old(store.w), before, store.w);
          before := store.w;
          r := Replay(claim, raced.value, request.hash);
          ReachesTransitively(old(store.w), before, store.w);
      }
    }
  }

  /** Why a request is refused before its cost is looked at. */
  ghost predicate HasReason(r: SubmitResult, request: Request, c: Circumstances, txs: map<TxId, TxRecord>, w: World) {
    && (r.SignerNotAllowed? <==> request.pair.signer !in c.signers)
    && (r.NotServed? ==> !c.served)
    && (r.InvalidRequest? ==> request.dependsOn.Some? && request.gasLimit.None?)
    && (r.DependencyNotFound? ==>
          && request.dependsOn.Some?
          && (request.dependsOn.value in txs ==> exists copy ::
                && Seen(w, copy) && copy.txId == request.dependsOn.value
                && (copy.pair.signer !in c.signers || copy.pair.chain != request.pair.chain)))
    && (r.DependencyFailed? ==> request.dependsOn.Some? && exists copy ::
          Seen(w, copy) && copy.txId == request.dependsOn.value && DependencyStateOf(Some(copy)) == DependencyUnsuccessful)
    && (r.EstimateFailed? ==> request.dependsOn.None? && c.estimate.None?)
  }

  predicate IsPlain(r: SubmitResult) {
    r.Accepted? || r.Replayed? || r.IdempotencyConflict? || r.PolicyViolation? || r.SpendCapExceeded? || r.SubmitFailed?
  }

  lemma PlainReason(request: Request, c: Circumstances, txs: map<TxId, TxRecord>, w: World)
    ensures request.pair.signer !in c.signers ==> HasReason(SignerNotAllowed, request, c, txs, w)
    ensures request.pair.signer in c.signers ==>
              forall r: SubmitResult :: IsPlain(r) || (r.NotServed? && !c.served) ==> HasReason(r, request, c, txs, w)
  {
  }

  lemma ReasonStays(was: World, read: World, txs: map<TxId, TxRecord>, later: map<TxId, TxRecord>, w: World, r: SubmitResult,
                    request: Request, c: Circumstances)
    requires HasReason(r, request, c, later, w) && txs.Keys <= later.Keys
    ensures HasReason(r, request, c, txs, w)
  {
  }

  /** This transaction was found stored on the chain, for a signer the key may use, and had not been unsuccessful by then. */
  ghost predicate DependsWell(w: World, id: TxId, chain: nat, signers: set<nat>) {
    exists copy :: Seen(w, copy) && copy.txId == id && copy.pair.chain == chain && copy.pair.signer in signers
                   && DependencyStateOf(Some(copy)) != DependencyUnsuccessful
  }

  lemma DependsWellStays(w: World, u: World, id: TxId, chain: nat, signers: set<nat>)
    requires WorldOk(w) && Reaches(w, u) && DependsWell(w, id, chain, signers)
    ensures DependsWell(u, id, chain, signers)
  {
    hide WorldOk, Reaches, Seen, DependencyStateOf;
    var copy :| Seen(w, copy) && copy.txId == id && copy.pair.chain == chain && copy.pair.signer in signers
                && DependencyStateOf(Some(copy)) != DependencyUnsuccessful;
    SeenStays(w, u, copy);
  }

  /** The transaction named by a claim is in the table. */
  lemma ClaimIsStored(claims: map<Claim, Claimed>, lives: map<TxId, Life>, w: World, txs: map<TxId, TxRecord>, claim: Claim)
    requires ClaimsOk(claims, lives) && claim in claims && lives == w.lives && Mirrors(w, txs)
    ensures claims[claim].txId in txs
  {
  }

  // The cap, in signatures

  /** This much can be spent by one of the signatures a record ever held. */
  ghost predicate CanCost(life: Life, cost: nat) {
    || cost == 0
    || exists n, k :: 0 <= n < |life.images| && 0 <= k < |life.images[n].attempts| && CostsAt(life.images[n], k, cost)
  }

  ghost predicate MayPay(lives: map<TxId, Life>, id: TxId, cost: nat) { id in lives && CanCost(lives[id], cost) }

  predicate CostsAt(tx: TxRecord, k: nat, cost: nat)
    requires k < |tx.attempts|
  {
    cost == tx.value + tx.gasLimit * tx.attempts[k].fees.maxFee
  }

  function Paid(made: seq<Reservation>, key: SpendKey, paid: TxId -> nat): nat {
    if made == [] then 0
    else
      var last := made[|made| - 1];
      Paid(made[..|made| - 1], key, paid) + if last.Key() == key then paid(last.txId) else 0
  }

  /** All signing for the pair was done under this policy's fee cap. */
  ghost predicate SignedUnder(w: World, pair: Pair, policy: Policy) {
    forall id :: IsRelay(w.lives, id) && w.lives[id].images[0].pair == pair ==>
                   OnePolicy(w.lives[id].events, FeeCap(policy))
  }

  /** No signature of a transaction costs more than was reserved for it. */
  lemma SignatureIsReserved(w: World, r: Reservation, policy: Policy, cost: nat)
    requires LivesOk(w) && Covered(w.lives, r) && SignedUnder(w, r.pair, policy) && r.policy == policy
    requires CanCost(w.lives[r.txId], cost)
    ensures cost <= r.CostWei()
  {
    hide IsRun, OnePolicy;
    var life := w.lives[r.txId];
    if cost != 0 {
      var n, k :| 0 <= n < |life.images| && 0 <= k < |life.images[n].attempts| && CostsAt(life.images[n], k, cost);
      assert IsRelay(w.lives, r.txId);
      EverySignatureIsUnderPolicy(life.images, life.events, FeeCap(policy), n);
      ImagesFollow(life.images, life.events, 0, n);
      var fee := life.images[n].attempts[k].fees.maxFee;
      assert fee <= policy.maxFee;
      assert r.gasLimit * fee <= r.gasLimit * policy.maxFee;
    }
  }

  lemma {:induction false} PaidIsReserved(w: World, made: seq<Reservation>, key: SpendKey, policy: Policy, paid: TxId -> nat)
    requires LivesOk(w) && SignedUnder(w, key.pair, policy) && OneCap(made, key, policy)
    requires forall i :: 0 <= i < |made| ==> Covered(w.lives, made[i])
    requires forall i :: 0 <= i < |made| ==> MayPay(w.lives, made[i].txId, paid(made[i].txId))
    ensures Paid(made, key, paid) <= WorstCase(made, key)
  {
    hide Covered, CanCost, SignedUnder, LivesOk;
    if made != [] {
      var last := made[|made| - 1];
      PaidIsReserved(w, made[..|made| - 1], key, policy, paid);
      assert MayPay(w.lives, last.txId, paid(last.txId));
      if last.Key() == key { SignatureIsReserved(w, last, policy, paid(last.txId)); }
    }
  }

  /** While a signer's policy is unchanged: let each of its relay transactions of one chain and day be mined as any one of
      the signatures it ever held, refused, replaced, dropped and abandoned ones included. Together they cost no more than
      the daily cap, whatever was submitted at the same time. Every relay transaction has its own reservation, so none is
      left out of the sum. */
  lemma DailySpendIsCapped(w: World, txs: map<TxId, TxRecord>, nextNonce: map<Pair, nat>, claims: map<Claim, Claimed>,
                           spent: map<SpendKey, nat>, made: seq<Reservation>, key: SpendKey, policy: Policy,
                           paid: TxId -> nat)
    requires TableOk(w, txs, nextNonce, claims, spent, made)
    requires OneCap(made, key, policy) && SignedUnder(w, key.pair, policy)
    requires forall i :: 0 <= i < |made| ==> MayPay(w.lives, made[i].txId, paid(made[i].txId))
    ensures Paid(made, key, paid) <= policy.dailySpendCapWei
    ensures forall id :: IsRelay(w.lives, id) ==> IsReserved(made, id)
  {
    hide Covered, CanCost, SignedUnder, LivesOk, RunsOk, Ok, NoncesOk, SendsRecorded, Books;
    PaidIsReserved(w, made, key, policy, paid);
    DailyCapHolds(spent, made, key, policy);
  }
}
