/** The daily spend cap (services/relayer/src/policy.ts:119-138, submit.ts:158-160, store.ts:163-217). */
module DailySpend {
  import opened Wrappers
  import opened ReplacementFees
  import opened RelayerRecords

  const GWEI: nat := 1_000_000_000

  /** The part of a signer's policy that bounds cost. */
  datatype Policy = Policy(maxGasLimit: nat, maxFee: nat, maxTip: nat, dailySpendCapWei: nat)

  function FeeCap(policy: Policy): Fees { Fees(policy.maxFee, policy.maxTip) }

  function WorstCaseCostWei(policy: Policy, value: nat, gasLimit: nat): nat { value + gasLimit * policy.maxFee }

  function WeiToGweiCeil(wei: nat): (gwei: nat)
    ensures GWEI * gwei >= wei > GWEI * gwei - GWEI
  {
    (wei + GWEI - 1) / GWEI
  }

  function WeiToGweiFloor(wei: nat): (gwei: nat)
    ensures GWEI * gwei <= wei < GWEI * gwei + GWEI
  {
    wei / GWEI
  }

  /** One reservation: a transaction and the amount added to the counter for it. */
  datatype Reservation = Reservation(
    txId: TxId,
    pair: Pair,
    day: nat,
    value: nat,
    gasLimit: nat,
    policy: Policy)
  {
    function Key(): SpendKey { SpendKey(pair, day) }

    function CostWei(): nat { WorstCaseCostWei(policy, value, gasLimit) }

    function CostGwei(): nat { WeiToGweiCeil(CostWei()) }

    function CapGwei(): nat { WeiToGweiFloor(policy.dailySpendCapWei) }
  }

  datatype SpendKey = SpendKey(pair: Pair, day: nat)

  /** What the reservations made for one signer, chain and day come to on the counter. */
  function Total(made: seq<Reservation>, key: SpendKey): nat {
    if made == [] then 0
    else Total(made[..|made| - 1], key) + if made[|made| - 1].Key() == key then made[|made| - 1].CostGwei() else 0
  }

  /** The most the signatures of the transactions of one signer, chain and day can cost together. */
  function WorstCase(made: seq<Reservation>, key: SpendKey): nat {
    if made == [] then 0
    else WorstCase(made[..|made| - 1], key) + if made[|made| - 1].Key() == key then made[|made| - 1].CostWei() else 0
  }

  function Spent(spent: map<SpendKey, nat>, key: SpendKey): nat { if key in spent then spent[key] else 0 }

  /** The counters are the totals, and each reservation fitted under its policy's cap when it was made. */
  ghost predicate Books(spent: map<SpendKey, nat>, made: seq<Reservation>) {
    && (forall key :: Spent(spent, key) == Total(made, key))
    && (forall i :: 0 <= i < |made| ==> Total(made[..i + 1], made[i].Key()) <= made[i].CapGwei())
  }

  /** The condition of the update. It looks at the day's total alone, and passes on a day without one: ReserveKeepsBooks
      needs the caller's own check of the cost as well. */
  predicate Room(spent: map<SpendKey, nat>, r: Reservation) {
    r.Key() !in spent || spent[r.Key()] <= r.CapGwei() - r.CostGwei()
  }

  lemma ReserveKeepsBooks(spent: map<SpendKey, nat>, made: seq<Reservation>, r: Reservation)
    requires Books(spent, made) && r.CostGwei() <= r.CapGwei() && Room(spent, r)
    ensures Books(spent[r.Key() := Spent(spent, r.Key()) + r.CostGwei()], made + [r])
  {
    var after := spent[r.Key() := Spent(spent, r.Key()) + r.CostGwei()];
    var all := made + [r];
    assert all[..|made|] == made;
    forall key ensures Spent(after, key) == Total(all, key) {
      assert Spent(spent, key) == Total(made, key);
    }
    forall i | 0 <= i < |all| ensures Total(all[..i + 1], all[i].Key()) <= all[i].CapGwei() {
      if i < |made| {
        assert all[..i + 1] == made[..i + 1];
      } else {
        assert all[..i + 1] == all;
        assert Spent(after, r.Key()) == Total(all, r.Key());
      }
    }
  }

  /** Every reservation for the key was made under this policy. */
  predicate OneCap(made: seq<Reservation>, key: SpendKey, policy: Policy) {
    forall i :: 0 <= i < |made| && made[i].Key() == key ==> made[i].policy == policy
  }

  lemma {:induction false} LastFitted(made: seq<Reservation>, key: SpendKey, policy: Policy)
    requires forall i :: 0 <= i < |made| ==> Total(made[..i + 1], made[i].Key()) <= made[i].CapGwei()
    requires OneCap(made, key, policy)
    ensures Total(made, key) <= WeiToGweiFloor(policy.dailySpendCapWei)
  {
    if made != [] {
      var front, last := made[..|made| - 1], |made| - 1;
      if made[last].Key() == key {
        assert made[..last + 1] == made;
      } else {
        forall i | 0 <= i < |front| ensures Total(front[..i + 1], front[i].Key()) <= front[i].CapGwei() {
          assert front[..i + 1] == made[..i + 1];
        }
        LastFitted(front, key, policy);
      }
    }
  }

  lemma {:induction false} GweiCoversWei(made: seq<Reservation>, key: SpendKey)
    ensures WorstCase(made, key) <= GWEI * Total(made, key)
  {
    if made != [] { GweiCoversWei(made[..|made| - 1], key); }
  }

  /** While a signer's policy is unchanged, the worst cases of all its reservations on one chain and day come to no more
      than the daily cap, in wei, through the rounding up of costs and down of the cap. */
  lemma DailyCapHolds(spent: map<SpendKey, nat>, made: seq<Reservation>, key: SpendKey, policy: Policy)
    requires Books(spent, made) && OneCap(made, key, policy)
    ensures WorstCase(made, key) <= policy.dailySpendCapWei
  {
    LastFitted(made, key, policy);
    GweiCoversWei(made, key);
  }
}
