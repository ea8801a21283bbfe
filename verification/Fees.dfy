/** Replacement fees (packages/core/src/fees.ts).

    Amounts are wei, never negative, so the source's truncating BigInt division is Dafny's. */
module ReplacementFees {
  import opened Wrappers

  datatype Fees = Fees(maxFee: nat, tip: nat)

  datatype BumpResult = Bumped(fees: Fees) | CapTooLow(required: Fees)

  const DEFAULT_PRICE_BUMP_PERCENT: nat := 10

  function Max(a: nat, b: nat): nat { if a > b then a else b }

  function Min(a: nat, b: nat): nat { if a < b then a else b }

  function Threshold(was: nat, percent: nat): nat { was * (100 + percent) / 100 }

  /** geth's list.Add, as the source writes it: both fields rise and both reach the threshold. */
  predicate IsAcceptedReplacement(previous: Fees, next: Fees, percent: nat) {
    && !(previous.maxFee >= next.maxFee || previous.tip >= next.tip)
    && next.maxFee >= Threshold(previous.maxFee, percent)
    && next.tip >= Threshold(previous.tip, percent)
  }

  function Least(was: nat, percent: nat): nat { Max(Threshold(was, percent), was + 1) }

  function MinReplacementFees(previous: Fees, percent: nat): Fees {
    Fees(Least(previous.maxFee, percent), Least(previous.tip, percent))
  }

  function ClampFees(estimate: Fees, cap: Fees): (r: Fees)
    ensures r.tip <= r.maxFee <= cap.maxFee && r.tip <= cap.tip
  {
    var maxFee := Min(estimate.maxFee, cap.maxFee);
    Fees(maxFee, Min(Min(estimate.tip, cap.tip), maxFee))
  }

  /** 12.5% over the old fee rounded up, the estimate, or the node's least, whichever is greatest. */
  function Raise(was: nat, estimated: nat, least: nat): nat {
    Max(Max((was * 1125 + 999) / 1000, estimated), least)
  }

  function BumpFees(previous: Fees, estimate: Fees, cap: Fees, percent: nat): BumpResult {
    var required := MinReplacementFees(previous, percent);
    var fees := ClampFees(
                  Fees(Raise(previous.maxFee, estimate.maxFee, required.maxFee),
                       Raise(previous.tip, estimate.tip, required.tip)),
                  cap);
    if fees.maxFee < required.maxFee || fees.tip < required.tip then CapTooLow(required) else Bumped(fees)
  }

  predicate WellFormed(f: Fees) { f.tip <= f.maxFee }

  predicate Under(f: Fees, cap: Fees) { f.maxFee <= cap.maxFee && f.tip <= cap.tip }

  /** Fees a node takes in place of `previous` and the policy allows. */
  predicate Usable(previous: Fees, f: Fees, cap: Fees, percent: nat) {
    WellFormed(f) && Under(f, cap) && IsAcceptedReplacement(previous, f, percent)
  }

  /** minReplacementFees is exactly the least accepted pair: accepted means at or above it in both fields. */
  lemma MinReplacementIsLeast(previous: Fees, next: Fees, percent: nat)
    ensures IsAcceptedReplacement(previous, next, percent)
       <==> Under(MinReplacementFees(previous, percent), next)
  {
    var _ := Threshold(previous.maxFee, percent);
  }

  /** clampFees gives the greatest pair within estimate and cap whose tip is within its max fee. */
  lemma ClampIsGreatest(estimate: Fees, cap: Fees, f: Fees)
    ensures WellFormed(f) && Under(f, estimate) && Under(f, cap) <==> WellFormed(f) && Under(f, ClampFees(estimate, cap))
  {
  }

  /** Each bumped fee reaches the estimate and rises by an eighth, except where the cap stops it; a tip also stops at its max
      fee. */
  lemma BumpReachesTheEstimate(previous: Fees, estimate: Fees, cap: Fees, percent: nat)
    requires BumpFees(previous, estimate, cap, percent).Bumped?
    ensures var f := BumpFees(previous, estimate, cap, percent).fees;
            && (f.maxFee >= estimate.maxFee || f.maxFee == cap.maxFee)
            && (8 * f.maxFee >= 9 * previous.maxFee || f.maxFee == cap.maxFee)
            && (f.tip >= estimate.tip || f.tip == cap.tip || f.tip == f.maxFee)
            && (8 * f.tip >= 9 * previous.tip || f.tip == cap.tip || f.tip == f.maxFee)
  {
    EighthIsReached(previous.maxFee);
    EighthIsReached(previous.tip);
  }

  lemma EighthIsReached(was: nat)
    ensures 8 * ((was * 1125 + 999) / 1000) >= 9 * was
  {
    var q := (was * 1125 + 999) / 1000;
    assert 1000 * q + 999 >= was * 1125 + 999;
  }

  lemma LeastIsMonotone(a: nat, b: nat, percent: nat)
    requires a <= b
    ensures Least(a, percent) <= Least(b, percent)
  {
    var x, y := a * (100 + percent), b * (100 + percent);
    assert y - x == (b - a) * (100 + percent) >= 0;
    DivisionIsMonotone(x, y);
  }

  lemma DivisionIsMonotone(x: nat, y: nat)
    requires x <= y
    ensures x / 100 <= y / 100
  {
  }

  /** bumpFees succeeds exactly when some pair under the cap would be taken by the node; what it returns
      is such a pair; and when it fails, what it reports as required is the least the cap would have to allow. */
  lemma BumpFeesIsExact(previous: Fees, estimate: Fees, cap: Fees, percent: nat)
    requires WellFormed(previous)
    ensures BumpFees(previous, estimate, cap, percent).Bumped?
       <==> exists f :: Usable(previous, f, cap, percent)
    ensures match BumpFees(previous, estimate, cap, percent)
            case Bumped(f) => Usable(previous, f, cap, percent)
            case CapTooLow(required) =>
              !Under(required, cap) && forall f :: IsAcceptedReplacement(previous, f, percent) <==> Under(required, f)
  {
    LeastIsMonotone(previous.tip, previous.maxFee, percent);
    forall f: Fees
      ensures IsAcceptedReplacement(previous, f, percent) <==> Under(MinReplacementFees(previous, percent), f)
    {
      MinReplacementIsLeast(previous, f, percent);
    }
    var b := BumpFees(previous, estimate, cap, percent);
    if b.Bumped? {
      assert Usable(previous, b.fees, cap, percent);
    } else {
      forall f ensures !Usable(previous, f, cap, percent) {
        assert Usable(previous, f, cap, percent) ==> Under(b.required, f) && Under(f, cap);
      }
    }
  }

  /** Where the least replacement fits under the cap in both fields, but its tip is above what the raised max fee will be:
      clamping the tip to the max fee then takes it below what the node wants. */
  predicate TipOverRaisedFee(previous: Fees, estimate: Fees, cap: Fees, percent: nat) {
    var q := MinReplacementFees(previous, percent);
    Under(q, cap) && Raise(previous.maxFee, estimate.maxFee, q.maxFee) < q.tip <= cap.maxFee
  }

  /** For any previous pair at all, also one whose tip is above its max fee, bumpFees succeeds just when a usable pair
      exists, except in that one case: then there is one, and bumpFees does not find it. */
  lemma BumpFeesOnInvertedPair(previous: Fees, estimate: Fees, cap: Fees, percent: nat)
    ensures (BumpFees(previous, estimate, cap, percent).Bumped? <==> exists f :: Usable(previous, f, cap, percent))
       <==> !TipOverRaisedFee(previous, estimate, cap, percent)
    ensures (exists f :: Usable(previous, f, cap, percent)) <==> Under(LeastUsable(previous, percent), cap)
    ensures TipOverRaisedFee(previous, estimate, cap, percent) ==>
              && BumpFees(previous, estimate, cap, percent).CapTooLow?
              && Usable(previous, LeastUsable(previous, percent), cap, percent)
    ensures WellFormed(previous) ==> !TipOverRaisedFee(previous, estimate, cap, percent)
  {
    hide Threshold, Raise;
    var q, least := MinReplacementFees(previous, percent), LeastUsable(previous, percent);
    RaiseIsAtLeast(previous.maxFee, estimate.maxFee, q.maxFee);
    RaiseIsAtLeast(previous.tip, estimate.tip, q.tip);
    if WellFormed(previous) { LeastIsMonotone(previous.tip, previous.maxFee, percent); }
    forall f: Fees ensures Usable(previous, f, cap, percent) ==> Under(least, f) && Under(f, cap) {
      MinReplacementIsLeast(previous, f, percent);
    }
    MinReplacementIsLeast(previous, least, percent);
    var b := BumpFees(previous, estimate, cap, percent);
    if b.Bumped? {
      MinReplacementIsLeast(previous, b.fees, percent);
      assert Usable(previous, b.fees, cap, percent);
    }
    if Under(least, cap) { assert Usable(previous, least, cap, percent); }
  }

  /** The least pair that is well formed and accepted. */
  function LeastUsable(previous: Fees, percent: nat): Fees {
    var q := MinReplacementFees(previous, percent);
    Fees(Max(q.maxFee, q.tip), q.tip)
  }

  lemma RaiseIsAtLeast(was: nat, estimated: nat, least: nat)
    ensures Raise(was, estimated, least) >= least
  {
  }

  /** An inverted pair that bumpFees cannot bump although the node would take a pair the cap allows, and the same pair
      bumped once the estimate is high enough. */
  lemma AnInvertedPairIsMissed()
    ensures var previous, cap := Fees(10, 100), Fees(200, 200);
            && Usable(previous, Fees(200, 110), cap, 10) && BumpFees(previous, Fees(0, 0), cap, 10).CapTooLow?
            && BumpFees(previous, Fees(150, 0), cap, 10).Bumped?
  {
    assert 10 * (100 + 10) / 100 == 11 && 100 * (100 + 10) / 100 == 110;
    assert (10 * 1125 + 999) / 1000 == 12 && (100 * 1125 + 999) / 1000 == 113;
  }

  // Climbing: successive bumps under one cap

  /** `fs` is a climb: every pair is what bumpFees made of the one before, whatever the estimates were. */
  ghost predicate Climb(fs: seq<Fees>, cap: Fees, percent: nat) {
    forall i :: 0 < i < |fs| ==> BumpedFrom(fs[i - 1], fs[i], cap, percent)
  }

  ghost predicate BumpedFrom(previous: Fees, next: Fees, cap: Fees, percent: nat) {
    exists estimate :: BumpFees(previous, estimate, cap, percent) == Bumped(next)
  }

  /** A bump that another bump can follow was not clamped, so it rose by a full 12.5% in both fields. */
  lemma UnclampedBumpRisesByAnEighth(a: Fees, b: Fees, c: Fees, cap: Fees, percent: nat)
    requires WellFormed(a)
    requires BumpedFrom(a, b, cap, percent) && BumpedFrom(b, c, cap, percent)
    ensures 8 * b.maxFee >= 9 * a.maxFee
    ensures 8 * b.tip >= 9 * a.tip
  {
  }

  lemma BumpIsBetween(a: Fees, b: Fees, cap: Fees, percent: nat)
    requires WellFormed(a) && BumpedFrom(a, b, cap, percent)
    ensures WellFormed(b) && a.maxFee < b.maxFee <= cap.maxFee && a.tip < b.tip <= cap.tip
  {
  }

  function Pow(base: nat, k: nat): nat { if k == 0 then 1 else base * Pow(base, k - 1) }

  /** After k successful bumps of a well-formed pair, 9^(k-1) of the start is at most 8^(k-1) of the cap, in
      either field: the number of bumps is logarithmic in cap / start. */
  lemma {:induction false} ClimbIsLogarithmic(fs: seq<Fees>, cap: Fees, percent: nat)
    requires |fs| >= 2 && WellFormed(fs[0]) && Climb(fs, cap, percent)
    ensures Pow(9, |fs| - 2) * fs[0].maxFee <= Pow(8, |fs| - 2) * cap.maxFee
    ensures Pow(9, |fs| - 2) * fs[0].tip <= Pow(8, |fs| - 2) * cap.tip
    decreases |fs|
  {
    hide BumpedFrom;
    assert BumpedFrom(fs[0], fs[1], cap, percent);
    if |fs| == 2 {
      BumpIsBetween(fs[0], fs[1], cap, percent);
    } else {
      assert BumpedFrom(fs[1], fs[2], cap, percent);
      UnclampedBumpRisesByAnEighth(fs[0], fs[1], fs[2], cap, percent);
      BumpIsBetween(fs[0], fs[1], cap, percent);
      var rest := fs[1..];
      forall i | 0 < i < |rest| ensures BumpedFrom(rest[i - 1], rest[i], cap, percent) {
        assert BumpedFrom(fs[i], fs[i + 1], cap, percent);
      }
      ClimbIsLogarithmic(rest, cap, percent);
      var k := |fs| - 3;
      ScaleStep(Pow(9, k), Pow(8, k), fs[0].maxFee, fs[1].maxFee, cap.maxFee);
      ScaleStep(Pow(9, k), Pow(8, k), fs[0].tip, fs[1].tip, cap.tip);
    }
  }

  lemma ScaleStep(p: nat, q: nat, a: nat, b: nat, cap: nat)
    requires 9 * a <= 8 * b
    requires p * b <= q * cap
    ensures (9 * p) * a <= (8 * q) * cap
  {
    assert p * (9 * a) <= p * (8 * b);
    assert (9 * p) * a == p * (9 * a);
    assert p * (8 * b) == 8 * (p * b);
    assert (8 * q) * cap == 8 * (q * cap);
  }

  lemma AcceptanceIsUpwardClosed(previous: Fees, a: Fees, b: Fees, percent: nat)
    requires IsAcceptedReplacement(previous, a, percent) && Under(a, b)
    ensures IsAcceptedReplacement(previous, b, percent)
  {
    MinReplacementIsLeast(previous, a, percent);
    MinReplacementIsLeast(previous, b, percent);
  }
}
