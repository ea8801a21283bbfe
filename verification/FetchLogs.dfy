/** Adaptive log reading (packages/core/src/fetch-logs.ts): a range the node refuses is halved until it fits. */
module FetchLogs {
  import opened Wrappers

  /** A range that was read in full and whose callback returned. */
  datatype Chunk<Log> = Chunk(from: int, to: int, logs: seq<Log>) {
    function Size(): int { to - from + 1 }
  }

  /** What a node sends back for a range: a refusal of its size, another error, or logs with the heads it had before and
      after reading them. */
  datatype Reply<Log> = Refused | Broken | Reply(headBefore: int, logs: seq<Log>, head: int)

  /** What the reader makes of it: an error that isHalvable accepts, any other error, a node behind the range, or logs. */
  datatype Answer<Log> = TooLarge | Failed | Lagging | Logs(logs: seq<Log>)

  /** How a walk ended: it read everything, shouldStop said so, a read failed, a node lagged, or onChunk threw. */
  datatype Ending = Done | Stopped | ReadFailed | Lagged | CallbackFailed

  /** The chunks cover from..to, in block order, without a gap or an overlap; none is empty. */
  ghost predicate Tiles<Log>(chunks: seq<Chunk<Log>>, from: int, to: int) {
    if chunks == [] then from == to + 1
    else chunks[0].from == from <= chunks[0].to && Tiles(chunks[1..], chunks[0].to + 1, to)
  }

  /** They cover some contiguous prefix of from..to. */
  ghost predicate TilesPrefix<Log>(chunks: seq<Chunk<Log>>, from: int, to: int) {
    exists end :: from - 1 <= end <= to && Tiles(chunks, from, end)
  }

  function AllLogs<Log>(chunks: seq<Chunk<Log>>): seq<Log> {
    if chunks == [] then [] else chunks[0].logs + AllLogs(chunks[1..])
  }

  lemma {:induction false} TilesConcat<Log>(a: seq<Chunk<Log>>, b: seq<Chunk<Log>>, from: int, mid: int, to: int)
    requires Tiles(a, from, mid) && Tiles(b, mid + 1, to)
    ensures Tiles(a + b, from, to)
    ensures AllLogs(a + b) == AllLogs(a) + AllLogs(b)
  {
    if a == [] {
      assert a + b == b;
    } else {
      TilesConcat(a[1..], b, a[0].to + 1, mid, to);
      assert (a + b)[1..] == a[1..] + b;
    }
  }

  lemma {:induction false} TilesBounds<Log>(a: seq<Chunk<Log>>, from: int, to: int)
    requires Tiles(a, from, to)
    ensures from <= to + 1 && (a == [] <==> from == to + 1)
    ensures forall i :: 0 <= i < |a| ==> from <= a[i].from <= a[i].to <= to
  {
    if a != [] {
      TilesBounds(a[1..], a[0].to + 1, to);
      forall i | 0 <= i < |a| ensures from <= a[i].from <= a[i].to <= to {
        if i > 0 { assert a[i] == a[1..][i - 1]; }
      }
    }
  }

  /** The larger half of n blocks. */
  function Half(n: int): int { (n + 1) / 2 }

  /** A range comes as one chunk, or as chunks none larger than its larger half. */
  ghost predicate WholeOrHalved<Log>(news: seq<Chunk<Log>>, f: int, t: int) {
    || (|news| == 1 && news[0].from == f && news[0].to == t)
    || (forall c :: c in news ==> 1 <= c.Size() <= Half(t - f + 1) && c.Size() < t - f + 1)
  }

  /** The chunks tile the range when the walk is done and a contiguous prefix of it otherwise, and are the range itself or
      parts of it. */
  ghost predicate Covers<Log>(end: Ending, news: seq<Chunk<Log>>, f: int, t: int) {
    && (end.Done? ==> Tiles(news, f, t))
    && (!end.Done? ==> TilesPrefix(news, f, t) && !Tiles(news, f, t))
    && WholeOrHalved(news, f, t)
  }

  /** The same logs, in any order and with any copies. */
  predicate SameLogs<Log(==)>(a: seq<Log>, b: seq<Log>) { (forall l :: l in a ==> l in b) && (forall l :: l in b ==> l in a) }

  /** Every chunk has the logs of its own range. */
  ghost predicate AreOf<Log>(news: seq<Chunk<Log>>, g: (int, int) -> seq<Log>) {
    forall c :: c in news ==> SameLogs(c.logs, g(c.from, c.to))
  }

  /** A walk against a node that refuses exactly the ranges above a limit: no chunk is above it, a range under it comes
      whole, and no read fails for its size unless the limit is zero. */
  ghost predicate Under<Log>(limit: nat, end: Ending, news: seq<Chunk<Log>>, f: int, t: int) {
    && (limit > 0 ==> !end.ReadFailed?)
    && (forall c :: c in news ==> c.Size() <= limit)
    && (t - f + 1 <= limit ==>
          (end.Done? ==> |news| == 1) && |news| <= 1 && forall c :: c in news ==> c.from == f && c.to == t)
  }

  class LogReader<Log(==)> {
    // Some(n): the node refuses exactly the ranges of more than n blocks, and sends logs for every other one
    const limit: Option<nat>
    // Some(g): a node whose head had reached the range, both before and after, sends the logs g has for it
    const truth: Option<(int, int) -> seq<Log>>
    // whether logs are taken only from such a node
    const checksHeads: bool
    // pushed to by every chunk, in order
    var collected: seq<Log>
    // the onChunk calls that returned
    var chunks: seq<Chunk<Log>>
    var fetches: nat
    // late readings of the clock, failed reads, nodes behind the range, and callbacks that threw
    ghost var lates: nat
    ghost var failures: nat
    ghost var lags: nat
    ghost var thrown: nat

    constructor (limit: Option<nat>, truth: Option<(int, int) -> seq<Log>>, checksHeads: bool)
      ensures this.limit == limit && this.truth == truth && this.checksHeads == checksHeads
      ensures collected == [] && chunks == [] && fetches == 0
    {
      this.limit, this.truth, this.checksHeads := limit, truth, checksHeads;
      collected, chunks, fetches, lates, failures, lags, thrown := [], [], 0, 0, 0, 0, 0;
    }

    /** A node: behind the range it sends any logs, and otherwise the range's, in any order and with any copies. */
    method GetLogsWithHead(f: int, t: int) returns (r: Reply<Log>)
      modifies this`fetches
      ensures fetches == old(fetches) + 1
      ensures limit.Some? ==> (if t - f + 1 > limit.value then r.Refused? else r.Reply?)
      ensures truth.Some? && r.Reply? && r.headBefore >= t && r.head >= t ==> SameLogs(r.logs, truth.value(f, t))
    {
      fetches := fetches + 1;
      r := *;
      if limit.Some? {
        var headBefore, logs, head := *, *, *;
        r := if t - f + 1 > limit.value then Refused else Reply(headBefore, logs, head);
      }
      if truth.Some? && r.Reply? && r.headBefore >= t && r.head >= t && !SameLogs(r.logs, truth.value(f, t)) {
        r := r.(logs := truth.value(f, t));
      }
    }

    /** readFinalRange, or a plain read. The logs are returned only if the head read before them and the head
        read beside them both reach the end of the range. */
    method FetchRange(f: int, t: int) returns (a: Answer<Log>)
      modifies this`fetches, this`failures, this`lags
      ensures fetches == old(fetches) + 1
      ensures lags == old(lags) + if a.Lagging? then 1 else 0
      ensures failures == old(failures) + if a.TooLarge? || a.Failed? then 1 else 0
      ensures limit.Some? ==> (if t - f + 1 > limit.value then a.TooLarge? else a.Logs? || a.Lagging?)
      ensures truth.Some? && checksHeads && a.Logs? ==> SameLogs(a.logs, truth.value(f, t))
    {
      var r := GetLogsWithHead(f, t);
      if r.Refused? {
        failures := failures + 1;
        return TooLarge;
      }
      if r.Broken? {
        failures := failures + 1;
        return Failed;
      }
      if checksHeads && (r.head < t || r.headBefore < t) {
        lags := lags + 1;
        return Lagging;
      }
      return Logs(r.logs);
    }

    method OnChunk(f: int, t: int, logs: seq<Log>) returns (ok: bool)
      modifies this`chunks, this`thrown
      ensures chunks == if ok then old(chunks) + [Chunk(f, t, logs)] else old(chunks)
      ensures thrown == old(thrown) + if ok then 0 else 1
    {
      ok := *;
      if ok {
        chunks := chunks + [Chunk(f, t, logs)];
      } else {
        thrown := thrown + 1;
      }
    }

    method ShouldStop() returns (stop: bool)
      modifies this`lates
      ensures lates == old(lates) + if stop then 1 else 0
    {
      stop := *;
      if stop { lates := lates + 1; }
    }

    /** A walk ends early only with a cause. */
    twostate predicate HasCause(end: Ending)
      reads this
    {
      && old(lates) <= lates && old(failures) <= failures && old(lags) <= lags && old(thrown) <= thrown
      && match end
         case Done => true
         case Stopped => lates > old(lates)
         case ReadFailed => failures > old(failures)
         case Lagged => lags > old(lags)
         case CallbackFailed => thrown > old(thrown)
    }

    /** At most 2n-1 fetches for n blocks. The chunks handed on tile the range in order when the walk is done and a
        contiguous prefix of it otherwise, and the collected logs are theirs, in their order. A range is either one
        chunk or only chunks of at most the larger half of it; a node with a limit is never asked again for a range
        under it, and its walk fails only at a limit of zero or where the node lags. */
    method Walk(f: int, t: int) returns (end: Ending, news: seq<Chunk<Log>>)
      requires f <= t
      modifies this`collected, this`chunks, this`fetches, this`lates, this`failures, this`lags, this`thrown
      ensures HasCause(end)
      ensures chunks == old(chunks) + news && collected == old(collected) + AllLogs(news)
      ensures fetches - old(fetches) <= 2 * (t - f + 1) - 1
      ensures Covers(end, news, f, t)
      ensures truth.Some? && checksHeads ==> AreOf(news, truth.value)
      ensures limit.Some? ==> Under(limit.value, end, news, f, t)
      ensures limit.Some? && t - f + 1 <= limit.value ==> fetches <= old(fetches) + 1
      decreases t - f
    {
      hide Covers, AreOf, Under, AllLogs;
      news := [];
      NothingRead<Log>(f, t);
      if truth.Some? { NoneOf(truth.value); }
      if limit.Some? { NoneUnder<Log>(limit.value, f, t); }
      var stop := ShouldStop();
      if stop {
        return Stopped, news;
      }
      var answer := FetchRange(f, t);
      if answer.Lagging? {
        return Lagged, news;
      }
      if answer.Failed? || (answer.TooLarge? && f == t) {
        return ReadFailed, news;
      }
      if answer.TooLarge? {
        end, news := WalkHalves(f, t);
        return;
      }
      var ok := OnChunk(f, t, answer.logs);
      if !ok {
        return CallbackFailed, news;
      }
      collected := collected + answer.logs;
      news := [Chunk(f, t, answer.logs)];
      OneChunk(news[0]);
      if truth.Some? && checksHeads { OneOf(news[0], truth.value); }
      if limit.Some? { OneUnder(limit.value, news[0]); }
      end := Done;
    }

    /** The larger half first; the other only once it is done. */
    method WalkHalves(f: int, t: int) returns (end: Ending, news: seq<Chunk<Log>>)
      requires f < t && (limit.Some? ==> t - f + 1 > limit.value)
      modifies this`collected, this`chunks, this`fetches, this`lates, this`failures, this`lags, this`thrown
      ensures HasCause(end)
      ensures chunks == old(chunks) + news && collected == old(collected) + AllLogs(news)
      ensures fetches - old(fetches) <= 2 * (t - f + 1) - 2
      ensures Covers(end, news, f, t)
      ensures truth.Some? && checksHeads ==> AreOf(news, truth.value)
      ensures limit.Some? ==> Under(limit.value, end, news, f, t)
      decreases t - f, 0
    {
      hide Covers, AreOf, Under, AllLogs;
      var mid := (f + t) / 2;
      ghost var chunks0, collected0 := chunks, collected;
      var first, left := Walk(f, mid);
      if first != Done {
        StoppedCovers(first, left, f, mid, t);
        if limit.Some? { StoppedUnder(limit.value, first, left, f, mid, t); }
        return first, left;
      }
      var right;
      end, right := Walk(mid + 1, t);
      news := left + right;
      assert chunks == chunks0 + news;
      LogsOfBoth(left, right);
      assert collected == collected0 + AllLogs(news);
      HalvesCover(end, left, right, f, mid, t);
      if truth.Some? && checksHeads { BothOf(left, right, truth.value); }
      if limit.Some? { BothUnder(limit.value, end, left, right, f, mid, t); }
    }
  }

  // One read

  lemma NothingRead<Log>(f: int, t: int)
    requires f <= t
    ensures forall end :: end != Done ==> Covers<Log>(end, [], f, t)
    ensures AllLogs<Log>([]) == []
  {
    assert Tiles<Log>([], f, f - 1);
  }

  lemma NoneOf<Log>(g: (int, int) -> seq<Log>)
    ensures AreOf([], g)
  {
  }

  lemma NoneUnder<Log>(limit: nat, f: int, t: int)
    ensures forall end :: end != Done && (end.ReadFailed? ==> limit == 0) ==> Under<Log>(limit, end, [], f, t)
  {
  }

  lemma OneChunk<Log>(c: Chunk<Log>)
    requires c.from <= c.to
    ensures Covers(Done, [c], c.from, c.to) && AllLogs([c]) == c.logs
  {
    assert [c][1..] == [] && Tiles([c][1..], c.to + 1, c.to);
  }

  lemma OneOf<Log>(c: Chunk<Log>, g: (int, int) -> seq<Log>)
    requires SameLogs(c.logs, g(c.from, c.to))
    ensures AreOf([c], g)
  {
  }

  lemma OneUnder<Log>(limit: nat, c: Chunk<Log>)
    requires c.Size() <= limit
    ensures Under(limit, Done, [c], c.from, c.to)
  {
  }

  // Two halves

  lemma StoppedCovers<Log>(end: Ending, left: seq<Chunk<Log>>, f: int, mid: int, t: int)
    requires f < t && mid == (f + t) / 2 && !end.Done? && Covers(end, left, f, mid)
    ensures Covers(end, left, f, t)
  {
    PrefixOfLonger(left, f, mid, t);
    var upTo :| f - 1 <= upTo <= mid && Tiles(left, f, upTo);
    TilesBounds(left, f, upTo);
  }

  lemma StoppedUnder<Log>(limit: nat, end: Ending, left: seq<Chunk<Log>>, f: int, mid: int, t: int)
    requires t - f + 1 > limit && Under(limit, end, left, f, mid)
    ensures Under(limit, end, left, f, t)
  {
  }

  lemma HalvesCover<Log>(end: Ending, left: seq<Chunk<Log>>, right: seq<Chunk<Log>>, f: int, mid: int, t: int)
    requires f < t && mid == (f + t) / 2 && Covers(Done, left, f, mid) && Covers(end, right, mid + 1, t)
    ensures Covers(end, left + right, f, t)
  {
    hide Tiles, WholeOrHalved;
    TilesConcatPrefix(left, right, f, mid, t);
    if Tiles(right, mid + 1, t) { assert TilesPrefix(right, mid + 1, t); }
    PartsAreHalved(left, right, f, mid, t);
  }

  lemma PartsAreHalved<Log>(left: seq<Chunk<Log>>, right: seq<Chunk<Log>>, f: int, mid: int, t: int)
    requires f < t && mid == (f + t) / 2
    requires Tiles(left, f, mid) && TilesPrefix(right, mid + 1, t)
    ensures WholeOrHalved(left + right, f, t)
  {
    HalvesShrink(left, right, f, mid, t);
  }

  lemma LogsOfBoth<Log>(left: seq<Chunk<Log>>, right: seq<Chunk<Log>>)
    ensures AllLogs(left + right) == AllLogs(left) + AllLogs(right)
    decreases |left|
  {
    if left == [] {
      assert left + right == right;
    } else {
      assert (left + right)[1..] == left[1..] + right;
      LogsOfBoth(left[1..], right);
    }
  }

  lemma BothOf<Log>(left: seq<Chunk<Log>>, right: seq<Chunk<Log>>, g: (int, int) -> seq<Log>)
    requires AreOf(left, g) && AreOf(right, g)
    ensures AreOf(left + right, g)
  {
  }

  lemma BothUnder<Log>(limit: nat, end: Ending, left: seq<Chunk<Log>>, right: seq<Chunk<Log>>, f: int, mid: int, t: int)
    requires t - f + 1 > limit && Under(limit, Done, left, f, mid) && Under(limit, end, right, mid + 1, t)
    ensures Under(limit, end, left + right, f, t)
  {
  }

  lemma PrefixOfLonger<Log>(news: seq<Chunk<Log>>, f: int, mid: int, t: int)
    requires TilesPrefix(news, f, mid) && f <= mid < t
    ensures TilesPrefix(news, f, t) && !Tiles(news, f, t)
  {
    var end :| f - 1 <= end <= mid && Tiles(news, f, end);
    if Tiles(news, f, t) { TilesEndsOnce(news, f, end, t); }
  }

  lemma {:induction false} TilesEndsOnce<Log>(a: seq<Chunk<Log>>, f: int, x: int, y: int)
    requires Tiles(a, f, x) && Tiles(a, f, y)
    ensures x == y
  {
    if a != [] { TilesEndsOnce(a[1..], a[0].to + 1, x, y); }
  }

  /** The left half read whole, then whatever the right half came to. */
  lemma TilesConcatPrefix<Log>(left: seq<Chunk<Log>>, right: seq<Chunk<Log>>, f: int, mid: int, t: int)
    requires f <= mid < t && Tiles(left, f, mid)
    requires Tiles(right, mid + 1, t) || (TilesPrefix(right, mid + 1, t) && !Tiles(right, mid + 1, t))
    ensures Tiles(right, mid + 1, t) ==> Tiles(left + right, f, t)
    ensures !Tiles(right, mid + 1, t) ==> TilesPrefix(left + right, f, t) && !Tiles(left + right, f, t)
    ensures AllLogs(left + right) == AllLogs(left) + AllLogs(right)
  {
    if Tiles(right, mid + 1, t) {
      TilesConcat(left, right, f, mid, t);
    } else {
      var end :| mid <= end <= t && Tiles(right, mid + 1, end);
      TilesConcat(left, right, f, mid, end);
      if Tiles(left + right, f, t) { TilesEndsOnce(left + right, f, end, t); }
    }
  }

  /** Chunks of the two halves of a range are none of them larger than the larger half. */
  lemma HalvesShrink<Log>(left: seq<Chunk<Log>>, right: seq<Chunk<Log>>, f: int, mid: int, t: int)
    requires f < t && mid == (f + t) / 2
    requires Tiles(left, f, mid) && TilesPrefix(right, mid + 1, t)
    ensures forall c :: c in left + right ==> 1 <= c.Size() <= Half(t - f + 1) && c.Size() < t - f + 1
  {
    TilesBounds(left, f, mid);
    var end :| mid <= end <= t && Tiles(right, mid + 1, end);
    TilesBounds(right, mid + 1, end);
  }
}
