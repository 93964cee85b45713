/**
 The upstream event of a completed request: one event, recorded after the fact,
 that stands for all tries and starts their total time before the request's end.
 Times are 64-bit; all arithmetic that could overflow is written out.
 */
module NginxUpstream {
  import opened Text
  import opened NginxStrings

  const TWO_63 := 0x8000_0000_0000_0000
  const TWO_64 := 0x1_0000_0000_0000_0000

  /** ngx_msec_t: unsigned, 64 bits. */
  type Msec = x: int | 0 <= x < 0x1_0000_0000_0000_0000

  /** (ngx_msec_t) -1: the try never got a response timed. */
  const UNTIMED: Msec := 0xFFFF_FFFF_FFFF_FFFF

  /** The int64_t that a two's-complement result of `x` is stored as. */
  function Int64(x: int): (r: int)
    ensures -TWO_63 <= r < TWO_63
    ensures -TWO_63 <= x < TWO_63 ==> r == x
  {
    (x + TWO_63) % TWO_64 - TWO_63
  }

  /** Storing the operands of a sum first makes no difference. */
  lemma Int64Sum(x: int, y: int)
    ensures Int64(Int64(x) + Int64(y)) == Int64(x + y)
    ensures Int64(x - Int64(y)) == Int64(x - y) == Int64(Int64(x) - y)
  {
    var j, k := (x + TWO_63) / TWO_64, (y + TWO_63) / TWO_64;
    assert Int64(x) == x - j * TWO_64 && Int64(y) == y - k * TWO_64;
    Int64Periodic(x + y, -(j + k));
    Int64Periodic(x - y, k);
    Int64Periodic(x - y, -j);
  }

  lemma Int64Periodic(x: int, n: int)
    ensures Int64(x + n * TWO_64) == Int64(x)
  {
    var q, r := (x + TWO_63) / TWO_64, (x + TWO_63) % TWO_64;
    assert x + n * TWO_64 + TWO_63 == (q + n) * TWO_64 + r;
  }

  /** One try, as nginx keeps it in `upstream_states`. */
  datatype Try = Try(responseTime: Msec, peer: Option<string>, status: nat)

  datatype Event = Event(startMs: int, endPoint: Option<string>, url: string, status: Option<nat>)

  /** The timed tries' total. */
  function TimedTotal(tries: seq<Try>): nat {
    if tries == [] then 0
    else
      var t := tries[|tries| - 1].responseTime;
      TimedTotal(tries[..|tries| - 1]) + if t == UNTIMED then 0 else t
  }

  function EventStart(tries: seq<Try>, endMs: int): int {
    Int64(endMs - TimedTotal(tries))
  }

  /** The one event for all tries: the folded start, and the peer and status of the last. */
  function UpstreamEvent(tries: seq<Try>, uri: string, endMs: int): Option<Event> {
    if tries == [] then None
    else
      var last := tries[|tries| - 1];
      Some(Event(EventStart(tries, endMs),
                 match last.peer case Some(peer) => Some(Truncated(peer, 256)) case None => None,
                 Truncated(uri, 1024),
                 if last.status == 0 then None else Some(last.status)))
  }

  /** The stored total after one more try. */
  lemma StoreTry(tries: seq<Try>, i: nat)
    requires i < |tries|
    ensures var t := tries[i].responseTime;
            Int64(TimedTotal(tries[..i + 1]))
            == if t == UNTIMED then Int64(TimedTotal(tries[..i])) else Int64(Int64(TimedTotal(tries[..i])) + Int64(t))
  {
    assert tries[..i + 1][..i] == tries[..i];
    Int64Sum(TimedTotal(tries[..i]), tries[i].responseTime);
  }

  lemma StartFromStored(tries: seq<Try>, endMs: int)
    ensures Int64(endMs - Int64(TimedTotal(tries))) == EventStart(tries, endMs)
  {
    Int64Sum(endMs, TimedTotal(tries));
  }

  method RecordUpstream(tries: seq<Try>, uri: string, endMs: int) returns (event: Option<Event>)
    ensures event == UpstreamEvent(tries, uri, endMs)
  {
    if |tries| == 0 {
      return None;
    }
    var last := tries[|tries| - 1];
    var total := 0;
    for i := 0 to |tries|
      invariant total == Int64(TimedTotal(tries[..i]))
    {
      StoreTry(tries, i);
      if tries[i].responseTime != UNTIMED {
        total := Int64(total + Int64(tries[i].responseTime));
      }
    }
    assert tries[..|tries|] == tries;
    StartFromStored(tries, endMs);
    var start := Int64(endMs - total);
    var endPoint := None;
    if last.peer.Some? {
      var peer := StackString(last.peer.value, 256);
      endPoint := Some(peer);
    }
    var url := StackString(uri, 1024);
    event := Some(Event(start, endPoint, url, if last.status == 0 then None else Some(last.status)));
  }

  /** What a recorded text may be: the whole of a short one, the front of a long one, without NULs. */
  predicate IsCopy(text: string, src: string, size: nat)
    requires size > 0
  {
    && text <= src && |text| < size && NUL !in text
    && (NUL !in src ==> |text| == if |src| < size then |src| else size - 1)
  }

  /** The event reports the peer and the status of the last try, whatever the ones before it were. */
  lemma EventIsOfTheLastTry(tries: seq<Try>, t: Try, uri: string, endMs: int)
    ensures var event := UpstreamEvent(tries + [t], uri, endMs);
            && event.Some?
            && event.value.status == (if t.status == 0 then None else Some(t.status))
            && (event.value.endPoint.Some? <==> t.peer.Some?)
            && (t.peer.Some? ==> IsCopy(event.value.endPoint.value, t.peer.value, 256))
            && IsCopy(event.value.url, uri, 1024)
    ensures UpstreamEvent([], uri, endMs) == None
  {
    TruncatedIs(uri, 1024);
    if t.peer.Some? {
      TruncatedIs(t.peer.value, 256);
    }
  }

  /** Without tries the event would start at the end, and each timed try moves it back by its time. */
  lemma EachTryMovesTheStart(tries: seq<Try>, t: Try, end: int)
    ensures FitsInt64(end) ==> EventStart([], end) == end
    ensures EventStart(tries + [t], end)
            == Int64(EventStart(tries, end) - if t.responseTime == UNTIMED then 0 else t.responseTime)
  {
    var time := if t.responseTime == UNTIMED then 0 else t.responseTime;
    assert (tries + [t])[..|tries|] == tries;
    Int64Sum(end - TimedTotal(tries), time);
  }

  // ------------------------------------------------------------------
  // Where the event starts
  // ------------------------------------------------------------------

  /** Tries in order and without overlap between `start` and `end`; the timed ones took what they were timed at. */
  ghost predicate Sequential(tries: seq<Try>, begun: seq<int>, over: seq<int>, start: int, end: int) {
    && |begun| == |over| == |tries|
    && start <= end
    && (forall i | 0 <= i < |tries| :: start <= begun[i] <= over[i] <= end)
    && (forall i, j | 0 <= i < j < |tries| :: over[i] <= begun[j])
    && (forall i | 0 <= i < |tries| && tries[i].responseTime != UNTIMED :: tries[i].responseTime == over[i] - begun[i])
  }

  lemma {:induction false} SequentialTotal(tries: seq<Try>, begun: seq<int>, over: seq<int>, start: int, end: int)
    requires Sequential(tries, begun, over, start, end)
    ensures TimedTotal(tries) <= end - start
  {
    if tries != [] {
      var n := |tries| - 1;
      SequentialTotal(tries[..n], begun[..n], over[..n], start, begun[n]);
    }
  }

  lemma {:induction false} PrefixTotal(tries: seq<Try>, i: nat)
    requires i <= |tries|
    ensures TimedTotal(tries[..i]) <= TimedTotal(tries)
    decreases |tries| - i
  {
    if i < |tries| {
      assert tries[..i + 1][..i] == tries[..i];
      PrefixTotal(tries, i + 1);
    } else {
      assert tries[..i] == tries;
    }
  }

  predicate FitsInt64(x: int) {
    -TWO_63 <= x < TWO_63
  }

  /** No step overflows: not the sum, after any number of tries, and not the subtraction. */
  ghost predicate NoOverflow(tries: seq<Try>, end: int) {
    && (forall i | 0 <= i <= |tries| :: FitsInt64(TimedTotal(tries[..i])))
    && FitsInt64(end - TimedTotal(tries))
  }

  /** That can be told from the total alone. */
  lemma NoOverflowIff(tries: seq<Try>, end: int)
    requires FitsInt64(end)
    ensures NoOverflow(tries, end) <==> TimedTotal(tries) < TWO_63 && -TWO_63 <= end - TimedTotal(tries)
  {
    assert tries[..|tries|] == tries;
    forall i | 0 <= i <= |tries| ensures TimedTotal(tries[..i]) <= TimedTotal(tries) {
      PrefixTotal(tries, i);
    }
  }

  /**
   For any number of sequential tries inside the request, timed or not, the event
   starts between the start of the span and its end; and nothing overflows in a
   request that is shorter than 2^63 ms, as it is if it starts at 0 or later.
   */
  lemma EventStartsWithinSpan(tries: seq<Try>, begun: seq<int>, over: seq<int>, start: int, end: int)
    requires Sequential(tries, begun, over, start, end)
    requires -TWO_63 <= start && end < TWO_63
    ensures start <= EventStart(tries, end) <= end
    ensures EventStart(tries, end) == end - TimedTotal(tries)
    ensures 0 <= start || end - start < TWO_63 ==> NoOverflow(tries, end)
  {
    SequentialTotal(tries, begun, over, start, end);
    NoOverflowIff(tries, end);
  }

  /** The length matters: one try that fills a request of almost 2^64 ms overflows both operations. */
  lemma LongestRequestOverflows()
    ensures var tries, start, end := [Try(UNTIMED - 1, None, 200)], -TWO_63, TWO_63 - 1;
            && Sequential(tries, [start], [start + UNTIMED - 1], start, end)
            && !FitsInt64(TimedTotal(tries)) && !FitsInt64(end - Int64(TimedTotal(tries)))
  {
    var tries := [Try(UNTIMED - 1, None, 200)];
    assert TimedTotal(tries[..0]) == 0;
    assert TimedTotal(tries) == UNTIMED - 1;
  }

  /**
   Without knowing when the tries ran, and even if the total wraps around, the
   event starts inside the span exactly when the total, modulo 2^64, fits into it.
   */
  lemma EventStartsWithinSpanIff(tries: seq<Try>, start: int, end: int)
    requires -TWO_63 <= start <= end < TWO_63
    ensures start <= EventStart(tries, end) <= end <==> TimedTotal(tries) % TWO_64 <= end - start
  {
    WrappedStartIff(start, end, TimedTotal(tries));
  }

  /** Where nothing overflows, it does so exactly when the total itself fits. */
  lemma TotalFitsIff(tries: seq<Try>, start: int, end: int)
    requires -TWO_63 <= start <= end < TWO_63 && NoOverflow(tries, end)
    ensures start <= EventStart(tries, end) <= end <==> TimedTotal(tries) <= end - start
  {
    NoOverflowIff(tries, end);
  }

  lemma WrappedStartIff(start: int, end: int, total: nat)
    requires -TWO_63 <= start <= end < TWO_63
    ensures start <= Int64(end - total) <= end <==> total % TWO_64 <= end - start
  {
    StartModulo(end, total);
    WrappedStart(end, total % TWO_64);
  }

  /** Only the total modulo 2^64 matters. */
  lemma StartModulo(end: int, total: nat)
    ensures Int64(end - total) == Int64(end - total % TWO_64)
  {
    Int64Periodic(end - total % TWO_64, -(total / TWO_64));
    assert total == total % TWO_64 + total / TWO_64 * TWO_64;
  }

  /** A start that would be too early for 64 bits wraps around to one behind the end. */
  lemma WrappedStart(end: int, total: int)
    requires FitsInt64(end) && 0 <= total < TWO_64
    ensures Int64(end - total) == if -TWO_63 <= end - total then end - total else end - total + TWO_64
  {
    if end - total < -TWO_63 {
      Int64Periodic(end - total + TWO_64, -1);
    }
  }

  /** A further try never moves the event later; it stays put only for an untimed or immediate try. */
  lemma MoreTriesStartEarlier(tries: seq<Try>, more: Try, end: int)
    requires end < TWO_63 && -TWO_63 <= end - TimedTotal(tries + [more])
    ensures EventStart(tries + [more], end) <= EventStart(tries, end)
    ensures EventStart(tries + [more], end) == EventStart(tries, end)
            <==> more.responseTime == UNTIMED || more.responseTime == 0
  {
    assert (tries + [more])[..|tries|] == tries;
  }

  /**
   Order matters: two tries that both ran through most of the request would put
   the event before the start of its span.
   */
  lemma OverlappingTriesStartTooEarly(t: Msec, start: int, end: int)
    requires 0 <= start <= end < TWO_63 && t <= end - start < 2 * t
    ensures EventStart([Try(t, None, 200), Try(t, None, 200)], end) < start
  {
    var tries := [Try(t, None, 200), Try(t, None, 200)];
    assert tries[..1] == [tries[0]];
    assert TimedTotal([]) == 0;
    assert TimedTotal([tries[0]]) == t;
    assert TimedTotal(tries) == 2 * t;
  }

  // ------------------------------------------------------------------
  // Wall-clock times
  // ------------------------------------------------------------------

  /** Seconds and milliseconds as one number of milliseconds. */
  function ToMs(sec: int, msec: int): int {
    Int64(Int64(sec * 1000) + msec)
  }

  /** The last second whose milliseconds all fit. */
  const LAST_SECOND := 9_223_372_036_854_774

  /** The conversion does not overflow, and keeps the order of time. */
  lemma ToMsIsMonotonic(sec: int, msec: int, sec': int, msec': int)
    requires IsWallClock(sec, msec) && IsWallClock(sec', msec')
    ensures ToMs(sec, msec) == Ms(sec, msec)
    ensures ToMs(sec, msec) < ToMs(sec', msec') <==> sec < sec' || (sec == sec' && msec < msec')
  {
  }

  /** A time of day as nginx keeps it. */
  predicate IsWallClock(sec: int, msec: int) {
    0 <= sec <= LAST_SECOND && 0 <= msec < 1000
  }

  function Ms(sec: int, msec: int): int {
    sec * 1000 + msec
  }

  /**
   From the clock readings of a request and its sequential tries: the event starts
   between the converted start and the converted end, and nothing overflows on the way.
   */
  lemma WallClockEventInSpan(tries: seq<Try>, begun: seq<int>, over: seq<int>, sec: int, msec: int, sec': int, msec': int)
    requires IsWallClock(sec, msec) && IsWallClock(sec', msec')
    requires Sequential(tries, begun, over, Ms(sec, msec), Ms(sec', msec'))
    ensures ToMs(sec, msec) == Ms(sec, msec) && ToMs(sec', msec') == Ms(sec', msec')
    ensures ToMs(sec, msec) <= EventStart(tries, ToMs(sec', msec')) <= ToMs(sec', msec')
    ensures NoOverflow(tries, ToMs(sec', msec'))
  {
    ToMsIsMonotonic(sec, msec, sec', msec');
    EventStartsWithinSpan(tries, begun, over, Ms(sec, msec), Ms(sec', msec'));
  }
}
