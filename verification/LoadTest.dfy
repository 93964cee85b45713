/**
 The drivers' load loop: requests at random gaps until the duration is over or
 Ctrl-C comes, against an abstract clock in milliseconds.
 */
module LoadTest {
  import opened Text

  const MIN_MS: nat := 50
  const MAX_MS: nat := 500

  /** What the environment does in one turn of the loop. */
  datatype Turn = Turn(
    urlRandom: nat,
    curlMs: nat,
    curlOk: bool,
    /** Ctrl-C before the request is judged. */
    interruptedCurl: bool,
    gapRandom: nat,
    sleptMs: nat,
    /** Ctrl-C after that, before the loop's next check. */
    interruptedSleep: bool)

  function Gap(random: nat): (gap: nat)
    ensures MIN_MS <= gap <= MAX_MS
  {
    random % (MAX_MS - MIN_MS + 1) + MIN_MS
  }

  /** Sleeps last at least as long as requested, unless they are interrupted. */
  ghost predicate SleepsInFull(env: nat -> Turn) {
    forall i: nat :: env(i).sleptMs >= Gap(env(i).gapRandom) || env(i).interruptedSleep
  }

  function Interrupts(t: Turn): bool {
    t.interruptedCurl || t.interruptedSleep
  }

  /** Bash's SECONDS counts the seconds of the clock. */
  function Seconds(ms: nat): nat {
    ms / 1000
  }

  // ------------------------------------------------------------------
  // The gap as text
  // ------------------------------------------------------------------

  /** printf '%03d'. */
  function ThreeDigits(n: nat): (r: string)
    requires n < 1000
    ensures |r| == 3 && IsNumeral(r)
  {
    [Digit(n / 100), Digit(n / 10 % 10), Digit(n % 10)]
  }

  /** printf '%d.%03d', as the argument of sleep. */
  function SleepText(ms: nat): string {
    Decimal(ms / 1000) + "." + ThreeDigits(ms % 1000)
  }

  /** Seconds with three decimals, in milliseconds. */
  function SleepTextValue(text: string): Option<nat> {
    match Find(text, ".", 0)
    case None => None
    case Some(dot) =>
      var whole, fraction := text[..dot], text[dot + 1..];
      if IsNumeral(whole) && IsNumeral(fraction) && |fraction| == 3
      then Some(1000 * NumeralValue(whole) + NumeralValue(fraction)) else None
  }

  lemma NumeralAppend(s: string, d: nat)
    requires d <= 9 && forall i | 0 <= i < |s| :: IsDigit(s[i])
    ensures NumeralValue(s + [Digit(d)]) == 10 * NumeralValue(s) + d
  {
    assert (s + [Digit(d)])[..|s|] == s;
  }

  lemma DecimalPlaces(n: nat)
    ensures 10 * (10 * (n / 100) + n / 10 % 10) + n % 10 == n
  {
    assert n / 100 == n / 10 / 10;
  }

  lemma ThreeDigitsValue(n: nat)
    requires n < 1000
    ensures NumeralValue(ThreeDigits(n)) == n
  {
    var a, b, c := n / 100, n / 10 % 10, n % 10;
    NumeralAppend("", a);
    NumeralAppend("" + [Digit(a)], b);
    NumeralAppend("" + [Digit(a)] + [Digit(b)], c);
    assert ThreeDigits(n) == "" + [Digit(a)] + [Digit(b)] + [Digit(c)];
    DecimalPlaces(n);
  }

  /** The text of a gap denotes exactly the gap, however long. */
  lemma SleepTextRoundTrip(ms: nat)
    ensures SleepTextValue(SleepText(ms)) == Some(ms)
  {
    var whole, fraction := Decimal(ms / 1000), ThreeDigits(ms % 1000);
    var text := SleepText(ms);
    assert text[0..|whole|] == whole;
    FindCharAt(text, '.', 0, |whole|);
    assert text[..|whole|] == whole && text[|whole| + 1..] == fraction;
    DecimalRoundTrip(ms / 1000);
    ThreeDigitsValue(ms % 1000);
  }

  // ------------------------------------------------------------------
  // How many turns there are
  // ------------------------------------------------------------------

  /** The turns taken from turn `i` on, at time `now`, if the loop stops at time `stop`. */
  function Turns(stop: int, now: nat, interrupted: bool, i: nat, env: nat -> Turn): nat
    requires SleepsInFull(env)
    decreases if interrupted then 0 else 1, stop - now
  {
    if interrupted || now >= stop then 0
    else 1 + Turns(stop, now + env(i).curlMs + env(i).sleptMs, Interrupts(env(i)), i + 1, env)
  }

  /** Each turn takes 50 ms or more, so there is room for few of them. */
  lemma {:induction false} TurnsFitTheTime(stop: int, now: nat, interrupted: bool, i: nat, env: nat -> Turn)
    requires SleepsInFull(env)
    ensures now < stop ==> MIN_MS * Turns(stop, now, interrupted, i, env) < stop - now + MIN_MS
    ensures now >= stop ==> Turns(stop, now, interrupted, i, env) == 0
    decreases if interrupted then 0 else 1, stop - now
  {
    if !interrupted && now < stop {
      TurnsFitTheTime(stop, now + env(i).curlMs + env(i).sleptMs, Interrupts(env(i)), i + 1, env);
    }
  }

  /** The time at which the loop's condition turns false. */
  function StopTime(start: nat, duration: nat): nat {
    1000 * (Seconds(start) + duration)
  }

  /** A run of `duration` seconds makes at most 20 requests per second. */
  lemma TurnsAreBounded(start: nat, duration: nat, interrupted: bool, env: nat -> Turn)
    requires SleepsInFull(env)
    ensures Turns(StopTime(start, duration), start, interrupted, 0, env) <= 20 * duration
  {
    TurnsFitTheTime(StopTime(start, duration), start, interrupted, 0, env);
  }

  const FASTEST := Turn(0, 0, true, false, 0, MIN_MS, false)

  lemma {:induction false} FastestTurns(now: nat, turns: nat, i: nat)
    ensures Turns(now + MIN_MS * turns, now, false, i, _ => FASTEST) == turns
    decreases turns
  {
    if turns > 0 {
      FastestTurns(now + MIN_MS, turns - 1, i + 1);
      assert now + MIN_MS * turns == now + MIN_MS + MIN_MS * (turns - 1);
    }
  }

  /** The bound is met: from a full second, with instant requests and shortest gaps. */
  lemma BoundIsMet(second: nat, duration: nat)
    ensures Turns(StopTime(1000 * second, duration), 1000 * second, false, 0, _ => FASTEST) == 20 * duration
  {
    FastestTurns(1000 * second, 20 * duration, 0);
    assert StopTime(1000 * second, duration) == 1000 * second + MIN_MS * (20 * duration);
  }

  // ------------------------------------------------------------------
  // The loop
  // ------------------------------------------------------------------

  /** One request, and the gap slept behind it; `sleep` gets the gap as `SleepText`. */
  datatype Request = Request(url: string, gapMs: nat)

  /** The requests made, and the counts reported. */
  datatype Report = Report(requests: seq<Request>, ok: nat, fail: nat, interrupted: bool)

  /** A turn that counts as neither: a request that Ctrl-C made fail. */
  predicate Uncounted(t: Turn) {
    !t.curlOk && t.interruptedCurl
  }

  /** The successes among the first `n` turns. */
  function Successes(env: nat -> Turn, n: nat): nat {
    if n == 0 then 0 else Successes(env, n - 1) + if env(n - 1).curlOk then 1 else 0
  }

  /** Every request is counted, save a last one that Ctrl-C made fail. */
  ghost predicate Counted(env: nat -> Turn, turns: nat, ok: nat, fail: nat) {
    && ok == Successes(env, turns)
    && ok + fail == turns - (if turns > 0 && Uncounted(env(turns - 1)) then 1 else 0)
  }

  /** "${urls[RANDOM % ${#urls[@]}]}". */
  function Pick(urls: seq<string>, random: nat): string
    requires urls != []
  {
    urls[random % |urls|]
  }

  /** The requests of the first `n` turns, each with the sleep behind it. */
  function Requests(urls: seq<string>, env: nat -> Turn, n: nat): seq<Request>
    requires n > 0 ==> urls != []
  {
    if n == 0 then []
    else
      var t := env(n - 1);
      Requests(urls, env, n - 1) + [Request(Pick(urls, t.urlRandom), Gap(t.gapRandom))]
  }

  /**
   Turn by turn, the request goes to the URL the turn's first random number picks,
   all of them alike, and the gap slept for is the second one's, between 50 and 500 ms.
   */
  lemma {:induction false} RequestsAreInRange(urls: seq<string>, env: nat -> Turn, n: nat)
    requires n > 0 ==> urls != []
    ensures |Requests(urls, env, n)| == n
    ensures forall i | 0 <= i < n ::
              && Requests(urls, env, n)[i].url == urls[env(i).urlRandom % |urls|]
              && Requests(urls, env, n)[i].gapMs == env(i).gapRandom % 451 + 50
              && 50 <= Requests(urls, env, n)[i].gapMs <= 500
  {
    if n > 0 {
      RequestsAreInRange(urls, env, n - 1);
    }
  }

  /** The successes are exactly the turns whose request went well. */
  lemma {:induction false} SuccessesAre(env: nat -> Turn, n: nat)
    ensures Successes(env, n) == |set i: nat | i < n && env(i).curlOk|
  {
    if n > 0 {
      SuccessesAre(env, n - 1);
      var before := set i: nat | i < n - 1 && env(i).curlOk;
      var all := set i: nat | i < n && env(i).curlOk;
      if env(n - 1).curlOk {
        assert all == before + {n - 1} && n - 1 !in before;
      } else {
        assert all == before;
      }
    }
  }

  /** Whether Ctrl-C has come by the end of turn `turns`. */
  predicate InterruptedBy(env: nat -> Turn, turns: nat, atStart: bool) {
    if turns == 0 then atStart else Interrupts(env(turns - 1))
  }

  /** When turn `i` begins. */
  function TurnStart(start: nat, env: nat -> Turn, i: nat): nat {
    if i == 0 then start else TurnStart(start, env, i - 1) + env(i - 1).curlMs + env(i - 1).sleptMs
  }

  /** Turn `k` begins before the time is over and before Ctrl-C has come. */
  predicate Begins(stop: int, start: nat, atStart: bool, env: nat -> Turn, k: nat) {
    TurnStart(start, env, k) < stop && !InterruptedBy(env, k, atStart)
  }

  function TurnsFrom(stop: int, start: nat, atStart: bool, env: nat -> Turn, i: nat): nat
    requires SleepsInFull(env)
  {
    Turns(stop, TurnStart(start, env, i), InterruptedBy(env, i, atStart), i, env)
  }

  lemma TurnsFromStep(stop: int, start: nat, atStart: bool, env: nat -> Turn, i: nat)
    requires SleepsInFull(env)
    ensures TurnsFrom(stop, start, atStart, env, i)
            == if Begins(stop, start, atStart, env, i) then 1 + TurnsFrom(stop, start, atStart, env, i + 1) else 0
  {
    if Begins(stop, start, atStart, env, i) {
      TakeTurn(stop, TurnStart(start, env, i), i, env);
    }
  }

  /**
   The loop goes on exactly as long as its time is not over and Ctrl-C has not come:
   every turn that is taken may begin, and the one behind the last may not.
   */
  lemma {:induction false} TurnsStopInTime(stop: int, start: nat, atStart: bool, env: nat -> Turn, i: nat)
    requires SleepsInFull(env)
    ensures forall k | i <= k < i + TurnsFrom(stop, start, atStart, env, i) :: Begins(stop, start, atStart, env, k)
    ensures !Begins(stop, start, atStart, env, i + TurnsFrom(stop, start, atStart, env, i))
    decreases TurnsFrom(stop, start, atStart, env, i)
  {
    TurnsFromStep(stop, start, atStart, env, i);
    if Begins(stop, start, atStart, env, i) {
      TurnsStopInTime(stop, start, atStart, env, i + 1);
    }
  }

  /** The loop's condition on the clock is that the stop time is not reached. */
  lemma TimeIsLeft(now: nat, start: nat, duration: nat)
    ensures Seconds(now) - Seconds(start) < duration <==> now < StopTime(start, duration)
  {
  }

  lemma TakeTurn(stop: int, now: nat, i: nat, env: nat -> Turn)
    requires SleepsInFull(env) && now < stop
    ensures Turns(stop, now, false, i, env)
            == 1 + Turns(stop, now + env(i).curlMs + env(i).sleptMs, Interrupts(env(i)), i + 1, env)
    ensures Interrupts(env(i)) || now + env(i).curlMs + env(i).sleptMs > now
  {
  }

  /** The variables of the loop after `turn` turns, those still to come included. */
  ghost predicate Progress(stop: int, start: nat, atStart: bool, urls: seq<string>, env: nat -> Turn,
                           turn: nat, now: nat, interrupted: bool, ok: nat, fail: nat, requests: seq<Request>)
    requires SleepsInFull(env)
  {
    && turn + Turns(stop, now, interrupted, turn, env) == Turns(stop, start, atStart, 0, env)
    && Counted(env, turn, ok, fail)
    && interrupted == InterruptedBy(env, turn, atStart)
    && (turn > 0 ==> urls != []) && requests == Requests(urls, env, turn)
  }

  lemma OneTurn(stop: int, start: nat, atStart: bool, urls: seq<string>, env: nat -> Turn,
                turn: nat, now: nat, ok: nat, fail: nat, requests: seq<Request>)
    requires SleepsInFull(env) && now < stop && urls != []
    requires Progress(stop, start, atStart, urls, env, turn, now, false, ok, fail, requests)
    ensures var t := env(turn);
            Progress(stop, start, atStart, urls, env, turn + 1, now + t.curlMs + t.sleptMs, Interrupts(t),
                     if t.curlOk then ok + 1 else ok,
                     if t.curlOk || t.interruptedCurl then fail else fail + 1,
                     requests + [Request(Pick(urls, t.urlRandom), Gap(t.gapRandom))])
  {
    TakeTurn(stop, now, turn, env);
  }

  /** What is reported once the loop is over. */
  ghost predicate IsReport(report: Report, turns: nat, urls: seq<string>, env: nat -> Turn) {
    && Counted(env, turns, report.ok, report.fail)
    && (report.ok + report.fail < turns ==> report.interrupted)
    && (turns > 0 ==> urls != []) && report.requests == Requests(urls, env, turns)
  }

  lemma LoopIsOver(stop: int, start: nat, atStart: bool, urls: seq<string>, env: nat -> Turn,
                   turn: nat, now: nat, interrupted: bool, ok: nat, fail: nat, requests: seq<Request>)
    requires SleepsInFull(env) && (interrupted || now >= stop)
    requires Progress(stop, start, atStart, urls, env, turn, now, interrupted, ok, fail, requests)
    ensures turn == Turns(stop, start, atStart, 0, env)
    ensures IsReport(Report(requests, ok, fail, interrupted), turn, urls, env)
  {
  }

  /**
   The loop makes as many requests as there are turns. All of them are counted,
   except that the last one is not if it was Ctrl-C that made it fail. Without
   URLs, the first turn ends the script with a division by zero.
   */
  method Run(duration: nat, urls: seq<string>, start: nat, interruptedAtStart: bool, env: nat -> Turn) returns (r: Option<Report>)
    requires SleepsInFull(env)
    ensures r == None <==> duration > 0 && urls == [] && !interruptedAtStart
    ensures r.Some? ==>
              var turns := if duration == 0 then 0
                           else Turns(StopTime(start, duration), start, interruptedAtStart, 0, env);
              turns <= 20 * duration && IsReport(r.value, turns, urls, env)
  {
    if duration == 0 {
      return Some(Report([], 0, 0, false));
    }
    TurnsAreBounded(start, duration, interruptedAtStart, env);
    var now: nat := start;
    var ok, fail, interrupted := 0, 0, interruptedAtStart;
    var requests: seq<Request> := [];
    var turn := 0;
    ghost var stop := StopTime(start, duration);
    TimeIsLeft(now, start, duration);
    while Seconds(now) - Seconds(start) < duration && !interrupted
      invariant Seconds(now) - Seconds(start) < duration <==> now < stop
      invariant Progress(stop, start, interruptedAtStart, urls, env, turn, now, interrupted, ok, fail, requests)
      decreases if interrupted then 0 else 1, stop - now
    {
      if |urls| == 0 {
        return None;
      }
      OneTurn(stop, start, interruptedAtStart, urls, env, turn, now, ok, fail, requests);
      TakeTurn(stop, now, turn, env);
      var t := env(turn);
      var url := Pick(urls, t.urlRandom);
      interrupted := t.interruptedCurl;
      if t.curlOk {
        ok := ok + 1;
      } else if !interrupted {
        fail := fail + 1;
      }
      var gapMs := Gap(t.gapRandom);
      now := now + t.curlMs + t.sleptMs;
      interrupted := interrupted || t.interruptedSleep;
      requests := requests + [Request(url, gapMs)];
      turn := turn + 1;
      TimeIsLeft(now, start, duration);
    }
    LoopIsOver(stop, start, interruptedAtStart, urls, env, turn, now, interrupted, ok, fail, requests);
    r := Some(Report(requests, ok, fail, interrupted));
  }
}
