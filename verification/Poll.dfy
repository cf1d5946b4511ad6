/**
 The registration poll: how often it asks, how long it waits, and that it ends by the expiry.
 Times are nanoseconds.
 */
module Poll {
  import opened Common

  const SECOND := 1_000_000_000
  const MIN_DELAY := 5 * SECOND
  const MAX_DELAY := 30 * SECOND

  datatype Outcome = Approved | Expired | Refused | Interrupted | Invalid

  /** One requested wait: when, how long, and whether an error (rather than "pending") led to it. */
  datatype Wait = Wait(at: int, length: int, error: bool)

  function InitialDelay(interval: int): int
  {
    var delay := interval * SECOND;
    if delay < MIN_DELAY then MIN_DELAY else if delay > MAX_DELAY then MAX_DELAY else delay
  }

  function Doubled(delay: int): int
  {
    if delay >= MAX_DELAY then delay else if delay * 2 > MAX_DELAY then MAX_DELAY else delay * 2
  }

  /** The delay after a history of waits: errors double it, pending answers keep it. */
  function DelayAfter(interval: int, waits: seq<Wait>): int
  {
    if waits == [] then InitialDelay(interval)
    else
      var before := DelayAfter(interval, waits[..|waits| - 1]);
      if waits[|waits| - 1].error then Doubled(before) else before
  }

  function Errors(waits: seq<Wait>): nat
  {
    if waits == [] then 0
    else Errors(waits[..|waits| - 1]) + if waits[|waits| - 1].error then 1 else 0
  }

  lemma {:induction false} DelayBounds(interval: int, waits: seq<Wait>)
    ensures MIN_DELAY <= DelayAfter(interval, waits) <= MAX_DELAY
  {
    if waits != [] {
      DelayBounds(interval, waits[..|waits| - 1]);
    }
  }

  function Power(n: nat): nat
  {
    if n == 0 then 1 else 2 * Power(n - 1)
  }

  /** The delay in closed form: the interval the controller asked for, kept within 5 and 30 seconds, doubled once
      for every error so far, and never more than 30 seconds. */
  lemma {:induction false} DelayExactly(interval: int, waits: seq<Wait>)
    ensures var first := if interval < 5 then 5 * SECOND else if interval > 30 then 30 * SECOND else interval * SECOND;
            var grown := first * Power(Errors(waits));
            DelayAfter(interval, waits) == if grown > 30 * SECOND then 30 * SECOND else grown
  {
    if waits != [] {
      var before := waits[..|waits| - 1];
      DelayExactly(interval, before);
      DelayBounds(interval, before);
      var first := if interval < 5 then 5 * SECOND else if interval > 30 then 30 * SECOND else interval * SECOND;
      var p := Power(Errors(before));
      assert Power(Errors(before) + 1) == 2 * p;
      assert first * (2 * p) == 2 * (first * p);
    }
  }

  /** Back-off saturates: three errors, wherever they come, bring the longest delay. */
  lemma {:induction false} ThreeErrorsSaturate(interval: int, waits: seq<Wait>)
    ensures Errors(waits) >= 1 ==> DelayAfter(interval, waits) >= 2 * MIN_DELAY
    ensures Errors(waits) >= 2 ==> DelayAfter(interval, waits) >= 4 * MIN_DELAY
    ensures Errors(waits) >= 3 ==> DelayAfter(interval, waits) == MAX_DELAY
  {
    if waits != [] {
      var before := waits[..|waits| - 1];
      DelayBounds(interval, before);
      ThreeErrorsSaturate(interval, before);
    }
  }

  /** pollDelay: never past the expiry. */
  function PollDelay(now: int, expires: int, delay: int): int
  {
    if expires <= now then 0 else if delay > expires - now then expires - now else delay
  }

  function Ceiling(span: int): int
  {
    if span <= 0 then 0 else (span + MIN_DELAY - 1) / MIN_DELAY
  }

  class Clock {
    var now: int

    /** Reading the clock; time may have passed. */
    method Read() returns (t: int)
      modifies this
      ensures old(now) <= now == t
    {
      t := *;
      t := if t < now then now else t;
      now := t;
    }

    /** A wait that succeeds lasts at least as long as asked. */
    method Sleep(length: int) returns (ok: bool)
      requires 0 <= length
      modifies this
      ensures old(now) <= now && (ok ==> old(now) + length <= now)
    {
      ok := *;
      var end: int := *;
      var least := if ok then now + length else now;
      now := if end < least then least else end;
    }
  }

  /** Every wait stays inside the lifetime and follows the back-off. */
  predicate WaitsOk(interval: int, expires: int, waits: seq<Wait>)
  {
    forall i :: 0 <= i < |waits| ==>
      && waits[i].length == PollDelay(waits[i].at, expires, DelayAfter(interval, waits[..i]))
      && (waits[i].length == 0 || waits[i].at + waits[i].length <= expires)
  }

  lemma OneMoreWait(interval: int, expires: int, waits: seq<Wait>, w: Wait)
    requires WaitsOk(interval, expires, waits)
    requires w.length == PollDelay(w.at, expires, DelayAfter(interval, waits))
    ensures WaitsOk(interval, expires, waits + [w])
    ensures DelayAfter(interval, waits + [w]) == if w.error then Doubled(DelayAfter(interval,
      waits)) else DelayAfter(interval, waits)
  {
    var next := waits + [w];
    assert next[..|waits|] == waits;
    forall i | 0 <= i < |waits| ensures next[..i] == waits[..i] {
    }
  }

  lemma NoWaits(interval: int, expires: int, span: int)
    ensures WaitsOk(interval, expires, []) && DelayAfter(interval, []) == InitialDelay(interval) && Ceiling(span) >= 0
  {
  }

  /** What the controller says to one call; `Failed` covers lost replies and retryable errors. */
  datatype Reply = Fatal | Failed | Pending(matching: bool) | Exchange | Empty

  predicate Continues(r: Reply)
  {
    r == Failed || r == Pending(true)
  }

  /** poll. For any mix of pending answers and retryable errors, at most one call per started five
      seconds of the remaining lifetime; the k-th call gets `replies(k)`. */
  method Poll(clock: Clock, interval: int, expires: int, replies: nat -> Reply)
    returns (outcome: Outcome, calls: nat, waits: seq<Wait>)
    modifies clock
    ensures calls <= Ceiling(expires - old(clock.now))
    ensures WaitsOk(interval, expires, waits)
    ensures forall k :: 0 <= k < |waits| && waits[k].at < expires ==>
              var delay := DelayAfter(interval, waits[..k]);
              waits[k].length == if delay > expires - waits[k].at then expires - waits[k].at else delay
    ensures |waits| <= calls <= |waits| + 1
    ensures forall k :: 0 <= k < |waits| ==> Continues(replies(k)) && (waits[k].error <==> replies(k) == Failed)
    ensures match outcome
            case Approved => calls == |waits| + 1 && replies(calls - 1) == Exchange
            case Refused => calls == |waits| + 1 && replies(calls - 1) == Fatal
            case Invalid => calls == |waits| + 1 && replies(calls - 1) in {Empty, Pending(false)}
            case Expired => clock.now >= expires
            case Interrupted => calls == |waits| && calls > 0
  {
    hide DelayAfter, Ceiling;
    var delay := InitialDelay(interval);
    calls, waits := 0, [];
    ghost var start := clock.now;
    NoWaits(interval, expires, expires - start);
    DelayBounds(interval, waits);
    while true
      invariant delay == DelayAfter(interval, waits) && MIN_DELAY <= delay <= MAX_DELAY
      invariant start <= clock.now && calls == |waits|
      invariant clock.now >= expires || clock.now >= start + calls * MIN_DELAY
      invariant calls <= Ceiling(expires - start)
      invariant WaitsOk(interval, expires, waits)
      invariant forall k :: 0 <= k < |waits| ==> Continues(replies(k)) && (waits[k].error <==> replies(k) == Failed)
      decreases expires - clock.now
    {
      var now := clock.Read();
      if now >= expires {
        return Expired, calls, waits;
      }
      OneMoreCall(expires - start, calls);
      var reply := replies(calls);
      calls := calls + 1;
      now := clock.Read();
      if reply.Fatal? || reply.Failed? {
        if now >= expires {
          return Expired, calls, waits;
        }
        if reply.Fatal? {
          return Refused, calls, waits;
        }
      } else if reply.Pending? {
        if !reply.matching {
          return Invalid, calls, waits;
        }
      } else if reply.Exchange? {
        return Approved, calls, waits;
      } else {
        return Invalid, calls, waits;
      }
      now := clock.Read();
      var length := PollDelay(now, expires, delay);
      var ok := clock.Sleep(length);
      OneMoreWait(interval, expires, waits, Wait(now, length, reply.Failed?));
      waits := waits + [Wait(now, length, reply.Failed?)];
      if !ok {
        now := clock.Read();
        return if now >= expires then Expired else Interrupted, calls, waits;
      }
      if reply.Failed? && delay < MAX_DELAY {
        delay := if delay * 2 > MAX_DELAY then MAX_DELAY else delay * 2;
      }
      DelayBounds(interval, waits);
    }
  }

  lemma OneMoreCall(span: int, calls: nat)
    requires calls * MIN_DELAY < span
    ensures calls + 1 <= Ceiling(span)
  {
  }
}
