/** The throttled `last_seen_at` of a device, over any run of accepted requests. */
module Heartbeat {
  import opened Wrappers

  /** The stored time and the times it was written. */
  datatype Pulse = Pulse(seen: Option<int>, writes: seq<int>)

  /** One accepted request at time `now`. */
  function Beat(p: Pulse, interval: int, now: int): Pulse {
    if p.seen.None? || p.seen.value <= now - interval then Pulse(Some(now), p.writes + [now]) else p
  }

  function Beats(p: Pulse, interval: int, times: seq<int>): Pulse {
    if times == [] then p
    else Beat(Beats(p, interval, times[..|times| - 1]), interval, times[|times| - 1])
  }

  /** The clock never runs backwards, and the stored time is not ahead of it. */
  predicate Clock(p: Pulse, times: seq<int>) {
    && (forall i, j | 0 <= i < j < |times| :: times[i] <= times[j])
    && (p.seen.Some? && times != [] ==> p.seen.value <= times[0])
  }

  /** Any two entries are at least `interval` apart. */
  predicate Spaced(writes: seq<int>, interval: int) {
    forall i, j | 0 <= i < j < |writes| :: writes[i] + interval <= writes[j]
  }

  /** After a request the stored time is less than one interval old, and never in the future. */
  lemma {:induction false} SeenIsRecent(p: Pulse, interval: int, times: seq<int>)
    requires interval > 0 && Clock(p, times) && times != []
    ensures var seen := Beats(p, interval, times).seen;
            && seen.Some? && times[|times| - 1] - interval < seen.value <= times[|times| - 1]
            && (p.seen.Some? ==> p.seen.value <= seen.value)
  {
    var front := times[..|times| - 1];
    if front != [] { SeenIsRecent(p, interval, front); }
  }

  /** The stored time never goes back. */
  lemma SeenNeverDecreases(p: Pulse, interval: int, times: seq<int>, i: nat, j: nat)
    requires interval > 0 && Clock(p, times) && 0 < i <= j <= |times|
    ensures Beats(p, interval, times[..i]).seen.value <= Beats(p, interval, times[..j]).seen.value
    decreases j - i
  {
    SeenIsRecent(p, interval, times[..i]);
    if i < j {
      SeenIsRecent(p, interval, times[..j - 1]);
      assert times[..j][..|times[..j]| - 1] == times[..j - 1];
      SeenNeverDecreases(p, interval, times, i, j - 1);
    }
  }

  lemma SpacedAppend(writes: seq<int>, interval: int, now: int)
    requires interval > 0 && Spaced(writes, interval)
    requires writes != [] ==> writes[|writes| - 1] + interval <= now
    ensures Spaced(writes + [now], interval)
  {
    var all := writes + [now];
    forall i, j | 0 <= i < j < |all| ensures all[i] + interval <= all[j] {
      if j == |writes| && i < |writes| - 1 { assert writes[i] + interval <= writes[|writes| - 1]; }
    }
  }

  lemma SpacedShort(writes: seq<int>, interval: int)
    requires |writes| <= 1
    ensures Spaced(writes, interval)
  {
  }

  function Start(p: Pulse): seq<int> {
    if p.seen.Some? then [p.seen.value] else []
  }

  /** Writes are at least one interval apart, also from the time stored before the run. */
  lemma {:induction false} WritesAreSpaced(p: Pulse, interval: int, times: seq<int>)
    requires interval > 0 && p.writes == []
    ensures var after := Beats(p, interval, times);
            && Spaced(Start(p) + after.writes, interval)
            && (after.writes != [] ==> after.seen == Some(after.writes[|after.writes| - 1]))
            && (after.writes == [] ==> after.seen == p.seen)
            && (forall w | w in after.writes :: w in times)
  {
    hide Spaced;
    if times == [] {
      SpacedShort(Start(p) + [], interval);
    } else {
      var front, now := times[..|times| - 1], times[|times| - 1];
      WritesAreSpaced(p, interval, front);
      var before := Beats(p, interval, front);
      if before.seen.None? || before.seen.value <= now - interval {
        SpacedAppend(Start(p) + before.writes, interval, now);
        assert Start(p) + (before.writes + [now]) == (Start(p) + before.writes) + [now];
      }
    }
  }

  /** The writes in the window from `a` to `b`. */
  function Within(writes: seq<int>, a: int, b: int): seq<int> {
    if writes == [] then []
    else
      var w := writes[|writes| - 1];
      Within(writes[..|writes| - 1], a, b) + if a <= w <= b then [w] else []
  }

  lemma SpacedFront(writes: seq<int>, interval: int)
    requires Spaced(writes, interval) && writes != []
    ensures var front := writes[..|writes| - 1];
            Spaced(front, interval) && forall w | w in front :: w + interval <= writes[|writes| - 1]
  {
    assert forall i | 0 <= i < |writes| - 1 :: writes[..|writes| - 1][i] == writes[i];
  }

  lemma {:induction false} WithinSpaced(writes: seq<int>, interval: int, a: int, b: int)
    requires interval > 0 && Spaced(writes, interval)
    ensures Spaced(Within(writes, a, b), interval)
    ensures forall w | w in Within(writes, a, b) :: a <= w <= b && w in writes
  {
    hide Spaced;
    if writes == [] {
      SpacedShort([], interval);
    } else {
      var front, w := writes[..|writes| - 1], writes[|writes| - 1];
      SpacedFront(writes, interval);
      WithinSpaced(front, interval, a, b);
      var inside := Within(front, a, b);
      if a <= w <= b {
        assert inside != [] ==> inside[|inside| - 1] in inside;
        SpacedAppend(inside, interval, w);
      } else {
        assert Within(writes, a, b) == inside;
      }
    }
  }

  lemma {:induction false} SpacedSpan(writes: seq<int>, interval: int)
    requires interval > 0 && Spaced(writes, interval) && writes != []
    ensures writes[|writes| - 1] - writes[0] >= (|writes| - 1) * interval
  {
    if |writes| > 1 {
      var front := writes[..|writes| - 1];
      SpacedSpan(front, interval);
      assert (|writes| - 1) * interval == (|front| - 1) * interval + interval;
    }
  }

  lemma WindowBound(writes: seq<int>, interval: int, start: int, length: nat)
    requires interval > 0 && Spaced(writes, interval)
    ensures |Within(writes, start, start + length)| <= length / interval + 1
  {
    WithinSpaced(writes, interval, start, start + length);
    var inside := Within(writes, start, start + length);
    if inside != [] {
      SpacedSpan(inside, interval);
      assert inside[0] in inside && inside[|inside| - 1] in inside;
      QuotientBound(|inside| - 1, interval, length);
    }
  }

  /** A window of length `length` sees at most `length / interval + 1` writes. */
  lemma WritesPerWindow(p: Pulse, interval: int, times: seq<int>, start: int, length: nat)
    requires interval > 0 && p.writes == []
    ensures |Within(Beats(p, interval, times).writes, start, start + length)| <= length / interval + 1
  {
    WritesAreSpaced(p, interval, times);
    SpacedTail(Start(p), Beats(p, interval, times).writes, interval);
    WindowBound(Beats(p, interval, times).writes, interval, start, length);
  }

  lemma SpacedTail(a: seq<int>, b: seq<int>, interval: int)
    requires Spaced(a + b, interval)
    ensures Spaced(b, interval)
  {
    assert forall i | 0 <= i < |b| :: b[i] == (a + b)[i + |a|];
  }

  lemma QuotientBound(n: nat, interval: int, length: nat)
    requires interval > 0 && n * interval <= length
    ensures n <= length / interval
  {
    var q := length / interval;
    assert length < (q + 1) * interval;
    assert q + 1 <= n ==> (q + 1) * interval <= n * interval;
  }

  // ----- The device row -----

  class DeviceRow {
    var lastSeenAt: Option<int>
    ghost var writes: seq<int>

    constructor (lastSeenAt: Option<int>)
      ensures this.lastSeenAt == lastSeenAt && writes == []
    {
      this.lastSeenAt, writes := lastSeenAt, [];
    }

    ghost function State(): Pulse
      reads this
    {
      Pulse(lastSeenAt, writes)
    }

    /** The end of `resolve_device_token`, once the token is accepted: what the caller is told. */
    method Touch(interval: int, now: int) returns (lastSeen: int)
      modifies this
      ensures State() == Beat(old(State()), interval, now)
      ensures lastSeenAt == Some(lastSeen)
    {
      if lastSeenAt.None? || lastSeenAt.value <= now - interval {
        lastSeenAt := Some(now);
        writes := writes + [now];
        return now;
      }
      lastSeen := lastSeenAt.value;
    }

    /** A run of accepted requests. */
    method TouchAll(interval: int, times: seq<int>)
      modifies this
      ensures State() == Beats(old(State()), interval, times)
    {
      var i := 0;
      while i < |times|
        invariant i <= |times|
        invariant State() == Beats(old(State()), interval, times[..i])
      {
        assert times[..i + 1][..i] == times[..i];
        var seen := Touch(interval, times[i]);
        i := i + 1;
      }
      assert times[..i] == times;
    }
  }
}
