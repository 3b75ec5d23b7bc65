/** A sliding-window rate limiter: a trimmed buffer of hits that stands for the whole history of them. */
module RateLimiting {
  import opened Common

  ghost predicate NonDecreasing(s: seq<int>) {
    forall i, j :: 0 <= i < j < |s| ==> s[i] <= s[j]
  }

  /** How many of the accepted calls lie in the window (from, to]. */
  function InWindow(s: seq<int>, from: int, to: int): (n: nat)
    ensures n <= |s|
  {
    if s == [] then 0
    else InWindow(s[..|s| - 1], from, to) + if from < s[|s| - 1] <= to then 1 else 0
  }

  lemma {:induction false} WindowConcat(a: seq<int>, b: seq<int>, from: int, to: int)
    ensures InWindow(a + b, from, to) == InWindow(a, from, to) + InWindow(b, from, to)
    decreases |b|
  {
    if b == [] {
      assert a + b == a;
    } else {
      assert (a + b)[..|a + b| - 1] == a + b[..|b| - 1];
      WindowConcat(a, b[..|b| - 1], from, to);
    }
  }

  lemma {:induction false} AllInside(s: seq<int>, from: int, to: int)
    requires forall i :: 0 <= i < |s| ==> from < s[i] <= to
    ensures InWindow(s, from, to) == |s|
  {
    if s != [] {
      AllInside(s[..|s| - 1], from, to);
    }
  }

  lemma {:induction false} NoneInside(s: seq<int>, from: int, to: int)
    requires forall i :: 0 <= i < |s| ==> !(from < s[i] <= to)
    ensures InWindow(s, from, to) == 0
  {
    if s != [] {
      NoneInside(s[..|s| - 1], from, to);
    }
  }

  /** How many lie in the window of this length that ends at `to`. */
  function Held(s: seq<int>, to: int, window: nat): nat {
    InWindow(s, to - window, to)
  }

  /** Every window of this length holds at most `max` accepted calls. */
  ghost predicate NeverTooMany(s: seq<int>, window: nat, max: nat) {
    forall to :: Held(s, to, window) <= max
  }

  /**
   Accepting one more call keeps every window within the limit when the window ending now has room: the hits of a later
   window that holds the new one are among those of the window ending now.
   */
  lemma AcceptingKeepsWindows(s: seq<int>, now: int, window: nat, max: nat)
    requires NeverTooMany(s, window, max) && NonDecreasing(s + [now])
    requires Held(s, now, window) < max
    ensures NeverTooMany(s + [now], window, max)
  {
    forall to
      ensures Held(s + [now], to, window) <= max
    {
      assert (s + [now])[..|s|] == s;
      assert Held(s, to, window) <= max;
      if to - window < now <= to {
        forall i | 0 <= i < |s|
          ensures s[i] <= now
        {
          assert (s + [now])[i] <= (s + [now])[|s|];
        }
        LaterWindowHoldsFewer(s, now, to, window);
      }
    }
  }

  lemma {:induction false} LaterWindowHoldsFewer(s: seq<int>, now: int, to: int, window: nat)
    requires now <= to && forall i :: 0 <= i < |s| ==> s[i] <= now
    ensures Held(s, to, window) <= Held(s, now, window)
  {
    if s != [] {
      LaterWindowHoldsFewer(s[..|s| - 1], now, to, window);
    }
  }

  /** Once the expired hits are cut off, what is left is what the current window holds. */
  lemma TailIsTheWindow(s: seq<int>, cut: nat, now: int, window: nat)
    requires cut <= |s| && NonDecreasing(s) && forall i :: 0 <= i < |s| ==> s[i] <= now
    requires forall i :: 0 <= i < cut ==> s[i] <= now - window
    requires cut < |s| ==> s[cut] > now - window
    ensures Held(s, now, window) == |s| - cut
  {
    assert s == s[..cut] + s[cut..];
    WindowConcat(s[..cut], s[cut..], now - window, now);
    NoneInside(s[..cut], now - window, now);
    AllInside(s[cut..], now - window, now);
  }

  /** The buffer with its expired front cut off. */
  function Trimmed(hits: seq<int>, cutoff: int): seq<int> {
    if hits != [] && hits[0] <= cutoff then Trimmed(hits[1..], cutoff) else hits
  }

  lemma {:induction false} TrimmedAt(hits: seq<int>, cutoff: int, k: nat)
    requires k <= |hits| && (forall i :: 0 <= i < k ==> hits[i] <= cutoff) && (k < |hits| ==> hits[k] > cutoff)
    ensures Trimmed(hits, cutoff) == hits[k..]
  {
    if k > 0 {
      TrimmedAt(hits[1..], cutoff, k - 1);
    }
  }

  /** The buffer is the tail of the history of accepted calls from the last expiry on. */
  ghost predicate StandsFor(hits: seq<int>, accepted: seq<int>, clock: int, window: nat) {
    && NonDecreasing(accepted)
    && (forall i :: 0 <= i < |accepted| ==> accepted[i] <= clock)
    && |hits| <= |accepted| && hits == accepted[|accepted| - |hits|..]
    && (forall i :: 0 <= i < |accepted| - |hits| ==> accepted[i] <= clock - window)
  }

  lemma TrimmingKeepsTheWindow(hits: seq<int>, accepted: seq<int>, clock: int, now: int, window: nat, k: nat)
    requires StandsFor(hits, accepted, clock, window) && clock <= now
    requires k <= |hits| && (forall i :: 0 <= i < k ==> hits[i] <= now - window)
             && (k < |hits| ==> hits[k] > now - window)
    ensures StandsFor(hits[k..], accepted, now, window)
    ensures Held(accepted, now, window) == |hits| - k
  {
    var cut := |accepted| - |hits|;
    forall i | 0 <= i < cut + k
      ensures accepted[i] <= now - window
    {
      assert i >= cut ==> accepted[i] == hits[i - cut];
    }
    assert k < |hits| ==> accepted[cut + k] == hits[k];
    TailIsTheWindow(accepted, cut + k, now, window);
  }

  lemma AcceptingKeepsTail(hits: seq<int>, accepted: seq<int>, now: int, window: nat)
    requires StandsFor(hits, accepted, now, window)
    ensures StandsFor(hits + [now], accepted + [now], now, window)
  {
  }

  lemma {:induction false} TrimmedIsATail(hits: seq<int>, cutoff: int) returns (k: nat)
    ensures k <= |hits| && (forall i :: 0 <= i < k ==> hits[i] <= cutoff) && (k < |hits| ==> hits[k] > cutoff)
    ensures Trimmed(hits, cutoff) == hits[k..]
  {
    if hits != [] && hits[0] <= cutoff {
      var rest := TrimmedIsATail(hits[1..], cutoff);
      k := rest + 1;
    } else {
      k := 0;
    }
  }

  /** The buffer stands for the history and no window of the history was ever overfilled. */
  ghost predicate KeepsFaith(hits: seq<int>, accepted: seq<int>, clock: int, window: nat, max: nat) {
    StandsFor(hits, accepted, clock, window) && NeverTooMany(accepted, window, max)
  }

  /** One call on a clock that does not go back: the buffer decides as the whole history would. */
  lemma CallKeepsFaith(hits: seq<int>, accepted: seq<int>, clock: int, now: int, window: nat, max: nat)
    requires KeepsFaith(hits, accepted, clock, window, max) && clock <= now
    ensures var left := Trimmed(hits, now - window);
            && KeepsFaith(left, accepted, now, window, max)
            && |left| == Held(accepted, now, window) <= max
            && (|left| < max ==> KeepsFaith(left + [now], accepted + [now], now, window, max))
  {
    var k := TrimmedIsATail(hits, now - window);
    TrimmingKeepsTheWindow(hits, accepted, clock, now, window, k);
    assert Held(accepted, now, window) <= max;
    if |hits| - k < max {
      AcceptingKeepsWindows(accepted, now, window, max);
      AcceptingKeepsTail(hits[k..], accepted, now, window);
    }
  }

  /** The calls of `calls` that a limiter with these hits in its buffer accepts. */
  function AcceptedOf(hits: seq<int>, calls: seq<int>, window: nat, max: nat): seq<int>
    decreases |calls|
  {
    if calls == [] then []
    else
      var left := Trimmed(hits, calls[0] - window);
      if |left| < max then [calls[0]] + AcceptedOf(left + [calls[0]], calls[1..], window, max)
      else AcceptedOf(left, calls[1..], window, max)
  }

  /** Every one of `gone` is at least a window away from `now`. */
  ghost predicate Apart(gone: seq<int>, now: int, window: nat) {
    forall i :: 0 <= i < |gone| ==> gone[i] <= now - window || gone[i] >= now + window
  }

  /**
   No call is accepted near a hit that was already discarded: the clock may go back, but not into the past it forgot.
   */
  ghost predicate NeverReturns(gone: seq<int>, hits: seq<int>, calls: seq<int>, window: nat, max: nat)
    decreases |calls|
  {
    calls != [] ==>
      var left := Trimmed(hits, calls[0] - window);
      var gone' := gone + Discarded(hits, calls[0] - window);
      if |left| < max then
        Apart(gone', calls[0], window) && NeverReturns(gone', left + [calls[0]], calls[1..], window, max)
      else NeverReturns(gone', left, calls[1..], window, max)
  }

  function Discarded(hits: seq<int>, cutoff: int): seq<int> {
    if hits != [] && hits[0] <= cutoff then [hits[0]] + Discarded(hits[1..], cutoff) else []
  }

  lemma {:induction false} DiscardedAndTrimmed(hits: seq<int>, cutoff: int)
    ensures Discarded(hits, cutoff) + Trimmed(hits, cutoff) == hits
    ensures forall i :: 0 <= i < |Discarded(hits, cutoff)| ==> Discarded(hits, cutoff)[i] <= cutoff
  {
    if hits != [] && hits[0] <= cutoff {
      DiscardedAndTrimmed(hits[1..], cutoff);
    }
  }

  lemma AcceptingApart(gone: seq<int>, left: seq<int>, now: int, window: nat, max: nat)
    requires NeverTooMany(gone + left, window, max) && Apart(gone, now, window) && |left| < max
    ensures NeverTooMany(gone + left + [now], window, max)
  {
    forall to
      ensures Held(gone + left + [now], to, window) <= max
    {
      assert (gone + left + [now])[..|gone + left|] == gone + left;
      assert Held(gone + left, to, window) <= max;
      if to - window < now <= to {
        WindowConcat(gone, left, to - window, to);
        NoneInside(gone, to - window, to);
      }
    }
  }

  /**
   Whole runs on any clock: unless a call is accepted near a forgotten hit, no window ever holds more than the
   maximum.
   */
  lemma {:induction false} OverfillsOnlyByReturning(gone: seq<int>, hits: seq<int>, calls: seq<int>, window: nat,
                                                    max: nat)
    requires NeverTooMany(gone + hits, window, max) && NeverReturns(gone, hits, calls, window, max)
    ensures NeverTooMany(gone + hits + AcceptedOf(hits, calls, window, max), window, max)
    decreases |calls|
  {
    if calls == [] {
      assert gone + hits + [] == gone + hits;
    } else {
      var now, left := calls[0], Trimmed(hits, calls[0] - window);
      var gone' := gone + Discarded(hits, now - window);
      DiscardedAndTrimmed(hits, now - window);
      Assoc(gone, Discarded(hits, now - window), left);
      if |left| < max {
        var rest := AcceptedOf(left + [now], calls[1..], window, max);
        AcceptingApart(gone', left, now, window, max);
        Assoc(gone', left, [now]);
        OverfillsOnlyByReturning(gone', left + [now], calls[1..], window, max);
        Assoc(gone + hits, [now], rest);
      } else {
        OverfillsOnlyByReturning(gone', left, calls[1..], window, max);
      }
    }
  }

  lemma FromScratch(calls: seq<int>, window: nat, max: nat)
    requires NeverReturns([], [], calls, window, max)
    ensures NeverTooMany(AcceptedOf([], calls, window, max), window, max)
  {
    var none: seq<int> := [];
    assert none + none == none && forall to :: Held(none, to, window) == 0;
    OverfillsOnlyByReturning(none, none, calls, window, max);
    assert none + AcceptedOf(none, calls, window, max) == AcceptedOf(none, calls, window, max);
  }

  /** A clock that does not go back never returns to what was forgotten. */
  lemma {:induction false} ForwardNeverReturns(gone: seq<int>, hits: seq<int>, calls: seq<int>, window: nat, max: nat)
    requires NonDecreasing(calls)
    requires calls != [] ==> forall i :: 0 <= i < |gone| ==> gone[i] <= calls[0] - window
    ensures NeverReturns(gone, hits, calls, window, max)
    decreases |calls|
  {
    if calls != [] {
      var now, left := calls[0], Trimmed(hits, calls[0] - window);
      var gone' := gone + Discarded(hits, now - window);
      DiscardedAndTrimmed(hits, now - window);
      ForwardNeverReturns(gone', if |left| < max then left + [now] else left, calls[1..], window, max);
    }
  }

  /** Whole runs: on a clock that does not go back no window ever holds more than the maximum. */
  lemma NoWindowOverfills(calls: seq<int>, window: nat, max: nat)
    requires NonDecreasing(calls)
    ensures NeverTooMany(AcceptedOf([], calls, window, max), window, max)
  {
    ForwardNeverReturns([], [], calls, window, max);
    FromScratch(calls, window, max);
  }

  /** At each accepted call no window that would hold it is full: what a caller sees before the call. */
  ghost predicate Roomy(past: seq<int>, hits: seq<int>, calls: seq<int>, window: nat, max: nat)
    decreases |calls|
  {
    calls != [] ==>
      var now, left := calls[0], Trimmed(hits, calls[0] - window);
      if |left| < max then
        HasRoom(past, now, window, max) && Roomy(past + [now], left + [now], calls[1..], window, max)
      else Roomy(past, left, calls[1..], window, max)
  }

  ghost predicate HasRoom(past: seq<int>, now: int, window: nat, max: nat) {
    forall to :: now <= to < now + window ==> Held(past, to, window) < max
  }

  /** One more hit keeps every window within the limit if and only if there was room for it. */
  lemma RoomForOneIff(past: seq<int>, now: int, window: nat, max: nat)
    requires NeverTooMany(past, window, max)
    ensures NeverTooMany(past + [now], window, max) <==> HasRoom(past, now, window, max)
  {
    assert (past + [now])[..|past|] == past;
    assert forall to ::
             Held(past + [now], to, window) == Held(past, to, window) + if to - window < now <= to then 1 else 0;
    if NeverTooMany(past + [now], window, max) {
      forall to | now <= to < now + window
        ensures Held(past, to, window) < max
      {
        assert Held(past + [now], to, window) <= max;
      }
    } else {
      var to :| Held(past + [now], to, window) > max;
      assert Held(past, to, window) <= max;
    }
  }

  lemma MoreHeld(past: seq<int>, more: seq<int>, window: nat, max: nat)
    requires NeverTooMany(past + more, window, max)
    ensures NeverTooMany(past, window, max)
  {
    forall to
      ensures Held(past, to, window) <= max
    {
      assert Held(past + more, to, window) <= max;
      WindowConcat(past, more, to - window, to);
    }
  }

  /** Whole runs on any clock: no window ever holds more than the maximum if and only if each accepted call had room. */
  lemma {:induction false} NeverOverfillsIffRoomy(past: seq<int>, hits: seq<int>, calls: seq<int>, window: nat,
                                                  max: nat)
    requires NeverTooMany(past, window, max)
    ensures NeverTooMany(past + AcceptedOf(hits, calls, window, max), window, max)
            <==> Roomy(past, hits, calls, window, max)
    decreases |calls|
  {
    if calls == [] {
      assert past + [] == past;
    } else {
      var now, left := calls[0], Trimmed(hits, calls[0] - window);
      if |left| < max {
        var rest := AcceptedOf(left + [now], calls[1..], window, max);
        RoomForOneIff(past, now, window, max);
        Assoc(past, [now], rest);
        if HasRoom(past, now, window, max) {
          NeverOverfillsIffRoomy(past + [now], left + [now], calls[1..], window, max);
        } else if NeverTooMany(past + [now] + rest, window, max) {
          MoreHeld(past + [now], rest, window, max);
        }
      } else {
        NeverOverfillsIffRoomy(past, left, calls[1..], window, max);
      }
    }
  }

  // ---- Which limiters survive any clock ----

  function Repeated(t: int, n: nat): (s: seq<int>)
    ensures |s| == n && forall i :: 0 <= i < n ==> s[i] == t
  {
    if n == 0 then [] else [t] + Repeated(t, n - 1)
  }

  /** A limiter for one hit accepts only what lies a window after its last hit. */
  lemma {:induction false} SingleNeverReturns(gone: seq<int>, hits: seq<int>, calls: seq<int>, window: nat, max: nat)
    requires max <= 1 && |hits| <= max && (hits == [] ==> gone == [])
    requires hits != [] ==> forall i :: 0 <= i < |gone| ==> gone[i] <= hits[0]
    ensures NeverReturns(gone, hits, calls, window, max)
    decreases |calls|
  {
    if calls != [] {
      var now, left := calls[0], Trimmed(hits, calls[0] - window);
      DiscardedAndTrimmed(hits, now - window);
      var gone' := gone + Discarded(hits, now - window);
      if |left| < max {
        SingleNeverReturns(gone', left + [now], calls[1..], window, max);
      } else {
        assert left == hits && gone' == gone;
        SingleNeverReturns(gone', left, calls[1..], window, max);
      }
    }
  }

  lemma NothingInNoTime(s: seq<int>, max: nat)
    ensures NeverTooMany(s, 0, max)
  {
    forall to
      ensures Held(s, to, 0) <= max
    {
      NoneInside(s, to, to);
    }
  }

  /** Calls at the same time are accepted until the limit is reached. */
  lemma {:induction false} BurstAccepted(k: nat, n: nat, tail: seq<int>, window: nat, max: nat)
    requires window >= 1 && k + n <= max
    ensures AcceptedOf(Repeated(0, k), Repeated(0, n) + tail, window, max)
            == Repeated(0, n) + AcceptedOf(Repeated(0, k + n), tail, window, max)
    decreases n
  {
    if n == 0 {
      assert Repeated(0, 0) + tail == tail;
      var rest := AcceptedOf(Repeated(0, k), tail, window, max);
      assert Repeated(0, 0) + rest == rest;
    } else {
      var calls := Repeated(0, n) + tail;
      assert calls[0] == 0 && calls[1..] == Repeated(0, n - 1) + tail;
      TrimmedAt(Repeated(0, k), 0 - window, 0);
      assert Repeated(0, k) + [0] == Repeated(0, k + 1);
      BurstAccepted(k + 1, n - 1, tail, window, max);
      Assoc([0], Repeated(0, n - 1), AcceptedOf(Repeated(0, k + n), tail, window, max));
    }
  }

  /** A burst, one call that makes the limiter forget it, and one that steps back next to it. */
  function Comeback(window: nat, max: nat): seq<int> {
    Repeated(0, max) + [window, window - 1]
  }

  lemma TailAccepted(window: nat, max: nat)
    requires window >= 1 && max >= 2
    ensures AcceptedOf(Repeated(0, max), [window, window - 1], window, max) == [window, window - 1]
  {
    var tail, none: seq<int> := [window, window - 1], [];
    assert tail[1..] == [window - 1] && [window - 1][1..] == none;
    TrimmedAt(Repeated(0, max), 0, max);
    TrimmedAt([window], -1, 0);
    assert none + [window as int] == [window];
    assert AcceptedOf([window], [window - 1], window, max)
           == [window - 1] + AcceptedOf([window, window - 1], none, window, max);
    assert [window as int] + [window - 1] == tail;
  }

  lemma ComebackAccepted(window: nat, max: nat)
    requires window >= 1 && max >= 2
    ensures AcceptedOf([], Comeback(window, max), window, max) == Comeback(window, max)
  {
    BurstAccepted(0, max, [window, window - 1], window, max);
    TailAccepted(window, max);
  }

  lemma ComebackOverfills(window: nat, max: nat)
    requires window >= 1 && max >= 2
    ensures !NeverTooMany(AcceptedOf([], Comeback(window, max), window, max), window, max)
  {
    var burst, tail: seq<int> := Repeated(0, max), [window, window - 1];
    ComebackAccepted(window, max);
    WindowConcat(burst, tail, -1, window - 1);
    AllInside(burst, -1, window - 1);
    assert tail[..1] == [window];
    assert InWindow(tail, -1, window - 1) >= 1;
    assert Held(Comeback(window, max), window - 1, window) > max;
  }

  /** Over all runs on any clock: no window overfills if and only if the limit is at most one or the window is empty. */
  lemma SurvivesAnyClockIff(window: nat, max: nat)
    ensures (forall calls: seq<int> :: NeverTooMany(AcceptedOf([], calls, window, max), window, max))
            <==> max <= 1 || window == 0
  {
    if window == 0 {
      forall calls: seq<int>
        ensures NeverTooMany(AcceptedOf([], calls, window, max), window, max)
      {
        NothingInNoTime(AcceptedOf([], calls, window, max), max);
      }
    } else if max <= 1 {
      forall calls: seq<int>
        ensures NeverTooMany(AcceptedOf([], calls, window, max), window, max)
      {
        SingleNeverReturns([], [], calls, window, max);
        FromScratch(calls, window, max);
      }
    } else {
      ComebackOverfills(window, max);
    }
  }

  /** On a clock that goes back, a hit once expired counts again, and a window can hold more than the maximum. */
  lemma ClockGoingBackOverfills()
    ensures Held(AcceptedOf([], [100, 100, 200, 101], 10, 2), 101, 10) == 3
  {
    assert AcceptedOf([200], [101], 10, 2) == [101] by {
      assert [101][1..] == [] && Trimmed([200], 91) == [200];
    }
    assert AcceptedOf([100, 100], [200, 101], 10, 2) == [200, 101] by {
      assert [100, 100][1..] == [100] && [100][1..] == [] && [200, 101][1..] == [101];
      assert Trimmed([100], 190) == Trimmed([], 190) == [];
      assert Trimmed([100, 100], 190) == [];
      assert [] + [200] == [200];
    }
    assert AcceptedOf([100], [100, 200, 101], 10, 2) == [100, 200, 101] by {
      assert [100, 200, 101][1..] == [200, 101];
    }
    assert AcceptedOf([], [100, 100, 200, 101], 10, 2) == [100, 100, 200, 101] by {
      assert [100, 100, 200, 101][1..] == [100, 200, 101] && [] + [100] == [100];
      assert Trimmed([], 90) == [];
    }
    assert [100, 100, 200, 101][..3] == [100, 100, 200] && [100, 100, 200][..2] == [100, 100]
        && [100, 100][..1] == [100];
  }

  class RateLimiter {
    const maxPerWindow: nat
    const windowMs: nat
    var hits: seq<int>
    /** Every call accepted so far, with its time, and the clock of the last call. */
    ghost var accepted: seq<int>
    ghost var clock: int

    /** Holds as long as the clock has not gone back. */
    ghost predicate Faithful() reads this {
      KeepsFaith(hits, accepted, clock, windowMs, maxPerWindow)
    }

    constructor (maxPerWindow: nat, windowMs: nat, ghost start: int)
      ensures Faithful() && hits == [] && accepted == [] && clock == start
      ensures this.maxPerWindow == maxPerWindow && this.windowMs == windowMs
    {
      this.maxPerWindow, this.windowMs := maxPerWindow, windowMs;
      hits, accepted, clock := [], [], start;
      new;
      assert forall to :: Held([], to, windowMs) == 0;
    }

    method Expired(cutoff: int) returns (expired: nat)
      ensures expired <= |hits| && hits[expired..] == Trimmed(hits, cutoff)
    {
      expired := 0;
      while expired < |hits| && hits[expired] <= cutoff
        invariant 0 <= expired <= |hits|
        invariant forall i :: 0 <= i < expired ==> hits[i] <= cutoff
      {
        expired := expired + 1;
      }
      TrimmedAt(hits, cutoff, expired);
    }

    /**
     On a clock that does not go back, it accepts exactly when the window ending now holds fewer than the maximum of
     all calls ever accepted, although the expired ones are gone from the buffer.
     */
    method Allow(now: int) returns (ok: bool)
      modifies this
      ensures ok <==> |Trimmed(old(hits), now - windowMs)| < maxPerWindow
      ensures hits == Trimmed(old(hits), now - windowMs) + if ok then [now] else []
      ensures accepted == old(accepted) + if ok then [now] else []
      ensures clock == now
      ensures old(Faithful()) && old(clock) <= now ==>
                Faithful() && |hits| <= maxPerWindow
                && (ok <==> Held(old(accepted), now, windowMs) < maxPerWindow)
    {
      var expired := Expired(now - windowMs);
      if Faithful() && clock <= now {
        CallKeepsFaith(hits, accepted, clock, now, windowMs, maxPerWindow);
      }
      hits := hits[expired..];
      clock := now;
      ok := |hits| < maxPerWindow;
      if ok {
        hits := hits + [now];
        accepted := accepted + [now];
      }
    }
  }
}
