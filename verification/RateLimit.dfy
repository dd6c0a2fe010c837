/** The token bucket, and the sliding-window budget it enforces exactly. */
module RateLimit {

  /** One request: when it came and whether it was allowed. */
  datatype Call = Call(time: real, ok: bool)

  /** What refills in `seconds`. */
  function Refill(rate: real, seconds: real): real {
    rate * seconds
  }

  function Min(a: real, b: real): real {
    if a <= b then a else b
  }

  function Last(created: real, calls: seq<Call>): real {
    if calls == [] then created else calls[|calls| - 1].time
  }

  function Taken(ok: bool): real {
    if ok then 1.0 else 0.0
  }

  function Allowed(calls: seq<Call>): nat {
    if calls == [] then 0 else Allowed(calls[..|calls| - 1]) + (if calls[|calls| - 1].ok then 1 else 0)
  }

  ghost predicate InOrder(created: real, calls: seq<Call>) {
    && (forall i | 0 <= i < |calls| :: created <= calls[i].time)
    && (forall i, j | 0 <= i < j < |calls| :: calls[i].time <= calls[j].time)
  }

  class TokenBucket {
    const capacity: real
    const refillPerS: real
    var tokens: real
    var lastRefill: real
    ghost const created: real
    ghost var history: seq<Call>

    ghost predicate Valid()
      reads this
    {
      Accounts(capacity, refillPerS, created, history, tokens, lastRefill)
    }

    constructor (capacity: real, refillPerS: real, now: real)
      ensures Valid() && history == []
      ensures this.capacity == capacity && this.refillPerS == refillPerS && created == now
    {
      this.capacity, this.refillPerS, this.tokens, this.lastRefill := capacity, refillPerS, capacity, now;
      this.created, this.history := now, [];
    }

    /** On a clock that does not run backwards, a request is allowed exactly when every window has room for it. */
    method Allow(now: real) returns (ok: bool)
      requires Valid()
      modifies this
      ensures Valid() && history == old(history) + [Call(now, ok)]
      ensures InOrder(created, history) ==>
                (ok <==> EveryWindowHasRoom(capacity, refillPerS, created, old(history), now))
      ensures now <= old(lastRefill) ==>
                var held := if old(tokens) <= capacity then old(tokens) else capacity;
                (ok <==> held >= 1.0) && tokens == if ok then held - 1.0 else held
    {
      BackwardRefillsNothing(capacity, refillPerS, tokens);
      hide Accounts, Refill, Min, EveryWindowHasRoom, InOrder;
      ghost var before, held, last := history, tokens, lastRefill;
      var elapsed := if now - lastRefill > 0.0 then now - lastRefill else 0.0;
      tokens := Min(capacity, tokens + Refill(refillPerS, elapsed));
      lastRefill := now;
      ok := tokens >= 1.0;
      if ok {
        tokens := tokens - 1.0;
      }
      history := history + [Call(now, ok)];
      AccountsStep(capacity, refillPerS, created, before, held, last, now, ok);
    }
  }

  /** A clock that stands still or steps back refills nothing. */
  lemma BackwardRefillsNothing(cap: real, rate: real, tokens: real)
    ensures Min(cap, tokens + Refill(rate, 0.0)) == if tokens <= cap then tokens else cap
  {
  }

  ghost predicate Accounts(cap: real, rate: real, created: real, calls: seq<Call>, tokens: real, last: real) {
    && last == Last(created, calls)
    && (InOrder(created, calls) ==> tokens == Level(cap, rate, created, calls) && Granted(cap, rate, created, calls))
  }

  lemma AccountsStep(cap: real, rate: real, created: real, calls: seq<Call>, tokens: real, last: real,
                     now: real, ok: bool)
    requires Accounts(cap, rate, created, calls, tokens, last)
    requires ok == (Min(cap, tokens + Refill(rate, if now - last > 0.0 then now - last else 0.0)) >= 1.0)
    ensures Accounts(cap, rate, created, calls + [Call(now, ok)],
                     Min(cap, tokens + Refill(rate, if now - last > 0.0 then now - last else 0.0)) - Taken(ok), now)
    ensures InOrder(created, calls + [Call(now, ok)]) ==> (ok <==> EveryWindowHasRoom(cap, rate, created, calls, now))
  {
    hide Refill, EveryWindowHasRoom, Granted, Level, Min, InOrder;
    var all := calls + [Call(now, ok)];
    assert all[|all| - 1] == Call(now, ok);
    if InOrder(created, all) {
      StaysInOrder(created, calls, Call(now, ok));
      RoomIsLevel(cap, rate, created, calls, now);
      LevelStep(cap, rate, created, calls, Call(now, ok));
      GrantedStep(cap, rate, created, calls, Call(now, ok));
    }
  }

  // ------------------------------------------------------------------- the level

  /** The tokens left after the calls of a clock that does not run backwards. */
  function Level(cap: real, rate: real, created: real, calls: seq<Call>): real {
    if calls == [] then cap
    else
      var before, c := calls[..|calls| - 1], calls[|calls| - 1];
      Min(cap, Level(cap, rate, created, before) + Refill(rate, c.time - Last(created, before))) - Taken(c.ok)
  }

  lemma LevelStep(cap: real, rate: real, created: real, calls: seq<Call>, c: Call)
    ensures Level(cap, rate, created, calls + [c])
         == Min(cap, Level(cap, rate, created, calls) + Refill(rate, c.time - Last(created, calls))) - Taken(c.ok)
  {
    assert (calls + [c])[..|calls|] == calls;
  }

  lemma StaysInOrder(created: real, calls: seq<Call>, c: Call)
    requires InOrder(created, calls + [c])
    ensures InOrder(created, calls) && Last(created, calls) <= c.time
  {
    assert forall i | 0 <= i < |calls| :: (calls + [c])[i] == calls[i];
    assert (calls + [c])[|calls|] == c;
  }

  // ----------------------------------------------------------------- the windows

  /** What is still free at `now` in the window from call `j` on, or from the creation on for `j == |calls|`. */
  function Free(cap: real, rate: real, created: real, calls: seq<Call>, j: nat, now: real): real
    requires j <= |calls|
  {
    if j == |calls| then cap + Refill(rate, now - created) - Allowed(calls) as real
    else cap + Refill(rate, now - calls[j].time) - Allowed(calls[j..]) as real
  }

  /**
   One more request fits: in every window from an earlier call (or the creation) to now, and in
   the empty window, the allowed requests plus one are within capacity + rate * length.
   */
  ghost predicate EveryWindowHasRoom(cap: real, rate: real, created: real, calls: seq<Call>, now: real) {
    1.0 <= cap && forall j: nat | j <= |calls| :: 1.0 <= Free(cap, rate, created, calls, j, now)
  }

  /** Every call of a history was answered by the window rule. */
  ghost predicate Granted(cap: real, rate: real, created: real, calls: seq<Call>) {
    forall n | 0 <= n < |calls| :: calls[n].ok <==> EveryWindowHasRoom(cap, rate, created, calls[..n], calls[n].time)
  }

  lemma GrantedStep(cap: real, rate: real, created: real, calls: seq<Call>, c: Call)
    requires Granted(cap, rate, created, calls)
    requires c.ok <==> EveryWindowHasRoom(cap, rate, created, calls, c.time)
    ensures Granted(cap, rate, created, calls + [c])
  {
    hide EveryWindowHasRoom;
    forall n | 0 <= n < |calls| + 1 ensures (calls + [c])[..n] == calls[..n] {
    }
    assert calls[..|calls|] == calls;
  }

  lemma RefillAdds(rate: real, a: real, b: real)
    ensures Refill(rate, a) + Refill(rate, b) == Refill(rate, a + b)
    ensures Refill(rate, 0.0) == 0.0
  {
  }

  lemma FreeStep(cap: real, rate: real, created: real, calls: seq<Call>, c: Call, j: nat, now: real)
    requires j < |calls|
    ensures Free(cap, rate, created, calls + [c], j, now) == Free(cap, rate, created, calls, j, now) - Taken(c.ok)
  {
    var all := calls + [c];
    assert all[j..][..|calls| - j] == calls[j..];
    assert all[j..][|calls| - j] == c;
  }

  lemma FreeEnds(cap: real, rate: real, created: real, calls: seq<Call>, c: Call, now: real)
    ensures Free(cap, rate, created, calls + [c], |calls|, now) == cap + Refill(rate, now - c.time) - Taken(c.ok)
    ensures Free(cap, rate, created, calls + [c], |calls| + 1, now)
         == Free(cap, rate, created, calls, |calls|, now) - Taken(c.ok)
  {
    var all := calls + [c];
    assert all[|calls|..] == [c] && [c][..0] == [] && Allowed([c]) == if c.ok then 1 else 0;
    assert all[..|calls|] == calls;
  }

  /** The level, projected to `now`, is the smallest amount free in any window. */
  lemma {:induction false} LevelIsTightest(cap: real, rate: real, created: real, calls: seq<Call>, now: real, v: real)
    requires InOrder(created, calls)
    ensures v <= Level(cap, rate, created, calls) + Refill(rate, now - Last(created, calls))
       <==> forall j: nat | j <= |calls| :: v <= Free(cap, rate, created, calls, j, now)
    decreases |calls|
  {
    hide Level, Refill, Free, InOrder;
    if calls == [] {
      EmptyWindows(cap, rate, created, now);
    } else {
      var before, c := calls[..|calls| - 1], calls[|calls| - 1];
      assert calls == before + [c];
      StaysInOrder(created, before, c);
      LevelIsTightest(cap, rate, created, before, now, v + Taken(c.ok));
      LevelStep(cap, rate, created, before, c);
      RefillAdds(rate, c.time - Last(created, before), now - c.time);
      FreeEnds(cap, rate, created, before, c, now);
      forall j: nat | j < |before|
        ensures Free(cap, rate, created, calls, j, now) == Free(cap, rate, created, before, j, now) - Taken(c.ok)
      {
        FreeStep(cap, rate, created, before, c, j, now);
      }
      WindowsStep(cap, rate, created, before, c, now, v);
    }
  }

  lemma EmptyWindows(cap: real, rate: real, created: real, now: real)
    ensures Free(cap, rate, created, [], 0, now) == cap + Refill(rate, now - created)
    ensures Level(cap, rate, created, []) == cap
  {
  }

  lemma WindowsStep(cap: real, rate: real, created: real, before: seq<Call>, c: Call, now: real, v: real)
    requires Free(cap, rate, created, before + [c], |before|, now) == cap + Refill(rate, now - c.time) - Taken(c.ok)
    requires Free(cap, rate, created, before + [c], |before| + 1, now)
          == Free(cap, rate, created, before, |before|, now) - Taken(c.ok)
    requires forall j: nat | j < |before| ::
               Free(cap, rate, created, before + [c], j, now) == Free(cap, rate, created, before, j, now) - Taken(c.ok)
    ensures (forall j: nat | j <= |before| + 1 :: v <= Free(cap, rate, created, before + [c], j, now))
       <==> (forall j: nat | j <= |before| :: v + Taken(c.ok) <= Free(cap, rate, created, before, j, now))
            && v <= cap + Refill(rate, now - c.time) - Taken(c.ok)
  {
    hide Free, Refill;
    if forall j: nat | j <= |before| + 1 :: v <= Free(cap, rate, created, before + [c], j, now) {
      assert v <= Free(cap, rate, created, before + [c], |before|, now);
      assert v <= Free(cap, rate, created, before + [c], |before| + 1, now);
      forall j: nat | j <= |before| ensures v + Taken(c.ok) <= Free(cap, rate, created, before, j, now) {
        if j < |before| {
          assert v <= Free(cap, rate, created, before + [c], j, now);
        }
      }
    }
  }

  /** The refilled bucket holds a token exactly when every window has room. */
  lemma RoomIsLevel(cap: real, rate: real, created: real, calls: seq<Call>, now: real)
    requires InOrder(created, calls)
    ensures EveryWindowHasRoom(cap, rate, created, calls, now)
       <==> Min(cap, Level(cap, rate, created, calls) + Refill(rate, now - Last(created, calls))) >= 1.0
  {
    hide Level, Refill, Free, InOrder;
    LevelIsTightest(cap, rate, created, calls, now, 1.0);
  }

  // ---------------------------------------------------------------- consequences

  lemma {:induction false} AllowedSplit(a: seq<Call>, b: seq<Call>)
    ensures Allowed(a + b) == Allowed(a) + Allowed(b)
    decreases |b|
  {
    if b == [] {
      assert a + b == a;
    } else {
      assert (a + b)[..|a + b| - 1] == a + b[..|b| - 1];
      AllowedSplit(a, b[..|b| - 1]);
    }
  }

  /** No window that ends in an allowed request holds more than its budget. */
  lemma AllowedWindowInBudget(cap: real, rate: real, created: real, calls: seq<Call>, i: nat, j: nat)
    requires Granted(cap, rate, created, calls) && i <= j < |calls| && calls[j].ok
    ensures Allowed(calls[i..j + 1]) as real <= cap + Refill(rate, calls[j].time - calls[i].time)
  {
    hide Refill;
    var before := calls[..j];
    assert EveryWindowHasRoom(cap, rate, created, before, calls[j].time);
    assert calls[i..j + 1] == before[i..] + [calls[j]];
    AllowedSplit(before[i..], [calls[j]]);
    assert [calls[j]][..0] == [];
    RefillAdds(rate, 0.0, 0.0);
    if i < j {
      assert 1.0 <= Free(cap, rate, created, before, i, calls[j].time);
    } else {
      assert before[i..] == [];
    }
  }

  lemma RefillMonotone(rate: real, a: real, b: real)
    requires rate >= 0.0 && a <= b
    ensures Refill(rate, a) <= Refill(rate, b)
  {
  }

  /** Hence no window at all does, when capacity and rate are not negative. */
  lemma {:induction false} NoWindowOverBudget(cap: real, rate: real, created: real, calls: seq<Call>, i: nat, j: nat)
    requires cap >= 0.0 && rate >= 0.0 && InOrder(created, calls)
    requires Granted(cap, rate, created, calls) && i <= j < |calls|
    ensures Allowed(calls[i..j + 1]) as real <= cap + Refill(rate, calls[j].time - calls[i].time)
    decreases j
  {
    hide Refill, Granted;
    if calls[j].ok {
      AllowedWindowInBudget(cap, rate, created, calls, i, j);
    } else {
      assert calls[i..j + 1][..j - i] == calls[i..j];
      if i < j {
        NoWindowOverBudget(cap, rate, created, calls, i, j - 1);
        RefillMonotone(rate, calls[j - 1].time - calls[i].time, calls[j].time - calls[i].time);
      } else {
        assert calls[i..j] == [];
        RefillAdds(rate, 0.0, 0.0);
      }
    }
  }

  /** Calls are at least one refill period apart. */
  ghost predicate SpacedOut(rate: real, calls: seq<Call>) {
    forall n | 0 < n < |calls| :: Refill(rate, calls[n].time - calls[n - 1].time) >= 1.0
  }

  lemma {:induction false} SpacingAdds(rate: real, calls: seq<Call>, i: nat, j: nat)
    requires SpacedOut(rate, calls) && i <= j < |calls|
    ensures Refill(rate, calls[j].time - calls[i].time) >= (j - i) as real
    decreases j
  {
    hide Refill;
    RefillAdds(rate, 0.0, 0.0);
    if i < j {
      SpacingAdds(rate, calls, i, j - 1);
      RefillAdds(rate, calls[j - 1].time - calls[i].time, calls[j].time - calls[j - 1].time);
    }
  }

  lemma {:induction false} AllowedAtMostAll(calls: seq<Call>)
    ensures Allowed(calls) <= |calls|
  {
    if calls != [] {
      AllowedAtMostAll(calls[..|calls| - 1]);
    }
  }

  /** A bucket of capacity at least one never refuses requests a refill period apart. */
  lemma SpacedCallsPass(cap: real, rate: real, created: real, calls: seq<Call>, n: nat)
    requires cap >= 1.0 && rate >= 0.0 && InOrder(created, calls) && SpacedOut(rate, calls)
    requires Granted(cap, rate, created, calls) && n < |calls|
    ensures calls[n].ok
  {
    hide Refill, SpacedOut, Free, InOrder;
    forall j: nat | j <= n ensures 1.0 <= Free(cap, rate, created, calls[..n], j, calls[n].time) {
      SpacedWindowHasRoom(cap, rate, created, calls, n, j);
    }
  }

  lemma SpacedWindowHasRoom(cap: real, rate: real, created: real, calls: seq<Call>, n: nat, j: nat)
    requires cap >= 1.0 && rate >= 0.0 && InOrder(created, calls) && SpacedOut(rate, calls) && j <= n < |calls|
    ensures 1.0 <= Free(cap, rate, created, calls[..n], j, calls[n].time)
  {
    hide Refill, SpacedOut;
    var before := calls[..n];
    AllowedAtMostAll(before[j..]);
    if j < n {
      SpacingAdds(rate, calls, j, n);
    } else {
      AllowedAtMostAll(before);
      SpacingAdds(rate, calls, 0, n);
      RefillMonotone(rate, calls[n].time - calls[0].time, calls[n].time - created);
    }
  }
}
