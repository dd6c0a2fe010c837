/**
 Wrapping command sequence numbers: how the backend issues them, how the flight controller
 judges them, and the unbounded counter both refine.
 */
module CmdSeq {
  import opened Wrappers
  import opened Bytes

  const CMD_SEQ_MAX := 0x7FFF_FFFF
  const CMD_SEQ_MOD := 0x8000_0000
  const CMD_SEQ_HALF := 0x4000_0000

  /** The backend's order: ahead by at most half the space, modulo the space. */
  predicate SeqAdvances(prev: int, candidate: int) {
    0 < (candidate - prev) % CMD_SEQ_MOD <= CMD_SEQ_HALF
  }

  /** The flight controller's order: the difference as an unsigned 32-bit word, masked to 31 bits. */
  predicate MaskAdvances(prev: int, candidate: int) {
    var diff := And((candidate - prev) % 0x1_0000_0000, CMD_SEQ_MOD - 1);
    diff > 0 && diff <= CMD_SEQ_HALF
  }

  lemma Pow2Of31()
    ensures Pow2(31) == CMD_SEQ_MOD
  {
    assert Pow2(4) == 16;
    assert Pow2(8) == 256;
    assert Pow2(12) == 4096;
    assert Pow2(16) == 65536;
    assert Pow2(20) == 0x10_0000;
    assert Pow2(24) == 0x100_0000;
    assert Pow2(28) == 0x1000_0000;
  }

  /** The two sides judge every pair of numbers alike. */
  lemma SidesAgree(prev: int, candidate: int)
    ensures MaskAdvances(prev, candidate) == SeqAdvances(prev, candidate)
  {
    hide And, Pow2;
    var d := candidate - prev;
    Pow2Of31();
    MaskIsRemainder(d % 0x1_0000_0000, 31);
    assert d % 0x1_0000_0000 % CMD_SEQ_MOD == d % CMD_SEQ_MOD;
  }

  // ------------------------------------------------------- the unbounded counter

  /** The wire shows an index modulo the space; the order sees the index distance modulo the space. */
  lemma OrderOfIndices(a: nat, c: nat)
    ensures SeqAdvances(a % CMD_SEQ_MOD, c % CMD_SEQ_MOD) <==> 0 < (c - a) % CMD_SEQ_MOD <= CMD_SEQ_HALF
  {
    assert (c % CMD_SEQ_MOD - a % CMD_SEQ_MOD) % CMD_SEQ_MOD == (c - a) % CMD_SEQ_MOD;
  }

  /** Closer than half the space, a number is accepted exactly when its index is new; an older one is refused. */
  lemma AcceptedIffNew(a: nat, c: nat)
    requires a - CMD_SEQ_HALF < c <= a + CMD_SEQ_HALF
    ensures SeqAdvances(a % CMD_SEQ_MOD, c % CMD_SEQ_MOD) <==> c > a
  {
    OrderOfIndices(a, c);
    if c < a {
      assert (c - a) % CMD_SEQ_MOD == c - a + CMD_SEQ_MOD;
    }
  }

  /**
   The order is total on different numbers, and it fails to be antisymmetric exactly at half the
   space, where each of the two is ahead of the other.
   */
  lemma AmbiguousIffHalfway(a: int, c: int)
    ensures SeqAdvances(a, c) || SeqAdvances(c, a) <==> (c - a) % CMD_SEQ_MOD != 0
    ensures SeqAdvances(a, c) && SeqAdvances(c, a) <==> (c - a) % CMD_SEQ_MOD == CMD_SEQ_HALF
  {
    var d := (c - a) % CMD_SEQ_MOD;
    if d == 0 {
      assert (a - c) % CMD_SEQ_MOD == 0;
    } else {
      assert (a - c) % CMD_SEQ_MOD == CMD_SEQ_MOD - d;
    }
  }

  // ---------------------------------------------------------------- issuing

  function ClampedSeq(n: int): (r: nat)
    ensures r <= CMD_SEQ_MAX
  {
    if n < 0 then 0 else if n > CMD_SEQ_MAX then CMD_SEQ_MAX else n
  }

  /** Going on from `index` by the distance to `m` modulo the space leads to `m`. */
  lemma ReachesTarget(index: nat, m: nat)
    requires m < CMD_SEQ_MOD
    ensures (index + (m - index % CMD_SEQ_MOD) % CMD_SEQ_MOD) % CMD_SEQ_MOD == m
  {
    var q, low := index / CMD_SEQ_MOD, index % CMD_SEQ_MOD;
    assert index == q * CMD_SEQ_MOD + low;
    if m >= low {
      assert (m - low) % CMD_SEQ_MOD == m - low;
      assert index + (m - low) == q * CMD_SEQ_MOD + m;
    } else {
      assert (m - low) % CMD_SEQ_MOD == m - low + CMD_SEQ_MOD;
      assert index + (m - low + CMD_SEQ_MOD) == (q + 1) * CMD_SEQ_MOD + m;
    }
  }

  lemma NextNumber(index: nat)
    ensures var n := index % CMD_SEQ_MOD; (index + 1) % CMD_SEQ_MOD == if n >= CMD_SEQ_MAX then 0 else n + 1
  {
    var q, n := index / CMD_SEQ_MOD, index % CMD_SEQ_MOD;
    assert index == q * CMD_SEQ_MOD + n;
    if n >= CMD_SEQ_MAX {
      assert index + 1 == (q + 1) * CMD_SEQ_MOD + 0;
    } else {
      assert index + 1 == q * CMD_SEQ_MOD + (n + 1);
    }
  }

  /** The index the counter is moved to by a caller's minimum: forward to it, or nowhere. */
  function Bumped(index: nat, minimum: int): (r: nat)
    ensures index <= r <= index + CMD_SEQ_HALF
    ensures var m := ClampedSeq(minimum);
            if SeqAdvances(index % CMD_SEQ_MOD, m) then r > index && r % CMD_SEQ_MOD == m else r == index
  {
    var d := (ClampedSeq(minimum) - index % CMD_SEQ_MOD) % CMD_SEQ_MOD;
    ReachesTarget(index, ClampedSeq(minimum));
    if 0 < d <= CMD_SEQ_HALF then index + d else index
  }

  /** `int(time.monotonic() * 1000.0)`: whole milliseconds. */
  function Millis(t: real): int {
    (t * 1000.0).Floor
  }

  class SharedState {
    var cmdNextSeq: int
    /** The unbounded index of the next number. */
    ghost var index: nat

    ghost predicate Valid()
      reads this
    {
      cmdNextSeq == index % CMD_SEQ_MOD
    }

    constructor (now: real)
      requires now >= 0.0
      ensures Valid() && index == Millis(now)
    {
      cmdNextSeq := Millis(now) % CMD_SEQ_MOD;
      index := Millis(now);
    }

    /** A backend start: the counter is seeded from the monotonic clock again. */
    method Reset(now: real)
      requires now >= 0.0
      modifies this
      ensures Valid() && index == Millis(now)
    {
      cmdNextSeq := Millis(now) % CMD_SEQ_MOD;
      index := Millis(now);
    }

    method EnsureCmdSeqMinimum(minimum: int)
      requires Valid()
      modifies this
      ensures Valid() && index == Bumped(old(index), minimum)
    {
      ghost var bumped := Bumped(index, minimum);
      var m := ClampedSeq(minimum);
      if SeqAdvances(cmdNextSeq, m) {
        cmdNextSeq := m;
      }
      index := bumped;
    }

    /** Issues the next number, moved forward by a caller's minimum first. */
    method ReserveCmdSeq(minimum: Option<int>) returns (n: int)
      requires Valid()
      modifies this
      ensures Valid()
      ensures var issued := if minimum.Some? then Bumped(old(index), minimum.value) else old(index);
              n == issued % CMD_SEQ_MOD && index == issued + 1
      ensures 0 <= n <= CMD_SEQ_MAX
    {
      if minimum.Some? {
        EnsureCmdSeqMinimum(minimum.value);
      }
      n := cmdNextSeq;
      NextNumber(index);
      cmdNextSeq := if n >= CMD_SEQ_MAX then 0 else n + 1;
      index := index + 1;
    }
  }

  // ----------------------------------------------------------------- restarts

  /** A loop tick that issues a number, or a restart, at a clock reading. */
  datatype Event = Issue(time: real) | Restart(time: real)

  /** The unbounded indices issued, counting from `next`; a restart reseeds the counter. */
  function Issued(next: int, events: seq<Event>): seq<int>
    decreases |events|
  {
    if events == [] then []
    else
      match events[0]
      case Issue(_) => [next] + Issued(next + 1, events[1..])
      case Restart(t) => Issued(Millis(t), events[1..])
  }

  /** The numbers a backend puts on the wire, start after start, are the issued indices modulo the space. */
  method Backend(start: real, events: seq<Event>) returns (wire: seq<int>)
    requires start >= 0.0 && forall i | 0 <= i < |events| :: events[i].time >= 0.0
    ensures |wire| == |Issued(Millis(start), events)|
    ensures forall i | 0 <= i < |wire| :: wire[i] == Issued(Millis(start), events)[i] % CMD_SEQ_MOD
  {
    var state := new SharedState(start);
    wire := [];
    ghost var issued := Issued(Millis(start), events);
    ghost var done: seq<int> := [];
    for k := 0 to |events|
      invariant state.Valid() && fresh(state)
      invariant issued == done + Issued(state.index, events[k..])
      invariant |wire| == |done| && forall i | 0 <= i < |wire| :: wire[i] == done[i] % CMD_SEQ_MOD
    {
      assert events[k..][0] == events[k] && events[k..][1..] == events[k + 1..];
      match events[k]
      case Issue(_) =>
        done := done + [state.index];
        var n := state.ReserveCmdSeq(None);
        wire := wire + [n];
      case Restart(t) =>
        state.Reset(t);
    }
    assert events[|events|..] == [];
  }

  // ------------------------------------------------- exactly when nothing repeats

  /** One life of the backend: when it was seeded, and how many numbers it issued before the next start. */
  datatype Life = Life(start: real, issued: nat)

  /** The lives of a run, of which the first has issued `issued` numbers already. */
  function Lives(start: real, issued: nat, events: seq<Event>): seq<Life>
    decreases |events|
  {
    if events == [] then [Life(start, issued)]
    else
      match events[0]
      case Issue(_) => Lives(start, issued + 1, events[1..])
      case Restart(t) => [Life(start, issued)] + Lives(t, 0, events[1..])
  }

  /** `n` indices counted up from `first`. */
  function CountUp(first: int, n: nat): (r: seq<int>)
    ensures |r| == n && forall k | 0 <= k < n :: r[k] == first + k
  {
    seq(n, k requires 0 <= k < n => first + k)
  }

  /** The indices that the lives issue, one after another. */
  function Numbers(lives: seq<Life>): seq<int> {
    if lives == [] then [] else CountUp(Millis(lives[0].start), lives[0].issued) + Numbers(lives[1..])
  }

  /** A run issues what its lives issue. */
  lemma {:induction false} IssuedByLives(start: real, issued: nat, events: seq<Event>)
    ensures CountUp(Millis(start), issued) + Issued(Millis(start) + issued, events)
         == Numbers(Lives(start, issued, events))
    decreases |events|
  {
    hide Millis, CountUp, Numbers;
    var first := Millis(start);
    if events == [] {
      NumbersOfOne(Life(start, issued));
    } else {
      var rest := events[1..];
      match events[0]
      case Issue(_) =>
        IssuedByLives(start, issued + 1, rest);
        CountUpNext(first, issued);
        Associative(CountUp(first, issued), [first + issued], Issued(first + issued + 1, rest));
      case Restart(t) =>
        IssuedByLives(t, 0, rest);
        NumbersOfFirst(Life(start, issued), Lives(t, 0, rest));
        CountUpNothing(Millis(t), Issued(Millis(t), rest));
    }
  }

  lemma NumbersOfFirst(life: Life, lives: seq<Life>)
    ensures Numbers([life] + lives) == CountUp(Millis(life.start), life.issued) + Numbers(lives)
  {
    assert ([life] + lives)[1..] == lives;
  }

  lemma NumbersOfOne(life: Life)
    ensures Numbers([life]) == CountUp(Millis(life.start), life.issued) + []
  {
    assert [life][1..] == [];
  }

  lemma CountUpNext(first: int, n: nat)
    ensures CountUp(first, n + 1) == CountUp(first, n) + [first + n]
  {
  }

  lemma CountUpNothing(first: int, s: seq<int>)
    ensures CountUp(first, 0) + s == s
  {
  }

  predicate Increasing(s: seq<int>) {
    forall i, j | 0 <= i < j < |s| :: s[i] < s[j]
  }

  /**
   No life has issued more numbers than milliseconds went by from its start to the start of any
   later life that issues one.
   */
  predicate SeedsAhead(lives: seq<Life>) {
    forall i, j | 0 <= i < j < |lives| && lives[i].issued > 0 && lives[j].issued > 0 ::
      lives[i].issued <= Millis(lives[j].start) - Millis(lives[i].start)
  }

  /** Every life that issues a number is seeded at or above `floor`. */
  predicate SeededFrom(floor: int, lives: seq<Life>) {
    forall j | 0 <= j < |lives| && lives[j].issued > 0 :: Millis(lives[j].start) >= floor
  }

  predicate AllFrom(floor: int, s: seq<int>) {
    forall i | 0 <= i < |s| :: s[i] >= floor
  }

  lemma IncreasingParts(first: int, n: nat, s: seq<int>)
    ensures Increasing(CountUp(first, n) + s) <==> Increasing(s) && (n > 0 ==> AllFrom(first + n, s))
  {
    var a := CountUp(first, n);
    var t := a + s;
    assert forall i | 0 <= i < |s| :: t[n + i] == s[i];
    if Increasing(t) && n > 0 {
      forall i | 0 <= i < |s| ensures s[i] >= first + n {
        assert t[n - 1] < t[n + i];
      }
    }
    if Increasing(t) {
      forall i, j | 0 <= i < j < |s| ensures s[i] < s[j] {
        assert t[n + i] < t[n + j];
      }
    }
  }

  lemma FromParts(floor: int, first: int, n: nat, s: seq<int>)
    ensures AllFrom(floor, CountUp(first, n) + s) <==> AllFrom(floor, s) && (n > 0 ==> first >= floor)
  {
    var t := CountUp(first, n) + s;
    assert forall i | 0 <= i < |s| :: t[n + i] == s[i];
    assert n > 0 ==> t[0] == first;
    if AllFrom(floor, t) {
      forall i | 0 <= i < |s| ensures s[i] >= floor {
        assert t[n + i] >= floor;
      }
    }
  }

  lemma {:induction false} NumbersFrom(floor: int, lives: seq<Life>)
    ensures AllFrom(floor, Numbers(lives)) <==> SeededFrom(floor, lives)
    decreases |lives|
  {
    if lives != [] {
      NumbersFrom(floor, lives[1..]);
      FromParts(floor, Millis(lives[0].start), lives[0].issued, Numbers(lives[1..]));
      SeededParts(floor, lives);
    }
  }

  lemma SeededParts(floor: int, lives: seq<Life>)
    requires lives != []
    ensures SeededFrom(floor, lives)
       <==> SeededFrom(floor, lives[1..]) && (lives[0].issued > 0 ==> Millis(lives[0].start) >= floor)
  {
    hide Millis;
    assert forall j | 0 < j < |lives| :: lives[j] == lives[1..][j - 1];
  }

  lemma SeedsParts(lives: seq<Life>)
    requires lives != []
    ensures SeedsAhead(lives)
       <==> SeedsAhead(lives[1..])
            && (lives[0].issued > 0 ==> SeededFrom(Millis(lives[0].start) + lives[0].issued, lives[1..]))
  {
    hide Millis;
    var rest := lives[1..];
    assert forall j | 0 < j < |lives| :: lives[j] == rest[j - 1];
    if SeedsAhead(lives) {
      forall i, j | 0 <= i < j < |rest| && rest[i].issued > 0 && rest[j].issued > 0
        ensures rest[i].issued <= Millis(rest[j].start) - Millis(rest[i].start)
      {
        assert rest[i] == lives[i + 1] && rest[j] == lives[j + 1];
      }
      forall j | 0 <= j < |rest| && rest[j].issued > 0 && lives[0].issued > 0
        ensures Millis(rest[j].start) >= Millis(lives[0].start) + lives[0].issued
      {
        assert rest[j] == lives[j + 1];
      }
    }
  }

  lemma {:induction false} NumbersIncrease(lives: seq<Life>)
    ensures Increasing(Numbers(lives)) <==> SeedsAhead(lives)
    decreases |lives|
  {
    hide Millis, Increasing, SeedsAhead, SeededFrom, AllFrom;
    if lives == [] {
      NothingIncreases(lives);
    } else {
      NumbersIncrease(lives[1..]);
      IncreasingParts(Millis(lives[0].start), lives[0].issued, Numbers(lives[1..]));
      NumbersFrom(Millis(lives[0].start) + lives[0].issued, lives[1..]);
      SeedsParts(lives);
    }
  }

  lemma NothingIncreases(lives: seq<Life>)
    requires lives == []
    ensures Increasing([]) && SeedsAhead(lives)
  {
  }

  /**
   Across any number of restarts the issued indices strictly increase if and only if no life has
   issued more numbers than milliseconds went by until the next life that issues one.
   */
  lemma IncreaseIffSeedsAhead(start: real, events: seq<Event>)
    ensures Increasing(Issued(Millis(start), events)) <==> SeedsAhead(Lives(start, 0, events))
  {
    hide Increasing, SeedsAhead, Millis;
    IssuedByLives(start, 0, events);
    assert CountUp(Millis(start), 0) + Issued(Millis(start), events) == Issued(Millis(start), events);
    NumbersIncrease(Lives(start, 0, events));
  }

  /** Events at least a millisecond apart, the first one at least a millisecond after `from`. */
  predicate Spaced(from: real, events: seq<Event>)
    decreases |events|
  {
    events == [] || (events[0].time >= from + 0.001 && Spaced(events[0].time, events[1..]))
  }

  lemma NextMilli(a: real, b: real)
    requires b >= a + 0.001
    ensures Millis(b) >= Millis(a) + 1
  {
  }

  lemma OneLife(start: real, issued: nat)
    ensures SeedsAhead([Life(start, issued)])
  {
  }

  /** Each number of a spaced run takes up a millisecond of its life, and the restart one more. */
  lemma {:induction false} SpacedSeedsAhead(start: real, issued: nat, from: real, events: seq<Event>)
    requires Millis(start) + issued <= Millis(from) && Spaced(from, events)
    ensures var lives := Lives(start, issued, events);
            && lives != [] && lives[0].start == start
            && SeedsAhead(lives) && SeededFrom(Millis(start) + lives[0].issued, lives[1..])
    ensures SeededFrom(Millis(from), Lives(start, issued, events)[1..])
    decreases |events|
  {
    hide Millis, SeedsAhead;
    if events == [] {
      OneLife(start, issued);
    } else {
      var t, rest := events[0].time, events[1..];
      NextMilli(from, t);
      match events[0]
      case Issue(_) => SpacedSeedsAhead(start, issued + 1, t, rest);
      case Restart(_) =>
        SpacedSeedsAhead(t, 0, t, rest);
        var later := Lives(t, 0, rest);
        assert Lives(start, issued, events)[1..] == later;
        SeededParts(Millis(from), later);
        SeededParts(Millis(start) + issued, later);
        SeedsParts(Lives(start, issued, events));
    }
  }

  /**
   Across any number of restarts on one monotonic clock the issued indices strictly increase,
   when ticks and restarts are at least a millisecond apart.
   */
  lemma IssuedStrictlyIncrease(start: real, events: seq<Event>)
    requires Spaced(start, events)
    ensures Increasing(Issued(Millis(start), events))
  {
    SpacedSeedsAhead(start, 0, start, events);
    IncreaseIffSeedsAhead(start, events);
  }

  lemma {:induction false} IssuedFrom(start: real, issued: nat, events: seq<Event>)
    requires start >= 0.0 && forall i | 0 <= i < |events| :: events[i].time >= 0.0
    ensures AllFrom(0, Issued(Millis(start) + issued, events))
    decreases |events|
  {
    if events != [] {
      assert events[0].time >= 0.0;
      match events[0]
      case Issue(_) => IssuedFrom(start, issued + 1, events[1..]);
      case Restart(t) => IssuedFrom(t, 0, events[1..]);
    }
  }

  /** Every later number is accepted after an earlier one while it is at most half the space ahead. */
  lemma LaterIsAccepted(start: real, events: seq<Event>, i: nat, j: nat)
    requires start >= 0.0 && forall k | 0 <= k < |events| :: events[k].time >= 0.0
    requires SeedsAhead(Lives(start, 0, events))
    requires i < j < |Issued(Millis(start), events)|
    requires Issued(Millis(start), events)[j] <= Issued(Millis(start), events)[i] + CMD_SEQ_HALF
    ensures var issued := Issued(Millis(start), events);
            MaskAdvances(issued[i] % CMD_SEQ_MOD, issued[j] % CMD_SEQ_MOD)
  {
    hide MaskAdvances, SeqAdvances, SeedsAhead, Millis;
    var issued := Issued(Millis(start), events);
    IncreaseIffSeedsAhead(start, events);
    IssuedFrom(start, 0, events);
    AcceptedIffNew(issued[i], issued[j]);
    SidesAgree(issued[i] % CMD_SEQ_MOD, issued[j] % CMD_SEQ_MOD);
  }

  // -------------------------------------------------------------- the paced loop

  /** One iteration of the bridge loop: when it starts, when its work ends, when it goes on. */
  datatype Iteration = Iteration(start: real, workEnd: real, issues: bool)

  /** The wait at the end of an iteration covers what is left of the period. */
  predicate Waits(period: real, it: Iteration, next: real) {
    && it.workEnd >= it.start
    && next >= it.workEnd + (if period - (it.workEnd - it.start) > 0.0 then period - (it.workEnd - it.start) else 0.0)
  }

  function TicksOf(run: seq<Iteration>): seq<Event> {
    if run == [] then []
    else (if run[0].issues then [Issue(run[0].start)] else []) + TicksOf(run[1..])
  }

  lemma SpacedLater(from: real, from': real, events: seq<Event>)
    requires from' >= from && Spaced(from', events)
    ensures Spaced(from, events)
  {
  }

  predicate Paced(period: real, run: seq<Iteration>) {
    |run| < 2 || (Waits(period, run[0], run[1].start) && Paced(period, run[1..]))
  }

  /** A loop with a period of at least a millisecond spaces its issuing ticks well enough. */
  lemma {:induction false} LoopIsSpaced(period: real, from: real, run: seq<Iteration>)
    requires period >= 0.001 && Paced(period, run)
    requires run != [] ==> run[0].start >= from + 0.001
    ensures Spaced(from, TicksOf(run))
    decreases |run|
  {
    if run != [] {
      LoopIsSpaced(period, run[0].start, run[1..]);
      if run[0].issues {
        assert TicksOf(run)[1..] == TicksOf(run[1..]);
      } else {
        assert TicksOf(run) == TicksOf(run[1..]);
        SpacedLater(from, run[0].start, TicksOf(run[1..]));
      }
    }
  }

  /** The bridge loop at full speed: `n` iterations, each issuing a number at its start. */
  function FastRun(from: real, period: real, n: nat): seq<Iteration>
    decreases n
  {
    if n == 0 then [] else [Iteration(from, from, true)] + FastRun(from + period, period, n - 1)
  }

  lemma {:induction false} FastRunIsPaced(from: real, period: real, n: nat)
    requires period > 0.0
    ensures Paced(period, FastRun(from, period, n))
    decreases n
  {
    if n > 0 {
      FastRunIsPaced(from + period, period, n - 1);
      assert FastRun(from, period, n)[1..] == FastRun(from + period, period, n - 1);
    }
  }

  lemma LivesIssue(start: real, issued: nat, t: real, events: seq<Event>)
    ensures Lives(start, issued, [Issue(t)] + events) == Lives(start, issued + 1, events)
  {
    assert ([Issue(t)] + events)[1..] == events;
  }

  lemma {:induction false} RunLives(start: real, issued: nat, run: seq<Iteration>, events: seq<Event>)
    ensures Lives(start, issued, TicksOf(run) + events) == Lives(start, issued + |TicksOf(run)|, events)
    decreases |run|
  {
    hide Lives;
    if run == [] {
      assert TicksOf(run) + events == events;
    } else {
      var later := TicksOf(run[1..]);
      if run[0].issues {
        RunLives(start, issued + 1, run[1..], events);
        Associative([Issue(run[0].start)], later, events);
        LivesIssue(start, issued, run[0].start, later + events);
      } else {
        assert TicksOf(run) == later;
        RunLives(start, issued, run[1..], events);
      }
    }
  }

  /** Any run of the bridge loop, a restart at `t`, and the first number of the next life. */
  function RunThenRestart(run: seq<Iteration>, t: real, t': real): seq<Event> {
    TicksOf(run) + [Restart(t), Issue(t')]
  }

  /**
   Whatever the loop's pace, its work and the ticks on which it is not connected: after a restart
   the indices go on increasing if and only if it has issued no more numbers than milliseconds
   went by from its start to the next, or none.
   */
  lemma RestartIff(start: real, run: seq<Iteration>, t: real, t': real)
    ensures var n := |TicksOf(run)|;
            (Increasing(Issued(Millis(start), RunThenRestart(run, t, t')))
             <==> n <= Millis(t) - Millis(start) || n == 0)
  {
    hide Millis, Increasing;
    var n, after, events := |TicksOf(run)|, [Restart(t), Issue(t')], RunThenRestart(run, t, t');
    IncreaseIffSeedsAhead(start, events);
    RunLives(start, 0, run, after);
    assert after[1..] == [Issue(t')] && [Issue(t')][1..] == [];
    assert Lives(t, 1, []) == [Life(t, 1)] && Lives(t, 0, after[1..]) == [Life(t, 1)];
    var lives := [Life(start, n), Life(t, 1)];
    assert Lives(start, 0, events) == lives;
    assert n > 0 && SeedsAhead(lives) ==> lives[0].issued <= Millis(lives[1].start) - Millis(lives[0].start);
  }

  lemma {:induction false} FastRunIssues(from: real, period: real, n: nat)
    ensures |TicksOf(FastRun(from, period, n))| == n
    decreases n
  {
    if n > 0 {
      FastRunIssues(from + period, period, n - 1);
      assert FastRun(from, period, n)[1..] == FastRun(from + period, period, n - 1);
    }
  }

  /** The loop at full speed for `n` iterations, then the backend down for `down` seconds. */
  function FastThenRestart(start: real, period: real, n: nat, down: real): seq<Event> {
    var t := start + n as real * period + down;
    RunThenRestart(FastRun(start, period, n), t, t)
  }

  lemma MillisBetween(a: real, b: real)
    requires a <= b
    ensures (Millis(b) - Millis(a)) as real < (b - a) * 1000.0 + 1.0
  {
  }

  /**
   A bridge loop at full speed with a period below a millisecond has after some time always issued
   numbers that the next start repeats, however long the backend is down before it.
   */
  lemma FastLoopRepeats(start: real, period: real, down: real) returns (n: nat)
    requires start >= 0.0 && 0.0 < period < 0.001 && down >= 0.0
    ensures forall m: nat | m >= n ::
              Paced(period, FastRun(start, period, m))
              && !Increasing(Issued(Millis(start), FastThenRestart(start, period, m, down)))
  {
    hide Millis, Increasing, Paced, FastRun, FastThenRestart;
    var gain := 1.0 - 1000.0 * period;
    n := ((1000.0 * down + 1.0) / gain).Floor + 1;
    forall m: nat | m >= n
      ensures Paced(period, FastRun(start, period, m))
      ensures !Increasing(Issued(Millis(start), FastThenRestart(start, period, m, down)))
    {
      FastRunIsPaced(start, period, m);
      GainCovers(1000.0 * down + 1.0, gain, m);
      LongRunRepeats(start, period, m, down);
    }
  }

  lemma LongRunRepeats(start: real, period: real, n: nat, down: real)
    requires period > 0.0 && down >= 0.0 && n as real * (1.0 - 1000.0 * period) >= 1000.0 * down + 1.0
    ensures !Increasing(Issued(Millis(start), FastThenRestart(start, period, n, down)))
  {
    hide Millis, Increasing, FastRun, RunThenRestart;
    var took := n as real * period;
    assert took * 1000.0 == n as real - n as real * (1.0 - 1000.0 * period);
    assert took >= 0.0;
    MillisBetween(start, start + took + down);
    FastRunIssues(start, period, n);
    RestartIff(start, FastRun(start, period, n), start + took + down, start + took + down);
  }

  lemma GainCovers(need: real, gain: real, n: nat)
    requires need > 0.0 && gain > 0.0 && n >= (need / gain).Floor + 1
    ensures n as real * gain >= need
  {
    var q := need / gain;
    assert n as real >= q;
    assert q * gain == need;
    assert (n as real - q) * gain >= 0.0;
  }
}
