/** How far the stream scheduler can fall behind.

    Each pass of the main loop may begin a stream, may advance the clock by one tick, and then
    runs at most one pending stream.  With `Load` the sum of 1 / rate over the live streams, the
    potential "pending runs plus elapsed fractions of the periods" grows by `Load` per tick and
    drops by one per run. */
module StreamBacklog {
  import opened Wrappers
  import opened StreamTable

  // ---- sums over the live streams -------------------------------------------------------------

  ghost function Live(streams: seq<Stream>): nat {
    if streams == [] then 0 else Live(streams[1..]) + (if streams[0].Live() then 1 else 0)
  }

  ghost function Pending(streams: seq<Stream>): nat {
    if streams == [] then 0 else Pending(streams[1..]) + (if streams[0].Live() then streams[0].queued else 0)
  }

  ghost function Share(s: Stream): real
    requires s.Live() ==> s.rate > 0
  {
    if s.Live() then 1.0 / s.rate as real else 0.0
  }

  /** The part of the current period that has passed. */
  ghost function Elapsed(s: Stream): real
    requires s.Live() ==> s.rate > 0
  {
    if s.Live() then (s.rate - s.remaining) as real / s.rate as real else 0.0
  }

  ghost predicate Timed(streams: seq<Stream>) {
    forall i :: 0 <= i < |streams| && streams[i].Live() ==> 1 <= streams[i].remaining <= streams[i].rate < 0x1_0000
  }

  ghost function Load(streams: seq<Stream>): real
    requires Timed(streams)
  {
    if streams == [] then 0.0 else Load(streams[1..]) + Share(streams[0])
  }

  ghost function Progress(streams: seq<Stream>): real
    requires Timed(streams)
  {
    if streams == [] then 0.0 else Progress(streams[1..]) + Elapsed(streams[0])
  }

  ghost function Potential(streams: seq<Stream>): real
    requires Timed(streams)
  {
    Pending(streams) as real + Progress(streams)
  }

  // ---- one entry ------------------------------------------------------------------------------

  lemma ElapsedBounds(s: Stream)
    requires s.Live() ==> 1 <= s.remaining <= s.rate
    ensures 0.0 <= Elapsed(s) && (s.Live() ==> Elapsed(s) < 1.0)
  {
    if s.Live() {
      var d, r := (s.rate - s.remaining) as real, s.rate as real;
      assert (d / r) * r == d;
    }
  }

  /** A tick adds the stream's share: either to the elapsed fraction, or by trading the whole
      period for one pending run. */
  lemma TickAddsShare(s: Stream)
    requires s.Live() && 1 <= s.remaining <= s.rate < 0x1_0000 && s.queued < 255
    ensures var s' := TickStream(s);
            s'.queued as real + Elapsed(s') == s.queued as real + Elapsed(s) + Share(s)
  {
    var r := s.rate as real;
    assert (s.remaining + 0xFFFF) % 0x1_0000 == s.remaining - 1;
    assert (s.rate - s.remaining) as real / r + 1.0 / r == (s.rate - s.remaining + 1) as real / r;
    if s.remaining == 1 {
      assert r / r == 1.0;
    }
  }

  // ---- sums under the operations --------------------------------------------------------------

  lemma {:induction false} SumBounds(streams: seq<Stream>)
    requires Timed(streams)
    ensures 0.0 <= Progress(streams) <= Live(streams) as real <= |streams| as real
    ensures Live(streams) > 0 ==> Progress(streams) < Live(streams) as real
    ensures 0.0 <= Load(streams)
  {
    if streams != [] {
      SumBounds(streams[1..]);
      ElapsedBounds(streams[0]);
    }
  }

  /** Replacing one entry changes each sum by the difference of that entry. */
  lemma {:induction false} SumsUpdate(streams: seq<Stream>, i: nat, s: Stream)
    requires i < |streams| && Timed(streams)
    requires s.Live() ==> 1 <= s.remaining <= s.rate < 0x1_0000
    ensures Timed(streams[i := s])
    ensures Live(streams[i := s]) + (if streams[i].Live() then 1 else 0)
            == Live(streams) + (if s.Live() then 1 else 0)
    ensures Pending(streams[i := s]) + (if streams[i].Live() then streams[i].queued else 0)
            == Pending(streams) + (if s.Live() then s.queued else 0)
    ensures Load(streams[i := s]) + Share(streams[i]) == Load(streams) + Share(s)
    ensures Progress(streams[i := s]) + Elapsed(streams[i]) == Progress(streams) + Elapsed(s)
  {
    if i == 0 {
      assert streams[i := s][1..] == streams[1..];
    } else {
      assert streams[i := s][1..] == streams[1..][i - 1 := s];
      SumsUpdate(streams[1..], i - 1, s);
    }
  }

  lemma {:induction false} PendingMember(streams: seq<Stream>, i: nat)
    requires i < |streams| && streams[i].Live()
    ensures streams[i].queued <= Pending(streams)
  {
    if i > 0 {
      PendingMember(streams[1..], i - 1);
    }
  }

  lemma TickTimes(s: Stream)
    requires s.Live() ==> 1 <= s.remaining <= s.rate < 0x1_0000
    ensures var s' := TickStream(s);
            && s'.Live() == s.Live() && s'.rate == s.rate
            && (s.Live() ==> 1 <= s'.remaining <= s'.rate)
  {
    if s.Live() {
      assert (s.remaining + 0xFFFF) % 0x1_0000 == s.remaining - 1;
    }
  }

  lemma TickAllTimes(streams: seq<Stream>)
    requires Timed(streams)
    ensures Timed(TickAll(streams))
  {
    hide TickStream;
    forall i | 0 <= i < |streams| && TickAll(streams)[i].Live()
      ensures var s := TickAll(streams)[i]; 1 <= s.remaining <= s.rate < 0x1_0000
    {
      TickTimes(streams[i]);
    }
  }

  lemma {:induction false} TickSums(streams: seq<Stream>)
    requires Timed(streams)
    requires forall i :: 0 <= i < |streams| && streams[i].Live() ==> streams[i].queued < 255
    ensures Timed(TickAll(streams))
    ensures Live(TickAll(streams)) == Live(streams) && Load(TickAll(streams)) == Load(streams)
    ensures Potential(TickAll(streams)) == Potential(streams) + Load(streams)
  {
    hide TickStream, Share, Elapsed;
    TickAllTimes(streams);
    if streams != [] {
      TickSums(streams[1..]);
      assert TickAll(streams)[1..] == TickAll(streams[1..]);
      TickTimes(streams[0]);
      SameShare(streams[0]);
      if streams[0].Live() {
        TickAddsShare(streams[0]);
      }
    }
  }

  lemma SameShare(s: Stream)
    requires s.Live() ==> 1 <= s.remaining <= s.rate < 0x1_0000
    ensures TickStream(s).Live() == s.Live() && (s.Live() ==> TickStream(s).rate == s.rate)
    ensures Share(TickStream(s)) == Share(s)
    ensures !s.Live() ==> Elapsed(TickStream(s)) == 0.0 && Elapsed(s) == 0.0 && Share(s) == 0.0
  {}

  // ---- passes of the main loop ------------------------------------------------------------------

  /** One pass: a line may begin a stream, the timer may have expired, and one pending run is
      performed, whose command either answers (0) or stays silent (0xff). */
  datatype Pass = Pass(begin: Option<Begin>, tick: bool, silent: bool)

  function AfterLine(t: Table, p: Pass): Table {
    if p.begin.Some? then DoBegin(t, p.begin.value) else t
  }

  function AfterTimer(t: Table, p: Pass): Table {
    if p.tick then Tick(AfterLine(t, p)) else AfterLine(t, p)
  }

  function AfterPass(t: Table, p: Pass): Table {
    Poll(AfterTimer(t, p), if p.silent then 0xFF else 0)
  }

  ghost predicate PassesFit(passes: seq<Pass>) {
    forall i :: 0 <= i < |passes| && passes[i].begin.Some? ==> passes[i].begin.value.Typed()
  }

  /** The table after the first `k` passes. */
  function TableAt(t: Table, passes: seq<Pass>, k: nat): Table
    requires k <= |passes|
  {
    if k == 0 then t else AfterPass(TableAt(t, passes, k - 1), passes[k - 1])
  }

  /** Less than one pending run per live stream, counting started periods as fractions. */
  ghost predicate Calm(t: Table) {
    && Scheduled(t.streams)
    && Timed(t.streams)
    && if Live(t.streams) == 0 then Potential(t.streams) == 0.0
       else Potential(t.streams) < Live(t.streams) as real
  }

  lemma ScheduledIsTimed(t: Table)
    requires Scheduled(t.streams)
    ensures Timed(t.streams)
  {
    forall i | 0 <= i < |t.streams| && t.streams[i].Live()
      ensures 1 <= t.streams[i].remaining <= t.streams[i].rate < 0x1_0000
    {
      assert EntryOk(t.streams[i]);
    }
  }

  lemma BeginKeepsCalm(t: Table, b: Begin)
    requires Calm(t) && b.Typed()
    ensures Calm(DoBegin(t, b)) && Load(t.streams) <= Load(DoBegin(t, b).streams)
  {
    BeginAddsLoad(t, b);
    if Check(t, b).Done? {
      InStepAgrees(t.streams, Entry(t, b).rate, |t.streams|);
      SumsUpdate(t.streams, FirstFree(t.streams, 0), Entry(t, b));
      ElapsedBounds(Entry(t, b));
    }
  }

  lemma TickDoesNotWrap(t: Table)
    requires Timed(t.streams)
    requires forall i :: 0 <= i < |t.streams| && t.streams[i].Live() ==> t.streams[i].queued < 255
    ensures NoWrap(t)
  {}

  lemma TickKeepsBound(t: Table)
    requires Calm(t) && |t.streams| <= 255 && Load(t.streams) <= 1.0
    ensures Scheduled(Tick(t).streams) && Timed(Tick(t).streams)
    ensures Live(Tick(t).streams) == Live(t.streams) && Load(Tick(t).streams) == Load(t.streams)
    ensures Potential(Tick(t).streams) < Live(t.streams) as real + 1.0
    ensures Pending(Tick(t).streams) <= Live(t.streams)
    ensures Live(t.streams) == 0 ==> Potential(Tick(t).streams) == 0.0
    ensures NoWrap(t)
  {
    hide NoWrap, Scheduled;
    SumBounds(t.streams);
    TickKeepsScheduled(t.streams);
    forall i | 0 <= i < |t.streams| && t.streams[i].Live() ensures t.streams[i].queued < 255 {
      PendingMember(t.streams, i);
    }
    TickDoesNotWrap(t);
    TickSums(t.streams);
    SumBounds(Tick(t).streams);
    if Live(t.streams) == 0 {
      NothingLive(t.streams);
      NothingLive(Tick(t).streams);
    }
  }

  lemma {:induction false} NothingLive(streams: seq<Stream>)
    requires Timed(streams) && Live(streams) == 0
    ensures Potential(streams) == 0.0
  {
    if streams != [] {
      NothingLive(streams[1..]);
    }
  }

  /** In this tick every counter that is incremented really grows by one. */
  ghost predicate NoWrap(t: Table) {
    forall i :: 0 <= i < |t.streams| && t.streams[i].Live() && t.streams[i].remaining == 1 ==>
      TickStream(t.streams[i]).queued == t.streams[i].queued + 1
  }

  lemma {:induction false} PendingIsSome(streams: seq<Stream>, i: nat)
    requires i <= |streams| && FirstPending(streams, i) == |streams|
    ensures Pending(streams[i..]) == 0
    decreases |streams| - i
  {
    if i < |streams| {
      PendingIsSome(streams, i + 1);
      assert streams[i..][1..] == streams[i + 1..];
    }
  }

  /** A poll performs one pending run if there is any. */
  lemma PollRunsOne(t: Table, silent: bool)
    requires Scheduled(t.streams) && Timed(t.streams)
    ensures var t' := Poll(t, if silent then 0xFF else 0);
            && Scheduled(t'.streams) && Timed(t'.streams)
            && Live(t'.streams) == Live(t.streams) && Load(t'.streams) == Load(t.streams)
            && Progress(t'.streams) == Progress(t.streams)
            && Pending(t'.streams) == if Pending(t.streams) == 0 then 0 else Pending(t.streams) - 1
  {
    PollKeepsScheduled(t, if silent then 0xFF else 0);
    var i := FirstPending(t.streams, 0);
    if i == |t.streams| {
      PendingIsSome(t.streams, 0);
      assert t.streams[0..] == t.streams;
    } else {
      SumsUpdate(t.streams, i, t.streams[i].(queued := t.streams[i].queued - 1));
      PendingMember(t.streams, i);
    }
  }

  lemma PassKeepsSize(t: Table, p: Pass)
    ensures |AfterLine(t, p).streams| == |AfterTimer(t, p).streams| == |AfterPass(t, p).streams| == |t.streams|
  {}

  lemma PassKeepsCalm(t: Table, p: Pass)
    requires Calm(t) && |t.streams| <= 255 && (p.begin.Some? ==> p.begin.value.Typed())
    requires p.begin.Some? ==> !Escapes(t, p.begin.value)
    requires Timed(AfterPass(t, p).streams) && Load(AfterPass(t, p).streams) <= 1.0
    ensures Calm(AfterPass(t, p)) && |AfterPass(t, p).streams| == |t.streams|
    ensures Load(t.streams) <= Load(AfterPass(t, p).streams)
    ensures Pending(AfterTimer(t, p).streams) <= Live(AfterTimer(t, p).streams)
    ensures p.tick ==> NoWrap(AfterLine(t, p))
  {
    PassKeepsSize(t, p);
    hide DoBegin, Tick, Poll, Load, Live, Progress, Pending, Scheduled, Timed;
    var a, b := AfterLine(t, p), AfterTimer(t, p);
    if p.begin.Some? {
      BeginKeepsCalm(t, p.begin.value);
    }
    assert Timed(b.streams) && Scheduled(b.streams) && Load(b.streams) == Load(a.streams) by {
      TimerKeepsLoad(a);
    }
    PollRunsOne(b, p.silent);
    SumBounds(b.streams);
    if p.tick {
      TickKeepsBound(a);
    }
  }

  lemma {:induction false} TimerLoad(streams: seq<Stream>)
    requires Timed(streams)
    ensures Timed(TickAll(streams)) && Load(TickAll(streams)) == Load(streams)
    ensures Live(TickAll(streams)) == Live(streams)
  {
    hide TickStream, Share;
    TickAllTimes(streams);
    if streams != [] {
      TimerLoad(streams[1..]);
      assert TickAll(streams)[1..] == TickAll(streams[1..]);
      SameShare(streams[0]);
    }
  }

  lemma TimerKeepsLoad(t: Table)
    requires Scheduled(t.streams)
    ensures Scheduled(Tick(t).streams) && Timed(t.streams) && Timed(Tick(t).streams)
    ensures Load(Tick(t).streams) == Load(t.streams) && Live(Tick(t).streams) == Live(t.streams)
  {
    TickKeepsScheduled(t.streams);
    ScheduledIsTimed(t);
    TimerLoad(t.streams);
  }

  // ---- runs ---------------------------------------------------------------------------------------

  ghost predicate Sustainable(t: Table) {
    Timed(t.streams) && Load(t.streams) <= 1.0
  }

  lemma BeginAddsLoad(t: Table, b: Begin)
    requires Scheduled(t.streams) && b.Typed()
    ensures Scheduled(DoBegin(t, b).streams) && Timed(t.streams) && Timed(DoBegin(t, b).streams)
    ensures Load(t.streams) <= Load(DoBegin(t, b).streams)
  {
    ScheduledIsTimed(t);
    BeginKeepsScheduled(t, b);
    if Check(t, b).Done? {
      InStepAgrees(t.streams, Entry(t, b).rate, |t.streams|);
      hide Share, Elapsed, Load, Progress, Pending, Live;
      var i := FirstFree(t.streams, 0);
      SumsUpdate(t.streams, i, Entry(t, b));
      SharePositive(Entry(t, b));
      SharePositive(t.streams[i]);
    }
  }

  lemma SharePositive(s: Stream)
    requires s.Live() ==> s.rate > 0
    ensures Share(s) >= 0.0 && (!s.Live() ==> Share(s) == 0.0)
  {}

  lemma PassLoad(t: Table, p: Pass)
    requires Scheduled(t.streams) && (p.begin.Some? ==> p.begin.value.Typed())
    ensures Scheduled(AfterPass(t, p).streams) && Timed(t.streams) && Timed(AfterPass(t, p).streams)
    ensures Load(t.streams) <= Load(AfterPass(t, p).streams)
  {
    ScheduledIsTimed(t);
    if p.begin.Some? {
      BeginAddsLoad(t, p.begin.value);
    }
    TimerKeepsLoad(AfterLine(t, p));
    PollRunsOne(AfterTimer(t, p), p.silent);
  }

  /** The load never falls along a run of passes. */
  lemma {:induction false} LoadGrows(t: Table, passes: seq<Pass>, k: nat, n: nat)
    requires Scheduled(t.streams) && PassesFit(passes) && k <= n <= |passes|
    ensures Scheduled(TableAt(t, passes, k).streams) && Scheduled(TableAt(t, passes, n).streams)
    ensures Timed(TableAt(t, passes, k).streams) && Timed(TableAt(t, passes, n).streams)
    ensures Load(TableAt(t, passes, k).streams) <= Load(TableAt(t, passes, n).streams)
    decreases n
  {
    hide AfterPass;
    if n == 0 {
      ScheduledIsTimed(t);
    } else if k < n {
      LoadGrows(t, passes, k, n - 1);
      PassLoad(TableAt(t, passes, n - 1), passes[n - 1]);
    } else {
      LoadGrows(t, passes, n - 1, n - 1);
      PassLoad(TableAt(t, passes, n - 1), passes[n - 1]);
    }
  }

  /** The text of pass `k` leaves the pool. */
  ghost predicate EscapesIn(t: Table, passes: seq<Pass>, k: nat)
    requires k < |passes|
  {
    passes[k].begin.Some? && Escapes(TableAt(t, passes, k), passes[k].begin.value)
  }

  /** While streams are only added, no text leaves the pool and the final load is at most one, no more runs are pending
      than streams are live, before and after every poll, so no 8-bit counter ever wraps. */
  lemma {:induction false} BacklogBound(t: Table, passes: seq<Pass>, k: nat)
    requires Calm(t) && |t.streams| <= 255 && PassesFit(passes) && k <= |passes|
    requires Sustainable(TableAt(t, passes, |passes|))
    requires forall n :: 0 <= n < |passes| ==> !EscapesIn(t, passes, n)
    ensures Calm(TableAt(t, passes, k)) && |TableAt(t, passes, k).streams| == |t.streams|
    ensures Pending(TableAt(t, passes, k).streams) <= Live(TableAt(t, passes, k).streams)
    ensures k < |passes| ==>
              var u := TableAt(t, passes, k);
              && Pending(AfterTimer(u, passes[k]).streams) <= Live(AfterTimer(u, passes[k]).streams)
              && (passes[k].tick ==> NoWrap(AfterLine(u, passes[k])))
  {
    hide AfterPass, AfterTimer, AfterLine;
    LoadGrows(t, passes, k, |passes|);
    if k > 0 {
      BacklogBound(t, passes, k - 1);
      assert !EscapesIn(t, passes, k - 1);
      PassKeepsCalm(TableAt(t, passes, k - 1), passes[k - 1]);
    }
    SumBounds(TableAt(t, passes, k).streams);
    if k < |passes| {
      LoadGrows(t, passes, k + 1, |passes|);
      assert !EscapesIn(t, passes, k);
      PassKeepsCalm(TableAt(t, passes, k), passes[k]);
    }
  }

  /** A firmware that has just started is calm. */
  lemma {:induction false} EmptyIsCalm(entries: nat, slots: nat)
    ensures Calm(Empty(entries, slots))
  {
    NoneLive(Empty(entries, slots).streams);
    NothingLive(Empty(entries, slots).streams);
  }

  lemma {:induction false} NoneLive(streams: seq<Stream>)
    requires forall i :: 0 <= i < |streams| ==> !streams[i].Live()
    ensures Live(streams) == 0
  {
    if streams != [] {
      NoneLive(streams[1..]);
    }
  }

  // ---- the load condition is exact ------------------------------------------------------------------

  ghost function Times(n: nat, x: real): real {
    if n == 0 then 0.0 else Times(n - 1, x) + x
  }

  ghost predicate OnlyTicks(passes: seq<Pass>) {
    forall i :: 0 <= i < |passes| ==> passes[i].tick && passes[i].begin.None?
  }

  lemma OverloadedPass(t: Table, p: Pass)
    requires Scheduled(t.streams) && Timed(t.streams) && p.tick && p.begin.None?
    requires Pending(t.streams) < 255
    ensures var t' := AfterPass(t, p);
            && Scheduled(t'.streams) && Timed(t'.streams)
            && Live(t'.streams) == Live(t.streams) && Load(t'.streams) == Load(t.streams)
            && Potential(t'.streams) >= Potential(t.streams) + (Load(t.streams) - 1.0)
            && (Pending(t'.streams) > 0 ==> Pending(t'.streams) < Pending(AfterTimer(t, p).streams))
  {
    forall i | 0 <= i < |t.streams| && t.streams[i].Live() ensures t.streams[i].queued < 255 {
      PendingMember(t.streams, i);
    }
    TickSums(t.streams);
    TickKeepsScheduled(t.streams);
    PollRunsOne(Tick(t), p.silent);
  }

  /** The bound holds when pass `j` is about to poll. */
  ghost predicate WithinBound(t: Table, passes: seq<Pass>, j: nat)
    requires j < |passes|
  {
    Pending(AfterTimer(TableAt(t, passes, j), passes[j]).streams) <= Live(t.streams)
  }

  lemma {:induction false} OverloadGrows(t: Table, passes: seq<Pass>, k: nat)
    requires Calm(t) && |t.streams| < 255 && OnlyTicks(passes) && k <= |passes|
    requires forall j :: 0 <= j < k ==> WithinBound(t, passes, j)
    ensures var u := TableAt(t, passes, k);
            && Scheduled(u.streams) && Timed(u.streams)
            && Live(u.streams) == Live(t.streams) && Load(u.streams) == Load(t.streams)
            && Pending(u.streams) <= Live(t.streams)
            && Potential(u.streams) >= Times(k, Load(t.streams) - 1.0)
  {
    hide AfterPass, AfterTimer, Scheduled, Timed;
    SumBounds(t.streams);
    if k > 0 {
      OverloadGrows(t, passes, k - 1);
      var u := TableAt(t, passes, k - 1);
      assert WithinBound(t, passes, k - 1);
      OverloadedPass(u, passes[k - 1]);
    }
  }

  /** With a load above one the bound fails: left alone for long enough, the scheduler has more
      runs pending than streams. */
  lemma OverloadExceedsBound(t: Table, passes: seq<Pass>)
    requires Calm(t) && |t.streams| < 255 && OnlyTicks(passes)
    requires Times(|passes|, Load(t.streams) - 1.0) > 2.0 * Live(t.streams) as real
    ensures exists j :: 0 <= j < |passes| && !WithinBound(t, passes, j)
  {
    hide WithinBound;
    if forall j :: 0 <= j < |passes| ==> WithinBound(t, passes, j) {
      OverloadGrows(t, passes, |passes|);
      SumBounds(TableAt(t, passes, |passes|).streams);
    }
  }

  /** Such a length always exists. */
  lemma LongEnough(x: real, bound: real) returns (n: nat)
    requires x > 0.0
    ensures Times(n, x) > bound
  {
    n := if bound < 0.0 then 0 else (bound / x).Floor as int + 1;
    TimesIsProduct(n, x);
    if bound >= 0.0 {
      assert (bound / x) * x == bound;
      assert n as real > bound / x;
    }
  }

  lemma {:induction false} TimesIsProduct(n: nat, x: real)
    ensures Times(n, x) == n as real * x
  {
    if n > 0 {
      TimesIsProduct(n - 1, x);
      assert n as real * x == (n - 1) as real * x + x;
    }
  }

  lemma {:induction false} TicksKeepLoad(t: Table, passes: seq<Pass>, k: nat)
    requires Scheduled(t.streams) && Timed(t.streams) && OnlyTicks(passes) && k <= |passes|
    ensures var u := TableAt(t, passes, k);
            && Scheduled(u.streams) && Timed(u.streams)
            && Load(u.streams) == Load(t.streams) && Live(u.streams) == Live(t.streams)
  {
    hide Scheduled, Timed, Load, Live, Tick, Poll;
    if k > 0 {
      TicksKeepLoad(t, passes, k - 1);
      var u := TableAt(t, passes, k - 1);
      TimerKeepsLoad(u);
      PollRunsOne(Tick(u), passes[k - 1].silent);
    }
  }

  /** Left to itself, a scheduler that has not fallen behind never has more runs pending than
      streams, at any time, if and only if its load is at most one. */
  lemma BoundHoldsIffSustainable(t: Table)
    requires Calm(t) && |t.streams| < 255
    ensures (forall passes: seq<Pass>, j: nat ::
               OnlyTicks(passes) && j < |passes| ==> WithinBound(t, passes, j))
            <==> Load(t.streams) <= 1.0
  {
    if Load(t.streams) <= 1.0 {
      forall passes: seq<Pass>, j: nat | OnlyTicks(passes) && j < |passes| ensures WithinBound(t, passes, j) {
        SustainableStaysWithin(t, passes, j);
      }
    } else {
      var n := LongEnough(Load(t.streams) - 1.0, 2.0 * Live(t.streams) as real);
      var passes := seq(n, _ => Pass(None, true, false));
      OverloadExceedsBound(t, passes);
    }
  }

  lemma SustainableStaysWithin(t: Table, passes: seq<Pass>, j: nat)
    requires Calm(t) && |t.streams| < 255 && OnlyTicks(passes) && j < |passes| && Load(t.streams) <= 1.0
    ensures WithinBound(t, passes, j)
  {
    hide Scheduled, Timed, Load, Live, Progress, Pending, Tick, Poll, AfterPass;
    TicksKeepLoad(t, passes, |passes|);
    TicksKeepLoad(t, passes, j);
    TimerKeepsLoad(TableAt(t, passes, j));
    BacklogBound(t, passes, j);
  }
}
