/** When the firmware's streams run: after as many ticks as their rate says, and together with the
    streams of the same rate. */
module StreamTiming {
  import opened Wrappers
  import opened StreamTable

  // ---- one entry over ticks -----------------------------------------------------------------------

  function Ticked(s: Stream, n: nat): Stream {
    if n == 0 then s else TickStream(Ticked(s, n - 1))
  }

  ghost predicate Counting(s: Stream) { s.Live() && 1 <= s.remaining <= s.rate < 0x1_0000 }

  /** How often an entry falls due within `n` ticks. */
  function Due(s: Stream, n: nat): nat
    requires s.rate > 0
  {
    if n < s.remaining then 0 else 1 + (n - s.remaining) / s.rate
  }

  /** What is left of the countdown after `n` ticks. */
  function Left(s: Stream, n: nat): int
    requires s.rate > 0
  {
    if n < s.remaining then s.remaining - n else s.rate - (n - s.remaining) % s.rate
  }

  lemma NextQuotient(m: nat, r: nat)
    requires r > 0
    ensures (m + 1) / r == if m % r == r - 1 then m / r + 1 else m / r
    ensures (m + 1) % r == if m % r == r - 1 then 0 else m % r + 1
  {
    var q, k := m / r, m % r;
    assert m == q * r + k;
    if k == r - 1 {
      assert m + 1 == (q + 1) * r;
      QuotientIs(m + 1, q + 1, 0, r);
    } else {
      QuotientIs(m + 1, q, k + 1, r);
    }
  }

  lemma QuotientIs(x: nat, q: nat, k: nat, r: nat)
    requires r > 0 && k < r && x == q * r + k
    ensures x / r == q && x % r == k
  {
    var d := x / r - q;
    assert x == (x / r) * r + x % r;
    assert d * r == k - x % r;
    if d >= 1 { Multiples(d, r); }
    if d <= -1 { Multiples(-d, r); }
  }

  lemma Multiples(d: int, r: int)
    requires d >= 1 && r > 0
    ensures d * r >= r
  {}

  lemma TickCounts(s: Stream)
    requires Counting(s)
    ensures var s' := TickStream(s);
            && Counting(s') && s'.rate == s.rate
            && (s.remaining > 1 ==> s'.remaining == s.remaining - 1 && s'.queued == s.queued)
            && (s.remaining == 1 ==> s'.remaining == s.rate && s'.queued == (s.queued + 1) % 256)
  {
    assert (s.remaining + 0xFFFF) % 0x1_0000 == s.remaining - 1;
  }

  lemma DueStep(s: Stream, n: nat)
    requires Counting(s)
    ensures 1 <= Left(s, n) <= s.rate
    ensures Left(s, n) > 1 ==> Due(s, n + 1) == Due(s, n) && Left(s, n + 1) == Left(s, n) - 1
    ensures Left(s, n) == 1 ==> Due(s, n + 1) == Due(s, n) + 1 && Left(s, n + 1) == s.rate
  {
    if n >= s.remaining {
      NextQuotient(n - s.remaining, s.rate);
    } else if n + 1 == s.remaining {
      QuotientIs(0, 0, 0, s.rate);
    }
  }

  /** An eight-bit counter. */
  function Wrapped(n: nat): nat { n % 256 }

  lemma WrappedNext(n: nat)
    ensures (Wrapped(n) + 1) % 256 == Wrapped(n + 1)
    ensures n < 256 ==> Wrapped(n) == n
  {}

  /** After `n` ticks an entry has fallen due that often, counted in eight bits. */
  lemma {:induction false} TicksQueue(s: Stream, n: nat)
    requires Counting(s) && s.queued < 256
    ensures var s' := Ticked(s, n);
            && Counting(s') && s'.rate == s.rate
            && s'.remaining == Left(s, n) && s'.queued == Wrapped(s.queued + Due(s, n))
  {
    DueAtStart(s);
    WrappedNext(s.queued);
    hide TickStream, Due, Left, Wrapped;
    if n > 0 {
      TicksQueue(s, n - 1);
      TickCounts(Ticked(s, n - 1));
      DueStep(s, n - 1);
      WrappedNext(s.queued + Due(s, n - 1));
    }
  }

  lemma DueAtStart(s: Stream)
    requires Counting(s)
    ensures Due(s, 0) == 0 && Left(s, 0) == s.remaining
  {}

  /** Starting with its whole rate left, an entry falls due at every multiple of it. */
  lemma DueOfNew(s: Stream, n: nat)
    requires Counting(s) && s.remaining == s.rate
    ensures Due(s, n) == n / s.rate
    ensures n < s.rate ==> n / s.rate == 0
    ensures n == s.rate ==> n / s.rate == 1
  {
    var r := s.rate;
    if n < r {
      QuotientIs(n, 0, n, r);
    } else {
      var m := n - r;
      assert m == (m / r) * r + m % r;
      QuotientIs(n, 1 + m / r, m % r, r);
      if n == r { QuotientIs(0, 0, 0, r); }
    }
  }

  // ---- the table over ticks -----------------------------------------------------------------------

  function TickedTable(t: Table, n: nat): Table {
    if n == 0 then t else Tick(TickedTable(t, n - 1))
  }

  lemma {:induction false} TickedEntries(t: Table, n: nat, i: nat)
    requires i < |t.streams|
    ensures |TickedTable(t, n).streams| == |t.streams|
    ensures TickedTable(t, n).streams[i] == Ticked(t.streams[i], n)
  {
    hide TickStream;
    if n > 0 {
      TickedEntries(t, n - 1, i);
    }
  }

  /** The rate at which an STB asks for runs; a rate of zero means every tick. */
  function RateOf(b: Begin): nat { if b.rate == 0 then 1 else b.rate }

  ghost predicate HasRate(streams: seq<Stream>, rate: nat) {
    exists j :: 0 <= j < |streams| && streams[j].Live() && streams[j].rate == rate
  }

  lemma {:induction false} InStepAlone(streams: seq<Stream>, rate: nat, n: nat)
    requires n <= |streams| && !HasRate(streams, rate)
    ensures InStep(streams, rate, n) == rate
  {
    if n > 0 {
      InStepAlone(streams, rate, n - 1);
    }
  }

  lemma EntryCounts(t: Table, b: Begin)
    requires Scheduled(t.streams) && b.Typed() && Check(t, b).Done?
    ensures Counting(Entry(t, b)) && Entry(t, b).rate == RateOf(b) && Entry(t, b).queued == 0
  {
    InStepAgrees(t.streams, RateOf(b), |t.streams|);
  }

  /** A stream of a rate of its own runs first at the tick its rate says and then at every such tick:
      before that tick nothing is pending, and with it the first run is. */
  lemma NewStreamRuns(t: Table, b: Begin, n: nat)
    requires Scheduled(t.streams) && b.Typed() && Check(t, b).Done? && !HasRate(t.streams, RateOf(b))
    ensures
      var t', f := TickedTable(DoBegin(t, b), n), FirstFree(t.streams, 0);
      && |t'.streams| == |t.streams|
      && t'.streams[f].id == b.id && t'.streams[f].Live()
      && t'.streams[f].queued == Wrapped(n / RateOf(b))
      && (n < RateOf(b) ==> t'.streams[f].queued == 0)
      && (n == RateOf(b) ==> t'.streams[f].queued == 1)
  {
    var f, s := FirstFree(t.streams, 0), Entry(t, b);
    EntryCounts(t, b);
    InStepAlone(t.streams, RateOf(b), |t.streams|);
    BeginWrites(t, b);
    hide Ticked, Due, DoBegin, Check, TickedTable, HasRate;
    TickedEntries(DoBegin(t, b), n, f);
    TicksQueue(s, n);
    TickedId(s, n);
    DueOfNew(s, n);
  }

  lemma BeginWrites(t: Table, b: Begin)
    requires Check(t, b).Done?
    ensures
      var t', f, s := DoBegin(t, b), FirstFree(t.streams, 0), Entry(t, b);
      && f < |t'.streams| == |t.streams| && t'.streams[f] == s && s.id == b.id != 0
      && s.remaining == InStep(t.streams, RateOf(b), |t.streams|)
      && forall j :: 0 <= j < |t.streams| && j != f ==> t'.streams[j] == t.streams[j]
  {}

  lemma {:induction false} TickedId(s: Stream, n: nat)
    ensures Ticked(s, n).id == s.id
  {
    if n > 0 {
      TickedId(s, n - 1);
    }
  }

  /** A stream that joins others of its rate falls due in exactly the same ticks as they do. */
  lemma NewStreamJoins(t: Table, b: Begin, j: nat, n: nat)
    requires Scheduled(t.streams) && b.Typed() && Check(t, b).Done?
    requires j < |t.streams| && t.streams[j].Live() && t.streams[j].rate == RateOf(b)
    ensures
      var t', f := TickedTable(DoBegin(t, b), n), FirstFree(t.streams, 0);
      && |t'.streams| == |t.streams| && f != j
      && t'.streams[f].id == b.id && t'.streams[j].id == t.streams[j].id
      && t'.streams[f].remaining == t'.streams[j].remaining
      && t'.streams[f].queued == Wrapped(Due(t.streams[j], n))
      && t'.streams[j].queued == Wrapped(t.streams[j].queued + Due(t.streams[j], n))
  {
    var f, s := FirstFree(t.streams, 0), Entry(t, b);
    EntryCounts(t, b);
    InStepAgrees(t.streams, RateOf(b), |t.streams|);
    assert EntryOk(t.streams[j]);
    BeginWrites(t, b);
    SameDue(s, t.streams[j], n);
    hide Ticked, Due, Left, DoBegin, Check, TickedTable, Entry;
    TickedEntries(DoBegin(t, b), n, f);
    TickedEntries(DoBegin(t, b), n, j);
    TicksQueue(s, n);
    TicksQueue(t.streams[j], n);
    TickedId(s, n);
    TickedId(t.streams[j], n);
  }

  lemma SameDue(a: Stream, b: Stream, n: nat)
    requires Counting(a) && Counting(b) && a.remaining == b.remaining && a.rate == b.rate
    ensures Due(a, n) == Due(b, n) && Left(a, n) == Left(b, n)
  {}

  /** Nothing but the clock moves the countdown of a stream that lives on. */
  lemma OnlyTicksCount(t: Table, op: Op, i: nat)
    requires i < |t.streams| && t.streams[i].Live() && !op.OpTick?
    ensures |Apply(t, op).streams| == |t.streams|
    ensures var s' := Apply(t, op).streams[i];
            s'.Live() ==> s'.remaining == t.streams[i].remaining && s'.rate == t.streams[i].rate
  {
    ApplyKeepsSize(t, op);
    if op.OpStop? {
      StopEndsAll(t, 0, i);
    }
  }

  lemma {:induction false} StopEndsAll(t: Table, k: nat, i: nat)
    requires k <= |t.streams| && i < |t.streams| && (i < k ==> !t.streams[i].Live())
    ensures |StopFrom(t, k).streams| == |t.streams| && !StopFrom(t, k).streams[i].Live()
    decreases |t.streams| - k
  {
    if k < |t.streams| {
      StopEndsAll(Clear(t, k), k + 1, i);
    }
  }

  // ---- which lines are accepted -------------------------------------------------------------------

  lemma {:induction false} FreeIsSome(streams: seq<Stream>, i: nat)
    requires i <= |streams|
    ensures FirstFree(streams, i) < |streams| <==> exists j :: i <= j < |streams| && !streams[j].Live()
  {
    var f := FirstFree(streams, i);
  }

  /** An STB is accepted exactly when it is well formed, its command can be streamed, its id is in
      1..15 and not in use, an entry is free, and so is a slot if it has arguments. */
  lemma BeginAcceptedIff(t: Table, b: Begin)
    ensures Check(t, b).Done? <==>
              && b.parsed && b.cmd.Some? && b.streamable && 1 <= b.id <= 15
              && (forall i :: 0 <= i < |t.streams| ==> t.streams[i].id != b.id)
              && (exists i :: 0 <= i < |t.streams| && !t.streams[i].Live())
              && (|b.tail| > 1 ==> exists k :: 0 <= k < Slots(t.pool) && !Used(t.pool, k))
  {
    InUseIsSome(t.streams, b.id, |t.streams|);
    FreeIsSome(t.streams, 0);
    var k := FirstSlot(t.pool, 0);
  }

  /** An STE is accepted exactly when it is well formed and names a live stream by id and command. */
  lemma EndAcceptedIff(t: Table, parsed: bool, id: nat, cmd: Option<nat>)
    requires Scheduled(t.streams)
    ensures EndReply(t, parsed, id, cmd).Done? <==>
              && parsed && id != 0
              && exists i :: 0 <= i < |t.streams| && t.streams[i].id == id && cmd == Some(t.streams[i].cmd)
  {
    var f := Find(t.streams, id, 0);
    if parsed && id != 0 && exists i :: 0 <= i < |t.streams| && t.streams[i].id == id && cmd == Some(t.streams[i].cmd) {
      var i :| 0 <= i < |t.streams| && t.streams[i].id == id && cmd == Some(t.streams[i].cmd);
      assert f < i ==> Apart(t.streams[f], t.streams[i]);
    }
  }
}
