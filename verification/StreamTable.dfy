/** The firmware's table of periodic commands ("streams") and its pool of argument slots.

    The table has 12 entries in panel_qual.c and 4 in foot.c; the pool has 8 slots of 64 bytes in
    both.  Widths are those of the firmware: 16-bit rates and countdowns, 8-bit pending counters.
    A text is copied into its slot without a check of its length, so it may run into the next. */
module StreamTable {
  import opened Wrappers

  /** One entry; it is free when `id` is zero.  `args` is the slot that its argument pointer
      designates, or None for the shared empty string. */
  datatype Stream = Stream(id: nat, cmd: nat, args: Option<nat>, rate: nat, remaining: nat, queued: nat) {
    predicate Live() { id != 0 }
  }

  const FREE := Stream(0, 0, None, 0, 0, 0)

  /** `pool` holds the bytes of all argument slots, one slot after the other. */
  datatype Table = Table(streams: seq<Stream>, pool: seq<char>)

  const MAX_ID := 15
  const SLOT_SIZE := 64
  const STREAM_TABLE_PANEL := 12
  const STREAM_TABLE_FOOT := 4
  const STREAM_EXTRA_ARGS := 8

  datatype Reply =
    | Done | NoParse | UnknownCommand | NotStreamable | IdZero | IdInvalid | IdInUse
    | TableFull | NoArgSlots | CodeMismatch | NotFound

  /** A parsed STB line: the command looked up from its code, and the text after the code. */
  datatype Begin = Begin(parsed: bool, cmd: Option<nat>, streamable: bool, id: nat, rate: nat, tail: string) {
    /** What the C types say: a 16-bit rate and a text without a terminator inside. */
    predicate Typed() {
      rate < 0x1_0000 && forall j :: 0 <= j < |tail| ==> tail[j] != '\0'
    }
  }

  // ---- the pool -------------------------------------------------------------------------------

  function Slots(pool: seq<char>): nat { |pool| / SLOT_SIZE }

  /** A slot is in use when its first byte is set. */
  predicate Used(pool: seq<char>, k: nat)
    requires k < Slots(pool)
  {
    pool[SLOT_SIZE * k] != '\0'
  }

  /** The text in a slot ends inside the slot. */
  ghost predicate Contained(pool: seq<char>, k: nat)
    requires k < Slots(pool)
  {
    exists j :: SLOT_SIZE * k <= j < SLOT_SIZE * k + SLOT_SIZE && pool[j] == '\0'
  }

  /** strcpy to position `at`, as far as it stays in the pool; a text that leaves it (see Escapes)
      overwrites memory that this model does not hold. */
  function StrCpy(pool: seq<char>, at: nat, text: string): (r: seq<char>)
    ensures |r| == |pool|
  {
    seq(|pool|, j requires 0 <= j < |pool| =>
      if at <= j < at + |text| then text[j - at] else if j == at + |text| then '\0' else pool[j])
  }

  /** The text that a pointer into the pool designates. */
  function CString(pool: seq<char>, j: nat): string
    decreases |pool| - j
  {
    if j >= |pool| || pool[j] == '\0' then "" else [pool[j]] + CString(pool, j + 1)
  }

  lemma {:induction false} CStringLocal(p: seq<char>, q: seq<char>, j: nat, end: nat)
    requires j <= end <= |p| == |q|
    requires forall i :: j <= i < end ==> p[i] == q[i]
    requires exists i :: j <= i < end && p[i] == '\0'
    ensures CString(p, j) == CString(q, j)
    decreases end - j
  {
    if p[j] != '\0' {
      CStringLocal(p, q, j + 1, end);
    }
  }

  lemma {:induction false} CStringIs(p: seq<char>, j: nat, text: string)
    requires j + |text| < |p| && p[j + |text|] == '\0'
    requires forall i :: 0 <= i < |text| ==> text[i] != '\0' && p[j + i] == text[i]
    ensures CString(p, j) == text
    decreases |text|
  {
    if text != "" {
      forall i | 0 <= i < |text| - 1 ensures text[1..][i] != '\0' && p[j + 1 + i] == text[1..][i] {
        assert text[1..][i] == text[i + 1];
        assert p[j + (i + 1)] == text[i + 1];
      }
      assert p[j + 0] == text[0];
      CStringIs(p, j + 1, text[1..]);
      assert text == [text[0]] + text[1..];
    }
  }

  // ---- the invariant --------------------------------------------------------------------------

  ghost predicate EntryOk(s: Stream) {
    s.Live() ==>
      && 1 <= s.id <= MAX_ID
      && 1 <= s.remaining <= s.rate < 0x1_0000
      && s.queued < 256
  }

  /** Two live entries have different ids, and with the same rate they are in step. */
  ghost predicate Apart(s: Stream, s': Stream) {
    s.Live() && s'.Live() ==> s.id != s'.id && (s.rate == s'.rate ==> s.remaining == s'.remaining)
  }

  ghost predicate Scheduled(streams: seq<Stream>) {
    && (forall i :: 0 <= i < |streams| ==> EntryOk(streams[i]))
    && (forall i, j :: 0 <= i < j < |streams| ==> Apart(streams[i], streams[j]))
  }

  ghost predicate Owns(t: Table, i: nat, k: nat)
    requires i < |t.streams|
  {
    t.streams[i].Live() && t.streams[i].args == Some(k)
  }

  ghost predicate HasOwner(t: Table, k: nat) {
    exists i :: 0 <= i < |t.streams| && Owns(t, i, k)
  }

  /** The slot of a live entry is in use and holds its text entirely. */
  ghost predicate SlotOk(pool: seq<char>, s: Stream) {
    s.Live() && s.args.Some? ==>
      s.args.value < Slots(pool) && Used(pool, s.args.value) && Contained(pool, s.args.value)
  }

  ghost predicate SlotsApart(s: Stream, s': Stream) {
    s.Live() && s'.Live() && s.args.Some? ==> s.args != s'.args
  }

  ghost predicate SlotsOwned(t: Table) {
    && (forall i :: 0 <= i < |t.streams| ==> SlotOk(t.pool, t.streams[i]))
    && (forall i, j :: 0 <= i < j < |t.streams| ==> SlotsApart(t.streams[i], t.streams[j]))
    && (forall k :: 0 <= k < Slots(t.pool) && Used(t.pool, k) ==> HasOwner(t, k))
  }

  ghost predicate Valid(t: Table) { Scheduled(t.streams) && SlotsOwned(t) }

  // ---- the operations as functions ------------------------------------------------------------

  function InUse(streams: seq<Stream>, id: nat, n: nat): bool
    requires n <= |streams|
  {
    n > 0 && (streams[n - 1].id == id || InUse(streams, id, n - 1))
  }

  /** The countdown of the last live stream with this rate, or the rate itself. */
  function InStep(streams: seq<Stream>, rate: nat, n: nat): nat
    requires n <= |streams|
  {
    if n == 0 then rate
    else if streams[n - 1].Live() && streams[n - 1].rate == rate then streams[n - 1].remaining
    else InStep(streams, rate, n - 1)
  }

  /** The first free entry at or after `i`. */
  function FirstFree(streams: seq<Stream>, i: nat): (r: nat)
    requires i <= |streams|
    ensures i <= r <= |streams|
    ensures r < |streams| ==> !streams[r].Live()
    ensures forall j :: i <= j < r ==> streams[j].Live()
    decreases |streams| - i
  {
    if i == |streams| || !streams[i].Live() then i else FirstFree(streams, i + 1)
  }

  function FirstSlot(pool: seq<char>, i: nat): (r: nat)
    requires i <= Slots(pool)
    ensures i <= r <= Slots(pool)
    ensures r < Slots(pool) ==> !Used(pool, r)
    ensures forall j :: i <= j < r ==> Used(pool, j)
    decreases Slots(pool) - i
  {
    if i == Slots(pool) || !Used(pool, i) then i else FirstSlot(pool, i + 1)
  }

  function Check(t: Table, b: Begin): Reply {
    if !b.parsed then NoParse
    else if b.cmd.None? then UnknownCommand
    else if !b.streamable then NotStreamable
    else if b.id == 0 then IdZero
    else if b.id > MAX_ID then IdInvalid
    else if InUse(t.streams, b.id, |t.streams|) then IdInUse
    else if FirstFree(t.streams, 0) == |t.streams| then TableFull
    else if |b.tail| > 1 && FirstSlot(t.pool, 0) == Slots(t.pool) then NoArgSlots
    else Done
  }

  /** The entry that a successful STB writes. */
  function Entry(t: Table, b: Begin): Stream
    requires Check(t, b).Done?
  {
    var rate := if b.rate == 0 then 1 else b.rate;
    Stream(b.id, b.cmd.value, if |b.tail| > 1 then Some(FirstSlot(t.pool, 0)) else None,
           rate, InStep(t.streams, rate, |t.streams|), 0)
  }

  /** cmd_stb */
  function DoBegin(t: Table, b: Begin): Table {
    if !Check(t, b).Done? then t
    else Table(t.streams[FirstFree(t.streams, 0) := Entry(t, b)],
               if |b.tail| > 1 then StrCpy(t.pool, SLOT_SIZE * FirstSlot(t.pool, 0), b.tail) else t.pool)
  }

  /** Clearing an entry also empties the slot that its argument pointer designates. */
  function Clear(t: Table, i: nat): Table
    requires i < |t.streams|
  {
    var s := t.streams[i];
    Table(t.streams[i := s.(id := 0)],
          if s.args.Some? && s.args.value < Slots(t.pool) then t.pool[SLOT_SIZE * s.args.value := '\0'] else t.pool)
  }

  function Find(streams: seq<Stream>, id: nat, i: nat): (r: nat)
    requires i <= |streams|
    ensures i <= r <= |streams|
    ensures r < |streams| ==> streams[r].id == id
    ensures forall j :: i <= j < r ==> streams[j].id != id
    decreases |streams| - i
  {
    if i == |streams| || streams[i].id == id then i else Find(streams, id, i + 1)
  }

  /** cmd_ste; `cmd` is the command whose code the line names, if any. */
  function EndReply(t: Table, parsed: bool, id: nat, cmd: Option<nat>): Reply {
    if !parsed then NoParse
    else if id == 0 then IdZero
    else
      var i := Find(t.streams, id, 0);
      if i == |t.streams| then NotFound
      else if cmd != Some(t.streams[i].cmd) then CodeMismatch
      else Done
  }

  function DoEnd(t: Table, parsed: bool, id: nat, cmd: Option<nat>): Table {
    if EndReply(t, parsed, id, cmd).Done? then Clear(t, Find(t.streams, id, 0)) else t
  }

  /** stream_stop_all */
  function StopFrom(t: Table, i: nat): Table
    requires i <= |t.streams|
    decreases |t.streams| - i
  {
    if i == |t.streams| then t else StopFrom(Clear(t, i), i + 1)
  }

  function TickStream(s: Stream): Stream {
    if !s.Live() then s
    else
      var remaining := (s.remaining + 0xFFFF) % 0x1_0000;
      if remaining == 0 then s.(queued := (s.queued + 1) % 256, remaining := s.rate)
      else s.(remaining := remaining)
  }

  function TickAll(streams: seq<Stream>): seq<Stream> {
    seq(|streams|, i requires 0 <= i < |streams| => TickStream(streams[i]))
  }

  /** stream_timer_update */
  function Tick(t: Table): Table { t.(streams := TickAll(t.streams)) }

  /** The first live entry at or after `i` with a pending run. */
  function FirstPending(streams: seq<Stream>, i: nat): (r: nat)
    requires i <= |streams|
    ensures i <= r <= |streams|
    ensures r < |streams| ==> streams[r].Live() && streams[r].queued > 0
    ensures forall j :: i <= j < r ==> !streams[j].Live() || streams[j].queued == 0
    decreases |streams| - i
  {
    if i == |streams| || (streams[i].Live() && streams[i].queued > 0) then i
    else FirstPending(streams, i + 1)
  }

  /** stream_poll, with the code that the stream's command returns. */
  function Poll(t: Table, err: nat): Table {
    var i := FirstPending(t.streams, 0);
    if i == |t.streams| then t
    else
      var ran := t.(streams := t.streams[i := t.streams[i].(queued := t.streams[i].queued - 1)]);
      if err == 0 || err == 0xFF then ran else Clear(ran, i)
  }

  // ---- the schedule is kept -------------------------------------------------------------------

  lemma {:induction false} InUseIsSome(streams: seq<Stream>, id: nat, n: nat)
    requires n <= |streams|
    ensures InUse(streams, id, n) <==> exists i :: 0 <= i < n && streams[i].id == id
  {
    if n > 0 {
      InUseIsSome(streams, id, n - 1);
    }
  }

  /** The new countdown agrees with every live stream of the same rate. */
  lemma {:induction false} InStepAgrees(streams: seq<Stream>, rate: nat, n: nat)
    requires Scheduled(streams) && n <= |streams| && rate >= 1
    ensures var r := InStep(streams, rate, n);
            && 1 <= r <= rate
            && forall i :: 0 <= i < n && streams[i].Live() && streams[i].rate == rate
                 ==> streams[i].remaining == r
  {
    if n > 0 {
      InStepAgrees(streams, rate, n - 1);
      assert EntryOk(streams[n - 1]);
      forall i | 0 <= i < n - 1 && streams[i].Live() && streams[i].rate == rate
        ensures streams[n - 1].Live() && streams[n - 1].rate == rate
                ==> streams[i].remaining == streams[n - 1].remaining
      {
        assert Apart(streams[i], streams[n - 1]);
      }
    }
  }

  lemma BeginKeepsScheduled(t: Table, b: Begin)
    requires Scheduled(t.streams) && b.Typed()
    ensures Scheduled(DoBegin(t, b).streams)
  {
    if Check(t, b).Done? {
      var f, s, t' := FirstFree(t.streams, 0), Entry(t, b), DoBegin(t, b);
      InUseIsSome(t.streams, b.id, |t.streams|);
      InStepAgrees(t.streams, s.rate, |t.streams|);
      forall i | 0 <= i < |t.streams| ensures EntryOk(t'.streams[i]) {
        assert EntryOk(t.streams[i]);
      }
      forall i | 0 <= i < |t.streams| && i != f ensures Apart(t.streams[i], s) && Apart(s, t.streams[i]) {
        assert EntryOk(t.streams[i]);
      }
    }
  }

  lemma ClearKeepsScheduled(t: Table, i: nat)
    requires Scheduled(t.streams) && i < |t.streams|
    ensures Scheduled(Clear(t, i).streams)
  {}

  lemma TickKeepsScheduled(streams: seq<Stream>)
    requires Scheduled(streams)
    ensures Scheduled(TickAll(streams))
  {
    var streams' := TickAll(streams);
    forall i | 0 <= i < |streams| ensures EntryOk(streams'[i]) {
      assert EntryOk(streams[i]);
    }
    forall i, j | 0 <= i < j < |streams| ensures Apart(streams'[i], streams'[j]) {
      assert EntryOk(streams[i]) && EntryOk(streams[j]) && Apart(streams[i], streams[j]);
    }
  }

  /** The table after the first pending stream has run, before its result is looked at. */
  function Ran(t: Table): Table {
    var i := FirstPending(t.streams, 0);
    if i == |t.streams| then t
    else t.(streams := t.streams[i := t.streams[i].(queued := t.streams[i].queued - 1)])
  }

  lemma PollIsRan(t: Table, err: nat)
    ensures var i := FirstPending(t.streams, 0);
            Poll(t, err) == if i < |t.streams| && err != 0 && err != 0xFF then Clear(Ran(t), i) else Ran(t)
  {}

  lemma RanKeepsScheduled(t: Table)
    requires Scheduled(t.streams)
    ensures Scheduled(Ran(t).streams)
  {
    var i := FirstPending(t.streams, 0);
    if i < |t.streams| {
      var s := t.streams[i].(queued := t.streams[i].queued - 1);
      assert EntryOk(t.streams[i]);
      forall j, k | 0 <= j < k < |t.streams| ensures Apart(Ran(t).streams[j], Ran(t).streams[k]) {
        assert Apart(t.streams[j], t.streams[k]);
      }
    }
  }

  lemma PollKeepsScheduled(t: Table, err: nat)
    requires Scheduled(t.streams)
    ensures Scheduled(Poll(t, err).streams)
  {
    hide Ran, Poll, Clear;
    PollIsRan(t, err);
    RanKeepsScheduled(t);
    var i := FirstPending(t.streams, 0);
    if i < |t.streams| {
      assert |Ran(t).streams| == |t.streams| by { RanSize(t); }
      ClearKeepsScheduled(Ran(t), i);
    }
  }

  lemma RanSize(t: Table)
    ensures |Ran(t).streams| == |t.streams| && Ran(t).pool == t.pool
  {}

  // ---- the slots are kept ---------------------------------------------------------------------

  /** A slot none of whose bytes changed. */
  lemma SameSlot(p: seq<char>, q: seq<char>, k: nat)
    requires |p| == |q| && k < Slots(p)
    requires forall j :: SLOT_SIZE * k <= j < SLOT_SIZE * k + SLOT_SIZE ==> p[j] == q[j]
    ensures Used(p, k) == Used(q, k) && Contained(p, k) == Contained(q, k)
    ensures Contained(p, k) ==> CString(p, SLOT_SIZE * k) == CString(q, SLOT_SIZE * k)
  {
    if Contained(p, k) {
      var j :| SLOT_SIZE * k <= j < SLOT_SIZE * k + SLOT_SIZE && p[j] == '\0';
      assert q[j] == '\0';
      CStringLocal(p, q, SLOT_SIZE * k, SLOT_SIZE * k + SLOT_SIZE);
    }
    if Contained(q, k) {
      var j :| SLOT_SIZE * k <= j < SLOT_SIZE * k + SLOT_SIZE && q[j] == '\0';
      assert p[j] == '\0';
    }
  }

  /** A text shorter than a slot stays in it and leaves the other slots alone. */
  lemma ShortCopy(pool: seq<char>, k: nat, text: string)
    requires k < Slots(pool) && 0 < |text| < SLOT_SIZE
    requires forall j :: 0 <= j < |text| ==> text[j] != '\0'
    ensures var p := StrCpy(pool, SLOT_SIZE * k, text);
            Used(p, k) && Contained(p, k) && CString(p, SLOT_SIZE * k) == text
  {
    var p, at := StrCpy(pool, SLOT_SIZE * k, text), SLOT_SIZE * k;
    assert p[at + |text|] == '\0';
    assert p[at] == text[0];
    CStringIs(p, at, text);
  }

  lemma ShortCopySpares(pool: seq<char>, k: nat, text: string, other: nat)
    requires k < Slots(pool) && other < Slots(pool) && other != k && |text| < SLOT_SIZE
    ensures var p := StrCpy(pool, SLOT_SIZE * k, text);
            && Used(p, other) == Used(pool, other) && Contained(p, other) == Contained(pool, other)
            && (Contained(pool, other) ==> CString(p, SLOT_SIZE * other) == CString(pool, SLOT_SIZE * other))
  {
    SameSlot(pool, StrCpy(pool, SLOT_SIZE * k, text), other);
  }

  /** A longer text leaves no terminator in its slot, and its rest starts the next slot. */
  lemma LongCopy(pool: seq<char>, k: nat, text: string)
    requires k < Slots(pool) && |text| >= SLOT_SIZE
    requires forall j :: 0 <= j < |text| ==> text[j] != '\0'
    ensures var p := StrCpy(pool, SLOT_SIZE * k, text);
            && !Contained(p, k)
            && (k + 1 < Slots(pool) ==> (Used(p, k + 1) <==> |text| > SLOT_SIZE))
            && (k + 1 < Slots(pool) && |text| < 2 * SLOT_SIZE ==>
                  CString(p, SLOT_SIZE * (k + 1)) == text[SLOT_SIZE..])
  {
    var p := StrCpy(pool, SLOT_SIZE * k, text);
    if k + 1 < Slots(pool) && |text| < 2 * SLOT_SIZE {
      CStringIs(p, SLOT_SIZE * (k + 1), text[SLOT_SIZE..]);
    }
  }

  lemma BeginKeepsSlots(t: Table, b: Begin)
    requires SlotsOwned(t) && b.Typed() && Check(t, b).Done? && |b.tail| < SLOT_SIZE
    ensures SlotsOwned(DoBegin(t, b))
  {
    var t' := DoBegin(t, b);
    BeginChangesOneSlot(t, b);
    hide StrCpy, Used, Contained;
    forall i, j | 0 <= i < j < |t.streams| ensures SlotsApart(t'.streams[i], t'.streams[j]) {
      assert SlotsApart(t.streams[i], t.streams[j]) && SlotOk(t.pool, t.streams[i]) && SlotOk(t.pool, t.streams[j]);
    }
    forall i | 0 <= i < |t.streams| ensures SlotOk(t'.pool, t'.streams[i]) {
      assert SlotOk(t.pool, t.streams[i]);
    }
    forall j | 0 <= j < Slots(t'.pool) && Used(t'.pool, j) ensures HasOwner(t', j) {
      if |b.tail| > 1 && j == FirstSlot(t.pool, 0) {
        assert Owns(t', FirstFree(t.streams, 0), j);
      } else {
        var i :| 0 <= i < |t.streams| && Owns(t, i, j);
        assert Owns(t', i, j);
      }
    }
  }

  lemma BeginChangesOneSlot(t: Table, b: Begin)
    requires b.Typed() && Check(t, b).Done? && |b.tail| < SLOT_SIZE
    ensures var t', k := DoBegin(t, b), FirstSlot(t.pool, 0);
            && (|b.tail| > 1 ==> Used(t'.pool, k) && Contained(t'.pool, k))
            && forall j :: 0 <= j < Slots(t.pool) && (|b.tail| > 1 ==> j != k) ==>
                 Used(t'.pool, j) == Used(t.pool, j) && Contained(t'.pool, j) == Contained(t.pool, j)
  {
    var t', k := DoBegin(t, b), FirstSlot(t.pool, 0);
    hide StrCpy, Used, Contained;
    if |b.tail| > 1 {
      ShortCopy(t.pool, k, b.tail);
      forall j | 0 <= j < Slots(t.pool) && j != k
        ensures Used(t'.pool, j) == Used(t.pool, j) && Contained(t'.pool, j) == Contained(t.pool, j)
      {
        ShortCopySpares(t.pool, k, b.tail, j);
      }
    }
  }

  /** An accepted STB keeps the table valid if and only if its text fits a slot. */
  lemma BeginKeepsValidIff(t: Table, b: Begin)
    requires Valid(t) && b.Typed()
    ensures Valid(DoBegin(t, b)) <==> !(Check(t, b).Done? && |b.tail| >= SLOT_SIZE)
  {
    BeginKeepsScheduled(t, b);
    if Check(t, b).Done? {
      if |b.tail| < SLOT_SIZE {
        BeginKeepsSlots(t, b);
      } else {
        var f, k := FirstFree(t.streams, 0), FirstSlot(t.pool, 0);
        LongCopy(t.pool, k, b.tail);
        assert !SlotOk(DoBegin(t, b).pool, DoBegin(t, b).streams[f]);
      }
    }
  }

  lemma ClearSpares(pool: seq<char>, k: nat, other: nat)
    requires k < Slots(pool) && other < Slots(pool) && other != k
    ensures var p := pool[SLOT_SIZE * k := '\0'];
            && !Used(p, k)
            && Used(p, other) == Used(pool, other) && Contained(p, other) == Contained(pool, other)
            && (Contained(pool, other) ==> CString(p, SLOT_SIZE * other) == CString(pool, SLOT_SIZE * other))
  {
    SameSlot(pool, pool[SLOT_SIZE * k := '\0'], other);
  }

  lemma ClearKeepsValid(t: Table, i: nat)
    requires Valid(t) && i < |t.streams| && t.streams[i].Live()
    ensures Valid(Clear(t, i))
  {
    var t', s := Clear(t, i), t.streams[i];
    ClearKeepsScheduled(t, i);
    assert SlotOk(t.pool, s);
    hide Used, Contained;
    forall k | 0 <= k < Slots(t.pool) && s.args != Some(k)
      ensures Used(t'.pool, k) == Used(t.pool, k) && Contained(t'.pool, k) == Contained(t.pool, k)
    {
      if s.args.Some? { ClearSpares(t.pool, s.args.value, k); }
    }
    forall j | 0 <= j < |t.streams| ensures SlotOk(t'.pool, t'.streams[j]) {
      assert SlotOk(t.pool, t.streams[j]);
      if j < i { assert SlotsApart(t.streams[j], s); }
      if i < j { assert SlotsApart(s, t.streams[j]); }
    }
    forall j, k | 0 <= j < k < |t.streams| ensures SlotsApart(t'.streams[j], t'.streams[k]) {
      assert SlotsApart(t.streams[j], t.streams[k]);
    }
    forall k | 0 <= k < Slots(t'.pool) && Used(t'.pool, k) ensures HasOwner(t', k) {
      assert s.args != Some(k) by { ClearFrees(t, i, k); }
      var j :| 0 <= j < |t.streams| && Owns(t, j, k);
      assert Owns(t', j, k);
    }
  }

  lemma ClearFrees(t: Table, i: nat, k: nat)
    requires i < |t.streams| && k < Slots(t.pool)
    ensures t.streams[i].args == Some(k) ==> !Used(Clear(t, i).pool, k)
  {}

  /** Operations that touch neither ids nor slots keep the slots. */
  lemma SameSlotsOwned(t: Table, t': Table)
    requires SlotsOwned(t) && t'.pool == t.pool && |t'.streams| == |t.streams|
    requires forall i :: 0 <= i < |t.streams| ==>
               t'.streams[i].id == t.streams[i].id && t'.streams[i].args == t.streams[i].args
    ensures SlotsOwned(t')
  {
    forall i | 0 <= i < |t.streams| ensures SlotOk(t'.pool, t'.streams[i]) {
      assert SlotOk(t.pool, t.streams[i]);
    }
    forall i, j | 0 <= i < j < |t.streams| ensures SlotsApart(t'.streams[i], t'.streams[j]) {
      assert SlotsApart(t.streams[i], t.streams[j]);
    }
    forall k | 0 <= k < Slots(t.pool) && Used(t'.pool, k) ensures HasOwner(t', k) {
      var i :| 0 <= i < |t.streams| && Owns(t, i, k);
      assert Owns(t', i, k);
    }
  }

  lemma TickKeepsValid(t: Table)
    requires Valid(t)
    ensures Valid(Tick(t))
  {
    TickKeepsScheduled(t.streams);
    SameSlotsOwned(t, Tick(t));
  }

  lemma PollKeepsValid(t: Table, err: nat)
    requires Valid(t)
    ensures Valid(Poll(t, err))
  {
    PollIsRan(t, err);
    RanKeepsScheduled(t);
    SameSlotsOwned(t, Ran(t));
    var i := FirstPending(t.streams, 0);
    if i < |t.streams| && err != 0 && err != 0xFF {
      hide Clear, Valid;
      assert Valid(Ran(t)) by { ValidFromParts(Ran(t)); }
      ClearKeepsValid(Ran(t), i);
    }
  }

  lemma ValidFromParts(t: Table)
    requires Scheduled(t.streams) && SlotsOwned(t)
    ensures Valid(t)
  {}

  /** Stopping clears entry by entry, also through argument pointers left behind in dead entries;
      what remains of the slots is always owned further up the table, so nothing remains. */
  lemma {:induction false} StopClears(t: Table, i: nat)
    requires i <= |t.streams|
    requires forall j :: 0 <= j < i ==> !t.streams[j].Live()
    requires forall k :: 0 <= k < Slots(t.pool) && Used(t.pool, k) ==>
               exists j :: i <= j < |t.streams| && Owns(t, j, k)
    ensures var t' := StopFrom(t, i);
            && |t'.streams| == |t.streams| && |t'.pool| == |t.pool|
            && (forall j :: 0 <= j < |t'.streams| ==> !t'.streams[j].Live())
            && (forall k :: 0 <= k < Slots(t'.pool) ==> !Used(t'.pool, k))
    decreases |t.streams| - i
  {
    if i < |t.streams| {
      var c, s := Clear(t, i), t.streams[i];
      hide Used;
      forall k | 0 <= k < Slots(c.pool) && Used(c.pool, k)
        ensures exists j :: i + 1 <= j < |c.streams| && Owns(c, j, k)
      {
        ClearFrees(t, i, k);
        if s.args.Some? && s.args.value < Slots(t.pool) { ClearSpares(t.pool, s.args.value, k); }
        var j :| i <= j < |t.streams| && Owns(t, j, k);
        assert Owns(c, j, k);
      }
      StopClears(c, i + 1);
    }
  }

  // ---- every history --------------------------------------------------------------------------

  datatype Op =
    | OpBegin(b: Begin)
    | OpEnd(parsed: bool, id: nat, cmd: Option<nat>)
    | OpTick
    | OpPoll(err: nat)
    | OpStop

  function Apply(t: Table, op: Op): Table {
    match op
    case OpBegin(b) => DoBegin(t, b)
    case OpEnd(parsed, id, cmd) => DoEnd(t, parsed, id, cmd)
    case OpTick => Tick(t)
    case OpPoll(err) => Poll(t, err)
    case OpStop => StopFrom(t, 0)
  }

  function Empty(entries: nat, slots: nat): Table {
    Table(seq(entries, _ => FREE), seq(SLOT_SIZE * slots, _ => '\0'))
  }

  function After(t: Table, ops: seq<Op>): Table {
    if ops == [] then t else Apply(After(t, ops[..|ops| - 1]), ops[|ops| - 1])
  }

  ghost predicate AllTyped(ops: seq<Op>) {
    forall i :: 0 <= i < |ops| && ops[i].OpBegin? ==> ops[i].b.Typed()
  }

  /** An STB that is accepted although its text is longer than a slot. */
  predicate Overflows(t: Table, op: Op) {
    op.OpBegin? && Check(t, op.b).Done? && |op.b.tail| >= SLOT_SIZE
  }

  /** An STB that is accepted and whose text, with its terminator, does not end inside the pool. */
  predicate Escapes(t: Table, b: Begin) {
    && Check(t, b).Done? && |b.tail| > 1
    && SLOT_SIZE * FirstSlot(t.pool, 0) + |b.tail| >= |t.pool|
  }

  predicate OpEscapes(t: Table, op: Op) { op.OpBegin? && Escapes(t, op.b) }

  /** A text that leaves the pool also overflows its slot; one of less than two slots leaves the
      pool exactly when it overflows the last slot. */
  lemma EscapesIff(t: Table, b: Begin)
    requires |t.pool| == SLOT_SIZE * Slots(t.pool)
    ensures OpEscapes(t, OpBegin(b)) ==> Overflows(t, OpBegin(b))
    ensures |b.tail| < 2 * SLOT_SIZE ==>
              (Escapes(t, b) <==> Overflows(t, OpBegin(b)) && FirstSlot(t.pool, 0) == Slots(t.pool) - 1)
  {}

  lemma ApplyKeepsSize(t: Table, op: Op)
    ensures |Apply(t, op).streams| == |t.streams| && |Apply(t, op).pool| == |t.pool|
  {
    if op.OpStop? {
      StopKeepsSize(t, 0);
    }
  }

  lemma {:induction false} StopKeepsSize(t: Table, i: nat)
    requires i <= |t.streams|
    ensures |StopFrom(t, i).streams| == |t.streams| && |StopFrom(t, i).pool| == |t.pool|
    decreases |t.streams| - i
  {
    if i < |t.streams| {
      StopKeepsSize(Clear(t, i), i + 1);
    }
  }

  lemma StopKeepsValid(t: Table)
    requires Valid(t)
    ensures Valid(StopFrom(t, 0))
  {
    forall k | 0 <= k < Slots(t.pool) && Used(t.pool, k)
      ensures exists j :: 0 <= j < |t.streams| && Owns(t, j, k)
    {
      assert HasOwner(t, k);
    }
    StopClears(t, 0);
  }

  lemma ApplyKeepsValidIff(t: Table, op: Op)
    requires Valid(t) && (op.OpBegin? ==> op.b.Typed())
    ensures Valid(Apply(t, op)) <==> !Overflows(t, op)
  {
    hide Valid, DoBegin, Clear, StopFrom, Poll, Tick;
    match op
    case OpBegin(b) => BeginKeepsValidIff(t, b);
    case OpEnd(parsed, id, cmd) =>
      if EndReply(t, parsed, id, cmd).Done? {
        ClearKeepsValid(t, Find(t.streams, id, 0));
      }
    case OpTick => TickKeepsValid(t);
    case OpPoll(err) => PollKeepsValid(t, err);
    case OpStop => StopKeepsValid(t);
  }

  ghost predicate ValidAfter(t: Table, ops: seq<Op>, n: nat)
    requires n <= |ops|
  {
    Valid(After(t, ops[..n]))
  }

  ghost predicate OverflowsAt(t: Table, ops: seq<Op>, n: nat)
    requires n < |ops|
  {
    Overflows(After(t, ops[..n]), ops[n])
  }

  lemma AfterNext(t: Table, ops: seq<Op>, n: nat)
    requires n < |ops|
    ensures After(t, ops[..n + 1]) == Apply(After(t, ops[..n]), ops[n])
  {
    assert ops[..n + 1][..n] == ops[..n];
  }

  lemma EmptyIsValid(entries: nat, slots: nat)
    ensures Valid(Empty(entries, slots))
  {}

  lemma {:induction false} ValidUntilOverflow(entries: nat, slots: nat, ops: seq<Op>, n: nat)
    requires AllTyped(ops) && n <= |ops|
    requires forall m :: 0 <= m < n ==> !OverflowsAt(Empty(entries, slots), ops, m)
    ensures ValidAfter(Empty(entries, slots), ops, n)
  {
    hide Valid, Apply;
    var t := Empty(entries, slots);
    if n == 0 {
      EmptyIsValid(entries, slots);
    } else {
      ValidUntilOverflow(entries, slots, ops, n - 1);
      AfterNext(t, ops, n - 1);
      assert !OverflowsAt(t, ops, n - 1);
      ApplyKeepsValidIff(After(t, ops[..n - 1]), ops[n - 1]);
    }
  }

  /** Over every sequence of begin, end, tick, poll and stop: live ids are distinct and in 1..15,
      countdowns lie in 1..rate, equal rates run in step, and every used argument slot holds the
      whole text of exactly one live stream -- if and only if no accepted text is longer than a
      slot. */
  lemma HistoryIsValidIff(entries: nat, slots: nat, ops: seq<Op>)
    requires AllTyped(ops)
    ensures (forall n :: 0 <= n <= |ops| ==> ValidAfter(Empty(entries, slots), ops, n))
            <==> (forall n :: 0 <= n < |ops| ==> !OverflowsAt(Empty(entries, slots), ops, n))
  {
    hide Valid, Apply;
    var t := Empty(entries, slots);
    if forall n :: 0 <= n < |ops| ==> !OverflowsAt(t, ops, n) {
      forall n | 0 <= n <= |ops| ensures ValidAfter(t, ops, n) {
        ValidUntilOverflow(entries, slots, ops, n);
      }
    } else {
      var n :| 0 <= n < |ops| && OverflowsAt(t, ops, n);
      if ValidAfter(t, ops, n) {
        AfterNext(t, ops, n);
        ApplyKeepsValidIff(After(t, ops[..n]), ops[n]);
        assert !ValidAfter(t, ops, n + 1);
      }
    }
  }

  lemma {:induction false} StopKeepsScheduled(t: Table, i: nat)
    requires i <= |t.streams| && Scheduled(t.streams)
    ensures Scheduled(StopFrom(t, i).streams)
    decreases |t.streams| - i
  {
    if i < |t.streams| {
      ClearKeepsScheduled(t, i);
      StopKeepsScheduled(Clear(t, i), i + 1);
    }
  }

  ghost predicate EscapesAt(t: Table, ops: seq<Op>, n: nat)
    requires n < |ops|
  {
    OpEscapes(After(t, ops[..n]), ops[n])
  }

  /** All texts of a history end inside the pool. */
  ghost predicate StaysInside(t: Table, ops: seq<Op>) {
    forall n :: 0 <= n < |ops| ==> !EscapesAt(t, ops, n)
  }

  /** The schedule itself survives every history in which no text leaves the pool, texts that run
      into the next slot included. */
  lemma {:induction false} HistoryKeepsScheduled(entries: nat, slots: nat, ops: seq<Op>)
    requires AllTyped(ops) && StaysInside(Empty(entries, slots), ops)
    ensures Scheduled(After(Empty(entries, slots), ops).streams)
  {
    if ops != [] {
      var front := ops[..|ops| - 1];
      var t, op := After(Empty(entries, slots), front), ops[|ops| - 1];
      forall n | 0 <= n < |front| ensures !EscapesAt(Empty(entries, slots), front, n) {
        assert front[..n] == ops[..n];
        assert !EscapesAt(Empty(entries, slots), ops, n);
      }
      HistoryKeepsScheduled(entries, slots, front);
      hide Scheduled, DoBegin, Clear, StopFrom, Poll;
      match op
      case OpBegin(b) => BeginKeepsScheduled(t, b);
      case OpEnd(parsed, id, cmd) =>
        if EndReply(t, parsed, id, cmd).Done? {
          ClearKeepsScheduled(t, Find(t.streams, id, 0));
        }
      case OpTick => TickKeepsScheduled(t.streams);
      case OpPoll(err) => PollKeepsScheduled(t, err);
      case OpStop => StopKeepsScheduled(t, 0);
    }
  }
}
