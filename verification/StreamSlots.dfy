/** What the argument slots of the stream table mean to a host: which stream has which text, when
    slots run out, and what a line that is too long for a slot leaves behind. */
module StreamSlots {
  import opened Wrappers
  import opened StreamTable

  // ---- the table as a map from ids to streams ---------------------------------------------------

  /** What a host knows about a stream: its command, its rate and its arguments. */
  datatype Spec = Spec(cmd: nat, rate: nat, text: string)

  function SpecOf(t: Table, s: Stream): Spec {
    Spec(s.cmd, s.rate, if s.args.Some? then CString(t.pool, SLOT_SIZE * s.args.value) else "")
  }

  function Lookup(t: Table, id: nat): Option<Spec> {
    var i := Find(t.streams, id, 0);
    if id == 0 || i == |t.streams| then None else Some(SpecOf(t, t.streams[i]))
  }

  /** Distinct ids make the position of a stream irrelevant. */
  lemma LookupAt(t: Table, i: nat)
    requires Scheduled(t.streams) && i < |t.streams| && t.streams[i].Live()
    ensures Lookup(t, t.streams[i].id) == Some(SpecOf(t, t.streams[i]))
    ensures Find(t.streams, t.streams[i].id, 0) == i
  {
    var f := Find(t.streams, t.streams[i].id, 0);
    assert f < i ==> Apart(t.streams[f], t.streams[i]);
  }

  /** Two tables that hold the same live streams under an id agree on it. */
  lemma LookupSame(t: Table, t': Table, id: nat)
    requires Scheduled(t.streams) && Scheduled(t'.streams) && |t'.streams| == |t.streams| && id != 0
    requires forall i :: 0 <= i < |t.streams| ==>
               ((t.streams[i].id == id) <==> (t'.streams[i].id == id))
    requires forall i :: 0 <= i < |t.streams| && t.streams[i].id == id ==>
               SpecOf(t, t.streams[i]) == SpecOf(t', t'.streams[i])
    ensures Lookup(t, id) == Lookup(t', id)
  {
    var f := Find(t.streams, id, 0);
    if f < |t.streams| {
      LookupAt(t, f);
      LookupAt(t', f);
    }
  }

  /** A slot is shared by no two live streams. */
  lemma OthersKeepSlot(t: Table, i: nat, j: nat)
    requires Valid(t) && i < |t.streams| && j < |t.streams| && i != j
    requires t.streams[i].Live() && t.streams[j].Live() && t.streams[i].args.Some?
    ensures t.streams[j].args != t.streams[i].args
  {
    if i < j {
      assert SlotsApart(t.streams[i], t.streams[j]);
    } else {
      assert SlotsApart(t.streams[j], t.streams[i]);
    }
  }

  /** The stream that an accepted STB asks for. */
  function Requested(b: Begin): Spec
    requires b.cmd.Some?
  {
    Spec(b.cmd.value, if b.rate == 0 then 1 else b.rate, if |b.tail| > 1 then b.tail else "")
  }

  lemma BeginKeepsOthers(t: Table, b: Begin, i: nat)
    requires Valid(t) && Check(t, b).Done? && |b.tail| < SLOT_SIZE
    requires i < |t.streams| && t.streams[i].Live()
    ensures SpecOf(DoBegin(t, b), t.streams[i]) == SpecOf(t, t.streams[i])
  {
    var s, k := t.streams[i], FirstSlot(t.pool, 0);
    assert SlotOk(t.pool, s);
    if s.args.Some? && |b.tail| > 1 {
      ShortCopySpares(t.pool, k, b.tail, s.args.value);
    }
  }

  /** STB with a text that fits adds exactly the requested stream, and changes no other. */
  lemma BeginAdds(t: Table, b: Begin, id: nat)
    requires Valid(t) && b.Typed() && Check(t, b).Done? && |b.tail| < SLOT_SIZE
    ensures Lookup(DoBegin(t, b), id) == if id == b.id then Some(Requested(b)) else Lookup(t, id)
  {
    var t', f := DoBegin(t, b), FirstFree(t.streams, 0);
    BeginKeepsScheduled(t, b);
    if id == b.id {
      LookupAt(t', f);
      if |b.tail| > 1 {
        ShortCopy(t.pool, FirstSlot(t.pool, 0), b.tail);
      }
    } else if id != 0 {
      forall i | 0 <= i < |t.streams| && t.streams[i].id == id
        ensures SpecOf(t, t.streams[i]) == SpecOf(t', t'.streams[i])
      {
        BeginKeepsOthers(t, b, i);
      }
      LookupSame(t, t', id);
    }
  }

  /** A text that does not fit replaces the arguments of the stream that owns the next slot by its
      own rest. */
  lemma BeginSpills(t: Table, b: Begin, i: nat)
    requires Valid(t) && b.Typed() && Check(t, b).Done? && SLOT_SIZE <= |b.tail| < 2 * SLOT_SIZE
    requires i < |t.streams| && Owns(t, i, FirstSlot(t.pool, 0) + 1)
    ensures var s := t.streams[i];
            Lookup(DoBegin(t, b), s.id) == Some(Spec(s.cmd, s.rate, b.tail[SLOT_SIZE..]))
  {
    assert SlotOk(t.pool, t.streams[i]);
    BeginKeepsScheduled(t, b);
    LookupAt(DoBegin(t, b), i);
    LongCopy(t.pool, FirstSlot(t.pool, 0), b.tail);
  }

  /** STE removes exactly the named stream. */
  lemma EndRemoves(t: Table, id: nat, cmd: Option<nat>, other: nat)
    requires Valid(t) && EndReply(t, true, id, cmd).Done?
    ensures Lookup(DoEnd(t, true, id, cmd), other) == if other == id then None else Lookup(t, other)
  {
    ClearRemoves(t, Find(t.streams, id, 0), other);
  }

  lemma ClearKeepsOthers(t: Table, i: nat, j: nat)
    requires Valid(t) && i < |t.streams| && j < |t.streams| && i != j
    requires t.streams[i].Live() && t.streams[j].Live()
    ensures SpecOf(Clear(t, i), t.streams[j]) == SpecOf(t, t.streams[j])
  {
    assert SlotOk(t.pool, t.streams[i]) && SlotOk(t.pool, t.streams[j]);
    if t.streams[i].args.Some? {
      OthersKeepSlot(t, i, j);
      if t.streams[j].args.Some? {
        ClearSpares(t.pool, t.streams[i].args.value, t.streams[j].args.value);
      }
    }
  }

  lemma ClearRemoves(t: Table, i: nat, other: nat)
    requires Valid(t) && i < |t.streams| && t.streams[i].Live()
    ensures Lookup(Clear(t, i), other) == if other == t.streams[i].id then None else Lookup(t, other)
  {
    var t' := Clear(t, i);
    ClearKeepsScheduled(t, i);
    if other == t.streams[i].id {
      LookupAt(t, i);
      var f := Find(t'.streams, other, 0);
      if f < |t'.streams| {
        LookupAt(t, f);
      }
    } else if other != 0 {
      forall j | 0 <= j < |t.streams| && t.streams[j].id == other
        ensures SpecOf(t, t.streams[j]) == SpecOf(t', t'.streams[j])
      {
        ClearKeepsOthers(t, i, j);
      }
      LookupSame(t, t', other);
    }
  }

  /** Time and successful runs change no stream; a run that fails removes just that stream. */
  lemma TickAndPollKeepStreams(t: Table, err: nat, id: nat)
    requires Valid(t)
    ensures Lookup(Tick(t), id) == Lookup(t, id)
    ensures var i := FirstPending(t.streams, 0);
            Lookup(Poll(t, err), id)
            == if i < |t.streams| && err != 0 && err != 0xFF && id == t.streams[i].id then None
               else Lookup(t, id)
  {
    TickKeepsLookup(t, id);
    RanKeepsLookup(t, id);
    PollIsRan(t, err);
    hide Lookup, Poll, Clear;
    var i := FirstPending(t.streams, 0);
    if i < |t.streams| && err != 0 && err != 0xFF {
      RanIsValid(t);
      ClearRemoves(Ran(t), i, id);
    }
  }

  lemma TickKeepsLookup(t: Table, id: nat)
    requires Valid(t)
    ensures Lookup(Tick(t), id) == Lookup(t, id)
  {
    hide CString;
    TickKeepsScheduled(t.streams);
    if id != 0 {
      LookupSame(t, Tick(t), id);
    }
  }

  lemma RanKeepsLookup(t: Table, id: nat)
    requires Valid(t)
    ensures Lookup(Ran(t), id) == Lookup(t, id)
  {
    hide CString;
    RanKeepsScheduled(t);
    if id != 0 {
      LookupSame(t, Ran(t), id);
    }
  }

  lemma RanIsValid(t: Table)
    requires Valid(t)
    ensures Valid(Ran(t)) && |Ran(t).streams| == |t.streams|
    ensures forall i :: 0 <= i < |t.streams| ==> Ran(t).streams[i].id == t.streams[i].id
  {
    RanKeepsScheduled(t);
    SameSlotsOwned(t, Ran(t));
  }

  // ---- running out of slots ---------------------------------------------------------------------

  /** The slots in use without an owner. */
  ghost function Leaked(t: Table): set<nat> {
    set k: nat | k < Slots(t.pool) && Used(t.pool, k) && !HasOwner(t, k)
  }

  lemma OwnerOf(t: Table, k: nat) returns (i: nat)
    requires HasOwner(t, k)
    ensures i < |t.streams| && t.streams[i].Live() && t.streams[i].args == Some(k)
  {
    i :| 0 <= i < |t.streams| && Owns(t, i, k);
  }

  lemma UsedIsLeakedOrOwned(t: Table, k: nat)
    requires k < Slots(t.pool) && Used(t.pool, k)
    ensures HasOwner(t, k) || k in Leaked(t)
  {}

  /** If the first `n` slots are used, each is leaked or has a live stream of its own. */
  lemma {:induction false} SlotsHaveOwners(t: Table, n: nat) returns (owners: set<nat>, leaked: set<nat>)
    requires n <= Slots(t.pool)
    requires forall k :: 0 <= k < n ==> Used(t.pool, k)
    ensures |owners| + |leaked| == n && leaked <= Leaked(t)
    ensures forall k :: k in leaked ==> k < n
    ensures forall i :: i in owners ==>
              i < |t.streams| && t.streams[i].Live() && t.streams[i].args.Some? && t.streams[i].args.value < n
  {
    hide Used, Leaked, Slots, HasOwner, Owns;
    owners, leaked := {}, {};
    if n > 0 {
      owners, leaked := SlotsHaveOwners(t, n - 1);
      assert |owners| + |leaked| == n - 1;
      assert Used(t.pool, n - 1);
      UsedIsLeakedOrOwned(t, n - 1);
      if HasOwner(t, n - 1) {
        var i := OwnerOf(t, n - 1);
        owners := owners + {i};
      } else {
        leaked := leaked + {n - 1};
      }
    }
  }

  lemma {:induction false} BoundedSet(s: set<nat>, n: nat)
    requires forall i :: i in s ==> i < n
    ensures |s| <= n
  {
    if n > 0 {
      if n - 1 in s {
        BoundedSet(s - {n - 1}, n - 1);
      } else {
        BoundedSet(s, n - 1);
      }
    } else {
      assert s == {};
    }
  }

  lemma SubsetSize(a: set<nat>, b: set<nat>)
    requires a <= b
    ensures |a| <= |b|
  {
    assert b == a + (b - a);
  }

  /** STB runs out of argument slots only when every slot is leaked or owned by a live stream,
      besides the free entry it found. */
  lemma NoSlotsNeedsManyStreams(t: Table, b: Begin)
    requires Check(t, b).NoArgSlots?
    ensures Slots(t.pool) < |t.streams| + |Leaked(t)|
  {
    var owners, leaked := SlotsHaveOwners(t, Slots(t.pool));
    var f := FirstFree(t.streams, 0);
    assert |owners + {f}| == |owners| + 1;
    BoundedSet(owners + {f}, |t.streams|);
    SubsetSize(leaked, Leaked(t));
  }

  // ---- lines --------------------------------------------------------------------------------------

  const LINE_PANEL := 128
  const LINE_FOOT := 32

  /** The line buffer of `size` bytes takes one more character; a full one marks the line as
      overrun in its first byte. */
  function Type(line: string, size: nat, c: char): string {
    if |line| + 2 < size then line + [c]
    else if line == "" then ""
    else [4 as char] + line[1..]
  }

  function Line(chars: string, size: nat): string {
    if chars == "" then "" else Type(Line(chars[..|chars| - 1], size), size, chars[|chars| - 1])
  }

  lemma {:induction false} LineIsShort(chars: string, size: nat)
    requires size >= 2
    ensures |Line(chars, size)| <= size - 2
  {
    if chars != "" {
      LineIsShort(chars[..|chars| - 1], size);
    }
  }

  lemma {:induction false} ShortLine(chars: string, size: nat)
    requires |chars| + 2 <= size
    ensures Line(chars, size) == chars
  {
    if chars != "" {
      var front, c := chars[..|chars| - 1], chars[|chars| - 1];
      ShortLine(front, size);
      assert Type(front, size, c) == front + [c] == chars;
      hide Type;
    }
  }

  /** The text of a command comes from a line, after the three letters of its code. */
  ghost predicate FromLine(b: Begin, size: nat) {
    exists chars, n, m :: 3 <= n <= m <= |Line(chars, size)| && b.tail == Line(chars, size)[n..m]
  }

  lemma LineBoundsText(b: Begin, size: nat)
    requires size >= 2 && FromLine(b, size)
    ensures |b.tail| < size
  {
    var chars, n, m :| 3 <= n <= m <= |Line(chars, size)| && b.tail == Line(chars, size)[n..m];
    LineIsShort(chars, size);
  }

  ghost predicate AllFromLines(ops: seq<Op>, size: nat) {
    forall i :: 0 <= i < |ops| && ops[i].OpBegin? ==> FromLine(ops[i].b, size)
  }

  lemma {:induction false} HistoryKeepsSize(t: Table, ops: seq<Op>)
    ensures |After(t, ops).streams| == |t.streams| && |After(t, ops).pool| == |t.pool|
  {
    if ops != [] {
      HistoryKeepsSize(t, ops[..|ops| - 1]);
      ApplyKeepsSize(After(t, ops[..|ops| - 1]), ops[|ops| - 1]);
    }
  }

  /** The foot's lines of 32 bytes never overflow a slot, so its table is valid after every
      history. */
  lemma FootIsValid(ops: seq<Op>)
    requires AllTyped(ops) && AllFromLines(ops, LINE_FOOT)
    ensures Valid(After(Empty(STREAM_TABLE_FOOT, STREAM_EXTRA_ARGS), ops))
  {
    var t := Empty(STREAM_TABLE_FOOT, STREAM_EXTRA_ARGS);
    forall n | 0 <= n < |ops| ensures !OverflowsAt(t, ops, n) {
      if ops[n].OpBegin? {
        LineBoundsText(ops[n].b, LINE_FOOT);
      }
    }
    hide Valid;
    ValidUntilOverflow(STREAM_TABLE_FOOT, STREAM_EXTRA_ARGS, ops, |ops|);
    assert ops[..|ops|] == ops;
  }

  /** With 4 entries for 8 slots, the foot never replies "not enough extra args slots". */
  lemma FootNeverRunsOutOfSlots(ops: seq<Op>, b: Begin)
    requires AllTyped(ops) && AllFromLines(ops, LINE_FOOT)
    ensures !Check(After(Empty(STREAM_TABLE_FOOT, STREAM_EXTRA_ARGS), ops), b).NoArgSlots?
  {
    var t := After(Empty(STREAM_TABLE_FOOT, STREAM_EXTRA_ARGS), ops);
    FootIsValid(ops);
    HistoryKeepsSize(Empty(STREAM_TABLE_FOOT, STREAM_EXTRA_ARGS), ops);
    assert Leaked(t) == {};
    if Check(t, b).NoArgSlots? {
      NoSlotsNeedsManyStreams(t, b);
    }
  }

  // ---- what a long line leaves behind -------------------------------------------------------------

  /** A slot in use to which no entry, live or dead, points. */
  ghost predicate Orphan(t: Table, k: nat) {
    && k < Slots(t.pool) && Used(t.pool, k)
    && forall i :: 0 <= i < |t.streams| ==> t.streams[i].args != Some(k)
  }

  lemma ClearKeepsOrphan(t: Table, i: nat, k: nat)
    requires Orphan(t, k) && i < |t.streams|
    ensures Orphan(Clear(t, i), k)
  {
    var s := t.streams[i];
    assert s.args != Some(k);
    if s.args.Some? && s.args.value < Slots(t.pool) {
      ClearSpares(t.pool, s.args.value, k);
    }
  }

  lemma {:induction false} StopKeepsOrphan(t: Table, i: nat, k: nat)
    requires Orphan(t, k) && i <= |t.streams|
    ensures Orphan(StopFrom(t, i), k)
    decreases |t.streams| - i
  {
    if i < |t.streams| {
      ClearKeepsOrphan(t, i, k);
      StopKeepsOrphan(Clear(t, i), i + 1, k);
    }
  }

  /** Nothing ever frees an orphaned slot, not even stopping all streams, short of another text
      that overflows. */
  lemma OrphanStays(t: Table, op: Op, k: nat)
    requires Orphan(t, k) && !Overflows(t, op)
    ensures Orphan(Apply(t, op), k)
  {
    match op
    case OpBegin(b) =>
      if Check(t, b).Done? && |b.tail| > 1 {
        ShortCopySpares(t.pool, FirstSlot(t.pool, 0), b.tail, k);
      }
    case OpEnd(parsed, id, cmd) =>
      if EndReply(t, parsed, id, cmd).Done? {
        ClearKeepsOrphan(t, Find(t.streams, id, 0), k);
      }
    case OpTick =>
    case OpPoll(err) =>
      PollIsRan(t, err);
      var i := FirstPending(t.streams, 0);
      if i < |t.streams| {
        ClearKeepsOrphan(Ran(t), i, k);
      }
    case OpStop => StopKeepsOrphan(t, 0, k);
  }

  /** A text longer than a slot makes the next slot an orphan, unless some entry points there. */
  lemma BeginOrphans(t: Table, b: Begin)
    requires b.Typed() && Check(t, b).Done? && |b.tail| > SLOT_SIZE
    requires var k := FirstSlot(t.pool, 0) + 1;
             k < Slots(t.pool) && forall i :: 0 <= i < |t.streams| ==> t.streams[i].args != Some(k)
    ensures Orphan(DoBegin(t, b), FirstSlot(t.pool, 0) + 1)
  {
    LongCopy(t.pool, FirstSlot(t.pool, 0), b.tail);
  }

  /** The stream that the line "STB 1 1 TMQ" followed by `tail` begins. */
  function TimerStream(tail: string): Begin { Begin(true, Some(8), true, 1, 1, tail) }

  /** A line that the panel takes: beginning a stream with more than 64 characters of arguments and
      ending it again leaves no live stream, and the second slot in use for good. */
  lemma PanelLeaksSlot(tail: string)
    requires SLOT_SIZE < |tail| <= 115 && TimerStream(tail).Typed()
    ensures FromLine(TimerStream(tail), LINE_PANEL)
    ensures var t1 := DoBegin(Empty(STREAM_TABLE_PANEL, STREAM_EXTRA_ARGS), TimerStream(tail));
            var t2 := DoEnd(t1, true, 1, Some(8));
            && !Valid(t1)
            && Orphan(t2, 1)
            && forall i :: 0 <= i < |t2.streams| ==> !t2.streams[i].Live()
  {
    PanelTakesLine(tail);
    var t, b := Empty(STREAM_TABLE_PANEL, STREAM_EXTRA_ARGS), TimerStream(tail);
    PanelAccepts(tail);
    EmptyIsValid(STREAM_TABLE_PANEL, STREAM_EXTRA_ARGS);
    hide Valid, Check, StrCpy, Used, Empty;
    BeginKeepsValidIff(t, b);
    BeginOrphans(t, b);
    ClearKeepsOrphan(DoBegin(t, b), 0, 1);
  }

  lemma PanelTakesLine(tail: string)
    requires |tail| <= 115
    ensures FromLine(TimerStream(tail), LINE_PANEL)
  {
    var line := "STB 1 1 TMQ" + tail;
    ShortLine(line, LINE_PANEL);
    assert tail == Line(line, LINE_PANEL)[11..|line|];
  }

  lemma PanelAccepts(tail: string)
    requires |tail| > 1
    ensures var t := Empty(STREAM_TABLE_PANEL, STREAM_EXTRA_ARGS);
            && Check(t, TimerStream(tail)).Done?
            && |t.streams| == STREAM_TABLE_PANEL && FirstFree(t.streams, 0) == 0 && FirstSlot(t.pool, 0) == 0
            && Slots(t.pool) == STREAM_EXTRA_ARGS
            && forall i :: 0 <= i < |t.streams| ==> t.streams[i] == FREE
  {
    var t := Empty(STREAM_TABLE_PANEL, STREAM_EXTRA_ARGS);
    InUseIsSome(t.streams, 1, |t.streams|);
  }

  // ---- lines that leave the pool ------------------------------------------------------------------

  /** A table whose first `n` entries hold the first `n` slots, and nothing else. */
  ghost predicate Filled(t: Table, n: nat) {
    && |t.streams| == STREAM_TABLE_PANEL && |t.pool| == SLOT_SIZE * STREAM_EXTRA_ARGS && n <= STREAM_EXTRA_ARGS
    && (forall i :: 0 <= i < n ==> t.streams[i].id == i + 1)
    && (forall i :: n <= i < |t.streams| ==> t.streams[i] == FREE)
    && (forall k :: 0 <= k < STREAM_EXTRA_ARGS ==> (Used(t.pool, k) <==> k < n))
  }

  /** The line "STB i 1 TMQ" followed by `tail`. */
  function NumberedStream(i: nat, tail: string): Begin { Begin(true, Some(8), true, i, 1, tail) }

  lemma FilledAccepts(t: Table, n: nat, tail: string)
    requires Filled(t, n) && n < STREAM_EXTRA_ARGS
    ensures Check(t, NumberedStream(n + 1, tail)).Done?
    ensures FirstFree(t.streams, 0) == n && FirstSlot(t.pool, 0) == n
  {
    InUseIsSome(t.streams, n + 1, |t.streams|);
    assert t.streams[n] == FREE && !Used(t.pool, n);
  }

  lemma FillOne(t: Table, n: nat, tail: string)
    requires Filled(t, n) && n < STREAM_EXTRA_ARGS && 1 < |tail| < SLOT_SIZE
    requires NumberedStream(n + 1, tail).Typed()
    ensures Filled(DoBegin(t, NumberedStream(n + 1, tail)), n + 1)
  {
    FilledAccepts(t, n, tail);
    ShortCopy(t.pool, n, tail);
    var t' := DoBegin(t, NumberedStream(n + 1, tail));
    hide StrCpy, Used, Contained, CString, Check;
    forall k | 0 <= k < STREAM_EXTRA_ARGS ensures Used(t'.pool, k) <==> k < n + 1 {
      if k != n { ShortCopySpares(t.pool, n, tail, k); }
    }
  }

  /** Streams with short arguments up to the last slot, and then one with `tail`. */
  function FillingLines(short: string, tail: string, n: nat): seq<Op> {
    if n == 0 then []
    else FillingLines(short, tail, n - 1)
         + [OpBegin(NumberedStream(n, if n < STREAM_EXTRA_ARGS then short else tail))]
  }

  lemma {:induction false} FillingFills(short: string, tail: string, n: nat)
    requires 1 < |short| < SLOT_SIZE && NumberedStream(1, short).Typed() && n < STREAM_EXTRA_ARGS
    ensures |FillingLines(short, tail, n)| == n
    ensures Filled(After(Empty(STREAM_TABLE_PANEL, STREAM_EXTRA_ARGS), FillingLines(short, tail, n)), n)
  {
    if n > 0 {
      FillingFills(short, tail, n - 1);
      var ops := FillingLines(short, tail, n);
      assert ops[..|ops| - 1] == FillingLines(short, tail, n - 1);
      hide Filled, DoBegin;
      FillOne(After(Empty(STREAM_TABLE_PANEL, STREAM_EXTRA_ARGS), ops[..|ops| - 1]), n - 1, short);
    }
  }

  /** Eight lines that the panel takes and the last of which writes behind the pool: seven streams
      with arguments, and one with 64 characters or more. */
  lemma PanelEscapes(short: string, tail: string)
    requires 1 < |short| < SLOT_SIZE && NumberedStream(1, short).Typed()
    requires SLOT_SIZE <= |tail| <= 115 && NumberedStream(8, tail).Typed()
    ensures var ops, t := FillingLines(short, tail, 8), Empty(STREAM_TABLE_PANEL, STREAM_EXTRA_ARGS);
            && |ops| == 8 && AllTyped(ops) && EscapesAt(t, ops, 7)
            && FromLine(ops[7].b, LINE_PANEL)
  {
    var ops, t := FillingLines(short, tail, 8), Empty(STREAM_TABLE_PANEL, STREAM_EXTRA_ARGS);
    FillingFills(short, tail, 7);
    assert ops[..7] == FillingLines(short, tail, 7);
    FillingIsTyped(short, tail, 8);
    FilledAccepts(After(t, ops[..7]), 7, tail);
    PanelTakesNumbered(tail);
  }

  lemma PanelTakesNumbered(tail: string)
    requires |tail| <= 115
    ensures FromLine(NumberedStream(8, tail), LINE_PANEL)
  {
    var line := "STB 8 1 TMQ" + tail;
    ShortLine(line, LINE_PANEL);
    assert tail == Line(line, LINE_PANEL)[11..|line|];
  }

  lemma {:induction false} FillingIsTyped(short: string, tail: string, n: nat)
    requires NumberedStream(1, short).Typed() && NumberedStream(8, tail).Typed()
    ensures AllTyped(FillingLines(short, tail, n))
  {
    if n > 0 {
      FillingIsTyped(short, tail, n - 1);
    }
  }

  /** A line of the panel leaves the pool if and only if it is accepted with 64 characters or more
      of arguments while only the last slot is free. */
  lemma PanelEscapesIff(t: Table, b: Begin)
    requires |t.pool| == SLOT_SIZE * STREAM_EXTRA_ARGS && FromLine(b, LINE_PANEL)
    ensures Escapes(t, b) <==>
              && Check(t, b).Done? && |b.tail| >= SLOT_SIZE
              && forall k :: 0 <= k < STREAM_EXTRA_ARGS - 1 ==> Used(t.pool, k)
  {
    LineBoundsText(b, LINE_PANEL);
    EscapesIff(t, b);
  }

  /** The foot's lines never leave the pool. */
  lemma FootStaysInside(ops: seq<Op>)
    requires AllFromLines(ops, LINE_FOOT)
    ensures StaysInside(Empty(STREAM_TABLE_FOOT, STREAM_EXTRA_ARGS), ops)
  {
    var t := Empty(STREAM_TABLE_FOOT, STREAM_EXTRA_ARGS);
    forall n | 0 <= n < |ops| ensures !EscapesAt(t, ops, n) {
      if ops[n].OpBegin? {
        LineBoundsText(ops[n].b, LINE_FOOT);
        HistoryKeepsSize(t, ops[..n]);
        EscapesIff(After(t, ops[..n]), ops[n].b);
      }
    }
  }
}
