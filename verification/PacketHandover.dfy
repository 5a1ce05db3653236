/** The main loop of the servo emulation (avr_odroid.c) and how it shares the packet buffer with
    the receive interrupt.

    The two hand the buffer over through a status flag.  Interrupts may come between any two
    steps of the main loop, which reads and writes the buffer one byte per step and builds its
    replies in it. */
module PacketHandover {
  import opened Bytes
  import opened Wrappers
  import opened PacketReceiver

  const CMD_RAM_READ: Byte := 0x04
  const CMD_STAT: Byte := 0x07
  const DATA_SIZE := 11

  // ---- replies ------------------------------------------------------------------------------------

  /** One byte that a command handler puts into the buffer; None stands for the content of a servo
      register. */
  datatype Put = Put(index: nat, value: Option<Byte>)

  predicate IsRamRead(raw: seq<Byte>)
    requires |raw| == BUFFER_SIZE
  {
    raw[2] == CMD_RAM_READ && raw[0] == 9
  }

  /** How many registers a RAM READ returns. */
  function ReadCount(raw: seq<Byte>): (n: nat)
    requires |raw| == BUFFER_SIZE
    ensures n <= DATA_SIZE - 2
  {
    if raw[6] + 2 > DATA_SIZE then DATA_SIZE - 2 else raw[6]
  }

  function RegisterPuts(n: nat): seq<Put> { seq(n, i requires 0 <= i < n => Put(i + 7, None)) }

  /** What the handler of a command puts into the buffer before it sends it; commands without a
      reply put nothing.  A RAM READ of `n` registers writes its two status bytes to the data
      positions n + 1, over the last register, and n + 2. */
  function Puts(raw: seq<Byte>): seq<Put>
    requires |raw| == BUFFER_SIZE
  {
    if raw[2] == CMD_STAT then
      [Put(0, Some(9)), Put(2, Some(0x47)), Put(5, None), Put(6, None)]
    else if IsRamRead(raw) then
      var n := ReadCount(raw);
      [Put(0, Some(n + 11)), Put(2, Some(0x44)), Put(5, Some(raw[5])), Put(6, Some(n))]
      + RegisterPuts(n) + [Put(n + 6, None), Put(n + 7, None)]
    else []
  }

  /** A RAM READ of more than seven registers, whose reply does not fit the buffer. */
  predicate Overruns(raw: seq<Byte>)
    requires Sized(raw)
  {
    Genuine(raw) && IsRamRead(raw) && raw[6] > 7
  }

  function ReplySize(raw: seq<Byte>): Byte
    requires |raw| == BUFFER_SIZE
  {
    if raw[2] == CMD_STAT then 9 else ReadCount(raw) + 11
  }

  /** The size is put first and never again; positions leave the buffer only for nine registers. */
  lemma PutsAre(raw: seq<Byte>)
    requires |raw| == BUFFER_SIZE && Puts(raw) != []
    ensures Puts(raw)[0] == Put(0, Some(ReplySize(raw)))
    ensures forall k :: 1 <= k < |Puts(raw)| ==> 2 <= Puts(raw)[k].index <= BUFFER_SIZE
    ensures forall k :: 0 <= k < |Puts(raw)| - 1 ==> Puts(raw)[k].index < BUFFER_SIZE
    ensures Puts(raw)[|Puts(raw)| - 1].index >= BUFFER_SIZE <==> raw[2] != CMD_STAT && ReadCount(raw) == 9
  {}

  /** The buffer after the first `k` puts, with `f` the register contents; None when one of them
      leaves the buffer. */
  function Answer(raw: seq<Byte>, puts: seq<Put>, f: nat -> Byte, k: nat): (r: Option<seq<Byte>>)
    requires |raw| == BUFFER_SIZE && k <= |puts|
    ensures r.Some? ==> |r.value| == BUFFER_SIZE
  {
    if k == 0 then Some(raw)
    else
      var before := Answer(raw, puts, f, k - 1);
      var p := puts[k - 1];
      if before.None? || p.index >= BUFFER_SIZE then None
      else Some(before.value[p.index := if p.value.Some? then p.value.value else f(k - 1)])
  }

  lemma {:induction false} AnswerSize(raw: seq<Byte>, f: nat -> Byte, k: nat)
    requires |raw| == BUFFER_SIZE && 1 <= k <= |Puts(raw)|
    ensures var a := Answer(raw, Puts(raw), f, k);
            && (a.None? <==> k == |Puts(raw)| && raw[2] != CMD_STAT && ReadCount(raw) == 9)
            && (a.Some? ==> a.value[0] == ReplySize(raw))
  {
    PutsAre(raw);
    hide Puts, ReplySize, ReadCount;
    if k > 1 {
      AnswerSize(raw, f, k - 1);
    } else {
      assert Answer(raw, Puts(raw), f, 0) == Some(raw);
    }
  }

  /** The reply to a genuine command fits the buffer if and only if the command is not a RAM READ of
      more than seven registers; a reply that fits is understood by every waiting receiver, if and
      only if its body contains no sync pair. */
  lemma ReplyIsReceivedIff(packet: seq<Byte>, f: nat -> Byte, r: Rx)
    requires Sized(packet) && Genuine(packet) && Puts(packet) != []
    requires PacketReceiver.Valid(r) && r.status.Bad?
    ensures var a := Answer(packet, Puts(packet), f, |Puts(packet)|);
            && (a.Some? && Sized(a.value) <==> !Overruns(packet))
            && (a.Some? && Sized(a.value) ==>
                  var s, body := ReceiveAll(r, Transmit(a.value)), Body(Stamp(a.value));
                  s.status.Ready? && Holding(s, body) && Sized(s.raw) && Genuine(s.raw) <==> NoSyncPair(body))
  {
    AnswerSize(packet, f, |Puts(packet)|);
    var a := Answer(packet, Puts(packet), f, |Puts(packet)|);
    hide Answer, Genuine, Stamp, Transmit, Body, ReceiveAll, NoSyncPair;
    if a.Some? && Sized(a.value) {
      TransmitIsReceivedIff(a.value, r);
    }
  }

  /** The reply to a STAT: its size and command, and the two status registers. */
  lemma StatReplyIs(packet: seq<Byte>, f: nat -> Byte)
    requires |packet| == BUFFER_SIZE && packet[2] == CMD_STAT
    ensures |Puts(packet)| == 4
    ensures Answer(packet, Puts(packet), f, 4) == Some(packet[0 := 9][2 := 0x47][5 := f(2)][6 := f(3)])
  {
    var puts := Puts(packet);
    assert Answer(packet, puts, f, 0) == Some(packet);
    assert Answer(packet, puts, f, 1) == Some(packet[0 := 9]);
    assert Answer(packet, puts, f, 2) == Some(packet[0 := 9][2 := 0x47]);
    assert Answer(packet, puts, f, 3) == Some(packet[0 := 9][2 := 0x47][5 := f(2)]);
  }

  /** The reply to a RAM READ before its registers. */
  function RamReadHead(packet: seq<Byte>): (raw: seq<Byte>)
    requires |packet| == BUFFER_SIZE
    ensures |raw| == BUFFER_SIZE
  {
    packet[0 := ReadCount(packet) + 11][2 := 0x44][6 := ReadCount(packet)]
  }

  lemma RamReadHeadIs(packet: seq<Byte>, f: nat -> Byte)
    requires |packet| == BUFFER_SIZE && IsRamRead(packet)
    ensures |Puts(packet)| == ReadCount(packet) + 6
    ensures Answer(packet, Puts(packet), f, 4) == Some(RamReadHead(packet))
  {
    var puts, n := Puts(packet), ReadCount(packet);
    assert puts[0] == Put(0, Some(n + 11)) && puts[1] == Put(2, Some(0x44));
    assert puts[2] == Put(5, Some(packet[5])) && puts[3] == Put(6, Some(n));
    hide Puts, ReadCount, IsRamRead;
    assert Answer(packet, puts, f, 0) == Some(packet);
    var a: seq<Byte> := packet[0 := n + 11];
    assert Answer(packet, puts, f, 1) == Some(a);
    var b: seq<Byte> := a[2 := 0x44];
    assert Answer(packet, puts, f, 2) == Some(b);
    assert b[5 := packet[5]] == b;
    assert Answer(packet, puts, f, 3) == Some(b);
    assert Answer(packet, puts, f, 4) == Some(b[6 := n]);
  }

  lemma {:induction false} RamReadRegisters(packet: seq<Byte>, f: nat -> Byte, k: nat)
    requires |packet| == BUFFER_SIZE && IsRamRead(packet) && k <= ReadCount(packet)
    ensures |Puts(packet)| == ReadCount(packet) + 6
    ensures var a := Answer(packet, Puts(packet), f, k + 4);
            && a.Some?
            && forall j :: 0 <= j < BUFFER_SIZE ==>
                 a.value[j] == if 7 <= j < 7 + k then f(j - 3) else RamReadHead(packet)[j]
  {
    RamReadHeadIs(packet, f);
    if k > 0 {
      RamReadRegisters(packet, f, k - 1);
      assert Puts(packet)[k + 3] == Put(k + 6, None);
      hide Puts;
    }
  }

  /** The reply to a RAM READ of up to eight registers: size, command, address and count, the
      registers, and the two status bytes, the first of them over the last register, or over the
      count where none is read. */
  lemma RamReadReplyIs(packet: seq<Byte>, f: nat -> Byte)
    requires |packet| == BUFFER_SIZE && IsRamRead(packet) && packet[6] <= 8
    ensures
      var n, a := packet[6], Answer(packet, Puts(packet), f, |Puts(packet)|);
      && a.Some?
      && a.value[0] == n + 11 && a.value[2] == 0x44 && a.value[5] == packet[5]
      && (n > 0 ==> a.value[6] == n)
      && (forall j :: 7 <= j < n + 6 ==> a.value[j] == f(j - 3))
      && a.value[n + 6] == f(n + 4) && a.value[n + 7] == f(n + 5)
  {
    var n, puts := packet[6], Puts(packet);
    RamReadRegisters(packet, f, n);
    assert puts[n + 4] == Put(n + 6, None) && puts[n + 5] == Put(n + 7, None);
    hide Puts;
    var before := Answer(packet, puts, f, n + 4);
    assert Answer(packet, puts, f, n + 5) == Some(before.value[n + 6 := f(n + 4)]);
    assert Answer(packet, puts, f, n + 6) == Some(before.value[n + 6 := f(n + 4)][n + 7 := f(n + 5)]);
  }

  // ---- the machine --------------------------------------------------------------------------------

  /** Where the main loop is; `reply` tells the checksum of a reply from that of a packet. */
  datatype Pc =
    | Polling
    | Heading(i: nat, acc: Byte, reply: bool)
    | Data(i: nat, acc: Byte, count: nat, reply: bool)
    | Judged(ok: bool)
    | Writing(puts: seq<Put>, k: nat)
    | Sending(i: nat)
    | Done
    | OutOfBounds

  /** `packet` records the buffer at the moment the handler last set READY. */
  datatype Machine = Machine(rx: Rx, pc: Pc, packet: seq<Byte>)

  /** An interrupt with its byte, or a step of the main loop with what the register it reads holds. */
  datatype Event = Interrupt(c: Byte) | Main(register: Byte)

  function Step(m: Machine, e: Event): Machine
    requires |m.rx.raw| == BUFFER_SIZE
  {
    match e
    case Interrupt(c) =>
      var rx := Receive(m.rx, c);
      m.(rx := rx, packet := if rx.status.Ready? && !m.rx.status.Ready? then rx.raw else m.packet)
    case Main(register) => MainStep(m, register)
  }

  function MainStep(m: Machine, register: Byte): (m': Machine)
    requires |m.rx.raw| == BUFFER_SIZE
    ensures |m'.rx.raw| == BUFFER_SIZE && m'.rx.ffCount == m.rx.ffCount && m'.packet == m.packet
  {
    var raw := m.rx.raw;
    match m.pc
    case Polling => if m.rx.status.Ready? then m.(pc := Heading(0, 0, false)) else m
    case Heading(i, acc, reply) =>
      if i < 3 then m.(pc := Heading(i + 1, Xor(acc, raw[i]), reply))
      else m.(pc := Data(0, acc, DataLength(raw), reply))
    case Data(i, acc, count, reply) =>
      if i == count then
        if reply then m.(rx := m.rx.(raw := raw[3 := Even(acc)][4 := Even(Complement(acc))]), pc := Sending(0))
        else m.(pc := Judged(raw[3] == Even(acc) && raw[4] == Even(Complement(acc))))
      else if i + 5 >= BUFFER_SIZE then m.(pc := OutOfBounds)
      else m.(pc := Data(i + 1, Xor(acc, raw[i + 5]), count, reply))
    case Judged(ok) =>
      if ok && Puts(raw) != [] then m.(pc := Writing(Puts(raw), 0)) else m.(pc := Done)
    case Writing(puts, k) =>
      if k >= |puts| then m.(rx := m.rx.(raw := raw[1 := SERVO_ADDR]), pc := Heading(0, 0, true))
      else if puts[k].index >= BUFFER_SIZE then m.(pc := OutOfBounds)
      else
        var value := if puts[k].value.Some? then puts[k].value.value else register;
        m.(rx := m.rx.(raw := raw[puts[k].index := value]), pc := Writing(puts, k + 1))
    case Sending(i) =>
      if i + 2 >= raw[0] then m.(pc := Done)
      else if i >= BUFFER_SIZE then m.(pc := OutOfBounds)
      else m.(pc := Sending(i + 1))
    case Done => m.(rx := m.rx.(status := Bad), pc := Polling)
    case OutOfBounds => m
  }

  /** While a packet waits or is being judged, the buffer is untouched; every partial checksum is
      that of the packet or of the reply, and a reply that is sent carries its own. */
  ghost predicate PcOk(m: Machine)
    requires |m.rx.raw| == BUFFER_SIZE && Sized(m.packet)
  {
    var raw := m.rx.raw;
    match m.pc
    case Polling => raw == m.packet
    case Heading(i, acc, reply) =>
      && i <= 3 && acc == XorUpTo(raw, i)
      && (if reply then Replying(m) && raw[1] == SERVO_ADDR else raw == m.packet)
    case Data(i, acc, count, reply) =>
      && count == DataLength(raw) && i <= count && i <= DATA_SIZE && acc == XorUpTo(raw, i + 3)
      && (if reply then Replying(m) && raw[1] == SERVO_ADDR else raw == m.packet)
    case Judged(ok) => raw == m.packet && (ok <==> Genuine(m.packet))
    case Writing(puts, k) =>
      && Genuine(m.packet) && puts == Puts(m.packet) != [] && k <= |puts|
      && (if k == 0 then raw == m.packet else raw[0] == ReplySize(m.packet))
      && (k == |puts| ==> Replying(m))
    case Sending(i) =>
      && Replying(m) && Sized(raw) && Genuine(raw) && raw[1] == SERVO_ADDR && i + 2 <= raw[0]
    case Done => !Overruns(m.packet)
    case OutOfBounds => Overruns(m.packet)
  }

  /** All puts of a reply stayed inside the buffer. */
  ghost predicate Replying(m: Machine)
    requires |m.rx.raw| == BUFFER_SIZE && Sized(m.packet)
  {
    && Genuine(m.packet) && Puts(m.packet) != []
    && (m.packet[2] == CMD_STAT || ReadCount(m.packet) < 9)
    && m.rx.raw[0] == ReplySize(m.packet)
  }

  ghost predicate Safe(m: Machine) {
    && PacketReceiver.Valid(m.rx)
    && (!m.pc.Polling? ==> m.rx.status.Ready?)
    && (m.rx.status.Ready? ==> Sized(m.packet) && m.rx.len == m.packet[0] - 2 && PcOk(m))
  }

  lemma InterruptKeepsSafe(m: Machine, c: Byte)
    requires Safe(m)
    ensures Safe(Step(m, Interrupt(c)))
    ensures m.rx.status.Ready? ==> Step(m, Interrupt(c)) == m
  {
    ReceiveKeepsValid(m.rx, c);
  }

  lemma ReplyFacts(m: Machine)
    requires |m.rx.raw| == BUFFER_SIZE && Sized(m.packet) && Replying(m)
    ensures Sized(m.rx.raw) <==> !Overruns(m.packet)
    ensures DataLength(m.rx.raw) <= DATA_SIZE + 1
    ensures Sized(m.rx.raw) <==> DataLength(m.rx.raw) <= DATA_SIZE
  {}

  lemma JudgedKeepsSafe(m: Machine, register: Byte)
    requires Safe(m) && m.pc.Judged?
    ensures Safe(MainStep(m, register))
  {
    hide Genuine;
  }

  lemma PacketDataKeepsSafe(m: Machine, register: Byte)
    requires Safe(m) && m.pc.Data? && !m.pc.reply
    ensures Safe(MainStep(m, register))
  {
    hide Xor, Puts;
  }

  lemma ReplyDataKeepsSafe(m: Machine, register: Byte)
    requires Safe(m) && m.pc.Data? && m.pc.reply
    ensures Safe(MainStep(m, register))
  {
    hide Xor, Puts, ReplySize;
    ReplyFacts(m);
    if m.pc.i == m.pc.count {
      ReplyIsStamped(m.rx.raw, m.pc.acc);
      hide Genuine;
    }
  }

  lemma ReplyIsStamped(raw: seq<Byte>, acc: Byte)
    requires Sized(raw) && acc == XorUpTo(raw, raw[0] - 4)
    ensures var r := raw[3 := Even(acc)][4 := Even(Complement(acc))]; Sized(r) && Genuine(r)
  {
    var q := raw[3 := Even(acc)];
    XorIgnores(raw, 3, Even(acc), raw[0] - 4);
    XorIgnores(q, 4, Even(Complement(acc)), raw[0] - 4);
  }

  lemma WritingKeepsSafe(m: Machine, register: Byte)
    requires Safe(m) && m.pc.Writing?
    ensures Safe(MainStep(m, register))
  {
    PutsAre(m.packet);
    hide Genuine, Puts;
  }

  lemma OtherStepsKeepSafe(m: Machine, register: Byte)
    requires Safe(m) && !m.pc.Judged? && !m.pc.Data? && !m.pc.Writing?
    ensures Safe(MainStep(m, register))
  {
    hide Xor, Genuine, Puts;
    if m.pc.Sending? {
      ReplyFacts(m);
    }
  }

  lemma StepKeepsSafe(m: Machine, e: Event)
    requires Safe(m)
    ensures Safe(Step(m, e))
    ensures e.Interrupt? && m.rx.status.Ready? ==> Step(m, e) == m
  {
    hide Safe, MainStep;
    match e {
      case Interrupt(c) => InterruptKeepsSafe(m, c);
      case Main(register) =>
        if m.pc.Judged? {
          JudgedKeepsSafe(m, register);
        } else if m.pc.Data? {
          if m.pc.reply {
            ReplyDataKeepsSafe(m, register);
          } else {
            PacketDataKeepsSafe(m, register);
          }
        } else if m.pc.Writing? {
          WritingKeepsSafe(m, register);
        } else {
          OtherStepsKeepSafe(m, register);
        }
    }
  }

  // ---- histories ----------------------------------------------------------------------------------

  /** The machine with what went over the wire: `taken` is what the handler took since the buffer
      was last released, `dropped` what came while a packet waited, and `held` the sync bytes it
      counted at that release. */
  datatype Past = Past(m: Machine, held: nat, taken: seq<Byte>, dropped: seq<Byte>, wire: seq<Byte>)

  const START := Past(Machine(INITIAL, Polling, EMPTY_BUFFER), 0, [], [], [])

  function Next(p: Past, e: Event): (p': Past)
    requires |p.m.rx.raw| == BUFFER_SIZE
    ensures |p'.m.rx.raw| == BUFFER_SIZE
  {
    var m := Step(p.m, e);
    match e
    case Interrupt(c) =>
      if p.m.rx.status.Ready? then p.(m := m, dropped := p.dropped + [c], wire := p.wire + [c])
      else p.(m := m, taken := p.taken + [c], wire := p.wire + [c])
    case Main(_) =>
      if p.m.pc.Done? then p.(m := m, held := p.m.rx.ffCount, taken := [], dropped := []) else p.(m := m)
  }

  function After(p: Past, events: seq<Event>): (p': Past)
    requires |p.m.rx.raw| == BUFFER_SIZE
    ensures |p'.m.rx.raw| == BUFFER_SIZE
    decreases |events|
  {
    if events == [] then p else After(Next(p, events[0]), events[1..])
  }

  /** The receiver with the packet as it was received, whatever a handler has written since. */
  function AsReceived(m: Machine): Rx { if m.rx.status.Ready? then m.rx.(raw := m.packet) else m.rx }

  /** What the handler has heard, a sync byte counted at the last release included. */
  function Heard(p: Past): seq<Byte> { (if p.held == 0 then [] else [SYNC]) + p.taken }

  ghost predicate EndsWith(wire: seq<Byte>, end: seq<Byte>) {
    |end| <= |wire| && wire[|wire| - |end|..] == end
  }

  ghost predicate Faithful(p: Past) {
    && Safe(p.m)
    && Tracks(AsReceived(p.m), Heard(p))
    && EndsWith(p.wire, p.taken + p.dropped)
    && (!p.m.rx.status.Ready? ==> p.dropped == [])
  }

  lemma InterruptKeepsFaithful(p: Past, c: Byte)
    requires Faithful(p)
    ensures Faithful(Next(p, Interrupt(c)))
  {
    InterruptKeepsSafe(p.m, c);
    var p' := Next(p, Interrupt(c));
    EndsWithMore(p.wire, p.taken + p.dropped, c);
    assert p'.taken + p'.dropped == (p.taken + p.dropped) + [c];
    hide Safe, EndsWith;
    if !p.m.rx.status.Ready? {
      ReceiveTracks(p.m.rx, Heard(p), c);
      hide Tracks, Receive;
      assert Heard(p') == Heard(p) + [c];
    }
  }

  lemma EndsWithMore(wire: seq<Byte>, end: seq<Byte>, c: Byte)
    requires EndsWith(wire, end)
    ensures EndsWith(wire + [c], end + [c])
  {
    assert (wire + [c])[|wire| - |end|..] == wire[|wire| - |end|..] + [c];
  }

  lemma MainKeepsFaithful(p: Past, register: Byte)
    requires Faithful(p)
    ensures Faithful(Next(p, Main(register)))
  {
    StepKeepsSafe(p.m, Main(register));
    hide Safe, Xor, Puts;
    StatusUnderMain(p.m, register);
    var p' := Next(p, Main(register));
    if p.m.pc.Done? {
      assert p'.wire[|p'.wire|..] == [];
    }
  }

  lemma StatusUnderMain(m: Machine, register: Byte)
    requires Safe(m)
    ensures var m' := MainStep(m, register);
            && PacketReceiver.Valid(m.rx)
            && (m.pc.Done? ==> m.rx.status.Ready? && m'.rx == m.rx.(status := Bad))
            && (!m.pc.Done? ==> m'.rx.status == m.rx.status && m'.rx.len == m.rx.len)
            && (!m.rx.status.Ready? ==> m' == m)
  {}

  lemma {:induction false} AfterKeepsFaithful(p: Past, events: seq<Event>)
    requires Faithful(p)
    ensures Faithful(After(p, events))
    decreases |events|
  {
    assert |p.m.rx.raw| == BUFFER_SIZE;
    hide Faithful, Next;
    if events != [] {
      match events[0] {
        case Interrupt(c) => InterruptKeepsFaithful(p, c);
        case Main(register) => MainKeepsFaithful(p, register);
      }
      AfterKeepsFaithful(Next(p, events[0]), events[1..]);
    }
  }

  lemma StartIsFaithful()
    ensures Faithful(START)
  {}

  /** Under every interleaving of interrupts and main loop steps: from READY until the main loop
      releases the buffer no interrupt changes it, every packet handed over has a size in 7..18 so
      that its checksum loop stays inside the buffer, the verdict is that of the packet received,
      replies carry their own checksum, and only a RAM READ of more than seven registers makes the
      main loop leave the buffer. */
  lemma HandoverIsSafe(events: seq<Event>)
    ensures Safe(After(START, events).m)
    ensures var m := After(START, events).m; m.pc.OutOfBounds? ==> Sized(m.packet) && Overruns(m.packet)
  {
    StartIsFaithful();
    AfterKeepsFaithful(START, events);
  }

  /** Every packet handed over is the end of what was heard, after two sync bytes; the first of
      them came before the last release exactly when one was counted there and nothing but the
      other one and the packet came since. */
  lemma PacketWasSent(events: seq<Event>)
    requires After(START, events).m.rx.status.Ready?
    ensures var p := After(START, events);
            var s := AsReceived(p.m);
            && EndsWith(p.wire, p.taken + p.dropped)
            && Announced(s, Heard(p))
            && (Announced(s, p.taken) <==> p.held == 0 || |p.taken| > s.len + 1)
  {
    StartIsFaithful();
    AfterKeepsFaithful(START, events);
    var p := After(START, events);
    hide After, Tracks, Announced, EndsWith, Safe;
    AnnouncedSince(AsReceived(p.m), p.held != 0, p.taken);
  }

  // ---- the main loop gets on ----------------------------------------------------------------------

  function Stage(pc: Pc): nat {
    match pc
    case Polling => 9
    case Heading(_, _, reply) => if reply then 4 else 8
    case Data(_, _, _, reply) => if reply then 3 else 7
    case Judged(_) => 6
    case Writing(_, _) => 5
    case Sending(_) => 2
    case Done => 1
    case OutOfBounds => 0
  }

  function Remaining(m: Machine): int
    requires |m.rx.raw| == BUFFER_SIZE
  {
    match m.pc
    case Heading(i, _, _) => 3 - i
    case Data(i, _, count, _) => count - i
    case Writing(puts, k) => |puts| - k
    case Sending(i) => m.rx.raw[0] - 2 - i
    case _ => 0
  }

  lemma MainAdvances(m: Machine, register: Byte)
    requires Safe(m) && m.rx.status.Ready? && !m.pc.Done? && !m.pc.OutOfBounds?
    ensures var m' := MainStep(m, register);
            && m'.rx.status.Ready? && Remaining(m) >= 0
            && (Stage(m'.pc) < Stage(m.pc) || (Stage(m'.pc) == Stage(m.pc) && 0 <= Remaining(m') < Remaining(m)))
  {
    hide Xor, Puts, Genuine;
    StepKeepsSafe(m, Main(register));
  }

  /** Whatever the registers hold, the main loop leaves the buffer exactly for an overrunning
      RAM READ, and otherwise releases it, with the sync count as it was. */
  lemma {:induction false} MainFinishes(p: Past, registers: nat -> Byte, k: nat) returns (events: seq<Event>)
    requires Safe(p.m) && p.m.rx.status.Ready?
    ensures forall i :: 0 <= i < |events| ==> events[i] == Main(registers(k + i))
    ensures var p' := After(p, events);
            && p'.wire == p.wire && p'.m.rx.ffCount == p.m.rx.ffCount
            && Safe(p'.m) && Sized(p.m.packet)
            && (if Overruns(p.m.packet) then p'.m.pc.OutOfBounds?
                else p'.m.pc.Polling? && p'.m.rx.status.Bad?)
    decreases Stage(p.m.pc), if Remaining(p.m) >= 0 then Remaining(p.m) else 0
  {
    EndsAre(p.m);
    if p.m.pc.OutOfBounds? {
      events := [];
    } else {
      var e := Main(registers(k));
      StepKeepsSafe(p.m, e);
      if p.m.pc.Done? {
        events := [e];
        assert events[1..] == [];
      } else {
        MainAdvances(p.m, registers(k));
        hide Safe, MainStep, Sized, Overruns;
        var rest := MainFinishes(Next(p, e), registers, k + 1);
        events := [e] + rest;
        assert events[1..] == rest;
        forall i | 0 <= i < |events| ensures events[i] == Main(registers(k + i)) {
          if i > 0 { assert rest[i - 1] == Main(registers(k + 1 + (i - 1))); }
        }
      }
    }
  }

  lemma EndsAre(m: Machine)
    requires Safe(m) && m.rx.status.Ready?
    ensures |m.rx.raw| == BUFFER_SIZE && Sized(m.packet)
    ensures m.pc.OutOfBounds? ==> Overruns(m.packet)
    ensures m.pc.Done? ==> !Overruns(m.packet)
  {}

  // ---- one sync byte is enough --------------------------------------------------------------------

  lemma {:induction false} AfterSplit(p: Past, a: seq<Event>, b: seq<Event>)
    requires |p.m.rx.raw| == BUFFER_SIZE
    ensures After(p, a + b) == After(After(p, a), b)
    decreases |a|
  {
    hide Next;
    if a == [] {
      assert a + b == b;
    } else {
      AfterSplit(Next(p, a[0]), a[1..], b);
      assert (a + b)[1..] == a[1..] + b;
    }
  }

  function Interrupts(bytes: seq<Byte>): seq<Event> {
    seq(|bytes|, i requires 0 <= i < |bytes| => Interrupt(bytes[i]))
  }

  lemma {:induction false} InterruptsReceive(p: Past, bytes: seq<Byte>)
    requires |p.m.rx.raw| == BUFFER_SIZE
    ensures var p' := After(p, Interrupts(bytes));
            p'.m.rx == ReceiveAll(p.m.rx, bytes) && p'.m.pc == p.m.pc && p'.wire == p.wire + bytes
    decreases |bytes|
  {
    hide Receive;
    if bytes != [] {
      var c, rest := bytes[0], bytes[1..];
      assert Interrupts(bytes)[1..] == Interrupts(rest);
      InterruptsReceive(Next(p, Interrupt(c)), rest);
      assert bytes == [c] + rest;
      ReceiveAllSplit(p.m.rx, [c], rest);
      assert [c][..0] == [];
      assert ReceiveAll(p.m.rx, [c]) == Receive(p.m.rx, c);
      assert p.wire + [c] + rest == p.wire + bytes;
    }
  }

  /** A packet body as it lies in the buffer. */
  function Padded(body: seq<Byte>): (raw: seq<Byte>)
    requires WellFormed(body)
    ensures Sized(raw)
  {
    body + EMPTY_BUFFER[|body|..]
  }

  lemma OverrunsByBody(raw: seq<Byte>, body: seq<Byte>)
    requires WellFormed(body) && |raw| == BUFFER_SIZE && raw[..|body|] == body
    ensures Sized(raw) && (Overruns(raw) <==> Overruns(Padded(body)))
  {
    var p := Padded(body);
    assert p[..|body|] == body;
    assert forall i :: 0 <= i < |body| ==> raw[i] == raw[..|body|][i] && p[i] == body[i];
    hide Genuine;
    SameBodySameChecksum(raw, p, |body|);
  }

  lemma {:induction false} ReadyIgnores(r: Rx, bytes: seq<Byte>)
    requires |r.raw| == BUFFER_SIZE && r.status.Ready?
    ensures ReceiveAll(r, bytes) == r
  {
    if bytes != [] {
      ReadyIgnores(r, bytes[..|bytes| - 1]);
    }
  }

  /** After a packet that ends in a sync byte, and whatever is dropped while it is handled, a single
      sync byte starts the next packet: on the wire that one follows `lost` and one sync byte. */
  lemma OneSyncAfterRelease(first: seq<Byte>, lost: seq<Byte>, second: seq<Byte>, registers: nat -> Byte)
    returns (events: seq<Event>)
    requires WellFormed(first) && NoSyncPair(first) && first[|first| - 1] == SYNC
    requires !Overruns(Padded(first))
    requires WellFormed(second) && NoSyncPair(second)
    ensures var p := After(START, events);
            && p.wire == [SYNC, SYNC] + first + lost + [SYNC] + second
            && p.m.rx.status.Ready? && Holding(AsReceived(p.m), second)
  {
    var a, c := [SYNC, SYNC] + first + lost, [SYNC] + second;
    var p1 := FirstPacket(first, lost);
    var mains := MainFinishes(p1, registers, 0);
    var p2 := After(p1, mains);
    hide After;
    InterruptsReceive(p2, c);
    OneSyncDelivers(p2.m.rx, second, |second|);
    assert second[..|second|] == second;
    var p3 := After(p2, Interrupts(c));
    events := Interrupts(a) + (mains + Interrupts(c));
    AfterSplit(START, Interrupts(a), mains + Interrupts(c));
    AfterSplit(p1, mains, Interrupts(c));
    assert p3.wire == [SYNC, SYNC] + first + lost + [SYNC] + second;
    HandoverIsSafe(events);
  }

  lemma FirstPacket(first: seq<Byte>, lost: seq<Byte>) returns (p: Past)
    requires WellFormed(first) && NoSyncPair(first) && first[|first| - 1] == SYNC
    requires !Overruns(Padded(first))
    ensures p == After(START, Interrupts([SYNC, SYNC] + first + lost))
    ensures p.wire == [SYNC, SYNC] + first + lost
    ensures Safe(p.m) && p.m.rx.status.Ready? && p.m.rx.ffCount == 1
    ensures Sized(p.m.packet) && !Overruns(p.m.packet)
  {
    var a := [SYNC, SYNC] + first + lost;
    p := After(START, Interrupts(a));
    InterruptsReceive(START, a);
    HandoverIsSafe(Interrupts(a));
    hide After;
    var r := INITIAL;
    var s := ReceiveAll(r, [SYNC, SYNC] + first);
    SyncStartsPacket(r);
    ReceiveAllSplit(r, [SYNC, SYNC], first);
    BodyIsStored(ReceiveAll(r, [SYNC, SYNC]), first, |first|);
    assert first[..|first|] == first;
    ReceiveAllSplit(r, [SYNC, SYNC] + first, lost);
    ReadyIgnores(s, lost);
    assert p.m.packet[..|first|] == first;
    hide Overruns, Sized;
    OverrunsByBody(p.m.packet, first);
  }

  /** For instance FF FF 07 63 07 00 FF, then 55 while that packet is handled, then FF 07 63 01 02 03:
      the second packet is taken although 55 FF precede it. */
  lemma SingleSyncExample(registers: nat -> Byte) returns (events: seq<Event>)
    ensures var p := After(START, events);
            && p.wire == [0xFF, 0xFF, 7, 99, 7, 0, 0xFF] + [0x55] + [0xFF] + [7, 99, 1, 2, 3]
            && p.m.rx.status.Ready? && Holding(AsReceived(p.m), [7, 99, 1, 2, 3])
            && !Announced(AsReceived(p.m), p.wire)
  {
    var first: seq<Byte>, second: seq<Byte> := [7, 99, 7, 0, 0xFF], [7, 99, 1, 2, 3];
    assert Padded(first)[2] == 7;
    events := OneSyncAfterRelease(first, [0x55], second, registers);
    var wire: seq<Byte> := [SYNC, SYNC] + first + [0x55] + [SYNC] + second;
    assert |wire| == 14 && wire[7] == 0x55;
  }

  // ---- a RAM READ that is too long ----------------------------------------------------------------

  /** The request for `count` registers from `addr` on, as a sender completes it. */
  function RamRead(addr: Byte, count: Byte): (raw: seq<Byte>)
    ensures Sized(raw)
  {
    [9, 0, CMD_RAM_READ, 0, 0, addr, count, 0, 0, 0, 0, 0, 0, 0, 0, 0]
  }

  /** Sent to the servo, the request makes the main loop leave the buffer if and only if it asks for
      more than seven registers, whatever they hold; otherwise the buffer is released. */
  lemma RamReadOutcome(addr: Byte, count: Byte, registers: nat -> Byte) returns (events: seq<Event>)
    requires !(addr == SYNC && count == SYNC)
    ensures var p := After(START, events);
            && p.wire == [SYNC, SYNC] + Body(Stamp(RamRead(addr, count)))
            && (p.m.pc.OutOfBounds? <==> count > 7)
            && (p.m.pc.Polling? && p.m.rx.status.Bad? <==> count <= 7)
  {
    var body := Body(Stamp(RamRead(addr, count)));
    var a := [SYNC, SYNC] + body;
    var p := After(START, Interrupts(a));
    RamReadArrives(addr, count);
    InterruptsReceive(START, a);
    var mains := MainFinishes(p, registers, 0);
    hide After;
    events := Interrupts(a) + mains;
    AfterSplit(START, Interrupts(a), mains);
  }

  lemma RamReadBody(addr: Byte, count: Byte)
    ensures var raw := RamRead(addr, count);
            var body := Body(Stamp(raw));
            && WellFormed(body) && |body| == 7
            && body[2] == CMD_RAM_READ && body[5] == addr && body[6] == count
            && (!(addr == SYNC && count == SYNC) ==> NoSyncPair(body))
  {
    hide Checksum;
    StampIsGenuine(RamRead(addr, count));
  }

  lemma RamReadArrives(addr: Byte, count: Byte)
    requires !(addr == SYNC && count == SYNC)
    ensures var p := After(START, Interrupts([SYNC, SYNC] + Body(Stamp(RamRead(addr, count)))));
            && Safe(p.m) && p.m.rx.status.Ready? && Sized(p.m.packet)
            && (Overruns(p.m.packet) <==> count > 7)
  {
    var stamped := Stamp(RamRead(addr, count));
    var body := Body(stamped);
    var a := [SYNC, SYNC] + body;
    var p := After(START, Interrupts(a));
    RamReadBody(addr, count);
    StampIsGenuine(RamRead(addr, count));
    hide Stamp, Body, Genuine, After;
    PacketIsDelivered(INITIAL, body, |body|);
    assert body[..|body|] == body;
    InterruptsReceive(START, a);
    HandoverIsSafe(Interrupts(a));
    var packet := p.m.packet;
    assert packet[..7] == body;
    assert packet[0] == body[0] && packet[2] == body[2] && packet[6] == body[6];
    BodyIsPrefix(stamped);
    SameBodySameChecksum(packet, stamped, 7);
  }

  lemma BodyIsPrefix(raw: seq<Byte>)
    requires Sized(raw)
    ensures Body(raw) == raw[..raw[0] - 2]
  {}
}
