/** The bit-banged I2C master and its command interpreter (hw/pressure_foot/firmware/i2c.c).

    What the lines and the slaves do is left open: every outcome of a bus operation is chosen
    arbitrarily, so the contracts hold for every command string and every slave. */
module I2cMaster {
  import opened Wrappers
  import opened Bytes

  const ERR_PARSE := 1
  const ERR_WRITE_COLL := 2
  const ERR_RXBUFF_FULL := 3
  const ERR_BADCMD := 5
  const ERR_BUSY := 7
  const ERR_BADADDR := 8
  const ERR_ADDR_NACK := 0x0A
  const ERR_DATA_NACK := 0x0B
  const NACK := 0xFF
  const POLL_AGAIN := 0xFE
  const POLL_EARLY := 0xFF
  const RESPONSE_SIZE := 10

  // ---- what happens on the bus --------------------------------------------------------------------

  datatype Event =
    | Start
    | Sent(b: Byte, ack: bool)   // a byte driven by the master, with the slave's answer
    | Got(b: Byte, nack: bool)   // a byte driven by the slave, with the master's answer
    | Collision                  // a byte given up because another master drives the line
    | Stop(released: bool)       // whether both lines came up, so that the bus is free

  /** The state of the bus by section 3.1.10 of the I2C specification UM10204: after START comes
      an address byte whose lowest bit gives the direction; data flows in that direction until a
      byte is not acknowledged; only a new START or a STOP may follow then. */
  datatype Bus = Idle | Started | Writing | Reading | Over | Broken

  function Follow(bus: Bus, e: Event): Bus {
    match e
    case Start => if bus.Broken? then Broken else Started
    case Stop(released) => if bus.Broken? then Broken else if released || bus.Idle? then Idle else Over
    case Collision => if bus.Idle? || bus.Over? || bus.Broken? then Broken else Over
    case Sent(b, ack) =>
      if bus.Started? then (if !ack then Over else if b % 2 == 0 then Writing else Reading)
      else if bus.Writing? then (if ack then Writing else Over)
      else Broken
    case Got(b, nack) =>
      if bus.Reading? then (if nack then Over else Reading) else Broken
  }

  function FollowAll(events: seq<Event>): Bus {
    if events == [] then Idle else Follow(FollowAll(events[..|events| - 1]), events[|events| - 1])
  }

  /** A transfer in one direction: START, an acknowledged address byte for that direction at
      `s + 1`, and nothing but acknowledged data that way up to `j`. */
  ghost predicate TransferFrom(events: seq<Event>, s: nat, j: nat, reading: bool) {
    && s + 2 <= j <= |events|
    && events[s].Start?
    && events[s + 1].Sent? && events[s + 1].ack && (events[s + 1].b % 2 == 1 <==> reading)
    && forall k :: s + 2 <= k < j ==>
         if reading then events[k].Got? && !events[k].nack else events[k].Sent? && events[k].ack
  }

  /** What the bus state means: in Reading or Writing a transfer that way is under way. */
  lemma {:induction false} StateMeansTransfer(events: seq<Event>) returns (s: nat)
    requires FollowAll(events).Reading? || FollowAll(events).Writing?
    ensures TransferFrom(events, s, |events|, FollowAll(events).Reading?)
  {
    var front, e := events[..|events| - 1], events[|events| - 1];
    if FollowAll(front).Started? {
      StartedMeansStart(front);
      s := |front| - 1;
    } else {
      s := StateMeansTransfer(front);
    }
  }

  lemma StartedMeansStart(events: seq<Event>)
    ensures FollowAll(events).Started? ==> events != [] && events[|events| - 1].Start?
  {}

  lemma {:induction false} PrefixNotBroken(events: seq<Event>, n: nat)
    requires n <= |events| && !FollowAll(events).Broken?
    ensures !FollowAll(events[..n]).Broken?
    decreases |events|
  {
    if n < |events| {
      var front := events[..|events| - 1];
      PrefixNotBroken(front, n);
      assert front[..n] == events[..n];
    } else {
      assert events[..n] == events;
    }
  }

  /** On a bus that is followed correctly every byte read comes from a transfer that a START and an
      acknowledged read address opened, with no unacknowledged byte since; every byte sent is an
      address right after START or data of a write transfer. */
  lemma BytesBelongToTransfers(events: seq<Event>, j: nat) returns (s: nat)
    requires !FollowAll(events).Broken? && j < |events|
    requires events[j].Got? || (events[j].Sent? && (j == 0 || !events[j - 1].Start?))
    ensures TransferFrom(events[..j], s, j, events[j].Got?)
  {
    PrefixNotBroken(events, j + 1);
    assert events[..j + 1][..j] == events[..j];
    StartedMeansStart(events[..j]);
    s := StateMeansTransfer(events[..j]);
  }

  /** The bytes read from slaves, in order. */
  ghost function Received(events: seq<Event>): seq<Byte> {
    if events == [] then []
    else
      var e := events[|events| - 1];
      Received(events[..|events| - 1]) + (if e.Got? then [e.b] else [])
  }

  // ---- transcripts against a script ---------------------------------------------------------------

  /** An event with what the slaves decide left open: their bytes, and whether they let go of the bus. */
  function Shape(e: Event): Event { if e.Got? then Got(0, e.nack) else if e.Stop? then Stop(true) else e }

  function Shapes(events: seq<Event>): (r: seq<Event>)
    ensures |r| == |events|
  {
    seq(|events|, k requires 0 <= k < |events| => Shape(events[k]))
  }

  /** The transcript grew exactly as the script says. */
  ghost predicate Grew(before: seq<Event>, after: seq<Event>, script: seq<Event>) {
    before <= after && Shapes(after[|before|..]) == script
  }

  /** A byte that went wrong where `want` was due. */
  predicate Failed(e: Event, want: Event) {
    e == Collision || (want.Sent? && e == Sent(want.b, false))
  }

  /** The script up to some point, except that its last event may have failed. */
  ghost predicate Attempt(trace: seq<Event>, script: seq<Event>) {
    || trace <= script
    || (0 < |trace| <= |script|
        && trace[..|trace| - 1] <= script && Failed(trace[|trace| - 1], script[|trace| - 1]))
  }

  ghost predicate Attempted(before: seq<Event>, after: seq<Event>, script: seq<Event>) {
    before <= after && Attempt(Shapes(after[|before|..]), script)
  }

  lemma GrewNothing(events: seq<Event>)
    ensures Grew(events, events, [])
  {}

  lemma GrewOne(before: seq<Event>, e: Event)
    ensures Grew(before, before + [e], [Shape(e)])
  {
    assert (before + [e])[|before|..] == [e];
  }

  lemma GrewTwice(a: seq<Event>, b: seq<Event>, c: seq<Event>, x: seq<Event>, y: seq<Event>)
    requires Grew(a, b, x) && Grew(b, c, y)
    ensures Grew(a, c, x + y)
  {
    assert c[|a|..] == b[|a|..] + c[|b|..];
  }

  lemma GrewIsAttempt(a: seq<Event>, b: seq<Event>, x: seq<Event>, script: seq<Event>)
    requires Grew(a, b, x) && x <= script
    ensures Attempted(a, b, script)
  {}

  lemma FailureIsAttempt(before: seq<Event>, e: Event, want: Event)
    requires Failed(e, want)
    ensures Attempted(before, before + [e], [want])
  {
    assert (before + [e])[|before|..] == [e];
  }

  /** One more byte: it came out as wanted, or it failed. */
  lemma ByteOutcome(before: seq<Event>, now: seq<Event>, done: seq<Event>, e: Event, want: Event, script: seq<Event>)
    requires Grew(before, now, done) && done + [want] <= script
    requires Shape(e) == want || Failed(e, want)
    ensures Shape(e) == want ==> Grew(before, now + [e], done + [want])
    ensures Failed(e, want) ==> Attempted(before, now + [e], script)
  {
    hide Grew, Attempted;
    if Shape(e) == want {
      GrewOne(now, e);
      GrewTwice(before, now, now + [e], done, [want]);
    }
    if Failed(e, want) {
      FailureIsAttempt(now, e, want);
      AttemptAfter(before, now, now + [e], done, [want], script);
    }
  }

  /** The two parts of a turn: the opening succeeded, and the bytes did or did not. */
  lemma TurnOutcome(a: seq<Event>, b: seq<Event>, c: seq<Event>, x: seq<Event>, y: seq<Event>, ok: bool)
    requires Grew(a, b, x) && (if ok then Grew(b, c, y) else Attempted(b, c, y))
    ensures if ok then Grew(a, c, x + y) else Attempted(a, c, x + y)
  {
    hide Grew, Attempted;
    if ok {
      GrewTwice(a, b, c, x, y);
    } else {
      AttemptAfter(a, b, c, x, y, x + y);
    }
  }

  lemma OpeningFails(a: seq<Event>, b: seq<Event>, x: seq<Event>, y: seq<Event>)
    requires Attempted(a, b, x)
    ensures Attempted(a, b, x + y)
  {
    hide Grew, Attempted;
    GrewNothing(a);
    assert [] + x == x;
    AttemptAfter(a, a, b, [], x, x + y);
  }

  lemma AttemptAfter(a: seq<Event>, b: seq<Event>, c: seq<Event>, x: seq<Event>, y: seq<Event>, script: seq<Event>)
    requires Grew(a, b, x) && Attempted(b, c, y) && x + y <= script
    ensures Attempted(a, c, script)
  {
    assert c[|a|..] == b[|a|..] + c[|b|..];
    var t, u := Shapes(c[|b|..]), Shapes(c[|a|..]);
    assert u == x + t;
    if t <= y {
      assert u <= script;
    } else {
      assert u[..|u| - 1] == x + t[..|t| - 1];
    }
  }

  // ---- parsing ------------------------------------------------------------------------------------

  function HexDigit(c: char): Option<nat> {
    if '0' <= c <= '9' then Some((c - '0') as nat)
    else if 'a' <= c <= 'f' then Some((c - 'a') as nat + 10)
    else if 'A' <= c <= 'F' then Some((c - 'A') as nat + 10)
    else None
  }

  /** is_hex: a digit or one of the separators. */
  predicate IsHex(c: char) { HexDigit(c).Some? || c == ' ' || c == ':' }

  function SkipSeparators(s: string, i: nat): (j: nat)
    requires i <= |s|
    ensures i <= j <= |s| && (j < |s| ==> s[j] != ' ' && s[j] != ':')
    decreases |s| - i
  {
    if i < |s| && (s[i] == ' ' || s[i] == ':') then SkipSeparators(s, i + 1) else i
  }

  datatype Hex = Hex(value: Byte, next: nat)

  /** parse_hex2: two digits, each after any separators. */
  function ParseHex2(s: string, i: nat): (r: Option<Hex>)
    requires i <= |s|
    ensures r.Some? ==> i + 2 <= r.value.next <= |s|
  {
    var a := SkipSeparators(s, i);
    if a == |s| || HexDigit(s[a]).None? then None
    else
      var b := SkipSeparators(s, a + 1);
      if b == |s| || HexDigit(s[b]).None? then None
      else Some(Hex(HexDigit(s[a]).value * 16 + HexDigit(s[b]).value, b + 1))
  }

  /** The bytes of a write command: pairs of digits, as far as digits and separators go. */
  datatype Data = Data(bytes: seq<Byte>, next: nat, wellFormed: bool)

  function ParseData(s: string, i: nat): (d: Data)
    requires i <= |s|
    ensures i <= d.next <= |s|
    decreases |s| - i
  {
    if i == |s| || !IsHex(s[i]) then Data([], i, true)
    else
      var hex := ParseHex2(s, i);
      if hex.None? then Data([], i, false)
      else
        var rest := ParseData(s, hex.value.next);
        Data([hex.value.value] + rest.bytes, rest.next, rest.wellFormed)
  }

  function Acknowledged(bytes: seq<Byte>): (es: seq<Event>)
    ensures |es| == |bytes|
  {
    seq(|bytes|, k requires 0 <= k < |bytes| => Sent(bytes[k], true))
  }

  lemma AcknowledgedPrefix(a: seq<Byte>, b: seq<Byte>)
    requires a <= b
    ensures Acknowledged(a) <= Acknowledged(b)
    ensures |a| < |b| ==> Acknowledged(a) + [Sent(b[|a|], true)] == Acknowledged(a + [b[|a|]]) <= Acknowledged(b)
  {}

  /** The first `n` bytes of a read of `count`; with `finalNack` the last byte is refused. */
  function Reads(count: nat, finalNack: bool, n: nat): (es: seq<Event>)
    ensures |es| == n
  {
    seq(n, k requires 0 <= k < n => Got(0, finalNack && k + 1 == count))
  }

  lemma ReadsPrefix(count: nat, finalNack: bool, n: nat)
    requires n < count
    ensures Reads(count, finalNack, n) + [Got(0, finalNack && n + 1 == count)] == Reads(count, finalNack, n + 1)
    ensures Reads(count, finalNack, n + 1) <= Reads(count, finalNack, count)
  {}

  /** Parsing from `start` has passed these bytes and goes on at `i`. */
  ghost predicate Passed(s: string, start: nat, i: nat, bytes: seq<Byte>)
    requires start <= |s| && i <= |s|
  {
    var d, rest := ParseData(s, start), ParseData(s, i);
    d == Data(bytes + rest.bytes, rest.next, rest.wellFormed)
  }

  lemma PassedNothing(s: string, i: nat)
    requires i <= |s|
    ensures Passed(s, i, i, [])
  {}

  lemma PassedMore(s: string, start: nat, i: nat, bytes: seq<Byte>)
    requires start <= |s| && i < |s| && IsHex(s[i]) && ParseHex2(s, i).Some? && Passed(s, start, i, bytes)
    ensures var hex := ParseHex2(s, i).value; Passed(s, start, hex.next, bytes + [hex.value])
  {}

  lemma PassedPrefix(s: string, start: nat, i: nat, bytes: seq<Byte>)
    requires start <= |s| && i <= |s| && Passed(s, start, i, bytes)
    ensures bytes <= ParseData(s, start).bytes
  {}

  lemma PassedAll(s: string, start: nat, i: nat, bytes: seq<Byte>)
    requires start <= |s| && i <= |s| && Passed(s, start, i, bytes)
    requires i < |s| && IsHex(s[i]) ==> ParseHex2(s, i).None?
    ensures ParseData(s, start) == Data(bytes, i, i == |s| || !IsHex(s[i]))
  {}

  const LOWER_DIGITS := "0123456789abcdef"
  const UPPER_DIGITS := "0123456789ABCDEF"

  /** The 22 digit characters and what they stand for. */
  lemma HexDigitIs(c: char, v: nat)
    ensures HexDigit(c) == Some(v) <==> v < 16 && (c == LOWER_DIGITS[v] || c == UPPER_DIGITS[v])
  {
    if v < 16 && (c == LOWER_DIGITS[v] || c == UPPER_DIGITS[v]) {
      assert HexDigit(LOWER_DIGITS[v]) == Some(v) && HexDigit(UPPER_DIGITS[v]) == Some(v);
    }
  }

  /** Two digits, with any separators before each, spell this byte. */
  lemma DigitsSpell(s: string, i: nat, a: nat, b: nat, high: nat, low: nat)
    requires i <= a < b < |s| && high < 16 && low < 16
    requires forall k :: i <= k < b && k != a ==> s[k] == ' ' || s[k] == ':'
    requires s[a] == LOWER_DIGITS[high] || s[a] == UPPER_DIGITS[high]
    requires s[b] == LOWER_DIGITS[low] || s[b] == UPPER_DIGITS[low]
    ensures ParseHex2(s, i) == Some(Hex(16 * high + low, b + 1))
  {
    HexDigitIs(s[a], high);
    HexDigitIs(s[b], low);
    SkipsTo(s, i, a);
    SkipsTo(s, a + 1, b);
  }

  lemma {:induction false} SkipsTo(s: string, i: nat, j: nat)
    requires i <= j < |s| && s[j] != ' ' && s[j] != ':'
    requires forall k :: i <= k < j ==> s[k] == ' ' || s[k] == ':'
    ensures SkipSeparators(s, i) == j
    decreases j - i
  {
    if i < j {
      SkipsTo(s, i + 1, j);
    }
  }

  function AndBits(a: nat, b: nat): (r: nat)
    ensures r <= a && r <= b
  {
    if a == 0 || b == 0 then 0 else 2 * AndBits(a / 2, b / 2) + (a % 2) * (b % 2)
  }

  function And(a: Byte, b: Byte): Byte { AndBits(a, b) }

  function Bit(x: nat, k: nat): bool { if k == 0 then x % 2 == 1 else Bit(x / 2, k - 1) }

  /** `a & b`, bit by bit. */
  lemma {:induction false} AndIsBitwise(a: nat, b: nat, k: nat)
    ensures Bit(AndBits(a, b), k) <==> Bit(a, k) && Bit(b, k)
    decreases k
  {
    if a == 0 || b == 0 {
      NoBits(k);
    } else {
      AndHalf(a, b);
      if k > 0 {
        AndIsBitwise(a / 2, b / 2, k - 1);
      }
    }
  }

  lemma AndHalf(a: nat, b: nat)
    requires a > 0 && b > 0
    ensures AndBits(a, b) / 2 == AndBits(a / 2, b / 2)
    ensures AndBits(a, b) % 2 == 1 <==> a % 2 == 1 && b % 2 == 1
  {
    ParityProduct(a % 2, b % 2);
  }

  lemma ParityProduct(x: nat, y: nat)
    requires x < 2 && y < 2
    ensures x * y == if x == 1 && y == 1 then 1 else 0
  {}

  lemma {:induction false} NoBits(k: nat)
    ensures !Bit(0, k)
  {
    if k > 0 {
      NoBits(k - 1);
    }
  }

  ghost predicate AgreeUnder(last: Byte, mask: Byte, value: Byte) {
    forall k :: 0 <= k < 8 && Bit(mask, k) ==> (Bit(last, k) <==> Bit(value, k))
  }

  /** A poll is met exactly when the last byte has the expected value in every bit of the mask. */
  lemma PollIsBitwise(last: Byte, mask: Byte, value: Byte)
    ensures And(last, mask) == And(value, mask)
            <==> AgreeUnder(last, mask, value)
  {
    if And(last, mask) == And(value, mask) {
      forall k | 0 <= k < 8 && Bit(mask, k) ensures Bit(last, k) <==> Bit(value, k) {
        AndIsBitwise(last, mask, k);
        AndIsBitwise(value, mask, k);
      }
    } else if AgreeUnder(last, mask, value) {
      forall k | 0 <= k < 8 ensures Bit(And(last, mask), k) <==> Bit(And(value, mask), k) {
        AndIsBitwise(last, mask, k);
        AndIsBitwise(value, mask, k);
      }
      SameBits(And(last, mask), And(value, mask), 8);
    }
  }

  lemma {:induction false} SameBits(a: nat, b: nat, n: nat)
    requires a < Pow2(n) && b < Pow2(n) && forall k :: 0 <= k < n ==> (Bit(a, k) <==> Bit(b, k))
    ensures a == b
  {
    if n > 0 {
      assert Bit(a, 0) <==> Bit(b, 0);
      forall k | 0 <= k < n - 1 ensures Bit(a / 2, k) <==> Bit(b / 2, k) {
        assert Bit(a, k + 1) <==> Bit(b, k + 1);
      }
      SameBits(a / 2, b / 2, n - 1);
    }
  }

  // ---- what a command text asks for ---------------------------------------------------------------

  /** Where the interpreter stands in the text, the address it talks to, and what it may continue. */
  datatype Cursor = Cursor(i: nat, addr: int, inTransaction: bool, lastRead: bool)

  /** One letter of the text: what it puts on the bus, and where the interpreter goes on; it stops
      at a malformed text or without an address. */
  datatype Turn = Turn(script: seq<Event>, next: Option<Cursor>)

  predicate Addressed(addr: int) { 0 <= addr <= 0x7F }

  function Opening(c: Cursor, read: bool): seq<Event>
    requires Addressed(c.addr)
  {
    if c.inTransaction && c.lastRead == read then []
    else [Start, Sent(c.addr * 2 + (if read then 1 else 0), true)]
  }

  function TakeTurn(cmd: string, c: Cursor): (t: Turn)
    requires c.i < |cmd|
    ensures t.next.Some? ==> c.i < t.next.value.i <= |cmd|
  {
    var letter, i := cmd[c.i], c.i + 1;
    if letter == 's' then
      var hex := ParseHex2(cmd, i);
      Turn([], if hex.None? then None else Some(c.(i := hex.value.next, addr := hex.value.value)))
    else if letter == 'n' || letter == 'r' then
      var hex := ParseHex2(cmd, i);
      if hex.None? || !Addressed(c.addr) then Turn([], None)
      else
        var count := hex.value.value;
        Turn(Opening(c, true) + Reads(count, letter == 'r', count),
             Some(c.(i := hex.value.next, inTransaction := letter == 'n', lastRead := true)))
    else if letter == 'w' then
      if !Addressed(c.addr) then Turn([], None)
      else
        var d := ParseData(cmd, i);
        Turn(Opening(c, false) + Acknowledged(d.bytes),
             if !d.wellFormed then None
             else Some(c.(i := d.next, inTransaction := true, lastRead := false)))
    else if letter == 'p' then
      var poll := ParsePoll(cmd, i);
      Turn([], if poll.None? then None else Some(c.(i := poll.value.next)))
    else if letter == ';' then Turn([Stop(true)], Some(c.(i := i, inTransaction := false)))
    else if letter == ' ' || letter == ':' then Turn([], Some(c.(i := i)))
    else Turn([], None)
  }

  datatype PollTest = PollTest(mask: Byte, value: Byte, next: nat)

  function ParsePoll(s: string, i: nat): (r: Option<PollTest>)
    requires i <= |s|
    ensures r.Some? ==> i < r.value.next <= |s|
  {
    var mask := ParseHex2(s, i);
    if mask.None? then None
    else
      var value := ParseHex2(s, mask.value.next);
      if value.None? then None else Some(PollTest(mask.value.value, value.value.value, value.value.next))
  }

  predicate AtEnd(cmd: string, i: nat) { i >= |cmd| || cmd[i] == '\0' }

  /** Everything the text asks for, if all goes well. */
  function Script(cmd: string, c: Cursor): seq<Event>
    decreases |cmd| - c.i
  {
    if AtEnd(cmd, c.i) then []
    else
      var t := TakeTurn(cmd, c);
      t.script + (if t.next.Some? then Script(cmd, t.next.value) else [])
  }

  /** The script has been followed up to the cursor. */
  ghost predicate OnScript(before: seq<Event>, now: seq<Event>, script: seq<Event>, cmd: string, c: Cursor) {
    exists done :: Grew(before, now, done) && script == done + Script(cmd, c)
  }

  lemma ScriptStarts(events: seq<Event>, cmd: string, c: Cursor)
    ensures OnScript(events, events, Script(cmd, c), cmd, c)
  {
    GrewNothing(events);
    assert Script(cmd, c) == [] + Script(cmd, c);
  }

  lemma ScriptGoesOn(before: seq<Event>, now: seq<Event>, later: seq<Event>, script: seq<Event>, cmd: string, c: Cursor)
    requires !AtEnd(cmd, c.i) && OnScript(before, now, script, cmd, c)
    requires var t := TakeTurn(cmd, c); t.next.Some? && Grew(now, later, t.script)
    ensures OnScript(before, later, script, cmd, TakeTurn(cmd, c).next.value)
  {
    hide Grew, TakeTurn;
    var done :| Grew(before, now, done) && script == done + Script(cmd, c);
    var t := TakeTurn(cmd, c);
    GrewTwice(before, now, later, done, t.script);
    assert script == (done + t.script) + Script(cmd, t.next.value);
  }

  lemma ScriptFails(before: seq<Event>, now: seq<Event>, later: seq<Event>, script: seq<Event>, cmd: string, c: Cursor)
    requires !AtEnd(cmd, c.i) && OnScript(before, now, script, cmd, c)
    requires Attempted(now, later, TakeTurn(cmd, c).script)
    ensures Attempted(before, later, script)
  {
    hide Grew, Attempted, TakeTurn;
    var done :| Grew(before, now, done) && script == done + Script(cmd, c);
    AttemptAfter(before, now, later, done, TakeTurn(cmd, c).script, script);
  }

  lemma ScriptEnds(before: seq<Event>, now: seq<Event>, script: seq<Event>, cmd: string, c: Cursor)
    requires AtEnd(cmd, c.i) && OnScript(before, now, script, cmd, c)
    ensures Grew(before, now, script)
  {
    var done :| Grew(before, now, done) && script == done + Script(cmd, c);
    assert script == done;
  }

  // ---- the master ---------------------------------------------------------------------------------

  class Master {
    var active: bool
    var addr: int
    const response: array<Byte>
    var responseLength: nat
    ghost var events: seq<Event>

    /** Where the events of the current command begin. */
    ghost var mark: nat

    ghost predicate Valid()
      reads this
    {
      && response.Length == RESPONSE_SIZE
      && responseLength <= RESPONSE_SIZE
      && mark <= |events|
      && !FollowAll(events).Broken?
      && (!FollowAll(events).Idle? ==> active)
    }

    ghost function Incoming(): seq<Byte>
      reads this
      requires mark <= |events|
    {
      Received(events[mark..])
    }

    /** The response buffer holds exactly what the current command has read. */
    ghost predicate Stored()
      reads this, response
      requires mark <= |events|
    {
      responseLength <= response.Length && response[..responseLength] == Incoming()
    }

    constructor ()
      ensures Valid() && Stored() && fresh(response) && events == [] && responseLength == 0
    {
      active, addr := false, -1;
      response := new Byte[RESPONSE_SIZE];
      responseLength := 0;
      events, mark := [], 0;
    }

    ghost method Record(e: Event)
      requires mark <= |events|
      modifies this`events
      ensures events == old(events) + [e] && FollowAll(events) == Follow(FollowAll(old(events)), e)
      ensures Incoming() == old(Incoming()) + if e.Got? then [e.b] else []
    {
      events := events + [e];
      assert events[..|events| - 1] == old(events);
      assert events[mark..][..|events[mark..]| - 1] == old(events)[mark..];
    }

    /** i2c_start: a repeated START always succeeds, a first one only on a free bus. */
    method StartBus() returns (err: nat)
      requires Valid()
      modifies this`active, this`events
      ensures Valid() && old(events) <= events
      ensures err == 0 || err == ERR_BUSY
      ensures err == 0 ==> events == old(events) + [Start] && FollowAll(events).Started? && active
      ensures err != 0 ==> events == old(events)
      ensures Incoming() == old(Incoming())
    {
      var free: bool := *;
      if !active && !free {
        return ERR_BUSY;
      }
      Record(Start);
      active := true;
      return 0;
    }

    /** i2c_stop: the STOP condition is always driven; the bus stays claimed if a line stays low. */
    method StopBus()
      requires Valid()
      modifies this`active, this`events
      ensures Valid() && |events| == |old(events)| + 1 && events[|old(events)|].Stop?
      ensures events == old(events) + [events[|old(events)|]]
      ensures FollowAll(events).Idle? <==> events[|old(events)|].released || FollowAll(old(events)).Idle?
      ensures active == (old(active) && !events[|old(events)|].released)
      ensures Incoming() == old(Incoming())
    {
      var released: bool := *;
      Record(Stop(released));
      if active && released {
        active := false;
      }
    }

    method WriteByte(b: Byte) returns (err: nat)
      requires Valid() && (FollowAll(events).Started? || FollowAll(events).Writing?)
      modifies this`events
      ensures Valid() && old(events) <= events
      ensures err == 0 || err == NACK || err == ERR_WRITE_COLL
      ensures events == old(events) + [if err == ERR_WRITE_COLL then Collision else Sent(b, err == 0)]
      ensures Incoming() == old(Incoming())
      ensures err == 0 ==>
                FollowAll(events) == if FollowAll(old(events)).Started? && b % 2 == 1 then Reading else Writing
    {
      assert active;  // so the firmware's check for an idle bus passes
      var collided: bool, ack: bool := *, *;
      if collided {
        Record(Collision);
        return ERR_WRITE_COLL;
      }
      Record(Sent(b, ack));
      return if ack then 0 else NACK;
    }

    method ReadByte(nack: bool) returns (err: nat, b: Byte)
      requires Valid() && FollowAll(events).Reading?
      modifies this`events
      ensures Valid() && old(events) <= events
      ensures err == 0 || err == ERR_WRITE_COLL
      ensures events == old(events) + [if err == 0 then Got(b, nack) else Collision]
      ensures Incoming() == old(Incoming()) + if err == 0 then [b] else []
      ensures err == 0 ==> FollowAll(events) == if nack then Over else Reading
    {
      b := *;
      var collided: bool := *;
      if nack && collided {
        Record(Collision);
        return ERR_WRITE_COLL, b;
      }
      Record(Got(b, nack));
      return 0, b;
    }

    /** START and address byte for one direction, unless a transfer that way goes on. */
    method Open(ghost c: Cursor, goesOn: bool, read: bool) returns (err: nat)
      requires Valid() && Addressed(addr) && c.addr == addr && goesOn == (c.inTransaction && c.lastRead == read)
      requires goesOn ==> FollowAll(events) == if read then Reading else Writing
      modifies this`active, this`events
      ensures Valid() && Incoming() == old(Incoming())
      ensures err == 0 ==> FollowAll(events) == if read then Reading else Writing
      ensures err == 0 ==> Grew(old(events), events, Opening(c, read))
      ensures err != 0 ==> Attempted(old(events), events, Opening(c, read))
    {
      hide FollowAll, Received, Grew, Attempted;
      GrewNothing(events);
      if goesOn {
        return 0;
      }
      err := StartBus();
      if err != 0 {
        GrewIsAttempt(old(events), events, [], Opening(c, read));
        return;
      }
      ghost var started := events;
      GrewOne(old(events), Start);
      var b := addr * 2 + (if read then 1 else 0);
      assert [Start] + [Sent(b, true)] == Opening(c, read);
      err := WriteByte(b);
      ByteOutcome(old(events), started, [Start], if err == ERR_WRITE_COLL then Collision else Sent(b, err == 0),
                  Sent(b, true), Opening(c, read));
      if err == NACK {
        err := ERR_ADDR_NACK;
      }
    }

    /** The bytes of one read command; with `finalNack` the last one is refused. */
    method ReadBytes(count: Byte, finalNack: bool, lastNack: bool) returns (err: nat, nacked: bool)
      requires Valid() && Stored() && FollowAll(events).Reading? && responseLength < RESPONSE_SIZE
      modifies this`events, this`responseLength, response
      ensures Valid() && Stored()
      ensures err == 0 ==> FollowAll(events).Reading? || (finalNack && FollowAll(events).Over?)
      ensures err == 0 ==> responseLength == old(responseLength) + count < RESPONSE_SIZE
      ensures err == 0 ==> nacked == if count == 0 then lastNack else finalNack
      ensures err == 0 ==> Grew(old(events), events, Reads(count, finalNack, count))
      ensures err != 0 ==> Attempted(old(events), events, Reads(count, finalNack, count))
    {
      hide FollowAll, Received, Grew, Attempted, Reads;
      GrewNothing(events);
      err, nacked := 0, lastNack;
      var i := 0;
      assert Reads(count, finalNack, 0) == [];
      while i < count
        invariant 0 <= i <= count && Valid() && Stored() && err == 0
        invariant i < count || !finalNack ==> FollowAll(events).Reading?
        invariant FollowAll(events).Reading? || FollowAll(events).Over?
        invariant responseLength == old(responseLength) + i < RESPONSE_SIZE
        invariant nacked == if i == 0 then lastNack else finalNack && i == count
        invariant Grew(old(events), events, Reads(count, finalNack, i))
      {
        nacked := finalNack && i + 1 == count;
        ghost var now := events;
        var b;
        err, b := ReadByte(nacked);
        ReadsPrefix(count, finalNack, i);
        ByteOutcome(old(events), now, Reads(count, finalNack, i), if err != 0 then Collision else Got(b, nacked),
                    Got(0, nacked), Reads(count, finalNack, count));
        if err != 0 {
          return;
        }
        ghost var before := response[..responseLength];
        response[responseLength] := b;
        responseLength := responseLength + 1;
        assert response[..responseLength] == before + [b];
        if responseLength >= RESPONSE_SIZE {
          GrewIsAttempt(old(events), events, Reads(count, finalNack, i + 1), Reads(count, finalNack, count));
          return ERR_RXBUFF_FULL, nacked;
        }
        i := i + 1;
      }
    }

    /** The data of one write command, as far as hexadecimal digits follow. */
    method WriteBytes(cmd: string, start: nat) returns (err: nat, i: nat)
      requires Valid() && FollowAll(events).Writing? && start <= |cmd|
      modifies this`events
      ensures Valid() && Incoming() == old(Incoming())
      ensures start <= i <= |cmd| && (err == 0 ==> FollowAll(events).Writing?)
      ensures var d := ParseData(cmd, start);
              && (err == 0 ==> d.wellFormed && i == d.next && Grew(old(events), events, Acknowledged(d.bytes)))
              && (err != 0 ==> Attempted(old(events), events, Acknowledged(d.bytes)))
    {
      hide FollowAll, Received, ParseHex2, ParseData, IsHex, Passed, Grew, Attempted, Acknowledged;
      ghost var sent := [];
      ghost var script := Acknowledged(ParseData(cmd, start).bytes);
      PassedNothing(cmd, start);
      GrewNothing(events);
      assert Acknowledged([]) == [];
      err, i := 0, start;
      while i < |cmd| && IsHex(cmd[i])
        invariant start <= i <= |cmd| && Valid()
        invariant Incoming() == old(Incoming())
        invariant FollowAll(events).Writing? && err == 0
        invariant Grew(old(events), events, Acknowledged(sent)) && Passed(cmd, start, i, sent)
        decreases |cmd| - i
      {
        var hex := ParseHex2(cmd, i);
        if hex.None? {
          PassedAll(cmd, start, i, sent);
          GrewIsAttempt(old(events), events, script, script);
          return ERR_PARSE, i;
        }
        var b := hex.value.value;
        PassedMore(cmd, start, i, sent);
        i := hex.value.next;
        PassedPrefix(cmd, start, i, sent + [b]);
        AcknowledgedPrefix(sent, sent + [b]);
        AcknowledgedPrefix(sent + [b], ParseData(cmd, start).bytes);
        ghost var now := events;
        err := WriteByte(b);
        ByteOutcome(old(events), now, Acknowledged(sent),
                    if err == ERR_WRITE_COLL then Collision else Sent(b, err == 0), Sent(b, true), script);
        sent := sent + [b];
        if err == NACK {
          return ERR_DATA_NACK, i;
        }
        if err != 0 {
          return;
        }
      }
      PassedAll(cmd, start, i, sent);
    }

    /** A read command: START and address if needed, then the bytes. */
    method ReadTurn(ghost c: Cursor, goesOn: bool, count: Byte, final: bool, lastNack: bool)
      returns (err: nat, nacked: bool)
      requires Valid() && Stored() && responseLength < RESPONSE_SIZE
      requires Addressed(addr) && c.addr == addr && goesOn == (c.inTransaction && c.lastRead)
      requires goesOn ==> FollowAll(events) == Reading
      modifies this`active, this`events, this`responseLength, response
      ensures Valid() && Stored()
      ensures err == 0 ==> responseLength < RESPONSE_SIZE && (!final ==> FollowAll(events).Reading?)
      ensures var script := Opening(c, true) + Reads(count, final, count);
              if err == 0 then Grew(old(events), events, script) else Attempted(old(events), events, script)
    {
      hide FollowAll, Received, Grew, Attempted, Opening, Reads;
      nacked := lastNack;
      err := Open(c, goesOn, true);
      if err != 0 {
        OpeningFails(old(events), events, Opening(c, true), Reads(count, final, count));
        return;
      }
      ghost var begun := events;
      err, nacked := ReadBytes(count, final, lastNack);
      TurnOutcome(old(events), begun, events, Opening(c, true), Reads(count, final, count), err == 0);
    }

    /** A write command: START and address if needed, then the data. */
    method WriteTurn(ghost c: Cursor, goesOn: bool, cmd: string, start: nat) returns (err: nat, i: nat)
      requires Valid() && Stored() && start <= |cmd|
      requires Addressed(addr) && c.addr == addr && goesOn == (c.inTransaction && !c.lastRead)
      requires goesOn ==> FollowAll(events) == Writing
      modifies this`active, this`events
      ensures Valid() && Stored() && start <= i <= |cmd|
      ensures var d := ParseData(cmd, start);
              var script := Opening(c, false) + Acknowledged(d.bytes);
              && (err == 0 ==> d.wellFormed && i == d.next && FollowAll(events).Writing?)
              && (if err == 0 then Grew(old(events), events, script) else Attempted(old(events), events, script))
    {
      hide FollowAll, Received, Grew, Attempted, Opening, ParseData, Acknowledged;
      i := start;
      err := Open(c, goesOn, false);
      ghost var data := Acknowledged(ParseData(cmd, start).bytes);
      if err != 0 {
        OpeningFails(old(events), events, Opening(c, false), data);
        return;
      }
      ghost var begun := events;
      err, i := WriteBytes(cmd, start);
      TurnOutcome(old(events), begun, events, Opening(c, false), data, err == 0);
    }

    /** One letter of the text. */
    method RunTurn(cmd: string, i: nat, inTransaction: bool, lastRead: bool, lastNack: bool)
      returns (err: nat, i': nat, inTransaction': bool, lastRead': bool, lastNack': bool)
      requires Valid() && Stored() && responseLength < RESPONSE_SIZE && !AtEnd(cmd, i)
      requires inTransaction ==> FollowAll(events) == if lastRead then Reading else Writing
      modifies this, response
      ensures Valid() && Stored() && mark == old(mark)
      ensures var t := TakeTurn(cmd, Cursor(i, old(addr), inTransaction, lastRead));
              && (err == 0 ==> t.next == Some(Cursor(i', addr, inTransaction', lastRead'))
                               && Grew(old(events), events, t.script))
              && (err != 0 ==> Attempted(old(events), events, t.script))
      ensures err == 0 ==> responseLength < RESPONSE_SIZE
      ensures err == 0 && inTransaction' ==> FollowAll(events) == if lastRead' then Reading else Writing
      ensures err == 0 && cmd[i] == 'p' ==>
                var poll := ParsePoll(cmd, i + 1).value;
                responseLength > 0 && And(response[responseLength - 1], poll.mask) == And(poll.value, poll.mask)
    {
      hide FollowAll, Received, ParseHex2, ParseData, And, Grew, Attempted, Opening, Reads, Acknowledged;
      ghost var c, begun := Cursor(i, addr, inTransaction, lastRead), events;
      GrewNothing(events);
      GrewIsAttempt(events, events, [], TakeTurn(cmd, c).script);
      var letter := cmd[i];
      err, i', inTransaction', lastRead', lastNack' := 0, i + 1, inTransaction, lastRead, lastNack;
      if letter == 's' {
        var hex := ParseHex2(cmd, i');
        if hex.None? { err := ERR_PARSE; return; }
        addr, i' := hex.value.value, hex.value.next;
      } else if letter == 'n' || letter == 'r' {
        var hex := ParseHex2(cmd, i');
        if hex.None? { err := ERR_PARSE; return; }
        i' := hex.value.next;
        if addr < 0 || addr > 0x7F { err := ERR_BADADDR; return; }
        err, lastNack' := ReadTurn(c, inTransaction && lastRead, hex.value.value, letter == 'r', lastNack);
        inTransaction', lastRead' := letter == 'n', true;
      } else if letter == 'w' {
        if addr < 0 || addr > 0x7F { err := ERR_BADADDR; return; }
        err, i' := WriteTurn(c, inTransaction && !lastRead, cmd, i');
        inTransaction', lastRead' := true, false;
      } else if letter == 'p' {
        var mask := ParseHex2(cmd, i');
        if mask.None? { err := ERR_PARSE; return; }
        var value := ParseHex2(cmd, mask.value.next);
        if value.None? { err := ERR_PARSE; return; }
        i' := value.value.next;
        if responseLength == 0 { err := ERR_BADCMD; return; }
        var m := mask.value.value;
        if And(response[responseLength - 1], m) != And(value.value.value, m) {
          err := if lastNack then POLL_EARLY else POLL_AGAIN;
        }
      } else if letter == ';' {
        StopBus();
        GrewOne(begun, events[|begun|]);
        inTransaction' := false;
      } else if letter != ' ' && letter != ':' {
        err := ERR_BADCMD;
      }
    }

    /** run_command: whatever the slaves answer, the transcript obeys the bus rules and is exactly
        what the text asks for, or on an error the part of it up to the byte that failed; the
        response holds exactly the bytes read, at most ten. */
    method RunCommand(cmd: string) returns (err: nat)
      requires Valid() && Stored() && responseLength == 0
      modifies this, response
      ensures Valid() && Stored() && mark == old(mark)
      ensures var script := Script(cmd, Cursor(0, old(addr), false, false));
              if err == 0 then Grew(old(events), events, script) else Attempted(old(events), events, script)
    {
      hide FollowAll, Received, Grew, Attempted, TakeTurn, Script, OnScript;
      ghost var script := Script(cmd, Cursor(0, addr, false, false));
      var i := 0;
      var inTransaction, lastRead, lastNack := false, false, false;
      ScriptStarts(events, cmd, Cursor(0, addr, false, false));
      while i < |cmd| && cmd[i] != '\0'
        invariant 0 <= i <= |cmd| && Valid() && Stored() && mark == old(mark)
        invariant responseLength < RESPONSE_SIZE
        invariant inTransaction ==> FollowAll(events) == if lastRead then Reading else Writing
        invariant OnScript(old(events), events, script, cmd, Cursor(i, addr, inTransaction, lastRead))
        decreases |cmd| - i
      {
        ghost var c, now := Cursor(i, addr, inTransaction, lastRead), events;
        err, i, inTransaction, lastRead, lastNack := RunTurn(cmd, i, inTransaction, lastRead, lastNack);
        if err != 0 {
          ScriptFails(old(events), now, events, script, cmd, c);
          return;
        }
        ScriptGoesOn(old(events), now, events, script, cmd, c);
      }
      ScriptEnds(old(events), events, script, cmd, Cursor(i, addr, inTransaction, lastRead));
      return 0;
    }

    /** i2c_command: every command starts without an address, does what its text asks for, ends with
        a STOP that frees the bus if the slaves let go of it, and responds with the bytes that the
        slaves sent during it. */
    method Execute(cmd: string) returns (err: nat)
      requires Valid()
      modifies this, response
      ensures Valid() && old(events) <= events
      ensures response[..responseLength] == Received(events[|old(events)|..])
      ensures events != [] && events[|events| - 1].Stop?
      ensures events[|events| - 1].released ==> FollowAll(events).Idle? && !active
      ensures var script, ran := Script(cmd, Cursor(0, -1, false, false)), events[..|events| - 1];
              if err == 0 then Grew(old(events), ran, script) else Attempted(old(events), ran, script)
    {
      hide FollowAll, Script;
      addr, responseLength, mark := -1, 0, |events|;
      assert events[mark..] == [];
      err := RunCommand(cmd);
      ghost var ran := events;
      StopBus();
      assert events[..|events| - 1] == ran;
    }
  }
}
