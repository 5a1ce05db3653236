/** The interrupt-driven packet receiver of the servo emulation (avr_odroid.c), its checksums, and
    the packets it sends back. */
module PacketReceiver {
  import opened Bytes
  import opened Wrappers

  const SYNC: Byte := 0xFF
  const SERVO_ADDR: Byte := 99
  const BROADCAST: Byte := 0xFE
  const BUFFER_SIZE := 16

  datatype Status = Ready | Receiving | Bad

  datatype Rx = Rx(raw: seq<Byte>, len: nat, ffCount: Byte, status: Status)

  const EMPTY_BUFFER: seq<Byte> := [0, 0, 0, 0, 0, 0, 0, 0, 0, 0, 0, 0, 0, 0, 0, 0]
  const INITIAL := Rx(EMPTY_BUFFER, 7, 0, Bad)

  /** The receive interrupt. */
  function Receive(r: Rx, c: Byte): Rx
    requires |r.raw| == BUFFER_SIZE
  {
    if r.status.Ready? then r
    else
      var ff: Byte := if c == SYNC then (r.ffCount + 1) % 256 else 0;
      if c == SYNC && ff >= 2 then r.(ffCount := ff, len := 0, status := Receiving)
      else if !r.status.Receiving? then r.(ffCount := ff)
      else if r.len >= BUFFER_SIZE then r.(ffCount := ff, status := Bad)
      else Store(r.(ffCount := ff), c)
  }

  function Store(r: Rx, c: Byte): Rx
    requires |r.raw| == BUFFER_SIZE && r.len < BUFFER_SIZE
  {
    var s := r.(raw := r.raw[r.len := c], len := r.len + 1);
    if s.len == 2 && c != SERVO_ADDR && c != BROADCAST then s.(status := Bad)
    else if s.len >= 5 && s.len + 2 == s.raw[0] then s.(status := Ready)
    else s
  }

  /** Outside of reception the handler remembers at most one sync byte, so its 8-bit count can
      only wrap while receiving. */
  ghost predicate Valid(r: Rx) {
    && |r.raw| == BUFFER_SIZE
    && r.len <= BUFFER_SIZE
    && (!r.status.Receiving? ==> r.ffCount <= 1)
  }

  lemma ReceiveKeepsValid(r: Rx, c: Byte)
    requires Valid(r)
    ensures Valid(Receive(r, c))
    ensures Receive(r, c).len <= r.len + 1
  {}

  function ReceiveAll(r: Rx, bytes: seq<Byte>): (r': Rx)
    requires |r.raw| == BUFFER_SIZE
    ensures |r'.raw| == BUFFER_SIZE
  {
    if bytes == [] then r else Receive(ReceiveAll(r, bytes[..|bytes| - 1]), bytes[|bytes| - 1])
  }

  lemma {:induction false} ReceiveAllSplit(r: Rx, a: seq<Byte>, b: seq<Byte>)
    requires |r.raw| == BUFFER_SIZE
    ensures ReceiveAll(r, a + b) == ReceiveAll(ReceiveAll(r, a), b)
  {
    hide Receive;
    if b == [] {
      assert a + b == a;
    } else {
      ReceiveAllSplit(r, a, b[..|b| - 1]);
      assert (a + b)[..|a + b| - 1] == a + b[..|b| - 1];
    }
  }

  // ---- what arrives ---------------------------------------------------------------------------

  /** A packet body addressed to this servo whose size byte counts the two sync bytes as well. */
  ghost predicate WellFormed(body: seq<Byte>) {
    && 5 <= |body| <= BUFFER_SIZE
    && body[0] == |body| + 2
    && (body[1] == SERVO_ADDR || body[1] == BROADCAST)
  }

  ghost predicate SyncPairAt(body: seq<Byte>, j: nat) {
    j + 1 < |body| && body[j] == SYNC && body[j + 1] == SYNC
  }

  ghost predicate NoSyncPair(body: seq<Byte>) {
    forall j :: 0 <= j < |body| - 1 ==> !SyncPairAt(body, j)
  }

  /** The receiver in the middle of a packet. */
  ghost predicate Holding(r: Rx, part: seq<Byte>) {
    && |r.raw| == BUFFER_SIZE
    && r.len == |part| <= BUFFER_SIZE
    && r.raw[..r.len] == part
  }

  lemma SyncStartsPacket(r: Rx)
    requires Valid(r) && r.status.Bad?
    ensures var s := ReceiveAll(r, [SYNC, SYNC]);
            s.status.Receiving? && Holding(s, [])
  {
    assert [SYNC, SYNC][..1] == [SYNC] && [SYNC][..0] == [];
    assert ReceiveAll(r, [SYNC]) == Receive(r, SYNC);
  }

  /** One more byte of a body, unless it completes a sync pair. */
  lemma ByteIsStored(s: Rx, body: seq<Byte>, k: nat)
    requires WellFormed(body) && k < |body|
    requires s.status.Receiving? && Holding(s, body[..k])
    requires k > 0 ==> s.ffCount == (if body[k - 1] == SYNC then 1 else 0) && !SyncPairAt(body, k - 1)
    ensures var s' := Receive(s, body[k]);
            && Holding(s', body[..k + 1])
            && (if k + 1 < |body| then s'.status.Receiving? else s'.status.Ready?)
            && s'.ffCount == if body[k] == SYNC then 1 else 0
  {
    var raw := s.raw[k := body[k]];
    assert raw[..k + 1] == body[..k + 1];
    assert raw[0] == body[..k + 1][0];
  }

  lemma {:induction false} BodyIsStored(r: Rx, body: seq<Byte>, k: nat)
    requires r.status.Receiving? && Holding(r, [])
    requires WellFormed(body) && k <= |body|
    requires forall j :: 0 <= j < k - 1 ==> !SyncPairAt(body, j)
    ensures var s := ReceiveAll(r, body[..k]);
            && Holding(s, body[..k])
            && (if k < |body| then s.status.Receiving? else s.status.Ready?)
            && (k > 0 ==> s.ffCount == if body[k - 1] == SYNC then 1 else 0)
  {
    if k == 0 {
      assert body[..0] == [];
    } else {
      BodyIsStored(r, body, k - 1);
      assert body[..k][..k - 1] == body[..k - 1];
      ByteIsStored(ReceiveAll(r, body[..k - 1]), body, k - 1);
    }
  }

  lemma {:induction false} LengthGrowsSlowly(r: Rx, bytes: seq<Byte>)
    requires Valid(r)
    ensures Valid(ReceiveAll(r, bytes)) && ReceiveAll(r, bytes).len <= r.len + |bytes|
  {
    if bytes != [] {
      LengthGrowsSlowly(r, bytes[..|bytes| - 1]);
      ReceiveKeepsValid(ReceiveAll(r, bytes[..|bytes| - 1]), bytes[|bytes| - 1]);
    }
  }

  /** A waiting receiver delivers an addressed packet with its body intact, exactly at its last
      byte. */
  lemma PacketIsDelivered(r: Rx, body: seq<Byte>, k: nat)
    requires Valid(r) && r.status.Bad?
    requires WellFormed(body) && NoSyncPair(body) && k <= |body|
    ensures var s := ReceiveAll(r, [SYNC, SYNC] + body[..k]);
            (s.status.Ready? <==> k == |body|) && Holding(s, body[..k])
  {
    SyncStartsPacket(r);
    ReceiveAllSplit(r, [SYNC, SYNC], body[..k]);
    BodyIsStored(ReceiveAll(r, [SYNC, SYNC]), body, k);
  }

  /** Two adjacent sync bytes inside a body restart the reception, so such a packet is lost. */
  lemma SyncPairBreaksPacket(r: Rx, body: seq<Byte>)
    requires Valid(r) && r.status.Bad?
    requires WellFormed(body) && !NoSyncPair(body)
    ensures ReceiveAll(r, [SYNC, SYNC] + body).len + 1 < |body|
  {
    var j := FirstPair(body, 0);
    SyncStartsPacket(r);
    LengthGrowsSlowly(r, [SYNC, SYNC]);
    PairRestarts(ReceiveAll(r, [SYNC, SYNC]), body, j);
    ReceiveAllSplit(r, [SYNC, SYNC], body);
  }

  lemma PairRestarts(m: Rx, body: seq<Byte>, j: nat)
    requires Valid(m) && m.status.Receiving? && Holding(m, [])
    requires WellFormed(body) && SyncPairAt(body, j)
    requires forall i :: 0 <= i < j ==> !SyncPairAt(body, i)
    ensures ReceiveAll(m, body).len <= |body| - j - 2
  {
    hide ReceiveAll;
    PairEmptiesBuffer(m, body, j);
    LengthGrowsSlowly(ReceiveAll(m, body[..j + 2]), body[j + 2..]);
    ReceiveAllSplit(m, body[..j + 2], body[j + 2..]);
    assert body[..j + 2] + body[j + 2..] == body;
  }

  lemma PairEmptiesBuffer(m: Rx, body: seq<Byte>, j: nat)
    requires Valid(m) && m.status.Receiving? && Holding(m, [])
    requires WellFormed(body) && SyncPairAt(body, j)
    requires forall i :: 0 <= i < j ==> !SyncPairAt(body, i)
    ensures Valid(ReceiveAll(m, body[..j + 2])) && ReceiveAll(m, body[..j + 2]).len == 0
  {
    hide Receive;
    BodyIsStored(m, body, j + 1);
    LengthGrowsSlowly(m, body[..j + 1]);
    SecondSync(ReceiveAll(m, body[..j + 1]));
    assert body[..j + 2][..j + 1] == body[..j + 1];
  }

  lemma SecondSync(p: Rx)
    requires Valid(p) && !p.status.Ready? && p.ffCount == 1
    ensures Valid(Receive(p, SYNC)) && Receive(p, SYNC).len == 0 && Receive(p, SYNC).status.Receiving?
  {}

  lemma {:induction false} FirstPair(body: seq<Byte>, i: nat) returns (j: nat)
    requires exists k :: i <= k < |body| - 1 && SyncPairAt(body, k)
    ensures i <= j && SyncPairAt(body, j)
    ensures forall k :: i <= k < j ==> !SyncPairAt(body, k)
    decreases |body| - i
  {
    if SyncPairAt(body, i) {
      j := i;
    } else {
      j := FirstPair(body, i + 1);
    }
  }

  /** Delivery is exact: an addressed packet arrives intact if and only if its body has no
      adjacent pair of sync bytes. */
  lemma DeliveredIffNoSyncPair(r: Rx, body: seq<Byte>)
    requires Valid(r) && r.status.Bad? && WellFormed(body)
    ensures var s := ReceiveAll(r, [SYNC, SYNC] + body);
            s.status.Ready? && Holding(s, body) <==> NoSyncPair(body)
  {
    if NoSyncPair(body) {
      PacketIsDelivered(r, body, |body|);
      assert body[..|body|] == body;
    } else {
      SyncPairBreaksPacket(r, body);
    }
  }

  // ---- nothing else arrives ---------------------------------------------------------------------

  /** The buffer holds what the handler last took from the wire, right after two sync bytes. */
  ghost predicate Tracks(r: Rx, wire: seq<Byte>) {
    && Valid(r)
    && (r.ffCount >= 1 ==> wire != [] && wire[|wire| - 1] == SYNC)
    && (r.status.Receiving? || r.status.Ready? ==>
          && r.len + 2 <= |wire|
          && wire[|wire| - r.len - 2] == SYNC && wire[|wire| - r.len - 1] == SYNC
          && r.raw[..r.len] == wire[|wire| - r.len..])
    && (r.status.Receiving? && r.len >= 2 ==> r.raw[1] == SERVO_ADDR || r.raw[1] == BROADCAST)
    && (r.status.Ready? ==> WellFormed(r.raw[..r.len]))
  }

  lemma ReceiveTracks(r: Rx, wire: seq<Byte>, c: Byte)
    requires Tracks(r, wire) && !r.status.Ready?
    ensures Tracks(Receive(r, c), wire + [c])
  {
    ReceiveKeepsValid(r, c);
    var s, w := Receive(r, c), wire + [c];
    assert w[|w| - 1] == c;
    if r.status.Receiving? && s.len == r.len + 1 {
      StoreTracks(r, wire, c, s.ffCount);
    }
  }

  lemma StoreTracks(r: Rx, wire: seq<Byte>, c: Byte, ff: Byte)
    requires Tracks(r, wire) && r.status.Receiving? && r.len < BUFFER_SIZE
    requires ff <= 1 && (ff == 1 ==> c == SYNC)
    ensures Tracks(Store(r.(ffCount := ff), c), wire + [c])
  {
    var s, w := Store(r.(ffCount := ff), c), wire + [c];
    assert s.raw[..s.len] == r.raw[..r.len] + [c];
    assert w[|w| - s.len..] == wire[|wire| - r.len..] + [c];
    assert r.len >= 1 ==> s.raw[0] == r.raw[0];
    assert r.len >= 2 ==> s.raw[1] == r.raw[1];
  }

  /** No packet is complete before the last of these bytes. */
  ghost predicate Listening(r: Rx, wire: seq<Byte>)
    requires |r.raw| == BUFFER_SIZE
  {
    forall k :: 0 <= k < |wire| ==> !ReceiveAll(r, wire[..k]).status.Ready?
  }

  /** The sync byte that a waiting handler still counts. */
  function Remembered(r: Rx): seq<Byte> { if r.ffCount == 0 then [] else [SYNC] }

  /** From any waiting receiver up to the next packet: the buffer tracks the wire, after the sync
      byte that is remembered from before. */
  lemma {:induction false} ReceiveAllTracks(r: Rx, wire: seq<Byte>)
    requires Valid(r) && r.status.Bad? && Listening(r, wire)
    ensures Tracks(ReceiveAll(r, wire), Remembered(r) + wire)
  {
    if wire == [] {
      assert Remembered(r) + wire == Remembered(r);
    } else {
      var front := wire[..|wire| - 1];
      forall k | 0 <= k < |front| ensures !ReceiveAll(r, front[..k]).status.Ready? {
        assert front[..k] == wire[..k];
      }
      ReceiveAllTracks(r, front);
      ReceiveTracks(ReceiveAll(r, front), Remembered(r) + front, wire[|wire| - 1]);
      assert Remembered(r) + wire == (Remembered(r) + front) + [wire[|wire| - 1]];
    }
  }

  /** The packet in the buffer was sent: sync, sync, and then exactly its well-formed bytes. */
  ghost predicate Announced(s: Rx, wire: seq<Byte>) {
    && |s.raw| == BUFFER_SIZE && s.len <= BUFFER_SIZE && s.len + 2 <= |wire|
    && wire[|wire| - s.len - 2] == SYNC && wire[|wire| - s.len - 1] == SYNC
    && s.raw[..s.len] == wire[|wire| - s.len..]
    && WellFormed(s.raw[..s.len])
  }

  lemma ShiftedTail(wire: seq<Byte>, len: nat)
    requires len + 1 < |wire|
    ensures var heard := [SYNC] + wire;
            && heard[|heard| - len..] == wire[|wire| - len..]
            && heard[|heard| - len - 1] == wire[|wire| - len - 1]
            && heard[|heard| - len - 2] == wire[|wire| - len - 2]
  {}

  /** With the first sync byte remembered from before, the rest of the wire announces the packet
      only if it holds two of its own. */
  lemma AnnouncedSince(s: Rx, remembered: bool, wire: seq<Byte>)
    requires s.status.Ready? && Tracks(s, (if remembered then [SYNC] else []) + wire)
    ensures Announced(s, (if remembered then [SYNC] else []) + wire)
    ensures Announced(s, wire) <==> !remembered || |wire| > s.len + 1
  {
    hide WellFormed;
    if !remembered {
      assert [] + wire == wire;
    } else if |wire| > s.len + 1 {
      ShiftedTail(wire, s.len);
    }
  }

  /** A waiting receiver that counts a sync byte takes a packet after a single one. */
  lemma OneSyncDelivers(r: Rx, body: seq<Byte>, k: nat)
    requires Valid(r) && r.status.Bad? && r.ffCount == 1
    requires WellFormed(body) && NoSyncPair(body) && k <= |body|
    ensures var s := ReceiveAll(r, [SYNC] + body[..k]);
            (s.status.Ready? <==> k == |body|) && Holding(s, body[..k])
            && (k > 0 ==> s.ffCount == if body[k - 1] == SYNC then 1 else 0)
  {
    assert [SYNC][..0] == [];
    assert ReceiveAll(r, [SYNC]) == Receive(r, SYNC);
    ReceiveAllSplit(r, [SYNC], body[..k]);
    BodyIsStored(ReceiveAll(r, [SYNC]), body, k);
  }

  /** Every packet delivered next was announced by two sync bytes, if and only if the receiver
      starts without a counted one. */
  lemma AnnouncedIffCountClear(r: Rx)
    requires Valid(r) && r.status.Bad?
    ensures (forall wire :: Listening(r, wire) && ReceiveAll(r, wire).status.Ready?
               ==> Announced(ReceiveAll(r, wire), wire))
            <==> r.ffCount == 0
  {
    if r.ffCount == 0 {
      forall wire | Listening(r, wire) && ReceiveAll(r, wire).status.Ready?
        ensures Announced(ReceiveAll(r, wire), wire)
      {
        ReceiveAllTracks(r, wire);
        assert Remembered(r) + wire == wire;
      }
    } else {
      SingleSyncPacket(r);
    }
  }

  lemma ReceiveNothing(r: Rx)
    requires |r.raw| == BUFFER_SIZE
    ensures ReceiveAll(r, []) == r
  {}

  lemma SingleSyncPacket(r: Rx)
    requires Valid(r) && r.status.Bad? && r.ffCount == 1
    ensures exists wire ::
              Listening(r, wire) && ReceiveAll(r, wire).status.Ready? && !Announced(ReceiveAll(r, wire), wire)
  {
    hide ReceiveAll;
    var body: seq<Byte> := [7, SERVO_ADDR, 1, 2, 3];
    var wire := [SYNC] + body;
    forall k | 0 <= k < |wire| ensures !ReceiveAll(r, wire[..k]).status.Ready? {
      if k == 0 {
        assert wire[..0] == [];
        ReceiveNothing(r);
      } else {
        assert wire[..k] == [SYNC] + body[..k - 1];
        OneSyncDelivers(r, body, k - 1);
      }
    }
    OneSyncDelivers(r, body, |body|);
    assert body[..|body|] == body;
  }

  // ---- checksums --------------------------------------------------------------------------------

  /** `x & 0xFE` and `x ^ 0xFF`. */
  function Even(x: Byte): Byte { x - x % 2 }
  function Complement(x: Byte): Byte { 0xFF - x }

  /** The bytes under the checksum in order: size, id and command, then the data. */
  function SummedIndex(i: nat): nat { if i < 3 then i else i + 2 }

  function XorUpTo(raw: seq<Byte>, n: nat): Byte
    requires n > 0 ==> SummedIndex(n - 1) < |raw|
  {
    if n == 0 then 0 else Xor(XorUpTo(raw, n - 1), raw[SummedIndex(n - 1)])
  }

  predicate Sized(raw: seq<Byte>) { |raw| == BUFFER_SIZE && 7 <= raw[0] <= BUFFER_SIZE + 2 }

  /** `size - 7` in eight bits. */
  function DataLength(raw: seq<Byte>): nat
    requires |raw| == BUFFER_SIZE
  {
    var size: int := raw[0];
    (size + 249) % 256
  }

  lemma XorHead(raw: seq<Byte>)
    requires |raw| == BUFFER_SIZE
    ensures XorUpTo(raw, 3) == Xor(Xor(Xor(0, raw[0]), raw[1]), raw[2])
  {
    hide Xor;
    assert XorUpTo(raw, 2) == Xor(XorUpTo(raw, 1), raw[1]);
    assert XorUpTo(raw, 1) == Xor(XorUpTo(raw, 0), raw[0]);
  }

  /** calculate_cs1 */
  function Checksum(raw: seq<Byte>): Byte
    requires Sized(raw)
  {
    XorUpTo(raw, raw[0] - 4)
  }

  /** verify_rx_checksum */
  predicate Genuine(raw: seq<Byte>)
    requires Sized(raw)
  {
    raw[3] == Even(Checksum(raw)) && raw[4] == Even(Complement(Checksum(raw)))
  }

  lemma {:induction false} XorDependsOnPrefix(a: seq<Byte>, b: seq<Byte>, n: nat, len: nat)
    requires len <= |a| && len <= |b| && a[..len] == b[..len]
    requires n > 0 ==> SummedIndex(n - 1) < len
    ensures XorUpTo(a, n) == XorUpTo(b, n)
  {
    if n > 0 {
      XorDependsOnPrefix(a, b, n - 1, len);
      var k := SummedIndex(n - 1);
      assert a[..len][k] == b[..len][k];
    }
  }

  lemma {:induction false} XorIgnores(raw: seq<Byte>, k: nat, c: Byte, n: nat)
    requires k < |raw| && (k == 3 || k == 4)
    requires n > 0 ==> SummedIndex(n - 1) < |raw|
    ensures XorUpTo(raw[k := c], n) == XorUpTo(raw, n)
  {
    if n > 0 {
      XorIgnores(raw, k, c, n - 1);
    }
  }

  lemma {:induction false} XorChanges(raw: seq<Byte>, p: nat, c: Byte, n: nat)
    requires n > 0 ==> SummedIndex(n - 1) < |raw|
    requires SummedIndex(p) < |raw|
    ensures XorUpTo(raw[SummedIndex(p) := c], n)
            == if p < n then Xor(XorUpTo(raw, n), Xor(raw[SummedIndex(p)], c)) else XorUpTo(raw, n)
  {
    if n > 0 {
      XorChanges(raw, p, c, n - 1);
      hide Xor, XorBits;
      var x, d := XorUpTo(raw, n - 1), raw[SummedIndex(p)];
      assert Xor(x, c) == Xor(Xor(x, d), Xor(d, c)) by {
        XorIsBits(x, c);
        XorIsBits(x, d);
        XorIsBits(d, c);
        XorIsBits(Xor(x, d), Xor(d, c));
        XorExchange(x, d, c);
      }
      if p < n - 1 {
        var b, e := raw[SummedIndex(n - 1)], Xor(d, c);
        assert Xor(Xor(x, e), b) == Xor(Xor(x, b), e) by {
          XorIsBits(x, e);
          XorIsBits(x, b);
          XorIsBits(Xor(x, e), b);
          XorIsBits(Xor(x, b), e);
          XorSwap(x, e, b);
        }
      }
    }
  }

  lemma XorIsBits(a: Byte, b: Byte)
    ensures Xor(a, b) == XorBits(a, b)
  {}

  /** Any change of either check byte is detected. */
  lemma CheckByteErrorDetected(raw: seq<Byte>, k: nat, c: Byte)
    requires Sized(raw) && Genuine(raw) && (k == 3 || k == 4)
    ensures Genuine(raw[k := c]) <==> c == raw[k]
  {
    XorIgnores(raw, k, c, raw[0] - 4);
  }

  /** The checksum detects a change to the id, the command or a data byte exactly when it goes beyond
      the lowest bit, which both transmitted checksum bytes leave out. */
  lemma ByteErrorDetected(raw: seq<Byte>, p: nat, c: Byte)
    requires Sized(raw) && Genuine(raw) && 1 <= p < raw[0] - 4
    ensures Genuine(raw[SummedIndex(p) := c]) <==> raw[SummedIndex(p)] / 2 == c / 2
  {
    var d := raw[SummedIndex(p)];
    var changed := raw[SummedIndex(p) := c];
    XorChanges(raw, p, c, raw[0] - 4);
    assert changed[0] == raw[0] && changed[3] == raw[3] && changed[4] == raw[4];
    assert Checksum(changed) == Xor(Checksum(raw), Xor(d, c));
    hide Checksum, Xor, XorUpTo;
    CheckBytesDiffer(Checksum(raw), d, c);
  }

  lemma CheckBytesDiffer(cs: Byte, d: Byte, c: Byte)
    ensures var cs' := Xor(cs, Xor(d, c));
            && (Even(cs') == Even(cs) <==> d / 2 == c / 2)
            && (Even(Complement(cs')) == Even(Complement(cs)) <==> d / 2 == c / 2)
  {
    XorIsBits(d, c);
    XorIsBits(cs, Xor(d, c));
    XorHalf(cs, Xor(d, c));
    XorHalf(d, c);
    XorZero(d / 2, c / 2);
    XorDiffers(cs / 2, Xor(d, c) / 2);
    HalvesOfCheckBytes(cs, Xor(cs, Xor(d, c)));
  }

  lemma HalvesOfCheckBytes(a: Byte, b: Byte)
    ensures Even(a) == Even(b) <==> a / 2 == b / 2
    ensures Even(Complement(a)) == Even(Complement(b)) <==> a / 2 == b / 2
  {}

  /** send_rx_buffer: the buffer completed with address and checksums. */
  function Stamp(raw: seq<Byte>): seq<Byte>
    requires Sized(raw)
  {
    var r := raw[1 := SERVO_ADDR];
    r[3 := Even(Checksum(r))][4 := Even(Complement(Checksum(r)))]
  }

  function Body(raw: seq<Byte>): seq<Byte>
    requires Sized(raw)
  {
    raw[..raw[0] - 2]
  }

  function Transmit(raw: seq<Byte>): seq<Byte>
    requires Sized(raw)
  {
    [SYNC, SYNC] + Body(Stamp(raw)) + [0]
  }

  lemma StampIsGenuine(raw: seq<Byte>)
    requires Sized(raw)
    ensures Sized(Stamp(raw)) && Genuine(Stamp(raw)) && WellFormed(Body(Stamp(raw)))
  {
    var r := raw[1 := SERVO_ADDR];
    var q := r[3 := Even(Checksum(r))];
    XorIgnores(r, 3, Even(Checksum(r)), r[0] - 4);
    XorIgnores(q, 4, Even(Complement(Checksum(r))), r[0] - 4);
  }

  /** What is sent is understood: a waiting receiver takes a transmitted packet as genuine, with
      its body intact, if and only if the body contains no sync pair. */
  lemma TransmitIsReceivedIff(raw: seq<Byte>, r: Rx)
    requires Sized(raw) && Valid(r) && r.status.Bad?
    ensures var s := ReceiveAll(r, Transmit(raw));
            s.status.Ready? && Holding(s, Body(Stamp(raw))) && Sized(s.raw) && Genuine(s.raw)
            <==> NoSyncPair(Body(Stamp(raw)))
  {
    var body := Body(Stamp(raw));
    StampIsGenuine(raw);
    assert Transmit(raw)[..|Transmit(raw)| - 1] == [SYNC, SYNC] + body;
    var s := ReceiveAll(r, [SYNC, SYNC] + body);
    assert ReceiveAll(r, Transmit(raw)) == Receive(s, 0);
    if NoSyncPair(body) {
      PacketIsDelivered(r, body, |body|);
      assert body[..|body|] == body;
      SameBodySameChecksum(s.raw, Stamp(raw), |body|);
    } else {
      LengthGrowsSlowly(r, [SYNC, SYNC] + body);
      SyncPairBreaksPacket(r, body);
      ReceiveKeepsValid(s, 0);
    }
  }

  lemma SameBodySameChecksum(a: seq<Byte>, b: seq<Byte>, len: nat)
    requires Sized(b) && |a| == BUFFER_SIZE && len == b[0] - 2 && a[..len] == b[..len]
    ensures Sized(a) && (Genuine(a) <==> Genuine(b))
  {
    assert a[0] == a[..len][0] == b[0] && a[3] == a[..len][3] == b[3] && a[4] == a[..len][4] == b[4];
    XorDependsOnPrefix(a, b, a[0] - 4, len);
  }

  // ---- the firmware's own form --------------------------------------------------------------------

  class Firmware {
    const raw: array<Byte>
    var len: nat
    var ffCount: Byte
    var status: Status

    ghost function View(): Rx
      reads this, raw
    {
      Rx(raw[..], len, ffCount, status)
    }

    constructor ()
      ensures fresh(raw) && raw.Length == BUFFER_SIZE && View() == INITIAL
    {
      raw := new Byte[BUFFER_SIZE](_ => 0);
      len, ffCount, status := 7, 0, Bad;
    }

    method HandleByte(c: Byte)
      requires raw.Length == BUFFER_SIZE
      modifies this, raw
      ensures View() == Receive(old(View()), c)
    {
      if status.Ready? {
        return;
      }
      if c != SYNC {
        ffCount := 0;
      } else {
        ffCount := (ffCount + 1) % 256;
        if ffCount >= 2 {
          len := 0;
          status := Receiving;
          return;
        }
      }
      if !status.Receiving? {
        return;
      }
      if len >= raw.Length {
        status := Bad;
        return;
      }
      raw[len] := c;
      len := len + 1;
      if len == 2 && c != SERVO_ADDR && c != BROADCAST {
        status := Bad;
        return;
      }
      if len >= 5 && len + 2 == raw[0] {
        status := Ready;
      }
    }

    /** calculate_cs1: the loop stays inside the buffer exactly for the sizes 7 to 18. */
    method CalculateCs1() returns (cs1: Option<Byte>)
      requires raw.Length == BUFFER_SIZE
      ensures cs1 == if Sized(raw[..]) then Some(Checksum(raw[..])) else None
    {
      hide Xor;
      var sum := Xor(Xor(Xor(0, raw[0]), raw[1]), raw[2]);
      var dataLen := DataLength(raw[..]);
      XorHead(raw[..]);
      for i := 0 to dataLen
        invariant i <= BUFFER_SIZE - 5 && sum == XorUpTo(raw[..], i + 3)
      {
        if i + 5 >= BUFFER_SIZE {
          return None;
        }
        sum := Xor(sum, raw[i + 5]);
      }
      return Some(sum);
    }

    /** send_rx_buffer: None when it leaves the buffer, which its checksum then does first. */
    method SendBuffer() returns (sent: Option<seq<Byte>>)
      requires raw.Length == BUFFER_SIZE
      modifies raw
      ensures sent.Some? <==> Sized(old(raw[..]))
      ensures sent.Some? ==> raw[..] == Stamp(old(raw[..])) && sent.value == Transmit(old(raw[..]))
    {
      raw[1] := SERVO_ADDR;
      var cs1 := CalculateCs1();
      if cs1.None? {
        return None;
      }
      raw[3] := Even(cs1.value);
      raw[4] := Even(Complement(cs1.value));
      assert raw[..] == Stamp(old(raw[..]));
      var bytes := [SYNC, SYNC];
      for i := 0 to raw[0] - 2
        invariant raw[..] == Stamp(old(raw[..]))
        invariant bytes == [SYNC, SYNC] + raw[..i]
      {
        bytes := bytes + [raw[i]];
      }
      return Some(bytes + [0]);
    }
  }
}
