/** To which slave the data of an I2C command text goes.  Setting an address does not end a
    transfer under way, so data of the same direction that follows still goes to the slave that the
    transfer was opened for. */
module I2cAddress {
  import opened Wrappers
  import opened Bytes
  import opened I2cMaster

  // ---- on the bus ---------------------------------------------------------------------------------

  /** The slave that a transcript last addressed: the byte right after the last START. */
  function Target(events: seq<Event>): Option<int> {
    var n := |events|;
    if n < 2 then None
    else if events[n - 1].Sent? && events[n - 2].Start? then Some(events[n - 1].b / 2)
    else Target(events[..n - 1])
  }

  ghost predicate IsData(events: seq<Event>) {
    forall k :: 0 <= k < |events| ==> events[k].Sent? || events[k].Got?
  }

  ghost predicate Settled(events: seq<Event>) { events != [] && !events[|events| - 1].Start? }

  /** Data does not change whom a transfer addresses. */
  lemma {:induction false} DataKeepsTarget(events: seq<Event>, data: seq<Event>)
    requires Settled(events) && IsData(data)
    ensures Settled(events + data) && Target(events + data) == Target(events)
    decreases |data|
  {
    if data == [] {
      assert events + data == events;
    } else {
      var front := data[..|data| - 1];
      DataKeepsTarget(events, front);
      assert (events + data)[..|events + data| - 1] == events + front;
    }
  }

  lemma StartSetsTarget(events: seq<Event>, b: Byte)
    ensures var after := events + [Start, Sent(b, true)];
            Settled(after) && Target(after) == Some(b / 2)
  {}

  // ---- in the text --------------------------------------------------------------------------------

  /** The letter at the cursor is carried out as a transfer in one direction. */
  predicate Transfers(cmd: string, c: Cursor, read: bool)
    requires c.i < |cmd|
  {
    && Addressed(c.addr)
    && if read then (cmd[c.i] == 'n' || cmd[c.i] == 'r') && ParseHex2(cmd, c.i + 1).Some? else cmd[c.i] == 'w'
  }

  function TransferData(cmd: string, c: Cursor, read: bool): seq<Event>
    requires c.i < |cmd| && Transfers(cmd, c, read)
  {
    if read then
      var count := ParseHex2(cmd, c.i + 1).value.value;
      Reads(count, cmd[c.i] == 'r', count)
    else Acknowledged(ParseData(cmd, c.i + 1).bytes)
  }

  predicate GoesOn(c: Cursor, read: bool) { c.inTransaction && c.lastRead == read }

  lemma TurnIsTransfer(cmd: string, c: Cursor, read: bool)
    requires c.i < |cmd| && Transfers(cmd, c, read)
    ensures TakeTurn(cmd, c).script == Opening(c, read) + TransferData(cmd, c, read)
    ensures IsData(TransferData(cmd, c, read))
  {
    hide ParseHex2, ParseData;
  }

  lemma OtherTurns(cmd: string, c: Cursor)
    requires c.i < |cmd| && !Transfers(cmd, c, true) && !Transfers(cmd, c, false)
    ensures var t := TakeTurn(cmd, c);
            t.next.Some? && t.next.value.inTransaction ==> t.script == [] && c.inTransaction
  {
    hide ParseHex2, ParseData;
  }

  /** All data that the letter sends or reads goes to the address last set. */
  ghost predicate Hits(before: seq<Event>, cmd: string, c: Cursor, read: bool)
    requires c.i < |cmd|
  {
    Transfers(cmd, c, read) && TransferData(cmd, c, read) != [] ==>
      Target(before + Opening(c, read)) == Some(c.addr)
  }

  /** All data of the text does. */
  ghost predicate AllHit(before: seq<Event>, cmd: string, c: Cursor)
    decreases |cmd| - c.i
  {
    AtEnd(cmd, c.i) ||
    (&& Hits(before, cmd, c, true) && Hits(before, cmd, c, false)
     && var t := TakeTurn(cmd, c);
        t.next.Some? ==> AllHit(before + t.script, cmd, t.next.value))
  }

  /** The letter moves data in a transfer that was opened for another address than the one set
      since. */
  predicate Misses(cmd: string, c: Cursor, open: int, read: bool)
    requires c.i < |cmd|
  {
    Transfers(cmd, c, read) && GoesOn(c, read) && TransferData(cmd, c, read) != [] && c.addr != open
  }

  /** The address for which the transfer is open after the letter. */
  function OpenAfter(cmd: string, c: Cursor, open: int): int
    requires c.i < |cmd|
  {
    if (Transfers(cmd, c, true) && !GoesOn(c, true)) || (Transfers(cmd, c, false) && !GoesOn(c, false))
    then c.addr else open
  }

  predicate SomeMisses(cmd: string, c: Cursor, open: int)
    decreases |cmd| - c.i
  {
    !AtEnd(cmd, c.i) &&
    (|| Misses(cmd, c, open, true) || Misses(cmd, c, open, false)
     || var t := TakeTurn(cmd, c);
        t.next.Some? && SomeMisses(cmd, t.next.value, OpenAfter(cmd, c, open)))
  }

  // ---- both agree ---------------------------------------------------------------------------------

  /** A transfer under way addresses `open`. */
  ghost predicate OpenFor(before: seq<Event>, c: Cursor, open: int) {
    c.inTransaction ==> Settled(before) && Target(before) == Some(open)
  }

  lemma HitsIff(before: seq<Event>, cmd: string, c: Cursor, open: int, read: bool)
    requires c.i < |cmd| && OpenFor(before, c, open)
    ensures Hits(before, cmd, c, read) <==> !Misses(cmd, c, open, read)
  {
    hide TransferData, Target;
    if Transfers(cmd, c, read) {
      if GoesOn(c, read) {
        assert before + Opening(c, read) == before;
      } else {
        StartSetsTarget(before, c.addr * 2 + (if read then 1 else 0));
      }
    }
  }

  lemma TransferStaysOpen(before: seq<Event>, cmd: string, c: Cursor, open: int, read: bool)
    requires c.i < |cmd| && Transfers(cmd, c, read) && OpenFor(before, c, open)
    ensures var after := before + TakeTurn(cmd, c).script;
            Settled(after) && Target(after) == Some(if GoesOn(c, read) then open else c.addr)
  {
    TurnIsTransfer(cmd, c, read);
    hide TakeTurn, TransferData, Target;
    var begun := before + Opening(c, read);
    if GoesOn(c, read) {
      assert begun == before;
    } else {
      StartSetsTarget(before, c.addr * 2 + (if read then 1 else 0));
    }
    DataKeepsTarget(begun, TransferData(cmd, c, read));
    assert before + TakeTurn(cmd, c).script == begun + TransferData(cmd, c, read);
  }

  lemma TurnKeepsOpenFor(before: seq<Event>, cmd: string, c: Cursor, open: int)
    requires c.i < |cmd| && OpenFor(before, c, open) && TakeTurn(cmd, c).next.Some?
    ensures var t := TakeTurn(cmd, c);
            OpenFor(before + t.script, t.next.value, OpenAfter(cmd, c, open))
  {
    hide Target, TakeTurn;
    if Transfers(cmd, c, true) {
      TransferStaysOpen(before, cmd, c, open, true);
    } else if Transfers(cmd, c, false) {
      TransferStaysOpen(before, cmd, c, open, false);
    } else {
      OtherTurns(cmd, c);
      assert before + [] == before;
    }
  }

  lemma {:induction false} AllHitIff(before: seq<Event>, cmd: string, c: Cursor, open: int)
    requires OpenFor(before, c, open)
    ensures AllHit(before, cmd, c) <==> !SomeMisses(cmd, c, open)
    decreases |cmd| - c.i
  {
    hide OpenFor, Hits, Misses, TakeTurn, OpenAfter;
    if !AtEnd(cmd, c.i) {
      HitsIff(before, cmd, c, open, true);
      HitsIff(before, cmd, c, open, false);
      var t := TakeTurn(cmd, c);
      if t.next.Some? {
        TurnKeepsOpenFor(before, cmd, c, open);
        AllHitIff(before + t.script, cmd, t.next.value, OpenAfter(cmd, c, open));
      }
    }
  }

  /** Every byte that a text moves goes to the slave it set last, if and only if no letter moves data
      in a transfer that was opened for another address than the one set since. */
  lemma DataGoesToAddressIff(cmd: string)
    ensures var c := Cursor(0, -1, false, false); AllHit([], cmd, c) <==> !SomeMisses(cmd, c, -1)
  {
    AllHitIff([], cmd, Cursor(0, -1, false, false), -1);
  }

  /** A text that sets no address after the first letter at `c` never misses. */
  lemma {:induction false} OneAddressNeverMisses(cmd: string, c: Cursor, open: int)
    requires forall k :: c.i <= k < |cmd| ==> cmd[k] != 's'
    requires c.inTransaction ==> c.addr == open
    ensures !SomeMisses(cmd, c, open)
    decreases |cmd| - c.i
  {
    if !AtEnd(cmd, c.i) {
      var t := TakeTurn(cmd, c);
      KeepsAddress(cmd, c);
      if t.next.Some? {
        hide TakeTurn;
        OneAddressNeverMisses(cmd, t.next.value, OpenAfter(cmd, c, open));
      }
    }
  }

  lemma KeepsAddress(cmd: string, c: Cursor)
    requires c.i < |cmd| && cmd[c.i] != 's'
    ensures var t := TakeTurn(cmd, c);
            t.next.Some? ==>
              && t.next.value.addr == c.addr
              && (t.next.value.inTransaction ==>
                    c.inTransaction || Transfers(cmd, c, true) || Transfers(cmd, c, false))
  {
    hide ParseHex2, ParseData;
  }

  lemma TwoDigits(s: string, i: nat)
    requires i + 2 <= |s| && HexDigit(s[i]).Some? && HexDigit(s[i + 1]).Some?
    ensures ParseHex2(s, i) == Some(Hex(HexDigit(s[i]).value * 16 + HexDigit(s[i + 1]).value, i + 2))
    ensures i + 2 == |s| || !IsHex(s[i + 2]) ==>
              ParseData(s, i) == Data([HexDigit(s[i]).value * 16 + HexDigit(s[i + 1]).value], i + 2, true)
  {
    assert SkipSeparators(s, i) == i && SkipSeparators(s, i + 1) == i + 1;
  }

  lemma ScriptStep(cmd: string, c: Cursor, script: seq<Event>, next: Cursor)
    requires !AtEnd(cmd, c.i) && TakeTurn(cmd, c) == Turn(script, Some(next))
    ensures Script(cmd, c) == script + Script(cmd, next)
  {}

  lemma MissStep(cmd: string, c: Cursor, open: int, next: Cursor)
    requires !AtEnd(cmd, c.i) && TakeTurn(cmd, c).next == Some(next)
    requires SomeMisses(cmd, next, OpenAfter(cmd, c, open))
    ensures SomeMisses(cmd, c, open)
  {}

  const EXAMPLE := "s10w01s20w02"
  const AT_S10 := Cursor(0, -1, false, false)
  const AT_W01 := Cursor(3, 0x10, false, false)
  const AT_S20 := Cursor(6, 0x10, true, false)
  const AT_W02 := Cursor(9, 0x20, true, false)
  const AT_END := Cursor(12, 0x20, true, false)

  lemma ExampleSets()
    ensures TakeTurn(EXAMPLE, AT_S10) == Turn([], Some(AT_W01))
  {
    TwoDigits(EXAMPLE, 1);
    hide ParseHex2, ParseData;
  }

  lemma ExampleSetsAgain()
    ensures TakeTurn(EXAMPLE, AT_S20) == Turn([], Some(AT_W02))
  {
    TwoDigits(EXAMPLE, 7);
    hide ParseHex2, ParseData;
  }

  lemma ExampleWrites()
    ensures TakeTurn(EXAMPLE, AT_W01) == Turn([Start, Sent(0x20, true), Sent(1, true)], Some(AT_S20))
    ensures TakeTurn(EXAMPLE, AT_W02) == Turn([Sent(2, true)], Some(AT_END))
    ensures Misses(EXAMPLE, AT_W02, 0x10, false) && OpenAfter(EXAMPLE, AT_W01, -1) == 0x10
    ensures OpenAfter(EXAMPLE, AT_S20, 0x10) == 0x10 && OpenAfter(EXAMPLE, AT_S10, -1) == -1
  {
    TwoDigits(EXAMPLE, 4);
    TwoDigits(EXAMPLE, 10);
    hide ParseHex2, ParseData;
    assert Acknowledged([1]) == [Sent(1, true)] && Acknowledged([2]) == [Sent(2, true)];
  }

  lemma ExampleScript()
    ensures Script(EXAMPLE, AT_S10) == [Start, Sent(0x20, true), Sent(1, true), Sent(2, true)]
  {
    ExampleSets();
    ExampleSetsAgain();
    ExampleWrites();
    assert Script(EXAMPLE, AT_END) == [];
    hide TakeTurn, Script, OpenAfter, Misses;
    ScriptStep(EXAMPLE, AT_W02, [Sent(2, true)], AT_END);
    ScriptStep(EXAMPLE, AT_S20, [], AT_W02);
    ScriptStep(EXAMPLE, AT_W01, [Start, Sent(0x20, true), Sent(1, true)], AT_S20);
    ScriptStep(EXAMPLE, AT_S10, [], AT_W01);
  }

  lemma ExampleMisses()
    ensures SomeMisses(EXAMPLE, AT_S10, -1)
  {
    ExampleSets();
    ExampleSetsAgain();
    ExampleWrites();
    hide TakeTurn, OpenAfter, Misses;
    assert SomeMisses(EXAMPLE, AT_W02, 0x10);
    hide SomeMisses;
    MissStep(EXAMPLE, AT_S20, 0x10, AT_W02);
    MissStep(EXAMPLE, AT_W01, -1, AT_S20);
    MissStep(EXAMPLE, AT_S10, -1, AT_W01);
  }

  /** "s10w01s20w02" sends both bytes to the slave 0x10. */
  lemma SecondAddressIsIgnored()
    ensures Script(EXAMPLE, AT_S10) == [Start, Sent(0x20, true), Sent(1, true), Sent(2, true)]
    ensures SomeMisses(EXAMPLE, AT_S10, -1)
  {
    ExampleScript();
    ExampleMisses();
  }

  // ---- how a read ends ----------------------------------------------------------------------------

  /** An `r` refuses the last byte it reads and ends the transfer; an `n` acknowledges every byte and
      leaves the transfer open. */
  lemma ReadsEnd(cmd: string, c: Cursor)
    requires c.i < |cmd| && Transfers(cmd, c, true) && TransferData(cmd, c, true) != []
    ensures
      var t := TakeTurn(cmd, c);
      && t.next.Some? && t.script != []
      && (cmd[c.i] == 'r' ==> t.script[|t.script| - 1] == Got(0, true) && !t.next.value.inTransaction)
      && (cmd[c.i] == 'n' ==> t.script[|t.script| - 1] == Got(0, false) && t.next.value.inTransaction)
      && forall k :: 0 <= k < |t.script| - 1 && t.script[k].Got? ==> t.script[k] == Got(0, false)
  {
    hide ParseHex2, ParseData;
  }
}
