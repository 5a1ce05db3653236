/** The scheduler as the firmware runs it: two global arrays changed in place.  Every method does
    what its function in StreamTable says, so the history and backlog results apply to it. */
module StreamScheduler {
  import opened Wrappers
  import opened StreamTable

  class Scheduler {
    const streams: array<Stream>
    const pool: array<char>

    ghost predicate Separate() { streams as object != pool as object }

    ghost function View(): Table
      reads streams, pool
    {
      Table(streams[..], pool[..])
    }

    constructor (entries: nat, slotCount: nat)
      ensures Separate() && fresh(streams) && fresh(pool)
      ensures View() == Empty(entries, slotCount)
    {
      streams := new Stream[entries](_ => FREE);
      pool := new char[SLOT_SIZE * slotCount](_ => '\0');
    }

    /** cmd_stb; None stands for a text that leaves the pool. */
    method Begin(b: StreamTable.Begin) returns (reply: Option<Reply>)
      requires Separate()
      modifies streams, pool
      ensures reply.None? <==> Escapes(old(View()), b)
      ensures reply.Some? ==> reply.value == Check(old(View()), b) && View() == DoBegin(old(View()), b)
    {
      if !b.parsed { return Some(NoParse); }
      if b.cmd.None? { return Some(UnknownCommand); }
      if !b.streamable { return Some(NotStreamable); }
      if b.id == 0 { return Some(IdZero); }
      if b.id > MAX_ID { return Some(IdInvalid); }
      var rate := if b.rate == 0 then 1 else b.rate;
      InUseIsSome(streams[..], b.id, streams.Length);
      var remaining := rate;
      for i := 0 to streams.Length
        invariant remaining == InStep(streams[..], rate, i)
        invariant forall j :: 0 <= j < i ==> streams[j].id != b.id
        invariant View() == old(View())
      {
        if streams[i].id == b.id {
          return Some(IdInUse);
        }
        if streams[i].Live() && streams[i].rate == rate {
          remaining := streams[i].remaining;
        }
      }
      var index := 0;
      while index < streams.Length && streams[index].Live()
        invariant 0 <= index <= streams.Length
        invariant FirstFree(streams[..], 0) == FirstFree(streams[..], index)
        invariant View() == old(View())
      {
        index := index + 1;
      }
      if index == streams.Length { return Some(TableFull); }
      var args: Option<nat> := None;
      if |b.tail| > 1 {
        var k := 0;
        while k < pool.Length / SLOT_SIZE && pool[SLOT_SIZE * k] != '\0'
          invariant 0 <= k <= Slots(pool[..])
          invariant FirstSlot(pool[..], 0) == FirstSlot(pool[..], k)
          invariant View() == old(View())
        {
          k := k + 1;
        }
        if k == pool.Length / SLOT_SIZE { return Some(NoArgSlots); }
        var inside := Copy(SLOT_SIZE * k, b.tail);
        if !inside { return None; }
        args := Some(k);
      }
      streams[index] := Stream(b.id, b.cmd.value, args, rate, remaining, 0);
      return Some(Done);
    }

    /** strcpy, byte by byte, with no regard for the end of a slot; it gives up where it would leave
        the pool. */
    method Copy(at: nat, text: string) returns (inside: bool)
      requires Separate()
      modifies pool
      ensures inside <==> at + |text| < pool.Length
      ensures inside ==> pool[..] == StrCpy(old(pool[..]), at, text)
    {
      for j := 0 to |text|
        invariant forall i :: 0 <= i < pool.Length ==>
          pool[i] == if at <= i < at + j then text[i - at] else old(pool[i])
      {
        if at + j >= pool.Length {
          return false;
        }
        pool[at + j] := text[j];
      }
      if at + |text| >= pool.Length {
        return false;
      }
      pool[at + |text|] := '\0';
      return true;
    }

    /** Frees an entry and empties the slot behind its argument pointer. */
    method ClearEntry(i: nat)
      requires Separate() && i < streams.Length
      modifies streams, pool
      ensures View() == Clear(old(View()), i)
    {
      var args := streams[i].args;
      streams[i] := streams[i].(id := 0);
      if args.Some? && args.value < pool.Length / SLOT_SIZE {
        pool[SLOT_SIZE * args.value] := '\0';
      }
    }

    method End(parsed: bool, id: nat, cmd: Option<nat>) returns (reply: Reply)
      requires Separate()
      modifies streams, pool
      ensures reply == EndReply(old(View()), parsed, id, cmd)
      ensures View() == DoEnd(old(View()), parsed, id, cmd)
    {
      if !parsed { return NoParse; }
      if id == 0 { return IdZero; }
      for i := 0 to streams.Length
        invariant View() == old(View())
        invariant Find(streams[..], id, 0) == Find(streams[..], id, i)
      {
        if streams[i].id == id {
          if cmd != Some(streams[i].cmd) { return CodeMismatch; }
          ClearEntry(i);
          return Done;
        }
      }
      return NotFound;
    }

    method StopAll()
      requires Separate()
      modifies streams, pool
      ensures View() == StopFrom(old(View()), 0)
    {
      for i := 0 to streams.Length
        invariant StopFrom(View(), i) == StopFrom(old(View()), 0)
      {
        ClearEntry(i);
      }
    }

    method TimerUpdate()
      requires Separate()
      modifies streams
      ensures View() == Tick(old(View()))
    {
      for i := 0 to streams.Length
        invariant forall j :: 0 <= j < streams.Length ==>
          streams[j] == if j < i then TickStream(old(streams[j])) else old(streams[j])
        invariant pool[..] == old(pool[..])
      {
        if streams[i].Live() {
          var s := streams[i].(remaining := (streams[i].remaining + 0xFFFF) % 0x1_0000);
          if s.remaining == 0 {
            s := s.(queued := (s.queued + 1) % 256);
            s := s.(remaining := s.rate);
          }
          streams[i] := s;
        }
      }
    }

    /** Runs at most one pending stream; `err` is what its command returns. */
    method PollOnce(err: nat) returns (ran: Option<nat>)
      requires Separate()
      modifies streams, pool
      ensures View() == Poll(old(View()), err)
      ensures ran == var i := FirstPending(old(streams[..]), 0);
                     if i < streams.Length then Some(old(streams[..])[i].id) else None
    {
      for i := 0 to streams.Length
        invariant View() == old(View())
        invariant FirstPending(streams[..], 0) == FirstPending(streams[..], i)
      {
        if streams[i].Live() && streams[i].queued > 0 {
          ran := Some(streams[i].id);
          streams[i] := streams[i].(queued := streams[i].queued - 1);
          if err != 0 && err != 0xFF {
            ClearEntry(i);
          }
          return;
        }
      }
      return None;
    }
  }
}
