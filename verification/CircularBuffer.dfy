/** The growing ring buffer (base/circular_buffer.h) as a FIFO queue. */
module CircularBuffer {

  /** The stretch of a circular store from one position up to another, wrapping at the end. */
  function Window<T>(store: seq<T>, from: nat, to: nat): (w: seq<T>)
    requires from < |store| && to < |store|
    ensures |w| == WindowLength(|store|, from, to)
  {
    if from <= to then store[from..to] else store[from..] + store[..to]
  }

  function WindowLength(n: nat, from: nat, to: nat): (len: nat)
    requires from < n && to < n
    ensures len < n
  {
    if from <= to then to - from else n - from + to
  }

  function Next(i: nat, n: nat): (j: nat)
    requires i < n
    ensures j == if i + 1 < n then i + 1 else 0
  {
    (i + 1) % n
  }

  lemma WindowPush<T>(store: seq<T>, from: nat, to: nat, x: T)
    requires from < |store| && to < |store| && Next(to, |store|) != from
    ensures Window(store[to := x], from, Next(to, |store|)) == Window(store, from, to) + [x]
  {
    var s, n := store[to := x], Next(to, |store|);
    if from <= to {
      assert s[from..to + 1] == store[from..to] + [x];
      if n == 0 {
        assert s[from..] + s[..0] == s[from..to + 1];
      }
    } else {
      assert s[from..] == store[from..];
      assert s[..n] == store[..to] + [x];
    }
  }

  lemma WindowPop<T>(store: seq<T>, from: nat, to: nat)
    requires from < |store| && to < |store| && from != to
    ensures Window(store, from, to)[0] == store[from]
    ensures Window(store, Next(from, |store|), to) == Window(store, from, to)[1..]
  {
    if to < from && from + 1 == |store| {
      assert store[from..] == [store[from]];
      assert store[0..to] == store[..to];
    }
  }

  /** Moving all elements to the front of a larger store keeps the window. */
  lemma WindowMoved<T>(store: seq<T>, all: seq<T>)
    requires |all| < |store| && store[..|all|] == all
    ensures Window(store, 0, |all|) == all
  {}

  class Ring<T(0)> {
    var data: array<T>
    var insertAt: nat
    var removeAt: nat

    /** How many elements were ever pushed, and how many copies all resizes together made. */
    ghost var pushed: nat
    ghost var moved: nat

    ghost predicate Valid()
      reads this
    {
      && data.Length >= 2
      && insertAt < data.Length
      && removeAt < data.Length
      && WindowLength(data.Length, removeAt, insertAt) <= pushed
      && moved <= data.Length - 2
      && (data.Length == 2 || data.Length <= 2 * pushed)
    }

    /** The queued elements, oldest first. */
    ghost function Contents(): (s: seq<T>)
      reads this, data
      requires insertAt < data.Length && removeAt < data.Length
    {
      Window(data[..], removeAt, insertAt)
    }

    constructor ()
      ensures Valid() && fresh(data)
      ensures Contents() == [] && pushed == 0 && moved == 0
    {
      data := new T[2];
      insertAt, removeAt := 0, 0;
      pushed, moved := 0, 0;
    }

    method IsEmpty() returns (r: bool)
      requires Valid()
      ensures r <==> Contents() == []
    {
      r := insertAt == removeAt;
    }

    method IsFull() returns (r: bool)
      requires Valid()
      ensures r <==> |Contents()| == data.Length - 1
      ensures r <==> Next(insertAt, data.Length) == removeAt
    {
      r := Next(insertAt, data.Length) == removeAt;
    }

    /** The oldest element; unchecked, an empty queue gives the slot that the next push writes. */
    method Front() returns (x: T)
      requires Valid()
      ensures x == if Contents() != [] then Contents()[0] else data[insertAt]
    {
      if insertAt != removeAt {
        WindowPop(data[..], removeAt, insertAt);
      }
      x := data[removeAt];
    }

    /** Drops the oldest element; unchecked, an empty queue becomes one full of stale elements. */
    method PopFront()
      requires Valid()
      modifies this`removeAt
      ensures removeAt < data.Length
      ensures old(Contents()) != [] ==> Valid() && Contents() == old(Contents())[1..]
      ensures old(Contents()) == [] ==> |Contents()| == data.Length - 1
    {
      if insertAt != removeAt {
        WindowPop(data[..], removeAt, insertAt);
      }
      removeAt := Next(removeAt, data.Length);
    }

    /** Appends, doubling the storage when it is full.  Over any history the copies made by all
        resizes stay below twice the number of pushes. */
    method PushBack(x: T)
      requires Valid()
      modifies this, data
      ensures Valid() && (data == old(data) || fresh(data))
      ensures Contents() == old(Contents()) + [x]
      ensures pushed == old(pushed) + 1 && moved <= 2 * pushed
    {
      var full := IsFull();
      if full {
        Resize(data.Length * 2);
      }
      WindowPush(data[..], removeAt, insertAt, x);
      data[insertAt] := x;
      insertAt := Next(insertAt, data.Length);
      pushed := pushed + 1;
    }

    /** Moves every element to the front of a new array. */
    method Resize(size: nat)
      requires Valid() && |Contents()| == data.Length - 1 && size == 2 * data.Length
      modifies this
      ensures data.Length == size && fresh(data)
      ensures insertAt == old(data.Length) - 1 && removeAt == 0
      ensures Contents() == old(Contents())
      ensures pushed == old(pushed) && moved == old(moved) + old(data.Length) - 1
    {
      hide Window;
      var newData := new T[size];
      var offset := 0;
      ghost var all := Contents();
      while insertAt != removeAt
        invariant data == old(data) && data[..] == old(data[..]) && pushed == old(pushed)
        invariant insertAt == old(insertAt) && removeAt < data.Length
        invariant 0 <= offset <= |all| && Contents() == all[offset..]
        invariant forall j :: 0 <= j < offset ==> newData[j] == all[j]
        invariant moved == old(moved) + offset
        decreases |all| - offset
      {
        WindowPop(data[..], removeAt, insertAt);
        assert all[offset..][0] == all[offset] && all[offset..][1..] == all[offset + 1..];
        newData[offset] := data[removeAt];
        removeAt := Next(removeAt, data.Length);
        offset := offset + 1;
        moved := moved + 1;
      }
      WindowMoved(newData[..], all);
      data := newData;
      removeAt := 0;
      insertAt := offset;
    }
  }
}
