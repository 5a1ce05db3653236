/** Which of several command sources the controller obeys (`QuadrupedControl::Impl::Command`). */
module CommandArbiter {
  import opened Wrappers

  /** A command as it arrives, with the clock reading at that moment. */
  datatype Arrival = Arrival(source: nat, priority: int, time: real)

  /** The current command, and its priority: zero until some command has been accepted. */
  datatype Current = Current(arrival: Option<Arrival>, priority: int)

  const NO_COMMAND := Current(None, 0)

  function Offer(timeout: real, c: Current, a: Arrival): Current {
    var higher := a.priority >= c.priority;
    var stale := c.arrival.Some? && a.time - c.arrival.value.time > timeout;
    if !higher && !stale then c else Current(Some(a), a.priority)
  }

  function After(timeout: real, arrivals: seq<Arrival>, n: nat): Current
    requires n <= |arrivals|
  {
    if n == 0 then NO_COMMAND else Offer(timeout, After(timeout, arrivals, n - 1), arrivals[n - 1])
  }

  /** The latest command of `source` among the first `n` arrivals. */
  function LastOf(arrivals: seq<Arrival>, source: nat, first: nat, n: nat): (k: nat)
    requires first < n <= |arrivals| && arrivals[first].source == source
    ensures first <= k < n && arrivals[k].source == source
    ensures forall j :: k < j < n ==> arrivals[j].source != source
  {
    if arrivals[n - 1].source == source then n - 1 else LastOf(arrivals, source, first, n - 1)
  }

  /** How long `source` has been silent when arrival `i` comes in. */
  ghost function Silence(arrivals: seq<Arrival>, source: nat, first: nat, i: nat): real
    requires first < i < |arrivals| && arrivals[first].source == source
  {
    arrivals[i].time - arrivals[LastOf(arrivals, source, first, i)].time
  }

  /** From arrival `first` on, `source` leaves no gap longer than `timeout` between its commands,
      nor between its last command and the end. */
  ghost predicate KeepsSpeaking(timeout: real, arrivals: seq<Arrival>, source: nat, first: nat)
    requires first < |arrivals| && arrivals[first].source == source
  {
    forall i {:trigger Silence(arrivals, source, first, i)} ::
      first < i < |arrivals| && (arrivals[i].source == source || i == |arrivals| - 1)
      ==> Silence(arrivals, source, first, i) <= timeout
  }

  ghost predicate ClockRuns(arrivals: seq<Arrival>) {
    forall i, j :: 0 <= i <= j < |arrivals| ==> arrivals[i].time <= arrivals[j].time
  }

  /** `source` outranks every other source. */
  ghost predicate Outranks(arrivals: seq<Arrival>, source: nat, priority: int) {
    forall i :: 0 <= i < |arrivals| ==>
      if arrivals[i].source == source then arrivals[i].priority == priority
      else arrivals[i].priority < priority
  }

  lemma {:induction false} PriorityStaysBelow(
    timeout: real, arrivals: seq<Arrival>, source: nat, priority: int, n: nat)
    requires n <= |arrivals| && priority >= 0
    requires Outranks(arrivals, source, priority)
    ensures After(timeout, arrivals, n).priority <= priority
  {
    if n > 0 {
      PriorityStaysBelow(timeout, arrivals, source, priority, n - 1);
    }
  }

  /** Between two of its commands a source that keeps speaking is never stale either. */
  lemma {:induction false} NeverStale(
    timeout: real, arrivals: seq<Arrival>, source: nat, first: nat, i: nat, later: nat)
    requires first < i <= later < |arrivals| && arrivals[first].source == source
    requires ClockRuns(arrivals) && KeepsSpeaking(timeout, arrivals, source, first)
    requires LastOf(arrivals, source, first, later) == LastOf(arrivals, source, first, i)
    ensures Silence(arrivals, source, first, i) <= timeout
    decreases |arrivals| - later
  {
    if arrivals[later].source != source && later < |arrivals| - 1 {
      NeverStale(timeout, arrivals, source, first, i, later + 1);
    } else {
      assert Silence(arrivals, source, first, later) <= timeout;
    }
  }

  /** A source that outranks the others and never falls silent for longer than the timeout holds
      the robot from its first command on, and its latest command is the one obeyed. */
  lemma {:induction false} TopSourceHolds(
    timeout: real, arrivals: seq<Arrival>, source: nat, priority: int, first: nat, n: nat)
    requires priority >= 0 && first < n <= |arrivals| && arrivals[first].source == source
    requires ClockRuns(arrivals)
    requires Outranks(arrivals, source, priority)
    requires KeepsSpeaking(timeout, arrivals, source, first)
    ensures After(timeout, arrivals, n)
            == Current(Some(arrivals[LastOf(arrivals, source, first, n)]), priority)
  {
    if arrivals[n - 1].source == source {
      PriorityStaysBelow(timeout, arrivals, source, priority, n - 1);
    } else {
      TopSourceHolds(timeout, arrivals, source, priority, first, n - 1);
      NeverStale(timeout, arrivals, source, first, n - 1, n - 1);
    }
  }

  /** The command obeyed after `n` arrivals came from `source`. */
  predicate Holds(timeout: real, arrivals: seq<Arrival>, source: nat, n: nat)
    requires n <= |arrivals|
  {
    var c := After(timeout, arrivals, n);
    c.arrival.Some? && c.arrival.value.source == source
  }

  /** A source that holds the robot is obeyed in its latest command. */
  lemma {:induction false} HolderIsCurrent(
    timeout: real, arrivals: seq<Arrival>, source: nat, priority: int, first: nat, n: nat)
    requires first < n <= |arrivals| && arrivals[first].source == source
    requires After(timeout, arrivals, first + 1) == Current(Some(arrivals[first]), priority)
    requires forall i :: first <= i < n && arrivals[i].source == source ==> arrivals[i].priority == priority
    requires forall m :: first < m <= n ==> Holds(timeout, arrivals, source, m)
    ensures After(timeout, arrivals, n) == Current(Some(arrivals[LastOf(arrivals, source, first, n)]), priority)
  {
    if n > first + 1 {
      HolderIsCurrent(timeout, arrivals, source, priority, first, n - 1);
      assert Holds(timeout, arrivals, source, n);
    }
  }

  /** Another source of lower priority takes the robot over exactly when the one that holds it has
      been silent for longer than the timeout; otherwise nothing changes. */
  lemma TakeoverIff(timeout: real, arrivals: seq<Arrival>, source: nat, priority: int, first: nat, n: nat)
    requires first < n < |arrivals| && arrivals[first].source == source
    requires After(timeout, arrivals, first + 1) == Current(Some(arrivals[first]), priority)
    requires forall i :: first <= i < n && arrivals[i].source == source ==> arrivals[i].priority == priority
    requires forall m :: first < m <= n ==> Holds(timeout, arrivals, source, m)
    requires arrivals[n].source != source && arrivals[n].priority < priority
    ensures After(timeout, arrivals, n + 1)
            == if Silence(arrivals, source, first, n) > timeout then Current(Some(arrivals[n]), arrivals[n].priority)
               else After(timeout, arrivals, n)
  {
    HolderIsCurrent(timeout, arrivals, source, priority, first, n);
  }

  /** A command of the same or a higher priority is always taken. */
  lemma HigherIsTaken(timeout: real, arrivals: seq<Arrival>, n: nat)
    requires n < |arrivals| && arrivals[n].priority >= After(timeout, arrivals, n).priority
    ensures After(timeout, arrivals, n + 1) == Current(Some(arrivals[n]), arrivals[n].priority)
  {}

  class CommandSlot {
    const timeout: real
    var command: Option<Arrival>
    var priority: int

    ghost function View(): Current
      reads this
    {
      Current(command, priority)
    }

    constructor (timeout: real)
      ensures this.timeout == timeout && View() == NO_COMMAND
    {
      this.timeout := timeout;
      command, priority := None, 0;
    }

    method Command(a: Arrival)
      modifies this
      ensures View() == Offer(timeout, old(View()), a)
    {
      var higher := a.priority >= priority;
      var stale := command.Some? && a.time - command.value.time > timeout;
      if !higher && !stale {
        return;
      }
      command := Some(a);
      priority := a.priority;
    }
  }
}
