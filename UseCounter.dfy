/**
 * The counter hook: one count that starts at an initial value (0 unless given) and is moved
 * by one step at a time, put back to the initial value, or set outright. Numbers are
 * modelled as unbounded integers.
 */
module UseCounter {
  class Counter {
    const initialValue: int
    var count: int

    /** `useCounter(initialValue)`. */
    constructor (initialValue: int)
      ensures this.initialValue == initialValue && count == initialValue
    {
      this.initialValue := initialValue;
      count := initialValue;
    }

    /** `useCounter()`: the default initial value is 0. */
    constructor Default()
      ensures initialValue == 0 && count == 0
    {
      initialValue := 0;
      count := 0;
    }

    method Increment()
      modifies this
      ensures count == old(count) + 1
    {
      count := count + 1;
    }

    /** There is no lower bound: the count may go below zero. */
    method Decrement()
      modifies this
      ensures count == old(count) - 1
    {
      count := count - 1;
    }

    method Reset()
      modifies this
      ensures count == initialValue
    {
      count := initialValue;
    }

    method SetValue(value: int)
      modifies this
      ensures count == value
    {
      count := value;
    }
  }

  /** The counter's moves as a function of the count. */
  datatype Action = Increment | Decrement | Reset | SetValue(value: int)

  function Step(initialValue: int, count: int, a: Action): int {
    match a
    case Increment => count + 1
    case Decrement => count - 1
    case Reset => initialValue
    case SetValue(v) => v
  }

  /** The number of increments minus the number of decrements in a run of moves. */
  function Net(actions: seq<Action>): int {
    if actions == [] then 0
    else Net(actions[..|actions| - 1]) + match actions[|actions| - 1]
      case Increment => 1
      case Decrement => -1
      case _ => 0
  }

  function Run(initialValue: int, count: int, actions: seq<Action>): int
    decreases |actions|
  {
    if actions == [] then count
    else Step(initialValue, Run(initialValue, count, actions[..|actions| - 1]), actions[|actions| - 1])
  }

  /** A run of increments and decrements moves the count by their difference, so an increment
      and a decrement, in either order, cancel out. */
  lemma {:induction false} RunNet(initialValue: int, count: int, actions: seq<Action>)
    requires forall i :: 0 <= i < |actions| ==> actions[i].Increment? || actions[i].Decrement?
    ensures Run(initialValue, count, actions) == count + Net(actions)
    decreases |actions|
  {
    if actions != [] {
      RunNet(initialValue, count, actions[..|actions| - 1]);
    }
  }

  lemma IncrementDecrementRestores(initialValue: int, count: int)
    ensures Run(initialValue, count, [Increment, Decrement]) == count
    ensures Run(initialValue, count, [Decrement, Increment]) == count
  {
    RunNet(initialValue, count, [Increment, Decrement]);
    RunNet(initialValue, count, [Decrement, Increment]);
  }

  /** Whatever came before, a reset leaves the initial value and a set leaves the value set. */
  lemma LastResetOrSetWins(initialValue: int, count: int, actions: seq<Action>, v: int)
    ensures Run(initialValue, count, actions + [Reset]) == initialValue
    ensures Run(initialValue, count, actions + [SetValue(v)]) == v
  {
    assert (actions + [Reset])[..|actions|] == actions;
    assert (actions + [SetValue(v)])[..|actions|] == actions;
  }

  /** Each method of the class takes the count where the function says. */
  method Replay(c: Counter, actions: seq<Action>)
    modifies c
    ensures c.count == Run(c.initialValue, old(c.count), actions)
  {
    var i := 0;
    while i < |actions|
      invariant 0 <= i <= |actions|
      invariant c.count == Run(c.initialValue, old(c.count), actions[..i])
    {
      assert actions[..i + 1][..i] == actions[..i];
      match actions[i] {
        case Increment => c.Increment();
        case Decrement => c.Decrement();
        case Reset => c.Reset();
        case SetValue(v) => c.SetValue(v);
      }
      i := i + 1;
    }
    assert actions[..i] == actions;
  }
}
