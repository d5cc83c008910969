/**
  The hand-off of streamed events from the worker thread that reads them to the thread that waits
  in short polls, as a state machine whose steps the two threads take in any order.
 */
module EventHandoff {

  /** How the source iterator ends: exhausted, or raising. */
  datatype Ending = Exhausted | Raised(error: string)

  /** A queue entry. */
  datatype Entry<T> = Item(item: T) | End | Error(error: string)

  /** Where the worker stands. In `Check` and `Put` it holds the last fetched item; `Broke` dropped it. */
  datatype Worker = Fetch | Check | Put | PutMarker | Done | Broke

  datatype Exit = Returned | Reraised(error: string) | Closed

  /** The consuming generator: waiting, suspended at a `yield`, about to set the stop flag, or over. */
  datatype Consumer = Waiting | Suspended | Leaving(exit: Exit) | Over(exit: Exit)

  datatype State<T> = State(
    fetched: nat, worker: Worker, queue: seq<Entry<T>>, stop: bool, consumer: Consumer, yielded: seq<T>)

  function Start<T>(): State<T> {
    State(0, Fetch, [], false, Waiting, [])
  }

  function Marker<T>(ending: Ending): Entry<T> {
    if ending.Exhausted? then End else Error(ending.error)
  }

  datatype Action = FetchItem | FetchEnd | CheckStop | PutItem | PutEnding
                  | Get | PollTimeout | Resume | Interrupt | SetStop

  /** One step of either thread over a source of `items` that ends as `ending` says. */
  predicate Next<T(==)>(items: seq<T>, ending: Ending, s: State<T>, a: Action, t: State<T>) {
    match a
    // The worker.
    case FetchItem => s.worker == Fetch && s.fetched < |items| && t == s.(fetched := s.fetched + 1, worker := Check)
    case FetchEnd => s.worker == Fetch && s.fetched == |items| && t == s.(worker := PutMarker)
    case CheckStop => s.worker == Check && t == s.(worker := if s.stop then Broke else Put)
    case PutItem =>
      s.worker == Put && 0 < s.fetched <= |items|
      && t == s.(queue := s.queue + [Item(items[s.fetched - 1])], worker := Fetch)
    case PutEnding => s.worker == PutMarker && t == s.(queue := s.queue + [Marker(ending)], worker := Done)
    // The consumer.
    case Get =>
      s.consumer == Waiting && s.queue != []
      && t == match s.queue[0] {
           case Item(item) => s.(queue := s.queue[1..], consumer := Suspended, yielded := s.yielded + [item])
           case End => s.(queue := s.queue[1..], consumer := Leaving(Returned))
           case Error(error) => s.(queue := s.queue[1..], consumer := Leaving(Reraised(error)))
         }
    case PollTimeout => s.consumer == Waiting && s.queue == [] && t == s
    case Resume => s.consumer == Suspended && t == s.(consumer := Waiting)
    // The caller closes the suspended generator, or Ctrl-C lands in the waiting one.
    case Interrupt => (s.consumer == Suspended || s.consumer == Waiting) && t == s.(consumer := Leaving(Closed))
    case SetStop => s.consumer.Leaving? && t == s.(stop := true, consumer := Over(s.consumer.exit))
  }

  /** Consecutive states of the two threads, linked by the actions. */
  predicate IsPath<T(==)>(items: seq<T>, ending: Ending, states: seq<State<T>>, actions: seq<Action>) {
    |states| == |actions| + 1
    && forall i :: 0 <= i < |actions| ==> Next(items, ending, states[i], actions[i], states[i + 1])
  }

  // ---------------------------------------------------------------- the queue is a faithful FIFO

  function Wrapped<T>(items: seq<T>): (entries: seq<Entry<T>>)
    ensures |entries| == |items| && forall i :: 0 <= i < |items| ==> entries[i] == Item(items[i])
  {
    seq(|items|, i requires 0 <= i < |items| => Item(items[i]))
  }

  /** How many items the worker has put into the queue so far. */
  function PutCount<T>(s: State<T>): int {
    if s.worker == Check || s.worker == Put || s.worker == Broke then s.fetched - 1 else s.fetched
  }

  /** Everything put into the queue so far, in order. */
  function Sent<T>(items: seq<T>, ending: Ending, s: State<T>): seq<Entry<T>>
    requires 0 <= PutCount(s) <= |items|
  {
    Wrapped(items[..PutCount(s)]) + (if s.worker == Done then [Marker(ending)] else [])
  }

  /** Whether the consumer took the ending marker. */
  predicate MarkerTaken<T>(s: State<T>) {
    (s.consumer.Leaving? || s.consumer.Over?) && s.consumer.exit != Closed
  }

  /** How many entries the consumer took from the queue. */
  function Taken<T>(s: State<T>): nat {
    |s.yielded| + if MarkerTaken(s) then 1 else 0
  }

  function ExitFor(ending: Ending): Exit {
    if ending.Exhausted? then Returned else Reraised(ending.error)
  }

  /** What the two threads keep: the queue holds exactly what was sent and not yet taken. */
  ghost predicate Inv<T>(items: seq<T>, ending: Ending, s: State<T>) {
    && s.fetched <= |items| && 0 <= PutCount(s)
    && (s.worker == PutMarker || s.worker == Done ==> s.fetched == |items|)
    && (s.worker == Broke ==> s.stop)
    && (s.stop <==> s.consumer.Over?)
    && s.yielded <= items
    && Taken(s) <= |Sent(items, ending, s)|
    && s.queue == Sent(items, ending, s)[Taken(s)..]
    && (MarkerTaken(s) ==> s.worker == Done && s.yielded == items && s.consumer.exit == ExitFor(ending))
  }

  lemma WorkerInv<T>(items: seq<T>, ending: Ending, s: State<T>, a: Action, t: State<T>)
    requires Inv(items, ending, s) && Next(items, ending, s, a, t)
    requires a.FetchItem? || a.FetchEnd? || a.CheckStop? || a.PutItem? || a.PutEnding?
    ensures Inv(items, ending, t)
  {
    var before, after := Sent(items, ending, s), Sent(items, ending, t);
    if a.PutItem? {
      assert items[..s.fetched] == items[..s.fetched - 1] + [items[s.fetched - 1]];
      assert after == before + [Item(items[s.fetched - 1])];
    } else if a.PutEnding? {
      assert after == before + [Marker(ending)];
    } else {
      assert after == before;
    }
    assert Taken(t) == Taken(s);
    assert a.PutItem? || a.PutEnding? ==> after[Taken(s)..] == before[Taken(s)..] + [after[|before|]];
  }

  lemma GetInv<T>(items: seq<T>, ending: Ending, s: State<T>, t: State<T>)
    requires Inv(items, ending, s) && Next(items, ending, s, Get, t)
    ensures Inv(items, ending, t)
  {
    var sent := Sent(items, ending, s);
    assert s.queue[0] == sent[|s.yielded|];
    assert s.queue[1..] == sent[|s.yielded| + 1..];
    if s.queue[0].Item? {
      assert |s.yielded| < PutCount(s);
      assert s.queue[0].item == items[|s.yielded|];
    }
  }

  lemma NextInv<T>(items: seq<T>, ending: Ending, s: State<T>, a: Action, t: State<T>)
    requires Inv(items, ending, s) && Next(items, ending, s, a, t)
    ensures Inv(items, ending, t)
  {
    match a
    case Get => GetInv(items, ending, s, t);
    case PollTimeout =>
    case Resume =>
    case Interrupt =>
    case SetStop =>
    case _ => WorkerInv(items, ending, s, a, t);
  }

  lemma {:induction false} PathInv<T>(items: seq<T>, ending: Ending, states: seq<State<T>>, actions: seq<Action>)
    requires IsPath(items, ending, states, actions) && Inv(items, ending, states[0])
    ensures forall i :: 0 <= i < |states| ==> Inv(items, ending, states[i])
    decreases |actions|
  {
    if actions != [] {
      var n := |actions| - 1;
      PathInv(items, ending, states[..n + 1], actions[..n]);
      assert states[..n + 1][n] == states[n];
      NextInv(items, ending, states[n], actions[n], states[n + 1]);
      forall i | 0 <= i < |states| ensures Inv(items, ending, states[i]) {
        assert i <= n ==> states[..n + 1][i] == states[i];
      }
    }
  }

  /**
    In every interleaving: what was yielded, then what is queued, is a prefix of the source, in order
    and without loss or duplicate; the ending marker is unique and last; a normal return means that
    every item was yielded, and an error of the source is raised only after all items before it.
   */
  lemma FaithfulHandoff<T>(items: seq<T>, ending: Ending, states: seq<State<T>>, actions: seq<Action>, i: nat)
    requires IsPath(items, ending, states, actions) && states[0] == Start() && i < |states|
    ensures var s := states[i];
      && s.yielded <= items
      && (forall j :: 0 <= j < |s.queue| && s.queue[j].Item? ==>
            |s.yielded| + j < |items| && s.queue[j].item == items[|s.yielded| + j])
      && (forall j :: 0 <= j < |s.queue| && !s.queue[j].Item? ==>
            j == |s.queue| - 1 && s.queue[j] == Marker(ending) && |s.yielded| + j == |items|)
      && (s.consumer == Over(Returned) ==> s.yielded == items && ending == Exhausted)
      && (forall error :: s.consumer == Over(Reraised(error)) ==> s.yielded == items && ending == Raised(error))
  {
    assert Inv(items, ending, Start<T>()) by {
      assert Sent(items, ending, Start<T>()) == [];
    }
    PathInv(items, ending, states, actions);
    var s := states[i];
    var sent := Sent(items, ending, s);
    if MarkerTaken(s) {
      assert s.queue == [];
    } else {
      assert forall j :: 0 <= j < |s.queue| ==> s.queue[j] == sent[|s.yielded| + j];
    }
  }

  // ---------------------------------------------------------------- stopping

  function PutsIn(actions: seq<Action>): nat {
    if actions == [] then 0 else (if actions[0].PutItem? then 1 else 0) + PutsIn(actions[1..])
  }

  lemma PathSuffix<T>(items: seq<T>, ending: Ending, states: seq<State<T>>, actions: seq<Action>, k: nat)
    requires IsPath(items, ending, states, actions) && k < |states|
    ensures IsPath(items, ending, states[k..], actions[k..])
  {
  }

  lemma {:induction false} PutsAfterStop<T>(
      items: seq<T>, ending: Ending, states: seq<State<T>>, actions: seq<Action>)
    requires IsPath(items, ending, states, actions) && states[0].stop
    ensures PutsIn(actions) <= if states[0].worker == Put then 1 else 0
    decreases |actions|
  {
    if actions != [] {
      assert Next(items, ending, states[0], actions[0], states[1]);
      PathSuffix(items, ending, states, actions, 1);
      PutsAfterStop(items, ending, states[1..], actions[1..]);
    }
  }

  /** Once the stop flag is set, whatever the threads do, the worker enqueues at most one more item. */
  lemma AtMostOneItemAfterStop<T>(items: seq<T>, ending: Ending, states: seq<State<T>>, actions: seq<Action>, i: nat)
    requires IsPath(items, ending, states, actions) && i < |states| && states[i].stop
    ensures PutsIn(actions[i..]) <= 1
  {
    PathSuffix(items, ending, states, actions, i);
    PutsAfterStop(items, ending, states[i..], actions[i..]);
  }

  // ---------------------------------------------------------------- the hand-off ends

  function WorkerWork(w: Worker): nat {
    match w
    case Fetch => 4
    case Check => 8
    case Put => 7
    case PutMarker => 3
    case Done => 0
    case Broke => 0
  }

  function ConsumerWork(c: Consumer): nat {
    match c
    case Waiting => 2
    case Suspended => 3
    case Leaving(_) => 1
    case Over(_) => 0
  }

  /** A bound on the steps other than poll timeouts that both threads can still take. */
  function Work<T>(items: seq<T>, s: State<T>): nat
    requires s.fetched <= |items|
  {
    5 * (|items| - s.fetched) + WorkerWork(s.worker) + 2 * |s.queue| + ConsumerWork(s.consumer)
  }

  lemma NextWork<T>(items: seq<T>, ending: Ending, s: State<T>, a: Action, t: State<T>)
    requires Inv(items, ending, s) && Next(items, ending, s, a, t)
    ensures t.fetched <= |items|
    ensures if a.PollTimeout? then Work(items, t) == Work(items, s) else Work(items, t) < Work(items, s)
  {
  }

  function StepsIn(actions: seq<Action>): nat {
    if actions == [] then 0
    else (if actions[|actions| - 1].PollTimeout? then 0 else 1) + StepsIn(actions[..|actions| - 1])
  }

  /** Neither thread can spin: apart from poll timeouts, every interleaving has at most 5 steps per item and 6 more. */
  lemma {:induction false} HandoffEnds<T>(items: seq<T>, ending: Ending, states: seq<State<T>>, actions: seq<Action>)
    requires IsPath(items, ending, states, actions) && states[0] == Start()
    ensures var s := states[|actions|];
      && Inv(items, ending, s)
      && StepsIn(actions) + Work(items, s) <= 5 * |items| + 6
    decreases |actions|
  {
    if actions == [] {
      assert Sent(items, ending, Start<T>()) == [];
    } else {
      var n := |actions| - 1;
      HandoffEnds(items, ending, states[..n + 1], actions[..n]);
      assert states[..n + 1][n] == states[n];
      NextInv(items, ending, states[n], actions[n], states[n + 1]);
      NextWork(items, ending, states[n], actions[n], states[n + 1]);
    }
  }

  /** Neither thread waits for ever: until both are over, one can take a step that is no poll or interrupt. */
  lemma NoDeadlock<T>(items: seq<T>, ending: Ending, s: State<T>) returns (a: Action, t: State<T>)
    requires Inv(items, ending, s) && !(s.consumer.Over? && (s.worker == Done || s.worker == Broke))
    ensures Next(items, ending, s, a, t) && !a.PollTimeout? && !a.Interrupt?
  {
    if s.consumer.Leaving? {
      a, t := SetStop, s.(stop := true, consumer := Over(s.consumer.exit));
    } else if s.consumer.Suspended? {
      a, t := Resume, s.(consumer := Waiting);
    } else if s.worker == Fetch && s.fetched < |items| {
      a, t := FetchItem, s.(fetched := s.fetched + 1, worker := Check);
    } else if s.worker == Fetch {
      a, t := FetchEnd, s.(worker := PutMarker);
    } else if s.worker == Check {
      a, t := CheckStop, s.(worker := if s.stop then Broke else Put);
    } else if s.worker == Put {
      a, t := PutItem, s.(queue := s.queue + [Item(items[s.fetched - 1])], worker := Fetch);
    } else if s.worker == PutMarker {
      a, t := PutEnding, s.(queue := s.queue + [Marker(ending)], worker := Done);
    } else {
      // The ending is in the queue, so the waiting consumer has something to take.
      a := Get;
      t := match s.queue[0]
        case Item(item) => s.(queue := s.queue[1..], consumer := Suspended, yielded := s.yielded + [item])
        case End => s.(queue := s.queue[1..], consumer := Leaving(Returned))
        case Error(error) => s.(queue := s.queue[1..], consumer := Leaving(Reraised(error)));
    }
  }
}
