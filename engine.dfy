/**
 * perform's workers, closer and queue arbiter as a transition system in which
 * the steps of different goroutines interleave in any order. A worker's
 * expansion of one item (readDir followed by wg.Done()) is one step; taking
 * an item from the queue is another, so several items can be in flight at
 * once. The closer is a step of its own, enabled once the counter is zero.
 */
module Engine {
  import opened Wrappers
  import opened Expansion

  /** A worker goroutine: waiting on the queue, expanding an item, or returned. */
  datatype Worker = Idle | Busy(item: string) | Exited

  datatype State = State(
    buff: seq<string>,       // the arbiter's buffer
    open: bool,              // the queue's input is not closed yet
    count: int,              // the wait-group counter
    workers: seq<Worker>,
    results: seq<string>,    // sent on the results channel so far
    pushed: seq<string>,     // every item the queue accepted
    delivered: seq<string>,  // every item the queue handed to a worker
    dropped: seq<string>)    // what the queue still held when its input was closed

  /** The goroutine steps. */
  datatype Step =
    | Receive(w: nat)   // worker w takes the front item the arbiter offers
    | Finish(w: nat)    // worker w runs readDir on its item, then wg.Done()
    | CloseInput        // the closer: wg.Wait() has returned, close(in)
    | Quit(w: nat)      // worker w finds the output closed and returns

  /** The number of workers that hold an item. */
  function InFlight(workers: seq<Worker>): (n: nat)
  {
    if workers == [] then 0
    else InFlight(workers[..|workers| - 1]) + (if workers[|workers| - 1].Busy? then 1 else 0)
  }

  /** After wg.Add(1) and the send of the root, with `n` workers started. */
  function Init(root: string, n: nat): (s: State)
  {
    State([root], true, 1, seq(n, _ => Idle), [], [root], [], [])
  }

  predicate Enabled(s: State, step: Step)
  {
    match step
    case Receive(w) => w < |s.workers| && s.workers[w] == Idle && s.open && s.buff != []
    case Finish(w) => w < |s.workers| && s.workers[w].Busy?
    case CloseInput => s.open && s.count == 0
    case Quit(w) => w < |s.workers| && s.workers[w] == Idle && !s.open
  }

  function Next(s: State, step: Step, filename: string, hidden: string -> bool, glob: string -> Listing): (s': State)
    requires Enabled(s, step)
  {
    match step
    case Receive(w) =>
      s.(buff := s.buff[1..], workers := s.workers[w := Busy(s.buff[0])], delivered := s.delivered + [s.buff[0]])
    case Finish(w) =>
      var x := Expand(s.workers[w].item, filename, hidden, glob);
      s.(buff := s.buff + x.children,
         count := s.count + |x.children| - 1,
         pushed := s.pushed + x.children,
         results := s.results + x.results,
         workers := s.workers[w := if x.err.Some? then Exited else Idle])
    case CloseInput =>
      s.(open := false, dropped := s.buff, buff := [])
    case Quit(w) =>
      s.(workers := s.workers[w := Exited])
  }

  /**
   * A step keeps the number of workers, only extends the push, delivery and
   * result histories, never reopens the input, and lowers the counter by at
   * most one.
   */
  lemma NextMonotone(s: State, step: Step, filename: string, hidden: string -> bool, glob: string -> Listing)
    requires Enabled(s, step)
    ensures var s' := Next(s, step, filename, hidden, glob);
            && |s'.workers| == |s.workers|
            && s.pushed <= s'.pushed && s.delivered <= s'.delivered && s.results <= s'.results
            && (s'.open ==> s.open)
            && s'.count >= s.count - 1
  {
  }

  /**
   * The accounting invariant: the counter is the number of buffered items
   * plus the items in flight; the queue loses and duplicates nothing; and
   * the input is closed only once the counter is zero.
   */
  ghost predicate Inv(s: State)
  {
    && s.count == |s.buff| + InFlight(s.workers)
    && s.pushed == s.delivered + s.dropped + s.buff
    && s.dropped == []
    && (!s.open ==> s.count == 0)
  }

  lemma {:induction false} InFlightAllIdle(n: nat)
    ensures InFlight(seq(n, _ => Idle)) == 0
  {
    if n > 0 {
      assert seq(n, _ => Idle)[..n - 1] == seq(n - 1, _ => Idle);
      InFlightAllIdle(n - 1);
    }
  }

  /** Replacing one worker changes the in-flight count by what it held and what it now holds. */
  lemma {:induction false} InFlightUpdate(ws: seq<Worker>, w: nat, v: Worker)
    requires w < |ws|
    ensures InFlight(ws[w := v]) + (if ws[w].Busy? then 1 else 0) == InFlight(ws) + (if v.Busy? then 1 else 0)
  {
    var n := |ws|;
    if w < n - 1 {
      assert ws[w := v][..n - 1] == ws[..n - 1][w := v];
      InFlightUpdate(ws[..n - 1], w, v);
    } else {
      assert ws[w := v][..n - 1] == ws[..n - 1];
    }
  }

  /** With something in flight, some worker holds an item. */
  lemma {:induction false} BusyWitness(ws: seq<Worker>) returns (k: nat)
    requires InFlight(ws) > 0
    ensures k < |ws| && ws[k].Busy?
  {
    var n := |ws|;
    if ws[n - 1].Busy? {
      k := n - 1;
    } else {
      k := BusyWitness(ws[..n - 1]);
    }
  }

  /** The seeded state satisfies the invariant, whatever the number of workers. */
  lemma InitInv(root: string, n: nat)
    ensures Inv(Init(root, n))
  {
    InFlightAllIdle(n);
  }

  lemma ReceivePreservesInv(s: State, w: nat, filename: string, hidden: string -> bool, glob: string -> Listing)
    requires Inv(s) && Enabled(s, Receive(w))
    ensures Inv(Next(s, Receive(w), filename, hidden, glob))
  {
    InFlightUpdate(s.workers, w, Busy(s.buff[0]));
    assert s.buff == [s.buff[0]] + s.buff[1..];
  }

  lemma FinishPreservesInv(s: State, w: nat, filename: string, hidden: string -> bool, glob: string -> Listing)
    requires Inv(s) && Enabled(s, Finish(w))
    ensures Inv(Next(s, Finish(w), filename, hidden, glob))
  {
    var x := Expand(s.workers[w].item, filename, hidden, glob);
    var s' := Next(s, Finish(w), filename, hidden, glob);
    InFlightUpdate(s.workers, w, if x.err.Some? then Exited else Idle);
    BusyMeansOpen(s, w);
    AppendAssoc(s.delivered, s.buff, x.children);
    assert s'.count == |s'.buff| + InFlight(s'.workers);
  }

  /** Every step of every goroutine keeps the invariant. */
  lemma NextPreservesInv(s: State, step: Step, filename: string, hidden: string -> bool, glob: string -> Listing)
    requires Inv(s) && Enabled(s, step)
    ensures Inv(Next(s, step, filename, hidden, glob))
  {
    match step
    case Receive(w) => ReceivePreservesInv(s, w, filename, hidden, glob);
    case Finish(w) => FinishPreservesInv(s, w, filename, hidden, glob);
    case CloseInput =>
    case Quit(w) => InFlightUpdate(s.workers, w, Exited);
  }

  /** A busy worker's pushes go to an open input: the send on a closed channel never happens. */
  lemma BusyMeansOpen(s: State, w: nat)
    requires Inv(s) && w < |s.workers| && s.workers[w].Busy?
    ensures s.open && s.count >= 1
  {
    InFlightUpdate(s.workers, w, Idle);
  }

  /** A zero counter means an empty buffer and no item in flight. */
  lemma ZeroMeansNoWork(s: State)
    requires Inv(s) && s.count == 0
    ensures s.buff == [] && InFlight(s.workers) == 0
    ensures forall w :: 0 <= w < |s.workers| ==> !s.workers[w].Busy?
  {
    forall w | 0 <= w < |s.workers|
      ensures !s.workers[w].Busy?
    {
      InFlightUpdate(s.workers, w, Idle);
    }
  }

  /** Once zero, the counter stays zero: the completion signal is stable. */
  lemma ZeroIsStable(s: State, step: Step, filename: string, hidden: string -> bool, glob: string -> Listing)
    requires Inv(s) && s.count == 0 && Enabled(s, step)
    ensures Next(s, step, filename, hidden, glob).count == 0
  {
    if step.Finish? {
      ZeroMeansNoWork(s);
      assert false;
    }
  }

  /** The closer closes an empty queue with nothing in flight, so it drops nothing. */
  lemma CloseLosesNothing(s: State, filename: string, hidden: string -> bool, glob: string -> Listing)
    requires Inv(s) && Enabled(s, CloseInput)
    ensures Next(s, CloseInput, filename, hidden, glob).dropped == []
    ensures forall w :: 0 <= w < |s.workers| ==> !s.workers[w].Busy?
  {
    ZeroMeansNoWork(s);
  }

  /** `steps` can be taken one after another from `s`. */
  predicate Executes(s: State, steps: seq<Step>, filename: string, hidden: string -> bool, glob: string -> Listing)
    decreases |steps|
  {
    steps == [] ||
    (Enabled(s, steps[0]) && Executes(Next(s, steps[0], filename, hidden, glob), steps[1..], filename, hidden, glob))
  }

  function Run(s: State, steps: seq<Step>, filename: string, hidden: string -> bool, glob: string -> Listing): (s': State)
    requires Executes(s, steps, filename, hidden, glob)
    decreases |steps|
  {
    if steps == [] then s
    else Run(Next(s, steps[0], filename, hidden, glob), steps[1..], filename, hidden, glob)
  }

  /** The invariant holds after any interleaving of goroutine steps from the seeded state. */
  lemma {:induction false} RunPreservesInv(s: State, steps: seq<Step>, filename: string, hidden: string -> bool, glob: string -> Listing)
    requires Inv(s) && Executes(s, steps, filename, hidden, glob)
    ensures Inv(Run(s, steps, filename, hidden, glob))
    decreases |steps|
  {
    if steps != [] {
      NextPreservesInv(s, steps[0], filename, hidden, glob);
      RunPreservesInv(Next(s, steps[0], filename, hidden, glob), steps[1..], filename, hidden, glob);
    }
  }

  /**
   * Every reachable state satisfies the invariant: the counter is the
   * buffered plus the in-flight items, never negative, and the queue has
   * handed out a prefix of what it accepted, in order, dropping nothing.
   */
  lemma Reachable(root: string, n: nat, steps: seq<Step>, filename: string, hidden: string -> bool, glob: string -> Listing)
    requires Executes(Init(root, n), steps, filename, hidden, glob)
    ensures var s := Run(Init(root, n), steps, filename, hidden, glob);
            && s.count == |s.buff| + InFlight(s.workers) && s.count >= 0
            && s.pushed == s.delivered + s.buff
            && (!s.open ==> s.buff == [] && s.count == 0)
  {
    var s0 := Init(root, n);
    InitInv(root, n);
    RunPreservesInv(s0, steps, filename, hidden, glob);
    var s := Run(s0, steps, filename, hidden, glob);
    assert s.dropped == [] && s.delivered + [] == s.delivered;
  }

  /**
   * No deadlock short of the end: when no goroutine can take a step, every
   * worker has returned.
   */
  lemma Quiescent(s: State)
    requires Inv(s)
    requires forall step :: !Enabled(s, step)
    ensures forall w :: 0 <= w < |s.workers| ==> s.workers[w] == Exited
  {
    forall w | 0 <= w < |s.workers|
      ensures s.workers[w] == Exited
    {
      assert !Enabled(s, Receive(w)) && !Enabled(s, Finish(w)) && !Enabled(s, Quit(w));
      if s.workers[w] == Idle && s.open && s.buff == [] {
        assert !Enabled(s, CloseInput);
        var k := BusyWitness(s.workers);
        assert Enabled(s, Finish(k));
        assert false;
      }
    }
  }

  /**
   * The steps of one worker's turn when the turns do not interleave: take
   * the front item, expand it, and let the closer run if the counter
   * dropped to zero.
   */
  function TurnSteps(s: State, w: nat, filename: string, hidden: string -> bool, glob: string -> Listing): (steps: seq<Step>)
    requires Enabled(s, Receive(w))
  {
    var x := Expand(s.buff[0], filename, hidden, glob);
    if s.count + |x.children| - 1 == 0 then [Receive(w), Finish(w), CloseInput] else [Receive(w), Finish(w)]
  }

  /**
   * A whole turn is one of the interleavings: it can be taken, and it takes
   * the front item, appends the item's children and results, decrements the
   * counter once, and leaves the input open exactly while the counter is
   * positive.
   */
  lemma SequentialTurn(s: State, w: nat, filename: string, hidden: string -> bool, glob: string -> Listing)
    requires Inv(s) && Enabled(s, Receive(w))
    ensures Executes(s, TurnSteps(s, w, filename, hidden, glob), filename, hidden, glob)
    ensures var x := Expand(s.buff[0], filename, hidden, glob);
            var s' := Run(s, TurnSteps(s, w, filename, hidden, glob), filename, hidden, glob);
            && s'.buff == s.buff[1..] + x.children
            && s'.count == s.count + |x.children| - 1
            && (s'.open <==> s'.count > 0)
            && s'.results == s.results + x.results
            && s'.pushed == s.pushed + x.children
            && s'.delivered == s.delivered + [s.buff[0]]
            && s'.dropped == []
            && s'.workers == s.workers[w := if x.err.Some? then Exited else Idle]
  {
    var x := Expand(s.buff[0], filename, hidden, glob);
    var s1 := Next(s, Receive(w), filename, hidden, glob);
    ReceivePreservesInv(s, w, filename, hidden, glob);
    BusyMeansOpen(s1, w);
    var s2 := Next(s1, Finish(w), filename, hidden, glob);
    FinishPreservesInv(s1, w, filename, hidden, glob);
    var steps := TurnSteps(s, w, filename, hidden, glob);
    assert steps[1..][1..] == steps[2..];
    if s2.count == 0 {
      assert steps[2..][1..] == [];
      var s3 := Next(s2, CloseInput, filename, hidden, glob);
      assert Executes(s3, [], filename, hidden, glob);
      assert Run(s2, steps[2..], filename, hidden, glob) == s3;
    } else {
      assert steps[2..] == [];
      assert Run(s2, steps[2..], filename, hidden, glob) == s2;
    }
    assert Run(s, steps, filename, hidden, glob) == Run(s1, steps[1..], filename, hidden, glob)
                                                == Run(s2, steps[2..], filename, hidden, glob);
  }
}
