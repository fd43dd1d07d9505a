/**
 * perform: the wait-group counter, the work queue, the closer that closes the
 * queue's input once the counter is zero, and the workers that drain the
 * queue, with the workers taking whole work items one after another.
 */
module Traversal {
  import opened Wrappers
  import opened Paths
  import opened Expansion
  import opened Queue

  /** How a run of the workers ended. */
  datatype RunOutcome =
    | Completed   // a worker found the queue's output closed: all work was drained
    | Stranded    // every worker returned an error (or there were none)
    | OutOfFuel   // the step bound of the model was reached

  /** The number of worker goroutines started for a `concurrency` setting. */
  function Workers(concurrency: int): (n: nat)
  {
    if concurrency > 0 then concurrency else 0
  }

  /** How many of `items` have an expansion that returns an error. */
  function Failures(items: seq<string>, filename: string, hidden: string -> bool, glob: string -> Listing): (n: nat)
  {
    if items == [] then 0
    else
      Failures(items[..|items| - 1], filename, hidden, glob)
      + (if Expand(items[|items| - 1], filename, hidden, glob).err.Some? then 1 else 0)
  }

  /**
   * `items` were taken in queue order from a queue seeded with `root` and fed
   * with the children of the items taken before: each item was already in
   * the queue when it was taken, and it was the next one in push order.
   */
  predicate IsFifoOrder(root: string, items: seq<string>, filename: string, hidden: string -> bool, glob: string -> Listing)
  {
    if items == [] then true
    else
      var before := items[..|items| - 1];
      var pushed := [root] + ChildrenOf(before, filename, hidden, glob);
      && IsFifoOrder(root, before, filename, hidden, glob)
      && |before| < |pushed|
      && items[|items| - 1] == pushed[|before|]
  }

  /**
   * The queue and the results after taking `taken`: the queue received the
   * root and then the children of the items taken, and the items were taken
   * in queue order; the results are those of the items taken.
   */
  ghost predicate Bookkeeping(root: string, taken: seq<string>, pushed: seq<string>, results: seq<string>,
                              filename: string, hidden: string -> bool, glob: string -> Listing)
  {
    && pushed == [root] + ChildrenOf(taken, filename, hidden, glob)
    && results == ResultsOf(taken, filename, hidden, glob)
    && IsFifoOrder(root, taken, filename, hidden, glob)
  }

  /** Taking the front of the queue extends a queue-order run by one item. */
  lemma FifoStep(root: string, items: seq<string>, waiting: seq<string>, filename: string, hidden: string -> bool, glob: string -> Listing)
    requires IsFifoOrder(root, items, filename, hidden, glob)
    requires [root] + ChildrenOf(items, filename, hidden, glob) == items + waiting
    requires waiting != []
    ensures IsFifoOrder(root, items + [waiting[0]], filename, hidden, glob)
  {
    var next := items + [waiting[0]];
    assert next[..|items|] == items;
    assert (items + waiting)[|items|] == waiting[0];
  }

  /** Taking and expanding the front item of the queue keeps the bookkeeping. */
  lemma BookkeepingStep(root: string, taken: seq<string>, waiting: seq<string>, results: seq<string>,
                        filename: string, hidden: string -> bool, glob: string -> Listing)
    requires Bookkeeping(root, taken, taken + waiting, results, filename, hidden, glob)
    requires waiting != []
    ensures var x := Expand(waiting[0], filename, hidden, glob);
            Bookkeeping(root, taken + [waiting[0]], taken + waiting + x.children, results + x.results,
                        filename, hidden, glob)
  {
    FifoStep(root, taken, waiting, filename, hidden, glob);
    SnocUnfolds(taken, waiting[0], filename, hidden, glob);
    var x := Expand(waiting[0], filename, hidden, glob);
    AppendAssoc([root], ChildrenOf(taken, filename, hidden, glob), x.children);
  }

  /** Expanding one more item appends its results and children and counts its failure. */
  lemma SnocUnfolds(items: seq<string>, x: string, filename: string, hidden: string -> bool, glob: string -> Listing)
    ensures var e := Expand(x, filename, hidden, glob);
            && ResultsOf(items + [x], filename, hidden, glob) == ResultsOf(items, filename, hidden, glob) + e.results
            && ChildrenOf(items + [x], filename, hidden, glob) == ChildrenOf(items, filename, hidden, glob) + e.children
            && Failures(items + [x], filename, hidden, glob)
               == Failures(items, filename, hidden, glob) + (if e.err.Some? then 1 else 0)
  {
    assert (items + [x])[..|items|] == items;
  }

  class Traversal {
    const root: string
    const filename: string
    const hidden: string -> bool
    const glob: string -> Listing
    const queue: WorkQueue
    /** The sync.WaitGroup counter: work items accepted and not yet accounted for. */
    var count: int
    /** Everything sent on the results channel, in order. */
    var results: seq<string>
    /** The work items taken from the queue so far, in the order they were taken. */
    ghost var taken: seq<string>

    /**
     * The accounting invariant with `inFlight` items popped and not yet done:
     * the counter is the number of buffered items plus the items in flight,
     * and the queue input is open exactly while the counter is positive.
     */
    ghost predicate Accounted(inFlight: nat)
      reads this, queue
    {
      && queue.Valid()
      && count == |queue.buff| + inFlight
      && (queue.open <==> count > 0)
    }

    /**
     * Between worker turns: the accounting invariant holds, the queue has
     * received the root and the children of every item taken, in that order,
     * has handed out exactly the items taken and dropped nothing, and the
     * results are those of the items taken.
     */
    ghost predicate Consistent()
      reads this, queue
    {
      && Accounted(0)
      && queue.delivered == taken
      && queue.dropped == []
      && Bookkeeping(root, taken, queue.pushed, results, filename, hidden, glob)
    }

    /** Seeding: wg.Add(1), then the root is sent to the queue. */
    constructor (root: string, filename: string, hidden: string -> bool, glob: string -> Listing)
      ensures this.root == root && this.filename == filename && this.hidden == hidden && this.glob == glob
      ensures fresh(queue) && Consistent() && queue.open
      ensures count == 1 && queue.buff == [root] && results == [] && taken == []
    {
      this.root := root;
      this.filename := filename;
      this.hidden := hidden;
      this.glob := glob;
      count := 1;
      results := [];
      taken := [];
      var q := new WorkQueue();
      queue := q;
      new;
      var accepted := q.Push(root);
    }

    /**
     * readDir on one directory: a filtered directory is left alone; a lister
     * failure is returned wrapped; otherwise each entry is skipped when
     * hidden, sent to the results when its base name is `filename`, and
     * otherwise counted (wg.Add(1)) and then sent to the queue.
     */
    method ReadDir(dir: string) returns (err: Option<string>)
      requires queue.Valid() && queue.open
      modifies this, queue
      ensures var x := Expand(dir, filename, hidden, glob);
              && err == x.err
              && results == old(results) + x.results
              && count == old(count) + |x.children|
              && queue.buff == old(queue.buff) + x.children
              && queue.pushed == old(queue.pushed) + x.children
      ensures queue.Valid() && queue.open
      ensures queue.delivered == old(queue.delivered) && queue.dropped == old(queue.dropped)
      ensures taken == old(taken)
    {
      if hidden(dir) {
        return None;
      }
      var listing := glob(Pattern(dir));
      if listing.GlobFailed? {
        return Some(WrapGlobError(listing.cause));
      }
      var entries := listing.entries;
      ghost var results0, buff0, pushed0 := results, queue.buff, queue.pushed;
      for i := 0 to |entries|
        invariant queue.Valid() && queue.open
        invariant results == results0 + Select(entries[..i], filename, hidden, Emitted)
        invariant queue.buff == buff0 + Select(entries[..i], filename, hidden, Enqueued)
        invariant queue.pushed == pushed0 + Select(entries[..i], filename, hidden, Enqueued)
        invariant count == old(count) + |Select(entries[..i], filename, hidden, Enqueued)|
        invariant queue.delivered == old(queue.delivered) && queue.dropped == old(queue.dropped)
        invariant taken == old(taken)
      {
        var entry := entries[i];
        SelectSnoc(entries, i, filename, hidden, Emitted);
        SelectSnoc(entries, i, filename, hidden, Enqueued);
        if hidden(entry) {
          assert Classify(entry, filename, hidden) == Skipped;
        } else if Base(entry) == filename {
          assert Classify(entry, filename, hidden) == Emitted;
          AppendAssoc(results0, Select(entries[..i], filename, hidden, Emitted), [entry]);
          results := results + [entry];
        } else {
          assert Classify(entry, filename, hidden) == Enqueued;
          AppendAssoc(buff0, Select(entries[..i], filename, hidden, Enqueued), [entry]);
          AppendAssoc(pushed0, Select(entries[..i], filename, hidden, Enqueued), [entry]);
          count := count + 1;
          var accepted := queue.Push(entry);
        }
      }
      assert entries[..|entries|] == entries;
      return None;
    }

    /** One worker turn on a popped item: readDir, then wg.Done(). */
    method Work(dir: string) returns (err: Option<string>)
      requires Accounted(1)
      modifies this, queue
      ensures var x := Expand(dir, filename, hidden, glob);
              && err == x.err
              && results == old(results) + x.results
              && count == old(count) + |x.children| - 1
              && queue.buff == old(queue.buff) + x.children
              && queue.pushed == old(queue.pushed) + x.children
      ensures queue.Valid() && queue.open && count == |queue.buff|
      ensures queue.delivered == old(queue.delivered) && queue.dropped == old(queue.dropped)
      ensures taken == old(taken)
    {
      err := ReadDir(dir);
      count := count - 1;
    }

    /**
     * The closer goroutine: once the counter is zero (wg.Wait returns) it
     * closes the queue's input; `lost` is what the queue still held then.
     */
    method Closer() returns (lost: seq<string>)
      requires queue.Valid() && queue.open && count == |queue.buff|
      modifies queue
      ensures Accounted(0)
      ensures lost == []
      ensures queue.buff == old(queue.buff) && queue.pushed == old(queue.pushed)
      ensures queue.delivered == old(queue.delivered) && queue.dropped == old(queue.dropped)
    {
      lost := [];
      if count == 0 {
        lost := queue.Close();
      }
    }

    /**
     * One worker's turn: receive from the queue; on an item, expand it, call
     * wg.Done() and let the closer run. Under the accounting invariant the
     * receive never has to wait.
     */
    method Turn() returns (r: Received, err: Option<string>)
      requires Consistent()
      modifies this, queue
      ensures Consistent()
      ensures !old(queue.open) ==> r == Exhausted && err == None && taken == old(taken)
      ensures old(queue.open) ==>
                && r == Item(old(queue.buff)[0])
                && err == Expand(r.value, filename, hidden, glob).err
                && taken == old(taken) + [r.value]
    {
      err := None;
      ghost var waiting := queue.buff;
      assert queue.pushed == taken + waiting;
      r := queue.Pop();
      if r.Item? {
        BookkeepingStep(root, taken, waiting, results, filename, hidden, glob);
        ghost var next := taken + [r.value];
        err := Work(r.value);
        var lost := Closer();
        taken := next;
      }
    }
  }

  /**
   * perform, with the workers taking whole items in turn: seed the root, and
   * until every worker has returned, let a worker pop an item, expand it,
   * call wg.Done(), and let the closer run. A worker whose readDir fails
   * returns. The traversal ends when a worker finds the queue closed.
   */
  method Perform(root: string, filename: string, concurrency: int, hidden: string -> bool,
                 glob: string -> Listing, fuel: nat)
    returns (results: seq<string>, expanded: seq<string>, outcome: RunOutcome)
    ensures results == ResultsOf(expanded, filename, hidden, glob)
    ensures IsFifoOrder(root, expanded, filename, hidden, glob)
    ensures expanded <= [root] + ChildrenOf(expanded, filename, hidden, glob)
    ensures outcome == Completed ==> expanded == [root] + ChildrenOf(expanded, filename, hidden, glob)
    ensures outcome == Stranded <==> Failures(expanded, filename, hidden, glob) == Workers(concurrency)
    ensures Failures(expanded, filename, hidden, glob) <= Workers(concurrency)
    ensures outcome == OutOfFuel ==> |expanded| == fuel
    ensures |expanded| <= fuel
    ensures concurrency <= 0 ==> outcome == Stranded && expanded == [] && results == []
  {
    var t := new Traversal(root, filename, hidden, glob);
    var live := Workers(concurrency);
    expanded := [];
    outcome := OutOfFuel;
    while live > 0 && |expanded| < fuel
      invariant t.Consistent()
      invariant t.root == root && t.filename == filename && t.hidden == hidden && t.glob == glob
      invariant expanded == t.taken
      invariant live == Workers(concurrency) - Failures(expanded, filename, hidden, glob)
      invariant |expanded| <= fuel
      invariant outcome == OutOfFuel
      invariant concurrency <= 0 ==> expanded == []
      decreases fuel - |expanded|
    {
      var r, err := t.Turn();
      if r.Exhausted? {
        outcome := Completed;
        break;
      }
      SnocUnfolds(expanded, r.value, filename, hidden, glob);
      expanded := expanded + [r.value];
      if err.Some? {
        live := live - 1;
      }
    }
    if outcome != Completed && live == 0 {
      outcome := Stranded;
    }
    results := t.results;
  }

  /** A queue-order run starts with the root. */
  lemma {:induction false} FifoStartsAtRoot(root: string, items: seq<string>, filename: string, hidden: string -> bool, glob: string -> Listing)
    requires IsFifoOrder(root, items, filename, hidden, glob) && items != []
    ensures items[0] == root
  {
    var before := items[..|items| - 1];
    if before != [] {
      FifoStartsAtRoot(root, before, filename, hidden, glob);
      assert items[0] == before[0];
    }
  }

  /** The results of a run begin with those of its first item. */
  lemma {:induction false} ResultsStartWithFirst(items: seq<string>, filename: string, hidden: string -> bool, glob: string -> Listing)
    requires items != []
    ensures Expand(items[0], filename, hidden, glob).results <= ResultsOf(items, filename, hidden, glob)
  {
    var before := items[..|items| - 1];
    if before != [] {
      ResultsStartWithFirst(before, filename, hidden, glob);
      assert items[0] == before[0];
    }
  }

  /**
   * A run whose root is itself filtered takes at most the root, and that
   * item lists nothing: no result is sent and no child is pushed.
   */
  lemma {:induction false} FilteredRootFindsNothing(root: string, filename: string, hidden: string -> bool,
                                                    glob: string -> Listing, items: seq<string>)
    requires hidden(root) && IsFifoOrder(root, items, filename, hidden, glob)
    ensures items == [] || items == [root]
    ensures ResultsOf(items, filename, hidden, glob) == []
    ensures ChildrenOf(items, filename, hidden, glob) == []
  {
    if items != [] {
      var before := items[..|items| - 1];
      FilteredRootFindsNothing(root, filename, hidden, glob, before);
      assert before == [];
      assert |items| == 1 && items[0] == root;
      assert Expand(root, filename, hidden, glob) == Expansion(None, [], []);
    }
  }

  /**
   * As written: started from the default root ".", the filter stops the
   * root itself, so at most the root is taken, nothing is listed and no
   * result is sent, whatever the directory holds.
   */
  lemma DefaultRootFindsNothing(filename: string, glob: string -> Listing, items: seq<string>)
    requires IsFifoOrder(".", items, filename, IsHidden, glob)
    ensures items == [] || items == ["."]
    ensures ResultsOf(items, filename, IsHidden, glob) == []
    ensures ChildrenOf(items, filename, IsHidden, glob) == []
  {
    DotIsHidden();
    FilteredRootFindsNothing(".", filename, IsHidden, glob, items);
  }

  /**
   * Corrected: with the filter that lets "." through, a run from the default
   * root that has taken at least the root has sent every visible entry of
   * the root listing named `filename` to the results.
   */
  lemma DefaultRootIsListed(filename: string, glob: string -> Listing, items: seq<string>, e: string)
    requires IsFifoOrder(".", items, filename, IsHiddenEntry, glob) && items != []
    requires glob(Pattern(".")).Listed?
    requires e in glob(Pattern(".")).entries && !IsHiddenEntry(e) && Base(e) == filename
    ensures e in ResultsOf(items, filename, IsHiddenEntry, glob)
  {
    DotIsNotHiddenEntry();
    FifoStartsAtRoot(".", items, filename, IsHiddenEntry, glob);
    ResultsStartWithFirst(items, filename, IsHiddenEntry, glob);
    ExpandMembership(".", filename, IsHiddenEntry, glob, e);
  }
}
