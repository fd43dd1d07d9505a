# ffind work-list model

`ffind` searches a directory tree for entries with a given file name. Its
core, in `main.go`, works like this:

- a goroutine acts as an unbounded FIFO work queue (`queue`);
- a pool of workers pop directories from it;
- each worker lists its directory with `filepath.Glob`;
- each entry is skipped when hidden (`filter`), sent to the results when
  its base name is the one searched for, and otherwise counted in a
  `sync.WaitGroup` and pushed back onto the queue (`readDir`);
- a closer goroutine closes the queue once the wait-group counter is zero
  (`perform`).

This project models that work-list logic in Dafny and proves its
bookkeeping. The main facts proved:

- the counter always equals the items buffered plus the items in flight;
- a zero counter means there is no work left, so closing the queue loses
  nothing;
- the queue hands out each item it accepted at most once, in push order,
  and all of them whenever its input is closed;
- each listed entry gets exactly one outcome, and results and children keep
  the listing order.

Modules, one per component:

- `Wrappers` (paths.dfy): an `Option` type.
- `Paths` (paths.dfy): Go's `filepath.Base` on Unix paths, and the filter
  `IsHidden`.
- `Expansion` (expansion.dfy): what one `readDir` call does, as pure
  functions. `Expand` gives an item's error, results and children.
  `ResultsOf` and `ChildrenOf` concatenate these over a run.
- `Queue` (queue.dfy): the class `WorkQueue`. Its fields are the arbiter
  goroutine's buffer and whether its input is still open. Each method is
  one turn of the arbiter loop: `Push`, `Pop`, `Close`. Ghost histories
  record what was pushed, delivered and dropped.
- `Traversal` (traversal.dfy): the class `Traversal` holds the wait-group
  counter, the results sent so far and the queue. Its methods are:
  - `ReadDir`: the entry loop, proved equal to `Expand`;
  - `Work`: `readDir` followed by `wg.Done()`;
  - `Closer`: the closer goroutine;
  - `Turn`: one worker turn.

  `Perform` seeds the root and runs the workers one whole item at a time.
  Its contract says:
  - the results are those of the items expanded;
  - the items were taken in breadth-first queue order;
  - a completed run expanded exactly the root and every child found.
- `Engine` (engine.dfy): the same workers, closer and arbiter as a
  transition system. The steps of different goroutines interleave freely,
  so several items can be in flight at once. `Inv` is the accounting
  invariant, and it holds in every reachable state. `SequentialTurn`
  states, field by field, the effect of one uninterrupted worker turn as a
  run of this system. That is the effect `Traversal.Turn`'s contract states
  for the class. The two are matched by comparing the contracts. No lemma
  maps a `Traversal` object to a `State`.

The directory lister is a parameter `glob: string -> Listing`. It is
applied to `root + "/*"` and gives either a list of entries or an error.
The filter is a parameter `hidden: string -> bool`, because `perform`
receives it as an argument (main.go:40, main.go:91).

Some behaviour of the code is easy to misread. The model follows the code:

- A directory whose base name equals the searched name is reported and not
  descended into. Entries are not split into leaves and directories.
- A non-matching regular file is enqueued too. Listing `file/*` then gives
  no entries.
- A worker whose `readDir` fails returns. The other workers keep going, and
  the error is discarded. Nothing cancels the run.
- Sending on the closed queue input would panic. It is proved never to
  happen.

## Model

| member | source | states |
|---|---|---|
| Paths.TrimTrailingSlashes | main.go:88 | the result is a prefix of the path that does not end in '/', and only slashes were removed |
| Paths.LastElement | main.go:88 | the result is the longest '/'-free suffix: all of the string, or what follows its last '/'; it is non-empty when the string does not end in '/' |
| Paths.Base | main.go:88 | filepath.Base is never empty; it is "/" exactly for a non-empty path made of slashes only, and otherwise it holds no '/' |
| Paths.LastElementOfJoin | main.go:88 | the last element of dir + "/" + name is name, for a non-empty name without '/' |
| Paths.BaseOfJoin | main.go:88 | Base recovers the entry name from a listed path dir + "/" + name |
| Paths.IsHidden | main.go:87-89 | `filter`: the base name of the path begins with '.'; on listed entries HiddenJoin states what that means, and DotIsHidden shows it holds for "." and ".." |
| Paths.HiddenJoin | main.go:87-89 | a listed entry passes the filter exactly when its own name begins with '.' |
| Paths.DotBase | main.go:88 | Base(".") and Base("./") are "." |
| Paths.DotDotBase | main.go:88 | Base("..") is ".." |
| Paths.DotIsHidden | main.go:87-89 | the filter holds for ".", ".." and "./", so it holds for the default root |
| Paths.HiddenEntryAgreesOnListedNames | main.go:87-89 | for every name a listing can give, the corrected filter agrees with the original one |
| Paths.DotIsNotHiddenEntry | main.go:36-38 | the corrected filter lets the roots ".", ".." and "./" through |
| Expansion.Pattern | main.go:99 | the Glob pattern of a directory: its path followed by "/*"; the lister is applied to exactly this pattern in Expand |
| Expansion.WrapGlobError | main.go:101 | the error is "in glob: " followed by the lister's error |
| Expansion.Classify | main.go:104-112 | the one outcome of an entry: skipped when filtered, sent to the results when its base name is filename, enqueued otherwise; SelectMembership and OutcomesPartition state what that means for a listing |
| Expansion.Expand | main.go:95-115 | readDir's whole effect on one item: its error, its results and its children; ExpandError, ExpandMembership, ExpandAccounting and FilteredRootIsNotListed state what it computes, and Traversal.ReadDir is proved to do exactly this |
| Expansion.Select | main.go:103-113 | the entries given one outcome are at most the entries listed |
| Expansion.SelectAppend | main.go:103-113 | the entries given one outcome, over a concatenation, are those of each part in order |
| Expansion.SelectSnoc | main.go:103-113 | handling one more entry of the listing adds that entry to the outcome it is classified as, and leaves the other outcomes as they were |
| Expansion.SelectMembership | main.go:104-112 | an entry gets an outcome exactly when it is listed and classified that way (hidden, matched, or neither) |
| Expansion.OutcomesPartition | main.go:103-113 | skipped + sent to results + enqueued = number of entries listed |
| Expansion.SelectIsSubsequence | main.go:103-113 | the entries given one outcome keep the listing order |
| Expansion.SkipHeadKeepsSubsequence | main.go:103-113 | a subsequence of the tail of a listing is a subsequence of the listing |
| Expansion.DropHeadKeepsSubsequence | main.go:103-113 | dropping the first element keeps a subsequence a subsequence |
| Expansion.FilteredRootIsNotListed | main.go:96-98 | a filtered directory gives no error, no results and no children, the same for every lister |
| Expansion.ExpandError | main.go:99-102 | there is an error exactly when the directory passes the filter and the lister fails; the error wraps the lister's error, with no results and no children |
| Expansion.ExpandMembership | main.go:103-113 | results are exactly the visible listed entries named filename; children are exactly the other visible listed entries; no entry is both |
| Expansion.ExpandAccounting | main.go:103-113 | results + children + hidden entries = listing size; results and children keep the listing order |
| Queue.WorkQueue.constructor | main.go:52-56 | a new queue has an empty buffer and an open input |
| Queue.WorkQueue.Push | main.go:72-76 | a send on the open input appends the item at the back of the buffer; a send on the closed input is refused and changes nothing |
| Queue.WorkQueue.Pop | main.go:57-78 | while the input is open, buff[0] is handed over and removed if the buffer is non-empty, and otherwise the receiver waits; once the input is closed, the output is closed |
| Queue.WorkQueue.Close | main.go:72-81 | closing the input ends the arbiter loop and drops whatever is still buffered |
| Traversal.Traversal.constructor | main.go:117-119 | seeding sets the counter to 1 and sends the root: the buffer is [root] |
| Traversal.Traversal.ReadDir | main.go:95-115 | the loop sends Expand's results to the results channel and sends Expand's children to the queue in order; it raises the counter once per child and returns Expand's error |
| Traversal.Traversal.Work | main.go:128-130 | readDir, then exactly one decrement, whether or not readDir failed; afterwards the counter equals the buffered items |
| Traversal.Traversal.Closer | main.go:121-124 | the queue is closed exactly when the counter is zero, and it then drops nothing |
| Traversal.Traversal.Turn | main.go:128-133 | a turn takes the front item and expands it; it keeps the accounting invariant and breadth-first order; it never has to wait on an empty, open queue |
| Traversal.FifoStep | main.go:76-78 | taking the front of the queue extends a queue-order run |
| Traversal.BookkeepingStep | main.go:128-130 | taking and expanding the front item keeps the queue history and the results equal to those of the items taken |
| Traversal.Workers | main.go:126 | the number of worker goroutines `for i := 0; i < concurrency` starts: concurrency when positive, none otherwise; Perform's Stranded clause is stated through it |
| Traversal.Perform | main.go:91-141 | the results are those of the items expanded; the items are in breadth-first queue order, a prefix of root + children; a completed run expanded root and all children exactly once; it is stranded exactly when every worker failed; with no workers nothing is expanded |
| Traversal.FifoStartsAtRoot | main.go:118-119 | the first item taken is the root |
| Traversal.ResultsStartWithFirst | main.go:128-129 | the results of a run begin with those of its first item |
| Traversal.FilteredRootFindsNothing | main.go:96-98 | a run whose root is itself filtered out takes at most the root, and sends no result and pushes no child |
| Traversal.DefaultRootFindsNothing | main.go:96-98 | as written, a run from the default root "." takes at most "." and sends no result and no child, whatever the lister gives |
| Traversal.DefaultRootIsListed | main.go:96-98 | with the corrected filter, a run from "." sends every visible entry of the root listing that is named filename to the results |
| Engine.InFlightAllIdle | main.go:126-127 | freshly started workers hold no item |
| Engine.InFlightUpdate | main.go:128-130 | changing one worker changes the in-flight count by what it held and what it now holds |
| Engine.BusyWitness | main.go:128-130 | a positive in-flight count has a worker holding an item |
| Engine.Init | main.go:117-126 | the state after wg.Add(1), the send of the root and the start of n idle workers; InitInv shows it satisfies the accounting invariant |
| Engine.Enabled | main.go:117-137 | when each goroutine step can happen: a receive needs an idle worker, an open input and a non-empty buffer; a finish needs a busy worker; the close needs a zero counter; a quit needs a closed input |
| Engine.Next | main.go:117-137 | the effect of one goroutine step: a receive moves the front item to a worker, a finish applies Expand and one wg.Done(), the close empties the input, a quit retires a worker; NextMonotone and NextPreservesInv state what it keeps |
| Engine.NextMonotone | main.go:117-137 | a step keeps the number of workers, only extends the push, delivery and result histories, never reopens the input, and lowers the counter by at most one |
| Engine.InitInv | main.go:117-119 | after wg.Add(1) and sending the root, the counter equals the buffered plus in-flight items |
| Engine.ReceivePreservesInv | main.go:77-78 | a worker taking the front item keeps the accounting invariant |
| Engine.FinishPreservesInv | main.go:129-130 | expanding an item and the single wg.Done() keep the accounting invariant |
| Engine.NextPreservesInv | main.go:117-137 | every goroutine step keeps the accounting invariant |
| Engine.BusyMeansOpen | main.go:111-112 | while a worker holds an item, the counter is at least 1 and the queue input is open, so its sends never go to a closed channel |
| Engine.ZeroMeansNoWork | main.go:121-123 | a zero counter means an empty buffer, an in-flight count of zero, and no worker holding an item |
| Engine.ZeroIsStable | main.go:121-123 | once the counter is zero, no step raises it again |
| Engine.CloseLosesNothing | main.go:121-124 | the closer fires only with an empty buffer and no item in flight, so it drops nothing |
| Engine.RunPreservesInv | main.go:126-137 | any interleaving of goroutine steps keeps the accounting invariant |
| Engine.Reachable | main.go:117-137 | in every reachable state the counter is buffered + in-flight and never negative; the queue handed out a prefix of what it accepted, in order; a closed input means no work remains |
| Engine.Quiescent | main.go:126-140 | when no goroutine can step, every worker has returned |
| Engine.SequentialTurn | main.go:126-133 | a whole worker turn is one of the interleavings, with the effect Traversal.Turn states |

## Left out

- Goroutines, `select` and `errgroup`. `Engine` lets goroutine steps
  interleave in any order, but an item's whole `readDir` is one step. The
  sends of two `readDir` loops running at once do not interleave entry by
  entry in the model.
- When a popper and the close of the input are both ready, `select` picks
  either. The model always takes the close at once. This makes no
  difference here, because the buffer is proved empty when the input closes.
- `filepath.Glob` and the filesystem. The lister is a parameter. Glob's
  sorted output, its path cleaning and its error cases are not modelled.
- `filepath.Base` is modelled for Unix paths with '/' as the only
  separator. Volume names do not exist there.
- Strings are sequences of characters. Go strings are bytes.
- `main` and `usage`: flag parsing, `os.Exit`, and buffered printing to
  stdout. The results channel is modelled as the sequence of everything
  sent on it.
- The unused `context` and the error that `g.Wait()` returns and
  `perform` discards (main.go:139). Closing the results channel
  (main.go:140) is not modelled either.
- A stranded run leaves items undelivered: once every worker has returned
  an error, the items still buffered are never popped, as in Go, where
  the queue goroutine keeps them until the process exits.
- Leftover goroutines after every worker has failed. `Perform` then stops
  as `Stranded`; the queue and closer goroutines that would leak are not
  modelled.
- The `sync.WaitGroup` counter is a 32-bit value in Go, and it panics if it
  goes negative or overflows. The model's counter is an unbounded `int`.
  It is proved never to go negative; overflow past 2^31 - 1 pending items
  is not modelled.
- Traversal.Perform: it stops after `fuel` items, because an abstract
  lister can describe an infinite tree. So it does not prove that the
  traversal of a finite tree terminates.
- Queue.WorkQueue.Push: a send on the closed input panics in Go. The model
  reports this as `accepted == false`, and no caller ever reaches it.

## Findings

| source | as written | input that shows it | evidently intended | confidence | as-written member | corrected member |
|---|---|---|---|---|---|---|
| main.go:96-98 | `readDir` returns at once when `filter(root)` holds. `filter(".")` holds because the base name of "." starts with a dot. With no start directory the root defaults to "." (main.go:36-38), so nothing is listed and nothing is found. | `ffind -name X` run with no start directory, on any tree | the filter skips hidden entries such as `.git`; "." and ".." as the root are still traversed | high (not executed) | Traversal.DefaultRootFindsNothing | Traversal.DefaultRootIsListed |

The corrected filter is `Paths.IsHiddenEntry`. It agrees with `IsHidden`
on every name a listing can give, and it lets "." and ".." through.
`Perform`, `ReadDir`, `Expand` and `Engine` take the filter as a
parameter, so all of them apply to the corrected filter unchanged.
