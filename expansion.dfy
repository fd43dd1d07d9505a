/**
 * What one call of readDir does with one work item, as values: which listed
 * entries it sends to the results, which it enqueues, and the error it
 * returns. The imperative loop that does this step by step is
 * Traversal.Traversal.ReadDir; this module is its specification.
 */
module Expansion {
  import opened Wrappers
  import opened Paths

  /** What the directory lister (filepath.Glob) gives for a pattern. */
  datatype Listing = Listed(entries: seq<string>) | GlobFailed(cause: string)

  /** The one outcome each listed entry gets. */
  datatype Outcome = Skipped | Emitted | Enqueued

  /** The result of expanding one work item. */
  datatype Expansion = Expansion(err: Option<string>, results: seq<string>, children: seq<string>)

  /** The pattern readDir hands to the lister for directory `root`. */
  function Pattern(root: string): (p: string)
  {
    root + "/*"
  }

  /** The error readDir returns when the lister fails with `cause`. */
  function WrapGlobError(cause: string): (msg: string)
    ensures |msg| == 9 + |cause| && msg[..9] == "in glob: " && msg[9..] == cause
  {
    "in glob: " + cause
  }

  function Classify(entry: string, filename: string, hidden: string -> bool): (o: Outcome)
  {
    if hidden(entry) then Skipped
    else if Base(entry) == filename then Emitted
    else Enqueued
  }

  /** The entries that get outcome `kind`, in listing order. */
  function Select(entries: seq<string>, filename: string, hidden: string -> bool, kind: Outcome): (r: seq<string>)
    ensures |r| <= |entries|
  {
    if entries == [] then []
    else if Classify(entries[0], filename, hidden) == kind then [entries[0]] + Select(entries[1..], filename, hidden, kind)
    else Select(entries[1..], filename, hidden, kind)
  }

  /** The expansion of work item `root`: readDir's whole effect. */
  function Expand(root: string, filename: string, hidden: string -> bool, glob: string -> Listing): (x: Expansion)
  {
    if hidden(root) then Expansion(None, [], [])
    else
      match glob(Pattern(root))
      case GlobFailed(cause) => Expansion(Some(WrapGlobError(cause)), [], [])
      case Listed(entries) =>
        Expansion(None, Select(entries, filename, hidden, Emitted), Select(entries, filename, hidden, Enqueued))
  }

  /** Selecting from a concatenation selects from each part, keeping listing order. */
  lemma {:induction false} SelectAppend(a: seq<string>, b: seq<string>, filename: string, hidden: string -> bool, kind: Outcome)
    ensures Select(a + b, filename, hidden, kind) == Select(a, filename, hidden, kind) + Select(b, filename, hidden, kind)
  {
    if a == [] {
      assert a + b == b;
    } else {
      assert (a + b)[0] == a[0];
      assert (a + b)[1..] == a[1..] + b;
      SelectAppend(a[1..], b, filename, hidden, kind);
    }
  }

  lemma AppendAssoc(a: seq<string>, b: seq<string>, c: seq<string>)
    ensures (a + b) + c == a + (b + c)
  {
  }

  /** Extending a prefix of the listing by one entry extends the selection by that entry's outcome. */
  lemma SelectSnoc(entries: seq<string>, i: nat, filename: string, hidden: string -> bool, kind: Outcome)
    requires i < |entries|
    ensures Classify(entries[i], filename, hidden) == kind ==>
              Select(entries[..i + 1], filename, hidden, kind) == Select(entries[..i], filename, hidden, kind) + [entries[i]]
    ensures Classify(entries[i], filename, hidden) != kind ==>
              Select(entries[..i + 1], filename, hidden, kind) == Select(entries[..i], filename, hidden, kind)
  {
    var e := entries[i];
    assert entries[..i + 1] == entries[..i] + [e];
    SelectAppend(entries[..i], [e], filename, hidden, kind);
    assert [e][1..] == [];
  }

  /** An entry is selected for `kind` exactly when it is listed and classified `kind`. */
  lemma {:induction false} SelectMembership(entries: seq<string>, filename: string, hidden: string -> bool, kind: Outcome, x: string)
    ensures x in Select(entries, filename, hidden, kind) <==> x in entries && Classify(x, filename, hidden) == kind
  {
    if entries != [] {
      SelectMembership(entries[1..], filename, hidden, kind, x);
      assert x in entries <==> x == entries[0] || x in entries[1..];
    }
  }

  /** Every listed entry gets exactly one of the three outcomes. */
  lemma {:induction false} OutcomesPartition(entries: seq<string>, filename: string, hidden: string -> bool)
    ensures |Select(entries, filename, hidden, Skipped)| + |Select(entries, filename, hidden, Emitted)|
            + |Select(entries, filename, hidden, Enqueued)| == |entries|
  {
    if entries != [] {
      OutcomesPartition(entries[1..], filename, hidden);
    }
  }

  /** `a` is `b` with some elements left out, the rest kept in order. */
  predicate IsSubsequence(a: seq<string>, b: seq<string>)
  {
    if a == [] then true
    else if b == [] then false
    else if a[0] == b[0] then IsSubsequence(a[1..], b[1..])
    else IsSubsequence(a, b[1..])
  }

  /** What is selected stays in listing order. */
  lemma {:induction false} SelectIsSubsequence(entries: seq<string>, filename: string, hidden: string -> bool, kind: Outcome)
    ensures IsSubsequence(Select(entries, filename, hidden, kind), entries)
  {
    if entries != [] {
      var rest := Select(entries[1..], filename, hidden, kind);
      SelectIsSubsequence(entries[1..], filename, hidden, kind);
      if Classify(entries[0], filename, hidden) == kind {
        assert Select(entries, filename, hidden, kind) == [entries[0]] + rest;
        assert ([entries[0]] + rest)[1..] == rest;
      } else {
        assert Select(entries, filename, hidden, kind) == rest;
        SkipHeadKeepsSubsequence(rest, entries);
      }
    }
  }

  lemma {:induction false} SkipHeadKeepsSubsequence(a: seq<string>, b: seq<string>)
    requires b != [] && IsSubsequence(a, b[1..])
    ensures IsSubsequence(a, b)
  {
    if a != [] && a[0] == b[0] {
      // `a` is also a subsequence of b[1..] with its head dropped.
      DropHeadKeepsSubsequence(a, b[1..]);
    }
  }

  lemma {:induction false} DropHeadKeepsSubsequence(a: seq<string>, b: seq<string>)
    requires a != [] && IsSubsequence(a, b)
    ensures IsSubsequence(a[1..], b)
  {
    if b != [] {
      if a[0] == b[0] {
        if a[1..] != [] {
          DropHeadKeepsSubsequence(a[1..], b[1..]);
          SkipHeadKeepsSubsequence(a[1..], b);
        }
      } else {
        DropHeadKeepsSubsequence(a, b[1..]);
        if a[1..] != [] {
          SkipHeadKeepsSubsequence(a[1..], b);
        }
      }
    }
  }

  /** A filtered work item is not listed: no error, no results, no children, whatever the lister. */
  lemma FilteredRootIsNotListed(root: string, filename: string, hidden: string -> bool, glob: string -> Listing, glob': string -> Listing)
    requires hidden(root)
    ensures Expand(root, filename, hidden, glob) == Expand(root, filename, hidden, glob')
    ensures Expand(root, filename, hidden, glob) == Expansion(None, [], [])
  {
  }

  /**
   * An error happens exactly when the root passes the filter and the lister
   * fails; it wraps the lister's error and comes with no results and no
   * children.
   */
  lemma ExpandError(root: string, filename: string, hidden: string -> bool, glob: string -> Listing)
    ensures var x := Expand(root, filename, hidden, glob);
            x.err.Some? <==> !hidden(root) && glob(Pattern(root)).GlobFailed?
    ensures var x := Expand(root, filename, hidden, glob);
            x.err.Some? ==> x.results == [] && x.children == []
                            && x.err.value[..9] == "in glob: " && x.err.value[9..] == glob(Pattern(root)).cause
  {
  }

  /**
   * The children are exactly the listed entries that pass the filter and are
   * not named `filename`; the results exactly those that pass the filter and
   * are named `filename`; no entry is both.
   */
  lemma ExpandMembership(root: string, filename: string, hidden: string -> bool, glob: string -> Listing, e: string)
    requires !hidden(root) && glob(Pattern(root)).Listed?
    ensures var x := Expand(root, filename, hidden, glob);
            var entries := glob(Pattern(root)).entries;
            && (e in x.results <==> e in entries && !hidden(e) && Base(e) == filename)
            && (e in x.children <==> e in entries && !hidden(e) && Base(e) != filename)
            && !(e in x.results && e in x.children)
  {
    var entries := glob(Pattern(root)).entries;
    SelectMembership(entries, filename, hidden, Emitted, e);
    SelectMembership(entries, filename, hidden, Enqueued, e);
  }

  /**
   * Counts: results plus children plus hidden entries make up the listing,
   * and results and children keep the listing order.
   */
  lemma ExpandAccounting(root: string, filename: string, hidden: string -> bool, glob: string -> Listing)
    requires !hidden(root) && glob(Pattern(root)).Listed?
    ensures var x := Expand(root, filename, hidden, glob);
            var entries := glob(Pattern(root)).entries;
            && |x.results| + |x.children| + |Select(entries, filename, hidden, Skipped)| == |entries|
            && IsSubsequence(x.results, entries)
            && IsSubsequence(x.children, entries)
  {
    var entries := glob(Pattern(root)).entries;
    OutcomesPartition(entries, filename, hidden);
    SelectIsSubsequence(entries, filename, hidden, Emitted);
    SelectIsSubsequence(entries, filename, hidden, Enqueued);
  }

  /** The results of expanding `items` in turn, concatenated. */
  function ResultsOf(items: seq<string>, filename: string, hidden: string -> bool, glob: string -> Listing): (r: seq<string>)
  {
    if items == [] then []
    else ResultsOf(items[..|items| - 1], filename, hidden, glob) + Expand(items[|items| - 1], filename, hidden, glob).results
  }

  /** The children found by expanding `items` in turn, concatenated in push order. */
  function ChildrenOf(items: seq<string>, filename: string, hidden: string -> bool, glob: string -> Listing): (c: seq<string>)
  {
    if items == [] then []
    else ChildrenOf(items[..|items| - 1], filename, hidden, glob) + Expand(items[|items| - 1], filename, hidden, glob).children
  }
}
