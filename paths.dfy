/** Small option type used for the error result of a directory expansion. */
module Wrappers {
  datatype Option<+T> = None | Some(value: T)
}

/**
 * Path helpers: the last element of a slash-separated path, as Go's
 * filepath.Base computes it on a Unix system, and the hidden-entry filter
 * built on it.
 */
module Paths {

  /** `s` with every trailing '/' removed. */
  function TrimTrailingSlashes(s: string): (r: string)
    ensures r <= s
    ensures r == [] || r[|r| - 1] != '/'
    ensures forall i :: |r| <= i < |s| ==> s[i] == '/'
  {
    if s != [] && s[|s| - 1] == '/' then TrimTrailingSlashes(s[..|s| - 1]) else s
  }

  /**
   * The longest suffix of `s` without a '/': either all of `s`, or what
   * follows its last '/'.
   */
  function LastElement(s: string): (e: string)
    ensures |e| <= |s| && e == s[|s| - |e|..]
    ensures '/' !in e
    ensures |e| == |s| || s[|s| - |e| - 1] == '/'
    ensures s != [] && s[|s| - 1] != '/' ==> e != []
  {
    if s == [] || s[|s| - 1] == '/' then []
    else LastElement(s[..|s| - 1]) + [s[|s| - 1]]
  }

  /**
   * filepath.Base: "" gives ".", trailing slashes are ignored, a path of
   * slashes only gives "/", otherwise the element after the last '/'.
   */
  function Base(path: string): (b: string)
    ensures b != []
    ensures b == "/" || '/' !in b
    ensures b == "/" <==> path != [] && TrimTrailingSlashes(path) == []
    ensures path == [] ==> b == "."
  {
    if path == [] then "."
    else
      var trimmed := TrimTrailingSlashes(path);
      if trimmed == [] then "/" else LastElement(trimmed)
  }

  /** The filter of the traversal: the last path element begins with a dot. */
  predicate IsHidden(path: string)
  {
    "." <= Base(path)
  }

  /** What the lister yields for an entry `name` of directory `dir`. */
  function Join(dir: string, name: string): (p: string)
  {
    dir + "/" + name
  }

  /** The only suffix of a path that ends in a '/'-free, non-empty `name` after a '/'. */
  lemma {:induction false} LastElementOfJoin(dir: string, name: string)
    requires name != [] && '/' !in name
    ensures LastElement(Join(dir, name)) == name
  {
    var p := Join(dir, name);
    var e := LastElement(p);
    assert p[|p| - |name| - 1] == '/';
    assert p[|p| - |name|..] == name;
    assert |e| <= |name|;
    assert |e| >= |name|;
  }

  /** Base recovers the entry name from a joined path. */
  lemma BaseOfJoin(dir: string, name: string)
    requires name != [] && '/' !in name
    ensures Base(Join(dir, name)) == name
  {
    var p := Join(dir, name);
    assert p[|p| - 1] == name[|name| - 1];
    assert TrimTrailingSlashes(p) == p;
    LastElementOfJoin(dir, name);
  }

  /** A listed entry is hidden exactly when its own name begins with a dot. */
  lemma HiddenJoin(dir: string, name: string)
    requires name != [] && '/' !in name
    ensures IsHidden(Join(dir, name)) <==> name[0] == '.'
  {
    BaseOfJoin(dir, name);
  }

  lemma DotBase()
    ensures Base(".") == "." && Base("./") == "."
  {
    var dot: string := ".";
    assert dot[..0] == [];
    assert LastElement(dot) == LastElement([]) + ['.'];
    var dotSlash: string := "./";
    assert dotSlash[..1] == dot;
    assert TrimTrailingSlashes(dotSlash) == TrimTrailingSlashes(dot) == dot;
  }

  lemma DotDotBase()
    ensures Base("..") == ".."
  {
    var dot: string := ".";
    var dotDot: string := "..";
    assert dotDot[..1] == dot;
    assert dot[..0] == [];
    assert LastElement(dot) == ['.'];
    assert LastElement(dotDot) == LastElement(dot) + ['.'];
  }

  /** The default root "." and the parent ".." are themselves hidden. */
  lemma DotIsHidden()
    ensures IsHidden(".") && IsHidden("..") && IsHidden("./")
  {
    DotBase();
    DotDotBase();
  }

  /**
   * The filter the default root calls for: a dotted last element, other
   * than the names "." and ".." that stand for the current and the parent
   * directory and that no directory listing yields.
   */
  predicate IsHiddenEntry(path: string)
  {
    IsHidden(path) && Base(path) != "." && Base(path) != ".."
  }

  /** On every name a listing can yield, the corrected filter agrees with IsHidden. */
  lemma HiddenEntryAgreesOnListedNames(dir: string, name: string)
    requires name != [] && '/' !in name && name != "." && name != ".."
    ensures IsHiddenEntry(Join(dir, name)) <==> IsHidden(Join(dir, name))
    ensures IsHiddenEntry(Join(dir, name)) <==> name[0] == '.'
  {
    BaseOfJoin(dir, name);
  }

  /** The corrected filter lets "." and ".." through as roots. */
  lemma DotIsNotHiddenEntry()
    ensures !IsHiddenEntry(".") && !IsHiddenEntry("..") && !IsHiddenEntry("./")
  {
    DotBase();
    DotDotBase();
  }
}
