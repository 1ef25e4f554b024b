/** Go's `path.Join` for a rooted first element, the form the Vault issuer
    uses to build the signing URL. Joining and cleaning are lexical: empty
    and "." elements vanish, ".." removes the element before it and cannot
    climb above the root, and the result has no trailing slash. */
module Paths {
  import Strings

  /** A path element that survives cleaning unchanged. */
  predicate SimpleElement(e: string) {
    e != "" && e != "." && e != ".." && '/' !in e
  }

  predicate AllSimple(es: seq<string>) {
    forall k :: 0 <= k < |es| ==> SimpleElement(es[k])
  }

  predicate NoSlash(es: seq<string>) {
    forall k :: 0 <= k < |es| ==> '/' !in es[k]
  }

  /** Processes the elements left to right over the stack of kept ones. */
  function Resolve(kept: seq<string>, rest: seq<string>): (r: seq<string>)
    requires AllSimple(kept) && NoSlash(rest)
    ensures AllSimple(r)
    decreases |rest|
  {
    if rest == [] then kept
    else
      var e := rest[0];
      if e == "" || e == "." then Resolve(kept, rest[1..])
      else if e == ".." then Resolve(if kept == [] then [] else kept[..|kept| - 1], rest[1..])
      else Resolve(kept + [e], rest[1..])
  }

  /** Simple elements are all kept, in order, whatever follows them. */
  lemma {:induction false} ResolveSimple(kept: seq<string>, es: seq<string>, tail: seq<string>)
    requires AllSimple(kept) && AllSimple(es) && NoSlash(tail)
    ensures NoSlash(es + tail)
    ensures Resolve(kept, es + tail) == Resolve(kept + es, tail)
    decreases |es|
  {
    assert forall k :: 0 <= k < |es + tail| ==> (es + tail)[k] == if k < |es| then es[k] else tail[k - |es|];
    if es != [] {
      assert SimpleElement(es[0]);
      assert (es + tail)[1..] == es[1..] + tail;
      ResolveSimple(kept + [es[0]], es[1..], tail);
      assert kept + [es[0]] + es[1..] == kept + es;
    } else {
      assert es + tail == tail && kept + es == kept;
    }
  }

  /** The elements of a rooted path after cleaning. */
  function CleanElements(p: string): (es: seq<string>)
    ensures AllSimple(es)
  {
    Resolve([], Strings.Split(p, '/'))
  }

  /** Go's `path.Clean` on a rooted path. */
  function CleanRooted(p: string): (r: string)
    requires p != [] && p[0] == '/'
    ensures r != [] && r[0] == '/'
    ensures r == "/" || r[|r| - 1] != '/'
  {
    var es := CleanElements(p);
    if es == [] then "/"
    else
      assert SimpleElement(es[|es| - 1]);
      JoinEndsWith(es, "/");
      "/" + Strings.Join(es, "/")
  }

  lemma {:induction false} JoinEndsWith(es: seq<string>, sep: string)
    requires |es| > 0 && es[|es| - 1] != ""
    ensures var r := Strings.Join(es, sep); |r| > 0 && r[|r| - 1] == es[|es| - 1][|es[|es| - 1]| - 1]
  {
    if |es| > 1 {
      JoinEndsWith(es[1..], sep);
    }
  }

  /** Go's `path.Join(dir, elem)` where `dir` is rooted. */
  function JoinRooted(dir: string, elem: string): (r: string)
    requires dir != [] && dir[0] == '/'
    ensures r != [] && r[0] == '/'
  {
    CleanRooted(dir + "/" + elem)
  }

  /** Splitting a joined list of simple elements that starts with the root
      (and possibly ends with a trailing slash) and resolving it gives the
      elements back. */
  lemma JoinedElements(es: seq<string>, tail: seq<string>)
    requires AllSimple(es) && (tail == [] || tail == [""])
    ensures CleanElements(Strings.Join([""] + es + tail, "/")) == es
  {
    var xs := [""] + es + tail;
    assert NoSlash(xs) by {
      forall k | 0 <= k < |xs| ensures '/' !in xs[k] {
        if 0 < k <= |es| { assert xs[k] == es[k - 1]; }
      }
    }
    Strings.SplitJoin(xs, '/');
    assert Strings.Split(Strings.Join(xs, "/"), '/') == xs;
    ResolveRooted(es, tail);
  }

  /** The elements after the root are the simple ones. */
  lemma ResolveRooted(es: seq<string>, tail: seq<string>)
    requires AllSimple(es) && (tail == [] || tail == [""])
    ensures NoSlash([""] + es + tail)
    ensures Resolve([], [""] + es + tail) == es
  {
    var xs := [""] + es + tail;
    assert NoSlash(xs) by {
      forall k | 0 <= k < |xs| ensures '/' !in xs[k] {
        if 0 < k <= |es| { assert xs[k] == es[k - 1]; }
      }
    }
    assert xs[0] == "" && xs[1..] == es + tail;
    assert Resolve([], xs) == Resolve([], es + tail);
    ResolveSimple([], es, tail);
    assert [] + es == es;
    ResolveTail(es, tail);
  }

  /** At most an empty element is left after the simple ones. */
  lemma ResolveTail(es: seq<string>, tail: seq<string>)
    requires AllSimple(es) && (tail == [] || tail == [""])
    ensures NoSlash(tail) && Resolve(es, tail) == es
  {
    if tail == [""] {
      assert tail[1..] == [];
    }
  }

  /** The elements of "/" followed by simple elements joined with "/". */
  lemma CleanElementsOfClean(es: seq<string>)
    requires AllSimple(es)
    ensures CleanElements("/" + Strings.Join(es, "/")) == es
  {
    if es == [] {
      assert Strings.Join([""] + es + [""], "/") == "/";
      JoinedElements(es, [""]);
    } else {
      Strings.JoinAppend([""], es, "/");
      assert [""] + es + [] == [""] + es;
      JoinedElements(es, []);
    }
  }

  /** Cleaning is idempotent. */
  lemma CleanRootedIdempotent(p: string)
    requires p != [] && p[0] == '/'
    ensures CleanRooted(CleanRooted(p)) == CleanRooted(p)
  {
    CleanElementsOfClean(CleanElements(p));
  }

  /** Cleaning a rooted path made of simple elements changes nothing. */
  lemma CleanOfClean(es: seq<string>)
    requires es != [] && AllSimple(es)
    ensures CleanRooted("/" + Strings.Join(es, "/")) == "/" + Strings.Join(es, "/")
  {
    CleanElementsOfClean(es);
  }

  /** A rooted directory joined with a path made of simple elements is the
      plain concatenation: nothing is dropped or rewritten. */
  lemma JoinRootedSimple(dirElems: seq<string>, elems: seq<string>)
    requires |dirElems| > 0 && AllSimple(dirElems) && AllSimple(elems)
    ensures var dir := "/" + Strings.Join(dirElems, "/");
      JoinRooted(dir, Strings.Join(elems, "/")) ==
        if elems == [] then dir else dir + "/" + Strings.Join(elems, "/")
  {
    if elems == [] {
      JoinRootedEmpty(dirElems);
    } else {
      JoinRootedNonEmpty(dirElems, elems);
    }
  }

  lemma JoinRootedNonEmpty(dirElems: seq<string>, elems: seq<string>)
    requires |dirElems| > 0 && |elems| > 0 && AllSimple(dirElems) && AllSimple(elems)
    ensures JoinRooted("/" + Strings.Join(dirElems, "/"), Strings.Join(elems, "/")) ==
      "/" + Strings.Join(dirElems, "/") + "/" + Strings.Join(elems, "/")
  {
    var all := dirElems + elems;
    AppendSimple(dirElems, elems);
    JoinedPath(dirElems, elems);
    CleanOfClean(all);
  }

  lemma AppendSimple(a: seq<string>, b: seq<string>)
    requires AllSimple(a) && AllSimple(b)
    ensures AllSimple(a + b)
  {
    forall k | 0 <= k < |a + b| ensures SimpleElement((a + b)[k]) {
      if k >= |a| { assert (a + b)[k] == b[k - |a|]; } else { assert (a + b)[k] == a[k]; }
    }
  }

  /** The string joined from a rooted directory and a relative path is the
      rooted join of all their elements. */
  lemma JoinedPath(dirElems: seq<string>, elems: seq<string>)
    requires |dirElems| > 0 && |elems| > 0
    ensures "/" + Strings.Join(dirElems, "/") + "/" + Strings.Join(elems, "/") == "/" + Strings.Join(dirElems + elems, "/")
  {
    Strings.JoinAppend(dirElems, elems, "/");
  }

  /** A trailing slash is dropped. */
  lemma JoinRootedEmpty(dirElems: seq<string>)
    requires |dirElems| > 0 && AllSimple(dirElems)
    ensures var dir := "/" + Strings.Join(dirElems, "/"); JoinRooted(dir, "") == dir
  {
    var dir := "/" + Strings.Join(dirElems, "/");
    Strings.JoinAppend([""], dirElems, "/");
    var xs := [""] + dirElems;
    assert dir == Strings.Join(xs, "/");
    Strings.JoinAppend(xs, [""], "/");
    assert dir + "/" + "" == Strings.Join(xs + [""], "/");
    JoinedElements(dirElems, [""]);
    assert CleanElements(dir + "/" + "") == dirElems;
  }
}
