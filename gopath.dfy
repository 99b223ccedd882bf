/**
 * Go's path package, as far as path.Join needs it: slash-separated paths
 * cleaned lexically.
 */
module GoPath {
  import opened Strings

  /** Lexical processing of path elements, left to right, onto a stack: empty
      and "." elements go, ".." removes the element before it, and a ".."
      that has nothing to remove stays in a relative path and goes in a
      rooted one. */
  function Resolve(elems: seq<string>, rooted: bool, stack: seq<string>): (r: seq<string>)
    decreases |elems|
  {
    if elems == [] then stack
    else
      var e := elems[0];
      if e == "" || e == "." then Resolve(elems[1..], rooted, stack)
      else if e == ".." then
        if |stack| > 0 && stack[|stack| - 1] != ".." then Resolve(elems[1..], rooted, stack[..|stack| - 1])
        else if rooted then Resolve(elems[1..], rooted, stack)
        else Resolve(elems[1..], rooted, stack + [".."])
      else Resolve(elems[1..], rooted, stack + [e])
  }

  /** path.Clean: the shortest equivalent path; "." when nothing is left. */
  function Clean(p: string): (r: string)
  {
    var rooted := |p| > 0 && p[0] == '/';
    var body := Join(Resolve(Split(p, '/'), rooted, []), '/');
    var out := if rooted then "/" + body else body;
    if out == "" then "." else out
  }

  /** path.Join: the non-empty elements joined by "/" and cleaned; "" when
      every element is empty. */
  function PathJoin(elems: seq<string>): (r: string)
  {
    var parts := NonEmpty(elems);
    if parts == [] then "" else Clean(Join(parts, '/'))
  }

  function NonEmpty(elems: seq<string>): (r: seq<string>)
    ensures forall i :: 0 <= i < |r| ==> r[i] != "" && r[i] in elems
    ensures forall e :: e in elems && e != "" ==> e in r
  {
    if elems == [] then []
    else if elems[0] == "" then NonEmpty(elems[1..])
    else [elems[0]] + NonEmpty(elems[1..])
  }

  lemma {:induction false} NonEmptyConcat(a: seq<string>, b: seq<string>)
    ensures NonEmpty(a + b) == NonEmpty(a) + NonEmpty(b)
  {
    if a == [] {
      assert a + b == b;
    } else {
      assert (a + b)[1..] == a[1..] + b;
      NonEmptyConcat(a[1..], b);
    }
  }

  /** path.Join ignores empty elements wherever they stand. */
  lemma PathJoinSkipsEmpty(a: seq<string>, b: seq<string>)
    ensures PathJoin(a + [""] + b) == PathJoin(a + b)
  {
    assert [""][1..] == [];
    assert NonEmpty([""]) == [];
    NonEmptyConcat(a, [""]);
    assert NonEmpty(a + [""]) == NonEmpty(a) + [] == NonEmpty(a);
    NonEmptyConcat(a + [""], b);
    NonEmptyConcat(a, b);
    assert NonEmpty(a + [""] + b) == NonEmpty(a + b);
  }

  /** An element Clean leaves alone: not empty, no slash, not "." or "..". */
  predicate PlainElement(e: string)
  {
    e != "" && e != "." && e != ".." && '/' !in e
  }

  /** Plain elements pass through the stack unchanged. */
  lemma {:induction false} ResolvePlain(elems: seq<string>, rooted: bool, stack: seq<string>)
    requires forall i :: 0 <= i < |elems| ==> PlainElement(elems[i])
    ensures Resolve(elems, rooted, stack) == stack + elems
  {
    if elems != [] {
      ResolvePlain(elems[1..], rooted, stack + [elems[0]]);
      assert stack + [elems[0]] + elems[1..] == stack + elems;
    }
  }

  /** Joining plain elements gives a path Clean does not change, so path.Join
      of plain elements is just their "/"-joined text. */
  lemma JoinPlain(elems: seq<string>)
    requires |elems| >= 1
    requires forall i :: 0 <= i < |elems| ==> PlainElement(elems[i])
    ensures PathJoin(elems) == Join(elems, '/')
  {
    NonEmptyKeepsPlain(elems);
    var p := Join(elems, '/');
    SplitJoin(elems, '/');
    ResolvePlain(elems, false, []);
    assert [] + elems == elems;
    assert |p| > 0 && p[0] == elems[0][0];
  }

  lemma {:induction false} NonEmptyKeepsPlain(elems: seq<string>)
    requires forall i :: 0 <= i < |elems| ==> PlainElement(elems[i])
    ensures NonEmpty(elems) == elems
  {
    if elems != [] {
      NonEmptyKeepsPlain(elems[1..]);
    }
  }
}
