/** Relative paths resolved in one right-to-left pass, against sections 5.2.3 and 5.2.4 of RFC 3986,
    both read as a stack of segments. */
module PathResolver {
  import opened Text

  const SLASH: char := '/'

  // ----- the standard, on strings -----

  /** Everything before the last "/", or nothing. */
  function BeforeLastSlash(s: string): string
    decreases |s|
  {
    if s == [] then [] else if s[|s| - 1] == SLASH then s[..|s| - 1] else BeforeLastSlash(s[..|s| - 1])
  }

  /** Everything up to and including the last "/". */
  function ThroughLastSlash(s: string): string
    decreases |s|
  {
    if s == [] then [] else if s[|s| - 1] == SLASH then s else ThroughLastSlash(s[..|s| - 1])
  }

  /** Section 5.2.3, for a base with an authority. */
  function Merge(base: string, reference: string): string {
    if base == [] then "/" + reference else ThroughLastSlash(base) + reference
  }

  /** The length of the first segment, with its initial "/" if it has one (step 2E). */
  function FirstSegment(input: string): (k: nat)
    requires input != []
    ensures 1 <= k <= |input|
  {
    1 + UpToSlash(input[1..])
  }

  function UpToSlash(s: string): (k: nat)
    ensures k <= |s|
    decreases |s|
  {
    if s == [] || s[0] == SLASH then 0 else 1 + UpToSlash(s[1..])
  }

  /** Section 5.2.4, steps 2A to 2E, with the input and output buffers as arguments. */
  function RemoveDotSegments(input: string, output: string): string
    decreases |input|
  {
    if input == [] then output
    else if "../" <= input then RemoveDotSegments(input[3..], output)
    else if "./" <= input then RemoveDotSegments(input[2..], output)
    else if "/./" <= input then RemoveDotSegments(input[2..], output)
    else if input == "/." then RemoveDotSegments("/", output)
    else if "/../" <= input then RemoveDotSegments(input[3..], BeforeLastSlash(output))
    else if input == "/.." then RemoveDotSegments("/", BeforeLastSlash(output))
    else if input == "." || input == ".." then output
    else
      var k := FirstSegment(input);
      RemoveDotSegments(input[k..], output + input[..k])
  }

  function Standard(base: string, reference: string): string {
    if reference == [] then base else RemoveDotSegments(Merge(base, reference), [])
  }

  // ----- the code, as a function of its segment list -----

  predicate IsDot(x: string) { x == "." || x == ".." }

  /** What the pass keeps of a list, walking it from its end with i segments still to skip. */
  function Kept(s: seq<string>, i: nat): seq<string>
    decreases |s|
  {
    if s == [] then []
    else
      var x, front := s[|s| - 1], s[..|s| - 1];
      if x == "." then Kept(front, i)
      else if x == ".." then Kept(front, i + 1)
      else if i > 0 then Kept(front, i - 1)
      else Kept(front, 0) + [x]
  }

  /** Whether the pass skips the segment at index 0. */
  function SkipsFirst(s: seq<string>, i: nat): bool
    decreases |s|
  {
    s != [] &&
    var x, front := s[|s| - 1], s[..|s| - 1];
    if x == "." then SkipsFirst(front, i)
    else if x == ".." then SkipsFirst(front, i + 1)
    else if i > 0 then |s| == 1 || SkipsFirst(front, i - 1)
    else SkipsFirst(front, 0)
  }

  /** The list that is walked: the base without its last segment, then the reference. */
  function Segments(base: string, reference: string): (s: seq<string>)
    ensures s != []
  {
    var b := Split(if base == [] then "/" else base, SLASH);
    b[..|b| - 1] + Split(reference, SLASH)
  }

  function Resolved(base: string, reference: string): string {
    if reference == [] then base
    else
      var s := Segments(base, reference);
      var kept := Kept(s, 0);
      Join((if SkipsFirst(s, 0) then [[]] else []) + kept + (if IsDot(s[|s| - 1]) then [[]] else []), SLASH)
  }

  // ----- both as a stack of segments -----

  function Pop(stack: seq<string>): seq<string> {
    if stack == [] then [] else stack[..|stack| - 1]
  }

  /** Left to right: "." is nothing, ".." pops, anything else is pushed. */
  function Fold(s: seq<string>, stack: seq<string>): seq<string>
    decreases |s|
  {
    if s == [] then stack
    else if s[0] == "." then Fold(s[1..], stack)
    else if s[0] == ".." then Fold(s[1..], Pop(stack))
    else Fold(s[1..], stack + [s[0]])
  }

  function DropLast(stack: seq<string>, i: nat): seq<string> {
    if i <= |stack| then stack[..|stack| - i] else []
  }

  lemma {:induction false} FoldLast(s: seq<string>, x: string, stack: seq<string>)
    ensures Fold(s + [x], stack) ==
            if x == "." then Fold(s, stack)
            else if x == ".." then Pop(Fold(s, stack))
            else Fold(s, stack) + [x]
    decreases |s|
  {
    if s == [] {
      assert (s + [x])[1..] == [];
    } else {
      assert (s + [x])[1..] == s[1..] + [x];
      FoldLast(s[1..], x, if s[0] == "." then stack else if s[0] == ".." then Pop(stack) else stack + [s[0]]);
    }
  }

  /** The right-to-left pass with i pending skips keeps all but the top i of the stack. */
  lemma {:induction false} KeptIsFold(s: seq<string>, i: nat)
    ensures Kept(s, i) == DropLast(Fold(s, []), i)
    decreases |s|
  {
    if s != [] {
      var x, front := s[|s| - 1], s[..|s| - 1];
      assert s == front + [x];
      FoldLast(front, x, []);
      KeptIsFold(front, if x == "." then i else if x == ".." then i + 1 else if i > 0 then i - 1 else 0);
    }
  }

  /** The output buffer that holds a stack. */
  function Render(stack: seq<string>): string
    decreases |stack|
  {
    if stack == [] then [] else Render(stack[..|stack| - 1]) + [SLASH] + stack[|stack| - 1]
  }

  /** A trailing dot segment leaves an empty last segment. */
  function Trailer(s: seq<string>): seq<string>
    requires s != []
  {
    if IsDot(s[|s| - 1]) then [[]] else []
  }

  lemma {:induction false} PopsRendered(stack: seq<string>)
    requires AllFree(stack, SLASH)
    ensures BeforeLastSlash(Render(stack)) == Render(Pop(stack))
  {
    if stack != [] {
      SkipsFreeTail(Render(Pop(stack)) + [SLASH], stack[|stack| - 1]);
      assert BeforeLastSlash(Render(Pop(stack)) + [SLASH]) == Render(Pop(stack));
    }
  }

  lemma {:induction false} SkipsFreeTail(front: string, tail: string)
    requires Free(tail, SLASH)
    ensures BeforeLastSlash(front + tail) == BeforeLastSlash(front)
    ensures ThroughLastSlash(front + tail) == ThroughLastSlash(front)
    decreases |tail|
  {
    if tail == [] {
      assert front + tail == front;
    } else {
      var shorter := tail[..|tail| - 1];
      assert (front + tail)[..|front + tail| - 1] == front + shorter;
      SkipsFreeTail(front, shorter);
      assert (front + tail)[|front + tail| - 1] == tail[|tail| - 1];
    }
  }

  lemma {:induction false} UpToSlashOf(x: string, rest: string)
    requires Free(x, SLASH) && (rest == [] || rest[0] == SLASH)
    ensures UpToSlash(x + rest) == |x|
    decreases |x|
  {
    if x == [] {
      assert x + rest == rest;
    } else {
      assert (x + rest)[1..] == x[1..] + rest;
      UpToSlashOf(x[1..], rest);
    }
  }

  /** What an absolute input buffer holds after its first segment. */
  function After(s: seq<string>): string
    requires s != []
  {
    if |s| == 1 then [] else [SLASH] + Join(s[1..], SLASH)
  }

  /** One turn of the standard's loop on "/" followed by a segment. */
  lemma StandardStep(x: string, rest: string, out: string)
    requires Free(x, SLASH) && (rest == [] || rest[0] == SLASH)
    ensures var next := if rest == [] then "/" else rest;
            RemoveDotSegments([SLASH] + x + rest, out) ==
            if x == "." then RemoveDotSegments(next, out)
            else if x == ".." then RemoveDotSegments(next, BeforeLastSlash(out))
            else RemoveDotSegments(rest, out + [SLASH] + x)
  {
    var input := [SLASH] + x + rest;
    UpToSlashOf(x, rest);
    assert input[1..] == x + rest;
    assert FirstSegment(input) == 1 + |x|;
    assert input[1 + |x|..] == rest && input[..1 + |x|] == [SLASH] + x;
    assert out + ([SLASH] + x) == out + [SLASH] + x;
    DotPrefixes(x, rest);
  }

  /** When the tests of steps 2A to 2D succeed on "/" followed by a segment. */
  lemma DotPrefixes(x: string, rest: string)
    requires Free(x, SLASH) && (rest == [] || rest[0] == SLASH)
    ensures var input := [SLASH] + x + rest;
            && !("../" <= input) && !("./" <= input) && input != "." && input != ".."
            && ("/./" <= input <==> x == "." && rest != [])
            && (input == "/." <==> x == "." && rest == [])
            && ("/../" <= input <==> x == ".." && rest != [])
            && (input == "/.." <==> x == ".." && rest == [])
    ensures x == "." && rest != [] ==> ([SLASH] + x + rest)[2..] == rest
    ensures x == ".." && rest != [] ==> ([SLASH] + x + rest)[3..] == rest
  {
    var input := [SLASH] + x + rest;
    assert input[0] == SLASH;
    SegmentEnds(x, rest, 0);
    SegmentEnds(x, rest, 1);
    SegmentEnds(x, rest, 2);
    var dot, dots := ".", "..";
    assert |x| == 1 && x[0] == '.' ==> x == dot;
    assert |x| == 2 && x[0] == '.' && x[1] == '.' ==> x == dots;
    if x == dot {
      assert input == "/." + rest;
    } else if x == dots {
      assert input == "/.." + rest;
    }
    if "/./" <= input {
      assert input[1] == '.' && input[2] == SLASH;
    }
    if "/../" <= input {
      assert input[1] == '.' && input[2] == '.' && input[3] == SLASH;
    }
  }

  /** The first "/" after the initial one stands right behind the segment. */
  lemma SegmentEnds(x: string, rest: string, k: nat)
    requires Free(x, SLASH) && (rest == [] || rest[0] == SLASH)
    ensures var input := [SLASH] + x + rest;
            && (k < |x| ==> input[1 + k] == x[k] != SLASH)
            && (k == |x| && rest != [] ==> input[1 + k] == SLASH)
  {
  }

  /** The standard's buffers, driven by segments. */
  lemma {:induction false} StandardIsFold(s: seq<string>, stack: seq<string>)
    requires s != [] && AllFree(s, SLASH) && AllFree(stack, SLASH)
    ensures RemoveDotSegments([SLASH] + Join(s, SLASH), Render(stack)) == Render(Fold(s, stack) + Trailer(s))
    decreases |s|
  {
    hide RemoveDotSegments;
    var x, rest := s[0], After(s);
    assert [SLASH] + Join(s, SLASH) == [SLASH] + x + rest;
    StandardStep(x, rest, Render(stack));
    PopsRendered(stack);
    var stack' := if x == "." then stack else if x == ".." then Pop(stack) else stack + [x];
    assert AllFree(stack', SLASH);
    assert !IsDot(x) ==> Render(stack') == Render(stack) + [SLASH] + x by {
      if !IsDot(x) { assert stack'[..|stack'| - 1] == stack; }
    }
    if |s| > 1 {
      assert AllFree(s[1..], SLASH);
      StandardIsFold(s[1..], stack');
      assert Trailer(s[1..]) == Trailer(s);
    } else {
      assert s[1..] == [];
      LastSlash(Render(stack'));
      EmptyInput(Render(stack'));
      assert (stack' + [[]])[..|stack'|] == stack';
      assert stack' + [] == stack';
    }
  }

  lemma LastSlash(out: string)
    ensures RemoveDotSegments("/", out) == out + [SLASH] + []
  {
    StandardStep([], [], out);
    EmptyInput(out + [SLASH] + []);
    assert [SLASH] + [] + [] == "/";
  }

  lemma EmptyInput(out: string)
    ensures RemoveDotSegments([], out) == out
  {
  }

  // ----- the theorem -----

  lemma {:induction false} KeptBehindRoot(s: seq<string>, i: nat)
    requires AllFree(s, SLASH)
    ensures (if SkipsFirst([[]] + s, i) then [[]] else []) + Kept([[]] + s, i) == [[]] + Kept(s, i)
    decreases |s|
  {
    var full := [[]] + s;
    if s == [] {
      assert full == [[]];
      assert full[..0] == [];
    } else {
      var x, front := s[|s| - 1], s[..|s| - 1];
      assert full[|full| - 1] == x && full[..|full| - 1] == [[]] + front;
      KeptBehindRoot(front, if x == "." then i else if x == ".." then i + 1 else if i > 0 then i - 1 else 0);
      if !IsDot(x) && i == 0 {
        var root := if SkipsFirst([[]] + front, 0) then [[]] else [];
        assert root + (Kept([[]] + front, 0) + [x]) == root + Kept([[]] + front, 0) + [x];
        assert [[]] + (Kept(front, 0) + [x]) == [[]] + Kept(front, 0) + [x];
      }
    }
  }

  lemma {:induction false} JoinIsRender(s: seq<string>)
    ensures Join([[]] + s, SLASH) == Render(s)
    decreases |s|
  {
    if s == [] {
      assert [[]] + s == [[]];
    } else {
      var x, front := s[|s| - 1], s[..|s| - 1];
      JoinIsRender(front);
      JoinLast([[]] + front, x);
      assert [[]] + s == [[]] + front + [x];
    }
  }

  lemma {:induction false} JoinLast(parts: seq<string>, x: string)
    requires parts != []
    ensures Join(parts + [x], SLASH) == Join(parts, SLASH) + [SLASH] + x
    decreases |parts|
  {
    if |parts| == 1 {
      assert (parts + [x])[1..] == [x];
    } else {
      assert (parts + [x])[1..] == parts[1..] + [x];
      JoinLast(parts[1..], x);
    }
  }

  lemma AtLeastTwo(base: string)
    requires SLASH in base
    ensures |Split(base, SLASH)| >= 2
  {
    PiecesAreFree(base, SLASH);
    JoinOfSplit(base, SLASH);
  }

  /** The base up to its last slash is the join of all its segments but the last, and a slash. */
  lemma {:induction false} ThroughLastIsJoin(base: string)
    requires SLASH in base
    ensures var b := Split(base, SLASH);
            |b| >= 2 && ThroughLastSlash(base) == Join(b[..|b| - 1], SLASH) + [SLASH]
  {
    var b := Split(base, SLASH);
    AtLeastTwo(base);
    PiecesAreFree(base, SLASH);
    JoinOfSplit(base, SLASH);
    var front, last := b[..|b| - 1], b[|b| - 1];
    assert b == front + [last];
    JoinLast(front, last);
    SkipsFreeTail(Join(front, SLASH) + [SLASH], last);
    assert ThroughLastSlash(Join(front, SLASH) + [SLASH]) == Join(front, SLASH) + [SLASH];
  }

  lemma {:induction false} JoinOfBoth(a: seq<string>, b: seq<string>)
    requires a != [] && b != []
    ensures Join(a + b, SLASH) == Join(a, SLASH) + [SLASH] + Join(b, SLASH)
    decreases |a|
  {
    if |a| == 1 {
      assert (a + b)[1..] == b;
    } else {
      assert (a + b)[1..] == a[1..] + b;
      JoinOfBoth(a[1..], b);
    }
  }

  lemma SplitRooted(path: string)
    requires path != [] && path[0] == SLASH
    ensures |Split(path, SLASH)| >= 2 && Split(path, SLASH)[0] == []
  {
    assert path == [] + [SLASH] + path[1..];
    SplitAtFirst([], SLASH, path[1..]);
  }

  lemma FreeBoth(a: seq<string>, b: seq<string>)
    requires a != [] && AllFree(a, SLASH) && AllFree(b, SLASH)
    ensures AllFree(a[..|a| - 1] + b, SLASH)
  {
    hide Free;
  }

  lemma RootItself()
    ensures ThroughLastSlash("/") == "/"
  {
  }

  /** The walked list is the merged path of section 5.2.3, cut at its slashes. */
  lemma {:induction false} SegmentsOfMerge(base: string, reference: string)
    requires base == [] || base[0] == SLASH
    ensures AllFree(Segments(base, reference), SLASH)
    ensures Join(Segments(base, reference), SLASH) == Merge(base, reference)
    ensures |Segments(base, reference)| >= 2 && Segments(base, reference)[0] == []
  {
    hide Split, Join, ThroughLastSlash, AllFree;
    RootItself();
    var base' := if base == [] then "/" else base;
    var b, r := Split(base', SLASH), Split(reference, SLASH);
    SplitRooted(base');
    PiecesAreFree(base', SLASH);
    PiecesAreFree(reference, SLASH);
    FreeBoth(b, r);
    JoinOfSplit(reference, SLASH);
    ThroughLastIsJoin(base');
    JoinOfBoth(b[..|b| - 1], r);
  }

  /** For every absolute or empty base path the right-to-left pass computes what the standard says. */
  lemma {:induction false} ResolvedIsStandard(base: string, reference: string)
    requires base == [] || base[0] == SLASH
    ensures Resolved(base, reference) == Standard(base, reference)
  {
    hide RemoveDotSegments, Kept, SkipsFirst, Fold, Join, Render, Segments, Merge;
    if reference != [] {
      SegmentsOfMerge(base, reference);
      var full := Segments(base, reference);
      var s := full[1..];
      RootedJoin(full, s);
      FreeTail(full, s);
      StandardIsFold(s, []);
      RenderOfNothing();
    }
  }

  lemma FreeTail(full: seq<string>, s: seq<string>)
    requires full != [] && s == full[1..] && AllFree(full, SLASH)
    ensures AllFree(s, SLASH)
  {
  }

  lemma RenderOfNothing()
    ensures Render([]) == []
  {
  }

  /** What the pass leaves of a rooted list is the rendered stack of the list behind the root. */
  lemma {:induction false} RootedJoin(full: seq<string>, s: seq<string>)
    requires |full| >= 2 && full[0] == [] && s == full[1..] && AllFree(full, SLASH)
    ensures Join((if SkipsFirst(full, 0) then [[]] else []) + Kept(full, 0) + Trailer(full), SLASH)
            == Render(Fold(s, []) + Trailer(s))
    ensures (if SkipsFirst(full, 0) then [[]] else []) + Kept(full, 0) + Trailer(full)
            == [[]] + (Fold(s, []) + Trailer(s))
    ensures Join(full, SLASH) == [SLASH] + Join(s, SLASH)
  {
    hide Kept, SkipsFirst, Fold, Render;
    assert full == [[]] + s;
    FreeTail(full, s);
    KeptBehindRoot(s, 0);
    KeptIsFold(s, 0);
    assert Trailer(full) == Trailer(s);
    JoinIsRender(Fold(s, []) + Trailer(s));
    var f := Fold(s, []);
    assert DropLast(f, 0) == f;
    assert [[]] + f + Trailer(s) == [[]] + (f + Trailer(s));
    JoinOfBoth([[]], s);
  }

  lemma {:induction false} FoldHasNoDots(s: seq<string>, stack: seq<string>)
    requires forall k :: 0 <= k < |stack| ==> !IsDot(stack[k])
    ensures forall k :: 0 <= k < |Fold(s, stack)| ==> !IsDot(Fold(s, stack)[k])
    decreases |s|
  {
    if s != [] {
      FoldHasNoDots(s[1..], if s[0] == "." then stack else if s[0] == ".." then Pop(stack) else stack + [s[0]]);
    }
  }

  lemma {:induction false} FoldIsFree(s: seq<string>, stack: seq<string>)
    requires AllFree(s, SLASH) && AllFree(stack, SLASH)
    ensures AllFree(Fold(s, stack), SLASH)
    decreases |s|
  {
    if s != [] {
      assert AllFree(s[1..], SLASH);
      FoldIsFree(s[1..], if s[0] == "." then stack else if s[0] == ".." then Pop(stack) else stack + [s[0]]);
    }
  }

  /** A resolved path is absolute and none of its segments is "." or "..". */
  lemma {:induction false} ResolvedIsNormal(base: string, reference: string)
    requires base == [] || base[0] == SLASH
    requires reference != []
    ensures var r := Resolved(base, reference);
            && r != [] && r[0] == SLASH
            && forall k :: 0 <= k < |Split(r, SLASH)| ==> !IsDot(Split(r, SLASH)[k])
  {
    hide Kept, SkipsFirst, Fold, Join, Render, Segments, Split;
    SegmentsOfMerge(base, reference);
    var full := Segments(base, reference);
    var s := full[1..];
    RootedJoin(full, s);
    FreeTail(full, s);
    BodyIsNormal(s);
    var body := Fold(s, []) + Trailer(s);
    var parts := [[]] + body;
    hide AllFree, IsDot, Trailer;
    SplitOfJoin(parts, SLASH);
    JoinOfBoth([[]], body);
    JoinOfOne([]);
  }

  lemma BodyIsNormal(s: seq<string>)
    requires s != [] && AllFree(s, SLASH)
    ensures var parts := [[]] + (Fold(s, []) + Trailer(s));
      |parts| > 1 && AllFree(parts, SLASH) && forall k :: 0 <= k < |parts| ==> !IsDot(parts[k])
  {
    hide Fold;
    FoldHasNoDots(s, []);
    FoldIsFree(s, []);
    NotEmptied(s);
  }

  lemma JoinOfOne(x: string)
    ensures Join([x], SLASH) == x
  {
  }

  /** Either the last segment stays or an empty one is pushed in its place. */
  lemma NotEmptied(s: seq<string>)
    requires s != []
    ensures Fold(s, []) + Trailer(s) != []
  {
    var front, x := s[..|s| - 1], s[|s| - 1];
    assert s == front + [x];
    FoldLast(front, x, []);
  }

  // ----- the code -----

  /** One step of the pass, seen from the list and the count before it. */
  lemma WalkStep(all: seq<string>, o: nat, i: nat)
    requires o < |all|
    ensures all[..o + 1][..o] == all[..o]
    ensures var x := all[o];
            && (x == "." ==> Kept(all[..o + 1], i) == Kept(all[..o], i)
                             && SkipsFirst(all[..o + 1], i) == SkipsFirst(all[..o], i))
            && (x == ".." ==> Kept(all[..o + 1], i) == Kept(all[..o], i + 1)
                              && SkipsFirst(all[..o + 1], i) == SkipsFirst(all[..o], i + 1))
            && (!IsDot(x) && i > 0 ==> Kept(all[..o + 1], i) == Kept(all[..o], i - 1)
                                       && SkipsFirst(all[..o + 1], i) == (o == 0 || SkipsFirst(all[..o], i - 1)))
            && (!IsDot(x) && i == 0 ==> Kept(all[..o + 1], i) == Kept(all[..o], 0) + [x]
                                        && SkipsFirst(all[..o + 1], i) == SkipsFirst(all[..o], 0))
  {
    assert all[..o + 1][..o] == all[..o];
  }

  /** The loop: splice out dot segments and skipped segments, from the end. */
  method Walk(segments: seq<string>) returns (s: seq<string>, r: bool)
    ensures s == Kept(segments, 0)
    ensures r == SkipsFirst(segments, 0)
  {
    hide Kept, SkipsFirst;
    s := segments;
    var o := |s|;
    r := false;
    var i := 0;
    ghost var tail: seq<string> := [];
    assert segments[..o] == segments;
    while o != 0
      invariant 0 <= o <= |segments| && 0 <= i
      invariant s == segments[..o] + tail
      invariant Kept(segments, 0) == Kept(segments[..o], i) + tail
      invariant o > 0 ==> !r
      invariant SkipsFirst(segments, 0) == (r || SkipsFirst(segments[..o], i))
      decreases o
    {
      o := o - 1;
      WalkStep(segments, o, i);
      assert s[o] == segments[o];
      assert s[..o] + s[o + 1..] == segments[..o] + tail;
      if "." == s[o] {
        s := s[..o] + s[o + 1..];
      } else if ".." == s[o] {
        s := s[..o] + s[o + 1..];
        i := i + 1;
      } else if i != 0 {
        if 0 == o { r := true; }
        s := s[..o] + s[o + 1..];
        i := i - 1;
      } else {
        assert segments[..o] + [s[o]] + tail == segments[..o] + ([s[o]] + tail);
        assert Kept(segments[..o], 0) + [s[o]] + tail == Kept(segments[..o], 0) + ([s[o]] + tail);
        tail := [s[o]] + tail;
      }
    }
    assert segments[..0] == [];
    NothingKept(i);
  }

  lemma NothingKept(i: nat)
    ensures Kept([], i) == [] && !SkipsFirst([], i)
  {
  }

  /** The resolver inside the URL constructor: e is the reference, t the base path. */
  method Resolve(e: string, t: string) returns (path: string)
    ensures path == Resolved(t, e)
    ensures t == [] || t[0] == SLASH ==> path == Standard(t, e)
  {
    hide Merge, Split, Join, Kept, SkipsFirst, RemoveDotSegments;
    if t == [] || t[0] == SLASH { ResolvedIsStandard(t, e); }
    if "" == e { return t; }
    var s := Split(if t == [] then "/" else t, SLASH);
    s := s[..|s| - 1] + Split(e, SLASH);
    var a := s[|s| - 1];
    var r;
    s, r := Walk(s);
    ghost var kept := s;
    assert [] + kept == kept;
    if r {
      s := [""] + s;
    }
    assert s + [] == s;
    if "." == a || ".." == a {
      s := s + [""];
    }
    path := Join(s, SLASH);
  }
}
