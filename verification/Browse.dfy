/**
 The batched browse of an OPC-UA address space (BrowseFullAddressSpaceAsync,
 src/OPC-UA-Client/AsduReceiveHandler.cs:1118-1286), without continuation points and error statuses.
 */
module Browse {
  import opened Paths

  /** kMaxSearchDepth: how many requests are sent at most. */
  const MAX_SEARCH_DEPTH: nat := 128

  datatype Ref = Ref(target: int, name: string, hasProperty: bool)

  /** The answer of the server for each node. */
  type Graph = map<int, seq<Ref>>

  datatype Found = Found(ref: Ref, path: string)

  type Walks = map<int, seq<Ref>>

  function RefsOf(g: Graph, n: int): seq<Ref> {
    if n in g then g[n] else []
  }

  function EndOf(start: int, w: seq<Ref>): int {
    if w == [] then start else w[|w| - 1].target
  }

  predicate Enterable(w: seq<Ref>) {
    w == [] || !w[|w| - 1].hasProperty
  }

  /** A sequence of references that can be followed from the start; property nodes are not entered. */
  predicate IsWalk(g: Graph, start: int, w: seq<Ref>)
    decreases |w|
  {
    w == [] || (var front := w[..|w| - 1];
                IsWalk(g, start, front) && Enterable(front) && w[|w| - 1] in RefsOf(g, EndOf(start, front)))
  }

  function TrimEnd(s: string): string
    decreases |s|
  {
    if s != "" && s[|s| - 1] == '/' then TrimEnd(s[..|s| - 1]) else s
  }

  /** The path string the program builds along a walk. */
  function CodePath(root: string, w: seq<Ref>): string
    decreases |w|
  {
    if w == [] then "/" + root else TrimEnd(CodePath(root, w[..|w| - 1])) + "/" + w[|w| - 1].name
  }

  function AllTargets(g: Graph): set<int> {
    set n, i | n in g && 0 <= i < |g[n]| :: g[n][i].target
  }

  /** Property nodes are reached by property references only. */
  ghost predicate SameKind(g: Graph) {
    forall m, n, r, s :: r in RefsOf(g, m) && s in RefsOf(g, n) && r.target == s.target
      ==> r.hasProperty == s.hasProperty
  }

  // ---------------------------------------------------------------- one browse result

  /** Recorded walks after the references of one node, and the new nodes that are still to be browsed. */
  function Visit(walks: Walks, base: seq<Ref>, refs: seq<Ref>): (Walks, seq<int>)
    decreases |refs|
  {
    if refs == [] then (walks, [])
    else
      var v := Visit(walks, base, refs[..|refs| - 1]);
      var x := refs[|refs| - 1];
      if x.target in v.0 then v
      else (v.0[x.target := base + [x]], if x.hasProperty then v.1 else v.1 + [x.target])
  }

  predicate Extends(walks: Walks, ws: Walks) {
    walks.Keys <= ws.Keys && forall t :: t in walks ==> ws[t] == walks[t]
  }

  lemma {:induction false} VisitExtends(walks: Walks, base: seq<Ref>, refs: seq<Ref>)
    ensures var v := Visit(walks, base, refs);
            && Extends(walks, v.0) && (forall x :: x in refs ==> x.target in v.0)
            && |v.1| + |walks| <= |v.0|
    decreases |refs|
  {
    if refs != [] {
      VisitExtends(walks, base, refs[..|refs| - 1]);
      var v := Visit(walks, base, refs[..|refs| - 1]);
      var x := refs[|refs| - 1];
      assert forall y :: y in refs ==> y == x || y in refs[..|refs| - 1];
      assert x.target !in v.0 ==> v.0[x.target := base + [x]].Keys == v.0.Keys + {x.target};
    }
  }

  ghost predicate OneStep(base: seq<Ref>, refs: seq<Ref>, t: int, w: seq<Ref>) {
    exists x :: x in refs && x.target == t && w == base + [x]
  }

  /** What is new after a visit is one reference away from the visited node, and queued unless it is a property. */
  lemma {:induction false} VisitAdds(walks: Walks, base: seq<Ref>, refs: seq<Ref>)
    ensures var v := Visit(walks, base, refs);
            && (forall t :: t in v.0 && t !in walks ==> OneStep(base, refs, t, v.0[t]))
            && (forall t :: t in v.1 <==> t in v.0 && t !in walks && Enterable(v.0[t]))
    decreases |refs|
  {
    if refs != [] {
      var front, x := refs[..|refs| - 1], refs[|refs| - 1];
      VisitAdds(walks, base, front);
      VisitExtends(walks, base, front);
      var v := Visit(walks, base, front);
      forall t, w | OneStep(base, front, t, w)
        ensures OneStep(base, refs, t, w)
      {
        var y :| y in front && y.target == t && w == base + [y];
        assert y in refs;
      }
      assert x in refs && OneStep(base, refs, x.target, base + [x]);
    }
  }

  lemma {:induction false} VisitNothingNew(walks: Walks, base: seq<Ref>, refs: seq<Ref>)
    requires forall x :: x in refs ==> x.target in walks
    ensures Visit(walks, base, refs) == (walks, [])
    decreases |refs|
  {
    if refs != [] {
      VisitNothingNew(walks, base, refs[..|refs| - 1]);
    }
  }

  function Filed(root: string, w: seq<Ref>): Found
    requires w != []
  {
    Found(w[|w| - 1], CodePath(root, w))
  }

  /** The dictionary of the program is the recorded walks, printed. */
  predicate Shows(found: map<int, Found>, root: string, walks: Walks) {
    && found.Keys == walks.Keys
    && forall t :: t in walks ==> walks[t] != [] && found[t] == Filed(root, walks[t])
  }

  /** The inner loop over the references of one browsed node. */
  method ProcessReferences(refs: seq<Ref>, parentPath: string, found0: map<int, Found>, root: string,
                           ghost walks: Walks, ghost base: seq<Ref>)
    returns (found: map<int, Found>, nodes: seq<int>)
    requires Shows(found0, root, walks)
    requires parentPath == CodePath(root, base)
    ensures Shows(found, root, Visit(walks, base, refs).0)
    ensures nodes == Visit(walks, base, refs).1
  {
    found, nodes := found0, [];
    for i := 0 to |refs|
      invariant Shows(found, root, Visit(walks, base, refs[..i]).0)
      invariant nodes == Visit(walks, base, refs[..i]).1
    {
      var reference := refs[i];
      assert refs[..i + 1][..i] == refs[..i];
      var newPath := TrimEnd(parentPath) + "/" + reference.name;
      if reference.target !in found {
        assert (base + [reference])[..|base|] == base;
        found := found[reference.target := Found(reference, newPath)];
        if !reference.hasProperty {
          nodes := nodes + [reference.target];
        }
      }
    }
    assert refs[..|refs|] == refs;
  }

  // ---------------------------------------------------------------- the invariant of the search

  /** The walk by which a queued node was reached; the start is queued before anything is recorded. */
  function WalkTo(walks: Walks, n: int): seq<Ref> {
    if n in walks then walks[n] else []
  }

  function Depths(walks: Walks, queue: seq<int>): (d: seq<nat>)
    ensures |d| == |queue| && forall i :: 0 <= i < |queue| ==> d[i] == |WalkTo(walks, queue[i])|
  {
    seq(|queue|, i requires 0 <= i < |queue| => |WalkTo(walks, queue[i])|)
  }

  predicate Done(g: Graph, walks: Walks, n: int) {
    forall x :: x in RefsOf(g, n) ==> x.target in walks
  }

  predicate AtStart(start: int, walks: Walks, queue: seq<int>) {
    walks == map[] && queue == [start]
  }

  /** Recorded walks are real, and lead where they are filed. */
  predicate Real(g: Graph, start: int, walks: Walks) {
    forall t :: t in walks ==> walks[t] != [] && IsWalk(g, start, walks[t]) && EndOf(start, walks[t]) == t
  }

  predicate Queued(start: int, walks: Walks, queue: seq<int>) {
    AtStart(start, walks, queue) || forall n :: n in queue ==> n in walks && Enterable(walks[n])
  }

  /** First in, first out: at most two depths at a time, in order. */
  predicate TwoLayers(d: seq<nat>) {
    forall i, j :: 0 <= i <= j < |d| ==> d[i] <= d[j] <= d[0] + 1
  }

  predicate Layered(walks: Walks, queue: seq<int>) {
    && TwoLayers(Depths(walks, queue))
    && (queue != [] ==> forall t :: t in walks ==> |walks[t]| <= |WalkTo(walks, queue[0])| + 1)
  }

  predicate Tracked(g: Graph, start: int, walks: Walks, queue: seq<int>) {
    && (Done(g, walks, start) || AtStart(start, walks, queue))
    && (forall t :: t in walks && Enterable(walks[t]) ==> Done(g, walks, t) || t in queue)
  }

  predicate Shape(g: Graph, start: int, walks: Walks, queue: seq<int>) {
    Real(g, start, walks) && Queued(start, walks, queue) && Layered(walks, queue) && Tracked(g, start, walks, queue)
  }

  /** The walk is at least as long as the one recorded for its end, which is recorded. */
  predicate Beaten(start: int, walks: Walks, w: seq<Ref>) {
    EndOf(start, w) in walks && |walks[EndOf(start, w)]| <= |w|
  }

  ghost predicate Covered(g: Graph, start: int, walks: Walks, depth: nat) {
    forall w {:trigger Beaten(start, walks, w)} :: IsWalk(g, start, w) && 0 < |w| <= depth ==> Beaten(start, walks, w)
  }

  ghost predicate Shortest(g: Graph, start: int, walks: Walks) {
    forall w {:trigger Beaten(start, walks, w)} ::
      IsWalk(g, start, w) && w != [] && EndOf(start, w) in walks ==> Beaten(start, walks, w)
  }

  ghost predicate Searching(g: Graph, start: int, walks: Walks, queue: seq<int>) {
    && Shape(g, start, walks, queue)
    && (SameKind(g) ==> Shortest(g, start, walks))
    && (SameKind(g) && queue != [] ==> Covered(g, start, walks, |WalkTo(walks, queue[0])|))
  }

  function VisitFront(g: Graph, walks: Walks, queue: seq<int>): (Walks, seq<int>)
    requires queue != []
  {
    Visit(walks, WalkTo(walks, queue[0]), RefsOf(g, queue[0]))
  }

  lemma {:induction false} WalkGrows(g: Graph, start: int, w: seq<Ref>, x: Ref)
    requires IsWalk(g, start, w) && Enterable(w) && x in RefsOf(g, EndOf(start, w))
    ensures IsWalk(g, start, w + [x]) && EndOf(start, w + [x]) == x.target
  {
    assert (w + [x])[..|w + [x]| - 1] == w;
  }

  lemma {:induction false} FrontIsReal(g: Graph, start: int, walks: Walks, queue: seq<int>)
    requires queue != [] && Real(g, start, walks) && Queued(start, walks, queue)
    ensures var w := WalkTo(walks, queue[0]);
            IsWalk(g, start, w) && Enterable(w) && EndOf(start, w) == queue[0]
  {
    assert queue[0] in queue;
  }

  lemma {:induction false} NewWalkIsReal(g: Graph, start: int, base: seq<Ref>, n: int, t: int, w: seq<Ref>)
    requires IsWalk(g, start, base) && Enterable(base) && EndOf(start, base) == n && OneStep(base, RefsOf(g, n), t, w)
    ensures |w| == |base| + 1 && IsWalk(g, start, w) && EndOf(start, w) == t
  {
    var x :| x in RefsOf(g, n) && x.target == t && w == base + [x];
    WalkGrows(g, start, base, x);
  }

  lemma {:induction false} NewWalksAreReal(g: Graph, start: int, walks: Walks, queue: seq<int>)
    requires queue != [] && Real(g, start, walks) && Queued(start, walks, queue)
    ensures var v := VisitFront(g, walks, queue);
            && Real(g, start, v.0)
            && forall t :: t in v.0 && t !in walks ==> |v.0[t]| == |WalkTo(walks, queue[0])| + 1
  {
    var base, refs, v := WalkTo(walks, queue[0]), RefsOf(g, queue[0]), VisitFront(g, walks, queue);
    FrontIsReal(g, start, walks, queue);
    VisitAdds(walks, base, refs);
    VisitExtends(walks, base, refs);
    forall t | t in v.0 && t !in walks
      ensures |v.0[t]| == |base| + 1 && IsWalk(g, start, v.0[t]) && EndOf(start, v.0[t]) == t
    {
      NewWalkIsReal(g, start, base, queue[0], t, v.0[t]);
    }
  }

  lemma {:induction false} LayersShift(d: seq<nat>, more: seq<nat>)
    requires d != [] && TwoLayers(d) && forall k :: 0 <= k < |more| ==> more[k] == d[0] + 1
    ensures TwoLayers(d[1..] + more)
    ensures d[1..] + more != [] ==> d[0] <= (d[1..] + more)[0] <= d[0] + 1
  {
    var e := d[1..] + more;
    forall i, j | 0 <= i <= j < |e|
      ensures e[i] <= e[j] <= e[0] + 1 && d[0] <= e[i] <= d[0] + 1
    {
      assert e[i] == if i + 1 < |d| then d[i + 1] else more[i + 1 - |d|];
      assert e[j] == if j + 1 < |d| then d[j + 1] else more[j + 1 - |d|];
      assert e[0] == if 1 < |d| then d[1] else more[0];
    }
  }

  lemma {:induction false} QueuedAfter(g: Graph, start: int, walks: Walks, queue: seq<int>)
    requires queue != [] && Queued(start, walks, queue)
    ensures var v := VisitFront(g, walks, queue);
            && Queued(start, v.0, queue[1..] + v.1)
            && (forall n :: n in queue[1..] ==> n in walks && n in v.0 && v.0[n] == walks[n])
            && (forall n :: n in v.1 ==> n in v.0 && n !in walks)
  {
    var v := VisitFront(g, walks, queue);
    VisitAdds(walks, WalkTo(walks, queue[0]), RefsOf(g, queue[0]));
    VisitExtends(walks, WalkTo(walks, queue[0]), RefsOf(g, queue[0]));
    forall n | n in queue[1..]
      ensures n in walks && Enterable(walks[n])
    {
      assert n in queue;
    }
  }

  lemma {:induction false} DepthsAfter(walks: Walks, ws: Walks, queue: seq<int>, more: seq<int>)
    requires queue != [] && forall n :: n in queue[1..] ==> WalkTo(ws, n) == WalkTo(walks, n)
    ensures Depths(ws, queue[1..] + more) == Depths(walks, queue)[1..] + Depths(ws, more)
  {
    var q, l, r := queue[1..] + more, Depths(ws, queue[1..] + more), Depths(walks, queue)[1..] + Depths(ws, more);
    forall i | 0 <= i < |q|
      ensures l[i] == r[i]
    {
      if i < |queue| - 1 {
        assert q[i] == queue[1..][i];
        assert q[i] in queue[1..];
      }
    }
  }

  lemma {:induction false} LayeredAfter(g: Graph, start: int, walks: Walks, queue: seq<int>)
    requires queue != [] && Shape(g, start, walks, queue)
    ensures var v := VisitFront(g, walks, queue);
            var q := queue[1..] + v.1;
            var d := |WalkTo(walks, queue[0])|;
            && Layered(v.0, q)
            && (q != [] ==> d <= |WalkTo(v.0, q[0])| <= d + 1)
            && (forall t :: t in v.0 ==> |v.0[t]| <= d + 1)
  {
    var v := VisitFront(g, walks, queue);
    var q := queue[1..] + v.1;
    QueuedAfter(g, start, walks, queue);
    VisitExtends(walks, WalkTo(walks, queue[0]), RefsOf(g, queue[0]));
    NewWalksAreReal(g, start, walks, queue);
    var d, more := Depths(walks, queue), Depths(v.0, v.1);
    forall k | 0 <= k < |more|
      ensures more[k] == d[0] + 1
    {
      assert v.1[k] in v.1;
    }
    DepthsAfter(walks, v.0, queue, v.1);
    LayersShift(d, more);
    assert q != [] ==> |WalkTo(v.0, q[0])| == Depths(v.0, q)[0];
  }

  lemma {:induction false} TrackedAfter(g: Graph, start: int, walks: Walks, queue: seq<int>)
    requires queue != [] && Shape(g, start, walks, queue)
    ensures var v := VisitFront(g, walks, queue);
            Tracked(g, start, v.0, queue[1..] + v.1)
  {
    var v := VisitFront(g, walks, queue);
    var q := queue[1..] + v.1;
    VisitAdds(walks, WalkTo(walks, queue[0]), RefsOf(g, queue[0]));
    VisitExtends(walks, WalkTo(walks, queue[0]), RefsOf(g, queue[0]));
    assert Done(g, v.0, queue[0]);
    assert forall n :: n in queue ==> n == queue[0] || n in q;
    assert forall n :: n in v.1 ==> n in q;
    assert forall n :: Done(g, walks, n) ==> Done(g, v.0, n);
  }

  lemma {:induction false} SameEndSameKind(g: Graph, start: int, v: seq<Ref>, w: seq<Ref>)
    requires SameKind(g) && v != [] && w != [] && IsWalk(g, start, v) && IsWalk(g, start, w)
    requires EndOf(start, v) == EndOf(start, w)
    ensures Enterable(v) == Enterable(w)
  {
    var m, n := EndOf(start, v[..|v| - 1]), EndOf(start, w[..|w| - 1]);
    assert v[|v| - 1] in RefsOf(g, m) && w[|w| - 1] in RefsOf(g, n);
  }

  /**
   A walk one longer than the front of the queue leads to a recorded node once everything at that depth is
   browsed.
   */
  lemma {:induction false} NextDepthCovered(g: Graph, start: int, walks: Walks, queue: seq<int>, depth: nat,
                                            w: seq<Ref>)
    requires SameKind(g) && Real(g, start, walks) && Tracked(g, start, walks, queue) && !AtStart(start, walks, queue)
    requires Covered(g, start, walks, depth)
    requires forall n :: n in queue ==> |WalkTo(walks, n)| > depth
    requires forall t :: t in walks ==> |walks[t]| <= depth + 1
    requires IsWalk(g, start, w) && |w| == depth + 1
    ensures Beaten(start, walks, w)
  {
    var front := w[..|w| - 1];
    var u := EndOf(start, front);
    if front != [] {
      assert Beaten(start, walks, front);
      SameEndSameKind(g, start, walks[u], front);
      assert u !in queue;
    }
    assert Done(g, walks, u);
  }

  /** The start was queued alone, with nothing recorded. */
  lemma {:induction false} SearchStarts(g: Graph, start: int)
    ensures Searching(g, start, map[], [start])
  {
  }

  lemma {:induction false} ShortestAfter(g: Graph, start: int, walks: Walks, queue: seq<int>)
    requires queue != [] && SameKind(g) && Searching(g, start, walks, queue)
    ensures Shortest(g, start, VisitFront(g, walks, queue).0)
  {
    var v := VisitFront(g, walks, queue);
    VisitExtends(walks, WalkTo(walks, queue[0]), RefsOf(g, queue[0]));
    NewWalksAreReal(g, start, walks, queue);
    forall w | IsWalk(g, start, w) && w != [] && EndOf(start, w) in v.0
      ensures Beaten(start, v.0, w)
    {
      if EndOf(start, w) in walks || |w| <= |WalkTo(walks, queue[0])| {
        assert Beaten(start, walks, w);
      }
    }
  }

  lemma {:induction false} StillCovered(g: Graph, start: int, walks: Walks, ws: Walks, depth: nat)
    requires Covered(g, start, walks, depth) && Extends(walks, ws)
    ensures Covered(g, start, ws, depth)
  {
    forall w | IsWalk(g, start, w) && 0 < |w| <= depth
      ensures Beaten(start, ws, w)
    {
      assert Beaten(start, walks, w);
    }
  }

  lemma {:induction false} DeepQueue(walks: Walks, queue: seq<int>, depth: nat)
    requires TwoLayers(Depths(walks, queue)) && (queue != [] ==> |WalkTo(walks, queue[0])| > depth)
    ensures forall n :: n in queue ==> |WalkTo(walks, n)| > depth
  {
    forall n | n in queue
      ensures |WalkTo(walks, n)| > depth
    {
      var i :| 0 <= i < |queue| && queue[i] == n;
      assert Depths(walks, queue)[0] <= Depths(walks, queue)[i];
    }
  }

  lemma {:induction false} CoveredAfter(g: Graph, start: int, walks: Walks, queue: seq<int>)
    requires queue != [] && SameKind(g) && Searching(g, start, walks, queue)
    ensures var v := VisitFront(g, walks, queue);
            var q := queue[1..] + v.1;
            q != [] ==> Covered(g, start, v.0, |WalkTo(v.0, q[0])|)
  {
    var d := |WalkTo(walks, queue[0])|;
    var v := VisitFront(g, walks, queue);
    var q := queue[1..] + v.1;
    VisitExtends(walks, WalkTo(walks, queue[0]), RefsOf(g, queue[0]));
    StillCovered(g, start, walks, v.0, d);
    LayeredAfter(g, start, walks, queue);
    if q != [] && |WalkTo(v.0, q[0])| == d + 1 {
      NewWalksAreReal(g, start, walks, queue);
      TrackedAfter(g, start, walks, queue);
      DeepQueue(v.0, q, d);
      forall w | IsWalk(g, start, w) && |w| == d + 1
        ensures Beaten(start, v.0, w)
      {
        NextDepthCovered(g, start, v.0, q, d, w);
      }
    }
  }

  /** Browsing the node at the front of the queue keeps the search on track. */
  lemma {:induction false} SearchStep(g: Graph, start: int, walks: Walks, queue: seq<int>)
    requires queue != [] && Searching(g, start, walks, queue)
    ensures var v := VisitFront(g, walks, queue);
            Searching(g, start, v.0, queue[1..] + v.1)
  {
    NewWalksAreReal(g, start, walks, queue);
    QueuedAfter(g, start, walks, queue);
    LayeredAfter(g, start, walks, queue);
    TrackedAfter(g, start, walks, queue);
    if SameKind(g) {
      ShortestAfter(g, start, walks, queue);
      CoveredAfter(g, start, walks, queue);
    }
  }

  /** With nothing left to browse, every reachable node is recorded. */
  lemma {:induction false} EmptyQueueMeansComplete(g: Graph, start: int, walks: Walks, w: seq<Ref>)
    requires SameKind(g) && Searching(g, start, walks, []) && IsWalk(g, start, w) && w != []
    ensures Beaten(start, walks, w)
    decreases |w|
  {
    var front := w[..|w| - 1];
    var u := EndOf(start, front);
    if front != [] {
      EmptyQueueMeansComplete(g, start, walks, front);
      SameEndSameKind(g, start, walks[u], front);
    }
    assert Done(g, walks, u);
  }

  // ---------------------------------------------------------------- the search as a sequence of visits

  datatype Search = Search(walks: Walks, queue: seq<int>)

  function Pop(g: Graph, s: Search): Search {
    if s.queue == [] then s
    else
      var v := VisitFront(g, s.walks, s.queue);
      Search(v.0, s.queue[1..] + v.1)
  }

  /** The search after `k` nodes were taken from the queue. */
  function Pops(g: Graph, start: int, k: nat): Search {
    if k == 0 then Search(map[], [start]) else Pop(g, Pops(g, start, k - 1))
  }

  lemma {:induction false} PopsSearching(g: Graph, start: int, k: nat)
    ensures Searching(g, start, Pops(g, start, k).walks, Pops(g, start, k).queue)
  {
    if k == 0 {
      SearchStarts(g, start);
    } else {
      PopsSearching(g, start, k - 1);
      var s := Pops(g, start, k - 1);
      if s.queue != [] {
        SearchStep(g, start, s.walks, s.queue);
      }
    }
  }

  /** What one more visit does to the nodes that stay queued, to the depths, and to the number of records. */
  lemma {:induction false} VisitFacts(g: Graph, start: int, k: nat)
    requires Pops(g, start, k).queue != []
    ensures var s := Pops(g, start, k);
            var v := VisitFront(g, s.walks, s.queue);
            var d := |WalkTo(s.walks, s.queue[0])|;
            && Pops(g, start, k + 1) == Search(v.0, s.queue[1..] + v.1)
            && Extends(s.walks, v.0) && Done(g, v.0, s.queue[0]) && |v.1| + |s.walks| <= |v.0|
            && (forall n :: n in s.queue[1..] ==> WalkTo(v.0, n) == WalkTo(s.walks, n))
            && (s.queue[1..] + v.1 != [] ==> |WalkTo(v.0, (s.queue[1..] + v.1)[0])| >= d)
            && (v.1 != [] ==> |WalkTo(v.0, v.1[0])| == d + 1)
  {
    PopsSearching(g, start, k);
    var s := Pops(g, start, k);
    var v := VisitFront(g, s.walks, s.queue);
    VisitExtends(s.walks, WalkTo(s.walks, s.queue[0]), RefsOf(g, s.queue[0]));
    QueuedAfter(g, start, s.walks, s.queue);
    LayeredAfter(g, start, s.walks, s.queue);
    NewWalksAreReal(g, start, s.walks, s.queue);
    if v.1 != [] {
      assert v.1[0] in v.1;
    }
  }

  // ---------------------------------------------------------------- the program

  /** What is still to be browsed after `i` nodes of a batch, the first `known` of which were browsed before. */
  function Left(batch: seq<int>, known: nat, i: nat, rest: seq<int>, table: seq<int>): seq<int>
    requires known <= |batch| && i <= |batch|
  {
    (if i < known then batch[known..] else batch[i..]) + rest + table
  }

  predicate AllDone(g: Graph, walks: Walks, batch: seq<int>, n: nat) {
    forall j :: 0 <= j < n && j < |batch| ==> Done(g, walks, batch[j])
  }

  predicate Deep(walks: Walks, nodes: seq<int>, depth: nat) {
    nodes == [] || |WalkTo(walks, nodes[0])| >= depth
  }

  ghost predicate InBatch(g: Graph, start: int, batch: seq<int>, known: nat, i: nat, rest: seq<int>, depth: nat,
                          k: nat, walks: Walks, table: seq<int>)
  {
    && known <= |batch| && i <= |batch|
    && Pops(g, start, k) == Search(walks, Left(batch, known, i, rest, table))
    && Deep(walks, Left(batch, known, i, rest, table), depth) && Deep(walks, table, depth + 1)
  }

  lemma {:induction false} LeftAdvances(batch: seq<int>, known: nat, i: nat, rest: seq<int>, table: seq<int>,
                                        more: seq<int>)
    requires known <= i < |batch|
    ensures var queue := Left(batch, known, i, rest, table);
            && queue != [] && queue[0] == batch[i]
            && queue[1..] + more == Left(batch, known, i + 1, rest, table + more)
            && (table != [] ==> table[0] in queue[1..])
  {
    var queue := Left(batch, known, i, rest, table);
    if table != [] {
      assert queue[1..][|queue| - 1 - |table|] == table[0];
    }
  }

  lemma {:induction false} NewNodeAdvances(g: Graph, start: int, batch: seq<int>, known: nat, i: nat, rest: seq<int>,
                                           depth: nat,
                                           k: nat, walks: Walks, table: seq<int>)
    requires InBatch(g, start, batch, known, i, rest, depth, k, walks, table) && known <= i < |batch|
    ensures var v := Visit(walks, WalkTo(walks, batch[i]), RefsOf(g, batch[i]));
            InBatch(g, start, batch, known, i + 1, rest, depth, k + 1, v.0, table + v.1)
  {
    var v := Visit(walks, WalkTo(walks, batch[i]), RefsOf(g, batch[i]));
    LeftAdvances(batch, known, i, rest, table, v.1);
    VisitFacts(g, start, k);
  }

  lemma {:induction false} NodeAdvances(g: Graph, start: int, batch: seq<int>, known: nat, i: nat, rest: seq<int>,
                                        depth: nat,
                                        k: nat, walks: Walks, table: seq<int>)
    requires InBatch(g, start, batch, known, i, rest, depth, k, walks, table) && i < |batch|
    requires i < known ==> Done(g, walks, batch[i])
    ensures var v := Visit(walks, WalkTo(walks, batch[i]), RefsOf(g, batch[i]));
            InBatch(g, start, batch, known, i + 1, rest, depth, if i < known then k else k + 1, v.0, table + v.1)
  {
    if i < known {
      VisitNothingNew(walks, WalkTo(walks, batch[i]), RefsOf(g, batch[i]));
      assert table + [] == table;
      assert Left(batch, known, i + 1, rest, table) == Left(batch, known, i, rest, table);
    } else {
      NewNodeAdvances(g, start, batch, known, i, rest, depth, k, walks, table);
    }
  }

  function ParentPath(found: map<int, Found>, root: string, n: int): string {
    if n in found then found[n].path else "/" + root
  }

  lemma {:induction false} ParentPathIsCodePath(found: map<int, Found>, root: string, walks: Walks, n: int)
    requires Shows(found, root, walks)
    ensures ParentPath(found, root, n) == CodePath(root, WalkTo(walks, n))
  {
  }

  /** The records after the first `i` nodes of a batch, and the nodes to browse next. */
  function VisitAll(g: Graph, walks: Walks, batch: seq<int>, i: nat): (Walks, seq<int>)
    requires i <= |batch|
  {
    if i == 0 then (walks, [])
    else
      var before := VisitAll(g, walks, batch, i - 1);
      var v := Visit(before.0, WalkTo(before.0, batch[i - 1]), RefsOf(g, batch[i - 1]));
      (v.0, before.1 + v.1)
  }

  /** Nodes of the batch are done once visited. */
  lemma {:induction false} VisitedAreDone(g: Graph, walks: Walks, batch: seq<int>, i: nat)
    requires i <= |batch|
    ensures var ws := VisitAll(g, walks, batch, i).0; Extends(walks, ws) && AllDone(g, ws, batch, i)
    decreases i
  {
    if i > 0 {
      VisitedAreDone(g, walks, batch, i - 1);
      var before, n := VisitAll(g, walks, batch, i - 1).0, batch[i - 1];
      VisitExtends(before, WalkTo(before, n), RefsOf(g, n));
    }
  }

  lemma {:induction false} KnownStaysDone(g: Graph, walks: Walks, batch: seq<int>, known: nat, i: nat)
    requires i < |batch| && AllDone(g, walks, batch, known)
    ensures i < known ==> Done(g, VisitAll(g, walks, batch, i).0, batch[i])
  {
    VisitedAreDone(g, walks, batch, i);
    if i < known {
      assert Done(g, walks, batch[i]);
    }
  }

  /** The visits after `i` nodes of the batch; those browsed before do not count. */
  function VisitsAfter(k: nat, known: nat, i: nat): nat {
    if i == 0 then k else if i - 1 < known then VisitsAfter(k, known, i - 1) else VisitsAfter(k, known, i - 1) + 1
  }

  ghost predicate BatchAt(g: Graph, start: int, batch: seq<int>, known: nat, i: nat, rest: seq<int>, depth: nat, k: nat,
                          walks: Walks)
    requires i <= |batch|
  {
    var all := VisitAll(g, walks, batch, i);
    InBatch(g, start, batch, known, i, rest, depth, VisitsAfter(k, known, i), all.0, all.1)
  }

  lemma {:induction false} BatchAdvances(g: Graph, start: int, batch: seq<int>, known: nat, rest: seq<int>, depth: nat,
                                         k: nat, walks: Walks)
    requires BatchAt(g, start, batch, known, 0, rest, depth, k, walks) && AllDone(g, walks, batch, known)
    ensures BatchAt(g, start, batch, known, |batch|, rest, depth, k, walks)
  {
    var ws: Walks, table: seq<int>, j := walks, [], k;
    for i := 0 to |batch|
      invariant InBatch(g, start, batch, known, i, rest, depth, j, ws, table)
      invariant (ws, table) == VisitAll(g, walks, batch, i) && j == VisitsAfter(k, known, i)
    {
      KnownStaysDone(g, walks, batch, known, i);
      var v := Visit(ws, WalkTo(ws, batch[i]), RefsOf(g, batch[i]));
      NodeAdvances(g, start, batch, known, i, rest, depth, j, ws, table);
      ws, table, j := v.0, table + v.1, if i < known then j else j + 1;
    }
  }

  /** Processes the answers for one batch. */
  method ProcessBatch(g: Graph, root: string, batch: seq<int>, found0: map<int, Found>, ghost walks: Walks)
    returns (found: map<int, Found>, browseTable: seq<int>)
    requires Shows(found0, root, walks)
    ensures Shows(found, root, VisitAll(g, walks, batch, |batch|).0)
            && browseTable == VisitAll(g, walks, batch, |batch|).1
  {
    found, browseTable := found0, [];
    for i := 0 to |batch|
      invariant Shows(found, root, VisitAll(g, walks, batch, i).0) && browseTable == VisitAll(g, walks, batch, i).1
    {
      var n := batch[i];
      var parentPath := "/" + root;
      if n in found {
        parentPath := found[n].path;
      }
      ghost var seen := VisitAll(g, walks, batch, i).0;
      ParentPathIsCodePath(found, root, seen, n);
      var nodes;
      found, nodes := ProcessReferences(RefsOf(g, n), parentPath, found, root, seen, WalkTo(seen, n));
      browseTable := browseTable + nodes;
    }
  }

  /**
   The state between two requests.  `shorts` of them took the whole list and led one reference deeper, `fulls`
   were as long as the operation limit allows.  Without a limit the list keeps its first `known` nodes for ever.
   */
  datatype Progress = Progress(k: nat, walks: Walks, list: seq<int>, known: nat, fulls: nat, shorts: nat)

  ghost predicate Between(g: Graph, start: int, limit: nat, p: Progress) {
    && p.known <= |p.list| && p.fulls + p.shorts <= MAX_SEARCH_DEPTH
    && Pops(g, start, p.k) == Search(p.walks, p.list[p.known..]) && AllDone(g, p.walks, p.list, p.known)
    && Deep(p.walks, p.list[p.known..], p.shorts)
    && (if limit == 0 then p.list != [] && p.fulls == 0
        else p.known == 0 && p.fulls + p.shorts <= p.k && p.fulls * limit <= p.k)
  }

  function BatchOf(list: seq<int>, limit: nat): seq<int> {
    if limit == 0 || limit > |list| then list else list[..limit]
  }

  function RestOf(list: seq<int>, limit: nat): seq<int> {
    if limit == 0 then [] else list[|BatchOf(list, limit)|..]
  }

  /** Whether a request is as long as the limit allows. */
  predicate Full(list: seq<int>, limit: nat) {
    0 < limit <= |list|
  }

  /** What one request does to that state. */
  function AfterRequest(g: Graph, limit: nat, p: Progress): Progress {
    var batch := BatchOf(p.list, limit);
    var all := VisitAll(g, p.walks, batch, |batch|);
    var k := VisitsAfter(p.k, p.known, |batch|);
    if limit == 0 then Progress(k, all.0, p.list + all.1, |p.list|, 0, p.shorts + 1)
    else if Full(p.list, limit) then Progress(k, all.0, RestOf(p.list, limit) + all.1, 0, p.fulls + 1, p.shorts)
    else Progress(k, all.0, RestOf(p.list, limit) + all.1, 0, p.fulls, p.shorts + 1)
  }

  lemma {:induction false} BatchBegins(g: Graph, start: int, limit: nat, p: Progress)
    requires Between(g, start, limit, p) && p.list != []
    ensures BatchAt(g, start, BatchOf(p.list, limit), p.known, 0, RestOf(p.list, limit), p.shorts, p.k, p.walks)
    ensures AllDone(g, p.walks, BatchOf(p.list, limit), p.known)
  {
    assert Left(BatchOf(p.list, limit), p.known, 0, RestOf(p.list, limit), []) == p.list[p.known..];
  }

  lemma {:induction false} VisitsAfterIs(k: nat, known: nat, i: nat)
    ensures VisitsAfter(k, known, i) == if i < known then k else k + i - known
  {
    if i > 0 {
      VisitsAfterIs(k, known, i - 1);
    }
  }

  lemma {:induction false} OneMoreFull(fulls: nat, limit: nat)
    ensures (fulls + 1) * limit == fulls * limit + limit
  {
  }

  /** A batch is done: what is left of the list and the new nodes are still to be browsed. */
  ghost predicate BatchDone(g: Graph, start: int, limit: nat, p: Progress, k: nat, ws: Walks, table: seq<int>) {
    && Pops(g, start, k) == Search(ws, RestOf(p.list, limit) + table)
    && Deep(ws, RestOf(p.list, limit) + table, p.shorts) && Deep(ws, table, p.shorts + 1)
    && AllDone(g, ws, BatchOf(p.list, limit), |BatchOf(p.list, limit)|)
  }

  lemma {:induction false} LeftAtEnd(batch: seq<int>, known: nat, rest: seq<int>, table: seq<int>)
    requires known <= |batch|
    ensures Left(batch, known, |batch|, rest, table) == rest + table
  {
  }

  lemma {:induction false} BatchEnds(g: Graph, start: int, limit: nat, p: Progress)
    requires Between(g, start, limit, p) && p.list != []
    ensures var batch := BatchOf(p.list, limit);
            var all := VisitAll(g, p.walks, batch, |batch|);
            BatchDone(g, start, limit, p, VisitsAfter(p.k, p.known, |batch|), all.0, all.1)
  {
    var batch, rest := BatchOf(p.list, limit), RestOf(p.list, limit);
    BatchBegins(g, start, limit, p);
    BatchAdvances(g, start, batch, p.known, rest, p.shorts, p.k, p.walks);
    VisitedAreDone(g, p.walks, batch, |batch|);
    var all := VisitAll(g, p.walks, batch, |batch|);
    LeftAtEnd(batch, p.known, rest, all.1);
  }

  lemma {:induction false} UnlimitedNext(g: Graph, start: int, p: Progress, q: Progress, table: seq<int>)
    requires Between(g, start, 0, p) && p.shorts < MAX_SEARCH_DEPTH
    requires q.list == p.list + table && q.known == |p.list| && q.fulls == 0 && q.shorts == p.shorts + 1
    requires Pops(g, start, q.k) == Search(q.walks, table) && Deep(q.walks, table, q.shorts)
             && AllDone(g, q.walks, p.list, |p.list|)
    ensures Between(g, start, 0, q)
  {
    assert q.list[q.known..] == table;
    AllDoneMore(g, q.walks, p.list, table);
  }

  lemma {:induction false} LimitedNext(g: Graph, start: int, limit: nat, p: Progress, q: Progress)
    requires limit > 0 && Between(g, start, limit, p) && p.list != [] && p.fulls + p.shorts < MAX_SEARCH_DEPTH
    requires q.known == 0 && q.k == p.k + |BatchOf(p.list, limit)|
    requires q.fulls == p.fulls + (if Full(p.list, limit) then 1 else 0)
    requires q.shorts == p.shorts + (if Full(p.list, limit) then 0 else 1)
    requires Pops(g, start, q.k) == Search(q.walks, q.list) && Deep(q.walks, q.list, q.shorts)
    ensures Between(g, start, limit, q)
  {
    OneMoreFull(p.fulls, limit);
    assert q.list[0..] == q.list;
  }

  lemma {:induction false} AllDoneMore(g: Graph, walks: Walks, list: seq<int>, table: seq<int>)
    requires AllDone(g, walks, list, |list|)
    ensures AllDone(g, walks, list + table, |list|)
  {
    assert forall j :: 0 <= j < |list| ==> (list + table)[j] == list[j];
  }

  lemma {:induction false} RequestKeepsBetween(g: Graph, start: int, limit: nat, p: Progress)
    requires Between(g, start, limit, p) && p.list != [] && p.fulls + p.shorts < MAX_SEARCH_DEPTH
    ensures Between(g, start, limit, AfterRequest(g, limit, p))
  {
    var batch := BatchOf(p.list, limit);
    var all := VisitAll(g, p.walks, batch, |batch|);
    BatchEnds(g, start, limit, p);
    var q := AfterRequest(g, limit, p);
    if limit == 0 {
      assert [] + all.1 == all.1;
      UnlimitedNext(g, start, p, q, all.1);
    } else {
      VisitsAfterIs(p.k, p.known, |batch|);
      assert !Full(p.list, limit) ==> RestOf(p.list, limit) + all.1 == all.1;
      LimitedNext(g, start, limit, p, q);
    }
  }

  /**
   The whole browse.  The second result is the list of nodes that were still to be browsed; with no
   operation limit the program never shortens that list and always sends the maximum number of requests.
   */
  method BrowseFullAddressSpace(g: Graph, start: int, rootName: string, maxNodesPerBrowse: nat)
    returns (found: map<int, Found>, remaining: seq<int>)
    ensures forall t :: t in found ==> exists w :: BestWalk(g, start, rootName, t, w, found[t])
    ensures SameKind(g) && remaining == [] ==> forall w :: IsWalk(g, start, w) && w != [] ==> EndOf(start, w) in found
    ensures SameKind(g) && maxNodesPerBrowse == 0
            ==> forall w :: IsWalk(g, start, w) && 0 < |w| <= 128 ==> EndOf(start, w) in found
    ensures maxNodesPerBrowse == 0 ==> remaining != []
    ensures maxNodesPerBrowse > 0 && |AllTargets(g)| < 128 ==> remaining == []
    ensures maxNodesPerBrowse > 0 && SameKind(g) && EnoughRequests(g, start, maxNodesPerBrowse) ==> remaining == []
  {
    found, remaining := map[], [start];
    var searchDepth := 0;
    ghost var p := Progress(0, map[], [start], 0, 0, 0);
    assert [start][0..] == [start];
    while remaining != [] && searchDepth < MAX_SEARCH_DEPTH
      invariant Shows(found, rootName, p.walks) && searchDepth == p.fulls + p.shorts && remaining == p.list
      invariant Between(g, start, maxNodesPerBrowse, p)
      decreases MAX_SEARCH_DEPTH - searchDepth
    {
      var browseCollection :=
        if maxNodesPerBrowse == 0 || maxNodesPerBrowse > |remaining| then remaining else remaining[..maxNodesPerBrowse];
      RequestKeepsBetween(g, start, maxNodesPerBrowse, p);
      var browseTable;
      found, browseTable := ProcessBatch(g, rootName, browseCollection, found, p.walks);
      if maxNodesPerBrowse != 0 {
        remaining := remaining[|browseCollection|..];
      }
      remaining := remaining + browseTable;
      searchDepth := searchDepth + 1;
      p := AfterRequest(g, maxNodesPerBrowse, p);
    }
    BrowseConcludes(g, start, rootName, maxNodesPerBrowse, p, found);
  }

  /** What the last state of the browse means. */
  lemma {:induction false} BrowseConcludes(g: Graph, start: int, root: string, limit: nat, p: Progress,
                                           found: map<int, Found>)
    requires Shows(found, root, p.walks) && Between(g, start, limit, p)
    requires p.list == [] || p.fulls + p.shorts == MAX_SEARCH_DEPTH
    ensures forall t :: t in found ==> exists w :: BestWalk(g, start, root, t, w, found[t])
    ensures SameKind(g) && p.list == [] ==> forall w :: IsWalk(g, start, w) && w != [] ==> EndOf(start, w) in found
    ensures SameKind(g) && limit == 0
            ==> forall w :: IsWalk(g, start, w) && 0 < |w| <= MAX_SEARCH_DEPTH ==> EndOf(start, w) in found
    ensures limit > 0 && |AllTargets(g)| < MAX_SEARCH_DEPTH ==> p.list == []
    ensures limit > 0 && SameKind(g) && EnoughRequests(g, start, limit) ==> p.list == []
  {
    Concludes(g, start, root, p.k, found);
    RecordsAreBounded(g, start, p.k);
    if limit > 0 {
      assert p.list[0..] == p.list;
      if p.list != [] {
        CountedOnce(g, start, p.k);
      }
      if SameKind(g) && EnoughRequests(g, start, limit) {
        RequestsAreBounded(g, start, limit, p);
      }
    }
  }

  // ---------------------------------------------------------------- progress under an operation limit

  ghost predicate HasWalkWithin(g: Graph, start: int, t: int, depth: nat) {
    exists v :: IsWalk(g, start, v) && v != [] && EndOf(start, v) == t && |v| <= depth
  }

  /** Everything reachable is reachable within `depth` references. */
  ghost predicate WithinDepth(g: Graph, start: int, depth: nat) {
    forall w :: IsWalk(g, start, w) && w != [] ==> HasWalkWithin(g, start, EndOf(start, w), depth)
  }

  /** The nodes divided by the limit, and the depth, stay below the number of requests allowed. */
  ghost predicate EnoughRequests(g: Graph, start: int, limit: nat)
    requires limit > 0
  {
    exists depth: nat :: WithinDepth(g, start, depth) && |AllTargets(g)| / limit + depth < 128
  }

  lemma {:induction false} FrontWithinDepth(g: Graph, start: int, k: nat, depth: nat)
    requires SameKind(g) && WithinDepth(g, start, depth) && Pops(g, start, k).queue != []
    ensures var s := Pops(g, start, k); |WalkTo(s.walks, s.queue[0])| <= depth
  {
    var s := Pops(g, start, k);
    PopsSearching(g, start, k);
    var t := s.queue[0];
    if t in s.walks {
      assert HasWalkWithin(g, start, EndOf(start, s.walks[t]), depth);
      var v :| IsWalk(g, start, v) && v != [] && EndOf(start, v) == t && |v| <= depth;
      assert Beaten(start, s.walks, v);
    }
  }

  /** Full requests consume the nodes, the others the depth of the address space. */
  lemma {:induction false} RequestsAreBounded(g: Graph, start: int, limit: nat, p: Progress)
    requires limit > 0 && SameKind(g) && EnoughRequests(g, start, limit) && Between(g, start, limit, p)
    ensures p.list != [] ==> p.fulls + p.shorts < MAX_SEARCH_DEPTH
  {
    if p.list != [] {
      var depth: nat :| WithinDepth(g, start, depth) && |AllTargets(g)| / limit + depth < 128;
      assert p.list[0..] == p.list;
      CountedOnce(g, start, p.k);
      RecordsAreBounded(g, start, p.k);
      FrontWithinDepth(g, start, p.k, depth);
      AtMostQuotient(p.fulls, limit, |AllTargets(g)|);
    }
  }

  lemma {:induction false} AtMostQuotient(n: nat, d: nat, total: nat)
    requires d > 0 && n * d <= total
    ensures n <= total / d
  {
    var q := total / d;
    assert n > q ==> n * d >= (q + 1) * d;
  }

  function Unrecorded(g: Graph, walks: Walks): set<int> {
    AllTargets(g) - walks.Keys
  }

  /** `ws` adds targets to the records, at least one for each node of `nodes`. */
  predicate Adds(g: Graph, walks: Walks, ws: Walks, nodes: seq<int>) {
    Extends(walks, ws) && ws.Keys <= walks.Keys + AllTargets(g) && |nodes| + |walks| <= |ws|
  }

  lemma {:induction false} AddsTransitive(g: Graph, a: Walks, b: Walks, c: Walks, xs: seq<int>, ys: seq<int>)
    requires Adds(g, a, b, xs) && Adds(g, b, c, ys)
    ensures Adds(g, a, c, xs + ys)
  {
  }

  lemma {:induction false} VisitAllAdds(g: Graph, walks: Walks, batch: seq<int>, i: nat)
    requires i <= |batch|
    ensures Adds(g, walks, VisitAll(g, walks, batch, i).0, VisitAll(g, walks, batch, i).1)
  {
    var ws: Walks, table: seq<int> := walks, [];
    for j := 0 to i
      invariant Adds(g, walks, ws, table) && (ws, table) == VisitAll(g, walks, batch, j)
    {
      var v := Visit(ws, WalkTo(ws, batch[j]), RefsOf(g, batch[j]));
      VisitAddsTargets(g, ws, batch[j]);
      AddsTransitive(g, walks, ws, v.0, table, v.1);
      ws, table := v.0, table + v.1;
    }
  }

  lemma {:induction false} VisitAddsTargets(g: Graph, walks: Walks, n: int)
    ensures var v := Visit(walks, WalkTo(walks, n), RefsOf(g, n)); Adds(g, walks, v.0, v.1)
  {
    VisitExtends(walks, WalkTo(walks, n), RefsOf(g, n));
    VisitRecordsTargets(g, walks, n);
  }

  lemma {:induction false} VisitRecordsTargets(g: Graph, walks: Walks, n: int)
    ensures Visit(walks, WalkTo(walks, n), RefsOf(g, n)).0.Keys <= walks.Keys + AllTargets(g)
  {
    var base, refs := WalkTo(walks, n), RefsOf(g, n);
    VisitAdds(walks, base, refs);
    forall t | t in Visit(walks, base, refs).0 && t !in walks
      ensures t in AllTargets(g)
    {
      assert OneStep(base, refs, t, Visit(walks, base, refs).0[t]);
      var x :| x in refs && x.target == t;
      var i :| 0 <= i < |g[n]| && g[n][i] == x;
    }
  }

  /** With a limit every request decreases the unrecorded nodes, or keeps them and shortens the list. */
  lemma {:induction false} RequestMakesProgress(g: Graph, walks: Walks, list: seq<int>, limit: nat)
    requires limit > 0 && list != []
    ensures var batch := BatchOf(list, limit);
            var all := VisitAll(g, walks, batch, |batch|);
            || Unrecorded(g, all.0) < Unrecorded(g, walks)
            || (Unrecorded(g, all.0) == Unrecorded(g, walks) && |RestOf(list, limit) + all.1| < |list|)
  {
    var batch := BatchOf(list, limit);
    var all := VisitAll(g, walks, batch, |batch|);
    VisitAllAdds(g, walks, batch, |batch|);
    if all.1 != [] {
      MoreKeys(walks.Keys, all.0.Keys);
      var t :| t in all.0.Keys && t !in walks.Keys;
      assert t in Unrecorded(g, walks) && t !in Unrecorded(g, all.0);
    }
  }

  lemma {:induction false} MoreKeys(a: set<int>, b: set<int>)
    requires a <= b && |a| < |b|
    ensures exists t :: t in b && t !in a
  {
    assert (forall t :: t in b ==> t in a) ==> a == b;
  }

  /** A real walk to `t` that is filed for it, and the shortest one when property nodes are only properties. */
  ghost predicate BestWalk(g: Graph, start: int, root: string, t: int, w: seq<Ref>, f: Found) {
    && IsWalk(g, start, w) && w != [] && w[|w| - 1].target == t && f.ref == w[|w| - 1] && f.path == CodePath(root, w)
    && (SameKind(g) ==> forall v :: IsWalk(g, start, v) && v != [] && EndOf(start, v) == t ==> |w| <= |v|)
  }

  lemma {:induction false} FiledIsBest(g: Graph, start: int, root: string, k: nat, found: map<int, Found>, t: int)
    requires Shows(found, root, Pops(g, start, k).walks) && t in found
    ensures exists w :: BestWalk(g, start, root, t, w, found[t])
  {
    var walks := Pops(g, start, k).walks;
    PopsSearching(g, start, k);
    if SameKind(g) {
      forall v | IsWalk(g, start, v) && v != [] && EndOf(start, v) == t
        ensures |walks[t]| <= |v|
      {
        assert Beaten(start, walks, v);
      }
    }
    assert BestWalk(g, start, root, t, walks[t], found[t]);
  }

  lemma {:induction false} WalkEndIsRecorded(g: Graph, start: int, k: nat, w: seq<Ref>)
    requires SameKind(g) && IsWalk(g, start, w) && w != []
    requires var s := Pops(g, start, k); s.queue == [] || |w| <= |WalkTo(s.walks, s.queue[0])|
    ensures EndOf(start, w) in Pops(g, start, k).walks
  {
    var s := Pops(g, start, k);
    PopsSearching(g, start, k);
    if s.queue == [] {
      EmptyQueueMeansComplete(g, start, s.walks, w);
    } else {
      assert Beaten(start, s.walks, w);
    }
  }

  lemma {:induction false} Concludes(g: Graph, start: int, root: string, k: nat, found: map<int, Found>)
    requires Shows(found, root, Pops(g, start, k).walks)
    ensures forall t :: t in found ==> exists w :: BestWalk(g, start, root, t, w, found[t])
    ensures var s := Pops(g, start, k);
            SameKind(g) ==>
              forall w :: (IsWalk(g, start, w) && w != [] && (s.queue == [] || |w| <= |WalkTo(s.walks, s.queue[0])|)
                           ==> EndOf(start, w) in found)
  {
    forall t | t in found
      ensures exists w :: BestWalk(g, start, root, t, w, found[t])
    {
      FiledIsBest(g, start, root, k, found, t);
    }
    var s := Pops(g, start, k);
    forall w | SameKind(g) && IsWalk(g, start, w) && w != [] && (s.queue == [] || |w| <= |WalkTo(s.walks, s.queue[0])|)
      ensures EndOf(start, w) in found
    {
      WalkEndIsRecorded(g, start, k, w);
    }
  }

  /**
   Nodes are queued once: as long as something is queued, the visited and the queued nodes are recorded ones
   and the start.
   */
  lemma {:induction false} CountedOnce(g: Graph, start: int, k: nat)
    requires Pops(g, start, k).queue != []
    ensures k + |Pops(g, start, k).queue| <= |Pops(g, start, k).walks| + 1
  {
    if k > 0 {
      CountedOnce(g, start, k - 1);
      VisitFacts(g, start, k - 1);
    }
  }

  lemma {:induction false} RecordsAreBounded(g: Graph, start: int, k: nat)
    ensures |Pops(g, start, k).walks| <= |AllTargets(g)|
  {
    PopsSearching(g, start, k);
    RecordedAreTargets(g, start, Pops(g, start, k).walks);
  }

  lemma {:induction false} SubsetSize(a: set<int>, b: set<int>)
    requires a <= b
    ensures |a| <= |b|
  {
    assert b == a + (b - a);
  }

  lemma {:induction false} RecordedAreTargets(g: Graph, start: int, walks: Walks)
    requires Real(g, start, walks)
    ensures |walks| <= |AllTargets(g)|
  {
    forall t | t in walks.Keys
      ensures t in AllTargets(g)
    {
      var w := walks[t];
      var n := EndOf(start, w[..|w| - 1]);
      assert w[|w| - 1] in RefsOf(g, n);
      var i :| 0 <= i < |g[n]| && g[n][i] == w[|w| - 1];
    }
    SubsetSize(walks.Keys, AllTargets(g));
  }

  // ---------------------------------------------------------------- the path strings

  function Names(w: seq<Ref>): seq<string> {
    seq(|w|, i requires 0 <= i < |w| => w[i].name)
  }

  predicate Segment(name: string) {
    name != "" && Plain(name)
  }

  /** With ordinary names, the recorded path is the root and the names along the walk, joined by slashes. */
  lemma {:induction false} PathSpellsWalk(root: string, w: seq<Ref>)
    requires Segment(root) && forall i :: 0 <= i < |w| ==> Segment(w[i].name)
    ensures CodePath(root, w) == Extend("/" + root, Names(w))
    ensures CodePath(root, w)[|CodePath(root, w)| - 1] != '/'
    decreases |w|
  {
    if w != [] {
      var front := w[..|w| - 1];
      PathSpellsWalk(root, front);
      assert Names(w)[..|w| - 1] == Names(front);
    }
  }

  // ---------------------------------------------------------------- what a walk is

  /** A walk follows references the server answered, from the start on, and only its last may be a property. */
  lemma {:induction false} IsWalkIff(g: Graph, start: int, w: seq<Ref>)
    ensures IsWalk(g, start, w)
            <==> forall k: nat :: k < |w| ==> FollowsAt(g, start, w, k)
    decreases |w|
  {
    if w != [] {
      var front := w[..|w| - 1];
      IsWalkIff(g, start, front);
      forall k: nat | k < |front|
        ensures FollowsAt(g, start, front, k) == FollowsAt(g, start, w, k)
      {
        assert front[k] == w[k] && (k > 0 ==> front[k - 1] == w[k - 1]);
      }
      assert front != [] ==> front[|front| - 1] == w[|w| - 2];
      assert FollowsAt(g, start, w, |w| - 1) <==> Enterable(front) && w[|w| - 1] in RefsOf(g, EndOf(start, front));
    }
  }

  /** Reference `k` leaves the target of the one before, which is no property, or the start. */
  predicate FollowsAt(g: Graph, start: int, w: seq<Ref>, k: nat)
    requires k < |w|
  {
    && (k > 0 ==> !w[k - 1].hasProperty)
    && (var n := if k == 0 then start else w[k - 1].target; n in g && w[k] in g[n])
  }
}
