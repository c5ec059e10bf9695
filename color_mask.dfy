/** The pixel kernels of the ball detector (src/models/colorDetection.js):
    building a binary mask for one colour, collecting 4-connected components
    with an explicit stack, counting boundary pixels, and keeping the
    components whose size and roundness qualify them as balls. */
module ColorMask {
  import opened Common
  import opened ColorSpace

  datatype Pixel = Pixel(x: int, y: int)

  predicate InBounds(p: Pixel, width: int, height: int)
  {
    0 <= p.x < width && 0 <= p.y < height
  }

  /** The row-major position of a pixel in the mask. */
  function Index(p: Pixel, width: int): int
  {
    p.y * width + p.x
  }

  lemma IndexInRange(p: Pixel, width: int, height: int)
    requires InBounds(p, width, height)
    ensures 0 <= Index(p, width) < width * height
  {
    assert p.y * width <= (height - 1) * width;
  }

  /** Two in-bounds pixels with the same index are the same pixel. */
  lemma IndexInjective(p: Pixel, q: Pixel, width: int)
    requires 0 <= p.x < width && 0 <= q.x < width
    requires Index(p, width) == Index(q, width)
    ensures p == q
  {
    DivModUnique(Index(p, width), width, p.y, p.x);
    DivModUnique(Index(q, width), width, q.y, q.x);
  }

  /** The four neighbours, in the order the flood fill pushes them. */
  function Neighbours(p: Pixel): seq<Pixel>
  {
    [Pixel(p.x + 1, p.y), Pixel(p.x - 1, p.y), Pixel(p.x, p.y + 1), Pixel(p.x, p.y - 1)]
  }

  function IndexSet(c: seq<Pixel>, width: int): set<int>
  {
    set p | p in c :: Index(p, width)
  }

  // ---------------------------------------------------------------------------
  // _createColorMask
  // ---------------------------------------------------------------------------

  /** The mask entry of pixel i, whose RGBA bytes start at data[4 * i]. */
  function MaskEntry(data: seq<Byte>, i: nat, c: ColorRange): Byte
    requires 4 * i + 2 < |data|
  {
    if InColorRange(RgbToHsv(data[4 * i], data[4 * i + 1], data[4 * i + 2]), c) then 255 else 0
  }

  /** One entry per pixel: 255 where the pixel's HSV lies in the primary range
      or in a second range that has both bounds, 0 elsewhere. */
  method CreateColorMask(data: seq<Byte>, width: nat, height: nat, c: ColorRange) returns (mask: array<Byte>)
    requires |data| == 4 * (width * height)
    ensures fresh(mask) && mask.Length == width * height
    ensures forall i :: 0 <= i < mask.Length ==> mask[i] == MaskEntry(data, i, c)
  {
    mask := new Byte[width * height](_ => 0);
    var i := 0;
    while i < |data|
      invariant 0 <= i <= |data| && i % 4 == 0
      invariant forall j :: 0 <= j < i / 4 ==> mask[j] == MaskEntry(data, j, c)
    {
      var hsv := RgbToHsv(data[i], data[i + 1], data[i + 2]);
      var inRange := IsInHsvRange(hsv, c.lower, c.upper);
      if !inRange && c.lower2.Some? && c.upper2.Some? {
        inRange := IsInHsvRange(hsv, c.lower2.value, c.upper2.value);
      }
      var pixelIndex := i / 4;
      mask[pixelIndex] := if inRange then 255 else 0;
      i := i + 4;
    }
  }

  // ---------------------------------------------------------------------------
  // _floodFill
  // ---------------------------------------------------------------------------

  /** A pixel the fill may take: inside the image, set in the mask, and not
      visited before the fill began. */
  predicate Fillable(m: seq<Byte>, width: int, height: int, visited: set<int>, p: Pixel)
  {
    InBounds(p, width, height) && 0 <= Index(p, width) < |m|
    && Index(p, width) !in visited && m[Index(p, width)] == 255
  }

  /** The mask positions not yet visited: the fill's termination measure. */
  function Unvisited(n: int, visited: set<int>): set<int>
  {
    set i | 0 <= i < n && i !in visited
  }

  /** The fill returns pixels it may take, each once, adds exactly their
      indices to visited and starts at the start pixel (it is empty when that
      pixel may not be taken). The pixels returned are exactly those
      reachable from the start pixel by 4-neighbour steps through pixels the
      fill may take: each is a neighbour of an earlier one, and every
      neighbour of one that the fill may take is returned too. */
  method FloodFill(mask: array<Byte>, width: nat, height: nat, startX: int, startY: int, visited: set<int>)
    returns (component: seq<Pixel>, visited': set<int>)
    requires mask.Length == width * height
    ensures forall i :: 0 <= i < |component| ==> Fillable(mask[..], width, height, visited, component[i])
    ensures forall i, j :: 0 <= i < j < |component| ==> Index(component[i], width) != Index(component[j], width)
    ensures visited' == visited + IndexSet(component, width)
    ensures component != [] <==> Fillable(mask[..], width, height, visited, Pixel(startX, startY))
    ensures component != [] ==> component[0] == Pixel(startX, startY)
    ensures Linked(component) && Closed(mask[..], width, height, visited, component)
    ensures forall q :: q in component <==> Reachable(mask[..], width, height, visited, Pixel(startX, startY), q)
  {
    ghost var m := mask[..];
    ghost var start := Pixel(startX, startY);
    component := [];
    visited' := visited;
    var stack := [Pixel(startX, startY)];
    assert IndexSet([], width) == {};
    while stack != []
      invariant FillInv(m, width, height, visited, start, component, stack, visited')
      decreases |Unvisited(mask.Length, visited')|, |stack|
    {
      var p := stack[|stack| - 1];
      assert stack == stack[..|stack| - 1] + [p];
      stack := stack[..|stack| - 1];
      var index := p.y * width + p.x;
      if p.x < 0 || p.x >= width || p.y < 0 || p.y >= height {
        SkipKeepsFillInv(m, width, height, visited, start, component, stack, visited', p);
        continue;
      }
      IndexInRange(p, width, height);
      if index in visited' || mask[index] != 255 {
        SkipKeepsFillInv(m, width, height, visited, start, component, stack, visited', p);
        continue;
      }
      TakeKeepsFillInv(m, width, height, visited, start, component, stack, visited', p);
      visited' := visited' + {index};
      component := component + [p];
      stack := stack + Neighbours(p);
    }
    FillDone(m, width, height, visited, start, component, visited');
    FillIsRegion(m, width, height, visited, start, component);
  }

  /** The flood fill's loop invariant. */
  ghost predicate FillInv(m: seq<Byte>, width: int, height: int, visited: set<int>, start: Pixel,
                          component: seq<Pixel>, stack: seq<Pixel>, vis: set<int>)
  {
    && vis == visited + IndexSet(component, width)
    && (forall i :: 0 <= i < |component| ==> Fillable(m, width, height, visited, component[i]))
    && (forall i, j :: 0 <= i < j < |component| ==> Index(component[i], width) != Index(component[j], width))
    && (component == [] ==> stack == [start] || (stack == [] && !Fillable(m, width, height, visited, start)))
    && (component != [] ==> component[0] == start)
    && ClosedUpTo(m, width, height, visited, component, stack, vis)
    && Grown(component, stack)
  }

  /** Popping a pixel the fill may not take keeps the invariant. */
  lemma SkipKeepsFillInv(m: seq<Byte>, width: int, height: int, visited: set<int>, start: Pixel,
                         component: seq<Pixel>, stack: seq<Pixel>, vis: set<int>, p: Pixel)
    requires FillInv(m, width, height, visited, start, component, stack + [p], vis)
    requires !InBounds(p, width, height) || Index(p, width) in vis
             || (0 <= Index(p, width) < |m| && m[Index(p, width)] != 255)
    ensures FillInv(m, width, height, visited, start, component, stack, vis)
  {
    ClosedAfterSkip(m, width, height, visited, component, stack, vis, p);
    GrownAfterSkip(component, stack, p);
    if component == [] {
      assert IndexSet(component, width) == {};
      assert stack + [p] == [start];
      assert |stack| == 0 && (stack + [p])[0] == p;
    }
  }

  /** Taking an in-bounds, set, unvisited pixel keeps the invariant and
      shrinks the unvisited positions. */
  lemma TakeKeepsFillInv(m: seq<Byte>, width: int, height: int, visited: set<int>, start: Pixel,
                         component: seq<Pixel>, stack: seq<Pixel>, vis: set<int>, p: Pixel)
    requires FillInv(m, width, height, visited, start, component, stack + [p], vis)
    requires InBounds(p, width, height) && 0 <= Index(p, width) < |m|
    requires Index(p, width) !in vis && m[Index(p, width)] == 255
    ensures FillInv(m, width, height, visited, start, component + [p], stack + Neighbours(p), vis + {Index(p, width)})
    ensures |Unvisited(|m|, vis + {Index(p, width)})| < |Unvisited(|m|, vis)|
  {
    FillStep(|m|, vis, component, p, width);
    ClosedAfterTake(m, width, height, visited, component, stack, vis, p);
    assert component == [] ==> |stack + [p]| == 1;
    GrownAfterTake(component, stack, p);
    var c := component + [p];
    forall i | 0 <= i < |c|
      ensures Fillable(m, width, height, visited, c[i])
    {
      if i < |component| {
        assert c[i] == component[i];
      }
    }
    forall i, j | 0 <= i < j < |c|
      ensures Index(c[i], width) != Index(c[j], width)
    {
      assert c[i] == component[i];
      if j < |component| {
        assert c[j] == component[j];
      }
    }
    if component == [] {
      assert stack + [p] == [start];
    }
  }

  /** With the stack empty, the invariant gives FloodFill's postcondition. */
  lemma FillDone(m: seq<Byte>, width: int, height: int, visited: set<int>, start: Pixel,
                 component: seq<Pixel>, vis: set<int>)
    requires FillInv(m, width, height, visited, start, component, [], vis)
    requires forall i :: 0 <= i < |component| ==> 0 <= component[i].x < width
    ensures component != [] <==> Fillable(m, width, height, visited, start)
    ensures Closed(m, width, height, visited, component)
  {
    forall i, k | 0 <= i < |component| && 0 <= k < 4 && Fillable(m, width, height, visited, Neighbours(component[i])[k])
      ensures Neighbours(component[i])[k] in component
    {
      var q := Neighbours(component[i])[k];
      assert Index(q, width) in vis;
      var c :| c in component && Index(c, width) == Index(q, width);
      var j :| 0 <= j < |component| && component[j] == c;
      IndexInjective(c, q, width);
    }
  }

  /** The finished fill is the region of the start pixel: a non-empty fill is
      a region starting there, and an empty one means the start pixel may not
      be taken, so nothing is reachable from it. */
  lemma FillIsRegion(m: seq<Byte>, width: int, height: int, visited: set<int>, start: Pixel, component: seq<Pixel>)
    requires forall i :: 0 <= i < |component| ==> Fillable(m, width, height, visited, component[i])
    requires component != [] <==> Fillable(m, width, height, visited, start)
    requires component != [] ==> component[0] == start
    requires Linked(component) && Closed(m, width, height, visited, component)
    ensures forall q :: q in component <==> Reachable(m, width, height, visited, start, q)
  {
    forall q
      ensures q in component <==> Reachable(m, width, height, visited, start, q)
    {
      if component != [] {
        RegionIsReachable(m, width, height, visited, component, q);
      }
    }
  }

  /** Every neighbour of a pixel of c that the fill may take is in c. */
  ghost predicate Closed(m: seq<Byte>, width: int, height: int, visited: set<int>, c: seq<Pixel>)
  {
    forall i, k ::
      0 <= i < |c| && 0 <= k < 4 && Fillable(m, width, height, visited, Neighbours(c[i])[k])
      ==> Neighbours(c[i])[k] in c
  }

  /** q is one of p's four neighbours. */
  predicate Adjacent(p: Pixel, q: Pixel)
  {
    q in Neighbours(p)
  }

  /** Every pixel after the first is a neighbour of an earlier one, so the
      whole sequence is 4-connected to its first pixel. */
  ghost predicate Linked(c: seq<Pixel>)
  {
    forall i :: 0 < i < |c| ==> LinkedAt(c, i)
  }

  /** c[i] is a neighbour of an earlier pixel of c. */
  ghost predicate LinkedAt(c: seq<Pixel>, i: int)
    requires 0 <= i < |c|
  {
    exists j :: 0 <= j < i && Adjacent(c[j], c[i])
  }

  /** q is a neighbour of some pixel of c. */
  ghost predicate Touches(c: seq<Pixel>, q: Pixel)
  {
    exists j :: 0 <= j < |c| && Adjacent(c[j], q)
  }

  /** The fill's growth so far: the taken pixels are linked, and once one is
      taken every pixel waiting on the stack neighbours a taken pixel. */
  ghost predicate Grown(component: seq<Pixel>, stack: seq<Pixel>)
  {
    Linked(component) && (component != [] ==> forall i :: 0 <= i < |stack| ==> Touches(component, stack[i]))
  }

  lemma GrownAfterSkip(component: seq<Pixel>, stack: seq<Pixel>, p: Pixel)
    requires Grown(component, stack + [p])
    ensures Grown(component, stack)
  {
    if component != [] {
      forall i | 0 <= i < |stack|
        ensures Touches(component, stack[i])
      {
        assert stack[i] == (stack + [p])[i];
      }
    }
  }

  /** Taking the popped pixel, which neighbours a taken pixel unless it is
      the first, and pushing its neighbours keeps the growth linked. */
  lemma GrownAfterTake(component: seq<Pixel>, stack: seq<Pixel>, p: Pixel)
    requires Grown(component, stack + [p])
    requires component == [] ==> stack == []
    ensures Grown(component + [p], stack + Neighbours(p))
  {
    var c := component + [p];
    if component != [] {
      assert (stack + [p])[|stack|] == p;
      assert Touches(component, p);
    }
    forall i | 0 < i < |c|
      ensures LinkedAt(c, i)
    {
      if i < |component| {
        assert LinkedAt(component, i);
        var j :| 0 <= j < i && Adjacent(component[j], component[i]);
        assert c[j] == component[j] && c[i] == component[i];
      } else {
        var j :| 0 <= j < |component| && Adjacent(component[j], p);
        assert c[j] == component[j] && c[i] == p;
      }
    }
    var s := stack + Neighbours(p);
    forall i | 0 <= i < |s|
      ensures Touches(c, s[i])
    {
      if i < |stack| {
        assert s[i] == (stack + [p])[i];
        var j :| 0 <= j < |component| && Adjacent(component[j], s[i]);
        assert c[j] == component[j];
      } else {
        assert c[|component|] == p;
        assert s[i] == Neighbours(p)[i - |stack|];
      }
    }
  }

  // ---------------------------------------------------------------------------
  // Regions
  // ---------------------------------------------------------------------------

  /** A chain of 4-neighbour steps through pixels the fill may take. */
  ghost predicate FillPath(m: seq<Byte>, width: int, height: int, visited: set<int>, path: seq<Pixel>)
  {
    && path != []
    && (forall i :: 0 <= i < |path| ==> Fillable(m, width, height, visited, path[i]))
    && (forall i :: 0 <= i < |path| - 1 ==> Adjacent(path[i], path[i + 1]))
  }

  /** q is reached from start by such a chain. */
  ghost predicate Reachable(m: seq<Byte>, width: int, height: int, visited: set<int>, start: Pixel, q: Pixel)
  {
    exists path :: FillPath(m, width, height, visited, path) && path[0] == start && path[|path| - 1] == q
  }

  /** A non-empty, linked, closed sequence of pixels the fill may take: the
      4-connected region of its first pixel. */
  ghost predicate Region(m: seq<Byte>, width: int, height: int, visited: set<int>, c: seq<Pixel>)
  {
    && c != []
    && (forall i :: 0 <= i < |c| ==> Fillable(m, width, height, visited, c[i]))
    && Linked(c)
    && Closed(m, width, height, visited, c)
  }

  /** In a linked sequence, each pixel is reached from the first one. */
  lemma {:induction false} LinkedPath(m: seq<Byte>, width: int, height: int, visited: set<int>, c: seq<Pixel>, i: int)
    returns (path: seq<Pixel>)
    requires forall j :: 0 <= j < |c| ==> Fillable(m, width, height, visited, c[j])
    requires Linked(c) && 0 <= i < |c|
    ensures FillPath(m, width, height, visited, path) && path[0] == c[0] && path[|path| - 1] == c[i]
    decreases i
  {
    if i == 0 {
      path := [c[0]];
    } else {
      assert LinkedAt(c, i);
      var j :| 0 <= j < i && Adjacent(c[j], c[i]);
      var pre := LinkedPath(m, width, height, visited, c, j);
      path := pre + [c[i]];
      forall k | 0 <= k < |path|
        ensures Fillable(m, width, height, visited, path[k])
      {
        if k < |pre| {
          assert path[k] == pre[k];
        }
      }
      forall k | 0 <= k < |path| - 1
        ensures Adjacent(path[k], path[k + 1])
      {
        if k < |pre| - 1 {
          assert path[k] == pre[k] && path[k + 1] == pre[k + 1];
        } else {
          assert path[k] == pre[|pre| - 1] == c[j];
        }
      }
    }
  }

  /** A chain that starts in a closed sequence never leaves it. */
  lemma {:induction false} PathStaysIn(m: seq<Byte>, width: int, height: int, visited: set<int>, c: seq<Pixel>,
                                       path: seq<Pixel>)
    requires Closed(m, width, height, visited, c)
    requires FillPath(m, width, height, visited, path) && path[0] in c
    ensures path[|path| - 1] in c
    decreases |path|
  {
    if |path| > 1 {
      var pre := path[..|path| - 1];
      assert FillPath(m, width, height, visited, pre) by {
        assert forall k :: 0 <= k < |pre| ==> pre[k] == path[k];
      }
      PathStaysIn(m, width, height, visited, c, pre);
      var p := path[|path| - 2];
      var q := path[|path| - 1];
      assert Adjacent(p, q);
      var i :| 0 <= i < |c| && c[i] == p;
      var k :| 0 <= k < 4 && Neighbours(p)[k] == q;
      assert Fillable(m, width, height, visited, Neighbours(c[i])[k]);
    }
  }

  /** A region holds exactly the pixels reachable from its first pixel. */
  lemma RegionIsReachable(m: seq<Byte>, width: int, height: int, visited: set<int>, c: seq<Pixel>, q: Pixel)
    requires Region(m, width, height, visited, c)
    ensures q in c <==> Reachable(m, width, height, visited, c[0], q)
  {
    if q in c {
      var i :| 0 <= i < |c| && c[i] == q;
      var path := LinkedPath(m, width, height, visited, c, i);
    }
    if Reachable(m, width, height, visited, c[0], q) {
      var path :| FillPath(m, width, height, visited, path) && path[0] == c[0] && path[|path| - 1] == q;
      PathStaysIn(m, width, height, visited, c, path);
    }
  }

  /** The fill's frontier: every neighbour of a taken pixel that the fill may
      take is still on the stack or already visited. */
  ghost predicate ClosedUpTo(m: seq<Byte>, width: int, height: int, visited: set<int>,
                             component: seq<Pixel>, stack: seq<Pixel>, vis: set<int>)
  {
    forall i, k ::
      0 <= i < |component| && 0 <= k < 4 && Fillable(m, width, height, visited, Neighbours(component[i])[k])
      ==> Neighbours(component[i])[k] in stack || Index(Neighbours(component[i])[k], width) in vis
  }

  /** Popping a pixel the fill may not take keeps the frontier. */
  lemma ClosedAfterSkip(m: seq<Byte>, width: int, height: int, visited: set<int>,
                        component: seq<Pixel>, stack: seq<Pixel>, vis: set<int>, p: Pixel)
    requires ClosedUpTo(m, width, height, visited, component, stack + [p], vis)
    requires visited <= vis
    requires !InBounds(p, width, height) || Index(p, width) in vis
             || (0 <= Index(p, width) < |m| && m[Index(p, width)] != 255)
    ensures ClosedUpTo(m, width, height, visited, component, stack, vis)
  {
    forall i, k | 0 <= i < |component| && 0 <= k < 4 && Fillable(m, width, height, visited, Neighbours(component[i])[k])
      ensures Neighbours(component[i])[k] in stack || Index(Neighbours(component[i])[k], width) in vis
    {
      var q := Neighbours(component[i])[k];
      assert q in stack + [p] || Index(q, width) in vis;
    }
  }

  /** Taking a popped pixel and pushing its neighbours keeps the frontier. */
  lemma ClosedAfterTake(m: seq<Byte>, width: int, height: int, visited: set<int>,
                        component: seq<Pixel>, stack: seq<Pixel>, vis: set<int>, p: Pixel)
    requires ClosedUpTo(m, width, height, visited, component, stack + [p], vis)
    ensures ClosedUpTo(m, width, height, visited, component + [p], stack + Neighbours(p), vis + {Index(p, width)})
  {
    var c := component + [p];
    forall i, k | 0 <= i < |c| && 0 <= k < 4 && Fillable(m, width, height, visited, Neighbours(c[i])[k])
      ensures Neighbours(c[i])[k] in stack + Neighbours(p) || Index(Neighbours(c[i])[k], width) in vis + {Index(p, width)}
    {
      var q := Neighbours(c[i])[k];
      if i < |component| {
        assert c[i] == component[i];
        assert q in stack + [p] || Index(q, width) in vis;
      } else {
        assert q == Neighbours(p)[k];
      }
    }
  }

  /** Taking an unvisited pixel shrinks the unvisited set and keeps indices
      distinct. */
  lemma FillStep(n: int, visited: set<int>, component: seq<Pixel>, p: Pixel, width: int)
    requires 0 <= Index(p, width) < n && Index(p, width) !in visited
    requires IndexSet(component, width) <= visited
    ensures |Unvisited(n, visited + {Index(p, width)})| < |Unvisited(n, visited)|
    ensures IndexSet(component + [p], width) == IndexSet(component, width) + {Index(p, width)}
    ensures forall i :: 0 <= i < |component| ==> Index(component[i], width) != Index(p, width)
  {
    var i := Index(p, width);
    assert Unvisited(n, visited) == Unvisited(n, visited + {i}) + {i};
    forall j | 0 <= j < |component|
      ensures Index(component[j], width) != i
    {
      assert Index(component[j], width) in IndexSet(component, width);
    }
  }

  // ---------------------------------------------------------------------------
  // _estimatePerimeter
  // ---------------------------------------------------------------------------

  function PointSet(c: seq<Pixel>): set<Pixel>
  {
    set p | p in c
  }

  /** A pixel with at least one of its four neighbours outside the set. */
  predicate OnBoundary(p: Pixel, points: set<Pixel>)
  {
    exists k :: 0 <= k < 4 && Neighbours(p)[k] !in points
  }

  /** How many entries of c lie on the boundary of points. */
  function BoundaryCount(c: seq<Pixel>, points: set<Pixel>): (n: nat)
    ensures n <= |c|
  {
    if c == [] then 0
    else BoundaryCount(c[..|c| - 1], points) + (if OnBoundary(c[|c| - 1], points) then 1 else 0)
  }

  lemma {:induction false} BoundaryCountPositive(c: seq<Pixel>, points: set<Pixel>, i: nat)
    requires i < |c| && OnBoundary(c[i], points)
    ensures BoundaryCount(c, points) >= 1
    decreases |c|
  {
    if i < |c| - 1 {
      BoundaryCountPositive(c[..|c| - 1], points, i);
    }
  }

  /** The position of a pixel with the largest x. */
  function RightmostIndex(c: seq<Pixel>): (i: nat)
    requires c != []
    ensures i < |c| && forall j :: 0 <= j < |c| ==> c[j].x <= c[i].x
  {
    if |c| == 1 then 0
    else
      var i := RightmostIndex(c[..|c| - 1]);
      assert forall j :: 0 <= j < |c| - 1 ==> c[j] == c[..|c| - 1][j];
      if c[|c| - 1].x > c[i].x then |c| - 1 else i
  }

  /** A non-empty set of pixels has a boundary pixel: its rightmost one. */
  lemma SomeBoundaryPixel(c: seq<Pixel>)
    requires c != []
    ensures BoundaryCount(c, PointSet(c)) >= 1
  {
    var i := RightmostIndex(c);
    var q := Neighbours(c[i])[0];
    assert q !in PointSet(c);
    BoundaryCountPositive(c, PointSet(c), i);
  }

  /** The number of component pixels with a neighbour outside the component:
      each pixel counts at most once, and a non-empty component has at least
      one. */
  method EstimatePerimeter(component: seq<Pixel>) returns (boundaryCount: nat)
    ensures boundaryCount == BoundaryCount(component, PointSet(component))
    ensures boundaryCount <= |component|
    ensures component != [] ==> boundaryCount >= 1
  {
    var pointSet := PointSet(component);
    boundaryCount := 0;
    for i := 0 to |component|
      invariant boundaryCount == BoundaryCount(component[..i], pointSet)
    {
      var neighbours := Neighbours(component[i]);
      assert component[..i + 1][..i] == component[..i];
      var k := 0;
      while k < 4
        invariant 0 <= k <= 4
        invariant forall j :: 0 <= j < k ==> neighbours[j] in pointSet
        invariant boundaryCount == BoundaryCount(component[..i], pointSet)
      {
        if neighbours[k] !in pointSet {
          boundaryCount := boundaryCount + 1;
          break;
        }
        k := k + 1;
      }
    }
    assert component[..|component|] == component;
    if component != [] {
      SomeBoundaryPixel(component);
    }
  }

  // ---------------------------------------------------------------------------
  // _findBallsInMask
  // ---------------------------------------------------------------------------

  /** What the component analysis reports: centre, mean radius, and the
      roundness and confidence scores. */
  datatype BallInfo = BallInfo(x: real, y: real, radius: real, circularity: real, confidence: real)

  /** A detection in the format of the neural detector's results, plus the
      centre, radius, colour word and source tag. */
  datatype BallDetection = BallDetection(
    cls: string,
    score: real,
    bbox: BBox,
    centerX: real,
    centerY: real,
    radius: real,
    color: string,
    source: string)

  /** The detector's tunable thresholds. */
  datatype DetectionParams = DetectionParams(
    minContourArea: real,
    maxContourArea: real,
    circularityThreshold: real,
    minConfidence: real)

  /** s.split(' ')[0]: the text before the first space. */
  function FirstWord(s: string): (w: string)
    ensures w <= s && ' ' !in w
    ensures w == s || s[|w|] == ' '
  {
    if s == [] || s[0] == ' ' then [] else [s[0]] + FirstWord(s[1..])
  }

  /** The detection reported for a qualifying ball of the given class: the
      score is the product of roundness and confidence capped at 0.99, the box
      is the square of side 2r centred on the ball, and the colour is the
      class name's first word. */
  function MakeDetection(className: string, b: BallInfo): (d: BallDetection)
    ensures d.cls == className && d.color == FirstWord(className) && d.source == "color_detection"
    ensures d.score <= 0.99 && d.score <= b.circularity * b.confidence
    ensures d.score == 0.99 || d.score == b.circularity * b.confidence
    ensures d.bbox.w == d.bbox.h == 2.0 * b.radius
    ensures d.bbox.x + d.bbox.w / 2.0 == b.x == d.centerX && d.bbox.y + d.bbox.h / 2.0 == b.y == d.centerY
  {
    BallDetection(className, MinR(b.circularity * b.confidence, 0.99),
      BBox(b.x - b.radius, b.y - b.radius, b.radius * 2.0, b.radius * 2.0),
      b.x, b.y, b.radius, FirstWord(className), "color_detection")
  }

  /** What every reported detection satisfies whatever the analysis says. */
  predicate WellFormedDetection(d: BallDetection)
  {
    d.score <= 0.99 && d.color == FirstWord(d.cls) && d.source == "color_detection"
  }

  /** A component that is reported: its size strictly between the area bounds,
      and an analysis whose roundness exceeds the threshold. */
  predicate Qualifies(c: seq<Pixel>, params: DetectionParams, analyze: seq<Pixel> -> Option<BallInfo>)
  {
    params.minContourArea < |c| as real < params.maxContourArea
    && analyze(c).Some? && analyze(c).value.circularity > params.circularityThreshold
  }

  /** The reported components lie on set mask pixels inside the image,
      qualify, do not overlap, and are reported, in order, as the detections. */
  predicate Reported(m: seq<Byte>, width: int, height: int, components: seq<seq<Pixel>>, detections: seq<BallDetection>,
                     className: string, params: DetectionParams, analyze: seq<Pixel> -> Option<BallInfo>)
  {
    && |detections| == |components|
    && (forall k :: 0 <= k < |components| ==>
          && Qualifies(components[k], params, analyze)
          && detections[k] == MakeDetection(className, analyze(components[k]).value)
          && forall p :: p in components[k] ==> Fillable(m, width, height, {}, p))
    && (forall k, l :: 0 <= k < l < |components| ==> IndexSet(components[k], width) !! IndexSet(components[l], width))
  }

  predicate Scanned(m: seq<Byte>, width: int, height: int, visited: set<int>, components: seq<seq<Pixel>>,
                    detections: seq<BallDetection>, className: string, params: DetectionParams,
                    analyze: seq<Pixel> -> Option<BallInfo>)
  {
    Reported(m, width, height, components, detections, className, params, analyze)
    && forall k :: 0 <= k < |components| ==> IndexSet(components[k], width) <= visited
  }

  /** A component filled from unvisited pixels does not overlap any earlier
      one, so reporting it keeps the scan's invariant. */
  lemma AddComponent(m: seq<Byte>, width: int, height: int, visited: set<int>, components: seq<seq<Pixel>>,
                     detections: seq<BallDetection>, className: string, params: DetectionParams,
                     analyze: seq<Pixel> -> Option<BallInfo>, c: seq<Pixel>)
    requires Scanned(m, width, height, visited, components, detections, className, params, analyze)
    requires forall i :: 0 <= i < |c| ==> Fillable(m, width, height, visited, c[i])
    requires Qualifies(c, params, analyze)
    ensures Scanned(m, width, height, visited + IndexSet(c, width), components + [c],
                    detections + [MakeDetection(className, analyze(c).value)], className, params, analyze)
  {
    var cs := components + [c];
    forall k | 0 <= k < |components|
      ensures IndexSet(components[k], width) !! IndexSet(c, width)
    {
      forall p | p in c
        ensures Index(p, width) !in IndexSet(components[k], width)
      {
        var i :| 0 <= i < |c| && c[i] == p;
      }
    }
    forall p | p in c
      ensures Fillable(m, width, height, {}, p)
    {
      var i :| 0 <= i < |c| && c[i] == p;
    }
    assert forall k :: 0 <= k < |components| ==> cs[k] == components[k];
  }

  /** The mask positions covered by a list of components. */
  function Covered(regions: seq<seq<Pixel>>, width: int): set<int>
  {
    if regions == [] then {}
    else Covered(regions[..|regions| - 1], width) + IndexSet(regions[|regions| - 1], width)
  }

  lemma {:induction false} CoveredMember(regions: seq<seq<Pixel>>, width: int, i: int)
    ensures i in Covered(regions, width) <==> exists k :: 0 <= k < |regions| && i in IndexSet(regions[k], width)
    decreases |regions|
  {
    if regions != [] {
      var pre := regions[..|regions| - 1];
      CoveredMember(pre, width, i);
      assert forall k :: 0 <= k < |pre| ==> pre[k] == regions[k];
    }
  }

  /** The components that qualify, in the order they were found. */
  function Qualifying(regions: seq<seq<Pixel>>, params: DetectionParams, analyze: seq<Pixel> -> Option<BallInfo>)
    : seq<seq<Pixel>>
  {
    if regions == [] then []
    else
      var last := regions[|regions| - 1];
      Qualifying(regions[..|regions| - 1], params, analyze) + (if Qualifies(last, params, analyze) then [last] else [])
  }

  /** Filtering keeps exactly the components that qualify. */
  lemma {:induction false} QualifyingMembers(regions: seq<seq<Pixel>>, params: DetectionParams,
                                             analyze: seq<Pixel> -> Option<BallInfo>, c: seq<Pixel>)
    ensures c in Qualifying(regions, params, analyze) <==> c in regions && Qualifies(c, params, analyze)
    ensures |Qualifying(regions, params, analyze)| <= |regions|
    decreases |regions|
  {
    if regions != [] {
      var pre := regions[..|regions| - 1];
      QualifyingMembers(pre, params, analyze, c);
      assert regions == pre + [regions[|regions| - 1]];
    }
  }

  /** The components found by scanning the first n mask positions: each is
      the 4-connected region of set pixels around its first pixel, no two
      overlap, their first pixels come in row-major order before n and each
      comes first in its own component, and every set position before n lies
      in one of them. */
  ghost predicate Partitioned(m: seq<Byte>, width: int, height: int, regions: seq<seq<Pixel>>, n: int)
  {
    && AllRegions(m, width, height, regions)
    && Disjoint(regions, width)
    && FirstsInOrder(regions, width, n)
    && CoveredUpTo(m, regions, width, n)
  }

  ghost predicate AllRegions(m: seq<Byte>, width: int, height: int, regions: seq<seq<Pixel>>)
  {
    forall k :: 0 <= k < |regions| ==> Region(m, width, height, {}, regions[k])
  }

  ghost predicate Disjoint(regions: seq<seq<Pixel>>, width: int)
  {
    forall k, l :: 0 <= k < l < |regions| ==> IndexSet(regions[k], width) !! IndexSet(regions[l], width)
  }

  ghost predicate FirstsInOrder(regions: seq<seq<Pixel>>, width: int, n: int)
    requires forall k :: 0 <= k < |regions| ==> regions[k] != []
  {
    && (forall k :: 0 <= k < |regions| ==> Index(regions[k][0], width) < n)
    && (forall k, l :: 0 <= k < l < |regions| ==> Index(regions[k][0], width) < Index(regions[l][0], width))
    && (forall k, i :: 0 <= k < |regions| && 0 <= i < |regions[k]| ==>
          Index(regions[k][0], width) <= Index(regions[k][i], width))
  }

  ghost predicate CoveredUpTo(m: seq<Byte>, regions: seq<seq<Pixel>>, width: int, n: int)
  {
    forall i :: 0 <= i < n && i < |m| && m[i] == 255 ==> i in Covered(regions, width)
  }

  /** Passing a position that is clear, or already covered, keeps the scan's
      partition. */
  lemma ScanSkip(m: seq<Byte>, width: int, height: int, regions: seq<seq<Pixel>>, n: int)
    requires Partitioned(m, width, height, regions, n)
    requires 0 <= n < |m| && (m[n] == 255 ==> n in Covered(regions, width))
    ensures Partitioned(m, width, height, regions, n + 1)
  {
  }

  /** A fill that avoided the pixels of earlier regions is closed in the
      whole mask: a set neighbour in an earlier region would have pulled the
      filled pixel into that region. */
  lemma FillClosedInMask(m: seq<Byte>, width: int, height: int, regions: seq<seq<Pixel>>, c: seq<Pixel>)
    requires AllRegions(m, width, height, regions)
    requires Region(m, width, height, Covered(regions, width), c)
    ensures Region(m, width, height, {}, c)
  {
    var visited := Covered(regions, width);
    forall i, k | 0 <= i < |c| && 0 <= k < 4 && Fillable(m, width, height, {}, Neighbours(c[i])[k])
      ensures Neighbours(c[i])[k] in c
    {
      var q := Neighbours(c[i])[k];
      if Index(q, width) in visited {
        CoveredMember(regions, width, Index(q, width));
        var l :| 0 <= l < |regions| && Index(q, width) in IndexSet(regions[l], width);
        var r :| r in regions[l] && Index(r, width) == Index(q, width);
        var j :| 0 <= j < |regions[l]| && regions[l][j] == r;
        assert Fillable(m, width, height, {}, regions[l][j]);
        IndexInjective(r, q, width);
        assert c[i] in Neighbours(q);
        var k' :| 0 <= k' < 4 && Neighbours(q)[k'] == c[i];
        assert Fillable(m, width, height, {}, Neighbours(regions[l][j])[k']);
        assert c[i] in regions[l];
        CoveredMember(regions, width, Index(c[i], width));
        assert false;
      }
    }
  }

  /** A fill started at the first position not yet covered, from which it
      took only uncovered pixels, overlaps no earlier region and starts its
      own region's row-major order. */
  lemma FillAfterRegions(m: seq<Byte>, width: int, height: int, regions: seq<seq<Pixel>>, n: int, c: seq<Pixel>)
    requires CoveredUpTo(m, regions, width, n)
    requires c != [] && Index(c[0], width) == n
    requires forall i :: 0 <= i < |c| ==> Fillable(m, width, height, Covered(regions, width), c[i])
    ensures forall k :: 0 <= k < |regions| ==> IndexSet(regions[k], width) !! IndexSet(c, width)
    ensures forall i :: 0 <= i < |c| ==> n <= Index(c[i], width)
  {
    forall k | 0 <= k < |regions|
      ensures IndexSet(regions[k], width) !! IndexSet(c, width)
    {
      forall p | p in c
        ensures Index(p, width) !in IndexSet(regions[k], width)
      {
        var i :| 0 <= i < |c| && c[i] == p;
        CoveredMember(regions, width, Index(p, width));
      }
    }
  }

  /** Filling at the scan position n adds a region and keeps the partition,
      now up to n + 1. */
  lemma ScanFill(m: seq<Byte>, width: int, height: int, regions: seq<seq<Pixel>>, n: int, c: seq<Pixel>)
    requires Partitioned(m, width, height, regions, n)
    requires 0 <= n < |m| && m[n] == 255
    requires Region(m, width, height, Covered(regions, width), c) && Index(c[0], width) == n
    ensures Partitioned(m, width, height, regions + [c], n + 1)
    ensures Covered(regions + [c], width) == Covered(regions, width) + IndexSet(c, width)
  {
    var rs := regions + [c];
    assert rs[..|regions|] == regions;
    FillClosedInMask(m, width, height, regions, c);
    FillAfterRegions(m, width, height, regions, n, c);
    RegionsSnoc(m, width, height, regions, c);
    DisjointSnoc(regions, width, c);
    FirstsSnoc(regions, width, n, c);
    assert n in IndexSet(c, width);
  }

  lemma RegionsSnoc(m: seq<Byte>, width: int, height: int, regions: seq<seq<Pixel>>, c: seq<Pixel>)
    requires AllRegions(m, width, height, regions) && Region(m, width, height, {}, c)
    ensures AllRegions(m, width, height, regions + [c])
  {
    var rs := regions + [c];
    forall k | 0 <= k < |rs|
      ensures Region(m, width, height, {}, rs[k])
    {
      if k < |regions| {
        assert rs[k] == regions[k];
      }
    }
  }

  lemma DisjointSnoc(regions: seq<seq<Pixel>>, width: int, c: seq<Pixel>)
    requires Disjoint(regions, width)
    requires forall k :: 0 <= k < |regions| ==> IndexSet(regions[k], width) !! IndexSet(c, width)
    ensures Disjoint(regions + [c], width)
  {
    var rs := regions + [c];
    forall k, l | 0 <= k < l < |rs|
      ensures IndexSet(rs[k], width) !! IndexSet(rs[l], width)
    {
      assert rs[k] == regions[k];
      if l < |regions| {
        assert rs[l] == regions[l];
      }
    }
  }

  lemma FirstsSnoc(regions: seq<seq<Pixel>>, width: int, n: int, c: seq<Pixel>)
    requires forall k :: 0 <= k < |regions| ==> regions[k] != []
    requires FirstsInOrder(regions, width, n)
    requires c != [] && Index(c[0], width) == n
    requires forall i :: 0 <= i < |c| ==> n <= Index(c[i], width)
    ensures forall k :: 0 <= k < |regions + [c]| ==> (regions + [c])[k] != []
    ensures FirstsInOrder(regions + [c], width, n + 1)
  {
    var rs := regions + [c];
    assert forall k :: 0 <= k < |regions| ==> rs[k] == regions[k];
    assert rs[|regions|] == c;
  }

  /** Once every position is scanned, every set pixel inside the image lies
      in one of the regions. */
  lemma ScanComplete(m: seq<Byte>, width: int, height: int, regions: seq<seq<Pixel>>)
    requires Partitioned(m, width, height, regions, |m|)
    ensures forall p :: Fillable(m, width, height, {}, p) ==> exists k :: 0 <= k < |regions| && p in regions[k]
  {
    forall p | Fillable(m, width, height, {}, p)
      ensures exists k :: 0 <= k < |regions| && p in regions[k]
    {
      CoveredMember(regions, width, Index(p, width));
      var k :| 0 <= k < |regions| && Index(p, width) in IndexSet(regions[k], width);
      var r :| r in regions[k] && Index(r, width) == Index(p, width);
      var j :| 0 <= j < |regions[k]| && regions[k][j] == r;
      assert Fillable(m, width, height, {}, regions[k][j]);
      IndexInjective(r, p, width);
    }
  }

  /** What a scan of the mask yields: its set pixels split into their
      4-connected regions, in row-major order of their first pixels, of
      which the qualifying ones are reported, in that order. */
  ghost predicate MaskScan(m: seq<Byte>, width: int, height: int, regions: seq<seq<Pixel>>,
                           components: seq<seq<Pixel>>, detections: seq<BallDetection>, className: string,
                           params: DetectionParams, analyze: seq<Pixel> -> Option<BallInfo>)
  {
    && Partitioned(m, width, height, regions, |m|)
    && (forall p :: Fillable(m, width, height, {}, p) ==> exists k :: 0 <= k < |regions| && p in regions[k])
    && components == Qualifying(regions, params, analyze)
    && Reported(m, width, height, components, detections, className, params, analyze)
  }

  /** The scan after the first n mask positions: the partition so far, the
      visited set as the positions it covers, and the qualifying regions
      reported. */
  ghost predicate ScanState(m: seq<Byte>, width: int, height: int, n: int, visited: set<int>,
                            regions: seq<seq<Pixel>>, components: seq<seq<Pixel>>, detections: seq<BallDetection>,
                            className: string, params: DetectionParams, analyze: seq<Pixel> -> Option<BallInfo>)
  {
    && Partitioned(m, width, height, regions, n)
    && visited == Covered(regions, width)
    && components == Qualifying(regions, params, analyze)
    && Scanned(m, width, height, visited, components, detections, className, params, analyze)
  }

  /** A position that starts no fill keeps the scan state. */
  lemma ScanStateSkip(m: seq<Byte>, width: int, height: int, n: int, visited: set<int>,
                      regions: seq<seq<Pixel>>, components: seq<seq<Pixel>>, detections: seq<BallDetection>,
                      className: string, params: DetectionParams, analyze: seq<Pixel> -> Option<BallInfo>)
    requires ScanState(m, width, height, n, visited, regions, components, detections, className, params, analyze)
    requires 0 <= n < |m| && !(m[n] == 255 && n !in visited)
    ensures ScanState(m, width, height, n + 1, visited, regions, components, detections, className, params, analyze)
  {
    ScanSkip(m, width, height, regions, n);
  }

  /** A fill from position n adds its region, and reports it when it
      qualifies. */
  lemma ScanStateFill(m: seq<Byte>, width: int, height: int, n: int, visited: set<int>,
                      regions: seq<seq<Pixel>>, components: seq<seq<Pixel>>, detections: seq<BallDetection>,
                      className: string, params: DetectionParams, analyze: seq<Pixel> -> Option<BallInfo>,
                      c: seq<Pixel>)
    requires ScanState(m, width, height, n, visited, regions, components, detections, className, params, analyze)
    requires 0 <= n < |m| && m[n] == 255
    requires Region(m, width, height, visited, c) && Index(c[0], width) == n
    ensures var q := Qualifies(c, params, analyze);
            ScanState(m, width, height, n + 1, visited + IndexSet(c, width), regions + [c],
                      components + (if q then [c] else []),
                      detections + (if q then [MakeDetection(className, analyze(c).value)] else []),
                      className, params, analyze)
  {
    ScanFill(m, width, height, regions, n, c);
    assert (regions + [c])[..|regions|] == regions;
    ReportFill(m, width, height, visited, components, detections, className, params, analyze, c);
  }

  /** Reporting a fill that qualifies, and only then, keeps what has been
      reported. */
  lemma ReportFill(m: seq<Byte>, width: int, height: int, visited: set<int>, components: seq<seq<Pixel>>,
                   detections: seq<BallDetection>, className: string, params: DetectionParams,
                   analyze: seq<Pixel> -> Option<BallInfo>, c: seq<Pixel>)
    requires Scanned(m, width, height, visited, components, detections, className, params, analyze)
    requires forall i :: 0 <= i < |c| ==> Fillable(m, width, height, visited, c[i])
    ensures var q := Qualifies(c, params, analyze);
            Scanned(m, width, height, visited + IndexSet(c, width), components + (if q then [c] else []),
                    detections + (if q then [MakeDetection(className, analyze(c).value)] else []),
                    className, params, analyze)
  {
    if Qualifies(c, params, analyze) {
      AddComponent(m, width, height, visited, components, detections, className, params, analyze, c);
    } else {
      assert components + [] == components && detections + [] == detections;
    }
  }

  /** The scan state after the last position is the scan's result. */
  lemma ScanDone(m: seq<Byte>, width: int, height: int, visited: set<int>,
                 regions: seq<seq<Pixel>>, components: seq<seq<Pixel>>, detections: seq<BallDetection>,
                 className: string, params: DetectionParams, analyze: seq<Pixel> -> Option<BallInfo>)
    requires ScanState(m, width, height, |m|, visited, regions, components, detections, className, params, analyze)
    ensures MaskScan(m, width, height, regions, components, detections, className, params, analyze)
    ensures forall d :: d in detections ==> WellFormedDetection(d) && d.cls == className
  {
    ScanComplete(m, width, height, regions);
  }

  /** One position of the scan: a set, unvisited pixel starts a flood fill,
      whose component is reported when it qualifies. */
  method ScanPosition(mask: array<Byte>, width: nat, height: nat, x: nat, y: nat, visited: set<int>,
                      ghost regions: seq<seq<Pixel>>, ghost components: seq<seq<Pixel>>,
                      detections: seq<BallDetection>, className: string, params: DetectionParams,
                      analyze: seq<Pixel> -> Option<BallInfo>)
    returns (visited': set<int>, ghost regions': seq<seq<Pixel>>, ghost components': seq<seq<Pixel>>,
             detections': seq<BallDetection>)
    requires mask.Length == width * height && x < width && y < height
    requires ScanState(mask[..], width, height, y * width + x, visited, regions, components, detections,
                       className, params, analyze)
    ensures ScanState(mask[..], width, height, y * width + x + 1, visited', regions', components', detections',
                      className, params, analyze)
  {
    ghost var m := mask[..];
    var index := y * width + x;
    IndexInRange(Pixel(x, y), width, height);
    visited', regions', components', detections' := visited, regions, components, detections;
    if mask[index] == 255 && index !in visited {
      assert Fillable(m, width, height, visited, Pixel(x, y));
      var component, filled := FloodFill(mask, width, height, x, y, visited);
      ScanStateFill(m, width, height, index, visited, regions, components, detections,
                    className, params, analyze, component);
      if params.minContourArea < |component| as real < params.maxContourArea {
        var ballInfo := analyze(component);
        if ballInfo.Some? && ballInfo.value.circularity > params.circularityThreshold {
          detections' := detections + [MakeDetection(className, ballInfo.value)];
          components' := components + [component];
        }
      }
      regions' := regions + [component];
      visited' := filled;
    } else {
      ScanStateSkip(m, width, height, index, visited, regions, components, detections, className, params, analyze);
    }
  }

  /** Scans the mask row by row; each set, unvisited pixel starts a flood
      fill, and the components that qualify are reported in scan order. The
      component analysis is a parameter. The ghost regions are every fill
      made, components the qualifying ones. */
  method FindBallsInMask(mask: array<Byte>, width: nat, height: nat, className: string,
                         params: DetectionParams, analyze: seq<Pixel> -> Option<BallInfo>)
    returns (detections: seq<BallDetection>, ghost regions: seq<seq<Pixel>>, ghost components: seq<seq<Pixel>>)
    requires mask.Length == width * height
    ensures MaskScan(mask[..], width, height, regions, components, detections, className, params, analyze)
    ensures forall d :: d in detections ==> WellFormedDetection(d) && d.cls == className
  {
    var visited: set<int> := {};
    detections := [];
    regions := [];
    components := [];
    var y := 0;
    while y < height
      invariant 0 <= y <= height
      invariant ScanState(mask[..], width, height, y * width, visited, regions, components, detections,
                          className, params, analyze)
    {
      visited, regions, components, detections :=
        ScanRow(mask, width, height, y, visited, regions, components, detections, className, params, analyze);
      y := y + 1;
    }
    assert height * width == mask.Length;
    ScanDone(mask[..], width, height, visited, regions, components, detections, className, params, analyze);
  }

  /** One row of the scan, left to right. */
  method ScanRow(mask: array<Byte>, width: nat, height: nat, y: nat, visited: set<int>,
                 ghost regions: seq<seq<Pixel>>, ghost components: seq<seq<Pixel>>,
                 detections: seq<BallDetection>, className: string, params: DetectionParams,
                 analyze: seq<Pixel> -> Option<BallInfo>)
    returns (visited': set<int>, ghost regions': seq<seq<Pixel>>, ghost components': seq<seq<Pixel>>,
             detections': seq<BallDetection>)
    requires mask.Length == width * height && y < height
    requires ScanState(mask[..], width, height, y * width, visited, regions, components, detections,
                       className, params, analyze)
    ensures ScanState(mask[..], width, height, (y + 1) * width, visited', regions', components', detections',
                      className, params, analyze)
  {
    visited', regions', components', detections' := visited, regions, components, detections;
    var x := 0;
    while x < width
      invariant 0 <= x <= width
      invariant ScanState(mask[..], width, height, y * width + x, visited', regions', components', detections',
                          className, params, analyze)
    {
      visited', regions', components', detections' :=
        ScanPosition(mask, width, height, x, y, visited', regions', components', detections', className, params, analyze);
      x := x + 1;
    }
    assert y * width + width == (y + 1) * width;
  }
}
