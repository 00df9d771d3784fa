/** Splitting an image into its 4-connected groups of non-transparent pixels
    (RigidBody.splitImageIntoRigidBodies and RigidBody.findOpaqueGroup).
    An image is column-major, `img[i][j]` being getRGB(i, j); a pixel is transparent exactly when
    its RGB value is -1 (opaque white). The scratch grids `traversed`, `isTransparent` and
    `opaqueGroup` are arrays local to the split. */
module Segmentation {
  import opened Vectors
  import opened Shape

  type Raster = seq<seq<int>>

  /** getRGB of opaque white, the colour the split treats as transparent. */
  const White: int := -1

  /** Integer.MIN_VALUE, the start value of the bounding-box search. */
  const IntMin: int := -0x8000_0000

  /** An image of w columns of h pixels. */
  predicate IsRaster(img: Raster, w: nat, h: nat) {
    |img| == w && forall i :: 0 <= i < w ==> |img[i]| == h
  }

  predicate InBounds(w: int, h: int, c: Pixel) {
    0 <= c.x < w && 0 <= c.y < h
  }

  /** Pixel c of the image is not transparent. */
  predicate OpaqueAt(img: Raster, w: nat, h: nat, c: Pixel)
    requires IsRaster(img, w, h)
  {
    InBounds(w, h, c) && img[c.x][c.y] != White
  }

  /** The non-transparent pixels of an image. */
  ghost function Opaque(img: Raster, w: nat, h: nat): (o: set<Pixel>)
    requires IsRaster(img, w, h)
    ensures forall c :: c in o <==> OpaqueAt(img, w, h, c)
  {
    var o := set i, j | 0 <= i < w && 0 <= j < h && img[i][j] != White :: Pixel(i, j);
    assert forall c :: OpaqueAt(img, w, h, c) ==> c in o by {
      forall c | OpaqueAt(img, w, h, c)
        ensures c in o
      {
        assert c == Pixel(c.x, c.y);
      }
    }
    o
  }

  /** The occupied pixels of a mask, in the image's own coordinates. */
  ghost function GridCells(g: Grid): (s: set<Pixel>)
    ensures forall c: Pixel :: c in s <==> Cell(g, c.x, c.y)
  {
    var s := set i, j | 0 <= i < |g| && 0 <= j < |g[i]| && g[i][j] :: Pixel(i, j);
    assert forall c: Pixel :: Cell(g, c.x, c.y) ==> c in s by {
      forall c: Pixel | Cell(g, c.x, c.y)
        ensures c in s
      {
        assert c == Pixel(c.x, c.y);
      }
    }
    s
  }

  // ---- 4-connectivity

  /** Two pixels share an edge. */
  predicate Adjacent(a: Pixel, b: Pixel) {
    (a.x == b.x && (a.y - b.y == 1 || b.y - a.y == 1)) ||
    (a.y == b.y && (a.x - b.x == 1 || b.x - a.x == 1))
  }

  /** One of the four pixels the flood fill pushes around `c` is in S. */
  predicate Touches(S: set<Pixel>, c: Pixel) {
    Pixel(c.x + 1, c.y) in S || Pixel(c.x - 1, c.y) in S ||
    Pixel(c.x, c.y + 1) in S || Pixel(c.x, c.y - 1) in S
  }

  /** A non-empty walk through S, each step to an adjacent pixel. */
  ghost predicate IsPath(p: seq<Pixel>, S: set<Pixel>) {
    |p| > 0 &&
    (forall k :: 0 <= k < |p| ==> p[k] in S) &&
    forall i, j :: 0 <= i && j == i + 1 && j < |p| ==> Adjacent(p[i], p[j])
  }

  ghost predicate Connected(S: set<Pixel>, a: Pixel, b: Pixel) {
    exists p {:trigger IsPath(p, S)} :: IsPath(p, S) && p[0] == a && p[|p| - 1] == b
  }

  /** No pixel of O next to S is outside S. */
  ghost predicate Closed(S: set<Pixel>, O: set<Pixel>) {
    forall c, d {:trigger Adjacent(c, d)} :: c in S && d in O && Adjacent(c, d) ==> d in S
  }

  /** S is the 4-connected component of O that contains s. */
  ghost predicate IsComponent(S: set<Pixel>, O: set<Pixel>, s: Pixel) {
    s in S && S <= O && Closed(S, O) && forall c {:trigger Connected(S, s, c)} :: c in S ==> Connected(S, s, c)
  }

  /** Pixel a comes before pixel b in the scan with x outer and y inner. */
  predicate ScanLess(a: Pixel, b: Pixel) {
    a.x < b.x || (a.x == b.x && a.y < b.y)
  }

  lemma AdjacentSymmetric(a: Pixel, b: Pixel)
    ensures Adjacent(a, b) <==> Adjacent(b, a)
  {
  }

  function Reversed(p: seq<Pixel>): (r: seq<Pixel>)
    ensures |r| == |p| && forall k :: 0 <= k < |p| ==> r[k] == p[|p| - 1 - k]
  {
    if p == [] then [] else Reversed(p[1..]) + [p[0]]
  }

  lemma ConnectedSymmetric(S: set<Pixel>, a: Pixel, b: Pixel)
    requires Connected(S, a, b)
    ensures Connected(S, b, a)
  {
    var p :| IsPath(p, S) && p[0] == a && p[|p| - 1] == b;
    var r := Reversed(p);
    forall k | 0 <= k < |r| - 1
      ensures Adjacent(r[k], r[k + 1])
    {
      assert r[k] == p[|p| - 1 - k] && r[k + 1] == p[|p| - 2 - k];
      assert Adjacent(p[|p| - 2 - k], p[|p| - 1 - k]);
      AdjacentSymmetric(p[|p| - 2 - k], p[|p| - 1 - k]);
    }
    assert IsPath(r, S);
  }

  /** A walk through O that starts inside a closed set never leaves it. */
  lemma {:induction false} PathStaysInside(p: seq<Pixel>, S: set<Pixel>, O: set<Pixel>)
    requires IsPath(p, O) && Closed(S, O) && p[0] in S
    ensures forall k :: 0 <= k < |p| ==> p[k] in S
  {
    var k := 0;
    while k < |p| - 1
      invariant 0 <= k < |p|
      invariant forall m :: 0 <= m <= k ==> p[m] in S
    {
      assert Adjacent(p[k], p[k + 1]) && p[k + 1] in O;
      k := k + 1;
    }
  }

  /** Two components of O that share a pixel are the same set. */
  lemma ComponentsMeet(S1: set<Pixel>, s1: Pixel, S2: set<Pixel>, s2: Pixel, O: set<Pixel>, c: Pixel)
    requires IsComponent(S1, O, s1) && IsComponent(S2, O, s2)
    requires c in S1 && c in S2
    ensures S1 == S2
  {
    forall d | d in S1
      ensures d in S2
    {
      Inside(S1, s1, S2, O, c, d);
    }
    forall d | d in S2
      ensures d in S1
    {
      Inside(S2, s2, S1, O, c, d);
    }
  }

  /** Every pixel of a component lies in any closed set that meets the component. */
  lemma Inside(S1: set<Pixel>, s1: Pixel, S2: set<Pixel>, O: set<Pixel>, c: Pixel, d: Pixel)
    requires IsComponent(S1, O, s1) && Closed(S2, O)
    requires c in S1 && c in S2 && d in S1
    ensures d in S2
  {
    assert Connected(S1, s1, c);
    ConnectedSymmetric(S1, s1, c);
    var p :| IsPath(p, S1) && p[0] == c && p[|p| - 1] == s1;
    assert IsPath(p, O);
    PathStaysInside(p, S2, O);
    assert Connected(S1, s1, d);
    var q :| IsPath(q, S1) && q[0] == s1 && q[|q| - 1] == d;
    assert IsPath(q, O);
    PathStaysInside(q, S2, O);
  }

  /** The component of a pixel is unique: the segmentation's groups are determined by the image. */
  lemma ComponentUnique(S1: set<Pixel>, S2: set<Pixel>, O: set<Pixel>, s: Pixel)
    requires IsComponent(S1, O, s) && IsComponent(S2, O, s)
    ensures S1 == S2
  {
    ComponentsMeet(S1, s, S2, s, O, s);
  }

  // ---- The flood fill

  /** Array `a` holds exactly the pixels of S (and S lies within the array). */
  ghost predicate Marks(a: array2<bool>, S: set<Pixel>)
    reads a
  {
    (forall i, j {:trigger a[i, j]} :: 0 <= i < a.Length0 && 0 <= j < a.Length1 ==> (a[i, j] <==> Pixel(i, j) in S)) &&
    forall c :: c in S ==> InBounds(a.Length0, a.Length1, c)
  }

  /** Array `a` holds exactly the pixels outside O (and O lies within the array). */
  ghost predicate MarksOutside(a: array2<bool>, O: set<Pixel>)
    reads a
  {
    (forall i, j {:trigger a[i, j]} :: 0 <= i < a.Length0 && 0 <= j < a.Length1 ==> (a[i, j] <==> Pixel(i, j) !in O)) &&
    forall c :: c in O ==> InBounds(a.Length0, a.Length1, c)
  }

  /** The opaque traversed pixels are a union of whole components. */
  ghost predicate OpaqueClosed(T: set<Pixel>, O: set<Pixel>) {
    forall c, d :: c in T && c in O && d in O && Adjacent(c, d) ==> d in T
  }

  /** A pushed pixel is still on the stack, outside the image, or already traversed. */
  predicate Settled(c: Pixel, stack: seq<Pixel>, T: set<Pixel>, w: int, h: int) {
    c in stack || !InBounds(w, h, c) || c in T
  }

  /** All four pixels pushed around c are settled. */
  predicate Expanded(c: Pixel, stack: seq<Pixel>, T: set<Pixel>, w: int, h: int) {
    Settled(Pixel(c.x + 1, c.y), stack, T, w, h) && Settled(Pixel(c.x - 1, c.y), stack, T, w, h) &&
    Settled(Pixel(c.x, c.y + 1), stack, T, w, h) && Settled(Pixel(c.x, c.y - 1), stack, T, w, h)
  }

  /** n is a neighbour of c in G that the fill reached earlier (smaller depth). */
  predicate LowerNeighbour(G: set<Pixel>, depth: map<Pixel, nat>, c: Pixel, n: Pixel) {
    n in G && n in depth && c in depth && depth[n] < depth[c] && Adjacent(n, c)
  }

  /** Some neighbour of c in G was reached earlier: the fill reached c from it. */
  predicate Descends(G: set<Pixel>, depth: map<Pixel, nat>, c: Pixel) {
    LowerNeighbour(G, depth, c, Pixel(c.x + 1, c.y)) || LowerNeighbour(G, depth, c, Pixel(c.x - 1, c.y)) ||
    LowerNeighbour(G, depth, c, Pixel(c.x, c.y + 1)) || LowerNeighbour(G, depth, c, Pixel(c.x, c.y - 1))
  }

  /** Every pixel of G but the seed descends from an earlier one. */
  ghost predicate Rooted(G: set<Pixel>, depth: map<Pixel, nat>, seed: Pixel) {
    seed in G && seed in depth &&
    forall c {:trigger Descends(G, depth, c)} :: c in G && c != seed ==> Descends(G, depth, c)
  }

  /** Following lower neighbours leads from c back to the seed. */
  lemma {:induction false} ReachedFromSeed(G: set<Pixel>, depth: map<Pixel, nat>, seed: Pixel, c: Pixel, n: nat)
    requires Rooted(G, depth, seed) && c in G && (c == seed || (c in depth && depth[c] <= n))
    ensures Connected(G, seed, c)
    decreases n
  {
    if c == seed {
      assert IsPath([seed], G);
    } else {
      assert Descends(G, depth, c);
      var m := if LowerNeighbour(G, depth, c, Pixel(c.x + 1, c.y)) then Pixel(c.x + 1, c.y)
        else if LowerNeighbour(G, depth, c, Pixel(c.x - 1, c.y)) then Pixel(c.x - 1, c.y)
        else if LowerNeighbour(G, depth, c, Pixel(c.x, c.y + 1)) then Pixel(c.x, c.y + 1)
        else Pixel(c.x, c.y - 1);
      assert LowerNeighbour(G, depth, c, m);
      ReachedFromSeed(G, depth, seed, m, n - 1);
      var q :| IsPath(q, G) && q[0] == seed && q[|q| - 1] == m;
      var q' := q + [c];
      assert q'[|q'| - 2] == m;
      assert IsPath(q', G);
    }
  }

  lemma AllReachedFromSeed(G: set<Pixel>, depth: map<Pixel, nat>, seed: Pixel)
    requires Rooted(G, depth, seed)
    ensures forall c :: c in G ==> Connected(G, seed, c)
  {
    forall c | c in G
      ensures Connected(G, seed, c)
    {
      if c != seed {
        assert Descends(G, depth, c);
        ReachedFromSeed(G, depth, seed, c, depth[c]);
      } else {
        ReachedFromSeed(G, depth, seed, c, 0);
      }
    }
  }

  /** Adding a new pixel p to G keeps the descent of the pixels already there. */
  lemma DescendsGrow(G: set<Pixel>, depth: map<Pixel, nat>, c: Pixel, p: Pixel, d: nat)
    requires Descends(G, depth, c) && p !in G && c != p
    ensures Descends(G + {p}, depth[p := d], c)
  {
  }

  /** A pixel pushed from q, a pixel of G that has a depth, descends from it. */
  lemma DescendsFrom(G: set<Pixel>, depth: map<Pixel, nat>, q: Pixel, p: Pixel)
    requires q in G && q in depth && Adjacent(q, p) && p !in G
    ensures Descends(G + {p}, depth[p := depth[q] + 1], p)
  {
    var G', depth' := G + {p}, depth[p := depth[q] + 1];
    assert LowerNeighbour(G', depth', p, q);
    if q.x == p.x + 1 {
      assert q == Pixel(p.x + 1, p.y);
    } else if q.x == p.x - 1 {
      assert q == Pixel(p.x - 1, p.y);
    } else if q.y == p.y + 1 {
      assert q == Pixel(p.x, p.y + 1);
    } else {
      assert q == Pixel(p.x, p.y - 1);
    }
  }

  /** The neighbour in S that Touches(S, c) promises. */
  function TouchingNeighbour(S: set<Pixel>, c: Pixel): (n: Pixel)
    requires Touches(S, c)
    ensures n in S && Adjacent(n, c)
  {
    if Pixel(c.x + 1, c.y) in S then Pixel(c.x + 1, c.y)
    else if Pixel(c.x - 1, c.y) in S then Pixel(c.x - 1, c.y)
    else if Pixel(c.x, c.y + 1) in S then Pixel(c.x, c.y + 1)
    else Pixel(c.x, c.y - 1)
  }

  lemma ExpandedAfterPop(c: Pixel, stack: seq<Pixel>, p: Pixel, T: set<Pixel>, T2: set<Pixel>, w: int, h: int)
    requires Expanded(c, stack + [p], T, w, h) && T <= T2
    requires !InBounds(w, h, p) || p in T2
    ensures Expanded(c, stack, T2, w, h)
  {
  }

  lemma ExpandedAfterPush(c: Pixel, stack: seq<Pixel>, q: seq<Pixel>, T: set<Pixel>, w: int, h: int)
    requires Expanded(c, stack, T, w, h)
    ensures Expanded(c, stack + q, T, w, h)
  {
  }

  lemma ExpandedCovers(g: Pixel, c: Pixel, stack: seq<Pixel>, T: set<Pixel>, w: int, h: int)
    requires Expanded(g, stack, T, w, h) && Adjacent(g, c)
    ensures Settled(c, stack, T, w, h)
  {
    if c.x == g.x + 1 {
      assert c == Pixel(g.x + 1, g.y);
    } else if c.x == g.x - 1 {
      assert c == Pixel(g.x - 1, g.y);
    } else if c.y == g.y + 1 {
      assert c == Pixel(g.x, g.y + 1);
    } else {
      assert c == Pixel(g.x, g.y - 1);
    }
  }

  /** At most h pixels of one column lie within the first h rows. */
  lemma {:induction false} ColumnBound(S: set<Pixel>, x: int, h: nat)
    requires forall c :: c in S ==> c.x == x && 0 <= c.y < h
    ensures |S| <= h
  {
    if h == 0 {
      assert S == {};
    } else {
      var S' := set c | c in S && c.y < h - 1;
      ColumnBound(S', x, h - 1);
      if Pixel(x, h - 1) in S {
        assert S == S' + {Pixel(x, h - 1)};
      } else {
        assert S == S';
      }
    }
  }

  /** At most w * h pixels lie within a w by h image. */
  lemma {:induction false} AreaBound(S: set<Pixel>, w: nat, h: nat)
    requires forall c :: c in S ==> InBounds(w, h, c)
    ensures |S| <= w * h
  {
    if w == 0 {
      assert S == {};
    } else {
      var S', column := set c | c in S && c.x < w - 1, set c | c in S && c.x == w - 1;
      assert S == S' + column;
      AreaBound(S', w - 1, h);
      ColumnBound(column, w - 1, h);
      assert (w - 1) * h + h == w * h;
    }
  }

  /** An untraversed pixel inside the image leaves room in it: the fill terminates. */
  lemma RoomLeft(T: set<Pixel>, w: nat, h: nat, p: Pixel)
    requires forall c :: c in T ==> InBounds(w, h, c)
    requires InBounds(w, h, p) && p !in T
    ensures |T| < w * h
  {
    AreaBound(T + {p}, w, h);
  }

  /** The four pixels findOpaqueGroup pushes around p, in its order. */
  function Pushed(p: Pixel): seq<Pixel> {
    [Pixel(p.x + 1, p.y), Pixel(p.x - 1, p.y), Pixel(p.x, p.y + 1), Pixel(p.x, p.y - 1)]
  }

  /** The pixels pushed around p touch the group once p is in it. */
  lemma PushTouches(stack: seq<Pixel>, G: set<Pixel>, seed: Pixel, p: Pixel)
    requires forall k :: 0 <= k < |stack| ==> stack[k] == seed || Touches(G, stack[k])
    ensures forall k :: 0 <= k < |stack + Pushed(p)| ==>
      (stack + Pushed(p))[k] == seed || Touches(G + {p}, (stack + Pushed(p))[k])
  {
    var s := stack + Pushed(p);
    forall k | 0 <= k < |s|
      ensures s[k] == seed || Touches(G + {p}, s[k])
    {
      if k < |stack| {
        assert s[k] == stack[k];
      } else {
        assert p == Pixel(p.x, p.y);
      }
    }
  }

  /** The state of the fill between two pops, on sets: G the group so far, Tr the traversed
      pixels, `stack` the pixels still to visit and `depth` the order in which the group grew. */
  ghost predicate Filling(O: set<Pixel>, T: set<Pixel>, seed: Pixel, G: set<Pixel>, Tr: set<Pixel>,
                          stack: seq<Pixel>, depth: map<Pixel, nat>, w: int, h: int)
  {
    seed in O && seed !in T &&
    (forall c :: c in O ==> InBounds(w, h, c)) && (forall c :: c in Tr ==> InBounds(w, h, c)) &&
    T <= Tr && G <= Tr &&
    (forall c :: c in G ==> c in O && c !in T && c in depth) &&
    (forall c :: c in Tr && c !in T && c !in G ==> c !in O) &&
    (forall c {:trigger Touches(G, c)} :: c in Tr && c !in T && c !in G ==> Touches(G, c)) &&
    (seed in G || seed in stack) &&
    (forall k :: 0 <= k < |stack| ==> stack[k] == seed || Touches(G, stack[k])) &&
    (forall c {:trigger Expanded(c, stack, Tr, w, h)} :: c in G ==> Expanded(c, stack, Tr, w, h)) &&
    (forall c {:trigger Descends(G, depth, c)} :: c in G && c != seed ==> Descends(G, depth, c))
  }

  /** Popping a pixel outside the image or already traversed changes nothing else. */
  lemma SkipStep(O: set<Pixel>, T: set<Pixel>, seed: Pixel, G: set<Pixel>, Tr: set<Pixel>,
                 stack: seq<Pixel>, depth: map<Pixel, nat>, w: int, h: int, p: Pixel)
    requires Filling(O, T, seed, G, Tr, stack + [p], depth, w, h)
    requires !InBounds(w, h, p) || p in Tr
    ensures Filling(O, T, seed, G, Tr, stack, depth, w, h)
  {
    var s := stack + [p];
    forall k | 0 <= k < |stack|
      ensures stack[k] == seed || Touches(G, stack[k])
    {
      assert s[k] == stack[k];
    }
    forall c {:trigger Expanded(c, stack, Tr, w, h)} | c in G
      ensures Expanded(c, stack, Tr, w, h)
    {
      assert Expanded(c, s, Tr, w, h);
      ExpandedAfterPop(c, stack, p, Tr, Tr, w, h);
    }
    if seed == p {
      assert seed in G;
    }
  }

  /** Popping an untraversed transparent pixel traverses it; it borders the group. */
  lemma BorderStep(O: set<Pixel>, T: set<Pixel>, seed: Pixel, G: set<Pixel>, Tr: set<Pixel>,
                   stack: seq<Pixel>, depth: map<Pixel, nat>, w: int, h: int, p: Pixel)
    requires Filling(O, T, seed, G, Tr, stack + [p], depth, w, h)
    requires InBounds(w, h, p) && p !in Tr && p !in O
    ensures Filling(O, T, seed, G, Tr + {p}, stack, depth, w, h)
  {
    var s, Tr' := stack + [p], Tr + {p};
    assert s[|stack|] == p;
    forall k | 0 <= k < |stack|
      ensures stack[k] == seed || Touches(G, stack[k])
    {
      assert s[k] == stack[k];
    }
    forall c {:trigger Touches(G, c)} | c in Tr' && c !in T && c !in G
      ensures Touches(G, c)
    {
    }
    forall c {:trigger Expanded(c, stack, Tr', w, h)} | c in G
      ensures Expanded(c, stack, Tr', w, h)
    {
      assert Expanded(c, s, Tr, w, h);
      ExpandedAfterPop(c, stack, p, Tr, Tr', w, h);
    }
  }

  /** Popping an untraversed opaque pixel traverses it, adds it to the group one step deeper
      than the neighbour it was pushed from, and pushes its four neighbours. */
  lemma AbsorbStep(O: set<Pixel>, T: set<Pixel>, seed: Pixel, G: set<Pixel>, Tr: set<Pixel>,
                   stack: seq<Pixel>, depth: map<Pixel, nat>, w: int, h: int, p: Pixel)
      returns (depth': map<Pixel, nat>)
    requires Filling(O, T, seed, G, Tr, stack + [p], depth, w, h)
    requires InBounds(w, h, p) && p !in Tr && p in O
    ensures Filling(O, T, seed, G + {p}, Tr + {p}, stack + Pushed(p), depth', w, h)
  {
    var s, G', Tr', s' := stack + [p], G + {p}, Tr + {p}, stack + Pushed(p);
    assert s[|stack|] == p;
    var d: nat := 0;
    var q := p;
    if p != seed {
      q := TouchingNeighbour(G, p);
      d := depth[q] + 1;
    }
    depth' := depth[p := d];
    forall k | 0 <= k < |stack|
      ensures stack[k] == seed || Touches(G, stack[k])
    {
      assert s[k] == stack[k];
    }
    PushTouches(stack, G, seed, p);
    forall c {:trigger Touches(G', c)} | c in Tr' && c !in T && c !in G'
      ensures Touches(G', c)
    {
      assert Touches(G, c);
    }
    forall c {:trigger Expanded(c, s', Tr', w, h)} | c in G'
      ensures Expanded(c, s', Tr', w, h)
    {
      if c != p {
        assert Expanded(c, s, Tr, w, h);
        ExpandedAfterPop(c, stack, p, Tr, Tr', w, h);
        ExpandedAfterPush(c, stack, Pushed(p), Tr', w, h);
      } else {
        assert s'[|stack|] == Pixel(p.x + 1, p.y) && s'[|stack| + 1] == Pixel(p.x - 1, p.y);
        assert s'[|stack| + 2] == Pixel(p.x, p.y + 1) && s'[|stack| + 3] == Pixel(p.x, p.y - 1);
      }
    }
    forall c {:trigger Descends(G', depth', c)} | c in G' && c != seed
      ensures Descends(G', depth', c)
    {
      if c != p {
        assert Descends(G, depth, c);
        DescendsGrow(G, depth, c, p, d);
      } else {
        DescendsFrom(G, depth, q, p);
      }
    }
    if seed == p {
      assert seed in G';
    } else if seed !in G {
      assert seed in stack;
      assert seed in s';
    }
  }

  /** With the stack empty, G is the component of the seed and Tr adds to T exactly G and the
      transparent pixels around it. */
  lemma FillDone(O: set<Pixel>, T: set<Pixel>, seed: Pixel, G: set<Pixel>, Tr: set<Pixel>,
                 depth: map<Pixel, nat>, w: int, h: int)
    requires Filling(O, T, seed, G, Tr, [], depth, w, h) && OpaqueClosed(T, O)
    ensures IsComponent(G, O, seed) && G * T == {}
    ensures forall c {:trigger c in Tr} :: c in Tr <==> c in T || c in G || (InBounds(w, h, c) && c !in O && Touches(G, c))
  {
    forall c | c in G && c != seed
      ensures Descends(G, depth, c)
    {
    }
    AllReachedFromSeed(G, depth, seed);
    forall c, d | c in G && d in O && Adjacent(c, d)
      ensures d in G
    {
      assert Expanded(c, [], Tr, w, h);
      ExpandedCovers(c, d, [], Tr, w, h);
      AdjacentSymmetric(c, d);
    }
    forall c | c in Tr && c !in T && c !in G
      ensures Touches(G, c)
    {
    }
    forall c | InBounds(w, h, c) && c !in O && Touches(G, c)
      ensures c in Tr
    {
      var g := TouchingNeighbour(G, c);
      assert Expanded(g, [], Tr, w, h);
      ExpandedCovers(g, c, [], Tr, w, h);
    }
  }

  /** One pass of findOpaqueGroup's loop, for the pixel p just popped: a pixel outside the image
      or already traversed is dropped; any other is marked traversed, and an opaque one joins the
      group and pushes its four neighbours. */
  method Visit(traversed: array2<bool>, transparent: array2<bool>, group: array2<bool>, p: Pixel,
               stack: seq<Pixel>, ghost O: set<Pixel>, ghost T: set<Pixel>, ghost seed: Pixel,
               ghost G: set<Pixel>, ghost Tr: set<Pixel>, ghost depth: map<Pixel, nat>)
      returns (stack': seq<Pixel>, ghost G': set<Pixel>, ghost Tr': set<Pixel>, ghost depth': map<Pixel, nat>)
    requires traversed != group && transparent != group && transparent != traversed
    requires transparent.Length0 == traversed.Length0 == group.Length0
    requires transparent.Length1 == traversed.Length1 == group.Length1
    requires Marks(group, G) && Marks(traversed, Tr) && MarksOutside(transparent, O)
    requires Filling(O, T, seed, G, Tr, stack + [p], depth, traversed.Length0, traversed.Length1)
    modifies traversed, group
    ensures Marks(group, G') && Marks(traversed, Tr')
    ensures Filling(O, T, seed, G', Tr', stack', depth', traversed.Length0, traversed.Length1)
    ensures (Tr' == Tr && stack' == stack) ||
            (p !in Tr && Tr' == Tr + {p} && |Tr'| <= traversed.Length0 * traversed.Length1)
  {
    ghost var W, H := traversed.Length0, traversed.Length1;
    if p.x < 0 || p.y < 0 || p.x >= traversed.Length0 || p.y >= traversed.Length1 || traversed[p.x, p.y] {
      SkipStep(O, T, seed, G, Tr, stack, depth, W, H, p);
      return stack, G, Tr, depth;
    }
    RoomLeft(Tr, W, H, p);
    traversed[p.x, p.y] := true;
    if !transparent[p.x, p.y] {
      group[p.x, p.y] := true;
      depth' := AbsorbStep(O, T, seed, G, Tr, stack, depth, W, H, p);
      G' := G + {p};
      stack' := stack + [Pixel(p.x + 1, p.y), Pixel(p.x - 1, p.y), Pixel(p.x, p.y + 1), Pixel(p.x, p.y - 1)];
    } else {
      BorderStep(O, T, seed, G, Tr, stack, depth, W, H, p);
      stack', G', depth' := stack, G, depth;
    }
    Tr' := Tr + {p};
  }

  /** findOpaqueGroup: from the untraversed opaque pixel (x, y), mark in `group` its whole
      4-connected component and mark traversed that component and the transparent pixels that
      border it. `O` is the opaque set that `transparent` encodes and `T` the traversed set. */
  method FindOpaqueGroup(traversed: array2<bool>, transparent: array2<bool>, group: array2<bool>,
                         x: int, y: int, ghost O: set<Pixel>, ghost T: set<Pixel>)
      returns (ghost G: set<Pixel>, ghost T': set<Pixel>)
    requires traversed != group && transparent != group && transparent != traversed
    requires transparent.Length0 == traversed.Length0 == group.Length0
    requires transparent.Length1 == traversed.Length1 == group.Length1
    requires Marks(traversed, T) && Marks(group, {}) && MarksOutside(transparent, O)
    requires Pixel(x, y) in O && Pixel(x, y) !in T
    requires OpaqueClosed(T, O)
    modifies traversed, group
    ensures IsComponent(G, O, Pixel(x, y)) && G * T == {}
    ensures Marks(group, G) && Marks(traversed, T')
    ensures forall c {:trigger c in T'} :: c in T' <==>
      c in T || c in G || (InBounds(traversed.Length0, traversed.Length1, c) && c !in O && Touches(G, c))
  {
    ghost var W, H := traversed.Length0, traversed.Length1;
    var stack := [Pixel(x, y)];
    ghost var depth: map<Pixel, nat> := map[];
    G := {};
    T' := T;
    AreaBound(T, W, H);
    while |stack| > 0
      invariant Marks(group, G) && Marks(traversed, T') && MarksOutside(transparent, O)
      invariant Filling(O, T, Pixel(x, y), G, T', stack, depth, W, H) && |T'| <= W * H
      decreases W * H - |T'|, |stack|
    {
      ghost var stack0 := stack;
      var p := stack[|stack| - 1];
      stack := stack[..|stack| - 1];
      assert stack + [p] == stack0;
      stack, G, T', depth := Visit(traversed, transparent, group, p, stack, O, T, Pixel(x, y), G, T', depth);
    }
    FillDone(O, T, Pixel(x, y), G, T', depth, W, H);
  }

  // ---- The masks of the groups

  /** The contents of a boolean matrix, column by column. */
  function Snapshot(a: array2<bool>): (g: Grid)
    reads a
    ensures Rectangular(g, a.Length0, a.Length1)
    ensures forall i, j :: 0 <= i < a.Length0 && 0 <= j < a.Length1 ==> g[i][j] == a[i, j]
  {
    seq(a.Length0, i requires 0 <= i < a.Length0 reads a =>
      seq(a.Length1, j requires 0 <= j < a.Length1 reads a => a[i, j]))
  }

  /** g is the mask of G as the split stores it: G's pixels at their own coordinates, in a
      matrix just wide and tall enough for the rightmost and the lowest of them. */
  ghost predicate BoundingBox(G: set<Pixel>, g: Grid) {
    |g| > 0 && Rectangular(g, |g|, |g[0]|) && |g[0]| > 0 && GridCells(g) == G &&
    (exists c :: c in G && c.x == |g| - 1) && (exists c :: c in G && c.y == |g[0]| - 1)
  }

  /** The largest x and y among the pixels `group` marks, searched from Integer.MIN_VALUE. */
  method GroupCorner(group: array2<bool>, ghost G: set<Pixel>) returns (maxX: int, maxY: int)
    requires Marks(group, G) && G != {}
    ensures forall c :: c in G ==> c.x <= maxX && c.y <= maxY
    ensures (exists c :: c in G && c.x == maxX) && (exists c :: c in G && c.y == maxY)
  {
    maxX, maxY := IntMin, IntMin;
    for x := 0 to group.Length0
      invariant forall c :: c in G && c.x < x ==> c.x <= maxX && c.y <= maxY
      invariant maxX == IntMin || exists c :: c in G && c.x == maxX
      invariant maxY == IntMin || exists c :: c in G && c.y == maxY
    {
      for y := 0 to group.Length1
        invariant forall c :: c in G && (c.x < x || (c.x == x && c.y < y)) ==> c.x <= maxX && c.y <= maxY
        invariant maxX == IntMin || exists c :: c in G && c.x == maxX
        invariant maxY == IntMin || exists c :: c in G && c.y == maxY
      {
        if group[x, y] {
          if x > maxX {
            maxX := x;
          }
          if y > maxY {
            maxY := y;
          }
        }
      }
    }
    ghost var c :| c in G;
    assert c.x <= maxX && c.y <= maxY;
  }

  /** A (maxX + 1) by (maxY + 1) matrix true exactly at the pixels of G, whose largest x and y are
      maxX and maxY, is G's cropped mask. */
  lemma CopiedGroup(G: set<Pixel>, g: Grid, maxX: int, maxY: int)
    requires maxX >= 0 && maxY >= 0 && Rectangular(g, maxX + 1, maxY + 1)
    requires forall i, j :: 0 <= i <= maxX && 0 <= j <= maxY ==> (g[i][j] <==> Pixel(i, j) in G)
    requires forall c :: c in G ==> 0 <= c.x <= maxX && 0 <= c.y <= maxY
    requires (exists c :: c in G && c.x == maxX) && (exists c :: c in G && c.y == maxY)
    ensures BoundingBox(G, g)
  {
    forall c | c in G
      ensures c in GridCells(g)
    {
      assert g[c.x][c.y];
    }
    assert GridCells(g) == G;
  }

  /** Column x of the copy: pixels[x, y] is set for every y that `group` marks in column x. */
  method CopyColumn(group: array2<bool>, ghost G: set<Pixel>, pixels: array2<bool>, x: nat)
    requires Marks(group, G) && x < group.Length0 && pixels != group
    requires forall c :: c in G ==> c.x < pixels.Length0 && c.y < pixels.Length1
    requires forall i, j {:trigger pixels[i, j]} :: 0 <= i < pixels.Length0 && 0 <= j < pixels.Length1 ==>
      (pixels[i, j] <==> Pixel(i, j) in G && i < x)
    modifies pixels
    ensures forall i, j {:trigger pixels[i, j]} :: 0 <= i < pixels.Length0 && 0 <= j < pixels.Length1 ==>
      (pixels[i, j] <==> Pixel(i, j) in G && i <= x)
  {
    for y := 0 to group.Length1
      invariant forall i, j {:trigger pixels[i, j]} :: 0 <= i < pixels.Length0 && 0 <= j < pixels.Length1 ==>
        (pixels[i, j] <==> Pixel(i, j) in G && (i < x || (i == x && j < y)))
    {
      if group[x, y] {
        pixels[x, y] := true;
      }
    }
  }

  /** pixelData: a fresh (maxX + 1) by (maxY + 1) matrix holding true exactly at the pixels
      `group` marks. */
  method GroupPixels(group: array2<bool>, ghost G: set<Pixel>) returns (pixelData: Grid)
    requires Marks(group, G) && G != {}
    ensures BoundingBox(G, pixelData)
  {
    var maxX, maxY := GroupCorner(group, G);
    var pixels := new bool[maxX + 1, maxY + 1]((_, _) => false);
    for x := 0 to group.Length0
      invariant forall i, j {:trigger pixels[i, j]} :: 0 <= i < pixels.Length0 && 0 <= j < pixels.Length1 ==>
        (pixels[i, j] <==> Pixel(i, j) in G && i < x)
    {
      CopyColumn(group, G, pixels, x);
    }
    pixelData := Snapshot(pixels);
    CopiedGroup(G, pixelData, maxX, maxY);
  }

  // ---- The scan

  /** Every pixel of G but its seed s comes after s in the scan. */
  ghost predicate SeedFirst(G: set<Pixel>, s: Pixel) {
    forall c :: c in G ==> c == s || ScanLess(s, c)
  }

  /** G, found from seed s, is the traversed component of s in O, and s is its first pixel. */
  ghost predicate Found(O: set<Pixel>, Tr: set<Pixel>, G: set<Pixel>, s: Pixel) {
    IsComponent(G, O, s) && G <= Tr && SeedFirst(G, s)
  }

  /** c lies in one of the groups. */
  ghost predicate Owned(groups: seq<set<Pixel>>, c: Pixel) {
    exists k :: 0 <= k < |groups| && c in groups[k]
  }

  /** Every pixel of the image before `next` is traversed. */
  ghost predicate Before(Tr: set<Pixel>, next: Pixel, w: int, h: int) {
    forall c :: InBounds(w, h, c) && ScanLess(c, next) ==> c in Tr
  }

  /** The seeds come before `next`, in scan order. */
  ghost predicate SeedsInOrder(seeds: seq<Pixel>, next: Pixel) {
    (forall k :: 0 <= k < |seeds| ==> ScanLess(seeds[k], next)) &&
    forall k, l :: 0 <= k < l < |seeds| ==> ScanLess(seeds[k], seeds[l])
  }

  /** No two groups share a pixel. */
  ghost predicate Apart(groups: seq<set<Pixel>>) {
    forall k, l :: 0 <= k < l < |groups| ==> groups[k] * groups[l] == {}
  }

  /** The state of the split's scan when it reaches pixel `next`: every pixel before `next` is
      traversed, the traversed opaque pixels are exactly the groups found, each group is the
      component of its seed, the seeds come in scan order and each is its group's first pixel. */
  ghost predicate Scanned(O: set<Pixel>, Tr: set<Pixel>, groups: seq<set<Pixel>>, seeds: seq<Pixel>,
                          next: Pixel, w: int, h: int)
  {
    (forall c :: c in O ==> InBounds(w, h, c)) && (forall c :: c in Tr ==> InBounds(w, h, c)) &&
    |groups| == |seeds| &&
    (forall k {:trigger Found(O, Tr, groups[k], seeds[k])} :: 0 <= k < |groups| ==> Found(O, Tr, groups[k], seeds[k])) &&
    (forall c {:trigger Owned(groups, c)} :: c in Tr && c in O ==> Owned(groups, c)) &&
    Before(Tr, next, w, h) && SeedsInOrder(seeds, next) && Apart(groups)
  }

  /** The traversed opaque pixels, a union of components, are closed under adjacency in O. */
  lemma ScannedClosed(O: set<Pixel>, Tr: set<Pixel>, groups: seq<set<Pixel>>, seeds: seq<Pixel>,
                      next: Pixel, w: int, h: int)
    requires Scanned(O, Tr, groups, seeds, next, w, h)
    ensures OpaqueClosed(Tr, O)
  {
    forall c, d | c in Tr && c in O && d in O && Adjacent(c, d)
      ensures d in Tr
    {
      assert Owned(groups, c);
      var k :| 0 <= k < |groups| && c in groups[k];
      assert Found(O, Tr, groups[k], seeds[k]);
    }
  }

  /** Leaving a traversed pixel behind moves the scan one pixel on. */
  lemma ScanPast(O: set<Pixel>, Tr: set<Pixel>, groups: seq<set<Pixel>>, seeds: seq<Pixel>,
                 p: Pixel, w: int, h: int)
    requires Scanned(O, Tr, groups, seeds, p, w, h) && p in Tr
    ensures Scanned(O, Tr, groups, seeds, Pixel(p.x, p.y + 1), w, h)
  {
  }

  /** Traversing a transparent pixel changes no group. */
  lemma MarkTransparent(O: set<Pixel>, Tr: set<Pixel>, groups: seq<set<Pixel>>, seeds: seq<Pixel>,
                        p: Pixel, w: int, h: int)
    requires Scanned(O, Tr, groups, seeds, p, w, h) && InBounds(w, h, p) && p !in O
    ensures Scanned(O, Tr + {p}, groups, seeds, p, w, h)
  {
    forall k | 0 <= k < |groups|
      ensures Found(O, Tr + {p}, groups[k], seeds[k])
    {
      assert Found(O, Tr, groups[k], seeds[k]);
    }
    forall c | c in Tr + {p} && c in O
      ensures Owned(groups, c)
    {
      assert Owned(groups, c);
    }
  }

  /** The group found from the first untraversed opaque pixel p is a new component, and p is its
      first pixel in scan order; the scan then moves past p. */
  lemma AddGroup(O: set<Pixel>, Tr: set<Pixel>, Tr': set<Pixel>, G: set<Pixel>, groups: seq<set<Pixel>>,
                 seeds: seq<Pixel>, p: Pixel, w: int, h: int)
    requires Scanned(O, Tr, groups, seeds, p, w, h) && p in O && p !in Tr
    requires IsComponent(G, O, p) && G * Tr == {}
    requires forall c {:trigger c in Tr'} :: c in Tr' <==> c in Tr || c in G || (InBounds(w, h, c) && c !in O && Touches(G, c))
    ensures Scanned(O, Tr', groups + [G], seeds + [p], Pixel(p.x, p.y + 1), w, h)
  {
    var groups', seeds' := groups + [G], seeds + [p];
    assert Tr <= Tr';
    forall k | 0 <= k < |groups'|
      ensures Found(O, Tr', groups'[k], seeds'[k])
    {
      if k < |groups| {
        assert groups'[k] == groups[k] && seeds'[k] == seeds[k];
        assert Found(O, Tr, groups[k], seeds[k]);
      } else {
        assert groups'[k] == G && seeds'[k] == p;
        forall c | c in G
          ensures c == p || ScanLess(p, c)
        {
          assert c !in Tr by {
            assert c !in G * Tr;
          }
        }
      }
    }
    forall c | c in Tr' && c in O
      ensures Owned(groups', c)
    {
      if c in Tr {
        assert Owned(groups, c);
        var k :| 0 <= k < |groups| && c in groups[k];
        assert groups'[k] == groups[k];
      } else {
        assert c in groups'[|groups|];
      }
    }
    assert SeedsInOrder(seeds', Pixel(p.x, p.y + 1)) by {
      forall k | 0 <= k < |seeds'| - 1
        ensures seeds'[k] == seeds[k]
      {
      }
    }
    forall k, l | 0 <= k < l < |groups'|
      ensures groups'[k] * groups'[l] == {}
    {
      assert groups'[k] == groups[k];
      if l < |groups| {
        assert groups'[l] == groups[l];
      } else {
        assert Found(O, Tr, groups[k], seeds[k]);
      }
    }
  }

  /** At the end of a column the scan continues at the top of the next one. */
  lemma NextColumn(O: set<Pixel>, Tr: set<Pixel>, groups: seq<set<Pixel>>, seeds: seq<Pixel>,
                   i: int, w: int, h: int)
    requires Scanned(O, Tr, groups, seeds, Pixel(i, h), w, h)
    ensures Scanned(O, Tr, groups, seeds, Pixel(i + 1, 0), w, h)
  {
    forall k | 0 <= k < |seeds|
      ensures ScanLess(seeds[k], Pixel(i + 1, 0))
    {
      assert Found(O, Tr, groups[k], seeds[k]);
    }
  }

  /** When the scan has passed the last column, the groups are all the components of O. */
  lemma ScanDone(O: set<Pixel>, Tr: set<Pixel>, groups: seq<set<Pixel>>, seeds: seq<Pixel>, w: int, h: int)
    requires Scanned(O, Tr, groups, seeds, Pixel(w, 0), w, h)
    ensures |groups| == |seeds|
    ensures forall k :: 0 <= k < |groups| ==> IsComponent(groups[k], O, seeds[k])
    ensures forall c :: c in O ==> exists k :: 0 <= k < |groups| && c in groups[k]
    ensures forall k, c :: 0 <= k < |groups| && c in groups[k] ==> c == seeds[k] || ScanLess(seeds[k], c)
    ensures forall k, l :: 0 <= k < l < |groups| ==> ScanLess(seeds[k], seeds[l])
    ensures forall k, l, c :: 0 <= k < l < |groups| && c in groups[k] ==> c !in groups[l]
  {
    forall k | 0 <= k < |groups|
      ensures IsComponent(groups[k], O, seeds[k]) && SeedFirst(groups[k], seeds[k])
    {
      assert Found(O, Tr, groups[k], seeds[k]);
    }
    forall c | c in O
      ensures exists k :: 0 <= k < |groups| && c in groups[k]
    {
      assert Owned(groups, c);
    }
    forall k, l, c | 0 <= k < l < |groups| && c in groups[k]
      ensures c !in groups[l]
    {
      assert groups[k] * groups[l] == {};
      assert c !in groups[k] * groups[l];
    }
  }

  /** Mask k of the split is the cropped mask of group k. */
  ghost predicate Cropped(groups: seq<set<Pixel>>, parts: seq<Grid>) {
    |parts| == |groups| &&
    forall k {:trigger BoundingBox(groups[k], parts[k])} :: 0 <= k < |parts| ==> BoundingBox(groups[k], parts[k])
  }

  /** One pass of the split's scan, at pixel (i, j): a traversed pixel is passed over, a
      transparent one is marked traversed, and an opaque one starts a new group, whose pixels
      findOpaqueGroup marks in a fresh matrix and whose cropped mask is appended to `parts`. */
  method ScanPixel(traversed: array2<bool>, transparent: array2<bool>, i: int, j: int, parts: seq<Grid>,
                   ghost O: set<Pixel>, ghost Tr: set<Pixel>, ghost groups: seq<set<Pixel>>, ghost seeds: seq<Pixel>)
      returns (parts': seq<Grid>, ghost Tr': set<Pixel>, ghost groups': seq<set<Pixel>>, ghost seeds': seq<Pixel>)
    requires traversed != transparent
    requires transparent.Length0 == traversed.Length0 && transparent.Length1 == traversed.Length1
    requires 0 <= i < traversed.Length0 && 0 <= j < traversed.Length1
    requires Marks(traversed, Tr) && MarksOutside(transparent, O) && Cropped(groups, parts)
    requires Scanned(O, Tr, groups, seeds, Pixel(i, j), traversed.Length0, traversed.Length1)
    modifies traversed
    ensures Marks(traversed, Tr') && Cropped(groups', parts')
    ensures Scanned(O, Tr', groups', seeds', Pixel(i, j + 1), traversed.Length0, traversed.Length1)
  {
    ghost var w, h, p := traversed.Length0, traversed.Length1, Pixel(i, j);
    if traversed[i, j] {
      ScanPast(O, Tr, groups, seeds, p, w, h);
      return parts, Tr, groups, seeds;
    } else if transparent[i, j] {
      traversed[i, j] := true;
      MarkTransparent(O, Tr, groups, seeds, p, w, h);
      ScanPast(O, Tr + {p}, groups, seeds, p, w, h);
      return parts, Tr + {p}, groups, seeds;
    }
    var group := new bool[traversed.Length0, traversed.Length1]((_, _) => false);
    ScannedClosed(O, Tr, groups, seeds, p, w, h);
    ghost var G;
    G, Tr' := FindOpaqueGroup(traversed, transparent, group, i, j, O, Tr);
    var pixelData := GroupPixels(group, G);
    AddGroup(O, Tr, Tr', G, groups, seeds, p, w, h);
    parts', groups', seeds' := parts + [pixelData], groups + [G], seeds + [p];
    assert BoundingBox(groups'[|groups|], parts'[|groups|]);
    forall k | 0 <= k < |groups|
      ensures BoundingBox(groups'[k], parts'[k])
    {
      assert groups'[k] == groups[k] && parts'[k] == parts[k];
      assert BoundingBox(groups[k], parts[k]);
    }
  }

  /** The masks the split returns carry the groups' pixels, so the groups' properties are theirs. */
  lemma PartsAreGroups(O: set<Pixel>, groups: seq<set<Pixel>>, seeds: seq<Pixel>, parts: seq<Grid>)
    requires |groups| == |seeds| && Cropped(groups, parts)
    requires forall k :: 0 <= k < |groups| ==> IsComponent(groups[k], O, seeds[k])
    requires forall c :: c in O ==> exists k :: 0 <= k < |groups| && c in groups[k]
    requires forall k, c :: 0 <= k < |groups| && c in groups[k] ==> c == seeds[k] || ScanLess(seeds[k], c)
    requires forall k, l, c :: 0 <= k < l < |groups| && c in groups[k] ==> c !in groups[l]
    ensures forall k :: 0 <= k < |parts| ==>
      IsComponent(GridCells(parts[k]), O, seeds[k]) && BoundingBox(GridCells(parts[k]), parts[k])
    ensures forall c :: c in O ==> exists k :: 0 <= k < |parts| && c in GridCells(parts[k])
    ensures forall k, c :: 0 <= k < |parts| && c in GridCells(parts[k]) ==> c == seeds[k] || ScanLess(seeds[k], c)
    ensures forall k, l, c :: 0 <= k < l < |parts| && c in GridCells(parts[k]) ==> c !in GridCells(parts[l])
  {
    forall k | 0 <= k < |parts|
      ensures GridCells(parts[k]) == groups[k]
    {
      assert BoundingBox(groups[k], parts[k]);
    }
  }

  /** The split's two fresh w by h matrices: nothing traversed yet, and transparent exactly at the
      white pixels. */
  method NewMasks(img: Raster, w: nat, h: nat) returns (traversed: array2<bool>, transparent: array2<bool>)
    requires IsRaster(img, w, h)
    ensures fresh(traversed) && fresh(transparent) && traversed != transparent
    ensures traversed.Length0 == transparent.Length0 == w && traversed.Length1 == transparent.Length1 == h
    ensures Marks(traversed, {}) && MarksOutside(transparent, Opaque(img, w, h))
  {
    traversed := new bool[w, h];
    transparent := new bool[w, h];
    for i := 0 to w
      invariant forall x, y {:trigger transparent[x, y]} :: 0 <= x < i && 0 <= y < h ==>
        (transparent[x, y] <==> img[x][y] == White)
      invariant forall x, y {:trigger traversed[x, y]} :: 0 <= x < i && 0 <= y < h ==> !traversed[x, y]
    {
      for j := 0 to h
        invariant forall x, y {:trigger transparent[x, y]} :: (0 <= x < i && 0 <= y < h) || (x == i && 0 <= y < j) ==>
          (transparent[x, y] <==> img[x][y] == White)
        invariant forall x, y {:trigger traversed[x, y]} :: (0 <= x < i && 0 <= y < h) || (x == i && 0 <= y < j) ==>
          !traversed[x, y]
      {
        transparent[i, j] := img[i][j] == White;
        traversed[i, j] := false;
      }
    }
  }

  /** splitImageIntoRigidBodies: one mask per 4-connected group of non-transparent pixels, in the
      order the column-by-column scan meets the groups' first pixels. Each mask is the group at
      its own image coordinates, cropped to the group's largest x and y. `seeds` are the first
      pixels. */
  method SplitImage(img: Raster, w: nat, h: nat) returns (parts: seq<Grid>, ghost seeds: seq<Pixel>)
    requires IsRaster(img, w, h)
    ensures |parts| == |seeds|
    ensures forall k :: 0 <= k < |parts| ==>
      IsComponent(GridCells(parts[k]), Opaque(img, w, h), seeds[k]) && BoundingBox(GridCells(parts[k]), parts[k])
    ensures forall c :: c in Opaque(img, w, h) ==> exists k :: 0 <= k < |parts| && c in GridCells(parts[k])
    ensures forall k, c :: 0 <= k < |parts| && c in GridCells(parts[k]) ==> c == seeds[k] || ScanLess(seeds[k], c)
    ensures forall k, l :: 0 <= k < l < |parts| ==> ScanLess(seeds[k], seeds[l])
    ensures forall k, l, c :: 0 <= k < l < |parts| && c in GridCells(parts[k]) ==> c !in GridCells(parts[l])
  {
    var traversed, transparent := NewMasks(img, w, h);
    ghost var O := Opaque(img, w, h);
    ghost var Tr: set<Pixel> := {};
    ghost var groups: seq<set<Pixel>> := [];
    parts, seeds := [], [];
    for i := 0 to w
      invariant Marks(traversed, Tr) && MarksOutside(transparent, O) && Cropped(groups, parts)
      invariant Scanned(O, Tr, groups, seeds, Pixel(i, 0), w, h)
    {
      for j := 0 to h
        invariant Marks(traversed, Tr) && MarksOutside(transparent, O) && Cropped(groups, parts)
        invariant Scanned(O, Tr, groups, seeds, Pixel(i, j), w, h)
      {
        parts, Tr, groups, seeds := ScanPixel(traversed, transparent, i, j, parts, O, Tr, groups, seeds);
      }
      NextColumn(O, Tr, groups, seeds, i, w, h);
    }
    ScanDone(O, Tr, groups, seeds, w, h);
    PartsAreGroups(O, groups, seeds, parts);
  }
}
