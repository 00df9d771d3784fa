/** The plane: the wings and structures large enough to keep, the engines pinned to the first
    part under each of them, the loose joints chained through the parts under each joint marker,
    and the update, relocation and thrust switch that act on all of them. */
module Planes {
  import opened Vectors
  import opened Shape
  import opened Segmentation
  import opened Rk4
  import opened RigidBody
  import opened Joints
  import opened Assembly

  // ---- The size filter

  /** assemblePlane keeps a part when getMass() / density > 50. A density of 0 gives a mass of 0,
      and 0 / 0 is NaN, which is not greater than 50: such a part is dropped. */
  predicate Keeps(b: Body)
    reads b
  {
    b.density != 0.0 && b.mass / b.density > 50.0
  }

  /** The size filter is a pixel count: a part is kept exactly when its density is not 0 and more
      than 50 of its pixels are occupied. */
  lemma KeepsBySize(b: Body)
    requires b.MassModel()
    ensures Keeps(b) <==> b.density != 0.0 && Count(b.pixels) > 50
  {
    assert b.mass == MassOf(b.pixels, b.density);
    SizeTest(Count(b.pixels), b.density, b.mass);
  }

  lemma SizeTest(n: nat, density: real, mass: real)
    requires mass == (if n == 0 then 0.0 else n as real * density)
    ensures density != 0.0 && mass / density > 50.0 <==> density != 0.0 && n > 50
  {
    if density != 0.0 && n > 0 {
      DivCancel(n as real, density);
    }
  }

  /** The parts the filter keeps, in their order. */
  function Kept(bs: seq<Body>): seq<Body>
    reads bs
  {
    if |bs| == 0 then []
    else
      var n := |bs| - 1;
      assert forall k :: 0 <= k < n ==> bs[..n][k] == bs[k];
      Kept(bs[..n]) + (if Keeps(bs[n]) then [bs[n]] else [])
  }

  /** The filter keeps exactly the parts that pass it. */
  lemma {:induction false} KeptMembers(bs: seq<Body>)
    ensures forall b :: b in Kept(bs) ==> b in bs && Keeps(b)
    ensures forall b :: b in bs && Keeps(b) ==> b in Kept(bs)
  {
    if |bs| > 0 {
      var n := |bs| - 1;
      KeptMembers(bs[..n]);
      assert bs == bs[..n] + [bs[n]];
    }
  }

  predicate Distinct<T(==)>(s: seq<T>) {
    forall k, l :: 0 <= k < l < |s| ==> s[k] != s[l]
  }

  /** Filtering two lists one after the other is filtering the two together. */
  lemma {:induction false} KeptAppend(a: seq<Body>, b: seq<Body>)
    ensures Kept(a + b) == Kept(a) + Kept(b)
  {
    if |b| > 0 {
      var n := |b| - 1;
      assert (a + b)[..|a + b| - 1] == a + b[..n];
      KeptAppend(a, b[..n]);
    } else {
      assert a + b == a;
    }
  }

  /** The filter keeps distinct parts distinct. */
  lemma {:induction false} KeptDistinct(bs: seq<Body>)
    requires Distinct(bs)
    ensures Distinct(Kept(bs))
  {
    if |bs| > 0 {
      var n := |bs| - 1;
      assert Distinct(bs[..n]);
      KeptDistinct(bs[..n]);
      KeptMembers(bs[..n]);
      assert bs[n] !in bs[..n];
    }
  }

  /** The wing loop and the structure loop of assemblePlane. */
  method KeepParts(bs: seq<Body>) returns (kept: seq<Body>)
    ensures kept == Kept(bs)
  {
    kept := [];
    for k := 0 to |bs|
      invariant kept == Kept(bs[..k])
    {
      assert bs[..k + 1][..k] == bs[..k];
      if bs[k].density != 0.0 && bs[k].mass / bs[k].density > 50.0 {
        kept := kept + [bs[k]];
      }
    }
    assert bs[..|bs|] == bs;
  }

  // ---- Which parts hold a point

  /** The indices where `hits` is true, in increasing order. */
  function Trues(hits: seq<bool>): seq<nat> {
    if |hits| == 0 then []
    else
      var n := |hits| - 1;
      Trues(hits[..n]) + (if hits[n] then [n] else [])
  }

  /** Trues lists true indices, and all of them. */
  lemma {:induction false} TruesAt(hits: seq<bool>)
    ensures forall k :: 0 <= k < |Trues(hits)| ==> Trues(hits)[k] < |hits| && hits[Trues(hits)[k]]
    ensures forall i :: 0 <= i < |hits| && hits[i] ==> i in Trues(hits)
  {
    if |hits| > 0 {
      var n := |hits| - 1;
      assert forall i :: 0 <= i < n ==> hits[..n][i] == hits[i];
      TruesAt(hits[..n]);
    }
  }

  /** Trues lists each true index once, in increasing order. */
  lemma {:induction false} TruesIncreasing(hits: seq<bool>)
    ensures forall k, l :: 0 <= k < l < |Trues(hits)| ==> Trues(hits)[k] < Trues(hits)[l]
  {
    if |hits| > 0 {
      TruesAt(hits[..|hits| - 1]);
      TruesIncreasing(hits[..|hits| - 1]);
    }
  }

  /** Trues has one entry per true value. */
  lemma {:induction false} TruesCount(hits: seq<bool>)
    ensures |Trues(hits)| == multiset(hits)[true]
  {
    if |hits| > 0 {
      var n := |hits| - 1;
      assert hits == hits[..n] + [hits[n]];
      TruesCount(hits[..n]);
    }
  }

  /** Two neighbours in Trues have no true value between them. */
  lemma TruesConsecutive(hits: seq<bool>, k: nat, i: int)
    requires k + 1 < |Trues(hits)| && Trues(hits)[k] < i < Trues(hits)[k + 1]
    ensures i < |hits| && !hits[i]
  {
    var t := Trues(hits);
    TruesAt(hits);
    TruesIncreasing(hits);
    assert forall m :: 0 <= m < |t| ==> t[m] != i by {
      forall m | 0 <= m < |t|
        ensures t[m] != i
      {
        if m <= k {
          assert t[m] <= t[k];
        } else {
          assert t[k + 1] <= t[m];
        }
      }
    }
  }

  /** The first true index, if any. */
  function First(hits: seq<bool>): (r: Option<nat>)
    ensures r.Some? ==> r.value < |hits|
  {
    TruesAt(hits);
    if |Trues(hits)| == 0 then None else Some(Trues(hits)[0])
  }

  /** First finds the first true value, and finds nothing only when there is none. */
  lemma FirstIsFirst(hits: seq<bool>)
    ensures First(hits).None? <==> forall i :: 0 <= i < |hits| ==> !hits[i]
    ensures First(hits).Some? ==>
      var i := First(hits).value;
      i < |hits| && hits[i] && forall l :: 0 <= l < i ==> !hits[l]
  {
    TruesAt(hits);
    TruesIncreasing(hits);
    var t := Trues(hits);
    if |t| > 0 {
      assert forall m :: 0 <= m < |t| ==> t[0] <= t[m];
    }
  }

  /** Successive entries of a list of indices, paired. */
  function Pairs(t: seq<nat>): (r: seq<(nat, nat)>)
    ensures |r| == if |t| == 0 then 0 else |t| - 1
    ensures forall k {:trigger r[k]} :: 0 <= k < |r| ==> r[k] == (t[k], t[k + 1])
  {
    if |t| == 0 then [] else seq(|t| - 1, k requires 0 <= k < |t| - 1 => (t[k], t[k + 1]))
  }

  /** A point held by k parts is chained by max(k - 1, 0) links, each from one holding part to the
      next holding part in list order, with no holding part skipped. */
  lemma ChainShape(hits: seq<bool>)
    ensures |Pairs(Trues(hits))| == if multiset(hits)[true] == 0 then 0 else multiset(hits)[true] - 1
    ensures forall k :: 0 <= k < |Pairs(Trues(hits))| ==>
      var (a, b) := Pairs(Trues(hits))[k];
      a < b < |hits| && hits[a] && hits[b] && forall i :: a < i < b ==> !hits[i]
  {
    TruesAt(hits);
    TruesCount(hits);
    TruesIncreasing(hits);
    var t := Trues(hits);
    forall k, i | 0 <= k < |Pairs(t)| && t[k] < i < t[k + 1]
      ensures !hits[i]
    {
      TruesConsecutive(hits, k, i);
    }
  }

  lemma PairsSnoc(t: seq<nat>, x: nat)
    ensures Pairs(t + [x]) == Pairs(t) + if |t| == 0 then [] else [(t[|t| - 1], x)]
  {
  }

  predicate Centred(parts: seq<Body>)
    reads parts
  {
    forall k :: 0 <= k < |parts| ==> parts[k].centre.Some?
  }

  /** Every part lies at its own centre of mass, as a part does from its splitting off the
      template until it first moves. */
  predicate AtCentres(parts: seq<Body>)
    reads parts
  {
    forall b :: b in parts ==> b.centre.Some? && b.pos == b.centre.value
  }

  /** A part as the assembly sees it: the body, and the pixels, centre of mass and position that
      decide which points it holds. */
  datatype Placed = Placed(body: Body, pixels: Grid, centre: Vec, pos: Vec)

  /** The parts where they lie. */
  function Layout(parts: seq<Body>): (r: seq<Placed>)
    reads parts
    requires Centred(parts)
    ensures |r| == |parts|
    ensures forall k :: 0 <= k < |parts| ==>
      r[k] == Placed(parts[k], parts[k].pixels, parts[k].centre.value, parts[k].pos)
  {
    seq(|parts|, k requires 0 <= k < |parts| && parts[k].centre.Some? reads parts =>
      Placed(parts[k], parts[k].pixels, parts[k].centre.value, parts[k].pos))
  }

  /** The bodies of a layout, in order. */
  function Members(layout: seq<Placed>): (r: seq<Body>)
    ensures |r| == |layout| && forall k :: 0 <= k < |layout| ==> r[k] == layout[k].body
  {
    seq(|layout|, k requires 0 <= k < |layout| => layout[k].body)
  }

  lemma LayoutMembers(parts: seq<Body>)
    requires Centred(parts)
    ensures Members(Layout(parts)) == parts
  {
  }

  /** Whether a placed part holds the point, by the corrected containment test. */
  predicate Holds(q: Placed, p: Pixel) {
    ContainsAt(q.pixels, q.centre, q.pos, p)
  }

  /** Whether each part holds the point. */
  function Hits(layout: seq<Placed>, p: Pixel): (r: seq<bool>)
    ensures |r| == |layout| && forall k :: 0 <= k < |layout| ==> r[k] == Holds(layout[k], p)
  {
    seq(|layout|, k requires 0 <= k < |layout| => Holds(layout[k], p))
  }

  /** Parts that still lie where they were made, at their own centre of mass, hold the same
      points under the test as written and the corrected one: the pixel the point falls on. */
  lemma RestingPartsAgree(b: Body, p: Pixel)
    requires b.centre.Some? && b.pos == b.centre.value
    ensures b.ContainsPointNoRot(p) == b.ContainsWorldPoint(p) == Cell(b.pixels, p.x, p.y)
  {
    ContainsAtRest(b.pixels, b.centre.value, p);
  }

  // ---- The joints the plane is given

  /** A joint to make: its kind, its two bodies and the world point that joins them. */
  datatype Link = Link(kind: Kind, a: Body, b: Body, at: Vec)

  /** The engine joint: an angular joint from the engine to the first part holding its point. */
  function EngineLink(layout: seq<Placed>, e: Body, p: Pixel): seq<Link> {
    match First(Hits(layout, p))
    case None => []
    case Some(i) => [Link(AngularJoint, e, layout[i].body, FromPixel(p))]
  }

  function EngineLinks(layout: seq<Placed>, engines: seq<Body>, positions: seq<Pixel>): seq<Link>
    requires |engines| == |positions|
  {
    if |positions| == 0 then []
    else
      var n := |positions| - 1;
      EngineLinks(layout, engines[..n], positions[..n]) + EngineLink(layout, engines[n], positions[n])
  }

  /** The joints of one joint marker: loose joints between successive parts holding it. */
  function ChainLinks(layout: seq<Placed>, p: Pixel): (r: seq<Link>)
    ensures |r| == |Pairs(Trues(Hits(layout, p)))|
  {
    TruesAt(Hits(layout, p));
    ChainLinksOf(layout, Pairs(Trues(Hits(layout, p))), p)
  }

  function ChainLink(layout: seq<Placed>, pair: (nat, nat), p: Pixel): Link
    requires pair.0 < |layout| && pair.1 < |layout|
  {
    Link(LooseJoint, layout[pair.0].body, layout[pair.1].body, FromPixel(p))
  }

  predicate PairsIn(pairs: seq<(nat, nat)>, n: nat) {
    forall k :: 0 <= k < |pairs| ==> pairs[k].0 < n && pairs[k].1 < n
  }

  /** A loose joint at p for each pair of parts. */
  function ChainLinksOf(layout: seq<Placed>, pairs: seq<(nat, nat)>, p: Pixel): (r: seq<Link>)
    requires PairsIn(pairs, |layout|)
    ensures |r| == |pairs| && forall k :: 0 <= k < |pairs| ==> r[k] == ChainLink(layout, pairs[k], p)
  {
    if |pairs| == 0 then []
    else
      var n := |pairs| - 1;
      assert forall k :: 0 <= k < n ==> pairs[..n][k] == pairs[k];
      ChainLinksOf(layout, pairs[..n], p) + [ChainLink(layout, pairs[n], p)]
  }

  lemma ChainLinksSnoc(layout: seq<Placed>, pairs: seq<(nat, nat)>, x: (nat, nat), p: Pixel)
    requires PairsIn(pairs, |layout|) && x.0 < |layout| && x.1 < |layout|
    ensures PairsIn(pairs + [x], |layout|)
    ensures ChainLinksOf(layout, pairs + [x], p) == ChainLinksOf(layout, pairs, p) + [ChainLink(layout, x, p)]
  {
    assert (pairs + [x])[..|pairs|] == pairs;
  }

  function JointLinks(layout: seq<Placed>, positions: seq<Pixel>): seq<Link> {
    if |positions| == 0 then []
    else
      var n := |positions| - 1;
      JointLinks(layout, positions[..n]) + ChainLinks(layout, positions[n])
  }

  /** A joint made as the link says: attached to its bodies at its point, intact. */
  ghost predicate Realises(j: Joint, l: Link)
    reads j, l.a, l.b
  {
    j.kind == l.kind && j.body1 == l.a && j.body2 == l.b && !j.broken &&
    j.radius1 == Minus(l.at, l.a.pos) && j.radius2 == Minus(l.at, l.b.pos) &&
    (l.kind == AngularJoint ==> j.targetAngle == l.a.rotation - l.b.rotation)
  }

  /** Every link joins two of the given bodies. */
  lemma {:induction false} EngineLinksJoin(layout: seq<Placed>, engines: seq<Body>, positions: seq<Pixel>)
    requires |engines| == |positions|
    ensures forall l :: l in EngineLinks(layout, engines, positions) ==> l.a in engines && l.b in Members(layout)
    ensures Distinct(Members(layout) + engines) ==> forall l :: l in EngineLinks(layout, engines, positions) ==> l.a != l.b
  {
    if Distinct(Members(layout) + engines) {
      DistinctApart(Members(layout), engines);
    }
    if |positions| > 0 {
      var n := |positions| - 1;
      EngineLinksJoin(layout, engines[..n], positions[..n]);
      FirstIsFirst(Hits(layout, positions[n]));
    }
  }

  lemma {:induction false} JointLinksJoin(layout: seq<Placed>, positions: seq<Pixel>)
    ensures forall l :: l in JointLinks(layout, positions) ==> l.a in Members(layout) && l.b in Members(layout)
    ensures Distinct(Members(layout)) ==> forall l :: l in JointLinks(layout, positions) ==> l.a != l.b
  {
    if |positions| > 0 {
      var n := |positions| - 1;
      JointLinksJoin(layout, positions[..n]);
      var chain := ChainLinks(layout, positions[n]);
      forall l | l in chain
        ensures l.a in Members(layout) && l.b in Members(layout)
        ensures Distinct(Members(layout)) ==> l.a != l.b
      {
        var k :| 0 <= k < |chain| && chain[k] == l;
        var a, b := ChainLinkAt(layout, positions[n], k);
        assert Members(layout)[a] == l.a && Members(layout)[b] == l.b;
      }
    }
  }

  /** Two lists that are distinct together share nothing. */
  lemma DistinctApart<T>(a: seq<T>, b: seq<T>)
    requires Distinct(a + b)
    ensures Distinct(a) && Distinct(b)
    ensures forall x :: x in a ==> x !in b
  {
    forall i, j | 0 <= i < |a| && 0 <= j < |b|
      ensures a[i] != b[j]
    {
      assert (a + b)[i] == a[i] && (a + b)[|a| + j] == b[j];
    }
    forall k, l | 0 <= k < l < |b|
      ensures b[k] != b[l]
    {
      assert (a + b)[|a| + k] != (a + b)[|a| + l];
    }
    forall k, l | 0 <= k < l < |a|
      ensures a[k] != a[l]
    {
      assert (a + b)[k] != (a + b)[l];
    }
  }

  /** Each engine marker gets at most one joint, and gets one exactly when some part holds the
      marker: the angular joint from the engine to the first part holding it. */
  lemma EngineLinkShape(layout: seq<Placed>, e: Body, p: Pixel) returns (i: nat)
    ensures |EngineLink(layout, e, p)| <= 1
    ensures |EngineLink(layout, e, p)| == 1 <==> exists h :: 0 <= h < |layout| && Holds(layout[h], p)
    ensures |EngineLink(layout, e, p)| == 1 ==>
      i < |layout| && EngineLink(layout, e, p)[0] == Link(AngularJoint, e, layout[i].body, FromPixel(p)) &&
      Holds(layout[i], p) && forall l :: 0 <= l < i ==> !Holds(layout[l], p)
  {
    var hits := Hits(layout, p);
    FirstIsFirst(hits);
    i := 0;
    if First(hits).Some? {
      i := First(hits).value;
      assert EngineLink(layout, e, p) == [Link(AngularJoint, e, layout[i].body, FromPixel(p))];
      assert hits[i];
      forall l | 0 <= l < i
        ensures !Holds(layout[l], p)
      {
        assert !hits[l];
      }
    } else {
      assert EngineLink(layout, e, p) == [];
      forall h | 0 <= h < |layout|
        ensures !Holds(layout[h], p)
      {
        assert !hits[h];
      }
    }
  }

  /** A joint marker held by n parts gets max(n - 1, 0) loose joints. */
  lemma ChainLinksCount(layout: seq<Placed>, p: Pixel)
    ensures var n := multiset(Hits(layout, p))[true];
      |ChainLinks(layout, p)| == if n == 0 then 0 else n - 1
  {
    ChainShape(Hits(layout, p));
  }

  /** Each loose joint of a marker runs from a part holding the marker to the next part holding
      it in list order. */
  lemma ChainLinkAt(layout: seq<Placed>, p: Pixel, k: nat) returns (a: nat, b: nat)
    requires k < |ChainLinks(layout, p)|
    ensures a < b < |layout| && ChainLinks(layout, p)[k] == Link(LooseJoint, layout[a].body, layout[b].body, FromPixel(p))
    ensures Holds(layout[a], p) && Holds(layout[b], p)
    ensures forall i :: a < i < b ==> !Holds(layout[i], p)
  {
    var hits := Hits(layout, p);
    ChainShape(hits);
    TruesAt(hits);
    a, b := Pairs(Trues(hits))[k].0, Pairs(Trues(hits))[k].1;
    assert hits[a] && hits[b];
    forall i | a < i < b
      ensures !Holds(layout[i], p)
    {
      assert !hits[i];
    }
  }

  /** The engine loop's body: a new engine at the marker and, if a part holds the marker, the one
      angular joint that pins the engine to the first such part, after the joints made so far. */
  method AddEngine(parts: seq<Body>, p: Pixel, art: Raster, aw: nat, ah: nat, ghost others: seq<Body>,
                   js: seq<Joint>, ghost links: seq<Link>) returns (e: Engine, js': seq<Joint>)
    requires Centred(parts) && AtCentres(parts) && IsRaster(art, aw, ah) && Count(Mask(art, aw, ah)) > 0
    requires |js| == |links| && forall k :: 0 <= k < |js| ==> Realises(js[k], links[k])
    ensures fresh(e) && e.body !in others && EngineAt(e, p, EngineForm(art, aw, ah))
    ensures |js'| == |links + EngineLink(Layout(parts), e.body, p)|
    ensures forall k :: 0 <= k < |js'| ==> Realises(js'[k], (links + EngineLink(Layout(parts), e.body, p))[k])
  {
    ghost var layout := Layout(parts);
    e := new Engine(art, aw, ah, p.x as real, p.y as real);
    assert e.body.Formed() == EngineForm(art, aw, ah);
    js' := PinEngine(parts, e.body, p, js, links);
    assert Layout(parts) == layout;
  }

  /** The search for the first part holding the engine's marker, and the joint pinning the engine
      to it. */
  method PinEngine(parts: seq<Body>, b: Body, p: Pixel, js: seq<Joint>, ghost links: seq<Link>) returns (js': seq<Joint>)
    requires Centred(parts) && AtCentres(parts)
    requires |js| == |links| && forall k :: 0 <= k < |js| ==> Realises(js[k], links[k])
    ensures |js'| == |links + EngineLink(Layout(parts), b, p)|
    ensures forall k :: 0 <= k < |js'| ==> Realises(js'[k], (links + EngineLink(Layout(parts), b, p))[k])
  {
    js' := js;
    ghost var layout := Layout(parts);
    ghost var hits := Hits(layout, p);
    FirstIsFirst(hits);
    assert links + [] == links;
    var i := 0;
    while i < |parts|
      invariant 0 <= i <= |parts|
      invariant forall l :: 0 <= l < i ==> !hits[l]
    {
      assert parts[i] in parts;
      RestingPartsAgree(parts[i], p);
      if parts[i].ContainsPointNoRot(p) {
        assert hits[i];
        assert First(hits) == Some(i);
        js' := AppendJoint(js, links, Link(AngularJoint, b, parts[i], FromPixel(p)));
        assert Layout(parts) == layout;
        return;
      }
      i := i + 1;
    }
  }


  /** The mass model of the engine image: what every engine body is made of. */
  function EngineForm(art: Raster, aw: nat, ah: nat): (f: Form)
    requires IsRaster(art, aw, ah)
    ensures f.image == art && f.w == aw && f.h == ah && f.density == EngineDensity
  {
    var px := Mask(art, aw, ah);
    Form(art, aw, ah, EngineDensity, px, Count(px) == 0, Centre(px), MassOf(px, EngineDensity),
         InertiaOf(px, EngineDensity), CollisionRadiusSq(px))
  }

  /** A new engine at a marker: the engine image at rest there, not thrusting. */
  ghost predicate EngineAt(e: Engine, p: Pixel, form: Form)
    reads e, e.body
  {
    !e.thrusting && e.body.Formed() == form && e.body.Kinematics() == Motion(FromPixel(p), Zero, 0.0, 0.0)
  }

  /** A new joint of the link's kind, attached as the link says. */
  method NewJoint(l: Link) returns (j: Joint)
    ensures fresh(j) && Realises(j, l)
  {
    j := new Joint(l.kind);
    j.Attach(l.a, l.b, l.at);
  }

  /** A new joint for one more link, after the joints already made. */
  method AppendJoint(js: seq<Joint>, ghost links: seq<Link>, l: Link) returns (r: seq<Joint>)
    requires |js| == |links| && forall k :: 0 <= k < |js| ==> Realises(js[k], links[k])
    ensures |r| == |links| + 1
    ensures forall k :: 0 <= k < |r| ==> Realises(r[k], (links + [l])[k])
  {
    var j := NewJoint(l);
    r := js + [j];
  }

  lemma TruesStep(hits: seq<bool>, i: nat)
    requires i < |hits|
    ensures Trues(hits[..i + 1]) == Trues(hits[..i]) + if hits[i] then [i] else []
  {
    assert hits[..i + 1][..i] == hits[..i];
  }

  /** Where the joint loop for one marker stands after looking at the first i parts: t lists the
      ones holding the marker, the last of them is the previous part, and one link has been planned
      per pair of successive holders. */
  predicate ChainedUpTo(layout: seq<Placed>, p: Pixel, hits: seq<bool>, i: nat, previousPart: Body?, t: seq<nat>, links: seq<Link>)
  {
    i <= |hits| && t == Trues(hits[..i]) && (forall m :: 0 <= m < |t| ==> t[m] < i <= |layout|) &&
    (previousPart == null <==> |t| == 0) &&
    (previousPart != null ==> previousPart == layout[t[|t| - 1]].body) &&
    PairsIn(Pairs(t), |layout|) && links == ChainLinksOf(layout, Pairs(t), p)
  }

  /** The joint loop's bookkeeping for a part that does not hold the marker. */
  lemma ChainSkip(layout: seq<Placed>, p: Pixel, hits: seq<bool>, i: nat, previousPart: Body?, t: seq<nat>, links: seq<Link>)
    requires i < |layout| == |hits| && !hits[i] && ChainedUpTo(layout, p, hits, i, previousPart, t, links)
    ensures ChainedUpTo(layout, p, hits, i + 1, previousPart, t, links)
  {
    TruesStep(hits, i);
  }

  /** The first part holding the marker becomes the previous part, joined to nothing. */
  lemma ChainFirst(layout: seq<Placed>, p: Pixel, hits: seq<bool>, i: nat, t: seq<nat>, links: seq<Link>)
    requires i < |layout| == |hits| && hits[i] && ChainedUpTo(layout, p, hits, i, null, t, links)
    ensures ChainedUpTo(layout, p, hits, i + 1, layout[i].body, t + [i], links)
  {
    TruesStep(hits, i);
    assert t == [];
    assert Pairs([i]) == [];
  }

  /** A later part holding the marker is joined to the previous one and takes its place. */
  lemma ChainLinkNext(layout: seq<Placed>, p: Pixel, hits: seq<bool>, i: nat, previousPart: Body, t: seq<nat>, links: seq<Link>)
    requires i < |layout| == |hits| && hits[i] && ChainedUpTo(layout, p, hits, i, previousPart, t, links)
    ensures ChainedUpTo(layout, p, hits, i + 1, layout[i].body, t + [i],
                        links + [Link(LooseJoint, previousPart, layout[i].body, FromPixel(p))])
  {
    TruesStep(hits, i);
    PairsSnoc(t, i);
    ChainLinksSnoc(layout, Pairs(t), (t[|t| - 1], i), p);
  }

  /** One pass of the joint loop: a part holding the marker becomes the previous part, joined
      to the one before it, if any. */
  method ChainStep(parts: seq<Body>, p: Pixel, ghost layout: seq<Placed>, ghost hits: seq<bool>, i: nat, previousPart: Body?,
                   ghost t: seq<nat>, js: seq<Joint>, ghost links: seq<Link>)
    returns (previous': Body?, ghost t': seq<nat>, js': seq<Joint>, ghost links': seq<Link>)
    requires Centred(parts) && Members(layout) == parts && i < |parts| == |hits|
    requires hits[i] == parts[i].ContainsPointNoRot(p)
    requires ChainedUpTo(layout, p, hits, i, previousPart, t, links)
    requires |js| == |links| && forall k :: 0 <= k < |js| ==> Realises(js[k], links[k])
    ensures ChainedUpTo(layout, p, hits, i + 1, previous', t', links')
    ensures |js'| == |links'| && forall k :: 0 <= k < |js'| ==> Realises(js'[k], links'[k])
  {
    assert layout[i].body == parts[i];
    previous', t', js', links' := previousPart, t, js, links;
    if !parts[i].ContainsPointNoRot(p) {
      ChainSkip(layout, p, hits, i, previousPart, t, links);
    } else {
      if previousPart == null {
        ChainFirst(layout, p, hits, i, t, links);
        previous' := parts[i];
      } else {
        ChainLinkNext(layout, p, hits, i, previousPart, t, links);
        var link := Link(LooseJoint, previousPart, parts[i], FromPixel(p));
        js' := AppendJoint(js, links, link);
        links' := links + [link];
        previous' := parts[i];
      }
      t' := t + [i];
    }
  }

  /** The joint loop's body for one marker: a loose joint from each part holding it to the next
      part holding it. */
  method ChainJoints(parts: seq<Body>, p: Pixel) returns (js: seq<Joint>)
    requires Centred(parts) && AtCentres(parts)
    ensures |js| == |ChainLinks(Layout(parts), p)|
    ensures forall k :: 0 <= k < |js| ==> Realises(js[k], ChainLinks(Layout(parts), p)[k])
  {
    ghost var layout := Layout(parts);
    LayoutMembers(parts);
    ghost var hits := Hits(layout, p);
    js := [];
    var previousPart: Body? := null;
    ghost var t: seq<nat> := [];
    ghost var links: seq<Link> := [];
    assert hits[..0] == [];
    for i := 0 to |parts|
      invariant layout == Layout(parts)
      invariant ChainedUpTo(layout, p, hits, i, previousPart, t, links)
      invariant |js| == |links| && forall k :: 0 <= k < |js| ==> Realises(js[k], links[k])
    {
      assert parts[i] in parts;
      RestingPartsAgree(parts[i], p);
      assert hits[i] == parts[i].ContainsPointNoRot(p);
      previousPart, t, js, links := ChainStep(parts, p, layout, hits, i, previousPart, t, js, links);
    }
    assert hits[..|parts|] == hits;
  }

  // ---- assemblePlane

  /** The engines' bodies, in order. */
  function EngineBodies(es: seq<Engine>): (r: seq<Body>)
    ensures |r| == |es| && forall k :: 0 <= k < |es| ==> r[k] == es[k].body
  {
    seq(|es|, k requires 0 <= k < |es| => es[k].body)
  }

  /** The joints assemblePlane makes, in its order: the engine joints, marker by marker, then the
      loose joints, marker by marker. */
  function Plan(layout: seq<Placed>, engines: seq<Engine>, enginePositions: seq<Pixel>, jointPositions: seq<Pixel>): seq<Link>
    requires |engines| == |enginePositions|
  {
    EngineLinks(layout, EngineBodies(engines), enginePositions) + JointLinks(layout, jointPositions)
  }

  lemma EngineLinksSnoc(layout: seq<Placed>, engines: seq<Body>, positions: seq<Pixel>, e: Body, p: Pixel)
    requires |engines| == |positions|
    ensures EngineLinks(layout, engines + [e], positions + [p]) == EngineLinks(layout, engines, positions) + EngineLink(layout, e, p)
  {
    assert (engines + [e])[..|engines|] == engines;
    assert (positions + [p])[..|positions|] == positions;
  }

  lemma JointLinksStep(layout: seq<Placed>, positions: seq<Pixel>, k: nat)
    requires k < |positions|
    ensures JointLinks(layout, positions[..k + 1]) == JointLinks(layout, positions[..k]) + ChainLinks(layout, positions[k])
  {
    assert positions[..k + 1][..k] == positions[..k];
  }

  /** Where the engine loop stands: one engine per marker looked at, each placed at its marker,
      their bodies new and distinct from the parts and from each other, and the engine links of
      those markers planned. */
  ghost predicate EnginesMade(layout: seq<Placed>, positions: seq<Pixel>, engines: seq<Engine>, links: seq<Link>, form: Form)
    reads engines, EngineBodies(engines)
  {
    |engines| == |positions| && Distinct(Members(layout) + EngineBodies(engines)) &&
    (forall k :: 0 <= k < |engines| ==> EngineAt(engines[k], positions[k], form)) &&
    links == EngineLinks(layout, EngineBodies(engines), positions)
  }

  lemma EngineBodiesSnoc(parts: seq<Body>, es: seq<Engine>, e: Engine)
    ensures EngineBodies(es + [e]) == EngineBodies(es) + [e.body]
    ensures parts + EngineBodies(es + [e]) == (parts + EngineBodies(es)) + [e.body]
  {
    assert EngineBodies(es + [e]) == EngineBodies(es) + [e.body];
  }

  lemma PrefixSnoc<T>(s: seq<T>, k: nat)
    requires k < |s|
    ensures s[..k + 1] == s[..k] + [s[k]]
  {
  }

  lemma DistinctSnoc<T>(s: seq<T>, x: T)
    requires Distinct(s) && x !in s
    ensures Distinct(s + [x])
  {
  }

  /** The engine loop's bookkeeping for one more engine. */
  lemma EnginesMadeSnoc(layout: seq<Placed>, positions: seq<Pixel>, k: nat, engines: seq<Engine>, links: seq<Link>,
                        form: Form, e: Engine)
    requires k < |positions| && EnginesMade(layout, positions[..k], engines, links, form)
    requires EngineAt(e, positions[k], form) && e.body !in Members(layout) + EngineBodies(engines)
    ensures EnginesMade(layout, positions[..k + 1], engines + [e], links + EngineLink(layout, e.body, positions[k]), form)
  {
    EngineBodiesSnoc(Members(layout), engines, e);
    DistinctSnoc(Members(layout) + EngineBodies(engines), e.body);
    PrefixSnoc(positions, k);
    EngineLinksSnoc(layout, EngineBodies(engines), positions[..k], e.body, positions[k]);
  }

  /** One pass of the engine loop. */
  method EngineStep(parts: seq<Body>, positions: seq<Pixel>, k: nat, art: Raster, aw: nat, ah: nat,
                    engines: seq<Engine>, js: seq<Joint>, ghost links: seq<Link>)
    returns (engines': seq<Engine>, js': seq<Joint>, ghost links': seq<Link>)
    requires Centred(parts) && AtCentres(parts) && IsRaster(art, aw, ah) && Count(Mask(art, aw, ah)) > 0 && k < |positions|
    requires EnginesMade(Layout(parts), positions[..k], engines, links, EngineForm(art, aw, ah))
    requires |js| == |links| && forall l :: 0 <= l < |js| ==> Realises(js[l], links[l])
    ensures EnginesMade(Layout(parts), positions[..k + 1], engines', links', EngineForm(art, aw, ah))
    ensures |js'| == |links'| && forall l :: 0 <= l < |js'| ==> Realises(js'[l], links'[l])
  {
    ghost var layout := Layout(parts);
    LayoutMembers(parts);
    var e;
    e, js' := AddEngine(parts, positions[k], art, aw, ah, parts + EngineBodies(engines), js, links);
    assert Layout(parts) == layout;
    assert EnginesMade(layout, positions[..k], engines, links, EngineForm(art, aw, ah));
    EnginesMadeSnoc(layout, positions, k, engines, links, EngineForm(art, aw, ah), e);
    engines' := engines + [e];
    links' := links + EngineLink(layout, e.body, positions[k]);
  }

  // ---- Assembling the plane

  /** Every body of the list has the mass model of its image and a density that is not negative. */
  ghost predicate Modelled(bs: seq<Body>)
    reads bs
  {
    forall b {:trigger b.MassModel()} :: b in bs ==> b.MassModel() && b.density >= 0.0
  }

  /** A part the size filter keeps has more than 50 pixels, so of a non-negative density it has a
      centre, a positive mass and a positive moment of inertia. */
  lemma KeptSolid(bs: seq<Body>)
    requires Modelled(bs)
    ensures forall b :: b in Kept(bs) ==> Ready(b) && b.centre.Some?
  {
    KeptMembers(bs);
    forall b | b in Kept(bs)
      ensures Ready(b) && b.centre.Some?
    {
      assert b in bs && Keeps(b);
      KeepsBySize(b);
      SpreadMassModel(b.pixels, b.density);
      SolidOfPixels(b.pixels, b.density);
    }
  }

  /** The engine image of two or more pixels makes engines that can be updated. */
  lemma EngineFormSolid(art: Raster, aw: nat, ah: nat)
    requires IsRaster(art, aw, ah) && Count(Mask(art, aw, ah)) >= 2
    ensures Solid(EngineForm(art, aw, ah)) && !EngineForm(art, aw, ah).empty
  {
    SpreadMassModel(Mask(art, aw, ah), EngineDensity);
    SolidOfPixels(Mask(art, aw, ah), EngineDensity);
  }

  /** A body the update can step: its mass model is consistent and it has pixels. */
  predicate Ready(b: Body)
    reads b
  {
    Solid(b.Formed()) && !b.empty
  }

  /** What the plane keeps true of its bodies and joints: the bodies are distinct and each can be
      updated and has pixels, and every joint joins two different bodies of the plane. */
  ghost predicate Sound(bodies: seq<Body>, joints: seq<Joint>)
    reads bodies, joints
  {
    Distinct(bodies) && AllReady(Forms(bodies)) &&
    (forall k :: 0 <= k < |joints| ==>
      joints[k].body1 in bodies && joints[k].body2 in bodies && joints[k].body1 != joints[k].body2)
  }

  /** Every planned joint joins two different bodies among the parts and the engines. */
  lemma PlanJoins(layout: seq<Placed>, engines: seq<Engine>, eps: seq<Pixel>, jps: seq<Pixel>)
    requires |engines| == |eps| && Distinct(Members(layout) + EngineBodies(engines))
    ensures forall l :: l in Plan(layout, engines, eps, jps) ==>
      l.a in Members(layout) + EngineBodies(engines) && l.b in Members(layout) + EngineBodies(engines) && l.a != l.b
  {
    DistinctApart(Members(layout), EngineBodies(engines));
    EngineLinksJoin(layout, EngineBodies(engines), eps);
    JointLinksJoin(layout, jps);
  }

  /** The assembled parts, engines and joints make a sound plane. */
  lemma PlanSound(parts: seq<Body>, layout: seq<Placed>, engines: seq<Engine>, eps: seq<Pixel>, jps: seq<Pixel>,
                  js: seq<Joint>, form: Form)
    requires Members(layout) == parts && Solid(form) && !form.empty && |engines| == |eps|
    requires forall b :: b in parts ==> Ready(b)
    requires EnginesMade(layout, eps, engines, EngineLinks(layout, EngineBodies(engines), eps), form)
    requires |js| == |Plan(layout, engines, eps, jps)|
    requires forall k :: 0 <= k < |js| ==> Realises(js[k], Plan(layout, engines, eps, jps)[k])
    ensures Sound(parts + EngineBodies(engines), js)
  {
    var bodies := parts + EngineBodies(engines);
    PlanJoins(layout, engines, eps, jps);
    forall k | 0 <= k < |bodies|
      ensures Ready(bodies[k])
    {
      if k < |parts| {
        assert bodies[k] in parts;
      } else {
        assert bodies[k] == engines[k - |parts|].body;
        assert EngineAt(engines[k - |parts|], eps[k - |parts|], form);
      }
    }
    ReadyForms(bodies);
    forall k | 0 <= k < |js|
      ensures js[k].body1 in bodies && js[k].body2 in bodies && js[k].body1 != js[k].body2
    {
      var plan := Plan(layout, engines, eps, jps);
      assert plan[k] in plan;
    }
  }

  /** The joints made so far realise the links so far, and the new joints realise the new links. */
  lemma RealisesAppend(js: seq<Joint>, links: seq<Link>, more: seq<Joint>, moreLinks: seq<Link>)
    requires |js| == |links| && forall k :: 0 <= k < |js| ==> Realises(js[k], links[k])
    requires |more| == |moreLinks| && forall k :: 0 <= k < |more| ==> Realises(more[k], moreLinks[k])
    ensures |js + more| == |links + moreLinks|
    ensures forall k :: 0 <= k < |js + more| ==> Realises((js + more)[k], (links + moreLinks)[k])
  {
    forall k | 0 <= k < |js + more|
      ensures Realises((js + more)[k], (links + moreLinks)[k])
    {
      if k >= |js| {
        assert (js + more)[k] == more[k - |js|] && (links + moreLinks)[k] == moreLinks[k - |links|];
      }
    }
  }

  lemma PlanStep(layout: seq<Placed>, engineLinks: seq<Link>, jps: seq<Pixel>, k: nat)
    requires k < |jps|
    ensures (engineLinks + JointLinks(layout, jps[..k])) + ChainLinks(layout, jps[k]) ==
            engineLinks + JointLinks(layout, jps[..k + 1])
  {
    JointLinksStep(layout, jps, k);
  }

  /** The engine loop of assemblePlane: an engine at each marker, pinned to the first part
      holding it. */
  method MakeEngines(parts: seq<Body>, positions: seq<Pixel>, art: Raster, aw: nat, ah: nat)
    returns (engines: seq<Engine>, js: seq<Joint>, ghost links: seq<Link>)
    requires Centred(parts) && AtCentres(parts) && Distinct(parts) && IsRaster(art, aw, ah) && Count(Mask(art, aw, ah)) > 0
    ensures EnginesMade(Layout(parts), positions, engines, links, EngineForm(art, aw, ah))
    ensures |js| == |links| && forall l :: 0 <= l < |js| ==> Realises(js[l], links[l])
  {
    ghost var layout := Layout(parts);
    LayoutMembers(parts);
    engines, js, links := [], [], [];
    assert Members(layout) + EngineBodies(engines) == parts;
    for k := 0 to |positions|
      invariant layout == Layout(parts)
      invariant EnginesMade(layout, positions[..k], engines, links, EngineForm(art, aw, ah))
      invariant |js| == |links| && forall l :: 0 <= l < |js| ==> Realises(js[l], links[l])
    {
      engines, js, links := EngineStep(parts, positions, k, art, aw, ah, engines, js, links);
    }
    assert positions[..|positions|] == positions;
  }

  /** The joint loop of assemblePlane: the loose joints of each marker, after the joints made
      so far. */
  method MakeJoints(parts: seq<Body>, positions: seq<Pixel>, js: seq<Joint>, ghost links: seq<Link>)
    returns (js': seq<Joint>)
    requires Centred(parts) && AtCentres(parts)
    requires |js| == |links| && forall l :: 0 <= l < |js| ==> Realises(js[l], links[l])
    ensures |js'| == |links + JointLinks(Layout(parts), positions)|
    ensures forall l :: 0 <= l < |js'| ==> Realises(js'[l], (links + JointLinks(Layout(parts), positions))[l])
  {
    ghost var layout := Layout(parts);
    js' := js;
    ghost var made := links;
    assert made == links + JointLinks(layout, positions[..0]);
    for k := 0 to |positions|
      invariant layout == Layout(parts)
      invariant made == links + JointLinks(layout, positions[..k])
      invariant |js'| == |made| && forall l :: 0 <= l < |js'| ==> Realises(js'[l], made[l])
    {
      var more := ChainJoints(parts, positions[k]);
      RealisesAppend(js', made, more, ChainLinks(layout, positions[k]));
      js' := js' + more;
      PlanStep(layout, links, positions, k);
      made := made + ChainLinks(layout, positions[k]);
    }
    assert positions[..|positions|] == positions;
  }

  /** The wing loop and the structure loop of assemblePlane: the kept parts are distinct, and each
      has a centre and can be updated. */
  method KeepWingsAndStructures(allWings: seq<Body>, allStructures: seq<Body>) returns (wings: seq<Body>, structures: seq<Body>)
    requires Distinct(allWings + allStructures)
    requires Modelled(allWings + allStructures) && AtCentres(allWings + allStructures)
    ensures wings == Kept(allWings) && structures == Kept(allStructures)
    ensures Distinct(wings + structures) && Centred(wings + structures) && AtCentres(wings + structures)
    ensures forall b :: b in wings + structures ==> Ready(b)
  {
    wings := KeepParts(allWings);
    structures := KeepParts(allStructures);
    KeptAppend(allWings, allStructures);
    KeptDistinct(allWings + allStructures);
    KeptSolid(allWings + allStructures);
    KeptMembers(allWings + allStructures);
  }

  /** The engine loop and the joint loop of assemblePlane over the kept parts. */
  method AttachParts(parts: seq<Body>, enginePositions: seq<Pixel>, jointPositions: seq<Pixel>, art: Raster, aw: nat, ah: nat)
    returns (engines: seq<Engine>, js: seq<Joint>, ghost layout: seq<Placed>)
    requires Distinct(parts) && Centred(parts) && AtCentres(parts) && forall b :: b in parts ==> Ready(b)
    requires IsRaster(art, aw, ah) && Count(Mask(art, aw, ah)) >= 2
    ensures layout == Layout(parts)
    ensures |engines| == |enginePositions|
    ensures forall k :: 0 <= k < |enginePositions| ==> EngineAt(engines[k], enginePositions[k], EngineForm(art, aw, ah))
    ensures var plan := Plan(layout, engines, enginePositions, jointPositions);
      |js| == |plan| && forall k :: 0 <= k < |plan| ==> Realises(js[k], plan[k])
    ensures Sound(parts + EngineBodies(engines), js)
  {
    EngineFormSolid(art, aw, ah);
    layout := Layout(parts);
    LayoutMembers(parts);
    ghost var links;
    engines, js, links := MakeEngines(parts, enginePositions, art, aw, ah);
    js := MakeJoints(parts, jointPositions, js, links);
    assert Layout(parts) == layout;
    PlanSound(parts, layout, engines, enginePositions, jointPositions, js, EngineForm(art, aw, ah));
  }

  /** The parts, engines and joints assemblePlane puts into the plane, and the layout of the
      parts that placed the joints. */
  method AssembleParts(allWings: seq<Body>, allStructures: seq<Body>, enginePositions: seq<Pixel>,
                       jointPositions: seq<Pixel>, art: Raster, aw: nat, ah: nat)
    returns (wings: seq<Body>, structures: seq<Body>, engines: seq<Engine>, js: seq<Joint>, ghost layout: seq<Placed>)
    requires Distinct(allWings + allStructures)
    requires Modelled(allWings + allStructures) && AtCentres(allWings + allStructures)
    requires IsRaster(art, aw, ah) && Count(Mask(art, aw, ah)) >= 2
    ensures wings == Kept(allWings) && structures == Kept(allStructures)
    ensures Centred(wings + structures) && layout == Layout(wings + structures)
    ensures |engines| == |enginePositions|
    ensures forall k :: 0 <= k < |enginePositions| ==> EngineAt(engines[k], enginePositions[k], EngineForm(art, aw, ah))
    ensures var plan := Plan(layout, engines, enginePositions, jointPositions);
      |js| == |plan| && forall k :: 0 <= k < |plan| ==> Realises(js[k], plan[k])
    ensures Sound(wings + structures + EngineBodies(engines), js)
  {
    wings, structures := KeepWingsAndStructures(allWings, allStructures);
    engines, js, layout := AttachParts(wings + structures, enginePositions, jointPositions, art, aw, ah);
  }

  /** assemblePlane: the wings and the structures through the size filter, an engine at each
      engine marker pinned to the first part holding the marker, then the loose joints of each
      joint marker, placed by where the parts lay. The player is the first wing given, whether
      the filter keeps it or not. */
  method AssemblePlane(allWings: seq<Body>, allStructures: seq<Body>, enginePositions: seq<Pixel>,
                       jointPositions: seq<Pixel>, art: Raster, aw: nat, ah: nat)
    returns (plane: Plane, ghost layout: seq<Placed>)
    requires |allWings| > 0 && Distinct(allWings + allStructures)
    requires Modelled(allWings + allStructures) && AtCentres(allWings + allStructures)
    requires IsRaster(art, aw, ah) && Count(Mask(art, aw, ah)) >= 2
    ensures fresh(plane) && plane.Valid()
    ensures !plane.thrusting && plane.player == allWings[0]
    ensures plane.wings == Kept(allWings) && plane.structures == Kept(allStructures)
    ensures Members(layout) == plane.wings + plane.structures && |plane.engines| == |enginePositions|
    ensures forall k :: 0 <= k < |enginePositions| ==>
      EngineAt(plane.engines[k], enginePositions[k], EngineForm(art, aw, ah))
    ensures var plan := Plan(layout, plane.engines, enginePositions, jointPositions);
      |plane.joints| == |plan| && forall k :: 0 <= k < |plan| ==> Realises(plane.joints[k], plan[k])
  {
    var wings, structures, engines, js;
    wings, structures, engines, js, layout := AssembleParts(allWings, allStructures, enginePositions, jointPositions, art, aw, ah);
    LayoutMembers(wings + structures);
    plane := new Plane.Assembled(allWings[0], wings, structures, engines, js);
  }

  // ---- The plane

  /** The bodies no intact joint holds. */
  ghost predicate Free(js: seq<Joint>, b: Body)
    reads js
  {
    forall k :: 0 <= k < |js| ==> js[k].broken || (js[k].body1 != b && js[k].body2 != b)
  }

  /** The bodies of a list and their interpolators: what updating them may change. */
  ghost function Footprint(bs: seq<Body>): set<object> {
    (set b | b in bs :: b as object) + (set b | b in bs :: b.interpolator as object)
  }

  lemma InFootprint(bs: seq<Body>, i: nat)
    requires i < |bs|
    ensures bs[i] in Footprint(bs) && bs[i].interpolator in Footprint(bs)
  {
    assert bs[i] in bs;
  }

  /** The engine bodies are what follows the other parts in a plane's body list. */
  lemma EnginesLast(parts: seq<Body>, es: seq<Engine>)
    ensures (parts + EngineBodies(es))[|parts|..] == EngineBodies(es)
  {
    assert (parts + EngineBodies(es))[|parts|..] == EngineBodies(es);
  }

  /** A joint is neither a body nor an interpolator, so no body pass touches one. */
  lemma JointsOutside(bs: seq<Body>, js: seq<Joint>)
    ensures forall k :: 0 <= k < |js| ==> js[k] as object !in Footprint(bs)
  {
  }

  /** The joints of a list and their interpolators. */
  ghost function JointFootprint(js: seq<Joint>): set<object>
    reads js
  {
    (set j | j in js :: j as object) + (set j | j in js :: j.interpolator as object)
  }

  lemma InJointFootprint(js: seq<Joint>, i: nat)
    requires i < |js|
    ensures js[i] in JointFootprint(js) && js[i].interpolator in JointFootprint(js)
  {
    assert js[i] in js;
  }

  /** The shapes of a list of bodies. */
  ghost function Forms(bs: seq<Body>): (r: seq<Form>)
    reads bs
    ensures |r| == |bs| && forall k :: 0 <= k < |bs| ==> r[k] == bs[k].Formed()
  {
    seq(|bs|, k requires 0 <= k < |bs| reads bs => bs[k].Formed())
  }

  /** The motions of a list of bodies. */
  ghost function Motions(bs: seq<Body>): (r: seq<Motion>)
    reads bs
    ensures |r| == |bs| && forall k :: 0 <= k < |bs| ==> r[k] == bs[k].Kinematics()
  {
    seq(|bs|, k requires 0 <= k < |bs| reads bs => bs[k].Kinematics())
  }

  /** The positions and rotations of a list of bodies. */
  ghost function Places(bs: seq<Body>): (r: seq<(Vec, real)>)
    reads bs
    ensures |r| == |bs| && forall k :: 0 <= k < |bs| ==> r[k] == (bs[k].pos, bs[k].rotation)
  {
    seq(|bs|, k requires 0 <= k < |bs| reads bs => (bs[k].pos, bs[k].rotation))
  }

  /** The shapes all allow a step and all have pixels. */
  ghost predicate AllReady(fs: seq<Form>) {
    forall k :: 0 <= k < |fs| ==> Solid(fs[k]) && !fs[k].empty
  }

  lemma ReadyForms(bs: seq<Body>)
    ensures AllReady(Forms(bs)) ==> forall b :: b in bs ==> Ready(b)
    ensures (forall b :: b in bs ==> Ready(b)) ==> AllReady(Forms(bs))
  {
    if AllReady(Forms(bs)) {
      forall b | b in bs
        ensures Ready(b)
      {
        var k :| 0 <= k < |bs| && bs[k] == b;
        assert Forms(bs)[k] == b.Formed();
      }
    }
    if forall b :: b in bs ==> Ready(b) {
      forall k | 0 <= k < |bs|
        ensures Solid(Forms(bs)[k]) && !Forms(bs)[k].empty
      {
        assert bs[k] in bs;
      }
    }
  }

  /** Which engines are on. */
  function Flags(es: seq<Engine>): (r: seq<bool>)
    reads es
    ensures |r| == |es| && forall k :: 0 <= k < |es| ==> r[k] == es[k].thrusting
  {
    seq(|es|, k requires 0 <= k < |es| reads es => es[k].thrusting)
  }

  /** One update of a list of bodies none of which a joint holds, given their motions and shapes:
      each takes its own gravity step, and the last |flags| of them, the engines, then their
      thrust if on. */
  ghost function FreeFlight(ms: seq<Motion>, fs: seq<Form>, flags: seq<bool>, dt: real, groundLevel: int, render: Renderer,
                         trig: Trig): (r: seq<Motion>)
    requires |flags| <= |ms| == |fs| && AllReady(fs)
    ensures |r| == |ms|
    ensures forall k :: 0 <= k < |ms| - |flags| ==> r[k] == Step(ms[k], fs[k], dt, groundLevel, render)
    ensures forall k :: |ms| - |flags| <= k < |ms| ==>
      r[k] == Thrust(Step(ms[k], fs[k], dt, groundLevel, render), fs[k], flags[k - (|ms| - |flags|)], dt, trig)
  {
    var n := |ms| - |flags|;
    seq(|ms|, k requires 0 <= k < |ms| && k < |fs| && n == |ms| - |flags| && Solid(fs[k]) =>
      var m := Step(ms[k], fs[k], dt, groundLevel, render);
      if k < n then m else Thrust(m, fs[k], flags[k - n], dt, trig))
  }

  /** The bodies each joint joins, and which joints are broken. */
  ghost function Ends(js: seq<Joint>): (r: seq<(Body?, Body?)>)
    reads js
    ensures |r| == |js| && forall k :: 0 <= k < |js| ==> r[k] == (js[k].body1, js[k].body2)
  {
    seq(|js|, k requires 0 <= k < |js| reads js => (js[k].body1, js[k].body2))
  }

  ghost function Broken(js: seq<Joint>): (r: seq<bool>)
    reads js
    ensures |r| == |js| && forall k :: 0 <= k < |js| ==> r[k] == js[k].broken
  {
    seq(|js|, k requires 0 <= k < |js| reads js => js[k].broken)
  }

  /** Which of the bodies no intact joint holds. */
  ghost function Frees(js: seq<Joint>, bodies: seq<Body>): (r: seq<bool>)
    reads js
    ensures |r| == |bodies| && forall m :: 0 <= m < |bodies| ==> r[m] == Free(js, bodies[m])
  {
    seq(|bodies|, m requires 0 <= m < |bodies| reads js => Free(js, bodies[m]))
  }

  /** The plane itself is no body, interpolator or joint, so no pass changes its lists. */
  lemma PlaneOutside(p: object, bs: seq<Body>, js: seq<Joint>)
    requires !(p is Body) && !(p is Interpolator) && !(p is Joint)
    ensures p !in Footprint(bs) && p !in JointFootprint(js) && p !in (set b | b in bs :: b as object)
  {
  }

  /** The ends of the joints are bodies of the list, two different ones for each joint. */
  ghost predicate EndsAmong(ends: seq<(Body?, Body?)>, bodies: seq<Body>) {
    forall k :: 0 <= k < |ends| ==> ends[k].0 in bodies && ends[k].1 in bodies && ends[k].0 != ends[k].1
  }

  /** Sound, told through the ends of the joints. */
  lemma SoundByEnds(bodies: seq<Body>, joints: seq<Joint>)
    ensures Sound(bodies, joints) <==> Distinct(bodies) && AllReady(Forms(bodies)) && EndsAmong(Ends(joints), bodies)
  {
  }

  /** Each body of the list knows its own place in it, which makes the bodies distinct. */
  ghost predicate Indexed(bs: seq<Body>, pos: map<Body, nat>) {
    forall k :: 0 <= k < |bs| ==> bs[k] in pos && pos[bs[k]] == k
  }

  lemma {:induction false} Indexing(bs: seq<Body>) returns (pos: map<Body, nat>)
    requires Distinct(bs)
    ensures Indexed(bs, pos)
  {
    if |bs| == 0 {
      pos := map[];
    } else {
      var n := |bs| - 1;
      assert bs == bs[..n] + [bs[n]];
      DistinctApart(bs[..n], [bs[n]]);
      pos := Indexing(bs[..n]);
      pos := pos[bs[n] := n];
    }
  }

  /** Partway through a pass: the bodies keep their shapes fs, the first k of them have their new
      motions from ts and the others still their old ones from ms. */
  ghost predicate Partway(bs: seq<Body>, ts: seq<Motion>, ms: seq<Motion>, fs: seq<Form>, k: nat)
    reads bs
    requires k <= |ts| == |ms|
  {
    Forms(bs) == fs && Motions(bs) == ts[..k] + ms[k..]
  }

  /** The engines are on exactly where flags says. */
  ghost predicate Switched(es: seq<Engine>, flags: seq<bool>)
    reads es
  {
    |flags| == |es| && forall j :: 0 <= j < |es| ==> es[j].thrusting == flags[j]
  }

  lemma SwitchedAt(es: seq<Engine>, flags: seq<bool>, j: nat)
    requires Switched(es, flags) && j < |es|
    ensures es[j].thrusting == flags[j]
  {
  }

  lemma PassStep<T>(done: seq<T>, rest: seq<T>, i: nat)
    requires i < |done| == |rest|
    ensures (done[..i] + rest[i..])[i] == rest[i]
    ensures (done[..i] + rest[i..])[i := done[i]] == done[..i + 1] + rest[i + 1..]
  {
  }

  lemma PassDone<T>(done: seq<T>, rest: seq<T>)
    requires |done| == |rest|
    ensures done[..|done|] + rest[|done|..] == done
  {
  }

  /** Entry k of ts is the free-flight step of body k: its gravity step, and for the last |flags|
      bodies, the engines, then their thrust if on. Stated one entry at a time, so that a pass
      only ever looks at the step of the body it updates. */
  ghost predicate FliesAt(ts: seq<Motion>, ms: seq<Motion>, fs: seq<Form>, flags: seq<bool>, dt: real, groundLevel: int,
                          render: Renderer, trig: Trig, k: nat)
  {
    k < |ts| == |ms| == |fs| && |flags| <= |ms| && Solid(fs[k]) &&
    ts[k] == (if k < |ms| - |flags| then Step(ms[k], fs[k], dt, groundLevel, render)
              else Thrust(Step(ms[k], fs[k], dt, groundLevel, render), fs[k], flags[k - (|ms| - |flags|)], dt, trig))
  }

  lemma FreeFlightFlies(ms: seq<Motion>, fs: seq<Form>, flags: seq<bool>, dt: real, groundLevel: int, render: Renderer,
                        trig: Trig)
    requires |flags| <= |ms| == |fs| && AllReady(fs)
    ensures forall k :: 0 <= k < |ms| ==>
      FliesAt(FreeFlight(ms, fs, flags, dt, groundLevel, render, trig), ms, fs, flags, dt, groundLevel, render, trig, k)
  {
  }

  /** The update of the i-th body of a list, the others untouched: after the first i bodies of a
      pass, the first i + 1. */
  method UpdateBodyAt(bs: seq<Body>, ghost pos: map<Body, nat>, ghost es: seq<Engine>, ghost flags: seq<bool>, i: nat,
                      ghost ts: seq<Motion>, ghost ms: seq<Motion>, ghost fs: seq<Form>, dt: real, groundLevel: int,
                      render: Renderer, ghost trig: Trig)
    requires i + |flags| < |bs| == |ts| == |ms| == |fs| && Indexed(bs, pos)
    requires FliesAt(ts, ms, fs, flags, dt, groundLevel, render, trig, i)
    requires Partway(bs, ts, ms, fs, i) && Switched(es, flags)
    modifies bs[i], bs[i].interpolator
    ensures Partway(bs, ts, ms, fs, i + 1) && Switched(es, flags)
  {
    ghost var before := Motions(bs);
    PassStep(ts, ms, i);
    bs[i].Update(dt, groundLevel, render);
    assert Motions(bs) == before[i := ts[i]];
  }

  /** The update of the j-th engine, whose body is entry n + j of a list, the other bodies untouched. */
  method UpdateEngineAt(bs: seq<Body>, ghost pos: map<Body, nat>, n: nat, es: seq<Engine>, ghost flags: seq<bool>,
                        j: nat, ghost ts: seq<Motion>, ghost ms: seq<Motion>, ghost fs: seq<Form>, dt: real,
                        groundLevel: int, render: Renderer, trig: Trig)
    requires n + |es| == |bs| == |ts| == |ms| == |fs| && |flags| == |es| && j < |es| && Indexed(bs, pos)
    requires FliesAt(ts, ms, fs, flags, dt, groundLevel, render, trig, n + j)
    requires bs[n + j] == es[j].body
    requires Partway(bs, ts, ms, fs, n + j)
    requires Switched(es, flags)
    modifies bs[n + j], bs[n + j].interpolator
    ensures Partway(bs, ts, ms, fs, n + j + 1)
    ensures Switched(es, flags)
  {
    var k, e := n + j, es[j];
    SwitchedAt(es, flags, j);
    assert ts[k] == Thrust(Step(ms[k], fs[k], dt, groundLevel, render), fs[k], e.thrusting, dt, trig) by {
      assert k - (|ms| - |flags|) == j;
    }
    ghost var before := Motions(bs);
    PassStep(ts, ms, k);
    e.Update(dt, groundLevel, render, trig);
    assert Motions(bs) == before[k := ts[k]];
  }

  /** A pass over the bodies lo to hi of a list, in order, each taking its own gravity step. */
  method PassBodies(bs: seq<Body>, ghost pos: map<Body, nat>, ghost es: seq<Engine>, ghost flags: seq<bool>, lo: nat,
                    hi: nat, ghost ts: seq<Motion>, ghost ms: seq<Motion>, ghost fs: seq<Form>, dt: real,
                    groundLevel: int, render: Renderer, ghost trig: Trig)
    requires lo <= hi && hi + |flags| <= |bs| == |ts| == |ms| == |fs| && Indexed(bs, pos)
    requires forall k :: lo <= k < hi ==> FliesAt(ts, ms, fs, flags, dt, groundLevel, render, trig, k)
    requires Partway(bs, ts, ms, fs, lo) && Switched(es, flags)
    modifies Footprint(bs)
    ensures Partway(bs, ts, ms, fs, hi) && Switched(es, flags)
  {
    for i := lo to hi
      invariant Partway(bs, ts, ms, fs, i) && Switched(es, flags)
    {
      InFootprint(bs, i);
      UpdateBodyAt(bs, pos, es, flags, i, ts, ms, fs, dt, groundLevel, render, trig);
    }
  }

  /** The pass over the engines, whose bodies are the entries n onwards of a list: each engine body
      takes its gravity step, then its thrust if the engine is on. */
  method PassEngines(bs: seq<Body>, ghost pos: map<Body, nat>, n: nat, es: seq<Engine>, ghost flags: seq<bool>,
                     ghost ts: seq<Motion>, ghost ms: seq<Motion>, ghost fs: seq<Form>, dt: real, groundLevel: int,
                     render: Renderer, trig: Trig)
    requires n + |es| == |bs| == |ts| == |ms| == |fs| && |flags| == |es| && Indexed(bs, pos)
    requires bs[n..] == EngineBodies(es)
    requires forall k :: n <= k < |bs| ==> FliesAt(ts, ms, fs, flags, dt, groundLevel, render, trig, k)
    requires Switched(es, flags) && Partway(bs, ts, ms, fs, n)
    modifies Footprint(bs)
    ensures Forms(bs) == fs && Motions(bs) == ts
  {
    for j := 0 to |es|
      invariant Switched(es, flags)
      invariant Partway(bs, ts, ms, fs, n + j)
    {
      assert bs[n + j] == bs[n..][j] == es[j].body;
      InFootprint(bs, n + j);
      UpdateEngineAt(bs, pos, n, es, flags, j, ts, ms, fs, dt, groundLevel, render, trig);
    }
    PassDone(ts, ms);
  }

  /** The three body passes of update(dt): each wing, then each structure, then each engine, in
      list order. Each body takes its own step, and no body's step reads another body. */
  method UpdateParts(ws: seq<Body>, ss: seq<Body>, es: seq<Engine>, ghost pos: map<Body, nat>, dt: real,
                     groundLevel: int, render: Renderer, trig: Trig)
    requires Indexed(ws + ss + EngineBodies(es), pos) && AllReady(Forms(ws + ss + EngineBodies(es)))
    modifies Footprint(ws + ss + EngineBodies(es))
    ensures Forms(ws + ss + EngineBodies(es)) == old(Forms(ws + ss + EngineBodies(es)))
    ensures Motions(ws + ss + EngineBodies(es)) ==
      FreeFlight(old(Motions(ws + ss + EngineBodies(es))), old(Forms(ws + ss + EngineBodies(es))), old(Flags(es)), dt,
                 groundLevel, render, trig)
  {
    var bs := ws + ss + EngineBodies(es);
    ghost var fs, ms, flags := Forms(bs), Motions(bs), Flags(es);
    ghost var ts := FreeFlight(ms, fs, flags, dt, groundLevel, render, trig);
    FreeFlightFlies(ms, fs, flags, dt, groundLevel, render, trig);
    assert Motions(bs) == ts[..0] + ms[0..];
    EnginesLast(ws + ss, es);
    PassBodies(bs, pos, es, flags, 0, |ws| + |ss|, ts, ms, fs, dt, groundLevel, render, trig);
    PassEngines(bs, pos, |ws| + |ss|, es, flags, ts, ms, fs, dt, groundLevel, render, trig);
  }

  /** The update of the i-th joint: it moves no body and reshapes none, keeps its two bodies and
      does not mend, and changes the motion of no body but its own two, and of those only while
      it holds. */
  method UpdateJointAt(js: seq<Joint>, ghost bodies: seq<Body>, i: nat, dt: real, trig: Trig)
    requires i < |js| && js[i].body1 in bodies && js[i].body2 in bodies && AllReady(Forms(bodies))
    modifies js[i], js[i].body1, js[i].body2, js[i].interpolator
    ensures Ends(js) == old(Ends(js))
    ensures forall k :: 0 <= k < |js| && old(js[k].broken) ==> js[k].broken
    ensures forall k :: 0 <= k < |js| ==> js[k].interpolator == old(js[k].interpolator)
    ensures Forms(bodies) == old(Forms(bodies)) && Places(bodies) == old(Places(bodies))
    ensures forall m :: 0 <= m < |bodies| && (old(js[i].broken) || (bodies[m] != js[i].body1 && bodies[m] != js[i].body2)) ==>
      Motions(bodies)[m] == old(Motions(bodies))[m]
  {
    ReadyForms(bodies);
    js[i].Advance(dt, trig);
  }

  /** The joint pass of update(dt), in list order. A joint moves no body and reshapes none, keeps
      its two bodies and never mends; a body no intact joint holds keeps its motion. */
  method UpdateJoints(js: seq<Joint>, ghost bodies: seq<Body>, dt: real, trig: Trig)
    requires AllReady(Forms(bodies))
    requires forall k :: 0 <= k < |js| ==> js[k].body1 in bodies && js[k].body2 in bodies
    modifies JointFootprint(js), set b | b in bodies
    ensures Ends(js) == old(Ends(js))
    ensures forall k :: 0 <= k < |js| && old(js[k].broken) ==> js[k].broken
    ensures Forms(bodies) == old(Forms(bodies)) && Places(bodies) == old(Places(bodies))
    ensures forall m :: 0 <= m < |bodies| && old(Frees(js, bodies))[m] ==> Motions(bodies)[m] == old(Motions(bodies))[m]
  {
    ghost var frees, ms := Frees(js, bodies), Motions(bodies);
    for i := 0 to |js|
      invariant Ends(js) == old(Ends(js))
      invariant forall k :: 0 <= k < |js| && old(js[k].broken) ==> js[k].broken
      invariant forall k :: 0 <= k < |js| ==> js[k].interpolator == old(js[k].interpolator)
      invariant Forms(bodies) == old(Forms(bodies)) && Places(bodies) == old(Places(bodies))
      invariant forall m :: 0 <= m < |bodies| && frees[m] ==> Motions(bodies)[m] == ms[m]
    {
      assert js[i].body1 == old(js[i].body1) && js[i].body2 == old(js[i].body2);
      assert forall m :: 0 <= m < |bodies| && frees[m] ==>
        js[i].broken || (bodies[m] != js[i].body1 && bodies[m] != js[i].body2);
      InJointFootprint(js, i);
      UpdateJointAt(js, bodies, i, dt, trig);
    }
  }

  /** The positions and rotations of a list of motions. */
  function PlacesOf(ms: seq<Motion>): (r: seq<(Vec, real)>)
    ensures |r| == |ms| && forall k :: 0 <= k < |ms| ==> r[k] == (ms[k].pos, ms[k].rotation)
  {
    seq(|ms|, k requires 0 <= k < |ms| => (ms[k].pos, ms[k].rotation))
  }

  lemma PlacesOfMotions(bs: seq<Body>)
    ensures Places(bs) == PlacesOf(Motions(bs))
  {
  }

  /** The motions moved by d: every position plus d, velocities and rotations as they were. */
  function Shifted(ms: seq<Motion>, d: Vec): (r: seq<Motion>)
    ensures |r| == |ms| && forall k :: 0 <= k < |ms| ==> r[k] == ms[k].(pos := Plus(ms[k].pos, d))
  {
    seq(|ms|, k requires 0 <= k < |ms| => ms[k].(pos := Plus(ms[k].pos, d)))
  }

  /** Moving by the difference between a target and the first position puts the first body on
      the target, and moving all bodies by the same vector keeps every offset between two of them. */
  lemma ShiftLands(ms: seq<Motion>, target: Vec)
    requires |ms| > 0
    ensures Shifted(ms, Minus(target, ms[0].pos))[0].pos == target
    ensures forall k, l :: 0 <= k < |ms| && 0 <= l < |ms| ==>
      Minus(Shifted(ms, Minus(target, ms[0].pos))[k].pos, Shifted(ms, Minus(target, ms[0].pos))[l].pos) ==
      Minus(ms[k].pos, ms[l].pos)
  {
  }

  /** The bodies of a list, as the objects setLocation changes. */
  ghost function BodySet(bs: seq<Body>): set<object> {
    set b | b in bs :: b as object
  }

  lemma InBodySet(bs: seq<Body>, i: nat)
    requires i < |bs|
    ensures bs[i] in BodySet(bs)
  {
    assert bs[i] in bs;
  }

  /** The three passes of setLocation, wings [0, a), structures [a, b), then engines [b, |bs|):
      every body moved by d. */
  method ShiftParts(bs: seq<Body>, ghost pos: map<Body, nat>, a: nat, b: nat, d: Vec, ghost ts: seq<Motion>,
                    ghost ms: seq<Motion>, ghost fs: seq<Form>)
    requires a <= b <= |bs| == |ms| && Indexed(bs, pos) && ts == Shifted(ms, d) && Partway(bs, ts, ms, fs, 0)
    modifies BodySet(bs)
    ensures Forms(bs) == fs && Motions(bs) == ts
  {
    PassShift(bs, pos, 0, a, d, ts, ms, fs);
    PassShift(bs, pos, a, b, d, ts, ms, fs);
    PassShift(bs, pos, b, |bs|, d, ts, ms, fs);
    PassDone(ts, ms);
  }

  /** Nothing but a body is in a list of bodies. */
  lemma OutsideBodySet(p: object, bs: seq<Body>, js: seq<Joint>)
    requires !(p is Body)
    ensures p !in BodySet(bs) && forall k :: 0 <= k < |js| ==> js[k] as object !in BodySet(bs)
  {
  }

  /** pos.add(delta) on the i-th body of a list, the other bodies untouched. */
  method ShiftAt(bs: seq<Body>, ghost pos: map<Body, nat>, i: nat, d: Vec, ghost ts: seq<Motion>,
                 ghost ms: seq<Motion>, ghost fs: seq<Form>)
    requires i < |bs| == |ms| && Indexed(bs, pos) && ts == Shifted(ms, d) && Partway(bs, ts, ms, fs, i)
    modifies bs[i]
    ensures Partway(bs, ts, ms, fs, i + 1)
  {
    ghost var before := Motions(bs);
    PassStep(ts, ms, i);
    bs[i].pos := Plus(bs[i].pos, d);
    assert Motions(bs) == before[i := ts[i]];
  }

  /** One loop of setLocation: the bodies lo to hi of a list, in order, each moved by d. */
  method PassShift(bs: seq<Body>, ghost pos: map<Body, nat>, lo: nat, hi: nat, d: Vec, ghost ts: seq<Motion>,
                   ghost ms: seq<Motion>, ghost fs: seq<Form>)
    requires lo <= hi <= |bs| == |ms| && Indexed(bs, pos) && ts == Shifted(ms, d) && Partway(bs, ts, ms, fs, lo)
    modifies BodySet(bs)
    ensures Partway(bs, ts, ms, fs, hi)
  {
    for i := lo to hi
      invariant Partway(bs, ts, ms, fs, i)
    {
      InBodySet(bs, i);
      ShiftAt(bs, pos, i, d, ts, ms, fs);
    }
  }

  class Plane {
    var thrusting: bool
    var wings: seq<Body>
    var structures: seq<Body>
    var engines: seq<Engine>
    var joints: seq<Joint>
    var player: Body?

    /** Plane(startX, startY): no parts, engines or joints, not thrusting. The start position is
        not used. */
    constructor (startX: int, startY: int)
      ensures !thrusting && wings == [] && structures == [] && engines == [] && joints == [] && player == null
      ensures Valid()
    {
      thrusting, wings, structures, engines, joints, player := false, [], [], [], [], null;
    }

    /** The plane assemblePlane returns, its lists filled in the order they were added. */
    constructor Assembled(p: Body, ws: seq<Body>, ss: seq<Body>, es: seq<Engine>, js: seq<Joint>)
      requires Sound(ws + ss + EngineBodies(es), js)
      ensures !thrusting && player == p && wings == ws && structures == ss && engines == es && joints == js
      ensures Valid()
    {
      thrusting, wings, structures, engines, joints, player := false, ws, ss, es, js, p;
    }

    /** The wings, the structures and the engine bodies, in update order. */
    function Bodies(): (r: seq<Body>)
      reads this
      ensures forall b :: b in wings ==> b in r
      ensures forall b :: b in structures ==> b in r
      ensures forall b :: b in EngineBodies(engines) ==> b in r
    {
      wings + structures + EngineBodies(engines)
    }

    ghost predicate Valid()
      reads this, Bodies(), joints
    {
      Sound(Bodies(), joints)
    }

    /** update(dt): each wing, then each structure, then each engine, then each joint. A body no
        intact joint holds ends where FreeFlight says; one that a joint holds ends at the place
        FreeFlight says, the joints changing only its velocities. No body is reshaped, no joint
        changes its bodies, and no joint mends. */
    method Update(dt: real, groundLevel: int, render: Renderer, trig: Trig)
      requires Valid()
      modifies Footprint(Bodies()), JointFootprint(joints)
      ensures Valid()
      ensures Forms(Bodies()) == old(Forms(Bodies()))
      ensures Ends(joints) == old(Ends(joints))
      ensures forall k :: 0 <= k < |joints| && old(joints[k].broken) ==> joints[k].broken
      ensures Places(Bodies()) ==
        PlacesOf(FreeFlight(old(Motions(Bodies())), old(Forms(Bodies())), old(Flags(engines)), dt, groundLevel, render, trig))
      ensures forall m :: 0 <= m < |Bodies()| && old(Frees(joints, Bodies()))[m] ==>
        Motions(Bodies())[m] ==
        FreeFlight(old(Motions(Bodies())), old(Forms(Bodies())), old(Flags(engines)), dt, groundLevel, render, trig)[m]
    {
      ghost var bs := Bodies();
      ghost var ends, frees, broken := Ends(joints), Frees(joints, bs), Broken(joints);
      ghost var pos := Indexing(bs);
      SoundByEnds(bs, joints);
      PlaneOutside(this, bs, joints);
      JointsOutside(bs, joints);
      UpdateParts(wings, structures, engines, pos, dt, groundLevel, render, trig);
      assert Ends(joints) == ends && Frees(joints, bs) == frees && Broken(joints) == broken;
      PlacesOfMotions(bs);
      UpdateJoints(joints, bs, dt, trig);
      SoundByEnds(bs, joints);
    }

    /** setThrusting(on): the plane's own flag, then each engine's, in list order. No body and no
        joint changes, and neither do the plane's lists. */
    method SetThrusting(on: bool)
      modifies this, set e | e in engines
      ensures thrusting == on && forall k :: 0 <= k < |engines| ==> engines[k].thrusting == on
      ensures wings == old(wings) && structures == old(structures) && engines == old(engines)
      ensures joints == old(joints) && player == old(player)
      ensures old(Valid()) ==> Valid()
    {
      ghost var bs, js := Bodies(), joints;
      ghost var sound := Sound(bs, js);
      thrusting := on;
      for k := 0 to |engines|
        invariant wings == old(wings) && structures == old(structures) && engines == old(engines)
        invariant joints == old(joints) && player == old(player)
        invariant thrusting == on && forall j :: 0 <= j < k ==> engines[j].thrusting == on
        invariant Sound(bs, js) == sound
      {
        engines[k].SetThrusting(on);
      }
      assert Bodies() == bs;
    }

    /** getPlayerLocation: where the first wing is. The source reads wings.get(0), which throws
        when there is no wing; that case is None here. */
    function PlayerLocation(): (r: Option<Vec>)
      reads this, wings
      ensures r.None? <==> wings == []
      ensures r.Some? ==> r.value == wings[0].pos
    {
      if wings == [] then None else Some(wings[0].pos)
    }

    /** setLocation(newLocation): every wing, then every structure, then every engine moved by
        the one vector that takes the first wing to newLocation, so the plane keeps its shape and
        every velocity and rotation. Without a wing the source throws before changing anything:
        here nothing changes and the result is false. */
    method SetLocation(newLocation: Vec) returns (moved: bool)
      requires Valid()
      modifies BodySet(Bodies())
      ensures Valid()
      ensures moved <==> wings != []
      ensures Forms(Bodies()) == old(Forms(Bodies()))
      ensures !moved ==> Motions(Bodies()) == old(Motions(Bodies()))
      ensures moved ==> Motions(Bodies()) == Shifted(old(Motions(Bodies())), Minus(newLocation, old(wings[0].pos)))
      ensures moved ==> wings[0].pos == newLocation
    {
      var here := PlayerLocation();
      if here.None? {
        return false;
      }
      var delta := Minus(newLocation, here.value);
      var bs := Bodies();
      ghost var fs, ms, ends := Forms(bs), Motions(bs), Ends(joints);
      ghost var ts := Shifted(ms, delta);
      ghost var pos := Indexing(bs);
      SoundByEnds(bs, joints);
      OutsideBodySet(this, bs, joints);
      assert Partway(bs, ts, ms, fs, 0);
      ShiftParts(bs, pos, |wings|, |wings| + |structures|, delta, ts, ms, fs);
      ShiftLands(ms, newLocation);
      assert Ends(joints) == ends;
      SoundByEnds(bs, joints);
      moved := true;
    }
  }
}
