/** The assembly of a plane from painted parts: splitting a painted layer into parts, the engine
    that pushes along its own heading, and the plane that keeps the parts large enough to matter,
    pins each engine to the first part under it and chains the parts under each joint marker. */
module Assembly {
  import opened Vectors
  import opened Shape
  import opened Segmentation
  import opened Rk4
  import opened RigidBody
  import opened Joints

  // ---- Materials

  /** A material: the ARGB value it is painted with and its density. */
  datatype Material = Material(rgb: int, density: real)

  /** Color.BLACK, Color.lightGray and Color.white as ARGB ints. */
  const Black: int := -16777216
  const LightGray: int := -4144960
  const WhiteRgb: int := -1

  /** The materials: wings of density 1, structures of density 0.2f (its float value exactly) and
      the eraser, of density 0. */
  const WingMaterial: Material := Material(Black, 1.0)
  const StructureMaterial: Material := Material(LightGray, 13421773.0 / 67108864.0)
  const NullMaterial: Material := Material(WhiteRgb, 0.0)

  // ---- Part.splitImageIntoParts

  /** The image splitImageIntoParts paints for one grid: the material's colour where the grid is
      set, and the zero a new ARGB image starts with elsewhere. */
  function Painted(g: Grid, w: nat, h: nat, rgb: int): Raster
    requires Rectangular(g, w, h)
  {
    seq(w, i requires 0 <= i < w => seq(h, j requires 0 <= j < h => if g[i][j] then rgb else 0))
  }

  /** The painted image is read back as the grid exactly when the colour is not the transparent
      value 0; a colour of 0 paints nothing a body would see. */
  lemma PaintedMask(g: Grid, w: nat, h: nat, rgb: int)
    requires Rectangular(g, w, h)
    ensures IsRaster(Painted(g, w, h, rgb), w, h)
    ensures rgb != Clear ==> Mask(Painted(g, w, h, rgb), w, h) == g
    ensures rgb == Clear ==> Count(Mask(Painted(g, w, h, rgb), w, h)) == 0
  {
    var img := Painted(g, w, h, rgb);
    var m := Mask(img, w, h);
    if rgb != Clear {
      forall i | 0 <= i < w
        ensures m[i] == g[i]
      {
        assert forall j :: 0 <= j < h ==> m[i][j] == g[i][j];
      }
    } else {
      EmptyIffNoCell(m);
    }
  }

  /** The pixel loop of splitImageIntoParts, on a fresh image of the grid's size. */
  method PaintPart(g: Grid, w: nat, h: nat, rgb: int) returns (img: Raster)
    requires Rectangular(g, w, h)
    ensures img == Painted(g, w, h, rgb)
  {
    var image := new int[w, h]((i, j) => 0);
    for i := 0 to w
      invariant forall x, y :: 0 <= x < i && 0 <= y < h ==> image[x, y] == if g[x][y] then rgb else 0
      invariant forall x, y :: i <= x < w && 0 <= y < h ==> image[x, y] == 0
    {
      for j := 0 to h
        invariant forall x, y :: 0 <= x < i && 0 <= y < h ==> image[x, y] == if g[x][y] then rgb else 0
        invariant forall y :: 0 <= y < j ==> image[i, y] == if g[i][y] then rgb else 0
        invariant forall x, y :: (i < x < w && 0 <= y < h) || (x == i && j <= y < h) ==> image[x, y] == 0
      {
        if g[i][j] {
          image[i, j] := rgb;
        }
      }
    }
    img := seq(w, i requires 0 <= i < w reads image => seq(h, j requires 0 <= j < h reads image => image[i, j]));
    assert forall i :: 0 <= i < w ==> img[i] == Painted(g, w, h, rgb)[i];
  }

  /** What splitImageIntoParts passes on of the segmentation: the grids lay the non-transparent
      pixels of the layer out over the parts, each such pixel in exactly one grid and no other pixel
      in any. (That each grid is one 4-connected component, sized to its corner and in scan order,
      is what Segmentation.SplitImage proves of the same grids.) */
  ghost predicate Partition(img: Raster, w: nat, h: nat, grids: seq<Grid>)
    requires IsRaster(img, w, h)
  {
    (forall k, i, j :: 0 <= k < |grids| && Cell(grids[k], i, j) ==> OpaqueAt(img, w, h, Pixel(i, j))) &&
    (forall i, j :: OpaqueAt(img, w, h, Pixel(i, j)) ==> exists k :: 0 <= k < |grids| && Cell(grids[k], i, j)) &&
    (forall k, l, i, j :: 0 <= k < l < |grids| && Cell(grids[k], i, j) ==> !Cell(grids[l], i, j))
  }

  /** A grid of the segmentation, with at least one pixel, so a part can be made of it. */
  predicate Drawable(g: Grid) {
    |g| > 0 && Rectangular(g, |g|, |g[0]|) && Count(g) > 0
  }

  /** Components of the non-transparent pixels that cover them all and do not overlap lay them
      out over the grids. */
  lemma ComponentsPartition(img: Raster, w: nat, h: nat, grids: seq<Grid>, seeds: seq<Pixel>)
    requires IsRaster(img, w, h) && |grids| == |seeds|
    requires forall k :: 0 <= k < |grids| ==> IsComponent(GridCells(grids[k]), Opaque(img, w, h), seeds[k])
    requires forall c :: c in Opaque(img, w, h) ==> exists k :: 0 <= k < |grids| && c in GridCells(grids[k])
    requires forall k, l, c :: 0 <= k < l < |grids| && c in GridCells(grids[k]) ==> c !in GridCells(grids[l])
    ensures Partition(img, w, h, grids)
  {
    var O := Opaque(img, w, h);
    forall k, i, j | 0 <= k < |grids| && Cell(grids[k], i, j)
      ensures OpaqueAt(img, w, h, Pixel(i, j))
    {
      assert Pixel(i, j) in GridCells(grids[k]);
      assert GridCells(grids[k]) <= O;
    }
    forall i, j | OpaqueAt(img, w, h, Pixel(i, j))
      ensures exists k :: 0 <= k < |grids| && Cell(grids[k], i, j)
    {
      assert Pixel(i, j) in O;
      var k :| 0 <= k < |grids| && Pixel(i, j) in GridCells(grids[k]);
      assert Cell(grids[k], i, j);
    }
    forall k, l, i, j | 0 <= k < l < |grids| && Cell(grids[k], i, j)
      ensures !Cell(grids[l], i, j)
    {
      assert Pixel(i, j) in GridCells(grids[k]);
    }
  }

  /** splitImageIntoRigidBodies, seen through what it promises. */
  method Segment(img: Raster, w: nat, h: nat) returns (grids: seq<Grid>)
    requires IsRaster(img, w, h)
    ensures forall k :: 0 <= k < |grids| ==> Drawable(grids[k])
    ensures Partition(img, w, h, grids)
  {
    ghost var seeds;
    grids, seeds := SplitImage(img, w, h);
    ComponentsPartition(img, w, h, grids, seeds);
    forall k | 0 <= k < |grids|
      ensures Drawable(grids[k])
    {
      SegmentHasPixels(GridCells(grids[k]), Opaque(img, w, h), seeds[k], grids[k]);
    }
  }

  /** A newly made part of one grid in the material. */
  ghost predicate PartOf(b: Body, g: Grid, material: Material)
    reads b
  {
    |g| > 0 && b.w == |g| && b.h == |g[0]| && b.pixels == g && b.density == material.density &&
    b.MassModel() && !b.empty && b.pos == b.centre.value && b.vel == Zero &&
    b.rotation == 0.0 && b.angularVel == 0.0
  }

  /** A grid of the segmentation has pixels, so a part can be made of it. */
  lemma SegmentHasPixels(S: set<Pixel>, O: set<Pixel>, s: Pixel, g: Grid)
    requires IsComponent(S, O, s) && BoundingBox(S, g)
    ensures Count(g) > 0 && Rectangular(g, |g|, |g[0]|)
  {
    assert Cell(g, s.x, s.y);
    EmptyIffNoCell(g);
  }

  /** The body of the loop of splitImageIntoParts: the grid painted in the material's colour,
      made a part of the material's density. */
  method MakePart(g: Grid, material: Material) returns (part: Body)
    requires Drawable(g) && material.rgb != Clear
    ensures fresh(part) && PartOf(part, g, material)
  {
    var width, height := |g|, |g[0]|;
    var img := PaintPart(g, width, height, material.rgb);
    PaintedMask(g, width, height, material.rgb);
    part := new Body(img, width, height, material.density);
  }

  /** splitImageIntoParts(pixelData, material): one part per component of the layer, in the order
      of the segmentation, each the size of its grid, occupying exactly its grid and made of the
      material. The colour must not be the transparent value 0, for which the source would build
      a part of an image without pixels and fail. */
  method SplitImageIntoParts(pixelData: Raster, w: nat, h: nat, material: Material)
    returns (parts: seq<Body>, ghost grids: seq<Grid>)
    requires IsRaster(pixelData, w, h) && material.rgb != Clear
    ensures |parts| == |grids|
    ensures Partition(pixelData, w, h, grids)
    ensures forall k :: 0 <= k < |parts| ==> fresh(parts[k]) && PartOf(parts[k], grids[k], material)
    ensures forall k, l :: 0 <= k < l < |parts| ==> parts[k] != parts[l]
  {
    var allPartPixels;
    allPartPixels := Segment(pixelData, w, h);
    grids := allPartPixels;
    parts := [];
    for k := 0 to |allPartPixels|
      invariant |parts| == k
      invariant forall l :: 0 <= l < k ==> fresh(parts[l]) && PartOf(parts[l], grids[l], material)
      invariant forall l, m :: 0 <= l < m < k ==> parts[l] != parts[m]
    {
      var part := MakePart(allPartPixels[k], material);
      parts := parts + [part];
    }
  }

  // ---- Engine

  /** engineForce, and the density every engine is made with. */
  const EngineForce: real := 8000000.0
  const EngineDensity: real := 2.0

  /** The impulse of one thrusting step: engineForce * dt along the engine's heading
      (cos rotation, -sin rotation). */
  function ThrustImpulse(rotation: real, dt: real, trig: Trig): Vec {
    Scale(Vec(trig.cos(rotation), -trig.sin(rotation)), EngineForce * dt)
  }

  /** The thrust after the body update: the impulse applied at the engine's own position. */
  function Thrust(m: Motion, f: Form, thrusting: bool, dt: real, trig: Trig): Motion
    requires Solid(f)
  {
    if thrusting then Impulsed(m, f.empty, f.mass, f.inertia, ThrustImpulse(m.rotation, dt, trig), m.pos) else m
  }

  /** Without thrust an engine moves as any body. With it the push acts at the position, so it
      never turns the engine: position, rotation and spin stay, and mass times the change of
      velocity is the impulse, unless the engine is empty or the impulse vanishes. */
  lemma ThrustLaws(m: Motion, f: Form, thrusting: bool, dt: real, trig: Trig)
    requires Solid(f)
    ensures var r := Thrust(m, f, thrusting, dt, trig);
      r.pos == m.pos && r.rotation == m.rotation && r.angularVel == m.angularVel &&
      (!thrusting ==> r == m) &&
      (thrusting && !f.empty ==> Scale(Minus(r.vel, m.vel), f.mass) == ThrustImpulse(m.rotation, dt, trig))
  {
    var j := ThrustImpulse(m.rotation, dt, trig);
    if thrusting {
      ImpulseAtPosition(m, f.empty, f.mass, f.inertia, j);
      if !f.empty {
        if j == Zero {
          assert Minus(m.vel, m.vel) == Zero;
          ScaleZero(f.mass);
        } else {
          ImpulseLaws(m, f.mass, f.inertia, j, m.pos);
        }
      }
    }
  }

  /** A mask with pixels of a positive density, spread enough to have a moment of inertia, makes
      a body that can be updated. */
  lemma SolidOfPixels(g: Grid, density: real)
    requires Count(g) > 0 && density > 0.0 && InertiaOf(g, density) > 0.0
    ensures MassOf(g, density) > 0.0 && CollisionRadiusSq(g) >= 0.0
  {
    MassModelOfPixels(g, density);
    var c := Centre(g).value;
    var i, j :| Cell(g, i, j) && DistSq(c, i, j) == CollisionRadiusSq(g);
  }

  /** An engine: a part of the engine image and density 2 that can push. */
  class Engine {
    const body: Body
    var thrusting: bool

    /** Engine(x, y): the engine image at (x, y), not thrusting. */
    constructor (art: Raster, aw: nat, ah: nat, x: real, y: real)
      requires IsRaster(art, aw, ah) && Count(Mask(art, aw, ah)) > 0
      ensures !thrusting && fresh(body) && fresh(body.interpolator)
      ensures body.MassModel() && body.image == art && body.w == aw && body.h == ah && body.density == EngineDensity
      ensures !body.empty && body.pos == Vec(x, y) && body.vel == Zero && body.rotation == 0.0 && body.angularVel == 0.0
    {
      body := new Body.At(art, aw, ah, EngineDensity, Vec(x, y));
      thrusting := false;
    }

    /** update(dt): the body update, then the thrust if the engine is on. */
    method Update(dt: real, groundLevel: int, render: Renderer, trig: Trig)
      requires Solid(body.Formed())
      modifies body, body.interpolator
      ensures body.Formed() == old(body.Formed())
      ensures body.Kinematics() ==
        Thrust(Step(old(body.Kinematics()), old(body.Formed()), dt, groundLevel, render), old(body.Formed()), thrusting, dt, trig)
    {
      body.Update(dt, groundLevel, render);
      if thrusting {
        var impulse := ThrustImpulse(body.rotation, dt, trig);
        body.ApplyImpulse(impulse, body.pos);
      }
    }

    /** setThrusting: the flag and nothing else. */
    method SetThrusting(on: bool)
      modifies this
      ensures thrusting == on
    {
      thrusting := on;
    }
  }
}
