/** The panel the aircraft is painted on (worldofaircraft/PaintLayer.java): the strokes the user
    paints with the left button, the joint and engine markers placed with the right button, and
    the filter that drops every marker no longer standing on the parts it is meant to join. */
module Paint {
  import opened Vectors
  import opened Shape
  import opened Assembly

  // ---- Strokes, layers and rendering

  /** A line painted in one material with a round brush of the given diameter (a MaterialShape
      around a Line2D). */
  datatype Stroke = Stroke(from: Pixel, to: Pixel, material: Material, diameter: int)

  /** A rendered layer, read back pixel by pixel as an ARGB value (BufferedImage.getRGB). */
  type Image = Pixel -> int

  /** Rendering: the layer paintOneMaterial paints from the strokes for one material, over white.
      Graphics2D does the drawing, so the model takes it as an input. */
  type Ink = (seq<Stroke>, Material) -> Image

  /** rightClickAction values. */
  const PlaceJoint: int := 0
  const PlaceEngine: int := 1

  /** MouseEvent.BUTTON1 and MouseEvent.BUTTON3. */
  const Button1: int := 1
  const Button3: int := 3

  /** The brush diameter a new panel starts with. */
  const StartDiameter: int := 7

  /** The layers every marker is checked against: wings, then structures. */
  const DrawMaterials: seq<Material> := [WingMaterial, StructureMaterial]

  /** The layers removeInvalidParts renders, one per material of DrawMaterials, in that order. */
  function Layers(ink: Ink, shapes: seq<Stroke>): seq<Image> {
    seq(|DrawMaterials|, m requires 0 <= m < |DrawMaterials| => ink(shapes, DrawMaterials[m]))
  }

  /** The pixel is painted (not opaque white) in every layer. */
  predicate OnEveryLayer(images: seq<Image>, p: Pixel) {
    forall m :: 0 <= m < |images| ==> images[m](p) != WhiteRgb
  }

  /** The pixel is painted in at least one layer. */
  predicate OnSomeLayer(images: seq<Image>, p: Pixel) {
    exists m :: 0 <= m < |images| && images[m](p) != WhiteRgb
  }

  /** A joint marker joins two materials: it must stand on paint in every layer. */
  function JointKeep(images: seq<Image>): Pixel -> bool {
    p => OnEveryLayer(images, p)
  }

  /** An engine marker must be attached to something: paint in at least one layer. */
  function EngineKeep(images: seq<Image>): Pixel -> bool {
    p => OnSomeLayer(images, p)
  }

  /** The engine markers attached to nothing. */
  function EngineDrop(images: seq<Image>): Pixel -> bool {
    p => !OnSomeLayer(images, p)
  }

  // ---- Lists of markers

  /** The markers kept by a test, in their order. */
  function Filter(ps: seq<Pixel>, keep: Pixel -> bool): (r: seq<Pixel>)
    ensures |r| <= |ps|
    ensures forall q :: q in r ==> q in ps && keep(q)
  {
    if ps == [] then [] else Filter(ps[..|ps| - 1], keep) + (if keep(ps[|ps| - 1]) then [ps[|ps| - 1]] else [])
  }

  /** Where v first occurs in the list, or the list's length when it does not. */
  function IndexOf(ps: seq<Pixel>, v: Pixel): (i: nat)
    ensures i <= |ps| && (i < |ps| <==> v in ps)
    ensures i < |ps| ==> ps[i] == v
    ensures forall k :: 0 <= k < i ==> ps[k] != v
  {
    if ps == [] then 0
    else if ps[0] == v then 0
    else 1 + IndexOf(ps[1..], v)
  }

  /** ArrayList.remove(Object): the first element equal to v goes, if there is one, and nothing
      else changes. */
  function Without(ps: seq<Pixel>, v: Pixel): (r: seq<Pixel>)
    ensures multiset(r) == multiset(ps) - multiset{v}
    ensures v !in ps ==> r == ps
    ensures v in ps ==> r == ps[..IndexOf(ps, v)] + ps[IndexOf(ps, v) + 1..]
  {
    if ps == [] then []
    else if ps[0] == v then
      DropHead(ps, v);
      ps[1..]
    else
      var rest := Without(ps[1..], v);
      KeepHead(ps, v, rest);
      [ps[0]] + rest
  }

  /** A list whose head is v loses its head, its first v. */
  lemma DropHead(ps: seq<Pixel>, v: Pixel)
    requires |ps| > 0 && ps[0] == v
    ensures multiset(ps[1..]) == multiset(ps) - multiset{v}
    ensures IndexOf(ps, v) == 0 && ps[1..] == ps[..0] + ps[1..]
  {
    assert ps == [ps[0]] + ps[1..];
  }

  /** A head other than v stays, in front of the tail with its first v removed. */
  lemma KeepHead(ps: seq<Pixel>, v: Pixel, rest: seq<Pixel>)
    requires |ps| > 0 && ps[0] != v
    requires multiset(rest) == multiset(ps[1..]) - multiset{v}
    requires v !in ps[1..] ==> rest == ps[1..]
    requires v in ps[1..] ==> rest == ps[1..][..IndexOf(ps[1..], v)] + ps[1..][IndexOf(ps[1..], v) + 1..]
    ensures multiset([ps[0]] + rest) == multiset(ps) - multiset{v}
    ensures v !in ps ==> [ps[0]] + rest == ps
    ensures v in ps ==> [ps[0]] + rest == ps[..IndexOf(ps, v)] + ps[IndexOf(ps, v) + 1..]
  {
    assert v in ps <==> v in ps[1..] by { assert ps == [ps[0]] + ps[1..]; }
    KeepHeadCount(ps, v, rest);
    if v in ps {
      assert IndexOf(ps, v) == 1 + IndexOf(ps[1..], v);
      KeepHeadOrder(ps, IndexOf(ps[1..], v), rest);
    } else {
      assert ps == [ps[0]] + ps[1..];
    }
  }

  /** The head adds itself to the count, not to v's. */
  lemma KeepHeadCount(ps: seq<Pixel>, v: Pixel, rest: seq<Pixel>)
    requires |ps| > 0 && ps[0] != v
    requires multiset(rest) == multiset(ps[1..]) - multiset{v}
    ensures multiset([ps[0]] + rest) == multiset(ps) - multiset{v}
  {
    calc {
      multiset([ps[0]] + rest);
      multiset{ps[0]} + (multiset(ps[1..]) - multiset{v});
      (multiset{ps[0]} + multiset(ps[1..])) - multiset{v};
      { assert ps == [ps[0]] + ps[1..]; }
      multiset(ps) - multiset{v};
    }
  }

  /** Removing element j of the tail is removing element j + 1 behind the head. */
  lemma KeepHeadOrder(ps: seq<Pixel>, j: nat, rest: seq<Pixel>)
    requires j + 1 < |ps| && rest == ps[1..][..j] + ps[1..][j + 1..]
    ensures [ps[0]] + rest == ps[..j + 1] + ps[j + 2..]
  {
    assert ps[..j + 1] == [ps[0]] + ps[1..][..j];
    assert ps[j + 2..] == ps[1..][j + 1..];
  }

  /** Filtering a list is filtering its two halves: the survivors keep their relative order. */
  lemma {:induction false} FilterAppend(a: seq<Pixel>, b: seq<Pixel>, keep: Pixel -> bool)
    ensures Filter(a + b, keep) == Filter(a, keep) + Filter(b, keep)
    decreases |b|
  {
    if b == [] {
      assert a + b == a;
    } else {
      var b', x := b[..|b| - 1], b[|b| - 1];
      assert (a + b)[..|a + b| - 1] == a + b';
      FilterAppend(a, b', keep);
    }
  }

  /** Every occurrence of a kept marker survives and every occurrence of another one goes. */
  lemma {:induction false} FilterCount(ps: seq<Pixel>, keep: Pixel -> bool, v: Pixel)
    ensures multiset(Filter(ps, keep))[v] == if keep(v) then multiset(ps)[v] else 0
    decreases |ps|
  {
    if ps != [] {
      var ps', x := ps[..|ps| - 1], ps[|ps| - 1];
      assert ps == ps' + [x];
      FilterCount(ps', keep, v);
    }
  }

  /** A list whose markers all pass the test is its own filtering. */
  lemma {:induction false} FilterAllKept(ps: seq<Pixel>, keep: Pixel -> bool)
    requires forall q :: q in ps ==> keep(q)
    ensures Filter(ps, keep) == ps
    decreases |ps|
  {
    if ps != [] {
      var ps', x := ps[..|ps| - 1], ps[|ps| - 1];
      assert ps == ps' + [x];
      assert forall q :: q in ps' ==> q in ps;
      FilterAllKept(ps', keep);
    }
  }

  /** Filtering twice with the same test is filtering once. */
  lemma FilterTwice(ps: seq<Pixel>, keep: Pixel -> bool)
    ensures Filter(Filter(ps, keep), keep) == Filter(ps, keep)
  {
    FilterAllKept(Filter(ps, keep), keep);
  }

  /** A marker survives exactly when it was in the list and passes the test. */
  lemma FilterMember(ps: seq<Pixel>, keep: Pixel -> bool, v: Pixel)
    ensures v in Filter(ps, keep) <==> v in ps && keep(v)
  {
    FilterCount(ps, keep, v);
    assert v in Filter(ps, keep) <==> multiset(Filter(ps, keep))[v] > 0;
  }

  /** Removing one occurrence of a marker the test rejects does not change the filtering. */
  lemma {:induction false} FilterWithout(ps: seq<Pixel>, v: Pixel, keep: Pixel -> bool)
    requires !keep(v)
    ensures Filter(Without(ps, v), keep) == Filter(ps, keep)
    decreases |ps|
  {
    if ps != [] {
      assert ps == [ps[0]] + ps[1..];
      FilterAppend([ps[0]], ps[1..], keep);
      assert Filter([ps[0]], keep) == Filter([], keep) + (if keep(ps[0]) then [ps[0]] else []);
      if ps[0] != v {
        FilterWithout(ps[1..], v, keep);
        FilterAppend([ps[0]], Without(ps[1..], v), keep);
      }
    }
  }

  // ---- removeInvalidParts

  /** The loops of removeInvalidParts are collecting, in `marks`, occurrences to remove from `ps`:
      only rejected markers, and at least as many of each rejected marker as `ps` holds. */
  ghost predicate Pending(ps: seq<Pixel>, marks: seq<Pixel>, keep: Pixel -> bool) {
    (forall q :: q in marks ==> !keep(q)) &&
    forall v :: !keep(v) ==> multiset(ps)[v] <= multiset(marks)[v]
  }

  /** One remove call of the removal loop keeps it pending and keeps the filtering. */
  lemma PendingStep(ps: seq<Pixel>, marks: seq<Pixel>, keep: Pixel -> bool)
    requires marks != [] && Pending(ps, marks, keep)
    ensures Pending(Without(ps, marks[0]), marks[1..], keep)
    ensures Filter(Without(ps, marks[0]), keep) == Filter(ps, keep)
  {
    assert marks == [marks[0]] + marks[1..];
    assert multiset(marks) == multiset{marks[0]} + multiset(marks[1..]);
    FilterWithout(ps, marks[0], keep);
  }

  /** With no removals left, no rejected marker is left either. */
  lemma PendingDone(ps: seq<Pixel>, keep: Pixel -> bool)
    requires Pending(ps, [], keep)
    ensures Filter(ps, keep) == ps
  {
    assert forall q :: q in ps ==> keep(q);
    FilterAllKept(ps, keep);
  }

  /** The copies of a joint marker the inner loop collects: one per layer it is white in. */
  function WhiteCopies(images: seq<Image>, p: Pixel): (r: seq<Pixel>)
    ensures forall q :: q in r ==> q == p
    ensures p in r <==> !OnEveryLayer(images, p)
  {
    if images == [] then []
    else
      var r' := WhiteCopies(images[..|images| - 1], p);
      assert forall m :: 0 <= m < |images| - 1 ==> images[..|images| - 1][m] == images[m];
      r' + (if images[|images| - 1](p) == WhiteRgb then [p] else [])
  }

  /** The inner joint loop of removeInvalidParts: one more mark of p for each layer painted
      white at p. */
  method AddWhiteMarks(toRemove: seq<Pixel>, painted: seq<Image>, p: Pixel) returns (r: seq<Pixel>)
    ensures r == toRemove + WhiteCopies(painted, p)
  {
    r := toRemove;
    for m := 0 to |painted|
      invariant r == toRemove + WhiteCopies(painted[..m], p)
    {
      assert painted[..m + 1][..m] == painted[..m];
      if painted[m](p) == WhiteRgb {
        r := r + [p];
      }
    }
    assert painted[..|painted|] == painted;
  }

  /** What the joint loops of removeInvalidParts collect over a list of markers. */
  function Marks(ps: seq<Pixel>, images: seq<Image>): seq<Pixel> {
    if ps == [] then [] else Marks(ps[..|ps| - 1], images) + WhiteCopies(images, ps[|ps| - 1])
  }

  /** The joint marks are all rejected joints and cover every occurrence of one. */
  lemma {:induction false} MarksPending(ps: seq<Pixel>, images: seq<Image>)
    ensures Pending(ps, Marks(ps, images), JointKeep(images))
    decreases |ps|
  {
    var keep := JointKeep(images);
    if ps != [] {
      var ps', x := ps[..|ps| - 1], ps[|ps| - 1];
      assert ps == ps' + [x];
      MarksPending(ps', images);
      var w := WhiteCopies(images, x);
      forall v | !keep(v)
        ensures multiset(ps)[v] <= multiset(Marks(ps, images))[v]
      {
        if v == x {
          assert multiset(w)[v] >= 1;
        }
      }
    }
  }

  /** The engine marks are the unattached engines, which covers every occurrence of one. */
  lemma UnattachedPending(ps: seq<Pixel>, images: seq<Image>)
    ensures Pending(ps, Filter(ps, EngineDrop(images)), EngineKeep(images))
  {
    forall v | !EngineKeep(images)(v)
      ensures multiset(ps)[v] <= multiset(Filter(ps, EngineDrop(images)))[v]
    {
      FilterCount(ps, EngineDrop(images), v);
    }
  }

  // ---- The panel

  class PaintLayer {
    var shapes: seq<Stroke>
    var jointPositions: seq<Pixel>
    var enginePositions: seq<Pixel>
    /** The point the brush is at while the left button is down. */
    var paintPos: Option<Pixel>
    var paintMaterial: Material
    var rightClickAction: int
    var cursorLocation: Pixel
    var showCursor: bool
    var paintDiameter: int
    var leftPressed: bool

    /** A blank panel with the wing brush, placing joints. */
    constructor ()
      ensures shapes == [] && jointPositions == [] && enginePositions == [] && paintPos == None
      ensures paintMaterial == WingMaterial && rightClickAction == PlaceJoint
      ensures cursorLocation == Pixel(0, 0) && !showCursor && paintDiameter == StartDiameter && !leftPressed
    {
      shapes, jointPositions, enginePositions, paintPos := [], [], [], None;
      paintMaterial, rightClickAction := WingMaterial, PlaceJoint;
      cursorLocation, showCursor, paintDiameter, leftPressed := Pixel(0, 0), false, StartDiameter, false;
    }

    /** removeInvalidParts: drops every joint marker white in some layer and every engine marker
        white in all of them, each occurrence of it, keeping the order of the rest. */
    method RemoveInvalidParts(ink: Ink)
      modifies this`jointPositions, this`enginePositions
      ensures jointPositions == Filter(old(jointPositions), JointKeep(Layers(ink, shapes)))
      ensures enginePositions == Filter(old(enginePositions), EngineKeep(Layers(ink, shapes)))
    {
      var painted := PaintLayers(ink);
      assert painted == Layers(ink, shapes);
      var toRemove := MarkJoints(painted);
      RemoveJoints(toRemove, painted);
      toRemove := MarkEngines(painted);
      RemoveEngines(toRemove, painted);
    }

    /** The first loop of removeInvalidParts: one layer per material of DrawMaterials. */
    method PaintLayers(ink: Ink) returns (painted: seq<Image>)
      ensures |painted| == |DrawMaterials|
      ensures forall m :: 0 <= m < |painted| ==> painted[m] == ink(shapes, DrawMaterials[m])
    {
      painted := [];
      for i := 0 to |DrawMaterials|
        invariant |painted| == i
        invariant forall m :: 0 <= m < i ==> painted[m] == ink(shapes, DrawMaterials[m])
      {
        painted := painted + [ink(shapes, DrawMaterials[i])];
      }
    }

    /** The joint loop of removeInvalidParts: a mark for each layer a joint marker is white in. */
    method MarkJoints(painted: seq<Image>) returns (toRemove: seq<Pixel>)
      ensures toRemove == Marks(jointPositions, painted)
    {
      toRemove := [];
      for k := 0 to |jointPositions|
        invariant toRemove == Marks(jointPositions[..k], painted)
      {
        var p := jointPositions[k];
        assert jointPositions[..k + 1][..k] == jointPositions[..k];
        toRemove := AddWhiteMarks(toRemove, painted, p);
      }
      assert jointPositions[..|jointPositions|] == jointPositions;
    }

    /** The engine loop of removeInvalidParts: a mark for each engine marker attached to no layer. */
    method MarkEngines(painted: seq<Image>) returns (toRemove: seq<Pixel>)
      ensures toRemove == Filter(enginePositions, EngineDrop(painted))
    {
      toRemove := [];
      for k := 0 to |enginePositions|
        invariant toRemove == Filter(enginePositions[..k], EngineDrop(painted))
      {
        var p := enginePositions[k];
        assert enginePositions[..k + 1][..k] == enginePositions[..k];
        var attached := false;
        for m := 0 to |painted|
          invariant attached == OnSomeLayer(painted[..m], p)
        {
          assert forall l :: 0 <= l < m ==> painted[..m + 1][l] == painted[..m][l];
          if painted[m](p) != WhiteRgb {
            attached := true;
          }
        }
        assert painted[..|painted|] == painted;
        if !attached {
          toRemove := toRemove + [p];
        }
      }
      assert enginePositions[..|enginePositions|] == enginePositions;
    }

    /** The removal loop for joints: remove(Object) once per mark. */
    method RemoveJoints(toRemove: seq<Pixel>, ghost painted: seq<Image>)
      requires toRemove == Marks(jointPositions, painted)
      modifies this`jointPositions
      ensures jointPositions == Filter(old(jointPositions), JointKeep(painted))
    {
      ghost var keep := JointKeep(painted);
      MarksPending(jointPositions, painted);
      for r := 0 to |toRemove|
        invariant Pending(jointPositions, toRemove[r..], keep)
        invariant Filter(jointPositions, keep) == Filter(old(jointPositions), keep)
      {
        PendingStep(jointPositions, toRemove[r..], keep);
        assert toRemove[r..][1..] == toRemove[r + 1..];
        jointPositions := Without(jointPositions, toRemove[r]);
      }
      PendingDone(jointPositions, keep);
    }

    /** The removal loop for engines: remove(Object) once per mark. */
    method RemoveEngines(toRemove: seq<Pixel>, ghost painted: seq<Image>)
      requires toRemove == Filter(enginePositions, EngineDrop(painted))
      modifies this`enginePositions
      ensures enginePositions == Filter(old(enginePositions), EngineKeep(painted))
    {
      ghost var keep := EngineKeep(painted);
      UnattachedPending(enginePositions, painted);
      for r := 0 to |toRemove|
        invariant Pending(enginePositions, toRemove[r..], keep)
        invariant Filter(enginePositions, keep) == Filter(old(enginePositions), keep)
      {
        PendingStep(enginePositions, toRemove[r..], keep);
        assert toRemove[r..][1..] == toRemove[r + 1..];
        enginePositions := Without(enginePositions, toRemove[r]);
      }
      PendingDone(enginePositions, keep);
    }

    /** drawDot: while the brush is down, a stroke from where it was to the new point, a filter
        of the markers when the stroke erases, and the brush moves to the point. With the brush
        up nothing changes. */
    method DrawDot(location: Pixel, ink: Ink)
      modifies this`shapes, this`jointPositions, this`enginePositions, this`paintPos
      ensures old(paintPos).None? ==> shapes == old(shapes) && paintPos == None &&
                                      jointPositions == old(jointPositions) && enginePositions == old(enginePositions)
      ensures old(paintPos).Some? ==>
        shapes == old(shapes) + [Stroke(old(paintPos).value, location, paintMaterial, paintDiameter)] &&
        paintPos == Some(location)
      ensures old(paintPos).Some? && paintMaterial == NullMaterial ==>
        jointPositions == Filter(old(jointPositions), JointKeep(Layers(ink, shapes))) &&
        enginePositions == Filter(old(enginePositions), EngineKeep(Layers(ink, shapes)))
      ensures old(paintPos).Some? && paintMaterial != NullMaterial ==>
        jointPositions == old(jointPositions) && enginePositions == old(enginePositions)
    {
      if paintPos.Some? {
        shapes := shapes + [Stroke(paintPos.value, location, paintMaterial, paintDiameter)];
        if paintMaterial == NullMaterial {
          RemoveInvalidParts(ink);
        }
        paintPos := Some(location);
      }
    }

    /** mouseEntered: the cursor is shown where the mouse came in. */
    method MouseEntered(at: Pixel)
      modifies this`showCursor, this`cursorLocation
      ensures showCursor && cursorLocation == at
    {
      showCursor := true;
      cursorLocation := at;
    }

    /** mouseExited: the cursor is hidden. */
    method MouseExited()
      modifies this`showCursor
      ensures !showCursor
    {
      showCursor := false;
    }

    /** mouseMoved: the cursor follows the mouse. */
    method MouseMoved(at: Pixel)
      modifies this`cursorLocation
      ensures cursorLocation == at
    {
      cursorLocation := at;
    }

    /** mouseDragged: the cursor follows the mouse, and paints while the left button is down. */
    method MouseDragged(at: Pixel, ink: Ink)
      modifies this`cursorLocation, this`shapes, this`jointPositions, this`enginePositions, this`paintPos
      ensures cursorLocation == at
      ensures !leftPressed || old(paintPos).None? ==>
        shapes == old(shapes) && paintPos == old(paintPos) &&
        jointPositions == old(jointPositions) && enginePositions == old(enginePositions)
      ensures leftPressed && old(paintPos).Some? ==>
        shapes == old(shapes) + [Stroke(old(paintPos).value, at, paintMaterial, paintDiameter)] &&
        paintPos == Some(at)
      ensures leftPressed && old(paintPos).Some? && paintMaterial == NullMaterial ==>
        jointPositions == Filter(old(jointPositions), JointKeep(Layers(ink, shapes))) &&
        enginePositions == Filter(old(enginePositions), EngineKeep(Layers(ink, shapes)))
      ensures leftPressed && old(paintPos).Some? && paintMaterial != NullMaterial ==>
        jointPositions == old(jointPositions) && enginePositions == old(enginePositions)
    {
      cursorLocation := at;
      if leftPressed {
        DrawDot(at, ink);
      }
    }

    /** mousePressed: the left button puts the brush down and paints a dot there; the right
        button places a joint or an engine marker, as rightClickAction says, and filters the
        markers. Other buttons do nothing. */
    method MousePressed(button: int, at: Pixel, ink: Ink)
      modifies this`paintPos, this`leftPressed, this`shapes, this`jointPositions, this`enginePositions
      ensures button == Button1 ==>
        paintPos == Some(at) && leftPressed &&
        shapes == old(shapes) + [Stroke(at, at, paintMaterial, paintDiameter)]
      ensures button == Button1 && paintMaterial == NullMaterial ==>
        jointPositions == Filter(old(jointPositions), JointKeep(Layers(ink, shapes))) &&
        enginePositions == Filter(old(enginePositions), EngineKeep(Layers(ink, shapes)))
      ensures button == Button1 && paintMaterial != NullMaterial ==>
        jointPositions == old(jointPositions) && enginePositions == old(enginePositions)
      ensures button == Button3 ==>
        paintPos == old(paintPos) && leftPressed == old(leftPressed) && shapes == old(shapes) &&
        jointPositions == Filter(old(jointPositions) + (if rightClickAction == PlaceJoint then [at] else []),
                                 JointKeep(Layers(ink, shapes))) &&
        enginePositions == Filter(old(enginePositions) + (if rightClickAction == PlaceEngine then [at] else []),
                                  EngineKeep(Layers(ink, shapes)))
      ensures button != Button1 && button != Button3 ==>
        paintPos == old(paintPos) && leftPressed == old(leftPressed) && shapes == old(shapes) &&
        jointPositions == old(jointPositions) && enginePositions == old(enginePositions)
    {
      if button == Button1 {
        paintPos := Some(at);
        leftPressed := true;
        DrawDot(at, ink);
      } else if button == Button3 {
        if rightClickAction == PlaceJoint {
          jointPositions := jointPositions + [at];
        } else if rightClickAction == PlaceEngine {
          enginePositions := enginePositions + [at];
        }
        assert jointPositions == old(jointPositions) + (if rightClickAction == PlaceJoint then [at] else []);
        assert enginePositions == old(enginePositions) + (if rightClickAction == PlaceEngine then [at] else []);
        RemoveInvalidParts(ink);
      }
    }

    /** mouseReleased: releasing the left button lifts the brush. */
    method MouseReleased(button: int)
      modifies this`paintPos, this`leftPressed
      ensures button == Button1 ==> paintPos == None && !leftPressed
      ensures button != Button1 ==> paintPos == old(paintPos) && leftPressed == old(leftPressed)
    {
      if button == Button1 {
        paintPos := None;
        leftPressed := false;
      }
    }

    /** clear: no strokes and no markers. */
    method Clear()
      modifies this`shapes, this`jointPositions, this`enginePositions
      ensures shapes == [] && jointPositions == [] && enginePositions == []
    {
      enginePositions := [];
      jointPositions := [];
      shapes := [];
    }

    method SetPaintMaterial(material: Material)
      modifies this`paintMaterial
      ensures paintMaterial == material
    {
      paintMaterial := material;
    }

    method SetRightClickAction(action: int)
      modifies this`rightClickAction
      ensures rightClickAction == action
    {
      rightClickAction := action;
    }

    method SetBrushSize(brushSize: int)
      modifies this`paintDiameter
      ensures paintDiameter == brushSize
    {
      paintDiameter := brushSize;
    }
  }

  /** A marker placed with the right button survives the filter that follows exactly when it
      passes the test, and the earlier markers fare as they would without it. */
  lemma PlacedMarker(ps: seq<Pixel>, at: Pixel, keep: Pixel -> bool)
    ensures Filter(ps + [at], keep) == Filter(ps, keep) + (if keep(at) then [at] else [])
    ensures at in Filter(ps + [at], keep) <==> keep(at)
  {
    FilterAppend(ps, [at], keep);
    assert Filter([at], keep) == Filter([], keep) + (if keep(at) then [at] else []);
  }

  /** After removeInvalidParts a joint marker is left exactly when it was placed and stands on
      wing paint and on structure paint; an engine marker exactly when it was placed and stands
      on either. */
  lemma Survivors(ink: Ink, shapes: seq<Stroke>, joints: seq<Pixel>, engines: seq<Pixel>, p: Pixel)
    ensures p in Filter(joints, JointKeep(Layers(ink, shapes))) <==>
      p in joints && ink(shapes, WingMaterial)(p) != WhiteRgb && ink(shapes, StructureMaterial)(p) != WhiteRgb
    ensures p in Filter(engines, EngineKeep(Layers(ink, shapes))) <==>
      p in engines && (ink(shapes, WingMaterial)(p) != WhiteRgb || ink(shapes, StructureMaterial)(p) != WhiteRgb)
  {
    var images := Layers(ink, shapes);
    assert images[0] == ink(shapes, WingMaterial) && images[1] == ink(shapes, StructureMaterial);
    FilterMember(joints, JointKeep(images), p);
    FilterMember(engines, EngineKeep(images), p);
  }
}
