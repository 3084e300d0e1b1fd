/**
 * The canvas's drop gesture: pressing with the drop tool sets an anchor,
 * dragging measures a circle around it, and releasing a large enough circle
 * places the tool's media inside it as the largest rectangle of the media's
 * shape that fits the circle.
 *
 * `Math.sqrt` is a parameter `sqrt` that every call site must give as a true
 * square root on the non-negative reals (`IsSquareRoot`).
 */
module Canvas {
  import opened JsMath
  import opened Workspace

  datatype Point = Point(x: real, y: real)

  /** A frame on the canvas: top-left corner and size. */
  datatype Rect = Rect(x: real, y: real, width: real, height: real)

  /** The circle a drop fills. */
  datatype Circle = Circle(cx: real, cy: real, radius: real)

  /** Room kept around the stroke when the circle is drawn. */
  const Padding: real := 2.0

  /** The smallest circle a release places media in. */
  const MinRadius: real := 10.0

  /** `sqrt` gives the non-negative root of every non-negative number. */
  ghost predicate IsSquareRoot(sqrt: real -> real) {
    forall x :: 0.0 <= x ==> 0.0 <= sqrt(x) && sqrt(x) * sqrt(x) == x
  }

  /** The squared straight-line distance between two points. */
  function SquaredDistance(a: Point, b: Point): (d: real)
    ensures 0.0 <= d
  {
    (b.x - a.x) * (b.x - a.x) + (b.y - a.y) * (b.y - a.y)
  }

  /** The smallest radius the circle is drawn with: twice the stroke plus the padding. */
  function RadiusFloor(lineWidth: real): real {
    lineWidth * 2.0 + Padding
  }

  /**
   * `caclRadius`: the distance from the anchor to the pointer, raised to the
   * floor when it falls short of it.
   */
  function Radius(anchor: Point, pointer: Point, lineWidth: real, sqrt: real -> real): (r: real)
    requires IsSquareRoot(sqrt)
    ensures RadiusFloor(lineWidth) <= r
    ensures sqrt(SquaredDistance(anchor, pointer)) <= r
    ensures r == RadiusFloor(lineWidth) || r * r == SquaredDistance(anchor, pointer)
  {
    var radius := sqrt(SquaredDistance(anchor, pointer));
    if radius < RadiusFloor(lineWidth) then RadiusFloor(lineWidth) else radius
  }

  /** A pointer still on the anchor gives exactly the floor, for any stroke width a canvas accepts. */
  lemma RadiusAtAnchor(anchor: Point, lineWidth: real, sqrt: real -> real)
    requires IsSquareRoot(sqrt)
    requires 0.0 <= lineWidth
    ensures Radius(anchor, anchor, lineWidth, sqrt) == RadiusFloor(lineWidth)
  {
    var s := sqrt(SquaredDistance(anchor, anchor));
    assert s * s == 0.0;
    if s > 0.0 {
      assert s * s > 0.0;
    }
  }

  /** Squaring keeps a strict order between non-negative numbers. */
  lemma SquareStrictMonotone(s: real, f: real)
    requires 0.0 <= s < f
    ensures s * s < f * f
  {
    var ss, sf, ff := s * s, s * f, f * f;
    assert ss <= sf;
    assert sf < ff;
  }

  /** A pointer at least the floor away gives its distance from the anchor. */
  lemma RadiusIsDistance(anchor: Point, pointer: Point, lineWidth: real, sqrt: real -> real)
    requires IsSquareRoot(sqrt)
    requires 0.0 <= RadiusFloor(lineWidth)
    requires RadiusFloor(lineWidth) * RadiusFloor(lineWidth) <= SquaredDistance(anchor, pointer)
    ensures Radius(anchor, pointer, lineWidth, sqrt) == sqrt(SquaredDistance(anchor, pointer))
    ensures Radius(anchor, pointer, lineWidth, sqrt) * Radius(anchor, pointer, lineWidth, sqrt) == SquaredDistance(anchor, pointer)
  {
    var f, s := RadiusFloor(lineWidth), sqrt(SquaredDistance(anchor, pointer));
    if s < f {
      SquareStrictMonotone(s, f);
    }
  }

  /** A pointer closer than the floor gives exactly the floor. */
  lemma RadiusBelowFloor(anchor: Point, pointer: Point, lineWidth: real, sqrt: real -> real)
    requires IsSquareRoot(sqrt)
    requires 0.0 <= RadiusFloor(lineWidth)
    requires SquaredDistance(anchor, pointer) < RadiusFloor(lineWidth) * RadiusFloor(lineWidth)
    ensures Radius(anchor, pointer, lineWidth, sqrt) == RadiusFloor(lineWidth)
  {
    var f, s := RadiusFloor(lineWidth), sqrt(SquaredDistance(anchor, pointer));
    if f < s {
      SquareStrictMonotone(f, s);
    }
  }

  /** A 30-40-50 triangle with a 1-pixel stroke: the radius is the distance, 50. */
  lemma RadiusOfThreeFourFive(sqrt: real -> real)
    requires IsSquareRoot(sqrt)
    ensures Radius(Point(0.0, 0.0), Point(30.0, 40.0), 1.0, sqrt) == 50.0
  {
    RadiusIsDistance(Point(0.0, 0.0), Point(30.0, 40.0), 1.0, sqrt);
    var r := Radius(Point(0.0, 0.0), Point(30.0, 40.0), 1.0, sqrt);
    if r < 50.0 {
      SquareStrictMonotone(r, 50.0);
    } else if 50.0 < r {
      SquareStrictMonotone(50.0, r);
    }
  }

  /** A pointer one pixel across and down with a 1-pixel stroke: the radius is the floor, 4. */
  lemma RadiusOfShortDrag(sqrt: real -> real)
    requires IsSquareRoot(sqrt)
    ensures Radius(Point(0.0, 0.0), Point(1.0, 1.0), 1.0, sqrt) == 4.0
  {
    RadiusBelowFloor(Point(0.0, 0.0), Point(1.0, 1.0), 1.0, sqrt);
  }

  /** Width over height. */
  function Aspect(width: real, height: real): real
    requires height != 0.0
  {
    width / height
  }

  /** The height of the rectangle with aspect `a` whose diagonal is `diameter`, given `root` = sqrt(a*a + 1). */
  function FittedHeight(diameter: real, root: real): real
    requires root != 0.0
  {
    diameter / root
  }

  /** A root of a square plus one is at least one. */
  lemma RootAtLeastOne(a: real, root: real)
    requires 0.0 <= root && root * root == a * a + 1.0
    ensures 1.0 <= root
  {
    if root < 1.0 {
      MulMonotone(root, 1.0, root);
    }
  }

  /**
   * `getCenteredRectInCircle`: the rectangle of aspect `width / height`
   * whose diagonal is the circle's diameter, centred on the circle's centre.
   */
  function CenteredRectInCircle(width: real, height: real, cx: real, cy: real, radius: real, sqrt: real -> real): (r: Rect)
    requires height != 0.0
    requires IsSquareRoot(sqrt)
    ensures r.x + r.width / 2.0 == cx && r.y + r.height / 2.0 == cy
  {
    var a := Aspect(width, height);
    var root := sqrt(a * a + 1.0);
    RootAtLeastOne(a, root);
    var newHeight := FittedHeight(radius * 2.0, root);
    var newWidth := newHeight * a;
    Rect(cx - newWidth / 2.0, cy - newHeight / 2.0, newWidth, newHeight)
  }

  /** The rectangle keeps the media's shape: its width is its height times the aspect. */
  lemma CenteredRectKeepsAspect(width: real, height: real, cx: real, cy: real, radius: real, sqrt: real -> real)
    requires height != 0.0 && IsSquareRoot(sqrt)
    ensures var r := CenteredRectInCircle(width, height, cx, cy, radius, sqrt);
      r.width == r.height * Aspect(width, height) &&
      (r.height != 0.0 ==> r.width / r.height == width / height)
  {
  }

  /** Scaling a unit diagonal: (h*a)^2 + h^2 is (h*root)^2 when root^2 = a^2 + 1. */
  lemma ScaledDiagonal(h: real, a: real, root: real)
    requires root * root == a * a + 1.0
    ensures (h * a) * (h * a) + h * h == (h * root) * (h * root)
  {
    calc {
      (h * a) * (h * a) + h * h;
      ==
      (h * h) * (a * a + 1.0);
      ==
      (h * h) * (root * root);
      ==
      (h * root) * (h * root);
    }
  }

  /** The rectangle's corners lie on the circle: its diagonal is the diameter. */
  lemma CenteredRectDiagonal(width: real, height: real, cx: real, cy: real, radius: real, sqrt: real -> real)
    requires height != 0.0 && IsSquareRoot(sqrt)
    ensures var r := CenteredRectInCircle(width, height, cx, cy, radius, sqrt);
      r.width * r.width + r.height * r.height == (2.0 * radius) * (2.0 * radius)
  {
    var a := Aspect(width, height);
    var root := sqrt(a * a + 1.0);
    RootAtLeastOne(a, root);
    var h := FittedHeight(radius * 2.0, root);
    ScaledDiagonal(h, a, root);
    assert h * root == radius * 2.0;
  }

  /** Media of positive size in a circle of non-negative radius gets a frame of non-negative size. */
  lemma CenteredRectNonNegative(width: real, height: real, cx: real, cy: real, radius: real, sqrt: real -> real)
    requires 0.0 < width && 0.0 < height && 0.0 <= radius && IsSquareRoot(sqrt)
    ensures var r := CenteredRectInCircle(width, height, cx, cy, radius, sqrt);
      0.0 <= r.width && 0.0 <= r.height
  {
    var a := Aspect(width, height);
    var root := sqrt(a * a + 1.0);
    RootAtLeastOne(a, root);
    assert 0.0 <= FittedHeight(radius * 2.0, root);
    MulMonotone(0.0, FittedHeight(radius * 2.0, root), a);
  }

  /** The SVG placed from library media into a frame: the frame's box, the media's path and styling, not pending. */
  function PlacedSvg(key: string, svg: EncodedSvg, frame: Rect): ProjectSvg {
    ProjectSvg(key, svg.mediaPath, frame.width, frame.height, frame.y, frame.x,
      svg.viewbox, svg.fill, svg.stroke, svg.strokeWidth, false)
  }

  /** The image placed from library media into a frame: the frame's box and the media's path, not pending. */
  function PlacedImg(key: string, img: EncodedImg, frame: Rect): ProjectImg {
    ProjectImg(key, img.mediaPath, frame.width, frame.height, frame.y, frame.x, false)
  }

  /**
   * The project after an SVG drop (`handleSvgDrop`): a copy whose SVG map
   * gains one entry under the fresh key, framed in the drop circle.
   */
  function DropSvg(project: Project, svg: EncodedSvg, area: Circle, newKey: string, sqrt: real -> real): (p: Project)
    requires svg.height != 0.0 && IsSquareRoot(sqrt)
    ensures p.svgs.Keys == project.svgs.Keys + {newKey}
    ensures newKey !in project.svgs ==> |p.svgs| == |project.svgs| + 1
    ensures forall k :: k in project.svgs && k != newKey ==> p.svgs[k] == project.svgs[k]
    ensures p.svgs[newKey] == PlacedSvg(newKey, svg, CenteredRectInCircle(svg.width, svg.height, area.cx, area.cy, area.radius, sqrt))
    ensures p.(svgs := project.svgs) == project
  {
    var frame := CenteredRectInCircle(svg.width, svg.height, area.cx, area.cy, area.radius, sqrt);
    project.(svgs := project.svgs[newKey := PlacedSvg(newKey, svg, frame)])
  }

  /** The project after an image drop (`handleImgDrop`): the same rule for the image map. */
  function DropImg(project: Project, img: EncodedImg, area: Circle, newKey: string, sqrt: real -> real): (p: Project)
    requires img.height != 0.0 && IsSquareRoot(sqrt)
    ensures p.imgs.Keys == project.imgs.Keys + {newKey}
    ensures newKey !in project.imgs ==> |p.imgs| == |project.imgs| + 1
    ensures forall k :: k in project.imgs && k != newKey ==> p.imgs[k] == project.imgs[k]
    ensures p.imgs[newKey] == PlacedImg(newKey, img, CenteredRectInCircle(img.width, img.height, area.cx, area.cy, area.radius, sqrt))
    ensures p.(imgs := project.imgs) == project
  {
    var frame := CenteredRectInCircle(img.width, img.height, area.cx, area.cy, area.radius, sqrt);
    project.(imgs := project.imgs[newKey := PlacedImg(newKey, img, frame)])
  }

  /**
   * A dropped SVG fills the drop circle: it is centred on the circle's
   * centre, its corners lie on the circle, it keeps the media's shape, and
   * it carries the media's path and styling.
   */
  lemma DroppedSvgFillsCircle(project: Project, svg: EncodedSvg, area: Circle, newKey: string, sqrt: real -> real)
    requires svg.height != 0.0 && IsSquareRoot(sqrt)
    ensures var e := DropSvg(project, svg, area, newKey, sqrt).svgs[newKey];
      e.key == newKey && e.mediaPath == svg.mediaPath && !e.pending &&
      e.viewbox == svg.viewbox && e.fill == svg.fill && e.stroke == svg.stroke && e.strokeWidth == svg.strokeWidth &&
      e.left + e.width / 2.0 == area.cx && e.top + e.height / 2.0 == area.cy &&
      e.width * e.width + e.height * e.height == (2.0 * area.radius) * (2.0 * area.radius) &&
      e.width == e.height * Aspect(svg.width, svg.height)
  {
    CenteredRectDiagonal(svg.width, svg.height, area.cx, area.cy, area.radius, sqrt);
    CenteredRectKeepsAspect(svg.width, svg.height, area.cx, area.cy, area.radius, sqrt);
  }

  /** A dropped image fills the drop circle in the same way and carries the media's path. */
  lemma DroppedImgFillsCircle(project: Project, img: EncodedImg, area: Circle, newKey: string, sqrt: real -> real)
    requires img.height != 0.0 && IsSquareRoot(sqrt)
    ensures var e := DropImg(project, img, area, newKey, sqrt).imgs[newKey];
      e.key == newKey && e.mediaPath == img.mediaPath && !e.pending &&
      e.left + e.width / 2.0 == area.cx && e.top + e.height / 2.0 == area.cy &&
      e.width * e.width + e.height * e.height == (2.0 * area.radius) * (2.0 * area.radius) &&
      e.width == e.height * Aspect(img.width, img.height)
  {
    CenteredRectDiagonal(img.width, img.height, area.cx, area.cy, area.radius, sqrt);
    CenteredRectKeepsAspect(img.width, img.height, area.cx, area.cy, area.radius, sqrt);
  }

  /**
   * The project a drop publishes: a project with an id is published as it
   * is; a new one takes the id the server created, or stays without one
   * when the server gave none.
   */
  function PublishedProject(project: Project, createdId: Option<string>): (p: Project)
    ensures p.(projectId := project.projectId) == project
    ensures project.projectId != "" ==> p == project
    ensures project.projectId == "" && createdId.Some? ==> p.projectId == createdId.value
  {
    if project.projectId != "" then project
    else if createdId.Some? then project.(projectId := createdId.value)
    else project
  }

  /**
   * What releasing the pointer publishes: a new project when there is an
   * anchor, the tool is the drop tool holding media, the circle reaches
   * `MinRadius` and the media is among the downloads; nothing otherwise.
   */
  function ReleaseOutcome(
    anchor: Option<Point>, state: WorkspaceState, pointer: Point, lineWidth: real,
    sqrt: real -> real, newKey: string, createdId: Option<string>): (r: Option<Project>)
    requires IsSquareRoot(sqrt)
    requires forall s :: s in state.downloadedSvgs ==> s.height != 0.0
    requires forall i :: i in state.downloadedImgs ==> i.height != 0.0
    ensures r.Some? ==>
      anchor.Some? && state.tool.Some? && state.tool.value.Drop? && state.tool.value.value.Some? &&
      MinRadius <= Radius(anchor.value, pointer, lineWidth, sqrt)
    ensures r.Some? ==>
      r.value.(projectId := state.project.projectId, svgs := state.project.svgs, imgs := state.project.imgs) == state.project
    ensures r.Some? && state.project.projectId != "" ==> r.value.projectId == state.project.projectId
  {
    if anchor.None? || state.tool.None? || !state.tool.value.Drop? then None
    else
      var radius := Radius(anchor.value, pointer, lineWidth, sqrt);
      var thumbnail := state.tool.value.value;
      if radius < MinRadius || thumbnail.None? then None
      else
        var area := Circle(anchor.value.x, anchor.value.y, radius);
        match thumbnail.value
        case SvgThumbnail(svg) =>
          var i := FindIndex(state.downloadedSvgs, (s: EncodedSvg) => s.mediaPath == svg.mediaPath);
          if i < 0 then None
          else Some(PublishedProject(DropSvg(state.project, state.downloadedSvgs[i], area, newKey, sqrt), createdId))
        case ImgThumbnail(img) =>
          var i := FindIndex(state.downloadedImgs, (e: EncodedImg) => e.mediaPath == img.mediaPath);
          if i < 0 then None
          else Some(PublishedProject(DropImg(state.project, state.downloadedImgs[i], area, newKey, sqrt), createdId))
  }

  /**
   * What a release publishes is the current project's placements, each
   * unchanged, plus exactly one new placement under the fresh key.
   */
  lemma ReleaseCommitsOnlyLargeDrops(
    anchor: Option<Point>, state: WorkspaceState, pointer: Point, lineWidth: real,
    sqrt: real -> real, newKey: string, createdId: Option<string>)
    requires IsSquareRoot(sqrt)
    requires forall s :: s in state.downloadedSvgs ==> s.height != 0.0
    requires forall i :: i in state.downloadedImgs ==> i.height != 0.0
    requires newKey !in state.project.svgs && newKey !in state.project.imgs
    ensures var r := ReleaseOutcome(anchor, state, pointer, lineWidth, sqrt, newKey, createdId);
      r.Some? ==>
        |r.value.svgs| + |r.value.imgs| == |state.project.svgs| + |state.project.imgs| + 1 &&
        (forall k :: k in state.project.svgs ==> k in r.value.svgs && r.value.svgs[k] == state.project.svgs[k]) &&
        (forall k :: k in state.project.imgs ==> k in r.value.imgs && r.value.imgs[k] == state.project.imgs[k])
  {
  }

  /** The canvas's gesture state: the anchor set by a press and cleared by a release. */
  class DropGesture {
    var anchor: Option<Point>

    /** No gesture is under way at first. */
    constructor ()
      ensures anchor.None?
    {
      anchor := None;
    }

    /** `click`: the drop tool anchors the gesture where the pointer went down; other tools do nothing. */
    method Click(tool: Option<Tool>, pointer: Point)
      modifies this
      ensures tool.Some? && tool.value.Drop? ==> anchor == Some(pointer)
      ensures !(tool.Some? && tool.value.Drop?) ==> anchor == old(anchor)
    {
      if tool.None? {
        return;
      }
      match tool.value
      case Drop(_) =>
        anchor := Some(pointer);
      case Delete =>
    }

    /**
     * `mouseRelease`: publishes what `ReleaseOutcome` says and ends the
     * gesture. Without an anchor or without a tool it returns early and the
     * anchor stays as it was.
     */
    method Release(state: WorkspaceState, pointer: Point, lineWidth: real,
      sqrt: real -> real, newKey: string, createdId: Option<string>) returns (published: Option<Project>)
      requires IsSquareRoot(sqrt)
      requires forall s :: s in state.downloadedSvgs ==> s.height != 0.0
      requires forall i :: i in state.downloadedImgs ==> i.height != 0.0
      modifies this
      ensures published == ReleaseOutcome(old(anchor), state, pointer, lineWidth, sqrt, newKey, createdId)
      ensures old(anchor).None? || state.tool.None? ==> anchor == old(anchor)
      ensures old(anchor).Some? && state.tool.Some? ==> anchor.None?
    {
      published := None;
      if anchor.None? || state.tool.None? {
        return;
      }
      var a := anchor.value;
      if state.tool.value.Drop? {
        var newRadius := Radius(a, pointer, lineWidth, sqrt);
        var thumbnail := state.tool.value.value;
        if !(newRadius < MinRadius || thumbnail.None?) {
          var area := Circle(a.x, a.y, newRadius);
          match thumbnail.value {
            case SvgThumbnail(svg) =>
              var i := FindIndex(state.downloadedSvgs, (s: EncodedSvg) => s.mediaPath == svg.mediaPath);
              if i >= 0 {
                var dropped := DropSvg(state.project, state.downloadedSvgs[i], area, newKey, sqrt);
                published := Some(PublishedProject(dropped, createdId));
              }
            case ImgThumbnail(img) =>
              var i := FindIndex(state.downloadedImgs, (e: EncodedImg) => e.mediaPath == img.mediaPath);
              if i >= 0 {
                var dropped := DropImg(state.project, state.downloadedImgs[i], area, newKey, sqrt);
                published := Some(PublishedProject(dropped, createdId));
              }
          }
        }
      }
      anchor := None;
    }
  }
}
