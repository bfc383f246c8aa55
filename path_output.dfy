/**
 * The canvas chart: the render state of PathOutputResult with its
 * transforms and renderPaths2D, and the two owners of such a state,
 * OutputPlotResult (fixed point lists, aspect ratio kept, 2D pan) and
 * OutputGraphResult (functions re-sampled over a panned domain).
 * Drawing calls are replaced by the strokes they would draw.
 */
module PathOutput {
  import opened Values
  import opened Scopes
  import opened Sampler
  import opened Geometry
  import opened TextOutput

  /** A point of a stroked path on the surface. */
  datatype ScreenPoint = ScreenPoint(x: Coord, y: Coord)

  /** One stroked polyline: its hue and the screen points it passes through, in order. */
  datatype Stroke = Stroke(hue: real, points: seq<ScreenPoint>)

  /** The screen points of one flat x,y path under the given bounds, offsets and surface size. */
  function StrokePoints(b: Bounds, offsetX: real, offsetY: real, width: real, height: real, path: seq<real>): seq<ScreenPoint> {
    seq(|path| / 2, k requires 0 <= k < |path| / 2 =>
      ScreenPoint(ScreenX(b, offsetX, width, path[2 * k]), ScreenY(b, offsetY, height, path[2 * k + 1])))
  }

  /** Every path stroked in order, path i in hue 360 * i / n. */
  function Strokes(b: Bounds, offsetX: real, offsetY: real, width: real, height: real, lists: seq<seq<real>>): seq<Stroke> {
    seq(|lists|, i requires 0 <= i < |lists| =>
      Stroke(Hue(i, |lists|), StrokePoints(b, offsetX, offsetY, width, height, lists[i])))
  }

  /**
   * With no pan offset, every stroked point of lists the bounds cover is a
   * finite point of the surface rectangle [0, width] x [0, height]; points on
   * the bounds land on its edges, since the transform ignores the padding.
   */
  lemma StrokesInsideSurface(b: Bounds, width: real, height: real, lists: seq<seq<real>>, i: nat, k: nat)
    requires b.minX < b.maxX && b.minY < b.maxY && width >= 0.0 && height >= 0.0
    requires Covers(b, lists)
    requires i < |lists| && k < |lists[i]| / 2
    ensures var p := Strokes(b, 0.0, 0.0, width, height, lists)[i].points[k];
      p.x.Finite? && p.y.Finite? && 0.0 <= p.x.v <= width && 0.0 <= p.y.v <= height
  {
    var x := lists[i][2 * k];
    var y := lists[i][2 * k + 1];
    assert b.minX <= x <= b.maxX;
    assert b.minY <= y <= b.maxY;
    PointInsideSurface(b, width, height, x, y);
    assert Strokes(b, 0.0, 0.0, width, height, lists)[i].points == StrokePoints(b, 0.0, 0.0, width, height, lists[i]);
  }

  /** A point inside the bounds maps, with no pan offset, into the surface rectangle. */
  lemma PointInsideSurface(b: Bounds, width: real, height: real, x: real, y: real)
    requires b.minX < b.maxX && b.minY < b.maxY && width >= 0.0 && height >= 0.0
    requires b.minX <= x <= b.maxX && b.minY <= y <= b.maxY
    ensures ScreenX(b, 0.0, width, x).Finite? && 0.0 <= ScreenX(b, 0.0, width, x).v <= width
    ensures ScreenY(b, 0.0, height, y).Finite? && 0.0 <= ScreenY(b, 0.0, height, y).v <= height
  {
    var u := (x - b.minX) / (b.maxX - b.minX);
    var v := (y - b.minY) / (b.maxY - b.minY);
    FractionInUnit(x - b.minX, b.maxX - b.minX);
    FractionInUnit(y - b.minY, b.maxY - b.minY);
    assert ScreenX(b, 0.0, width, x) == Finite(u * width);
    assert ScreenY(b, 0.0, height, y) == Finite((1.0 - v) * height);
    UnitScaled(u, width);
    UnitScaled(1.0 - v, height);
  }

  /** A fraction in [0, 1] of a non-negative size lies between 0 and that size. */
  lemma UnitScaled(u: real, w: real)
    requires 0.0 <= u <= 1.0 && w >= 0.0
    ensures 0.0 <= u * w <= w
  {
    assert w - u * w == (1.0 - u) * w;
  }

  /** A part of a positive whole, divided by the whole, lies in [0, 1]. */
  lemma FractionInUnit(a: real, s: real)
    requires 0.0 <= a <= s && s > 0.0
    ensures 0.0 <= a / s <= 1.0
  {
  }

  /** The render state of one canvas chart (the object PathOutputResult returns). */
  class PathOutputResult {
    var width: real
    var height: real
    var minX: real
    var minY: real
    var maxX: real
    var maxY: real
    var domainOffsetX: real
    var domainOffsetY: real
    var title: string

    ghost predicate Valid()
      reads this
    {
      width >= 0.0 && height >= 0.0 && Ordered(Extent())
    }

    function Extent(): Bounds
      reads this
    {
      Bounds(minX, maxX, minY, maxY)
    }

    /** Everything starts at zero until the first resize and render. */
    constructor ()
      ensures Valid()
      ensures width == 0.0 && height == 0.0 && Extent() == Bounds(0.0, 0.0, 0.0, 0.0)
      ensures domainOffsetX == 0.0 && domainOffsetY == 0.0 && title == ""
    {
      width, height := 0.0, 0.0;
      minX, minY, maxX, maxY := 0.0, 0.0, 0.0, 0.0;
      domainOffsetX, domainOffsetY := 0.0, 0.0;
      title := "";
    }

    method SetTitle(t: string)
      modifies this`title
      ensures title == t
      ensures Valid() == old(Valid())
    {
      title := t;
    }

    /** The size half of the resize callback; the owner's forced re-render follows it. */
    method Resize(newWidth: real, newHeight: real)
      requires Valid() && newWidth >= 0.0 && newHeight >= 0.0
      modifies this`width, this`height
      ensures Valid() && width == newWidth && height == newHeight
    {
      width := newWidth;
      height := newHeight;
    }

    function DomainXToScreenX(x: real): Coord
      reads this
    {
      ScreenX(Extent(), domainOffsetX, width, x)
    }

    function DomainYToScreenY(y: real): Coord
      reads this
    {
      ScreenY(Extent(), domainOffsetY, height, y)
    }

    /**
     * The inner extents loop of renderPaths2D over one path. `first` says
     * this is path 0, whose first pair resets the bounds (`i === 0 && j === 0`)
     * before it widens them.
     */
    method ScanPath(path: seq<real>, first: bool)
      requires |path| % 2 == 0
      modifies this`minX, this`maxX, this`minY, this`maxY
      ensures Extent() == WidenPath(if first && |path| >= 2 then PairBounds(path) else old(Extent()), path)
    {
      ghost var base := if first && |path| >= 2 then PairBounds(path) else old(Extent());
      var j := 0;
      while j < |path|
        invariant 0 <= j <= |path| && j % 2 == 0
        invariant j == 0 ==> Extent() == old(Extent())
        invariant j > 0 ==> Extent() == WidenPath(base, path[..j])
      {
        var x := path[j + 0];
        var y := path[j + 1];
        if first && j == 0 {
          minX := x;
          maxX := x;
          minY := y;
          maxY := y;
        }
        minX := if x < minX then x else minX;
        minY := if y < minY then y else minY;
        maxX := if x > maxX then x else maxX;
        maxY := if y > maxY then y else maxY;
        WidenPathSnoc(base, path, j);
        j := j + 2;
      }
      assert path[..j] == path;
    }

    /**
     * The nested extents loop of renderPaths2D: the first pair of the first
     * list resets the bounds, every pair widens them.
     */
    method ScanBounds(pointLists: seq<seq<real>>)
      requires EvenLengths(pointLists)
      modifies this`minX, this`maxX, this`minY, this`maxY
      ensures Extent() == Scan(old(Extent()), pointLists)
    {
      ghost var start := ScanStart(Extent(), pointLists);
      var i := 0;
      while i < |pointLists|
        invariant 0 <= i <= |pointLists|
        invariant Extent() == if i == 0 then old(Extent()) else WidenLists(start, pointLists[..i])
      {
        ScanPath(pointLists[i], i == 0);
        assert pointLists[..i + 1][..i] == pointLists[..i];
        i := i + 1;
      }
      assert pointLists[..i] == pointLists;
      assert i == 0 ==> start == old(Extent());
    }

    /** The drawing loop of renderPaths2D: each path stroked through the state's transforms. */
    method StrokePaths(pointLists: seq<seq<real>>) returns (strokes: seq<Stroke>)
      requires EvenLengths(pointLists)
      ensures strokes == Strokes(Extent(), domainOffsetX, domainOffsetY, width, height, pointLists)
    {
      strokes := [];
      var i := 0;
      while i < |pointLists|
        invariant 0 <= i <= |pointLists|
        invariant |strokes| == i
        invariant forall q :: 0 <= q < i ==>
          strokes[q] == Stroke(Hue(q, |pointLists|), StrokePoints(Extent(), domainOffsetX, domainOffsetY, width, height, pointLists[q]))
      {
        var path := pointLists[i];
        var points: seq<ScreenPoint> := [];
        var j := 0;
        while j < |path|
          invariant 0 <= j <= |path| && j % 2 == 0
          invariant |points| == j / 2
          invariant forall k :: 0 <= k < j / 2 ==>
            points[k] == ScreenPoint(DomainXToScreenX(path[2 * k]), DomainYToScreenY(path[2 * k + 1]))
        {
          var resultX := path[j + 0];
          var resultY := path[j + 1];
          points := points + [ScreenPoint(DomainXToScreenX(resultX), DomainYToScreenY(resultY))];
          j := j + 2;
        }
        assert j / 2 == |path| / 2;
        assert points == StrokePoints(Extent(), domainOffsetX, domainOffsetY, width, height, path);
        strokes := strokes + [Stroke(Hue(i, |pointLists|), points)];
        i := i + 1;
      }
    }

    /**
     * The aspect-ratio step of renderPaths2D: the axis that is too short for
     * the surface's width / height is rewritten about its midpoint.
     */
    method CorrectAspectRatio()
      requires Valid() && width > 0.0 && height > 0.0
      modifies this`minX, this`maxX, this`minY, this`maxY
      ensures Valid()
      ensures Extent() == CorrectAspect(old(Extent()), width, height)
    {
      var xLen := maxX - minX;
      var yLen := maxY - minY;

      var targetAspectRatio := width / height;
      if WiderThanTarget(xLen, yLen, targetAspectRatio) {
        var midpointY := minY + (maxY - minY) / 2.0;
        var wantedYLen := xLen / targetAspectRatio;

        minY := midpointY - wantedYLen / 2.0;
        maxY := midpointY + wantedYLen / 2.0;
      } else {
        var midpointX := minX + (maxX - minX) / 2.0;
        var wantedXLen := targetAspectRatio * yLen;

        minX := midpointX - wantedXLen / 2.0;
        maxX := midpointX + wantedXLen / 2.0;
      }
      AspectMatchesSurface(old(Extent()), width, height);
    }

    /**
     * renderPaths2D: scan the bounds into the state, rewrite one axis for the
     * surface's aspect ratio when asked, pad local copies by 1% (`view`, what
     * the grid is laid out over), and stroke every path through the state's
     * transforms, which read the unpadded state bounds.
     */
    method RenderPaths(pointLists: seq<seq<real>>, maintainAspectRatio: bool) returns (view: Bounds, strokes: seq<Stroke>)
      requires Valid() && EvenLengths(pointLists)
      requires maintainAspectRatio ==> width > 0.0 && height > 0.0
      modifies this`minX, this`maxX, this`minY, this`maxY
      ensures Valid()
      ensures Extent() == RenderedBounds(old(Extent()), pointLists, maintainAspectRatio, width, height)
      ensures view == Pad(Extent())
      ensures strokes == Strokes(Extent(), domainOffsetX, domainOffsetY, width, height, pointLists)
    {
      ScanBounds(pointLists);
      ScanOrdered(old(Extent()), pointLists);

      if maintainAspectRatio {
        CorrectAspectRatio();
      }

      // local copies; the state keeps the unpadded bounds
      var minX', minY', maxX', maxY' := minX, minY, maxX, maxY;
      var extendX := (maxX' - minX') * 0.01;
      minX' := minX' - extendX;
      maxX' := maxX' + extendX;
      var extendY := (maxY' - minY') * 0.01;
      minY' := minY' - extendY;
      maxY' := maxY' + extendY;
      view := Bounds(minX', maxX', minY', maxY');

      strokes := StrokePaths(pointLists);
    }
  }

  /**
   * A plot of fixed point lists (OutputPlotResult): rendered with the aspect
   * ratio kept, and panned in both directions by dragging.
   */
  class OutputPlotResult {
    const output: PathOutputResult
    const lists: seq<seq<real>>
    var domainStartX: real
    var domainStartY: real

    ghost predicate Valid()
      reads this, output
    {
      output.Valid() && EvenLengths(lists)
    }

    /** The chart for plot result i, titled `Plot output <i>:`. */
    constructor (lists: seq<seq<real>>, i: nat)
      requires EvenLengths(lists)
      ensures Valid() && fresh(output) && this.lists == lists
      ensures output.title == "Plot output " + NatToString(i) + ":"
      ensures output.domainOffsetX == 0.0 && output.domainOffsetY == 0.0
    {
      var o := new PathOutputResult();
      o.SetTitle("Plot output " + NatToString(i) + ":");
      output := o;
      this.lists := lists;
    }

    /** rerenderPlot, the chart's forced re-render. */
    method Rerender() returns (view: Bounds, strokes: seq<Stroke>)
      requires Valid() && output.width > 0.0 && output.height > 0.0
      modifies output`minX, output`maxX, output`minY, output`maxY
      ensures Valid()
      ensures output.Extent() == RenderedBounds(old(output.Extent()), lists, true, output.width, output.height)
      ensures view == Pad(output.Extent())
      ensures strokes == Strokes(output.Extent(), output.domainOffsetX, output.domainOffsetY, output.width, output.height, lists)
    {
      view, strokes := output.RenderPaths(lists, true);
    }

    /** The resize callback: take the new size, then re-render. */
    method OnResize(newWidth: real, newHeight: real) returns (view: Bounds, strokes: seq<Stroke>)
      requires Valid() && newWidth > 0.0 && newHeight > 0.0
      modifies output`width, output`height, output`minX, output`maxX, output`minY, output`maxY
      ensures Valid() && output.width == newWidth && output.height == newHeight
      ensures output.Extent() == RenderedBounds(old(output.Extent()), lists, true, newWidth, newHeight)
      ensures strokes == Strokes(output.Extent(), output.domainOffsetX, output.domainOffsetY, newWidth, newHeight, lists)
    {
      output.Resize(newWidth, newHeight);
      view, strokes := Rerender();
    }

    /** onDragStart: remember the pan offsets the drag starts from. */
    method OnDragStart()
      modifies this`domainStartX, this`domainStartY
      ensures domainStartX == output.domainOffsetX && domainStartY == output.domainOffsetY
    {
      domainStartX := output.domainOffsetX;
      domainStartY := output.domainOffsetY;
    }

    /**
     * onDrag: both offsets are recomputed from the drag-start snapshot and
     * the total delta, both converted with the X scale (width and x span of
     * the bounds before this move), then the chart is re-rendered.
     */
    method OnDrag(dX: real, dY: real) returns (view: Bounds, strokes: seq<Stroke>)
      requires Valid() && output.width > 0.0 && output.height > 0.0
      modifies output`domainOffsetX, output`domainOffsetY, output`minX, output`maxX, output`minY, output`maxY
      ensures Valid()
      ensures output.domainOffsetX == DragOffset(domainStartX, dX, output.width, old(output.maxX - output.minX))
      ensures output.domainOffsetY == DragOffset(domainStartY, dY, output.width, old(output.maxX - output.minX))
      ensures output.Extent() == RenderedBounds(old(output.Extent()), lists, true, output.width, output.height)
      ensures RenderedBounds(output.Extent(), lists, true, output.width, output.height) == output.Extent()
      ensures strokes == Strokes(output.Extent(), output.domainOffsetX, output.domainOffsetY, output.width, output.height, lists)
    {
      RenderStable(output.Extent(), lists, true, output.width, output.height);
      output.domainOffsetX := domainStartX - ScreenDeltaToDomainDelta(dX, output.width, output.maxX - output.minX);
      output.domainOffsetY := domainStartY - ScreenDeltaToDomainDelta(dY, output.width, output.maxX - output.minX);
      view, strokes := Rerender();
    }
  }

  /** The flat x,y list the sampler's callback builds: x and y pushed for every call, in order. */
  function Flatten(calls: seq<Call>): (r: seq<real>)
    ensures |r| == 2 * |calls|
    ensures forall k :: 0 <= k < |calls| ==> r[2 * k] == calls[k].x && r[2 * k + 1] == calls[k].y
  {
    if calls == [] then []
    else Flatten(calls[..|calls| - 1]) + [calls[|calls| - 1].x, calls[|calls| - 1].y]
  }

  /** Every function's argument list names its argument. */
  predicate HasArguments(functions: seq<Closure>) {
    forall f :: 0 <= f < |functions| ==> |functions[f].args| > 0
  }

  /**
   * The point lists of one graph render: function f sampled over the panned
   * domain with `subdivisions` subdivisions, keeping the samples made before
   * a failure.
   */
  function GraphPaths(functions: seq<Closure>, start: real, end: real, subdivisions: nat): seq<seq<real>>
    requires HasArguments(functions)
  {
    seq(|functions|, f requires 0 <= f < |functions| => GraphPath(functions[f], start, end, subdivisions))
  }

  /** The flat x,y list of one function: the calls the sampler makes, subdivisions + 3 at most. */
  function GraphPath(f: Closure, start: real, end: real, subdivisions: nat): seq<real>
    requires |f.args| > 0
  {
    Flatten(Calls([], f, start, end, subdivisions + 2, subdivisions + 3))
  }

  /** Every graph path is a flat x,y list. */
  lemma GraphPathsEven(functions: seq<Closure>, start: real, end: real, subdivisions: nat)
    requires HasArguments(functions)
    ensures EvenLengths(GraphPaths(functions, start, end, subdivisions))
  {
  }

  /**
   * The sampling loop of rerenderGraph: each function sampled in turn, its
   * callbacks' x and y pushed onto its own list, which is kept even when the
   * sampling fails part-way.
   */
  method SampleFunctions(functions: seq<Closure>, start: real, end: real, subdivisions: nat) returns (paths: seq<seq<real>>)
    requires HasArguments(functions)
    ensures paths == GraphPaths(functions, start, end, subdivisions)
    ensures EvenLengths(paths)
  {
    paths := [];
    var fIndex := 0;
    while fIndex < |functions|
      invariant 0 <= fIndex <= |functions|
      invariant |paths| == fIndex
      invariant forall f :: 0 <= f < fIndex ==>
        paths[f] == GraphPath(functions[f], start, end, subdivisions)
    {
      var func := functions[fIndex];
      var res, calls := EvaluateFunction(func, start, end, subdivisions);
      paths := paths + [Flatten(calls)];
      fIndex := fIndex + 1;
    }
    GraphPathsEven(functions, start, end, subdivisions);
  }

  /** The functions' names, in order. */
  function Names(fs: seq<Closure>): (names: seq<string>)
    ensures |names| == |fs|
    ensures forall k :: 0 <= k < |fs| ==> names[k] == fs[k].name
  {
    if fs == [] then [] else Names(fs[..|fs| - 1]) + [fs[|fs| - 1].name]
  }

  /** `graph of <names>`, the names joined with ", ". */
  function GraphTitle(fs: seq<Closure>): string {
    "graph of " + Join(Names(fs), ", ")
  }

  /**
   * The graph title names every function, in order: "graph of " and the
   * first name begin it, and each later name follows the names before it
   * and ", ".
   */
  lemma GraphTitleNames(fs: seq<Closure>, k: nat)
    requires k < |fs|
    ensures k == 0 ==> "graph of " + fs[0].name <= GraphTitle(fs)
    ensures k > 0 ==> "graph of " + (Join(Names(fs)[..k], ", ") + ", " + fs[k].name) <= GraphTitle(fs)
  {
    var names := Names(fs);
    var joined := Join(names, ", ");
    assert names[k] == fs[k].name;
    if k > 0 {
      var front := Join(names[..k], ", ") + ", " + names[k];
      JoinPartAt(names, ", ", k);
      PrefixUnderTitle(front, joined);
    } else {
      PrefixUnderTitle(names[0], joined);
    }
  }

  lemma PrefixUnderTitle(a: string, b: string)
    requires a <= b
    ensures "graph of " + a <= "graph of " + b
  {
  }


  /**
   * A graph of functions (OutputGraphResult): re-sampled over the domain
   * shifted by the pan offset on every render, drawn without aspect
   * correction, panned horizontally by dragging.
   */
  class OutputGraphResult {
    const output: PathOutputResult
    const functions: seq<Closure>
    const domainStart: real
    const domainEnd: real
    var domainOffset: real
    var domainStartX: real

    ghost predicate Valid()
      reads this, output
    {
      output.Valid() && HasArguments(functions)
    }

    /** The chart titled `graph of <names>`, with no pan offset yet. */
    constructor (functions: seq<Closure>, domainStart: real, domainEnd: real)
      requires HasArguments(functions)
      ensures Valid() && fresh(output) && this.functions == functions
      ensures this.domainStart == domainStart && this.domainEnd == domainEnd && domainOffset == 0.0
      ensures output.title == GraphTitle(functions)
    {
      var o := new PathOutputResult();
      o.SetTitle(GraphTitle(functions));
      output := o;
      this.functions := functions;
      this.domainStart := domainStart;
      this.domainEnd := domainEnd;
      domainOffset := 0.0;
    }

    /**
     * rerenderGraph: sample every function with floor(width) subdivisions over
     * the panned domain, keeping each list even when its sampling fails
     * part-way, then render the lists without aspect correction.
     */
    method Rerender() returns (paths: seq<seq<real>>, view: Bounds, strokes: seq<Stroke>)
      requires Valid()
      modifies output`minX, output`maxX, output`minY, output`maxY
      ensures Valid()
      ensures paths == GraphPaths(functions, domainStart + domainOffset, domainEnd + domainOffset, output.width.Floor as nat)
      ensures output.Extent() == Scan(old(output.Extent()), paths)
      ensures strokes == Strokes(output.Extent(), output.domainOffsetX, output.domainOffsetY, output.width, output.height, paths)
    {
      paths := SampleFunctions(functions, domainStart + domainOffset, domainEnd + domainOffset, output.width.Floor as nat);
      view, strokes := output.RenderPaths(paths, false);
    }

    /** The resize callback: take the new size, then re-sample and re-render through rerenderGraph. */
    method OnResize(newWidth: real, newHeight: real) returns (paths: seq<seq<real>>, view: Bounds, strokes: seq<Stroke>)
      requires Valid() && newWidth >= 0.0 && newHeight >= 0.0
      modifies output`width, output`height, output`minX, output`maxX, output`minY, output`maxY
      ensures Valid() && output.width == newWidth && output.height == newHeight
      ensures paths == GraphPaths(functions, domainStart + domainOffset, domainEnd + domainOffset, newWidth.Floor as nat)
      ensures output.Extent() == Scan(old(output.Extent()), paths)
      ensures strokes == Strokes(output.Extent(), output.domainOffsetX, output.domainOffsetY, newWidth, newHeight, paths)
    {
      output.Resize(newWidth, newHeight);
      paths, view, strokes := Rerender();
    }

    /** onDragStart: remember the pan offset the drag starts from. */
    method OnDragStart()
      modifies this`domainStartX
      ensures domainStartX == domainOffset
    {
      domainStartX := domainOffset;
    }

    /**
     * onDrag: the offset is recomputed from the drag-start snapshot and the
     * total horizontal delta, converted with the domain's span; dy is ignored.
     * The graph is then re-sampled and re-rendered.
     */
    method OnDrag(dx: real, dy: real) returns (paths: seq<seq<real>>, view: Bounds, strokes: seq<Stroke>)
      requires Valid() && output.width > 0.0
      modifies this`domainOffset, output`minX, output`maxX, output`minY, output`maxY
      ensures Valid()
      ensures domainOffset == DragOffset(domainStartX, dx, output.width, domainEnd - domainStart)
      ensures paths == GraphPaths(functions, domainStart + domainOffset, domainEnd + domainOffset, output.width.Floor as nat)
      ensures output.Extent() == Scan(old(output.Extent()), paths)
      ensures strokes == Strokes(output.Extent(), output.domainOffsetX, output.domainOffsetY, output.width, output.height, paths)
    {
      domainOffset := domainStartX - ScreenDeltaToDomainDelta(dx, output.width, domainEnd - domainStart);
      paths, view, strokes := Rerender();
    }
  }

  /** The chart or text a plot or graph result turns into. */
  datatype Rendered = Text(block: TextBlock) | Plot(plot: OutputPlotResult) | Graph(graph: OutputGraphResult)

  /** A plot result as the evaluator records it: an optional value (an error), a title, the point lists. */
  datatype PlotRequest = PlotRequest(val: Option<Value>, title: Option<string>, lists: seq<seq<real>>)

  /** A graph result: an optional value (an error), a title, the domain and the functions. */
  datatype GraphRequest = GraphRequest(val: Option<Value>, title: Option<string>, start: real, end: real, functions: seq<Closure>)

  /** An error value handed over instead of a chart is shown as text; no geometry is attempted. */
  method MakePlotOutput(result: PlotRequest, i: nat) returns (r: Rendered)
    requires EvenLengths(result.lists)
    ensures result.val.Some? && result.val.value.Error? ==> r == Text(OutputTextResult(result.title, i, result.val.value))
    ensures !(result.val.Some? && result.val.value.Error?) ==>
      r.Plot? && fresh(r.plot.output) && r.plot.Valid() && r.plot.lists == result.lists &&
      r.plot.output.title == "Plot output " + NatToString(i) + ":" &&
      r.plot.output.domainOffsetX == 0.0 && r.plot.output.domainOffsetY == 0.0
  {
    if result.val.Some? && result.val.value.Error? {
      r := Text(OutputTextResult(result.title, i, result.val.value));
      return;
    }
    var plot := new OutputPlotResult(result.lists, i);
    r := Plot(plot);
  }

  /** As MakePlotOutput, for a graph result. */
  method MakeGraphOutput(result: GraphRequest, i: nat) returns (r: Rendered)
    requires HasArguments(result.functions)
    ensures result.val.Some? && result.val.value.Error? ==> r == Text(OutputTextResult(result.title, i, result.val.value))
    ensures !(result.val.Some? && result.val.value.Error?) ==>
      r.Graph? && fresh(r.graph.output) &&
      r.graph.Valid() && r.graph.functions == result.functions &&
      r.graph.domainStart == result.start && r.graph.domainEnd == result.end && r.graph.domainOffset == 0.0 &&
      r.graph.output.title == GraphTitle(result.functions)
  {
    if result.val.Some? && result.val.value.Error? {
      r := Text(OutputTextResult(result.title, i, result.val.value));
      return;
    }
    var graph := new OutputGraphResult(result.functions, result.start, result.end);
    r := Graph(graph);
  }
}
