/**
 * The older SVG renderer of the calculator page (renderOutputs): text
 * results printed under a title, and graphs drawn by sampling every
 * function a fixed number of times into one flat array, taking the global
 * y range of all samples, and mapping each sample into a padded pixel box.
 */
module SvgGraph {
  import opened Values
  import opened Scopes
  import opened Sampler
  import opened Geometry
  import opened TextOutput
  import opened PathOutput

  // ---------------------------------------------------------------------------
  // Printing

  /** The inside of a titled row: a paragraph showing a value (error-styled or not), or a chart. */
  datatype Block = Paragraph(val: Value, isError: bool) | Svg(chart: Chart)

  /** A row of the output: an optional bold label, then the block. */
  datatype Titled = Titled(heading: Option<string>, inner: Block)

  /**
   * A drawn graph: its element id, one stroke per function, the y range
   * shown on the axis labels and the bounds line, and the domain.
   */
  datatype Chart = Chart(id: string, strokes: seq<Stroke>, minY: real, maxY: real, domainStart: real, domainEnd: real)

  /** wrapInTitle: the label `<title>: ` appears exactly when the title is not empty. */
  function WrapInTitle(title: string, inner: Block): (r: Titled)
    ensures r.inner == inner
    ensures r.heading.Some? <==> title != ""
    ensures r.heading.Some? ==> r.heading.value == title + ": "
  {
    Titled(if title != "" then Some(title + ": ") else None, inner)
  }

  /** The title a row was labelled with: its label less the trailing ": ", or "" when it has none. */
  function TitleOf(r: Titled): string
  {
    match r.heading
    case None => ""
    case Some(h) => if |h| >= 2 then h[..|h| - 2] else h
  }

  /** wrapInTitle loses nothing: the title and the block read back from the row. */
  lemma WrapInTitleRoundTrip(title: string, inner: Block)
    ensures TitleOf(WrapInTitle(title, inner)) == title
    ensures WrapInTitle(title, inner).inner == inner
  {
    if title != "" {
      assert (title + ": ")[..|title|] == title;
    }
  }

  /** Distinct titles (or blocks) give distinct rows. */
  lemma WrapInTitleInjective(t1: string, b1: Block, t2: string, b2: Block)
    requires WrapInTitle(t1, b1) == WrapInTitle(t2, b2)
    ensures t1 == t2 && b1 == b2
  {
    WrapInTitleRoundTrip(t1, b1);
    WrapInTitleRoundTrip(t2, b2);
  }

  /** print: the value under its title (or `result <i>`), in the error style exactly for an error. */
  function Print(title: Option<string>, val: Value, i: nat): Titled {
    WrapInTitle(DefaultTitle(title, i), Paragraph(val, val.Error?))
  }

  /**
   * A printed result is always labelled, and it shows the same heading, the
   * same value and the same error styling as the canvas renderer's text
   * result for it.
   */
  lemma PrintMatchesTextResult(title: Option<string>, val: Value, i: nat)
    ensures Print(title, val, i).heading.Some?
    ensures Print(title, val, i).heading.value == OutputTextResult(title, i, val).heading
    ensures Print(title, val, i).inner == Paragraph(OutputTextResult(title, i, val).val, OutputTextResult(title, i, val).isError)
  {
    DefaultTitleNamesResult(title, i, i);
  }

  /** The title the graph printer gives an evaluation error met while sampling. */
  const GraphingErrorTitle: string := "An error occurred while graphing"

  // ---------------------------------------------------------------------------
  // The sampling grid

  /** The surface is 1000 by 500 pixels; every function is sampled floor(1000) times. */
  const Width: real := 1000.0
  const Height: real := 500.0
  const N: nat := 1000
  /** The number of steps between the first and the last sample. */
  const Steps: nat := N - 1

  /** The pixel box the curves are drawn in. */
  const LeftPad: real := 100.0
  const BottomPad: real := 17.0
  const TopPad: real := 5.0

  /** Sample i of a function is taken at lerp(start, end, i / (n - 1)). */
  function GraphX(start: real, end: real, i: nat): real {
    SampleX(start, end, Steps, i)
  }

  /** What the body of f yields at sample i, run on top of the program's stack `outer`. */
  function GraphSample(outer: Env, f: Closure, start: real, end: real, i: nat): Value
    requires |f.args| > 0
  {
    ValueAt(outer, f, GraphX(start, end, i))
  }

  /** The number sample i stores (only read where every sample is a number). */
  function GraphY(outer: Env, f: Closure, start: real, end: real, i: nat): real
    requires |f.args| > 0
  {
    var v := GraphSample(outer, f, start, end, i);
    if v.Number? then v.val else 0.0
  }

  /** Sample i of function f is stored at i + f * n. */
  function Slot(f: nat, i: nat): nat {
    i + f * N
  }

  /** Each function owns its own run of n slots: a slot names one function and one sample. */
  lemma SlotsDisjoint(f: nat, i: nat, g: nat, j: nat)
    requires i < N && j < N
    ensures Slot(f, i) == Slot(g, j) <==> f == g && i == j
  {
    if f < g {
      assert Slot(f, i) < (f + 1) * N <= g * N <= Slot(g, j);
    } else if g < f {
      assert Slot(g, j) < (g + 1) * N <= f * N <= Slot(f, i);
    }
  }

  /** Every sample slot of a function below `count` lies inside the array of n * count numbers. */
  lemma SlotInRange(f: nat, i: nat, count: nat)
    requires f < count && i < N
    ensures Slot(f, i) < N * count
    ensures N * (f + 1) == N * f + N <= N * count
  {
  }

  /** The first i numbers one function stores when its samples succeed; Run(.., N) is its whole run. */
  function Run(outer: Env, f: Closure, start: real, end: real, i: nat): (r: seq<real>)
    requires |f.args| > 0
    ensures |r| == i
  {
    if i == 0 then [] else Run(outer, f, start, end, i - 1) + [GraphY(outer, f, start, end, i - 1)]
  }

  /** Position j of a run holds sample j. */
  lemma {:induction false} RunAt(outer: Env, f: Closure, start: real, end: real, i: nat, j: nat)
    requires |f.args| > 0 && j < i
    ensures Run(outer, f, start, end, i)[j] == GraphY(outer, f, start, end, j)
  {
    if j < i - 1 {
      RunAt(outer, f, start, end, i - 1, j);
    }
  }

  /** The whole `points` array when no sample fails: the functions' runs one after the other. */
  function Points(outer: Env, fs: seq<Closure>, start: real, end: real): (p: seq<real>)
    requires HasArguments(fs)
    ensures |p| == N * |fs|
  {
    if fs == [] then []
    else Points(outer, fs[..|fs| - 1], start, end) + Run(outer, fs[|fs| - 1], start, end, N)
  }

  /** Slot (f, i) of Points holds function f's sample i. */
  lemma {:induction false} PointsAtSlot(outer: Env, fs: seq<Closure>, start: real, end: real, f: nat, i: nat)
    requires HasArguments(fs) && f < |fs| && i < N
    ensures Slot(f, i) < N * |fs|
    ensures Points(outer, fs, start, end)[Slot(f, i)] == GraphY(outer, fs[f], start, end, i)
  {
    SlotInRange(f, i, |fs|);
    var last := |fs| - 1;
    var prefix := fs[..last];
    if f < last {
      PointsAtSlot(outer, prefix, start, end, f, i);
      assert prefix[f] == fs[f];
    } else {
      assert |Points(outer, prefix, start, end)| == N * f;
      RunAt(outer, fs[f], start, end, N, i);
    }
  }

  /** The samples hit both ends of the domain exactly. */
  lemma GraphSamplesHitEnds(start: real, end: real)
    ensures GraphX(start, end, 0) == start
    ensures GraphX(start, end, Steps) == end
  {
    SampleEndpoints(start, end, Steps);
  }

  // ---------------------------------------------------------------------------
  // Where the first failing sample is

  /** The first function, from k on, that has a failing sample; |fs| when none has. */
  function FirstFailing(outer: Env, fs: seq<Closure>, start: real, end: real, k: nat): (r: nat)
    requires HasArguments(fs) && k <= |fs|
    ensures k <= r <= |fs|
    decreases |fs| - k
  {
    if k == |fs| || FirstError(outer, fs[k], start, end, Steps, N, 0) < N then k
    else FirstFailing(outer, fs, start, end, k + 1)
  }

  /** Every function before FirstFailing samples without error, and the one it names has a failing sample. */
  lemma {:induction false} FirstFailingSpec(outer: Env, fs: seq<Closure>, start: real, end: real, k: nat)
    requires HasArguments(fs) && k <= |fs|
    ensures forall j :: k <= j < FirstFailing(outer, fs, start, end, k) ==> FirstError(outer, fs[j], start, end, Steps, N, 0) == N
    ensures var r := FirstFailing(outer, fs, start, end, k); r < |fs| ==> FirstError(outer, fs[r], start, end, Steps, N, 0) < N
    decreases |fs| - k
  {
    if k < |fs| && FirstError(outer, fs[k], start, end, Steps, N, 0) == N {
      FirstFailingSpec(outer, fs, start, end, k + 1);
      assert FirstFailing(outer, fs, start, end, k) == FirstFailing(outer, fs, start, end, k + 1);
    }
  }

  /** Conversely, an index with that property is FirstFailing. */
  lemma FirstFailingIs(outer: Env, fs: seq<Closure>, start: real, end: real, k: nat, r: nat)
    requires HasArguments(fs) && k <= r <= |fs|
    requires forall j :: k <= j < r ==> FirstError(outer, fs[j], start, end, Steps, N, 0) == N
    requires r < |fs| ==> FirstError(outer, fs[r], start, end, Steps, N, 0) < N
    ensures FirstFailing(outer, fs, start, end, k) == r
  {
    FirstFailingSpec(outer, fs, start, end, k);
    var q := FirstFailing(outer, fs, start, end, k);
    // Below r every function samples without error, so q is not below r; symmetrically r is not below q.
    assert !(q < r);
    assert !(r < q);
  }

  /** The sample a function's run stops at: its first failing sample. */
  function FailureValue(outer: Env, f: Closure, start: real, end: real): Value
    requires |f.args| > 0
  {
    GraphSample(outer, f, start, end, FirstError(outer, f, start, end, Steps, N, 0))
  }

  /** The reported failure is an error, and every sample before it, in function-then-index order, is a number. */
  lemma FailureIsFirst(outer: Env, fs: seq<Closure>, start: real, end: real, f: nat, i: nat)
    requires HasArguments(fs) && FirstFailing(outer, fs, start, end, 0) < |fs|
    requires var r := FirstFailing(outer, fs, start, end, 0);
      (f < r && i < N) || (f == r && i < FirstError(outer, fs[r], start, end, Steps, N, 0))
    ensures FailureValue(outer, fs[FirstFailing(outer, fs, start, end, 0)], start, end).Error?
    ensures GraphSample(outer, fs[f], start, end, i).Number?
  {
    var r := FirstFailing(outer, fs, start, end, 0);
    FirstFailingSpec(outer, fs, start, end, 0);
    FirstErrorSpec(outer, fs[r], start, end, Steps, N, 0);
    FirstErrorSpec(outer, fs[f], start, end, Steps, N, 0);
    assert GraphSample(outer, fs[f], start, end, i) == ValueAt(outer, fs[f], SampleX(start, end, Steps, i));
  }

  // ---------------------------------------------------------------------------
  // The y range

  /** The running minimum of `min = p < min ? p : min`, started from `seed`. */
  function Lowest(seed: real, p: seq<real>): real {
    if p == [] then seed
    else
      var m := Lowest(seed, p[..|p| - 1]);
      if p[|p| - 1] < m then p[|p| - 1] else m
  }

  /** The running maximum of `max = p > max ? p : max`, started from `seed`. */
  function Highest(seed: real, p: seq<real>): real {
    if p == [] then seed
    else
      var m := Highest(seed, p[..|p| - 1]);
      if p[|p| - 1] > m then p[|p| - 1] else m
  }

  /** Scanning two runs one after the other is scanning the joined run. */
  lemma {:induction false} LowestHighestAppend(seed: real, a: seq<real>, b: seq<real>)
    ensures Lowest(seed, a + b) == Lowest(Lowest(seed, a), b)
    ensures Highest(seed, a + b) == Highest(Highest(seed, a), b)
  {
    if b != [] {
      var last := |b| - 1;
      assert (a + b)[..|a + b| - 1] == a + b[..last];
      assert (a + b)[|a + b| - 1] == b[last];
      LowestHighestAppend(seed, a, b[..last]);
      assert Lowest(seed, a + b) == var m := Lowest(seed, a + b[..last]); if b[last] < m then b[last] else m;
      assert Highest(seed, a + b) == var m := Highest(seed, a + b[..last]); if b[last] > m then b[last] else m;
    } else {
      assert a + b == a;
    }
  }

  /** A prefix is the shorter prefix followed by the run between them. */
  lemma SplitAt(s: seq<real>, b: nat, n: nat)
    requires b + n <= |s|
    ensures s[..b + n] == s[..b] + s[b..b + n]
  {
  }

  /** The running minimum is at most every element and the seed, and is one of them. */
  lemma {:induction false} LowestIsMinimum(seed: real, p: seq<real>)
    ensures Lowest(seed, p) <= seed
    ensures forall k :: 0 <= k < |p| ==> Lowest(seed, p) <= p[k]
    ensures Lowest(seed, p) == seed || exists k :: 0 <= k < |p| && Lowest(seed, p) == p[k]
  {
    if p != [] {
      var last := |p| - 1;
      LowestIsMinimum(seed, p[..last]);
      assert forall k :: 0 <= k < last ==> p[..last][k] == p[k];
      if Lowest(seed, p[..last]) != seed && p[last] >= Lowest(seed, p[..last]) {
        var k :| 0 <= k < last && Lowest(seed, p[..last]) == p[..last][k];
        assert Lowest(seed, p) == p[k];
      }
    }
  }

  /** The running maximum is at least every element and the seed, and is one of them. */
  lemma {:induction false} HighestIsMaximum(seed: real, p: seq<real>)
    ensures Highest(seed, p) >= seed
    ensures forall k :: 0 <= k < |p| ==> Highest(seed, p) >= p[k]
    ensures Highest(seed, p) == seed || exists k :: 0 <= k < |p| && Highest(seed, p) == p[k]
  {
    if p != [] {
      var last := |p| - 1;
      HighestIsMaximum(seed, p[..last]);
      assert forall k :: 0 <= k < last ==> p[..last][k] == p[k];
      if Highest(seed, p[..last]) != seed && p[last] <= Highest(seed, p[..last]) {
        var k :| 0 <= k < last && Highest(seed, p[..last]) == p[..last][k];
        assert Highest(seed, p) == p[k];
      }
    }
  }

  /** The y range of a graph: -20 for both ends when there are no functions, else seeded from the first sample. */
  function YRange(p: seq<real>): (real, real) {
    if p == [] then (-20.0, -20.0) else (Lowest(p[0], p), Highest(p[0], p))
  }

  /** Seeded from the first sample, the range is exactly the least and the greatest sample. */
  lemma YRangeIsExtremes(p: seq<real>)
    requires p != []
    ensures forall k :: 0 <= k < |p| ==> YRange(p).0 <= p[k] <= YRange(p).1
    ensures exists k :: 0 <= k < |p| && YRange(p).0 == p[k]
    ensures exists k :: 0 <= k < |p| && YRange(p).1 == p[k]
  {
    LowestIsMinimum(p[0], p);
    HighestIsMaximum(p[0], p);
  }

  // ---------------------------------------------------------------------------
  // The pixel map

  /** Sample i is drawn at x = leftPad + i / (n - 1) * (w - leftPad). */
  function SvgX(i: nat): real {
    LeftPad + (i as real / Steps as real) * (Width - LeftPad)
  }

  /** A sample y is drawn at topPad + (h - bottomPad - topPad) * (1 - (y - min) / (max - min)); a zero range gives NaN. */
  function SvgY(y: real, lo: real, hi: real): Coord {
    if hi - lo == 0.0 then NonFinite
    else Finite(TopPad + (Height - BottomPad - TopPad) * (1.0 - (y - lo) / (hi - lo)))
  }

  /** The samples run from the left pad to the right edge, left to right in sample order. */
  lemma SvgXRange(i: nat, j: nat)
    requires i < j < N
    ensures SvgX(0) == LeftPad && SvgX(Steps) == Width
    ensures LeftPad <= SvgX(i) < SvgX(j) <= Width
  {
    var ti := i as real / Steps as real;
    var tj := j as real / Steps as real;
    assert 0.0 <= ti < tj <= 1.0;
  }

  /**
   * The greatest sample is drawn on the top pad, the least on the bottom
   * pad, every sample in between inside the box, and a larger sample higher.
   */
  lemma SvgYRange(y: real, z: real, lo: real, hi: real)
    requires lo < hi && lo <= y < z <= hi
    ensures SvgY(hi, lo, hi) == Finite(TopPad)
    ensures SvgY(lo, lo, hi) == Finite(Height - BottomPad)
    ensures TopPad <= SvgY(z, lo, hi).v < SvgY(y, lo, hi).v <= Height - BottomPad
  {
    var span := hi - lo;
    assert (hi - lo) / span == 1.0;
    assert (lo - lo) / span == 0.0;
    var u := (y - lo) / span;
    var v := (z - lo) / span;
    assert 0.0 <= u < v <= 1.0 by {
      assert u * span == y - lo;
      assert v * span == z - lo;
    }
  }

  /** The stroke of function f of `count`: its hue and its n pixel points. */
  function SvgStroke(p: seq<real>, f: nat, count: nat, lo: real, hi: real): Stroke
    requires f < count && |p| == N * count
  {
    SlotInRange(f, 0, count);
    Stroke(Hue(f, count), seq(N, i requires 0 <= i < N => ScreenPoint(Finite(SvgX(i)), SvgY(p[i + f * N], lo, hi))))
  }

  /** One stroke per function, in order. */
  function SvgStrokes(p: seq<real>, count: nat, lo: real, hi: real): seq<Stroke>
    requires |p| == N * count
  {
    seq(count, f requires 0 <= f < count => SvgStroke(p, f, count, lo, hi))
  }

  /** The graph drawn when every sample succeeds. */
  function GraphChart(outer: Env, fs: seq<Closure>, start: real, end: real, i: nat): Chart
    requires HasArguments(fs)
  {
    var p := Points(outer, fs, start, end);
    var (lo, hi) := YRange(p);
    Chart("graph-" + NatToString(i), SvgStrokes(p, |fs|, lo, hi), lo, hi, start, end)
  }

  /**
   * When every sample succeeds, every drawn point of every stroke lies in
   * the pixel box [leftPad, w] x [topPad, h - bottomPad], and each function
   * has its own hue.
   */
  lemma ChartInsideBox(outer: Env, fs: seq<Closure>, start: real, end: real, id: nat, f: nat, i: nat)
    requires HasArguments(fs) && f < |fs| && i < N
    requires var p := Points(outer, fs, start, end); YRange(p).0 < YRange(p).1
    ensures var c := GraphChart(outer, fs, start, end, id);
      |c.strokes| == |fs| && |c.strokes[f].points| == N &&
      LeftPad <= c.strokes[f].points[i].x.v <= Width &&
      c.strokes[f].points[i].y.Finite? &&
      TopPad <= c.strokes[f].points[i].y.v <= Height - BottomPad
  {
    var p := Points(outer, fs, start, end);
    var (lo, hi) := YRange(p);
    YRangeIsExtremes(p);
    SlotInRange(f, i, |fs|);
    var y := p[Slot(f, i)];
    assert lo <= y <= hi;
    if i < Steps {
      SvgXRange(i, Steps);
    } else {
      SvgXRange(0, i);
    }
    if y < hi {
      SvgYRange(y, hi, lo, hi);
    } else {
      SvgYRange(lo, hi, lo, hi);
    }
  }

  // ---------------------------------------------------------------------------
  // The imperative graph routine

  /** The stack a sample's body runs on: the program's frames, the capture frame, the per-sample frame. */
  lemma StackOnOuter(outerFrames: seq<Frame>, outerCells: seq<real>, f: Closure, cell: nat, cells: seq<real>)
    requires FramesValid(outerFrames, |outerCells|)
    requires |outerCells| <= |cells| && cells[..|outerCells|] == outerCells
    requires |f.args| > 0 && cell < |cells|
    ensures FramesValid(outerFrames + [CaptureBindings(f.captures)[f.args[0] := CellRef(cell)], map[]], |cells|)
    ensures Resolve(outerFrames + [CaptureBindings(f.captures)[f.args[0] := CellRef(cell)], map[]], cells)
         == SampleEnv(Resolve(outerFrames, outerCells), f, cells[cell])
  {
    var argFrame := CaptureBindings(f.captures)[f.args[0] := CellRef(cell)];
    var empty: Frame := map[];
    ResolveIgnoresLaterCells(outerFrames, outerCells, cells);
    ResolveCaptureFrame(f.captures, f.args[0], cell, cells);
    ResolveSnoc(outerFrames, argFrame, cells);
    ResolveSnoc(outerFrames + [argFrame], empty, cells);
    assert ResolveFrame(empty, cells) == map[];
    assert outerFrames + [argFrame] + [empty] == outerFrames + [argFrame, empty];
  }

  /**
   * One sample: the argument cell is overwritten with x (never redeclared),
   * and the body runs in a frame pushed on top of the function's frame and
   * popped afterwards.
   */
  method RunSample(vars: Scope, func: Closure, fRef: nat, x: real, ghost outerFrames: seq<Frame>, ghost outerCells: seq<real>)
    returns (num: Value)
    requires vars.Valid() && |func.args| > 0 && |outerCells| <= fRef < |vars.cells| && FramesValid(outerFrames, |outerCells|)
    requires |outerCells| <= |vars.cells| && vars.cells[..|outerCells|] == outerCells
    requires vars.frames == outerFrames + [CaptureBindings(func.captures)[func.args[0] := CellRef(fRef)]]
    modifies vars
    ensures vars.Valid() && vars.frames == old(vars.frames) && vars.cells == old(vars.cells)[fRef := x]
    ensures vars.cells[..|outerCells|] == outerCells
    ensures num == ValueAt(Resolve(outerFrames, outerCells), func, x)
  {
    vars.SetCell(fRef, x);
    vars.PushStackFrame();
    assert vars.cells[..|outerCells|] == outerCells;
    StackOnOuter(outerFrames, outerCells, func, fRef, vars.cells);
    assert vars.frames == outerFrames + [CaptureBindings(func.captures)[func.args[0] := CellRef(fRef)], map[]];
    num := func.body(vars.Env());
    vars.PopStackFrame();
  }

  /**
   * The sampling of one function into the slots from `base` on: push a
   * frame, declare the captures and the argument (one number cell), then for
   * each of the n samples set the cell, run the body and store the number.
   * The first error returns at once, leaving the function's frame on the
   * stack; otherwise the frame is popped. No other slot changes.
   */
  method SampleInto(vars: Scope, func: Closure, base: nat, points: array<real>, start: real, end: real,
                    ghost outerFrames: seq<Frame>, ghost outerCells: seq<real>)
    returns (err: Option<Value>)
    requires vars.Valid() && |func.args| > 0 && base + N <= points.Length
    requires vars.frames == outerFrames && FramesValid(outerFrames, |outerCells|)
    requires |outerCells| <= |vars.cells| && vars.cells[..|outerCells|] == outerCells
    modifies vars, points
    ensures vars.Valid() && |outerCells| <= |vars.cells| && vars.cells[..|outerCells|] == outerCells
    ensures err.None? <==> FirstError(Resolve(outerFrames, outerCells), func, start, end, Steps, N, 0) == N
    ensures err.Some? ==> err.value == FailureValue(Resolve(outerFrames, outerCells), func, start, end)
    ensures err.None? ==> vars.frames == outerFrames
    ensures err.Some? ==> |vars.frames| == |outerFrames| + 1 && vars.frames[..|outerFrames|] == outerFrames
    ensures points[..base] == old(points[..base]) && points[base + N..] == old(points[base + N..])
    ensures err.None? ==> points[base..base + N] == Run(Resolve(outerFrames, outerCells), func, start, end, N)
  {
    ghost var outer := Resolve(outerFrames, outerCells);
    vars.PushStackFrame();
    vars.DeclareCaptures(func.captures);
    var fRef := vars.NewCell(0.0);
    vars.Declare(func.args[0], CellRef(fRef));
    assert vars.cells[..|outerCells|] == outerCells;

    var i := 0;
    while i < N
      invariant 0 <= i <= N
      invariant vars.Valid() && |outerCells| <= fRef < |vars.cells|
      invariant vars.cells[..|outerCells|] == outerCells
      invariant vars.frames == outerFrames + [CaptureBindings(func.captures)[func.args[0] := CellRef(fRef)]]
      invariant FirstError(outer, func, start, end, Steps, N, i) == FirstError(outer, func, start, end, Steps, N, 0)
      invariant points[..base] == old(points[..base]) && points[base + N..] == old(points[base + N..])
      invariant points[base..base + i] == Run(outer, func, start, end, i)
    {
      var x := Lerp(start, end, i as real / Steps as real);
      var num := RunSample(vars, func, fRef, x, outerFrames, outerCells);
      if num.Error? {
        assert vars.frames[..|outerFrames|] == outerFrames;
        err := Some(num);
        return;
      }
      points[base + i] := num.val;
      assert points[base..base + i + 1] == points[base..base + i] + [num.val];
      i := i + 1;
    }
    vars.PopStackFrame();
    err := None;
  }

  /** The min/max pass over one function's slots, continuing the running range. */
  method ScanRange(points: array<real>, from: nat, to: nat, lo: real, hi: real) returns (min: real, max: real)
    requires from <= to <= points.Length
    ensures min == Lowest(lo, points[from..to]) && max == Highest(hi, points[from..to])
  {
    min, max := lo, hi;
    var j := from;
    while j < to
      invariant from <= j <= to
      invariant min == Lowest(lo, points[from..j]) && max == Highest(hi, points[from..j])
    {
      assert points[from..j + 1][..j - from] == points[from..j];
      min := if points[j] < min then points[j] else min;
      max := if points[j] > max then points[j] else max;
      j := j + 1;
    }
  }

  /** One stroke: the n samples of function f mapped into the pixel box. */
  method DrawStroke(points: array<real>, f: nat, count: nat, lo: real, hi: real) returns (stroke: Stroke)
    requires f < count && points.Length == N * count
    ensures stroke == SvgStroke(points[..], f, count, lo, hi)
  {
    SlotInRange(f, 0, count);
    var path: seq<ScreenPoint> := [];
    var i := 0;
    while i < N
      invariant 0 <= i <= N && |path| == i
      invariant forall k :: 0 <= k < i ==> path[k] == ScreenPoint(Finite(SvgX(k)), SvgY(points[k + f * N], lo, hi))
    {
      var x := LeftPad + (i as real / Steps as real) * (Width - LeftPad);
      var y := SvgY(points[i + f * N], lo, hi);
      path := path + [ScreenPoint(Finite(x), y)];
      i := i + 1;
    }
    stroke := Stroke(Hue(f, count), path);
  }

  /** The drawing loop: one stroke per function, in order. */
  method DrawStrokes(points: array<real>, count: nat, lo: real, hi: real) returns (strokes: seq<Stroke>)
    requires points.Length == N * count
    ensures strokes == SvgStrokes(points[..], count, lo, hi)
  {
    strokes := [];
    var f := 0;
    while f < count
      invariant 0 <= f <= count && |strokes| == f
      invariant forall k :: 0 <= k < f ==> strokes[k] == SvgStroke(points[..], k, count, lo, hi)
    {
      var stroke := DrawStroke(points, f, count, lo, hi);
      strokes := strokes + [stroke];
      f := f + 1;
    }
  }

  lemma PointsStep(outer: Env, fs: seq<Closure>, start: real, end: real, k: nat, s: seq<real>)
    requires HasArguments(fs) && k < |fs| && N * k + N <= |s|
    requires s[..N * k] == Points(outer, fs[..k], start, end)
    requires s[N * k..N * k + N] == Run(outer, fs[k], start, end, N)
    ensures s[..N * k + N] == Points(outer, fs[..k + 1], start, end)
  {
    SplitAt(s, N * k, N);
    var prefix := fs[..k + 1];
    assert prefix[..|prefix| - 1] == fs[..k] && prefix[|prefix| - 1] == fs[k];
    assert Points(outer, prefix, start, end) == Points(outer, fs[..k], start, end) + Run(outer, fs[k], start, end, N);
  }

  /** Continuing the running range over the next run gives the range of the longer prefix. */
  lemma RangeStep(s: seq<real>, b: nat, lo: real, hi: real)
    requires b + N <= |s|
    requires b == 0 ==> lo == s[0] && hi == s[0]
    requires b > 0 ==> (lo, hi) == YRange(s[..b])
    ensures (Lowest(lo, s[b..b + N]), Highest(hi, s[b..b + N])) == YRange(s[..b + N])
  {
    SplitAt(s, b, N);
    LowestHighestAppend(s[0], s[..b], s[b..b + N]);
  }

  /**
   * One round of the sampling loop: function fIndex is sampled into its
   * slots, then the running range is continued over them (seeded from the
   * first sample on the first round).
   */
  method SampleStep(vars: Scope, fs: seq<Closure>, fIndex: nat, base: nat, points: array<real>,
                    start: real, end: real, min: real, max: real,
                    ghost outerFrames: seq<Frame>, ghost outerCells: seq<real>, ghost outer: Env)
    returns (err: Option<Value>, newMin: real, newMax: real)
    requires HasArguments(fs) && fIndex < |fs| && base == N * fIndex && points.Length == N * |fs|
    requires vars.Valid() && vars.frames == outerFrames && FramesValid(outerFrames, |outerCells|)
    requires |outerCells| <= |vars.cells| && vars.cells[..|outerCells|] == outerCells
    requires outer == Resolve(outerFrames, outerCells)
    requires points[..base] == Points(outer, fs[..fIndex], start, end)
    requires fIndex > 0 ==> (min, max) == YRange(points[..base])
    modifies vars, points
    ensures base + N == N * (fIndex + 1) <= points.Length
    ensures vars.Valid() && |outerCells| <= |vars.cells| && vars.cells[..|outerCells|] == outerCells
    ensures err.None? <==> FirstError(outer, fs[fIndex], start, end, Steps, N, 0) == N
    ensures err.Some? ==> err.value == FailureValue(outer, fs[fIndex], start, end)
    ensures err.Some? ==> FirstFailing(outer, fs, start, end, fIndex) == fIndex
    ensures err.None? ==> FirstFailing(outer, fs, start, end, fIndex) == FirstFailing(outer, fs, start, end, fIndex + 1)
    ensures err.None? ==> points[..base + N] == Points(outer, fs[..fIndex + 1], start, end)
    ensures err.None? ==> (newMin, newMax) == YRange(points[..base + N])
    ensures err.None? ==> vars.frames == outerFrames
    ensures err.Some? ==> |vars.frames| == |outerFrames| + 1 && vars.frames[..|outerFrames|] == outerFrames
  {
    SlotInRange(fIndex, 0, |fs|);
    newMin, newMax := min, max;
    err := SampleInto(vars, fs[fIndex], base, points, start, end, outerFrames, outerCells);
    if err.Some? {
      return;
    }
    PointsStep(outer, fs, start, end, fIndex, points[..]);
    newMin, newMax := ExtendRange(points, base, min, max);
  }

  /**
   * The running y range carried over one more function's N samples: the
   * first function's scan starts from its own first sample (the reset at
   * index 0), later ones from the range so far.
   */
  method ExtendRange(points: array<real>, base: nat, min: real, max: real) returns (newMin: real, newMax: real)
    requires base + N <= points.Length
    requires base > 0 ==> (min, max) == YRange(points[..base])
    ensures (newMin, newMax) == YRange(points[..base + N])
  {
    var lo, hi := min, max;
    if base == 0 {
      lo, hi := points[0], points[0];
    }
    ghost var s := points[..];
    assert s[..base] == points[..base] && s[base..base + N] == points[base..base + N];
    assert s[..base + N] == points[..base + N];
    RangeStep(s, base, lo, hi);
    newMin, newMax := ScanRange(points, base, base + N, lo, hi);
  }

  /** The sampling loop over all functions, with the running y range; None when a sample fails. */
  method SampleAll(vars: Scope, fs: seq<Closure>, start: real, end: real, points: array<real>)
    returns (err: Option<Value>, min: real, max: real)
    requires vars.Valid() && HasArguments(fs) && points.Length == N * |fs|
    modifies vars, points
    ensures vars.Valid()
    ensures var outer := old(vars.Env());
      var r := FirstFailing(outer, fs, start, end, 0);
      (err.Some? <==> r < |fs|) &&
      (err.Some? ==> err.value == FailureValue(outer, fs[r], start, end)) &&
      (err.None? ==> points[..] == Points(outer, fs, start, end) && (min, max) == YRange(points[..]))
    ensures err.None? ==> vars.frames == old(vars.frames)
    ensures err.Some? ==> |vars.frames| == old(|vars.frames|) + 1 && vars.frames[..old(|vars.frames|)] == old(vars.frames)
  {
    ghost var outerFrames := vars.frames;
    ghost var outerCells := vars.cells;
    ghost var outer := Resolve(outerFrames, outerCells);
    min, max := -20.0, -20.0;
    var fIndex := 0;
    var base := 0;
    while fIndex < |fs|
      invariant 0 <= fIndex <= |fs| && base == N * fIndex && base <= points.Length
      invariant vars.Valid() && vars.frames == outerFrames
      invariant |outerCells| <= |vars.cells| && vars.cells[..|outerCells|] == outerCells
      invariant FirstFailing(outer, fs, start, end, fIndex) == FirstFailing(outer, fs, start, end, 0)
      invariant points[..base] == Points(outer, fs[..fIndex], start, end)
      invariant fIndex == 0 ==> min == -20.0 && max == -20.0
      invariant fIndex > 0 ==> (min, max) == YRange(points[..base])
    {
      err, min, max := SampleStep(vars, fs, fIndex, base, points, start, end, min, max, outerFrames, outerCells, outer);
      if err.Some? {
        return;
      }
      fIndex := fIndex + 1;
      base := base + N;
    }
    assert fs[..fIndex] == fs;
    err := None;
  }

  /**
   * graph: an error value is printed instead. Otherwise every function is
   * sampled n times into one array and the global y range taken; the first
   * failing sample prints "An error occurred while graphing" and ends the
   * routine, with that function's frame still on the stack. When all
   * samples succeed, one stroke per function is drawn into the pixel box
   * and the chart is shown under `graph of <names>`.
   */
  method Graph(vars: Scope, result: GraphRequest, i: nat) returns (shown: Titled)
    requires vars.Valid() && HasArguments(result.functions)
    modifies vars
    ensures vars.Valid()
    ensures result.val.Some? && result.val.value.Error? ==>
      shown == Print(result.title, result.val.value, i) && vars.frames == old(vars.frames)
    ensures !(result.val.Some? && result.val.value.Error?) ==>
      var outer := old(vars.Env());
      var fs := result.functions;
      if FirstFailing(outer, fs, result.start, result.end, 0) < |fs| then
        shown == Print(Some(GraphingErrorTitle), FailureValue(outer, fs[FirstFailing(outer, fs, result.start, result.end, 0)], result.start, result.end), 0) &&
        |vars.frames| == old(|vars.frames|) + 1 && vars.frames[..old(|vars.frames|)] == old(vars.frames)
      else
        shown == WrapInTitle(GraphTitle(fs), Svg(GraphChart(outer, fs, result.start, result.end, i))) &&
        vars.frames == old(vars.frames)
  {
    if result.val.Some? && result.val.value.Error? {
      shown := Print(result.title, result.val.value, i);
      return;
    }
    var fs := result.functions;
    var domainStart := result.start;
    var domainEnd := result.end;
    var points := new real[N * |fs|];
    var err, min, max := SampleAll(vars, fs, domainStart, domainEnd, points);
    if err.Some? {
      shown := Print(Some(GraphingErrorTitle), err.value, 0);
      return;
    }
    var strokes := DrawStrokes(points, |fs|, min, max);
    shown := WrapInTitle(GraphTitle(fs), Svg(Chart("graph-" + NatToString(i), strokes, min, max, domainStart, domainEnd)));
  }
}
