/**
 * The function sampler (evaluateFunction): runs a one-argument function
 * value at evenly spaced points of a domain and streams each (x, y, i)
 * sample to the caller, stopping at the first evaluation error.
 */
module Sampler {
  import opened Values
  import opened Scopes

  /** Linear interpolation: t = 0 gives a, t = 1 gives b. */
  function Lerp(a: real, b: real, t: real): real {
    a + (b - a) * t
  }

  /** Domain value of sample i when [start, end] is cut into `denom` equal steps. */
  function SampleX(start: real, end: real, denom: nat, i: nat): real
    requires denom > 0
  {
    Lerp(start, end, i as real / denom as real)
  }

  /**
   * The stack a body sees while one sample runs: the caller's frames, the
   * capture frame with the argument bound to x, and the empty per-sample frame.
   */
  function SampleEnv(outer: Env, f: Closure, x: real): Env
    requires |f.args| > 0
  {
    outer + [CaptureValues(f.captures)[f.args[0] := Number(x)], map[]]
  }

  /** What the body of `f` yields at domain value x, run on top of `outer`. */
  function ValueAt(outer: Env, f: Closure, x: real): Value
    requires |f.args| > 0
  {
    f.body(SampleEnv(outer, f, x))
  }

  /** Index of the first failing sample among k .. count-1, or count when none fails. */
  function FirstError(outer: Env, f: Closure, start: real, end: real, denom: nat, count: nat, k: nat): (r: nat)
    requires denom > 0 && |f.args| > 0 && k <= count
    ensures k <= r <= count
    decreases count - k
  {
    if k == count || ValueAt(outer, f, SampleX(start, end, denom, k)).Error? then k
    else FirstError(outer, f, start, end, denom, count, k + 1)
  }

  /** Every sample before FirstError is a number, and the one it names is an error. */
  lemma {:induction false} FirstErrorSpec(outer: Env, f: Closure, start: real, end: real, denom: nat, count: nat, k: nat)
    requires denom > 0 && |f.args| > 0 && k <= count
    ensures forall j :: k <= j < FirstError(outer, f, start, end, denom, count, k) ==>
      ValueAt(outer, f, SampleX(start, end, denom, j)).Number?
    ensures var r := FirstError(outer, f, start, end, denom, count, k);
      r < count ==> ValueAt(outer, f, SampleX(start, end, denom, r)).Error?
    decreases count - k
  {
    if k < count && ValueAt(outer, f, SampleX(start, end, denom, k)).Number? {
      FirstErrorSpec(outer, f, start, end, denom, count, k + 1);
      assert FirstError(outer, f, start, end, denom, count, k) == FirstError(outer, f, start, end, denom, count, k + 1);
    }
  }

  /** FirstError is determined by where the samples stop being numbers. */
  lemma {:induction false} FirstErrorIs(outer: Env, f: Closure, start: real, end: real, denom: nat, count: nat, k: nat, r: nat)
    requires denom > 0 && |f.args| > 0 && k <= r <= count
    requires forall j :: k <= j < r ==> ValueAt(outer, f, SampleX(start, end, denom, j)).Number?
    requires r < count ==> ValueAt(outer, f, SampleX(start, end, denom, r)).Error?
    ensures FirstError(outer, f, start, end, denom, count, k) == r
    decreases r - k
  {
    if k < r {
      assert ValueAt(outer, f, SampleX(start, end, denom, k)).Number?;
      FirstErrorIs(outer, f, start, end, denom, count, k + 1, r);
    }
  }

  /** One callback invocation: evalFn(x, y, i). */
  datatype Call = Call(x: real, y: real, i: nat)

  /** The callbacks a run makes: one per sample before the first failure, in increasing i. */
  function Calls(outer: Env, f: Closure, start: real, end: real, denom: nat, count: nat): (cs: seq<Call>)
    requires denom > 0 && |f.args| > 0
  {
    var m := FirstError(outer, f, start, end, denom, count, 0);
    FirstErrorSpec(outer, f, start, end, denom, count, 0);
    seq(m, k requires 0 <= k < m =>
      Call(SampleX(start, end, denom, k), ValueAt(outer, f, SampleX(start, end, denom, k)).val, k))
  }

  /** A list of callbacks that follows the samples up to the first failure is exactly Calls. */
  lemma CallsAre(outer: Env, f: Closure, start: real, end: real, denom: nat, count: nat, cs: seq<Call>)
    requires denom > 0 && |f.args| > 0
    requires |cs| == FirstError(outer, f, start, end, denom, count, 0)
    requires forall k :: 0 <= k < |cs| ==>
      (ValueAt(outer, f, SampleX(start, end, denom, k)).Number? &&
       cs[k] == Call(SampleX(start, end, denom, k), ValueAt(outer, f, SampleX(start, end, denom, k)).val, k))
    ensures cs == Calls(outer, f, start, end, denom, count)
  {
  }

  /**
   * While a sample runs, the stack holds the capture frame (argument bound
   * to the cell) under the per-sample frame; it shows the sample's env.
   */
  lemma SampleStack(f: Closure, cell: nat, cells: seq<real>)
    requires |f.args| > 0 && cell < |cells|
    ensures FramesValid([CaptureBindings(f.captures)[f.args[0] := CellRef(cell)], map[]], |cells|)
    ensures Resolve([CaptureBindings(f.captures)[f.args[0] := CellRef(cell)], map[]], cells)
         == SampleEnv([], f, cells[cell])
  {
    var argFrame := CaptureBindings(f.captures)[f.args[0] := CellRef(cell)];
    var shown := CaptureValues(f.captures)[f.args[0] := Number(cells[cell])];
    ResolveCaptureFrame(f.captures, f.args[0], cell, cells);
    assert ResolveFrame(argFrame, cells) == shown;
    var empty: Frame := map[];
    assert ResolveFrame(empty, cells) == map[];
    var stack := [argFrame, empty];
    assert stack[..1] == [argFrame];
    assert [argFrame][..0] == [];
    assert Resolve([argFrame], cells) == [shown];
    assert Resolve(stack, cells) == [shown, map[]];
  }

  /** One sample: set the argument cell to x and run the body in its own pushed and popped frame. */
  method RunAt(vars: Scope, func: Closure, fRef: nat, x: real, ghost argFrame: Frame) returns (num: Value)
    requires vars.Valid() && |func.args| > 0 && fRef < |vars.cells|
    requires argFrame == CaptureBindings(func.captures)[func.args[0] := CellRef(fRef)]
    requires vars.frames == [argFrame]
    modifies vars
    ensures vars.Valid() && vars.frames == [argFrame] && vars.cells == old(vars.cells)[fRef := x]
    ensures num == ValueAt([], func, x)
  {
    vars.SetCell(fRef, x);
    vars.PushStackFrame();
    assert vars.frames == [argFrame, map[]];
    SampleStack(func, fRef, vars.cells);
    num := func.body(vars.Env());
    vars.PopStackFrame();
  }

  /**
   * evaluateFunction: n = subdivisions + 2, samples i = 0 .. n at
   * x = lerp(start, end, i / n). The capture frame is pushed once and the
   * argument declared once as a number cell; each sample overwrites that
   * cell and runs the body inside its own pushed and popped frame. The first
   * error is returned at once; the callbacks already made stand.
   */
  method EvaluateFunction(func: Closure, domainStart: real, domainEnd: real, subdivisions: nat)
    returns (err: Option<Value>, calls: seq<Call>)
    requires |func.args| > 0
    ensures calls == Calls([], func, domainStart, domainEnd, subdivisions + 2, subdivisions + 3)
    ensures |calls| <= subdivisions + 3
    ensures err.None? <==> |calls| == subdivisions + 3
    ensures err.Some? ==> err.value.Error?
    ensures err.Some? ==> err.value == ValueAt([], func, SampleX(domainStart, domainEnd, subdivisions + 2, |calls|))
  {
    var n := subdivisions + 2;
    var vars := new Scope();
    vars.PushStackFrame();
    vars.DeclareCaptures(func.captures);
    var fRef := vars.NewCell(0.0);
    vars.Declare(func.args[0], CellRef(fRef));
    ghost var argFrame := CaptureBindings(func.captures)[func.args[0] := CellRef(fRef)];

    calls := [];
    var i := 0;
    while i <= n
      invariant 0 <= i <= n + 1 && |calls| == i
      invariant vars.Valid() && fRef < |vars.cells|
      invariant vars.frames == [argFrame]
      invariant forall k :: 0 <= k < i ==>
        (ValueAt([], func, SampleX(domainStart, domainEnd, n, k)).Number? &&
         calls[k] == Call(SampleX(domainStart, domainEnd, n, k), ValueAt([], func, SampleX(domainStart, domainEnd, n, k)).val, k))
    {
      var domainX := SampleX(domainStart, domainEnd, n, i);
      var num := RunAt(vars, func, fRef, domainX, argFrame);
      if num.Error? {
        FirstErrorIs([], func, domainStart, domainEnd, n, n + 1, 0, i);
        CallsAre([], func, domainStart, domainEnd, n, n + 1, calls);
        err := Some(num);
        return;
      }
      calls := calls + [Call(domainX, num.val, i)];
      i := i + 1;
    }
    vars.PopStackFrame();
    FirstErrorIs([], func, domainStart, domainEnd, n, n + 1, 0, n + 1);
    CallsAre([], func, domainStart, domainEnd, n, n + 1, calls);
    err := None;
  }

  /** The first sample is at the start of the domain and sample `denom` at its end. */
  lemma SampleEndpoints(start: real, end: real, denom: nat)
    requires denom > 0
    ensures SampleX(start, end, denom, 0) == start
    ensures SampleX(start, end, denom, denom) == end
  {
  }

  /** Consecutive samples are one step of (end - start) / denom apart. */
  lemma SampleSpacing(start: real, end: real, denom: nat, i: nat)
    requires denom > 0
    ensures SampleX(start, end, denom, i + 1) - SampleX(start, end, denom, i) == (end - start) / denom as real
  {
  }

  /** On an increasing domain the samples increase with i and never leave [start, end]. */
  lemma SamplesOrdered(start: real, end: real, denom: nat, i: nat, j: nat)
    requires denom > 0 && start <= end && i <= j <= denom
    ensures start <= SampleX(start, end, denom, i) <= SampleX(start, end, denom, j) <= end
  {
    var d := denom as real;
    QuotientsOrdered(i as real, j as real, d);
    QuotientsOrdered(j as real, d, d);
    SelfQuotient(d);
    LerpOrdered(start, end, i as real / d, j as real / d);
  }

  /** Interpolating an increasing interval is increasing in t and stays within it for t in [0, 1]. */
  lemma LerpOrdered(a: real, b: real, s: real, t: real)
    requires a <= b && 0.0 <= s <= t <= 1.0
    ensures a <= Lerp(a, b, s) <= Lerp(a, b, t) <= b
  {
    ScaleOrdered(b - a, 0.0, s);
    ScaleOrdered(b - a, s, t);
    ScaleOrdered(b - a, t, 1.0);
  }

  /** Dividing by a positive number keeps the order of non-negative numbers. */
  lemma QuotientsOrdered(a: real, b: real, d: real)
    requires 0.0 <= a <= b && d > 0.0
    ensures 0.0 <= a / d <= b / d
  {
    assert b / d - a / d == (b - a) / d;
  }

  /** A positive number divided by itself is one. */
  lemma SelfQuotient(d: real)
    requires d > 0.0
    ensures d / d == 1.0
  {
  }

  /** Multiplying by a non-negative number keeps the order. */
  lemma ScaleOrdered(c: real, s: real, t: real)
    requires c >= 0.0 && s <= t
    ensures c * s <= c * t
  {
    assert c * t - c * s == c * (t - s);
  }

  /** A zero-length domain samples its single point every time. */
  lemma DegenerateDomain(start: real, denom: nat, i: nat)
    requires denom > 0
    ensures SampleX(start, start, denom, i) == start
  {
  }

  /** Shifting the domain by a pan offset shifts every sample by the same amount. */
  lemma SamplesShiftWithDomain(start: real, end: real, offset: real, denom: nat, i: nat)
    requires denom > 0
    ensures SampleX(start + offset, end + offset, denom, i) == SampleX(start, end, denom, i) + offset
  {
  }
}
