/**
 * The evaluator's variable stack, as far as the plotting code uses it:
 * push and pop a frame, declare a name in the innermost frame, and number
 * cells (makeNumber) that a declared name can refer to and that the caller
 * mutates in place. Running a function body is an oracle over the stack.
 */
module Scopes {
  import opened Values

  /** A declared name holds a value outright, or refers to a mutable number cell. */
  datatype Binding = Held(value: Value) | CellRef(cell: nat)

  type Frame = map<string, Binding>

  /** The stack as the evaluator reads it: frames outermost first, cells read through. */
  type Env = seq<map<string, Value>>

  /**
   * A function value as the language produces it: its name, its parameter
   * names, the (name, value) pairs it captured, and its body. Running the
   * body is not part of this model; it is the oracle `body`, which sees the
   * whole scope stack and yields a number or an error.
   */
  datatype Closure = Closure(name: string, args: seq<string>, captures: seq<(string, Value)>, body: Env -> Value)

  predicate FrameValid(f: Frame, cellCount: nat) {
    forall name :: name in f && f[name].CellRef? ==> f[name].cell < cellCount
  }

  predicate FramesValid(frames: seq<Frame>, cellCount: nat) {
    forall i :: 0 <= i < |frames| ==> FrameValid(frames[i], cellCount)
  }

  function ResolveFrame(f: Frame, cells: seq<real>): map<string, Value>
    requires FrameValid(f, |cells|)
  {
    map name | name in f :: if f[name].Held? then f[name].value else Number(cells[f[name].cell])
  }

  function Resolve(frames: seq<Frame>, cells: seq<real>): (env: Env)
    requires FramesValid(frames, |cells|)
    ensures |env| == |frames|
  {
    if frames == [] then []
    else Resolve(frames[..|frames| - 1], cells) + [ResolveFrame(frames[|frames| - 1], cells)]
  }

  /** The frame that declaring the captures one after the other builds from an empty frame. */
  function CaptureBindings(captures: seq<(string, Value)>): (f: Frame)
    ensures forall name :: name in f ==> f[name].Held?
    ensures forall k :: 0 <= k < |captures| ==> captures[k].0 in f
  {
    if captures == [] then map[]
    else
      var last := captures[|captures| - 1];
      CaptureBindings(captures[..|captures| - 1])[last.0 := Held(last.1)]
  }

  /**
   * The capture frame declares exactly the captured names, and each name
   * holds the value of its last capture: a later declaration of the same
   * name overwrites an earlier one.
   */
  lemma {:induction false} CaptureBindingsExact(captures: seq<(string, Value)>)
    ensures forall name :: name in CaptureBindings(captures) <==>
      exists k :: 0 <= k < |captures| && captures[k].0 == name
    ensures forall k :: 0 <= k < |captures| && (forall j :: k < j < |captures| ==> captures[j].0 != captures[k].0) ==>
      CaptureBindings(captures)[captures[k].0] == Held(captures[k].1)
  {
    if captures != [] {
      var n := |captures| - 1;
      var init := captures[..n];
      CaptureBindingsExact(init);
      assert forall k :: 0 <= k < n ==> init[k] == captures[k];
      var f := CaptureBindings(captures);
      forall name
        ensures name in f <==> exists k :: 0 <= k < |captures| && captures[k].0 == name
      {
        if name in f && name != captures[n].0 {
          var k :| 0 <= k < n && init[k].0 == name;
          assert captures[k].0 == name;
        }
      }
    }
  }

  /** The values the captured names have inside the function's scope. */
  function CaptureValues(captures: seq<(string, Value)>): map<string, Value> {
    var f := CaptureBindings(captures);
    map name | name in f :: f[name].value
  }

  lemma ResolveSnoc(frames: seq<Frame>, f: Frame, cells: seq<real>)
    requires FramesValid(frames, |cells|) && FrameValid(f, |cells|)
    ensures FramesValid(frames + [f], |cells|)
    ensures Resolve(frames + [f], cells) == Resolve(frames, cells) + [ResolveFrame(f, cells)]
  {
    assert (frames + [f])[..|frames|] == frames;
  }

  /** Cells added or changed beyond the ones a stack refers to do not change what the stack shows. */
  lemma {:induction false} ResolveIgnoresLaterCells(frames: seq<Frame>, cells: seq<real>, cells': seq<real>)
    requires FramesValid(frames, |cells|)
    requires |cells| <= |cells'| && cells'[..|cells|] == cells
    ensures FramesValid(frames, |cells'|)
    ensures Resolve(frames, cells') == Resolve(frames, cells)
  {
    if frames != [] {
      var top := frames[|frames| - 1];
      ResolveIgnoresLaterCells(frames[..|frames| - 1], cells, cells');
      assert forall name | name in top && top[name].CellRef? :: cells'[top[name].cell] == cells[top[name].cell];
      assert ResolveFrame(top, cells') == ResolveFrame(top, cells);
    }
  }

  /** The capture frame with the argument bound to a cell shows the cell's number under the argument's name. */
  lemma ResolveCaptureFrame(captures: seq<(string, Value)>, arg: string, cell: nat, cells: seq<real>)
    requires cell < |cells|
    ensures FrameValid(CaptureBindings(captures)[arg := CellRef(cell)], |cells|)
    ensures ResolveFrame(CaptureBindings(captures)[arg := CellRef(cell)], cells)
         == CaptureValues(captures)[arg := Number(cells[cell])]
  {
  }

  /**
   * The stack of one program context. Frames are declared into from the
   * innermost end; `cells` is the store of number cells that frames refer to.
   */
  class Scope {
    var frames: seq<Frame>
    var cells: seq<real>

    ghost predicate Valid()
      reads this
    {
      FramesValid(frames, |cells|)
    }

    /** The stack of a freshly created program context. */
    constructor ()
      ensures Valid() && frames == [] && cells == []
    {
      frames := [];
      cells := [];
    }

    /** What running a body against this stack observes. */
    function Env(): Env
      reads this
      requires Valid()
    {
      Resolve(frames, cells)
    }

    method PushStackFrame()
      requires Valid()
      modifies this
      ensures Valid()
      ensures frames == old(frames) + [map[]] && cells == old(cells)
    {
      frames := frames + [map[]];
    }

    method PopStackFrame()
      requires Valid() && |frames| > 0
      modifies this
      ensures Valid()
      ensures frames == old(frames[..|frames| - 1]) && cells == old(cells)
    {
      frames := frames[..|frames| - 1];
    }

    /** Declares `name` in the innermost frame (ASSIGN_DECLARE). */
    method Declare(name: string, b: Binding)
      requires Valid() && |frames| > 0
      requires b.CellRef? ==> b.cell < |cells|
      modifies this
      ensures Valid()
      ensures frames == old(frames[..|frames| - 1] + [frames[|frames| - 1][name := b]])
      ensures cells == old(cells)
    {
      var top := |frames| - 1;
      frames := frames[..top] + [frames[top][name := b]];
    }

    /** Allocates a number cell holding `v` (makeNumber). */
    method NewCell(v: real) returns (c: nat)
      requires Valid()
      modifies this
      ensures Valid()
      ensures c == old(|cells|) && cells == old(cells) + [v] && frames == old(frames)
    {
      c := |cells|;
      cells := cells + [v];
    }

    /** Overwrites the number a cell holds, leaving every binding as it was (`fRef.val = x`). */
    method SetCell(c: nat, v: real)
      requires Valid() && c < |cells|
      modifies this
      ensures Valid()
      ensures cells == old(cells)[c := v] && frames == old(frames)
    {
      cells := cells[c := v];
    }

    /** Declares every captured (name, value) pair, in order, into an empty innermost frame. */
    method DeclareCaptures(captures: seq<(string, Value)>)
      requires Valid() && |frames| > 0 && frames[|frames| - 1] == map[]
      modifies this
      ensures Valid()
      ensures frames == old(frames[..|frames| - 1]) + [CaptureBindings(captures)]
      ensures cells == old(cells)
    {
      var i := 0;
      while i < |captures|
        invariant 0 <= i <= |captures|
        invariant Valid() && cells == old(cells)
        invariant |frames| == old(|frames|)
        invariant frames == old(frames[..|frames| - 1]) + [CaptureBindings(captures[..i])]
      {
        assert captures[..i + 1][..i] == captures[..i];
        Declare(captures[i].0, Held(captures[i].1));
        i := i + 1;
      }
      assert captures[..i] == captures;
    }
  }
}
