/**
 * The error panel (renderErrors): the program's errors grouped by the
 * syntax node that caused them, one text block per node, in the order the
 * nodes were first seen, each titled with the count, the line and the
 * node's (truncated) source text.
 */
module ErrorPanel {
  import opened Values
  import opened TextOutput

  /**
   * A syntax node as far as the panel uses it. Nodes are grouped by
   * identity, which `id` stands for; start and end are offsets into the
   * program text, as the parser recorded them.
   */
  datatype AstNode = AstNode(id: nat, start: int, end: int, lineNumber: nat)

  /** A recorded program error: its message and, when it could be localised, its node. */
  datatype ProgramError = ProgramError(message: string, astNode: Option<AstNode>)

  /** The error value a block shows. */
  function ErrorValue(e: ProgramError): Value {
    Error(e.message)
  }

  /** The k-th node of a list. */
  function NodeAt(nodes: seq<AstNode>, k: nat): AstNode
    requires k < |nodes|
  {
    nodes[k]
  }

  /** No node is listed twice. */
  predicate NodesDistinct(nodes: seq<AstNode>) {
    forall p, q :: 0 <= p < q < |nodes| ==> NodeAt(nodes, p) != NodeAt(nodes, q)
  }

  /** Appending a node not yet listed keeps the list free of repeats. */
  lemma NodesDistinctSnoc(nodes: seq<AstNode>, x: AstNode)
    requires NodesDistinct(nodes) && x !in nodes
    ensures NodesDistinct(nodes + [x])
  {
    forall p, q | 0 <= p < q < |nodes| + 1
      ensures NodeAt(nodes + [x], p) != NodeAt(nodes + [x], q)
    {
      if q < |nodes| {
        assert NodeAt(nodes, p) != NodeAt(nodes, q);
      } else {
        assert nodes[p] in nodes;
      }
    }
  }

  /** The distinct nodes of the errors, in the order their first error appears; errors without a node are skipped. */
  function ErrorNodes(errors: seq<ProgramError>): (nodes: seq<AstNode>)
    ensures NodesDistinct(nodes)
    ensures forall n :: n in nodes <==> exists i :: 0 <= i < |errors| && errors[i].astNode == Some(n)
  {
    if errors == [] then []
    else
      var prefix := errors[..|errors| - 1];
      var last := errors[|errors| - 1];
      var nodes := ErrorNodes(prefix);
      assert forall i :: 0 <= i < |prefix| ==> prefix[i] == errors[i];
      if last.astNode.Some? && last.astNode.value !in nodes then
        NodesDistinctSnoc(nodes, last.astNode.value);
        nodes + [last.astNode.value]
      else nodes
  }

  /** The errors caused by node n, in their original order (ErrorsAtSound, ErrorsAtComplete, ErrorsAtCount). */
  function ErrorsAt(errors: seq<ProgramError>, n: AstNode): (r: seq<ProgramError>)
    ensures |r| <= |errors|
  {
    if errors == [] then []
    else
      var prefix := errors[..|errors| - 1];
      var last := errors[|errors| - 1];
      ErrorsAt(prefix, n) + if last.astNode == Some(n) then [last] else []
  }

  /** The positions of the errors caused by node n. */
  function IndicesAt(errors: seq<ProgramError>, n: AstNode): set<nat> {
    set i: nat | i < |errors| && errors[i].astNode == Some(n)
  }

  /** Everything in a node's group is one of the errors, and was caused by that node. */
  lemma {:induction false} ErrorsAtSound(errors: seq<ProgramError>, n: AstNode)
    ensures forall k :: 0 <= k < |ErrorsAt(errors, n)| ==>
      ErrorsAt(errors, n)[k].astNode == Some(n) && ErrorsAt(errors, n)[k] in errors
  {
    if errors != [] {
      var last := |errors| - 1;
      var prefix := errors[..last];
      ErrorsAtSound(prefix, n);
      var r := ErrorsAt(errors, n);
      forall k | 0 <= k < |r|
        ensures r[k].astNode == Some(n) && r[k] in errors
      {
        if k < |ErrorsAt(prefix, n)| {
          var e := ErrorsAt(prefix, n)[k];
          var j :| 0 <= j < |prefix| && prefix[j] == e;
          assert errors[j] == e;
        }
      }
    }
  }

  /** Every error node n caused is in n's group. */
  lemma {:induction false} ErrorsAtComplete(errors: seq<ProgramError>, n: AstNode)
    ensures forall i :: 0 <= i < |errors| && errors[i].astNode == Some(n) ==> errors[i] in ErrorsAt(errors, n)
  {
    if errors != [] {
      var last := |errors| - 1;
      var prefix := errors[..last];
      ErrorsAtComplete(prefix, n);
      forall i | 0 <= i < |errors| && errors[i].astNode == Some(n)
        ensures errors[i] in ErrorsAt(errors, n)
      {
        if i < last {
          assert prefix[i] == errors[i];
        }
      }
    }
  }

  /** A node's group has exactly one entry per error the node caused. */
  lemma {:induction false} ErrorsAtCount(errors: seq<ProgramError>, n: AstNode)
    ensures |ErrorsAt(errors, n)| == |IndicesAt(errors, n)|
  {
    if errors == [] {
      assert IndicesAt(errors, n) == {};
    } else {
      var last := |errors| - 1;
      var prefix := errors[..last];
      ErrorsAtCount(prefix, n);
      assert IndicesAt(errors, n) == IndicesAt(prefix, n) + if errors[last].astNode == Some(n) then {last} else {};
      assert last !in IndicesAt(prefix, n);
    }
  }

  /** String.prototype.substring: both offsets clamped to the text, swapped when out of order. */
  function JsSubstring(text: string, start: int, end: int): (r: string)
    ensures |r| <= |text|
  {
    var a := Clamp(start, |text|);
    var b := Clamp(end, |text|);
    if a <= b then text[a..b] else text[b..a]
  }

  function Clamp(x: int, len: nat): (c: nat)
    ensures c <= len
  {
    if x < 0 then 0 else if x > len then len else x
  }

  /** "Error" for one error, "<count> errors" for several. */
  function Plural(count: nat): string {
    if count == 1 then "Error" else NatToString(count) + " errors"
  }

  /**
   * The title of a node's block: `<plural> at ln <line> ( <truncated text> )`.
   * `truncate` is the view's text shortener, which is not part of this model.
   */
  function ErrorTitle(count: nat, n: AstNode, text: string, truncate: (string, nat) -> string): string {
    Plural(count) + " at ln " + NatToString(n.lineNumber) + " ( " + truncate(JsSubstring(text, n.start, n.end), 30) + " )"
  }

  /** The block for one node's group: titled from the group's size and the node, showing the group's first error. */
  function GroupBlock(group: seq<ProgramError>, n: AstNode, text: string, truncate: (string, nat) -> string): TextBlock
    requires |group| > 0
  {
    OutputTextResult(Some(ErrorTitle(|group|, n, text, truncate)), 0, ErrorValue(group[0]))
  }

  /** The block shown for node n: the block of n's group of errors. */
  function NodeBlock(errors: seq<ProgramError>, n: AstNode, text: string, truncate: (string, nat) -> string): TextBlock
    requires |ErrorsAt(errors, n)| > 0
  {
    GroupBlock(ErrorsAt(errors, n), n, text, truncate)
  }

  /** Taking one more error appends it to its own node's group and leaves every other group as it was. */
  lemma ErrorsAtSnoc(errors: seq<ProgramError>, i: nat)
    requires i < |errors|
    ensures errors[..i + 1][..i] == errors[..i]
    ensures forall n ::
      ErrorsAt(errors[..i + 1], n) == ErrorsAt(errors[..i], n) + if errors[i].astNode == Some(n) then [errors[i]] else []
  {
    assert errors[..i + 1][..i] == errors[..i];
  }

  /** Taking one more error appends its node when that node is new. */
  lemma ErrorNodesSnoc(errors: seq<ProgramError>, i: nat)
    requires i < |errors|
    ensures ErrorNodes(errors[..i + 1]) ==
      if errors[i].astNode.Some? && errors[i].astNode.value !in ErrorNodes(errors[..i])
      then ErrorNodes(errors[..i]) + [errors[i].astNode.value] else ErrorNodes(errors[..i])
  {
    assert errors[..i + 1][..i] == errors[..i];
  }

  /** Every grouped node has at least one error. */
  lemma {:induction false} NodeHasErrors(errors: seq<ProgramError>, n: AstNode)
    requires n in ErrorNodes(errors)
    ensures |ErrorsAt(errors, n)| > 0
  {
    var prefix := errors[..|errors| - 1];
    var last := errors[|errors| - 1];
    if last.astNode != Some(n) {
      assert n in ErrorNodes(prefix);
      NodeHasErrors(prefix, n);
    }
  }

  /**
   * The grouping pass of renderErrors: a map from node to its errors, and the
   * order nodes entered the map (the order a Map iterates in).
   */
  method GroupErrors(errors: seq<ProgramError>) returns (errorSpots: map<AstNode, seq<ProgramError>>, order: seq<AstNode>)
    ensures order == ErrorNodes(errors)
    ensures forall n :: n in errorSpots <==> n in order
    ensures forall n :: n in errorSpots ==> errorSpots[n] == ErrorsAt(errors, n)
  {
    errorSpots := map[];
    order := [];
    var i := 0;
    while i < |errors|
      invariant 0 <= i <= |errors|
      invariant order == ErrorNodes(errors[..i])
      invariant forall n :: n in errorSpots <==> n in order
      invariant forall n :: n in errorSpots ==> errorSpots[n] == ErrorsAt(errors[..i], n)
    {
      var err := errors[i];
      ErrorsAtSnoc(errors, i);
      ErrorNodesSnoc(errors, i);
      var ast := err.astNode;
      if ast.None? {
        // can't localise this one to a node
        i := i + 1;
        continue;
      }
      if ast.value !in errorSpots {
        AbsentHasNoErrors(errors[..i], ast.value);
        errorSpots := errorSpots[ast.value := []];
        order := order + [ast.value];
      }
      var errorList := errorSpots[ast.value];
      errorSpots := errorSpots[ast.value := errorList + [err]];
      i := i + 1;
    }
    assert errors[..i] == errors;
  }

  /**
   * The second loop of renderErrors: one text block per node of order, in
   * that order, built from the node's group in errorSpots.
   */
  method CreateBlocks(errorSpots: map<AstNode, seq<ProgramError>>, order: seq<AstNode>, text: string, truncate: (string, nat) -> string)
    returns (outputs: seq<TextBlock>)
    requires forall q :: 0 <= q < |order| ==> order[q] in errorSpots && |errorSpots[order[q]]| > 0
    ensures |outputs| == |order|
    ensures forall q :: 0 <= q < |order| ==> outputs[q] == GroupBlock(errorSpots[order[q]], order[q], text, truncate)
  {
    outputs := [];
    var k := 0;
    while k < |order|
      invariant 0 <= k <= |order|
      invariant |outputs| == k
      invariant forall q :: 0 <= q < k ==> outputs[q] == GroupBlock(errorSpots[order[q]], order[q], text, truncate)
    {
      var ast := order[k];
      var errs := errorSpots[ast];
      // the block titled from this node's errors, showing the first of them
      outputs := outputs + [GroupBlock(errs, ast, text, truncate)];
      k := k + 1;
    }
  }

  /**
   * renderErrors: the errors are grouped by node, then each group becomes a
   * text block, in the order the nodes were first seen. No errors gives no
   * blocks.
   */
  method RenderErrors(errors: seq<ProgramError>, text: string, truncate: (string, nat) -> string)
    returns (outputs: seq<TextBlock>)
    ensures |outputs| == |ErrorNodes(errors)|
    ensures forall k :: 0 <= k < |outputs| ==>
      |ErrorsAt(errors, ErrorNodes(errors)[k])| > 0 &&
      outputs[k] == NodeBlock(errors, ErrorNodes(errors)[k], text, truncate)
  {
    outputs := [];
    if |errors| > 0 {
      var errorSpots, order := GroupErrors(errors);
      forall q | 0 <= q < |order|
        ensures order[q] in errorSpots && |errorSpots[order[q]]| > 0
      {
        NodeHasErrors(errors, order[q]);
      }
      outputs := CreateBlocks(errorSpots, order, text, truncate);
    }
  }

  /** The block's heading is its title followed by `: `; its value is shown as an error. */
  lemma BlockHeading(errors: seq<ProgramError>, n: AstNode, text: string, truncate: (string, nat) -> string)
    requires |ErrorsAt(errors, n)| > 0
    ensures NodeBlock(errors, n, text, truncate).heading
         == ErrorTitle(|ErrorsAt(errors, n)|, n, text, truncate) + ": "
    ensures NodeBlock(errors, n, text, truncate).isError
  {
    var t := ErrorTitle(|ErrorsAt(errors, n)|, n, text, truncate);
    assert t[0] == Plural(|ErrorsAt(errors, n)|)[0];
    assert Truthy(Some(t));
  }

  /** The value a node's block shows is the node's first error. */
  lemma {:induction false} FirstErrorShown(errors: seq<ProgramError>, n: AstNode, i: nat)
    requires i < |errors| && errors[i].astNode == Some(n)
    requires forall j :: 0 <= j < i ==> errors[j].astNode != Some(n)
    ensures |ErrorsAt(errors, n)| > 0 && ErrorsAt(errors, n)[0] == errors[i]
    decreases |errors|
  {
    var prefix := errors[..|errors| - 1];
    if i < |errors| - 1 {
      FirstErrorShown(prefix, n, i);
    } else {
      AbsentHasNoErrors(prefix, n);
    }
  }

  /** A node no error refers to has no errors. */
  lemma {:induction false} AbsentHasNoErrors(errors: seq<ProgramError>, n: AstNode)
    requires forall j :: 0 <= j < |errors| ==> errors[j].astNode != Some(n)
    ensures ErrorsAt(errors, n) == []
  {
    if errors != [] {
      AbsentHasNoErrors(errors[..|errors| - 1], n);
    }
  }

  /** Scanning more errors only appends nodes: the nodes of a prefix are a prefix of the nodes. */
  lemma {:induction false} NodesOfPrefix(errors: seq<ProgramError>, k: nat)
    requires k <= |errors|
    ensures |ErrorNodes(errors[..k])| <= |ErrorNodes(errors)|
    ensures ErrorNodes(errors[..k]) == ErrorNodes(errors)[..|ErrorNodes(errors[..k])|]
    decreases |errors| - k
  {
    if k < |errors| {
      var prefix := errors[..|errors| - 1];
      assert prefix[..k] == errors[..k];
      NodesOfPrefix(prefix, k);
    } else {
      assert errors[..k] == errors;
    }
  }

  /**
   * Blocks come in the order their nodes were first seen: if node a's first
   * error comes before node b's first error, a's block comes before b's.
   */
  lemma FirstSeenFirstShown(errors: seq<ProgramError>, a: AstNode, b: AstNode, i: nat, j: nat)
    requires i < j < |errors|
    requires errors[i].astNode == Some(a) && errors[j].astNode == Some(b)
    requires forall q :: 0 <= q < j ==> errors[q].astNode != Some(b)
    ensures exists p, q :: 0 <= p < q < |ErrorNodes(errors)| && ErrorNodes(errors)[p] == a && ErrorNodes(errors)[q] == b
  {
    var pre := errors[..j];
    var upTo := ErrorNodes(pre);
    assert pre[i].astNode == Some(a);
    assert a in upTo;
    assert b !in upTo by {
      assert forall q :: 0 <= q < |pre| ==> pre[q] == errors[q];
    }
    var through := ErrorNodes(errors[..j + 1]);
    assert through == upTo + [b] by {
      assert errors[..j + 1][..j] == pre;
      assert errors[..j + 1][j] == errors[j];
    }
    NodesOfPrefix(errors, j + 1);
    var all := ErrorNodes(errors);
    var p :| 0 <= p < |upTo| && upTo[p] == a;
    assert all[p] == through[p] == a;
    assert all[|upTo|] == through[|upTo|] == b;
  }

  /** Different counts give different titles' leading words. */
  lemma PluralInjective(c: nat, d: nat)
    requires c > 0 && d > 0 && c != d
    ensures Plural(c) != Plural(d)
  {
    if c != 1 && d != 1 {
      var s := " errors";
      if Plural(c) == Plural(d) {
        assert |NatToString(c)| == |NatToString(d)|;
        assert NatToString(c) == Plural(c)[..|NatToString(c)|];
        assert NatToString(d) == Plural(d)[..|NatToString(d)|];
        NatToStringInjective(c, d);
      }
    } else if c == 1 {
      assert Plural(d)[|Plural(d)| - 1] == 's';
    } else {
      assert Plural(c)[|Plural(c)| - 1] == 's';
    }
  }

  /** substring does not care which offset comes first, and in-range ordered offsets select exactly that slice. */
  lemma SubstringSymmetric(text: string, start: int, end: int)
    ensures JsSubstring(text, start, end) == JsSubstring(text, end, start)
    ensures 0 <= start <= end <= |text| ==> JsSubstring(text, start, end) == text[start..end]
  {
  }
}
