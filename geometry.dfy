/**
 * The arithmetic of the path renderer (renderPaths2D and the PathOutputResult
 * transforms): the bounds scan over flat x,y lists, the aspect-ratio
 * correction, the 1% padding, the domain-to-screen transforms, the pan
 * arithmetic of the drag handlers, and the hue given to each path.
 */
module Geometry {
  import opened Values

  /** The four bounds fields of the render state (minX, maxX, minY, maxY). */
  datatype Bounds = Bounds(minX: real, maxX: real, minY: real, maxY: real)

  predicate Ordered(b: Bounds) {
    b.minX <= b.maxX && b.minY <= b.maxY
  }

  /** Every list of a point-list set is a flat x,y,x,y,... sequence. */
  predicate EvenLengths(lists: seq<seq<real>>) {
    forall i :: 0 <= i < |lists| ==> |lists[i]| % 2 == 0
  }

  // ---------------------------------------------------------------------------
  // Bounds scan

  /** One step of the scan: each bound moves out to the point if the point lies beyond it. */
  function Widen(b: Bounds, x: real, y: real): Bounds {
    Bounds(if x < b.minX then x else b.minX,
           if x > b.maxX then x else b.maxX,
           if y < b.minY then y else b.minY,
           if y > b.maxY then y else b.maxY)
  }

  /** The scan over one flat path, pair by pair in order. */
  function WidenPath(b: Bounds, path: seq<real>): Bounds
    requires |path| % 2 == 0
    decreases |path|
  {
    if |path| == 0 then b
    else Widen(WidenPath(b, path[..|path| - 2]), path[|path| - 2], path[|path| - 1])
  }

  /** The scan over all paths, in order. */
  function WidenLists(b: Bounds, lists: seq<seq<real>>): Bounds
    requires EvenLengths(lists)
    decreases |lists|
  {
    if lists == [] then b
    else WidenPath(WidenLists(b, lists[..|lists| - 1]), lists[|lists| - 1])
  }

  /**
   * What the scan widens from: the first pair of the first path when that
   * path is not empty (the `i === 0 && j === 0` reset), otherwise the old bounds.
   */
  function ScanStart(b: Bounds, lists: seq<seq<real>>): Bounds {
    if |lists| > 0 && |lists[0]| >= 2 then PairBounds(lists[0]) else b
  }

  /** The bounds of the first pair of a path alone. */
  function PairBounds(path: seq<real>): Bounds
    requires |path| >= 2
  {
    Bounds(path[0], path[0], path[1], path[1])
  }

  /** Scanning one more pair of a path widens the bounds scanned so far by that pair. */
  lemma WidenPathSnoc(b: Bounds, path: seq<real>, j: nat)
    requires j % 2 == 0 && j + 2 <= |path|
    ensures WidenPath(b, path[..j + 2]) == Widen(WidenPath(b, path[..j]), path[j], path[j + 1])
  {
    assert path[..j + 2][..j] == path[..j];
  }

  /** The bounds the nested scan loop of renderPaths2D leaves in the state. */
  function Scan(b: Bounds, lists: seq<seq<real>>): Bounds
    requires EvenLengths(lists)
  {
    WidenLists(ScanStart(b, lists), lists)
  }

  /** v is the x of some point (an even-index entry of some list). */
  ghost predicate IsX(lists: seq<seq<real>>, v: real) {
    exists i, j :: 0 <= i < |lists| && 0 <= j < |lists[i]| && j % 2 == 0 && lists[i][j] == v
  }

  /** v is the y of some point (an odd-index entry of some list). */
  ghost predicate IsY(lists: seq<seq<real>>, v: real) {
    exists i, j :: 0 <= i < |lists| && 0 <= j < |lists[i]| && j % 2 == 1 && lists[i][j] == v
  }

  /** Every point of every list lies within b. */
  ghost predicate Covers(b: Bounds, lists: seq<seq<real>>) {
    (forall i, j :: 0 <= i < |lists| && 0 <= j < |lists[i]| && j % 2 == 0 ==> b.minX <= lists[i][j] <= b.maxX) &&
    (forall i, j :: 0 <= i < |lists| && 0 <= j < |lists[i]| && j % 2 == 1 ==> b.minY <= lists[i][j] <= b.maxY)
  }

  /** r contains b. */
  predicate Contains(r: Bounds, b: Bounds) {
    r.minX <= b.minX && b.maxX <= r.maxX && r.minY <= b.minY && b.maxY <= r.maxY
  }

  /** Each bound of r is the matching bound of b or a coordinate of some point of the lists. */
  ghost predicate EachBoundFrom(r: Bounds, b: Bounds, lists: seq<seq<real>>) {
    (r.minX == b.minX || IsX(lists, r.minX)) &&
    (r.maxX == b.maxX || IsX(lists, r.maxX)) &&
    (r.minY == b.minY || IsY(lists, r.minY)) &&
    (r.maxY == b.maxY || IsY(lists, r.maxY))
  }

  /** v is the x of some point of one path. */
  ghost predicate PathHasX(path: seq<real>, v: real) {
    exists j :: 0 <= j < |path| && j % 2 == 0 && path[j] == v
  }

  /** v is the y of some point of one path. */
  ghost predicate PathHasY(path: seq<real>, v: real) {
    exists j :: 0 <= j < |path| && j % 2 == 1 && path[j] == v
  }

  lemma {:induction false} WidenPathFacts(b: Bounds, path: seq<real>)
    requires |path| % 2 == 0
    ensures var r := WidenPath(b, path);
      && Contains(r, b)
      && (forall j :: 0 <= j < |path| && j % 2 == 0 ==> r.minX <= path[j] <= r.maxX)
      && (forall j :: 0 <= j < |path| && j % 2 == 1 ==> r.minY <= path[j] <= r.maxY)
      && (r.minX == b.minX || PathHasX(path, r.minX))
      && (r.maxX == b.maxX || PathHasX(path, r.maxX))
      && (r.minY == b.minY || PathHasY(path, r.minY))
      && (r.maxY == b.maxY || PathHasY(path, r.maxY))
    decreases |path|
  {
    if |path| > 0 {
      var n := |path| - 2;
      var prefix := path[..n];
      var r0 := WidenPath(b, prefix);
      var r := WidenPath(b, path);
      WidenPathFacts(b, prefix);
      assert r == Widen(r0, path[n], path[n + 1]);
      forall j | 0 <= j < |path| && j % 2 == 0
        ensures r.minX <= path[j] <= r.maxX
      {
        if j < n { assert prefix[j] == path[j]; }
      }
      forall j | 0 <= j < |path| && j % 2 == 1
        ensures r.minY <= path[j] <= r.maxY
      {
        if j < n { assert prefix[j] == path[j]; }
      }
      XFromPrefixIsX(path, r.minX, r0.minX, b.minX);
      XFromPrefixIsX(path, r.maxX, r0.maxX, b.maxX);
      YFromPrefixIsY(path, r.minY, r0.minY, b.minY);
      YFromPrefixIsY(path, r.maxY, r0.maxY, b.maxY);
    }
  }

  /** An x taken from the earlier pairs or from the last pair is an x of the path. */
  lemma XFromPrefixIsX(path: seq<real>, v: real, mid: real, orig: real)
    requires |path| >= 2 && |path| % 2 == 0
    requires v == mid || v == path[|path| - 2]
    requires mid == orig || PathHasX(path[..|path| - 2], mid)
    ensures v == orig || PathHasX(path, v)
  {
    var n := |path| - 2;
    if v != mid {
      assert path[n] == v;
    } else if mid != orig {
      var j :| 0 <= j < n && j % 2 == 0 && path[..n][j] == mid;
      assert path[j] == v;
    }
  }

  /** A y taken from the earlier pairs or from the last pair is a y of the path. */
  lemma YFromPrefixIsY(path: seq<real>, v: real, mid: real, orig: real)
    requires |path| >= 2 && |path| % 2 == 0
    requires v == mid || v == path[|path| - 1]
    requires mid == orig || PathHasY(path[..|path| - 2], mid)
    ensures v == orig || PathHasY(path, v)
  {
    var n := |path| - 2;
    if v != mid {
      assert path[n + 1] == v;
    } else if mid != orig {
      var j :| 0 <= j < n && j % 2 == 1 && path[..n][j] == mid;
      assert path[j] == v;
    }
  }

  lemma {:induction false} WidenListsFacts(b: Bounds, lists: seq<seq<real>>)
    requires EvenLengths(lists)
    ensures Contains(WidenLists(b, lists), b)
    ensures Covers(WidenLists(b, lists), lists)
    ensures EachBoundFrom(WidenLists(b, lists), b, lists)
    decreases |lists|
  {
    if lists != [] {
      var n := |lists| - 1;
      var init := lists[..n];
      var last := lists[n];
      var r0 := WidenLists(b, init);
      var r := WidenPath(r0, last);
      WidenListsFacts(b, init);
      WidenPathFacts(r0, last);
      CoversSnoc(lists, r0, r);
      XFromPartsIsX(lists, r.minX, r0.minX, b.minX);
      XFromPartsIsX(lists, r.maxX, r0.maxX, b.maxX);
      YFromPartsIsY(lists, r.minY, r0.minY, b.minY);
      YFromPartsIsY(lists, r.maxY, r0.maxY, b.maxY);
    }
  }

  /** Bounds that contain bounds covering the earlier lists, and cover the last list, cover them all. */
  lemma CoversSnoc(lists: seq<seq<real>>, r0: Bounds, r: Bounds)
    requires |lists| > 0 && Covers(r0, lists[..|lists| - 1]) && Contains(r, r0)
    requires forall j :: 0 <= j < |lists[|lists| - 1]| && j % 2 == 0 ==> r.minX <= lists[|lists| - 1][j] <= r.maxX
    requires forall j :: 0 <= j < |lists[|lists| - 1]| && j % 2 == 1 ==> r.minY <= lists[|lists| - 1][j] <= r.maxY
    ensures Covers(r, lists)
  {
    var n := |lists| - 1;
    forall i, j | 0 <= i < |lists| && 0 <= j < |lists[i]| && j % 2 == 0
      ensures r.minX <= lists[i][j] <= r.maxX
    {
      if i < n { assert lists[..n][i][j] == lists[i][j]; }
    }
    forall i, j | 0 <= i < |lists| && 0 <= j < |lists[i]| && j % 2 == 1
      ensures r.minY <= lists[i][j] <= r.maxY
    {
      if i < n { assert lists[..n][i][j] == lists[i][j]; }
    }
  }

  /** An x taken from the earlier lists or from the last list is an x of the whole set. */
  lemma XFromPartsIsX(lists: seq<seq<real>>, v: real, mid: real, orig: real)
    requires |lists| > 0
    requires v == mid || PathHasX(lists[|lists| - 1], v)
    requires mid == orig || IsX(lists[..|lists| - 1], mid)
    ensures v == orig || IsX(lists, v)
  {
    var n := |lists| - 1;
    if v != mid {
      var j :| 0 <= j < |lists[n]| && j % 2 == 0 && lists[n][j] == v;
      assert lists[n][j] == v;
    } else if mid != orig {
      var i, j :| 0 <= i < n && 0 <= j < |lists[..n][i]| && j % 2 == 0 && lists[..n][i][j] == mid;
      assert lists[i][j] == v;
    }
  }

  /** A y taken from the earlier lists or from the last list is a y of the whole set. */
  lemma YFromPartsIsY(lists: seq<seq<real>>, v: real, mid: real, orig: real)
    requires |lists| > 0
    requires v == mid || PathHasY(lists[|lists| - 1], v)
    requires mid == orig || IsY(lists[..|lists| - 1], mid)
    ensures v == orig || IsY(lists, v)
  {
    var n := |lists| - 1;
    if v != mid {
      var j :| 0 <= j < |lists[n]| && j % 2 == 1 && lists[n][j] == v;
      assert lists[n][j] == v;
    } else if mid != orig {
      var i, j :| 0 <= i < n && 0 <= j < |lists[..n][i]| && j % 2 == 1 && lists[..n][i][j] == mid;
      assert lists[i][j] == v;
    }
  }

  /**
   * When the first list has a point, the scan leaves the exact extremes:
   * minX/maxX are the least and greatest even-index entries over all lists,
   * minY/maxY the least and greatest odd-index entries. The old bounds play no part.
   */
  lemma ScanIsExtremes(b: Bounds, lists: seq<seq<real>>)
    requires EvenLengths(lists) && |lists| > 0 && |lists[0]| > 0
    ensures Covers(Scan(b, lists), lists)
    ensures IsX(lists, Scan(b, lists).minX) && IsX(lists, Scan(b, lists).maxX)
    ensures IsY(lists, Scan(b, lists).minY) && IsY(lists, Scan(b, lists).maxY)
    ensures Ordered(Scan(b, lists))
  {
    var s := ScanStart(b, lists);
    assert |lists[0]| >= 2;
    WidenListsFacts(s, lists);
    assert lists[0][0] == s.minX && lists[0][1] == s.minY;
  }

  /**
   * When the first list is empty the reset never happens: the old bounds are
   * only widened, and each bound is the old one or a coordinate of a point.
   */
  lemma ScanOnlyWidens(b: Bounds, lists: seq<seq<real>>)
    requires EvenLengths(lists) && (|lists| == 0 || |lists[0]| == 0)
    ensures Contains(Scan(b, lists), b)
    ensures Covers(Scan(b, lists), lists)
    ensures EachBoundFrom(Scan(b, lists), b, lists)
    ensures Ordered(b) ==> Ordered(Scan(b, lists))
  {
    WidenListsFacts(b, lists);
  }

  /** The scan keeps the bounds ordered, whichever way it starts. */
  lemma ScanOrdered(b: Bounds, lists: seq<seq<real>>)
    requires EvenLengths(lists) && Ordered(b)
    ensures Ordered(Scan(b, lists))
  {
    if |lists| > 0 && |lists[0]| > 0 {
      ScanIsExtremes(b, lists);
    } else {
      ScanOnlyWidens(b, lists);
    }
  }

  // ---------------------------------------------------------------------------
  // Aspect-ratio correction

  /**
   * `xLen / yLen > target` as IEEE-754 evaluates it: a zero yLen gives
   * +Infinity when xLen > 0 (true) and NaN when xLen == 0 (false).
   */
  function WiderThanTarget(xLen: real, yLen: real, target: real): bool {
    if yLen == 0.0 then xLen > 0.0 else xLen / yLen > target
  }

  /** For ordered bounds the test is a plain cross-multiplied comparison. */
  lemma WiderIsCrossMultiplied(xLen: real, yLen: real, target: real)
    requires yLen >= 0.0 && target > 0.0
    ensures WiderThanTarget(xLen, yLen, target) <==> xLen > target * yLen
  {
    if yLen > 0.0 {
      var q := xLen / yLen;
      DivMulCancel(xLen, yLen);
      assert q * yLen == xLen;
      if q > target {
        ProductBelow(yLen, target, q);
      } else {
        ProductAtMost(yLen, q, target);
      }
    }
  }

  /** A positive factor keeps a strict order. */
  lemma ProductBelow(c: real, s: real, t: real)
    requires c > 0.0 && s < t
    ensures s * c < t * c
  {
    assert t * c - s * c == (t - s) * c;
  }

  /** A positive factor keeps a non-strict order. */
  lemma ProductAtMost(c: real, s: real, t: real)
    requires c > 0.0 && s <= t
    ensures s * c <= t * c
  {
    assert t * c - s * c == (t - s) * c;
  }

  /**
   * maintainAspectRatio: grow the axis that is too short for the surface
   * around its own midpoint, so that the bounds take the surface's shape.
   */
  function CorrectAspect(b: Bounds, width: real, height: real): Bounds
    requires width > 0.0 && height > 0.0
  {
    var xLen := b.maxX - b.minX;
    var yLen := b.maxY - b.minY;
    var targetAspectRatio := width / height;
    if WiderThanTarget(xLen, yLen, targetAspectRatio) then
      var midpointY := b.minY + (b.maxY - b.minY) / 2.0;
      var wantedYLen := xLen / targetAspectRatio;
      b.(minY := midpointY - wantedYLen / 2.0, maxY := midpointY + wantedYLen / 2.0)
    else
      var midpointX := b.minX + (b.maxX - b.minX) / 2.0;
      var wantedXLen := targetAspectRatio * yLen;
      b.(minX := midpointX - wantedXLen / 2.0, maxX := midpointX + wantedXLen / 2.0)
  }

  /** After the correction the spans are in the surface's ratio: xSpan / ySpan == width / height. */
  lemma AspectMatchesSurface(b: Bounds, width: real, height: real)
    requires Ordered(b) && width > 0.0 && height > 0.0
    ensures var r := CorrectAspect(b, width, height);
      Ordered(r) && (r.maxX - r.minX) * height == (r.maxY - r.minY) * width
  {
    var xLen := b.maxX - b.minX;
    var yLen := b.maxY - b.minY;
    var t := width / height;
    WiderIsCrossMultiplied(xLen, yLen, t);
    assert t * height == width;
    if xLen > t * yLen {
      assert xLen / t * t == xLen;
      assert (xLen / t) * width == xLen * height by {
        assert (xLen / t) * width == (xLen / t) * (t * height);
      }
    }
  }

  /**
   * Exactly one axis is rewritten: the other keeps its bounds, and the
   * rewritten one keeps its midpoint and does not shrink. The Y axis is the
   * one rewritten exactly when the data is wider than the surface.
   */
  lemma AspectRewritesOneAxis(b: Bounds, width: real, height: real)
    requires Ordered(b) && width > 0.0 && height > 0.0
    ensures var r := CorrectAspect(b, width, height);
      var xLen := b.maxX - b.minX;
      var yLen := b.maxY - b.minY;
      if xLen * height > width * yLen then
        r.minX == b.minX && r.maxX == b.maxX &&
        r.minY + r.maxY == b.minY + b.maxY && r.maxY - r.minY > yLen
      else
        r.minY == b.minY && r.maxY == b.maxY &&
        r.minX + r.maxX == b.minX + b.maxX && r.maxX - r.minX >= xLen
  {
    var xLen := b.maxX - b.minX;
    var yLen := b.maxY - b.minY;
    var t := width / height;
    WiderIsCrossMultiplied(xLen, yLen, t);
    assert t * height == width;
    assert t * yLen * height == width * yLen;
    if xLen > t * yLen {
      assert xLen * height > width * yLen by {
        assert (xLen - t * yLen) * height > 0.0;
      }
      assert xLen / t > yLen by {
        assert xLen / t * t == xLen;
        assert (xLen / t - yLen) * t > 0.0;
      }
    } else {
      assert xLen * height <= width * yLen by {
        assert (t * yLen - xLen) * height >= 0.0;
      }
    }
  }

  /** Correcting bounds that already have the surface's shape changes nothing. */
  lemma AspectIdempotent(b: Bounds, width: real, height: real)
    requires Ordered(b) && width > 0.0 && height > 0.0
    ensures CorrectAspect(CorrectAspect(b, width, height), width, height) == CorrectAspect(b, width, height)
  {
    var r := CorrectAspect(b, width, height);
    AspectMatchesSurface(b, width, height);
    var xLen := r.maxX - r.minX;
    var yLen := r.maxY - r.minY;
    var t := width / height;
    CrossToRatio(xLen, yLen, width, height);
    WiderIsCrossMultiplied(xLen, yLen, t);
    assert !WiderThanTarget(xLen, yLen, t);
    assert t * yLen == xLen;
  }

  /** Spans in the ratio w / h, stated cross-multiplied, are in that ratio as a quotient. */
  lemma CrossToRatio(x: real, y: real, w: real, h: real)
    requires h > 0.0 && x * h == y * w
    ensures x == w / h * y
  {
    var t := w / h;
    DivMulCancel(w, h);
    assert (t * y) * h == y * (t * h);
    assert (x - t * y) * h == 0.0;
  }

  /** The corrected bounds contain the scanned ones: no data is clipped. */
  lemma AspectContains(b: Bounds, width: real, height: real)
    requires Ordered(b) && width > 0.0 && height > 0.0
    ensures Contains(CorrectAspect(b, width, height), b)
  {
    AspectRewritesOneAxis(b, width, height);
  }

  /** The bounds a render leaves in the state: the scan, then the correction when it is asked for. */
  function RenderedBounds(b: Bounds, lists: seq<seq<real>>, maintainAspectRatio: bool, width: real, height: real): Bounds
    requires EvenLengths(lists)
    requires maintainAspectRatio ==> width > 0.0 && height > 0.0
  {
    if maintainAspectRatio then CorrectAspect(Scan(b, lists), width, height) else Scan(b, lists)
  }

  /** Scanning lists whose points already lie within the bounds leaves the bounds as they are. */
  lemma {:induction false} WidenCoveredIsIdentity(b: Bounds, lists: seq<seq<real>>)
    requires EvenLengths(lists) && Covers(b, lists)
    ensures WidenLists(b, lists) == b
    decreases |lists|
  {
    if lists != [] {
      var n := |lists| - 1;
      assert Covers(b, lists[..n]) by {
        forall i, j | 0 <= i < n && 0 <= j < |lists[..n][i]| ensures lists[..n][i][j] == lists[i][j] { }
      }
      WidenCoveredIsIdentity(b, lists[..n]);
      PathWidenCoveredIsIdentity(b, lists[n]);
    }
  }

  lemma {:induction false} PathWidenCoveredIsIdentity(b: Bounds, path: seq<real>)
    requires |path| % 2 == 0
    requires forall j :: 0 <= j < |path| && j % 2 == 0 ==> b.minX <= path[j] <= b.maxX
    requires forall j :: 0 <= j < |path| && j % 2 == 1 ==> b.minY <= path[j] <= b.maxY
    ensures WidenPath(b, path) == b
    decreases |path|
  {
    if |path| > 0 {
      var prefix := path[..|path| - 2];
      assert forall j :: 0 <= j < |prefix| ==> prefix[j] == path[j];
      PathWidenCoveredIsIdentity(b, prefix);
    }
  }

  /**
   * Rendering the same point lists again, on the same surface, leaves the
   * bounds where the first render put them: a pan's re-render does not move them.
   */
  lemma RenderStable(b: Bounds, lists: seq<seq<real>>, maintainAspectRatio: bool, width: real, height: real)
    requires Ordered(b) && EvenLengths(lists)
    requires maintainAspectRatio ==> width > 0.0 && height > 0.0
    ensures var r := RenderedBounds(b, lists, maintainAspectRatio, width, height);
      RenderedBounds(r, lists, maintainAspectRatio, width, height) == r
  {
    var s := Scan(b, lists);
    var r := RenderedBounds(b, lists, maintainAspectRatio, width, height);
    ScanOrdered(b, lists);
    if |lists| > 0 && |lists[0]| > 0 {
      ScanIsExtremes(b, lists);
      assert ScanStart(r, lists) == ScanStart(b, lists);
      assert Scan(r, lists) == s;
    } else {
      ScanOnlyWidens(b, lists);
      if maintainAspectRatio {
        AspectContains(s, width, height);
      }
      assert Contains(r, s);
      assert Covers(r, lists);
      WidenCoveredIsIdentity(r, lists);
      assert Scan(r, lists) == r;
    }
    if maintainAspectRatio {
      AspectIdempotent(s, width, height);
    }
  }

  // ---------------------------------------------------------------------------
  // Padding

  /** The local copies after `extend bounds by a tiny percent`: each axis grows by 1% of its span on both sides. */
  function Pad(b: Bounds): Bounds {
    var extendX := (b.maxX - b.minX) * 0.01;
    var extendY := (b.maxY - b.minY) * 0.01;
    Bounds(b.minX - extendX, b.maxX + extendX, b.minY - extendY, b.maxY + extendY)
  }

  /** Padding keeps each midpoint, contains the old bounds and makes each span 1.02 times as large. */
  lemma PadGrows(b: Bounds)
    requires Ordered(b)
    ensures Contains(Pad(b), b) && Ordered(Pad(b))
    ensures Pad(b).minX + Pad(b).maxX == b.minX + b.maxX && Pad(b).minY + Pad(b).maxY == b.minY + b.maxY
    ensures Pad(b).maxX - Pad(b).minX == 1.02 * (b.maxX - b.minX)
    ensures Pad(b).maxY - Pad(b).minY == 1.02 * (b.maxY - b.minY)
  {
  }

  // ---------------------------------------------------------------------------
  // Domain to screen transforms

  /** domainXToScreenX over the state's bounds and pan offset; a zero span gives a non-finite result. */
  function ScreenX(b: Bounds, offsetX: real, width: real, x: real): Coord {
    if b.maxX == b.minX then NonFinite
    else Finite((x - (b.minX + offsetX)) / (b.maxX - b.minX) * width)
  }

  /** domainYToScreenY: the y axis is flipped, so larger y is higher on the surface. */
  function ScreenY(b: Bounds, offsetY: real, height: real, y: real): Coord {
    if b.maxY == b.minY then NonFinite
    else Finite((1.0 - (y - b.minY + offsetY) / (b.maxY - b.minY)) * height)
  }

  /**
   * The state's bounds, shifted by the pan offset, map onto the surface's
   * edges: x = minX + offX to 0 and maxX + offX to width, y = minY - offY to
   * height and maxY - offY to 0.
   */
  lemma ScreenCorners(b: Bounds, offsetX: real, offsetY: real, width: real, height: real)
    requires b.minX < b.maxX && b.minY < b.maxY
    ensures ScreenX(b, offsetX, width, b.minX + offsetX) == Finite(0.0)
    ensures ScreenX(b, offsetX, width, b.maxX + offsetX) == Finite(width)
    ensures ScreenY(b, offsetY, height, b.minY - offsetY) == Finite(height)
    ensures ScreenY(b, offsetY, height, b.maxY - offsetY) == Finite(0.0)
  {
  }

  /** The screen-to-domain inverse of ScreenX. */
  function DomainX(b: Bounds, offsetX: real, width: real, sx: real): real
    requires width != 0.0
  {
    b.minX + offsetX + sx / width * (b.maxX - b.minX)
  }

  /** The screen-to-domain inverse of ScreenY. */
  function DomainY(b: Bounds, offsetY: real, height: real, sy: real): real
    requires height != 0.0
  {
    b.minY - offsetY + (1.0 - sy / height) * (b.maxY - b.minY)
  }

  /** On a surface of positive width the x transform is invertible: both round trips are the identity. */
  lemma ScreenXRoundTrip(b: Bounds, offsetX: real, width: real, x: real, sx: real)
    requires b.minX < b.maxX && width > 0.0
    ensures ScreenX(b, offsetX, width, DomainX(b, offsetX, width, sx)) == Finite(sx)
    ensures DomainX(b, offsetX, width, ScreenX(b, offsetX, width, x).v) == x
  {
    var a := b.minX + offsetX;
    var span := b.maxX - b.minX;
    var p := sx / width;
    var dx := DomainX(b, offsetX, width, sx);
    assert dx - a == p * span;
    MulDivCancel(p, span);
    DivMulCancel(sx, width);
    assert (dx - a) / span * width == sx;
    var q := (x - a) / span;
    var px := ScreenX(b, offsetX, width, x).v;
    assert px == q * width;
    MulDivCancel(q, width);
    DivMulCancel(x - a, span);
    assert px / width * span == x - a;
  }

  /** On a surface of positive height the y transform is invertible: both round trips are the identity. */
  lemma ScreenYRoundTrip(b: Bounds, offsetY: real, height: real, y: real, sy: real)
    requires b.minY < b.maxY && height > 0.0
    ensures ScreenY(b, offsetY, height, DomainY(b, offsetY, height, sy)) == Finite(sy)
    ensures DomainY(b, offsetY, height, ScreenY(b, offsetY, height, y).v) == y
  {
    var span := b.maxY - b.minY;
    var p := 1.0 - sy / height;
    var dy := DomainY(b, offsetY, height, sy);
    assert dy - b.minY + offsetY == p * span;
    MulDivCancel(p, span);
    DivMulCancel(sy, height);
    assert (1.0 - (dy - b.minY + offsetY) / span) * height == sy;
    var q := (y - b.minY + offsetY) / span;
    var w := 1.0 - q;
    var py := ScreenY(b, offsetY, height, y).v;
    assert py == w * height;
    MulDivCancel(w, height);
    DivMulCancel(y - b.minY + offsetY, span);
    assert (1.0 - py / height) * span == y - b.minY + offsetY;
  }

  lemma MulDivCancel(a: real, c: real)
    requires c != 0.0
    ensures a * c / c == a
  {
  }

  lemma DivMulCancel(a: real, c: real)
    requires c != 0.0
    ensures a / c * c == a
  {
  }

  // ---------------------------------------------------------------------------
  // Drag to pan

  /** screenDeltaToDomainDelta: a screen distance as a domain distance, for a surface `size` pixels across `span`. */
  function ScreenDeltaToDomainDelta(d: real, size: real, span: real): real
    requires size != 0.0
  {
    d / size * span
  }

  /** The offset a drag move sets: the offset captured at drag start minus the converted total delta. */
  function DragOffset(startOffset: real, d: real, size: real, span: real): real
    requires size != 0.0
  {
    startOffset - ScreenDeltaToDomainDelta(d, size, span)
  }

  /** Grab and move: after a drag by dX, every domain x is drawn dX further right than at drag start. */
  lemma DragFollowsPointerX(b: Bounds, startOffset: real, dX: real, width: real, x: real)
    requires b.minX < b.maxX && width > 0.0
    ensures ScreenX(b, DragOffset(startOffset, dX, width, b.maxX - b.minX), width, x)
         == Finite(ScreenX(b, startOffset, width, x).v + dX)
  {
    var span := b.maxX - b.minX;
    var delta := dX / width * span;
    assert delta / span * width == dX;
    assert (x - (b.minX + (startOffset - delta))) / span
        == (x - (b.minX + startOffset)) / span + delta / span;
    assert ((x - (b.minX + startOffset)) / span + delta / span) * width
        == (x - (b.minX + startOffset)) / span * width + delta / span * width;
  }

  /**
   * The plot's drag converts dY with the X scale (width and x span). On
   * bounds that have the surface's shape this is the Y scale as well, so the
   * drawing follows the pointer vertically too.
   */
  lemma PlotDragFollowsPointerY(b: Bounds, startOffset: real, dY: real, width: real, height: real, y: real)
    requires b.minX < b.maxX && b.minY < b.maxY && width > 0.0 && height > 0.0
    requires (b.maxX - b.minX) * height == (b.maxY - b.minY) * width
    ensures ScreenY(b, DragOffset(startOffset, dY, width, b.maxX - b.minX), height, y)
         == Finite(ScreenY(b, startOffset, height, y).v + dY)
  {
    var sX := b.maxX - b.minX;
    var sY := b.maxY - b.minY;
    var delta := dY / width * sX;
    assert delta / sY * height == dY by {
      assert delta * height == dY / width * (sX * height);
      assert dY / width * (sY * width) == dY * sY;
    }
    var u := (y - b.minY + startOffset) / sY;
    assert (y - b.minY + (startOffset - delta)) / sY == u - delta / sY;
    assert (1.0 - (u - delta / sY)) * height == (1.0 - u) * height + delta / sY * height;
  }

  // ---------------------------------------------------------------------------
  // Colours

  /** Path i of n is stroked with hue 360 * i / n. */
  function Hue(i: nat, n: nat): real
    requires n > 0
  {
    360.0 * i as real / n as real
  }

  /** The hues lie in [0, 360) and strictly increase with the index, so no two paths share one. */
  lemma HuesDistinct(i: nat, j: nat, n: nat)
    requires i < j < n
    ensures 0.0 <= Hue(i, n) < Hue(j, n) < 360.0
  {
    assert 360.0 * i as real < 360.0 * j as real;
    assert 360.0 * j as real < 360.0 * n as real;
  }
}
