/** The per-frame filter-map from scan coordinates to touches: truncate each
    coordinate to whole millimetres, keep those inside the screen area (in
    scan order), and map each kept point to pixels. */
module TouchFilter {
  import opened Geometry

  /** Each scan coordinate converted to int as C++ does: both axes are
      truncated toward zero, so neither moves away from zero nor by a whole
      millimetre. */
  function TruncatePoint(v: Vec2): (p: MmPoint)
    ensures Min(0.0, v.x) <= p.x as real <= Max(0.0, v.x) && -1.0 < v.x - p.x as real < 1.0
    ensures Min(0.0, v.y) <= p.y as real <= Max(0.0, v.y) && -1.0 < v.y - p.y as real < 1.0
  {
    MmPoint(TruncToInt(v.x), TruncToInt(v.y))
  }

  function Truncated(coords: seq<Vec2>): seq<MmPoint>
  {
    seq(|coords|, i requires 0 <= i < |coords| => TruncatePoint(coords[i]))
  }

  predicate InsideMm(area: Rect, edge: Edge, p: MmPoint)
  {
    Inside(area, edge, p.x as real, p.y as real)
  }

  /** The points of s inside the area, in the order of s. */
  function Keep(s: seq<MmPoint>, area: Rect, edge: Edge): (r: seq<MmPoint>)
    ensures |r| <= |s|
    ensures forall i :: 0 <= i < |r| ==> InsideMm(area, edge, r[i])
  {
    if s == [] then []
    else (if InsideMm(area, edge, s[0]) then [s[0]] else []) + Keep(s[1..], area, edge)
  }

  /** The millimetre touches of one frame: no more than the scan has
      coordinates, each inside the area. */
  function Touches(coords: seq<Vec2>, area: Rect, edge: Edge): (r: seq<MmPoint>)
    ensures |r| <= |coords|
    ensures forall i :: 0 <= i < |r| ==> InsideMm(area, edge, r[i])
  {
    Keep(Truncated(coords), area, edge)
  }

  /** The clamped pixel mapping of one millimetre touch. */
  function PixelPoint(p: MmPoint, area: Rect, pxW: int, pxH: int): (q: PxPoint)
    requires 0 <= pxW && 0 <= pxH
    ensures 0.0 <= q.x <= pxW as real && 0.0 <= q.y <= pxH as real
  {
    PxPoint(OfMap(p.x as real, area.Left(), area.Right(), 0.0, pxW as real),
            OfMap(p.y as real, area.Top(), area.Bottom(), 0.0, pxH as real))
  }

  /** The pixel touches of one frame, index for index with the millimetre ones. */
  function Pixels(pts: seq<MmPoint>, area: Rect, pxW: int, pxH: int): (r: seq<PxPoint>)
    requires 0 <= pxW && 0 <= pxH
    ensures |r| == |pts|
    ensures forall i :: 0 <= i < |r| ==> 0.0 <= r[i].x <= pxW as real && 0.0 <= r[i].y <= pxH as real
  {
    seq(|pts|, i requires 0 <= i < |pts| => PixelPoint(pts[i], area, pxW, pxH))
  }

  /** a is an ordered (not necessarily contiguous) subsequence of b. */
  predicate IsSubsequence(a: seq<MmPoint>, b: seq<MmPoint>)
    decreases |b|
  {
    if a == [] then true
    else if b == [] then false
    else if a[0] == b[0] then IsSubsequence(a[1..], b[1..])
    else IsSubsequence(a, b[1..])
  }

  /** A point is kept exactly when it occurs in the input and is inside. */
  lemma {:induction false} KeepMembership(s: seq<MmPoint>, area: Rect, edge: Edge, p: MmPoint)
    ensures p in Keep(s, area, edge) <==> p in s && InsideMm(area, edge, p)
    decreases |s|
  {
    if s != [] {
      KeepMembership(s[1..], area, edge, p);
      assert s == [s[0]] + s[1..];
    }
  }

  /** Filtering distributes over concatenation: each point's fate depends
      on that point alone, and the order of the input is kept. */
  lemma {:induction false} KeepConcat(s: seq<MmPoint>, t: seq<MmPoint>, area: Rect, edge: Edge)
    ensures Keep(s + t, area, edge) == Keep(s, area, edge) + Keep(t, area, edge)
    decreases |s|
  {
    if s == [] {
      assert s + t == t;
    } else {
      assert (s + t)[1..] == s[1..] + t;
      KeepConcat(s[1..], t, area, edge);
    }
  }

  /** The kept points are an ordered subsequence of the input. */
  lemma {:induction false} KeepIsSubsequence(s: seq<MmPoint>, area: Rect, edge: Edge)
    ensures IsSubsequence(Keep(s, area, edge), s)
    decreases |s|
  {
    if s != [] {
      KeepIsSubsequence(s[1..], area, edge);
      var rest := Keep(s[1..], area, edge);
      if InsideMm(area, edge, s[0]) {
        assert ([s[0]] + rest)[1..] == rest;
      } else {
        // s[0] is outside, every kept point is inside: s[0] heads nothing kept
        assert Keep(s, area, edge) == rest;
        assert rest != [] ==> rest[0] != s[0];
      }
    }
  }

  /** A frame whose every point is inside keeps them all; one with none
      inside keeps nothing. */
  lemma {:induction false} KeepExtremes(s: seq<MmPoint>, area: Rect, edge: Edge)
    ensures (forall i :: 0 <= i < |s| ==> InsideMm(area, edge, s[i])) ==> Keep(s, area, edge) == s
    ensures (forall i :: 0 <= i < |s| ==> !InsideMm(area, edge, s[i])) ==> Keep(s, area, edge) == []
    decreases |s|
  {
    if s != [] {
      KeepExtremes(s[1..], area, edge);
      assert forall i :: 1 <= i < |s| ==> s[1..][i - 1] == s[i];
    }
  }

  /** One more scan coordinate appends at most its own truncated point. */
  lemma TouchesSnoc(coords: seq<Vec2>, i: nat, area: Rect, edge: Edge)
    requires i < |coords|
    ensures Touches(coords[..i + 1], area, edge)
         == Touches(coords[..i], area, edge)
            + (if InsideMm(area, edge, TruncatePoint(coords[i])) then [TruncatePoint(coords[i])] else [])
  {
    var p := TruncatePoint(coords[i]);
    assert Truncated(coords[..i + 1]) == Truncated(coords[..i]) + [p];
    KeepConcat(Truncated(coords[..i]), [p], area, edge);
    assert [p][1..] == [];
  }

  /** Every touch of a frame comes from some scan coordinate, inside the area. */
  lemma TouchesMembership(coords: seq<Vec2>, area: Rect, edge: Edge, p: MmPoint)
    ensures p in Touches(coords, area, edge)
        <==> InsideMm(area, edge, p) && exists i :: 0 <= i < |coords| && TruncatePoint(coords[i]) == p
  {
    KeepMembership(Truncated(coords), area, edge, p);
    assert forall i :: 0 <= i < |coords| ==> Truncated(coords)[i] == TruncatePoint(coords[i]);
  }

  /** A kept point lies in the closed area, so its pixel point is the plain
      interpolation: clamping never acts on a touch. */
  lemma PixelOfInsideIsUnclamped(p: MmPoint, area: Rect, edge: Edge, pxW: int, pxH: int)
    requires 0 <= pxW && 0 <= pxH
    requires area.Left() < area.Right() && area.Top() < area.Bottom()
    requires InsideMm(area, edge, p)
    ensures PixelPoint(p, area, pxW, pxH)
         == PxPoint(Lerp(p.x as real, area.Left(), area.Right(), 0.0, pxW as real),
                    Lerp(p.y as real, area.Top(), area.Bottom(), 0.0, pxH as real))
  {
    InsideBetweenConventions(area, edge, p.x as real, p.y as real);
    OfMapInRange(p.x as real, area.Left(), area.Right(), 0.0, pxW as real);
    OfMapInRange(p.y as real, area.Top(), area.Bottom(), 0.0, pxH as real);
  }

  /** The screen's left and top edges map to pixel 0, its right and bottom
      edges to pxW and pxH. */
  lemma ScreenEdgesMapToPixelEdges(mmW: int, mmH: int, distToScreen: int, pxW: int, pxH: int)
    requires 0 < mmW && 0 < mmH && 0 <= pxW && 0 <= pxH
    ensures var area := ScreenArea(mmW, mmH, distToScreen);
      && OfMap(area.Left(), area.Left(), area.Right(), 0.0, pxW as real) == 0.0
      && OfMap(area.Right(), area.Left(), area.Right(), 0.0, pxW as real) == pxW as real
      && OfMap(area.Top(), area.Top(), area.Bottom(), 0.0, pxH as real) == 0.0
      && OfMap(area.Bottom(), area.Top(), area.Bottom(), 0.0, pxH as real) == pxH as real
  {
    var area := ScreenArea(mmW, mmH, distToScreen);
    OfMapEndpoints(area.Left(), area.Right(), 0.0, pxW as real);
    OfMapEndpoints(area.Top(), area.Bottom(), 0.0, pxH as real);
  }

  /** The pixel mapping is monotone non-decreasing in each axis. */
  lemma PixelPointMonotone(a: MmPoint, b: MmPoint, area: Rect, pxW: int, pxH: int)
    requires 0 <= pxW && 0 <= pxH
    requires area.Left() < area.Right() && area.Top() < area.Bottom()
    ensures a.x <= b.x ==> PixelPoint(a, area, pxW, pxH).x <= PixelPoint(b, area, pxW, pxH).x
    ensures a.y <= b.y ==> PixelPoint(a, area, pxW, pxH).y <= PixelPoint(b, area, pxW, pxH).y
  {
    if a.x <= b.x {
      OfMapMonotone(a.x as real, b.x as real, area.Left(), area.Right(), 0.0, pxW as real);
    }
    if a.y <= b.y {
      OfMapMonotone(a.y as real, b.y as real, area.Top(), area.Bottom(), 0.0, pxH as real);
    }
  }
}
