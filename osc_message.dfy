/** The OSC messages one frame sends: their shape (an address and an
    argument list), the per-point and the single-string encodings of the
    touch points, and decoders that undo each encoding. The wire format is
    the transport's concern and is not part of this model. */
module OscMessage {
  import opened Geometry
  import opened OscText

  datatype Option<T> = None | Some(value: T)

  /** One OSC argument: a float or a string. */
  datatype Arg = FloatArg(f: real) | StringArg(s: string)

  /** An ofxOscMessage: its address and its arguments in order. */
  datatype Message = Message(address: string, args: seq<Arg>)

  const LaserPoints: string := "/laserPoints"

  // ---------------------------------------------------------------- per point

  /** The message sendPoints issues for one point. */
  function PointMessage(p: PxPoint): Message
  {
    Message(LaserPoints, [FloatArg(p.x), FloatArg(p.y)])
  }

  function PointMessages(pts: seq<PxPoint>): seq<Message>
  {
    seq(|pts|, i requires 0 <= i < |pts| => PointMessage(pts[i]))
  }

  lemma PointMessagesPrefix(pts: seq<PxPoint>, i: nat)
    requires i < |pts|
    ensures PointMessages(pts[..i + 1]) == PointMessages(pts[..i]) + [PointMessage(pts[i])]
  {
  }

  /** What a listener reads from one message: a point when the message has
      the touch address and exactly two float arguments. */
  function DecodePoint(m: Message): Option<PxPoint>
  {
    if m.address == LaserPoints && |m.args| == 2 && m.args[0].FloatArg? && m.args[1].FloatArg?
    then Some(PxPoint(m.args[0].f, m.args[1].f))
    else None
  }

  /** The points of a message stream, in order, or None if a message is not
      a point message. */
  function DecodePoints(ms: seq<Message>): Option<seq<PxPoint>>
    decreases |ms|
  {
    if ms == [] then Some([])
    else match (DecodePoint(ms[0]), DecodePoints(ms[1..]))
      case (Some(p), Some(rest)) => Some([p] + rest)
      case _ => None
  }

  /** The per-point stream carries exactly the points, in order: one
      message each, and nothing else. */
  lemma {:induction false} DecodePointMessages(pts: seq<PxPoint>)
    ensures DecodePoints(PointMessages(pts)) == Some(pts)
    decreases |pts|
  {
    if pts != [] {
      DecodePointMessages(pts[1..]);
      assert PointMessages(pts)[1..] == PointMessages(pts[1..]);
      assert [pts[0]] + pts[1..] == pts;
    }
  }

  // ---------------------------------------------------------------- as string

  /** ofToString's text holds neither separator used in the payload. */
  ghost predicate SeparatorFree(format: real -> string)
  {
    forall r :: ',' !in format(r) && '/' !in format(r)
  }

  /** "x,y" for one point, with the library formatter `format`. */
  function PointItem(p: PxPoint, format: real -> string): string
  {
    format(p.x) + "," + format(p.y)
  }

  function PointItems(pts: seq<PxPoint>, format: real -> string): seq<string>
  {
    seq(|pts|, i requires 0 <= i < |pts| => PointItem(pts[i], format))
  }

  lemma PointItemsPrefix(pts: seq<PxPoint>, i: nat, format: real -> string)
    requires i < |pts|
    ensures PointItems(pts[..i + 1], format) == PointItems(pts[..i], format) + [PointItem(pts[i], format)]
  {
  }

  /** The payload of sendPointsAsString: the items joined with '/'. */
  function PointsString(pts: seq<PxPoint>, format: real -> string): string
  {
    Join(PointItems(pts, format), '/')
  }

  function StringMessage(pts: seq<PxPoint>, format: real -> string): Message
  {
    Message(LaserPoints, [StringArg(PointsString(pts, format))])
  }

  /** What a listener reads from the payload: the '/' pieces, each split at ','. */
  function ParsePointsString(s: string): seq<seq<string>>
  {
    var pieces := Split(s, '/');
    seq(|pieces|, i requires 0 <= i < |pieces| => Split(pieces[i], ','))
  }

  /** The payload carries, in order, the formatted coordinates of every point. */
  lemma PointsStringRoundTrip(pts: seq<PxPoint>, format: real -> string)
    requires |pts| > 0 && SeparatorFree(format)
    ensures var parsed := ParsePointsString(PointsString(pts, format));
      && |parsed| == |pts|
      && forall i :: 0 <= i < |pts| ==> parsed[i] == [format(pts[i].x), format(pts[i].y)]
  {
    var items := PointItems(pts, format);
    assert FreeOf(items, '/');
    SplitJoin(items, '/');
    forall i | 0 <= i < |pts|
      ensures Split(items[i], ',') == [format(pts[i].x), format(pts[i].y)]
    {
      SplitWithoutSep(format(pts[i].x), ',');
      SplitAppend(format(pts[i].x), format(pts[i].y), ',');
      assert items[i] == format(pts[i].x) + [','] + format(pts[i].y);
    }
  }

  /** n points give exactly n - 1 '/' separators. */
  lemma PointsStringSeparators(pts: seq<PxPoint>, format: real -> string)
    requires |pts| > 0 && SeparatorFree(format)
    ensures Count(PointsString(pts, format), '/') == |pts| - 1
  {
    CountJoin(PointItems(pts, format), '/');
  }

  /** Two touches at (10,20) and (30,40) go out as "10,20/30,40". */
  lemma PointsStringExample(format: real -> string)
    requires format(10.0) == "10" && format(20.0) == "20" && format(30.0) == "30" && format(40.0) == "40"
    ensures PointsString([PxPoint(10.0, 20.0), PxPoint(30.0, 40.0)], format) == "10,20/30,40"
  {
    var pts := [PxPoint(10.0, 20.0), PxPoint(30.0, 40.0)];
    var items := PointItems(pts, format);
    assert items[0] == format(10.0) + "," + format(20.0) == "10,20";
    assert items[1] == format(30.0) + "," + format(40.0) == "30,40";
    assert Join(items, '/') == Join(items[..1], '/') + ['/'] + items[1];
    assert items[..1] == ["10,20"];
  }

  // ---------------------------------------------------------------- dispatch

  /** The messages one frame sends: none for no touches; otherwise one
      string message, or one message per touch. */
  function Outgoing(pts: seq<PxPoint>, sendAsString: bool, format: real -> string): (r: seq<Message>)
    ensures |pts| == 0 ==> r == []
    ensures |pts| > 0 && sendAsString ==>
      |r| == 1 && r[0].address == LaserPoints && r[0].args == [StringArg(PointsString(pts, format))]
    ensures !sendAsString ==> |r| == |pts| && DecodePoints(r) == Some(pts)
  {
    DecodePointMessages(pts);
    if |pts| == 0 then []
    else if sendAsString then [StringMessage(pts, format)]
    else PointMessages(pts)
  }
}
