/** The application object of laserOSC, restricted to its per-frame work:
    update() rebuilds the touch buffers from the latest scan and hands them
    to one of the two OSC senders, which append to the outbox. */
module LaserOsc {
  import opened Geometry
  import opened TouchFilter
  import opened OscText
  import opened OscMessage

  class App {
    // Parameters, as the GUI panel holds them.
    var distToScreen: int
    var mmW: int
    var mmH: int
    var pxW: int
    var pxH: int
    var sendAsString: bool

    /** The edge convention of ofRectangle::inside. */
    const edge: Edge
    /** ofToString for floats. */
    const format: real -> string

    var screenArea: Rect
    var mmTouchPoints: seq<MmPoint>
    var touchPoints: seq<PxPoint>
    /** Every message handed to the OSC sender, oldest first. */
    var outbox: seq<Message>

    /** The parameter ranges of the GUI panel, and the two touch buffers in step. */
    ghost predicate Valid()
      reads this
    {
      && 0 <= distToScreen <= 2000
      && 1000 <= mmW <= 5000 && 1000 <= mmH <= 5000
      && 1024 <= pxW <= 1920 && 768 <= pxH <= 1200
      && |mmTouchPoints| == |touchPoints|
    }

    /** An application whose parameters have been loaded; nothing sent yet. */
    constructor (edge: Edge, format: real -> string, distToScreen: int, mmW: int, mmH: int,
                 pxW: int, pxH: int, sendAsString: bool)
      requires 0 <= distToScreen <= 2000
      requires 1000 <= mmW <= 5000 && 1000 <= mmH <= 5000
      requires 1024 <= pxW <= 1920 && 768 <= pxH <= 1200
      ensures Valid()
      ensures this.edge == edge && this.format == format
      ensures this.distToScreen == distToScreen && this.mmW == mmW && this.mmH == mmH
      ensures this.pxW == pxW && this.pxH == pxH && this.sendAsString == sendAsString
      ensures screenArea == Rect(0.0, 0.0, 0.0, 0.0)
      ensures mmTouchPoints == [] && touchPoints == [] && outbox == []
    {
      this.edge, this.format := edge, format;
      this.distToScreen, this.mmW, this.mmH := distToScreen, mmW, mmH;
      this.pxW, this.pxH, this.sendAsString := pxW, pxH, sendAsString;
      screenArea := Rect(0.0, 0.0, 0.0, 0.0);
      mmTouchPoints, touchPoints, outbox := [], [], [];
    }

    /** One frame, given the coordinates the sensor reported for it. */
    method Update(coords: seq<Vec2>)
      requires Valid()
      modifies this
      ensures Valid()
      ensures distToScreen == old(distToScreen) && mmW == old(mmW) && mmH == old(mmH)
      ensures pxW == old(pxW) && pxH == old(pxH) && sendAsString == old(sendAsString)
      ensures screenArea == ScreenArea(mmW, mmH, distToScreen)
      ensures mmTouchPoints == Touches(coords, screenArea, edge)
      ensures touchPoints == Pixels(mmTouchPoints, screenArea, pxW, pxH)
      ensures outbox == old(outbox) + Outgoing(touchPoints, sendAsString, format)
    {
      screenArea := ScreenArea(mmW, mmH, distToScreen);

      mmTouchPoints := [];
      touchPoints := [];

      var i := 0;
      while i < |coords|
        invariant 0 <= i <= |coords|
        invariant Valid()
        invariant distToScreen == old(distToScreen) && mmW == old(mmW) && mmH == old(mmH)
        invariant pxW == old(pxW) && pxH == old(pxH) && sendAsString == old(sendAsString)
        invariant outbox == old(outbox)
        invariant screenArea == ScreenArea(mmW, mmH, distToScreen)
        invariant mmTouchPoints == Touches(coords[..i], screenArea, edge)
        invariant touchPoints == Pixels(mmTouchPoints, screenArea, pxW, pxH)
      {
        var mmX := TruncToInt(coords[i].x);
        var mmY := TruncToInt(coords[i].y);
        TouchesSnoc(coords, i, screenArea, edge);

        if Inside(screenArea, edge, mmX as real, mmY as real) {
          mmTouchPoints := mmTouchPoints + [MmPoint(mmX, mmY)];

          var x := OfMap(mmX as real, screenArea.Left(), screenArea.Right(), 0.0, pxW as real);
          var y := OfMap(mmY as real, screenArea.Top(), screenArea.Bottom(), 0.0, pxH as real);

          touchPoints := touchPoints + [PxPoint(x, y)];
        }
        i := i + 1;
      }
      assert coords[..i] == coords;

      if |touchPoints| > 0 {
        if sendAsString {
          SendPointsAsString();
        } else {
          SendPoints();
        }
      }
    }

    /** Sends one message whose only argument is the '/'-joined "x,y" text
        of every touch. */
    method SendPointsAsString()
      modifies this`outbox
      ensures outbox == old(outbox) + [StringMessage(touchPoints, format)]
    {
      var pointsString := "";
      var i := 0;
      while i < |touchPoints|
        invariant 0 <= i <= |touchPoints|
        invariant pointsString == Join(PointItems(touchPoints[..i], format), '/')
        invariant outbox == old(outbox)
      {
        PointItemsPrefix(touchPoints, i, format);
        ghost var done := PointItems(touchPoints[..i], format);
        if i > 0 {
          JoinSnoc(done, PointItem(touchPoints[i], format), '/');
          pointsString := pointsString + "/";
        } else {
          assert done == [];
        }
        pointsString := pointsString + (format(touchPoints[i].x) + "," + format(touchPoints[i].y));
        i := i + 1;
      }
      assert touchPoints[..i] == touchPoints;
      assert pointsString == PointsString(touchPoints, format);
      outbox := outbox + [Message(LaserPoints, [StringArg(pointsString)])];
    }

    /** Sends one message per touch, in order, carrying its x and y. */
    method SendPoints()
      modifies this`outbox
      ensures outbox == old(outbox) + PointMessages(touchPoints)
    {
      var i := 0;
      while i < |touchPoints|
        invariant 0 <= i <= |touchPoints|
        invariant outbox == old(outbox) + PointMessages(touchPoints[..i])
      {
        PointMessagesPrefix(touchPoints, i);
        var message := Message(LaserPoints, [FloatArg(touchPoints[i].x), FloatArg(touchPoints[i].y)]);
        outbox := outbox + [message];
        i := i + 1;
      }
      assert touchPoints[..i] == touchPoints;
    }
  }
}
