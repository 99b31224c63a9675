# laserOSC: the scan-to-touch pipeline, in Dafny

laserOSC reads planar scans from a rotating laser range sensor and turns them,
frame by frame, into touch points on a virtual projection screen. It sends
those points out over OSC. This project models one frame of that work
(`ofApp::update()`) and the two OSC senders it calls, and proves the
properties the code relies on:

1. It derives the screen rectangle, in sensor millimetres, from the screen
   size `mmW` x `mmH` and the distance `distToScreen`.
2. It clears the two touch buffers.
3. It truncates every scan coordinate to whole millimetres.
4. It keeps, in scan order, the points inside the rectangle.
5. It maps each kept point, clamped, onto `[0, pxW] x [0, pxH]` pixels.
6. If there is at least one touch, it sends either one two-float
   `/laserPoints` message per touch, or one `/laserPoints` message whose
   single string joins `"x,y"` items with `/`.

Layout, one module per concern:

- `geometry.dfy` (`Geometry`): points, the ofRectangle view of the screen
  area (`ScreenArea`), the containment test `Inside` with its edge
  convention, clamped `ofMap` (`OfMap`), and float-to-int truncation
  (`TruncToInt`).
- `touch_filter.dfy` (`TouchFilter`): the filter-map of one frame.
  `Touches` gives the millimetre touches and `Pixels` the pixel touches.
- `osc_text.dfy` (`OscText`): `Join` with a separator, its inverse
  `Split`, and `Count`.
- `osc_message.dfy` (`OscMessage`): OSC message shapes, the two encodings,
  the decoders a listener would use (`DecodePoints`, `ParsePointsString`),
  and the dispatch of a frame (`Outgoing`).
- `app.dfy` (`LaserOsc`): class `App` with the member fields of `ofApp`
  that the frame touches. `Update`, `SendPointsAsString` and `SendPoints`
  are imperative methods with loops. Each is proved against the
  specification functions above.

Modelling choices:

- Scan coordinates (`ofVec2f`) and pixel values are `real`. The millimetre
  touches are `int`, as the source truncates them.
- `ust.update()` is the sensor collaborator. The coordinates it delivers
  are the parameter of `Update`.
- `oscSender.sendMessage` has the effect of appending to the `outbox` field.
- `ofToString` is the library's float formatter. It is the `format`
  function fixed when the `App` is built. The string lemmas assume only
  that its text contains no `,` and no `/` (`SeparatorFree`).
- `ofRectangle::inside` is library code, so its edge convention cannot be
  seen. It is the `edge` constant (`Strict` or `Inclusive`). Every
  property holds under either convention.
- The GUI parameter ranges (src/ofApp.cpp:152-156) are preconditions of
  the constructor and part of `App.Valid()`. They keep the rectangle
  non-degenerate, so the mapping never divides by zero.

This version of `ofApp` has two sending modes, no clustering and no
mirroring of its own, and it never writes `messageHistory`.

## Model

| member | source | states |
|---|---|---|
| `Geometry.ScreenArea` | src/ofApp.cpp:29 | The screen rectangle has left -mmW/2, right mmW/2, top distToScreen and bottom distToScreen+mmH. It is centred at (0, mmH/2+distToScreen) and measures mmW x mmH. |
| `Geometry.TruncToInt` | src/ofApp.cpp:36-37 | The float-to-int conversion truncates toward zero. The result keeps the sign and is within 1 of the input, on the side nearer zero. |
| `Geometry.InsideBetweenConventions` | src/ofApp.cpp:39 | Under either edge convention an accepted point lies in the closed rectangle. A strictly interior point is accepted under both. |
| `Geometry.Inside` | src/ofApp.cpp:39 | `ofRectangle::inside` under the chosen edge convention. Whichever convention holds, an accepted point lies in the closed rectangle. |
| `Geometry.OfMap` | src/ofApp.cpp:43-44 | With clamp on, the mapped value always lies between the two ends of the output range. |
| `Geometry.LerpMonotone` | src/ofApp.cpp:43-44 | The unclamped interpolation is non-decreasing in its input for an increasing input range. |
| `Geometry.LerpEndpoints` | src/ofApp.cpp:43-44 | The unclamped interpolation sends the input ends to the output ends. |
| `Geometry.OfMapMonotone` | src/ofApp.cpp:43-44 | The clamped mapping is monotone non-decreasing in its input. |
| `Geometry.OfMapEndpoints` | src/ofApp.cpp:43-44 | The input range's lower end maps to the output's lower end, and its upper end to the upper end. |
| `Geometry.OfMapInRange` | src/ofApp.cpp:43-44 | Within the input range clamping never acts: the result is the plain linear interpolation. |
| `TouchFilter.TruncatePoint` | src/ofApp.cpp:36-37 | Each coordinate is truncated toward zero on both axes. Neither axis moves away from zero or changes by a whole millimetre. |
| `TouchFilter.Touches` | src/ofApp.cpp:34-41 | The millimetre touches of a frame are no more than the scan has coordinates, and are all inside the area. KeepMembership, KeepConcat, KeepIsSubsequence, TouchesSnoc and TouchesMembership characterise it fully. |
| `TouchFilter.Keep` | src/ofApp.cpp:34-41 | Filtering never yields more points than the scan has, and every kept point is inside the rectangle. |
| `TouchFilter.PixelPoint` | src/ofApp.cpp:43-46 | Every mapped point satisfies 0 <= x <= pxW and 0 <= y <= pxH. |
| `TouchFilter.Pixels` | src/ofApp.cpp:41-47 | There are as many pixel touches as millimetre touches, and each lies in [0,pxW] x [0,pxH]. |
| `TouchFilter.KeepMembership` | src/ofApp.cpp:39-41 | A point is kept if and only if it occurs in the scan and passes the containment test. |
| `TouchFilter.KeepConcat` | src/ofApp.cpp:34-41 | Filtering distributes over concatenation: each point's fate depends on that point alone, and scan order is kept. |
| `TouchFilter.KeepIsSubsequence` | src/ofApp.cpp:34-41 | The kept points form an ordered subsequence of the scan. |
| `TouchFilter.KeepExtremes` | src/ofApp.cpp:34-41 | A scan entirely inside is kept whole. A scan entirely outside yields no touches. |
| `TouchFilter.TouchesSnoc` | src/ofApp.cpp:34-47 | Processing one more coordinate appends its truncated point exactly when that point is inside, and appends nothing otherwise. |
| `TouchFilter.TouchesMembership` | src/ofApp.cpp:34-41 | A millimetre touch is exactly a truncated scan coordinate that lies inside the rectangle. |
| `TouchFilter.PixelOfInsideIsUnclamped` | src/ofApp.cpp:39-46 | For a point the filter kept, the pixel point is the unclamped linear interpolation on both axes. |
| `TouchFilter.ScreenEdgesMapToPixelEdges` | src/ofApp.cpp:29-44 | The screen's left and top edges map to 0, and its right and bottom edges map to pxW and pxH. |
| `TouchFilter.PixelPointMonotone` | src/ofApp.cpp:43-44 | Pixel x is monotone non-decreasing in mm x, and pixel y in mm y. |
| `OscText.Join` | src/ofApp.cpp:63-68 | The separator goes before every item but the first, as the loop appends. Join has no contract of its own: SplitJoin (its inverse is Split), CountJoin and JoinSnoc characterise it. |
| `OscText.SplitWithoutSep` | src/ofApp.cpp:67 | Text without the separator splits into a single piece. |
| `OscText.SplitAppend` | src/ofApp.cpp:66-67 | Appending the separator and a separator-free item adds exactly that item as a piece. |
| `OscText.SplitJoin` | src/ofApp.cpp:63-68 | Splitting the joined string gives back the items, in order, for a non-empty list of separator-free items. |
| `OscText.SplitLength` | src/ofApp.cpp:63-68 | A string splits into one more piece than it has separators. |
| `OscText.CountJoin` | src/ofApp.cpp:63-68 | Joining n separator-free items produces exactly n-1 separators. |
| `OscText.JoinSnoc` | src/ofApp.cpp:66-67 | Joining one more item appends the separator and then the item. |
| `OscMessage.PointMessage` | src/ofApp.cpp:79-83 | The message for one point has address /laserPoints and the float args x then y. It has no contract of its own; DecodePointMessages states what a listener reads from it. |
| `OscMessage.PointMessages` | src/ofApp.cpp:77-84 | What sendPoints() sends: one PointMessage per touch, in order. It has no contract of its own; DecodePointMessages and PointMessagesPrefix characterise it. |
| `OscMessage.PointMessagesPrefix` | src/ofApp.cpp:77-84 | Sending one more point appends exactly its message. |
| `OscMessage.DecodePointMessages` | src/ofApp.cpp:77-84 | Decoding the per-point messages gives back exactly the touch points, in order. Each message has address /laserPoints and two float args, x then y. |
| `OscMessage.PointItem` | src/ofApp.cpp:67 | The "x,y" text of one point, using the library formatter. It has no contract of its own; PointsStringRoundTrip shows it splits back into the two formatted coordinates. |
| `OscMessage.PointItemsPrefix` | src/ofApp.cpp:67 | One more point appends exactly its "x,y" item. |
| `OscMessage.PointsString` | src/ofApp.cpp:63-68 | The payload: the point items joined with '/'. It has no contract of its own; PointsStringRoundTrip, PointsStringSeparators and PointsStringExample characterise it. |
| `OscMessage.StringMessage` | src/ofApp.cpp:60-71 | The one message of string mode: address /laserPoints and PointsString as its only argument. It has no contract of its own; Outgoing and App.SendPointsAsString state where it is sent. |
| `OscMessage.PointsStringRoundTrip` | src/ofApp.cpp:60-71 | Splitting the payload at '/' and then at ',' gives, per point and in order, the formatted x and y. There is one piece per point. |
| `OscMessage.PointsStringSeparators` | src/ofApp.cpp:63-68 | The payload for n points contains exactly n-1 '/' separators. |
| `OscMessage.PointsStringExample` | src/ofApp.cpp:63-68 | Touches (10,20) and (30,40) are sent as the string "10,20/30,40". |
| `OscMessage.Outgoing` | src/ofApp.cpp:50-54 | No touches send no message. String mode sends exactly one /laserPoints message with the joined string as its only argument. Per-point mode sends exactly one message per touch, decoding back to the touches in order. |
| `LaserOsc.App.constructor` | src/ofApp.cpp:149-157 | The application starts with in-range parameters, empty touch buffers and an empty outbox. |
| `LaserOsc.App.Update` | src/ofApp.cpp:23-55 | The new rectangle is the screen area of the current parameters. `mmTouchPoints` is exactly the in-order filtered truncated scan, with nothing left from earlier frames. `touchPoints` is its pixel image index for index. The outbox grows by exactly the frame's `Outgoing` messages. Parameters are unchanged. |
| `LaserOsc.App.SendPointsAsString` | src/ofApp.cpp:58-72 | The loop builds the '/'-join of the "x,y" items. The method appends exactly one /laserPoints message carrying that string. |
| `LaserOsc.App.SendPoints` | src/ofApp.cpp:75-85 | The method appends one /laserPoints message per touch, in order, with that touch's x and y as its two float args. |

## Left out

- `setup()`, `keyPressed()`, `mirrorChanged()` and `stepChanged()` (src/ofApp.cpp:4-20, 122-134, 167-178) are left out. They configure the sensor driver and the OSC socket, and the driver's behaviour (including mirroring) cannot be seen here.
- `draw()` (src/ofApp.cpp:88-119) is left out: it is OpenGL rendering.
- `exit()` and `setupGui()` (src/ofApp.cpp:137-164) are left out: they build GUI widgets and load and save the settings file. Only their parameter ranges are kept, as preconditions.
- Parameter changes made through the GUI between frames are not modelled. Within a frame `Update` leaves the parameters unchanged.
- The `fps` computation (src/ofApp.cpp:25) is left out: it is a frame-rate display value.
- `ust.update()` and the sensor driver are left out. The scan coordinates are a parameter of `App.Update`.
- OSC wire encoding and `oscSender.sendMessage` are left out as transport. A send appends the message to `App.outbox`.
- The decimal text of `ofToString` is a library float formatter. It stays abstract, as `App.format`.
- `Geometry.OfMap`: the library tests for a degenerate input range with `FLT_EPSILON`. The model tests for exact equality. The difference is unreachable here, since the screen is at least 1000 mm on each side.
- Single-precision float rounding is not modelled. Coordinates and pixels are exact reals.
- Float-to-int conversion of values outside the `int` range (undefined in C++) is not modelled: `TruncToInt` is total.
- `messageHistory` (src/ofApp.h:48) is declared but never written, so there is nothing to model.
- Run clustering and the clustered sending modes are not in the code, so they are not modelled.
