/**
 The state of the touchscreen filter under its control events: the cached extents match the ranges
 whenever the four-point transform uses them.
 */
module TouchFilter {
  import opened Wrappers
  import opened Arith
  import opened TouchTransform

  datatype Screen = Screen(xl: int, xh: int, yl: int, yh: int)

  datatype Raw = Raw(xl: int, xh: int, yl: int, yh: int, swap: bool)

  datatype Matrix = Matrix(an: int, bn: int, cn: int, dn: int, en: int, fn: int, divider: int)

  /** What init_transform finds in the calibration file for the screen: a last matching line of either
      kind, none, or a matching line that breaks off after it has changed some fields. */
  datatype CalibFile =
    | Found(threePt: bool, raw: Raw, matrix: Matrix)
    | Nothing
    | Broken(threePt: bool, raw: Raw, matrix: Matrix)

  datatype Event =
    | Reset(newScreen: Option<Screen>, supported: bool, matrixMax: nat, file: CalibFile)
    | SetScreen(screen: Screen, file: CalibFile)      // the options "o" and "s"
    | ResChg(screen: Screen)
    | CoordChg(raw: Raw)
    | SetCalibMatrix(matrix: Matrix)
    | AbsMode(translate: bool)

  /** The fields of struct data that the transforms depend on */
  datatype Data = Data(x: Axis, y: Axis, swap: bool, threePt: bool, calib: bool, matrix: Matrix, init: bool,
                       matrixMax: nat, pointsX: nat, pointsY: nat, translate: bool)

  const NO_MATRIX := Matrix(0, 0, 0, 0, 0, 0, 0)

  /** After abs_init */
  const Initial := Data(Axis(0, 0, 0, 639, 0, 0), Axis(0, 0, 0, 479, 0, 0), false, true, false, NO_MATRIX, false,
                        0, 0, 0, true)

  function WithScreen(d: Data, s: Screen): Data {
    d.(x := d.x.(sl := s.xl, sh := s.xh), y := d.y.(sl := s.yl, sh := s.yh))
  }

  function WithRaw(d: Data, r: Raw): Data {
    d.(x := d.x.(rl := r.xl, rh := r.xh), y := d.y.(rl := r.yl, rh := r.yh), swap := r.swap)
  }

  function Extents(a: Axis): Axis { a.(rd := a.rh - a.rl, sd := a.sh - a.sl) }

  /** set_trans_range */
  function TransRange(d: Data): Data { d.(x := Extents(d.x), y := Extents(d.y)) }

  function MatrixSize(d: Data): (m: nat)
    ensures m > 0
  {
    if d.matrixMax == 0 then 1023 else d.matrixMax
  }

  /** pts_per_pixel for the screen as it is now */
  function PointsFor(d: Data, a: Axis): nat { PointsPerPixel(a.sh % UINT, MatrixSize(d)) }

  function InitTransform(d: Data, file: CalibFile): Data {
    match file
    case Found(threePt, raw, matrix) =>
      TransRange(WithRaw(d, raw)).(threePt := threePt, matrix := matrix, calib := true)
    case Nothing => d.(pointsX := PointsFor(d, d.x), pointsY := PointsFor(d, d.y), calib := false)
    case Broken(threePt, raw, matrix) => WithRaw(d, raw).(threePt := threePt, matrix := matrix, calib := false)
  }

  /** abs_reset: the first time, an unsupported device ends it early. */
  function AbsReset(d: Data, supported: bool, matrixMax: nat, file: CalibFile): Data {
    if d.init then InitTransform(d, file)
    else
      var d1 := d.(init := true, matrixMax := if matrixMax == 0 then 1023 else matrixMax);
      if supported then InitTransform(d1, file) else d1
  }

  function Apply(d: Data, ev: Event): Data {
    match ev
    case Reset(screen, supported, matrixMax, file) =>
      AbsReset(if screen.Some? then WithScreen(d, screen.value) else d, supported, matrixMax, file)
    case SetScreen(screen, file) => InitTransform(WithScreen(d, screen), file)
    case ResChg(screen) => TransRange(WithScreen(d, screen))
    case CoordChg(raw) => TransRange(WithRaw(d, raw)).(threePt := false, calib := true)
    case SetCalibMatrix(matrix) => d.(matrix := matrix, threePt := true, calib := true)
    case AbsMode(translate) => d.(translate := translate)
  }

  // ---------------------------------------------------------------- the cached extents

  /** The four-point transform is the one in use. */
  predicate FourPoint(d: Data) { d.calib && !d.threePt }

  predicate ExtentsGood(d: Data) {
    FourPoint(d) ==> d.x.Matches() && d.y.Matches()
  }

  predicate Supported(events: seq<Event>) {
    forall i :: 0 <= i < |events| ==> events[i].Reset? ==> events[i].supported
  }

  function Run(events: seq<Event>): Data {
    if events == [] then Initial else Apply(Run(events[..|events| - 1]), events[|events| - 1])
  }

  lemma InitTransformKeepsExtents(d: Data, file: CalibFile)
    ensures ExtentsGood(InitTransform(d, file))
  {
  }

  lemma ApplyKeepsExtents(d: Data, ev: Event)
    requires ExtentsGood(d) && (ev.Reset? ==> ev.supported)
    ensures ExtentsGood(Apply(d, ev))
  {
    match ev
    case Reset(screen, supported, matrixMax, file) =>
      var d1 := if screen.Some? then WithScreen(d, screen.value) else d;
      var max := if matrixMax == 0 then 1023 else matrixMax;
      InitTransformKeepsExtents(d1, file);
      InitTransformKeepsExtents(d1.(init := true, matrixMax := max), file);
    case SetScreen(screen, file) => InitTransformKeepsExtents(WithScreen(d, screen), file);
    case _ =>
  }

  /** Over every sequence of control events on a supported device, the four-point transform finds extents
      that match the ranges. */
  lemma {:induction false} RunKeepsExtents(events: seq<Event>)
    requires Supported(events)
    ensures ExtentsGood(Run(events))
  {
    if events != [] {
      RunKeepsExtents(events[..|events| - 1]);
      ApplyKeepsExtents(Run(events[..|events| - 1]), events[|events| - 1]);
    }
  }

  /** A first reset of an unsupported device keeps the extents good exactly if the four-point transform is
      not in use or the screen stays as large as it was. */
  lemma UnsupportedResetKeepsIff(d: Data, s: Screen, matrixMax: nat, file: CalibFile)
    requires ExtentsGood(d) && !d.init
    ensures ExtentsGood(Apply(d, Reset(Some(s), false, matrixMax, file)))
            <==> !FourPoint(d) || (s.xh - s.xl == d.x.sh - d.x.sl && s.yh - s.yl == d.y.sh - d.y.sl)
  {
  }

  // ---------------------------------------------------------------- the transform in use

  /** transform; None when it returns -1 and leaves the coordinates as they are. */
  function Transform(d: Data, x: int, y: int): Option<(int, int)> {
    var m := d.matrix;
    if d.threePt then
      if m.divider == 0 then None
      else Some((CDiv(m.an * x + m.bn * y + m.cn, m.divider), CDiv(m.dn * x + m.en * y + m.fn, m.divider)))
    else
      var tx, ty := if d.swap then y else x, if d.swap then x else y;
      Some((Scaled(d.x, tx), Scaled(d.y, ty)))
  }

  predicate OnScreen(d: Data, p: (int, int)) {
    d.x.sl <= p.0 <= d.x.sh && d.y.sl <= p.1 <= d.y.sh
  }

  /** After any control events, the four-point transform puts every touch on the screen. */
  lemma TouchesStayOnScreen(events: seq<Event>, x: int, y: int)
    requires Supported(events)
    requires var d := Run(events);
             FourPoint(d) && d.x.Fits() && d.y.Fits() && d.x.sl <= d.x.sh && d.y.sl <= d.y.sh
    ensures Transform(Run(events), x, y).Some? && OnScreen(Run(events), Transform(Run(events), x, y).value)
  {
    var d := Run(events);
    RunKeepsExtents(events);
    ScaledInRange(d.x, if d.swap then y else x);
    ScaledInRange(d.y, if d.swap then x else y);
  }

  /** And the corners of the raw range on the corners of the screen. */
  lemma CornersMapToCorners(events: seq<Event>)
    requires Supported(events)
    requires var d := Run(events);
             && FourPoint(d) && d.x.Fits() && d.y.Fits() && d.x.sl <= d.x.sh && d.y.sl <= d.y.sh
             && d.x.rl != d.x.rh && d.y.rl != d.y.rh
    ensures var d := Run(events);
            && Placed(d, d.x.rl, d.y.rl) == Some((d.x.sl, d.y.sl))
            && Placed(d, d.x.rh, d.y.rh) == Some((d.x.sh, d.y.sh))
  {
    var d := Run(events);
    RunKeepsExtents(events);
    ScaledEndpoints(d.x);
    ScaledEndpoints(d.y);
  }

  /** Where a touch goes whose coordinates along the screen's axes are x and y; a device may swap them. */
  function Placed(d: Data, x: int, y: int): Option<(int, int)> {
    if d.swap then Transform(d, y, x) else Transform(d, x, y)
  }

  /** And moving a touch along an axis never turns back on the screen, and does not disturb the other axis. */
  lemma TouchesMoveAlong(events: seq<Event>, x: int, x': int, y: int, y': int)
    requires Supported(events) && x <= x' && y <= y'
    requires var d := Run(events);
             FourPoint(d) && d.x.Fits() && d.y.Fits() && d.x.sl <= d.x.sh && d.y.sl <= d.y.sh
    ensures var d := Run(events);
            && Placed(d, x, y).Some? && Placed(d, x', y').Some?
            && var p, p' := Placed(d, x, y).value, Placed(d, x', y').value;
               && (if d.x.rl <= d.x.rh then p.0 <= p'.0 else p.0 >= p'.0)
               && (if d.y.rl <= d.y.rh then p.1 <= p'.1 else p.1 >= p'.1)
               && (x == x' ==> p.0 == p'.0) && (y == y' ==> p.1 == p'.1)
  {
    var d := Run(events);
    RunKeepsExtents(events);
    ScaledMonotone(d.x, x, x');
    ScaledMonotone(d.y, y, y');
  }

  /** The corners of the raw range go to the corners of the screen, the axes swapped or not. */
  predicate MapsCorners(d: Data, s: Screen, raw: Raw) {
    var low, high := Some((s.xl, s.yl)), Some((s.xh, s.yh));
    if raw.swap then Transform(d, raw.yl, raw.xl) == low && Transform(d, raw.yh, raw.xh) == high
    else Transform(d, raw.xl, raw.yl) == low && Transform(d, raw.xh, raw.yh) == high
  }

  /** Ranges that are not empty, and not too large for the arithmetic */
  predicate Sizable(s: Screen, raw: Raw) {
    && s.xl <= s.xh && s.yl <= s.yh && raw.xl != raw.xh && raw.yl != raw.yh
    && -LONG_MAX <= (raw.xh - raw.xl) * (s.xh - s.xl) <= LONG_MAX
    && -LONG_MAX <= (raw.yh - raw.yl) * (s.yh - s.yl) <= LONG_MAX
  }

  lemma RangesMapCorners(d: Data, s: Screen, raw: Raw)
    requires Sizable(s, raw) && !d.threePt && d == TransRange(WithRaw(WithScreen(d, s), raw))
    ensures MapsCorners(d, s, raw)
  {
    assert d.x.Matches() && d.y.Matches() && d.x.Fits() && d.y.Fits();
    ScaledEndpoints(d.x);
    ScaledEndpoints(d.y);
  }

  /** After a calibration by four points, whatever came before, the corners of the raw range that was given
      are put on the corners of the screen. */
  lemma CalibratedCorners(events: seq<Event>, s: Screen, raw: Raw)
    requires Sizable(s, raw)
    ensures MapsCorners(Run(events + [ResChg(s)] + [CoordChg(raw)]), s, raw)
  {
    LastEvents(events, ResChg(s), CoordChg(raw));
    RangesMapCorners(Run(events + [ResChg(s)] + [CoordChg(raw)]), s, raw);
  }

  lemma LastEvents(events: seq<Event>, first: Event, second: Event)
    ensures Run(events + [first]) == Apply(Run(events), first)
    ensures Run(events + [first] + [second]) == Apply(Apply(Run(events), first), second)
  {
    assert (events + [first])[..|events|] == events;
    assert (events + [first] + [second])[..|events| + 1] == events + [first];
  }

  // ---------------------------------------------------------------- the three-point transform

  /** It fails exactly if the divider is 0; otherwise the two rows of the matrix give x and y, divided and
      rounded toward zero. */
  predicate MapsBy(d: Data, m: Matrix, x: int, y: int) {
    var p := Transform(d, x, y);
    && (p == None <==> m.divider == 0)
    && (p.Some? ==> && TowardZero(p.value.0, m.an * x + m.bn * y + m.cn, m.divider)
                    && TowardZero(p.value.1, m.dn * x + m.en * y + m.fn, m.divider))
  }

  lemma MatrixMaps(d: Data, x: int, y: int)
    requires d.threePt
    ensures MapsBy(d, d.matrix, x, y)
  {
    var m := d.matrix;
    if m.divider != 0 {
      CDivTowardZero(m.an * x + m.bn * y + m.cn, m.divider);
      CDivTowardZero(m.dn * x + m.en * y + m.fn, m.divider);
    }
  }

  lemma ThreePointIs(events: seq<Event>, m: Matrix, x: int, y: int)
    ensures MapsBy(Run(events + [SetCalibMatrix(m)]), m, x, y)
  {
    LastEvents(events, SetCalibMatrix(m), SetCalibMatrix(m));
    MatrixMaps(Run(events + [SetCalibMatrix(m)]), x, y);
  }

  lemma FileIsTaken(d: Data, ev: Event, s: Screen, max: nat, threePt: bool, raw: Raw, m: Matrix)
    requires var file := Found(threePt, raw, m); ev == SetScreen(s, file) || ev == Reset(Some(s), true, max, file)
    ensures var d' := Apply(d, ev);
            d'.threePt == threePt && d'.matrix == m && d' == TransRange(WithRaw(WithScreen(d', s), raw))
  {
  }

  /** A calibration that is found in the file, for a new screen or at a reset, is the one in use. */
  lemma FileCalibrates(events: seq<Event>, ev: Event, s: Screen, max: nat, threePt: bool, raw: Raw, m: Matrix,
                       x: int, y: int)
    requires var file := Found(threePt, raw, m); ev == SetScreen(s, file) || ev == Reset(Some(s), true, max, file)
    ensures threePt ==> MapsBy(Run(events + [ev]), m, x, y)
    ensures !threePt && Sizable(s, raw) ==> MapsCorners(Run(events + [ev]), s, raw)
  {
    var d := Run(events + [ev]);
    LastEvents(events, ev, ev);
    FileIsTaken(Run(events), ev, s, max, threePt, raw, m);
    if threePt {
      MatrixMaps(d, x, y);
    } else if Sizable(s, raw) {
      RangesMapCorners(d, s, raw);
    }
  }

  /** A multiple of the unit matrix moves no touch, whatever came before. */
  lemma UnitMatrixMovesNothing(events: seq<Event>, k: int, x: int, y: int)
    requires k != 0
    ensures Transform(Run(events + [SetCalibMatrix(Matrix(k, 0, 0, 0, k, 0, k))]), x, y) == Some((x, y))
  {
    var m := Matrix(k, 0, 0, 0, k, 0, k);
    ThreePointIs(events, m, x, y);
    var p := Transform(Run(events + [SetCalibMatrix(m)]), x, y).value;
    ExactQuotient(p.0, x, k);
    ExactQuotient(p.1, y, k);
  }

  lemma ExactQuotient(q: int, x: int, k: int)
    requires k != 0 && TowardZero(q, k * x, k)
    ensures q == x
  {
    assert q * k - k * x == (q - x) * k;
    if q > x {
      MulLe(1, q - x, Abs(k));
    } else if q < x {
      MulLe(1, x - q, Abs(k));
    }
  }

  // ---------------------------------------------------------------- the calibration-free path

  datatype Origin = UpperLeft | LowerLeft | LowerRight | UpperRight

  function AlongX(d: Data, origin: Origin, x: nat): nat
    requires x <= d.matrixMax
  {
    if origin == LowerRight || origin == UpperRight then d.matrixMax - x else x
  }

  function AlongY(d: Data, origin: Origin, y: nat): nat
    requires y <= d.matrixMax
  {
    if origin == LowerRight || origin == LowerLeft then d.matrixMax - y else y
  }

  /** calibration_free_transformation */
  function CalibrationFree(d: Data, origin: Origin, x: nat, y: nat): (int, int)
    requires x <= d.matrixMax && y <= d.matrixMax
  {
    (Unscaled(AlongX(d, origin, x), d.pointsX), Unscaled(AlongY(d, origin, y), d.pointsY))
  }

  /** The origin is the corner of the screen where the coordinates of the panel start: a touch there goes to
      that corner, one at the far corner to the opposite one, and x and y never go the wrong way. */
  lemma OriginIsCorner(d: Data, origin: Origin, x: nat, x': nat, y: nat, y': nat)
    requires x <= x' <= d.matrixMax && y <= y' <= d.matrixMax
    ensures var left, upper := origin.UpperLeft? || origin.LowerLeft?, origin.UpperLeft? || origin.UpperRight?;
            var far := (Unscaled(d.matrixMax, d.pointsX), Unscaled(d.matrixMax, d.pointsY));
            var p, p' := CalibrationFree(d, origin, x, y), CalibrationFree(d, origin, x', y');
            && CalibrationFree(d, origin, 0, 0) == (if left then 0 else far.0, if upper then 0 else far.1)
            && CalibrationFree(d, origin, d.matrixMax, d.matrixMax)
               == (if left then far.0 else 0, if upper then far.1 else 0)
            && (if left then p.0 <= p'.0 else p.0 >= p'.0) && (if upper then p.1 <= p'.1 else p.1 >= p'.1)
  {
    UnscaledMonotone(AlongX(d, UpperLeft, x), AlongX(d, UpperLeft, x'), d.pointsX);
    UnscaledMonotone(AlongX(d, UpperRight, x'), AlongX(d, UpperRight, x), d.pointsX);
    UnscaledMonotone(AlongY(d, UpperLeft, y), AlongY(d, UpperLeft, y'), d.pointsY);
    UnscaledMonotone(AlongY(d, LowerLeft, y'), AlongY(d, LowerLeft, y), d.pointsY);
    assert Unscaled(0, d.pointsX) == 0 / 0x1_0000 == 0 == Unscaled(0, d.pointsY);
  }

  predicate Touch(d: Data, origin: Origin, onX: nat -> bool, onY: nat -> bool, x: nat, y: nat)
    requires x <= d.matrixMax && y <= d.matrixMax
  {
    onX(AlongX(d, origin, x)) && onY(AlongY(d, origin, y))
  }

  /** What holds of the distances along the axes, whichever touch of the matrix they belong to. */
  ghost predicate AllTouches(d: Data, origin: Origin, onX: nat -> bool, onY: nat -> bool) {
    forall x: nat, y: nat :: x <= d.matrixMax && y <= d.matrixMax ==> Touch(d, origin, onX, onY, x, y)
  }

  /** Every touch is put on the screen. */
  ghost predicate FreeOnScreen(d: Data, origin: Origin)
    requires d.x.sh >= 0 && d.y.sh >= 0
  {
    AllTouches(d, origin, StaysOn(d.pointsX, d.x.sh), StaysOn(d.pointsY, d.y.sh))
  }

  /** Moreover, it is put within one pixel of where exact scaling would put it. */
  ghost predicate FreeClose(d: Data, origin: Origin)
    requires d.x.sh >= 0 && d.y.sh >= 0 && d.matrixMax > 0
  {
    AllTouches(d, origin, StaysClose(d.pointsX, d.x.sh, d.matrixMax), StaysClose(d.pointsY, d.y.sh, d.matrixMax))
  }

  predicate OnScreenFromZero(d: Data, p: (int, int)) {
    0 <= p.0 <= d.x.sh && 0 <= p.1 <= d.y.sh
  }

  lemma OnScreenMeans(d: Data, origin: Origin)
    requires d.x.sh >= 0 && d.y.sh >= 0
    ensures FreeOnScreen(d, origin) <==>
            forall x: nat, y: nat :: x <= d.matrixMax && y <= d.matrixMax ==>
              OnScreenFromZero(d, CalibrationFree(d, origin, x, y))
  {
    forall x: nat, y: nat | x <= d.matrixMax && y <= d.matrixMax
      ensures OnScreenFromZero(d, CalibrationFree(d, origin, x, y))
              <==> Touch(d, origin, StaysOn(d.pointsX, d.x.sh), StaysOn(d.pointsY, d.y.sh), x, y)
    {
    }
  }

  /** Every distance along an axis is that of some touch. */
  lemma AllTouchesIff(d: Data, origin: Origin, onX: nat -> bool, onY: nat -> bool)
    ensures AllTouches(d, origin, onX, onY) <==> Everywhere(d.matrixMax, onX) && Everywhere(d.matrixMax, onY)
  {
    if AllTouches(d, origin, onX, onY) {
      forall u: nat | u <= d.matrixMax ensures onX(u) && onY(u) {
        var x, y := AlongX(d, origin, u), AlongY(d, origin, u);
        assert Touch(d, origin, onX, onY, x, y);
      }
    }
  }

  lemma {:induction false} MatrixKnown(events: seq<Event>)
    ensures Run(events).init <==> Run(events).matrixMax > 0
  {
    if events != [] {
      MatrixKnown(events[..|events| - 1]);
      MatrixStaysKnown(Run(events[..|events| - 1]), events[|events| - 1]);
    }
  }

  lemma MatrixStaysKnown(d: Data, ev: Event)
    requires d.init <==> d.matrixMax > 0
    ensures Apply(d, ev).init <==> Apply(d, ev).matrixMax > 0
  {
    match ev
    case Reset(screen, supported, max, file) =>
      ResetKnowsMatrix(if screen.Some? then WithScreen(d, screen.value) else d, supported, max, file);
    case SetScreen(screen, file) => TransformKeepsMatrix(WithScreen(d, screen), file);
    case _ =>
  }

  lemma TransformKeepsMatrix(d: Data, file: CalibFile)
    ensures InitTransform(d, file).init == d.init && InitTransform(d, file).matrixMax == d.matrixMax
  {
  }

  lemma ResetKnowsMatrix(d: Data, supported: bool, max: nat, file: CalibFile)
    requires d.init <==> d.matrixMax > 0
    ensures AbsReset(d, supported, max, file).init && AbsReset(d, supported, max, file).matrixMax > 0
  {
    TransformKeepsMatrix(d, file);
    TransformKeepsMatrix(d.(init := true, matrixMax := if max == 0 then 1023 else max), file);
  }

  /** After any control events and for any origin: the calibration-free path keeps to the screen exactly if
      the far corner of the matrix does, and is exact to a pixel exactly if that corner is. */
  lemma CalibrationFreeIff(events: seq<Event>, origin: Origin)
    requires Run(events).init && Run(events).x.sh >= 0 && Run(events).y.sh >= 0
    ensures var d := Run(events);
            && d.matrixMax > 0
            && (FreeOnScreen(d, origin) <==>
                  Unscaled(d.matrixMax, d.pointsX) <= d.x.sh && Unscaled(d.matrixMax, d.pointsY) <= d.y.sh)
            && (FreeClose(d, origin) <==>
                  && d.x.sh - 1 <= Unscaled(d.matrixMax, d.pointsX) <= d.x.sh
                  && d.y.sh - 1 <= Unscaled(d.matrixMax, d.pointsY) <= d.y.sh)
  {
    var d := Run(events);
    MatrixKnown(events);
    AllTouchesIff(d, origin, StaysOn(d.pointsX, d.x.sh), StaysOn(d.pointsY, d.y.sh));
    AllTouchesIff(d, origin, StaysClose(d.pointsX, d.x.sh, d.matrixMax), StaysClose(d.pointsY, d.y.sh, d.matrixMax));
    ScaleOnScreenIff(d.pointsX, d.x.sh, d.matrixMax);
    ScaleOnScreenIff(d.pointsY, d.y.sh, d.matrixMax);
    ScaleCloseIff(d.pointsX, d.x.sh, d.matrixMax);
    ScaleCloseIff(d.pointsY, d.y.sh, d.matrixMax);
  }

  predicate OrdinarySizes(d: Data) {
    0 < d.matrixMax <= 0x1_0000 && 0 <= d.x.sh < 0x1_0000 && 0 <= d.y.sh < 0x1_0000
  }

  lemma FarEndExact(screen: nat, matrix: nat)
    requires 0 < matrix <= 0x1_0000 && screen < 0x1_0000
    ensures screen % UINT == screen && screen - 1 <= Unscaled(matrix, PointsPerPixel(screen, matrix)) <= screen
  {
    UnscaledIsClose(matrix, screen, matrix);
    WholeFraction(matrix, screen);
  }

  /** When no calibration is found, the scale that is computed for the screen is exact to a pixel. */
  lemma FallBackIsExact(events: seq<Event>, s: Screen, origin: Origin)
    requires Run(events).init && OrdinarySizes(WithScreen(Run(events), s))
    ensures var d := Run(events + [SetScreen(s, Nothing)]);
            !d.calib && OrdinarySizes(d) && FreeOnScreen(d, origin) && FreeClose(d, origin)
  {
    assert (events + [SetScreen(s, Nothing)])[..|events|] == events;
    var d := Run(events + [SetScreen(s, Nothing)]);
    assert d == InitTransform(WithScreen(Run(events), s), Nothing);
    FarEndExact(d.x.sh, d.matrixMax);
    FarEndExact(d.y.sh, d.matrixMax);
    CalibrationFreeIff(events + [SetScreen(s, Nothing)], origin);
  }

  /** A change of resolution leaves the scale as it is: touches stay on the new screen, or are right to a
      pixel, exactly if the old scale takes the far corner of the matrix there. */
  lemma ResChgIff(events: seq<Event>, s: Screen, origin: Origin)
    requires Run(events).init && s.xh >= 0 && s.yh >= 0
    ensures var d, d' := Run(events), Run(events + [ResChg(s)]);
            && d'.x.sh == s.xh && d'.y.sh == s.yh && d'.matrixMax == d.matrixMax > 0
            && (FreeOnScreen(d', origin) <==>
                  Unscaled(d.matrixMax, d.pointsX) <= s.xh && Unscaled(d.matrixMax, d.pointsY) <= s.yh)
            && (FreeClose(d', origin) <==>
                  && s.xh - 1 <= Unscaled(d.matrixMax, d.pointsX) <= s.xh
                  && s.yh - 1 <= Unscaled(d.matrixMax, d.pointsY) <= s.yh)
  {
    assert (events + [ResChg(s)])[..|events|] == events;
    CalibrationFreeIff(events + [ResChg(s)], origin);
  }

  /** The scale for 640 pixels on a matrix of 1024 points */
  lemma ScaleOf640(screen: nat, matrix: nat)
    requires screen == 639 && matrix == 1023
    ensures PointsPerPixel(screen, matrix) == 40935 && Unscaled(matrix, 40935) == 638
  {
    DivUnique(639 * 0x1_0000, 1023, 40935, 999);
    DivUnique(1023 * 40935, 0x1_0000, 638, 64537);
  }

  lemma TwoEvents(first: Event, second: Event)
    ensures Run([first] + [second]) == Apply(Apply(Initial, first), second)
  {
    assert ([first] + [second])[..1] == [first] && [first][..0] == [];
    assert Run([first]) == Apply(Run([]), first);
    assert ([first] + [second])[1] == second;
  }

  /** No calibration for the first screen, and then one of half the width: the stale scale sends touches off it. */
  lemma StaleScale(wide: Event, narrow: Event)
    requires wide == Reset(None, true, 1023, Nothing) && narrow == ResChg(Screen(0, 319, 0, 239))
    ensures var d := Run([wide] + [narrow]);
            && !d.calib && d.matrixMax == 1023 && d.x.sh == 319
            && CalibrationFree(d, UpperLeft, 1023, 1023).0 == 638 && !FreeOnScreen(d, UpperLeft)
  {
    TwoEvents(wide, narrow);
    var d := Apply(Initial, wide);
    WideScale(wide);
    assert Apply(d, narrow) == TransRange(WithScreen(d, narrow.screen));
    ScaleOf640(639, 1023);
    OnScreenMeans(Run([wide] + [narrow]), UpperLeft);
  }

  lemma WideScale(wide: Event)
    requires wide == Reset(None, true, 1023, Nothing)
    ensures var d := Apply(Initial, wide); !d.calib && d.matrixMax == 1023 && d.pointsX == 40935
  {
    var d := Initial.(init := true, matrixMax := 1023);
    assert Apply(Initial, wide) == InitTransform(d, Nothing);
    ScaleOf640(639, 1023);
    assert PointsFor(d, d.x) == PointsPerPixel(639, 1023);
  }

  // ---------------------------------------------------------------- the filter as it updates its fields

  class AbsFilter {
    var x: Axis
    var y: Axis
    var swap: bool
    var threePt: bool
    var calib: bool
    var matrix: Matrix
    var init: bool
    var matrixMax: nat
    var pointsX: nat
    var pointsY: nat
    var translate: bool

    ghost function View(): Data
      reads this
    {
      Data(x, y, swap, threePt, calib, matrix, init, matrixMax, pointsX, pointsY, translate)
    }

    constructor ()
      ensures View() == Initial
    {
      x, y := Axis(0, 0, 0, 639, 0, 0), Axis(0, 0, 0, 479, 0, 0);
      swap, threePt, calib, matrix, init := false, true, false, NO_MATRIX, false;
      matrixMax, pointsX, pointsY, translate := 0, 0, 0, true;
    }

    method SetScreenRange(s: Screen)
      modifies this`x, this`y
      ensures View() == WithScreen(old(View()), s)
    {
      x, y := x.(sl := s.xl, sh := s.xh), y.(sl := s.yl, sh := s.yh);
    }

    method SetRawRange(r: Raw)
      modifies this`x, this`y, this`swap
      ensures View() == WithRaw(old(View()), r)
    {
      x, y := x.(rl := r.xl, rh := r.xh), y.(rl := r.yl, rh := r.yh);
      swap := r.swap;
    }

    method SetTransRange()
      modifies this`x, this`y
      ensures View() == TransRange(old(View()))
    {
      x, y := x.(sd := x.sh - x.sl), y.(sd := y.sh - y.sl);
      x, y := x.(rd := x.rh - x.rl), y.(rd := y.rh - y.rl);
    }

    method Calibrate(three: bool, raw: Raw, m: Matrix)
      modifies this
      ensures View() == InitTransform(old(View()), Found(three, raw, m))
    {
      threePt, matrix := three, m;
      SetRawRange(raw);
      SetTransRange();
      calib := true;
    }

    method FallBack()
      modifies this`pointsX, this`pointsY, this`calib
      ensures View() == InitTransform(old(View()), Nothing)
    {
      var size := if matrixMax == 0 then 1023 else matrixMax;
      pointsX := PointsPerPixel(x.sh % UINT, size);
      pointsY := PointsPerPixel(y.sh % UINT, size);
      calib := false;
    }

    method BreakOff(three: bool, raw: Raw, m: Matrix)
      modifies this
      ensures View() == InitTransform(old(View()), Broken(three, raw, m))
    {
      threePt, matrix := three, m;
      SetRawRange(raw);
      calib := false;
    }

    method ReadCalibration(file: CalibFile)
      modifies this
      ensures View() == InitTransform(old(View()), file)
    {
      match file
      case Found(three, raw, m) => Calibrate(three, raw, m);
      case Nothing => FallBack();
      case Broken(three, raw, m) => BreakOff(three, raw, m);
    }

    method ResetDevice(supported: bool, max: nat, file: CalibFile)
      modifies this
      ensures View() == AbsReset(old(View()), supported, max, file)
    {
      if !init {
        init := true;
        matrixMax := if max == 0 then 1023 else max;
        if !supported { return; }
      }
      ReadCalibration(file);
    }

    /** abs_devctrl */
    method Control(ev: Event)
      modifies this
      ensures View() == Apply(old(View()), ev)
    {
      match ev
      case Reset(screen, supported, max, file) =>
        if screen.Some? { SetScreenRange(screen.value); }
        ResetDevice(supported, max, file);
      case SetScreen(screen, file) =>
        SetScreenRange(screen);
        ReadCalibration(file);
      case ResChg(screen) =>
        SetScreenRange(screen);
        SetTransRange();
      case CoordChg(raw) =>
        SetRawRange(raw);
        threePt := false;
        calib := true;
        SetTransRange();
      case SetCalibMatrix(m) =>
        matrix := m;
        threePt := true;
        calib := true;
      case AbsMode(on) => translate := on;
    }

    /** The coordinates that transform leaves, and whether it returned 0. */
    method TransformTouch(px: int, py: int) returns (ok: bool, tx: int, ty: int)
      ensures ok <==> Transform(View(), px, py).Some?
      ensures if ok then (tx, ty) == Transform(View(), px, py).value else tx == px && ty == py
      ensures ok <==> !threePt || matrix.divider != 0
      ensures threePt && ok ==>
                && TowardZero(tx, matrix.an * px + matrix.bn * py + matrix.cn, matrix.divider)
                && TowardZero(ty, matrix.dn * px + matrix.en * py + matrix.fn, matrix.divider)
    {
      ok, tx, ty := true, px, py;
      if threePt {
        if matrix.divider == 0 { return false, px, py; }
        tx := CDiv(matrix.an * px + matrix.bn * py + matrix.cn, matrix.divider);
        ty := CDiv(matrix.dn * px + matrix.en * py + matrix.fn, matrix.divider);
        CDivTowardZero(matrix.an * px + matrix.bn * py + matrix.cn, matrix.divider);
        CDivTowardZero(matrix.dn * px + matrix.en * py + matrix.fn, matrix.divider);
        return;
      }
      if swap { tx, ty := py, px; }
      tx := TransformAxis(x, tx);
      ty := TransformAxis(y, ty);
    }

    method TransformAxis(a: Axis, t: int) returns (r: int)
      ensures r == Scaled(a, t)
    {
      if a.rd == 0 { return a.sl; }
      var c := t;
      if a.rd > 0 {
        if c < a.rl { c := a.rl; } else if c > a.rh { c := a.rh; }
      } else {
        if c > a.rl { c := a.rl; } else if c < a.rh { c := a.rh; }
      }
      r := CDiv(AsLong(a.sd * (c - a.rl)), a.rd) + a.sl;
    }

    /** Control events one after another: what the lemmas say of Run holds of this filter. */
    method ControlAll(events: seq<Event>)
      requires View() == Initial
      modifies this
      ensures View() == Run(events)
    {
      for i := 0 to |events|
        invariant View() == Run(events[..i])
      {
        assert events[..i + 1][..i] == events[..i];
        Control(events[i]);
      }
      assert events[..|events|] == events;
    }
  }
}
