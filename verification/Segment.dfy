// Locating a vehicle on the polyline of its stops: by the last stop it reported, otherwise
// by the nearest point of any segment. Coordinates are reals.
module Segment {
  import opened Wrappers
  import opened Timetable
  import Text

  // ---------------------------------------------------------------- stop identities

  /** The first run of digits, if any; `\d` matches ASCII digits only. */
  function FirstDigits(s: string): string {
    if s == "" then "" else if Text.IsDigit(s[0]) then DigitPrefix(s) else FirstDigits(s[1..])
  }

  function DigitPrefix(s: string): (r: string)
    ensures r <= s && Text.IsDigits(r)
    ensures |r| < |s| ==> !Text.IsDigit(s[|r|])
  {
    if s != "" && Text.IsDigit(s[0]) then [s[0]] + DigitPrefix(s[1..]) else ""
  }

  function NormalizeStopIdentity(value: string): string {
    var trimmed := Text.TrimSpace(value);
    var digits := FirstDigits(trimmed);
    if digits != "" then digits else trimmed
  }

  /** `r` is the run of digits at `k`, and there is no digit before it. */
  ghost predicate IsFirstRunAt(s: string, k: int, r: string) {
    0 <= k <= |s| && (forall i :: 0 <= i < k ==> !Text.IsDigit(s[i])) && r == DigitPrefix(s[k..])
  }

  lemma RunShifts(s: string, k: int, r: string)
    requires s != "" && !Text.IsDigit(s[0]) && IsFirstRunAt(s[1..], k, r)
    ensures IsFirstRunAt(s, k + 1, r)
  {
    assert s[1..][k..] == s[k + 1..];
    assert forall i :: 0 < i < |s| ==> s[i] == s[1..][i - 1];
  }

  lemma {:induction false} FirstDigitsIsTheFirstRun(s: string)
    ensures var r := FirstDigits(s);
      && Text.IsDigits(r)
      && (r == "" <==> forall i :: 0 <= i < |s| ==> !Text.IsDigit(s[i]))
      && exists k :: IsFirstRunAt(s, k, r)
  {
    if s == "" {
      assert IsFirstRunAt(s, 0, "");
    } else if Text.IsDigit(s[0]) {
      assert s[0..] == s;
      assert IsFirstRunAt(s, 0, FirstDigits(s));
    } else {
      FirstDigitsIsTheFirstRun(s[1..]);
      assert forall i :: 0 < i < |s| ==> s[i] == s[1..][i - 1];
      assert forall i :: 0 <= i < |s| - 1 ==> s[1..][i] == s[i + 1];
      var k :| IsFirstRunAt(s[1..], k, FirstDigits(s[1..]));
      RunShifts(s, k, FirstDigits(s));
      hide IsFirstRunAt, DigitPrefix;
    }
  }

  lemma {:induction false} DigitsAreTheirOwnRun(s: string)
    requires Text.IsDigits(s)
    ensures FirstDigits(s) == s && DigitPrefix(s) == s
  {
    if s != "" {
      DigitsAreTheirOwnRun(s[1..]);
      assert s == [s[0]] + s[1..];
    }
  }

  ghost predicate HasDigit(s: string) { exists i :: 0 <= i < |s| && Text.IsDigit(s[i]) }

  lemma NumberIsNormal(r: string)
    requires r != "" && Text.IsDigits(r)
    ensures NormalizeStopIdentity(r) == r
  {
    DigitsAreTheirOwnRun(r);
    assert forall i :: 0 <= i < |r| ==> Text.IsDigit(r[i]) && !Text.IsSpace(r[i]);
    Text.TrimSpaceKeepsTrimmed(r);
    hide FirstDigits, DigitPrefix, Text.TrimSpace;
  }

  lemma FirstDigitsOf(s: string)
    ensures Text.IsDigits(FirstDigits(s)) && (FirstDigits(s) != "" <==> HasDigit(s))
  {
    FirstDigitsIsTheFirstRun(s);
    hide FirstDigits, IsFirstRunAt;
  }

  /** An identity is a number if the value holds one, otherwise the trimmed value; normalizing again changes nothing. */
  lemma NormalizeIsIdempotent(value: string)
    ensures var r := NormalizeStopIdentity(value);
      && NormalizeStopIdentity(r) == r
      && (if HasDigit(Text.TrimSpace(value)) then r != "" && Text.IsDigits(r) else r == Text.TrimSpace(value))
  {
    var trimmed := Text.TrimSpace(value);
    var r := NormalizeStopIdentity(value);
    FirstDigitsOf(trimmed);
    hide FirstDigits, HasDigit;
    if FirstDigits(trimmed) != "" {
      NumberIsNormal(r);
    } else {
      Text.TrimSpaceKeepsTrimmed(r);
    }
  }

  // ---------------------------------------------------------------- projection

  predicate ValidCoords(lat: real, lng: real) { !(lat == 0.0 && lng == 0.0) }

  function Clamp(t: real): real { if t < 0.0 then 0.0 else if t > 1.0 then 1.0 else t }

  function Dot(ux: real, uy: real, vx: real, vy: real): real { ux * vx + uy * vy }

  /** `t` of the orthogonal projection of `(wx, wy)` on `(vx, vy)`, kept on the segment. */
  function Projection(wx: real, wy: real, vx: real, vy: real): real
    requires Dot(vx, vy, vx, vy) != 0.0
  {
    Clamp(Dot(wx, wy, vx, vy) / Dot(vx, vy, vx, vy))
  }

  function PointToSegmentDistanceSquared(fromX: real, fromY: real, toX: real, toY: real, px: real, py: real): real {
    var vx := toX - fromX;
    var vy := toY - fromY;
    if Dot(vx, vy, vx, vy) == 0.0 then
      Dot(px - fromX, py - fromY, px - fromX, py - fromY)
    else
      var t := Projection(px - fromX, py - fromY, vx, vy);
      var dx := px - (fromX + t * vx);
      var dy := py - (fromY + t * vy);
      Dot(dx, dy, dx, dy)
  }

  function SegmentProgress(from: StopMetadata, to: StopMetadata, lat: real, lng: real): real {
    if !ValidCoords(from.lat, from.lng) || !ValidCoords(to.lat, to.lng) || !ValidCoords(lat, lng) then 0.0
    else
      var vx := to.lat - from.lat;
      var vy := to.lng - from.lng;
      if Dot(vx, vy, vx, vy) == 0.0 then 0.0
      else Projection(lat - from.lat, lng - from.lng, vx, vy)
  }

  /** Squared distance from `(px, py)` to the point at `s` on the way from the one end to the other. */
  ghost function DistanceAt(fromX: real, fromY: real, toX: real, toY: real, px: real, py: real, s: real): real {
    var dx := px - (fromX + s * (toX - fromX));
    var dy := py - (fromY + s * (toY - fromY));
    dx * dx + dy * dy
  }

  lemma SquaresAreNonNegative(x: real)
    ensures x * x >= 0.0
  {
  }

  function Square(x: real): real { x * x }

  function Product(x: real, y: real): real { x * y }

  lemma PositiveProduct(x: real, y: real)
    requires x > 0.0 && y > 0.0
    ensures Product(x, y) > 0.0
  {
  }

  lemma PositiveSquare(x: real)
    requires x > 0.0
    ensures Square(x) > 0.0
  {
    PositiveProduct(x, x);
    assert Square(x) == Product(x, x);
    hide Square, Product;
  }

  lemma SquareSigns(x: real)
    ensures Square(x) >= 0.0
    ensures x > 0.0 || x < 0.0 ==> Square(x) > 0.0
  {
    assert Square(0.0) == 0.0;
    assert Square(-x) == Square(x);
    if x > 0.0 {
      PositiveSquare(x);
    } else if x < 0.0 {
      PositiveSquare(-x);
    }
    hide Square;
  }

  lemma LengthIsSumOfSquares(vx: real, vy: real)
    ensures Dot(vx, vy, vx, vy) == Square(vx) + Square(vy)
    ensures vx == 0.0 && vy == 0.0 ==> Dot(vx, vy, vx, vy) == 0.0
  {
  }

  lemma LengthSigns(vx: real, vy: real)
    ensures Dot(vx, vy, vx, vy) >= 0.0
    ensures Dot(vx, vy, vx, vy) == 0.0 <==> vx == 0.0 && vy == 0.0
  {
    SquareSigns(vx);
    SquareSigns(vy);
    LengthIsSumOfSquares(vx, vy);
    hide Square, Dot;
  }

  /** The distance along a segment is a parabola in `s`. */
  lemma DistanceIsParabola(wx: real, wy: real, vx: real, vy: real, s: real)
    ensures (wx - s * vx) * (wx - s * vx) + (wy - s * vy) * (wy - s * vy)
         == Dot(wx, wy, wx, wy) - 2.0 * s * Dot(wx, wy, vx, vy) + s * s * Dot(vx, vy, vx, vy)
  {
  }

  /** A clamped apex is nearer to the apex than any other point of the interval. */
  lemma ClampIsNearest(q: real, s: real)
    requires 0.0 <= s <= 1.0
    ensures (Clamp(q) - q) * (Clamp(q) - q) <= (s - q) * (s - q)
  {
    var t := Clamp(q);
    if q < 0.0 {
      assert (s - q) * (s - q) - (t - q) * (t - q) == s * (s - 2.0 * q);
      ScaledOrder(s, s - 2.0 * q);
    } else if q > 1.0 {
      assert (s - q) * (s - q) - (t - q) * (t - q) == (1.0 - s) * (2.0 * q - s - 1.0);
      ScaledOrder(1.0 - s, 2.0 * q - s - 1.0);
    } else {
      SquaresAreNonNegative(s - q);
    }
  }

  /** A parabola that opens upwards is ordered by the distance from its apex. */
  lemma ParabolaOrder(length: real, dot: real, s: real, t: real)
    requires length > 0.0
    requires (t - dot / length) * (t - dot / length) <= (s - dot / length) * (s - dot / length)
    ensures -2.0 * t * dot + t * t * length <= -2.0 * s * dot + s * s * length
  {
    var q := dot / length;
    var difference := (s - q) * (s - q) - (t - q) * (t - q);
    assert dot == q * length;
    assert -2.0 * s * (q * length) + s * s * length == length * (s * s - 2.0 * s * q);
    assert -2.0 * t * (q * length) + t * t * length == length * (t * t - 2.0 * t * q);
    assert difference == (s * s - 2.0 * s * q) - (t * t - 2.0 * t * q);
    ScaledOrder(length, difference);
    assert length * difference == length * (s * s - 2.0 * s * q) - length * (t * t - 2.0 * t * q);
  }

  lemma ScaledOrder(length: real, difference: real)
    requires length >= 0.0 && difference >= 0.0
    ensures length * difference >= 0.0
  {
  }

  /** The clamped projection is a nearest point of the segment. */
  lemma ProjectionIsOptimal(wx: real, wy: real, vx: real, vy: real, s: real)
    requires Dot(vx, vy, vx, vy) != 0.0 && 0.0 <= s <= 1.0
    ensures var t := Projection(wx, wy, vx, vy);
      (wx - t * vx) * (wx - t * vx) + (wy - t * vy) * (wy - t * vy)
      <= (wx - s * vx) * (wx - s * vx) + (wy - s * vy) * (wy - s * vy)
  {
    var length, dot := Dot(vx, vy, vx, vy), Dot(wx, wy, vx, vy);
    var t := Projection(wx, wy, vx, vy);
    LengthSigns(vx, vy);
    DistanceIsParabola(wx, wy, vx, vy, t);
    DistanceIsParabola(wx, wy, vx, vy, s);
    ClampIsNearest(dot / length, s);
    ParabolaOrder(length, dot, s, t);
  }

  lemma DistanceFromOffset(fromX: real, fromY: real, toX: real, toY: real, px: real, py: real, s: real)
    ensures var (wx, wy, vx, vy) := (px - fromX, py - fromY, toX - fromX, toY - fromY);
      DistanceAt(fromX, fromY, toX, toY, px, py, s) == (wx - s * vx) * (wx - s * vx) + (wy - s * vy) * (wy - s * vy)
  {
    assert px - (fromX + s * (toX - fromX)) == (px - fromX) - s * (toX - fromX);
    assert py - (fromY + s * (toY - fromY)) == (py - fromY) - s * (toY - fromY);
  }

  lemma NoLengthNoMatter(fromX: real, fromY: real, px: real, py: real, s: real)
    ensures DistanceAt(fromX, fromY, fromX, fromY, px, py, s) == Dot(px - fromX, py - fromY, px - fromX, py - fromY)
  {
    assert s * (fromX - fromX) == 0.0 && s * (fromY - fromY) == 0.0;
  }

  lemma ProjectionInRange(wx: real, wy: real, vx: real, vy: real)
    requires Dot(vx, vy, vx, vy) != 0.0
    ensures 0.0 <= Projection(wx, wy, vx, vy) <= 1.0
  {
  }

  /** The computed distance is the least over the whole segment, and it is attained at the progress. */
  lemma DistanceIsTheLeast(from: StopMetadata, to: StopMetadata, lat: real, lng: real, s: real)
    requires ValidCoords(from.lat, from.lng) && ValidCoords(to.lat, to.lng) && ValidCoords(lat, lng) && 0.0 <= s <= 1.0
    ensures var distance := PointToSegmentDistanceSquared(from.lat, from.lng, to.lat, to.lng, lat, lng);
      var progress := SegmentProgress(from, to, lat, lng);
      && 0.0 <= progress <= 1.0
      && distance == DistanceAt(from.lat, from.lng, to.lat, to.lng, lat, lng, progress)
      && distance <= DistanceAt(from.lat, from.lng, to.lat, to.lng, lat, lng, s)
  {
    var wx, wy, vx, vy := lat - from.lat, lng - from.lng, to.lat - from.lat, to.lng - from.lng;
    LengthSigns(vx, vy);
    if Dot(vx, vy, vx, vy) == 0.0 {
      assert to.lat == from.lat && to.lng == from.lng;
      NoLengthNoMatter(from.lat, from.lng, lat, lng, s);
      NoLengthNoMatter(from.lat, from.lng, lat, lng, 0.0);
      hide DistanceAt, Dot;
    } else {
      var t := Projection(wx, wy, vx, vy);
      ProjectionInRange(wx, wy, vx, vy);
      ProjectionIsOptimal(wx, wy, vx, vy, s);
      DistanceFromOffset(from.lat, from.lng, to.lat, to.lng, lat, lng, s);
      DistanceFromOffset(from.lat, from.lng, to.lat, to.lng, lat, lng, t);
      DistanceIsAttained(from.lat, from.lng, to.lat, to.lng, lat, lng);
      hide DistanceAt, Dot, Projection;
      assert SegmentProgress(from, to, lat, lng) == t;
      hide PointToSegmentDistanceSquared, SegmentProgress;
    }
  }

  lemma DistanceIsAttained(fromX: real, fromY: real, toX: real, toY: real, px: real, py: real)
    requires Dot(toX - fromX, toY - fromY, toX - fromX, toY - fromY) != 0.0
    ensures PointToSegmentDistanceSquared(fromX, fromY, toX, toY, px, py)
         == DistanceAt(fromX, fromY, toX, toY, px, py, Projection(px - fromX, py - fromY, toX - fromX, toY - fromY))
  {
    hide Projection;
  }

  // ---------------------------------------------------------------- choosing a segment

  function PowerOfTwo(n: nat): nat { if n == 0 then 1 else 2 * PowerOfTwo(n - 1) }

  /** math.MaxFloat64. */
  const MAX_FLOAT64: real := (0x1F_FFFF_FFFF_FFFF * PowerOfTwo(971)) as real

  predicate ValidSegment(stops: seq<StopMetadata>, i: int) {
    0 <= i < |stops| - 1 && ValidCoords(stops[i].lat, stops[i].lng) && ValidCoords(stops[i + 1].lat, stops[i + 1].lng)
  }

  function SegmentDistance(stops: seq<StopMetadata>, i: int, lat: real, lng: real): real
    requires 0 <= i < |stops| - 1
  {
    PointToSegmentDistanceSquared(stops[i].lat, stops[i].lng, stops[i + 1].lat, stops[i + 1].lng, lat, lng)
  }

  /** The leftmost nearest among the valid segments before `n` whose distance a float can hold. */
  ghost predicate IsNearest(stops: seq<StopMetadata>, n: int, lat: real, lng: real, best: Option<nat>) {
    match best
    case None => forall i :: ValidSegment(stops, i) && i < n ==> SegmentDistance(stops, i, lat, lng) >= MAX_FLOAT64
    case Some(b) =>
      && ValidSegment(stops, b) && b < n && SegmentDistance(stops, b, lat, lng) < MAX_FLOAT64
      && forall i :: ValidSegment(stops, i) && i < n ==>
           if i < b then SegmentDistance(stops, b, lat, lng) < SegmentDistance(stops, i, lat, lng)
           else SegmentDistance(stops, b, lat, lng) <= SegmentDistance(stops, i, lat, lng)
  }

  method NearestStopSegmentIndex(stops: seq<StopMetadata>, lat: real, lng: real) returns (index: Option<nat>)
    ensures ValidCoords(lat, lng) ==> IsNearest(stops, |stops| - 1, lat, lng, index)
    ensures !ValidCoords(lat, lng) ==> index.None?
  {
    hide PointToSegmentDistanceSquared;
    if |stops| < 2 || !ValidCoords(lat, lng) {
      return None;
    }
    index := None;
    var bestDistance := MAX_FLOAT64;
    for i := 0 to |stops| - 1
      invariant IsNearest(stops, i, lat, lng, index)
      invariant bestDistance == if index.Some? then SegmentDistance(stops, index.value, lat, lng) else MAX_FLOAT64
    {
      if ValidCoords(stops[i].lat, stops[i].lng) && ValidCoords(stops[i + 1].lat, stops[i + 1].lng) {
        var distance := PointToSegmentDistanceSquared(stops[i].lat, stops[i].lng, stops[i + 1].lat, stops[i + 1].lng,
                                                      lat, lng);
        if distance < bestDistance {
          bestDistance := distance;
          index := Some(i);
        }
      }
    }
  }

  /** `i` starts a segment at a stop with that identity. */
  predicate StartsAt(stops: seq<StopMetadata>, i: int, identity: string) {
    0 <= i < |stops| - 1 && NormalizeStopIdentity(stops[i].id) == identity
  }

  method SegmentIndexFromLastStop(stops: seq<StopMetadata>, lastStopID: string) returns (index: Option<nat>)
    ensures var identity := NormalizeStopIdentity(lastStopID);
      match index
      case None => identity == "" || forall i :: !StartsAt(stops, i, identity)
      case Some(b) =>
        && identity != "" && StartsAt(stops, b, identity)
        && forall i :: StartsAt(stops, i, identity) ==> i <= b
  {
    var identity := NormalizeStopIdentity(lastStopID);
    hide NormalizeStopIdentity;
    if identity == "" || |stops| < 2 {
      return None;
    }
    index := None;
    for i := 0 to |stops| - 1
      invariant match index
        case None => forall j :: StartsAt(stops, j, identity) ==> j >= i
        case Some(b) => StartsAt(stops, b, identity) && forall j :: StartsAt(stops, j, identity) && j < i ==> j <= b
    {
      if NormalizeStopIdentity(stops[i].id) == identity {
        index := Some(i);
      }
    }
  }

  // ---------------------------------------------------------------- the match

  datatype SegmentMatch = SegmentMatch(index: nat, from: StopMetadata, to: StopMetadata, progress: real)

  function NewSegmentMatch(stops: seq<StopMetadata>, index: nat, lat: real, lng: real): Option<SegmentMatch> {
    if index >= |stops| - 1 then None
    else Some(SegmentMatch(index, stops[index], stops[index + 1],
                           SegmentProgress(stops[index], stops[index + 1], lat, lng)))
  }

  /** The origin of the coordinates stands for a missing position. */
  ghost predicate IsLocated(lat: real, lng: real) { lat != 0.0 || lng != 0.0 }

  /** The progress of a vehicle between two stops: where the segment comes nearest to it, and 0 where a position is
      missing or the stops lie at one place. */
  ghost predicate IsProgress(from: StopMetadata, to: StopMetadata, lat: real, lng: real, progress: real) {
    && 0.0 <= progress <= 1.0
    && if IsLocated(from.lat, from.lng) && IsLocated(to.lat, to.lng) && IsLocated(lat, lng)
          && !(from.lat == to.lat && from.lng == to.lng)
       then forall s :: 0.0 <= s <= 1.0 ==>
              DistanceAt(from.lat, from.lng, to.lat, to.lng, lat, lng, progress)
              <= DistanceAt(from.lat, from.lng, to.lat, to.lng, lat, lng, s)
       else progress == 0.0
  }

  lemma SegmentProgressIsProgress(from: StopMetadata, to: StopMetadata, lat: real, lng: real)
    ensures IsProgress(from, to, lat, lng, SegmentProgress(from, to, lat, lng))
  {
    if ValidCoords(from.lat, from.lng) && ValidCoords(to.lat, to.lng) && ValidCoords(lat, lng) {
      DistanceIsTheLeast(from, to, lat, lng, 0.0);
      forall s | 0.0 <= s <= 1.0 { DistanceIsTheLeast(from, to, lat, lng, s); }
      LengthSigns(to.lat - from.lat, to.lng - from.lng);
      hide PointToSegmentDistanceSquared, DistanceAt, Dot, Projection;
    }
  }

  /** No segment starts at the reported last stop. */
  ghost predicate LastStopUnknown(stops: seq<StopMetadata>, lastStopID: string) {
    var identity := NormalizeStopIdentity(lastStopID);
    identity == "" || forall i :: !StartsAt(stops, i, identity)
  }

  ghost predicate OnPolyline(stops: seq<StopMetadata>, i: int, s: real) { ValidSegment(stops, i) && 0.0 <= s <= 1.0 }

  /** The point of the match is a nearest point to the vehicle over every point of every valid segment. */
  ghost predicate IsNearestPoint(stops: seq<StopMetadata>, m: SegmentMatch, lat: real, lng: real) {
    && 0.0 <= m.progress <= 1.0
    && forall i, s | OnPolyline(stops, i, s) ::
         DistanceAt(m.from.lat, m.from.lng, m.to.lat, m.to.lng, lat, lng, m.progress)
         <= DistanceAt(stops[i].lat, stops[i].lng, stops[i + 1].lat, stops[i + 1].lng, lat, lng, s)
  }

  lemma NearestSegmentHasNearestPoint(stops: seq<StopMetadata>, b: nat, lat: real, lng: real)
    requires ValidCoords(lat, lng) && IsNearest(stops, |stops| - 1, lat, lng, Some(b))
    ensures IsNearestPoint(stops, NewSegmentMatch(stops, b, lat, lng).value, lat, lng)
  {
    DistanceIsTheLeast(stops[b], stops[b + 1], lat, lng, 0.0);
    forall i, s | OnPolyline(stops, i, s)
      ensures SegmentDistance(stops, b, lat, lng)
           <= DistanceAt(stops[i].lat, stops[i].lng, stops[i + 1].lat, stops[i + 1].lng, lat, lng, s)
    {
      DistanceIsTheLeast(stops[i], stops[i + 1], lat, lng, s);
    }
    hide PointToSegmentDistanceSquared, SegmentProgress, DistanceAt;
  }

  method BuildSegmentMatch(definition: Option<seq<StopMetadata>>, lastStopID: string, lat: real, lng: real)
    returns (result: Option<SegmentMatch>)
    ensures result.Some? ==>
      && definition.Some? && result.value.index < |definition.value| - 1
      && result.value.from == definition.value[result.value.index]
      && result.value.to == definition.value[result.value.index + 1]
      && IsProgress(result.value.from, result.value.to, lat, lng, result.value.progress)
    ensures definition.Some? && !LastStopUnknown(definition.value, lastStopID) ==>
      && result.Some? && StartsAt(definition.value, result.value.index, NormalizeStopIdentity(lastStopID))
      && forall i :: StartsAt(definition.value, i, NormalizeStopIdentity(lastStopID)) ==> i <= result.value.index
    ensures definition.Some? && LastStopUnknown(definition.value, lastStopID) && ValidCoords(lat, lng) ==>
      && IsNearest(definition.value, |definition.value| - 1, lat, lng,
                   if result.Some? then Some(result.value.index) else None)
      && (result.Some? ==> IsNearestPoint(definition.value, result.value, lat, lng))
    ensures definition.None? || (LastStopUnknown(definition.value, lastStopID) && !ValidCoords(lat, lng)) ==>
        result.None?
  {
    hide PointToSegmentDistanceSquared, SegmentProgress, NormalizeStopIdentity, IsProgress;
    if definition.None? || |definition.value| < 2 {
      return None;
    }
    var stops := definition.value;
    var index := SegmentIndexFromLastStop(stops, lastStopID);
    if index.Some? {
      SegmentProgressIsProgress(stops[index.value], stops[index.value + 1], lat, lng);
      return NewSegmentMatch(stops, index.value, lat, lng);
    }
    index := NearestStopSegmentIndex(stops, lat, lng);
    if index.Some? {
      NearestSegmentHasNearestPoint(stops, index.value, lat, lng);
      SegmentProgressIsProgress(stops[index.value], stops[index.value + 1], lat, lng);
      return NewSegmentMatch(stops, index.value, lat, lng);
    }
    return None;
  }
}
