/**
 * The two coordinate conversions between the panel's physical frame
 * (native portrait, x across the short side) and the landscape-normalised
 * screen frame, for the screen rotations 0, 1 and 3 and the fall-through
 * case, and the position `Down` stores for an injected point.
 *
 * `screen` is the stored screen size, whose x is the long side; the
 * orientation is an arbitrary int and every value other than 0, 1 and 3
 * takes the fall-through branch.
 */
module Transform {
  import opened Geometry

  /** The orientations with a dedicated branch in both conversions. */
  predicate IsRotation(orientation: int)
  {
    orientation == 0 || orientation == 1 || orientation == 3
  }

  /** `v` lies in the rectangle [0, w] x [0, h]. */
  predicate InRect(v: Vector2, w: real, h: real)
  {
    0.0 <= v.x <= w && 0.0 <= v.y <= h
  }

  /**
   * Physical device coordinates to screen coordinates: scale each axis,
   * then rotate according to the orientation. Orientation 0 only scales.
   */
  function PhysicalToScreen(orientation: int, screen: Vector2, coord: Vector2, scale: Vector2): (r: Vector2)
    ensures orientation == 0 ==> r == coord.Times(scale)
  {
    var s := Vector2(coord.x * scale.x, coord.y * scale.y);
    if orientation == 0 then s
    else if orientation == 1 then Vector2(s.y, screen.y - s.x)
    else if orientation == 3 then Vector2(screen.x - s.y, s.x)
    else Vector2(screen.y - s.x, screen.x - s.y)
  }

  /**
   * Screen coordinates to physical coordinates, without scaling. For the
   * three rotations, converting the result back gives the input point; in the
   * fall-through branch it gives the point with its components swapped.
   */
  function ScreenToPhysical(orientation: int, screen: Vector2, p: Vector2): (r: Vector2)
    ensures IsRotation(orientation) ==> PhysicalToScreen(orientation, screen, r, Splat(1.0)) == p
    ensures !IsRotation(orientation) ==> PhysicalToScreen(orientation, screen, r, Splat(1.0)) == Vector2(p.y, p.x)
  {
    if orientation == 0 then p
    else if orientation == 1 then Vector2(screen.y - p.y, p.x)
    else if orientation == 3 then Vector2(p.y, screen.x - p.x)
    else Vector2(screen.y - p.y, screen.x - p.x)
  }

  /**
   * A scaled point on the portrait panel (H wide and W tall, for the screen
   * size W x H) lands on the landscape screen for orientations 1 and 3, and
   * stays on the portrait panel for every other orientation.
   */
  lemma PanelOntoScreen(orientation: int, screen: Vector2, coord: Vector2, scale: Vector2)
    requires InRect(coord.Times(scale), screen.y, screen.x)
    ensures var r := PhysicalToScreen(orientation, screen, coord, scale);
            if orientation == 1 || orientation == 3 then InRect(r, screen.x, screen.y)
            else InRect(r, screen.y, screen.x)
  {
  }

  /** Scaling is applied before the rotation. */
  lemma ScaleThenRotate(orientation: int, screen: Vector2, coord: Vector2, scale: Vector2)
    ensures PhysicalToScreen(orientation, screen, coord, scale)
         == PhysicalToScreen(orientation, screen, coord.Times(scale), Splat(1.0))
  {
  }

  /**
   * The other direction: from a physical point to the screen and back. For
   * the three rotations this is the identity; in the fall-through branch it
   * gives (H - W + y, W - H + x), for W the long and H the short side.
   */
  lemma PhysicalRoundTrip(orientation: int, screen: Vector2, p: Vector2)
    ensures IsRotation(orientation) ==>
              ScreenToPhysical(orientation, screen, PhysicalToScreen(orientation, screen, p, Splat(1.0))) == p
    ensures !IsRotation(orientation) ==>
              ScreenToPhysical(orientation, screen, PhysicalToScreen(orientation, screen, p, Splat(1.0)))
              == Vector2(screen.y - screen.x + p.y, screen.x - screen.y + p.x)
  {
  }

  /**
   * In the fall-through branch the round trip gives back the point exactly
   * when x - y equals H - W: for every screen it fails for some points, and
   * on a square screen it holds only on the diagonal.
   */
  lemma FallThroughRoundTripIff(orientation: int, screen: Vector2, p: Vector2)
    requires !IsRotation(orientation)
    ensures ScreenToPhysical(orientation, screen, PhysicalToScreen(orientation, screen, p, Splat(1.0))) == p
        <==> p.x - p.y == screen.y - screen.x
  {
    PhysicalRoundTrip(orientation, screen, p);
  }

  /** A 1920x1080 screen in orientation 1 shows the physical point (100, 200) at (200, 980). */
  lemma RotationOneExample()
    ensures PhysicalToScreen(1, Vector2(1920.0, 1080.0), Vector2(100.0, 200.0), Splat(1.0)) == Vector2(200.0, 980.0)
    ensures ScreenToPhysical(1, Vector2(1920.0, 1080.0), Vector2(200.0, 980.0)) == Vector2(100.0, 200.0)
  {
  }

  /**
   * The position `Down` stores for the requested point `q`: `q` itself when
   * it is already physical, otherwise its physical counterpart, divided
   * componentwise by the device scale. Multiplying back by the scale gives
   * the physical point.
   */
  function InjectedPosition(isPhysical: bool, orientation: int, screen: Vector2, scale: Vector2, q: Vector2): (r: Vector2)
    requires scale.NotHaveZero()
    ensures r.Times(scale) == (if isPhysical then q else ScreenToPhysical(orientation, screen, q))
  {
    var physical := if isPhysical then q else ScreenToPhysical(orientation, screen, q);
    Vector2(physical.x / scale.x, physical.y / scale.y)
  }

  /**
   * Reading the injected contact back: the reader's conversion of the stored
   * position, with the same scale, shows the requested point for the three
   * rotations; with physical input it shows the point unchanged in
   * orientation 0.
   */
  lemma InjectedPointReadsBack(isPhysical: bool, orientation: int, screen: Vector2, scale: Vector2, q: Vector2)
    requires scale.NotHaveZero()
    ensures !isPhysical && IsRotation(orientation) ==>
              PhysicalToScreen(orientation, screen, InjectedPosition(isPhysical, orientation, screen, scale, q), scale) == q
    ensures !isPhysical && !IsRotation(orientation) ==>
              PhysicalToScreen(orientation, screen, InjectedPosition(isPhysical, orientation, screen, scale, q), scale) == Vector2(q.y, q.x)
    ensures isPhysical ==>
              PhysicalToScreen(0, screen, InjectedPosition(isPhysical, 0, screen, scale, q), scale) == q
  {
    var r := InjectedPosition(isPhysical, orientation, screen, scale, q);
    ScaleThenRotate(orientation, screen, r, scale);
    ScaleThenRotate(0, screen, InjectedPosition(isPhysical, 0, screen, scale, q), scale);
  }
}
