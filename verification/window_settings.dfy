/** The window requirements a level declares: resolution, view, and the
    stretched, fullscreen and resizable flags (engine/WindowSettings.cs). */
module Settings {

  /** The component type of SFML's Vector2u. */
  newtype u32 = x: int | 0 <= x < 0x1_0000_0000

  /** The component type of SFML's Vector2i. */
  newtype i32 = x: int | -0x8000_0000 <= x < 0x8000_0000

  datatype Vector2u = Vector2u(x: u32, y: u32)
  datatype Vector2i = Vector2i(x: i32, y: i32)

  /** The resolution the setter stores for a requested one. */
  function ClampResolution(v: Vector2u): (r: Vector2u)
    ensures r.x >= 1 && r.y >= 1
    ensures r.x >= v.x && r.y >= v.y
    ensures v.x >= 1 ==> r.x == v.x
    ensures v.y >= 1 ==> r.y == v.y
  {
    Vector2u(if v.x < 1 then 1 else v.x, if v.y < 1 then 1 else v.y)
  }

  /** The stored resolution is the least one that is at least 1x1 and at
      least the requested one in each component. */
  lemma ClampIsLeast(v: Vector2u, w: Vector2u)
    requires w.x >= 1 && w.y >= 1 && w.x >= v.x && w.y >= v.y
    ensures ClampResolution(v).x <= w.x && ClampResolution(v).y <= w.y
  {
  }

  /** Clamping twice is clamping once. */
  lemma ClampIdempotent(v: Vector2u)
    ensures ClampResolution(ClampResolution(v)) == ClampResolution(v)
  {
  }

  class WindowSettings {
    /** The size of the part of the world shown. */
    var viewSize: Vector2u
    /** Where the camera is. */
    var viewCenterPos: Vector2i
    /** Stretch the view over the window instead of adding black bars. */
    var stretched: bool
    var fullscreen: bool
    var resizable: bool
    /** The backing field of the Resolution property. */
    var resolution: Vector2u

    /** The Resolution property never holds a component below 1. */
    ghost predicate Valid()
      reads this
    {
      resolution.x >= 1 && resolution.y >= 1
    }

    /** The field initialisers: a 640x480 window with the view centred on
        its middle, windowed, not stretched and not resizable. */
    constructor ()
      ensures Valid()
      ensures resolution == Vector2u(640, 480)
      ensures viewSize == Vector2u(640, 480) && viewCenterPos == Vector2i(320, 240)
      ensures !stretched && !fullscreen && !resizable
    {
      viewSize := Vector2u(640, 480);
      viewCenterPos := Vector2i(640 / 2, 480 / 2);
      stretched := false;
      fullscreen := false;
      resizable := false;
      resolution := Vector2u(640, 480);
    }

    /** The Resolution getter. */
    function Resolution(): (r: Vector2u)
      reads this
      requires Valid()
      ensures r.x >= 1 && r.y >= 1
    {
      resolution
    }

    /** The Resolution setter: each component is raised to at least 1;
        setting the current value again changes nothing. */
    method SetResolution(value: Vector2u)
      modifies this`resolution
      ensures Valid()
      ensures resolution == ClampResolution(value)
      ensures old(Valid()) && value == old(resolution) ==> resolution == old(resolution)
    {
      resolution := Vector2u(if value.x < 1 then 1 else value.x, if value.y < 1 then 1 else value.y);
    }
  }
}
