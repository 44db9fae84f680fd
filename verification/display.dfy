/** The arithmetic of keeping the window in line with the drawn level's
    settings (engine/Instance.cs, AssertWindowCorrectness): when the window
    has to be built again, and the letterbox viewport that keeps the view's
    aspect ratio inside the window. */
module Display {
  import opened Lists
  import opened Settings
  import opened Timing

  /** A viewport in window fractions, as SFML's FloatRect. */
  datatype Rect = Rect(left: real, top: real, width: real, height: real)

  /** The viewport of a fresh SFML View: the whole window. */
  const WholeWindow: Rect := Rect(0.0, 0.0, 1.0, 1.0)

  /** The window style flags: resize and fullscreen as requested, close
      button and title bar always. */
  datatype Style = Style(resize: bool, fullscreen: bool, close: bool, titlebar: bool)

  function StyleFor(resizable: bool, fullscreen: bool): (s: Style)
    ensures s.close && s.titlebar
    ensures s.resize == resizable && s.fullscreen == fullscreen
  {
    Style(resizable, fullscreen, true, true)
  }

  /** The window must be built again when there is none, when the
      fullscreen flag it was built with differs from the requested one, or
      when it is fullscreen and its size differs from the requested
      resolution. `window` is the current window's size, if there is one. */
  predicate MustRecreate(window: Option<Vector2u>, wasFullscreen: bool, fullscreen: bool, resolution: Vector2u)
  {
    window.None? || wasFullscreen != fullscreen || (wasFullscreen && resolution != window.value)
  }

  /** An existing window is kept exactly when it was built with the
      requested fullscreen flag and, if fullscreen, already has the
      requested size; a windowed window is never rebuilt for a new size. */
  lemma {:induction false} KeepWindowExactly(window: Option<Vector2u>, wasFullscreen: bool, fullscreen: bool, resolution: Vector2u)
    requires window.Some?
    ensures !MustRecreate(window, wasFullscreen, fullscreen, resolution) <==>
      wasFullscreen == fullscreen && (fullscreen ==> window.value == resolution)
    ensures !wasFullscreen && !fullscreen ==> !MustRecreate(window, wasFullscreen, fullscreen, resolution)
  {
  }

  function Max(a: real, b: real): real
  {
    if a < b then b else a
  }

  /** The viewport of a level that is not stretched, for a window of size
      `screen` and a view of size `view`: the ratio of the two aspect ratios
      decides whether bars go left and right or above and below. A view of
      width 0 makes the float ratio 0 and its inverse infinite, which the
      first branch spells out. */
  function Letterbox(screen: Vector2u, view: Vector2u): (r: Rect)
    requires screen.x >= 1 && screen.y >= 1 && view.y >= 1
    ensures 0.0 <= r.left && 0.0 <= r.top
    ensures 0.0 <= r.width <= 1.0 && 0.0 < r.height <= 1.0
    ensures r.width == 1.0 || r.height == 1.0
    ensures r.left + r.width / 2.0 == 0.5 && r.top + r.height / 2.0 == 0.5
    ensures r.width * (screen.x as real) * (view.y as real) == r.height * (screen.y as real) * (view.x as real)
    ensures r.width == 1.0 <==> (view.x as real) * (screen.y as real) >= (view.y as real) * (screen.x as real)
    ensures r.height == 1.0 <==> (view.x as real) * (screen.y as real) <= (view.y as real) * (screen.x as real)
  {
    var screenAspectRatio := (screen.x as real) / (screen.y as real);
    var fieldAspectRatio := (view.x as real) / (view.y as real);
    var fieldToScreenRatio := fieldAspectRatio / screenAspectRatio;
    LetterboxRatio(screen, view, fieldToScreenRatio);
    if fieldToScreenRatio == 0.0 then Rect(0.5, 0.0, 0.0, 1.0)
    else Rect(
      Max(0.0, (1.0 - fieldToScreenRatio) / 2.0),
      Max(0.0, (1.0 - 1.0 / fieldToScreenRatio) / 2.0),
      Min(1.0, fieldToScreenRatio),
      Min(1.0 / fieldToScreenRatio, 1.0))
  }

  /** The ratio of aspect ratios, cleared of its divisions. */
  lemma LetterboxRatio(screen: Vector2u, view: Vector2u, ratio: real)
    requires screen.x >= 1 && screen.y >= 1 && view.y >= 1
    requires ratio == ((view.x as real) / (view.y as real)) / ((screen.x as real) / (screen.y as real))
    ensures ratio >= 0.0
    ensures ratio * (screen.x as real) * (view.y as real) == (screen.y as real) * (view.x as real)
    ensures ratio >= 1.0 <==> (view.x as real) * (screen.y as real) >= (view.y as real) * (screen.x as real)
    ensures ratio <= 1.0 <==> (view.x as real) * (screen.y as real) <= (view.y as real) * (screen.x as real)
  {
    var sx, sy, vx, vy := screen.x as real, screen.y as real, view.x as real, view.y as real;
    assert (vx / vy) * vy == vx;
    assert (sx / sy) * sy == sx;
    assert ratio * (sx / sy) == vx / vy;
    calc {
      ratio * sx * vy;
      ratio * ((sx / sy) * sy) * vy;
      (ratio * (sx / sy)) * sy * vy;
      (vx / vy) * sy * vy;
      sy * ((vx / vy) * vy);
      sy * vx;
    }
    var d := sx * vy;
    assert d > 0.0;
    assert ratio * d == sy * vx;
    if ratio >= 1.0 {
      assert ratio * d >= 1.0 * d;
    } else {
      assert ratio * d < 1.0 * d;
    }
    if ratio <= 1.0 {
      assert ratio * d <= 1.0 * d;
    } else {
      assert ratio * d > 1.0 * d;
    }
  }

  /** A view with the window's own aspect ratio fills the whole window. */
  lemma LetterboxSameAspect(screen: Vector2u, view: Vector2u)
    requires screen.x >= 1 && screen.y >= 1 && view.x >= 1 && view.y >= 1
    requires (view.x as real) * (screen.y as real) == (view.y as real) * (screen.x as real)
    ensures Letterbox(screen, view) == WholeWindow
  {
  }

  /** The SFML view the window is given: the level's view size and centre,
      with the letterbox viewport unless the level is stretched. */
  datatype View = View(width: real, height: real, centerX: real, centerY: real, viewport: Rect)

  function ViewFor(screen: Vector2u, viewSize: Vector2u, viewCenter: Vector2i, stretched: bool): (v: View)
    requires screen.x >= 1 && screen.y >= 1 && viewSize.y >= 1
    ensures v.width == viewSize.x as real && v.height == viewSize.y as real
    ensures v.centerX == viewCenter.x as real && v.centerY == viewCenter.y as real
    ensures stretched ==> v.viewport == WholeWindow
    ensures !stretched ==> v.viewport.width <= 1.0 && v.viewport.height <= 1.0
  {
    View(viewSize.x as real, viewSize.y as real, viewCenter.x as real, viewCenter.y as real,
      if stretched then WholeWindow else Letterbox(screen, viewSize))
  }
}
