/** The pointer-following offsets of `MagneticElement` and `LiquidCard`
    (src/components/effects.tsx). Both measure how far the pointer is from the
    centre of the element's bounding box and scale that distance; the liquid
    card also clamps it to two pixels. The bounding box and the pointer
    coordinates are parameters. */
module Hover {

  import opened JsMath

  /** What `getBoundingClientRect()` reports for the element. */
  datatype Rect = Rect(left: real, top: real, width: real, height: real)

  function CentreX(r: Rect): real { r.left + r.width / 2.0 }
  function CentreY(r: Rect): real { r.top + r.height / 2.0 }

  /** The pointer lies over the element's box. */
  predicate Inside(r: Rect, clientX: real, clientY: real) {
    r.left <= clientX <= r.left + r.width && r.top <= clientY <= r.top + r.height
  }

  /** `(client - centre) * factor`: the offset along one axis. */
  function Pull(client: real, centre: real, factor: real): (d: real)
    ensures factor > 0.0 ==> (d > 0.0 <==> client > centre) && (d < 0.0 <==> client < centre)
    ensures factor == 0.0 || client == centre ==> d == 0.0
  {
    (client - centre) * factor
  }

  /** While the pointer is over the element, the offset is at most `factor`
      times half the element's extent. */
  lemma PullInsideBox(client: real, start: real, extent: real, factor: real)
    requires 0.0 <= factor && 0.0 <= extent
    requires start <= client <= start + extent
    ensures -factor * extent / 2.0 <= Pull(client, start + extent / 2.0, factor) <= factor * extent / 2.0
  {
    var off := client - (start + extent / 2.0);
    assert (extent / 2.0) * factor - off * factor == (extent / 2.0 - off) * factor;
    assert off * factor - (-extent / 2.0) * factor == (off + extent / 2.0) * factor;
  }

  /** The largest offset the liquid card takes on either axis, in pixels. */
  const LIMIT: real := 2.0

  /** `Math.max(-2, Math.min(2, v))`. */
  function Clamp(v: real): (r: real)
    ensures -LIMIT <= r <= LIMIT
    ensures -LIMIT <= v <= LIMIT <==> r == v
    ensures v > LIMIT ==> r == LIMIT
    ensures v < -LIMIT ==> r == -LIMIT
  {
    Max(-LIMIT, Min(LIMIT, v))
  }

  /** Clamping keeps the order of offsets and a second clamp changes nothing. */
  lemma ClampMonotoneIdempotent(u: real, v: real)
    requires u <= v
    ensures Clamp(u) <= Clamp(v)
    ensures Clamp(Clamp(v)) == Clamp(v)
  {
  }

  /** The state of `MagneticElement`: its `strength` prop, the `position` it
      is animated to, and `isHovered`. */
  class MagneticElement {
    const strength: real
    var x: real
    var y: real
    var isHovered: bool

    constructor (strength: real)
      ensures this.strength == strength
      ensures x == 0.0 && y == 0.0 && !isHovered
    {
      this.strength := strength;
      x, y := 0.0, 0.0;
      isHovered := false;
    }

    method MouseEnter()
      modifies this
      ensures isHovered && x == old(x) && y == old(y)
    {
      isHovered := true;
    }

    /** `handleMouseMove`: ignored unless hovered; otherwise the offset of the
        pointer from the box's centre, times `strength`. */
    method MouseMove(clientX: real, clientY: real, rect: Rect)
      modifies this
      ensures isHovered == old(isHovered)
      ensures !isHovered ==> x == old(x) && y == old(y)
      ensures isHovered ==> x == Pull(clientX, CentreX(rect), strength)
      ensures isHovered ==> y == Pull(clientY, CentreY(rect), strength)
      ensures isHovered && 0.0 <= strength && Inside(rect, clientX, clientY) ==>
        && -strength * rect.width / 2.0 <= x <= strength * rect.width / 2.0
        && -strength * rect.height / 2.0 <= y <= strength * rect.height / 2.0
    {
      if !isHovered {
        return;
      }
      x := Pull(clientX, CentreX(rect), strength);
      y := Pull(clientY, CentreY(rect), strength);
      if 0.0 <= strength && Inside(rect, clientX, clientY) {
        PullInsideBox(clientX, rect.left, rect.width, strength);
        PullInsideBox(clientY, rect.top, rect.height, strength);
      }
    }

    /** `handleMouseLeave`: back to rest. */
    method MouseLeave()
      modifies this
      ensures !isHovered && x == 0.0 && y == 0.0
    {
      isHovered := false;
      x, y := 0.0, 0.0;
    }
  }

  /** The state of `LiquidCard`: its `intensity` prop and the offsets
      `transformX` and `transformY`. */
  class LiquidCard {
    const intensity: real
    var transformX: real
    var transformY: real

    ghost predicate Valid()
      reads this
    {
      -LIMIT <= transformX <= LIMIT && -LIMIT <= transformY <= LIMIT
    }

    constructor (intensity: real)
      ensures Valid()
      ensures this.intensity == intensity && transformX == 0.0 && transformY == 0.0
    {
      this.intensity := intensity;
      transformX, transformY := 0.0, 0.0;
    }

    /** `handleMouseMove`: the scaled offset of the pointer from the centre,
        clamped on each axis. */
    method MouseMove(clientX: real, clientY: real, rect: Rect)
      modifies this
      ensures Valid()
      ensures transformX == Clamp(Pull(clientX, CentreX(rect), intensity))
      ensures transformY == Clamp(Pull(clientY, CentreY(rect), intensity))
    {
      transformX := Clamp(Pull(clientX, CentreX(rect), intensity));
      transformY := Clamp(Pull(clientY, CentreY(rect), intensity));
    }

    /** `handleMouseLeave`: back to rest. */
    method MouseLeave()
      modifies this
      ensures Valid()
      ensures transformX == 0.0 && transformY == 0.0
    {
      transformX, transformY := 0.0, 0.0;
    }
  }
}
