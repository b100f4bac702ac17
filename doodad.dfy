/** doodad.py: decorations placed on the map. A doodad never moves; the only
    field anything writes after construction is `drawForeground`, the
    one-tick request to draw its foreground slice over the trainer. */
module Doodads {
  import opened Vector

  /** Default proximity threshold of `Doodad.is_nearby`. */
  const NearbyThreshold: int := 64

  /** `width` and `height` are those of the doodad's image, which gives its
      `rect`. */
  datatype Doodad = Doodad(
    kind: string,
    location: Vec,
    showInFront: bool,
    drawForeground: bool,
    width: nat,
    height: nat)

  /** The constructor: a new doodad never asks for a foreground draw. */
  function NewDoodad(kind: string, location: Vec, showInFront: bool, width: nat, height: nat): (d: Doodad)
    ensures !d.drawForeground
    ensures d.location == location && d.showInFront == showInFront && d.kind == kind
    ensures d.width == width && d.height == height
  {
    Doodad(kind, location, showInFront, false, width, height)
  }

  /** Pixel position of the doodad's top-left corner: 16 pixels per tile. */
  function Coords(d: Doodad): (r: (real, real))
    ensures r.0 * 10.0 == 16.0 * d.location.x as real
    ensures r.1 * 10.0 == 16.0 * d.location.y as real
  {
    (16.0 * d.location.x as real / 10.0, 16.0 * d.location.y as real / 10.0)
  }

  /** Pixel centre as the source computes it: half the width to the right of
      `Coords`, half the height above it. */
  function Center(d: Doodad): (r: (real, real))
    ensures r.0 == Coords(d).0 + d.width as real / 2.0
    ensures r.1 == Coords(d).1 - d.height as real / 2.0
  {
    var (x, y) := Coords(d);
    (x + d.width as real / 2.0, y - d.height as real / 2.0)
  }

  /** `is_nearby(point, threshold)`: within `threshold` tiles on both axes. */
  function IsNearby(d: Doodad, point: Vec, threshold: int := NearbyThreshold): (r: bool)
    ensures r <==> Abs(d.location.x - point.x) <= 10 * threshold
                   && Abs(d.location.y - point.y) <= 10 * threshold
  {
    if Abs(d.location.x - point.x) <= 10 * threshold then
      Abs(d.location.y - point.y) <= 10 * threshold
    else
      false
  }
}
