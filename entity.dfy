/** entity.py: the animated sprite base. An entity has a grid position, an
    action and a facing that choose its sprite sheet, and a frame counter
    that advances the frame index every `frameDelay` ticks. Image surfaces
    are not modelled: a drawn image is the (action, facing, frame) triple
    that selects it, and a sheet is known by its frame count. */
module Entities {
  import opened Vector
  import opened Wrappers

  datatype Action = Stand | Walk | Run

  /** Encoded 0..3 so that it can index the per-action image list. */
  datatype Facing = Up | Down | Left | Right {
    function Index(): (i: nat)
      ensures i < 4
    {
      match this
      case Up => 0
      case Down => 1
      case Left => 2
      case Right => 3
    }
  }

  function FacingOfIndex(i: nat): (f: Facing)
    requires i < 4
    ensures f.Index() == i
  {
    if i == 0 then Up else if i == 1 then Down else if i == 2 then Left else Right
  }

  /** The loaded sprite sheets: `count(action, facing)` is
      `len(images[action][facing])`; every frame image is `width` by
      `height` pixels. */
  datatype Sheet = Sheet(count: (Action, Facing) -> nat, width: nat, height: nat)

  /** The image `draw` selects: `images[action][facing][index]`. */
  datatype Frame = Frame(action: Action, facing: Facing, index: nat)

  /** `rect`: placed with its top-left corner at the grid position, shifted
      by `gridOffsetY` tiles (the source places it in tile units). */
  datatype Rect = Rect(topLeft: Vec, width: nat, height: nat)

  datatype EntityState = EntityState(
    grid: Vec,
    action: Action,
    facing: Facing,
    frame: nat,
    frameCounter: nat,
    frameDelay: nat,
    gridOffsetY: int,
    image: Option<Frame>,
    rect: Option<Rect>)

  /** Default proximity threshold of `Entity.is_nearby`. */
  const NearbyThreshold: int := 96

  /** The state `Entity.__init__` leaves. */
  function Initial(location: Vec): (s: EntityState)
    ensures s.grid == location && s.action == Stand && s.facing == Down
    ensures s.frame == 0 && s.frameCounter == 0 && s.frameDelay == 16 && s.gridOffsetY == 0
    ensures s.image == None && s.rect == None
  {
    EntityState(location, Stand, Down, 0, 0, 16, 0, None, None)
  }

  /** `advance_animation`: count one tick; when the counter EQUALS the delay
      it restarts and the frame index moves on, wrapping to 0 when it EQUALS
      the frame count `n` of the current (action, facing). */
  function Advance(s: EntityState, n: nat): (r: EntityState)
    ensures r == s.(frame := r.frame, frameCounter := r.frameCounter)
    ensures s.frameCounter + 1 != s.frameDelay ==> r.frameCounter == s.frameCounter + 1 && r.frame == s.frame
    ensures s.frameCounter + 1 == s.frameDelay ==> r.frameCounter == 0
    ensures s.frameCounter + 1 == s.frameDelay && s.frame + 1 < n ==> r.frame == s.frame + 1
    ensures s.frameCounter + 1 == s.frameDelay && s.frame + 1 == n ==> r.frame == 0
    ensures s.frameCounter + 1 == s.frameDelay && s.frame + 1 > n ==> r.frame == s.frame + 1
    ensures s.frame < n ==> r.frame < n
    ensures s.frameCounter < s.frameDelay ==> r.frameCounter < s.frameDelay
  {
    var counter := s.frameCounter + 1;
    if counter == s.frameDelay then
      var next := s.frame + 1;
      s.(frameCounter := 0, frame := if next == n then 0 else next)
    else
      s.(frameCounter := counter)
  }

  /** `k` consecutive calls of `advance_animation`. */
  function AdvanceTimes(s: EntityState, n: nat, k: nat): EntityState
  {
    if k == 0 then s else Advance(AdvanceTimes(s, n, k - 1), n)
  }

  /** Because the test is equality, a counter already at or past the delay
      never wraps again: it grows and the frame stays put. */
  lemma {:induction false} PastDelayNeverWraps(s: EntityState, n: nat, k: nat)
    requires s.frameCounter >= s.frameDelay
    ensures AdvanceTimes(s, n, k) == s.(frameCounter := s.frameCounter + k)
  {
    if k > 0 {
      PastDelayNeverWraps(s, n, k - 1);
    }
  }

  /** From counter `c` below the delay `d`, the next `d - c - 1` calls only
      count, and one more moves the frame on (wrapping at `n`) and restarts
      the counter: the frame changes once every `d` ticks. */
  lemma {:induction false} AdvanceCycle(s: EntityState, n: nat, k: nat)
    requires s.frameCounter < s.frameDelay
    requires k <= s.frameDelay - s.frameCounter
    ensures k < s.frameDelay - s.frameCounter ==>
      AdvanceTimes(s, n, k) == s.(frameCounter := s.frameCounter + k)
    ensures k == s.frameDelay - s.frameCounter ==>
      AdvanceTimes(s, n, k) == s.(frameCounter := 0, frame := if s.frame + 1 == n then 0 else s.frame + 1)
  {
    if k > 0 {
      AdvanceCycle(s, n, k - 1);
    }
  }

  /** The image selection and rectangle of `draw`, before its call of
      `advance_animation`. */
  function Select(s: EntityState, sheet: Sheet): (r: EntityState)
    requires s.frame < sheet.count(s.action, s.facing)
    ensures r == s.(image := r.image, rect := r.rect)
    ensures r.image == Some(Frame(s.action, s.facing, s.frame))
    ensures r.rect == Some(Rect(Vec(s.grid.x, s.grid.y + 10 * s.gridOffsetY), sheet.width, sheet.height))
  {
    s.(image := Some(Frame(s.action, s.facing, s.frame)),
       rect := Some(Rect(Vec(s.grid.x, s.grid.y + 10 * s.gridOffsetY), sheet.width, sheet.height)))
  }

  /** `draw`: select `images[action][facing][frame]` (which exists only when
      the frame index is below the sheet's count), place the rectangle, then
      advance the animation once. */
  function DrawStep(s: EntityState, sheet: Sheet): (r: EntityState)
    requires s.frame < sheet.count(s.action, s.facing)
    ensures r == Advance(Select(s, sheet), sheet.count(s.action, s.facing))
    ensures r.frame < sheet.count(s.action, s.facing)
    ensures r.image == Some(Frame(s.action, s.facing, s.frame))
    ensures r.grid == s.grid && r.action == s.action && r.facing == s.facing
  {
    Advance(Select(s, sheet), sheet.count(s.action, s.facing))
  }

  /** `coords`: pixel position, 16 pixels per tile. */
  function Coords(s: EntityState): (r: (real, real))
    ensures r.0 * 10.0 == 16.0 * s.grid.x as real && r.1 * 10.0 == 16.0 * s.grid.y as real
  {
    (16.0 * s.grid.x as real / 10.0, 16.0 * s.grid.y as real / 10.0)
  }

  /** `center`: needs the rectangle of a previous `draw`. */
  function Center(s: EntityState): (r: (real, real))
    requires s.rect.Some?
    ensures r.0 == Coords(s).0 + s.rect.value.width as real / 2.0
    ensures r.1 == Coords(s).1 - s.rect.value.height as real / 2.0
  {
    var (x, y) := Coords(s);
    (x + s.rect.value.width as real / 2.0, y - s.rect.value.height as real / 2.0)
  }

  /** `is_nearby(point, threshold)`: within `threshold` tiles on both axes. */
  function IsNearby(s: EntityState, point: Vec, threshold: int := NearbyThreshold): (r: bool)
    ensures r <==> Abs(s.grid.x - point.x) <= 10 * threshold
                   && Abs(s.grid.y - point.y) <= 10 * threshold
  {
    if Abs(s.grid.x - point.x) <= 10 * threshold then
      Abs(s.grid.y - point.y) <= 10 * threshold
    else
      false
  }

  /** The entity object: the fields `advance_animation` and `draw` update in
      place. `State` is its value. */
  class Entity {
    var grid: Vec
    var action: Action
    var facing: Facing
    var frame: nat
    var frameCounter: nat
    var frameDelay: nat
    var gridOffsetY: int
    var image: Option<Frame>
    var rect: Option<Rect>
    const sheet: Sheet

    function State(): EntityState
      reads this
    {
      EntityState(grid, action, facing, frame, frameCounter, frameDelay, gridOffsetY, image, rect)
    }

    constructor (location: Vec, sheet: Sheet)
      ensures State() == Initial(location) && this.sheet == sheet
    {
      grid := location;
      action := Stand;
      facing := Down;
      frame := 0;
      frameCounter := 0;
      frameDelay := 16;
      gridOffsetY := 0;
      image := None;
      rect := None;
      this.sheet := sheet;
    }

    method AdvanceAnimation()
      modifies this
      ensures State() == Advance(old(State()), sheet.count(old(action), old(facing)))
    {
      frameCounter := frameCounter + 1;
      if frameCounter == frameDelay {
        frameCounter := 0;
        frame := frame + 1;
        if frame == sheet.count(action, facing) {
          frame := 0;
        }
      }
    }

    method Draw()
      requires frame < sheet.count(action, facing)
      modifies this
      ensures State() == DrawStep(old(State()), sheet)
    {
      image := Some(Frame(action, facing, frame));
      rect := Some(Rect(Vec(grid.x, grid.y + 10 * gridOffsetY), sheet.width, sheet.height));
      AdvanceAnimation();
    }
  }
}
