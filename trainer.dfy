/** trainer.py: the player's sprite and its movement state machine. Each
    tick `update` snaps the position onto the target when it is close
    enough, turns the input into an action ("tap to turn, hold to walk"),
    advances the animation, and draws, which moves the position toward the
    target and advances the animation a second time. */
module Trainers {
  import opened Vector
  import opened Wrappers
  import opened Entities
  import opened Areas

  /** Ticks a direction must be held, from standing, before a step starts. */
  const InputDelay: nat := 3
  /** 0.1 tile per tick walking; running is twice that. */
  const WalkSpeed: nat := 1
  /** Largest remaining distance that `snap_location_to_grid` closes: 0.1 tile. */
  const SnapDistance: nat := 1
  const WalkFrameDelay: nat := 7
  const RunFrameDelay: nat := 4

  /** The trainer's own fields next to those of its entity. */
  datatype TrainerState = TrainerState(body: EntityState, inputCounter: nat, target: Vec)

  /** Sprite sheets that `draw` can always index. Neither a turn nor `move`
      resets the frame index, so it must stay below the frame count across
      facings and actions: every facing of an action has the same number of
      frames, walking and running have the same number, and standing has
      at least one and no more than walking. */
  predicate SheetsConsistent(sheet: Sheet) {
    && (forall f: Facing {:trigger sheet.count(Stand, f)} ::
          sheet.count(Stand, f) == sheet.count(Stand, Up)
          && sheet.count(Walk, f) == sheet.count(Walk, Up)
          && sheet.count(Run, f) == sheet.count(Walk, Up))
    && 1 <= sheet.count(Stand, Up) <= sheet.count(Walk, Up)
  }

  /** The invariant that holds between ticks. */
  predicate Invariant(t: TrainerState, sheet: Sheet) {
    var b := t.body;
    && SheetsConsistent(sheet)
    && b.frame < sheet.count(b.action, b.facing)
    && Aligned(b.grid, t.target)
    && (b.action == Stand ==> b.grid == t.target && t.inputCounter < InputDelay)
    && b.frameCounter < b.frameDelay
    && (b.frameDelay == WalkFrameDelay || b.frameDelay == RunFrameDelay)
    && (b.action == Walk ==> b.frameDelay == WalkFrameDelay)
    && (b.action == Run ==> b.frameDelay == RunFrameDelay)
    && b.rect.Some?
    && b.gridOffsetY == -1
  }

  /** One tile in the facing direction, in tenths. */
  function StepOf(f: Facing): (v: Vec)
    ensures Gap(Vec(0, 0), v) == Tenths && Aligned(Vec(0, 0), v)
  {
    match f
    case Up => Vec(0, -Tenths)
    case Down => Vec(0, Tenths)
    case Left => Vec(-Tenths, 0)
    case Right => Vec(Tenths, 0)
  }

  /** The tile `move` steps onto. */
  function Destination(t: TrainerState): Vec {
    t.body.grid.Plus(StepOf(t.body.facing))
  }

  /** `snap_location_to_grid`: each axis within 0.1 tile of the target takes
      the target's value; the other axis is left alone. */
  function Snapped(t: TrainerState): (r: TrainerState)
    ensures r == t.(body := t.body.(grid := r.body.grid))
    ensures Abs(t.body.grid.x - t.target.x) <= SnapDistance ==> r.body.grid.x == t.target.x
    ensures Abs(t.body.grid.x - t.target.x) > SnapDistance ==> r.body.grid.x == t.body.grid.x
    ensures Abs(t.body.grid.y - t.target.y) <= SnapDistance ==> r.body.grid.y == t.target.y
    ensures Abs(t.body.grid.y - t.target.y) > SnapDistance ==> r.body.grid.y == t.body.grid.y
  {
    var g := t.body.grid;
    var x := if Abs(g.x - t.target.x) <= SnapDistance then t.target.x else g.x;
    var y := if Abs(g.y - t.target.y) <= SnapDistance then t.target.y else g.y;
    t.(body := t.body.(grid := Vec(x, y)))
  }

  /** `set_action`: restart the frame counter (but not the frame index). */
  function WithAction(t: TrainerState, a: Action): (r: TrainerState)
    ensures r.body.action == a && r.body.frameCounter == 0
    ensures r == t.(body := t.body.(action := a, frameCounter := 0))
  {
    t.(body := t.body.(action := a, frameCounter := 0))
  }

  /** `stop`: stand still on the current position. */
  function Stopped(t: TrainerState): (r: TrainerState)
    ensures r.body.action == Stand && r.body.frame == 0 && r.body.frameCounter == 0
    ensures r.inputCounter == 0 && r.target == t.body.grid
    ensures r.body.grid == t.body.grid && r.body.facing == t.body.facing
  {
    t.(body := t.body.(action := Stand, frameCounter := 0, frame := 0),
       inputCounter := 0, target := t.body.grid)
  }

  /** `move`: walk (or run when B is held) toward the next tile in the facing
      direction when it is passable; when it is not, the target stays the
      current position, a step in place ("bump"). `None` when the lookup of
      that tile raises, i.e. it lies past the end of the passability grid. */
  function Moved(t: TrainerState, area: Area, bPressed: bool): (r: Option<TrainerState>)
    requires Areas.Valid(area)
    ensures r.None? <==> !InIndexRange(area, Destination(t))
    ensures r.Some? ==>
      && r.value.body == t.body.(action := if bPressed then Run else Walk, frameCounter := 0)
      && r.value.inputCounter == t.inputCounter
      && (IsPassable(area, Destination(t)) ==> r.value.target == Destination(t))
      && (!IsPassable(area, Destination(t)) ==> r.value.target == t.body.grid)
  {
    var m := WithAction(t, if bPressed then Run else Walk);
    var dest := Destination(m);
    if !InIndexRange(area, dest) then None
    else Some(m.(target := if IsPassable(area, dest) then dest else m.body.grid))
  }

  /** `set_action_from_input`. From standing: no direction stops; a direction
      turns at once and counts the hold, and the step starts on the tick the
      count reaches `InputDelay`. While walking or running: nothing happens
      until the target is reached; then no direction stops and a direction
      turns and steps again at once. */
  function AfterInput(t: TrainerState, area: Area, direction: Option<Facing>, bPressed: bool): (r: Option<TrainerState>)
    requires Areas.Valid(area)
    ensures t.body.action != Stand && t.body.grid != t.target ==> r == Some(t)
    ensures (t.body.action == Stand || t.body.grid == t.target) && direction.None? ==> r == Some(Stopped(t))
    ensures t.body.action == Stand && direction.Some? && t.inputCounter + 1 < InputDelay ==>
      r.Some? && r.value.body.action == Stand && r.value.body.facing == direction.value
      && r.value.inputCounter == t.inputCounter + 1 && r.value.body.grid == t.body.grid && r.value.target == t.target
    ensures r.None? ==> direction.Some? && !InIndexRange(area, t.body.grid.Plus(StepOf(direction.value)))
  {
    match t.body.action
    case Stand =>
      if direction.None? then Some(Stopped(t))
      else
        var u := t.(body := t.body.(facing := direction.value), inputCounter := t.inputCounter + 1);
        if u.inputCounter == InputDelay then Moved(u, area, bPressed) else Some(u)
    case _ =>
      if t.body.grid != t.target then Some(t)
      else if direction.None? then Some(Stopped(t))
      else Moved(t.(body := t.body.(facing := direction.value)), area, bPressed)
  }

  /** The movement part of `Trainer.draw`: walking moves 0.1 tile toward the
      target with frame delay 7, running 0.2 tile with frame delay 4;
      standing moves nothing. */
  function Motion(t: TrainerState): (r: TrainerState)
    requires Aligned(t.body.grid, t.target)
    ensures r.target == t.target && r.inputCounter == t.inputCounter
    ensures r.body == t.body.(grid := r.body.grid, frameDelay := r.body.frameDelay)
    ensures t.body.action == Stand ==> r == t
    ensures t.body.action == Walk ==> r.body.frameDelay == WalkFrameDelay
    ensures t.body.action == Run ==> r.body.frameDelay == RunFrameDelay
    ensures Aligned(r.body.grid, r.target)
    ensures Gap(t.body.grid, r.body.grid) <= Speed(t.body.action)
    ensures Gap(r.body.grid, r.target) ==
      if Gap(t.body.grid, t.target) <= Speed(t.body.action) then 0
      else Gap(t.body.grid, t.target) - Speed(t.body.action)
  {
    match t.body.action
    case Stand => t
    case Walk =>
      t.(body := t.body.(frameDelay := WalkFrameDelay, grid := MoveTowards(t.body.grid, t.target, WalkSpeed)))
    case Run =>
      t.(body := t.body.(frameDelay := RunFrameDelay, grid := MoveTowards(t.body.grid, t.target, 2 * WalkSpeed)))
  }

  /** How far `draw` moves in the given action. */
  function Speed(a: Action): nat {
    match a
    case Stand => 0
    case Walk => WalkSpeed
    case Run => 2 * WalkSpeed
  }

  /** `Trainer.draw`: the motion, then `Entity.draw` (image, rectangle and one
      animation advance). */
  function Drawn(t: TrainerState, sheet: Sheet): (r: TrainerState)
    requires Aligned(t.body.grid, t.target)
    requires t.body.frame < sheet.count(t.body.action, t.body.facing)
    ensures r.target == t.target && r.inputCounter == t.inputCounter
    ensures r.body.action == t.body.action && r.body.facing == t.body.facing
    ensures r.body.grid == Motion(t).body.grid
    ensures r.body.image == Some(Frame(t.body.action, t.body.facing, t.body.frame))
    ensures r.body.frame < sheet.count(t.body.action, t.body.facing)
  {
    var m := Motion(t);
    m.(body := DrawStep(m.body, sheet))
  }

  /** What holds between the input decision and the draw: as `Valid`, except
      that a step just started may still carry the previous action's frame
      delay (with its counter restarted). */
  predicate Pending(u: TrainerState, sheet: Sheet) {
    var b := u.body;
    && SheetsConsistent(sheet)
    && b.frame < sheet.count(b.action, b.facing)
    && Aligned(b.grid, u.target)
    && (b.action == Stand ==> b.grid == u.target && u.inputCounter < InputDelay)
    && b.frameCounter < b.frameDelay
    && (b.frameDelay == WalkFrameDelay || b.frameDelay == RunFrameDelay)
    && (b.frameCounter != 0 && b.action == Walk ==> b.frameDelay == WalkFrameDelay)
    && (b.frameCounter != 0 && b.action == Run ==> b.frameDelay == RunFrameDelay)
    && b.gridOffsetY == -1
  }

  lemma SnapKeepsValid(t: TrainerState, sheet: Sheet)
    requires Invariant(t, sheet)
    ensures Invariant(Snapped(t), sheet)
  {
  }

  /** A walk or run whose frame counter was just restarted is pending. */
  lemma StartedPending(v: TrainerState, sheet: Sheet)
    requires SheetsConsistent(sheet) && Aligned(v.body.grid, v.target)
    requires v.body.action != Stand && v.body.frameCounter == 0
    requires v.body.frame < sheet.count(Walk, Up) && v.body.gridOffsetY == -1
    requires v.body.frameDelay == WalkFrameDelay || v.body.frameDelay == RunFrameDelay
    ensures Pending(v, sheet)
  {
    assert sheet.count(Stand, v.body.facing) == sheet.count(Stand, Up);
  }

  /** A step started by `move` (walking, running or bumping) is pending. */
  lemma MovedPending(u: TrainerState, area: Area, bPressed: bool, sheet: Sheet)
    requires Areas.Valid(area) && SheetsConsistent(sheet)
    requires u.body.frame < sheet.count(Walk, Up) && u.body.gridOffsetY == -1
    requires u.body.frameDelay == WalkFrameDelay || u.body.frameDelay == RunFrameDelay
    ensures Moved(u, area, bPressed).Some? ==> Pending(Moved(u, area, bPressed).value, sheet)
  {
    var m := WithAction(u, if bPressed then Run else Walk);
    var dest := Destination(m);
    if InIndexRange(area, dest) {
      var tg := if IsPassable(area, dest) then dest else m.body.grid;
      assert Moved(u, area, bPressed) == Some(m.(target := tg));
      assert Aligned(m.body.grid, tg) by {
        assert Aligned(Vec(0, 0), StepOf(m.body.facing));
      }
      StartedPending(m.(target := tg), sheet);
    }
  }

  lemma FromInputPending(s: TrainerState, area: Area, direction: Option<Facing>, bPressed: bool, sheet: Sheet)
    requires Areas.Valid(area) && Invariant(s, sheet)
    ensures AfterInput(s, area, direction, bPressed).Some? ==>
      Pending(AfterInput(s, area, direction, bPressed).value, sheet)
  {
    var b := s.body;
    assert sheet.count(Stand, b.facing) == sheet.count(Stand, Up);
    if direction.Some? {
      var f := direction.value;
      assert sheet.count(Stand, f) == sheet.count(Stand, Up);
      if b.action == Stand {
        var u := s.(body := b.(facing := f), inputCounter := s.inputCounter + 1);
        if u.inputCounter == InputDelay {
          MovedPending(u, area, bPressed, sheet);
        }
      } else if b.grid == s.target {
        MovedPending(s.(body := b.(facing := f)), area, bPressed, sheet);
      }
    }
  }

  lemma DrawAfterPending(u: TrainerState, sheet: Sheet)
    requires Pending(u, sheet)
    ensures var a := u.(body := Advance(u.body, sheet.count(u.body.action, u.body.facing)));
            Invariant(Drawn(a, sheet), sheet)
  {
  }

  /** `Trainer.update`: snap, input, an animation advance, draw. `None` when
      the tick raises (see `Move`). */
  function Tick(t: TrainerState, area: Area, sheet: Sheet, direction: Option<Facing>, bPressed: bool): (r: Option<TrainerState>)
    requires Areas.Valid(area) && Invariant(t, sheet)
    ensures r.Some? ==> Invariant(r.value, sheet)
  {
    var s := Snapped(t);
    SnapKeepsValid(t, sheet);
    FromInputPending(s, area, direction, bPressed, sheet);
    var d := AfterInput(s, area, direction, bPressed);
    if d.None? then None
    else
      var u := d.value;
      DrawAfterPending(u, sheet);
      var a := u.(body := Advance(u.body, sheet.count(u.body.action, u.body.facing)));
      Some(Drawn(a, sheet))
  }

  /** The state `Trainer.__init__` leaves: an entity with frame delay 7 and
      sprite offset -1 tile, standing on its start location, then drawn once. */
  function Spawned(location: Vec, sheet: Sheet): (r: TrainerState)
    requires SheetsConsistent(sheet)
    ensures Invariant(r, sheet)
    ensures r.body.grid == location && r.target == location && r.body.action == Stand
    ensures r.body.facing == Down && r.body.frame == 0 && r.body.frameCounter == 1 && r.inputCounter == 0
    ensures r.body.frameDelay == WalkFrameDelay && r.body.gridOffsetY == -1
  {
    var t := TrainerState(Initial(location).(frameDelay := WalkFrameDelay, gridOffsetY := -1), 0, location);
    Drawn(t, sheet)
  }

  /** `Trainer.coords`: the entity's pixel position, drawn `gridOffsetY`
      tiles (16 pixels each) higher. */
  function SpriteCoords(t: TrainerState): (r: (real, real))
    ensures r.0 == Entities.Coords(t.body).0
    ensures r.1 == Entities.Coords(t.body).1 + 16.0 * t.body.gridOffsetY as real
  {
    var (x, y) := Entities.Coords(t.body);
    (x, y + 16.0 * t.body.gridOffsetY as real)
  }

  // ----- properties of the movement state machine -----

  /** Several ticks with the inputs given one per tick (B as given);
      `None` once a tick raises. */
  function Ticks(t: TrainerState, area: Area, sheet: Sheet, inputs: seq<Option<Facing>>, bPressed: bool): (r: Option<TrainerState>)
    requires Areas.Valid(area) && Invariant(t, sheet)
    ensures r.Some? ==> Invariant(r.value, sheet)
    decreases |inputs|
  {
    if inputs == [] then Some(t)
    else
      var u := Tick(t, area, sheet, inputs[0], bPressed);
      if u.None? then None else Ticks(u.value, area, sheet, inputs[1..], bPressed)
  }

  lemma {:induction false} TicksAppend(t: TrainerState, area: Area, sheet: Sheet, a: seq<Option<Facing>>, b: seq<Option<Facing>>, bPressed: bool)
    requires Areas.Valid(area) && Invariant(t, sheet)
    requires Ticks(t, area, sheet, a, bPressed).Some?
    ensures Ticks(t, area, sheet, a + b, bPressed) == Ticks(Ticks(t, area, sheet, a, bPressed).value, area, sheet, b, bPressed)
    decreases |a|
  {
    if a != [] {
      var u := TicksFirst(t, area, sheet, a, b, bPressed);
      TicksAppend(u, area, sheet, a[1..], b, bPressed);
    } else {
      assert a + b == b;
    }
  }

  /** The state after the first of the ticks `a`, shared by `a` and `a + b`. */
  lemma TicksFirst(t: TrainerState, area: Area, sheet: Sheet, a: seq<Option<Facing>>, b: seq<Option<Facing>>, bPressed: bool) returns (u: TrainerState)
    requires Areas.Valid(area) && Invariant(t, sheet) && a != []
    requires Ticks(t, area, sheet, a, bPressed).Some?
    ensures Invariant(u, sheet)
    ensures Ticks(t, area, sheet, a, bPressed) == Ticks(u, area, sheet, a[1..], bPressed)
    ensures Ticks(t, area, sheet, a + b, bPressed) == Ticks(u, area, sheet, a[1..] + b, bPressed)
  {
    var v := Tick(t, area, sheet, a[0], bPressed);
    assert v.Some?;
    u := v.value;
    assert (a + b)[0] == a[0] && (a + b)[1..] == a[1..] + b;
    TicksStep(t, area, sheet, a, bPressed);
    TicksStep(t, area, sheet, a + b, bPressed);
  }

  lemma TicksStep(t: TrainerState, area: Area, sheet: Sheet, inputs: seq<Option<Facing>>, bPressed: bool)
    requires Areas.Valid(area) && Invariant(t, sheet) && inputs != []
    requires Tick(t, area, sheet, inputs[0], bPressed).Some?
    ensures Ticks(t, area, sheet, inputs, bPressed) ==
      Ticks(Tick(t, area, sheet, inputs[0], bPressed).value, area, sheet, inputs[1..], bPressed)
  {
  }

  /** `n` ticks without input. */
  function NoInput(n: nat): (s: seq<Option<Facing>>)
    ensures |s| == n && forall i :: 0 <= i < n ==> s[i] == None
  {
    seq(n, i => None)
  }

  /** `stop` is idempotent. */
  lemma StopIdempotent(t: TrainerState)
    ensures Stopped(Stopped(t)) == Stopped(t)
  {
  }

  /** Snapping twice is snapping once. */
  lemma SnapIdempotent(t: TrainerState)
    ensures Snapped(Snapped(t)) == Snapped(t)
  {
  }

  /** Standing with no direction: the input decision stops, and the stop
      changes nothing but the frame, its counter and the hold counter. */
  lemma StandWithoutInput(t: TrainerState, area: Area, sheet: Sheet, bPressed: bool)
    requires Areas.Valid(area) && Invariant(t, sheet) && t.body.action == Stand
    ensures AfterInput(Snapped(t), area, None, bPressed) == Some(Stopped(t))
    ensures Stopped(t) == t.(body := t.body.(frame := 0, frameCounter := 0), inputCounter := 0)
  {
  }

  /** Tap to turn: from standing, a held direction turns the trainer on the
      same tick and counts the hold; before the count reaches `InputDelay`
      nothing moves. The count goes on whatever the previous facing was. */
  lemma TapTurnsOnly(t: TrainerState, area: Area, sheet: Sheet, d: Facing, bPressed: bool)
    requires Areas.Valid(area) && Invariant(t, sheet)
    requires t.body.action == Stand && t.inputCounter + 1 < InputDelay
    ensures Tick(t, area, sheet, Some(d), bPressed).Some?
    ensures var r := Tick(t, area, sheet, Some(d), bPressed).value;
      && r.body.action == Stand && r.body.facing == d
      && r.inputCounter == t.inputCounter + 1
      && r.body.grid == t.body.grid && r.target == t.target
  {
  }

  /** Hold to walk: on the tick the hold count reaches `InputDelay` the trainer
      starts running (B held) or walking toward the next tile when it is
      passable, and starts a step in place ("bump") when it is not. It moves
      on that same tick. The tick raises when that tile is past the end of
      the grid. */
  lemma HoldStartsStep(t: TrainerState, area: Area, sheet: Sheet, d: Facing, bPressed: bool)
    requires Areas.Valid(area) && Invariant(t, sheet)
    requires t.body.action == Stand && t.inputCounter + 1 == InputDelay
    ensures var dest := t.body.grid.Plus(StepOf(d));
      && (Tick(t, area, sheet, Some(d), bPressed).Some? <==> InIndexRange(area, dest))
      && (InIndexRange(area, dest) ==>
            var r := Tick(t, area, sheet, Some(d), bPressed).value;
            && r.body.action == (if bPressed then Run else Walk)
            && r.body.facing == d
            && r.target == (if IsPassable(area, dest) then dest else t.body.grid)
            && (IsPassable(area, dest) ==> Gap(r.body.grid, dest) == Tenths - Speed(r.body.action))
            && (!IsPassable(area, dest) ==> r.body.grid == t.body.grid))
  {
    var dest := t.body.grid.Plus(StepOf(d));
    assert Gap(t.body.grid, dest) == Tenths;
    assert Snapped(t) == t;
    var u := t.(body := t.body.(facing := d), inputCounter := t.inputCounter + 1);
    assert AfterInput(t, area, Some(d), bPressed) == Moved(u, area, bPressed);
    var m := WithAction(u, if bPressed then Run else Walk);
    assert Destination(m) == dest && m.body.grid == t.body.grid;
  }

  /** While the trainer is still more than the snap distance from its target,
      input is ignored: whatever the direction and B, the tick moves it
      `Speed` closer (never past the target) and keeps action, facing and
      target. */
  lemma MovingIgnoresInput(t: TrainerState, area: Area, sheet: Sheet,
                           d1: Option<Facing>, b1: bool, d2: Option<Facing>, b2: bool)
    requires Areas.Valid(area) && Invariant(t, sheet)
    requires t.body.action != Stand && Gap(t.body.grid, t.target) > SnapDistance
    ensures Tick(t, area, sheet, d1, b1) == Tick(t, area, sheet, d2, b2)
    ensures Tick(t, area, sheet, d1, b1).Some?
    ensures var r := Tick(t, area, sheet, d1, b1).value;
      && r.body.action == t.body.action && r.body.facing == t.body.facing && r.target == t.target
      && Gap(r.body.grid, t.target) ==
           (if Gap(t.body.grid, t.target) <= Speed(t.body.action) then 0
            else Gap(t.body.grid, t.target) - Speed(t.body.action))
  {
    assert Snapped(t) == t;
  }

  /** Within the snap distance the tick first lands on the target; with no
      input the trainer then stands there. */
  lemma ArrivesAndStands(t: TrainerState, area: Area, sheet: Sheet, bPressed: bool)
    requires Areas.Valid(area) && Invariant(t, sheet)
    requires t.body.action != Stand && Gap(t.body.grid, t.target) <= SnapDistance
    ensures Tick(t, area, sheet, None, bPressed).Some?
    ensures var r := Tick(t, area, sheet, None, bPressed).value;
      r.body.action == Stand && r.body.grid == t.target && r.target == t.target && r.inputCounter == 0
  {
  }

  /** Within the snap distance and with a direction held, the next step
      starts on the same tick, without the hold delay. */
  lemma ArrivesAndStepsOn(t: TrainerState, area: Area, sheet: Sheet, d: Facing, bPressed: bool)
    requires Areas.Valid(area) && Invariant(t, sheet)
    requires t.body.action != Stand && Gap(t.body.grid, t.target) <= SnapDistance
    requires InIndexRange(area, t.target.Plus(StepOf(d)))
    ensures Tick(t, area, sheet, Some(d), bPressed).Some?
    ensures var r := Tick(t, area, sheet, Some(d), bPressed).value;
      var dest := t.target.Plus(StepOf(d));
      && r.body.action == (if bPressed then Run else Walk) && r.body.facing == d
      && r.target == (if IsPassable(area, dest) then dest else t.target)
  {
    var s := Snapped(t);
    assert s.body.grid == t.target && s.target == t.target;
    var f := s.(body := s.body.(facing := d));
    assert AfterInput(s, area, Some(d), bPressed) == Moved(f, area, bPressed);
    assert Destination(WithAction(f, if bPressed then Run else Walk)) == t.target.Plus(StepOf(d));
  }

  /** Ticks a moving trainer `gap` tenths from its target needs, without
      input, to land on it and stand. */
  function ArrivalTicks(a: Action, gap: nat): nat
    requires a != Stand
  {
    if gap <= SnapDistance then 1
    else 1 + ArrivalTicks(a, if gap <= Speed(a) then 0 else gap - Speed(a))
  }

  /** Without input a moving trainer lands EXACTLY on its target, and stands
      there, after `ArrivalTicks` ticks. */
  lemma MovingArrives(t: TrainerState, area: Area, sheet: Sheet, bPressed: bool)
    requires Areas.Valid(area) && Invariant(t, sheet) && t.body.action != Stand
    ensures var r := Ticks(t, area, sheet, NoInput(ArrivalTicks(t.body.action, Gap(t.body.grid, t.target))), bPressed);
      r.Some? && r.value.body.action == Stand && r.value.body.grid == t.target && r.value.target == t.target
  {
    ArrivesAfter(t, area, sheet, ArrivalTicks(t.body.action, Gap(t.body.grid, t.target)), bPressed);
  }

  /** `MovingArrives` by induction on the number of ticks `n` left. */
  lemma {:induction false} ArrivesAfter(t: TrainerState, area: Area, sheet: Sheet, n: nat, bPressed: bool)
    requires Areas.Valid(area) && Invariant(t, sheet) && t.body.action != Stand
    requires n == ArrivalTicks(t.body.action, Gap(t.body.grid, t.target))
    ensures var r := Ticks(t, area, sheet, NoInput(n), bPressed);
      r.Some? && r.value.body.action == Stand && r.value.body.grid == t.target && r.value.target == t.target
    decreases n
  {
    if Gap(t.body.grid, t.target) <= SnapDistance {
      ArrivingTick(t, area, sheet, n, bPressed);
    } else {
      var u := MovingTick(t, area, sheet, n, bPressed);
      ArrivesAfter(u, area, sheet, n - 1, bPressed);
    }
  }

  /** Within the snap distance one tick without input lands and stands. */
  lemma ArrivingTick(t: TrainerState, area: Area, sheet: Sheet, n: nat, bPressed: bool)
    requires Areas.Valid(area) && Invariant(t, sheet)
    requires t.body.action != Stand && Gap(t.body.grid, t.target) <= SnapDistance
    requires n == ArrivalTicks(t.body.action, Gap(t.body.grid, t.target))
    ensures var r := Ticks(t, area, sheet, NoInput(n), bPressed);
      r.Some? && r.value.body.action == Stand && r.value.body.grid == t.target && r.value.target == t.target
  {
    assert n == 1;
    ArrivesAndStands(t, area, sheet, bPressed);
    NoInputStep(t, area, sheet, 1, bPressed);
    var tk := Tick(t, area, sheet, None, bPressed);
    assert Ticks(tk.value, area, sheet, NoInput(0), bPressed) == tk;
  }

  /** Farther out, the first of `n` ticks without input closes the gap by
      the speed and leaves `n - 1` ticks from the state `u` it reaches. */
  lemma MovingTick(t: TrainerState, area: Area, sheet: Sheet, n: nat, bPressed: bool) returns (u: TrainerState)
    requires Areas.Valid(area) && Invariant(t, sheet) && n >= 1
    requires t.body.action != Stand && Gap(t.body.grid, t.target) > SnapDistance
    ensures Invariant(u, sheet) && u.body.action == t.body.action && u.target == t.target
    ensures Gap(u.body.grid, t.target) ==
      (if Gap(t.body.grid, t.target) <= Speed(t.body.action) then 0
       else Gap(t.body.grid, t.target) - Speed(t.body.action))
    ensures n == ArrivalTicks(t.body.action, Gap(t.body.grid, t.target)) ==>
      n - 1 == ArrivalTicks(u.body.action, Gap(u.body.grid, u.target))
    ensures Ticks(t, area, sheet, NoInput(n), bPressed) == Ticks(u, area, sheet, NoInput(n - 1), bPressed)
  {
    MovingIgnoresInput(t, area, sheet, None, bPressed, None, bPressed);
    u := Tick(t, area, sheet, None, bPressed).value;
    NoInputStep(t, area, sheet, n, bPressed);
  }

  /** The first of `n` ticks without input, then the other `n - 1`. */
  lemma NoInputStep(t: TrainerState, area: Area, sheet: Sheet, n: nat, bPressed: bool)
    requires Areas.Valid(area) && Invariant(t, sheet) && n >= 1
    requires Tick(t, area, sheet, None, bPressed).Some?
    ensures Ticks(t, area, sheet, NoInput(n), bPressed) ==
      Ticks(Tick(t, area, sheet, None, bPressed).value, area, sheet, NoInput(n - 1), bPressed)
  {
    TicksStep(t, area, sheet, NoInput(n), bPressed);
    assert NoInput(n)[1..] == NoInput(n - 1);
  }

  /** Walking, each tick closes one tenth, so `gap` ticks are needed. */
  lemma {:induction false} WalkArrivalTicks(gap: nat)
    requires gap >= 1
    ensures ArrivalTicks(Walk, gap) == gap
  {
    if gap > 1 {
      WalkArrivalTicks(gap - 1);
    }
  }

  /** A trainer standing on tile (5, 5) facing down, with (5, 6) passable,
      holds Down for three ticks: the first two only count the hold, the
      third starts walking toward (5, 6). Released then, after nine more
      ticks it stands exactly on (5, 6). */
  lemma WalkOneTileScenario(t: TrainerState, area: Area, sheet: Sheet)
    requires Areas.Valid(area) && Invariant(t, sheet)
    requires t.body.grid == Vec(50, 50) && t.body.action == Stand && t.inputCounter == 0
    requires InIndexRange(area, Vec(50, 60)) && IsPassable(area, Vec(50, 60))
    ensures var held := [Some(Down), Some(Down), Some(Down)];
      && Ticks(t, area, sheet, held[..2], false).Some?
      && Ticks(t, area, sheet, held[..2], false).value.body.grid == Vec(50, 50)
      && Ticks(t, area, sheet, held, false).Some?
      && Ticks(t, area, sheet, held, false).value.body.action == Walk
      && Ticks(t, area, sheet, held, false).value.target == Vec(50, 60)
    ensures var r := Ticks(t, area, sheet, [Some(Down), Some(Down), Some(Down)] + NoInput(9), false);
      r.Some? && r.value.body.action == Stand && r.value.body.grid == Vec(50, 60)
  {
    var held := [Some(Down), Some(Down), Some(Down)];
    ScenarioHold(t, area, sheet);
    var t3 := Ticks(t, area, sheet, held, false).value;
    ScenarioArrive(t3, area, sheet);
    TicksAppend(t, area, sheet, held, NoInput(9), false);
  }

  /** The first part of `WalkOneTileScenario`: the three ticks holding Down. */
  lemma ScenarioHold(t: TrainerState, area: Area, sheet: Sheet)
    requires Areas.Valid(area) && Invariant(t, sheet)
    requires t.body.grid == Vec(50, 50) && t.body.action == Stand && t.inputCounter == 0
    requires InIndexRange(area, Vec(50, 60)) && IsPassable(area, Vec(50, 60))
    ensures var held := [Some(Down), Some(Down), Some(Down)];
      && Ticks(t, area, sheet, held[..2], false).Some?
      && Ticks(t, area, sheet, held[..2], false).value.body.grid == Vec(50, 50)
      && Ticks(t, area, sheet, held, false).Some?
      && Ticks(t, area, sheet, held, false).value.body.action == Walk
      && Ticks(t, area, sheet, held, false).value.target == Vec(50, 60)
      && Gap(Ticks(t, area, sheet, held, false).value.body.grid, Vec(50, 60)) == 9
  {
    var held := [Some(Down), Some(Down), Some(Down)];
    var two := [Some(Down), Some(Down)];
    assert held[..2] == two && two + [Some(Down)] == held;
    HoldTwo(t, area, sheet, Down, false);
    var t2 := Ticks(t, area, sheet, two, false).value;
    TicksAppend(t, area, sheet, two, [Some(Down)], false);
    TicksOne(t2, area, sheet, Some(Down), false);
    assert t2.body.grid.Plus(StepOf(Down)) == Vec(50, 60);
    HoldStartsStep(t2, area, sheet, Down, false);
  }

  /** Ticks over a single input are that one tick. */
  lemma TicksOne(t: TrainerState, area: Area, sheet: Sheet, i: Option<Facing>, bPressed: bool)
    requires Areas.Valid(area) && Invariant(t, sheet)
    ensures Ticks(t, area, sheet, [i], bPressed) == Tick(t, area, sheet, i, bPressed)
  {
    assert [i][1..] == [];
  }

  /** Two ticks holding `d` from a fresh stand only turn and count the hold. */
  lemma HoldTwo(t: TrainerState, area: Area, sheet: Sheet, d: Facing, bPressed: bool)
    requires Areas.Valid(area) && Invariant(t, sheet)
    requires t.body.action == Stand && t.inputCounter == 0
    ensures Ticks(t, area, sheet, [Some(d), Some(d)], bPressed).Some?
    ensures var r := Ticks(t, area, sheet, [Some(d), Some(d)], bPressed).value;
      && r.body.action == Stand && r.body.facing == d && r.inputCounter == 2
      && r.body.grid == t.body.grid && r.target == t.target
  {
    TapTurnsOnly(t, area, sheet, d, bPressed);
    var t1 := Tick(t, area, sheet, Some(d), bPressed).value;
    TapTurnsOnly(t1, area, sheet, d, bPressed);
    TicksStep(t, area, sheet, [Some(d), Some(d)], bPressed);
    assert [Some(d), Some(d)][1..] == [Some(d)];
    TicksOne(t1, area, sheet, Some(d), bPressed);
  }

  /** The second part of `WalkOneTileScenario`: nine ticks without input. */
  lemma ScenarioArrive(t: TrainerState, area: Area, sheet: Sheet)
    requires Areas.Valid(area) && Invariant(t, sheet)
    requires t.body.action == Walk && t.target == Vec(50, 60) && Gap(t.body.grid, Vec(50, 60)) == 9
    ensures var r := Ticks(t, area, sheet, NoInput(9), false);
      r.Some? && r.value.body.action == Stand && r.value.body.grid == Vec(50, 60)
  {
    MovingArrives(t, area, sheet, false);
    WalkArrivalTicks(9);
  }

  /** The trainer's animation counts two ticks per `update`: one in `update`
      itself and one in `Entity.draw`. Shown for a walk in progress. */
  lemma TwoAdvancesPerTick(t: TrainerState, area: Area, sheet: Sheet, d: Option<Facing>, bPressed: bool)
    requires Areas.Valid(area) && Invariant(t, sheet)
    requires t.body.action == Walk && Gap(t.body.grid, t.target) > SnapDistance
    ensures Tick(t, area, sheet, d, bPressed).Some?
    ensures var r := Tick(t, area, sheet, d, bPressed).value;
      var twice := AdvanceTimes(t.body, sheet.count(Walk, t.body.facing), 2);
      r.body.frame == twice.frame && r.body.frameCounter == twice.frameCounter
  {
    assert Snapped(t) == t;
    assert AdvanceTimes(t.body, sheet.count(Walk, t.body.facing), 1) == Advance(t.body, sheet.count(Walk, t.body.facing));
  }

  /** The sprite is drawn one tile (16 pixels) above its grid position. */
  lemma SpriteDrawnAboveGrid(t: TrainerState, sheet: Sheet)
    requires Invariant(t, sheet)
    ensures SpriteCoords(t).1 == Entities.Coords(t.body).1 - 16.0
  {
  }

  /** The trainer object. Its entity part is a separate `Entity` object it
      owns; `State` is the value of both. */
  class Trainer {
    const body: Entity
    var inputCounter: nat
    var target: Vec

    function State(): TrainerState
      reads this, body
    {
      TrainerState(body.State(), inputCounter, target)
    }

    ghost predicate Valid()
      reads this, body
    {
      Invariant(State(), body.sheet)
    }

    constructor (location: Vec, sheet: Sheet)
      requires SheetsConsistent(sheet)
      ensures fresh(body) && body.sheet == sheet
      ensures State() == Spawned(location, sheet) && Valid()
    {
      body := new Entity(location, sheet);
      inputCounter := 0;
      target := location;
      new;
      body.frameDelay := WalkFrameDelay;
      body.gridOffsetY := -1;
      Draw();
    }

    method Snap()
      modifies body
      ensures State() == Snapped(old(State()))
    {
      if Abs(body.grid.x - target.x) <= SnapDistance {
        body.grid := body.grid.(x := target.x);
      }
      if Abs(body.grid.y - target.y) <= SnapDistance {
        body.grid := body.grid.(y := target.y);
      }
    }

    method SetAction(a: Action)
      modifies body
      ensures State() == WithAction(old(State()), a)
    {
      body.frameCounter := 0;
      body.action := a;
    }

    method Stop()
      modifies this, body
      ensures State() == Stopped(old(State()))
    {
      body.action := Stand;
      body.frameCounter := 0;
      body.frame := 0;
      inputCounter := 0;
      target := body.grid;
    }

    /** `ok` is false where the source raises: the action has then already
        been set, and the target is untouched. */
    method Move(area: Area, bPressed: bool) returns (ok: bool)
      requires Areas.Valid(area)
      modifies this, body
      ensures ok == Moved(old(State()), area, bPressed).Some?
      ensures ok ==> State() == Moved(old(State()), area, bPressed).value
      ensures !ok ==> State() == WithAction(old(State()), if bPressed then Run else Walk)
    {
      SetAction(if bPressed then Run else Walk);
      var dest := body.grid.Plus(StepOf(body.facing));
      ok := InIndexRange(area, dest);
      if !ok {
        return;
      }
      if IsPassable(area, dest) {
        target := dest;
      } else {
        target := body.grid;
      }
    }

    method SetActionFromInput(area: Area, direction: Option<Facing>, bPressed: bool) returns (ok: bool)
      requires Areas.Valid(area)
      modifies this, body
      ensures ok == AfterInput(old(State()), area, direction, bPressed).Some?
      ensures ok ==> State() == AfterInput(old(State()), area, direction, bPressed).value
    {
      ok := true;
      if body.action == Stand {
        if direction.None? {
          Stop();
        } else {
          body.facing := direction.value;
          inputCounter := inputCounter + 1;
          if inputCounter == InputDelay {
            ok := Move(area, bPressed);
          }
        }
      } else if body.grid == target {
        if direction.None? {
          Stop();
        } else {
          body.facing := direction.value;
          ok := Move(area, bPressed);
        }
      }
    }

    method Draw()
      requires Aligned(body.grid, target)
      requires body.frame < body.sheet.count(body.action, body.facing)
      modifies body
      ensures State() == Drawn(old(State()), body.sheet)
    {
      if body.action == Walk {
        body.frameDelay := WalkFrameDelay;
        body.grid := MoveTowards(body.grid, target, WalkSpeed);
      } else if body.action == Run {
        body.frameDelay := RunFrameDelay;
        body.grid := MoveTowards(body.grid, target, 2 * WalkSpeed);
      }
      body.Draw();
    }

    /** `ok` is false where the source raises (see `Move`). */
    method Update(area: Area, direction: Option<Facing>, bPressed: bool) returns (ok: bool)
      requires Valid() && Areas.Valid(area)
      modifies this, body
      ensures ok == Tick(old(State()), area, body.sheet, direction, bPressed).Some?
      ensures ok ==> State() == Tick(old(State()), area, body.sheet, direction, bPressed).value && Valid()
    {
      ghost var t := State();
      Snap();
      SnapKeepsValid(t, body.sheet);
      FromInputPending(State(), area, direction, bPressed, body.sheet);
      ok := SetActionFromInput(area, direction, bPressed);
      if !ok {
        return;
      }
      DrawAfterPending(State(), body.sheet);
      body.AdvanceAnimation();
      Draw();
    }

    /** `Trainer.coords`: the entity's pixel position, one sprite offset
        higher. */
    function Coords(): (r: (real, real))
      reads this, body
      ensures r.0 == Entities.Coords(body.State()).0
      ensures r.1 == Entities.Coords(body.State()).1 + 16.0 * body.gridOffsetY as real
    {
      SpriteCoords(State())
    }

    /** `center` is inherited from `Entity` and is computed from the grid
        position, not from the overriding `coords`: the sprite offset does
        not enter it. */
    function Center(): (r: (real, real))
      reads this, body
      requires body.rect.Some?
      ensures r.0 == Entities.Coords(body.State()).0 + body.rect.value.width as real / 2.0
      ensures r.1 == Entities.Coords(body.State()).1 - body.rect.value.height as real / 2.0
    {
      Entities.Center(body.State())
    }
  }
}
