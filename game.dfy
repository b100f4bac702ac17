/** game.py: the `Game` object that owns the area, the trainer, the
    controller and the camera, and runs one tick of the overworld. */
module Games {
  import opened Wrappers
  import opened Vector
  import opened Doodads
  import opened Areas
  import opened Entities
  import opened Trainers
  import opened Controllers
  import opened Overworld

  /** The Game Boy Advance screen, in pixels. */
  const GbaDimensions: (int, int) := (240, 160)

  /** A d-pad number as the trainer's facing. */
  function DirectionOf(input: Option<nat>): (r: Option<Facing>)
    requires input.Some? ==> input.value < 4
    ensures r.Some? <==> input.Some?
    ensures r.Some? ==> r.value.Index() == input.value
  {
    match input
    case None => None
    case Some(i) => Some(FacingOfIndex(i))
  }

  class Game {
    /** `None` until `ResetToInitialState` loads one. */
    var area: Option<Area>
    /** `null` until `ResetToInitialState` places one. */
    var trainer: Trainer?
    const controller: Controller
    var cameraOffset: (int, int)
    var paused: bool
    var running: bool

    ghost predicate Valid()
      reads this, controller, controller.buttons, trainer
      reads if trainer != null then {trainer.body} else {}
    {
      && controller.Valid()
      && (trainer != null ==> trainer.Valid())
      && (area.Some? ==> Areas.Valid(area.value))
    }

    /** The area fits no smaller than the screen, and the trainer exists. */
    ghost predicate Ready()
      reads this, controller, controller.buttons, trainer
      reads if trainer != null then {trainer.body} else {}
    {
      && Valid() && area.Some? && trainer != null
      && GbaDimensions.0 <= Dimensions(area.value).0
      && GbaDimensions.1 <= Dimensions(area.value).1
    }

    constructor ()
      ensures Valid() && area == None && trainer == null
      ensures cameraOffset == (0, 0) && paused && running
      ensures controller.style == "wasd" && WasdLayout(controller.buttons)
      ensures forall b :: b in controller.buttons ==> !b.flag && !b.isDown
    {
      area := None;
      trainer := null;
      cameraOffset := (0, 0);
      controller := new Controller("wasd");
      paused := true;
      running := true;
    }

    /** `get_camera_offset` for the trainer where it is now. */
    function GetCameraOffset(): (r: (int, int))
      reads this, controller, controller.buttons, trainer
      reads if trainer != null then {trainer.body} else {}
      requires Ready()
      ensures GbaDimensions.0 - Dimensions(area.value).0 <= r.0 <= 0
      ensures GbaDimensions.1 - Dimensions(area.value).1 <= r.1 <= 0
      ensures r == (CameraAxis(GbaDimensions.0, Dimensions(area.value).0, trainer.Center().0),
                    CameraAxis(GbaDimensions.1, Dimensions(area.value).1, trainer.Center().1))
    {
      CameraOffset(GbaDimensions, area.value, trainer.Center())
    }

    /** `reset_to_initial_state`: paused, with the loaded area (`loaded`,
        the result of reading the map's files) and a trainer at its start. */
    method ResetToInitialState(loaded: Area, sheet: Sheet)
      requires Valid() && Areas.Valid(loaded) && SheetsConsistent(sheet)
      modifies this
      ensures paused && area == Some(loaded)
      ensures trainer != null && fresh(trainer) && fresh(trainer.body)
      ensures trainer.State() == Spawned(loaded.startLocation, sheet)
      ensures Valid() && unchanged(controller, controller.buttons)
      ensures cameraOffset == old(cameraOffset) && running == old(running)
    {
      paused := true;
      area := Some(loaded);
      trainer := new Trainer(loaded.startLocation, sheet);
    }

    /** `sort_entites_for_display`: the draw list, and the foreground flags
        of the doodads that overlap the trainer set. `trainerY` is the
        trainer's row and `collides` the rectangle test. */
    method SortEntitiesForDisplay(trainerY: int, collides: Doodad -> bool) returns (display: seq<Drawable>)
      requires Ready()
      modifies this
      ensures trainer == old(trainer) && cameraOffset == old(cameraOffset)
      ensures display == DisplayList(old(area.value.doodads), trainerY)
      ensures area == Some(old(area.value).(doodads := MarkedAll(old(area.value.doodads), trainer.body.grid, collides)))
      ensures paused == old(paused) && running == old(running)
      ensures Ready()
    {
      var a := area.value;
      display := DisplayList(a.doodads, trainerY);
      var marked := MarkForeground(a.doodads, trainer.body.grid, collides);
      area := Some(a.(doodads := marked));
    }

    /** `update_screen` without the drawing: the draw list, then the
        foreground pass, which returns the doodads drawn over the trainer
        and clears every flag. */
    method UpdateScreen(trainerY: int, collides: Doodad -> bool) returns (display: seq<Drawable>, overlay: seq<Doodad>)
      requires Ready()
      modifies this
      ensures trainer == old(trainer) && cameraOffset == old(cameraOffset)
      ensures display == DisplayList(old(area.value.doodads), trainerY)
      ensures overlay == Overlaid(MarkedAll(old(area.value.doodads), trainer.body.grid, collides))
      ensures area.Some? && area.value.(doodads := old(area.value.doodads)) == old(area.value)
      ensures |area.value.doodads| == |old(area.value.doodads)|
      ensures forall i :: 0 <= i < |area.value.doodads| ==>
        area.value.doodads[i] == old(area.value.doodads[i]).(drawForeground := false)
      ensures paused == old(paused) && running == old(running)
      ensures Ready()
    {
      display := SortEntitiesForDisplay(trainerY, collides);
      var a := area.value;
      var cleared;
      overlay, cleared := ClearForeground(a.doodads);
      area := Some(a.(doodads := cleared));
    }

    /** `update`: the trainer moves on the controller's d-pad (B is never
        passed here), then the camera follows the MOVED trainer, then the
        screen pass. `ok` is false where the trainer's step raises. */
    method Update(trainerY: int, collides: Doodad -> bool) returns (ok: bool, display: seq<Drawable>, overlay: seq<Doodad>)
      requires Ready()
      modifies this, trainer, trainer.body
      ensures trainer == old(trainer) && area.Some? && area.value.passable == old(area.value.passable)
      ensures ok == Tick(old(trainer.State()), old(area.value), trainer.body.sheet,
                         DirectionOf(old(controller.GetDpadInput())), false).Some?
      ensures ok ==> trainer.State() == Tick(old(trainer.State()), old(area.value), trainer.body.sheet,
                                             DirectionOf(old(controller.GetDpadInput())), false).value
      ensures ok ==> Ready() && cameraOffset == CameraOffset(GbaDimensions, area.value, trainer.Center())
      ensures ok ==> forall i :: 0 <= i < |area.value.doodads| ==> !area.value.doodads[i].drawForeground
      ensures ok ==> display == DisplayList(old(area.value.doodads), trainerY)
    {
      display, overlay := [], [];
      var direction := DirectionOf(controller.GetDpadInput());
      ok := trainer.Update(area.value, direction, false);
      if !ok {
        return;
      }
      cameraOffset := GetCameraOffset();
      display, overlay := UpdateScreen(trainerY, collides);
    }
  }
}
