/** main.py: the stand-alone overworld loop's pure parts. The camera that
    keeps the trainer centred without showing past the map's edge, the W/A/S/D
    key stack and its reading, and the draw order of doodads around the
    trainer with the one-tick foreground overlay. game.py's `Game` uses the
    same camera and draw-order rules. */
module Overworld {
  import opened Wrappers
  import opened Keys
  import opened Doodads
  import opened Areas

  // ----- camera -----

  /** `pygame.math.clamp(value, lo, hi)` for `lo <= hi`. */
  function Clamp(value: real, lo: real, hi: real): (r: real)
    requires lo <= hi
    ensures lo <= r <= hi
    ensures lo <= value <= hi ==> r == value
    ensures value < lo ==> r == lo
    ensures hi < value ==> r == hi
  {
    if value < lo then lo else if hi < value then hi else value
  }

  /** One axis of `get_camera_offset`: the offset that puts the trainer's
      centre `center` in the middle of a `screen`-pixel view, clamped so that
      no pixel outside the `size`-pixel map shows, then floored. */
  function CameraAxis(screen: int, size: int, center: real): (r: int)
    requires screen <= size
    ensures screen - size <= r <= 0
    ensures var ideal := screen as real / 2.0 - center;
            && ((screen - size) as real <= ideal <= 0.0 ==> r as real <= ideal < r as real + 1.0)
            && (ideal < (screen - size) as real ==> r == screen - size)
            && (0.0 < ideal ==> r == 0)
  {
    Clamp(screen as real / 2.0 - center, (screen - size) as real, 0.0).Floor
  }

  /** `get_camera_offset(area, trainer_center)` on a `screen`-sized view. A
      map smaller than the view is outside this model. */
  function CameraOffset(screen: (int, int), area: Area, center: (real, real)): (r: (int, int))
    requires screen.0 <= Dimensions(area).0 && screen.1 <= Dimensions(area).1
    ensures screen.0 - Dimensions(area).0 <= r.0 <= 0
    ensures screen.1 - Dimensions(area).1 <= r.1 <= 0
    ensures r == (CameraAxis(screen.0, Dimensions(area).0, center.0),
                  CameraAxis(screen.1, Dimensions(area).1, center.1))
  {
    (CameraAxis(screen.0, Dimensions(area).0, center.0),
     CameraAxis(screen.1, Dimensions(area).1, center.1))
  }

  /** A trainer far enough from every edge sees itself exactly centred (up
      to the floor). */
  lemma CameraCentres(screen: int, size: int, center: real)
    requires screen <= size
    requires screen as real / 2.0 <= center <= size as real - screen as real / 2.0
    ensures var r := CameraAxis(screen, size, center);
            r as real <= screen as real / 2.0 - center < r as real + 1.0
  {
  }

  /** Near the top-left edge the map's edge stays at the screen's edge. */
  lemma CameraStopsAtStart(screen: int, size: int, center: real)
    requires screen <= size && center < screen as real / 2.0
    ensures CameraAxis(screen, size, center) == 0
  {
  }

  /** Near the bottom-right edge the map's far edge stays at the screen's. */
  lemma CameraStopsAtEnd(screen: int, size: int, center: real)
    requires screen <= size && size as real - screen as real / 2.0 < center
    ensures CameraAxis(screen, size, center) == screen - size
  {
  }

  // ----- the W/A/S/D key stack -----

  /** The d-pad keys, in the order of the trainer's facings (up, down, left,
      right). */
  const DpadKeys: seq<int> := [KeyW, KeyS, KeyA, KeyD]

  /** The key for the opposite direction. */
  function Opposite(key: int): (r: int)
    requires key in DpadKeys
    ensures r in DpadKeys && r != key
  {
    if key == KeyW then KeyS
    else if key == KeyS then KeyW
    else if key == KeyA then KeyD
    else KeyA
  }

  /** `get_dpad_input(dpad)`: only the most recent key counts; it gives its
      direction number unless the opposite key is held too. An empty stack
      raises IndexError, which gives `None`; so does a last key whose opposite
      is down, by falling off the end of the `match`. */
  function DpadInput(dpad: seq<int>): (r: Option<nat>)
    ensures r.Some? <==> (dpad != [] && dpad[|dpad| - 1] in DpadKeys
                          && Opposite(dpad[|dpad| - 1]) !in dpad)
    ensures r.Some? ==> r.value < 4 && DpadKeys[r.value] == dpad[|dpad| - 1]
  {
    if dpad == [] then None
    else
      var last := dpad[|dpad| - 1];
      if last == KeyW then (if KeyS in dpad then None else Some(0))
      else if last == KeyS then (if KeyW in dpad then None else Some(1))
      else if last == KeyA then (if KeyD in dpad then None else Some(2))
      else if last == KeyD then (if KeyA in dpad then None else Some(3))
      else None
  }

  /** `handle_keydown`: a d-pad key goes on top of the stack; any other key
      leaves it as it is. */
  function KeyDown(dpad: seq<int>, key: int): (r: seq<int>)
    ensures key in DpadKeys ==> r == dpad + [key]
    ensures key !in DpadKeys ==> r == dpad
  {
    if key in DpadKeys then dpad + [key] else dpad
  }

  /** Position of the first `key` in `s`. */
  function IndexOf(s: seq<int>, key: int): (i: nat)
    requires key in s
    ensures i < |s| && s[i] == key && key !in s[..i]
  {
    if s[0] == key then 0 else 1 + IndexOf(s[1..], key)
  }

  /** `handle_keyup`: a d-pad key leaves the stack at its first occurrence;
      any other key changes nothing. Releasing a d-pad key that is not on the
      stack raises ValueError (`None`), which the source's `except IndexError`
      does not catch. */
  function KeyUp(dpad: seq<int>, key: int): (r: Option<seq<int>>)
    ensures key !in DpadKeys ==> r == Some(dpad)
    ensures key in DpadKeys ==> (r.Some? <==> key in dpad)
    ensures key in DpadKeys && key in dpad ==>
      var i := IndexOf(dpad, key);
      r == Some(dpad[..i] + dpad[i + 1..]) && multiset(r.value) == multiset(dpad) - multiset{key}
  {
    if key !in DpadKeys then Some(dpad)
    else if key !in dpad then None
    else
      var i := IndexOf(dpad, key);
      assert dpad == dpad[..i] + [dpad[i]] + dpad[i + 1..];
      Some(dpad[..i] + dpad[i + 1..])
  }

  /** Pressing a key that is not already down and releasing it again
      restores the stack. */
  lemma {:induction false} KeyDownUp(dpad: seq<int>, key: int)
    requires key !in dpad
    ensures KeyUp(KeyDown(dpad, key), key) == Some(dpad)
  {
    if key in DpadKeys {
      var s := dpad + [key];
      assert key in s;
      var i := IndexOf(s, key);
      assert s[i] == key;
      assert i == |dpad|;
      assert s[..i] == dpad && s[i + 1..] == [];
      assert KeyDown(dpad, key) == s;
      assert KeyUp(s, key) == Some(s[..i] + s[i + 1..]);
      assert s[..i] + s[i + 1..] == dpad;
    }
  }

  /** The most recent key wins: pressing a direction whose opposite is up
      selects that direction, whatever else is held. */
  lemma LastKeyWins(dpad: seq<int>, k: nat)
    requires k < 4 && Opposite(DpadKeys[k]) !in dpad
    ensures DpadInput(KeyDown(dpad, DpadKeys[k])) == Some(k)
  {
    assert KeyDown(dpad, DpadKeys[k]) == dpad + [DpadKeys[k]];
    assert [KeyW, KeyS, KeyA, KeyD][k] == DpadKeys[k];
  }

  /** Opposite keys cancel: with both held, neither moves the trainer. */
  lemma OppositesCancel(dpad: seq<int>, key: int)
    requires key in DpadKeys && Opposite(key) in dpad
    ensures DpadInput(KeyDown(dpad, key)) == None
  {
    assert KeyDown(dpad, key)[|dpad|] == key;
  }

  // ----- draw order -----

  /** An entry of the display list: a doodad or the trainer. */
  datatype Drawable = DoodadSprite(doodad: Doodad) | TrainerSprite

  /** The doodads above the trainer's row, in order. */
  function Behind(ds: seq<Doodad>, trainerY: int): (r: seq<Doodad>)
    ensures forall i :: 0 <= i < |r| ==> r[i].location.y < trainerY
    ensures |r| <= |ds|
  {
    if ds == [] then []
    else (if ds[0].location.y < trainerY then [ds[0]] else []) + Behind(ds[1..], trainerY)
  }

  /** The doodads on or below the trainer's row, in order. */
  function InFront(ds: seq<Doodad>, trainerY: int): (r: seq<Doodad>)
    ensures forall i :: 0 <= i < |r| ==> r[i].location.y >= trainerY
    ensures |r| <= |ds|
  {
    if ds == [] then []
    else (if ds[0].location.y >= trainerY then [ds[0]] else []) + InFront(ds[1..], trainerY)
  }

  function Sprites(ds: seq<Doodad>): (r: seq<Drawable>)
    ensures |r| == |ds| && forall i :: 0 <= i < |ds| ==> r[i] == DoodadSprite(ds[i])
  {
    if ds == [] then [] else [DoodadSprite(ds[0])] + Sprites(ds[1..])
  }

  /** The list `sort_entites_for_display` returns: the doodads above the
      trainer, the trainer, the rest. `trainerY` is the trainer's row as
      the source's `y_coord` would give it, a parameter here. */
  function DisplayList(ds: seq<Doodad>, trainerY: int): (r: seq<Drawable>)
    ensures |r| == |ds| + 1
    ensures var k := |Behind(ds, trainerY)|;
            && r[k] == TrainerSprite
            && (forall i :: 0 <= i < k ==> r[i].DoodadSprite? && r[i].doodad.location.y < trainerY)
            && (forall i :: k < i < |r| ==> r[i].DoodadSprite? && r[i].doodad.location.y >= trainerY)
  {
    PartitionSize(ds, trainerY);
    Sprites(Behind(ds, trainerY)) + [TrainerSprite] + Sprites(InFront(ds, trainerY))
  }

  lemma {:induction false} PartitionSize(ds: seq<Doodad>, y: int)
    ensures |Behind(ds, y)| + |InFront(ds, y)| == |ds|
    ensures multiset(Behind(ds, y)) + multiset(InFront(ds, y)) == multiset(ds)
  {
    if ds != [] {
      PartitionSize(ds[1..], y);
      assert ds == [ds[0]] + ds[1..];
    }
  }

  /** The display list holds every doodad once, plus the trainer once. */
  lemma DisplayIsPermutation(ds: seq<Doodad>, trainerY: int)
    ensures multiset(Behind(ds, trainerY)) + multiset(InFront(ds, trainerY)) == multiset(ds)
    ensures multiset(DisplayList(ds, trainerY)) == multiset(Sprites(ds)) + multiset{TrainerSprite}
  {
    var b, f := Behind(ds, trainerY), InFront(ds, trainerY);
    PartitionSize(ds, trainerY);
    SpritesMultiset(b + f, ds);
    SpritesConcat(b, f);
    calc {
      multiset(DisplayList(ds, trainerY));
      multiset(Sprites(b)) + multiset{TrainerSprite} + multiset(Sprites(f));
      multiset(Sprites(b) + Sprites(f)) + multiset{TrainerSprite};
      multiset(Sprites(b + f)) + multiset{TrainerSprite};
    }
  }

  lemma {:induction false} SpritesConcat(a: seq<Doodad>, b: seq<Doodad>)
    ensures Sprites(a + b) == Sprites(a) + Sprites(b)
  {
  }

  /** `Sprites` of two lists with the same elements have the same elements. */
  lemma SpritesMultiset(a: seq<Doodad>, b: seq<Doodad>)
    requires multiset(a) == multiset(b)
    ensures multiset(Sprites(a)) == multiset(Sprites(b))
  {
    SpritesCount(a);
    SpritesCount(b);
  }

  lemma {:induction false} SpritesCount(a: seq<Doodad>)
    ensures forall e :: multiset(Sprites(a))[e] == (if e.DoodadSprite? then multiset(a)[e.doodad] else 0)
  {
    if a != [] {
      SpritesCount(a[1..]);
      assert a == [a[0]] + a[1..];
      assert Sprites(a) == [DoodadSprite(a[0])] + Sprites(a[1..]);
    }
  }

  /** The doodads come y-sorted from loading; the trainer then only slots in
      among them: dropping it from the display list gives back the doodads in
      their order. */
  lemma {:induction false} SortedSplits(ds: seq<Doodad>, y: int)
    requires SortedByY(ds)
    ensures Behind(ds, y) + InFront(ds, y) == ds
  {
    if ds != [] {
      SortedSplits(ds[1..], y);
      if ds[0].location.y >= y {
        assert Behind(ds[1..], y) == [];
      }
      assert ds == [ds[0]] + ds[1..];
    }
  }

  // ----- the foreground overlay -----

  /** The flag write of `sort_entites_for_display` on one doodad: set when
      it may be drawn over the trainer, is near the trainer at `point` and
      collides with the trainer (`collides`, the rectangle test, is a
      parameter). */
  function Marked(d: Doodad, point: Vector.Vec, collides: Doodad -> bool): (r: Doodad)
    ensures r.drawForeground == (d.drawForeground || (d.showInFront && IsNearby(d, point) && collides(d)))
    ensures r.(drawForeground := d.drawForeground) == d
  {
    if d.showInFront && IsNearby(d, point) && collides(d) then d.(drawForeground := true) else d
  }

  /** `Marked` on every doodad. */
  function MarkedAll(ds: seq<Doodad>, point: Vector.Vec, collides: Doodad -> bool): (r: seq<Doodad>)
    ensures |r| == |ds| && forall i :: 0 <= i < |ds| ==> r[i] == Marked(ds[i], point, collides)
  {
    if ds == [] then [] else [Marked(ds[0], point, collides)] + MarkedAll(ds[1..], point, collides)
  }

  /** The flag-setting loop of `sort_entites_for_display`. */
  method MarkForeground(ds: seq<Doodad>, point: Vector.Vec, collides: Doodad -> bool) returns (r: seq<Doodad>)
    ensures r == MarkedAll(ds, point, collides)
  {
    r := ds;
    var i := 0;
    while i < |r|
      invariant 0 <= i <= |r| == |ds|
      invariant forall j :: 0 <= j < i ==> r[j] == Marked(ds[j], point, collides)
      invariant forall j :: i <= j < |r| ==> r[j] == ds[j]
    {
      if r[i].showInFront {
        if IsNearby(r[i], point) {
          if collides(r[i]) {
            r := r[i := r[i].(drawForeground := true)];
          }
        }
      }
      i := i + 1;
    }
    assert r == MarkedAll(ds, point, collides);
  }

  /** The doodads whose foreground slice is drawn this tick, in order. */
  function Overlaid(ds: seq<Doodad>): (r: seq<Doodad>)
    ensures forall i :: 0 <= i < |r| ==> r[i].drawForeground
    ensures |r| <= |ds|
  {
    if ds == [] then []
    else (if ds[0].drawForeground then [ds[0]] else []) + Overlaid(ds[1..])
  }

  lemma OverlaidCons(d: Doodad, ds: seq<Doodad>)
    ensures Overlaid([d] + ds) == (if d.drawForeground then [d] else []) + Overlaid(ds)
  {
    assert ([d] + ds)[0] == d && ([d] + ds)[1..] == ds;
  }

  /** The overlay loop of `update_screen`: each flagged doodad is drawn again
      in front (`overlay`) and its flag cleared. */
  method ClearForeground(ds: seq<Doodad>) returns (overlay: seq<Doodad>, r: seq<Doodad>)
    ensures overlay == Overlaid(ds)
    ensures |r| == |ds| && forall i :: 0 <= i < |ds| ==> r[i] == ds[i].(drawForeground := false)
  {
    overlay := [];
    r := ds;
    var i := 0;
    while i < |ds|
      invariant 0 <= i <= |ds| == |r|
      invariant Overlaid(ds) == overlay + Overlaid(ds[i..])
      invariant forall j :: 0 <= j < i ==> r[j] == ds[j].(drawForeground := false)
      invariant forall j :: i <= j < |r| ==> r[j] == ds[j]
    {
      OverlaidAt(ds, i);
      assert r[i] == ds[i];
      if r[i].drawForeground {
        assert Overlaid(ds) == (overlay + [ds[i]]) + Overlaid(ds[i + 1..]);
        r := r[i := r[i].(drawForeground := false)];
        overlay := overlay + [ds[i]];
      } else {
        assert Overlaid(ds[i..]) == Overlaid(ds[i + 1..]);
      }
      i := i + 1;
    }
  }

  /** `Overlaid` of a suffix, one doodad at a time. */
  lemma OverlaidAt(ds: seq<Doodad>, i: nat)
    requires i < |ds|
    ensures Overlaid(ds[i..]) == (if ds[i].drawForeground then [ds[i]] else []) + Overlaid(ds[i + 1..])
  {
    assert ds[i..] == [ds[i]] + ds[i + 1..];
    OverlaidCons(ds[i], ds[i + 1..]);
  }

  /** The doodads of `ds` that qualify for the overlay, flagged, in order. */
  function Qualifying(ds: seq<Doodad>, point: Vector.Vec, collides: Doodad -> bool): (r: seq<Doodad>)
    ensures forall i :: 0 <= i < |r| ==> r[i].drawForeground
  {
    if ds == [] then []
    else
      var d := ds[0];
      (if d.showInFront && IsNearby(d, point) && collides(d) then [d.(drawForeground := true)] else [])
      + Qualifying(ds[1..], point, collides)
  }

  /** Marking a flag-free doodad list (as loading leaves it, and as the
      previous tick's overlay pass leaves it) overlays exactly the doodads
      that qualify, in their order. */
  lemma {:induction false} OverlayExactlyQualifying(ds: seq<Doodad>, point: Vector.Vec, collides: Doodad -> bool)
    requires forall i :: 0 <= i < |ds| ==> !ds[i].drawForeground
    ensures Overlaid(MarkedAll(ds, point, collides)) == Qualifying(ds, point, collides)
  {
    if ds != [] {
      OverlayExactlyQualifying(ds[1..], point, collides);
      assert MarkedAll(ds, point, collides)[1..] == MarkedAll(ds[1..], point, collides);
    }
  }
}
