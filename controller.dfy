/** controller.py: the game's buttons. A button remembers whether it is held
    (`isDown`) and whether it was pressed since the last `update` (`flag`,
    the one-shot press signal). */
module Controllers {
  import opened Wrappers
  import opened Keys

  datatype ButtonName = Up | Down | Left | Right | A | B | Start

  /** The directions in the order `as_int` numbers them. */
  const DpadNames: seq<ButtonName> := [Up, Down, Left, Right]

  class Button {
    const name: ButtonName
    const binding: int
    const dpad: bool
    var flag: bool
    var isDown: bool

    constructor (name: ButtonName, binding: int, dpad: bool)
      ensures this.name == name && this.binding == binding && this.dpad == dpad
      ensures !flag && !isDown
    {
      this.name := name;
      this.binding := binding;
      this.dpad := dpad;
      flag := false;
      isDown := false;
    }

    /** `as_int`: a direction button's position in `DpadNames`. It raises
        (`None`) for a button that is not on the d-pad, or whose name is not a
        direction. */
    function AsInt(): (r: Option<nat>)
      ensures r.Some? <==> dpad && name in DpadNames
      ensures r.Some? ==> r.value < |DpadNames| && DpadNames[r.value] == name
    {
      if !dpad then None
      else if name == Up then Some(0)
      else if name == Down then Some(1)
      else if name == Left then Some(2)
      else if name == Right then Some(3)
      else None
    }

    method Press()
      modifies this
      ensures flag && isDown
    {
      flag := true;
      isDown := true;
    }

    method Release()
      modifies this
      ensures !flag && !isDown
    {
      flag := false;
      isDown := false;
    }

    /** Clears only the one-shot flag. */
    method Update()
      modifies this`flag
      ensures !flag
    {
      flag := false;
    }
  }

  predicate Distinct(bs: seq<Button>) {
    forall i, j :: 0 <= i < j < |bs| ==> bs[i] != bs[j]
  }

  /** `r` is `bs` with some buttons left out and the order kept. */
  predicate Subsequence(r: seq<Button>, bs: seq<Button>)
    decreases |bs|
  {
    r == [] || (bs != [] && ((r[0] == bs[0] && Subsequence(r[1..], bs[1..])) || Subsequence(r, bs[1..])))
  }

  /** Every button of a subsequence is in the list. */
  lemma {:induction false} SubsequenceMembers(r: seq<Button>, bs: seq<Button>)
    requires Subsequence(r, bs)
    ensures forall i :: 0 <= i < |r| ==> r[i] in bs
    decreases |bs|
  {
    if r != [] {
      if r[0] == bs[0] && Subsequence(r[1..], bs[1..]) {
        SubsequenceMembers(r[1..], bs[1..]);
        assert forall i :: 1 <= i < |r| ==> r[i] == r[1..][i - 1];
      } else {
        SubsequenceMembers(r, bs[1..]);
      }
    }
  }

  /** A subsequence of distinct buttons holds each of them at most once. */
  lemma {:induction false} SubsequenceDistinct(r: seq<Button>, bs: seq<Button>)
    requires Subsequence(r, bs)
    ensures Distinct(bs) ==> Distinct(r)
    decreases |bs|
  {
    if r != [] && Distinct(bs) {
      assert Distinct(bs[1..]);
      if r[0] == bs[0] && Subsequence(r[1..], bs[1..]) {
        SubsequenceDistinct(r[1..], bs[1..]);
        SubsequenceMembers(r[1..], bs[1..]);
        forall i, j | 0 <= i < j < |r|
          ensures r[i] != r[j]
        {
          assert r[j] == r[1..][j - 1] && r[j] in bs[1..];
          if i > 0 {
            assert r[i] == r[1..][i - 1];
          }
        }
      } else {
        SubsequenceDistinct(r, bs[1..]);
      }
    }
  }

  /** `get_flags`'s comprehension: the buttons of `bs` whose flag is set,
      in order. */
  function Flagged(bs: seq<Button>): (r: seq<Button>)
    reads bs
    ensures forall i :: 0 <= i < |r| ==> r[i] in bs && r[i].flag
    ensures forall i :: 0 <= i < |bs| && bs[i].flag ==> bs[i] in r
    ensures |r| <= |bs|
    ensures Subsequence(r, bs)
  {
    if bs == [] then []
    else
      var rest := Flagged(bs[1..]);
      if bs[0].flag then
        assert ([bs[0]] + rest)[1..] == rest;
        [bs[0]] + rest
      else
        assert Subsequence(rest, bs);
        rest
  }

  /** `get_pressed`'s comprehension: the buttons of `bs` that are held, in
      order. */
  function Held(bs: seq<Button>): (r: seq<Button>)
    reads bs
    ensures forall i :: 0 <= i < |r| ==> r[i] in bs && r[i].isDown
    ensures forall i :: 0 <= i < |bs| && bs[i].isDown ==> bs[i] in r
    ensures |r| <= |bs|
    ensures Subsequence(r, bs)
  {
    if bs == [] then []
    else
      var rest := Held(bs[1..]);
      if bs[0].isDown then
        assert ([bs[0]] + rest)[1..] == rest;
        [bs[0]] + rest
      else
        assert Subsequence(rest, bs);
        rest
  }

  /** `get_dpad`'s comprehension: the d-pad buttons of `bs`, in order. */
  function DpadOf(bs: seq<Button>): (r: seq<Button>)
    ensures forall i :: 0 <= i < |r| ==> r[i] in bs && r[i].dpad
    ensures forall i :: 0 <= i < |bs| && bs[i].dpad ==> bs[i] in r
    ensures |r| <= |bs|
    ensures Subsequence(r, bs)
  {
    if bs == [] then []
    else
      var rest := DpadOf(bs[1..]);
      if bs[0].dpad then
        assert ([bs[0]] + rest)[1..] == rest;
        [bs[0]] + rest
      else
        assert Subsequence(rest, bs);
        rest
  }

  /** No button of `bs` on the d-pad: `DpadOf` keeps none. */
  lemma {:induction false} DpadOfNone(bs: seq<Button>)
    requires forall i :: 0 <= i < |bs| ==> !bs[i].dpad
    ensures DpadOf(bs) == []
  {
    if bs != [] {
      DpadOfNone(bs[1..]);
    }
  }

  /** The first `n` buttons on the d-pad and none after them: `DpadOf`
      keeps exactly those `n`. */
  lemma {:induction false} DpadOfPrefix(bs: seq<Button>, n: nat)
    requires n <= |bs|
    requires forall i :: 0 <= i < n ==> bs[i].dpad
    requires forall i :: n <= i < |bs| ==> !bs[i].dpad
    ensures DpadOf(bs) == bs[..n]
    decreases n
  {
    if n == 0 {
      DpadOfNone(bs);
    } else {
      var tail := bs[1..];
      assert DpadOf(bs) == [bs[0]] + DpadOf(tail);
      assert DpadOf(tail) == tail[..n - 1] by {
        DpadOfPrefix(tail, n - 1);
      }
      assert [bs[0]] + tail[..n - 1] == bs[..n];
    }
  }

  /** In the "wasd" layout the d-pad is the first four buttons, in the order
      UP, DOWN, LEFT, RIGHT. */
  lemma WasdDpad(bs: seq<Button>)
    requires WasdLayout(bs)
    ensures DpadOf(bs) == bs[..4]
    ensures forall k :: 0 <= k < 4 ==> DpadOf(bs)[k].name == DpadNames[k]
  {
    DpadOfPrefix(bs, 4);
  }

  /** Position of the first button of `bs` satisfying "held". */
  function FirstHeld(bs: seq<Button>): (r: Option<nat>)
    reads bs
    ensures r.Some? ==> r.value < |bs| && bs[r.value].isDown
                        && forall j :: 0 <= j < r.value ==> !bs[j].isDown
    ensures r.None? ==> forall j :: 0 <= j < |bs| ==> !bs[j].isDown
  {
    if bs == [] then None
    else if bs[0].isDown then Some(0)
    else match FirstHeld(bs[1..])
      case None => None
      case Some(k) => Some(k + 1)
  }

  /** `FirstHeld` finds `k` exactly when button `k` is held and none before
      it is. */
  lemma FirstHeldExactly(bs: seq<Button>, k: nat)
    requires k < |bs|
    ensures FirstHeld(bs) == Some(k) <==> bs[k].isDown && forall j :: 0 <= j < k ==> !bs[j].isDown
  {
    if bs[k].isDown && forall j :: 0 <= j < k ==> !bs[j].isDown {
      match FirstHeld(bs)
      case None =>
      case Some(m) =>
        assert !(m < k) && !(k < m);
    }
  }

  /** On four direction buttons in `DpadNames` order, the first held one's
      number is its position. */
  lemma DpadNumbers(d: seq<Button>)
    requires |d| == 4 && forall k :: 0 <= k < 4 ==> d[k].dpad && d[k].name == DpadNames[k]
    ensures FirstHeld(d).Some? ==> d[FirstHeld(d).value].AsInt() == FirstHeld(d)
  {
    if FirstHeld(d).Some? {
      var k := FirstHeld(d).value;
      assert d[k].dpad && d[k].name == DpadNames[k];
    }
  }

  /** Position of the first button of `bs` called `name`. */
  function FirstNamed(bs: seq<Button>, name: ButtonName): (r: Option<nat>)
    ensures r.Some? ==> r.value < |bs| && bs[r.value].name == name
                        && forall j :: 0 <= j < r.value ==> bs[j].name != name
    ensures r.None? ==> forall j :: 0 <= j < |bs| ==> bs[j].name != name
  {
    if bs == [] then None
    else if bs[0].name == name then Some(0)
    else match FirstNamed(bs[1..], name)
      case None => None
      case Some(k) => Some(k + 1)
  }

  /** Position of the first button of `bs` bound to `key`. */
  function FirstBound(bs: seq<Button>, key: int): (r: Option<nat>)
    ensures r.Some? ==> r.value < |bs| && bs[r.value].binding == key
                        && forall j :: 0 <= j < r.value ==> bs[j].binding != key
    ensures r.None? ==> forall j :: 0 <= j < |bs| ==> bs[j].binding != key
  {
    if bs == [] then None
    else if bs[0].binding == key then Some(0)
    else match FirstBound(bs[1..], key)
      case None => None
      case Some(k) => Some(k + 1)
  }

  class Controller {
    const style: string
    var buttons: seq<Button>

    ghost predicate Valid()
      reads this, buttons
    {
      && Distinct(buttons)
      && forall i :: 0 <= i < |buttons| && buttons[i].dpad ==> buttons[i].name in DpadNames
    }

    constructor (style: string)
      ensures this.style == style && Valid() && fresh(buttons)
      ensures style == "wasd" ==> WasdLayout(buttons)
      ensures style != "wasd" ==> buttons == []
      ensures forall b :: b in buttons ==> !b.flag && !b.isDown
    {
      this.style := style;
      buttons := [];
      new;
      SetButtonsFromStyle();
    }

    /** `set_buttons_from_style`: only the "wasd" style is known; it appends
        the four direction buttons, then A, B and START. */
    method SetButtonsFromStyle()
      requires Valid()
      modifies this
      ensures Valid() && fresh(set b | b in buttons && b !in old(buttons))
      ensures style == "wasd" ==> |buttons| == |old(buttons)| + 7 && buttons[..|old(buttons)|] == old(buttons)
                                  && WasdLayout(buttons[|old(buttons)|..])
      ensures style != "wasd" ==> buttons == old(buttons)
      ensures forall b :: b in buttons && b !in old(buttons) ==> !b.flag && !b.isDown
    {
      if style == "wasd" {
        ghost var added: seq<Button> := [];
        var names := DpadNames;
        var bindings := WasdDpadBindings;
        var n := 0;
        while n < |names|
          invariant 0 <= n <= |names| && |added| == n
          invariant buttons == old(buttons) + added
          invariant Distinct(buttons)
          invariant forall i :: 0 <= i < |buttons| && buttons[i].dpad ==> buttons[i].name in DpadNames
          invariant forall b :: b in added ==> fresh(b) && !b.flag && !b.isDown
          invariant forall k :: 0 <= k < n ==>
            fresh(added[k]) && !added[k].flag && !added[k].isDown
            && added[k].dpad && added[k].name == DpadNames[k] && added[k].binding == WasdDpadBindings[k]
        {
          var b := new Button(names[n], bindings[n], true);
          buttons := buttons + [b];
          added := added + [b];
          n := n + 1;
        }
        var others := WasdOtherNames;
        var otherBindings := WasdOtherBindings;
        n := 0;
        while n < |others|
          invariant 0 <= n <= |others| && |added| == 4 + n
          invariant buttons == old(buttons) + added
          invariant Distinct(buttons)
          invariant forall i :: 0 <= i < |buttons| && buttons[i].dpad ==> buttons[i].name in DpadNames
          invariant forall b :: b in added ==> fresh(b) && !b.flag && !b.isDown
          invariant forall k :: 0 <= k < 4 ==>
            fresh(added[k]) && !added[k].flag && !added[k].isDown
            && added[k].dpad && added[k].name == DpadNames[k] && added[k].binding == WasdDpadBindings[k]
          invariant forall k :: 4 <= k < 4 + n ==>
            !added[k].dpad && added[k].name == WasdOtherNames[k - 4] && added[k].binding == WasdOtherBindings[k - 4]
        {
          var b := new Button(others[n], otherBindings[n], false);
          ghost var prev := added;
          buttons := buttons + [b];
          added := added + [b];
          assert added[4 + n] == b && b.name == WasdOtherNames[n] && b.binding == WasdOtherBindings[n] && !b.dpad;
          assert forall k :: 0 <= k < 4 + n ==> added[k] == prev[k];
          n := n + 1;
        }
        assert buttons[|old(buttons)|..] == added;
      }
    }

    /** `button(name)`: the first button called `name`; it raises
        StopIteration (`None`) when there is none. */
    function ButtonNamed(name: ButtonName): (r: Option<Button>)
      reads this
      ensures r.Some? <==> exists i :: 0 <= i < |buttons| && buttons[i].name == name
      ensures r.Some? ==> exists i :: 0 <= i < |buttons| && buttons[i] == r.value && r.value.name == name
                                      && forall j :: 0 <= j < i ==> buttons[j].name != name
    {
      match FirstNamed(buttons, name)
      case None => None
      case Some(i) => Some(buttons[i])
    }

    /** `get_dpad`: the direction buttons, in order. */
    function GetDpad(): (r: seq<Button>)
      reads this
      ensures forall i :: 0 <= i < |r| ==> r[i] in buttons && r[i].dpad
      ensures forall i :: 0 <= i < |buttons| && buttons[i].dpad ==> buttons[i] in r
      ensures Subsequence(r, buttons)
      ensures Distinct(buttons) ==> Distinct(r)
      ensures WasdLayout(buttons) ==> r == buttons[..4]
    {
      SubsequenceDistinct(DpadOf(buttons), buttons);
      if WasdLayout(buttons) then WasdDpad(buttons); DpadOf(buttons) else DpadOf(buttons)
    }

    /** `get_dpad_input`: the number of the FIRST held direction button in
        button order (UP, DOWN, LEFT, RIGHT), a fixed priority, not the most
        recent press; `None` when none is held. */
    function GetDpadInput(): (r: Option<nat>)
      reads this, buttons
      requires Valid()
      ensures r.None? <==> forall b :: b in GetDpad() ==> !b.isDown
      ensures r.Some? ==>
        exists k :: 0 <= k < |GetDpad()| && GetDpad()[k].isDown && GetDpad()[k].AsInt() == r
                    && forall j :: 0 <= j < k ==> !GetDpad()[j].isDown
    {
      var d := GetDpad();
      match FirstHeld(d)
      case None => None
      case Some(k) => d[k].AsInt()
    }

    /** With the "wasd" buttons the priority is fixed: the direction is
        the number of the first held button among UP, DOWN, LEFT and RIGHT
        (see `FirstHeldExactly`), whichever was pressed last. */
    lemma DpadPriority()
      requires Valid() && WasdLayout(buttons)
      ensures GetDpadInput() == FirstHeld(buttons[..4])
      ensures GetDpadInput().Some? ==> buttons[GetDpadInput().value].name == DpadNames[GetDpadInput().value]
    {
      var d := buttons[..4];
      var h := FirstHeld(d);
      assert GetDpadInput() == h by {
        DpadNumbers(d);
        WasdDpad(buttons);
      }
    }

    /** `get_flags`: the buttons pressed since the last `update`, in order. */
    function GetFlags(): (r: seq<Button>)
      reads this, buttons
      ensures forall i :: 0 <= i < |r| ==> r[i] in buttons && r[i].flag
      ensures forall i :: 0 <= i < |buttons| && buttons[i].flag ==> buttons[i] in r
      ensures Subsequence(r, buttons)
      ensures Distinct(buttons) ==> Distinct(r)
    {
      SubsequenceDistinct(Flagged(buttons), buttons);
      Flagged(buttons)
    }

    /** `get_pressed`: the held buttons, in order. */
    function GetPressed(): (r: seq<Button>)
      reads this, buttons
      ensures forall i :: 0 <= i < |r| ==> r[i] in buttons && r[i].isDown
      ensures forall i :: 0 <= i < |buttons| && buttons[i].isDown ==> buttons[i] in r
      ensures Subsequence(r, buttons)
      ensures Distinct(buttons) ==> Distinct(r)
    {
      SubsequenceDistinct(Held(buttons), buttons);
      Held(buttons)
    }

    /** `handle_keydown`: press the first button bound to `key`; an unbound
        key changes nothing. */
    method HandleKeydown(key: int)
      requires Valid()
      modifies buttons
      ensures FirstBound(buttons, key).Some? ==>
        buttons[FirstBound(buttons, key).value].flag && buttons[FirstBound(buttons, key).value].isDown
      ensures forall j :: 0 <= j < |buttons| && Some(j) != FirstBound(buttons, key) ==>
        buttons[j].flag == old(buttons[j].flag) && buttons[j].isDown == old(buttons[j].isDown)
    {
      var i := FirstBound(buttons, key);
      if i.Some? {
        buttons[i.value].Press();
      }
    }

    /** `handle_keyup`: release the first button bound to `key`; an unbound
        key changes nothing. */
    method HandleKeyup(key: int)
      requires Valid()
      modifies buttons
      ensures FirstBound(buttons, key).Some? ==>
        !buttons[FirstBound(buttons, key).value].flag && !buttons[FirstBound(buttons, key).value].isDown
      ensures forall j :: 0 <= j < |buttons| && Some(j) != FirstBound(buttons, key) ==>
        buttons[j].flag == old(buttons[j].flag) && buttons[j].isDown == old(buttons[j].isDown)
    {
      var i := FirstBound(buttons, key);
      if i.Some? {
        buttons[i.value].Release();
      }
    }

    /** `poll`: every button whose key is reported down (`down`, the
        keyboard state, a parameter here) becomes held; no flag is set and no
        button is released. */
    method Poll(down: set<int>)
      requires Valid()
      modifies buttons
      ensures forall i :: 0 <= i < |buttons| ==>
        buttons[i].isDown == (old(buttons[i].isDown) || buttons[i].binding in down)
      ensures forall i :: 0 <= i < |buttons| ==> buttons[i].flag == old(buttons[i].flag)
    {
      var i := 0;
      while i < |buttons|
        invariant 0 <= i <= |buttons|
        invariant forall j :: 0 <= j < i ==>
          buttons[j].isDown == (old(buttons[j].isDown) || buttons[j].binding in down)
        invariant forall j :: i <= j < |buttons| ==> buttons[j].isDown == old(buttons[j].isDown)
        invariant forall j :: 0 <= j < |buttons| ==> buttons[j].flag == old(buttons[j].flag)
      {
        if buttons[i].binding in down {
          buttons[i].isDown := true;
        }
        i := i + 1;
      }
    }

    /** `reset`: every button released. */
    method Reset()
      requires Valid()
      modifies buttons
      ensures forall b :: b in buttons ==> !b.flag && !b.isDown
    {
      var i := 0;
      while i < |buttons|
        invariant 0 <= i <= |buttons|
        invariant forall j :: 0 <= j < i ==> !buttons[j].flag && !buttons[j].isDown
      {
        buttons[i].Release();
        i := i + 1;
      }
    }

    /** `update`: every flag cleared, every held state kept. */
    method Update()
      requires Valid()
      modifies buttons
      ensures forall b :: b in buttons ==> !b.flag && b.isDown == old(b.isDown)
    {
      var i := 0;
      while i < |buttons|
        invariant 0 <= i <= |buttons|
        invariant forall j :: 0 <= j < i ==> !buttons[j].flag
        invariant forall b :: b in buttons ==> b.isDown == old(b.isDown)
      {
        buttons[i].Update();
        i := i + 1;
      }
    }
  }

  /** Key bindings of the "wasd" style. */
  const WasdDpadBindings: seq<int> := [KeyW, KeyS, KeyA, KeyD]
  const WasdOtherNames: seq<ButtonName> := [A, B, Start]
  const WasdOtherBindings: seq<int> := [KeyU, KeyH, KeySpace]

  /** The seven buttons of the "wasd" style, in order. */
  predicate WasdLayout(bs: seq<Button>) {
    && |bs| == 7
    && (forall k :: 0 <= k < 4 ==>
          bs[k].dpad && bs[k].name == DpadNames[k] && bs[k].binding == WasdDpadBindings[k])
    && (forall k :: 4 <= k < 7 ==>
          !bs[k].dpad && bs[k].name == WasdOtherNames[k - 4] && bs[k].binding == WasdOtherBindings[k - 4])
  }
}
