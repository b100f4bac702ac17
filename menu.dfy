/** menu.py: a menu with a row cursor, and the overworld sidebar menu. The
    images (background, cursor, rendered item text) are outside the model;
    an item keeps its label and where its text is drawn. */
module Menus {
  import opened Wrappers
  import opened Helpers
  import opened Controllers

  /** The handler `get_action_from_input` returns, as a tag in place of the
      bound method. */
  datatype MenuAction = Close | Select | Back | Navigate

  datatype MenuItem = MenuItem(text: string, coords: (int, int))

  /** The sidebar's entries, top to bottom. */
  const SidebarLabels: seq<string> :=
    ["POK\U{E9}DEX", "POK\U{E9}MON", "BAG", "ASH", "SAVE", "OPTION", "EXIT"]

  /** `get_action_from_input(buttons)`: only the last button of the list
      counts; `(None, "")` for an empty list or a button with no action. */
  function GetActionFromInput(buttons: seq<Button>): (r: (Option<MenuAction>, string))
    ensures buttons == [] ==> r == (None, "")
    ensures buttons != [] ==>
      var n := buttons[|buttons| - 1].name;
      && (r.0 == Some(Close) <==> n == Start)
      && (r.0 == Some(Select) <==> n == A)
      && (r.0 == Some(Back) <==> n == B)
      && (r.0 == Some(Navigate) <==> n == Up || n == Down)
      && (r.0 == None <==> n == Left || n == Right)
      && (r.1 == "up" <==> n == Up)
      && (r.1 == "down" <==> n == Down)
      && (r.1 == "" <==> n != Up && n != Down)
  {
    if buttons == [] then (None, "")
    else match buttons[|buttons| - 1].name
      case Start => (Some(Close), "")
      case A => (Some(Select), "")
      case B => (Some(Back), "")
      case Up => (Some(Navigate), "up")
      case Down => (Some(Navigate), "down")
      case _ => (None, "")
  }

  /** Earlier buttons in the list never change the action. */
  lemma LastButtonDecides(buttons: seq<Button>, last: Button)
    ensures GetActionFromInput(buttons + [last]) == GetActionFromInput([last])
  {
    assert (buttons + [last])[|buttons|] == last;
  }

  /** The cursor position `navigate(direction)` leaves, with `count` items:
      "up" and "down" step by one and wrap around the ends, anything else
      leaves it. */
  function Navigated(position: int, direction: string, count: nat): (r: int)
    ensures direction != "up" && direction != "down" ==> r == position
    ensures count > 0 && 0 <= position < count && (direction == "up" || direction == "down") ==> 0 <= r < count
    ensures direction == "down" && 0 <= position < count - 1 ==> r == position + 1
    ensures direction == "down" && position == count - 1 ==> r == 0
    ensures direction == "up" && 0 < position < count ==> r == position - 1
    ensures direction == "up" && position == 0 ==> r == count - 1
  {
    if direction == "up" then IncrementWithWrap(position, -1, count - 1)
    else if direction == "down" then IncrementWithWrap(position, 1, count - 1)
    else position
  }

  /** With no items, "down" from 0 stays at 0 but "up" moves the cursor to
      -1: `max_value` is then -1 and a sum below zero becomes it. */
  lemma EmptyMenuUp()
    ensures Navigated(0, "up", 0) == -1
    ensures Navigated(0, "down", 0) == 0
  {
  }

  /** Where `set_items` draws the text of row `row`. */
  function ItemCoords(textOffset: (int, int), cursorOffset: (int, int), row: nat): (int, int) {
    (textOffset.0 + cursorOffset.0, textOffset.1 * row + cursorOffset.1)
  }

  class Menu {
    var coords: (int, int)
    var cursorOffset: (int, int)
    var cursorPosition: int
    var cursorType: string
    var items: seq<MenuItem>
    var name: string
    var open: bool
    var rowHeight: int
    var textOffset: (int, int)

    /** `Menu()`: everything empty or zero, and not yet open. */
    constructor Plain()
      ensures coords == (0, 0) && cursorOffset == (0, 0) && cursorPosition == 0
      ensures cursorType == "" && items == [] && name == "" && !open
      ensures rowHeight == 0 && textOffset == (0, 0)
    {
      coords := (0, 0);
      cursorOffset := (0, 0);
      cursorPosition := 0;
      cursorType := "";
      items := [];
      name := "";
      open := false;
      rowHeight := 0;
      textOffset := (0, 0);
    }

    /** `Overworld_Sidebar()`: the sidebar's layout, then its seven items. */
    constructor Sidebar()
      ensures name == "overworld_sidebar" && coords == (159, 1) && cursorType == "row"
      ensures cursorOffset == (8, 8) && rowHeight == 14 && textOffset == (8, 14)
      ensures cursorPosition == 0 && !open
      ensures |items| == 7
      ensures forall r :: 0 <= r < 7 ==> items[r] == MenuItem(SidebarLabels[r], (16, 14 * r + 8))
      ensures forall r :: 0 <= r < 7 ==> items[r].coords.1 == cursorOffset.1 + r * rowHeight
    {
      coords := (159, 1);
      cursorOffset := (8, 8);
      cursorPosition := 0;
      cursorType := "row";
      items := [];
      name := "overworld_sidebar";
      open := false;
      rowHeight := 14;
      textOffset := (8, 14);
      new;
      SetItems();
    }

    /** `set_items`: one item per sidebar label, appended in order. */
    method SetItems()
      modifies this`items
      ensures |items| == |old(items)| + |SidebarLabels| && items[..|old(items)|] == old(items)
      ensures forall r :: 0 <= r < |SidebarLabels| ==>
        items[|old(items)| + r] == MenuItem(SidebarLabels[r], ItemCoords(textOffset, cursorOffset, r))
    {
      var row := 0;
      while row < |SidebarLabels|
        invariant 0 <= row <= |SidebarLabels|
        invariant |items| == |old(items)| + row && items[..|old(items)|] == old(items)
        invariant forall r :: 0 <= r < row ==>
          items[|old(items)| + r] == MenuItem(SidebarLabels[r], ItemCoords(textOffset, cursorOffset, r))
      {
        items := items + [MenuItem(SidebarLabels[row], ItemCoords(textOffset, cursorOffset, row))];
        row := row + 1;
      }
    }

    /** `get_cursor_coords`: the cursor's top-left corner, one row height
        per position below the cursor offset. */
    function GetCursorCoords(): (r: (int, int))
      reads this
      ensures r.0 == cursorOffset.0
      ensures r.1 - cursorOffset.1 == cursorPosition * rowHeight
    {
      (cursorOffset.0, cursorOffset.1 + cursorPosition * rowHeight)
    }

    /** `navigate(direction)`. */
    method Navigate(direction: string)
      modifies this`cursorPosition
      ensures cursorPosition == Navigated(old(cursorPosition), direction, |items|)
    {
      var step;
      if direction == "up" {
        step := -1;
      } else if direction == "down" {
        step := 1;
      } else {
        return;
      }
      cursorPosition := IncrementWithWrap(cursorPosition, step, |items| - 1);
    }

    /** `update` without the drawing: the menu counts as open from its first
        update on. */
    method Update()
      modifies this`open
      ensures open
    {
      if !open {
        open := true;
      }
    }

    /** `close`: it acts only once the menu is open, so the START press that
        opened the menu does not close it again. */
    method Close() returns (acted: bool)
      ensures acted == open
    {
      acted := open;
    }
  }
}
