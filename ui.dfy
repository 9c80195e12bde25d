/**
 * Ui/InventoryUI.cs (an eight-label inventory list with a cursor) and
 * Ui/Messages.cs (a five-line message log). Only the label texts, the
 * highlight of the selected label and the message colours are modelled.
 */
module Ui {
  import opened Engine
  import opened Items

  // ---------------------------------------------------------------------
  // The inventory cursor

  /** `SelectNextItem`'s new cursor: one down, wrapping to the top. */
  function NextSelection(selected: int, numItems: int): (r: int)
    requires numItems >= 0
    ensures numItems == 0 ==> r == selected
    ensures 0 <= selected < numItems ==> 0 <= r < numItems
    ensures 0 <= selected < numItems - 1 ==> r == selected + 1
    ensures numItems > 0 && selected == numItems - 1 ==> r == 0
  {
    if numItems == 0 then selected else CsRem(selected + 1, numItems)
  }

  /** `SelectPreviousItem`'s new cursor: one up, wrapping to the bottom. */
  function PreviousSelection(selected: int, numItems: int): (r: int)
    requires numItems >= 0
    ensures numItems == 0 ==> r == selected
    ensures 0 <= selected < numItems ==> 0 <= r < numItems
    ensures 0 < selected < numItems ==> r == selected - 1
    ensures numItems > 0 && selected == 0 ==> r == numItems - 1
  {
    if numItems == 0 then selected else CsRem(selected - 1 + numItems, numItems)
  }

  /** The two moves undo each other on an in-range cursor. */
  lemma NextPreviousInverse(selected: int, numItems: int)
    requires 0 <= selected < numItems
    ensures PreviousSelection(NextSelection(selected, numItems), numItems) == selected
    ensures NextSelection(PreviousSelection(selected, numItems), numItems) == selected
  {
  }

  /** The cursor after `k` calls of `SelectNextItem`. */
  function Advance(selected: int, numItems: int, k: nat): int
    requires numItems >= 0
  {
    if k == 0 then selected else NextSelection(Advance(selected, numItems, k - 1), numItems)
  }

  /**
   * From the top, `SelectNextItem` visits every item in order and is back at
   * the top after `numItems` calls.
   */
  lemma {:induction false} AdvanceVisitsAll(numItems: int, k: nat)
    requires 0 <= k <= numItems
    ensures Advance(0, numItems, k) == if k == numItems then 0 else k
  {
    if k > 0 {
      AdvanceVisitsAll(numItems, k - 1);
    }
  }

  /**
   * With `numItems == 0`, the state `ShowAsWritten` leaves, `SelectNextItem`
   * never moves the cursor off the top, whatever the list holds.
   */
  lemma {:induction false} CursorStuckWithoutCount(k: nat)
    ensures Advance(0, 0, k) == 0
  {
    if k > 0 {
      CursorStuckWithoutCount(k - 1);
    }
  }

  /** Label texts of a cleared inventory list. */
  const NoLabels: seq<string> := ["", "", "", "", "", "", "", ""]

  /** The label texts `Show(list)` writes. */
  function LabelsFor(list: seq<Consumable?>): (r: seq<string>)
    ensures |r| == 8
    ensures forall i :: 0 <= i < 8 && i < |list| && list[i] != null ==> r[i] == list[i].name
    ensures forall i :: 0 <= i < 8 && (i >= |list| || list[i] == null) ==> r[i] == ""
  {
    seq(8, i requires 0 <= i < 8 => if i < |list| && list[i] != null then list[i].name else "")
  }

  /** The highlight `UpdateSelected` paints: exactly the label at `selected`. */
  function Highlight(selected: int): (r: seq<bool>)
    ensures |r| == 8
    ensures forall i :: 0 <= i < 8 ==> (r[i] <==> i == selected)
  {
    seq(8, i requires 0 <= i < 8 => i == selected)
  }

  class InventoryUI {
    const labels: array<string>
    /** Whether each label has the selection background. */
    const highlighted: array<bool>
    var selected: int
    var numItems: int
    /** Whether the root element is displayed. */
    var shown: bool

    ghost predicate Valid()
      reads this
    {
      labels.Length == 8 && highlighted.Length == 8 && numItems >= 0
    }

    /** `Start`: clears the labels and hides the list. */
    constructor ()
      ensures Valid() && fresh(labels) && fresh(highlighted)
      ensures labels[..] == NoLabels && highlighted[..] == Highlight(-1)
      ensures selected == 0 && numItems == 0 && !shown
    {
      labels := new string[8](_ => "");
      highlighted := new bool[8](_ => false);
      selected, numItems, shown := 0, 0, false;
      new;
      assert highlighted[..] == Highlight(-1);
    }

    /** Clears every label and its background; resets the cursor and the count. */
    method Clear()
      requires Valid()
      modifies this`selected, this`numItems, labels, highlighted
      ensures Valid()
      ensures labels[..] == NoLabels && highlighted[..] == Highlight(-1)
      ensures selected == 0 && numItems == 0
    {
      for i := 0 to labels.Length
        invariant forall k :: 0 <= k < i ==> labels[k] == "" && !highlighted[k]
      {
        labels[i] := "";
        highlighted[i] := false;
      }
      selected := 0;
      numItems := 0;
      assert labels[..] == NoLabels;
      assert highlighted[..] == Highlight(-1);
    }

    method UpdateSelected()
      requires Valid()
      modifies highlighted
      ensures highlighted[..] == Highlight(selected)
    {
      for i := 0 to highlighted.Length
        invariant forall k :: 0 <= k < i ==> (highlighted[k] <==> k == selected)
      {
        highlighted[i] := i == selected;
      }
      assert highlighted[..] == Highlight(selected);
    }

    method SelectNextItem()
      requires Valid()
      modifies this`selected, highlighted
      ensures selected == NextSelection(old(selected), numItems)
      ensures numItems == 0 ==> highlighted[..] == old(highlighted[..])
      ensures numItems > 0 ==> highlighted[..] == Highlight(selected)
    {
      if numItems == 0 {
        return;
      }
      selected := CsRem(selected + 1, numItems);
      UpdateSelected();
    }

    method SelectPreviousItem()
      requires Valid()
      modifies this`selected, highlighted
      ensures selected == PreviousSelection(old(selected), numItems)
      ensures numItems == 0 ==> highlighted[..] == old(highlighted[..])
      ensures numItems > 0 ==> highlighted[..] == Highlight(selected)
    {
      if numItems == 0 {
        return;
      }
      selected := CsRem(selected - 1 + numItems, numItems);
      UpdateSelected();
    }

    /** The label loop of `Show`, on labels that have just been cleared. */
    method WriteLabels(list: seq<Consumable?>)
      requires Valid() && labels[..] == NoLabels
      modifies labels
      ensures labels[..] == LabelsFor(list)
    {
      var i := 0;
      while i < |list| && i < labels.Length
        invariant 0 <= i <= 8
        invariant forall k :: 0 <= k < 8 ==>
          labels[k] == if k < i && k < |list| && list[k] != null then list[k].name else ""
      {
        if list[i] != null {
          labels[i] := list[i].name;
        }
        i := i + 1;
      }
      assert labels[..] == LabelsFor(list);
    }

    /**
     * `Show(list)` as written: the count is stored before `Clear`, which
     * resets it, so the list is shown with `numItems == 0` and the cursor
     * cannot move.
     */
    method ShowAsWritten(list: seq<Consumable?>)
      requires Valid()
      modifies this`selected, this`numItems, this`shown, labels, highlighted
      ensures Valid()
      ensures labels[..] == LabelsFor(list) && highlighted[..] == Highlight(0)
      ensures selected == 0 && numItems == 0 && shown
    {
      selected := 0;
      numItems := |list|;
      Clear();
      WriteLabels(list);
      UpdateSelected();
      shown := true;
    }

    /** `Show(list)` with the count stored after `Clear`. */
    method Show(list: seq<Consumable?>)
      requires Valid()
      modifies this`selected, this`numItems, this`shown, labels, highlighted
      ensures Valid()
      ensures labels[..] == LabelsFor(list) && highlighted[..] == Highlight(0)
      ensures selected == 0 && numItems == |list| && shown
    {
      Clear();
      selected := 0;
      numItems := |list|;
      WriteLabels(list);
      UpdateSelected();
      shown := true;
    }

    method Hide()
      modifies this`shown
      ensures !shown
    {
      shown := false;
    }
  }

  // ---------------------------------------------------------------------
  // The message log

  /** A log with `m` added on top: everything moves one line down and the bottom line is lost. */
  function Pushed<T>(lines: seq<T>, m: T): (r: seq<T>)
    requires |lines| == 5
    ensures |r| == 5 && r[0] == m
    ensures forall i :: 1 <= i < 5 ==> r[i] == lines[i - 1]
  {
    [m] + lines[..4]
  }

  /** Label texts of a cleared log. */
  const NoMessages: seq<string> := ["", "", "", "", ""]

  /** The texts after `Clear` followed by `AddMessage` of each of `ms`, oldest first. */
  function Board(ms: seq<string>): (r: seq<string>)
    ensures |r| == 5
    decreases |ms|
  {
    if ms == [] then NoMessages else Pushed(Board(ms[..|ms| - 1]), ms[|ms| - 1])
  }

  /** Line `i` shows the (i+1)-th most recent message, or nothing. */
  lemma {:induction false} BoardShowsLatest(ms: seq<string>)
    ensures forall i :: 0 <= i < 5 ==> Board(ms)[i] == if i < |ms| then ms[|ms| - 1 - i] else ""
    decreases |ms|
  {
    if ms != [] {
      var init := ms[..|ms| - 1];
      BoardShowsLatest(init);
      forall i | 1 <= i < 5 ensures Board(ms)[i] == if i < |ms| then ms[|ms| - 1 - i] else "" {
        assert Board(ms)[i] == Board(init)[i - 1];
        if i < |ms| {
          assert init[|init| - 1 - (i - 1)] == ms[|ms| - 1 - i];
        }
      }
    }
  }

  /** The magenta of Unity's `Color.magenta`. */
  const Magenta: Color := Color(1.0, 0.0, 1.0, 1.0)

  class Messages {
    const texts: array<string>
    const colors: array<Color>

    ghost predicate Valid()
      reads this
    {
      texts.Length == 5 && colors.Length == 5
    }

    /** `Start`: clears the log and says welcome. */
    constructor ()
      ensures Valid() && fresh(texts) && fresh(colors)
      ensures texts[..] == Board(["Welcome to the dungeon, Adventurer!"])
      ensures colors[0] == Magenta
    {
      texts := new string[5](_ => "");
      colors := new Color[5](_ => Transparent);
      new;
      Clear();
      AddMessage("Welcome to the dungeon, Adventurer!", Magenta);
    }

    /** Blanks every text; colours stay. */
    method Clear()
      requires Valid()
      modifies texts
      ensures texts[..] == NoMessages
    {
      for i := 0 to texts.Length
        invariant forall k :: 0 <= k < i ==> texts[k] == ""
      {
        texts[i] := "";
      }
      assert texts[..] == NoMessages;
    }

    /** Moves every line one down, from the bottom up; line 0 keeps its value. */
    method MoveUp()
      requires Valid()
      modifies texts, colors
      ensures texts[..] == [old(texts[0])] + old(texts[..4])
      ensures colors[..] == [old(colors[0])] + old(colors[..4])
    {
      var i := 3;
      while i >= 0
        invariant -1 <= i <= 3
        invariant forall k :: 0 <= k <= i + 1 ==> texts[k] == old(texts[k]) && colors[k] == old(colors[k])
        invariant forall k :: i + 2 <= k < 5 ==> texts[k] == old(texts[k - 1]) && colors[k] == old(colors[k - 1])
      {
        texts[i + 1] := texts[i];
        colors[i + 1] := colors[i];
        i := i - 1;
      }
      assert texts[..] == [old(texts[0])] + old(texts[..4]);
      assert colors[..] == [old(colors[0])] + old(colors[..4]);
    }

    method AddMessage(content: string, color: Color)
      requires Valid()
      modifies texts, colors
      ensures texts[..] == Pushed(old(texts[..]), content)
      ensures colors[..] == Pushed(old(colors[..]), color)
    {
      MoveUp();
      texts[0] := content;
      colors[0] := color;
      assert texts[..] == Pushed(old(texts[..]), content);
      assert colors[..] == Pushed(old(colors[..]), color);
    }
  }
}
