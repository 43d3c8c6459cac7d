/**
 * The interactive shell (`shell`): a scrollback of printed lines above one
 * input field, with Enter submitting a line and ArrowUp/ArrowDown walking a
 * history whose entries can be edited in scratch slots.
 */
module Shell {
  import opened Base
  import opened Text

  /** A printed line's colour: the default (`null`), the error red, or the affirmative green. */
  datatype Color = Plain | Red | Green

  datatype Line = Line(message: string, color: Color)

  /**
   * The prompt's editing state: the submitted lines, one scratch slot per
   * history position plus one for the line being typed, the cursor into
   * those slots, and the input field's text.
   */
  datatype Prompt = Prompt(history: seq<string>, buffer: seq<string>, index: nat, value: string)

  /** One slot more than there are history lines, and the cursor on a slot. */
  predicate Navigable(p: Prompt) {
    |p.buffer| == |p.history| + 1 && p.index < |p.buffer|
  }

  /** `history = [], buffer = [""], index = 0` with an empty field. */
  const Initial := Prompt([], [""], 0, "")

  /** The cursor rests one past the last history line, on an empty scratch slot. */
  function Rested(history: seq<string>): (p: Prompt)
    ensures Navigable(p)
  {
    Prompt(history, history + [""], |history|, "")
  }

  /** Enter: a non-blank line joins the history; the field, the slots and the cursor are reset. */
  function AfterEnter(p: Prompt): (q: Prompt)
    ensures Navigable(q)
    ensures q.value == "" && q.buffer == q.history + [""] && q.index == |q.history|
    ensures q.history == if Blank(p.value) then p.history else p.history + [p.value]
  {
    TrimEmptyIffBlank(p.value);
    Rested(if Trim(p.value) != "" then p.history + [p.value] else p.history)
  }

  /** ArrowUp: keep the field's text in the current slot, then move up one slot unless already at the top. */
  function AfterUp(p: Prompt): (q: Prompt)
    requires Navigable(p)
    ensures Navigable(q) && q.history == p.history
    ensures q.buffer == p.buffer[p.index := p.value]
    ensures p.index == 0 ==> q.index == 0 && q.value == p.value
    ensures p.index > 0 ==> q.index == p.index - 1 && q.value == p.buffer[q.index]
  {
    var buffer := p.buffer[p.index := p.value];
    if p.index > 0 then Prompt(p.history, buffer, p.index - 1, buffer[p.index - 1])
    else Prompt(p.history, buffer, p.index, p.value)
  }

  /** ArrowDown: keep the field's text in the current slot, then move down one slot unless already at the bottom. */
  function AfterDown(p: Prompt): (q: Prompt)
    requires Navigable(p)
    ensures Navigable(q) && q.history == p.history
    ensures q.buffer == p.buffer[p.index := p.value]
    ensures p.index == |p.history| ==> q.index == p.index && q.value == p.value
    ensures p.index < |p.history| ==> q.index == p.index + 1 && q.value == p.buffer[q.index]
  {
    var buffer := p.buffer[p.index := p.value];
    if p.index + 1 < |buffer| then Prompt(p.history, buffer, p.index + 1, buffer[p.index + 1])
    else Prompt(p.history, buffer, p.index, p.value)
  }

  /** Up then Down comes back to the same slot and text, with the edit kept in that slot. */
  lemma UpThenDown(p: Prompt)
    requires Navigable(p) && p.index > 0
    ensures AfterDown(AfterUp(p)) == p.(buffer := p.buffer[p.index := p.value])
  {
  }

  /** `k` presses of ArrowUp with no typing in between. */
  function Ups(p: Prompt, k: nat): (q: Prompt)
    requires Navigable(p)
    ensures Navigable(q)
  {
    if k == 0 then p else AfterUp(Ups(p, k - 1))
  }

  /**
   * Right after Enter, pressing ArrowUp `k` times recalls the `k`-th most
   * recent line, and walking leaves every slot as it was.
   */
  lemma {:induction false} UpsRecallHistory(history: seq<string>, k: nat)
    requires k <= |history|
    ensures Ups(Rested(history), k)
         == Prompt(history, history + [""], |history| - k, if k == 0 then "" else history[|history| - k])
  {
    if k > 0 {
      UpsRecallHistory(history, k - 1);
      var p := Ups(Rested(history), k - 1);
      assert p.buffer[p.index] == p.value;
      assert p.buffer[p.index := p.value] == p.buffer;
    }
  }

  /** The page's one shell: its prompt state, the printed lines, and whether a line handler is set. */
  class Console {
    const hasHandler: bool
    var history: seq<string>
    var buffer: seq<string>
    var index: nat
    var value: string
    var scrollback: seq<Line>

    function State(): Prompt
      reads this
    {
      Prompt(history, buffer, index, value)
    }

    ghost predicate Valid()
      reads this
    {
      Navigable(State())
    }

    constructor (hasHandler: bool)
      ensures Valid() && State() == Initial && scrollback == [] && this.hasHandler == hasHandler
    {
      this.hasHandler := hasHandler;
      history, buffer, index, value := [], [""], 0, "";
      scrollback := [];
    }

    /** The user edits the input field. */
    method Type(text: string)
      requires Valid()
      modifies this`value
      ensures Valid() && value == text
    {
      value := text;
    }

    /** `print(message, color)`: a new line above the input row. */
    method Print(message: string, color: Color)
      modifies this`scrollback
      ensures scrollback == old(scrollback) + [Line(message, color)]
    {
      scrollback := scrollback + [Line(message, color)];
    }

    /**
     * Enter: echo the field, record a non-blank line and hand it, untrimmed,
     * to the handler (the returned line), then reset the field and cursor.
     */
    method Enter() returns (handled: Option<string>)
      requires Valid()
      modifies this`history, this`buffer, this`index, this`value, this`scrollback
      ensures Valid() && State() == AfterEnter(old(State()))
      ensures scrollback == old(scrollback) + [Line("> " + old(value), Plain)]
      ensures handled == if hasHandler && !Blank(old(value)) then Some(old(value)) else None
    {
      TrimEmptyIffBlank(value);
      Print("> " + value, Plain);
      handled := None;
      if Trim(value) != "" {
        history := history + [value];
        if hasHandler {
          handled := Some(value);
        }
      }
      value := "";
      buffer := history + [""];
      index := |history|;
    }

    /** ArrowUp. */
    method ArrowUp()
      requires Valid()
      modifies this`buffer, this`index, this`value
      ensures Valid() && State() == AfterUp(old(State()))
    {
      buffer := buffer[index := value];
      if index > 0 {
        index := index - 1;
        value := buffer[index];
      }
    }

    /** ArrowDown. */
    method ArrowDown()
      requires Valid()
      modifies this`buffer, this`index, this`value
      ensures Valid() && State() == AfterDown(old(State()))
    {
      buffer := buffer[index := value];
      if index + 1 < |buffer| {
        index := index + 1;
        value := buffer[index];
      }
    }
  }
}
