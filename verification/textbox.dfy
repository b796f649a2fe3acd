/**
 * The GUI textbox: a button whose Clicked state means "selected for
 * typing". While selected it takes printable characters and backspace,
 * blinks its caret, and remembers a Return key press until asked.
 *
 * Font metrics decide whether a new character still fits on the current
 * line, or else on a new line; those two decisions are inputs here.
 */
module Textboxes {
  import opened Events
  import opened SceneGraph
  import opened Buttons

  /** utils::Resource<sf::Time>: an original amount and what is left of it, in microseconds. */
  datatype Timer = Timer(original: int, current: int)

  /** sf::seconds(0.5f) */
  const CaretBlinkInterval := 500000

  const Backspace := 8

  /** The characters the textbox accepts: codes 32 to 127. */
  predicate Printable(code: nat)
  {
    32 <= code <= 127
  }

  /**
   * The text after a TextEntered event while selected: a printable
   * character goes on the current line if it fits, else on a new line if
   * that fits, else nowhere; backspace drops the last character.
   */
  function Edited(text: string, code: nat, fitsOnLine: bool, fitsBelow: bool): (t: string)
    ensures Printable(code) ==> text <= t && |t| <= |text| + 2
    ensures !EditTouchesCaret(text, code) ==> t == text
    ensures code == Backspace && |text| > 0 ==> t + [text[|text| - 1]] == text
  {
    if Printable(code) then
      if fitsOnLine then text + [code as char]
      else if fitsBelow then text + "\n" + [code as char]
      else text
    else if code == Backspace && |text| > 0 then text[..|text| - 1]
    else text
  }

  /** Whether a TextEntered event while selected ends with correctCaretProperties. */
  predicate EditTouchesCaret(text: string, code: nat)
  {
    Printable(code) || (code == Backspace && |text| > 0)
  }

  /** The caret's alpha after a blink: shown becomes hidden and hidden becomes shown. */
  function Toggled(alpha: int): (r: int)
    ensures alpha == 0 ==> r == 255
    ensures alpha != 0 ==> r == 0
  {
    if alpha == 0 then 255 else 0
  }

  /** Typing keeps what was typed before: the old text is a prefix, and at most two characters are added. */
  lemma TypingAppends(text: string, code: nat, fitsOnLine: bool, fitsBelow: bool)
    requires Printable(code)
    ensures var t := Edited(text, code, fitsOnLine, fitsBelow);
            text <= t && |t| <= |text| + 2 &&
            (|t| > |text| ==> t[|t| - 1] == code as char)
  {
  }

  /** Backspace undoes a character typed on the same line. */
  lemma BackspaceUndoesTyping(text: string, code: nat, fitsBelow: bool, fitsOnLine2: bool, fitsBelow2: bool)
    requires Printable(code)
    ensures Edited(Edited(text, code, true, fitsBelow), Backspace, fitsOnLine2, fitsBelow2) == text
  {
    assert (text + [code as char])[..|text|] == text;
  }

  /** Backspace on empty text, and codes that are neither printable nor backspace, change nothing. */
  lemma IgnoredCodes(text: string, code: nat, fitsOnLine: bool, fitsBelow: bool)
    requires !EditTouchesCaret(text, code)
    ensures Edited(text, code, fitsOnLine, fitsBelow) == text
  {
  }

  class Textbox {
    var button: Button
    /** The caret's node in the button's scene graph; its quad's geometry and colour are not modelled. */
    var caret: SceneNode
    var actionConfirmed: bool
    var caretTimer: Timer
    /** The alpha channel of the caret's colour. */
    var caretAlpha: int
    /** The string of the text node. */
    var text: string
    ghost var Repr: set<object>

    ghost predicate Valid()
      reads this, Repr
    {
      this in Repr && button in Repr && button.Repr <= Repr && this !in button.Repr &&
      button.Valid() && button.text != null &&
      (caretAlpha == 0 || caretAlpha == 255)
    }

    /**
     * Textbox::Textbox: an idle button with a black caret attached as a
     * child, a half-second blink timer and an empty text node attached
     * after the caret; attaching the text realigns it, which resets the caret.
     */
    constructor ()
      ensures Valid() && fresh(Repr)
      ensures button.state == Idle && text == [] && !actionConfirmed
      ensures caretTimer == Timer(CaretBlinkInterval, CaretBlinkInterval) && caretAlpha == 255
      ensures button.text != null && caret.parent == button.node
      ensures button.node.children == button.stateNodes + [caret, button.text]
    {
      button := new Button();
      caret := new SceneNode();
      actionConfirmed := false;
      caretTimer := Timer(CaretBlinkInterval, CaretBlinkInterval);
      caretAlpha := 255;
      text := [];
      Repr := {this};
      new;
      button.AttachChild(caret);
      var aligned := button.ActivateText(true);
      Repr := Repr + button.Repr;
      if aligned {
        CorrectCaretProperties();
      }
    }

    /**
     * Textbox::correctCaretProperties: the blink timer starts over and the
     * caret is fully visible (its size and position follow the text).
     */
    method CorrectCaretProperties()
      modifies this
      ensures caretTimer == old(caretTimer).(current := old(caretTimer.original))
      ensures caretAlpha == 255
      ensures button == old(button) && caret == old(caret) && text == old(text) && actionConfirmed == old(actionConfirmed)
      ensures Repr == old(Repr)
      ensures old(Valid()) ==> Valid()
    {
      caretTimer := caretTimer.(current := caretTimer.original);
      caretAlpha := 255;
    }

    /** Textbox::wasActionConfirmed: reports a pending Return press, once. */
    method WasActionConfirmed() returns (confirmed: bool)
      modifies this
      ensures confirmed == old(actionConfirmed) && !actionConfirmed
      ensures button == old(button) && caret == old(caret) && text == old(text)
      ensures caretTimer == old(caretTimer) && caretAlpha == old(caretAlpha)
      ensures Repr == old(Repr)
      ensures old(Valid()) ==> Valid()
    {
      confirmed := actionConfirmed;
      actionConfirmed := false;
    }

    /**
     * Textbox::handleEventCurrent: the button's state machine first (a
     * state change realigns the text, which resets the caret); leaving the
     * selected state hides the caret; while selected, typed characters and
     * backspace edit the text and reset the caret, and Return is recorded.
     */
    method HandleEventCurrent(event: Event, hovered: bool, fitsOnLine: bool, fitsBelow: bool)
      requires Valid()
      modifies Repr
      ensures Valid() && Repr == old(Repr) && button == old(button) && caret == old(caret)
      ensures button.node == old(button.node) && button.stateNodes == old(button.stateNodes) &&
              button.text == old(button.text)
      ensures button.node.children == old(button.node.children) && caret.parent == old(caret.parent)
      ensures button.state == OnEvent(old(button.state), event, hovered)
      ensures button.state == Clicked && event.TextEntered? ==>
                text == Edited(old(text), event.unicode, fitsOnLine, fitsBelow)
      ensures !(button.state == Clicked && event.TextEntered?) ==> text == old(text)
      ensures actionConfirmed == (old(actionConfirmed) || (button.state == Clicked && event == KeyPressed(Return)))
      ensures var edited := button.state == Clicked && event.TextEntered? && EditTouchesCaret(old(text), event.unicode);
              var deselected := old(button.state) == Clicked && button.state != Clicked;
              var realigned := EventActivates(old(button.state), event);
              caretTimer == (if edited || deselected || realigned
                             then old(caretTimer).(current := old(caretTimer.original))
                             else old(caretTimer)) &&
              caretAlpha == (if edited then 255 else if deselected then 0
                             else if realigned then 255 else old(caretAlpha))
    {
      var previous := button.state;
      var realigned := button.HandleEventCurrent(event, hovered);
      if realigned {
        CorrectCaretProperties();
      }
      if previous == Clicked && previous != button.state {
        caretTimer := caretTimer.(current := caretTimer.original);
        caretAlpha := 0;
      }
      if button.state == Clicked && event.TextEntered? {
        var code := event.unicode;
        if Printable(code) {
          if fitsOnLine {
            text := text + [code as char];
          } else if fitsBelow {
            text := text + "\n" + [code as char];
          }
          CorrectCaretProperties();
        } else if code == Backspace && |text| > 0 {
          text := text[..|text| - 1];
          CorrectCaretProperties();
        }
      } else if button.state == Clicked && event == KeyPressed(Return) {
        actionConfirmed := true;
      }
    }

    /**
     * Textbox::updateCurrent: the button's hover logic first (a state change
     * realigns the text, which resets the caret); then, while selected, the
     * blink timer runs down by dt and, once it reaches zero, starts over and
     * toggles the caret.
     */
    method UpdateCurrent(dt: int, hovered: bool)
      requires Valid()
      modifies Repr
      ensures Valid() && Repr == old(Repr) && button == old(button) && caret == old(caret)
      ensures button.node == old(button.node) && button.stateNodes == old(button.stateNodes) &&
              button.text == old(button.text)
      ensures button.node.children == old(button.node.children) && caret.parent == old(caret.parent)
      ensures button.state == OnUpdate(old(button.state), hovered)
      ensures text == old(text) && actionConfirmed == old(actionConfirmed)
      ensures caretTimer.original == old(caretTimer.original)
      ensures button.state != Clicked ==>
                if UpdateActivates(old(button.state), hovered)
                then caretTimer.current == old(caretTimer.original) && caretAlpha == 255
                else caretTimer == old(caretTimer) && caretAlpha == old(caretAlpha)
      ensures button.state == Clicked ==>
                if old(caretTimer.current) - dt <= 0
                then caretTimer.current == old(caretTimer.original) && caretAlpha == Toggled(old(caretAlpha))
                else caretTimer.current == old(caretTimer.current) - dt && caretAlpha == old(caretAlpha)
    {
      var realigned := button.UpdateCurrent(dt, hovered);
      if realigned {
        CorrectCaretProperties();
      }
      if button.state == Clicked {
        caretTimer := caretTimer.(current := caretTimer.current - dt);
        if caretTimer.current <= 0 {
          caretTimer := caretTimer.(current := caretTimer.original);
          caretAlpha := Toggled(caretAlpha);
        }
      }
    }
  }
}
