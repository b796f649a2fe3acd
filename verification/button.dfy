/**
 * The GUI button: a state machine over Idle, Disabled, Clicked,
 * HoveredOver and HeldDown, with one visual sub-node per state of which
 * exactly the current one is active, and an optional text node.
 *
 * Whether the mouse is over the button is an input to every operation
 * that asks it. Each operation that runs activateCurrentState reports so,
 * because that call ends with the virtual alignText, which a Textbox
 * overrides.
 */
module Buttons {
  import opened Events
  import opened SceneGraph

  /** Button::State */
  datatype ButtonState = Idle | Disabled | Clicked | HoveredOver | HeldDown

  const StateCount := 5

  /** The enumerator's value, which indexes the state nodes. */
  function Index(s: ButtonState): (i: nat)
    ensures i < StateCount
  {
    match s
    case Idle => 0
    case Disabled => 1
    case Clicked => 2
    case HoveredOver => 3
    case HeldDown => 4
  }

  /** The state after Button::handleEventCurrent. */
  function OnEvent(s: ButtonState, event: Event, hovered: bool): (r: ButtonState)
    ensures r == Disabled <==> s == Disabled
    ensures r != s ==> EventActivates(s, event)
    ensures r == HeldDown && s != HeldDown ==> s == HoveredOver && event == MouseButtonPressed(Left)
    ensures r == Clicked && s != Clicked ==> hovered && event == MouseButtonReleased(Left)
  {
    if s == Disabled then s
    else match event
      case MouseButtonPressed(b) =>
        if b == Left && s == HoveredOver then HeldDown else s
      case MouseButtonReleased(b) =>
        if b == Left && (s == HeldDown || s == Clicked) then (if hovered then Clicked else Idle) else s
      case _ => s
  }

  /** Whether Button::handleEventCurrent runs activateCurrentState. */
  predicate EventActivates(s: ButtonState, event: Event)
  {
    s != Disabled &&
    match event
    case MouseButtonPressed(b) => b == Left && s == HoveredOver
    case MouseButtonReleased(b) => b == Left && (s == HeldDown || s == Clicked)
    case _ => false
  }

  /** The state after Button::updateCurrent. */
  function OnUpdate(s: ButtonState, hovered: bool): (r: ButtonState)
    ensures r == Disabled <==> s == Disabled
    ensures r != s <==> UpdateActivates(s, hovered)
    ensures r == HoveredOver ==> hovered
    ensures s in {Clicked, HeldDown} ==> r == s
  {
    if s == Idle && hovered then HoveredOver
    else if s == HoveredOver && !hovered then Idle
    else s
  }

  /** Whether Button::updateCurrent runs activateCurrentState. */
  predicate UpdateActivates(s: ButtonState, hovered: bool)
  {
    (s == Idle && hovered) || (s == HoveredOver && !hovered)
  }

  /** The state after Button::activate. */
  function OnActivate(s: ButtonState, flag: bool): (r: ButtonState)
    ensures r == Disabled <==> !flag
    ensures flag && s != Disabled ==> r == s
    ensures flag && s == Disabled ==> r == Idle
  {
    if s == Disabled && flag then Idle
    else if s != Disabled && !flag then Disabled
    else s
  }

  /** Whether Button::activate runs activateCurrentState. */
  predicate ActivateActivates(s: ButtonState, flag: bool)
  {
    (s == Disabled && flag) || (s != Disabled && !flag)
  }

  /** The state a copy starts in (Button's copy constructor). */
  function CopiedState(s: ButtonState): (c: ButtonState)
    ensures c == Disabled <==> s == Disabled
    ensures c == Disabled || c == Idle
  {
    if s == Disabled then Disabled else Idle
  }

  /** Events and updates never disable a button and never enable a disabled one. */
  lemma DisabledOnlyByActivate(s: ButtonState, event: Event, hovered: bool)
    ensures OnEvent(s, event, hovered) == Disabled <==> s == Disabled
    ensures OnUpdate(s, hovered) == Disabled <==> s == Disabled
    ensures EventActivates(s, event) ==> s != Disabled
  {
  }

  /** activate(false) always leaves the button Disabled; activate(true) never does. */
  lemma ActivateSetsEnabled(s: ButtonState, flag: bool)
    ensures (OnActivate(s, flag) == Disabled) <==> !flag
    ensures flag && s != Disabled ==> OnActivate(s, flag) == s
    ensures OnActivate(OnActivate(s, flag), flag) == OnActivate(s, flag)
    ensures ActivateActivates(s, flag) <==> OnActivate(s, flag) != s
  {
  }

  /** Events other than the left mouse button leave the state alone. */
  lemma OnlyLeftButtonCounts(s: ButtonState, event: Event, hovered: bool)
    requires !(event == MouseButtonPressed(Left) || event == MouseButtonReleased(Left))
    ensures OnEvent(s, event, hovered) == s && !EventActivates(s, event)
  {
  }

  /**
   * A click: hovering an idle button, pressing the left button and
   * releasing it while still over the button makes it Clicked; releasing
   * it elsewhere makes it Idle.
   */
  lemma ClickSequence(hoveredAtRelease: bool)
    ensures var h := OnUpdate(Idle, true);
            var d := OnEvent(h, MouseButtonPressed(Left), true);
            h == HoveredOver && d == HeldDown &&
            OnEvent(d, MouseButtonReleased(Left), hoveredAtRelease) == (if hoveredAtRelease then Clicked else Idle)
  {
  }

  /** A Clicked button stays Clicked through updates and presses; only a left release moves it. */
  lemma ClickedIsSticky(event: Event, hovered: bool)
    ensures OnUpdate(Clicked, hovered) == Clicked
    ensures OnEvent(Clicked, event, hovered) != Clicked ==> event == MouseButtonReleased(Left) && !hovered
  {
  }

  /** A transition happens exactly when activateCurrentState runs, except a release that stays Clicked. */
  lemma ActivationTracksChange(s: ButtonState, event: Event, hovered: bool)
    ensures OnEvent(s, event, hovered) != s ==> EventActivates(s, event)
    ensures EventActivates(s, event) && OnEvent(s, event, hovered) == s ==> s == Clicked && hovered
    ensures UpdateActivates(s, hovered) <==> OnUpdate(s, hovered) != s
  {
  }

  class Button {
    /** The button's own scene-graph part: the state nodes, then any further children. */
    var node: SceneNode
    var stateNodes: seq<SceneNode>
    var text: SceneNode?
    var state: ButtonState
    ghost var Repr: set<object>

    /** The button owns its node tree; the state nodes are its first children; the text is a later child. */
    ghost predicate Structure()
      reads this, Repr
    {
      this in Repr && node in Repr && node.Repr <= Repr && this !in node.Repr && node.Valid() &&
      |stateNodes| == StateCount && |node.children| >= StateCount &&
      node.children[..StateCount] == stateNodes &&
      (text != null ==> text in node.children[StateCount..])
    }

    /** Exactly the node of state s has every switch on; the others have every switch off. */
    ghost predicate Shows(s: ButtonState)
      requires |stateNodes| == StateCount
      reads this, stateNodes
    {
      forall i :: 0 <= i < StateCount ==>
        var on := i == Index(s);
        stateNodes[i].eventHandling == Activation(on, on) &&
        stateNodes[i].updating == Activation(on, on) &&
        stateNodes[i].drawing == Activation(on, on)
    }

    ghost predicate Valid()
      reads this, Repr
    {
      Structure() && Shows(state)
    }

    /** Button::Button: five state nodes attached in order, Idle, no text. */
    constructor ()
      ensures Valid() && fresh(Repr)
      ensures state == Idle && text == null
      ensures node.children == stateNodes
    {
      var root := new SceneNode();
      var nodes: seq<SceneNode> := [];
      while |nodes| < StateCount
        invariant root.Valid() && fresh(root.Repr)
        invariant root.children == nodes && |nodes| <= StateCount
      {
        var s := new SceneNode();
        root.AttachChild(s);
        nodes := nodes + [s];
      }
      node := root;
      stateNodes := nodes;
      text := null;
      state := Idle;
      Repr := {this} + root.Repr;
      new;
      assert node.children[..StateCount] == node.children;
      ActivateCurrentState();
    }

    /**
     * SceneNode::attachChild called on a button (a button is a scene node):
     * the child goes after the state nodes and any earlier children.
     */
    method AttachChild(child: SceneNode)
      requires Valid() && child.Valid() && Repr !! child.Repr
      modifies this, node, child
      ensures Valid() && child.Valid() && Repr == old(Repr) + old(child.Repr)
      ensures node.children == old(node.children) + [child] && child.parent == node
      ensures state == old(state) && node == old(node) && stateNodes == old(stateNodes) && text == old(text)
    {
      node.AttachChild(child);
      Repr := Repr + child.Repr;
      assert node.children[..StateCount] == old(node.children)[..StateCount];
      assert text != null ==> text in old(node.children)[StateCount..];
      assert old(node.children)[StateCount..] <= node.children[StateCount..];
    }

    /** Button::activateCurrentState: switch every node on or off according to the current state. */
    method ActivateCurrentState()
      requires Structure()
      modifies stateNodes
      ensures Valid()
      ensures forall i :: 0 <= i < StateCount ==>
                stateNodes[i].children == old(stateNodes[i].children) && stateNodes[i].parent == old(stateNodes[i].parent)
    {
      for i := 0 to StateCount
        invariant Structure()
        invariant forall k :: 0 <= k < StateCount ==>
                    stateNodes[k].children == old(stateNodes[k].children) && stateNodes[k].parent == old(stateNodes[k].parent) &&
                    stateNodes[k].Repr == old(stateNodes[k].Repr)
        invariant forall k :: 0 <= k < i ==>
                    var on := k == Index(state);
                    stateNodes[k].eventHandling == Activation(on, on) &&
                    stateNodes[k].updating == Activation(on, on) &&
                    stateNodes[k].drawing == Activation(on, on)
      {
        var on := i == Index(state);
        assert stateNodes[i] == node.children[i];
        label BeforeSwitch:
        stateNodes[i].ActivateEventHandling(All, on);
        stateNodes[i].ActivateUpdating(All, on);
        stateNodes[i].ActivateDrawing(All, on);
        node.ChildFlagsDoNotMatter@BeforeSwitch(i);
      }
    }

    /** Button::activate: enabling a disabled button makes it Idle; disabling makes it Disabled. */
    method Activate(flag: bool) returns (activated: bool)
      requires Valid()
      modifies this, stateNodes
      ensures Valid() && Repr == old(Repr)
      ensures state == OnActivate(old(state), flag)
      ensures activated == ActivateActivates(old(state), flag)
      ensures node == old(node) && stateNodes == old(stateNodes) && text == old(text)
    {
      activated := false;
      if state == Disabled && flag {
        state := Idle;
        ActivateCurrentState();
        activated := true;
      } else if state != Disabled && !flag {
        state := Disabled;
        ActivateCurrentState();
        activated := true;
      }
    }

    /**
     * Button::activateText: create and attach a text node if there is none
     * and flag is set; detach (and so destroy) it if there is one and flag
     * is clear. Reports whether alignText ran.
     */
    method ActivateText(flag: bool) returns (aligned: bool)
      requires Valid()
      modifies this, node, text
      ensures Valid() && fresh(Repr - old(Repr))
      ensures flag <==> text != null
      ensures old(text) != null && flag ==> text == old(text)
      ensures aligned <==> old(text) == null && flag
      ensures aligned ==> node.children == old(node.children) + [text]
      ensures old(text) != null && !flag ==>
                old(text).parent == null &&
                exists i :: 0 <= i < |old(node.children)| && old(node.children)[i] == old(text) &&
                            node.children == old(node.children)[..i] + old(node.children)[i + 1..]
      ensures (old(text) == null) == !flag ==> node.children == old(node.children)
      ensures state == old(state) && node == old(node) && stateNodes == old(stateNodes)
    {
      aligned := false;
      if text == null && flag {
        var t := new SceneNode();
        node.AttachChild(t);
        text := t;
        Repr := Repr + t.Repr;
        assert node.children[..StateCount] == old(node.children)[..StateCount];
        assert t == node.children[|node.children| - 1];
        aligned := true;
      } else if text != null && !flag {
        var gone := node.DetachChild(text);
        text := null;
        assert node.children[..StateCount] == stateNodes by {
          var i :| 0 <= i < |old(node.children)| && old(node.children)[i] == gone &&
                   node.children == old(node.children)[..i] + old(node.children)[i + 1..];
          assert i >= StateCount;
          assert node.children[..StateCount] == old(node.children)[..StateCount];
        }
      }
    }

    /**
     * Button::handleEventCurrent: a left press on a hovered button holds it
     * down; a left release of a held or clicked button clicks it if the
     * mouse is still over it and makes it Idle otherwise.
     */
    method HandleEventCurrent(event: Event, hovered: bool) returns (activated: bool)
      requires Valid()
      modifies this, stateNodes
      ensures Valid() && Repr == old(Repr)
      ensures state == OnEvent(old(state), event, hovered)
      ensures activated == EventActivates(old(state), event)
      ensures node == old(node) && stateNodes == old(stateNodes) && text == old(text)
    {
      activated := false;
      if state != Disabled {
        match event
        case MouseButtonPressed(b) =>
          if b == Left && state == HoveredOver {
            state := HeldDown;
            ActivateCurrentState();
            activated := true;
          }
        case MouseButtonReleased(b) =>
          if b == Left && (state == HeldDown || state == Clicked) {
            state := if hovered then Clicked else Idle;
            ActivateCurrentState();
            activated := true;
          }
        case _ =>
      }
    }

    /**
     * Button::updateCurrent: an enabled idle button becomes HoveredOver when
     * the mouse is over it, and a hovered one goes back to Idle when it is not.
     */
    method UpdateCurrent(dt: int, hovered: bool) returns (activated: bool)
      requires Valid()
      modifies this, stateNodes
      ensures Valid() && Repr == old(Repr)
      ensures state == OnUpdate(old(state), hovered)
      ensures activated == UpdateActivates(old(state), hovered)
      ensures node == old(node) && stateNodes == old(stateNodes) && text == old(text)
    {
      activated := false;
      if state != Disabled {
        if state == Idle && hovered {
          state := HoveredOver;
          ActivateCurrentState();
          activated := true;
        } else if state == HoveredOver && !hovered {
          state := Idle;
          ActivateCurrentState();
          activated := true;
        }
      }
    }
  }
}
