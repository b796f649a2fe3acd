/**
 * The base State: the window bounds it was created with and the root of
 * its scene graph. The window's size is an input, read when the state is
 * created and when its bounds are reinitialised.
 */
module States {
  import opened Geometry
  import opened Events
  import opened SceneGraph

  class State {
    var windowBounds: IntRect
    var sceneGraph: SceneNode
    ghost var Repr: set<object>

    ghost predicate Valid()
      reads this, Repr
    {
      this in Repr && sceneGraph in Repr && sceneGraph.Repr <= Repr && this !in sceneGraph.Repr && sceneGraph.Valid()
    }

    /** State::State: bounds at the origin with the window's size, an empty scene graph. */
    constructor (windowWidth: nat, windowHeight: nat)
      ensures Valid() && fresh(Repr)
      ensures windowBounds == IntRect(0, 0, windowWidth, windowHeight)
      ensures sceneGraph.children == [] && sceneGraph.parent == null
    {
      windowBounds := IntRect(0, 0, windowWidth, windowHeight);
      sceneGraph := new SceneNode();
      new;
      Repr := {this} + sceneGraph.Repr;
    }

    /** State::reinitializeWindowBounds: the size follows the window, the position stays. */
    method ReinitializeWindowBounds(windowWidth: nat, windowHeight: nat)
      modifies this
      ensures windowBounds.left == old(windowBounds.left) && windowBounds.top == old(windowBounds.top)
      ensures windowBounds.width == windowWidth && windowBounds.height == windowHeight
      ensures sceneGraph == old(sceneGraph) && Repr == old(Repr)
      ensures old(Valid()) ==> Valid()
    {
      windowBounds := windowBounds.(width := windowWidth, height := windowHeight);
    }

    /**
     * State::handleEvent: the event goes to the scene graph and the state
     * lets the stack's traversal go on to the state below.
     */
    method HandleEvent(event: Event) returns (propagate: bool, handled: seq<SceneNode>)
      requires Valid()
      ensures propagate
      ensures handled == sceneGraph.Visits(EventPass)
    {
      handled := sceneGraph.HandleEvent(event);
      propagate := true;
    }

    /**
     * State::update: the scene graph is updated and the state lets the
     * stack's traversal go on to the state below.
     */
    method Update(dt: int) returns (propagate: bool, updated: seq<SceneNode>)
      requires Valid()
      modifies sceneGraph.Repr
      ensures Valid() && unchanged(this)
      ensures propagate
      ensures updated == sceneGraph.Visits(UpdatePass)
    {
      updated := sceneGraph.Update(dt);
      propagate := true;
    }

    /** State::draw: the window draws the scene graph; the result is the sequence of nodes drawn. */
    method Draw() returns (drawn: seq<SceneNode>)
      requires Valid()
      ensures drawn == sceneGraph.Visits(DrawPass)
    {
      drawn := sceneGraph.Draw();
    }
  }
}
