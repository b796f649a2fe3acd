/**
 * The scene graph: SceneNode owns its children, keeps a back pointer to its
 * parent and carries three pairs of activation switches (event handling,
 * updating, drawing), each with a switch for the node itself ("current")
 * and one for its children.
 */
module SceneGraph {
  import opened Events
  import StdAlgorithms

  /** SceneNode::Target */
  datatype ActivationTarget = Current | Children | All

  /** One pair of switches: for the node's own hook and for forwarding to its children. */
  datatype Activation = Activation(current: bool, children: bool)

  /** The three traversals that run a hook on every node they reach. */
  datatype Traversal = EventPass | UpdatePass | DrawPass

  /** All elements of s are different. */
  ghost predicate Distinct<T>(s: seq<T>)
  {
    forall i, j :: 0 <= i < j < |s| ==> s[i] != s[j]
  }

  lemma DistinctConcat<T>(a: seq<T>, b: seq<T>)
    requires Distinct(a) && Distinct(b)
    requires forall x :: x in a ==> x !in b
    ensures Distinct(a + b)
  {
    forall i, j | 0 <= i < j < |a + b|
      ensures (a + b)[i] != (a + b)[j]
    {
      if j >= |a| && i < |a| {
        assert (a + b)[i] in a && (a + b)[j] == b[j - |a|];
      }
    }
  }

  class SceneNode {
    var parent: SceneNode?
    var children: seq<SceneNode>
    var eventHandling: Activation
    var updating: Activation
    var drawing: Activation
    ghost var Repr: set<object>

    /**
     * The node owns its subtree: each child's footprint lies inside this
     * node's, the footprints of siblings are disjoint, and every child's
     * parent pointer points back here.
     */
    ghost predicate Valid()
      reads this, Repr
      decreases Repr
    {
      this in Repr &&
      (forall i :: 0 <= i < |children| ==>
         children[i] in Repr && children[i].Repr <= Repr && this !in children[i].Repr &&
         children[i].parent == this && children[i].Valid()) &&
      (forall i, j :: 0 <= i < j < |children| ==> children[i].Repr !! children[j].Repr)
    }

    ghost function Switch(kind: Traversal): Activation
      reads this
    {
      match kind
      case EventPass => eventHandling
      case UpdatePass => updating
      case DrawPass => drawing
    }

    /** The nodes whose own hook (handleEventCurrent / updateCurrent) runs, in order. */
    ghost function Visits(kind: Traversal): seq<SceneNode>
      requires Valid()
      reads this, Repr
      decreases Repr, 1
    {
      (if Switch(kind).current then [this] else []) +
      (if Switch(kind).children then ChildVisits(kind, |children|) else [])
    }

    /** The visits of the first n children, one subtree after the other. */
    ghost function ChildVisits(kind: Traversal, n: nat): seq<SceneNode>
      requires Valid() && n <= |children|
      reads this, Repr
      decreases Repr, 0, n
    {
      if n == 0 then [] else ChildVisits(kind, n - 1) + children[n - 1].Visits(kind)
    }

    /** SceneNode::SceneNode(): no parent, no children, everything active. */
    constructor ()
      ensures Valid() && fresh(Repr) && Repr == {this}
      ensures parent == null && children == []
      ensures eventHandling == Activation(true, true)
      ensures updating == Activation(true, true)
      ensures drawing == Activation(true, true)
    {
      parent := null;
      children := [];
      eventHandling := Activation(true, true);
      updating := Activation(true, true);
      drawing := Activation(true, true);
      Repr := {this};
    }

    /** SceneNode::attachChild: the child learns its parent and goes to the back of the list. */
    method AttachChild(child: SceneNode)
      requires Valid() && child.Valid()
      requires Repr !! child.Repr
      modifies this, child
      ensures Valid() && child.Valid()
      ensures children == old(children) + [child]
      ensures child.parent == this
      ensures Repr == old(Repr) + child.Repr
      ensures parent == old(parent)
      ensures eventHandling == old(eventHandling) && updating == old(updating) && drawing == old(drawing)
      ensures child.children == old(child.children) && child.Repr == old(child.Repr)
      ensures child.eventHandling == old(child.eventHandling)
      ensures child.updating == old(child.updating) && child.drawing == old(child.drawing)
    {
      child.parent := this;
      children := children + [child];
      Repr := Repr + child.Repr;
      assert child.Valid();
    }

    /**
     * SceneNode::detachChild: find the child by identity, clear its parent
     * pointer, take it out of the list and hand it back to the caller.
     */
    method DetachChild(child: SceneNode) returns (detached: SceneNode)
      requires Valid()
      requires child in children
      modifies this, child
      ensures Valid() && detached.Valid()
      ensures detached == child && detached.parent == null
      ensures exists i :: 0 <= i < |old(children)| && old(children)[i] == child &&
                          children == old(children)[..i] + old(children)[i + 1..]
      ensures Repr == old(Repr) - child.Repr
      ensures parent == old(parent)
      ensures eventHandling == old(eventHandling) && updating == old(updating) && drawing == old(drawing)
      ensures child.children == old(child.children) && child.Repr == old(child.Repr)
      ensures child.eventHandling == old(child.eventHandling)
      ensures child.updating == old(child.updating) && child.drawing == old(child.drawing)
    {
      var i := 0;
      while children[i] != child
        invariant 0 <= i < |children|
        invariant child in children[i..]
        decreases |children| - i
      {
        assert children[i..] == [children[i]] + children[i + 1..];
        i := i + 1;
      }
      ghost var oldChildren := children;
      child.parent := null;
      children := children[..i] + children[i + 1..];
      Repr := Repr - child.Repr;
      detached := child;
      assert detached.Valid();
      forall k | 0 <= k < |children|
        ensures children[k].Repr !! child.Repr && children[k].Repr <= Repr
      {
        if k < i {
          assert children[k] == oldChildren[k];
        } else {
          assert children[k] == oldChildren[k + 1];
        }
      }
      assert Valid();
    }

    /** SceneNode::activateEventHandling */
    method ActivateEventHandling(target: ActivationTarget, flag: bool)
      modifies this
      ensures target == Current ==> eventHandling == Activation(flag, old(eventHandling.children))
      ensures target == Children ==> eventHandling == Activation(old(eventHandling.current), flag)
      ensures target == All ==> eventHandling == Activation(flag, flag)
      ensures updating == old(updating) && drawing == old(drawing)
      ensures parent == old(parent) && children == old(children) && Repr == old(Repr)
      ensures old(Valid()) ==> Valid()
    {
      match target
      case Current => eventHandling := eventHandling.(current := flag);
      case Children => eventHandling := eventHandling.(children := flag);
      case All => eventHandling := Activation(flag, flag);
    }

    /** SceneNode::activateUpdating */
    method ActivateUpdating(target: ActivationTarget, flag: bool)
      modifies this
      ensures target == Current ==> updating == Activation(flag, old(updating.children))
      ensures target == Children ==> updating == Activation(old(updating.current), flag)
      ensures target == All ==> updating == Activation(flag, flag)
      ensures eventHandling == old(eventHandling) && drawing == old(drawing)
      ensures parent == old(parent) && children == old(children) && Repr == old(Repr)
      ensures old(Valid()) ==> Valid()
    {
      match target
      case Current => updating := updating.(current := flag);
      case Children => updating := updating.(children := flag);
      case All => updating := Activation(flag, flag);
    }

    /** SceneNode::activateDrawing */
    method ActivateDrawing(target: ActivationTarget, flag: bool)
      modifies this
      ensures target == Current ==> drawing == Activation(flag, old(drawing.children))
      ensures target == Children ==> drawing == Activation(old(drawing.current), flag)
      ensures target == All ==> drawing == Activation(flag, flag)
      ensures eventHandling == old(eventHandling) && updating == old(updating)
      ensures parent == old(parent) && children == old(children) && Repr == old(Repr)
      ensures old(Valid()) ==> Valid()
    {
      match target
      case Current => drawing := drawing.(current := flag);
      case Children => drawing := drawing.(children := flag);
      case All => drawing := Activation(flag, flag);
    }

    /**
     * Validity does not depend on the switches: when only child i's object
     * changed, and neither its links nor its footprint did, the tree is
     * still valid.
     */
    twostate lemma ChildFlagsDoNotMatter(i: nat)
      requires old(Valid()) && i < |old(children)|
      requires unchanged(old(Repr) - {old(children[i])})
      requires var c := old(children[i]);
               c.Valid() && c.parent == old(c.parent) && c.children == old(c.children) && c.Repr == old(c.Repr)
      ensures Valid()
    {
      forall j | 0 <= j < |children| && j != i
        ensures children[j].Valid()
      {
        assert old(children[j].Repr) !! old(children[i].Repr);
        assert old(children[j].Valid());
      }
    }

    /** SceneNode::isDestroyed: a node counts as destroyed once it has a parent. */
    predicate IsDestroyed()
      reads this
      ensures IsDestroyed() <==> parent != null
    {
      parent != null
    }

    /** SceneNode::isMarkedForRemoval: the default removal policy is isDestroyed. */
    predicate IsMarkedForRemoval()
      reads this
      ensures IsMarkedForRemoval() <==> parent != null
      ensures IsMarkedForRemoval() == IsDestroyed()
    {
      IsDestroyed()
    }

    /** The removal marks of the children, in child order. */
    ghost function Marks(): seq<bool>
      reads this, children
    {
      seq(|children|, i reads this, children requires 0 <= i < |children| => children[i].IsMarkedForRemoval())
    }

    /**
     * Under the default policy every attached child is marked for removal,
     * because attaching it gave it a parent.
     */
    lemma AttachedChildrenAreMarked()
      requires Valid()
      ensures forall i :: 0 <= i < |children| ==> children[i].IsMarkedForRemoval()
      ensures Marks() == seq(|children|, i => true)
    {
    }

    /**
     * SceneNode::removeChildrenMarkedForRemoval: std::remove_if over the
     * children with no erase afterwards. Since every child is marked, the
     * scan moves nothing and the list keeps every child.
     */
    method RemoveChildrenMarkedForRemoval()
      requires Valid()
      modifies this
      ensures children == StdAlgorithms.AfterRemoveIf<SceneNode?>(old(children), old(Marks()), _ => null)
      ensures children == old(children)
      ensures Valid() && unchanged(this)
    {
      var marks: seq<bool> := [];
      var i := 0;
      while i < |children|
        invariant 0 <= i <= |children| && |marks| == i
        invariant forall p :: 0 <= p < i ==> marks[p] == children[p].IsMarkedForRemoval()
      {
        marks := marks + [children[i].IsMarkedForRemoval()];
        i := i + 1;
      }
      assert marks == Marks();
      AttachedChildrenAreMarked();
      var swept, _ := StdAlgorithms.RemoveIf<SceneNode?>(children, marks, _ => null);
      StdAlgorithms.RemoveIfAllMarked<SceneNode?>(children, marks, _ => null);
      children := swept;
    }

    /**
     * SceneNode::handleEvent: the node's own hook if its current switch is on,
     * then the children if its children switch is on. The default hook does
     * nothing; the result is the sequence of nodes whose hook ran.
     */
    method HandleEvent(event: Event) returns (handled: seq<SceneNode>)
      requires Valid()
      ensures handled == Visits(EventPass)
      decreases Repr, 1
    {
      handled := [];
      if eventHandling.current {
        handled := [this];
      }
      if eventHandling.children {
        var sub := HandleEventChildren(event);
        handled := handled + sub;
      }
    }

    /** SceneNode::handleEventChildren: every child in order, none skipped. */
    method HandleEventChildren(event: Event) returns (handled: seq<SceneNode>)
      requires Valid()
      ensures handled == ChildVisits(EventPass, |children|)
      decreases Repr, 0
    {
      handled := [];
      var i := 0;
      while i < |children|
        invariant 0 <= i <= |children|
        invariant handled == ChildVisits(EventPass, i)
      {
        var sub := children[i].HandleEvent(event);
        handled := handled + sub;
        i := i + 1;
      }
    }

    /**
     * SceneNode::update: first the removal sweep, then the node's own hook if
     * its current switch is on, then the children if its children switch is
     * on. The default hooks change nothing, and neither does the sweep.
     */
    method Update(dt: int) returns (updated: seq<SceneNode>)
      requires Valid()
      modifies Repr
      ensures Valid() && Repr == old(Repr) && unchanged(old(Repr))
      ensures updated == Visits(UpdatePass)
      decreases Repr, 1
    {
      RemoveChildrenMarkedForRemoval();
      updated := [];
      if updating.current {
        updated := [this];
      }
      if updating.children {
        var sub := UpdateChildren(dt);
        updated := updated + sub;
      }
    }

    /** SceneNode::updateChildren: every child in order, none skipped. */
    method UpdateChildren(dt: int) returns (updated: seq<SceneNode>)
      requires Valid()
      modifies Repr
      ensures Valid() && Repr == old(Repr) && unchanged(old(Repr))
      ensures updated == ChildVisits(UpdatePass, |children|)
      decreases Repr, 0
    {
      updated := [];
      var i := 0;
      while i < |children|
        invariant 0 <= i <= |children|
        invariant unchanged(old(Repr))
        invariant updated == ChildVisits(UpdatePass, i)
      {
        var sub := children[i].Update(dt);
        updated := updated + sub;
        i := i + 1;
      }
    }

    /**
     * SceneNode::draw: the node's own drawCurrent if its current switch is
     * on, then the children if its children switch is on. Rendering itself is
     * not modelled; the result is the sequence of nodes drawn.
     */
    method Draw() returns (drawn: seq<SceneNode>)
      requires Valid()
      ensures drawn == Visits(DrawPass)
      decreases Repr, 1
    {
      drawn := [];
      if drawing.current {
        drawn := [this];
      }
      if drawing.children {
        var sub := DrawChildren();
        drawn := drawn + sub;
      }
    }

    /** SceneNode::drawChildren: every child in order, none skipped. */
    method DrawChildren() returns (drawn: seq<SceneNode>)
      requires Valid()
      ensures drawn == ChildVisits(DrawPass, |children|)
      decreases Repr, 0
    {
      drawn := [];
      var i := 0;
      while i < |children|
        invariant 0 <= i <= |children|
        invariant drawn == ChildVisits(DrawPass, i)
      {
        var sub := children[i].Draw();
        drawn := drawn + sub;
        i := i + 1;
      }
    }

    /** Every node a traversal reaches belongs to this subtree. */
    lemma {:induction false} VisitsInRepr(kind: Traversal)
      requires Valid()
      ensures forall n :: n in Visits(kind) ==> n in Repr
      decreases Repr, 1
    {
      if Switch(kind).children {
        ChildVisitsInRepr(kind, |children|);
      }
    }

    lemma {:induction false} ChildVisitsInRepr(kind: Traversal, n: nat)
      requires Valid() && n <= |children|
      ensures forall x :: x in ChildVisits(kind, n) ==>
                exists i :: 0 <= i < n && x in children[i].Repr
      decreases Repr, 0, n
    {
      if n > 0 {
        ChildVisitsInRepr(kind, n - 1);
        children[n - 1].VisitsInRepr(kind);
      }
    }

    /**
     * No hook runs twice in one traversal, and this node's own hook runs
     * exactly when its current switch is on.
     */
    lemma {:induction false} VisitsOnce(kind: Traversal)
      requires Valid()
      ensures Distinct(Visits(kind))
      ensures this in Visits(kind) <==> Switch(kind).current
      decreases Repr, 1
    {
      var own: seq<SceneNode> := if Switch(kind).current then [this] else [];
      var rest := if Switch(kind).children then ChildVisits(kind, |children|) else [];
      if Switch(kind).children {
        ChildVisitsOnce(kind, |children|);
        ChildVisitsInRepr(kind, |children|);
      }
      assert this !in rest;
      DistinctConcat(own, rest);
    }

    lemma {:induction false} ChildVisitsOnce(kind: Traversal, n: nat)
      requires Valid() && n <= |children|
      ensures Distinct(ChildVisits(kind, n))
      decreases Repr, 0, n
    {
      if n > 0 {
        ChildVisitsOnce(kind, n - 1);
        ChildVisitsInRepr(kind, n - 1);
        children[n - 1].VisitsOnce(kind);
        children[n - 1].VisitsInRepr(kind);
        var earlier := ChildVisits(kind, n - 1);
        forall x | x in earlier
          ensures x !in children[n - 1].Visits(kind)
        {
          var i :| 0 <= i < n - 1 && x in children[i].Repr;
          assert children[i].Repr !! children[n - 1].Repr;
        }
        DistinctConcat(ChildVisits(kind, n - 1), children[n - 1].Visits(kind));
      }
    }
  }

  /**
   * Attaching a node and detaching it again gives back the same node with
   * a null parent and its own state untouched, and the parent's child list
   * as it was.
   */
  method AttachDetachRoundTrip(node: SceneNode, child: SceneNode)
    requires node.Valid() && child.Valid() && node.Repr !! child.Repr
    modifies node, child
    ensures node.Valid() && child.Valid()
    ensures node.children == old(node.children) && node.Repr == old(node.Repr)
    ensures child.parent == null && child.children == old(child.children)
    ensures child.eventHandling == old(child.eventHandling)
    ensures child.updating == old(child.updating) && child.drawing == old(child.drawing)
  {
    node.AttachChild(child);
    var back := node.DetachChild(child);
    assert node.children == old(node.children) by {
      var i :| 0 <= i < |old(node.children)| + 1 && (old(node.children) + [child])[i] == child &&
               node.children == (old(node.children) + [child])[..i] + (old(node.children) + [child])[i + 1..];
      assert child !in old(node.children) by {
        forall k | 0 <= k < |old(node.children)|
          ensures old(node.children)[k] != child
        {
          assert old(node.children)[k] in old(node.Repr);
        }
      }
      assert i == |old(node.children)|;
    }
  }
}
