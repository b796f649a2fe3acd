/**
 * MaterialNode: a scene node with a transform. Origin flags place the
 * node's local origin at a corner, an edge midpoint or the centre of its
 * local bounds, and alignment flags place the node relative to another
 * node's bounds.
 */
module Materials {
  import opened Geometry

  /** MaterialNode::OriginFlag, one bit each except Center, which is no bit at all. */
  const Center: bv16 := 0
  const CenterX: bv16 := 1
  const CenterY: bv16 := 2
  const Left: bv16 := 4
  const Right: bv16 := 8
  const Top: bv16 := 16
  const Bottom: bv16 := 32

  predicate Has(flags: bv16, flag: bv16)
  {
    flags & flag != 0
  }

  /** The centre of a rectangle. */
  function Middle(b: FloatRect): Vec2
  {
    Vec2(b.left + b.width / 2.0, b.top + b.height / 2.0)
  }

  /** The origin setOriginFlags computes from the flags and the local bounds. */
  function OriginFor(flags: bv16, b: FloatRect): (o: Vec2)
    ensures flags == Center ==> o == Middle(b)
    ensures b.width >= 0.0 && b.height >= 0.0 ==>
              b.left <= o.x <= b.left + b.width && b.top <= o.y <= b.top + b.height
  {
    if flags == Center then Middle(b)
    else
      var x := if flags & CenterX != 0 then b.left + b.width / 2.0
               else if flags & Right != 0 then b.left + b.width
               else b.left;
      var y := if flags & CenterY != 0 then b.top + b.height / 2.0
               else if flags & Bottom != 0 then b.top + b.height
               else b.top;
      Vec2(x, y)
  }

  /** The Left and Top bits never move the origin, once some flag is set. */
  lemma LeftTopHaveNoEffect(flags: bv16, b: FloatRect)
    requires flags != Center
    ensures OriginFor(flags | Left | Top, b) == OriginFor(flags, b)
  {
  }

  /**
   * Once some flag is set, the x coordinate depends only on the CenterX and
   * Right bits and the y coordinate only on the CenterY and Bottom bits.
   */
  lemma AxesAreIndependent(f: bv16, g: bv16, b: FloatRect)
    requires f != Center && g != Center
    ensures f & (CenterX | Right) == g & (CenterX | Right) ==> OriginFor(f, b).x == OriginFor(g, b).x
    ensures f & (CenterY | Bottom) == g & (CenterY | Bottom) ==> OriginFor(f, b).y == OriginFor(g, b).y
  {
    assert Has(f, CenterX) == Has(f & (CenterX | Right), CenterX) && Has(g, CenterX) == Has(g & (CenterX | Right), CenterX);
    assert Has(f, Right) == Has(f & (CenterX | Right), Right) && Has(g, Right) == Has(g & (CenterX | Right), Right);
    assert Has(f, CenterY) == Has(f & (CenterY | Bottom), CenterY) && Has(g, CenterY) == Has(g & (CenterY | Bottom), CenterY);
    assert Has(f, Bottom) == Has(f & (CenterY | Bottom), Bottom) && Has(g, Bottom) == Has(g & (CenterY | Bottom), Bottom);
  }

  /** CenterX wins over Right, and CenterY over Bottom. */
  lemma CentreWinsOverEdge(flags: bv16, b: FloatRect)
    ensures OriginFor(flags | CenterX | Right, b).x == Middle(b).x
    ensures OriginFor(flags | CenterY | Bottom, b).y == Middle(b).y
    ensures OriginFor(Right | Bottom, b) == Vec2(b.left + b.width, b.top + b.height)
    ensures OriginFor(Left | Top, b) == Vec2(b.left, b.top)
  {
  }

  /** CenterX | CenterY and Center both put the origin at the centre. */
  lemma BothCentresAreCenter(b: FloatRect)
    ensures OriginFor(CenterX | CenterY, b) == OriginFor(Center, b)
  {
  }

  /** The position setRelativeAlignment computes from the flags, the target's bounds and the padding. */
  function AlignedPosition(flags: bv16, target: FloatRect, padding: real): (p: Vec2)
    ensures flags == Center ==> p == Middle(target)
  {
    if flags == Center then Middle(target)
    else
      var x := if flags & CenterX != 0 then target.left + target.width / 2.0
               else if flags & Right != 0 then target.left + target.width - padding
               else target.left + padding;
      var y := if flags & CenterY != 0 then target.top + target.height / 2.0
               else if flags & Bottom != 0 then target.top + target.height - padding
               else target.top + padding;
      Vec2(x, y)
  }

  /**
   * Alignment is the origin the same flags would select in the target's
   * bounds, moved inwards by the padding: right on the left side, left on
   * the right side, and not at all on a centred axis.
   */
  lemma AlignmentIsPaddedOrigin(flags: bv16, target: FloatRect, padding: real)
    requires flags != Center
    ensures var p := AlignedPosition(flags, target, padding);
            var o := OriginFor(flags, target);
            && p.x == o.x + (if Has(flags, CenterX) then 0.0 else if Has(flags, Right) then -padding else padding)
            && p.y == o.y + (if Has(flags, CenterY) then 0.0 else if Has(flags, Bottom) then -padding else padding)
  {
  }

  /** Without padding, a node is aligned exactly at the origin point the flags select in the target. */
  lemma UnpaddedAlignmentIsOrigin(flags: bv16, target: FloatRect)
    ensures AlignedPosition(flags, target, 0.0) == OriginFor(flags, target)
  {
    if flags != Center {
      AlignmentIsPaddedOrigin(flags, target, 0.0);
    }
  }

  class MaterialNode {
    var originFlags: bv16
    var origin: Vec2
    var position: Vec2
    var drawingGlobalBoundingRect: bool
    /** What the node's getLocalBounds reports; each kind of node computes its own. */
    var localBounds: FloatRect

    /** MaterialNode::MaterialNode: flags Left | Top, no bounding-rectangle drawing. */
    constructor (localBounds: FloatRect)
      ensures originFlags == Left | Top && !drawingGlobalBoundingRect
      ensures origin == Vec2(0.0, 0.0) && position == Vec2(0.0, 0.0)
      ensures this.localBounds == localBounds
    {
      originFlags := Left | Top;
      origin := Vec2(0.0, 0.0);
      position := Vec2(0.0, 0.0);
      drawingGlobalBoundingRect := false;
      this.localBounds := localBounds;
    }

    /** MaterialNode::setOriginFlags: the origin moves to the point the flags select, and the flags are kept. */
    method SetOriginFlags(flags: bv16)
      modifies this
      ensures origin == OriginFor(flags, localBounds) && originFlags == flags
      ensures position == old(position) && localBounds == old(localBounds)
      ensures drawingGlobalBoundingRect == old(drawingGlobalBoundingRect)
    {
      var bounds := localBounds;
      if flags == Center {
        origin := Vec2(bounds.left + bounds.width / 2.0, bounds.top + bounds.height / 2.0);
      } else {
        var newOrigin := Vec2(bounds.left, bounds.top);
        if flags & CenterX != 0 {
          newOrigin := newOrigin.(x := bounds.left + bounds.width / 2.0);
        } else if flags & Right != 0 {
          newOrigin := newOrigin.(x := bounds.left + bounds.width);
        }
        if flags & CenterY != 0 {
          newOrigin := newOrigin.(y := bounds.top + bounds.height / 2.0);
        } else if flags & Bottom != 0 {
          newOrigin := newOrigin.(y := bounds.top + bounds.height);
        }
        origin := newOrigin;
      }
      originFlags := flags;
    }

    /** MaterialNode::setRelativeAlignment: the node moves to the point the flags select in the target. */
    method SetRelativeAlignment(target: MaterialNode, flags: bv16, padding: real)
      modifies this
      ensures position == AlignedPosition(flags, old(target.localBounds), padding)
      ensures origin == old(origin) && originFlags == old(originFlags) && localBounds == old(localBounds)
      ensures drawingGlobalBoundingRect == old(drawingGlobalBoundingRect)
    {
      var bounds := target.localBounds;
      if flags == Center {
        position := Vec2(bounds.left + bounds.width / 2.0, bounds.top + bounds.height / 2.0);
      } else {
        var newPosition := Vec2(bounds.left + padding, bounds.top + padding);
        if flags & CenterX != 0 {
          newPosition := newPosition.(x := bounds.left + bounds.width / 2.0);
        } else if flags & Right != 0 {
          newPosition := newPosition.(x := bounds.left + bounds.width - padding);
        }
        if flags & CenterY != 0 {
          newPosition := newPosition.(y := bounds.top + bounds.height / 2.0);
        } else if flags & Bottom != 0 {
          newPosition := newPosition.(y := bounds.top + bounds.height - padding);
        }
        position := newPosition;
      }
    }

    /** MaterialNode::correctOriginFlagProperties: the stored flags are applied again to the current bounds. */
    method CorrectOriginFlagProperties()
      modifies this
      ensures origin == OriginFor(originFlags, localBounds) && originFlags == old(originFlags)
      ensures position == old(position) && localBounds == old(localBounds)
      ensures drawingGlobalBoundingRect == old(drawingGlobalBoundingRect)
    {
      SetOriginFlags(originFlags);
    }
  }

  /**
   * Correcting the origin twice leaves the node as correcting it once: once
   * is the origin after the first correction, and the second changes nothing.
   */
  method CorrectionIsIdempotent(node: MaterialNode) returns (once: Vec2)
    modifies node
    ensures once == OriginFor(old(node.originFlags), old(node.localBounds))
    ensures node.origin == once
    ensures node.originFlags == old(node.originFlags) && node.position == old(node.position)
    ensures node.localBounds == old(node.localBounds)
    ensures node.drawingGlobalBoundingRect == old(node.drawingGlobalBoundingRect)
  {
    node.CorrectOriginFlagProperties();
    once := node.origin;
    node.CorrectOriginFlagProperties();
  }
}
