/**
 * VertexNode: a node drawn from its own array of vertices, usually one
 * quad. Its size is the largest vertex coordinate on each axis (at least
 * 0); resizing and texturing rewrite the vertices in place.
 */
module VertexNodes {
  import opened Wrappers
  import opened Geometry

  /** One step of the size fold: each component is raised to the position's when that is larger. */
  function Raised(size: Vec2, p: Vec2): Vec2
  {
    Vec2(if p.x > size.x then p.x else size.x, if p.y > size.y then p.y else size.y)
  }

  /** VertexNode::getSize as a fold from (0, 0) over the vertices in order. */
  function Extent(vs: seq<Vertex>): (size: Vec2)
    ensures size.x >= 0.0 && size.y >= 0.0
    ensures vs == [] ==> size == Vec2(0.0, 0.0)
    ensures |vs| > 0 ==> size.x >= vs[|vs| - 1].position.x && size.y >= vs[|vs| - 1].position.y
  {
    if vs == [] then Vec2(0.0, 0.0) else Raised(Extent(vs[..|vs| - 1]), vs[|vs| - 1].position)
  }

  /**
   * The size is the componentwise maximum of the positions and 0: never
   * negative, at least every coordinate, and attained by a vertex unless it is 0.
   */
  lemma {:induction false} ExtentIsMaximum(vs: seq<Vertex>)
    ensures Extent(vs).x >= 0.0 && Extent(vs).y >= 0.0
    ensures forall i :: 0 <= i < |vs| ==> vs[i].position.x <= Extent(vs).x && vs[i].position.y <= Extent(vs).y
    ensures Extent(vs).x == 0.0 || exists i :: 0 <= i < |vs| && vs[i].position.x == Extent(vs).x
    ensures Extent(vs).y == 0.0 || exists i :: 0 <= i < |vs| && vs[i].position.y == Extent(vs).y
  {
    if vs != [] {
      var n := |vs| - 1;
      ExtentIsMaximum(vs[..n]);
      assert forall i :: 0 <= i < n ==> vs[..n][i] == vs[i];
    }
  }

  /** The size is never negative. */
  lemma ExtentNotNegative(vs: seq<Vertex>)
    ensures Extent(vs).x >= 0.0 && Extent(vs).y >= 0.0
  {
    ExtentIsMaximum(vs);
  }

  /** The four corners of a w-by-h quad, clockwise from the origin, white with texture coordinates 0. */
  function Corners(size: Vec2): (vs: seq<Vertex>)
    ensures |vs| == 4
    ensures forall i :: 0 <= i < 4 ==> vs[i].color == White && vs[i].texCoords == Vec2(0.0, 0.0)
    ensures vs[0].position == Vec2(0.0, 0.0) && vs[2].position == size
  {
    [VertexAt(Vec2(0.0, 0.0)), VertexAt(Vec2(size.x, 0.0)), VertexAt(size), VertexAt(Vec2(0.0, size.y))]
  }

  /** A quad built from a size that is not negative measures exactly that size. */
  lemma CornersExtent(size: Vec2)
    requires size.x >= 0.0 && size.y >= 0.0
    ensures Extent(Corners(size)) == size
  {
    var vs := Corners(size);
    assert vs[..1][..0] == [];
    assert vs[..2][..1] == vs[..1] && vs[..3][..2] == vs[..2] && vs[..4][..3] == vs[..3] && vs[..4] == vs;
    assert Extent(vs[..1]) == Vec2(0.0, 0.0);
    assert Extent(vs[..2]) == Vec2(size.x, 0.0);
    assert Extent(vs[..3]) == size;
  }

  /** A position scaled by `size / current` on each axis, as modifySize computes it. */
  function ScaledPosition(p: Vec2, size: Vec2, current: Vec2): Vec2
    requires current.x != 0.0 && current.y != 0.0
  {
    Vec2(size.x * p.x / current.x, size.y * p.y / current.y)
  }

  /** Every vertex moved by ScaledPosition; colours and texture coordinates stay. */
  function Scaled(vs: seq<Vertex>, size: Vec2, current: Vec2): (r: seq<Vertex>)
    requires current.x != 0.0 && current.y != 0.0
    ensures |r| == |vs|
    ensures forall i :: 0 <= i < |vs| ==> r[i] == vs[i].(position := ScaledPosition(vs[i].position, size, current))
  {
    seq(|vs|, i requires 0 <= i < |vs| => vs[i].(position := ScaledPosition(vs[i].position, size, current)))
  }

  /** Every position moved by f on the x axis and g on the y axis. */
  function Mapped(vs: seq<Vertex>, f: real -> real, g: real -> real): (r: seq<Vertex>)
    ensures |r| == |vs|
    ensures forall i :: 0 <= i < |vs| ==> r[i] == vs[i].(position := Vec2(f(vs[i].position.x), g(vs[i].position.y)))
  {
    seq(|vs|, i requires 0 <= i < |vs| => vs[i].(position := Vec2(f(vs[i].position.x), g(vs[i].position.y))))
  }

  /** f never reverses the order of two values. */
  ghost predicate Monotone(f: real -> real)
  {
    forall a, b :: a <= b ==> f(a) <= f(b)
  }

  /** Moving every position by maps that keep order and fix 0 moves the size the same way. */
  lemma {:induction false} MappedExtent(vs: seq<Vertex>, f: real -> real, g: real -> real)
    requires Monotone(f) && Monotone(g) && f(0.0) == 0.0 && g(0.0) == 0.0
    ensures Extent(Mapped(vs, f, g)) == Vec2(f(Extent(vs).x), g(Extent(vs).y))
  {
    if vs != [] {
      var n := |vs| - 1;
      var m := Mapped(vs, f, g);
      assert m[..n] == Mapped(vs[..n], f, g) by {
        forall i | 0 <= i < n
          ensures m[..n][i] == Mapped(vs[..n], f, g)[i]
        {
          assert vs[..n][i] == vs[i];
        }
      }
      MappedExtent(vs[..n], f, g);
      var e := Extent(vs[..n]);
      var p := vs[n].position;
      assert Extent(m) == Raised(Vec2(f(e.x), g(e.y)), Vec2(f(p.x), g(p.y)));
      assert p.x > e.x ==> f(e.x) <= f(p.x);
      assert p.x <= e.x ==> f(p.x) <= f(e.x);
      assert p.y > e.y ==> g(e.y) <= g(p.y);
      assert p.y <= e.y ==> g(p.y) <= g(e.y);
    }
  }

  /** The map x -> s * x / c that modifySize applies to one axis. */
  function RatioMap(s: real, c: real): real -> real
    requires c != 0.0
  {
    x => s * x / c
  }

  /** Multiplying by a ratio that is not negative keeps order. */
  lemma RatioMonotone(s: real, c: real)
    requires s >= 0.0 && c > 0.0
    ensures Monotone(RatioMap(s, c))
  {
    var f := RatioMap(s, c);
    forall a: real, b: real | a <= b
      ensures f(a) <= f(b)
    {
      assert s * a <= s * b by { assert s * (b - a) >= 0.0; }
      assert f(b) - f(a) == (s * b - s * a) / c;
    }
  }

  /** The ratio map sends its divisor to its multiplier. */
  lemma RatioCancels(s: real, c: real)
    requires c != 0.0
    ensures RatioMap(s, c)(c) == s
  {
    assert s * c / c == s;
  }

  /** modifySize moves each axis by the map x -> size * x / current. */
  lemma ScaledIsMapped(vs: seq<Vertex>, size: Vec2, current: Vec2)
    requires current.x != 0.0 && current.y != 0.0
    ensures Scaled(vs, size, current) == Mapped(vs, RatioMap(size.x, current.x), RatioMap(size.y, current.y))
  {
    var f := RatioMap(size.x, current.x);
    var g := RatioMap(size.y, current.y);
    forall i | 0 <= i < |vs|
      ensures Scaled(vs, size, current)[i] == Mapped(vs, f, g)[i]
    {
      var p := vs[i].position;
      assert ScaledPosition(p, size, current) == Vec2(f(p.x), g(p.y));
    }
  }

  /** Scaling by ratios that are not negative scales the size by the same ratios. */
  lemma ScaledExtent(vs: seq<Vertex>, size: Vec2, current: Vec2)
    requires current.x > 0.0 && current.y > 0.0 && size.x >= 0.0 && size.y >= 0.0
    ensures Extent(Scaled(vs, size, current)) ==
            Vec2(RatioMap(size.x, current.x)(Extent(vs).x), RatioMap(size.y, current.y)(Extent(vs).y))
  {
    var f := RatioMap(size.x, current.x);
    var g := RatioMap(size.y, current.y);
    ScaledIsMapped(vs, size, current);
    RatioMonotone(size.x, current.x);
    RatioMonotone(size.y, current.y);
    assert f(0.0) == 0.0 && g(0.0) == 0.0;
    MappedExtent(vs, f, g);
  }

  /**
   * The promise of modifySize: a node with a size that is not zero, resized
   * to a size that is not negative, measures exactly the requested size.
   */
  lemma ModifySizeReachesRequested(vs: seq<Vertex>, size: Vec2)
    requires Extent(vs).x != 0.0 && Extent(vs).y != 0.0
    requires size.x >= 0.0 && size.y >= 0.0
    ensures Extent(Scaled(vs, size, Extent(vs))) == size
  {
    var current := Extent(vs);
    ExtentNotNegative(vs);
    ScaledExtent(vs, size, current);
    RatioCancels(size.x, current.x);
    RatioCancels(size.y, current.y);
  }

  /** A vertex at the middle of the node is at the middle of the resized node. */
  lemma MiddleStaysMiddle(size: Vec2, current: Vec2)
    requires current.x != 0.0 && current.y != 0.0
    ensures ScaledPosition(Vec2(current.x / 2.0, current.y / 2.0), size, current) == Vec2(size.x / 2.0, size.y / 2.0)
  {
    assert size.x * (current.x / 2.0) == (size.x / 2.0) * current.x;
    assert size.y * (current.y / 2.0) == (size.y / 2.0) * current.y;
  }

  /** The texture coordinates of a vertex: its position times the rectangle's size over the node's size. */
  function MappedTexCoords(p: Vec2, rect: FloatRect, nodeSize: Vec2): Vec2
    requires nodeSize.x != 0.0 && nodeSize.y != 0.0
  {
    Vec2(p.x * ((rect.left + rect.width) - rect.left) / nodeSize.x,
         p.y * ((rect.top + rect.height) - rect.top) / nodeSize.y)
  }

  /** Every vertex given MappedTexCoords; positions and colours stay. */
  function Textured(vs: seq<Vertex>, rect: FloatRect, nodeSize: Vec2): (r: seq<Vertex>)
    requires nodeSize.x != 0.0 && nodeSize.y != 0.0
    ensures |r| == |vs|
    ensures forall i :: 0 <= i < |vs| ==> r[i] == vs[i].(texCoords := MappedTexCoords(vs[i].position, rect, nodeSize))
  {
    seq(|vs|, i requires 0 <= i < |vs| => vs[i].(texCoords := MappedTexCoords(vs[i].position, rect, nodeSize)))
  }

  /**
   * The texture mapping of a quad: its corners go to the corners of a
   * rectangle of the texture rectangle's size anchored at (0, 0); the
   * rectangle's own left and top do not enter.
   */
  lemma QuadTexCoords(size: Vec2, rect: FloatRect)
    requires size.x > 0.0 && size.y > 0.0
    ensures Extent(Corners(size)) == size
    ensures var t := Textured(Corners(size), rect, size);
            t[0].texCoords == Vec2(0.0, 0.0) && t[1].texCoords == Vec2(rect.width, 0.0) &&
            t[2].texCoords == Vec2(rect.width, rect.height) && t[3].texCoords == Vec2(0.0, rect.height)
  {
    CornersExtent(size);
    var c := Corners(size);
    assert c[1].position == Vec2(size.x, 0.0) && c[2].position == Vec2(size.x, size.y);
    assert c[3].position == Vec2(0.0, size.y);
    CornerMapping(size, rect);
    var t := Textured(c, rect, size);
    forall k | 0 <= k < 4
      ensures t[k].texCoords == MappedTexCoords(c[k].position, rect, size)
    {
    }
  }

  /** Where the four corners of a node of the given size map. */
  lemma CornerMapping(size: Vec2, rect: FloatRect)
    requires size.x > 0.0 && size.y > 0.0
    ensures MappedTexCoords(Vec2(0.0, 0.0), rect, size) == Vec2(0.0, 0.0)
    ensures MappedTexCoords(Vec2(size.x, 0.0), rect, size) == Vec2(rect.width, 0.0)
    ensures MappedTexCoords(Vec2(size.x, size.y), rect, size) == Vec2(rect.width, rect.height)
    ensures MappedTexCoords(Vec2(0.0, size.y), rect, size) == Vec2(0.0, rect.height)
  {
    CornerTexCoords(size.x, rect.left, rect.width);
    CornerTexCoords(size.y, rect.top, rect.height);
  }

  /**
   * One axis of the mapping: coordinate 0 maps to 0 and the node's full
   * extent s maps to the rectangle's extent, whatever its start.
   */
  lemma CornerTexCoords(s: real, start: real, extent: real)
    requires s != 0.0
    ensures 0.0 * ((start + extent) - start) / s == 0.0
    ensures s * ((start + extent) - start) / s == extent
  {
    var w := (start + extent) - start;
    assert w == extent;
    assert s * w == w * s;
  }

  class VertexNode {
    const vertices: array<Vertex>
    var texture: Option<Vec2u>
    var textureRect: FloatRect

    /** VertexNode::VertexNode(size): one quad of the given size, no texture. */
    constructor (size: Vec2)
      ensures vertices[..] == Corners(size) && fresh(vertices)
      ensures texture == None && textureRect == FloatRect(0.0, 0.0, 0.0, 0.0)
    {
      var vs := new Vertex[4];
      vs[0] := VertexAt(Vec2(0.0, 0.0));
      vs[1] := VertexAt(Vec2(size.x, 0.0));
      vs[2] := VertexAt(Vec2(size.x, size.y));
      vs[3] := VertexAt(Vec2(0.0, size.y));
      vertices := vs;
      texture := None;
      textureRect := FloatRect(0.0, 0.0, 0.0, 0.0);
    }

    /** VertexNode::getSize */
    method GetSize() returns (size: Vec2)
      ensures size == Extent(vertices[..])
    {
      size := Vec2(0.0, 0.0);
      for i := 0 to vertices.Length
        invariant size == Extent(vertices[..i])
      {
        assert vertices[..i + 1][..i] == vertices[..i];
        size := Raised(size, vertices[i].position);
      }
      assert vertices[..vertices.Length] == vertices[..];
    }

    /** VertexNode::setFillColor: every vertex takes the colour; nothing else changes. */
    method SetFillColor(color: Color)
      modifies vertices
      ensures forall i :: 0 <= i < vertices.Length ==> vertices[i] == old(vertices[i]).(color := color)
    {
      for i := 0 to vertices.Length
        invariant forall j :: 0 <= j < i ==> vertices[j] == old(vertices[j]).(color := color)
        invariant forall j :: i <= j < vertices.Length ==> vertices[j] == old(vertices[j])
      {
        vertices[i] := vertices[i].(color := color);
      }
    }

    /**
     * VertexNode::modifySize: every position is scaled by the requested size
     * over the current size. The current size must not be zero on either axis.
     */
    method ModifySize(size: Vec2)
      requires Extent(vertices[..]).x != 0.0 && Extent(vertices[..]).y != 0.0
      modifies vertices
      ensures vertices[..] == Scaled(old(vertices[..]), size, Extent(old(vertices[..])))
    {
      var current := GetSize();
      for i := 0 to vertices.Length
        invariant forall j :: 0 <= j < i ==>
                    vertices[j] == old(vertices[j]).(position := ScaledPosition(old(vertices[j]).position, size, current))
        invariant forall j :: i <= j < vertices.Length ==> vertices[j] == old(vertices[j])
      {
        vertices[i] := vertices[i].(position := ScaledPosition(vertices[i].position, size, current));
      }
    }

    /**
     * VertexNode::setTextureRect: the rectangle is stored and every vertex's
     * texture coordinates are recomputed from its position. The node's size
     * must not be zero on either axis.
     */
    method SetTextureRect(rect: FloatRect)
      requires Extent(vertices[..]).x != 0.0 && Extent(vertices[..]).y != 0.0
      modifies this, vertices
      ensures textureRect == rect && texture == old(texture)
      ensures vertices[..] == Textured(old(vertices[..]), rect, Extent(old(vertices[..])))
    {
      var nodeSize := GetSize();
      textureRect := rect;
      for i := 0 to vertices.Length
        invariant textureRect == rect && texture == old(texture)
        invariant forall j :: 0 <= j < i ==>
                    vertices[j] == old(vertices[j]).(texCoords := MappedTexCoords(old(vertices[j]).position, rect, nodeSize))
        invariant forall j :: i <= j < vertices.Length ==> vertices[j] == old(vertices[j])
      {
        vertices[i] := vertices[i].(texCoords := MappedTexCoords(vertices[i].position, rect, nodeSize));
      }
    }

    /** VertexNode::setTexture: the whole texture becomes the texture rectangle. */
    method SetTexture(textureSize: Vec2u)
      requires Extent(vertices[..]).x != 0.0 && Extent(vertices[..]).y != 0.0
      modifies this, vertices
      ensures texture == Some(textureSize)
      ensures textureRect == FloatRect(0.0, 0.0, textureSize.x as real, textureSize.y as real)
      ensures vertices[..] == Textured(old(vertices[..]), textureRect, Extent(old(vertices[..])))
    {
      texture := Some(textureSize);
      SetTextureRect(FloatRect(0.0, 0.0, textureSize.x as real, textureSize.y as real));
    }
  }

  /** A quad node resized to a size that is not negative measures that size afterwards. */
  method ResizeQuad(size: Vec2, requested: Vec2) returns (measured: Vec2)
    requires size.x > 0.0 && size.y > 0.0 && requested.x >= 0.0 && requested.y >= 0.0
    ensures measured == requested
  {
    var node := new VertexNode(size);
    CornersExtent(size);
    node.ModifySize(requested);
    ModifySizeReachesRequested(Corners(size), requested);
    measured := node.GetSize();
  }
}
