/**
 * The SFML value types the engine computes with. Floating-point quantities
 * are modelled as mathematical reals and integral pixel quantities as ints.
 */
module Geometry {
  /** sf::Vector2f */
  datatype Vec2 = Vec2(x: real, y: real)

  /** sf::Vector2u, e.g. the size of a texture */
  datatype Vec2u = Vec2u(x: nat, y: nat)

  /** sf::FloatRect */
  datatype FloatRect = FloatRect(left: real, top: real, width: real, height: real)

  /** sf::IntRect */
  datatype IntRect = IntRect(left: int, top: int, width: int, height: int)

  /** sf::Color, one integer per channel */
  datatype Color = Color(r: int, g: int, b: int, a: int)

  const White := Color(255, 255, 255, 255)
  const Black := Color(0, 0, 0, 255)

  /** sf::Vertex: a position, a colour and texture coordinates */
  datatype Vertex = Vertex(position: Vec2, color: Color, texCoords: Vec2)

  /** A vertex at the given position with SFML's defaults: white, texture coordinates (0, 0) */
  function VertexAt(p: Vec2): Vertex
  {
    Vertex(p, White, Vec2(0.0, 0.0))
  }
}
