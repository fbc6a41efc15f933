/** Distances between points of the plane. */
module Plane {
  import opened RoadMap

  /** `d` is the distance between points `dx` and `dy` apart (route_model.h:22-24). */
  predicate Spans(d: real, dx: real, dy: real) {
    d >= 0.0 && d * d == dx * dx + dy * dy
  }

  /** The nodes lie at coordinates `x` and `y`. */
  ghost predicate Placed(net: Network, x: nat -> real, y: nat -> real) {
    forall a: nat, b: nat :: a < net.size && b < net.size ==> Spans(net.dist(a, b), x(a) - x(b), y(a) - y(b))
  }

  /** The nodes have such coordinates. */
  ghost predicate Planar(net: Network) {
    exists x: nat -> real, y: nat -> real :: Placed(net, x, y)
  }

  lemma ProductPositive(a: real, b: real)
    requires a > 0.0 && b > 0.0
    ensures a * b > 0.0
  {
  }

  lemma SquareLarger(a: real, b: real)
    requires a > b >= 0.0
    ensures a * a > b * b
  {
    ProductPositive(a - b, a + b);
    assert (a - b) * (a + b) == a * a - b * b;
  }

  lemma SquareMonotone(a: real, b: real)
    requires b >= 0.0 && a * a <= b * b
    ensures a <= b
  {
    if a > b {
      SquareLarger(a, b);
    }
  }

  lemma Lagrange(ux: real, uy: real, vx: real, vy: real)
    ensures (ux * vx + uy * vy) * (ux * vx + uy * vy) + (ux * vy - uy * vx) * (ux * vy - uy * vx) ==
            (ux * ux + uy * uy) * (vx * vx + vy * vy)
  {
  }

  /** The scalar product is at most the product of the lengths. */
  lemma ScalarProduct(ux: real, uy: real, vx: real, vy: real, u: real, v: real)
    requires Spans(u, ux, uy) && Spans(v, vx, vy)
    ensures ux * vx + uy * vy <= u * v
  {
    var cross := ux * vy - uy * vx;
    assert cross * cross >= 0.0;
    Lagrange(ux, uy, vx, vy);
    assert (u * u) * (v * v) == (u * v) * (u * v);
    SquareMonotone(ux * vx + uy * vy, u * v);
  }

  lemma TriangleInequality(ux: real, uy: real, vx: real, vy: real, u: real, v: real, w: real)
    requires Spans(u, ux, uy) && Spans(v, vx, vy) && Spans(w, ux + vx, uy + vy)
    ensures w <= u + v
  {
    ScalarProduct(ux, uy, vx, vy, u, v);
    assert (u + v) * (u + v) == u * u + 2.0 * (u * v) + v * v;
    assert w * w == u * u + 2.0 * (ux * vx + uy * vy) + v * v;
    SquareMonotone(w, u + v);
  }

  lemma BothWays(d: real, e: real, dx: real, dy: real)
    requires Spans(d, dx, dy) && Spans(e, -dx, -dy)
    ensures d == e
  {
    SquareMonotone(d, e);
    SquareMonotone(e, d);
  }

  lemma NoneToItself(d: real)
    requires Spans(d, 0.0, 0.0)
    ensures d == 0.0
  {
    SquareMonotone(d, 0.0);
  }

  /** Distances in the plane are what the search asks of distances. */
  lemma PlanarDistances(net: Network)
    requires Planar(net)
    ensures Distances(net)
  {
    var x: nat -> real, y: nat -> real :| Placed(net, x, y);
    forall a: nat, b: nat | a < net.size && b < net.size ensures Lengths(net, a, b) {
      BothWays(net.dist(a, b), net.dist(b, a), x(a) - x(b), y(a) - y(b));
      NoneToItself(net.dist(a, a));
    }
    forall a: nat, b: nat, c: nat | a < net.size && b < net.size && c < net.size ensures NoDetourShorter(net, a, b, c) {
      TriangleInequality(x(a) - x(b), y(a) - y(b), x(b) - x(c), y(b) - y(c),
                         net.dist(a, b), net.dist(b, c), net.dist(a, c));
    }
  }
}
