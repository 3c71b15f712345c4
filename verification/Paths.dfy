/** Normalised paths as lists of their parts; an absolute one starts with "/". */
module Paths {

  type Path = seq<string>

  predicate Absolute(p: Path) {
    p != [] && p[0] == "/"
  }

  /** One path is the other, contains it, or lies inside it. */
  predicate Overlap(p: Path, q: Path) {
    p <= q || q <= p
  }
}
