/**
 * The runs of annotations between boundary annotations, read back as one
 * sequence: the split the I2C and SPI folds make loses nothing but the
 * boundaries.
 */
module Runs {
  import opened Annotations

  /** The runs one after the other. */
  function Flatten<T>(ps: seq<seq<T>>): seq<T> {
    if ps == [] then [] else Flatten(ps[..|ps| - 1]) + ps[|ps| - 1]
  }

  /** The annotations that are no boundary, in order. */
  function Unmarked<T>(xs: seq<T>, cut: T -> bool): seq<T> {
    if xs == [] then [] else Unmarked(xs[..|xs| - 1], cut) + (if cut(xs[|xs| - 1]) then [] else [xs[|xs| - 1]])
  }

  lemma FlattenSnoc<T>(ps: seq<seq<T>>, q: seq<T>)
    ensures Flatten(ps + [q]) == Flatten(ps) + q
  {
    assert (ps + [q])[..|ps|] == ps;
  }

  /** The runs, one after the other, are exactly the annotations that are no
      boundary, in their order: splitting loses, adds and reorders nothing. */
  lemma {:induction false} PiecesFlatten<T>(anns: seq<T>, cut: T -> bool)
    ensures Flatten(Pieces(anns, cut)) == Unmarked(anns, cut)
  {
    if anns != [] {
      var init := anns[..|anns| - 1];
      var a := anns[|anns| - 1];
      PiecesFlatten(init, cut);
      var p := Pieces(init, cut);
      if cut(a) {
        FlattenSnoc(p, []);
      } else {
        var front := p[..|p| - 1];
        assert p == front + [p[|p| - 1]];
        FlattenSnoc(front, p[|p| - 1]);
        FlattenSnoc(front, p[|p| - 1] + [a]);
      }
    }
  }
}
