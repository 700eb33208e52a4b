/** Event masks as bits. */
module Bits {

  function Common(b: bv32, mask: bv32): bv32 {
    b & mask
  }

  function Union(x: bv32, y: bv32): bv32 {
    x | y
  }

  /** The two masks share a bit. */
  predicate Asks(b: bv32, mask: bv32) {
    b & mask != 0
  }

  lemma AsksMeans(b: bv32, mask: bv32)
    ensures Asks(b, mask) <==> b & mask != 0
  {
  }

  lemma AsksCommon(b: bv32, mask: bv32)
    ensures Asks(b, mask) <==> Common(b, mask) != 0
  {
  }

  lemma CommonSplits(b: bv32, x: bv32, y: bv32)
    ensures Common(b, Union(x, y)) == Union(Common(b, x), Common(b, y))
  {
  }

  lemma UnionEmpty(x: bv32, y: bv32)
    ensures Union(x, y) == 0 <==> x == 0 && y == 0
  {
  }

  /** A bit is in a union exactly if it is in one of its parts. */
  lemma AsksEither(b: bv32, x: bv32, y: bv32)
    ensures Asks(b, Union(x, y)) <==> Asks(b, x) || Asks(b, y)
  {
    hide Asks, Common, Union;
    AsksCommon(b, x);
    AsksCommon(b, y);
    AsksCommon(b, Union(x, y));
    CommonSplits(b, x, y);
    UnionEmpty(Common(b, x), Common(b, y));
  }

  lemma AsksNothing(b: bv32)
    ensures !Asks(b, 0)
  {
  }
}
