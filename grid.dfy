/** The board of the game: an 8x8 arrangement of candy tokens, stored row by row
    in one flat sequence of 64 cells (src/App.js:12-20). */
module Grid {

  /** Side of the square board (`width` in src/App.js). */
  const Width: nat := 8

  /** Number of cells. The scans write it as the literal 64. */
  const Size: nat := 64

  /** The six candy images of the palette, and the `blank` image that marks an emptied cell. */
  datatype Token = Blue | Green | Orange | Purple | Red | Yellow | Blank

  /** What one random draw from the palette can yield. */
  type Colour = t: Token | t != Blank witness Blue

  datatype Option<T> = None | Some(value: T)

  /** Reading cell `k` of the arrangement: past either end JavaScript yields `undefined`,
      which is `None` here and equals no token. */
  function CellAt(b: seq<Token>, k: int): (o: Option<Token>)
    ensures o.Some? <==> 0 <= k < |b|
    ensures o.Some? ==> o.value == b[k]
  {
    if 0 <= k < |b| then Some(b[k]) else None
  }

  /** No cell of `b` is blank. */
  predicate NoBlank(b: seq<Token>)
  {
    forall k :: 0 <= k < |b| ==> b[k] != Blank
  }

  /** Number of blank cells of `b`. */
  function BlankCount(b: seq<Token>): nat
  {
    multiset(b)[Blank]
  }
}
