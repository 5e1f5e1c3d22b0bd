/** The game state of the `App` component of src/App.js: the arrangement of 64 cells,
    updated in place, the score and the notification, with the checks, the gravity
    pass, the swap turn and the timer tick as methods proved against the functions of
    Matching, Gravity and Session. */
module App {
  import opened Grid
  import opened Matching
  import opened Gravity
  import opened Session

  /** The notification shown at start. */
  const StartNote: string := "Start!"

  /** `createBoard`: one palette draw per cell, pushed in index order. */
  method CreateBoard(colours: seq<Colour>) returns (arrangement: seq<Token>)
    requires |colours| == Size
    ensures |arrangement| == Size && NoBlank(arrangement)
    ensures forall i :: 0 <= i < Size ==> arrangement[i] == colours[i]
  {
    arrangement := [];
    var i := 0;
    while i < Width * Width
      invariant 0 <= i <= Size
      invariant |arrangement| == i
      invariant forall k :: 0 <= k < i ==> arrangement[k] == colours[k]
    {
      arrangement := arrangement + [colours[i]];
      i := i + 1;
    }
  }

  class Game {
    /** `currentColorArrangement` */
    var board: array<Token>
    /** `scoreDisplay` */
    var score: int
    /** `notification` */
    var notification: string

    ghost predicate Valid()
      reads this
    {
      board.Length == Size
    }

    /** The component's initial state followed by the mount effect's `createBoard`. */
    constructor (colours: seq<Colour>)
      requires |colours| == Size
      ensures Valid() && fresh(board)
      ensures board[..] == colours && NoBlank(board[..])
      ensures score == 0 && notification == StartNote
    {
      var arrangement := CreateBoard(colours);
      board := new Token[Size](i => if 0 <= i < |arrangement| then arrangement[i] else Blank);
      score := 0;
      notification := StartNote;
      new;
      assert board[..] == arrangement;
    }

    /** Whether the `n` cells `i, i+8, ...` all hold the token of cell `i`, stopping at the
        first cell that differs; a square past the board reads `undefined` and differs. */
    method EveryInColumn(n: nat, i: nat) returns (all: bool)
      requires Valid() && i < Size
      ensures all == ColumnQualifies(board[..], n, i)
    {
      var decidedColor := board[i];
      var y := 0;
      while y < n && i + Width * y < Size && board[i + Width * y] == decidedColor
        invariant 0 <= y <= n
        invariant forall k :: 0 <= k < y ==> CellAt(board[..], ColumnSquare(i, k)) == Some(decidedColor)
      {
        y := y + 1;
      }
      if y < n {
        assert CellAt(board[..], ColumnSquare(i, y)) != Some(decidedColor);
      }
      all := y == n;
    }

    /** Whether the `n` cells `i, i+1, ...` all hold the token of cell `i`, stopping at the
        first cell that differs; a square past the board reads `undefined` and differs. */
    method EveryInRow(n: nat, i: nat) returns (all: bool)
      requires Valid() && i < Size
      ensures all <==> forall y :: 0 <= y < n ==> CellAt(board[..], RowSquare(i, y)) == Some(board[i])
    {
      var decidedColor := board[i];
      var y := 0;
      while y < n && i + y < Size && board[i + y] == decidedColor
        invariant 0 <= y <= n
        invariant forall k :: 0 <= k < y ==> CellAt(board[..], RowSquare(i, k)) == Some(decidedColor)
      {
        y := y + 1;
      }
      if y < n {
        assert CellAt(board[..], RowSquare(i, y)) != Some(decidedColor);
      }
      all := y == n;
    }

    /** Writes `Blank` into each of the `n` cells of the column run from `s`, in place. */
    method BlankColumn(n: nat, s: nat)
      requires Valid() && s < Size && ColumnQualifies(board[..], n, s)
      modifies board
      ensures board[..] == ClearColumn(old(board[..]), n, s)
    {
      ghost var b := board[..];
      var k := 0;
      while k < n
        invariant 0 <= k <= n
        invariant forall j :: 0 <= j < Size ==> board[j] == if InColumnRun(k, s, j) then Blank else b[j]
      {
        assert CellAt(b, ColumnSquare(s, k)).Some?;
        board[s + Width * k] := Blank;
        k := k + 1;
      }
      assert board[..] == ClearColumn(b, n, s);
    }

    /** Writes `Blank` into each of the `n` cells of the row run from `s`, in place. */
    method BlankRow(n: nat, s: nat)
      requires Valid() && s < Size && RowQualifies(board[..], n, s)
      modifies board
      ensures board[..] == ClearRow(old(board[..]), n, s)
    {
      ghost var b := board[..];
      var k := 0;
      while k < n
        invariant 0 <= k <= n
        invariant forall j :: 0 <= j < Size ==> board[j] == if InRowRun(k, s, j) then Blank else b[j]
      {
        assert CellAt(b, RowSquare(s, k)).Some?;
        board[s + k] := Blank;
        k := k + 1;
      }
      assert board[..] == ClearRow(b, n, s);
    }

    /** `checkForColumn(n, last)`: scan starts 0..last; at the first whose column run of
        `n` cells all equal the start cell, add `n` to the score, blank the run and
        report true; report false (`undefined`) when none qualifies. */
    method CheckForColumn(n: nat, last: int) returns (matched: bool)
      requires Valid() && last < Size
      modifies board, this`score
      ensures Valid()
      ensures var o := TierCheck(Column(n, last), old(board[..]), old(score));
              board[..] == o.cells && score == o.score && matched == o.matched
    {
      ghost var b := board[..];
      var i := 0;
      while i <= last
        invariant 0 <= i && (i <= last + 1 || last < 0)
        invariant board[..] == b && score == old(score)
        invariant FirstColumnFrom(b, n, last, i) == FirstColumnFrom(b, n, last, 0)
        decreases last + 1 - i
      {
        var all := EveryInColumn(n, i);
        if all {
          score := score + n;
          BlankColumn(n, i);
          return true;
        }
        i := i + 1;
      }
      return false;
    }

    /** `checkForRow(n)`: scan starts 0..63, skipping those `includes` finds in the
        exclusion list; at the first whose row run of `n` cells all equal the start cell,
        add `10 * n` to the score, blank the run and report true; report false
        (`undefined`) when none qualifies. */
    method CheckForRow(n: nat) returns (matched: bool)
      requires Valid()
      modifies board, this`score
      ensures Valid()
      ensures var o := TierCheck(Row(n), old(board[..]), old(score));
              board[..] == o.cells && score == o.score && matched == o.matched
    {
      ghost var b := board[..];
      var notValidIndexes := NotValidIndexes(n);
      var i := 0;
      while i < 64
        invariant 0 <= i <= Size
        invariant board[..] == b && score == old(score)
        invariant FirstRowFrom(b, n, i) == FirstRowFrom(b, n, 0)
      {
        if Includes(notValidIndexes, i) {
          assert !RowQualifies(b, n, i);
          i := i + 1;
          continue;
        }
        var all := EveryInRow(n, i);
        if all {
          assert RowQualifies(b, n, i);
          score := score + n * 10;
          BlankRow(n, i);
          return true;
        }
        i := i + 1;
      }
      return false;
    }

    /** The six tier wrappers called in the fixed order of the turn and the tick. */
    method CheckAllTiers() returns (matched: seq<bool>)
      requires Valid()
      modifies board, this`score
      ensures Valid()
      ensures var c := SixChecks(old(board[..]), old(score));
              board[..] == c.cells && score == c.score && matched == c.matched
    {
      var isAColumnOfFive := CheckForColumn(5, 31);
      var isARowOfFive := CheckForRow(5);
      var isAColumnOfFour := CheckForColumn(4, 39);
      var isARowOfFour := CheckForRow(4);
      var isAColumnOfThree := CheckForColumn(3, 47);
      var isARowOfThree := CheckForRow(3);
      matched := [isAColumnOfFive, isARowOfFive, isAColumnOfFour, isARowOfFour, isAColumnOfThree, isARowOfThree];
    }

    /** `moveIntoSquareBelow`: starts 0..54 in ascending order; a blank top-row start is
        refilled with `refill[i]`, then the start's token moves into the cell below when
        that is blank. Later iterations see the earlier writes. */
    method MoveIntoSquareBelow(refill: seq<Colour>)
      requires Valid() && |refill| == Width
      modifies board
      ensures Valid()
      ensures board[..] == GravityPass(old(board[..]), refill)
    {
      var i := 0;
      while i < 55
        invariant 0 <= i <= PassLimit
        invariant board[..] == GravitySteps(old(board[..]), refill, i)
      {
        ghost var s := board[..];
        var isFirstRow := i < Width;
        if isFirstRow && board[i] == Blank {
          board[i] := refill[i];
        }
        if board[i + Width] == Blank {
          board[i + Width] := board[i];
          board[i] := Blank;
        }
        assert board[..] == DropStep(s, refill, i);
        i := i + 1;
      }
    }

    /** `dragEnd` for the dragged cell `d` and the replaced cell `r`: swap the two tokens,
        run the six checks, then keep the result when `r` is not 0, adjacent to `d` and
        some check matched (saying "Good job!" when a five matched), or else write the
        two pre-swap tokens back. */
    method DragEnd(d: nat, r: nat) returns (accepted: bool)
      requires Valid() && d < Size && r < Size
      modifies board, this`score, this`notification
      ensures Valid()
      ensures var t := Turn(old(board[..]), old(score), old(notification), d, r);
              board[..] == t.cells && score == t.score && notification == t.notification &&
              accepted == t.accepted
    {
      ghost var b := board[..];
      var dragged, replaced := SwapCells(d, r);
      var validMove := r in [d - 1, d - Width, d + 1, d + Width];
      var m := CheckAllTiers();
      accepted := Conclude(d, r, validMove, m, dragged, replaced);
      TurnParts(b, old(score), old(notification), d, r);
    }

    /** The verdict of `dragEnd` once the checks have run: accept when `r` is not 0, the
        move is valid and some check matched, saying "Good job!" when a five matched;
        otherwise write the two pre-swap tokens back. */
    method Conclude(d: nat, r: nat, validMove: bool, m: seq<bool>, dragged: Token, replaced: Token)
      returns (accepted: bool)
      requires Valid() && d < Size && r < Size && |m| == 6
      modifies board, this`notification
      ensures Valid()
      ensures accepted == (r != 0 && validMove && true in m)
      ensures notification == if accepted && (m[0] || m[1]) then GoodJob else old(notification)
      ensures board[..] == if accepted then old(board[..]) else old(board[..])[r := replaced][d := dragged]
    {
      accepted := r != 0 && validMove && (m[5] || m[3] || m[1] || m[4] || m[2] || m[0]);
      if accepted {
        if m[0] || m[1] {
          notification := GoodJob;
        }
      } else {
        PutBack(d, r, dragged, replaced);
      }
    }

    /** The swap at the start of `dragEnd`: the dragged token goes into cell `r` and the
        replaced token into cell `d`; both tokens are returned for a later restore. */
    method SwapCells(d: nat, r: nat) returns (dragged: Token, replaced: Token)
      requires Valid() && d < Size && r < Size
      modifies board
      ensures Valid()
      ensures dragged == old(board[d]) && replaced == old(board[r])
      ensures board[..] == Swapped(old(board[..]), d, r)
    {
      dragged := board[d];
      replaced := board[r];
      board[r] := dragged;
      board[d] := replaced;
    }

    /** The restore of a rejected turn: the replaced token back into cell `r`, then the
        dragged token back into cell `d`. */
    method PutBack(d: nat, r: nat, dragged: Token, replaced: Token)
      requires Valid() && d < Size && r < Size
      modifies board
      ensures Valid()
      ensures board[..] == old(board[..])[r := replaced][d := dragged]
    {
      board[r] := replaced;
      board[d] := dragged;
    }

    /** One firing of the interval timer: the six checks, then one gravity pass. */
    method Tick(refill: seq<Colour>)
      requires Valid() && |refill| == Width
      modifies board, this`score
      ensures Valid()
      ensures var t := Session.Tick(old(board[..]), old(score), refill);
              board[..] == t.cells && score == t.score
      ensures score >= old(score)
    {
      var _ := CheckAllTiers();
      MoveIntoSquareBelow(refill);
    }
  }
}
