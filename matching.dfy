/** Match detection: `checkForColumn` and `checkForRow` of src/App.js, stated as
    functions of the board. A check looks for the first start cell whose run of
    `n` cells all equal the start cell, blanks that run and scores it. */
module Matching {
  import opened Grid

  /** The y-th cell of the column run that starts at `i` (`i + width * y`). */
  function ColumnSquare(i: int, y: int): int
  {
    i + Width * y
  }

  /** The y-th cell of the row run that starts at `i` (`i + y`). */
  function RowSquare(i: int, y: int): int
  {
    i + y
  }

  // ---------------------------------------------------------------- columns

  /** The `n` cells `i, i+8, ...` all hold the token of cell `i`; a cell past
      the board reads `undefined` and spoils the run. Nothing excludes `Blank`. */
  predicate ColumnQualifies(b: seq<Token>, n: nat, i: nat): (q: bool)
    requires i < |b|
    ensures q && n > 0 ==> ColumnSquare(i, n - 1) < |b|
    ensures q ==> forall y :: 0 <= y < n ==> b[ColumnSquare(i, y)] == b[i]
  {
    forall y :: 0 <= y < n ==> CellAt(b, ColumnSquare(i, y)) == Some(b[i])
  }

  /** The smallest start in [i, last] whose column run qualifies. */
  function FirstColumnFrom(b: seq<Token>, n: nat, last: int, i: nat): (r: Option<nat>)
    requires last < |b|
    ensures r.Some? ==> i <= r.value <= last && ColumnQualifies(b, n, r.value)
    ensures r.Some? ==> forall j: nat :: i <= j < r.value ==> !ColumnQualifies(b, n, j)
    ensures r.None? ==> forall j: nat :: i <= j <= last ==> !ColumnQualifies(b, n, j)
    decreases last + 1 - i
  {
    if i > last then None
    else if ColumnQualifies(b, n, i) then Some(i)
    else FirstColumnFrom(b, n, last, i + 1)
  }

  /** Cell `j` is one of the `n` cells of the column run that starts at `s`. */
  predicate InColumnRun(n: nat, s: int, j: int)
  {
    s <= j && (j - s) % Width == 0 && (j - s) / Width < n
  }

  /** The board with the column run of `n` cells from `s` blanked. */
  function ClearColumn(b: seq<Token>, n: nat, s: int): (c: seq<Token>)
    ensures |c| == |b|
    ensures forall y :: 0 <= y < n && 0 <= ColumnSquare(s, y) < |b| ==> c[ColumnSquare(s, y)] == Blank
    ensures forall j :: 0 <= j < |b| && c[j] != b[j] ==> c[j] == Blank && exists y :: 0 <= y < n && ColumnSquare(s, y) == j
  {
    ColumnRunIsColumnSquares(n, s);
    seq(|b|, j requires 0 <= j < |b| => if InColumnRun(n, s, j) then Blank else b[j])
  }

  /** The cells `InColumnRun` picks out are exactly those the source pushes onto `column`. */
  lemma ColumnRunIsColumnSquares(n: nat, s: int)
    ensures forall j :: InColumnRun(n, s, j) <==> exists y :: 0 <= y < n && ColumnSquare(s, y) == j
  {
    forall j | InColumnRun(n, s, j)
      ensures exists y :: 0 <= y < n && ColumnSquare(s, y) == j
    {
      var y := (j - s) / Width;
      assert ColumnSquare(s, y) == j;
    }
  }

  // ------------------------------------------------------------------- rows

  /** An entry of `notValidIndexes`: a start index, or an array pushed as one element. */
  datatype Exclusion = Index(index: int) | Nested(indices: seq<int>)

  /** The sixteen start indices the row scan always skips. */
  const BaseExclusions: seq<int> := [6, 7, 14, 15, 22, 23, 30, 31, 38, 39, 46, 47, 54, 55, 63, 64]
  /** What the source pushes, as ONE nested array, for runs of four or more. */
  const FourExclusions: seq<int> := [5, 13, 21, 29, 37, 45, 53, 62]
  /** What the source pushes, as ONE nested array, for runs of five. */
  const FiveExclusions: seq<int> := [4, 12, 20, 28, 36, 44, 52, 61]

  /** The exclusion list `checkForRow(n)` builds. */
  function NotValidIndexes(n: nat): (l: seq<Exclusion>)
    ensures |l| == |BaseExclusions| + (if n >= 4 then 1 else 0) + (if n == 5 then 1 else 0)
    ensures forall k :: 0 <= k < |BaseExclusions| ==> l[k] == Index(BaseExclusions[k])
    ensures forall k :: |BaseExclusions| <= k < |l| ==> l[k].Nested?
  {
    var base := seq(|BaseExclusions|, k requires 0 <= k < |BaseExclusions| => Index(BaseExclusions[k]));
    var withFour := if n >= 4 then base + [Nested(FourExclusions)] else base;
    if n == 5 then withFour + [Nested(FiveExclusions)] else withFour
  }

  /** Whether `includes` finds the number `i` in the list: a number never equals a nested
      array, so only `Index` entries can match. */
  predicate Includes(list: seq<Exclusion>, i: int)
  {
    Index(i) in list
  }

  /** Start `i` is not excluded and the `n` cells `i, i+1, ...` all hold the token of
      cell `i`; a cell past the board reads `undefined` and spoils the run. */
  predicate RowQualifies(b: seq<Token>, n: nat, i: nat): (q: bool)
    requires i < |b|
    ensures q ==> i !in BaseExclusions
    ensures q && n > 0 ==> RowSquare(i, n - 1) < |b|
    ensures q ==> forall y :: 0 <= y < n ==> b[RowSquare(i, y)] == b[i]
  {
    !Includes(NotValidIndexes(n), i) &&
    forall y :: 0 <= y < n ==> CellAt(b, RowSquare(i, y)) == Some(b[i])
  }

  /** The smallest start in [i, 64) whose row run qualifies. */
  function FirstRowFrom(b: seq<Token>, n: nat, i: nat): (r: Option<nat>)
    requires |b| == Size
    ensures r.Some? ==> i <= r.value < Size && RowQualifies(b, n, r.value)
    ensures r.Some? ==> forall j: nat :: i <= j < r.value ==> !RowQualifies(b, n, j)
    ensures r.None? ==> forall j: nat :: i <= j < Size ==> !RowQualifies(b, n, j)
    decreases Size - i
  {
    if i >= Size then None
    else if RowQualifies(b, n, i) then Some(i)
    else FirstRowFrom(b, n, i + 1)
  }

  /** Cell `j` is one of the `n` cells of the row run that starts at `s`. */
  predicate InRowRun(n: nat, s: int, j: int)
  {
    s <= j < s + n
  }

  /** The board with the row run of `n` cells from `s` blanked. */
  function ClearRow(b: seq<Token>, n: nat, s: int): (c: seq<Token>)
    ensures |c| == |b|
    ensures forall y :: 0 <= y < n && 0 <= RowSquare(s, y) < |b| ==> c[RowSquare(s, y)] == Blank
    ensures forall j :: 0 <= j < |b| && c[j] != b[j] ==> c[j] == Blank && exists y :: 0 <= y < n && RowSquare(s, y) == j
  {
    RowRunIsRowSquares(n, s);
    seq(|b|, j requires 0 <= j < |b| => if InRowRun(n, s, j) then Blank else b[j])
  }

  /** The cells `InRowRun` picks out are exactly those the source pushes onto `row`. */
  lemma RowRunIsRowSquares(n: nat, s: int)
    ensures forall j :: InRowRun(n, s, j) <==> exists y :: 0 <= y < n && RowSquare(s, y) == j
  {
    forall j | InRowRun(n, s, j)
      ensures exists y :: 0 <= y < n && RowSquare(s, y) == j
    {
      assert RowSquare(s, j - s) == j;
    }
  }

  /** The nested pushes have no effect: whatever `n`, exactly the sixteen base starts are skipped. */
  lemma NestedExclusionsIgnored(n: nat, i: int)
    ensures Includes(NotValidIndexes(n), i) <==> i in BaseExclusions
  {
    var base := seq(|BaseExclusions|, k requires 0 <= k < |BaseExclusions| => Index(BaseExclusions[k]));
    assert Index(i) in base <==> i in BaseExclusions by {
      if Index(i) in base {
        var k :| 0 <= k < |base| && base[k] == Index(i);
        assert BaseExclusions[k] == i;
      }
      if i in BaseExclusions {
        var k :| 0 <= k < |BaseExclusions| && BaseExclusions[k] == i;
        assert base[k] == Index(i);
      }
    }
    var withFour := if n >= 4 then base + [Nested(FourExclusions)] else base;
    assert Index(i) in withFour <==> Index(i) in base;
  }

  /** The base list is the last two columns of rows 0-6, plus 63 and 64. */
  lemma BaseExclusionsAreRowEnds(i: int)
    ensures i in BaseExclusions <==> (0 <= i < Size - Width && i % Width >= Width - 2) || i == 63 || i == 64
  {
    if 0 <= i < Size - Width && i % Width >= Width - 2 {
      var k := (i / Width) * 2 + (i % Width - 6);
      assert 0 <= k < |BaseExclusions|;
      assert BaseExclusions[k] == i;
    }
  }

  /** A qualifying row run of three never crosses a row edge. */
  lemma RowOfThreeStaysInRow(b: seq<Token>, i: nat)
    requires |b| == Size && i < Size
    requires RowQualifies(b, 3, i)
    ensures i % Width + 3 <= Width
  {
    NestedExclusionsIgnored(3, i);
    BaseExclusionsAreRowEnds(i);
    assert CellAt(b, RowSquare(62, 2)) == None;
  }

  /** The board holding one token everywhere. */
  function Uniform(t: Token): seq<Token>
  {
    seq(Size, _ => t)
  }

  /** Runs of four may start in column 5 and runs of five in columns 4 and 5, so they
      wrap into the next row: the exclusions meant to stop that are nested and ignored. */
  lemma LongerRowsWrap(t: Token)
    ensures RowQualifies(Uniform(t), 4, 5) && 5 % Width + 4 > Width
    ensures RowQualifies(Uniform(t), 5, 4) && 4 % Width + 5 > Width
    ensures RowQualifies(Uniform(t), 5, 13) && 13 % Width + 5 > Width
  {
    NestedExclusionsIgnored(4, 5);
    NestedExclusionsIgnored(5, 4);
    NestedExclusionsIgnored(5, 13);
  }

  // ------------------------------------------------------------------ tiers

  /** One call of a check: `checkForColumn(n, last)` or `checkForRow(n)`. */
  datatype Tier = Column(n: nat, last: int) | Row(n: nat)

  /** A column scan must not start past the board. */
  predicate ValidTier(t: Tier)
  {
    t.Column? ==> t.last < Size
  }

  /** Points a match adds: the run length for a column, ten times it for a row. */
  function Weight(t: Tier): nat
  {
    match t
    case Column(n, _) => n
    case Row(n) => n * 10
  }

  /** Start `i` is one the scan of `t` visits and its run qualifies. */
  predicate Qualifies(t: Tier, b: seq<Token>, i: nat)
    requires |b| == Size && ValidTier(t)
  {
    match t
    case Column(n, last) => i <= last && ColumnQualifies(b, n, i)
    case Row(n) => i < Size && RowQualifies(b, n, i)
  }

  /** The start cell the scan of `t` stops at, if any. */
  function TierStart(t: Tier, b: seq<Token>): Option<nat>
    requires |b| == Size && ValidTier(t)
  {
    match t
    case Column(n, last) => FirstColumnFrom(b, n, last, 0)
    case Row(n) => FirstRowFrom(b, n, 0)
  }

  /** Cell `j` is blanked when the run of `t` at `s` is cleared. */
  predicate InRun(t: Tier, s: int, j: int)
  {
    match t
    case Column(n, _) => InColumnRun(n, s, j)
    case Row(n) => InRowRun(n, s, j)
  }

  function Clear(t: Tier, b: seq<Token>, s: int): seq<Token>
  {
    match t
    case Column(n, _) => ClearColumn(b, n, s)
    case Row(n) => ClearRow(b, n, s)
  }

  /** The board, score and return value after one check. */
  datatype Outcome = Outcome(cells: seq<Token>, score: int, matched: bool)

  /** The three column wrappers stop their scan at the last start whose whole run fits
      on the board: every cell a qualifying run of theirs touches is below 64, and one
      start further would reach past the board. */
  lemma ColumnWrappersStayOnBoard(n: nat, last: int)
    requires (n, last) == (5, 31) || (n, last) == (4, 39) || (n, last) == (3, 47)
    ensures forall i: nat, y :: i <= last && 0 <= y < n ==> ColumnSquare(i, y) < Size
    ensures ColumnSquare(last + 1, n - 1) >= Size
  {
  }

  /** One check: at the first qualifying start, blank its run, score it and report true;
      with no qualifying start, change nothing and report false (`undefined`). */
  function TierCheck(t: Tier, b: seq<Token>, score: int): (o: Outcome)
    requires |b| == Size && ValidTier(t)
    ensures |o.cells| == Size
    ensures o.score == score + (if o.matched then Weight(t) else 0)
    ensures !o.matched ==> o.cells == b
  {
    match TierStart(t, b)
    case None => Outcome(b, score, false)
    case Some(s) => Outcome(Clear(t, b, s), score + Weight(t), true)
  }

  /** When `s` is the smallest qualifying start, the check blanks exactly the run at `s`,
      adds the tier's weight and reports true. */
  lemma TierCheckFirstMatch(t: Tier, b: seq<Token>, score: int, s: nat)
    requires |b| == Size && ValidTier(t)
    requires Qualifies(t, b, s)
    requires forall j: nat :: j < s ==> !Qualifies(t, b, j)
    ensures TierCheck(t, b, score) == Outcome(Clear(t, b, s), score + Weight(t), true)
    ensures forall j :: 0 <= j < Size ==>
      TierCheck(t, b, score).cells[j] == if InRun(t, s, j) then Blank else b[j]
  {
    match t
    case Column(n, last) =>
      var r := FirstColumnFrom(b, n, last, 0);
      assert ColumnQualifies(b, n, s);
      assert Qualifies(t, b, r.value);
    case Row(n) =>
      var r := FirstRowFrom(b, n, 0);
      assert RowQualifies(b, n, s);
      assert Qualifies(t, b, r.value);
  }

  /** A check reports false exactly when no start qualifies, and then changes nothing. */
  lemma TierCheckNoMatch(t: Tier, b: seq<Token>, score: int)
    requires |b| == Size && ValidTier(t)
    ensures !TierCheck(t, b, score).matched <==> forall i: nat :: !Qualifies(t, b, i)
    ensures !TierCheck(t, b, score).matched ==> TierCheck(t, b, score) == Outcome(b, score, false)
  {
    if TierCheck(t, b, score).matched {
      var s := TierStart(t, b).value;
      assert Qualifies(t, b, s);
    } else {
      forall i: nat ensures !Qualifies(t, b, i) {
        match t
        case Column(n, last) =>
          if i <= last {
            assert !ColumnQualifies(b, n, i);
          }
        case Row(n) =>
          if i < Size {
            assert !RowQualifies(b, n, i);
          }
      }
    }
  }

  /** A run of blanks qualifies like any other run: three blank cells at the top of
      column 0 are matched, cleared and scored by the column-of-three check, and three
      blank cells at the start of row 0 by the row-of-three check. */
  lemma BlankRunsMatch(b: seq<Token>, score: int)
    requires |b| == Size
    ensures b[0] == b[8] == b[16] == Blank ==>
      TierCheck(Column(3, 47), b, score) == Outcome(ClearColumn(b, 3, 0), score + 3, true)
    ensures b[0] == b[1] == b[2] == Blank ==>
      TierCheck(Row(3), b, score) == Outcome(ClearRow(b, 3, 0), score + 30, true)
  {
    if b[0] == b[8] == b[16] == Blank {
      assert ColumnSquare(0, 1) == 8 && ColumnSquare(0, 2) == 16;
      assert ColumnQualifies(b, 3, 0);
      TierCheckFirstMatch(Column(3, 47), b, score, 0);
    }
    if b[0] == b[1] == b[2] == Blank {
      NestedExclusionsIgnored(3, 0);
      assert RowQualifies(b, 3, 0);
      TierCheckFirstMatch(Row(3), b, score, 0);
    }
  }

  /** A run of a longer tier contains the run of three at the same start, so a board
      with no qualifying run of three has none of four or five either. */
  lemma LongerRunHasRunOfThree(t: Tier, b: seq<Token>, i: nat)
    requires |b| == Size && ValidTier(t) && t.n >= 3
    requires t.Column? ==> t.last <= 47
    requires Qualifies(t, b, i)
    ensures t.Column? ==> Qualifies(Column(3, 47), b, i)
    ensures t.Row? ==> Qualifies(Row(3), b, i)
  {
    if t.Row? {
      NestedExclusionsIgnored(t.n, i);
      NestedExclusionsIgnored(3, i);
    }
  }
}
