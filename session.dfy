/** What one swap turn (`dragEnd`, src/App.js:96-129) and one timer tick (the interval
    body, src/App.js:147-154) do to the board and the score, stated as functions. */
module Session {
  import opened Grid
  import opened Matching
  import opened Gravity

  /** The notification a turn that matched a five sets. */
  const GoodJob: string := "Good job!"

  /** Board, score and the six check results, in calling order. */
  datatype Checked = Checked(cells: seq<Token>, score: int, matched: seq<bool>)

  /** The six tier wrappers (src/App.js:68-73) called one after the other, each on the
      board the previous one left, in the order both the turn and the tick use: column
      of five, row of five, column of four, row of four, column of three, row of three. */
  function SixChecks(b: seq<Token>, score: int): (c: Checked)
    requires |b| == Size
    ensures |c.cells| == Size && |c.matched| == 6
    ensures c.score > score <==> true in c.matched
    ensures c.score >= score
    ensures true !in c.matched ==> c.cells == b
  {
    var c5 := TierCheck(Column(5, 31), b, score);
    var r5 := TierCheck(Row(5), c5.cells, c5.score);
    var c4 := TierCheck(Column(4, 39), r5.cells, r5.score);
    var r4 := TierCheck(Row(4), c4.cells, c4.score);
    var c3 := TierCheck(Column(3, 47), r4.cells, r4.score);
    var r3 := TierCheck(Row(3), c3.cells, c3.score);
    Checked(r3.cells, r3.score, [c5.matched, r5.matched, c4.matched, r4.matched, c3.matched, r3.matched])
  }

  /** No column-of-three and no row-of-three scan finds a run on `b`. */
  ghost predicate NoRunOfThree(b: seq<Token>)
    requires |b| == Size
  {
    (forall i: nat :: !Qualifies(Column(3, 47), b, i)) &&
    (forall i: nat :: !Qualifies(Row(3), b, i))
  }

  /** A board is settled when it has no blank and no run of three. */
  ghost predicate Settled(b: seq<Token>)
    requires |b| == Size
  {
    NoBlank(b) && NoRunOfThree(b)
  }

  /** On a board with no run of three, no scan of three, four or five cells finds a run. */
  lemma NoLongerRunWithoutRunOfThree(t: Tier, b: seq<Token>)
    requires |b| == Size && ValidTier(t) && t.n >= 3
    requires t.Column? ==> t.last <= 47
    requires NoRunOfThree(b)
    ensures TierStart(t, b).None?
  {
    forall i: nat ensures !Qualifies(t, b, i) {
      if Qualifies(t, b, i) {
        LongerRunHasRunOfThree(t, b, i);
      }
    }
    TierCheckNoMatch(t, b, 0);
  }

  /** On a board with no run of three the six checks change nothing and all report false. */
  lemma SixChecksIdle(b: seq<Token>, score: int)
    requires |b| == Size && NoRunOfThree(b)
    ensures SixChecks(b, score) == Checked(b, score, [false, false, false, false, false, false])
  {
    NoLongerRunWithoutRunOfThree(Column(5, 31), b);
    NoLongerRunWithoutRunOfThree(Row(5), b);
    NoLongerRunWithoutRunOfThree(Column(4, 39), b);
    NoLongerRunWithoutRunOfThree(Row(4), b);
    NoLongerRunWithoutRunOfThree(Column(3, 47), b);
    NoLongerRunWithoutRunOfThree(Row(3), b);
  }

  /** The board after the cells `d` and `r` trade tokens (src/App.js:100-101). */
  function Swapped(b: seq<Token>, d: nat, r: nat): (s: seq<Token>)
    requires d < |b| && r < |b|
    ensures |s| == |b| && s[d] == b[r] && s[r] == b[d]
    ensures forall j :: 0 <= j < |b| && j != d && j != r ==> s[j] == b[j]
  {
    b[r := b[d]][d := b[r]]
  }

  /** A swap keeps the multiset of tokens on the board. */
  lemma SwapKeepsTokens(b: seq<Token>, d: nat, r: nat)
    requires d < |b| && r < |b|
    ensures multiset(Swapped(b, d, r)) == multiset(b)
  {
    var b1 := b[r := b[d]];
    UpdateTokens(b, r, b[d]);
    UpdateTokens(b1, d, b[r]);
  }

  /** The drop target is one step left, up, right or down by index arithmetic
      only, with no row-edge test, so 7 and 8 count as neighbours. */
  predicate Adjacent(d: int, r: int): (a: bool)
    ensures a <==> (d - r == 1 || r - d == 1 || d - r == Width || r - d == Width)
  {
    r in [d - 1, d - Width, d + 1, d + Width]
  }

  /** Board, score, notification and verdict after one swap turn. */
  datatype TurnResult = TurnResult(cells: seq<Token>, score: int, notification: string, accepted: bool)

  /** One swap turn on cells `d` (dragged) and `r` (replaced): swap, run all six checks,
      then keep the result when `r` is truthy (not 0), adjacent to `d` and some check
      matched; otherwise write the two pre-swap tokens back into `r` and `d` and keep the
      rest of what the checks did. */
  function Turn(b: seq<Token>, score: int, note: string, d: nat, r: nat): (t: TurnResult)
    requires |b| == Size && d < Size && r < Size
    ensures |t.cells| == Size
    ensures t.score >= score
    ensures t.accepted ==> r != 0 && Adjacent(d, r)
  {
    var c := SixChecks(Swapped(b, d, r), score);
    var accepted := r != 0 && Adjacent(d, r) && true in c.matched;
    var cells := if accepted then c.cells else c.cells[r := b[r]][d := b[d]];
    var note' := if accepted && (c.matched[0] || c.matched[1]) then GoodJob else note;
    TurnResult(cells, c.score, note', accepted)
  }

  /** Unfolding step for `App.Game.DragEnd`: the turn spelled out part by part, so that
      the method's outcome, stated through the six checks, can be matched to `Turn`. */
  lemma TurnParts(b: seq<Token>, score: int, note: string, d: nat, r: nat)
    requires |b| == Size && d < Size && r < Size
    ensures var c := SixChecks(Swapped(b, d, r), score);
            var accepted := r != 0 && Adjacent(d, r) && true in c.matched;
            Turn(b, score, note, d, r) == TurnResult(
              if accepted then c.cells else c.cells[r := b[r]][d := b[d]],
              c.score,
              if accepted && (c.matched[0] || c.matched[1]) then GoodJob else note,
              accepted)
  {
  }

  /** All six checks run whatever the verdict; a rejected turn restores only cells `d`
      and `r` and keeps every other blank and every point the checks produced. */
  lemma RejectedTurnKeepsChecks(b: seq<Token>, score: int, note: string, d: nat, r: nat)
    requires |b| == Size && d < Size && r < Size
    ensures var t := Turn(b, score, note, d, r);
            var c := SixChecks(Swapped(b, d, r), score);
            t.score == c.score &&
            (!t.accepted ==>
              t.cells[d] == b[d] && t.cells[r] == b[r] && t.notification == note &&
              forall j :: 0 <= j < Size && j != d && j != r ==> t.cells[j] == c.cells[j])
  {
    var c := SixChecks(Swapped(b, d, r), score);
    var t := Turn(b, score, note, d, r);
    assert t.score == c.score;
    if !t.accepted {
      assert t.cells == c.cells[r := b[r]][d := b[d]];
    }
  }

  /** A turn is accepted exactly when the target is not cell 0, is adjacent, and some
      check matched; it says "Good job!" exactly when accepted with a five matched. */
  lemma TurnVerdict(b: seq<Token>, score: int, note: string, d: nat, r: nat)
    requires |b| == Size && d < Size && r < Size
    ensures var t := Turn(b, score, note, d, r);
            var c := SixChecks(Swapped(b, d, r), score);
            (t.accepted <==> r != 0 && Adjacent(d, r) && t.score > score) &&
            (t.notification == GoodJob <==>
              (t.accepted && (c.matched[0] || c.matched[1])) || note == GoodJob)
  {
  }

  /** Writing the two pre-swap tokens back undoes the swap. */
  lemma RestoringUndoesSwap(b: seq<Token>, d: nat, r: nat)
    requires d < |b| && r < |b|
    ensures Swapped(b, d, r)[r := b[r]][d := b[d]] == b
  {
  }

  /** Cells 7 and 8 lie on different rows yet count as neighbours: a swap between them
      that lets some check match is accepted. */
  lemma RowEdgeSwapAccepted(b: seq<Token>, score: int, note: string)
    requires |b| == Size
    requires true in SixChecks(Swapped(b, 7, 8), score).matched
    ensures 7 / Width != 8 / Width
    ensures Turn(b, score, note, 7, 8).accepted
  {
    assert Adjacent(7, 8);
    TurnParts(b, score, note, 7, 8);
  }

  /** A swap that makes no run of three is fully undone: board, score and notification
      are as before and the turn is rejected. */
  lemma SwapWithoutRunReverts(b: seq<Token>, score: int, note: string, d: nat, r: nat)
    requires |b| == Size && d < Size && r < Size
    requires NoRunOfThree(Swapped(b, d, r))
    ensures Turn(b, score, note, d, r) == TurnResult(b, score, note, false)
  {
    var sw := Swapped(b, d, r);
    SixChecksIdle(sw, score);
    RestoringUndoesSwap(b, d, r);
    var c := SixChecks(sw, score);
    assert true !in c.matched;
  }

  /** Board and score after one tick. */
  datatype Snapshot = Snapshot(cells: seq<Token>, score: int)

  /** One tick: the six checks, then one gravity pass. */
  function Tick(b: seq<Token>, score: int, refill: seq<Colour>): (t: Snapshot)
    requires |b| == Size && |refill| == Width
    ensures |t.cells| == Size && t.score >= score
  {
    var c := SixChecks(b, score);
    Snapshot(GravityPass(c.cells, refill), c.score)
  }

  /** A tick on a settled board changes neither the board nor the score. */
  lemma SettledTickIsIdle(b: seq<Token>, score: int, refill: seq<Colour>)
    requires |b| == Size && |refill| == Width
    requires Settled(b)
    ensures Tick(b, score, refill) == Snapshot(b, score)
  {
    SixChecksIdle(b, score);
    GravityIdle(b, refill, PassLimit);
  }
}
