/** Gravity: one call of `moveIntoSquareBelow` (src/App.js:75-90), stated as the
    left fold of its loop body over the starts 0..54. A step refills a blank top-row
    cell with a palette colour, then moves the cell's token into the cell below when
    that one is blank. */
module Gravity {
  import opened Grid

  /** The loop bound `i < 55`: one short of the 56 cells that have a cell below. */
  const PassLimit: nat := 55

  /** The loop body for start `i`; `refill[i]` is the colour the random draw yields for
      top-row cell `i`. */
  function DropStep(s: seq<Token>, refill: seq<Colour>, i: nat): (t: seq<Token>)
    requires |s| == Size && |refill| == Width && i < PassLimit
    ensures |t| == Size
    ensures forall j :: 0 <= j < Size && j != i && j != i + Width ==> t[j] == s[j]
  {
    var s1 := if i < Width && s[i] == Blank then s[i := refill[i]] else s;
    if s1[i + Width] == Blank then s1[i + Width := s1[i]][i := Blank] else s1
  }

  /** Step `i` fills cell `i + 8` only when it was blank, with the token cell `i` holds
      then; cell `i` ends blank, or holds a drawn colour only when it is a top-row cell
      that was blank and nothing moved out of it. */
  lemma DropStepWrites(s: seq<Token>, refill: seq<Colour>, i: nat)
    requires |s| == Size && |refill| == Width && i < PassLimit
    ensures var t := DropStep(s, refill, i);
            (t[i + Width] != s[i + Width] ==>
               s[i + Width] == Blank && t[i] == Blank &&
               t[i + Width] == (if i < Width && s[i] == Blank then refill[i] else s[i])) &&
            (t[i] != s[i] ==> t[i] == Blank || (i < Width && s[i] == Blank && t[i] == refill[i]))
  {
  }

  /** The board after the first `k` iterations of the pass. */
  function GravitySteps(b: seq<Token>, refill: seq<Colour>, k: nat): (r: seq<Token>)
    requires |b| == Size && |refill| == Width && k <= PassLimit
    ensures |r| == Size
  {
    if k == 0 then b else DropStep(GravitySteps(b, refill, k - 1), refill, k - 1)
  }

  /** The board after one whole pass. */
  function GravityPass(b: seq<Token>, refill: seq<Colour>): (r: seq<Token>)
    requires |b| == Size && |refill| == Width
    ensures |r| == Size
    ensures NoBlank(b) ==> r == b
  {
    var r := GravitySteps(b, refill, PassLimit);
    if NoBlank(b) then GravityIdle(b, refill, PassLimit); r else r
  }

  /** The colours the first `k` iterations draw: one for each top-row start that is
      blank when visited. */
  function NewTokens(b: seq<Token>, refill: seq<Colour>, k: nat): multiset<Token>
    requires |b| == Size && |refill| == Width && k <= PassLimit
  {
    if k == 0 then multiset{}
    else
      var i := k - 1;
      NewTokens(b, refill, i) +
      if i < Width && GravitySteps(b, refill, i)[i] == Blank then multiset{refill[i]} else multiset{}
  }

  /** `m` copies of `Blank`. */
  function Blanks(m: nat): multiset<Token>
  {
    multiset{}[Blank := m]
  }

  function Min(x: nat, y: nat): nat
  {
    if x <= y then x else y
  }

  /** Overwriting one cell trades its old token for the new one. */
  lemma UpdateTokens(s: seq<Token>, i: nat, v: Token)
    requires i < |s|
    ensures multiset(s[i := v]) + multiset{s[i]} == multiset(s) + multiset{v}
  {
    assert s == s[..i] + [s[i]] + s[i + 1..];
    assert s[i := v] == s[..i] + [v] + s[i + 1..];
  }

  /** Moving a token into a blank cell and blanking its old cell keeps the multiset. */
  lemma MoveIntoBlankKeepsTokens(s: seq<Token>, i: nat, j: nat)
    requires i < |s| && j < |s| && i != j && s[j] == Blank
    ensures multiset(s[j := s[i]][i := Blank]) == multiset(s)
  {
    var s1 := s[j := s[i]];
    UpdateTokens(s, j, s[i]);
    UpdateTokens(s1, i, Blank);
  }

  /** One step either keeps the multiset of tokens (a move is an exchange with a blank)
      or also turns one blank into the drawn colour. */
  lemma DropStepTokens(s: seq<Token>, refill: seq<Colour>, i: nat)
    requires |s| == Size && |refill| == Width && i < PassLimit
    ensures i < Width && s[i] == Blank ==>
      multiset(DropStep(s, refill, i)) + multiset{Blank} == multiset(s) + multiset{refill[i]}
    ensures !(i < Width && s[i] == Blank) ==> multiset(DropStep(s, refill, i)) == multiset(s)
  {
    var s1 := if i < Width && s[i] == Blank then s[i := refill[i]] else s;
    if i < Width && s[i] == Blank {
      UpdateTokens(s, i, refill[i]);
    }
    if s1[i + Width] == Blank {
      MoveIntoBlankKeepsTokens(s1, i, i + Width);
      assert DropStep(s, refill, i) == s1[i + Width := s1[i]][i := Blank];
    } else {
      assert DropStep(s, refill, i) == s1;
    }
  }

  /** Every colour a pass draws comes from a distinct top-row start, so the draws of the
      first `k` iterations are among the first min(k, 8) refill colours, and none is blank. */
  lemma {:induction false} NewTokensDrawn(b: seq<Token>, refill: seq<Colour>, k: nat)
    requires |b| == Size && |refill| == Width && k <= PassLimit
    ensures NewTokens(b, refill, k) <= multiset(refill[..Min(k, Width)])
    ensures Blank !in NewTokens(b, refill, k)
  {
    if k > 0 {
      var i := k - 1;
      NewTokensDrawn(b, refill, i);
      if i < Width {
        assert refill[..Min(k, Width)] == refill[..Min(i, Width)] + [refill[i]];
      } else {
        assert NewTokens(b, refill, k) == NewTokens(b, refill, i);
      }
    }
  }

  /** Bookkeeping of one drawing step: if the board before the step balances against the
      draws so far, the board after it balances against them plus the new draw. */
  lemma BalanceAfterDraw(after: multiset<Token>, before: multiset<Token>, m: nat,
                         start: multiset<Token>, drawn: multiset<Token>, c: Token)
    requires before + Blanks(m) == start + drawn
    requires after + multiset{Blank} == before + multiset{c}
    ensures after + Blanks(m + 1) == start + (drawn + multiset{c})
  {
    assert Blanks(m + 1) == Blanks(m) + multiset{Blank};
    calc {
      after + Blanks(m + 1);
      (after + multiset{Blank}) + Blanks(m);
      (before + multiset{c}) + Blanks(m);
      (before + Blanks(m)) + multiset{c};
    }
  }

  /** A pass only adds tokens by turning blanks into drawn colours: the board's tokens
      plus one blank per draw are the old tokens plus the drawn colours. */
  lemma {:induction false} GravityConservesTokens(b: seq<Token>, refill: seq<Colour>, k: nat)
    requires |b| == Size && |refill| == Width && k <= PassLimit
    ensures multiset(GravitySteps(b, refill, k)) + Blanks(|NewTokens(b, refill, k)|)
         == multiset(b) + NewTokens(b, refill, k)
  {
    if k > 0 {
      var i := k - 1;
      GravityConservesTokens(b, refill, i);
      var s := GravitySteps(b, refill, i);
      var drawn := NewTokens(b, refill, i);
      DropStepTokens(s, refill, i);
      assert GravitySteps(b, refill, k) == DropStep(s, refill, i);
      if i < Width && s[i] == Blank {
        assert NewTokens(b, refill, k) == drawn + multiset{refill[i]};
        BalanceAfterDraw(multiset(DropStep(s, refill, i)), multiset(s), |drawn|,
                         multiset(b), drawn, refill[i]);
      } else {
        assert NewTokens(b, refill, k) == drawn;
      }
    }
  }

  /** A pass never adds blank cells, so never lowers the number of tokens on the board. */
  lemma GravityNeverAddsBlanks(b: seq<Token>, refill: seq<Colour>)
    requires |b| == Size && |refill| == Width
    ensures BlankCount(GravityPass(b, refill)) <= BlankCount(b)
  {
    GravityConservesTokens(b, refill, PassLimit);
    NewTokensDrawn(b, refill, PassLimit);
    var n := NewTokens(b, refill, PassLimit);
    assert (multiset(GravityPass(b, refill)) + Blanks(|n|))[Blank] == (multiset(b) + n)[Blank];
  }

  /** On a board without blanks no step refills or moves anything. */
  lemma {:induction false} GravityIdle(b: seq<Token>, refill: seq<Colour>, k: nat)
    requires |b| == Size && |refill| == Width && k <= PassLimit
    requires NoBlank(b)
    ensures GravitySteps(b, refill, k) == b
  {
    if k > 0 {
      GravityIdle(b, refill, k - 1);
    }
  }

  /** Steps k1..k2-1 neither start at cell `j` nor write into it from above. */
  lemma {:induction false} UntouchedBetween(b: seq<Token>, refill: seq<Colour>, k1: nat, k2: nat, j: int)
    requires |b| == Size && |refill| == Width && k1 <= k2 <= PassLimit && 0 <= j < Size
    requires j < k1 || k2 <= j
    requires j < k1 + Width || k2 + Width <= j
    ensures GravitySteps(b, refill, k2)[j] == GravitySteps(b, refill, k1)[j]
    decreases k2
  {
    if k1 < k2 {
      UntouchedBetween(b, refill, k1, k2 - 1, j);
    }
  }

  /** The bottom row only takes tokens into cells that were blank, and cell 63 is never
      written: the token of cell 55 is never moved down. */
  lemma BottomRowOnlyFillsBlanks(b: seq<Token>, refill: seq<Colour>, j: nat)
    requires |b| == Size && |refill| == Width && Size - Width <= j < Size
    ensures GravityPass(b, refill)[j] != b[j] ==> b[j] == Blank && j != Size - 1
  {
    if j == Size - 1 {
      UntouchedBetween(b, refill, 0, PassLimit, j);
    } else {
      var i := j - Width;
      UntouchedBetween(b, refill, 0, i, j);
      UntouchedBetween(b, refill, i + 1, PassLimit, j);
    }
  }

  /** A token can fall several rows in one pass, because the cell it falls into is
      visited again eight iterations later: a token above two blanks, when its start
      is visited, lands two rows down. */
  lemma TokenFallsTwoRows(b: seq<Token>, refill: seq<Colour>, i: nat)
    requires |b| == Size && |refill| == Width && i + Width < PassLimit
    requires GravitySteps(b, refill, i)[i] != Blank
    requires GravitySteps(b, refill, i)[i + Width] == Blank
    requires GravitySteps(b, refill, i)[i + 2 * Width] == Blank
    ensures GravitySteps(b, refill, i + Width + 1)[i + 2 * Width] == GravitySteps(b, refill, i)[i]
    ensures GravitySteps(b, refill, i + Width + 1)[i] == Blank
  {
    UntouchedBetween(b, refill, i + 1, i + Width, i + Width);
    UntouchedBetween(b, refill, i + 1, i + Width, i + 2 * Width);
    UntouchedBetween(b, refill, i + 1, i + Width + 1, i);
  }
}
