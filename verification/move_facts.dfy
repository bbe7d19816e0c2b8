/** Properties of one player move: what input is recognised, that a legal
    move keeps the board valid, and that a move can be undone at once. */
module MoveFacts {
  import opened Board
  import opened Moves

  // ---------------------------------------------------------------------
  // Input recognition
  // ---------------------------------------------------------------------

  lemma {:induction false} StripLeftPadded(w: string, s: string)
    requires AllSpace(w)
    ensures StripLeft(w + s) == StripLeft(s)
    decreases |w|
  {
    if |w| > 0 {
      assert IsSpace((w + s)[0]);
      assert StripLeft(w + s) == StripLeft((w + s)[1..]);
      assert (w + s)[1..] == w[1..] + s;
      StripLeftPadded(w[1..], s);
    } else {
      assert w + s == s;
    }
  }

  lemma {:induction false} StripRightPadded(s: string, w: string)
    requires AllSpace(w)
    ensures StripRight(s + w) == StripRight(s)
    decreases |w|
  {
    if |w| > 0 {
      assert (s + w)[|s + w| - 1] == w[|w| - 1];
      assert (s + w)[..|s + w| - 1] == s + w[..|w| - 1];
      StripRightPadded(s, w[..|w| - 1]);
    } else {
      assert s + w == s;
    }
  }

  /** Stripping the left of `s + w` only reaches into `w` when `s` is blank. */
  lemma {:induction false} StripLeftAppend(s: string, w: string)
    requires AllSpace(w)
    ensures AllSpace(s) ==> StripLeft(s + w) == [] && StripLeft(s) == []
    ensures !AllSpace(s) ==> StripLeft(s + w) == StripLeft(s) + w
    decreases |s|
  {
    if |s| == 0 {
      assert s + w == w + [];
      StripLeftPadded(w, []);
    } else if IsSpace(s[0]) {
      assert (s + w)[0] == s[0];
      assert (s + w)[1..] == s[1..] + w;
      StripLeftAppend(s[1..], w);
      assert AllSpace(s) <==> AllSpace(s[1..]);
    } else {
      assert (s + w)[0] == s[0];
    }
  }

  /** Whitespace around the input does not change what it denotes. */
  lemma StripPadded(w1: string, s: string, w2: string)
    requires AllSpace(w1) && AllSpace(w2)
    ensures Strip(w1 + s + w2) == Strip(s)
  {
    assert w1 + s + w2 == w1 + (s + w2);
    StripLeftPadded(w1, s + w2);
    StripLeftAppend(s, w2);
    if !AllSpace(s) {
      StripRightPadded(StripLeft(s), w2);
    }
  }

  lemma UpperAppend(x: string, y: string)
    ensures Upper(x + y) == Upper(x) + Upper(y)
  {
    UpperAt(x + y);
    UpperAt(x);
    UpperAt(y);
    assert forall i :: 0 <= i < |x + y| ==> Upper(x + y)[i] == (Upper(x) + Upper(y))[i];
  }

  lemma UpperKeepsSpace(w: string)
    requires AllSpace(w)
    ensures Upper(w) == w
  {
    UpperAt(w);
  }

  /** A command is recognised regardless of surrounding whitespace. */
  lemma ParsePadded(w1: string, line: string, w2: string)
    requires AllSpace(w1) && AllSpace(w2)
    ensures ParseMove(w1 + line + w2) == ParseMove(line)
  {
    UpperAppend(w1 + line, w2);
    UpperAppend(w1, line);
    UpperKeepsSpace(w1);
    UpperKeepsSpace(w2);
    StripPadded(w1, Upper(line), w2);
  }

  /** Upper-casing the input first does not change what it denotes. */
  lemma ParseCaseInsensitive(line: string)
    ensures ParseMove(Upper(line)) == ParseMove(line)
  {
    UpperAt(line);
    UpperAt(Upper(line));
    assert Upper(Upper(line)) == Upper(line);
  }

  /** The six move tokens are exactly the ordered pairs of distinct pegs:
      every such pair, written as two letters, is recognised as that move. */
  lemma {:induction false} ParseMoveComplete(line: string, x: Peg, y: Peg)
    requires x != y
    requires Normalize(line) == [Letter(x), Letter(y)]
    ensures ParseMove(line) == Move(x, y)
  {
    var u := Normalize(line);
    assert u in ValidMoves by {
      match (x, y)
      case (A, B) => assert u == ValidMoves[0];
      case (B, A) => assert u == ValidMoves[1];
      case (A, C) => assert u == ValidMoves[2];
      case (C, A) => assert u == ValidMoves[3];
      case (B, C) => assert u == ValidMoves[4];
      case (C, B) => assert u == ValidMoves[5];
    }
    var r := ParseMove(line);
    LetterInjective(r.from, x);
    LetterInjective(r.to, y);
  }

  /** A line naming two distinct pegs plays exactly that move. */
  lemma PlayerMoveSteps(t: Towers, line: string, x: Peg, y: Peg)
    requires x != y
    requires Normalize(line) == [Letter(x), Letter(y)]
    ensures PlayerMove(t, line) == Step(t, x, y)
  {
    ParseMoveComplete(line, x, y);
  }

  // ---------------------------------------------------------------------
  // Legal moves keep the board valid
  // ---------------------------------------------------------------------

  lemma PrefixDecreasing(s: seq<int>, k: nat)
    requires StrictlyDecreasing(s) && k <= |s|
    ensures StrictlyDecreasing(s[..k])
  {
  }

  lemma PushDecreasing(s: seq<int>, d: int)
    requires StrictlyDecreasing(s)
    requires |s| > 0 ==> Top(s) > d
    ensures StrictlyDecreasing(s + [d])
  {
    var s' := s + [d];
    forall i, j | 0 <= i < j < |s'|
      ensures s'[i] > s'[j]
    {
      if j == |s| {
        assert s[i] >= Top(s);
      }
    }
  }

  /** On a valid board two different pegs never hold a disk of the same size. */
  lemma DistinctTops(t: Towers, n: nat, x: Peg, y: Peg)
    requires Valid(t, n) && x != y
    requires |t.Get(x)| > 0 && |t.Get(y)| > 0
    ensures Top(t.Get(x)) != Top(t.Get(y))
  {
    ContentsByPegs(t, x, y);
    var dx, dy := Top(t.Get(x)), Top(t.Get(y));
    assert dx in multiset(t.Get(x));
    assert dy in multiset(t.Get(y));
    assert t.Contents()[dx] <= 1;
  }

  /** Moving the top of `from` onto an empty peg or a larger top keeps every
      peg strictly decreasing. */
  lemma MoveTopDecreasing(t: Towers, from: Peg, to: Peg)
    requires from != to && |t.Get(from)| > 0
    requires forall p :: StrictlyDecreasing(t.Get(p))
    requires |t.Get(to)| > 0 ==> Top(t.Get(to)) > Top(t.Get(from))
    ensures forall p :: StrictlyDecreasing(MoveTop(t, from, to).Get(p))
  {
    var r := MoveTop(t, from, to);
    var src := t.Get(from);
    PrefixDecreasing(src, |src| - 1);
    assert r.Get(from) == src[..|src| - 1];
    PushDecreasing(t.Get(to), Top(src));
    forall p ensures StrictlyDecreasing(r.Get(p)) {
      if p != from && p != to {
        assert p == Third(from, to);
      }
    }
  }

  /** A legal move turns a valid board into a valid board. */
  lemma {:induction false} StepPreservesValid(t: Towers, n: nat, from: Peg, to: Peg)
    requires Valid(t, n)
    ensures Step(t, from, to).Moved? ==> Valid(Step(t, from, to).next, n)
  {
    if Step(t, from, to).Moved? && from != to {
      if |t.Get(to)| > 0 {
        DistinctTops(t, n, from, to);
      }
      MoveTopDecreasing(t, from, to);
    }
  }

  /** An input line never leaves a valid board invalid. */
  lemma PlayerMovePreservesValid(t: Towers, n: nat, line: string)
    requires Valid(t, n)
    ensures PlayerMove(t, line).Moved? ==> Valid(PlayerMove(t, line).next, n)
  {
    var m := ParseMove(line);
    if m.Move? {
      StepPreservesValid(t, n, m.from, m.to);
    }
  }

  // ---------------------------------------------------------------------
  // Undoing a move
  // ---------------------------------------------------------------------

  /** On a valid board, a legal move from `x` to `y` can be reversed at once
      by the move from `y` to `x`, which restores the board exactly. */
  lemma {:induction false} StepUndo(t: Towers, n: nat, x: Peg, y: Peg)
    requires Valid(t, n) && x != y
    ensures Step(t, x, y).Moved? ==> Step(Step(t, x, y).next, y, x) == Moved(t)
  {
    if Step(t, x, y).Moved? {
      UndoAccepted(t, x, y);
      UndoRestores(t, x, y);
    }
  }

  /** The disk just moved is the smallest on both pegs involved, so moving
      it back is legal. */
  lemma UndoAccepted(t: Towers, x: Peg, y: Peg)
    requires x != y && |t.Get(x)| > 0 && StrictlyDecreasing(t.Get(x))
    ensures Step(MoveTop(t, x, y), y, x).Moved?
  {
    var src := t.Get(x);
    var r := MoveTop(t, x, y);
    assert r.Get(y) == t.Get(y) + [Top(src)];
    if |r.Get(x)| > 0 {
      assert r.Get(x) == src[..|src| - 1];
      assert Top(r.Get(x)) == src[|src| - 2];
    }
  }

  /** Popping a disk and pushing it back is the identity. */
  lemma UndoRestores(t: Towers, x: Peg, y: Peg)
    requires x != y && |t.Get(x)| > 0
    ensures MoveTop(MoveTop(t, x, y), y, x) == t
  {
    var src, dst := t.Get(x), t.Get(y);
    var d := Top(src);
    var r := MoveTop(t, x, y);
    assert r.Get(y) == dst + [d];
    var back := MoveTop(r, y, x);
    assert back.Get(y) + [d] == dst + [d];
    assert back.Get(y) == (back.Get(y) + [d])[..|dst|];
    assert Third(x, y) == Third(y, x);
    TowersEqual(back, t);
  }
}
