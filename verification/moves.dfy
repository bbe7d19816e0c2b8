/** One player move: normalise the input line, recognise the quit keyword
    or one of the six peg-pair tokens, check the move against the rules
    and, if it is legal, move the top disk. */
module Moves {
  import opened Board

  // ---------------------------------------------------------------------
  // Normalising the input line
  //
  // Python's `str.upper()` and `str.strip()` are Unicode-aware; this model
  // works on ASCII only: `a`..`z` are upper-cased and every other character
  // is kept, and the characters stripped are those below 128 for which
  // Python's `str.isspace()` holds (codes 9 to 13 and 28 to 32).
  // ---------------------------------------------------------------------

  /** ASCII whitespace in the sense of Python's `str.isspace()`. */
  predicate IsSpace(ch: char)
  {
    9 <= ch as int <= 13 || 28 <= ch as int <= 32
  }

  predicate AllSpace(s: string)
  {
    forall i :: 0 <= i < |s| ==> IsSpace(s[i])
  }

  /** ASCII upper-casing of one character. */
  function UpperChar(ch: char): (r: char)
    ensures 'a' <= ch <= 'z' ==> r as int == ch as int - 32
    ensures !('a' <= ch <= 'z') ==> r == ch
  {
    if 'a' <= ch <= 'z' then (ch as int - 32) as char else ch
  }

  /** ASCII upper-casing of a string, character by character. */
  function Upper(s: string): (r: string)
    ensures |r| == |s|
  {
    if |s| == 0 then [] else [UpperChar(s[0])] + Upper(s[1..])
  }

  /** Upper-casing works character by character. */
  lemma {:induction false} UpperAt(s: string)
    ensures forall i :: 0 <= i < |s| ==> Upper(s)[i] == UpperChar(s[i])
  {
    if |s| > 0 {
      UpperAt(s[1..]);
    }
  }

  /** `s` without its leading whitespace. */
  function StripLeft(s: string): (r: string)
    ensures |r| <= |s|
    ensures |r| > 0 ==> !IsSpace(r[0])
  {
    if |s| > 0 && IsSpace(s[0]) then StripLeft(s[1..]) else s
  }

  /** `s` without its trailing whitespace. */
  function StripRight(s: string): (r: string)
    ensures |r| <= |s|
    ensures |r| > 0 ==> !IsSpace(r[|r| - 1])
  {
    if |s| > 0 && IsSpace(s[|s| - 1]) then StripRight(s[..|s| - 1]) else s
  }

  /** Stripping the left removes a blank prefix and keeps the rest. */
  lemma {:induction false} StripLeftSuffix(s: string)
    ensures var k := |s| - |StripLeft(s)|;
            StripLeft(s) == s[k..] && AllSpace(s[..k])
  {
    if |s| > 0 && IsSpace(s[0]) {
      StripLeftSuffix(s[1..]);
      var k := |s| - |StripLeft(s)|;
      assert s[1..][k - 1..] == s[k..];
      assert s[..k] == [s[0]] + s[1..][..k - 1];
    }
  }

  /** Stripping the right removes a blank suffix and keeps the rest. */
  lemma {:induction false} StripRightPrefix(s: string)
    ensures var m := |StripRight(s)|;
            StripRight(s) == s[..m] && AllSpace(s[m..])
  {
    if |s| > 0 && IsSpace(s[|s| - 1]) {
      var s' := s[..|s| - 1];
      StripRightPrefix(s');
      var m := |StripRight(s)|;
      assert s'[..m] == s[..m];
      assert s[m..] == s'[m..] + [s[|s| - 1]];
    }
  }

  /** Python's `str.strip()` on ASCII whitespace. */
  function Strip(s: string): (r: string)
    ensures |r| > 0 ==> !IsSpace(r[0]) && !IsSpace(r[|r| - 1])
  {
    var left := StripLeft(s);
    StripRightPrefix(left);
    StripRight(left)
  }

  /** Cutting the suffix `s[i..]` at `m` cuts `s` at `i + m`. */
  lemma SplitSuffix(s: string, i: nat, m: nat)
    requires i + m <= |s|
    ensures s[i..][..m] == s[i..i + m] && s[i..][m..] == s[i + m..]
  {
  }

  /** `strip()` removes exactly the surrounding whitespace: the result is a
      contiguous piece of `s` with only whitespace before and after it. */
  lemma StripSlice(s: string)
    ensures exists i, j :: 0 <= i <= j <= |s| && Strip(s) == s[i..j] && AllSpace(s[..i]) && AllSpace(s[j..])
  {
    var left := StripLeft(s);
    var i := |s| - |left|;
    StripLeftSuffix(s);
    StripRightPrefix(left);
    var m := |StripRight(left)|;
    var j := i + m;
    assert left == s[i..];
    SplitSuffix(s, i, m);
    assert Strip(s) == s[i..j];
  }

  /** Text without whitespace at either end is left as it is by `strip()`. */
  lemma StripUnpadded(s: string)
    requires |s| > 0 ==> !IsSpace(s[0]) && !IsSpace(s[|s| - 1])
    ensures Strip(s) == s
  {
    assert StripLeft(s) == s;
    assert StripRight(s) == s;
  }

  /** The input as the game compares it: `line.upper().strip()`. */
  function Normalize(line: string): (r: string)
    ensures |r| <= |line|
    ensures |r| > 0 ==> !IsSpace(r[0]) && !IsSpace(r[|r| - 1])
  {
    Strip(Upper(line))
  }

  // ---------------------------------------------------------------------
  // Recognising the command
  // ---------------------------------------------------------------------

  /** The keyword that ends the game. */
  const QuitKeyword := "QUIT"

  /** Whether the line, normalised, is the quit keyword. */
  predicate IsQuit(line: string)
  {
    Normalize(line) == QuitKeyword
  }

  /** The only accepted move tokens: source letter, then destination letter. */
  const ValidMoves: seq<string> := ["AB", "BA", "AC", "CA", "BC", "CB"]

  /** Each accepted token names two distinct pegs by their letters. */
  lemma ValidMoveLetters(u: string)
    requires u in ValidMoves
    ensures |u| == 2 && u[0] in "ABC" && u[1] in "ABC" && u[0] != u[1]
  {
    var k :| 0 <= k < |ValidMoves| && ValidMoves[k] == u;
    assert k == 0 || k == 1 || k == 2 || k == 3 || k == 4 || k == 5;
  }

  /** What one input line asks for. */
  datatype Command = Quit | Move(from: Peg, to: Peg) | BadToken

  /** The command a normalised input line denotes. */
  function ParseToken(u: string): (r: Command)
    ensures r.Quit? <==> u == QuitKeyword
    ensures r.Move? <==> u in ValidMoves
    ensures r.Move? ==> r.from != r.to && u == [Letter(r.from), Letter(r.to)]
  {
    if u == QuitKeyword then Quit
    else if u !in ValidMoves then BadToken
    else
      ValidMoveLetters(u);
      var x, y := PegNamed(u[0]), PegNamed(u[1]);
      assert u == [Letter(x), Letter(y)];
      Move(x, y)
  }

  /** The command a raw input line denotes: upper-cased and stripped, it
      must be the quit keyword or one of the six move tokens. */
  function ParseMove(line: string): (r: Command)
    ensures r.Quit? <==> IsQuit(line)
    ensures r.Move? <==> Normalize(line) in ValidMoves
    ensures r.Move? ==> r.from != r.to && Normalize(line) == [Letter(r.from), Letter(r.to)]
  {
    ParseToken(Normalize(line))
  }

  // ---------------------------------------------------------------------
  // Checking and applying a move
  // ---------------------------------------------------------------------

  /** Why an input line did not move a disk. */
  datatype Rejection = InvalidToken | EmptySource | OntoSmaller

  /** The result of one input line. A quit or a rejection carries no board:
      the game keeps the one it had, untouched. */
  datatype Outcome = Quitting | Rejected(why: Rejection) | Moved(next: Towers)

  /** The board after taking the top disk off `from` and appending it to
      `to`, in that order; with `from == to` the board comes back as it was. */
  function MoveTop(t: Towers, from: Peg, to: Peg): (r: Towers)
    requires |t.Get(from)| > 0
    ensures from != to ==>
              && r.Get(from) + [Top(t.Get(from))] == t.Get(from)
              && r.Get(to) == t.Get(to) + [Top(t.Get(from))]
              && r.Get(Third(from, to)) == t.Get(Third(from, to))
    ensures from == to ==> r == t
  {
    var src := t.Get(from);
    var popped := t.Set(from, src[..|src| - 1]);
    assert src == src[..|src| - 1] + [Top(src)];
    popped.Set(to, popped.Get(to) + [Top(src)])
  }

  /** Taking `d` out of one of three parts and adding it to another keeps
      their sum. */
  lemma ShiftOne(x: multiset<int>, x': multiset<int>, y: multiset<int>, y': multiset<int>, z: multiset<int>, d: int)
    requires x == x' + multiset{d} && y' == y + multiset{d}
    ensures x + y + z == x' + y' + z
  {
  }

  /** Moving a disk neither creates nor destroys one. */
  lemma MoveTopKeepsContents(t: Towers, from: Peg, to: Peg)
    requires |t.Get(from)| > 0
    ensures MoveTop(t, from, to).Contents() == t.Contents()
  {
    if from != to {
      var r := MoveTop(t, from, to);
      var src, d := t.Get(from), Top(t.Get(from));
      assert multiset(src) == multiset(r.Get(from)) + multiset{d} by {
        assert src == r.Get(from) + [d];
      }
      assert multiset(r.Get(to)) == multiset(t.Get(to)) + multiset{d};
      ContentsByPegs(t, from, to);
      ContentsByPegs(r, from, to);
      var other := Third(from, to);
      ShiftOne(multiset(src), multiset(r.Get(from)), multiset(t.Get(to)), multiset(r.Get(to)), multiset(t.Get(other)), d);
    }
  }

  /** Moving a disk keeps the number of disks on the board. */
  lemma MoveTopKeepsCount(t: Towers, from: Peg, to: Peg)
    requires |t.Get(from)| > 0
    ensures MoveTop(t, from, to).Count() == t.Count()
  {
    if from != to {
      var r := MoveTop(t, from, to);
      assert |r.Get(from)| + 1 == |t.Get(from)|;
      assert |r.Get(to)| == |t.Get(to)| + 1;
      ContentsByPegs(t, from, to);
      ContentsByPegs(r, from, to);
    }
  }

  /** Move the top disk of `from` onto `to`, if the rules allow it: the
      source peg must hold a disk, and the destination must be empty or
      have a top disk no smaller than the one moved. */
  function Step(t: Towers, from: Peg, to: Peg): (r: Outcome)
    ensures !r.Quitting? && r != Rejected(InvalidToken)
    ensures r.Rejected? <==>
              |t.Get(from)| == 0 || (|t.Get(to)| > 0 && Top(t.Get(to)) < Top(t.Get(from)))
    ensures r == Rejected(EmptySource) <==> |t.Get(from)| == 0
    ensures r.Moved? ==> r.next == MoveTop(t, from, to)
    ensures r.Moved? ==> r.next.Count() == t.Count() && r.next.Contents() == t.Contents()
  {
    var src := t.Get(from);
    var dst := t.Get(to);
    if |src| == 0 then Rejected(EmptySource)
    else if |dst| > 0 && Top(dst) < Top(src) then Rejected(OntoSmaller)
    else
      MoveTopKeepsContents(t, from, to);
      MoveTopKeepsCount(t, from, to);
      Moved(MoveTop(t, from, to))
  }

  /** One input line played against the board. */
  function PlayerMove(t: Towers, line: string): (r: Outcome)
    ensures r.Quitting? <==> IsQuit(line)
    ensures r == Rejected(InvalidToken) <==> !IsQuit(line) && Normalize(line) !in ValidMoves
    ensures r.Moved? ==> Normalize(line) in ValidMoves
    ensures ParseMove(line).Move? ==> r == Step(t, ParseMove(line).from, ParseMove(line).to)
  {
    match ParseMove(line)
    case Quit => Quitting
    case BadToken => Rejected(InvalidToken)
    case Move(x, y) => Step(t, x, y)
  }
}
