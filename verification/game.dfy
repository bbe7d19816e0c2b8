/** The game loop: start from the full tower on the chosen peg, play input
    lines one by one, and stop at a quit or as soon as the puzzle is solved.
    The console is replaced by the finite sequence of lines typed. */
module Game {
  import opened Board
  import opened Moves
  import MoveFacts
  import opened Win

  /** Why the game stopped: solved, quit, or no more input to read. */
  datatype HowEnded = Solved | Quitted | OutOfInput

  /** How the game stopped, the board at that point, how many input lines
      were read and how many of them moved a disk. */
  datatype Ending = Ending(how: HowEnded, final: Towers, read: nat, moves: nat)

  /** The position of the first line that `quits` accepts, or the number
      of lines when there is none. */
  function FirstQuit(quits: string -> bool, lines: seq<string>): (k: nat)
    ensures k <= |lines|
    ensures k < |lines| ==> quits(lines[k])
    ensures forall j :: 0 <= j < k ==> !quits(lines[j])
  {
    if |lines| == 0 then 0
    else if quits(lines[0]) then 0
    else
      var k := FirstQuit(quits, lines[1..]);
      assert forall j :: 1 <= j < k + 1 ==> lines[j] == lines[1..][j - 1];
      k + 1
  }

  /** The board after one outcome: the moved board, or the same board
      when the line quit or was rejected. */
  function Settle(t: Towers, o: Outcome): Towers
  {
    if o.Moved? then o.next else t
  }

  /** The board after playing the first `i` lines in turn with `play`, with
      no stop at a quit or a win. With `play` = `PlayerMove` this is the
      reference the game loop is measured against. */
  function Replay(play: (Towers, string) -> Outcome, t: Towers, lines: seq<string>, i: nat): Towers
    requires i <= |lines|
  {
    if i == 0 then t
    else
      var before := Replay(play, t, lines, i - 1);
      Settle(before, play(before, lines[i - 1]))
  }

  /** How many of the first `i` lines, played in turn with `play`, move a disk. */
  function MoveCount(play: (Towers, string) -> Outcome, t: Towers, lines: seq<string>, i: nat): nat
    requires i <= |lines|
  {
    if i == 0 then 0
    else MoveCount(play, t, lines, i - 1) + if play(Replay(play, t, lines, i - 1), lines[i - 1]).Moved? then 1 else 0
  }

  /** Whether the game is won once the first `k` lines have been played. */
  predicate WonAfter(play: (Towers, string) -> Outcome, t: Towers, lines: seq<string>, k: nat, start: Peg, n: nat)
    requires k <= |lines|
  {
    CheckWin(Replay(play, t, lines, k), start, n)
  }

  /** Playing one more line extends the replay by that line's outcome. */
  lemma ReplayNext(play: (Towers, string) -> Outcome, t: Towers, lines: seq<string>, i: nat)
    requires i < |lines|
    ensures var o := play(Replay(play, t, lines, i), lines[i]);
            Replay(play, t, lines, i + 1) == Settle(Replay(play, t, lines, i), o) &&
            MoveCount(play, t, lines, i + 1) == MoveCount(play, t, lines, i) + if o.Moved? then 1 else 0
  {
  }

  /** Every board reached from the starting board is valid. */
  lemma PlayValid(n: nat, start: Peg, lines: seq<string>, i: nat)
    requires i <= |lines|
    ensures Valid(Replay(PlayerMove, Init(n, start), lines, i), n)
  {
    InitValid(n, start);
    ReplayValid(Init(n, start), n, lines, i);
  }

  /** A line that moves nothing leaves the board and the count of moves as
      they were, and adds no win. */
  lemma SkipLine(play: (Towers, string) -> Outcome, t: Towers, lines: seq<string>, i: nat, start: Peg, n: nat)
    requires i < |lines| && !play(Replay(play, t, lines, i), lines[i]).Moved?
    requires forall k :: 0 <= k < i ==> !WonAfter(play, t, lines, k, start, n)
    requires !CheckWin(Replay(play, t, lines, i), start, n)
    ensures Replay(play, t, lines, i + 1) == Replay(play, t, lines, i)
    ensures MoveCount(play, t, lines, i + 1) == MoveCount(play, t, lines, i)
    ensures forall k :: 0 <= k <= i + 1 ==> !WonAfter(play, t, lines, k, start, n)
  {
    ReplayNext(play, t, lines, i);
    forall k | 0 <= k <= i + 1
      ensures !WonAfter(play, t, lines, k, start, n)
    {
      if k < i {
        assert !WonAfter(play, t, lines, k, start, n);
      }
    }
  }

  /** A valid board stays valid along any sequence of lines. */
  lemma {:induction false} ReplayValid(t: Towers, n: nat, lines: seq<string>, i: nat)
    requires Valid(t, n) && i <= |lines|
    ensures Valid(Replay(PlayerMove, t, lines, i), n)
  {
    if i > 0 {
      ReplayValid(t, n, lines, i - 1);
      MoveFacts.PlayerMovePreservesValid(Replay(PlayerMove, t, lines, i - 1), n, lines[i - 1]);
    }
  }

  /** No more disks move than lines are read. */
  lemma {:induction false} MoveCountBound(play: (Towers, string) -> Outcome, t: Towers, lines: seq<string>, i: nat)
    requires i <= |lines|
    ensures MoveCount(play, t, lines, i) <= i
  {
    if i > 0 {
      MoveCountBound(play, t, lines, i - 1);
    }
  }

  /** Lines that move no disk leave the board as it was. */
  lemma {:induction false} NoMovesNoChange(play: (Towers, string) -> Outcome, t: Towers, lines: seq<string>, i: nat)
    requires i <= |lines| && MoveCount(play, t, lines, i) == 0
    ensures Replay(play, t, lines, i) == t
  {
    if i > 0 {
      NoMovesNoChange(play, t, lines, i - 1);
    }
  }

  /** Plays one line: the board it leaves, and whether it moved a disk.
      A single-turn view of `MoveFacts.PlayerMovePreservesValid`; the loop
      below plays lines through `Replay` instead. */
  method Turn(t: Towers, n: nat, line: string) returns (next: Towers, moved: bool)
    requires Valid(t, n)
    ensures Valid(next, n)
    ensures moved <==> PlayerMove(t, line).Moved?
    ensures moved ==> next == PlayerMove(t, line).next
    ensures !moved ==> next == t
    ensures next == Settle(t, PlayerMove(t, line))
  {
    var outcome := PlayerMove(t, line);
    if outcome.Moved? {
      MoveFacts.PlayerMovePreservesValid(t, n, line);
      return outcome.next, true;
    }
    return t, false;
  }

  /** Plays lines from position 0 up to `stop`, stopping early after the
      first accepted move that wins. */
  method PlayUntil(play: (Towers, string) -> Outcome, t0: Towers, start: Peg, n: nat, lines: seq<string>, stop: nat)
    returns (t: Towers, read: nat, moves: nat, won: bool)
    requires !CheckWin(t0, start, n) && stop <= |lines|
    ensures read <= stop && (!won ==> read == stop)
    ensures t == Replay(play, t0, lines, read)
    ensures moves == MoveCount(play, t0, lines, read)
    ensures won <==> CheckWin(t, start, n)
    ensures won ==> moves > 0
    ensures forall k :: 0 <= k < read ==> !WonAfter(play, t0, lines, k, start, n)
  {
    t, read, moves, won := t0, 0, 0, false;
    while read < stop
      invariant read <= stop
      invariant t == Replay(play, t0, lines, read) && moves == MoveCount(play, t0, lines, read)
      invariant !CheckWin(t, start, n)
      invariant forall k :: 0 <= k <= read ==> !WonAfter(play, t0, lines, k, start, n)
    {
      ReplayNext(play, t0, lines, read);
      var outcome := play(t, lines[read]);
      read := read + 1;
      if outcome.Moved? {
        t, moves := outcome.next, moves + 1;
        if CheckWin(t, start, n) {
          return t, read, moves, true;
        }
      }
      forall k | 0 <= k <= read
        ensures !WonAfter(play, t0, lines, k, start, n)
      {
        if k < read {
          assert !WonAfter(play, t0, lines, k, start, n);
        }
      }
    }
  }

  /** The game loop for any way `play` of answering a line that never
      moves a disk on a line `quits` accepts: lines are read in order until
      the first such line, and the win test runs after every accepted move. */
  method Session(play: (Towers, string) -> Outcome, quits: string -> bool, t0: Towers, start: Peg, n: nat, lines: seq<string>)
    returns (e: Ending)
    requires !CheckWin(t0, start, n)
    requires forall u, line :: quits(line) ==> !play(u, line).Moved?
    ensures e.read <= |lines|
    ensures e.final == Replay(play, t0, lines, e.read)
    ensures e.moves == MoveCount(play, t0, lines, e.read)
    ensures e.moves <= e.read
    ensures e.how == Solved <==> CheckWin(e.final, start, n)
    ensures e.how == Solved ==> e.moves > 0
    ensures forall k :: 0 <= k < e.read ==> !WonAfter(play, t0, lines, k, start, n)
    ensures e.how == OutOfInput ==> e.read == |lines|
    ensures e.how == Quitted <==> 0 < e.read && quits(lines[e.read - 1])
    ensures forall k :: 0 <= k < e.read - 1 ==> !quits(lines[k])
  {
    var stop := FirstQuit(quits, lines);
    var t, read, moves, won := PlayUntil(play, t0, start, n, lines, stop);
    var how := OutOfInput;
    if won {
      how := Solved;
    } else if stop < |lines| {
      SkipLine(play, t0, lines, stop, start, n);
      how, read := Quitted, stop + 1;
    }
    MoveCountBound(play, t0, lines, read);
    return Ending(how, t, read, moves);
  }

  /** Plays `lines` against the starting board with the tower on `start`,
      answering each line with `PlayerMove`. */
  method Play(n: nat, start: Peg, lines: seq<string>) returns (e: Ending)
    requires DiskCountAllowed(n)
    ensures e.read <= |lines|
    ensures e.final == Replay(PlayerMove, Init(n, start), lines, e.read)
    ensures e.moves == MoveCount(PlayerMove, Init(n, start), lines, e.read)
    ensures e.moves <= e.read
    ensures Valid(e.final, n)
    ensures e.how == Solved <==> CheckWin(e.final, start, n)
    ensures e.how == Solved ==> e.moves > 0
    ensures forall k :: 0 <= k < e.read ==> !WonAfter(PlayerMove, Init(n, start), lines, k, start, n)
    ensures e.how == OutOfInput ==> e.read == |lines|
    ensures e.how == Quitted <==> 0 < e.read && IsQuit(lines[e.read - 1])
    ensures forall k :: 0 <= k < e.read - 1 ==> !IsQuit(lines[k])
  {
    InitNotWon(n, start);
    e := Session(PlayerMove, IsQuit, Init(n, start), start, n, lines);
    PlayValid(n, start, lines, e.read);
  }
}
