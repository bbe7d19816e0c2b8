/** The win test: the puzzle is solved once a peg other than the one the
    tower started on holds every disk. */
module Win {
  import opened Board

  /** Walks the pegs in order, as the source's loop over the towers does,
      and answers true at the first one other than `start` holding `n` disks. */
  function WinAmong(t: Towers, pegs: seq<Peg>, start: Peg, n: int): (r: bool)
    ensures r <==> exists i :: 0 <= i < |pegs| && pegs[i] != start && |t.Get(pegs[i])| == n
  {
    if |pegs| == 0 then false
    else if |t.Get(pegs[0])| == n && pegs[0] != start then true
    else
      var r := WinAmong(t, pegs[1..], start, n);
      assert forall i :: 1 <= i < |pegs| ==> pegs[i] == pegs[1..][i - 1];
      r
  }

  /** Whether the game is won. */
  function CheckWin(t: Towers, start: Peg, n: int): (r: bool)
    ensures r <==> exists p :: p != start && |t.Get(p)| == n
  {
    var pegs := [A, B, C];
    var r := WinAmong(t, pegs, start, n);
    assert (exists p :: p != start && |t.Get(p)| == n) ==> r by {
      if exists p :: p != start && |t.Get(p)| == n {
        var p :| p != start && |t.Get(p)| == n;
        assert pegs[Index(p)] == p;
      }
    }
    r
  }

  /** The starting board is never a win. */
  lemma InitNotWon(n: nat, start: Peg)
    requires n >= 1
    ensures !CheckWin(Init(n, start), start, n)
  {
  }

  /** A strictly decreasing sequence of integers drops by at least one per step. */
  lemma {:induction false} DecreasingGaps(s: seq<int>, i: int, j: int)
    requires StrictlyDecreasing(s) && 0 <= i <= j < |s|
    ensures s[i] - s[j] >= j - i
    decreases j - i
  {
    if i < j {
      DecreasingGaps(s, i + 1, j);
    }
  }

  /** A strictly decreasing sequence of `n` sizes from 1..n is the full tower. */
  lemma FullPeg(s: seq<int>, n: nat)
    requires StrictlyDecreasing(s) && |s| == n
    requires forall i :: 0 <= i < |s| ==> 1 <= s[i] <= n
    ensures s == Descending(n)
  {
    forall i | 0 <= i < n
      ensures s[i] == n - i
    {
      DecreasingGaps(s, 0, i);
      DecreasingGaps(s, i, n - 1);
    }
  }

  /** On a valid board the game is won exactly when the complete tower,
      largest disk at the bottom, stands on a peg other than the starting one. */
  lemma WonMeansTransferred(t: Towers, n: nat, start: Peg)
    requires Valid(t, n)
    ensures CheckWin(t, start, n) <==> exists p :: p != start && t.Get(p) == Descending(n)
  {
    if CheckWin(t, start, n) {
      var p :| p != start && |t.Get(p)| == n;
      forall i | 0 <= i < n
        ensures 1 <= t.Get(p)[i] <= n
      {
        ValidSizes(t, n, p, i);
      }
      FullPeg(t.Get(p), n);
    }
  }

  /** On a valid board a win leaves the other two pegs empty. */
  lemma WonOthersEmpty(t: Towers, n: nat, start: Peg, p: Peg, q: Peg)
    requires Valid(t, n)
    requires p != start && |t.Get(p)| == n
    requires q != p
    ensures t.Get(q) == []
  {
    ValidCount(t, n);
    ContentsByPegs(t, p, q);
  }
}
