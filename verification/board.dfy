/** The board of the game: three pegs, each a stack of disk sizes listed
    bottom first, so that the last element of a peg is its top disk. */
module Board {

  /** The largest disk count the game accepts on its command line. */
  const MaxDisks := 19

  /** The disk counts the command line accepts: 3 to 19. */
  predicate DiskCountAllowed(n: int)
  {
    3 <= n <= MaxDisks
  }

  /** The three pegs, in the order in which they are stored and displayed. */
  datatype Peg = A | B | C

  /** The letter that names a peg in commands and in the display header. */
  function Letter(p: Peg): char
  {
    match p
    case A => 'A'
    case B => 'B'
    case C => 'C'
  }

  /** The peg a letter names; the inverse of `Letter`. */
  function PegNamed(ch: char): (p: Peg)
    requires ch in "ABC"
    ensures Letter(p) == ch
  {
    if ch == 'A' then A else if ch == 'B' then B else C
  }

  /** Distinct pegs are named by distinct letters. */
  lemma LetterInjective(p: Peg, q: Peg)
    ensures Letter(p) == Letter(q) <==> p == q
  {
  }

  /** Position of a peg in the fixed order A, B, C. */
  function Index(p: Peg): (i: nat)
    ensures i < 3
  {
    match p
    case A => 0
    case B => 1
    case C => 2
  }

  /** The peg that is neither `x` nor `y`. */
  function Third(x: Peg, y: Peg): (z: Peg)
    requires x != y
    ensures z != x && z != y
  {
    if x != A && y != A then A else if x != B && y != B then B else C
  }

  /** The top of a non-empty peg. */
  function Top(s: seq<int>): int
    requires |s| > 0
  {
    s[|s| - 1]
  }

  /** The three pegs A, B and C, each bottom first. */
  datatype Towers = Towers(a: seq<int>, b: seq<int>, c: seq<int>)
  {
    /** The disks on peg `p`. */
    function Get(p: Peg): seq<int>
    {
      match p
      case A => a
      case B => b
      case C => c
    }

    /** The towers with peg `p` replaced by `s` and the other two kept. */
    function Set(p: Peg, s: seq<int>): (t: Towers)
      ensures t.Get(p) == s
      ensures forall q :: q != p ==> t.Get(q) == Get(q)
    {
      match p
      case A => this.(a := s)
      case B => this.(b := s)
      case C => this.(c := s)
    }

    /** The number of disks on the board. */
    function Count(): nat
    {
      |a| + |b| + |c|
    }

    /** The disks on the board, as a multiset of sizes. */
    function Contents(): multiset<int>
    {
      multiset(a) + multiset(b) + multiset(c)
    }
  }

  /** Boards that agree on every peg are equal. */
  lemma TowersEqual(t: Towers, u: Towers)
    requires forall p :: t.Get(p) == u.Get(p)
    ensures t == u
  {
    assert t.Get(A) == u.Get(A) && t.Get(B) == u.Get(B) && t.Get(C) == u.Get(C);
  }

  /** The contents of the board, grouped as two named pegs and the third. */
  lemma ContentsByPegs(t: Towers, x: Peg, y: Peg)
    requires x != y
    ensures t.Contents() == multiset(t.Get(x)) + multiset(t.Get(y)) + multiset(t.Get(Third(x, y)))
    ensures t.Count() == |t.Get(x)| + |t.Get(y)| + |t.Get(Third(x, y))|
  {
  }

  /** The sizes 1..n, each exactly once. */
  function Disks(n: nat): (m: multiset<int>)
    ensures |m| == n
    ensures forall x :: m[x] == (if 1 <= x <= n then 1 else 0)
  {
    if n == 0 then multiset{} else Disks(n - 1) + multiset{n}
  }

  /** Every disk on the peg is larger than every disk above it. */
  predicate StrictlyDecreasing(s: seq<int>)
  {
    forall i, j :: 0 <= i < j < |s| ==> s[i] > s[j]
  }

  /** A board reachable in a game of `n` disks: every peg strictly
      decreasing bottom to top, and the sizes 1..n each present once. */
  predicate Valid(t: Towers, n: nat)
  {
    && (forall p :: StrictlyDecreasing(t.Get(p)))
    && t.Contents() == Disks(n)
  }

  /** The full tower `n, n-1, ..., 1`, bottom first, as Python's
      `range(n, 0, -1)` enumerates it. */
  function Descending(n: nat): (s: seq<int>)
    ensures |s| == n
    ensures forall i :: 0 <= i < n ==> s[i] == n - i
    ensures multiset(s) == Disks(n)
  {
    if n == 0 then [] else [n] + Descending(n - 1)
  }

  /** The starting board: the full tower on `start`, the other pegs empty. */
  function Init(n: nat, start: Peg): (t: Towers)
    ensures t.Get(start) == Descending(n)
    ensures forall q :: q != start ==> t.Get(q) == []
  {
    Towers([], [], []).Set(start, Descending(n))
  }

  /** The starting board holds `n` disks, largest at the bottom, on `start`,
      and is valid. */
  lemma InitValid(n: nat, start: Peg)
    ensures |Init(n, start).Get(start)| == n
    ensures forall i :: 0 <= i < n ==> Init(n, start).Get(start)[i] == n - i
    ensures Valid(Init(n, start), n)
  {
    var t := Init(n, start);
    DescendingDecreasing(n);
    assert forall q :: StrictlyDecreasing(t.Get(q));
    InitContents(n, start);
  }

  /** The full tower is strictly decreasing. */
  lemma DescendingDecreasing(n: nat)
    ensures StrictlyDecreasing(Descending(n))
  {
  }

  /** The starting board holds each of the sizes 1..n once. */
  lemma InitContents(n: nat, start: Peg)
    ensures Init(n, start).Contents() == Disks(n)
  {
    var t, tower := Init(n, start), Descending(n);
    assert multiset(tower) == Disks(n);
    var none: seq<int> := [];
    assert multiset(none) == multiset{};
    match start
    case A => assert t == Towers(tower, none, none);
    case B => assert t == Towers(none, tower, none);
    case C => assert t == Towers(none, none, tower);
  }

  /** Every disk on a valid board has a size in 1..n. */
  lemma ValidSizes(t: Towers, n: nat, p: Peg, i: int)
    requires Valid(t, n)
    requires 0 <= i < |t.Get(p)|
    ensures 1 <= t.Get(p)[i] <= n
  {
    var x := t.Get(p)[i];
    assert x in multiset(t.Get(p));
    assert t.Contents()[x] > 0;
  }

  /** A valid board holds exactly `n` disks, so no peg holds more. */
  lemma ValidCount(t: Towers, n: nat)
    requires Valid(t, n)
    ensures t.Count() == n
    ensures forall p :: |t.Get(p)| <= n
  {
    assert |t.Contents()| == t.Count();
  }
}
