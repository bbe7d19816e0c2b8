/** The text picture of the board: a header of peg letters and one row per
    height, each row three fixed-width columns in peg order A, B, C. */
module Display {
  import opened Board

  // ---------------------------------------------------------------------
  // The few Python string operations the picture is built from
  // ---------------------------------------------------------------------

  /** Python's `ch * k`: `k` copies of `ch`, and none when `k` is not positive. */
  function Repeat(ch: char, k: int): (r: string)
    ensures |r| == if k > 0 then k else 0
    ensures forall i :: 0 <= i < |r| ==> r[i] == ch
    decreases k
  {
    if k <= 0 then "" else [ch] + Repeat(ch, k - 1)
  }

  function Spaces(k: int): string
  {
    Repeat(' ', k)
  }

  /** The character of a decimal digit. */
  function Digit(d: int): (c: char)
    requires 0 <= d <= 9
    ensures '0' <= c <= '9'
  {
    ('0' as int + d) as char
  }

  /** The number a string of decimal digits stands for, most significant
      digit first. */
  function DecimalValue(s: string): int
  {
    if |s| == 0 then 0 else DecimalValue(s[..|s| - 1]) * 10 + (s[|s| - 1] as int - '0' as int)
  }

  /** Python's `str(d)` for a natural number: its decimal digits. */
  function NatString(d: nat): (r: string)
    ensures 1 <= |r| && (d < 10 <==> |r| == 1)
    ensures forall i :: 0 <= i < |r| ==> '0' <= r[i] <= '9'
    ensures |r| > 1 ==> r[0] != '0'
  {
    if d < 10 then [Digit(d)] else NatString(d / 10) + [Digit(d % 10)]
  }

  /** Python's `str(d)` for any integer: a minus sign exactly for negative
      numbers, then the digits of the magnitude. */
  function IntString(d: int): (r: string)
    ensures |r| >= 1 && (r[0] == '-' <==> d < 0)
    ensures var m := if d < 0 then 1 else 0;
            && |r| > m
            && (forall i :: m <= i < |r| ==> '0' <= r[i] <= '9')
            && (|r| > m + 1 ==> r[m] != '0')
  {
    if d < 0 then "-" + NatString(-d) else NatString(d)
  }

  /** Python's `s.rjust(width, fill)`: `s` padded on the left to `width`. */
  function RJust(s: string, width: int, fill: char): (r: string)
    ensures |r| == if |s| >= width then |s| else width
    ensures r[|r| - |s|..] == s
    ensures forall i :: 0 <= i < |r| - |s| ==> r[i] == fill
  {
    if |s| >= width then s else Repeat(fill, width - |s|) + s
  }

  // ---------------------------------------------------------------------
  // The picture
  // ---------------------------------------------------------------------

  /** The size printed in the middle of a disk, padded on the left with `_`
      to two characters. */
  function Label(d: int): string
  {
    RJust(IntString(d), 2, '_')
  }

  /** A height at which a peg holds no disk: its post, `||`, centred. */
  function EmptySlot(n: nat): string
  {
    Spaces(n) + "||" + Spaces(n)
  }

  /** `lab` between two runs of `width` at-signs, with `pad` blanks on
      each side. */
  function Framed(pad: int, width: int, lab: string): string
  {
    Spaces(pad) + Repeat('@', width) + lab + Repeat('@', width) + Spaces(pad)
  }

  /** A disk of size `d`: `d` at-signs on each side of its label, centred
      in a column of `2n + 2` characters. */
  function DiskCell(d: int, n: nat): string
  {
    Framed(n - d, d, Label(d))
  }

  /** What peg `disks` shows at height `i`, counting from 0 at the bottom. */
  function Cell(disks: seq<int>, i: nat, n: nat): string
  {
    if i > |disks| - 1 then EmptySlot(n) else DiskCell(disks[i], n)
  }

  /** The row for height `i`: the three pegs side by side, A first. */
  function Row(t: Towers, i: nat, n: nat): string
  {
    Cell(t.a, i, n) + Cell(t.b, i, n) + Cell(t.c, i, n)
  }

  /** The peg letters, each above the right-hand mark of its peg's post. */
  function Header(n: nat): string
  {
    var width := n * 2 + 2;
    var gap := Spaces(width - 1);
    Spaces(width / 2) + "A" + gap + "B" + gap + "C"
  }

  function Reverse<T>(s: seq<T>): (r: seq<T>)
    ensures |r| == |s|
    ensures forall i :: 0 <= i < |s| ==> r[i] == s[|s| - 1 - i]
  {
    if |s| == 0 then [] else [s[|s| - 1]] + Reverse(s[..|s| - 1])
  }

  /** The lines in the order they are printed: the source collects the
      header and the rows for heights 0..n, then prints that list reversed,
      so the highest row comes first and the header last. */
  function Render(t: Towers, n: nat): (r: seq<string>)
    ensures |r| == n + 2
    ensures r[n + 1] == Header(n)
    ensures forall k :: 0 <= k <= n ==> r[k] == Row(t, n - k, n)
  {
    var rows := seq(n + 1, i requires 0 <= i <= n => Row(t, i, n));
    var r := Reverse([Header(n)] + rows);
    assert forall k :: 0 <= k <= n ==> r[k] == Row(t, n - k, n) by {
      forall k | 0 <= k <= n
        ensures r[k] == Row(t, n - k, n)
      {
        assert r[k] == ([Header(n)] + rows)[n + 1 - k] == rows[n - k];
        assert rows[n - k] == Row(t, n - k, n);
      }
    }
    r
  }
}
