/** Properties of the picture: the shape of every cell and of the header,
    and the fact that the picture of a valid board determines the board. */
module DisplayFacts {
  import opened Board
  import opened Display

  // ---------------------------------------------------------------------
  // Cells and header
  // ---------------------------------------------------------------------

  /** Sizes 1..99 are labelled by two characters: `_` and the digit below
      ten, the two digits from ten on. */
  lemma LabelShape(d: int)
    requires 1 <= d <= 99
    ensures Label(d) == if d < 10 then ['_', Digit(d)] else [Digit(d / 10), Digit(d % 10)]
  {
    if d >= 10 {
      assert NatString(d / 10) == [Digit(d / 10)];
      assert NatString(d) == [Digit(d / 10)] + [Digit(d % 10)];
    }
  }

  /** `str` on a natural number loses nothing: its digits, read back in
      base ten, give the number. */
  lemma {:induction false} NatStringValue(d: nat)
    ensures DecimalValue(NatString(d)) == d
  {
    var s := NatString(d);
    if d < 10 {
      assert s[..0] == [];
    } else {
      assert s[..|s| - 1] == NatString(d / 10);
      NatStringValue(d / 10);
    }
  }

  /** A minus sign in front of `digits` does not change what follows it. */
  lemma AfterSign(digits: string, v: int)
    requires DecimalValue(digits) == v
    ensures ("-" + digits)[0] == '-' && DecimalValue(("-" + digits)[1..]) == v
  {
    assert ("-" + digits)[1..] == digits;
  }

  /** A negative number prints as a minus sign and its magnitude. */
  lemma NegativeValue(d: int)
    requires d < 0
    ensures IntString(d)[0] == '-' && -DecimalValue(IntString(d)[1..]) == d
  {
    NatStringValue(-d);
    AfterSign(NatString(-d), -d);
    assert IntString(d) == "-" + NatString(-d);
  }

  /** `str` on any integer loses nothing: an optional minus sign, then the
      digits of the magnitude. */
  lemma IntStringValue(d: int)
    ensures var r := IntString(d);
            (if r[0] == '-' then -DecimalValue(r[1..]) else DecimalValue(r)) == d
  {
    if d < 0 {
      NegativeValue(d);
    } else {
      assert IntString(d) == NatString(d);
      NatStringValue(d);
    }
  }

  /** The layout of a disk column `r`, for any two-character label. */
  lemma FramedShape(d: nat, n: nat, lab: string, r: string)
    requires d <= n && |lab| == 2
    requires r == Framed(n - d, d, lab)
    ensures |r| == 2 * n + 2
    ensures forall j :: 0 <= j < n ==> r[j] == (if j < n - d then ' ' else '@')
    ensures r[n..n + 2] == lab
    ensures forall j :: 0 <= j < n ==> r[2 * n + 1 - j] == r[j]
  {
    var sp, at := Spaces(n - d), Repeat('@', d);
    var left, right := sp + at, at + sp;
    assert r == left + lab + right;
    forall j | 0 <= j < n
      ensures r[j] == (if j < n - d then ' ' else '@')
    {
      assert r[j] == left[j];
    }
    forall j | 0 <= j < n
      ensures r[2 * n + 1 - j] == r[j]
    {
      assert r[2 * n + 1 - j] == right[n - 1 - j];
      assert r[j] == left[j];
    }
  }

  /** A disk of size `d` is `n - d` blanks, `d` at-signs, its two-character
      label at columns `n` and `n + 1`, `d` at-signs and `n - d` blanks: the
      column is `2n + 2` wide and symmetric about its label. */
  lemma DiskCellShape(d: int, n: nat)
    requires 1 <= d <= n <= MaxDisks
    ensures |DiskCell(d, n)| == 2 * n + 2
    ensures forall j :: 0 <= j < n ==> DiskCell(d, n)[j] == (if j < n - d then ' ' else '@')
    ensures DiskCell(d, n)[n..n + 2] == Label(d)
    ensures forall j :: 0 <= j < n ==> DiskCell(d, n)[2 * n + 1 - j] == DiskCell(d, n)[j]
  {
    var lab := Label(d);
    assert |lab| == 2 by { LabelShape(d); }
    FramedShape(d, n, lab, DiskCell(d, n));
  }

  /** An empty height is `n` blanks, the post `||`, and `n` blanks. */
  lemma EmptySlotShape(n: nat)
    ensures |EmptySlot(n)| == 2 * n + 2
    ensures EmptySlot(n)[n] == '|' && EmptySlot(n)[n + 1] == '|'
    ensures forall j :: 0 <= j < 2 * n + 2 && j != n && j != n + 1 ==> EmptySlot(n)[j] == ' '
  {
  }

  /** Every cell of a valid board is one column width, `2n + 2`, wide. */
  lemma CellWidth(t: Towers, n: nat, p: Peg, i: nat)
    requires Valid(t, n) && n <= MaxDisks
    ensures |Cell(t.Get(p), i, n)| == 2 * n + 2
  {
    EmptySlotShape(n);
    if i < |t.Get(p)| {
      ValidSizes(t, n, p, i);
      DiskCellShape(t.Get(p)[i], n);
    }
  }

  /** The column where peg `p`'s letter stands in the header: above the
      right-hand mark of its post. */
  function LetterColumn(p: Peg, n: nat): nat
  {
    Index(p) * (2 * n + 2) + n + 1
  }

  /** The header carries the three letters, each above its own peg's post,
      and blanks everywhere else. */
  lemma HeaderShape(n: nat)
    ensures |Header(n)| == 5 * n + 6
    ensures forall p :: Header(n)[LetterColumn(p, n)] == Letter(p)
    ensures forall j ::
              (0 <= j < 5 * n + 6 && j != LetterColumn(A, n) && j != LetterColumn(B, n) && j != LetterColumn(C, n))
              ==> Header(n)[j] == ' '
  {
    var h := Header(n);
    var lead, gap := Spaces(n + 1), Spaces(2 * n + 1);
    assert (n * 2 + 2) / 2 == n + 1;
    assert h == lead + "A" + gap + "B" + gap + "C";
    forall p ensures h[LetterColumn(p, n)] == Letter(p) {
      match p
      case A =>
      case B =>
      case C =>
    }
  }

  // ---------------------------------------------------------------------
  // Rows
  // ---------------------------------------------------------------------

  /** The column of `row` that shows peg `p`, or nothing if the row is too short. */
  function CellAt(row: string, p: Peg, n: nat): (r: string)
    ensures |r| == 0 || |r| == 2 * n + 2
  {
    var w := 2 * n + 2;
    var off := Index(p) * w;
    if off + w <= |row| then row[off..off + w] else ""
  }

  /** Three columns of the common width side by side are read back one by one. */
  lemma ThreeColumns(ca: string, cb: string, cc: string, n: nat)
    requires |ca| == |cb| == |cc| == 2 * n + 2
    ensures CellAt(ca + cb + cc, A, n) == ca
    ensures CellAt(ca + cb + cc, B, n) == cb
    ensures CellAt(ca + cb + cc, C, n) == cc
  {
    var w := 2 * n + 2;
    var row := ca + cb + cc;
    assert row[0..w] == ca;
    assert row[w..2 * w] == cb;
    assert row[2 * w..3 * w] == cc;
  }

  /** On a valid board each row is three columns wide, and its columns show
      pegs A, B and C in that order. */
  lemma RowCells(t: Towers, n: nat, i: nat)
    requires Valid(t, n) && n <= MaxDisks
    ensures |Row(t, i, n)| == 3 * (2 * n + 2)
    ensures forall p :: CellAt(Row(t, i, n), p, n) == Cell(t.Get(p), i, n)
  {
    CellWidth(t, n, A, i);
    CellWidth(t, n, B, i);
    CellWidth(t, n, C, i);
    ThreeColumns(Cell(t.a, i, n), Cell(t.b, i, n), Cell(t.c, i, n), n);
    forall p ensures CellAt(Row(t, i, n), p, n) == Cell(t.Get(p), i, n) {
      match p
      case A =>
      case B =>
      case C =>
    }
  }

  /** The first line printed shows every peg empty: no peg of a valid board
      reaches height `n`. */
  lemma TopRowEmpty(t: Towers, n: nat)
    requires Valid(t, n)
    ensures Render(t, n)[0] == EmptySlot(n) + EmptySlot(n) + EmptySlot(n)
  {
    ValidCount(t, n);
    assert |t.a| <= n && |t.b| <= n && |t.c| <= n;
  }

  // ---------------------------------------------------------------------
  // Reading the picture back
  // ---------------------------------------------------------------------

  /** What one column of a row shows. */
  datatype Slot = Empty | Disk(size: int)

  /** The number of leading copies of `ch` in `s`. */
  function LeadingCount(s: string, ch: char): (k: nat)
    ensures k <= |s|
    ensures forall i :: 0 <= i < k ==> s[i] == ch
    ensures k < |s| ==> s[k] != ch
  {
    if |s| > 0 && s[0] == ch then 1 + LeadingCount(s[1..], ch) else 0
  }

  /** Reads a column: a disk starts with its at-signs right after the
      leading blanks, and its size is the column's half-width minus them. */
  function ReadCell(cell: string, n: nat): Slot
  {
    var k := LeadingCount(cell, ' ');
    if k < |cell| && cell[k] == '@' then Disk(n - k) else Empty
  }

  /** What the printed `lines` show for peg `p` at height `i`; the row for
      height `i` is line `n - i`. */
  function SlotAt(lines: seq<string>, n: nat, p: Peg, i: nat): Slot
  {
    if i > n || n - i >= |lines| then Empty else ReadCell(CellAt(lines[n - i], p, n), n)
  }

  /** What the printed `lines` show for peg `p`, from the bottom height 0
      up to height `n`. */
  function Column(lines: seq<string>, n: nat, p: Peg): (c: seq<Slot>)
    ensures |c| == n + 1
    ensures forall h :: 0 <= h <= n ==> c[h] == SlotAt(lines, n, p, h)
  {
    seq(n + 1, h requires 0 <= h => SlotAt(lines, n, p, h))
  }

  /** The disks of a column, bottom up, until the first empty height. */
  function TakeDisks(slots: seq<Slot>): (r: seq<int>)
    ensures |r| <= |slots|
  {
    if |slots| == 0 then []
    else
      match slots[0]
      case Empty => []
      case Disk(d) => [d] + TakeDisks(slots[1..])
  }

  /** Reads peg `p` from the printed lines. */
  function ReadPeg(lines: seq<string>, n: nat, p: Peg): seq<int>
  {
    TakeDisks(Column(lines, n, p))
  }

  /** Reads the whole board from the printed lines. */
  function ReadTowers(lines: seq<string>, n: nat): Towers
  {
    Towers(ReadPeg(lines, n, A), ReadPeg(lines, n, B), ReadPeg(lines, n, C))
  }

  /** A column whose first non-blank is at `k` reads as a disk exactly
      when that character is an at-sign. */
  lemma ReadAfterBlanks(cell: string, n: nat, k: nat)
    requires k < |cell| && cell[k] != ' '
    requires forall j :: 0 <= j < k ==> cell[j] == ' '
    ensures ReadCell(cell, n) == if cell[k] == '@' then Disk(n - k) else Empty
  {
    assert LeadingCount(cell, ' ') == k;
  }

  /** A disk's column reads back as that disk. */
  lemma ReadDiskCell(d: int, n: nat)
    requires 1 <= d <= n <= MaxDisks
    ensures ReadCell(DiskCell(d, n), n) == Disk(d)
  {
    DiskCellShape(d, n);
    ReadAfterBlanks(DiskCell(d, n), n, n - d);
  }

  /** An empty height reads back as empty. */
  lemma ReadEmptySlot(n: nat)
    ensures ReadCell(EmptySlot(n), n) == Empty
  {
    EmptySlotShape(n);
    ReadAfterBlanks(EmptySlot(n), n, n);
  }

  /** A column showing the disks of `s` and then only empty heights reads
      back as `s`. */
  lemma {:induction false} TakeDisksOf(slots: seq<Slot>, s: seq<int>)
    requires |s| <= |slots|
    requires forall h :: 0 <= h < |slots| ==> slots[h] == if h < |s| then Disk(s[h]) else Empty
    ensures TakeDisks(slots) == s
  {
    if |s| > 0 {
      assert slots[0] == Disk(s[0]);
      assert forall h :: 0 <= h < |slots| - 1 ==> slots[1..][h] == slots[h + 1];
      TakeDisksOf(slots[1..], s[1..]);
      assert s == [s[0]] + s[1..];
    } else if |slots| > 0 {
      assert slots[0] == Empty;
    }
  }

  /** In the picture of a valid board, every height of every peg shows the
      disk at that height, or nothing above the top. */
  lemma RenderSlots(t: Towers, n: nat, p: Peg, h: nat)
    requires Valid(t, n) && n <= MaxDisks && h <= n
    ensures SlotAt(Render(t, n), n, p, h) == if h < |t.Get(p)| then Disk(t.Get(p)[h]) else Empty
  {
    var lines := Render(t, n);
    assert lines[n - h] == Row(t, h, n);
    RowCells(t, n, h);
    if h < |t.Get(p)| {
      ValidSizes(t, n, p, h);
      ReadDiskCell(t.Get(p)[h], n);
    } else {
      ReadEmptySlot(n);
    }
  }

  /** Reading peg `p` back from the picture of a valid board gives the peg. */
  lemma ReadPegBack(t: Towers, n: nat, p: Peg)
    requires Valid(t, n) && n <= MaxDisks
    ensures ReadPeg(Render(t, n), n, p) == t.Get(p)
  {
    ValidCount(t, n);
    var column := Column(Render(t, n), n, p);
    forall h | 0 <= h < |column|
      ensures column[h] == if h < |t.Get(p)| then Disk(t.Get(p)[h]) else Empty
    {
      RenderSlots(t, n, p, h);
    }
    TakeDisksOf(column, t.Get(p));
  }

  /** The picture of a valid board determines the board: reading every
      column back, bottom up, gives the towers that were drawn. */
  lemma RenderReadBack(t: Towers, n: nat)
    requires Valid(t, n) && n <= MaxDisks
    ensures ReadTowers(Render(t, n), n) == t
  {
    ReadPegBack(t, n, A);
    ReadPegBack(t, n, B);
    ReadPegBack(t, n, C);
  }
}
