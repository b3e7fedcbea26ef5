/**
 The scrolling region of the console (src/kernel/c_io.c:98-127, 170-207, 232-291): output on a region of
 the screen is output on an endless roll of paper, of which the region shows the last rows.
 */
module ConsoleScroll {

  const U16: nat := 0x1_0000
  const WHITE_ON_BLACK: nat := 0x0700
  const BLANK: nat := 0x0720         // a space, white on black
  const NEWLINE: nat := 10
  const RETURN: nat := 13

  type Row = seq<nat>

  /** What is stored for a character: with its own attributes if it has any, else white on black. */
  function Cell(c: nat): nat {
    if c > 0xff then c % U16 else c + WHITE_ON_BLACK
  }

  function BlankRow(width: nat): (r: Row)
    ensures |r| == width && forall i :: 0 <= i < width ==> r[i] == BLANK
  {
    seq(width, i => BLANK)
  }

  // ---------- paper ----------

  /** All rows ever output, and the place of the next character; it may be one row below the last. */
  datatype Paper = Paper(rows: seq<Row>, x: nat, y: nat)

  predicate Sheet(p: Paper, width: nat) {
    && width > 0 && p.x < width && p.y <= |p.rows| && (p.y == |p.rows| ==> p.x == 0)
    && forall i :: 0 <= i < |p.rows| ==> |p.rows[i]| == width
  }

  /** A new row only when there is something to put on it. */
  function Fed(p: Paper, width: nat): (q: Paper)
    requires Sheet(p, width)
    ensures Sheet(q, width) && q.y < |q.rows| && q.x == p.x && q.y == p.y
  {
    if p.y == |p.rows| then p.(rows := p.rows + [BlankRow(width)]) else p
  }

  /** A row with its cells from `x` on erased. */
  function Erased(r: Row, x: nat): (e: Row)
    requires x <= |r|
    ensures |e| == |r|
  {
    r[..x] + BlankRow(|r| - x)
  }

  function WithCell(r: Row, x: nat, cell: nat): (e: Row)
    requires x < |r|
    ensures |e| == |r|
  {
    r[x := cell]
  }

  /** One character: newline erases the rest of the line, return goes back, all others are stored. */
  function Type(p: Paper, width: nat, c: nat): (q: Paper)
    requires Sheet(p, width)
    ensures Sheet(q, width)
  {
    var f := Fed(p, width);
    if c % 256 == NEWLINE then Paper(f.rows[f.y := Erased(f.rows[f.y], f.x)], 0, f.y + 1)
    else if c % 256 == RETURN then f.(x := 0)
    else
      var rows := f.rows[f.y := WithCell(f.rows[f.y], f.x, Cell(c))];
      if f.x + 1 == width then Paper(rows, 0, f.y + 1) else Paper(rows, f.x + 1, f.y)
  }

  function TypeAll(p: Paper, width: nat, text: seq<nat>): (q: Paper)
    requires Sheet(p, width)
    ensures Sheet(q, width)
    decreases |text|
  {
    if text == [] then p else TypeAll(Type(p, width, text[0]), width, text[1..])
  }

  /** The cell in column `j` of the row that is typed on, blank if the paper has to be fed for it. */
  function CellBefore(p: Paper, width: nat, j: nat): nat
    requires Sheet(p, width) && j < width
  {
    if p.y < |p.rows| then p.rows[p.y][j] else 0x0720
  }

  /** The cell in that column afterwards: 10 erases the rest of the row, 13 nothing, all others are stored. */
  function CellAfter(p: Paper, width: nat, c: nat, j: nat): nat
    requires Sheet(p, width) && j < width
  {
    if c % 256 == 10 then (if j >= p.x then 0x0720 else CellBefore(p, width, j))
    else if c % 256 == 13 || j != p.x then CellBefore(p, width, j)
    else if c > 0xff then c % 0x1_0000
    else 0x0700 + c
  }

  /** One character, cell by cell: the row typed on, the other rows, and the place of the next one. */
  lemma TypeEffect(p: Paper, width: nat, c: nat)
    requires Sheet(p, width)
    ensures var q := Type(p, width, c);
            && |q.rows| == |p.rows| + (if p.y == |p.rows| then 1 else 0)
            && (forall r :: 0 <= r < |p.rows| && r != p.y ==> q.rows[r] == p.rows[r])
            && (forall j :: 0 <= j < width ==> q.rows[p.y][j] == CellAfter(p, width, c, j))
            && q.y == p.y + (if c % 256 == 10 || (c % 256 != 13 && p.x + 1 == width) then 1 else 0)
            && q.x == if c % 256 == 10 || c % 256 == 13 || p.x + 1 == width then 0 else p.x + 1
  {}

  /** Rows above the place of output are never touched again, and none is ever lost. */
  lemma {:induction false} RowsAboveKept(p: Paper, width: nat, text: seq<nat>)
    requires Sheet(p, width)
    ensures var q := TypeAll(p, width, text);
            && p.y <= q.y && |p.rows| <= |q.rows| && forall i :: 0 <= i < p.y ==> q.rows[i] == p.rows[i]
    decreases |text|
  {
    if text != [] {
      RowsAboveKept(Type(p, width, text[0]), width, text[1..]);
    }
  }

  /** Neither newline nor return. */
  predicate Plain(c: nat) {
    c % 256 != NEWLINE && c % 256 != RETURN
  }

  /** Before the place of output, counted along the rows. */
  predicate Before(p: Paper, y: nat, x: nat) {
    y < p.y || (y == p.y && x < p.x)
  }

  lemma {:induction false} PlainKeeps(p: Paper, width: nat, text: seq<nat>, y: nat, x: nat)
    requires Sheet(p, width) && Before(p, y, x) && x < width && forall i :: 0 <= i < |text| ==> Plain(text[i])
    ensures var q := TypeAll(p, width, text);
            y < |p.rows| <= |q.rows| && Before(q, y, x) && q.rows[y][x] == p.rows[y][x]
    decreases |text|
  {
    if text != [] {
      PlainKeeps(Type(p, width, text[0]), width, text[1..], y, x);
    }
  }

  lemma DivUnique(n: nat, width: nat, y: nat, x: nat)
    requires x < width && n == y * width + x
    ensures n / width == y && n % width == x
  {
    var k := y - n / width;
    assert k * width == y * width - n / width * width;
    assert n == n / width * width + n % width;
    MulSmall(width, k);
  }

  lemma MulSmall(p: nat, k: int)
    requires 0 - p < k * p < p
    ensures k == 0
  {}

  /**
   Plain text stands on the paper character by character, counted along the rows from where it began: with its
   own attributes if a character has any, else white on black.
   */
  lemma {:induction false} PlainTextStands(p: Paper, width: nat, text: seq<nat>, i: nat, y: nat, x: nat)
    requires Sheet(p, width) && i < |text| && forall j :: 0 <= j < |text| ==> Plain(text[j])
    requires x < width && y * width + x == p.y * width + p.x + i
    ensures var q := TypeAll(p, width, text);
            && y < |q.rows|
            && q.rows[y][x] == if text[i] > 0xff then text[i] % 0x1_0000 else 0x0700 + text[i]
    decreases |text|
  {
    var t := Type(p, width, text[0]);
    if i == 0 {
      SamePlace(width, y, x, p.y, p.x);
      PlainKeeps(t, width, text[1..], y, x);
    } else {
      NextPlace(p, width, text[0]);
      PlainTextStands(t, width, text[1..], i - 1, y, x);
    }
  }

  lemma NextPlace(p: Paper, width: nat, c: nat)
    requires Sheet(p, width) && Plain(c)
    ensures var t := Type(p, width, c); t.y * width + t.x == p.y * width + p.x + 1
  {
    assert (p.y + 1) * width == p.y * width + width;
  }

  lemma SamePlace(width: nat, y: nat, x: nat, v: nat, u: nat)
    requires x < width && u < width && y * width + x == v * width + u
    ensures y == v && x == u
  {
    DivUnique(y * width + x, width, y, x);
    DivUnique(v * width + u, width, v, u);
  }

  /** The `n` cells from this place on, along the rows; 0 stands for those off the paper. */
  function Cells(rows: seq<Row>, width: nat, y: nat, x: nat, n: nat): (s: seq<nat>)
    ensures |s| == n
    decreases n
  {
    if n == 0 then []
    else
      var (v, u) := if x + 1 == width then (y + 1, 0) else (y, x + 1);
      [if y < |rows| && x < |rows[y]| then rows[y][x] else 0] + Cells(rows, width, v, u, n - 1)
  }

  /** Plain text of 8-bit characters can be read back from the low bytes, and stands there white on black. */
  lemma {:induction false} TextReadBack(p: Paper, width: nat, text: seq<nat>)
    requires Sheet(p, width) && forall j :: 0 <= j < |text| ==> Plain(text[j]) && text[j] <= 0xff
    ensures var cells := Cells(TypeAll(p, width, text).rows, width, p.y, p.x, |text|);
            forall i :: 0 <= i < |text| ==> cells[i] % 256 == text[i] && cells[i] / 256 == 7
    decreases |text|
  {
    if text != [] {
      var t := Type(p, width, text[0]);
      PlainKeeps(t, width, text[1..], p.y, p.x);
      TextReadBack(t, width, text[1..]);
    }
  }

  /** Different texts look different. */
  lemma TextsDiffer(p: Paper, width: nat, a: seq<nat>, b: seq<nat>)
    requires Sheet(p, width) && |a| == |b| && a != b
    requires forall j :: 0 <= j < |a| ==> Plain(a[j]) && a[j] <= 0xff
    requires forall j :: 0 <= j < |b| ==> Plain(b[j]) && b[j] <= 0xff
    ensures TypeAll(p, width, a).rows != TypeAll(p, width, b).rows
  {
    TextReadBack(p, width, a);
    TextReadBack(p, width, b);
  }

  // ---------- the window ----------

  /** The last `height` rows. */
  function Window(p: Paper, height: nat): seq<Row>
    requires height <= |p.rows|
  {
    p.rows[|p.rows| - height..]
  }

  /** What one character changes on paper that needs no new row. */
  function TypedCell(f: Paper, width: nat, c: nat, r: nat, j: nat): nat
    requires Sheet(f, width) && f.y < |f.rows| && r < |f.rows| && j < width
  {
    if c % 256 == NEWLINE then (if r == f.y && j >= f.x then BLANK else f.rows[r][j])
    else if c % 256 != RETURN && r == f.y && j == f.x then Cell(c)
    else f.rows[r][j]
  }

  /** Typing is feeding the paper if need be, changing these cells, and moving on. */
  lemma TypedCells(p: Paper, width: nat, c: nat)
    requires Sheet(p, width)
    ensures var f, q := Fed(p, width), Type(p, width, c);
            && |q.rows| == |f.rows|
            && forall r, j :: 0 <= r < |f.rows| && 0 <= j < width ==> q.rows[r][j] == TypedCell(f, width, c, r, j)
  {}

  /** What c_scroll does to the rows of the region. */
  function Scrolled(rows: seq<Row>, width: nat, lines: nat): (r: seq<Row>)
    ensures |r| == |rows|
  {
    if lines >= |rows| then seq(|rows|, i => BlankRow(width))
    else rows[lines..] + seq(lines, i => BlankRow(width))
  }

  /** Feeding the paper scrolls the window by one row. */
  lemma FeedScrolls(p: Paper, width: nat, height: nat)
    requires Sheet(p, width) && 0 < height <= |p.rows| && p.y == |p.rows|
    ensures Window(Fed(p, width), height) == Scrolled(Window(p, height), width, 1)
  {
    assert seq(1, i => BlankRow(width)) == [BlankRow(width)];
  }

  // ---------- the console ----------

  class Console {
    const width: nat
    const height: nat
    const video: array2<nat>
    var minX: nat
    var minY: nat
    var maxX: nat
    var maxY: nat
    var currX: nat
    var currY: nat

    /** The region is on the screen. */
    predicate Placed()
      reads this
    {
      video.Length0 == height && video.Length1 == width && minX <= maxX < width && minY <= maxY < height
    }

    /** And the cursor is in it, or at the start of the line below. */
    predicate Valid()
      reads this
    {
      Placed() && minX <= currX <= maxX && minY <= currY <= maxY + 1 && (currY == maxY + 1 ==> currX == minX)
    }

    function Width(): nat
      requires Placed()
      reads this
    {
      maxX - minX + 1
    }

    function Height(): nat
      requires Placed()
      reads this
    {
      maxY - minY + 1
    }

    predicate InRegion(x: nat, y: nat)
      reads this
    {
      minX <= x <= maxX && minY <= y <= maxY
    }

    /** The first `n` cells of row `y` of the region. */
    ghost function RowCells(y: nat, n: nat): (r: Row)
      requires Valid() && y < height && n <= Width()
      reads this, video
      ensures |r| == n && forall j :: 0 <= j < n ==> r[j] == video[y, minX + j]
    {
      if n == 0 then [] else RowCells(y, n - 1) + [video[y, minX + n - 1]]
    }

    /** The first `n` rows of the region. */
    ghost function RegionRows(n: nat): (r: seq<Row>)
      requires Valid() && n <= Height()
      reads this, video
      ensures |r| == n && forall i :: 0 <= i < n ==> r[i] == RowCells(minY + i, Width())
    {
      if n == 0 then [] else RegionRows(n - 1) + [RowCells(minY + n - 1, Width())]
    }

    /** The region shows the last rows of this paper, and the cursor is at its place. */
    ghost predicate Shows(p: Paper)
      requires Valid()
      reads this, video
    {
      && Sheet(p, Width()) && Height() <= |p.rows|
      && (forall y: nat, x: nat :: InRegion(x, y) ==> video[y, x] == Shown(p, y, x))
      && currX == minX + p.x && currY + |p.rows| == minY + p.y + Height()
    }

    /** The cell of the paper that belongs at this place of the region. */
    function Shown(p: Paper, y: nat, x: nat): nat
      requires Placed() && Sheet(p, Width()) && Height() <= |p.rows| && InRegion(x, y)
      reads this
    {
      p.rows[|p.rows| - Height() + (y - minY)][x - minX]
    }

    /** Any region shows the paper that consists of its rows. */
    lemma ShowsItsRows()
      requires Valid()
      ensures Shows(Paper(RegionRows(Height()), currX - minX, currY - minY))
    {}

    static function Bound(min: nat, value: nat, max: nat): nat {
      var v := if value < min then min else value;
      if v > max then max else v
    }

    /**
     Sets the region, cut down to the screen, with the cursor at its start. A corner off the screen is
     moved to the last row or column, and an end before the start to the start.
     */
    method SetScroll(x0: nat, y0: nat, x1: nat, y1: nat)
      requires video.Length0 == height > 0 && video.Length1 == width > 0
      modifies this
      ensures Valid() && currX == minX && currY == minY
      ensures minX == (if x0 < width then x0 else width - 1)
      ensures minY == (if y0 < height then y0 else height - 1)
      ensures maxX == (if x1 < minX then minX else if x1 < width then x1 else width - 1)
      ensures maxY == (if y1 < minY then minY else if y1 < height then y1 else height - 1)
    {
      minX := Bound(0, x0, width - 1);
      minY := Bound(0, y0, height - 1);
      maxX := Bound(minX, x1, width - 1);
      maxY := Bound(minY, y1, height - 1);
      currX, currY := minX, minY;
    }

    /** Blanks one row of the region. */
    method BlankLine(line: nat)
      requires Valid() && minY <= line <= maxY
      modifies video
      ensures forall y, x :: 0 <= y < height && 0 <= x < width ==>
                video[y, x] == if y == line && minX <= x <= maxX then BLANK else old(video[y, x])
    {
      for c := 0 to maxX - minX + 1
        invariant forall y, x :: 0 <= y < height && 0 <= x < width ==>
                    video[y, x] == if y == line && minX <= x < minX + c then BLANK else old(video[y, x])
      {
        video[line, minX + c] := BLANK;
      }
    }

    /** Copies one row of the region from `lines` further down. */
    method CopyLine(line: nat, lines: nat)
      requires Valid() && minY <= line <= line + lines <= maxY
      modifies video
      ensures forall y, x :: 0 <= y < height && 0 <= x < width ==>
                video[y, x] == old(video[if y == line && minX <= x <= maxX then y + lines else y, x])
    {
      for c := 0 to maxX - minX + 1
        invariant forall y, x :: 0 <= y < height && 0 <= x < width ==>
                    video[y, x] == old(video[if y == line && minX <= x < minX + c then y + lines else y, x])
      {
        video[line, minX + c] := video[line + lines, minX + c];
      }
    }

    method ClearScroll()
      requires Valid()
      modifies video
      ensures forall y, x :: 0 <= y < height && 0 <= x < width ==>
                video[y, x] == if InRegion(x, y) then BLANK else old(video[y, x])
    {
      var l := minY;
      while l <= maxY
        invariant minY <= l <= maxY + 1
        invariant forall y, x :: 0 <= y < height && 0 <= x < width ==>
                    video[y, x] == if InRegion(x, y) && y < l then BLANK else old(video[y, x])
      {
        BlankLine(l);
        l := l + 1;
      }
    }

    method Scroll(lines: nat)
      requires Valid()
      modifies video, `currX, `currY
      ensures Valid()
      ensures forall y, x :: 0 <= y < height && 0 <= x < width ==>
                video[y, x] == if !InRegion(x, y) then old(video[y, x])
                               else if y + lines <= maxY then old(video[y + lines, x]) else BLANK
      ensures currX == (if lines > maxY - minY then minX else old(currX))
      ensures currY == (if lines > maxY - minY then minY else old(currY))
    {
      if lines > maxY - minY {
        ClearScroll();
        currX, currY := minX, minY;
        return;
      }
      var line := minY;
      while line <= maxY - lines
        invariant minY <= line <= maxY - lines + 1
        invariant currX == old(currX) && currY == old(currY)
        invariant forall y, x :: 0 <= y < height && 0 <= x < width ==>
                    video[y, x] == if !InRegion(x, y) || y >= line then old(video[y, x])
                                   else if y + lines <= maxY then old(video[y + lines, x]) else BLANK
      {
        CopyLine(line, lines);
        line := line + 1;
      }
      while line <= maxY
        invariant maxY - lines + 1 <= line <= maxY + 1
        invariant currX == old(currX) && currY == old(currY)
        invariant forall y, x :: 0 <= y < height && 0 <= x < width ==>
                    video[y, x] == if !InRegion(x, y) || y >= line then old(video[y, x])
                                   else if y + lines <= maxY then old(video[y + lines, x]) else BLANK
      {
        BlankLine(line);
        line := line + 1;
      }
    }

    /** Output to the screen; nothing happens off it. */
    method PutcharAt(x: nat, y: nat, c: nat)
      requires video.Length0 == height && video.Length1 == width
      modifies video
      ensures forall v, u :: 0 <= v < height && 0 <= u < width ==>
                video[v, u] == if v != y || u != x then old(video[v, u])
                               else if c > 0xff then c % 0x1_0000 else 0x0700 + c
    {
      if x < width && y < height {
        if c > 0xff {
          video[y, x] := c % U16;
        } else {
          video[y, x] := c + WHITE_ON_BLACK;
        }
      }
    }

    /** The delayed scroll: the paper is fed if the cursor is below the region. */
    method Feed(ghost p: Paper)
      requires Valid() && Shows(p)
      modifies video, `currX, `currY
      ensures Valid() && currY <= maxY && Shows(Fed(p, Width()))
      ensures forall y, x :: 0 <= y < height && 0 <= x < width && !InRegion(x, y) ==> video[y, x] == old(video[y, x])
    {
      if currY > maxY {
        FeedScrolls(p, Width(), Height());
        Scroll(currY - maxY);
        currY := maxY;
      }
    }

    /** Erases the rest of the line and goes to the start of the next. */
    method NewLine()
      requires Valid() && currY <= maxY
      modifies video, `currX, `currY
      ensures Valid() && currX == minX && currY == old(currY) + 1
      ensures forall y, x :: 0 <= y < height && 0 <= x < width ==>
                video[y, x] == if y == old(currY) && old(currX) <= x <= maxX then BLANK else old(video[y, x])
    {
      while currX <= maxX
        invariant Placed() && old(currX) <= currX <= maxX + 1 && currY == old(currY)
        invariant forall y, x :: 0 <= y < height && 0 <= x < width ==>
                    video[y, x] == if y == currY && old(currX) <= x < currX then BLANK else old(video[y, x])
      {
        PutcharAt(currX, currY, 32);
        currX := currX + 1;
      }
      currX := minX;
      currY := currY + 1;
    }

    /** Of plain text, what is still in the region stands there character by character. */
    lemma TextShown(p: Paper, text: seq<nat>, i: nat, q: Paper, r: nat, j: nat)
      requires Valid() && Sheet(p, Width()) && q == TypeAll(p, Width(), text) && Shows(q)
      requires i < |text| && forall j :: 0 <= j < |text| ==> Plain(text[j])
      requires j < Width() && r * Width() + j == p.y * Width() + p.x + i && r + Height() >= |q.rows|
      ensures var y, x := minY + r + Height() - |q.rows|, minX + j;
              InRegion(x, y) && video[y, x] == if text[i] > 0xff then text[i] % 0x1_0000 else 0x0700 + text[i]
    {
      PlainTextStands(p, Width(), text, i, r, j);
      ShownAt(q, r, j);
    }

    lemma ShownAt(q: Paper, r: nat, j: nat)
      requires Valid() && Shows(q) && r < |q.rows| <= r + Height() && j < Width()
      ensures var y, x := minY + r + Height() - |q.rows|, minX + j; InRegion(x, y) && video[y, x] == q.rows[r][j]
    {
      var y, x := minY + r + Height() - |q.rows|, minX + j;
      assert InRegion(x, y) && video[y, x] == Shown(q, y, x);
    }

    /** The region shows this paper with one more character on it. */
    ghost predicate ShowsTyped(f: Paper, c: nat)
      requires Placed() && Sheet(f, Width()) && f.y < |f.rows| && Height() <= |f.rows|
      reads this, video
    {
      forall y: nat, x: nat :: InRegion(x, y) ==>
        video[y, x] == TypedCell(f, Width(), c, |f.rows| - Height() + (y - minY), x - minX)
    }

    lemma TypedShown(p: Paper, c: nat)
      requires Placed() && Sheet(p, Width()) && Height() <= |p.rows| && ShowsTyped(Fed(p, Width()), c)
      ensures var q := Type(p, Width(), c);
              && |q.rows| == |Fed(p, Width()).rows|
              && forall y: nat, x: nat :: InRegion(x, y) ==> video[y, x] == Shown(q, y, x)
    {
      TypedCells(p, Width(), c);
    }

    /** The character itself, once there is a row for it. */
    method Strike(c: nat, ghost f: Paper)
      requires Valid() && currY <= maxY && Shows(f) && f.y < |f.rows|
      modifies video, `currX, `currY
      ensures Valid() && ShowsTyped(f, c)
      ensures currX == (if c % 256 == NEWLINE || c % 256 == RETURN || old(currX) == maxX then minX else old(currX) + 1)
      ensures currY == old(currY)
                       + if c % 256 == NEWLINE || (c % 256 != RETURN && old(currX) == maxX) then 1 else 0
      ensures forall y, x :: 0 <= y < height && 0 <= x < width && !InRegion(x, y) ==> video[y, x] == old(video[y, x])
    {
      if c % 256 == NEWLINE {
        NewLine();
      } else if c % 256 == RETURN {
        currX := minX;
      } else {
        PutcharAt(currX, currY, c);
        currX := currX + 1;
        if currX > maxX {
          currX := minX;
          currY := currY + 1;
        }
      }
    }

    /**
     One character on the region is one character on the paper that the region shows. The cells outside are
     left alone, and the cursor stays in the region or goes to the start of the line below.
     */
    method Putchar(c: nat, ghost p: Paper)
      requires Valid() && Shows(p)
      modifies video, `currX, `currY
      ensures Valid() && Shows(Type(p, Width(), c))
      ensures forall y, x :: 0 <= y < height && 0 <= x < width && !InRegion(x, y) ==> video[y, x] == old(video[y, x])
    {
      Feed(p);
      Strike(c, Fed(p, Width()));
      TypedShown(p, c);
    }

    /** And so for a string. */
    method Puts(text: seq<nat>, ghost p: Paper)
      requires Valid() && Shows(p)
      modifies video, `currX, `currY
      ensures Valid() && Shows(TypeAll(p, Width(), text))
      ensures forall y, x :: 0 <= y < height && 0 <= x < width && !InRegion(x, y) ==> video[y, x] == old(video[y, x])
    {
      ghost var q := p;
      for i := 0 to |text|
        invariant Valid() && Shows(q) && TypeAll(q, Width(), text[i..]) == TypeAll(p, Width(), text)
        invariant forall y, x :: 0 <= y < height && 0 <= x < width && !InRegion(x, y) ==>
                    video[y, x] == old(video[y, x])
      {
        assert text[i..][1..] == text[i + 1..];
        Putchar(text[i], q);
        q := Type(q, Width(), text[i]);
      }
    }
  }
}
