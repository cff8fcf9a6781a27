/** day08: a 50 x 6 screen of pixels, indexed `board[x][y]`, driven by
    `rect AxB`, `rotate row y=R by N` and `rotate column x=C by N`. */
module Display {
  import opened Common
  import opened Text
  import opened Modular

  const Width: nat := 50
  const Height: nat := 6

  /** The screen as a value: `Width` columns of `Height` pixels. */
  type Picture = seq<seq<bool>>

  predicate WellShaped(p: Picture) {
    |p| == Width && forall x :: 0 <= x < Width ==> |p[x]| == Height
  }

  function Blank(): (p: Picture)
    ensures WellShaped(p)
  {
    seq(Width, x => seq(Height, y => false))
  }

  /** `rect`: every (x, y) with x < w and y < h turned on. */
  function RectPic(p: Picture, w: nat, h: nat): (r: Picture)
    requires WellShaped(p)
    ensures WellShaped(r)
  {
    seq(Width, x requires 0 <= x < Width =>
      seq(Height, y requires 0 <= y < Height => p[x][y] || (x < w && y < h)))
  }

  /** The index whose content a rotation by n moves to index i, in a line
      of m. */
  function Origin(i: int, n: int, m: nat): (o: nat)
    requires m > 0
    ensures o < m
  {
    (i - n) % m
  }

  /** `rotate row`: row `row` shifted right by n, wrapping at `Width`. */
  function RotateRowPic(p: Picture, row: nat, n: nat): (r: Picture)
    requires WellShaped(p) && row < Height
    ensures WellShaped(r)
  {
    seq(Width, x requires 0 <= x < Width =>
      seq(Height, y requires 0 <= y < Height => if y == row then p[Origin(x, n, Width)][y] else p[x][y]))
  }

  /** `rotate column`: column `col` shifted down by n, wrapping at
      `Height`. */
  function RotateColumnPic(p: Picture, col: nat, n: nat): (r: Picture)
    requires WellShaped(p) && col < Width
    ensures WellShaped(r)
  {
    seq(Width, x requires 0 <= x < Width =>
      if x == col then seq(Height, y requires 0 <= y < Height => p[x][Origin(y, n, Height)]) else p[x])
  }

  datatype Command =
    | Rect(w: nat, h: nat)
    | RotateRow(row: nat, amount: nat)
    | RotateColumn(col: nat, amount: nat)

  /** The parse of one line. `rect` parses the height first and the width
      only inside the loop over the rows, so a height of 0 never parses the
      width and sets nothing: that becomes `Rect(0, 0)`. `rotate` parses the
      amount, then the index after `=`, and only then looks at `row` or
      `column`. */
  function ParseCommand(line: string): (r: Result<Command>)
    ensures var t := SplitWhitespace(line);
      r.Ok? ==> |t| > 0 && (t[0] == "rect" || t[0] == "rotate")
    ensures var t := SplitWhitespace(line);
      |t| > 0 && t[0] == "rect" ==>
        (r.Ok? <==>
          (|t| >= 2 && SplitOnce(t[1], "x").Some?
           && ParseUsize(SplitOnce(t[1], "x").value.1).Some?
           && (ParseUsize(SplitOnce(t[1], "x").value.1).value == 0
               || ParseUsize(SplitOnce(t[1], "x").value.0).Some?)))
    ensures var t := SplitWhitespace(line);
      r.Ok? && |t| >= 2 && t[0] == "rect" ==>
        var (wText, hText) := SplitOnce(t[1], "x").value;
        r.value == if ParseUsize(hText).value == 0 then Rect(0, 0)
                   else Rect(ParseUsize(wText).value, ParseUsize(hText).value)
    ensures var t := SplitWhitespace(line);
      |t| > 0 && t[0] == "rotate" ==>
        (r.Ok? <==>
          (|t| >= 5 && ParseUsize(t[4]).Some? && SplitOnce(t[2], "=").Some?
           && ParseUsize(SplitOnce(t[2], "=").value.1).Some? && (t[1] == "row" || t[1] == "column")))
    ensures var t := SplitWhitespace(line);
      r.Ok? && |t| >= 5 && t[0] == "rotate" ==>
        var index, amount := ParseUsize(SplitOnce(t[2], "=").value.1).value, ParseUsize(t[4]).value;
        r.value == if t[1] == "row" then RotateRow(index, amount) else RotateColumn(index, amount)
  {
    var tokens := SplitWhitespace(line);
    if |tokens| == 0 then Panic("index out of bounds")
    else if tokens[0] == "rect" then
      if |tokens| < 2 then Panic("index out of bounds")
      else
        match SplitOnce(tokens[1], "x")
        case None => Panic("called `Option::unwrap()` on a `None` value")
        case Some((wText, hText)) =>
          match ParseUsize(hText)
          case None => Panic("called `Result::unwrap()` on an `Err` value")
          case Some(h) =>
            if h == 0 then Ok(Rect(0, 0))
            else
              match ParseUsize(wText)
              case None => Panic("called `Result::unwrap()` on an `Err` value")
              case Some(w) => Ok(Rect(w, h))
    else if tokens[0] == "rotate" then
      if |tokens| < 5 then Panic("index out of bounds")
      else
        match ParseUsize(tokens[4])
        case None => Panic("called `Result::unwrap()` on an `Err` value")
        case Some(amount) =>
          match SplitOnce(tokens[2], "=")
          case None => Panic("called `Option::unwrap()` on a `None` value")
          case Some((_, indexText)) =>
            match ParseUsize(indexText)
            case None => Panic("called `Result::unwrap()` on an `Err` value")
            case Some(index) =>
              if tokens[1] == "row" then Ok(RotateRow(index, amount))
              else if tokens[1] == "column" then Ok(RotateColumn(index, amount))
              else Panic("Unexpected rotation")
    else Panic("Unexpected command")
  }

  /** The words of a command in the puzzle's wording. */
  function Tokens(cmd: Command): seq<string> {
    match cmd
    case Rect(w, h) => ["rect", ShowNat(w) + "x" + ShowNat(h)]
    case RotateRow(row, n) => ["rotate", "row", "y=" + ShowNat(row), "by", ShowNat(n)]
    case RotateColumn(col, n) => ["rotate", "column", "x=" + ShowNat(col), "by", ShowNat(n)]
  }

  /** The command's line: its words separated by single spaces. */
  function Show(cmd: Command): string {
    Join(Tokens(cmd), " ")
  }

  /** The numbers of a command fit a usize; a `rect` of height 0 reads
      back as `Rect(0, 0)`, so only that one of them is writable. */
  predicate Writable(cmd: Command) {
    match cmd
    case Rect(w, h) => w <= USIZE_MAX && h <= USIZE_MAX && (h > 0 || w == 0)
    case RotateRow(row, n) => row <= USIZE_MAX && n <= USIZE_MAX
    case RotateColumn(col, n) => col <= USIZE_MAX && n <= USIZE_MAX
  }

  /** Non-empty words without whitespace, as `split_whitespace` yields them. */
  predicate Words(ws: seq<string>) {
    forall k :: 0 <= k < |ws| ==> ws[k] != [] && NoWhitespace(ws[k])
  }

  lemma WordsJoin(a: seq<string>, b: seq<string>)
    requires Words(a) && Words(b)
    ensures Words(a + b)
  {
    forall k | 0 <= k < |a + b| ensures (a + b)[k] != [] && NoWhitespace((a + b)[k]) {
      if k >= |a| {
        assert (a + b)[k] == b[k - |a|];
      }
    }
  }

  /** The fixed words of the two rotations. */
  lemma RotateWord(kind: string)
    requires kind == "row" || kind == "column"
    ensures Words(["rotate", kind])
  {
  }

  /** `y=R` or `x=C` is one word. */
  lemma IndexWord(axis: string, index: nat)
    requires axis == "x" || axis == "y"
    requires index <= USIZE_MAX
    ensures var w := axis + "=" + ShowNat(index); w != [] && NoWhitespace(w)
  {
    NumberWord(index);
    Labelled(axis, '=', ShowNat(index));
  }

  /** The words after the index of a rotation. */
  lemma TailWords(index: string, n: nat)
    requires index != [] && NoWhitespace(index) && n <= USIZE_MAX
    ensures Words([index, "by", ShowNat(n)])
  {
    NumberWord(n);
  }

  /** Every writable command is read back from its puzzle wording. */
  lemma ParseShow(cmd: Command)
    requires Writable(cmd)
    ensures ParseCommand(Show(cmd)) == Ok(cmd)
  {
    match cmd
    case Rect(w, h) => ShowRect(w, h);
    case RotateRow(row, n) => ShowRow(row, n);
    case RotateColumn(col, n) => ShowColumn(col, n);
  }

  lemma ShowRect(w: nat, h: nat)
    requires Writable(Rect(w, h))
    ensures ParseCommand(Show(Rect(w, h))) == Ok(Rect(w, h))
  {
    RectWords(w, h);
    SplitJoinedTokens(Tokens(Rect(w, h)));
    ParseRectWords(Show(Rect(w, h)), w, h);
  }

  lemma RectWords(w: nat, h: nat)
    requires Writable(Rect(w, h))
    ensures Words(Tokens(Rect(w, h)))
  {
    NumberWord(w);
    NumberWord(h);
    Labelled(ShowNat(w), 'x', ShowNat(h));
  }

  lemma ShowRow(row: nat, n: nat)
    requires Writable(RotateRow(row, n))
    ensures ParseCommand(Show(RotateRow(row, n))) == Ok(RotateRow(row, n))
  {
    RowWords(row, n);
    SplitJoinedTokens(Tokens(RotateRow(row, n)));
    ParseRowWords(Show(RotateRow(row, n)), row, n);
  }

  lemma RowWords(row: nat, n: nat)
    requires Writable(RotateRow(row, n))
    ensures Words(Tokens(RotateRow(row, n)))
  {
    var index := "y=" + ShowNat(row);
    IndexWord("y", row);
    TailWords(index, n);
    RotateWord("row");
    WordsJoin(["rotate", "row"], [index, "by", ShowNat(n)]);
    assert Tokens(RotateRow(row, n)) == ["rotate", "row"] + [index, "by", ShowNat(n)];
  }

  lemma ShowColumn(col: nat, n: nat)
    requires Writable(RotateColumn(col, n))
    ensures ParseCommand(Show(RotateColumn(col, n))) == Ok(RotateColumn(col, n))
  {
    ColumnWords(col, n);
    SplitJoinedTokens(Tokens(RotateColumn(col, n)));
    ParseColumnWords(Show(RotateColumn(col, n)), col, n);
  }

  lemma ColumnWords(col: nat, n: nat)
    requires Writable(RotateColumn(col, n))
    ensures Words(Tokens(RotateColumn(col, n)))
  {
    var index := "x=" + ShowNat(col);
    IndexWord("x", col);
    TailWords(index, n);
    RotateWord("column");
    WordsJoin(["rotate", "column"], [index, "by", ShowNat(n)]);
    assert Tokens(RotateColumn(col, n)) == ["rotate", "column"] + [index, "by", ShowNat(n)];
  }

  /** A line whose words are those of a writable `rect` parses to it. */
  lemma ParseRectWords(line: string, w: nat, h: nat)
    requires Writable(Rect(w, h)) && SplitWhitespace(line) == Tokens(Rect(w, h))
    ensures ParseCommand(line) == Ok(Rect(w, h))
  {
    NumberWord(w);
    NumberWord(h);
    SplitOnceAt(ShowNat(w), 'x', ShowNat(h));
  }

  /** A line whose words are those of a writable `rotate row` parses to it. */
  lemma ParseRowWords(line: string, row: nat, n: nat)
    requires Writable(RotateRow(row, n)) && SplitWhitespace(line) == Tokens(RotateRow(row, n))
    ensures ParseCommand(line) == Ok(RotateRow(row, n))
  {
    NumberWord(row);
    NumberWord(n);
    SplitOnceAt("y", '=', ShowNat(row));
    assert "y" + "=" + ShowNat(row) == "y=" + ShowNat(row);
  }

  /** A line whose words are those of a writable `rotate column` parses to it. */
  lemma ParseColumnWords(line: string, col: nat, n: nat)
    requires Writable(RotateColumn(col, n)) && SplitWhitespace(line) == Tokens(RotateColumn(col, n))
    ensures ParseCommand(line) == Ok(RotateColumn(col, n))
  {
    NumberWord(col);
    NumberWord(n);
    SplitOnceAt("x", '=', ShowNat(col));
    assert "x" + "=" + ShowNat(col) == "x=" + ShowNat(col);
  }

  lemma NumberWord(n: nat)
    requires n <= USIZE_MAX
    ensures ShowNat(n) != [] && NoWhitespace(ShowNat(n)) && ParseUsize(ShowNat(n)) == Some(n)
    ensures 'x' !in ShowNat(n) && '=' !in ShowNat(n)
  {
    ShowNatToken(n);
    ParseShowNat(n, USIZE_MAX);
    var digits := ShowNat(n);
    assert forall k :: 0 <= k < |digits| ==> IsDigit(digits[k]);
  }

  /** A label, a separator and a value, none of them whitespace, make one word. */
  lemma Labelled(tag: string, sep: char, value: string)
    requires NoWhitespace(tag) && !IsWhitespace(sep) && NoWhitespace(value)
    ensures NoWhitespace(tag + [sep] + value)
  {
    var s := tag + [sep] + value;
    forall k | 0 <= k < |s| ensures !IsWhitespace(s[k]) {
      if k < |tag| {
        assert s[k] == tag[k];
      } else if k > |tag| {
        assert s[k] == value[k - |tag| - 1];
      }
    }
  }

  /** Whether a command indexes outside the board: `rect` past column 49 or
      row 5 when it sets anything at all, `rotate row` at a row above 5
      (read from every column), `rotate column` at a column above 49. */
  predicate OutOfBounds(cmd: Command) {
    match cmd
    case Rect(w, h) => w > 0 && h > 0 && (w > Width || h > Height)
    case RotateRow(row, _) => row >= Height
    case RotateColumn(col, _) => col >= Width
  }

  function ApplyPic(p: Picture, cmd: Command): (r: Result<Picture>)
    requires WellShaped(p)
    ensures r.Ok? ==> WellShaped(r.value)
  {
    if OutOfBounds(cmd) then Panic("index out of bounds")
    else
      match cmd
      case Rect(w, h) => Ok(RectPic(p, w, h))
      case RotateRow(row, n) => Ok(RotateRowPic(p, row, n))
      case RotateColumn(col, n) => Ok(RotateColumnPic(p, col, n))
  }

  /** The `for line in lines` loop on values: parse, then apply. */
  function RunPic(p: Picture, lines: seq<string>): (r: Result<Picture>)
    requires WellShaped(p)
    ensures r.Ok? ==> WellShaped(r.value)
    decreases |lines|
  {
    if lines == [] then Ok(p)
    else
      match ParseCommand(lines[0])
      case Panic(why) => Panic(why)
      case Ok(cmd) =>
        match ApplyPic(p, cmd)
        case Panic(why) => Panic(why)
        case Ok(q) => RunPic(q, lines[1..])
  }

  /** `iter().filter(|v| **v).count()`. */
  function CountOn(s: seq<bool>): (n: nat)
    ensures n <= |s|
    decreases |s|
  {
    if s == [] then 0 else CountOn(s[..|s| - 1]) + (if s[|s| - 1] then 1 else 0)
  }

  /** `pixels_lit`: the per-column counts summed. */
  function Lit(p: seq<seq<bool>>): nat
    decreases |p|
  {
    if p == [] then 0 else Lit(p[..|p| - 1]) + CountOn(p[|p| - 1])
  }

  /** The pixels of row y, across the columns. */
  function Row(p: seq<seq<bool>>, y: nat): (r: seq<bool>)
    requires forall x :: 0 <= x < |p| ==> y < |p[x]|
    ensures |r| == |p|
  {
    seq(|p|, x requires 0 <= x < |p| => p[x][y])
  }

  /** The per-row counts of rows 0..k summed. */
  function LitByRows(p: seq<seq<bool>>, k: nat): nat
    requires forall x :: 0 <= x < |p| ==> k <= |p[x]|
    decreases k
  {
    if k == 0 then 0 else LitByRows(p, k - 1) + CountOn(Row(p, k - 1))
  }

  // ---------------------------------------------------------------------
  // The board, mutated in place

  class Screen {
    var board: array2<bool>

    ghost predicate Valid()
      reads this
    {
      board.Length0 == Width && board.Length1 == Height
    }

    function Picture(): (p: Picture)
      reads this, board
      requires Valid()
      ensures WellShaped(p)
    {
      var grid := board;
      seq(Width, x requires 0 <= x < Width reads grid =>
        seq(Height, y requires 0 <= y < Height reads grid => grid[x, y]))
    }

    /** `vec![vec![false; 6]; 50]`. */
    constructor()
      ensures Valid() && fresh(board)
      ensures Picture() == Blank()
    {
      board := new bool[Width, Height]((x, y) => false);
      new;
      PictureFrom(Blank());
    }

    /** The two `for` loops of `rect`. */
    method Rect(w: nat, h: nat) returns (r: Result<()>)
      requires Valid()
      modifies board
      ensures Valid()
      ensures r == if OutOfBounds(Command.Rect(w, h)) then Panic("index out of bounds") else Ok(())
      ensures r.Ok? ==> Picture() == RectPic(old(Picture()), w, h)
    {
      if OutOfBounds(Command.Rect(w, h)) {
        return Panic("index out of bounds");
      }
      ghost var before := Picture();
      for y := 0 to h
        invariant forall i, j :: 0 <= i < Width && 0 <= j < Height ==>
          board[i, j] == (before[i][j] || (i < w && j < y && j < h))
      {
        for x := 0 to w
          invariant forall i, j :: 0 <= i < Width && 0 <= j < Height ==>
            board[i, j] == (before[i][j] || (i < w && j < y && j < h) || (j == y && i < x))
        {
          board[x, y] := true;
        }
      }
      PictureFrom(RectPic(before, w, h));
      r := Ok(());
    }

    /** `rotate row`: the old row is copied out, then written back shifted. */
    method RotateRow(row: nat, amount: nat) returns (r: Result<()>)
      requires Valid()
      modifies board
      ensures Valid()
      ensures r == if row >= Height then Panic("index out of bounds") else Ok(())
      ensures r.Ok? ==> Picture() == RotateRowPic(old(Picture()), row, amount)
    {
      if row >= Height {
        return Panic("index out of bounds");
      }
      ghost var before := Picture();
      var grid := board;
      var oldRow := seq(Width, x requires 0 <= x < Width reads grid => grid[x, row]);
      for x := 0 to Width
        invariant forall i, j :: 0 <= i < Width && 0 <= j < Height ==>
          board[i, j] == if j == row && Origin(i, amount, Width) < x then before[Origin(i, amount, Width)][j] else before[i][j]
      {
        ShiftCases(x, amount, Width);
        board[(x + amount) % Width, row] := oldRow[x];
      }
      PictureFrom(RotateRowPic(before, row, amount));
      r := Ok(());
    }

    /** `rotate column`: the old column is cloned, then written back
        shifted. */
    method RotateColumn(col: nat, amount: nat) returns (r: Result<()>)
      requires Valid()
      modifies board
      ensures Valid()
      ensures r == if col >= Width then Panic("index out of bounds") else Ok(())
      ensures r.Ok? ==> Picture() == RotateColumnPic(old(Picture()), col, amount)
    {
      if col >= Width {
        return Panic("index out of bounds");
      }
      ghost var before := Picture();
      var grid := board;
      var oldColumn := seq(Height, y requires 0 <= y < Height reads grid => grid[col, y]);
      for y := 0 to Height
        invariant forall i, j :: 0 <= i < Width && 0 <= j < Height ==>
          board[i, j] == if i == col && Origin(j, amount, Height) < y then before[i][Origin(j, amount, Height)] else before[i][j]
      {
        ShiftCases(y, amount, Height);
        board[col, (y + amount) % Height] := oldColumn[y];
      }
      PictureFrom(RotateColumnPic(before, col, amount));
      r := Ok(());
    }

    method Execute(cmd: Command) returns (r: Result<()>)
      requires Valid()
      modifies board
      ensures Valid()
      ensures ApplyPic(old(Picture()), cmd) == if r.Ok? then Ok(Picture()) else Panic(r.reason)
    {
      match cmd
      case Rect(w, h) => r := Rect(w, h);
      case RotateRow(row, n) => r := RotateRow(row, n);
      case RotateColumn(col, n) => r := RotateColumn(col, n);
    }

    /** The picture equals `target` when every pixel does. */
    lemma PictureFrom(target: Picture)
      requires Valid() && WellShaped(target)
      requires forall i, j :: 0 <= i < Width && 0 <= j < Height ==> board[i, j] == target[i][j]
      ensures Picture() == target
    {
      var p := Picture();
      forall i | 0 <= i < Width ensures p[i] == target[i] {
      }
    }
  }

  /** `main`: every line in turn on a fresh board, then the lit count. */
  method LitAfter(lines: seq<string>) returns (r: Result<nat>)
    ensures r == MapResult(RunPic(Blank(), lines), Lit)
  {
    var screen := new Screen();
    for k := 0 to |lines|
      invariant screen.Valid() && fresh(screen.board)
      invariant RunPic(Blank(), lines) == RunPic(screen.Picture(), lines[k..])
    {
      assert lines[k..][0] == lines[k] && lines[k..][1..] == lines[k + 1..];
      var cmd := ParseCommand(lines[k]);
      if cmd.Panic? {
        return Panic(cmd.reason);
      }
      var status := screen.Execute(cmd.value);
      if status.Panic? {
        return Panic(status.reason);
      }
    }
    r := Ok(Lit(screen.Picture()));
  }

  /** Exactly one index of a line receives the content of index x. */
  lemma ShiftCases(x: nat, n: nat, m: nat)
    requires x < m
    ensures Origin((x + n) % m, n, m) == x
    ensures forall i :: 0 <= i < m && Origin(i, n, m) == x ==> i == (x + n) % m
  {
    ShiftBack(x, n, m);
    forall i | 0 <= i < m && Origin(i, n, m) == x ensures i == (x + n) % m {
      ShiftFrom(i, n, m);
    }
  }

  // ---------------------------------------------------------------------
  // Properties

  /** `rect AxB` turns on every (x, y) with x < A and y < B, turns nothing
      off, and leaves every other pixel as it was. */
  lemma RectMeaning(p: Picture, w: nat, h: nat, x: nat, y: nat)
    requires WellShaped(p) && x < Width && y < Height
    ensures x < w && y < h ==> RectPic(p, w, h)[x][y]
    ensures p[x][y] ==> RectPic(p, w, h)[x][y]
    ensures !(x < w && y < h) ==> RectPic(p, w, h)[x][y] == p[x][y]
  {
  }

  /** Rotating row R by N moves pixel (x, R) to ((x + N) mod 50, R) and
      leaves the other rows alone. */
  lemma RotateRowMeaning(p: Picture, row: nat, n: nat, x: nat, y: nat)
    requires WellShaped(p) && row < Height && x < Width && y < Height
    ensures RotateRowPic(p, row, n)[(x + n) % Width][row] == p[x][row]
    ensures y != row ==> RotateRowPic(p, row, n)[x][y] == p[x][y]
  {
    ShiftCases(x, n, Width);
  }

  /** Rotating column C by N moves pixel (C, y) to (C, (y + N) mod 6) and
      leaves the other columns alone. */
  lemma RotateColumnMeaning(p: Picture, col: nat, n: nat, x: nat, y: nat)
    requires WellShaped(p) && col < Width && x < Width && y < Height
    ensures RotateColumnPic(p, col, n)[col][(y + n) % Height] == p[col][y]
    ensures x != col ==> RotateColumnPic(p, col, n)[x] == p[x]
  {
    ShiftCases(y, n, Height);
  }

  /** Rotating a row keeps the number of lit pixels. */
  lemma RowRotationKeepsLit(p: Picture, row: nat, n: nat)
    requires WellShaped(p) && row < Height
    ensures Lit(RotateRowPic(p, row, n)) == Lit(p)
  {
    var q := RotateRowPic(p, row, n);
    LitTwoWays(p, Height);
    LitTwoWays(q, Height);
    forall y | 0 <= y < Height ensures CountOn(Row(q, y)) == CountOn(Row(p, y)) {
      if y == row {
        RotatedCount(Row(p, y), Row(q, y), n);
      } else {
        assert Row(q, y) == Row(p, y);
      }
    }
    SameRowCounts(p, q, Height);
  }

  /** Rotating a column keeps the number of lit pixels. */
  lemma ColumnRotationKeepsLit(p: Picture, col: nat, n: nat)
    requires WellShaped(p) && col < Width
    ensures Lit(RotateColumnPic(p, col, n)) == Lit(p)
  {
    var q := RotateColumnPic(p, col, n);
    assert forall i :: 0 <= i < Height ==> q[col][i] == p[col][Origin(i, n, Height)];
    RotatedCount(p[col], q[col], n);
    SameColumnCounts(p, q, Width, col);
    assert p[..Width] == p && q[..Width] == q;
  }

  lemma {:induction false} SameRowCounts(p: Picture, q: Picture, k: nat)
    requires WellShaped(p) && WellShaped(q) && k <= Height
    requires forall y :: 0 <= y < Height ==> CountOn(Row(q, y)) == CountOn(Row(p, y))
    ensures LitByRows(q, k) == LitByRows(p, k)
    decreases k
  {
    if k > 0 {
      SameRowCounts(p, q, k - 1);
    }
  }

  lemma {:induction false} SameColumnCounts(p: Picture, q: Picture, n: nat, k: nat)
    requires |p| == |q| && n <= |p| && k < |p|
    requires CountOn(q[k]) == CountOn(p[k])
    requires forall x :: 0 <= x < |p| && x != k ==> q[x] == p[x]
    ensures Lit(q[..n]) == Lit(p[..n])
    decreases n
  {
    if n > 0 {
      SameColumnCounts(p, q, n - 1, k);
      assert q[..n][..n - 1] == q[..n - 1] && p[..n][..n - 1] == p[..n - 1];
    }
  }

  /** A rotation of a sequence, written with the index arithmetic of the
      loops, keeps its count. */
  lemma RotatedCount(s: seq<bool>, t: seq<bool>, n: nat)
    requires |s| == |t| > 0
    requires forall i :: 0 <= i < |t| ==> t[i] == s[Origin(i, n, |s|)]
    ensures CountOn(t) == CountOn(s)
  {
    var m := |s|;
    var c := n % m;
    forall i | 0 <= i < m ensures t[i] == (s[m - c..] + s[..m - c])[i] {
      RotIndex(i, n, m);
    }
    assert t == s[m - c..] + s[..m - c];
    CountConcat(s[m - c..], s[..m - c]);
    CountConcat(s[..m - c], s[m - c..]);
    assert s == s[..m - c] + s[m - c..];
  }

  lemma {:induction false} CountConcat(a: seq<bool>, b: seq<bool>)
    ensures CountOn(a + b) == CountOn(a) + CountOn(b)
    decreases |b|
  {
    if b != [] {
      CountConcat(a, b[..|b| - 1]);
      assert (a + b)[..|a + b| - 1] == a + b[..|b| - 1];
    } else {
      assert a + b == a;
    }
  }

  /** Summing by columns, as the program does, equals summing by rows. */
  lemma {:induction false} LitTwoWays(p: seq<seq<bool>>, h: nat)
    requires forall x :: 0 <= x < |p| ==> |p[x]| == h
    ensures Lit(p) == LitByRows(p, h)
    decreases |p|
  {
    if p == [] {
      ZeroRows(p, h);
    } else {
      var q := p[..|p| - 1];
      LitTwoWays(q, h);
      AddColumn(q, p[|p| - 1], h);
      assert q + [p[|p| - 1]] == p;
      assert p[|p| - 1][..h] == p[|p| - 1];
    }
  }

  lemma {:induction false} ZeroRows(p: seq<seq<bool>>, k: nat)
    requires p == []
    ensures LitByRows(p, k) == 0
    decreases k
  {
    if k > 0 {
      ZeroRows(p, k - 1);
    }
  }

  /** One more column adds its count to the row-wise sum. */
  lemma {:induction false} AddColumn(q: seq<seq<bool>>, c: seq<bool>, k: nat)
    requires forall x :: 0 <= x < |q| ==> k <= |q[x]|
    requires k <= |c|
    ensures LitByRows(q + [c], k) == LitByRows(q, k) + CountOn(c[..k])
    decreases k
  {
    if k > 0 {
      AddColumn(q, c, k - 1);
      assert Row(q + [c], k - 1) == Row(q, k - 1) + [c[k - 1]];
      assert c[..k][..k - 1] == c[..k - 1];
    }
  }

  /** Parsing panics on an unknown command word and an unknown rotation. */
  lemma ParsePanics(line: string)
    ensures var tokens := SplitWhitespace(line);
      |tokens| > 0 && tokens[0] != "rect" && tokens[0] != "rotate" ==> ParseCommand(line) == Panic("Unexpected command")
    ensures var tokens := SplitWhitespace(line);
      (|tokens| >= 5 && tokens[0] == "rotate" && tokens[1] != "row" && tokens[1] != "column"
       && ParseUsize(tokens[4]).Some? && SplitOnce(tokens[2], "=").Some?
       && ParseUsize(SplitOnce(tokens[2], "=").value.1).Some?) ==> ParseCommand(line) == Panic("Unexpected rotation")
  {
  }
}
