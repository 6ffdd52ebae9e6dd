/** The Python side of the sorting exercises: reading the tester's
    tab-separated report (`result`, `time`, the profiler's `perf_*` lines,
    the matrices of the failing input) into the values ppcgrader shows. */
module PpcSo {
  import opened Strs
  import opened PpcIo
  import Perf

  // ---------------------------------------------------------------------------
  // Stripping, int() of printed integers and str.splitlines()
  // ---------------------------------------------------------------------------

  lemma LStripKeeps(s: string, chars: set<char>)
    requires s != [] && s[0] !in chars
    ensures LStrip(s, chars) == s
  {
  }

  lemma RStripKeeps(s: string, chars: set<char>)
    requires s != [] && s[|s| - 1] !in chars
    ensures RStrip(s, chars) == s
  {
  }

  lemma LStripDrops(c: char, s: string, chars: set<char>)
    requires c in chars
    ensures LStrip([c] + s, chars) == LStrip(s, chars)
  {
    assert ([c] + s)[1..] == s;
  }

  lemma RStripDrops(s: string, c: char, chars: set<char>)
    requires c in chars
    ensures RStrip(s + [c], chars) == RStrip(s, chars)
  {
    assert (s + [c])[..|s|] == s;
  }

  /** A token of decimal integer text: digits and minus signs only. */
  predicate Token(t: string)
  {
    |t| >= 1 && forall i :: 0 <= i < |t| ==> IsDigit(t[i]) || t[i] == '-'
  }

  lemma IntTextToken(v: int)
    ensures Token(IntText(v))
  {
    IntTextChars(v);
  }

  /** int(str(v)) == v. */
  lemma PyIntText(v: int)
    ensures PyInt(IntText(v)) == Some(v)
  {
    var t := IntText(v);
    IntTextToken(v);
    LStripKeeps(t, Whitespace);
    RStripKeeps(t, Whitespace);
    IntTextRoundTrip(v);
  }

  /** str.splitlines() for text whose line breaks are "\n": no piece after a
      final line break, and no lines at all in the empty text. */
  function SplitLines(s: string): (lines: seq<string>)
    ensures forall i :: 0 <= i < |lines| ==> '\n' !in lines[i]
  {
    if s == "" then []
    else
      var pieces := Split(s, '\n');
      if pieces[|pieces| - 1] == "" then pieces[..|pieces| - 1] else pieces
  }

  /** Lines, each followed by a line break. */
  function Concat(lines: seq<string>): string
    decreases |lines|
  {
    if lines == [] then "" else lines[0] + "\n" + Concat(lines[1..])
  }

  lemma {:induction false} ConcatJoin(lines: seq<string>)
    ensures Join(lines + [""], "\n") == Concat(lines)
    decreases |lines|
  {
    if lines != [] {
      ConcatJoin(lines[1..]);
      assert (lines + [""])[1..] == lines[1..] + [""];
    }
  }

  lemma {:induction false} ConcatSnoc(lines: seq<string>, x: string)
    ensures Concat(lines + [x]) == Concat(lines) + x + "\n"
    decreases |lines|
  {
    if lines == [] {
      assert Concat([x]) == x + "\n" + Concat([]);
    } else {
      ConcatSnoc(lines[1..], x);
      assert (lines + [x])[1..] == lines[1..] + [x];
    }
  }

  /** Splitting text written line by line gives the lines back. */
  lemma LinesOfText(lines: seq<string>)
    requires forall i :: 0 <= i < |lines| ==> '\n' !in lines[i]
    ensures SplitLines(Concat(lines)) == lines
  {
    if lines != [] {
      var pieces := lines + [""];
      ConcatJoin(lines);
      assert forall i :: 0 <= i < |pieces| ==> '\n' !in pieces[i];
      SplitJoin(pieces, '\n');
      assert Concat(lines) != "" by {
        assert |Concat(lines)| >= 1;
      }
      assert pieces[..|pieces| - 1] == lines;
    }
  }

  // ---------------------------------------------------------------------------
  // parse_matrix
  // ---------------------------------------------------------------------------

  const Brackets: set<char> := {'[', ']'}

  /** The tokens of a list comprehension's `if e != ''`. */
  function NonEmpty(tokens: seq<string>): (r: seq<string>)
    ensures forall i :: 0 <= i < |r| ==> r[i] != ""
    decreases |tokens|
  {
    if tokens == [] then []
    else if tokens[0] == "" then NonEmpty(tokens[1..])
    else [tokens[0]] + NonEmpty(tokens[1..])
  }

  /** int() on every token, or None for the ValueError of the first bad one. */
  function Ints(tokens: seq<string>): (r: Option<seq<int>>)
    ensures r.Some? ==> |r.value| == |tokens|
    decreases |tokens|
  {
    if tokens == [] then Some([])
    else
      match PyInt(tokens[0])
      case None => None
      case Some(v) =>
        match Ints(tokens[1..])
        case None => None
        case Some(rest) => Some([v] + rest)
  }

  /** One ";"-separated piece: stripped, split on " ", emptied tokens dropped. */
  function RowTokens(piece: string): seq<string>
  {
    NonEmpty(Split(Strip(piece, Whitespace), ' '))
  }

  function IntRows(pieces: seq<string>): (r: Option<seq<seq<int>>>)
    ensures r.Some? ==> |r.value| == |pieces|
    decreases |pieces|
  {
    if pieces == [] then Some([])
    else
      match Ints(RowTokens(pieces[0]))
      case None => None
      case Some(row) =>
        match IntRows(pieces[1..])
        case None => None
        case Some(rest) => Some([row] + rest)
  }

  /** parse_matrix: None stands for the ValueError of a token int() rejects.
      A matrix always has at least one row. */
  function ParseMatrix(s: string): (r: Option<seq<seq<int>>>)
    ensures r.Some? ==> |r.value| >= 1
  {
    IntRows(Split(Strip(s, Brackets), ';'))
  }

  // ---------------------------------------------------------------------------
  // parse_matrix reads back what print_matrix writes
  // ---------------------------------------------------------------------------

  /** The decimal texts of a row of integers. */
  function IntTexts(row: seq<int>): (t: seq<string>)
    ensures |t| == |row| && forall j :: 0 <= j < |row| ==> t[j] == IntText(row[j])
  {
    seq(|row|, j requires 0 <= j < |row| => IntText(row[j]))
  }

  /** The decimal texts of a matrix of integers. */
  function Texts(m: seq<seq<int>>): (t: seq<seq<string>>)
    ensures |t| == |m| && forall i :: 0 <= i < |m| ==> t[i] == IntTexts(m[i])
  {
    seq(|m|, i requires 0 <= i < |m| => IntTexts(m[i]))
  }

  lemma {:induction false} JoinSnoc(a: seq<string>, x: string, sep: string)
    ensures Join(a + [x], sep) == if a == [] then x else Join(a, sep) + sep + x
    decreases |a|
  {
    if |a| >= 2 {
      JoinSnoc(a[1..], x, sep);
      assert (a + [x])[1..] == a[1..] + [x];
    } else if |a| == 1 {
      assert (a + [x])[1..] == [x];
    }
  }

  /** A row's text is a space followed by its cells joined by spaces. */
  lemma {:induction false} RowTextJoin(cells: seq<string>)
    ensures RowText(cells) == if cells == [] then "" else " " + Join(cells, " ")
    decreases |cells|
  {
    if cells != [] {
      var init, x := cells[..|cells| - 1], cells[|cells| - 1];
      assert cells == init + [x];
      RowTextJoin(init);
      JoinSnoc(init, x, " ");
      if init == [] {
        assert RowText(cells) == "" + " " + x;
      } else {
        assert RowText(cells) == (" " + Join(init, " ")) + " " + x;
      }
    }
  }

  /** The first and last characters of a join of non-empty pieces. */
  lemma {:induction false} JoinEnds(pieces: seq<string>, sep: string)
    requires |pieces| >= 1 && forall i :: 0 <= i < |pieces| ==> pieces[i] != ""
    ensures var j := Join(pieces, sep);
      |j| >= 1 && j[0] == pieces[0][0] && j[|j| - 1] == pieces[|pieces| - 1][|pieces[|pieces| - 1]| - 1]
    decreases |pieces|
  {
    if |pieces| >= 2 {
      JoinEnds(pieces[1..], sep);
    }
  }

  /** A character that occurs in no piece and not in the separator does not
      occur in their join. */
  lemma {:induction false} JoinFree(pieces: seq<string>, sep: string, c: char)
    requires c !in sep && forall i :: 0 <= i < |pieces| ==> c !in pieces[i]
    ensures c !in Join(pieces, sep)
    decreases |pieces|
  {
    if |pieces| >= 2 {
      JoinFree(pieces[1..], sep, c);
    }
  }

  lemma {:induction false} RowTextFree(cells: seq<string>, c: char)
    requires c != ' ' && forall i :: 0 <= i < |cells| ==> c !in cells[i]
    ensures c !in RowText(cells)
    decreases |cells|
  {
    if cells != [] {
      RowTextFree(cells[..|cells| - 1], c);
    }
  }

  lemma {:induction false} NonEmptyKeeps(tokens: seq<string>)
    requires forall i :: 0 <= i < |tokens| ==> tokens[i] != ""
    ensures NonEmpty(tokens) == tokens
    decreases |tokens|
  {
    if tokens != [] {
      NonEmptyKeeps(tokens[1..]);
    }
  }

  function Pieces(texts: seq<string>): (p: seq<string>)
    requires |texts| >= 1
    ensures |p| == |texts|
  {
    texts[..|texts| - 1] + [texts[|texts| - 1] + " "]
  }

  lemma {:induction false} JoinAppendTail(texts: seq<string>, sep: string, y: string)
    requires |texts| >= 1
    ensures Join(texts, sep) + y == Join(texts[..|texts| - 1] + [texts[|texts| - 1] + y], sep)
    decreases |texts|
  {
    if |texts| >= 2 {
      JoinAppendTail(texts[1..], sep, y);
      var p := texts[..|texts| - 1] + [texts[|texts| - 1] + y];
      assert p[1..] == texts[1..][..|texts[1..]| - 1] + [texts[1..][|texts[1..]| - 1] + y];
    }
  }

  lemma {:induction false} IntsOfTexts(row: seq<int>)
    ensures Ints(IntTexts(row)) == Some(row)
    decreases |row|
  {
    if row != [] {
      var t := IntTexts(row);
      assert row == [row[0]] + row[1..];
      assert t[1..] == IntTexts(row[1..]);
      PyIntText(row[0]);
      IntsOfTexts(row[1..]);
    }
  }

  lemma TextsAreTokens(row: seq<int>)
    ensures forall j :: 0 <= j < |IntTexts(row)| ==> Token(IntTexts(row)[j])
  {
    forall j | 0 <= j < |row| ensures Token(IntTexts(row)[j]) {
      IntTextToken(row[j]);
    }
  }

  /** Stripping the space before a row. */
  lemma StripLead(j: string)
    requires j != [] && j[0] !in Whitespace && j[|j| - 1] !in Whitespace
    ensures Strip([' '] + j, Whitespace) == j
  {
    LStripDrops(' ', j, Whitespace);
    LStripKeeps(j, Whitespace);
    RStripKeeps(j, Whitespace);
  }

  lemma StripNothing()
    ensures Strip("", Whitespace) == ""
  {
  }

  lemma StripSpace()
    ensures Strip(" ", Whitespace) == ""
  {
    assert [' '] + "" == " ";
    LStripDrops(' ', "", Whitespace);
    StripNothing();
  }

  lemma StripEmptyRow()
    ensures RowTokens("") == [] && RowTokens(" ") == []
  {
    StripNothing();
    StripSpace();
    assert Split("", ' ') == [""];
    assert NonEmpty([""]) == [];
  }

  /** Splitting cells joined by single spaces gives the cells back. */
  lemma SplitTokens(cells: seq<string>)
    requires |cells| >= 1 && forall i :: 0 <= i < |cells| ==> Token(cells[i])
    ensures NonEmpty(Split(Join(cells, " "), ' ')) == cells
  {
    forall i | 0 <= i < |cells| ensures ' ' !in cells[i] && cells[i] != "" {
      assert Token(cells[i]);
    }
    SplitJoin(cells, ' ');
    NonEmptyKeeps(cells);
  }

  /** Joined cells neither start nor end with white space. */
  lemma JoinedEnds(cells: seq<string>)
    requires |cells| >= 1 && forall i :: 0 <= i < |cells| ==> Token(cells[i])
    ensures var j := Join(cells, " "); j != [] && j[0] !in Whitespace && j[|j| - 1] !in Whitespace
  {
    assert Token(cells[0]) && Token(cells[|cells| - 1]);
    assert forall i :: 0 <= i < |cells| ==> cells[i] != "";
    JoinEnds(cells, " ");
  }

  /** The spaces around joined cells are stripped away. */
  lemma StripJoined(cells: seq<string>)
    requires |cells| >= 1 && forall i :: 0 <= i < |cells| ==> Token(cells[i])
    ensures Strip(" " + Join(cells, " "), Whitespace) == Join(cells, " ")
    ensures Strip(" " + Join(cells, " ") + " ", Whitespace) == Join(cells, " ")
  {
    JoinedEnds(cells);
    var j := Join(cells, " ");
    StripLead(j);
    assert " " + j + " " == [' '] + j + [' '];
    StripFrame(' ', j, ' ', Whitespace);
  }

  /** The tokens of a printed row, with or without the space before "]". */
  lemma TokensOfRow(cells: seq<string>)
    requires forall i :: 0 <= i < |cells| ==> Token(cells[i])
    ensures RowTokens(RowText(cells)) == cells
    ensures RowTokens(RowText(cells) + " ") == cells
  {
    RowTextJoin(cells);
    if cells == [] {
      StripEmptyRow();
    } else {
      StripJoined(cells);
      SplitTokens(cells);
    }
  }

  /** A piece of a printed matrix holding a row: its text, followed by the
      space before "]" in the last row. */
  predicate Printed(row: seq<int>, piece: string)
  {
    piece == RowText(IntTexts(row)) || piece == RowText(IntTexts(row)) + " "
  }

  /** Reading one printed row of integers back. */
  lemma RowTokensOfRow(row: seq<int>, piece: string)
    requires Printed(row, piece)
    ensures Ints(RowTokens(piece)) == Some(row)
  {
    TextsAreTokens(row);
    TokensOfRow(IntTexts(row));
    IntsOfTexts(row);
  }

  /** The joined rows start with the space of the first element, or with ";"
      or " ]" when the first row is empty. */
  lemma JoinedRowsStart(texts: seq<string>)
    requires |texts| >= 1 && (texts[0] == "" || texts[0][0] == ' ')
    ensures var y := Join(texts, ";") + " "; y[0] == ' ' || y[0] == ';'
  {
    var j := Join(texts, ";");
    if texts[0] == "" {
      if |texts| == 1 {
        assert j == "";
      } else {
        assert j == "" + ";" + Join(texts[1..], ";");
      }
    } else if |texts| == 1 {
      assert j == texts[0];
    } else {
      assert j == texts[0] + (";" + Join(texts[1..], ";"));
    }
  }

  /** Stripping a frame of two characters from text that neither starts nor
      ends with a stripped character. */
  lemma StripFrame(open: char, y: string, close: char, chars: set<char>)
    requires open in chars && close in chars
    requires y != [] && y[0] !in chars && y[|y| - 1] !in chars
    ensures Strip([open] + y + [close], chars) == y
  {
    var t := y + [close];
    assert [open] + y + [close] == [open] + t;
    LStripDrops(open, t, chars);
    LStripKeeps(t, chars);
    RStripDrops(y, close, chars);
    RStripKeeps(y, chars);
  }

  /** The text between the brackets of a printed matrix: the rows joined by
      ";", then the space before "]". */
  lemma Inner(m: seq<seq<int>>)
    requires |m| >= 1
    ensures Strip(MatrixText(Texts(m)), Brackets) == Join(RowTexts(Texts(m)), ";") + " "
  {
    var texts := RowTexts(Texts(m));
    var y := Join(texts, ";") + " ";
    RowTextJoin(Texts(m)[0]);
    JoinedRowsStart(texts);
    assert MatrixText(Texts(m)) == ['['] + y + [']'];
    StripFrame('[', y, ']', Brackets);
  }

  lemma RowTextsFree(m: seq<seq<int>>, c: char)
    requires c != ' ' && !IsDigit(c) && c != '-'
    ensures forall i :: 0 <= i < |m| ==> c !in RowTexts(Texts(m))[i]
  {
    forall i | 0 <= i < |m| ensures c !in RowTexts(Texts(m))[i] {
      TextsAreTokens(m[i]);
      forall j | 0 <= j < |m[i]| ensures c !in IntTexts(m[i])[j] {
        assert Token(IntTexts(m[i])[j]);
      }
      RowTextFree(IntTexts(m[i]), c);
    }
  }

  lemma {:induction false} IntRowsOfPieces(m: seq<seq<int>>, pieces: seq<string>)
    requires |pieces| == |m|
    requires forall i :: 0 <= i < |m| ==> Printed(m[i], pieces[i])
    ensures IntRows(pieces) == Some(m)
    decreases |m|
  {
    if m != [] {
      var m', pieces' := m[1..], pieces[1..];
      assert m == [m[0]] + m';
      RowTokensOfRow(m[0], pieces[0]);
      IntRowsOfPieces(m', pieces');
    }
  }

  /** The pieces of a printed matrix between its ";" separators hold its rows. */
  lemma PiecesPrinted(m: seq<seq<int>>)
    requires |m| >= 1
    ensures forall i :: 0 <= i < |m| ==> Printed(m[i], Pieces(RowTexts(Texts(m)))[i])
  {
    var texts := RowTexts(Texts(m));
    var pieces := Pieces(texts);
    forall i | 0 <= i < |m| ensures Printed(m[i], pieces[i]) {
      assert texts[i] == RowText(IntTexts(m[i]));
      if i < |m| - 1 {
        assert pieces[i] == texts[i];
      } else {
        assert pieces[i] == texts[i] + " ";
      }
    }
  }

  /** No piece of a printed matrix holds a ";". */
  lemma PiecesFree(m: seq<seq<int>>)
    requires |m| >= 1
    ensures forall i :: 0 <= i < |m| ==> ';' !in Pieces(RowTexts(Texts(m)))[i]
  {
    var texts := RowTexts(Texts(m));
    var pieces := Pieces(texts);
    RowTextsFree(m, ';');
    forall i | 0 <= i < |m| ensures ';' !in pieces[i] {
      if i < |m| - 1 {
        assert pieces[i] == texts[i];
      } else {
        assert pieces[i] == texts[i] + " ";
      }
    }
  }

  /** parse_matrix inverts print_matrix on integers: reading the printed text
      of a matrix with at least one row gives the matrix back. */
  lemma ParseMatrixRoundTrip(m: seq<seq<int>>)
    requires |m| >= 1
    ensures ParseMatrix(MatrixText(Texts(m))) == Some(m)
  {
    var texts := RowTexts(Texts(m));
    var pieces := Pieces(texts);
    Inner(m);
    JoinAppendTail(texts, ";", " ");
    assert Strip(MatrixText(Texts(m)), Brackets) == Join(pieces, [';']);
    PiecesFree(m);
    SplitJoin(pieces, ';');
    PiecesPrinted(m);
    IntRowsOfPieces(m, pieces);
  }

  /** The rows of a row-major ny by nx matrix. */
  function Rows(ny: nat, nx: nat, data: seq<int>): (m: seq<seq<int>>)
    requires |data| == ny * nx
    ensures |m| == ny
  {
    seq(ny, i requires 0 <= i < ny => RowStart(i, ny, nx); data[i * nx..i * nx + nx])
  }

  /** What print_matrix writes for an integer matrix is the text of its rows. */
  lemma CellsAreTexts(ny: nat, nx: nat, data: seq<int>)
    requires |data| == ny * nx
    ensures Cells(ny, nx, data, IntText) == Texts(Rows(ny, nx, data))
  {
    var c, t := Cells(ny, nx, data, IntText), Texts(Rows(ny, nx, data));
    forall i | 0 <= i < ny ensures c[i] == t[i] {
      RowStart(i, ny, nx);
    }
  }

  // ---------------------------------------------------------------------------
  // parse_output
  // ---------------------------------------------------------------------------

  /** How the report gives the running time: the text of a `time` line, which
      float() converts, or the nanoseconds of a `perf_wall_clock_ns` line. */
  datatype Time = Seconds(text: string) | Nanoseconds(ns: int)

  /** The exceptions parse_output can raise. */
  datatype PyError = KeyError(key: string) | IndexError | ValueError(text: string) | UnboundLocal(name: string)

  /** The locals and dictionaries parse_output fills in, line by line. */
  datatype State = State(
    errors: Option<bool>,          // the local `errors`, unbound until a result line
    time: Option<Time>,            // the local `time`, unbound until a time line
    n: Option<int>,                // input_data["n"]
    data: Option<seq<int>>,        // input_data["data"]
    result: Option<seq<int>>,      // output_data["result"]
    errorType: int,                // output_errors["type"]
    correct: Option<seq<int>>,     // output_errors["correct"]
    statistics: map<string, int>)

  const Start: State := State(None, None, None, None, None, 0, None, map[])

  datatype Absorbed = Next(state: State) | Raised(error: PyError)

  const RESULT: string := "result"
  const TIME: string := "time"
  const WALL: string := "perf_wall_clock_ns"
  const PERF: string := "perf_"
  const N: string := "n"
  const INPUT: string := "input"
  const OUTPUT: string := "output"
  const CORRECT: string := "correct"
  const ERROR_TYPE: string := "error_type"

  /** The value of a line: its second tab-separated field. */
  function Field(fields: seq<string>): Result<string>
  {
    if |fields| < 2 then Fail(IndexError) else Value(fields[1])
  }

  datatype Result<T> = Value(value: T) | Fail(error: PyError)

  function IntField(fields: seq<string>): Result<int>
  {
    if |fields| < 2 then Fail(IndexError)
    else match PyInt(fields[1])
      case None => Fail(ValueError(fields[1]))
      case Some(v) => Value(v)
  }

  /** The first row of the matrix on a line. */
  function RowField(fields: seq<string>): Result<seq<int>>
  {
    if |fields| < 2 then Fail(IndexError)
    else match ParseMatrix(fields[1])
      case None => Fail(ValueError(fields[1]))
      case Some(rows) => Value(rows[0])
  }

  /** One line of the report, dispatched on its first field; other keys are
      ignored. */
  function Absorb(s: State, line: string): Absorbed
  {
    var fields := Split(line, '\t');
    var key := fields[0];
    if key == RESULT then
      match Field(fields)
      case Fail(e) => Raised(e)
      case Value(v) =>
        if v == "fail" then Next(s.(errors := Some(true)))
        else if v == "pass" || v == "done" then Next(s.(errors := Some(false)))
        else Raised(KeyError(v))
    else if key == TIME then
      match Field(fields)
      case Fail(e) => Raised(e)
      case Value(v) => Next(s.(time := Some(Seconds(v))))
    else if key == WALL then
      match IntField(fields)
      case Fail(e) => Raised(e)
      case Value(v) => Next(s.(time := Some(Nanoseconds(v)), statistics := s.statistics[key := v]))
    else if StartsWith(key, PERF) then
      match IntField(fields)
      case Fail(e) => Raised(e)
      case Value(v) => Next(s.(statistics := s.statistics[key := v]))
    else if key == N then
      match IntField(fields)
      case Fail(e) => Raised(e)
      case Value(v) => Next(s.(n := Some(v)))
    else if key == INPUT then
      match RowField(fields)
      case Fail(e) => Raised(e)
      case Value(row) => Next(s.(data := Some(row)))
    else if key == OUTPUT then
      match RowField(fields)
      case Fail(e) => Raised(e)
      case Value(row) => Next(s.(result := Some(row)))
    else if key == CORRECT then
      match RowField(fields)
      case Fail(e) => Raised(e)
      case Value(row) => Next(s.(correct := Some(row)))
    else if key == ERROR_TYPE then
      match IntField(fields)
      case Fail(e) => Raised(e)
      case Value(v) => Next(s.(errorType := v))
    else Next(s)
  }

  /** The report's lines in order; the first exception ends the reading. */
  function Run(s: State, lines: seq<string>): Absorbed
    decreases |lines|
  {
    if lines == [] then Next(s)
    else
      match Run(s, lines[..|lines| - 1])
      case Raised(e) => Raised(e)
      case Next(t) => Absorb(t, lines[|lines| - 1])
  }

  /** What parse_output returns. */
  datatype Report = Report(
    time: Time, errors: bool, n: Option<int>, data: Option<seq<int>>,
    result: Option<seq<int>>, errorType: int, correct: Option<seq<int>>,
    statistics: map<string, int>)

  datatype Outcome = Returned(report: Report) | Raise(error: PyError)

  /** The return statement: `time` is read before `errors`, and either may
      still be unbound. */
  function Finish(a: Absorbed): (r: Outcome)
    ensures a.Next? && a.state.time == None ==> r == Raise(UnboundLocal("time"))
    ensures a.Next? && a.state.time != None && a.state.errors == None ==> r == Raise(UnboundLocal("errors"))
    ensures r.Returned? <==> a.Next? && a.state.time.Some? && a.state.errors.Some?
  {
    match a
    case Raised(e) => Raise(e)
    case Next(s) =>
      if s.time == None then Raise(UnboundLocal("time"))
      else if s.errors == None then Raise(UnboundLocal("errors"))
      else Returned(Report(s.time.value, s.errors.value, s.n, s.data, s.result, s.errorType, s.correct, s.statistics))
  }

  lemma {:induction false} RaisedStays(s: State, lines: seq<string>, i: nat, e: PyError)
    requires i <= |lines| && Run(s, lines[..i]) == Raised(e)
    ensures Run(s, lines) == Raised(e)
    decreases |lines| - i
  {
    if i < |lines| {
      assert lines[..i + 1][..i] == lines[..i];
      RaisedStays(s, lines, i + 1, e);
    } else {
      assert lines[..i] == lines;
    }
  }

  /** parse_output: reads the report line by line into its dictionaries and
      locals, then returns them. */
  method ParseOutput(output: string) returns (r: Outcome)
    ensures r == Finish(Run(Start, SplitLines(output)))
  {
    var lines := SplitLines(output);
    var s := Start;
    var i := 0;
    while i < |lines|
      invariant 0 <= i <= |lines|
      invariant Run(Start, lines[..i]) == Next(s)
    {
      var step := Absorb(s, lines[i]);
      RunStep(Start, lines, i, s);
      if step.Raised? {
        RaisedStays(Start, lines, i + 1, step.error);
        return Raise(step.error);
      }
      s := step.state;
      i := i + 1;
    }
    assert lines[..i] == lines;
    r := Finish(Next(s));
  }

  /** Reading one more line of the report. */
  lemma RunStep(s: State, lines: seq<string>, i: nat, t: State)
    requires i < |lines| && Run(s, lines[..i]) == Next(t)
    ensures Run(s, lines[..i + 1]) == Absorb(t, lines[i])
  {
    assert lines[..i + 1][..i] == lines[..i];
  }

  // ---------------------------------------------------------------------------
  // What the report lines mean
  // ---------------------------------------------------------------------------

  lemma TwoFields(key: string, value: string)
    requires '\t' !in key && '\t' !in value
    ensures Split(key + "\t" + value, '\t') == [key, value]
  {
    SplitJoin([key, value], '\t');
  }

  /** A result line sets `errors`: True for fail, False for pass and done; any
      other value is a KeyError. */
  lemma ResultLine(s: State, v: string)
    requires '\t' !in v
    ensures v == "fail" ==> Absorb(s, RESULT + "\t" + v) == Next(s.(errors := Some(true)))
    ensures v == "pass" || v == "done" ==> Absorb(s, RESULT + "\t" + v) == Next(s.(errors := Some(false)))
    ensures v != "fail" && v != "pass" && v != "done" ==> Absorb(s, RESULT + "\t" + v) == Raised(KeyError(v))
  {
    TwoFields(RESULT, v);
  }

  /** A profiler line `perf_<name>\t<value>` stores the value under its key;
      the wall-clock line also gives the running time. */
  lemma PerfLineStored(s: State, name: string, v: int)
    requires '\t' !in name
    ensures Absorb(s, PERF + name + "\t" + IntText(v)) ==
      Next(s.(statistics := s.statistics[PERF + name := v],
              time := if PERF + name == WALL then Some(Nanoseconds(v)) else s.time))
  {
    IntTextToken(v);
    assert '\t' !in IntText(v) by {
      forall i | 0 <= i < |IntText(v)| ensures IntText(v)[i] != '\t' { }
    }
    TwoFields(PERF + name, IntText(v));
    PyIntText(v);
    var key := PERF + name;
    assert key[0] == 'p';
    assert key != RESULT && key != TIME && StartsWith(key, PERF);
  }

  /** The profiler's lines for a list of counters, without their line breaks. */
  function PerfLines(keys: seq<string>, m: map<string, int>): (lines: seq<string>)
    requires forall i :: 0 <= i < |keys| ==> keys[i] in m
    ensures |lines| == |keys|
    decreases |keys|
  {
    if keys == [] then []
    else PerfLines(keys[..|keys| - 1], m) + [PERF + keys[|keys| - 1] + "\t" + IntText(m[keys[|keys| - 1]])]
  }

  lemma {:induction false} ListingLines(keys: seq<string>, m: map<string, int>)
    requires forall i :: 0 <= i < |keys| ==> keys[i] in m
    ensures Perf.Listing(keys, m) == Concat(PerfLines(keys, m))
    decreases |keys|
  {
    if keys != [] {
      var init, k := keys[..|keys| - 1], keys[|keys| - 1];
      ListingLines(init, m);
      ConcatSnoc(PerfLines(init, m), PERF + k + "\t" + IntText(m[k]));
    }
  }

  /** Reading the profiler's lines stores every counter's value, whatever was
      read before them. */
  lemma {:induction false} RunPerfLines(s: State, keys: seq<string>, m: map<string, int>)
    requires forall i :: 0 <= i < |keys| ==> keys[i] in m && '\t' !in keys[i]
    ensures Run(s, PerfLines(keys, m)).Next?
    ensures forall i :: 0 <= i < |keys| ==>
      PERF + keys[i] in Run(s, PerfLines(keys, m)).state.statistics &&
      Run(s, PerfLines(keys, m)).state.statistics[PERF + keys[i]] == m[keys[i]]
    decreases |keys|
  {
    if keys != [] {
      var init, k := keys[..|keys| - 1], keys[|keys| - 1];
      var lines := PerfLines(keys, m);
      RunPerfLines(s, init, m);
      assert lines[..|lines| - 1] == PerfLines(init, m);
      var t := Run(s, PerfLines(init, m)).state;
      PerfLineStored(t, k, m[k]);
      forall i | 0 <= i < |keys|
        ensures PERF + keys[i] in Run(s, lines).state.statistics &&
          Run(s, lines).state.statistics[PERF + keys[i]] == m[keys[i]]
      {
        if i < |init| {
          assert keys[i] == init[i];
          if PERF + keys[i] == PERF + k {
            assert keys[i] == (PERF + keys[i])[|PERF|..] == k;
          }
        }
      }
    }
  }

  /** The profiler's report, read as part of the tester's output, gives every
      counter's value as `statistics["perf_<name>"]`. */
  lemma ListingStatistics(keys: seq<string>, m: map<string, int>)
    requires forall i :: 0 <= i < |keys| ==> keys[i] in m && '\t' !in keys[i] && '\n' !in keys[i]
    ensures Run(Start, SplitLines(Perf.Listing(keys, m))).Next?
    ensures forall i :: 0 <= i < |keys| ==>
      PERF + keys[i] in Run(Start, SplitLines(Perf.Listing(keys, m))).state.statistics &&
      Run(Start, SplitLines(Perf.Listing(keys, m))).state.statistics[PERF + keys[i]] == m[keys[i]]
  {
    var lines := PerfLines(keys, m);
    ListingLines(keys, m);
    forall i | 0 <= i < |lines| ensures '\n' !in lines[i] {
      PerfLinesFree(keys, m, i);
    }
    LinesOfText(lines);
    RunPerfLines(Start, keys, m);
  }

  lemma {:induction false} PerfLinesFree(keys: seq<string>, m: map<string, int>, i: nat)
    requires forall j :: 0 <= j < |keys| ==> keys[j] in m && '\n' !in keys[j]
    requires i < |keys|
    ensures '\n' !in PerfLines(keys, m)[i]
    decreases |keys|
  {
    if i < |keys| - 1 {
      PerfLinesFree(keys[..|keys| - 1], m, i);
    } else {
      var v := m[keys[i]];
      IntTextToken(v);
      assert '\n' !in IntText(v) by {
        forall j | 0 <= j < |IntText(v)| ensures IntText(v)[j] != '\n' { }
      }
    }
  }

  /** The field after the key of a line holding a printed one-row matrix
      reads back as that row. */
  lemma MatrixField(key: string, row: seq<int>)
    requires '\t' !in key
    ensures var fields := Split(key + "\t" + MatrixText(Texts([row])), '\t');
      fields[0] == key && RowField(fields) == Value(row)
  {
    var text := MatrixText(Texts([row]));
    RowTextsFree([row], '\t');
    JoinFree(RowTexts(Texts([row])), ";", '\t');
    assert '\t' !in text;
    TwoFields(key, text);
    ParseMatrixRoundTrip([row]);
  }

  /** A line whose matrix field reads as `row` stores it under its key. */
  lemma RowLineAbsorbed(s: State, line: string, row: seq<int>)
    requires RowField(Split(line, '\t')) == Value(row)
    ensures Key(line) == INPUT ==> Absorb(s, line) == Next(s.(data := Some(row)))
    ensures Key(line) == OUTPUT ==> Absorb(s, line) == Next(s.(result := Some(row)))
    ensures Key(line) == CORRECT ==> Absorb(s, line) == Next(s.(correct := Some(row)))
  {
    assert !StartsWith(INPUT, PERF) by { assert INPUT[0] != PERF[0]; }
    assert !StartsWith(OUTPUT, PERF) by { assert OUTPUT[0] != PERF[0]; }
    assert !StartsWith(CORRECT, PERF) by { assert CORRECT[0] != PERF[0]; }
  }

  /** A line whose value field reads as the integer `v` stores it under its key. */
  lemma IntLineAbsorbed(s: State, line: string, v: int)
    requires IntField(Split(line, '\t')) == Value(v)
    ensures Key(line) == N ==> Absorb(s, line) == Next(s.(n := Some(v)))
    ensures Key(line) == ERROR_TYPE ==> Absorb(s, line) == Next(s.(errorType := v))
  {
    assert !StartsWith(N, PERF) by { assert N[0] != PERF[0]; }
    assert !StartsWith(ERROR_TYPE, PERF) by { assert ERROR_TYPE[0] != PERF[0]; }
  }

  /** An "output" line holding a printed one-row matrix gives that row as the
      result. */
  lemma OutputLine(s: State, row: seq<int>)
    ensures Absorb(s, OUTPUT + "\t" + MatrixText(Texts([row]))) == Next(s.(result := Some(row)))
  {
    MatrixField(OUTPUT, row);
    RowLineAbsorbed(s, OUTPUT + "\t" + MatrixText(Texts([row])), row);
  }

  /** An "input" line holding a printed one-row matrix gives the input data. */
  lemma InputLine(s: State, row: seq<int>)
    ensures Absorb(s, INPUT + "\t" + MatrixText(Texts([row]))) == Next(s.(data := Some(row)))
  {
    MatrixField(INPUT, row);
    RowLineAbsorbed(s, INPUT + "\t" + MatrixText(Texts([row])), row);
  }

  /** A "correct" line holding a printed one-row matrix gives the expected
      output. */
  lemma CorrectLine(s: State, row: seq<int>)
    ensures Absorb(s, CORRECT + "\t" + MatrixText(Texts([row]))) == Next(s.(correct := Some(row)))
  {
    MatrixField(CORRECT, row);
    RowLineAbsorbed(s, CORRECT + "\t" + MatrixText(Texts([row])), row);
  }

  /** A line whose key is none of the known ones changes nothing. */
  lemma OtherLine(s: State, line: string)
    requires var key := Split(line, '\t')[0];
      key !in {RESULT, TIME, N, INPUT, OUTPUT, CORRECT, ERROR_TYPE} && !StartsWith(key, PERF)
    ensures Absorb(s, line) == Next(s)
  {
  }

  /** A time line keeps its text for float() to convert. */
  lemma TimeLine(s: State, v: string)
    requires '\t' !in v
    ensures Absorb(s, TIME + "\t" + v) == Next(s.(time := Some(Seconds(v))))
  {
    TwoFields(TIME, v);
  }

  /** The value field of a line `key\t<integer text>` reads back as the integer. */
  lemma IntLineField(key: string, v: int)
    requires '\t' !in key
    ensures var fields := Split(key + "\t" + IntText(v), '\t');
      fields[0] == key && IntField(fields) == Value(v)
  {
    IntTextToken(v);
    assert '\t' !in IntText(v) by {
      forall i | 0 <= i < |IntText(v)| ensures IntText(v)[i] != '\t' { }
    }
    TwoFields(key, IntText(v));
    PyIntText(v);
  }

  /** An "n" line stores its value as an integer. */
  lemma NLine(s: State, v: int)
    ensures Absorb(s, N + "\t" + IntText(v)) == Next(s.(n := Some(v)))
  {
    IntLineField(N, v);
    IntLineAbsorbed(s, N + "\t" + IntText(v), v);
  }

  /** An "error_type" line stores its value as an integer. */
  lemma ErrorTypeLine(s: State, v: int)
    ensures Absorb(s, ERROR_TYPE + "\t" + IntText(v)) == Next(s.(errorType := v))
  {
    IntLineField(ERROR_TYPE, v);
    IntLineAbsorbed(s, ERROR_TYPE + "\t" + IntText(v), v);
  }

  /** Of two output lines, the later one gives the result. */
  lemma LaterOutputWins(s: State, first: seq<int>, second: seq<int>)
    ensures Run(s, [OUTPUT + "\t" + MatrixText(Texts([first])), OUTPUT + "\t" + MatrixText(Texts([second]))]) ==
      Next(s.(result := Some(second)))
  {
    var a, b := OUTPUT + "\t" + MatrixText(Texts([first])), OUTPUT + "\t" + MatrixText(Texts([second]));
    assert [a, b][..1] == [a] && [a][..0] == [];
    OutputLine(s, first);
    assert Run(s, [a]) == Next(s.(result := Some(first)));
    OutputLine(s.(result := Some(first)), second);
    assert Run(s, [a, b]) == Absorb(s.(result := Some(first)), b);
  }

  /** The key a line is dispatched on. */
  function Key(line: string): string
  {
    Split(line, '\t')[0]
  }

  /** Lines without a result line leave `errors` unbound. */
  lemma {:induction false} ErrorsStayUnbound(s: State, lines: seq<string>)
    requires s.errors == None
    requires forall i :: 0 <= i < |lines| ==> Key(lines[i]) != RESULT
    ensures Run(s, lines).Next? ==> Run(s, lines).state.errors == None
    decreases |lines|
  {
    if lines != [] {
      ErrorsStayUnbound(s, lines[..|lines| - 1]);
    }
  }

  /** Lines without a time or wall-clock line leave `time` unbound. */
  lemma {:induction false} TimeStaysUnbound(s: State, lines: seq<string>)
    requires s.time == None
    requires forall i :: 0 <= i < |lines| ==> Key(lines[i]) != TIME && Key(lines[i]) != WALL
    ensures Run(s, lines).Next? ==> Run(s, lines).state.time == None
    decreases |lines|
  {
    if lines != [] {
      TimeStaysUnbound(s, lines[..|lines| - 1]);
    }
  }

  /** A report without a time line and without a wall-clock line ends in an
      unbound `time`, unless an earlier line raised. */
  lemma NoTimeRaises(output: string)
    requires forall i :: 0 <= i < |SplitLines(output)| ==>
      Key(SplitLines(output)[i]) != TIME && Key(SplitLines(output)[i]) != WALL
    ensures Run(Start, SplitLines(output)).Next? ==>
      Finish(Run(Start, SplitLines(output))) == Raise(UnboundLocal("time"))
  {
    TimeStaysUnbound(Start, SplitLines(output));
  }

  /** A report with a time but without a result line ends in an unbound
      `errors`; without either it ends in an unbound `time`, as above. */
  lemma NoResultRaises(output: string)
    requires forall i :: 0 <= i < |SplitLines(output)| ==> Key(SplitLines(output)[i]) != RESULT
    ensures !Finish(Run(Start, SplitLines(output))).Returned?
  {
    ErrorsStayUnbound(Start, SplitLines(output));
  }
}
