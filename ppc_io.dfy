/** The input and output helpers of `ppc.h` that the testers share: the two
    checks that end a tester when its input file is malformed, and the layout
    `print_matrix` writes a matrix in. */
module PpcIo {
  import opened Strs

  // ---------------------------------------------------------------------------
  // CHECK_READ and CHECK_END
  // ---------------------------------------------------------------------------

  /** What a tester does after a check: carry on, or end the process with an
      exit status. */
  datatype Step = Continue | Exit(status: int)

  /** `CHECK_READ(x)`, with `ok` the truth value of the read expression `x`. */
  function CheckRead(ok: bool): (s: Step)
    ensures s.Continue? <==> ok
    ensures s.Exit? ==> s.status == 1
  {
    if !ok then Exit(1) else Continue
  }

  /** Whether `stream >> tmp` into a `std::string` succeeds on a stream in the
      good state whose unread input is `rest`: extraction skips leading white
      space (the `isspace` set of the C locale) and succeeds when at least
      one further character is left. */
  function ExtractsWord(rest: string): bool
    decreases |rest|
  {
    if rest == [] then false
    else if rest[0] in Whitespace then ExtractsWord(rest[1..])
    else true
  }

  /** A word can be extracted exactly when some character of the rest is not
      white space. */
  lemma {:induction false} ExtractsWordIff(rest: string)
    ensures ExtractsWord(rest) <==> exists i :: 0 <= i < |rest| && rest[i] !in Whitespace
    decreases |rest|
  {
    if rest != [] && rest[0] in Whitespace {
      ExtractsWordIff(rest[1..]);
      if exists i :: 0 <= i < |rest| && rest[i] !in Whitespace {
        var i :| 0 <= i < |rest| && rest[i] !in Whitespace;
        assert rest[1..][i - 1] !in Whitespace;
      }
      if ExtractsWord(rest) {
        var i :| 0 <= i < |rest[1..]| && rest[1..][i] !in Whitespace;
        assert rest[i + 1] !in Whitespace;
      }
    } else if rest != [] {
      assert rest[0] !in Whitespace;
    }
  }

  /** `CHECK_END(x)` on a stream whose state is `good` and whose unread input
      is `rest`: a stream that is no longer good extracts nothing, so the
      check exits with status 1 exactly when a good stream still holds a
      character that is not white space. */
  function CheckEnd(good: bool, rest: string): (s: Step)
    ensures s.Exit? <==> good && exists i :: 0 <= i < |rest| && rest[i] !in Whitespace
    ensures s.Exit? ==> s.status == 1
  {
    ExtractsWordIff(rest);
    if good && ExtractsWord(rest) then Exit(1) else Continue
  }

  // ---------------------------------------------------------------------------
  // print_matrix
  // ---------------------------------------------------------------------------

  /** One row as `print_matrix` writes it: a space before every element. */
  function RowText(cells: seq<string>): string
    decreases |cells|
  {
    if cells == [] then "" else RowText(cells[..|cells| - 1]) + " " + cells[|cells| - 1]
  }

  /** Rows each followed by ";", as the loop over all rows but the last writes them. */
  function Terminated(texts: seq<string>): string
    decreases |texts|
  {
    if texts == [] then "" else texts[0] + ";" + Terminated(texts[1..])
  }

  /** The layout of a matrix whose elements are already formatted: "[", the
      rows separated by ";", then " ]". */
  function MatrixText(rows: seq<seq<string>>): string
  {
    "[" + Join(RowTexts(rows), ";") + " ]"
  }

  function RowTexts(rows: seq<seq<string>>): (r: seq<string>)
    ensures |r| == |rows| && forall i :: 0 <= i < |rows| ==> r[i] == RowText(rows[i])
  {
    seq(|rows|, i requires 0 <= i < |rows| => RowText(rows[i]))
  }

  /** The formatted elements of the row starting at `base`; `show` stands for
      `<< std::scientific << value` on the element type (which leaves an
      integer as its decimal text). */
  function Row<T>(data: seq<T>, base: nat, nx: nat, show: T -> string): (cells: seq<string>)
    requires base + nx <= |data|
    ensures |cells| == nx
  {
    seq(nx, j requires 0 <= j < nx => show(data[base + j]))
  }

  /** The formatted elements of the row-major `ny` by `nx` matrix `data`, row by row. */
  function Cells<T>(ny: nat, nx: nat, data: seq<T>, show: T -> string): (rows: seq<seq<string>>)
    requires |data| == ny * nx
    ensures |rows| == ny && forall i :: 0 <= i < ny ==> |rows[i]| == nx
  {
    seq(ny, i requires 0 <= i < ny => RowStart(i, ny, nx); Row(data, i * nx, nx, show))
  }

  /** Row `i` of a row-major `ny` by `nx` matrix starts at `i * nx` and ends
      within it. */
  lemma RowStart(i: nat, ny: nat, nx: nat)
    requires i < ny
    ensures 0 <= i * nx && i * nx + nx <= ny * nx
  {
    MulLeft(i + 1, ny, nx);
  }

  /** The text of row `i` of the matrix. */
  lemma RowTextAt<T>(ny: nat, nx: nat, data: seq<T>, show: T -> string, i: nat)
    requires |data| == ny * nx && i < ny
    ensures 0 <= i * nx && i * nx + nx <= |data|
    ensures RowTexts(Cells(ny, nx, data, show))[i] == RowText(Row(data, i * nx, nx, show))
  {
    RowStart(i, ny, nx);
  }

  lemma MulLeft(x: nat, y: nat, k: nat)
    requires x <= y
    ensures x * k <= y * k
  {
  }

  /** Appending one more terminated row. */
  lemma {:induction false} TerminatedSnoc(texts: seq<string>, t: string)
    ensures Terminated(texts + [t]) == Terminated(texts) + t + ";"
    decreases |texts|
  {
    if texts != [] {
      assert (texts + [t])[1..] == texts[1..] + [t];
      TerminatedSnoc(texts[1..], t);
    } else {
      assert Terminated([t]) == t + ";" + Terminated([]);
    }
  }

  /** The terminated rows followed by the last row are the rows joined by ";". */
  lemma {:induction false} TerminatedJoin(texts: seq<string>, last: string)
    ensures Terminated(texts) + last == Join(texts + [last], ";")
    decreases |texts|
  {
    if texts != [] {
      assert (texts + [last])[1..] == texts[1..] + [last];
      TerminatedJoin(texts[1..], last);
    }
  }

  /** Writing row `i` and its ";" extends the terminated prefix by one row. */
  lemma WriteTerminated(texts: seq<string>, i: nat, out: string)
    requires i < |texts| && out == "[" + Terminated(texts[..i])
    ensures out + texts[i] + ";" == "[" + Terminated(texts[..i + 1])
  {
    assert texts[..i + 1] == texts[..i] + [texts[i]];
    TerminatedSnoc(texts[..i], texts[i]);
  }

  /** Writing the last row after the terminated rows gives all rows joined by ";". */
  lemma WriteLast(init: seq<string>, last: string, out: string)
    requires out == "[" + Terminated(init)
    ensures out + last == "[" + Join(init + [last], ";")
  {
    TerminatedJoin(init, last);
    Associate("[", Terminated(init), last);
  }

  lemma Associate(a: string, b: string, c: string)
    ensures a + b + c == a + (b + c)
  {
  }

  /** The inner loop of `print_matrix`: a space and the element, for each
      element of the row starting at `base`. */
  method WriteRow<T>(data: array<T>, base: nat, nx: nat, show: T -> string) returns (out: string)
    requires base + nx <= data.Length
    ensures out == RowText(Row(data[..], base, nx, show))
  {
    ghost var cells := Row(data[..], base, nx, show);
    out := "";
    var j := 0;
    while j < nx
      invariant 0 <= j <= nx
      invariant out == RowText(cells[..j])
    {
      out := out + " " + show(data[base + j]);
      assert cells[..j + 1][..j] == cells[..j];
      j := j + 1;
    }
    assert cells[..nx] == cells;
  }

  /** `print_matrix(ny, nx, data, stream)`, returning what it writes to the
      stream. The last row is written from `(ny - 1) * nx`, so a matrix
      without rows must also have no columns; it then writes "[ ]". */
  method PrintMatrix<T>(ny: nat, nx: nat, data: array<T>, show: T -> string) returns (out: string)
    requires data.Length == ny * nx && (ny >= 1 || nx == 0)
    ensures out == MatrixText(Cells(ny, nx, data[..], show))
  {
    ghost var texts := RowTexts(Cells(ny, nx, data[..], show));
    out := "[";
    var i := 0;
    while i < ny - 1
      invariant 0 <= i <= ny && (ny >= 1 ==> i <= ny - 1)
      invariant out == "[" + Terminated(texts[..i])
    {
      RowTextAt(ny, nx, data[..], show, i);
      var row := WriteRow(data, i * nx, nx, show);
      WriteTerminated(texts, i, out);
      out := out + row + ";";
      i := i + 1;
    }
    if ny == 0 {
      assert texts == [];
      out := out + " ]";
      return;
    }
    RowTextAt(ny, nx, data[..], show, ny - 1);
    var last := WriteRow(data, (ny - 1) * nx, nx, show);
    WriteLast(texts[..ny - 1], last, out);
    assert texts[..ny - 1] + [last] == texts;
    out := out + last;
    out := out + " ]";
  }
}
