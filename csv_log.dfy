/** A CSV file written through `csv.DictWriter` or `DataFrame.to_csv(mode='a')`, kept as the
    sequence of its lines: a header line carries the column names, every other line one row. */
module CsvLog {

  datatype Line<R> = Header(columns: seq<string>) | Row(row: R)

  /** The file is empty, or it starts with the one header line and holds rows only after it. */
  predicate WellFormed<R>(f: seq<Line<R>>, columns: seq<string>) {
    f == [] || (f[0] == Header(columns) && forall i :: 1 <= i < |f| ==> f[i].Row?)
  }

  /** The data rows of a file, in file order (what `csv.DictReader` gives back). */
  function Rows<R>(f: seq<Line<R>>): seq<R> {
    if f == [] then []
    else Rows(f[..|f| - 1]) + (if f[|f| - 1].Row? then [f[|f| - 1].row] else [])
  }

  /** One line per row. */
  function RowLines<R>(rows: seq<R>): seq<Line<R>> {
    if rows == [] then [] else RowLines(rows[..|rows| - 1]) + [Row(rows[|rows| - 1])]
  }

  /** Appending `rows` to `f`, preceded by the header when `header` is set. */
  function Write<R>(f: seq<Line<R>>, columns: seq<string>, header: bool, rows: seq<R>): seq<Line<R>> {
    f + (if header then [Header(columns)] else []) + RowLines(rows)
  }

  lemma {:induction false} RowsConcat<R>(a: seq<Line<R>>, b: seq<Line<R>>)
    ensures Rows(a + b) == Rows(a) + Rows(b)
  {
    if b != [] {
      var init := b[..|b| - 1];
      assert (a + b)[..|a + b| - 1] == a + init;
      RowsConcat(a, init);
    } else {
      assert a + b == a;
    }
  }

  lemma {:induction false} RowsOfRowLines<R>(rows: seq<R>)
    ensures Rows(RowLines(rows)) == rows
    ensures |RowLines(rows)| == |rows|
    ensures forall i :: 0 <= i < |RowLines(rows)| ==> RowLines(rows)[i].Row?
  {
    if rows != [] {
      var init := rows[..|rows| - 1];
      RowsOfRowLines(init);
      RowsConcat(RowLines(init), [Row(rows[|rows| - 1])]);
      assert init + [rows[|rows| - 1]] == rows;
    }
  }

  /** Writing the header exactly with the first write keeps the file well formed and adds
      exactly `rows` to its data, in order. */
  lemma WriteAppendsRows<R>(f: seq<Line<R>>, columns: seq<string>, header: bool, rows: seq<R>)
    requires WellFormed(f, columns)
    requires header <==> f == []
    ensures WellFormed(Write(f, columns, header, rows), columns)
    ensures Rows(Write(f, columns, header, rows)) == Rows(f) + rows
    ensures Write(f, columns, header, rows) != [] <==> f != [] || header
  {
    var h: seq<Line<R>> := if header then [Header(columns)] else [];
    RowsOfRowLines(rows);
    RowsConcat(f + h, RowLines(rows));
    RowsConcat(f, h);
    assert Rows(h) == [] by {
      if header {
        assert h[..0] == [];
      }
    }
    var g := Write(f, columns, header, rows);
    assert g == f + h + RowLines(rows);
    if g != [] {
      forall i | 1 <= i < |g|
        ensures g[i].Row?
      {
        if i >= |f| + |h| {
          assert g[i] == RowLines(rows)[i - |f| - |h|];
        }
      }
    }
  }

  /** A well-formed file holds exactly one header line, so all but its first line are rows. */
  lemma {:induction false} HeaderOnce<R>(f: seq<Line<R>>, columns: seq<string>)
    requires WellFormed(f, columns)
    ensures |Rows(f)| == if f == [] then 0 else |f| - 1
  {
    if |f| > 1 {
      var init := f[..|f| - 1];
      assert WellFormed(init, columns);
      HeaderOnce(init, columns);
    } else if |f| == 1 {
      assert f[..0] == [];
    }
  }
}
