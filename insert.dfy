/**
 * `InsertModel` of sql.h: parallel lists of column names and formatted values,
 * a table name and the `insert or replace` flag.
 */
module Insert {
  import opened SqlText
  import opened Values

  /** A list closed by ")" as `InsertModel::str()` writes it: the elements joined
      by ", " and then ")", except that an empty list writes nothing at all, not
      even the ")". */
  function ClosedList(xs: seq<string>): string
  {
    if xs == [] then "" else Joined(xs, ", ") + ")"
  }

  /** The text `InsertModel::str()` writes after the i-th of n list elements:
      ", " between elements, ")" after the last. */
  function After(i: nat, n: nat): string
  {
    if i == 0 then "" else if i < n then ", " else ")"
  }

  /** The list text after the first i of n elements have been written. */
  function Written(xs: seq<string>, i: nat, n: nat): string
    requires i <= |xs|
  {
    Joined(xs[..i], ", ") + After(i, n)
  }

  /** Writing element i (followed by ", " or, for the last, ")") after any
      text already in the buffer extends the written text; once all are
      written it is the closed list. */
  lemma {:induction false} WrittenStep(before: string, xs: seq<string>, i: nat)
    requires i < |xs|
    ensures before + Written(xs, i + 1, |xs|)
         == before + Written(xs, i, |xs|) + xs[i] + (if i < |xs| - 1 then ", " else ")")
    ensures Written(xs, |xs|, |xs|) == ClosedList(xs)
  {
    assert xs[..i + 1] == xs[..i] + [xs[i]];
    JoinedSnoc(xs[..i], xs[i], ", ");
    assert xs[..|xs|] == xs;
  }

  /** The fields of `InsertModel` other than the cached text. */
  datatype InsertClauses = InsertClauses(
    replace: bool,
    table: string,
    columns: seq<string>,
    values: seq<string>)
  {
    /** Column k and value k belong together: the two lists grow together. */
    predicate Aligned()
    {
      |columns| == |values|
    }

    /** `insert into ` or `insert or replace into `, the table and "(". */
    function Head(): string
    {
      (if replace then "insert or replace into " else "insert into ") + table + "("
    }

    /** The statement `str()` renders:
        `insert [or replace] into T(c1, ..., cn) values(v1, ..., vn)`; with no
        columns it is `insert into T( values(`, both parentheses left open. */
    function Text(): string
    {
      Head() + ClosedList(columns) + (" values(" + ClosedList(values))
    }
  }

  /** `insert(c, v)` on a builder that already has columns: the column closes
      the column list and the value closes the value list, so column k and
      value k stay at the same position k of their lists. */
  lemma InsertTextSnoc(c: InsertClauses, column: string, value: string)
    requires c.Aligned() && c.columns != []
    ensures c.(columns := c.columns + [column], values := c.values + [value]).Text()
         == c.Head() + (Joined(c.columns, ", ") + ", " + column + ")") +
            (" values(" + (Joined(c.values, ", ") + ", " + value + ")"))
    ensures c.(columns := c.columns + [column], values := c.values + [value]).Aligned()
  {
    JoinedSnoc(c.columns, column, ", ");
    JoinedSnoc(c.values, value, ", ");
  }

  class InsertModel {
    var clauses: InsertClauses
    /** The text of the last rendering (`_sql`). */
    var sql: string

    constructor ()
      ensures clauses == InsertClauses(false, [], [], []) && sql == []
    {
      clauses := InsertClauses(false, [], [], []);
      sql := [];
    }

    /** `insert(c, v)`: appends the column and the formatted value at the same
        index of the two lists. */
    method Insert(column: string, v: Value)
      modifies this`clauses
      ensures clauses == old(clauses).(columns := old(clauses).columns + [column],
                                       values := old(clauses).values + [Format(v)])
      ensures old(clauses).Aligned() ==> clauses.Aligned()
    {
      clauses := clauses.(columns := clauses.columns + [column], values := clauses.values + [Format(v)]);
    }

    /** `insert(c, nullptr)`: the value is the bare word null, unquoted. */
    method InsertNull(column: string)
      modifies this`clauses
      ensures clauses == old(clauses).(columns := old(clauses).columns + [column],
                                       values := old(clauses).values + [NullLiteral])
      ensures old(clauses).Aligned() ==> clauses.Aligned()
    {
      clauses := clauses.(columns := clauses.columns + [column], values := clauses.values + [NullLiteral]);
    }

    /** `into(table)`: overwrites the table name. */
    method Into(name: string)
      modifies this`clauses
      ensures clauses == old(clauses).(table := name)
    {
      clauses := clauses.(table := name);
    }

    /** `replace(flag)`: chooses between `insert into` and `insert or replace into`. */
    method Replace(flag: bool)
      modifies this`clauses
      ensures clauses == old(clauses).(replace := flag)
    {
      clauses := clauses.(replace := flag);
    }

    /** `str()`: one loop writes the columns into the statement and the values
        into a second buffer, which is appended at the end. The lists are
        always aligned, since only `insert` adds to them and it adds to both. */
    method Str() returns (s: string)
      requires clauses.Aligned()
      modifies this`sql
      ensures s == sql == clauses.Text()
    {
      var c := clauses;
      var buf: string := [];
      var valuesText: string := [];
      if c.replace {
        buf := buf + "insert or replace into ";
      } else {
        buf := buf + "insert into ";
      }
      buf := buf + c.table;
      buf := buf + "(";
      ghost var head := buf;
      assert head == c.Head();
      valuesText := valuesText + " values(";
      var size := |c.columns|;
      var i := 0;
      while i < size
        invariant 0 <= i <= size
        invariant buf == head + Written(c.columns, i, size)
        invariant valuesText == " values(" + Written(c.values, i, size)
      {
        WrittenStep(head, c.columns, i);
        WrittenStep(" values(", c.values, i);
        if i < size - 1 {
          buf := buf + c.columns[i];
          buf := buf + ", ";
          valuesText := valuesText + c.values[i];
          valuesText := valuesText + ", ";
        } else {
          buf := buf + c.columns[i];
          buf := buf + ")";
          valuesText := valuesText + c.values[i];
          valuesText := valuesText + ")";
        }
        i := i + 1;
      }
      if size == 0 {
        assert Written(c.columns, 0, 0) == ClosedList(c.columns);
        assert Written(c.values, 0, 0) == ClosedList(c.values);
      } else {
        WrittenStep(head, c.columns, 0);
        WrittenStep(" values(", c.values, 0);
      }
      assert buf == c.Head() + ClosedList(c.columns);
      assert valuesText == " values(" + ClosedList(c.values);
      buf := buf + valuesText;
      sql := buf;
      s := buf;
    }

    /** `reset()`: clears the table and both lists; the replace flag is kept. */
    method Reset()
      modifies this`clauses
      ensures clauses == InsertClauses(old(clauses).replace, [], [], [])
    {
      clauses := InsertClauses(clauses.replace, [], [], []);
    }
  }
}
