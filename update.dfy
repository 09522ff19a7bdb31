/**
 * `UpdateModel` of sql.h: a table name, a list of `column = value` assignments
 * and a list of where conditions.
 */
module Update {
  import opened SqlText
  import opened Values
  import opened Conditions

  /** The assignment `set(c, v)` stores. */
  function Assignment(column: string, v: Value): string
  {
    column + " = " + Format(v)
  }

  /** The assignment `set(c, nullptr)` stores. */
  function NullAssignment(column: string): string
  {
    column + " = null"
  }

  /** Setting a column to null and setting it to the text "null" store different
      assignments: the bare word null against the quoted 'null'. */
  lemma NullAssignmentDistinct(column: string)
    ensures NullAssignment(column) != Assignment(column, Text(NullLiteral))
    ensures NullAssignment(column) == column + " = " + NullLiteral
    ensures Assignment(column, Text(NullLiteral)) == column + " = 'null'"
  {
    var a := NullAssignment(column);
    var b := Assignment(column, Text(NullLiteral));
    assert a[|column| + 3] == 'n' && b[|column| + 3] == '\'';
    assert " = null" == " = " + NullLiteral;
  }

  /** The fields of `UpdateModel` other than the cached text. */
  datatype UpdateClauses = UpdateClauses(
    table: string,
    assignments: seq<string>,
    whereConds: seq<string>)
  {
    /** The statement `str()` renders: `update T set a1, ..., an`, then
        ` where c1 and ... and cm` only when there are conditions. */
    function Text(): string
    {
      "update " + table + " set " + Joined(assignments, ", ") +
      Clause(" where ", whereConds, " and ")
    }
  }

  /** The where clause is omitted exactly when there are no conditions. */
  lemma UpdateWhereIff(c: UpdateClauses)
    ensures c.Text() == "update " + c.table + " set " + Joined(c.assignments, ", ") <==> c.whereConds == []
  {
    ClauseSnoc(" where ", [], "", " and ");
    if c.whereConds != [] {
      assert |Clause(" where ", c.whereConds, " and ")| > 0;
    }
  }

  class UpdateModel {
    var clauses: UpdateClauses
    /** The text of the last rendering (`_sql`). */
    var sql: string

    constructor ()
      ensures clauses == UpdateClauses([], [], []) && sql == []
    {
      clauses := UpdateClauses([], [], []);
      sql := [];
    }

    /** `update(table)`: overwrites the table name. */
    method Update(name: string)
      modifies this`clauses
      ensures clauses == old(clauses).(table := name)
    {
      clauses := clauses.(table := name);
    }

    /** `set(c, v)`: appends `c = <formatted v>`. */
    method Set(column: string, v: Value)
      modifies this`clauses
      ensures clauses == old(clauses).(assignments := old(clauses).assignments + [Assignment(column, v)])
    {
      var a := column;
      a := a + " = ";
      a := a + Format(v);
      clauses := clauses.(assignments := clauses.assignments + [a]);
    }

    /** `set(c, nullptr)`: appends `c = null`. */
    method SetNull(column: string)
      modifies this`clauses
      ensures clauses == old(clauses).(assignments := old(clauses).assignments + [NullAssignment(column)])
    {
      var a := column;
      a := a + " = null";
      clauses := clauses.(assignments := clauses.assignments + [a]);
    }

    /** `where(text)`. */
    method Where(condition: string)
      modifies this`clauses
      ensures clauses == old(clauses).(whereConds := old(clauses).whereConds + [condition])
    {
      clauses := clauses.(whereConds := clauses.whereConds + [condition]);
    }

    /** `where(column)`: stores the column's text as it is now. */
    method WhereColumn(condition: Column)
      modifies this`clauses
      ensures clauses == old(clauses).(whereConds := old(clauses).whereConds + [condition.cond])
    {
      var c := condition.Str();
      clauses := clauses.(whereConds := clauses.whereConds + [c]);
    }

    /** `str()`: rebuilds the cached text; nothing else changes. */
    method Str() returns (s: string)
      modifies this`sql
      ensures s == sql == clauses.Text()
    {
      var c := clauses;
      var buf: string := [];
      buf := buf + "update ";
      buf := buf + c.table;
      buf := buf + " set ";
      assert buf == "update " + c.table + " set ";
      buf := JoinVector(buf, c.assignments, ", ");
      buf := AppendClause(buf, " where ", c.whereConds, " and ");
      sql := buf;
      s := buf;
    }

    /** `reset()`: clears the table, the assignments and the conditions. */
    method Reset()
      modifies this`clauses
      ensures clauses == UpdateClauses([], [], [])
    {
      clauses := UpdateClauses([], [], []);
    }
  }
}
