/**
 * `DeleteModel` of sql.h: a comma-joined table list and a list of where
 * conditions.
 */
module Delete {
  import opened SqlText
  import opened Conditions

  /** The fields of `DeleteModel` other than the cached text. */
  datatype DeleteClauses = DeleteClauses(
    table: string,
    whereConds: seq<string>)
  {
    /** The statement `str()` renders: `delete from <tables>`, then
        ` where c1 and ... and cm` only when there are conditions. */
    function Text(): string
    {
      "delete from " + table + Clause(" where ", whereConds, " and ")
    }
  }

  /** The where clause is omitted exactly when there are no conditions. */
  lemma DeleteWhereIff(c: DeleteClauses)
    ensures c.Text() == "delete from " + c.table <==> c.whereConds == []
  {
    if c.whereConds != [] {
      assert |Clause(" where ", c.whereConds, " and ")| > 0;
    }
  }

  class DeleteModel {
    var clauses: DeleteClauses
    /** The text of the last rendering (`_sql`). */
    var sql: string

    constructor ()
      ensures clauses == DeleteClauses([], []) && sql == []
    {
      clauses := DeleteClauses([], []);
      sql := [];
    }

    /** `from(t1, t2, ...)`: each name is comma-appended to the one table field,
        across calls too. */
    method From(names: seq<string>)
      modifies this`clauses
      ensures clauses == old(clauses).(table := AppendTables(old(clauses).table, names))
      decreases |names|
    {
      if names != [] {
        clauses := clauses.(table := AppendTable(clauses.table, names[0]));
        From(names[1..]);
      }
    }

    /** `where(text)`. */
    method Where(condition: string)
      modifies this`clauses
      ensures clauses == old(clauses).(whereConds := old(clauses).whereConds + [condition])
    {
      clauses := clauses.(whereConds := clauses.whereConds + [condition]);
    }

    /** `where(column)`: stores the column's text as it is now. */
    method WhereColumn(condition: Column)
      modifies this`clauses
      ensures clauses == old(clauses).(whereConds := old(clauses).whereConds + [condition.cond])
    {
      var c := condition.Str();
      clauses := clauses.(whereConds := clauses.whereConds + [c]);
    }

    /** `str()`: rebuilds the cached text; nothing else changes. */
    method Str() returns (s: string)
      modifies this`sql
      ensures s == sql == clauses.Text()
    {
      var c := clauses;
      var buf: string := [];
      buf := buf + "delete from ";
      buf := buf + c.table;
      buf := AppendClause(buf, " where ", c.whereConds, " and ");
      sql := buf;
      s := buf;
    }

    /** `reset()`: clears the table list and the conditions. */
    method Reset()
      modifies this`clauses
      ensures clauses == DeleteClauses([], [])
    {
      clauses := DeleteClauses([], []);
    }
  }
}
