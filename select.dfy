/**
 * `SelectModel` of sql.h: a builder whose registration methods push onto list
 * fields or overwrite text fields, and whose `str()` clears the cached text and
 * rebuilds it in a fixed clause order.
 *
 * The builder's clause fields are kept together in one record, `SelectClauses`,
 * so that each registration method states its effect as an update of exactly
 * the fields it touches, and the rendered text is a function of that record.
 */
module Select {
  import opened SqlText
  import opened Conditions

  /** The seven join methods differ only in the keyword they store. */
  datatype JoinKind = Inner | Left | LeftOuter | Right | RightOuter | Full | FullOuter

  function JoinKeyword(kind: JoinKind): (k: string)
    ensures k != []
  {
    match kind
    case Inner => "join"
    case Left => "left join"
    case LeftOuter => "left outer join"
    case Right => "right join"
    case RightOuter => "right outer join"
    case Full => "full join"
    case FullOuter => "full outer join"
  }

  /** The fields of `SelectModel` other than the cached text. */
  datatype SelectClauses = SelectClauses(
    columns: seq<string>,
    distinct: bool,
    groupBy: seq<string>,
    table: string,
    joinType: string,
    joinTable: string,
    onConds: seq<string>,
    whereConds: seq<string>,
    havingConds: seq<string>,
    orderBy: string,
    limit: string,
    offset: string)
  {
    /** `select [distinct] <columns> from <tables>` and the join if one was set. */
    function Head(): string
    {
      "select " + (if distinct then "distinct " else "") + Joined(columns, ", ") +
      " from " + table +
      (if joinType == [] then "" else " " + joinType + " " + joinTable)
    }

    /** The statement `str()` renders: the head, then each non-empty clause in
        the order on, where, group by, having, order by, limit, offset.
        Condition lists are joined by " and ", column lists by ", ". */
    function Text(): string
    {
      Head() +
      Clause(" on ", onConds, " and ") +
      Clause(" where ", whereConds, " and ") +
      Clause(" group by ", groupBy, ", ") +
      Clause(" having ", havingConds, " and ") +
      Field(" order by ", orderBy) +
      Field(" limit ", limit) +
      Field(" offset ", offset)
    }
  }

  /** The statement is just its head exactly when no optional clause is set. */
  lemma HeadOnlyIff(c: SelectClauses)
    ensures c.Text() == c.Head() <==>
      c.onConds == [] && c.whereConds == [] && c.groupBy == [] && c.havingConds == [] &&
      c.orderBy == [] && c.limit == [] && c.offset == []
  {
    var on := Clause(" on ", c.onConds, " and ");
    var where := Clause(" where ", c.whereConds, " and ");
    var group := Clause(" group by ", c.groupBy, ", ");
    var having := Clause(" having ", c.havingConds, " and ");
    var order := Field(" order by ", c.orderBy);
    var limit := Field(" limit ", c.limit);
    var offset := Field(" offset ", c.offset);
    assert |c.Text()| == |c.Head()| + |on| + |where| + |group| + |having| + |order| + |limit| + |offset|;
    assert c.onConds != [] ==> |on| > 0;
    assert c.whereConds != [] ==> |where| > 0;
    assert c.groupBy != [] ==> |group| > 0;
    assert c.havingConds != [] ==> |having| > 0;
  }

  /** The clauses of a new builder, and of one after `reset()`. */
  const NoClauses := SelectClauses([], false, [], [], [], [], [], [], [], [], [], [])

  class SelectModel {
    var clauses: SelectClauses
    /** The text of the last rendering (`_sql`). */
    var sql: string

    constructor ()
      ensures clauses == NoClauses && sql == []
    {
      clauses := NoClauses;
      sql := [];
    }

    /** `select(c1, c2, ...)`: appends the columns in order. */
    method Select(names: seq<string>)
      modifies this`clauses
      ensures clauses == old(clauses).(columns := old(clauses).columns + names)
      decreases |names|
    {
      if names != [] {
        clauses := clauses.(columns := clauses.columns + [names[0]]);
        Select(names[1..]);
        assert old(clauses).columns + names == old(clauses).columns + [names[0]] + names[1..];
      }
    }

    /** `distinct()`. */
    method Distinct()
      modifies this`clauses
      ensures clauses == old(clauses).(distinct := true)
    {
      clauses := clauses.(distinct := true);
    }

    /** `from(t1, t2, ...)`: each name is comma-appended to the one table field,
        across calls too. */
    method From(names: seq<string>)
      modifies this`clauses
      ensures clauses == old(clauses).(table := AppendTables(old(clauses).table, names))
      decreases |names|
    {
      if names != [] {
        clauses := clauses.(table := AppendTable(clauses.table, names[0]));
        From(names[1..]);
      }
    }

    /** `join`, `left_join`, ..., `full_outer_join`: overwrite both the join type
        and the join table. */
    method Join(kind: JoinKind, name: string)
      modifies this`clauses
      ensures clauses == old(clauses).(joinType := JoinKeyword(kind), joinTable := name)
    {
      clauses := clauses.(joinType := JoinKeyword(kind), joinTable := name);
    }

    /** `on(text)`. */
    method On(condition: string)
      modifies this`clauses
      ensures clauses == old(clauses).(onConds := old(clauses).onConds + [condition])
    {
      clauses := clauses.(onConds := clauses.onConds + [condition]);
    }

    /** `on(column)`: stores the column's text as it is now. */
    method OnColumn(condition: Column)
      modifies this`clauses
      ensures clauses == old(clauses).(onConds := old(clauses).onConds + [condition.cond])
    {
      var c := condition.Str();
      clauses := clauses.(onConds := clauses.onConds + [c]);
    }

    /** `where(text)`. */
    method Where(condition: string)
      modifies this`clauses
      ensures clauses == old(clauses).(whereConds := old(clauses).whereConds + [condition])
    {
      clauses := clauses.(whereConds := clauses.whereConds + [condition]);
    }

    /** `where(column)`: stores the column's text as it is now. */
    method WhereColumn(condition: Column)
      modifies this`clauses
      ensures clauses == old(clauses).(whereConds := old(clauses).whereConds + [condition.cond])
    {
      var c := condition.Str();
      clauses := clauses.(whereConds := clauses.whereConds + [c]);
    }

    /** `group_by(c1, c2, ...)`. */
    method GroupBy(names: seq<string>)
      modifies this`clauses
      ensures clauses == old(clauses).(groupBy := old(clauses).groupBy + names)
      decreases |names|
    {
      if names != [] {
        clauses := clauses.(groupBy := clauses.groupBy + [names[0]]);
        GroupBy(names[1..]);
        assert old(clauses).groupBy + names == old(clauses).groupBy + [names[0]] + names[1..];
      }
    }

    /** `having(text)`. */
    method Having(condition: string)
      modifies this`clauses
      ensures clauses == old(clauses).(havingConds := old(clauses).havingConds + [condition])
    {
      clauses := clauses.(havingConds := clauses.havingConds + [condition]);
    }

    /** `having(column)`: stores the column's text as it is now. */
    method HavingColumn(condition: Column)
      modifies this`clauses
      ensures clauses == old(clauses).(havingConds := old(clauses).havingConds + [condition.cond])
    {
      var c := condition.Str();
      clauses := clauses.(havingConds := clauses.havingConds + [c]);
    }

    /** `order_by(text)`: overwrites. */
    method OrderBy(order: string)
      modifies this`clauses
      ensures clauses == old(clauses).(orderBy := order)
    {
      clauses := clauses.(orderBy := order);
    }

    /** `limit(n)`: overwrites the limit with the decimal text of n. */
    method Limit(n: int)
      modifies this`clauses
      ensures clauses == old(clauses).(limit := Decimal(n))
    {
      clauses := clauses.(limit := Decimal(n));
    }

    /** `limit(offset, n)`: overwrites both the offset and the limit. */
    method LimitOffset(start: int, n: int)
      modifies this`clauses
      ensures clauses == old(clauses).(offset := Decimal(start), limit := Decimal(n))
    {
      clauses := clauses.(offset := Decimal(start), limit := Decimal(n));
    }

    /** `offset(n)`: overwrites the offset. */
    method Offset(start: int)
      modifies this`clauses
      ensures clauses == old(clauses).(offset := Decimal(start))
    {
      clauses := clauses.(offset := Decimal(start));
    }

    /** `str()`: clears the cached text, appends the clauses one by one (here in
        a local buffer that is then stored in `sql`) and returns the text.
        Nothing but `sql` changes, so rendering again without a change in
        between returns the same text. */
    method Str() returns (s: string)
      modifies this`sql
      ensures s == sql == clauses.Text()
    {
      var c := clauses;
      var buf: string := [];
      buf := buf + "select ";
      if c.distinct {
        buf := buf + "distinct ";
      }
      buf := JoinVector(buf, c.columns, ", ");
      buf := buf + " from ";
      buf := buf + c.table;
      assert buf == "select " + (if c.distinct then "distinct " else "") + Joined(c.columns, ", ") +
                    " from " + c.table;
      if c.joinType != [] {
        buf := buf + " ";
        buf := buf + c.joinType;
        buf := buf + " ";
        buf := buf + c.joinTable;
      }
      assert buf == c.Head();
      buf := AppendClause(buf, " on ", c.onConds, " and ");
      buf := AppendClause(buf, " where ", c.whereConds, " and ");
      buf := AppendClause(buf, " group by ", c.groupBy, ", ");
      buf := AppendClause(buf, " having ", c.havingConds, " and ");
      buf := AppendField(buf, " order by ", c.orderBy);
      buf := AppendField(buf, " limit ", c.limit);
      buf := AppendField(buf, " offset ", c.offset);
      sql := buf;
      s := buf;
    }

    /** `reset()`: every clause is cleared; the cached text is left as it was. */
    method Reset()
      modifies this`clauses
      ensures clauses == NoClauses
    {
      clauses := NoClauses;
    }
  }
}
