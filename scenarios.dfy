/**
 * Whole statements built through the builders' methods, as a caller of sql.h
 * writes them, with the exact text each one renders.
 *
 * Each expected text is written as the pieces its clauses contribute; each
 * `...Text` lemma computes the rendering of one set of clause values.
 */
module Scenarios {
  import opened SqlText
  import opened Values
  import opened Conditions
  import opened Select
  import opened Insert
  import opened Update
  import opened Delete

  /** select("id", "name").from("users").where("age >= 18").order_by("name").limit(10) */
  method SelectExample() returns (s: string)
    ensures s == "select id, name from users" + " where age >= 18" + " order by name" + " limit 10"
  {
    var m := new SelectModel();
    m.Select(["id", "name"]);
    m.From(["users"]);
    m.Where("age >= 18");
    m.OrderBy("name");
    m.Limit(10);
    assert Decimal(10) == "10";
    assert m.clauses == SelectExampleClauses();
    SelectExampleText();
    s := m.Str();
  }

  function SelectExampleClauses(): SelectClauses
  {
    NoClauses.(columns := ["id", "name"], table := "users", whereConds := ["age >= 18"],
               orderBy := "name", limit := "10")
  }

  lemma SelectExampleText()
    ensures SelectExampleClauses().Text()
         == "select id, name from users" + " where age >= 18" + " order by name" + " limit 10"
  {
    var c := SelectExampleClauses();
    assert Joined(c.columns, ", ") == "id, name";
    assert c.Head() == "select id, name from users";
    assert Clause(" where ", c.whereConds, " and ") == " where age >= 18";
  }

  /** insert("name", "Alice").insert("age", 30).into("users") */
  method InsertExample() returns (s: string)
    ensures s == "insert into users(" + "name, age)" + " values('Alice', 30)"
  {
    var m := new InsertModel();
    AliceText();
    assert Format(Int(30)) == "30";
    m.Insert("name", CText("Alice"));
    m.Insert("age", Int(30));
    m.Into("users");
    assert m.clauses == InsertClauses(false, "users", ["name", "age"], ["'Alice'", "30"]);
    InsertExampleText();
    s := m.Str();
  }

  /** A character array without a NUL is quoted whole. */
  lemma AliceText()
    ensures Format(CText("Alice")) == "'Alice'"
  {
    FormatCTextRoundTrip("Alice");
  }

  lemma InsertExampleText()
    ensures InsertClauses(false, "users", ["name", "age"], ["'Alice'", "30"]).Text()
         == "insert into users(" + "name, age)" + " values('Alice', 30)"
  {
    var c := InsertClauses(false, "users", ["name", "age"], ["'Alice'", "30"]);
    assert c.Head() == "insert into users(";
    assert Joined(c.columns, ", ") == "name, age";
    assert Joined(c.values, ", ") == "'Alice', 30";
    assert " values(" + ClosedList(c.values) == " values('Alice', 30)";
  }

  /** update("users").set("age", 31).where("id = 1") */
  method UpdateExample() returns (s: string)
    ensures s == "update users set " + "age = 31" + " where id = 1"
  {
    var m := new UpdateModel();
    m.Update("users");
    assert Assignment("age", Int(31)) == "age = 31" by {
      assert Decimal(31) == "31";
    }
    m.Set("age", Int(31));
    m.Where("id = 1");
    assert m.clauses == UpdateClauses("users", ["age = 31"], ["id = 1"]);
    UpdateExampleText();
    s := m.Str();
  }

  lemma UpdateExampleText()
    ensures UpdateClauses("users", ["age = 31"], ["id = 1"]).Text()
         == "update users set " + "age = 31" + " where id = 1"
  {
    var c := UpdateClauses("users", ["age = 31"], ["id = 1"]);
    assert "update " + c.table + " set " == "update users set ";
    assert Clause(" where ", c.whereConds, " and ") == " where id = 1";
  }

  /** from("users").where("id = 1") on a delete builder */
  method DeleteExample() returns (s: string)
    ensures s == "delete from users" + " where id = 1"
  {
    var m := new DeleteModel();
    m.From(["users"]);
    m.Where("id = 1");
    assert m.clauses == DeleteClauses("users", ["id = 1"]);
    DeleteExampleText();
    s := m.Str();
  }

  lemma DeleteExampleText()
    ensures DeleteClauses("users", ["id = 1"]).Text() == "delete from users" + " where id = 1"
  {
    var c := DeleteClauses("users", ["id = 1"]);
    assert "delete from " + c.table == "delete from users";
  }

  /** from("a", "b") in a select builder, and from("a") followed by from("b") in
      a delete builder, both give the table list "a, b". */
  method MultiTableFrom() returns (selectText: string, deleteText: string)
    ensures selectText == "select * from " + "a, b"
    ensures deleteText == "delete from " + "a, b"
  {
    var sel := new SelectModel();
    sel.Select(["*"]);
    sel.From(["a", "b"]);
    assert sel.clauses == NoClauses.(columns := ["*"], table := "a, b");
    SelectAllText("a, b");
    selectText := sel.Str();
    var del := new DeleteModel();
    del.From(["a"]);
    del.From(["b"]);
    assert del.clauses == DeleteClauses("a, b", []);
    deleteText := del.Str();
  }

  /** The text of a select builder with the columns `*`, the given tables and
      nothing else. */
  lemma SelectAllText(tables: string)
    ensures NoClauses.(columns := ["*"], table := tables).Text() == "select * from " + tables
  {
    var c := NoClauses.(columns := ["*"], table := tables);
    assert "select " + Joined(c.columns, ", ") + " from " == "select * from ";
  }

  /** An insert without columns leaves both parentheses open. */
  method EmptyInsert() returns (s: string)
    ensures s == "insert into t(" + " values("
  {
    var m := new InsertModel();
    m.Into("t");
    assert m.clauses == InsertClauses(false, "t", [], []);
    s := m.Str();
  }

  /** reset() keeps the replace flag of an insert builder. */
  method ReplaceSurvivesReset() returns (s: string)
    ensures s == "insert or replace into t(" + "a)" + " values(1)"
  {
    var m := new InsertModel();
    m.Replace(true);
    m.Into("old");
    m.Insert("x", Text("y"));
    m.Reset();
    m.Into("t");
    assert Format(Int(1)) == "1" by {
      assert Decimal(1) == "1";
    }
    m.Insert("a", Int(1));
    assert m.clauses == InsertClauses(true, "t", ["a"], ["1"]);
    ReplaceText();
    s := m.Str();
  }

  lemma ReplaceText()
    ensures InsertClauses(true, "t", ["a"], ["1"]).Text()
         == "insert or replace into t(" + "a)" + " values(1)"
  {
    var c := InsertClauses(true, "t", ["a"], ["1"]);
    assert c.Head() == "insert or replace into t(";
    assert ClosedList(c.columns) == "a)";
    assert " values(" + ClosedList(c.values) == " values(1)";
  }

  /** The nullptr overload stores null; the text "null" is stored quoted. */
  method NullAgainstText() returns (s: string)
    ensures s == "insert into t(" + "a, b)" + " values(null, 'null')"
  {
    var m := new InsertModel();
    m.Into("t");
    m.InsertNull("a");
    assert Format(Text("null")) == "'null'";
    m.Insert("b", Text("null"));
    assert m.clauses == InsertClauses(false, "t", ["a", "b"], ["null", "'null'"]);
    NullAgainstTextText();
    s := m.Str();
  }

  lemma NullAgainstTextText()
    ensures InsertClauses(false, "t", ["a", "b"], ["null", "'null'"]).Text()
         == "insert into t(" + "a, b)" + " values(null, 'null')"
  {
    var c := InsertClauses(false, "t", ["a", "b"], ["null", "'null'"]);
    assert c.Head() == "insert into t(";
    assert Joined(c.columns, ", ") == "a, b";
    assert Joined(c.values, ", ") == "null, 'null'";
    assert " values(" + ClosedList(c.values) == " values(null, 'null')";
  }

  /** `a && b` rewrites b and leaves a alone; `c || c` reads c before writing it. */
  method CombineColumns() returns (left: string, right: string, self: string)
    ensures left == "x" && right == "(x) and (y = 1)"
    ensures self == "(z) or (z)"
  {
    var a := new Column("x");
    var b := new Column("y");
    b.Compare(Eq, Int(1));
    assert Decimal(1) == "1";
    var r := a.And(b);
    left, right := a.Str(), r.Str();
    var c := new Column("z");
    r := c.Or(c);
    self := r.Str();
  }

  /** `c == c` appends " = " before it reads c, so the operand includes it;
      `c == d` reads d as it is. */
  method SelfCompare() returns (self: string, other: string)
    ensures self == "x = x = "
    ensures other == "x = y"
  {
    var c := new Column("x");
    c.CompareColumn(Eq, c);
    self := c.Str();
    var a := new Column("x");
    var d := new Column("y");
    a.CompareColumn(Eq, d);
    other := a.Str();
  }

  /** A column given to where() is copied: changing it afterwards does not
      change the statement. */
  method WhereSnapshot() returns (s: string, later: string)
    ensures s == "select * from " + "t where id in (1, 2)"
    ensures later == "id in (1, 2) is null"
  {
    var c := new Column("id");
    c.In([Int(1), Int(2)]);
    InOneTwoText();
    assert c.cond == "id" + " in (1, 2)" == "id in (1, 2)";
    var m := new SelectModel();
    m.Select(["*"]);
    m.From(["t"]);
    m.WhereColumn(c);
    c.IsNull();
    assert m.clauses == NoClauses.(columns := ["*"], table := "t", whereConds := ["id in (1, 2)"]);
    WhereSnapshotText();
    s := m.Str();
    later := c.Str();
  }

  lemma InOneTwoText()
    ensures MembershipText([Int(1), Int(2)], false) == " in (1, 2)"
  {
    MembershipPair(Int(1), Int(2), false);
    assert Decimal(1) == "1" && Decimal(2) == "2";
  }

  lemma WhereSnapshotText()
    ensures NoClauses.(columns := ["*"], table := "t", whereConds := ["id in (1, 2)"]).Text()
         == "select * from " + "t where id in (1, 2)"
  {
    var c := NoClauses.(columns := ["*"], table := "t", whereConds := ["id in (1, 2)"]);
    SelectAllText("t");
    assert c.Text() == NoClauses.(columns := ["*"], table := "t").Text() + " where id in (1, 2)";
  }

  /** reset() clears every clause a select builder can hold, and keeps the text
      of the last rendering: a reset builder is a new one only in its clauses. */
  method UsedThenReset() returns (m: SelectModel, rendered: string)
    ensures fresh(m) && m.clauses == NoClauses
    ensures m.sql == rendered && rendered != []
  {
    m := new SelectModel();
    m.Select(["x"]);
    m.Distinct();
    m.From(["u"]);
    m.Join(Left, "v");
    m.On("u.id = v.id");
    m.Where("x > 0");
    m.GroupBy(["x"]);
    m.Having("count(x) > 1");
    m.OrderBy("x");
    m.LimitOffset(5, 10);
    rendered := m.Str();
    assert |m.clauses.Head()| >= |"select "|;
    m.Reset();
  }

  /** After reset() the builder renders like a fresh one given the same calls. */
  method ResetLikeFresh() returns (reused: string, unreused: string)
    ensures reused == unreused == "select a from t"
  {
    var m, _ := UsedThenReset();
    m.Select(["a"]);
    m.From(["t"]);
    var n := new SelectModel();
    n.Select(["a"]);
    n.From(["t"]);
    assert m.clauses == n.clauses == NoClauses.(columns := ["a"], table := "t");
    SelectOneText();
    reused := m.Str();
    unreused := n.Str();
  }

  lemma SelectOneText()
    ensures NoClauses.(columns := ["a"], table := "t").Text() == "select a from t"
  {
    assert Joined(["a"], ", ") == "a";
  }

  /** Rendering twice without a change in between gives the same text. */
  method RenderTwice(m: SelectModel) returns (first: string, second: string)
    modifies m
    ensures m.clauses == old(m.clauses)
    ensures first == second == m.clauses.Text()
  {
    first := m.Str();
    second := m.Str();
  }
}
