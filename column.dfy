/**
 * The condition expression of sql.h, class `column`: one text buffer that every
 * operator extends in place. Each C++ operator becomes a named method; the
 * operators that return `*this` for chaining become methods on the same object
 * that callers simply call again.
 */
module Conditions {
  import opened SqlText
  import opened Values

  /** The six comparison operators of `column`. */
  datatype Comparison = Eq | Ne | Ge | Le | Gt | Lt

  /** The text a comparison operator puts before the formatted value: the
      operator with a space on each side. */
  function Operator(op: Comparison): (t: string)
    ensures |t| >= 3 && t[0] == ' ' && t[|t| - 1] == ' '
  {
    match op
    case Eq => " = "
    case Ne => " != "
    case Ge => " >= "
    case Le => " <= "
    case Gt => " > "
    case Lt => " < "
  }

  /** What `column == v` (and the other comparisons) append. */
  function ComparisonText(op: Comparison, v: Value): string
  {
    Operator(op) + Format(v)
  }

  /** What `in(args)` (or `not_in(args)` when `negated`) appends: a single value
      degrades to an (in)equality; any other count, zero included, gives a
      parenthesised list of the formatted values in the order given. */
  function MembershipText(vs: seq<Value>, negated: bool): string
  {
    if |vs| == 1 then (if negated then " != " else " = ") + Format(vs[0])
    else ListOpen(negated) + Joined(FormatAll(vs), ", ") + ")"
  }

  function ListOpen(negated: bool): string
  {
    if negated then " not in (" else " in ("
  }

  /** `in` of one value is the same text as `==` of that value, `not_in` of one
      value the same as `!=`. */
  lemma MembershipSingleton(v: Value, negated: bool)
    ensures MembershipText([v], negated) == ComparisonText(if negated then Ne else Eq, v)
  {
  }

  /** The empty list is not guarded: it gives ` in ()` / ` not in ()`. */
  lemma MembershipEmpty()
    ensures MembershipText([], false) == " in ()"
    ensures MembershipText([], true) == " not in ()"
  {
  }

  /** Two values keep their order: ` in (x, y)`. */
  lemma MembershipPair(x: Value, y: Value, negated: bool)
    ensures MembershipText([x, y], negated)
         == (if negated then " not in (" else " in (") + Format(x) + ", " + Format(y) + ")"
  {
    assert FormatAll([x, y]) == [Format(x), Format(y)];
    assert Joined([Format(x), Format(y)], ", ") == Format(x) + ", " + Format(y);
  }

  /** Adding one more value to a list of two or more inserts ", " and the new
      formatted value just before the closing parenthesis. */
  lemma MembershipExtend(vs: seq<Value>, w: Value, negated: bool)
    requires |vs| >= 2
    ensures var t := MembershipText(vs, negated);
      MembershipText(vs + [w], negated) == t[..|t| - 1] + ", " + Format(w) + ")"
  {
    assert FormatAll(vs + [w]) == FormatAll(vs) + [Format(w)];
    JoinedSnoc(FormatAll(vs), Format(w), ", ");
    var t := MembershipText(vs, negated);
    assert t == ListOpen(negated) + Joined(FormatAll(vs), ", ") + ")";
    assert t[..|t| - 1] == ListOpen(negated) + Joined(FormatAll(vs), ", ");
  }

  /** The text `&&` / `||` of two columns builds: both sides parenthesised. */
  function Combined(left: string, right: string, connective: string): string
  {
    "(" + left + ") " + connective + " (" + right + ")"
  }

  /** Combining parenthesises each side whole, so both operands can be read back
      from the combined text however deeply they were combined before. */
  lemma CombinedParts(left: string, right: string, connective: string)
    ensures var t := Combined(left, right, connective);
      var m := |left| + |connective| + 5;
      |t| == m + |right| + 1 &&
      t[0] == '(' && t[1..|left| + 1] == left &&
      t[|left| + 1..m] == ") " + connective + " (" &&
      t[m..|t| - 1] == right && t[|t| - 1] == ')'
  {
  }

  class Column {
    var cond: string

    /** `column(name)`: the buffer starts as the given column name or fragment. */
    constructor (name: string)
      ensures cond == name
    {
      cond := name;
    }

    /** `str()`: the current text; reading it never clears it. */
    function Str(): string
      reads this
    {
      cond
    }

    /** `to_value<column>`: a column used as a value carries its current text. */
    function AsValue(): (v: Value)
      reads this
      ensures Format(v) == cond
    {
      Col(cond)
    }

    /** `as(s)`. */
    method As(s: string)
      modifies this
      ensures cond == old(cond) + " as " + s
    {
      cond := cond + " as ";
      cond := cond + s;
    }

    /** `is_null()`. */
    method IsNull()
      modifies this
      ensures cond == old(cond) + " is null"
    {
      cond := cond + " is null";
    }

    /** `is_not_null()`. */
    method IsNotNull()
      modifies this
      ensures cond == old(cond) + " is not null"
    {
      cond := cond + " is not null";
    }

    /** `in(args)`. */
    method In(vs: seq<Value>)
      modifies this
      ensures cond == old(cond) + MembershipText(vs, false)
    {
      AppendMembership(vs, false);
    }

    /** `not_in(args)`. */
    method NotIn(vs: seq<Value>)
      modifies this
      ensures cond == old(cond) + MembershipText(vs, true)
    {
      AppendMembership(vs, true);
    }

    /** The body `in` and `not_in` share, differing only in their keywords. Their
        loop over the arguments is `join_vector`'s loop over the formatted values
        with ", " as separator, so it is written as a call to JoinVector. */
    method AppendMembership(vs: seq<Value>, negated: bool)
      modifies this
      ensures cond == old(cond) + MembershipText(vs, negated)
    {
      var buf := cond;
      if |vs| == 1 {
        buf := buf + (if negated then " != " else " = ");
        buf := buf + Format(vs[0]);
      } else {
        var formatted := FormatAll(vs);
        buf := buf + ListOpen(negated);
        buf := JoinVector(buf, formatted, ", ");
        buf := buf + ")";
        assert buf == cond + (ListOpen(negated) + Joined(formatted, ", ") + ")");
      }
      cond := buf;
    }

    /** `*this && other` for a column operand: `other`'s buffer becomes
        "(" + this + ") and (" + other + ")" and `other` is returned. The text is
        built before the assignment, so `c && c` gives "(x) and (x)". */
    method And(other: Column) returns (r: Column)
      modifies other
      ensures r == other
      ensures other.cond == Combined(old(cond), old(other.cond), "and")
      ensures other != this ==> cond == old(cond)
    {
      r := Combine(other, "and");
    }

    /** `*this || other` for a column operand, like `And` with `or`. */
    method Or(other: Column) returns (r: Column)
      modifies other
      ensures r == other
      ensures other.cond == Combined(old(cond), old(other.cond), "or")
      ensures other != this ==> cond == old(cond)
    {
      r := Combine(other, "or");
    }

    method Combine(other: Column, connective: string) returns (r: Column)
      modifies other
      ensures r == other
      ensures other.cond == Combined(old(cond), old(other.cond), connective)
      ensures other != this ==> cond == old(cond)
    {
      var s := "(";
      s := s + cond;
      s := s + ") " + connective + " (";
      s := s + other.cond;
      s := s + ")";
      other.cond := s;
      r := other;
    }

    /** `*this && text` for a string operand: appended to this buffer, without
        parentheses. */
    method AndText(s: string)
      modifies this
      ensures cond == old(cond) + " and " + s
    {
      cond := cond + " and ";
      cond := cond + s;
    }

    /** `*this || text` for a string operand. */
    method OrText(s: string)
      modifies this
      ensures cond == old(cond) + " or " + s
    {
      cond := cond + " or ";
      cond := cond + s;
    }

    /** `==`, `!=`, `>=`, `<=`, `>`, `<` with a value of any kind other than a
        column (a column operand is `CompareColumn`). */
    method Compare(op: Comparison, v: Value)
      modifies this
      ensures cond == old(cond) + ComparisonText(op, v)
    {
      cond := cond + Operator(op);
      cond := cond + Format(v);
    }

    /** A comparison with a column operand: the operator is appended first and
        the operand's buffer is read after that, so `c == c` on "x" gives
        "x = x = ". */
    method CompareColumn(op: Comparison, other: Column)
      modifies this
      ensures cond == old(cond) + Operator(op) +
                      (if other == this then old(cond) + Operator(op) else other.cond)
      ensures other != this ==> other.cond == old(other.cond)
    {
      cond := cond + Operator(op);
      cond := cond + Format(other.AsValue());
    }
  }
}
