/**
 * Text helpers shared by every statement builder of sql.h:
 *  - `join_vector`, which appends the elements of a vector to a string with a
 *    separator between consecutive elements;
 *  - the decimal text that `std::to_string` gives an integer (used for
 *    integer values, `limit` and `offset`);
 *  - the table list that the variadic `from(...)` of the select and delete
 *    builders accumulates.
 */
module SqlText {

  /** The specification of `join_vector`: the elements in order, `sep` between
      consecutive ones, nothing before the first or after the last. */
  function Joined(xs: seq<string>, sep: string): string
  {
    if |xs| == 0 then ""
    else if |xs| == 1 then xs[0]
    else xs[0] + sep + Joined(xs[1..], sep)
  }

  /** Appending one element to a non-empty list adds the separator and the
      element at the end: the step `join_vector`'s loop takes. */
  lemma {:induction false} JoinedSnoc(xs: seq<string>, x: string, sep: string)
    ensures Joined(xs + [x], sep) == if xs == [] then x else Joined(xs, sep) + sep + x
  {
    if |xs| >= 2 {
      assert (xs + [x])[1..] == xs[1..] + [x];
      JoinedSnoc(xs[1..], x, sep);
    } else if |xs| == 1 {
      assert (xs + [x])[1..] == [x];
    }
  }

  /** Joining a concatenation of two non-empty lists joins each part and puts
      one separator between them. */
  lemma {:induction false} JoinedAppend(xs: seq<string>, ys: seq<string>, sep: string)
    requires xs != [] && ys != []
    ensures Joined(xs + ys, sep) == Joined(xs, sep) + sep + Joined(ys, sep)
  {
    if |xs| == 1 {
      assert (xs + ys)[1..] == ys;
    } else {
      assert (xs + ys)[1..] == xs[1..] + ys;
      JoinedAppend(xs[1..], ys, sep);
    }
  }

  /** The length of a joined list: every element plus one separator between
      each pair of neighbours, so there is no trailing separator. */
  lemma {:induction false} JoinedLength(xs: seq<string>, sep: string)
    ensures |Joined(xs, sep)| == TotalLength(xs) + (if xs == [] then 0 else (|xs| - 1) * |sep|)
  {
    if |xs| >= 2 {
      JoinedLength(xs[1..], sep);
    }
  }

  function TotalLength(xs: seq<string>): nat
  {
    if xs == [] then 0 else |xs[0]| + TotalLength(xs[1..])
  }

  /** Element k of the list starts in the joined text right after the first k
      elements and their k separators, so the elements keep their order. */
  lemma JoinedAt(xs: seq<string>, sep: string, k: nat)
    requires k < |xs|
    ensures var o := TotalLength(xs[..k]) + k * |sep|;
      o + |xs[k]| <= |Joined(xs, sep)| && Joined(xs, sep)[o..o + |xs[k]|] == xs[k]
  {
    var front := JoinedSplit(xs, sep, k);
    var tail := Joined(xs[k..], sep);
    assert xs[k..] == [xs[k]] + xs[k + 1..];
    assert tail[..|xs[k]|] == xs[k] by {
      if xs[k + 1..] != [] {
        JoinedAppend([xs[k]], xs[k + 1..], sep);
      }
    }
  }

  /** The joined text of a list splits at element k into the first k elements
      with their separators, then the join of the rest. */
  lemma JoinedSplit(xs: seq<string>, sep: string, k: nat) returns (front: string)
    requires k < |xs|
    ensures front + Joined(xs[k..], sep) == Joined(xs, sep)
    ensures |front| == TotalLength(xs[..k]) + k * |sep|
  {
    if k == 0 {
      front := "";
      assert xs[k..] == xs;
    } else {
      front := Joined(xs[..k], sep) + sep;
      assert xs == xs[..k] + xs[k..];
      JoinedAppend(xs[..k], xs[k..], sep);
      JoinedLength(xs[..k], sep);
      assert (k - 1) * |sep| + |sep| == k * |sep|;
    }
  }

  /** `join_vector(result, vec, sep)`: the loop appends each element, followed by
      `sep` unless it is the last one. */
  method JoinVector(result: string, vec: seq<string>, sep: string) returns (r: string)
    ensures r == result + Joined(vec, sep)
  {
    r := result;
    var size := |vec|;
    var i := 0;
    while i < size
      invariant 0 <= i <= size
      invariant r == result + Joined(vec[..i], sep) + (if 0 < i < size then sep else "")
    {
      if i < size - 1 {
        r := r + vec[i];
        r := r + sep;
      } else {
        r := r + vec[i];
      }
      assert vec[..i + 1] == vec[..i] + [vec[i]];
      JoinedSnoc(vec[..i], vec[i], sep);
      i := i + 1;
    }
    assert vec[..size] == vec;
  }

  /** An optional clause of a rendered statement: omitted when its list is
      empty, otherwise the keyword text and the list joined by `sep`. */
  function Clause(keyword: string, xs: seq<string>, sep: string): string
  {
    if xs == [] then "" else keyword + Joined(xs, sep)
  }

  /** Registering one more element extends a clause by the separator and the
      element, or opens it with the keyword when it was omitted; a clause with
      a non-empty keyword is omitted exactly when its list is empty. */
  lemma ClauseSnoc(keyword: string, xs: seq<string>, x: string, sep: string)
    requires keyword != []
    ensures Clause(keyword, xs + [x], sep)
         == if xs == [] then keyword + x else Clause(keyword, xs, sep) + sep + x
    ensures Clause(keyword, xs, sep) == [] <==> xs == []
  {
    JoinedSnoc(xs, x, sep);
    assert xs + [x] != [];
    if xs != [] {
      var j := Joined(xs, sep);
      assert Clause(keyword, xs + [x], sep) == keyword + (j + sep + x);
      assert keyword + (j + sep + x) == keyword + j + sep + x;
    }
  }

  /** An optional single-valued clause: omitted when the field is empty. */
  function Field(keyword: string, value: string): string
  {
    if value == [] then "" else keyword + value
  }

  /** The step every `str()` takes for an optional list clause:
      `if(!list.empty()) { append keyword; join_vector(list, sep); }`. */
  method AppendClause(buffer: string, keyword: string, xs: seq<string>, sep: string) returns (r: string)
    ensures r == buffer + Clause(keyword, xs, sep)
  {
    r := buffer;
    if xs != [] {
      r := r + keyword;
      r := JoinVector(r, xs, sep);
    }
  }

  /** The step `str()` takes for an optional text field:
      `if(!field.empty()) { append keyword; append field; }`. */
  method AppendField(buffer: string, keyword: string, value: string) returns (r: string)
    ensures r == buffer + Field(keyword, value)
  {
    r := buffer;
    if value != [] {
      r := r + keyword;
      r := r + value;
    }
  }

  // ---------------------------------------------------------------------------
  // std::to_string on integers

  function DigitChar(d: nat): char
    requires d < 10
  {
    "0123456789"[d]
  }

  /** The decimal digits of a natural number, most significant first. */
  function Digits(n: nat): string
  {
    if n < 10 then [DigitChar(n)] else Digits(n / 10) + [DigitChar(n % 10)]
  }

  /** `std::to_string` of an integer: a minus sign for negative numbers, then
      the digits, with no padding and no group separators. */
  function Decimal(i: int): string
  {
    if i < 0 then "-" + Digits(-i) else Digits(i)
  }

  predicate IsDigit(c: char)
  {
    '0' <= c <= '9'
  }

  /** The inverse of `Digits`: the value of a string of decimal digits. */
  function DigitsValue(s: string): int
  {
    if s == [] then 0 else DigitsValue(s[..|s| - 1]) * 10 + (s[|s| - 1] as int - '0' as int)
  }

  /** The inverse of `Decimal`. */
  function DecimalValue(s: string): int
  {
    if |s| > 0 && s[0] == '-' then -DigitsValue(s[1..]) else DigitsValue(s)
  }

  /** Each digit character is a digit and stands for its own value. */
  lemma DigitCharValue(d: nat)
    requires d < 10
    ensures IsDigit(DigitChar(d))
    ensures DigitChar(d) as int - '0' as int == d
  {
  }

  lemma {:induction false} DigitsRoundTrip(n: nat)
    ensures Digits(n) != []
    ensures forall k :: 0 <= k < |Digits(n)| ==> IsDigit(Digits(n)[k])
    ensures DigitsValue(Digits(n)) == n
    ensures Digits(n)[0] == '0' ==> n == 0 && Digits(n) == "0"
  {
    DigitCharValue(n % 10);
    if n >= 10 {
      DigitsRoundTrip(n / 10);
      var s := Digits(n);
      assert s == Digits(n / 10) + [DigitChar(n % 10)];
      assert s[..|s| - 1] == Digits(n / 10);
      assert s[0] == Digits(n / 10)[0];
      assert DigitsValue(s) == n / 10 * 10 + n % 10;
    } else {
      assert Digits(n) == [DigitChar(n)];
    }
  }

  /** The decimal text of an integer is non-empty, is digits after an optional
      leading minus sign, and reads back as the same integer. It is the
      canonical text: no leading zero except for 0 itself, and no `-0`. */
  lemma DecimalRoundTrip(i: int)
    ensures var s := Decimal(i);
      s != [] &&
      (forall k :: 0 <= k < |s| ==> IsDigit(s[k]) || (k == 0 && s[k] == '-' && i < 0)) &&
      DecimalValue(s) == i &&
      (s[0] == '0' ==> i == 0 && s == "0") &&
      (i < 0 ==> |s| >= 2 && s[1] != '0')
  {
    var n := if i < 0 then -i else i;
    DigitsRoundTrip(n);
    if i < 0 {
      assert Decimal(i)[1..] == Digits(n);
    }
  }

  // ---------------------------------------------------------------------------
  // The table list of the variadic from(...)

  /** One step of `from(table_name, ...)`: an empty table list takes the name as
      it is, a non-empty one gets ", " and the name appended. */
  function AppendTable(tables: string, name: string): string
  {
    if tables == [] then name else tables + ", " + name
  }

  /** `from(n1, n2, ...)` applied to the current table list: one step per
      argument, left to right. */
  function AppendTables(tables: string, names: seq<string>): string
    decreases names
  {
    if names == [] then tables else AppendTables(AppendTable(tables, names[0]), names[1..])
  }

  /** Two `from` calls in a row accumulate like one call with both argument
      lists: repeated calls keep comma-appending to the same field. */
  lemma {:induction false} AppendTablesConcat(tables: string, a: seq<string>, b: seq<string>)
    ensures AppendTables(AppendTables(tables, a), b) == AppendTables(tables, a + b)
    decreases a
  {
    if a == [] {
      assert a + b == b;
    } else {
      assert (a + b)[1..] == a[1..] + b;
      AppendTablesConcat(AppendTable(tables, a[0]), a[1..], b);
    }
  }

  /** Once the table list is non-empty, `from` is `join_vector` with ", " over the
      current list and all the names. */
  lemma {:induction false} AppendTablesJoined(tables: string, names: seq<string>)
    requires tables != []
    ensures AppendTables(tables, names) == Joined([tables] + names, ", ")
    decreases names
  {
    if names != [] {
      var t' := tables + ", " + names[0];
      AppendTablesJoined(t', names[1..]);
      assert [tables] + names == [tables, names[0]] + names[1..];
      if |names| == 1 {
        assert [tables] + names == [tables, names[0]];
      } else {
        JoinedAppend([tables, names[0]], names[1..], ", ");
        JoinedAppend([t'], names[1..], ", ");
      }
    }
  }

  /** From a fresh builder, `from(n1, ..., nk)` gives the names joined by ", ",
      provided the first name is not empty (an empty first name is absorbed
      and the next name is taken without a comma). */
  lemma FromFreshJoined(names: seq<string>)
    requires names != [] && names[0] != []
    ensures AppendTables([], names) == Joined(names, ", ")
  {
    AppendTablesJoined(names[0], names[1..]);
    assert [names[0]] + names[1..] == names;
  }
}
