# sql.h in Dafny

A model of `sql.h`, a header-only fluent SQL text builder, with proofs about
the text it produces. The header has four parts, and each is a Dafny module:

- **Value formatter** (`to_value`, `Param`) becomes module `Values` (values.dfy).
  It is one pure function `Format` over a closed datatype `Value`. The kinds are
  `Int`, `Text` (std::string), `CText` (char array or `const char*`), `Raw`
  (`Param`) and `Col` (a `column` used as a value).
- **`join_vector`** and the shared text helpers become module `SqlText` (text.dfy).
  The helpers are the decimal text of `std::to_string` on integers and the table
  list that the variadic `from(...)` accumulates. `join_vector` is a method with
  the same index loop. It is proved against the specification function `Joined`.
- **`column`** becomes module `Conditions` (column.dfy). It is a class whose one
  field `cond` is the `_cond` buffer. Every operator is a method that appends to
  the buffer in place. `&&` and `||` with a column operand modify the *other*
  column and return it.
- **`SelectModel`, `InsertModel`, `UpdateModel`, `DeleteModel`** become modules
  `Select`, `Insert`, `Update` and `Delete`. Each builder is a class with two fields:
  - `clauses` is a record holding the C++ data members, one record field per
    member: `_select_columns` is `columns`, `_where_condition` is `whereConds`,
    and so on.
  - `sql` is `_sql`, the text of the last rendering.

  Each registration method states its new state as a record update of exactly the
  members it changes. So "this method changes only this field" is part of each
  contract. `str()` is a method that builds the text step by step, in the order the
  C++ code appends. It is proved equal to the record's `Text()` function. `str()`
  modifies only `sql`, so rendering twice without a change in between gives the
  same text.

Module `Scenarios` (scenarios.dfy) drives the builders through whole call chains.
It proves the exact text each chain produces, including these edge cases:

- an insert with no columns;
- `reset()` on an insert builder, which keeps the replace flag;
- repeated `from` calls;
- `a && b`, which rewrites `b`, and `c || c`.

### Edge cases of the code

- **Empty insert.** An insert builder with no columns renders `insert into t( values(`.
  Both parentheses stay open (sql.h:548-564).
- **Insert `reset()`.** It clears the table and both lists but keeps the
  `insert or replace` flag (sql.h:568-573).
- **`reset()` and the cached text.** No `reset()` clears `_sql` (sql.h:473-487,
  568-573, 644-649, 719-723). Reset restores every clause field of the select,
  update and delete builders to its value in a new builder and keeps the text of
  the last rendering, which `last_sql()` (sql.h:269-271) would still return.
- **Null.** There is no null kind in the formatter: `to_value` has no `nullptr`
  specialisation. `null` exists only through the `nullptr` overloads of
  `InsertModel::insert` (sql.h:588-593) and `UpdateModel::set` (sql.h:662-668).
  These are the methods `InsertNull` and `SetNull`.
- **Empty first table name.** `from` assigns the name when the table list is empty
  (sql.h:306-311). So an empty first name is absorbed, and the next name is taken
  without a comma. The table list equals the names joined by ", " only when the
  first name is non-empty (`SqlText.FromFreshJoined`).

## Model

| member | source | states |
|---|---|---|
| SqlText.JoinVector | sql.h:79-90 | appending `vec` with `sep` between neighbours gives `result + Joined(vec, sep)`: elements in order, no separator before the first or after the last, nothing for an empty vector |
| SqlText.JoinedSnoc | sql.h:82-89 | one more element adds the separator and the element at the end (just the element when the list was empty): the step of `join_vector`'s loop |
| SqlText.JoinedAppend | sql.h:79-90 | joining two non-empty lists back to back is the two joins with one separator between |
| SqlText.JoinedLength | sql.h:79-90 | the joined length is the sum of the element lengths plus one separator per neighbouring pair: no trailing separator |
| SqlText.JoinedAt | sql.h:82-89 | element k starts in the joined text at offset (length of the first k elements) + k separators, and the text there is element k: the order is the input order |
| SqlText.JoinedSplit | sql.h:82-89 | the joined text is the first k elements with their k separators, then the join of the rest |
| SqlText.ClauseSnoc | sql.h:442-457 | one more registered condition extends the rendered clause by the separator and the condition, or opens it with the keyword; a clause is omitted exactly when its list is empty |
| SqlText.AppendClause | sql.h:442-457 | the `if(!list.empty()) { keyword; join_vector }` step appends the keyword and the joined list, or nothing for an empty list |
| SqlText.AppendField | sql.h:458-469 | the `if(!field.empty()) { keyword; field }` step appends the keyword and the field, or nothing for an empty field |
| SqlText.Digits | sql.h:29-32 | the digits `std::to_string` prints for a natural number, most significant first; DigitsRoundTrip proves they are canonical and read back as the number |
| SqlText.Decimal | sql.h:29-32 | `std::to_string` of an integer: "-" before the digits of a negative number; DecimalRoundTrip proves it canonical and invertible |
| SqlText.DigitsRoundTrip | sql.h:29-32 | the decimal digits of a natural number are non-empty, are all digits, read back as that number, and start with 0 only when they are exactly "0" |
| SqlText.DecimalRoundTrip | sql.h:29-32 | `std::to_string` of an integer is non-empty, is digits with a minus sign only in front of a negative number, reads back as the integer, and is canonical: a leading zero only in "0" itself, no `-0` |
| SqlText.AppendTable | sql.h:306-311 | one step of `from`: an empty table list takes the name, a non-empty one gets ", " and the name |
| SqlText.AppendTables | sql.h:304-319 | `from(n1, ..., nk)` is one such step per name, left to right |
| SqlText.AppendTablesConcat | sql.h:304-319 | two `from` calls in a row give the same table list as one call with both argument lists: repeated calls keep comma-appending |
| SqlText.AppendTablesJoined | sql.h:304-319 | once the table list is non-empty, `from` comma-joins the current list and every new name |
| SqlText.FromFreshJoined | sql.h:680-695 | from an empty table list, `from(n1, ..., nk)` with a non-empty first name gives the names joined by ", " |
| Values.CString | sql.h:34-40 | `append(const char*)` copies a prefix of the characters that holds no NUL and stops at the first NUL |
| Values.Format | sql.h:29-61 | `to_value`: text and char-array values come out wrapped in single quotes, integers as unquoted decimal text, `Param` and column values verbatim |
| Values.FormatTextRoundTrip | sql.h:42-48 | a std::string value formats to its content between single quotes, unchanged and unescaped, two characters longer |
| Values.FormatCTextRoundTrip | sql.h:34-40 | a char array formats to its characters before the first NUL between quotes, and without a NUL it formats exactly like the std::string with the same characters |
| Values.FormatIntRoundTrip | sql.h:29-32 | an integer formats to unquoted text of digits with a minus sign only in front of a negative number, canonical (a leading zero only in "0", no `-0`), that reads back as the integer |
| Values.FormatVerbatim | sql.h:58-61 | `Param` and column values are emitted verbatim |
| Values.NullIsNotQuoted | sql.h:588-593 | the stored `null` is not the formatting of any text, char-array or integer value, and the text "null" formats as `'null'` |
| Values.FormatAll | sql.h:124-131 | the formatted values of a list keep its length and order |
| Conditions.Operator | sql.h:202-242 | the text of each of the six comparison operators, with a space on each side |
| Conditions.ComparisonText | sql.h:202-242 | a comparison appends its operator text and then the formatted value |
| Conditions.MembershipText | sql.h:116-156 | `in`/`not_in` append ` = v`/` != v` for one value and otherwise the opening text, the formatted values joined by ", " and ")" |
| Conditions.MembershipSingleton | sql.h:116-156 | `in` of one value appends the same text as `== v`, `not_in` of one value the same as `!= v` |
| Conditions.MembershipEmpty | sql.h:116-156 | an empty list is not guarded: ` in ()` and ` not in ()` |
| Conditions.MembershipPair | sql.h:116-156 | two values give ` in (x, y)` or ` not in (x, y)` in input order |
| Conditions.MembershipExtend | sql.h:116-156 | with two or more values, one more value adds ", " and its formatted text just before the closing parenthesis |
| Conditions.CombinedParts | sql.h:158-176 | the combined text is "(" + left + ") and (" + right + ")", so both sides can be read back from it |
| Conditions.Combined | sql.h:158-176 | `&&`/`||` of two columns build "(" + left + ") and (" + right + ")" (or `or`) |
| Conditions.Column.constructor | sql.h:95-97 | a new column's buffer is the name it was given |
| Conditions.Column.Str | sql.h:244-246 | `str()` returns the current buffer and does not change it |
| Conditions.Column.AsValue | sql.h:257-260 | a column used as a value formats to its current condition text |
| Conditions.Column.As | sql.h:100-104 | appends ` as ` and the alias |
| Conditions.Column.IsNull | sql.h:106-109 | appends ` is null` |
| Conditions.Column.IsNotNull | sql.h:111-114 | appends ` is not null` |
| Conditions.Column.In | sql.h:116-135 | appends the membership text of the values: ` = v` for one value, otherwise ` in (` + formatted values joined by ", " + `)` |
| Conditions.Column.NotIn | sql.h:137-156 | appends ` != v` for one value, otherwise ` not in (...)` |
| Conditions.Column.AppendMembership | sql.h:116-156 | the shared body of `in` and `not_in` appends exactly their membership text |
| Conditions.Column.And | sql.h:158-166 | sets the other column's buffer to "(" + this + ") and (" + other + ")" using both old texts, returns the other column, and leaves this column alone unless it is the other column |
| Conditions.Column.Or | sql.h:168-176 | the same as `And` with `or` |
| Conditions.Column.Combine | sql.h:158-176 | builds the combined text from both old buffers before it assigns, so `c && c` gives "(x) and (x)" |
| Conditions.Column.AndText | sql.h:178-194 | a text operand is appended as ` and s`, without parentheses |
| Conditions.Column.OrText | sql.h:184-200 | a text operand is appended as ` or s`, without parentheses |
| Conditions.Column.Compare | sql.h:202-242 | each comparison with a value that is not a column appends its operator and the formatted value |
| Conditions.Column.CompareColumn | sql.h:202-242 | a comparison with a column appends the operator and then the operand's buffer as it is after that append, so `c == c` on "x" gives "x = x = "; any other operand is left unchanged |
| Select.JoinKeyword | sql.h:321-361 | every join keyword is non-empty, so a join set by any join method always shows in the rendered text |
| Select.SelectClauses.Head | sql.h:427-441 | `select [distinct] columns from tables`, then the join type and table when a join is set |
| Select.SelectClauses.Text | sql.h:427-471 | the head, then on, where, group by, having, order by, limit and offset, each only when set, conditions joined by " and " and columns by ", " |
| Select.HeadOnlyIff | sql.h:442-469 | the statement is only its head exactly when on, where, group by, having, order by, limit and offset are all empty |
| Select.SelectModel.constructor | sql.h:284 | a new builder has every clause empty and no text |
| Select.SelectModel.Select | sql.h:287-297 | appends the column names in order and changes nothing else |
| Select.SelectModel.Distinct | sql.h:299-302 | sets the distinct flag and changes nothing else |
| Select.SelectModel.From | sql.h:304-319 | comma-appends each name to the one table field, across calls too |
| Select.SelectModel.Join | sql.h:321-361 | overwrites both the join type and the join table |
| Select.SelectModel.On | sql.h:363-366 | appends the condition to the on list |
| Select.SelectModel.OnColumn | sql.h:368-371 | stores the column's text as it is at call time |
| Select.SelectModel.Where | sql.h:373-376 | appends the condition to the where list |
| Select.SelectModel.WhereColumn | sql.h:378-381 | stores the column's text as it is at call time |
| Select.SelectModel.GroupBy | sql.h:383-393 | appends the group-by columns in order |
| Select.SelectModel.Having | sql.h:395-398 | appends the condition to the having list |
| Select.SelectModel.HavingColumn | sql.h:400-403 | stores the column's text as it is at call time |
| Select.SelectModel.OrderBy | sql.h:405-408 | overwrites the order-by text |
| Select.SelectModel.Limit | sql.h:410-414 | overwrites the limit with the decimal text of n |
| Select.SelectModel.LimitOffset | sql.h:415-420 | overwrites both the offset and the limit |
| Select.SelectModel.Offset | sql.h:421-425 | overwrites the offset |
| Select.SelectModel.Str | sql.h:427-471 | returns and stores `select [distinct] columns from tables [join] [on] [where] [group by] [having] [order by] [limit] [offset]`, each optional part present only when set; only the stored text changes |
| Select.SelectModel.Reset | sql.h:473-487 | every clause is empty again, as in a new builder; the text of the last rendering is kept |
| Insert.WrittenStep | sql.h:550-563 | writing element i with ", " (or ")" after the last) after any text already in the buffer extends the written list; after all n elements it is the closed list |
| Insert.InsertTextSnoc | sql.h:515-520 | a further `insert` closes the column list with the column and the value list with the value, so the lists stay aligned by position |
| Insert.InsertClauses.Head | sql.h:537-548 | `insert into ` or `insert or replace into `, the table and "(" |
| Insert.InsertClauses.Text | sql.h:537-566 | the head, the columns joined by ", " and closed by ")", then ` values(` and the values likewise; an empty list writes nothing, not even ")" |
| Insert.InsertModel.constructor | sql.h:512 | a new builder has no replace flag, no table and no columns or values |
| Insert.InsertModel.Insert | sql.h:515-520 | appends the column and the formatted value at the same index, keeping the lists aligned |
| Insert.InsertModel.InsertNull | sql.h:588-593 | appends the column and the bare word null, keeping the lists aligned |
| Insert.InsertModel.Into | sql.h:527-530 | overwrites the table name |
| Insert.InsertModel.Replace | sql.h:532-535 | sets the replace flag |
| Insert.InsertModel.Str | sql.h:537-566 | returns and stores `insert [or replace] into T(c1, ..., cn) values(v1, ..., vn)`, or `insert into T( values(` with no columns; only the stored text changes |
| Insert.InsertModel.Reset | sql.h:568-573 | clears the table, columns and values and keeps the replace flag |
| Update.NullAssignmentDistinct | sql.h:606-613 | `set(c, nullptr)` stores `c = null`, which differs from `c = 'null'` stored for the text "null" |
| Update.Assignment | sql.h:606-613 | `set(c, v)` stores `c = ` and the formatted value |
| Update.NullAssignment | sql.h:662-668 | `set(c, nullptr)` stores `c = null` |
| Update.UpdateClauses.Text | sql.h:630-642 | `update T set ` and the assignments joined by ", ", then ` where ` and the conditions joined by " and " only when there are conditions |
| Update.UpdateWhereIff | sql.h:630-642 | the where clause is omitted exactly when there are no conditions |
| Update.UpdateModel.constructor | sql.h:598 | a new builder has no table, no assignments and no conditions |
| Update.UpdateModel.Update | sql.h:601-604 | overwrites the table name |
| Update.UpdateModel.Set | sql.h:606-613 | appends `c = <formatted value>` |
| Update.UpdateModel.SetNull | sql.h:662-668 | appends `c = null` |
| Update.UpdateModel.Where | sql.h:620-623 | appends the condition |
| Update.UpdateModel.WhereColumn | sql.h:625-628 | stores the column's text as it is at call time |
| Update.UpdateModel.Str | sql.h:630-642 | returns and stores `update T set a1, ..., an` with ` where c1 and ...` only when there are conditions |
| Update.UpdateModel.Reset | sql.h:644-649 | clears the table, the assignments and the conditions |
| Delete.DeleteWhereIff | sql.h:707-717 | the where clause is omitted exactly when there are no conditions |
| Delete.DeleteClauses.Text | sql.h:707-717 | `delete from ` and the table list, then ` where ` and the conditions joined by " and " only when there are conditions |
| Delete.DeleteModel.constructor | sql.h:673 | a new builder has no table and no conditions |
| Delete.DeleteModel.From | sql.h:680-695 | comma-appends each name to the one table field, across calls too |
| Delete.DeleteModel.Where | sql.h:697-700 | appends the condition |
| Delete.DeleteModel.WhereColumn | sql.h:702-705 | stores the column's text as it is at call time |
| Delete.DeleteModel.Str | sql.h:707-717 | returns and stores `delete from T` with ` where c1 and ...` only when there are conditions |
| Delete.DeleteModel.Reset | sql.h:719-723 | clears the table list and the conditions |
| Scenarios.SelectExample | sql.h:427-471 | `select("id","name").from("users").where("age >= 18").order_by("name").limit(10)` renders `select id, name from users where age >= 18 order by name limit 10` |
| Scenarios.InsertExample | sql.h:537-566 | `insert("name","Alice").insert("age",30).into("users")` renders `insert into users(name, age) values('Alice', 30)` |
| Scenarios.UpdateExample | sql.h:630-642 | `update("users").set("age",31).where("id = 1")` renders `update users set age = 31 where id = 1` |
| Scenarios.DeleteExample | sql.h:707-717 | `from("users").where("id = 1")` renders `delete from users where id = 1` |
| Scenarios.MultiTableFrom | sql.h:304-319 | `from("a","b")` in a select builder and `from("a")` then `from("b")` in a delete builder both give the table list `a, b` |
| Scenarios.EmptyInsert | sql.h:548-564 | an insert with no columns renders `insert into t( values(` |
| Scenarios.ReplaceSurvivesReset | sql.h:568-573 | after `replace(true)` and `reset()` the next statement still starts `insert or replace into` |
| Scenarios.NullAgainstText | sql.h:588-593 | `insert(c, nullptr)` renders `null` while the text "null" renders `'null'` in the same statement |
| Scenarios.CombineColumns | sql.h:158-176 | `a && b` leaves `a` as "x" and makes `b` "(x) and (y = 1)"; combining `c` with itself by `or` gives "(z) or (z)" |
| Scenarios.SelfCompare | sql.h:203-206 | `c == c` on a column "x" gives "x = x = ", and `a == d` with d = "y" gives "x = y" |
| Scenarios.WhereSnapshot | sql.h:378-381 | a column given to `where` is copied: changing it afterwards leaves the statement `select * from t where id in (1, 2)` |
| Scenarios.UsedThenReset | sql.h:473-487 | after every kind of clause is set and the statement rendered, `reset()` restores every clause to its value in a new builder and keeps the non-empty text of that rendering |
| Scenarios.ResetLikeFresh | sql.h:473-487 | a reset builder and a new builder given the same calls render the same text `select a from t` |
| Scenarios.RenderTwice | sql.h:427-471 | two renderings with no change in between return the same text and leave every clause as it was |

## Left out

- Floating-point values: the generic `to_value` and `limit`/`offset` use `std::to_string` (sql.h:29-32, 410-425), which prints doubles with fixed precision. Only integers are modelled.
- Integer widths: `Int` and the `limit`/`offset` arguments are unbounded integers. Every fixed-width C++ integer prints as its decimal value, so nothing wraps in the text.
- `operator<<` of each builder (sql.h:488-491, 575-578, 650-653, 724-727) is output plumbing around `str()`.
- `column::operator bool` (sql.h:248-250) always returns true and does not touch the buffer.
- The commented-out `time_t` formatter (sql.h:66-77) depends on the local clock and time zone.
- The `SqlModel` base class (sql.h:262-279): the virtual dispatch, the deleted copy operations and `last_sql()` are not modelled. `last_sql()` would read the `sql` field.
- Variadic recursion (sql.h:287-297, 304-319, 383-393, 680-695) is modelled as methods taking a sequence of names. The empty-argument overloads are the empty sequence.
- The `operator()` aliases of `insert` and `set` (sql.h:522-525, 615-618) are the same operations under another name.
- `DeleteModel::_delete()` (sql.h:676-678) does nothing.
- Conditions.Column.AndText: the `const char*` overload `operator&&` (sql.h:190-194) would stop at a NUL. The model appends the text whole, like the `std::string_view` overload.
- Conditions.Column.OrText: the `const char*` overload `operator||` (sql.h:196-200) would stop at a NUL. The model appends the text whole, like the `std::string_view` overload.
- Select.SelectModel.Str, Insert.InsertModel.Str, Update.UpdateModel.Str, Delete.DeleteModel.Str: `_sql` is cleared and appended to in place. The model builds the same sequence of appends in a local string and assigns it to `sql` at the end. The returned `std::string_view` aliasing `_sql` is modelled as a copy of the text.
- Insert.InsertModel.Str requires the column and value lists to have the same length. Every insert method keeps them aligned, so this holds for every builder that callers can reach. When there are fewer values than columns the C++ loop would read past the end of `_values`; when there are more, it would drop the extra values.
- Text is a sequence of characters. Byte encodings and `std::string_view` lifetimes are not modelled.
