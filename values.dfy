/**
 * The value formatter of sql.h: the `to_value` specialisations turn a typed
 * value into the text of an SQL literal. The C++ overload set becomes one
 * closed datatype with a constructor per kind of value.
 */
module Values {
  import opened SqlText

  datatype Option<T> = None | Some(value: T)

  datatype Value =
    | Int(i: int)       // any integral type: the generic to_value, std::to_string
    | Text(s: string)   // std::string
    | CText(s: string)  // a char array or a const char*: read up to its first NUL
    | Raw(s: string)    // Param: a fragment emitted as it is
    | Col(s: string)    // a column used as a value: its condition text

  /** The text `null` that the nullptr overloads of insert and set store; it is
      not the formatting of any text value. */
  const NullLiteral: string := "null"

  /** What `std::string::append(const char*)` copies: everything before the
      first NUL character. */
  function CString(s: string): (r: string)
    ensures r <= s
    ensures forall k :: 0 <= k < |r| ==> r[k] != '\0'
    ensures |r| < |s| ==> s[|r|] == '\0'
  {
    if s == [] || s[0] == '\0' then [] else [s[0]] + CString(s[1..])
  }

  function Quoted(s: string): string
  {
    "'" + s + "'"
  }

  /** `to_value`: text kinds are wrapped in single quotes with no escaping,
      Param and column text is emitted verbatim, integers in decimal. */
  function Format(v: Value): (r: string)
    ensures v.Text? || v.CText? ==> |r| >= 2 && r[0] == '\'' && r[|r| - 1] == '\''
  {
    match v
    case Int(i) => Decimal(i)
    case Text(s) => Quoted(s)
    case CText(s) => Quoted(CString(s))
    case Raw(s) => s
    case Col(s) => s
  }

  /** Strips one pair of surrounding single quotes, if there is one. */
  function Unquote(t: string): Option<string>
  {
    if |t| >= 2 && t[0] == '\'' && t[|t| - 1] == '\'' then Some(t[1..|t| - 1]) else None
  }

  /** A text value formats to its content between quotes, unchanged: even an
      embedded quote is neither escaped nor doubled. */
  lemma FormatTextRoundTrip(s: string)
    ensures Unquote(Format(Text(s))) == Some(s)
    ensures |Format(Text(s))| == |s| + 2
  {
    var t := Format(Text(s));
    assert t[1..|t| - 1] == s;
  }

  /** A C string formats like the std::string of its characters before the first
      NUL; without a NUL the two are the same. */
  lemma FormatCTextRoundTrip(s: string)
    ensures Unquote(Format(CText(s))) == Some(CString(s))
    ensures (forall k :: 0 <= k < |s| ==> s[k] != '\0') ==> Format(CText(s)) == Format(Text(s))
  {
    FormatTextRoundTrip(CString(s));
    if forall k :: 0 <= k < |s| ==> s[k] != '\0' {
      assert CString(s) == s;
    }
  }

  /** An integer formats to unquoted decimal text that reads back as itself, in
      the canonical form: no leading zero except for 0 itself, and no `-0`. */
  lemma FormatIntRoundTrip(i: int)
    ensures DecimalValue(Format(Int(i))) == i
    ensures Unquote(Format(Int(i))) == None
    ensures var t := Format(Int(i));
      t != [] &&
      (forall k :: 0 <= k < |t| ==> IsDigit(t[k]) || (k == 0 && t[k] == '-' && i < 0)) &&
      (t[0] == '0' ==> i == 0 && t == "0") &&
      (i < 0 ==> |t| >= 2 && t[0] == '-' && t[1] != '0')
  {
    DecimalRoundTrip(i);
    var t := Format(Int(i));
    assert IsDigit(t[|t| - 1]);
  }

  /** Param and column values are emitted verbatim. */
  lemma FormatVerbatim(s: string)
    ensures Format(Raw(s)) == s && Format(Col(s)) == s
  {
  }

  /** The `null` stored by the nullptr overloads is distinguishable from every
      quoted value, in particular from the text value "null", which formats as
      'null'; it is not the decimal text of any integer either. */
  lemma NullIsNotQuoted(v: Value)
    requires v.Text? || v.CText? || v.Int?
    ensures Format(v) != NullLiteral
    ensures Format(Text(NullLiteral)) == "'null'"
  {
    if v.Int? {
      DecimalRoundTrip(v.i);
    }
    assert Format(v)[0] != NullLiteral[0];
  }

  /** The formatted values of a list, in the same order. */
  function FormatAll(vs: seq<Value>): (r: seq<string>)
    ensures |r| == |vs|
    ensures forall k :: 0 <= k < |vs| ==> r[k] == Format(vs[k])
  {
    seq(|vs|, k requires 0 <= k < |vs| => Format(vs[k]))
  }
}
