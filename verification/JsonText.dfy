/** `JSON.stringify` of a flat object of strings, as group keys of ungrouped rows are made. */
module JsonText {

  function HexDigit(n: nat): char
    requires n < 16
  {
    "0123456789abcdef"[n]
  }

  /** A character inside a JSON string. */
  function EscapeChar(c: char): string {
    if c == '"' then "\\\""
    else if c == '\\' then "\\\\"
    else if c == '\n' then "\\n"
    else if c == '\r' then "\\r"
    else if c == '\t' then "\\t"
    else if c == 8 as char then "\\b"
    else if c == 12 as char then "\\f"
    else if c < 32 as char then "\\u00" + [HexDigit(c as int / 16), HexDigit(c as int % 16)]
    else [c]
  }

  function Escape(s: string): string {
    if s == "" then "" else EscapeChar(s[0]) + Escape(s[1..])
  }

  function Quote(s: string): string {
    "\"" + Escape(s) + "\""
  }

  function Member(column: string, value: string): string {
    "\"" + column + "\":" + Quote(value)
  }

  /** The members after the first, and the closing brace. */
  function Tail(columns: seq<string>, values: seq<string>): string {
    if columns == [] || values == [] then "}"
    else "," + (Member(columns[0], values[0]) + Tail(columns[1..], values[1..]))
  }

  /** The object with these columns, in their order. */
  function ObjectText(columns: seq<string>, values: seq<string>): string {
    if columns == [] || values == [] then "{}"
    else "{" + (Member(columns[0], values[0]) + Tail(columns[1..], values[1..]))
  }

  /** `COLUMN_KEY_RE`: letters, digits, underscore, dot and hyphen, at least one. */
  predicate IsColumnKey(k: string) {
    k != "" && forall c :: c in k ==> 'a' <= c <= 'z' || 'A' <= c <= 'Z' || '0' <= c <= '9' || c == '_' || c == '.' || c == '-'
  }

  // ------------------------------------------------------------ where braces stand

  /** A brace before a quote is the end of a value: what follows is a comma or the last brace. */
  predicate BracesEndValues(s: string) {
    forall p :: 0 <= p < |s| - 1 && s[p] == '{' && s[p + 1] == '"' ==> p + 2 < |s| && (s[p + 2] == ',' || s[p + 2] == '}')
  }

  /** Inside a string every quote follows a backslash. */
  predicate QuotesAreEscaped(e: string) {
    forall p :: 0 <= p < |e| && e[p] == '"' ==> p > 0 && e[p - 1] == '\\'
  }

  lemma {:induction false} EscapedQuotes(s: string)
    ensures QuotesAreEscaped(Escape(s))
  {
    if s != "" {
      EscapedQuotes(s[1..]);
      EscapedConcat(EscapeChar(s[0]), Escape(s[1..]));
    }
  }

  lemma EscapedConcat(a: string, b: string)
    requires QuotesAreEscaped(a) && QuotesAreEscaped(b)
    ensures QuotesAreEscaped(a + b)
  {
  }

  /** A value's text, its closing quote and what follows it. */
  lemma ValueThenRest(e: string, rest: string)
    requires QuotesAreEscaped(e) && BracesEndValues(rest) && rest != "" && (rest[0] == ',' || rest[0] == '}')
    ensures BracesEndValues(e + "\"" + rest)
  {
    var s := e + "\"" + rest;
    assert forall p :: 0 <= p < |e| ==> s[p] == e[p];
    forall p | 0 <= p < |s| - 1 && s[p] == '{' && s[p + 1] == '"'
      ensures p + 2 < |s| && (s[p + 2] == ',' || s[p + 2] == '}')
    {
      if p > |e| {
        assert s[p] == rest[p - |e| - 1] && s[p + 1] == rest[p - |e|];
      }
    }
  }

  /** Text without a brace in front changes nothing. */
  lemma NoBraceBefore(a: string, rest: string)
    requires '{' !in a && BracesEndValues(rest)
    ensures BracesEndValues(a + rest)
  {
    var s := a + rest;
    assert forall p :: 0 <= p < |a| ==> s[p] in a;
    forall p | 0 <= p < |s| - 1 && s[p] == '{' && s[p + 1] == '"'
      ensures p + 2 < |s| && (s[p + 2] == ',' || s[p + 2] == '}')
    {
      assert s[p] == rest[p - |a|] && s[p + 1] == rest[p - |a| + 1];
    }
  }

  lemma MemberThenRest(column: string, value: string, rest: string)
    requires IsColumnKey(column) && BracesEndValues(rest) && rest != "" && (rest[0] == ',' || rest[0] == '}')
    ensures BracesEndValues(Member(column, value) + rest)
  {
    EscapedQuotes(value);
    ValueThenRest(Escape(value), rest);
    var front := "\"" + column + "\":\"";
    NoBraceBefore(front, Escape(value) + "\"" + rest);
    assert Member(column, value) + rest == front + (Escape(value) + "\"" + rest);
  }

  lemma {:induction false} TailBraces(columns: seq<string>, values: seq<string>)
    requires forall c :: c in columns ==> IsColumnKey(c)
    ensures BracesEndValues(Tail(columns, values)) && Tail(columns, values) != ""
    ensures Tail(columns, values)[0] == ',' || Tail(columns, values)[0] == '}'
  {
    if columns != [] && values != [] {
      var rest := Tail(columns[1..], values[1..]);
      TailBraces(columns[1..], values[1..]);
      MemberThenRest(columns[0], values[0], rest);
      NoBraceBefore(",", Member(columns[0], values[0]) + rest);
    }
  }

  /** Within such text an opening brace and quote are followed by the end of a member. */
  lemma EndingInside(inner: string, front: string, o: string)
    requires BracesEndValues(inner) && inner == front + o && |o| >= 3 && o[0] == '{' && o[1] == '"'
    ensures o[2] == ',' || o[2] == '}'
  {
    var p := |front|;
    assert inner[p] == o[0] && inner[p + 1] == o[1] && inner[p + 2] == o[2];
  }

  lemma ObjectTextHead(columns: seq<string>, values: seq<string>)
    requires |values| == |columns| > 0 && IsColumnKey(columns[0])
    ensures var o := ObjectText(columns, values); |o| >= 3 && o[0] == '{' && o[1] == '"' && o[2] != ',' && o[2] != '}'
  {
    assert columns[0][0] in columns[0];
    assert ObjectText(columns, values)[2] == columns[0][0];
  }

  lemma Behind(c: char, s: string)
    ensures ([c] + s)[1..] == s
  {
  }

  lemma AfterFirstBrace(columns: seq<string>, values: seq<string>)
    requires |values| == |columns| > 0 && forall c :: c in columns ==> IsColumnKey(c)
    ensures BracesEndValues(ObjectText(columns, values)[1..])
  {
    var rest := Tail(columns[1..], values[1..]);
    TailBraces(columns[1..], values[1..]);
    MemberThenRest(columns[0], values[0], rest);
    Behind('{', Member(columns[0], values[0]) + rest);
  }

  /** Main result: no object text ends in another object text of the same columns. */
  lemma ObjectTextIsNoSuffix(columns: seq<string>, v: seq<string>, w: seq<string>, front: string)
    requires |v| == |w| == |columns| && forall c :: c in columns ==> IsColumnKey(c)
    requires ObjectText(columns, w) == front + ObjectText(columns, v)
    ensures front == ""
  {
    if columns != [] && front != "" {
      ObjectTextHead(columns, v);
      AfterFirstBrace(columns, w);
      assert ObjectText(columns, w)[1..] == front[1..] + ObjectText(columns, v);
      EndingInside(ObjectText(columns, w)[1..], front[1..], ObjectText(columns, v));
    }
  }

  /** An object text ends in a brace. */
  lemma {:induction false} TailEnds(columns: seq<string>, values: seq<string>)
    ensures Tail(columns, values) != "" && Tail(columns, values)[|Tail(columns, values)| - 1] == '}'
  {
    if columns != [] && values != [] {
      TailEnds(columns[1..], values[1..]);
    }
  }

  lemma ObjectTextEnds(columns: seq<string>, values: seq<string>)
    ensures ObjectText(columns, values) != "" && ObjectText(columns, values)[|ObjectText(columns, values)| - 1] == '}'
  {
    if columns != [] && values != [] {
      TailEnds(columns[1..], values[1..]);
    }
  }
}
