/** A JSON string read as section 7 of RFC 8259 has it: what an object text of strings tells. */
module JsonReading {
  import opened Rows
  import opened JsonText

  function HexValue(c: char): Option<nat> {
    if '0' <= c <= '9' then Some(c as int - '0' as int)
    else if 'a' <= c <= 'f' then Some(10 + (c as int - 'a' as int))
    else if 'A' <= c <= 'F' then Some(10 + (c as int - 'A' as int))
    else None
  }

  /** The character that four hexadecimal digits stand for; halves of surrogate pairs are not read. */
  function ReadHex(s: string): Option<char> {
    if |s| != 4 then None
    else
      match (HexValue(s[0]), HexValue(s[1]), HexValue(s[2]), HexValue(s[3]))
      case (Some(a), Some(b), Some(c), Some(d)) =>
        var n := 4096 * a + 256 * b + 16 * c + d;
        if n < 0xD800 then Some(n as char) else None
      case _ => None
  }

  /** The character a backslash and this letter stand for. */
  function ReadEscape(c: char): Option<char> {
    if c == '"' || c == '\\' || c == '/' then Some(c)
    else if c == 'n' then Some('\n')
    else if c == 'r' then Some('\r')
    else if c == 't' then Some('\t')
    else if c == 'b' then Some(8 as char)
    else if c == 'f' then Some(12 as char)
    else None
  }

  /** One character of a string and what follows it; None at the closing quote. */
  function ReadChar(s: string): Option<(char, string)> {
    if s == "" || s[0] == '"' || s[0] < 32 as char then None
    else if s[0] != '\\' then Some((s[0], s[1..]))
    else if |s| == 1 then None
    else if s[1] != 'u' then
      match ReadEscape(s[1]) case Some(c) => Some((c, s[2..])) case None => None
    else if |s| < 6 then None
    else match ReadHex(s[2..6]) case Some(c) => Some((c, s[6..])) case None => None
  }

  /** A string up to its closing quote, and what follows that. */
  function ReadString(s: string): Option<(string, string)>
    decreases |s|
  {
    if s != "" && s[0] == '"' then Some(("", s[1..]))
    else
      match ReadChar(s)
      case None => None
      case Some((c, rest)) =>
        match ReadString(rest) case Some((t, after)) => Some(([c] + t, after)) case None => None
  }

  lemma HexReadsBack(n: nat)
    requires n < 16
    ensures HexValue(HexDigit(n)) == Some(n)
  {
  }

  lemma ControlReadsBack(c: char, rest: string)
    requires c < 32 as char
    ensures ReadChar("\\u00" + [HexDigit(c as int / 16), HexDigit(c as int % 16)] + rest) == Some((c, rest))
  {
    var four := "00" + [HexDigit(c as int / 16), HexDigit(c as int % 16)];
    var s := "\\u00" + [HexDigit(c as int / 16), HexDigit(c as int % 16)] + rest;
    HexReadsBack(c as int / 16);
    HexReadsBack(c as int % 16);
    assert s[2..6] == four && s[6..] == rest;
    assert HexValue('0') == Some(0);
    assert ReadHex(four) == Some(c);
  }

  lemma CharReadsBack(c: char, rest: string)
    ensures ReadChar(EscapeChar(c) + rest) == Some((c, rest))
  {
    var e := EscapeChar(c);
    if c < 32 as char && |e| > 2 {
      ControlReadsBack(c, rest);
    } else {
      assert (e + rest)[|e|..] == rest;
    }
  }

  /** A quoted text reads back whole, whatever it holds and whatever follows. */
  lemma {:induction false} QuoteReadsBack(s: string, rest: string)
    ensures Quote(s) != "" && Quote(s)[0] == '"'
    ensures ReadString((Quote(s) + rest)[1..]) == Some((s, rest))
  {
    EscapeReadsBack(s, rest);
    assert (Quote(s) + rest)[1..] == Escape(s) + ("\"" + rest);
  }

  lemma {:induction false} EscapeReadsBack(s: string, rest: string)
    ensures ReadString(Escape(s) + ("\"" + rest)) == Some((s, rest))
  {
    var end := "\"" + rest;
    if s == "" {
      assert Escape(s) + end == end && end[1..] == rest;
    } else {
      EscapeReadsBack(s[1..], rest);
      CharReadsBack(s[0], Escape(s[1..]) + end);
      assert Escape(s) + end == EscapeChar(s[0]) + (Escape(s[1..]) + end);
      assert s == [s[0]] + s[1..];
    }
  }

  lemma MemberTells(column: string, a: string, b: string, restA: string, restB: string)
    requires Member(column, a) + restA == Member(column, b) + restB
    ensures a == b && restA == restB
  {
    var front := "\"" + column + "\":";
    assert (Member(column, a) + restA)[|front|..] == Quote(a) + restA;
    assert (Member(column, b) + restB)[|front|..] == Quote(b) + restB;
    QuoteReadsBack(a, restA);
    QuoteReadsBack(b, restB);
  }

  lemma {:induction false} TailTells(columns: seq<string>, v: seq<string>, w: seq<string>)
    requires |v| == |w| == |columns| && Tail(columns, v) == Tail(columns, w)
    ensures v == w
  {
    if columns != [] {
      var restV, restW := Tail(columns[1..], v[1..]), Tail(columns[1..], w[1..]);
      assert Member(columns[0], v[0]) + restV == Tail(columns, v)[1..];
      assert Member(columns[0], w[0]) + restW == Tail(columns, w)[1..];
      MemberTells(columns[0], v[0], w[0], restV, restW);
      TailTells(columns[1..], v[1..], w[1..]);
      assert v == [v[0]] + v[1..] && w == [w[0]] + w[1..];
    }
  }

  /** Main result: an object text tells the values it was made from. */
  lemma ObjectTextTellsValues(columns: seq<string>, v: seq<string>, w: seq<string>)
    requires |v| == |w| == |columns| && ObjectText(columns, v) == ObjectText(columns, w)
    ensures v == w
  {
    if columns != [] {
      var restV, restW := Tail(columns[1..], v[1..]), Tail(columns[1..], w[1..]);
      assert Member(columns[0], v[0]) + restV == ObjectText(columns, v)[1..];
      assert Member(columns[0], w[0]) + restW == ObjectText(columns, w)[1..];
      MemberTells(columns[0], v[0], w[0], restV, restW);
      TailTells(columns[1..], v[1..], w[1..]);
      assert v == [v[0]] + v[1..] && w == [w[0]] + w[1..];
    }
  }
}
