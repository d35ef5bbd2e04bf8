/** Escaping for `LIKE` patterns and string literals, and the numbered parameter list. */
module SqlParams {
  import opened Rows
  import opened Text

  // ------------------------------------------------------------------- LIKE

  predicate IsSpecial(c: char) {
    c == '\\' || c == '%' || c == '_'
  }

  function EscapeChar(c: char): string {
    if IsSpecial(c) then ['\\', c] else [c]
  }

  /** Every backslash, percent and underscore preceded by a backslash. */
  function EscapeLike(s: string): string {
    if s == "" then ""
    else EscapeChar(s[0]) + EscapeLike(s[1..])
  }

  /**
   * `t LIKE p` with the default escape character: section 9.7.1 of the PostgreSQL
   * documentation. A pattern that ends in a lone backslash matches nothing here.
   */
  predicate Like(t: string, p: string)
    decreases |p|, |t|
  {
    if p == "" then t == ""
    else if p[0] == '%' then Like(t, p[1..]) || (t != "" && Like(t[1..], p))
    else if p[0] == '_' then t != "" && Like(t[1..], p[1..])
    else if p[0] == '\\' then |p| > 1 && t != "" && t[0] == p[1] && Like(t[1..], p[2..])
    else t != "" && t[0] == p[0] && Like(t[1..], p[1..])
  }

  predicate IsSubstring(v: string, t: string) {
    exists i :: 0 <= i <= |t| && v <= t[i..]
  }

  lemma PrefixByHead(v: string, t: string)
    requires v != "" && t != ""
    ensures v <= t <==> v[0] == t[0] && v[1..] <= t[1..]
  {
    assert v == [v[0]] + v[1..] && t == [t[0]] + t[1..];
  }

  lemma EscapedCharMatchesItself(t: string, c: char, rest: string)
    ensures Like(t, EscapeChar(c) + rest) <==> t != "" && t[0] == c && Like(t[1..], rest)
  {
    if IsSpecial(c) {
      assert (EscapeChar(c) + rest)[2..] == rest;
    } else {
      assert (EscapeChar(c) + rest)[1..] == rest;
    }
  }

  /** The escaped form of `v`, then a percent sign, matches what begins with `v`. */
  lemma {:induction false} EscapedMatchesPrefix(t: string, v: string)
    ensures Like(t, EscapeLike(v) + "%") <==> v <= t
  {
    if v == "" {
      PercentMatchesAll(t);
      assert EscapeLike(v) + "%" == "%";
    } else {
      var rest := EscapeLike(v[1..]) + "%";
      assert EscapeLike(v) + "%" == EscapeChar(v[0]) + rest;
      EscapedCharMatchesItself(t, v[0], rest);
      if t != "" {
        EscapedMatchesPrefix(t[1..], v[1..]);
        PrefixByHead(v, t);
      }
    }
  }

  lemma {:induction false} PercentMatchesAll(t: string)
    ensures Like(t, "%")
  {
    assert "%"[1..] == "";
    if t != "" {
      PercentMatchesAll(t[1..]);
    }
  }

  lemma {:induction false} PercentSkips(t: string, p: string)
    ensures Like(t, "%" + p) <==> exists i :: 0 <= i <= |t| && Like(t[i..], p)
  {
    assert ("%" + p)[1..] == p && t[0..] == t;
    if t != "" {
      PercentSkips(t[1..], p);
      forall i | 1 <= i <= |t|
        ensures t[i..] == t[1..][i - 1..]
      {
      }
      if i :| 0 <= i <= |t[1..]| && Like(t[1..][i..], p) {
        assert Like(t[i + 1..], p);
      }
    }
  }

  /** Why the escape: a bare underscore, percent or backslash in the text would match other texts. */
  lemma UnescapedMatchesMore(t: string)
    ensures Like(t, "_") <==> |t| == 1
    ensures Like(t, "%_") <==> t != ""
    ensures Like(t, "%")
    ensures !Like(t, "\\") && (Like(t, "\\a") <==> t == "a")
  {
    PercentMatchesAll(t);
    assert "_"[1..] == "" && "\\a"[2..] == "" && "%_"[1..] == "_";
    SomeCharAtTheEnd(t);
    if t != "" {
      assert t == [t[0]] + t[1..];
    }
  }

  lemma {:induction false} SomeCharAtTheEnd(t: string)
    ensures Like(t, "%_") <==> t != ""
  {
    assert "%_"[1..] == "_" && "_"[1..] == "";
    if |t| == 1 {
      assert t[1..] == "" && Like(t, "_");
    } else if t != "" {
      SomeCharAtTheEnd(t[1..]);
    }
  }

  /** Main result: `%` + escaped `v` + `%` matches exactly the texts that contain `v`. */
  lemma ContainsIffLike(t: string, v: string)
    ensures Like(t, "%" + EscapeLike(v) + "%") <==> IsSubstring(v, t)
  {
    var p := EscapeLike(v) + "%";
    assert "%" + EscapeLike(v) + "%" == "%" + p;
    PercentSkips(t, p);
    forall i | 0 <= i <= |t|
      ensures Like(t[i..], p) <==> v <= t[i..]
    {
      EscapedMatchesPrefix(t[i..], v);
    }
  }

  /** Case folding leaves the pattern characters alone. */
  lemma {:induction false} LowerEscapes(v: string)
    ensures Lower(EscapeLike(v)) == EscapeLike(Lower(v))
  {
    if v != "" {
      LowerEscapes(v[1..]);
      LowerConcat(EscapeChar(v[0]), EscapeLike(v[1..]));
      assert Lower(v) == [LowerChar(v[0])] + Lower(v[1..]) && Lower(v)[1..] == Lower(v[1..]);
      assert Lower(['\\', v[0]]) == ['\\'] + Lower([v[0]]) by {
        assert ['\\', v[0]][1..] == [v[0]];
      }
      assert Lower([v[0]]) == [LowerChar(v[0])];
    }
  }

  lemma LowerCons(c: char, s: string)
    ensures Lower([c] + s) == [LowerChar(c)] + Lower(s)
  {
    assert ([c] + s)[1..] == s;
  }

  lemma {:induction false} LowerConcat(a: string, b: string)
    ensures Lower(a + b) == Lower(a) + Lower(b)
  {
    if a == "" {
      assert a + b == b;
    } else {
      LowerConcat(a[1..], b);
      assert a + b == [a[0]] + (a[1..] + b);
      LowerCons(a[0], a[1..] + b);
      assert Lower(a) == [LowerChar(a[0])] + Lower(a[1..]);
    }
  }

  /** Case-insensitively: what the substring filter promises. */
  lemma ContainsIffILike(t: string, v: string)
    ensures Like(Lower(t), Lower("%" + EscapeLike(v) + "%")) <==> IsSubstring(Lower(v), Lower(t))
  {
    LowerConcat("%" + EscapeLike(v), "%");
    LowerConcat("%", EscapeLike(v));
    LowerEscapes(v);
    assert Lower("%") == "%";
    ContainsIffLike(Lower(t), Lower(v));
  }

  // --------------------------------------------------------- string literals

  function DoubleQuotes(s: string): string {
    if s == "" then ""
    else (if s[0] == '\'' then "''" else [s[0]]) + DoubleQuotes(s[1..])
  }

  /** `sqlStringLiteral`. */
  function Quoted(s: string): string {
    "'" + DoubleQuotes(s) + "'"
  }

  /** Reads the body of a standard literal up to its closing quote: the value and what follows. */
  function ReadLiteral(q: string): Option<(string, string)> {
    if q == "" then None
    else if q[0] != '\'' then
      match ReadLiteral(q[1..]) case Some((s, rest)) => Some(([q[0]] + s, rest)) case None => None
    else if |q| > 1 && q[1] == '\'' then
      match ReadLiteral(q[2..]) case Some((s, rest)) => Some((['\''] + s, rest)) case None => None
    else Some(("", q[1..]))
  }

  /** Main result: any text, quoted, is read back whole, and the SQL after it is left alone. */
  lemma {:induction false} QuotedReadsBack(s: string, rest: string)
    requires rest == "" || rest[0] != '\''
    ensures ReadLiteral((Quoted(s) + rest)[1..]) == Some((s, rest))
  {
    BodyReadsBack(s, rest);
    assert (Quoted(s) + rest)[1..] == DoubleQuotes(s) + ("'" + rest);
  }

  lemma {:induction false} BodyReadsBack(s: string, rest: string)
    requires rest == "" || rest[0] != '\''
    ensures ReadLiteral(DoubleQuotes(s) + ("'" + rest)) == Some((s, rest))
  {
    var q := DoubleQuotes(s) + ("'" + rest);
    if s == "" {
      assert q == "'" + rest && q[1..] == rest;
    } else {
      BodyReadsBack(s[1..], rest);
      var more := DoubleQuotes(s[1..]) + ("'" + rest);
      assert s == [s[0]] + s[1..];
      if s[0] == '\'' {
        assert q[0] == '\'' && q[1] == '\'' && q[2..] == more;
      } else {
        assert q[0] == s[0] && q[1..] == more;
      }
    }
  }

  // --------------------------------------------------------------- parameters

  /** The values bound to `$1`, `$2`, ... in the order they were pushed. */
  class ParamList<T> {
    var values: seq<T>

    constructor ()
      ensures values == []
    {
      values := [];
    }

    /** The number of the placeholder that now denotes `v`. */
    method Push(v: T) returns (placeholder: nat)
      modifies this
      ensures values == old(values) + [v] && placeholder == |values|
    {
      values := values + [v];
      placeholder := |values|;
    }
  }
}
