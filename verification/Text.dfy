/** Strings as the satellite compares and renders them. */
module Text {

  /** ASCII `lower()`, enough for the status literals. */
  function LowerChar(c: char): char {
    if 'A' <= c <= 'Z' then (c as int + 32) as char else c
  }

  function Lower(s: string): string {
    if s == "" then "" else [LowerChar(s[0])] + Lower(s[1..])
  }

  /** Capital letters become small, everything else stays. */
  lemma {:induction false} LowerIsCharByChar(s: string)
    ensures |Lower(s)| == |s|
    ensures forall i :: 0 <= i < |s| ==> Lower(s)[i] == if 'A' <= s[i] <= 'Z' then (s[i] as int + 32) as char else s[i]
  {
    if s != "" {
      LowerIsCharByChar(s[1..]);
    }
  }

  /** JavaScript `<` on strings: lexicographic by code unit. */
  predicate Less(a: string, b: string) {
    b != "" && (a == "" || a[0] < b[0] || (a[0] == b[0] && Less(a[1..], b[1..])))
  }

  /** One text is before another when it ends first, or at the first difference has the smaller character. */
  lemma {:induction false} LessIsLexicographic(a: string, b: string)
    ensures Less(a, b) <==> exists i :: 0 <= i <= |a| && i < |b| && a[..i] == b[..i] && (i == |a| || a[i] < b[i])
  {
    if a == "" {
      assert a[..0] == b[..0];
    } else if b != "" {
      LessIsLexicographic(a[1..], b[1..]);
      if a[0] == b[0] {
        forall i | 1 <= i <= |a| && i <= |b|
          ensures a[..i] == b[..i] <==> a[1..][..i - 1] == b[1..][..i - 1]
        {
          assert a[..i] == [a[0]] + a[1..][..i - 1] && b[..i] == [b[0]] + b[1..][..i - 1];
        }
        if Less(a[1..], b[1..]) {
          var j :| 0 <= j <= |a[1..]| && j < |b[1..]| && a[1..][..j] == b[1..][..j] && (j == |a[1..]| || a[1..][j] < b[1..][j]);
          assert a[..j + 1] == b[..j + 1];
        }
        if i :| 0 <= i <= |a| && i < |b| && a[..i] == b[..i] && (i == |a| || a[i] < b[i]) {
          assert i > 0;
          assert a[1..][..i - 1] == b[1..][..i - 1];
        }
      } else {
        assert a[..0] == b[..0];
        forall i | 1 <= i <= |a| && i <= |b|
          ensures a[..i] != b[..i]
        {
          assert a[..i][0] != b[..i][0];
        }
      }
    }
  }

  lemma {:induction false} LessIsTotal(a: string, b: string)
    ensures Less(a, b) || a == b || Less(b, a)
    ensures !(Less(a, b) && Less(b, a))
    ensures Less(a, b) ==> a != b
  {
    if a != "" && b != "" {
      LessIsTotal(a[1..], b[1..]);
      assert a == [a[0]] + a[1..] && b == [b[0]] + b[1..];
    }
  }

  lemma {:induction false} LessIsTransitive(a: string, b: string, c: string)
    requires Less(a, b) && Less(b, c)
    ensures Less(a, c)
  {
    if a != "" && a[0] == b[0] == c[0] {
      LessIsTransitive(a[1..], b[1..], c[1..]);
    }
  }

  /** The decimal text of an integer, the same under `String(n)` and `data ->> 'f'`. */
  function IntText(n: int): string
    decreases if n < 0 then 1 else 0, n
  {
    if n < 0 then "-" + IntText(-n)
    else if n < 10 then [Digit(n)]
    else IntText(n / 10) + [Digit(n % 10)]
  }

  function Digit(n: int): char
    requires 0 <= n < 10
  {
    ('0' as int + n) as char
  }

  /** Parts joined by a separator, as `Array.join` and `||` chains do. */
  function Join(parts: seq<string>, sep: string): string {
    if parts == [] then ""
    else if |parts| == 1 then parts[0]
    else parts[0] + sep + Join(parts[1..], sep)
  }

  /** The first occurrence of `c` splits a string one way only. */
  lemma {:induction false} FirstSplitIsUnique(a: string, ra: string, b: string, rb: string, c: char)
    requires c !in a && c !in b
    requires a + [c] + ra == b + [c] + rb
    ensures a == b && ra == rb
  {
    var s := a + [c] + ra;
    assert s[|a|] == c;
    assert s == b + [c] + rb && s[|b|] == c;
    assert |a| == |b|;
    assert a == s[..|a|] && b == s[..|b|];
    assert ra == s[|a| + 1..] && rb == s[|b| + 1..];
  }

  /** Joining is injective on lists of one length whose parts avoid the separator. */
  lemma {:induction false} JoinIsInjective(p: seq<string>, q: seq<string>, c: char)
    requires |p| == |q|
    requires forall i :: 0 <= i < |p| ==> c !in p[i] && c !in q[i]
    requires Join(p, [c]) == Join(q, [c])
    ensures p == q
  {
    if |p| > 1 {
      FirstSplitIsUnique(p[0], Join(p[1..], [c]), q[0], Join(q[1..], [c]), c);
      JoinIsInjective(p[1..], q[1..], c);
      assert p == [p[0]] + p[1..] && q == [q[0]] + q[1..];
    } else if |p| == 1 {
      assert p == [p[0]] && q == [q[0]];
    }
  }
}
