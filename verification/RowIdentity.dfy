/**
 * What a row is known by: the texts of its id columns, and the group its grouping
 * columns put it in.
 */
module RowIdentity {
  import opened Text
  import opened Rows
  import opened Upserts
  import opened Ingest

  // ------------------------------------------------------- numbers as text

  /** The decimal text of a number: it reads back as the number and has no needless zero. */
  predicate IsDecimal(s: string, n: int) {
    && ParseInteger(s) == Some(n)
    && (if n < 0 then |s| > 1 && s[1] != '0' else s == "0" || s[0] != '0')
  }

  lemma {:induction false} NatTextReadsBack(n: nat)
    ensures IntText(n) != "" && ParseDigits(IntText(n)) == Some(n)
    ensures forall i :: 0 <= i < |IntText(n)| ==> '0' <= IntText(n)[i] <= '9'
    ensures n > 0 ==> IntText(n)[0] != '0'
    ensures n == 0 ==> IntText(n) == "0"
  {
    if n >= 10 {
      NatTextReadsBack(n / 10);
      var before, all := IntText(n / 10), IntText(n);
      assert all[..|all| - 1] == before && all[|all| - 1] == Digit(n % 10);
    } else {
      assert IntText(n)[..0] == "";
    }
  }

  lemma DigitsAreAnInteger(s: string, n: nat)
    requires s != "" && ParseDigits(s) == Some(n) && '0' <= s[0] <= '9'
    ensures ParseInteger(s) == Some(n as int)
  {
  }

  lemma MinusDigitsAreAnInteger(s: string, n: nat)
    requires s != "" && ParseDigits(s) == Some(n)
    ensures ParseInteger("-" + s) == Some(-(n as int))
  {
    assert ("-" + s)[1..] == s;
  }

  /** A number as text and the number are one recency. */
  lemma IntTextIsDecimal(n: int)
    ensures IsDecimal(IntText(n), n)
  {
    if n < 0 {
      NatTextReadsBack(-n);
      MinusDigitsAreAnInteger(IntText(-n), -n);
    } else {
      NatTextReadsBack(n);
      DigitsAreAnInteger(IntText(n), n);
    }
  }

  // ---------------------------------------------------------------- columns

  /** The column has a value, and as text it is this. */
  predicate Shows(d: Data, f: string, s: string) {
    f in d &&
    match d[f]
    case Null => false
    case Text(x) => s == x
    case Number(n) => IsDecimal(s, n)
    case Flag(b) => s == if b then "true" else "false"
  }

  predicate HasValue(d: Data, f: string) {
    f in d && d[f] != Null
  }

  lemma TextAtShows(d: Data, f: string)
    ensures TextAt(d, f).Some? <==> HasValue(d, f)
    ensures TextAt(d, f).Some? ==> Shows(d, f, TextAt(d, f).value)
  {
    if f in d && d[f].Number? {
      IntTextIsDecimal(d[f].n);
    }
  }

  lemma {:induction false} IdTextsShow(fields: seq<string>, d: Data)
    ensures IdTexts(fields, d).Some? <==> forall i :: 0 <= i < |fields| ==> HasValue(d, fields[i])
    ensures IdTexts(fields, d).Some? ==> forall i :: 0 <= i < |fields| ==> Shows(d, fields[i], IdTexts(fields, d).value[i])
  {
    if fields != [] {
      TextAtShows(d, fields[0]);
      IdTextsShow(fields[1..], d);
      assert forall i :: 1 <= i < |fields| ==> fields[i] == fields[1..][i - 1];
    }
  }

  /**
   * Main result: a row is known by the texts of its id columns when there are some and all
   * have a value, else by its number; it can be upserted when, besides, none is empty.
   */
  lemma RowIsKnownBy(t: Template, conn: string, d: Data, n: nat)
    ensures var r, complete := RefOf(t, conn, d, n), t.idFields != [] && forall i :: 0 <= i < |t.idFields| ==> HasValue(d, t.idFields[i]);
            if complete then
              r.Keyed? && r.conn == conn && |r.key| == |t.idFields| && forall i :: 0 <= i < |r.key| ==> Shows(d, t.idFields[i], r.key[i])
            else r == Appended(n)
    ensures HasUsableId(t, d)
            <==> t.idFields != [] && forall i :: 0 <= i < |t.idFields| ==> HasValue(d, t.idFields[i]) && d[t.idFields[i]] != Text("")
  {
    IdTextsShow(t.idFields, d);
    if IdTexts(t.idFields, d).Some? {
      var key := IdTexts(t.idFields, d).value;
      forall i | 0 <= i < |key|
        ensures key[i] == "" <==> d[t.idFields[i]] == Text("")
      {
        assert Shows(d, t.idFields[i], key[i]);
      }
      assert "" in key <==> exists i :: 0 <= i < |key| && key[i] == "";
    }
  }

  // ------------------------------------------------------------------ groups

  /** Each grouping column as text, the empty one where there is no value. */
  lemma {:induction false} GroupTextsShow(groupBy: seq<string>, d: Data)
    ensures |GroupTexts(groupBy, d)| == |groupBy|
    ensures forall i :: 0 <= i < |groupBy| ==>
              if HasValue(d, groupBy[i]) then Shows(d, groupBy[i], GroupTexts(groupBy, d)[i]) else GroupTexts(groupBy, d)[i] == ""
  {
    if groupBy != [] {
      TextAtShows(d, groupBy[0]);
      GroupTextsShow(groupBy[1..], d);
      assert forall i :: 1 <= i < |groupBy| ==> groupBy[i] == groupBy[1..][i - 1];
    }
  }

  /** U+001F, which the texts of a row may well hold. */
  const SEPARATOR: char := 31 as char

  predicate HasNoSeparator(groupBy: seq<string>, d: Data) {
    forall x :: x in GroupTexts(groupBy, d) ==> SEPARATOR !in x
  }

  /** Where no text holds the separator, a group is exactly a connection and its grouping values as text. */
  lemma GroupIdIsTheGroup(groupBy: seq<string>, conn: string, d: Data, conn': string, e: Data)
    requires groupBy != [] && SEPARATOR !in conn && SEPARATOR !in conn'
    requires |groupBy| > 1 ==> HasNoSeparator(groupBy, d) && HasNoSeparator(groupBy, e)
    ensures GroupId(groupBy, conn, d).Some?
    ensures GroupId(groupBy, conn, d) == GroupId(groupBy, conn', e) <==> conn == conn' && GroupTexts(groupBy, d) == GroupTexts(groupBy, e)
  {
    GroupTextsShow(groupBy, d);
    GroupTextsShow(groupBy, e);
    var p, q := GroupTexts(groupBy, d), GroupTexts(groupBy, e);
    var c := UNIT_SEPARATOR;
    assert ([conn] + p)[1..] == p && ([conn'] + q)[1..] == q;
    if GroupId(groupBy, conn, d) == GroupId(groupBy, conn', e) {
      FirstSplitIsUnique(conn, Join(p, [c]), conn', Join(q, [c]), c);
      if |groupBy| > 1 {
        JoinIsInjective(p, q, c);
      } else {
        assert p == [p[0]] && q == [q[0]];
      }
    }
  }

  /** The rows of a connection, whatever their values, fall into one group only with rows of their own values. */
  ghost predicate GroupsStayApart(groupBy: seq<string>) {
    forall conn, conn', d, e ::
      SEPARATOR !in conn && SEPARATOR !in conn' && GroupId(groupBy, conn, d) == GroupId(groupBy, conn', e) ==>
        conn == conn' && GroupTexts(groupBy, d) == GroupTexts(groupBy, e)
  }

  lemma {:induction false} GroupTextsOfWith(groupBy: seq<string>, texts: seq<string>)
    requires |groupBy| == |texts| && forall i, j :: 0 <= i < j < |groupBy| ==> groupBy[i] != groupBy[j]
    ensures GroupTexts(groupBy, DataWith(groupBy, texts)) == texts
  {
    if groupBy != [] {
      GroupTextsOfWith(groupBy[1..], texts[1..]);
      OtherFieldKeepsGroup(groupBy[1..], DataWith(groupBy[1..], texts[1..]), groupBy[0], Text(texts[0]));
      assert texts == [texts[0]] + texts[1..];
    }
  }

  lemma {:induction false} OtherFieldKeepsGroup(groupBy: seq<string>, d: Data, f: string, v: Value)
    requires f !in groupBy
    ensures GroupTexts(groupBy, d[f := v]) == GroupTexts(groupBy, d)
  {
    if groupBy != [] {
      OtherFieldKeepsGroup(groupBy[1..], d, f, v);
    }
  }

  lemma SameJoinSameGroup(groupBy: seq<string>, conn: string, p: seq<string>, q: seq<string>)
    requires |groupBy| == |p| == |q| > 0 && Join(p, [UNIT_SEPARATOR]) == Join(q, [UNIT_SEPARATOR])
    requires forall i, j :: 0 <= i < j < |groupBy| ==> groupBy[i] != groupBy[j]
    ensures GroupId(groupBy, conn, DataWith(groupBy, p)) == GroupId(groupBy, conn, DataWith(groupBy, q))
  {
    GroupTextsOfWith(groupBy, p);
    GroupTextsOfWith(groupBy, q);
    assert ([conn] + p)[1..] == p && ([conn] + q)[1..] == q;
  }

  lemma CollidingGroups(groupBy: seq<string>, conn: string, p: seq<string>, q: seq<string>)
    requires |groupBy| == |p| == |q| > 0 && p != q && Join(p, [UNIT_SEPARATOR]) == Join(q, [UNIT_SEPARATOR])
    requires forall i, j :: 0 <= i < j < |groupBy| ==> groupBy[i] != groupBy[j]
    ensures GroupId(groupBy, conn, DataWith(groupBy, p)) == GroupId(groupBy, conn, DataWith(groupBy, q))
    ensures GroupTexts(groupBy, DataWith(groupBy, p)) != GroupTexts(groupBy, DataWith(groupBy, q))
  {
    GroupTextsOfWith(groupBy, p);
    GroupTextsOfWith(groupBy, q);
    SameJoinSameGroup(groupBy, conn, p, q);
  }

  /**
   * Main result: the group id keeps rows of different values apart, for every connection
   * without the separator and all values, exactly when there is one grouping column.
   */
  lemma GroupsStayApartIffOneColumn(groupBy: seq<string>)
    requires groupBy != [] && forall i, j :: 0 <= i < j < |groupBy| ==> groupBy[i] != groupBy[j]
    ensures GroupsStayApart(groupBy) <==> |groupBy| == 1
  {
    if |groupBy| == 1 {
      forall conn, conn', d, e
        | SEPARATOR !in conn && SEPARATOR !in conn' && GroupId(groupBy, conn, d) == GroupId(groupBy, conn', e)
        ensures conn == conn' && GroupTexts(groupBy, d) == GroupTexts(groupBy, e)
      {
        GroupIdIsTheGroup(groupBy, conn, d, conn', e);
      }
    } else {
      var p, q := CollidingTexts(|groupBy|, UNIT_SEPARATOR);
      CollidingGroups(groupBy, "", p, q);
    }
  }

  lemma CollidingPair(c: char)
    ensures var p, q := ["a" + [c] + "b", "c"], ["a", "b" + [c] + "c"];
            Join(p, [c]) == Join(q, [c]) && p != q && "" !in p && "" !in q
  {
    var p, q := ["a" + [c] + "b", "c"], ["a", "b" + [c] + "c"];
    assert p[1..] == ["c"] && q[1..] == ["b" + [c] + "c"];
    assert Join(p, [c]) == ['a', c, 'b', c, 'c'];
    assert Join(q, [c]) == ['a', c, 'b', c, 'c'];
    assert |p[0]| == 3 && |q[0]| == 1;
  }

  /** U+0001 in an id text: two rows of a template with two id columns that the dedup takes for one. */
  lemma TwoRowsOneKey(t: Template)
    requires |t.idFields| == 2 && t.idFields[0] != t.idFields[1]
    ensures var d := DataWith(t.idFields, ["a" + [1 as char] + "b", "c"]);
            var e := DataWith(t.idFields, ["a", "b" + [1 as char] + "c"]);
            && HasUsableId(t, d) && HasUsableId(t, e) && JoinKey(t, d) == JoinKey(t, e)
            && forall conn, n :: RefOf(t, conn, d, n) != RefOf(t, conn, e, n)
  {
    CollidingPair(1 as char);
    DataWithHasTexts(t.idFields, ["a" + [1 as char] + "b", "c"]);
    DataWithHasTexts(t.idFields, ["a", "b" + [1 as char] + "c"]);
  }
}
