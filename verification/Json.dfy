/** JSON values with ordered properties, and the renaming of keys to camel case. */
module Json {
  import opened Rows
  import opened Text

  datatype Json = JNull | JBool(b: bool) | JNum(n: int) | JStr(s: string) | JArr(els: seq<Json>) | JObj(props: Props)

  datatype Prop = Prop(key: string, value: Json)

  type Props = seq<Prop>

  /** `obj[k]`; None when the key is absent. */
  function Get(o: Props, k: string): Option<Json> {
    if o == [] then None
    else if o[|o| - 1].key == k then Some(o[|o| - 1].value)
    else Get(o[..|o| - 1], k)
  }

  /** `obj[k] = v`: in place, or at the end. */
  function Put(o: Props, k: string, v: Json): Props {
    if o == [] then [Prop(k, v)]
    else
      var before, last := o[..|o| - 1], o[|o| - 1];
      if last.key == k then before + [Prop(k, v)] else Put(before, k, v) + [last]
  }

  lemma {:induction false} GetPut(o: Props, k: string, v: Json, j: string)
    ensures Get(Put(o, k, v), j) == if j == k then Some(v) else Get(o, j)
  {
    if o == [] {
      assert [Prop(k, v)][..0] == [];
    } else {
      var before, last := o[..|o| - 1], o[|o| - 1];
      if last.key == k {
        assert (before + [Prop(k, v)])[..|before|] == before;
      } else {
        GetPut(before, k, v, j);
        assert (Put(before, k, v) + [last])[..|Put(before, k, v)|] == Put(before, k, v);
      }
    }
  }

  // ---------------------------------------------------------------- camel case

  predicate IsLowerLetter(c: char) {
    'a' <= c <= 'z'
  }

  function Upper(c: char): char
    requires IsLowerLetter(c)
  {
    (c as int - 32) as char
  }

  /** `key.replace(/_([a-z])/g, upper)`. */
  function CamelKey(k: string): string {
    if k == "" then ""
    else if k[0] == '_' && |k| > 1 && IsLowerLetter(k[1]) then [Upper(k[1])] + CamelKey(k[2..])
    else [k[0]] + CamelKey(k[1..])
  }

  /** No underscore before a lower-case letter. */
  predicate IsCamel(k: string) {
    forall i :: 0 <= i < |k| - 1 ==> !(k[i] == '_' && IsLowerLetter(k[i + 1]))
  }

  lemma {:induction false} CamelKeyIsCamel(k: string)
    ensures IsCamel(CamelKey(k))
    ensures k != "" && !IsLowerLetter(k[0]) ==> CamelKey(k) != "" && !IsLowerLetter(CamelKey(k)[0])
  {
    if k != "" {
      if k[0] == '_' && |k| > 1 && IsLowerLetter(k[1]) {
        CamelKeyIsCamel(k[2..]);
        CamelCons(Upper(k[1]), CamelKey(k[2..]));
      } else {
        CamelKeyIsCamel(k[1..]);
        CamelCons(k[0], CamelKey(k[1..]));
      }
    }
  }

  lemma CamelCons(c: char, k: string)
    requires IsCamel(k) && !(c == '_' && k != "" && IsLowerLetter(k[0]))
    ensures IsCamel([c] + k)
  {
    var all := [c] + k;
    forall i | 0 <= i < |all| - 1
      ensures !(all[i] == '_' && IsLowerLetter(all[i + 1]))
    {
      if i > 0 {
        assert all[i] == k[i - 1] && all[i + 1] == k[i];
      }
    }
  }

  const INTERNAL_REF := "internal_ref"
  const BATCH_REF := "batch_ref"

  /** Main result: no data key, once renamed, can be taken for one of our references. */
  lemma CamelKeysAreNoReferences(k: string)
    ensures CamelKey(k) != INTERNAL_REF && CamelKey(k) != BATCH_REF
  {
    CamelKeyIsCamel(k);
    assert INTERNAL_REF[8] == '_' && INTERNAL_REF[9] == 'r';
    assert BATCH_REF[5] == '_' && BATCH_REF[6] == 'r';
  }

  /** `toCamelCase`. */
  function Camel(j: Json): Json {
    match j
    case JArr(els) => JArr(CamelAll(els))
    case JObj(props) => JObj(CamelProps(props))
    case _ => j
  }

  function CamelAll(els: seq<Json>): seq<Json> {
    if els == [] then [] else CamelAll(els[..|els| - 1]) + [Camel(els[|els| - 1])]
  }

  function CamelProps(props: Props): Props {
    if props == [] then []
    else
      var last := props[|props| - 1];
      Put(CamelProps(props[..|props| - 1]), CamelKey(last.key), Camel(last.value))
  }

  /** The keys stay apart when renamed. */
  predicate NoMergedKeys(props: Props) {
    forall i, j :: 0 <= i < j < |props| ==> CamelKey(props[i].key) != CamelKey(props[j].key)
  }

  ghost predicate CamelKeyed(props: Props) {
    forall k :: Get(props, k).Some? ==> IsCamel(k)
  }

  lemma {:induction false} CamelPropsAreCamelKeyed(props: Props)
    ensures CamelKeyed(CamelProps(props))
    ensures forall k :: Get(CamelProps(props), k).Some? ==> k != INTERNAL_REF && k != BATCH_REF
  {
    if props != [] {
      var before, last := props[..|props| - 1], props[|props| - 1];
      CamelPropsAreCamelKeyed(before);
      CamelKeyIsCamel(last.key);
      CamelKeysAreNoReferences(last.key);
      forall k | Get(CamelProps(props), k).Some?
        ensures IsCamel(k) && k != INTERNAL_REF && k != BATCH_REF
      {
        GetPut(CamelProps(before), CamelKey(last.key), Camel(last.value), k);
      }
    }
  }

  /** A renamed object has each of its fields under its renamed key, when renaming merges none. */
  lemma {:induction false} CamelKeepsFields(props: Props, i: nat)
    requires NoMergedKeys(props) && i < |props|
    ensures Get(CamelProps(props), CamelKey(props[i].key)) == Some(Camel(props[i].value))
  {
    var n := |props| - 1;
    var before, last := props[..n], props[n];
    GetPut(CamelProps(before), CamelKey(last.key), Camel(last.value), CamelKey(props[i].key));
    if i < n {
      CamelKeepsFields(before, i);
    }
  }

  // ------------------------------------------------------------ keys, in full

  /** Renaming goes character by character, an underscore taking a lower-case letter with it. */
  lemma {:induction false} CamelKeyConcat(a: string, b: string)
    requires !(a != "" && a[|a| - 1] == '_' && b != "" && 'a' <= b[0] <= 'z')
    ensures CamelKey(a + b) == CamelKey(a) + CamelKey(b)
  {
    if a == "" {
      assert a + b == b;
    } else if a[0] == '_' && |a| > 1 && IsLowerLetter(a[1]) {
      CamelKeyConcat(a[2..], b);
      assert (a + b)[2..] == a[2..] + b;
    } else {
      CamelKeyConcat(a[1..], b);
      assert (a + b)[1..] == a[1..] + b;
    }
  }

  lemma CamelKeyPieces(c: char)
    ensures CamelKey([c]) == [c]
    ensures 'a' <= c <= 'z' ==> CamelKey(['_', c]) == [(c as int - 32) as char]
  {
    assert ['_', c][2..] == "" && [c][1..] == "";
  }

  /** Capitals written out again as an underscore and the small letter. */
  function Snake(k: string): string {
    if k == "" then ""
    else (if 'A' <= k[0] <= 'Z' then ['_', (k[0] as int + 32) as char] else [k[0]]) + Snake(k[1..])
  }

  /** A key without capitals can be read back from its renamed form: renaming loses nothing. */
  lemma {:induction false} CamelKeyUndone(k: string)
    requires forall i :: 0 <= i < |k| ==> !('A' <= k[i] <= 'Z')
    ensures Snake(CamelKey(k)) == k
  {
    if k != "" {
      if k[0] == '_' && |k| > 1 && IsLowerLetter(k[1]) {
        CamelKeyUndone(k[2..]);
        assert k == ['_', k[1]] + k[2..];
        assert CamelKey(k)[1..] == CamelKey(k[2..]);
      } else {
        CamelKeyUndone(k[1..]);
        assert k == [k[0]] + k[1..];
        assert CamelKey(k)[1..] == CamelKey(k[1..]);
      }
    }
  }

  // --------------------------------------------------------- values, at depth

  datatype PathStep = At(i: nat) | Key(k: string)

  function Child(j: Json, step: PathStep): Option<Json> {
    match (j, step)
    case (JArr(els), At(i)) => if i < |els| then Some(els[i]) else None
    case (JObj(props), Key(k)) => Get(props, k)
    case _ => None
  }

  /** The value at a path, if there is one. */
  function Follow(j: Json, path: seq<PathStep>): Option<Json>
    decreases |path|
  {
    if path == [] then Some(j)
    else match Child(j, path[0]) case Some(c) => Follow(c, path[1..]) case None => None
  }

  function RenamedStep(step: PathStep): PathStep {
    match step case At(i) => step case Key(k) => Key(CamelKey(k))
  }

  function RenamedPath(path: seq<PathStep>): seq<PathStep> {
    if path == [] then [] else [RenamedStep(path[0])] + RenamedPath(path[1..])
  }

  /** At no depth do two keys of one object become one. */
  ghost predicate NoMerges(j: Json) {
    forall p :: Follow(j, p).Some? && Follow(j, p).value.JObj? ==> NoMergedKeys(Follow(j, p).value.props)
  }

  /** Scalars are equal, arrays as long as each other, objects objects. */
  predicate SameKind(v: Json, w: Json) {
    match v
    case JArr(els) => w.JArr? && |w.els| == |els|
    case JObj(_) => w.JObj?
    case _ => w == v
  }

  lemma {:induction false} CamelAllAt(els: seq<Json>)
    ensures |CamelAll(els)| == |els| && forall i :: 0 <= i < |els| ==> CamelAll(els)[i] == Camel(els[i])
  {
    if els != [] {
      CamelAllAt(els[..|els| - 1]);
    }
  }

  lemma CamelIsOfKind(j: Json)
    ensures SameKind(j, Camel(j))
  {
    if j.JArr? {
      CamelAllAt(j.els);
    }
  }

  lemma {:induction false} GetIsAField(props: Props, k: string)
    ensures Get(props, k).Some? ==> exists i :: 0 <= i < |props| && props[i].key == k && Get(props, k) == Some(props[i].value)
    ensures Get(props, k).None? ==> forall i :: 0 <= i < |props| ==> props[i].key != k
  {
    if props != [] {
      GetIsAField(props[..|props| - 1], k);
    }
  }

  lemma GetAfterOneMore(props: Props, c: string)
    requires props != []
    ensures var before, last := props[..|props| - 1], props[|props| - 1];
            Get(CamelProps(props), c) == if CamelKey(last.key) == c then Some(Camel(last.value)) else Get(CamelProps(before), c)
  {
    var before, last := props[..|props| - 1], props[|props| - 1];
    GetPut(CamelProps(before), CamelKey(last.key), Camel(last.value), c);
  }

  /** A renamed object holds, under a renamed key, the last of the fields whose keys become it. */
  lemma {:induction false} LastOfMergedKeys(props: Props, c: string) returns (i: nat)
    requires props != [] && Get(CamelProps(props), c).Some?
    ensures i < |props| && CamelKey(props[i].key) == c && Get(CamelProps(props), c) == Some(Camel(props[i].value))
    ensures forall j :: i < j < |props| ==> CamelKey(props[j].key) != c
  {
    var n := |props| - 1;
    GetAfterOneMore(props, c);
    if CamelKey(props[n].key) == c {
      i := n;
    } else {
      i := LastOfMergedKeys(props[..n], c);
    }
  }

  /** One step down the renamed value is the renamed value one step down. */
  lemma CamelChild(j: Json, step: PathStep)
    requires Child(j, step).Some? && (j.JObj? ==> NoMergedKeys(j.props))
    ensures Child(Camel(j), RenamedStep(step)) == Some(Camel(Child(j, step).value))
  {
    match step
    case At(_) => CamelAllAt(j.els);
    case Key(k) =>
      GetIsAField(j.props, k);
      var i :| 0 <= i < |j.props| && j.props[i].key == k && Get(j.props, k) == Some(j.props[i].value);
      CamelKeepsFields(j.props, i);
  }

  lemma NoMergesBelow(j: Json, step: PathStep)
    requires NoMerges(j) && Child(j, step).Some?
    ensures NoMerges(Child(j, step).value) && (j.JObj? ==> NoMergedKeys(j.props))
  {
    assert Follow(j, []) == Some(j);
    forall p | Follow(Child(j, step).value, p).Some? && Follow(Child(j, step).value, p).value.JObj?
      ensures NoMergedKeys(Follow(Child(j, step).value, p).value.props)
    {
      assert ([step] + p)[1..] == p;
      assert Follow(j, [step] + p) == Follow(Child(j, step).value, p);
    }
  }

  /**
   * Main result: at every depth each value stands under its renamed keys, scalars as
   * they were and arrays in their length and order, when renaming merges no keys.
   */
  lemma {:induction false} CamelKeepsPaths(j: Json, path: seq<PathStep>)
    requires NoMerges(j) && Follow(j, path).Some?
    ensures Follow(Camel(j), RenamedPath(path)).Some?
    ensures SameKind(Follow(j, path).value, Follow(Camel(j), RenamedPath(path)).value)
    decreases |path|
  {
    if path == [] {
      CamelIsOfKind(j);
    } else {
      NoMergesBelow(j, path[0]);
      CamelChild(j, path[0]);
      CamelKeepsPaths(Child(j, path[0]).value, path[1..]);
      assert RenamedPath(path)[1..] == RenamedPath(path[1..]);
    }
  }

  /** What stands one step down a renamed value is a renamed value, and a key on the way is in camel case. */
  lemma ChildOfCamel(j: Json, step: PathStep) returns (origin: PathStep, c: Json)
    requires Child(Camel(j), step).Some?
    ensures Child(Camel(j), step) == Some(Camel(c)) && RenamedStep(origin) == step && (step.Key? ==> IsCamel(step.k))
    ensures (j.JObj? ==> NoMergedKeys(j.props)) ==> Child(j, origin) == Some(c)
  {
    match step
    case At(i) =>
      CamelAllAt(j.els);
      origin, c := step, j.els[i];
    case Key(k) =>
      var i := LastOfMergedKeys(j.props, k);
      CamelKeyIsCamel(j.props[i].key);
      origin, c := Key(j.props[i].key), j.props[i].value;
      GetIsAField(j.props, j.props[i].key);
  }

  /** At no depth has a renamed value a key with an underscore before a lower-case letter. */
  lemma {:induction false} CamelKeysAtEveryDepth(j: Json, path: seq<PathStep>, k: string)
    requires Follow(Camel(j), path + [Key(k)]).Some?
    ensures forall i :: 0 <= i < |k| - 1 ==> !(k[i] == '_' && 'a' <= k[i + 1] <= 'z')
    decreases |path|
  {
    var step := (path + [Key(k)])[0];
    var _, c := ChildOfCamel(j, step);
    if path != [] {
      assert (path + [Key(k)])[1..] == path[1..] + [Key(k)];
      CamelKeysAtEveryDepth(c, path[1..], k);
    }
  }

  /** Renaming adds nothing: every path of the result is a renamed path of the value. */
  lemma {:induction false} CamelAddsNoPaths(j: Json, path: seq<PathStep>) returns (origin: seq<PathStep>)
    requires NoMerges(j) && Follow(Camel(j), path).Some?
    ensures RenamedPath(origin) == path && Follow(j, origin).Some?
    decreases |path|
  {
    if path == [] {
      origin := [];
    } else {
      assert Follow(j, []) == Some(j);
      var step, c := ChildOfCamel(j, path[0]);
      NoMergesBelow(j, step);
      var rest := CamelAddsNoPaths(c, path[1..]);
      origin := [step] + rest;
      assert origin[1..] == rest;
    }
  }
}
