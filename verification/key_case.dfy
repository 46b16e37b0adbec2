/** The key-case converters of `CourseService` (src/app/services/course.service.ts):
    `transformToSnakeCase` rewrites every object key from camelCase to snake_case
    before a row is written, `transformToCamelCase` rewrites it back after a row
    is read. Both walk a JSON-like value. */
module KeyCase {
  import opened Wrappers

  /** The values the transforms meet: an object is its list of entries in
      enumeration order (`Object.entries`). */
  datatype Json =
    | Undefined
    | Null
    | Bool(b: bool)
    | Number(n: real)
    | Str(s: string)
    | Date(millis: int)
    | Array(items: seq<Json>)
    | Object(entries: seq<(string, Json)>)

  /** The values `!data` is true of. */
  predicate Falsy(v: Json) {
    v == Undefined || v == Null || v == Bool(false) || v == Number(0.0) || v == Str("")
  }

  // ---------------------------------------------------------------------------
  // Keys

  predicate IsUpper(c: char) { 'A' <= c <= 'Z' }
  predicate IsLower(c: char) { 'a' <= c <= 'z' }

  function ToLower(c: char): (l: char)
    requires IsUpper(c)
    ensures IsLower(l)
  {
    (c as int + 32) as char
  }

  function ToUpper(c: char): (u: char)
    requires IsLower(c)
    ensures IsUpper(u) && ToLower(u) == c
  {
    (c as int - 32) as char
  }

  predicate NoUpper(k: string) { forall i :: 0 <= i < |k| ==> !IsUpper(k[i]) }
  predicate NoUnderscore(k: string) { forall i :: 0 <= i < |k| ==> k[i] != '_' }

  /** `key.replace(/[A-Z]/g, letter => '_' + letter.toLowerCase())`. The result has
      no upper-case letter. */
  function SnakeKey(k: string): (r: string)
    ensures NoUpper(r)
  {
    if k == [] then [] else SnakeChar(k[0]) + SnakeKey(k[1..])
  }

  /** What one character becomes. */
  function SnakeChar(c: char): string {
    if IsUpper(c) then ['_', ToLower(c)] else [c]
  }

  lemma SnakeKeyUnfold(k: string)
    requires k != []
    ensures SnakeKey(k) == SnakeChar(k[0]) + SnakeKey(k[1..])
  {
  }

  /** Position `i` of `k` starts a match of `/_([a-z])/`. */
  predicate PendingMatch(k: string, i: int) {
    0 <= i && i + 1 < |k| && k[i] == '_' && IsLower(k[i + 1])
  }

  /** `key.replace(/_([a-z])/g, (_, letter) => letter.toUpperCase())`: a left-to-right
      scan; a match consumes both characters, so matches never overlap. No '_'
      followed by a lower-case letter is left. */
  function CamelKey(k: string): (r: string)
    ensures forall i :: 0 <= i < |r| ==> !PendingMatch(r, i)
    ensures |k| > 0 ==> |r| > 0 && (IsLower(r[0]) ==> r[0] == k[0])
  {
    if k == [] then []
    else
      var n := if |k| >= 2 && k[0] == '_' && IsLower(k[1]) then 2 else 1;
      var t := CamelKey(k[n..]);
      var r := [if n == 2 then ToUpper(k[1]) else k[0]] + t;
      assert forall i :: 1 <= i < |r| ==> PendingMatch(r, i) == PendingMatch(t, i - 1);
      r
  }

  /** The snake rewrite works character by character, so it distributes over
      concatenation. */
  lemma {:induction false} SnakeKeyAppend(a: string, b: string)
    ensures SnakeKey(a + b) == SnakeKey(a) + SnakeKey(b)
    decreases |a|
  {
    if a == [] {
      assert a + b == b;
    } else {
      assert (a + b)[0] == a[0];
      assert (a + b)[1..] == a[1..] + b;
      SnakeKeyAppend(a[1..], b);
      SnakeKeyUnfold(a + b);
      SnakeKeyUnfold(a);
    }
  }

  /** Only upper-case letters are rewritten: a key without one is left as it is. */
  lemma {:induction false} SnakeKeyIdentity(k: string)
    requires NoUpper(k)
    ensures SnakeKey(k) == k
    decreases |k|
  {
    if k != [] {
      assert NoUpper(k[1..]) by {
        forall i | 0 <= i < |k[1..]| ensures !IsUpper(k[1..][i]) {
          assert k[1..][i] == k[i + 1];
        }
      }
      SnakeKeyIdentity(k[1..]);
      SnakeKeyUnfold(k);
    }
  }

  /** Only '_' starts a match: a key without one is left as it is. */
  lemma {:induction false} CamelKeyIdentity(k: string)
    requires NoUnderscore(k)
    ensures CamelKey(k) == k
    decreases |k|
  {
    if k != [] {
      assert NoUnderscore(k[1..]) by {
        forall i | 0 <= i < |k[1..]| ensures k[1..][i] != '_' {
          assert k[1..][i] == k[i + 1];
        }
      }
      CamelKeyIdentity(k[1..]);
      assert k[0] != '_';
      assert CamelKey(k) == [k[0]] + CamelKey(k[1..]);
    }
  }

  /** Reading back a written key: a key without '_' survives the round trip. */
  lemma {:induction false} CamelOfSnake(k: string)
    requires NoUnderscore(k)
    ensures CamelKey(SnakeKey(k)) == k
    decreases |k|
  {
    if k != [] {
      var rest := SnakeKey(k[1..]);
      assert NoUnderscore(k[1..]) by {
        forall i | 0 <= i < |k[1..]| ensures k[1..][i] != '_' {
          assert k[1..][i] == k[i + 1];
        }
      }
      CamelOfSnake(k[1..]);
      if IsUpper(k[0]) {
        var s := ['_', ToLower(k[0])] + rest;
        assert SnakeKey(k) == s;
        assert s[2..] == rest;
        assert CamelKey(s) == [ToUpper(ToLower(k[0]))] + CamelKey(rest);
        assert ToUpper(ToLower(k[0])) == k[0];
      } else {
        var s := [k[0]] + rest;
        assert SnakeKey(k) == s;
        assert s[1..] == rest;
        assert s[0] != '_';
        assert CamelKey(s) == [k[0]] + CamelKey(rest);
      }
    }
  }

  /** Writing back a read key: a key without upper-case letters survives the
      round trip the other way. */
  lemma {:induction false} SnakeOfCamel(k: string)
    requires NoUpper(k)
    ensures SnakeKey(CamelKey(k)) == k
    decreases |k|
  {
    if k != [] {
      if |k| >= 2 && k[0] == '_' && IsLower(k[1]) {
        assert NoUpper(k[2..]) by {
          forall i | 0 <= i < |k[2..]| ensures !IsUpper(k[2..][i]) {
            assert k[2..][i] == k[i + 2];
          }
        }
        SnakeOfCamel(k[2..]);
        var c := [ToUpper(k[1])] + CamelKey(k[2..]);
        assert c[1..] == CamelKey(k[2..]);
        assert SnakeKey(c) == ['_', k[1]] + k[2..];
        assert k == ['_', k[1]] + k[2..];
      } else {
        assert NoUpper(k[1..]) by {
          forall i | 0 <= i < |k[1..]| ensures !IsUpper(k[1..][i]) {
            assert k[1..][i] == k[i + 1];
          }
        }
        SnakeOfCamel(k[1..]);
        var c := [k[0]] + CamelKey(k[1..]);
        assert c[1..] == CamelKey(k[1..]);
        assert SnakeKey(c) == [k[0]] + k[1..];
      }
    }
  }

  /** Keys without '_' that differ stay different once rewritten. */
  lemma SnakeKeyInjective(a: string, b: string)
    requires NoUnderscore(a) && NoUnderscore(b) && a != b
    ensures SnakeKey(a) != SnakeKey(b)
  {
    CamelOfSnake(a);
    CamelOfSnake(b);
  }

  // ---------------------------------------------------------------------------
  // Objects built by property assignment

  /** The value stored under `k`, if any (keys of a JS object are distinct, so
      the first entry is the only one). */
  function Lookup(es: seq<(string, Json)>, k: string): (r: Option<Json>)
    ensures r.None? <==> forall i :: 0 <= i < |es| ==> es[i].0 != k
  {
    if es == [] then None
    else if es[0].0 == k then Some(es[0].1)
    else Lookup(es[1..], k)
  }

  predicate DistinctKeys(es: seq<(string, Json)>) {
    forall i, j :: 0 <= i < j < |es| ==> es[i].0 != es[j].0
  }

  /** `transformed[k] = v`: an existing property keeps its place and takes the new
      value; a new one is added at the end. */
  function Put(es: seq<(string, Json)>, k: string, v: Json): (r: seq<(string, Json)>)
    ensures Lookup(es, k).None? ==> r == es + [(k, v)]
    ensures Lookup(es, k).Some? ==> |r| == |es|
  {
    if es == [] then [(k, v)]
    else if es[0].0 == k then [(k, v)] + es[1..]
    else [es[0]] + Put(es[1..], k, v)
  }

  /** After `transformed[k] = v`, `k` holds `v` and every other key what it held. */
  lemma {:induction false} PutLookup(es: seq<(string, Json)>, k: string, v: Json, k': string)
    ensures Lookup(Put(es, k, v), k') == if k' == k then Some(v) else Lookup(es, k')
    decreases |es|
  {
    if es != [] && es[0].0 != k {
      PutLookup(es[1..], k, v, k');
      assert Put(es, k, v)[1..] == Put(es[1..], k, v);
    }
  }

  /** An assignment adds no entry but `(k, v)` and keeps keys distinct. */
  lemma {:induction false} PutEntries(es: seq<(string, Json)>, k: string, v: Json)
    ensures forall e :: e in Put(es, k, v) ==> e == (k, v) || e in es
    ensures DistinctKeys(es) ==> DistinctKeys(Put(es, k, v))
    decreases |es|
  {
    if es != [] && es[0].0 != k {
      var rest := Put(es[1..], k, v);
      PutEntries(es[1..], k, v);
      assert Put(es, k, v) == [es[0]] + rest;
      forall e | e in rest ensures e == (k, v) || e in es {
        assert e in es[1..] ==> e in es;
      }
      if DistinctKeys(es) {
        assert DistinctKeys(es[1..]);
        forall e | e in rest ensures e.0 != es[0].0 {
          if e in es[1..] {
            var j :| 0 <= j < |es[1..]| && es[1..][j] == e;
            assert es[j + 1] == e;
          }
        }
      }
    }
  }

  /** The value of the last pair with key `k`: the one a run of assignments leaves. */
  function LastValue(ps: seq<(string, Json)>, k: string): Option<Json> {
    if ps == [] then None
    else if ps[|ps| - 1].0 == k then Some(ps[|ps| - 1].1)
    else LastValue(ps[..|ps| - 1], k)
  }

  /** The object left by assigning the pairs in order to a fresh `{}`: pairs whose
      keys are already distinct come out unchanged. */
  function Assemble(ps: seq<(string, Json)>): (r: seq<(string, Json)>)
    ensures DistinctKeys(ps) ==> r == ps
    decreases |ps|
  {
    if ps == [] then []
    else
      var init := ps[..|ps| - 1];
      assert DistinctKeys(ps) ==> DistinctKeys(init);
      assert DistinctKeys(ps) ==> Lookup(init, ps[|ps| - 1].0).None?;
      Put(Assemble(init), ps[|ps| - 1].0, ps[|ps| - 1].1)
  }

  /** Each key of the assembled object holds the value assigned to it last. */
  lemma {:induction false} AssembleLookup(ps: seq<(string, Json)>, k: string)
    ensures Lookup(Assemble(ps), k) == LastValue(ps, k)
    decreases |ps|
  {
    if ps != [] {
      AssembleLookup(ps[..|ps| - 1], k);
      PutLookup(Assemble(ps[..|ps| - 1]), ps[|ps| - 1].0, ps[|ps| - 1].1, k);
    }
  }

  /** The assembled object has distinct keys and only entries taken from the pairs. */
  lemma {:induction false} AssembleEntries(ps: seq<(string, Json)>)
    ensures DistinctKeys(Assemble(ps))
    ensures forall e :: e in Assemble(ps) ==> e in ps
    decreases |ps|
  {
    if ps != [] {
      var init := ps[..|ps| - 1];
      AssembleEntries(init);
      PutEntries(Assemble(init), ps[|ps| - 1].0, ps[|ps| - 1].1);
      forall e | e in init ensures e in ps {
        var j :| 0 <= j < |init| && init[j] == e;
        assert ps[j] == e;
      }
    }
  }

  /** A key has a last value exactly when some pair carries it. */
  lemma {:induction false} LastValueSome(ps: seq<(string, Json)>, k: string)
    ensures LastValue(ps, k).Some? <==> exists i :: 0 <= i < |ps| && ps[i].0 == k
    decreases |ps|
  {
    if ps != [] {
      LastValueSome(ps[..|ps| - 1], k);
      if ps[|ps| - 1].0 != k && exists i :: 0 <= i < |ps| && ps[i].0 == k {
        var i :| 0 <= i < |ps| && ps[i].0 == k;
        assert ps[..|ps| - 1][i] == ps[i];
      }
    }
  }

  // ---------------------------------------------------------------------------
  // The transforms

  /** Which way keys are rewritten. */
  datatype Direction = ToSnakeCase | ToCamelCase

  /** A key in the form a rename towards `d` gives: a snake key has no upper-case
      letter, a camel key no '_' followed by a lower-case letter. */
  predicate KeyForm(d: Direction, k: string) {
    match d
    case ToSnakeCase => NoUpper(k)
    case ToCamelCase => forall i :: 0 <= i < |k| ==> !PendingMatch(k, i)
  }

  function Rename(d: Direction, k: string): (r: string)
    ensures KeyForm(d, r)
  {
    match d
    case ToSnakeCase => SnakeKey(k)
    case ToCamelCase => CamelKey(k)
  }

  /** The walk both converters share: falsy values and Dates are returned as they
      are, arrays element by element, objects rebuilt key by key with the renamed
      key and the transformed value; any other value as it is. */
  function Transform(v: Json, d: Direction): Json
    decreases v, 1
  {
    if Falsy(v) then v
    else match v
      case Array(items) => Array(seq(|items|, i requires 0 <= i < |items| => Transform(items[i], d)))
      case Date(_) => v
      case Object(es) => Object(Assemble(RenamedPairs(es, d)))
      case _ => v
  }

  /** The pairs assigned, in entry order, while an object is rebuilt. */
  function RenamedPairs(es: seq<(string, Json)>, d: Direction): (ps: seq<(string, Json)>)
    ensures |ps| == |es|
    decreases Object(es), 0
  {
    seq(|es|, i requires 0 <= i < |es| => (Rename(d, es[i].0), Transform(es[i].1, d)))
  }

  /** `transformToSnakeCase`: no key at any depth of the result has an upper-case
      letter. */
  function ToSnake(v: Json): (r: Json)
    ensures KeysInForm(r, ToSnakeCase)
  {
    TransformKeysInForm(v, ToSnakeCase);
    Transform(v, ToSnakeCase)
  }

  /** `transformToCamelCase`: no key at any depth of the result has a '_' followed
      by a lower-case letter. */
  function ToCamel(v: Json): (r: Json)
    ensures KeysInForm(r, ToCamelCase)
  {
    TransformKeysInForm(v, ToCamelCase);
    Transform(v, ToCamelCase)
  }

  /** What the walk keeps: falsy values, Dates and other scalars are unchanged, and
      an array stays an array of the same length whose items are transformed one
      by one. */
  lemma TransformKeeps(v: Json, d: Direction)
    ensures Falsy(v) || v.Date? || v.Bool? || v.Number? || v.Str? || v.Undefined? || v.Null? ==> Transform(v, d) == v
    ensures v.Array? ==>
      (Transform(v, d).Array? && |Transform(v, d).items| == |v.items| &&
       forall i :: 0 <= i < |v.items| ==> Transform(v, d).items[i] == Transform(v.items[i], d))
  {
  }

  /** An object stays an object whose keys are exactly the renamed keys. */
  lemma TransformObjectKeys(es: seq<(string, Json)>, d: Direction, k: string)
    ensures Transform(Object(es), d).Object?
    ensures Lookup(Transform(Object(es), d).entries, k).Some? <==> exists i :: 0 <= i < |es| && Rename(d, es[i].0) == k
  {
    var ps := RenamedPairs(es, d);
    assert Transform(Object(es), d) == Object(Assemble(ps));
    AssembleLookup(ps, k);
    LastValueSome(ps, k);
    if exists i :: 0 <= i < |ps| && ps[i].0 == k {
      var i :| 0 <= i < |ps| && ps[i].0 == k;
      assert Rename(d, es[i].0) == k;
    }
    if exists i :: 0 <= i < |es| && Rename(d, es[i].0) == k {
      var i :| 0 <= i < |es| && Rename(d, es[i].0) == k;
      assert ps[i].0 == k;
    }
  }

  /** Every key anywhere in a value is in the form of direction `d`. */
  predicate KeysInForm(v: Json, d: Direction)
    decreases v
  {
    match v
    case Array(items) => forall i :: 0 <= i < |items| ==> KeysInForm(items[i], d)
    case Object(es) => forall i :: 0 <= i < |es| ==> KeyForm(d, es[i].0) && KeysInForm(es[i].1, d)
    case _ => true
  }

  /** After the walk every key at any depth is in the form of its direction. */
  lemma {:induction false} TransformKeysInForm(v: Json, d: Direction)
    ensures KeysInForm(Transform(v, d), d)
    decreases v
  {
    if !Falsy(v) {
      match v
      case Array(items) =>
        forall i | 0 <= i < |items| ensures KeysInForm(Transform(items[i], d), d) {
          TransformKeysInForm(items[i], d);
        }
      case Object(es) =>
        var ps := RenamedPairs(es, d);
        var r := Assemble(ps);
        assert Transform(v, d) == Object(r);
        AssembleEntries(ps);
        forall i | 0 <= i < |r| ensures KeyForm(d, r[i].0) && KeysInForm(r[i].1, d) {
          assert r[i] in ps;
          var j :| 0 <= j < |ps| && ps[j] == r[i];
          TransformKeysInForm(es[j].1, d);
        }
      case _ =>
    }
  }

  /** A value the write-then-read trip is meant for: every object, at any depth,
      has distinct keys none of which contains '_'. */
  predicate CamelSafe(v: Json)
    decreases v
  {
    match v
    case Array(items) => forall i :: 0 <= i < |items| ==> CamelSafe(items[i])
    case Object(es) => DistinctKeys(es) && forall i :: 0 <= i < |es| ==> NoUnderscore(es[i].0) && CamelSafe(es[i].1)
    case _ => true
  }

  /** Values whose keys contain no '_' and are distinct come back unchanged from a
      write-then-read trip, which is what lets the service convert each payload on
      the way out and each row on the way in. */
  lemma CamelOfSnakeValue(v: Json)
    requires CamelSafe(v)
    ensures ToCamel(ToSnake(v)) == v
  {
    TransformRoundTrip(v);
  }

  /** The same trip, stated on the shared walk, by induction on the value. */
  lemma {:induction false} TransformRoundTrip(v: Json)
    requires CamelSafe(v)
    ensures Transform(Transform(v, ToSnakeCase), ToCamelCase) == v
    decreases v, 2
  {
    if Falsy(v) {
    } else if v.Array? {
      ArrayRoundTrip(v.items);
    } else if v.Object? {
      ObjectRoundTrip(v.entries);
    }
  }

  /** The trip on an array: item by item. */
  lemma {:induction false} ArrayRoundTrip(items: seq<Json>)
    requires forall i :: 0 <= i < |items| ==> CamelSafe(items[i])
    ensures Transform(Transform(Array(items), ToSnakeCase), ToCamelCase) == Array(items)
    decreases Array(items), 1
  {
    var s := seq(|items|, i requires 0 <= i < |items| => Transform(items[i], ToSnakeCase));
    assert Transform(Array(items), ToSnakeCase) == Array(s);
    var c := seq(|s|, i requires 0 <= i < |s| => Transform(s[i], ToCamelCase));
    assert Transform(Array(s), ToCamelCase) == Array(c);
    forall i | 0 <= i < |items| ensures c[i] == items[i] {
      TransformRoundTrip(items[i]);
    }
    assert c == items;
  }

  /** The trip on an object: its entries come back, and with them the object. */
  lemma ObjectRoundTrip(es: seq<(string, Json)>)
    requires DistinctKeys(es)
    requires forall i :: 0 <= i < |es| ==> NoUnderscore(es[i].0) && CamelSafe(es[i].1)
    ensures Transform(Transform(Object(es), ToSnakeCase), ToCamelCase) == Object(es)
    decreases Object(es), 1
  {
    var ps := RenamedPairs(es, ToSnakeCase);
    SnakePairsDistinct(es);
    assert Transform(Object(es), ToSnakeCase) == Object(ps);
    CamelOfSnakePairs(es);
    assert Transform(Object(ps), ToCamelCase) == Object(Assemble(RenamedPairs(ps, ToCamelCase)));
  }

  /** Distinct keys without '_' stay distinct once written in snake case. */
  lemma SnakePairsDistinct(es: seq<(string, Json)>)
    requires DistinctKeys(es) && forall i :: 0 <= i < |es| ==> NoUnderscore(es[i].0)
    ensures DistinctKeys(RenamedPairs(es, ToSnakeCase))
  {
    var ps := RenamedPairs(es, ToSnakeCase);
    forall i, j | 0 <= i < j < |ps| ensures ps[i].0 != ps[j].0 {
      SnakeKeyInjective(es[i].0, es[j].0);
    }
  }

  /** The entries of such an object, renamed both ways, are the entries again. */
  lemma {:induction false} CamelOfSnakePairs(es: seq<(string, Json)>)
    requires forall i :: 0 <= i < |es| ==> NoUnderscore(es[i].0) && CamelSafe(es[i].1)
    ensures RenamedPairs(RenamedPairs(es, ToSnakeCase), ToCamelCase) == es
    decreases Object(es), 0
  {
    var qs := RenamedPairs(RenamedPairs(es, ToSnakeCase), ToCamelCase);
    forall i | 0 <= i < |es| ensures qs[i] == es[i] {
      CamelOfSnake(es[i].0);
      TransformRoundTrip(es[i].1);
    }
  }

  /** An object with one entry is rebuilt with the renamed key and the
      transformed value. */
  lemma SingleEntry(k: string, x: Json, d: Direction)
    ensures Transform(Object([(k, x)]), d) == Object([(Rename(d, k), Transform(x, d))])
  {
    var ps := RenamedPairs([(k, x)], d);
    assert ps == [(Rename(d, k), Transform(x, d))];
    assert Assemble(ps) == Put([], ps[0].0, ps[0].1);
  }

  /** A key that already contains '_' is not restored: `a_b` is written as it is
      and read back as `aB`. */
  lemma UnderscoreKeyExample(a: char, b: char, x: Json)
    requires IsLower(a) && IsLower(b)
    ensures ToCamel(ToSnake(Object([([a, '_', b], x)]))) == Object([([a, ToUpper(b)], ToCamel(ToSnake(x)))])
  {
    var k := [a, '_', b];
    assert NoUpper(k);
    SnakeKeyIdentity(k);
    SingleEntry(k, x, ToSnakeCase);
    SingleEntry(k, ToSnake(x), ToCamelCase);
    CamelOfUnderscore(a, b);
  }

  lemma CamelOfUnderscore(a: char, b: char)
    requires IsLower(a) && IsLower(b)
    ensures CamelKey([a, '_', b]) == [a, ToUpper(b)]
  {
    var k := [a, '_', b];
    assert k[1..] == ['_', b] && k[1..][2..] == [];
    assert CamelKey(k[1..]) == [ToUpper(b)] + CamelKey([]);
  }
}
