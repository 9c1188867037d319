/** JSON values as the validators see them, and the two notions of equality on them. */
module Json {

  /** A JavaScript number. Fin(0.0) is +0; Object.is tells it from -0 and equates NaN with itself. */
  datatype Number = NaN | PosInf | NegInf | NegZero | Fin(value: real)

  /** Object fields are kept in enumeration order. */
  datatype Json =
    | Null
    | Bool(b: bool)
    | Num(n: Number)
    | Str(s: string)
    | Arr(items: seq<Json>)
    | Obj(fields: seq<Field>)

  datatype Field = Field(key: string, value: Json)

  /** What a JSON value means once the order of object keys is forgotten. */
  datatype Value =
    | VNull
    | VBool(b: bool)
    | VNum(n: Number)
    | VStr(s: string)
    | VArr(items: seq<Value>)
    | VObj(entries: map<string, Value>)

  predicate HasKey(fields: seq<Field>, key: string) {
    exists i :: 0 <= i < |fields| && fields[i].key == key
  }

  function Keys(fields: seq<Field>): set<string> {
    set i | 0 <= i < |fields| :: fields[i].key
  }

  function IndexOf(fields: seq<Field>, key: string): (i: nat)
    requires HasKey(fields, key)
    ensures i < |fields| && fields[i].key == key
  {
    if fields[0].key == key then 0 else
      assert HasKey(fields[1..], key) by {
        var i :| 0 <= i < |fields| && fields[i].key == key;
        assert fields[1..][i - 1].key == key;
      }
      1 + IndexOf(fields[1..], key)
  }

  function Lookup(fields: seq<Field>, key: string): Json
    requires HasKey(fields, key)
  {
    fields[IndexOf(fields, key)].value
  }

  predicate DistinctKeys(fields: seq<Field>) {
    forall i, j :: 0 <= i < j < |fields| ==> fields[i].key != fields[j].key
  }

  predicate WellFormed(j: Json) {
    match j
    case Arr(items) => forall i :: 0 <= i < |items| ==> WellFormed(items[i])
    case Obj(fields) => DistinctKeys(fields) && forall i :: 0 <= i < |fields| ==> WellFormed(fields[i].value)
    case _ => true
  }

  /** The deep comparison: on objects only the left-hand keys are visited. */
  predicate SchemaValuesEqual(left: Json, right: Json) {
    match (left, right)
    case (Arr(a), Arr(b)) =>
      |a| == |b| && forall i :: 0 <= i < |a| ==> SchemaValuesEqual(a[i], b[i])
    case (Obj(f), Obj(g)) =>
      |f| == |g| && forall i :: 0 <= i < |f| ==>
          HasKey(g, f[i].key) && SchemaValuesEqual(f[i].value, Lookup(g, f[i].key))
    case _ => left == right
  }

  function Meaning(j: Json): Value {
    match j
    case Null => VNull
    case Bool(b) => VBool(b)
    case Num(n) => VNum(n)
    case Str(s) => VStr(s)
    case Arr(items) => VArr(seq(|items|, i requires 0 <= i < |items| => Meaning(items[i])))
    case Obj(fields) => VObj(map k | k in Keys(fields) :: Meaning(Lookup(fields, k)))
  }

  lemma LookupAt(fields: seq<Field>, i: nat)
    requires DistinctKeys(fields) && i < |fields|
    ensures HasKey(fields, fields[i].key) && Lookup(fields, fields[i].key) == fields[i].value
  {
  }

  /** Distinct keys: as many keys as fields. */
  lemma {:induction false} KeyCount(fields: seq<Field>)
    requires DistinctKeys(fields)
    ensures |Keys(fields)| == |fields|
  {
    if fields != [] {
      var init := fields[..|fields| - 1];
      KeyCount(init);
      KeysSnoc(fields);
    }
  }

  lemma KeysSnoc(fields: seq<Field>)
    requires fields != [] && DistinctKeys(fields)
    ensures var init, last := fields[..|fields| - 1], fields[|fields| - 1].key;
            Keys(fields) == Keys(init) + {last} && last !in Keys(init)
  {
    var init := fields[..|fields| - 1];
    forall k | k in Keys(fields) ensures k in Keys(init) || k == fields[|fields| - 1].key {
      var i :| 0 <= i < |fields| && fields[i].key == k;
      assert i < |init| ==> init[i].key == k;
    }
    forall k | k in Keys(init) ensures k in Keys(fields) {
      var i :| 0 <= i < |init| && init[i].key == k;
      assert fields[i].key == k;
    }
  }

  /** A subset as large as the whole is the whole. */
  lemma SubsetOfEqualSize<T>(a: set<T>, b: set<T>)
    requires a <= b && |a| == |b|
    ensures a == b
  {
    assert |b - a| == |b| - |a|;
  }

  /** Main result: the one-sided comparison decides equality of meaning. */
  lemma {:induction false} EqualIffSameMeaning(left: Json, right: Json)
    requires WellFormed(left) && WellFormed(right)
    ensures SchemaValuesEqual(left, right) <==> Meaning(left) == Meaning(right)
    decreases left
  {
    match (left, right)
    case (Arr(a), Arr(b)) =>
      if |a| == |b| {
        forall i | 0 <= i < |a|
          ensures SchemaValuesEqual(a[i], b[i]) <==> Meaning(left).items[i] == Meaning(right).items[i]
        {
          EqualIffSameMeaning(a[i], b[i]);
        }
      }
      assert |Meaning(left).items| == |a| && |Meaning(right).items| == |b|;
    case (Obj(f), Obj(g)) =>
      EqualObjects(f, g);
    case _ =>
  }

  /** Every field of f has a field of g with the same key and the same meaning. */
  ghost predicate FieldsAgree(f: seq<Field>, g: seq<Field>) {
    forall i :: 0 <= i < |f| ==> HasKey(g, f[i].key) && Meaning(f[i].value) == Meaning(Lookup(g, f[i].key))
  }

  lemma {:induction false} EqualObjects(f: seq<Field>, g: seq<Field>)
    requires WellFormed(Obj(f)) && WellFormed(Obj(g))
    ensures SchemaValuesEqual(Obj(f), Obj(g)) <==> Meaning(Obj(f)) == Meaning(Obj(g))
    decreases Obj(f), 0
  {
    forall i | 0 <= i < |f| && HasKey(g, f[i].key)
      ensures SchemaValuesEqual(f[i].value, Lookup(g, f[i].key))
          <==> Meaning(f[i].value) == Meaning(Lookup(g, f[i].key))
    {
      EqualIffSameMeaning(f[i].value, Lookup(g, f[i].key));
    }
    assert SchemaValuesEqual(Obj(f), Obj(g)) <==> |f| == |g| && FieldsAgree(f, g);
    AgreeIffSameEntries(f, g);
  }

  lemma EntriesOf(f: seq<Field>)
    ensures Meaning(Obj(f)).VObj? && Meaning(Obj(f)).entries.Keys == Keys(f)
    ensures forall k :: k in Keys(f) ==> Meaning(Obj(f)).entries[k] == Meaning(Lookup(f, k))
  {
  }

  /** The pigeonhole step: agreement seen from f alone, plus equal length, covers every key of g. */
  lemma AgreementCoversAllKeys(f: seq<Field>, g: seq<Field>)
    requires DistinctKeys(f) && DistinctKeys(g) && |f| == |g| && FieldsAgree(f, g)
    ensures Meaning(Obj(f)) == Meaning(Obj(g))
  {
    KeyCount(f);
    KeyCount(g);
    EntriesOf(f);
    EntriesOf(g);
    forall k | k in Keys(f) ensures k in Keys(g) && Meaning(Lookup(f, k)) == Meaning(Lookup(g, k)) {
    }
    SubsetOfEqualSize(Keys(f), Keys(g));
    SameMaps(Meaning(Obj(f)).entries, Meaning(Obj(g)).entries);
  }

  lemma SameMaps<T>(a: map<string, T>, b: map<string, T>)
    requires a.Keys == b.Keys && forall k :: k in a ==> a[k] == b[k]
    ensures a == b
  {
  }

  lemma SameEntriesAgree(f: seq<Field>, g: seq<Field>)
    requires DistinctKeys(f) && DistinctKeys(g) && Meaning(Obj(f)) == Meaning(Obj(g))
    ensures |f| == |g| && FieldsAgree(f, g)
  {
    KeyCount(f);
    KeyCount(g);
    EntriesOf(f);
    EntriesOf(g);
    forall i | 0 <= i < |f| ensures HasKey(g, f[i].key) && Meaning(f[i].value) == Meaning(Lookup(g, f[i].key)) {
      assert f[i].key in Keys(f);
      LookupAt(f, i);
    }
  }

  lemma AgreeIffSameEntries(f: seq<Field>, g: seq<Field>)
    requires DistinctKeys(f) && DistinctKeys(g)
    ensures |f| == |g| && FieldsAgree(f, g) <==> Meaning(Obj(f)) == Meaning(Obj(g))
  {
    if |f| == |g| && FieldsAgree(f, g) { AgreementCoversAllKeys(f, g); }
    if Meaning(Obj(f)) == Meaning(Obj(g)) { SameEntriesAgree(f, g); }
  }

  /** Equality is an equivalence relation, and object key order does not matter to it. */
  lemma EqualityLaws(a: Json, b: Json, c: Json)
    requires WellFormed(a) && WellFormed(b) && WellFormed(c)
    ensures SchemaValuesEqual(a, a)
    ensures SchemaValuesEqual(a, b) ==> SchemaValuesEqual(b, a)
    ensures SchemaValuesEqual(a, b) && SchemaValuesEqual(b, c) ==> SchemaValuesEqual(a, c)
  {
    EqualIffSameMeaning(a, a);
    EqualIffSameMeaning(a, b);
    EqualIffSameMeaning(b, a);
    EqualIffSameMeaning(b, c);
    EqualIffSameMeaning(a, c);
  }

  /** Listing the same fields in another order gives an equal object. */
  lemma KeyOrderIrrelevant(f: seq<Field>, g: seq<Field>)
    requires WellFormed(Obj(f)) && WellFormed(Obj(g))
    requires forall x :: x in f <==> x in g
    ensures SchemaValuesEqual(Obj(f), Obj(g))
  {
    assert Keys(f) == Keys(g) by {
      forall k ensures k in Keys(f) <==> k in Keys(g) {
        if k in Keys(f) { assert f[IndexOf(f, k)] in g; }
        if k in Keys(g) { assert g[IndexOf(g, k)] in f; }
      }
    }
    forall k | k in Keys(f) ensures Lookup(f, k) == Lookup(g, k) {
      var x := f[IndexOf(f, k)];
      assert x in g;
      var j :| 0 <= j < |g| && g[j] == x;
      LookupAt(g, j);
    }
    assert Meaning(Obj(f)) == Meaning(Obj(g));
    EqualIffSameMeaning(Obj(f), Obj(g));
  }

  // ----- JSON text -----

  /** What JSON text keeps of a value: -0 is written 0, and a number that is not finite is written null. */
  function Written(j: Json): Json {
    match j
    case Num(n) => if n.NegZero? then Num(Fin(0.0)) else if n.Fin? then j else Null
    case Arr(items) => Arr(seq(|items|, i requires 0 <= i < |items| => Written(items[i])))
    case Obj(f) => Obj(seq(|f|, i requires 0 <= i < |f| => Field(f[i].key, Written(f[i].value))))
    case _ => j
  }

  lemma {:induction false} WrittenWellFormed(j: Json)
    requires WellFormed(j)
    ensures WellFormed(Written(j))
  {
    match j
    case Arr(items) =>
      forall i | 0 <= i < |items| ensures WellFormed(Written(items[i])) { WrittenWellFormed(items[i]); }
    case Obj(f) =>
      forall i | 0 <= i < |f| ensures WellFormed(Written(f[i].value)) { WrittenWellFormed(f[i].value); }
    case _ =>
  }

  /** Text that was read back is written as it was. */
  lemma {:induction false} WrittenTwice(j: Json)
    ensures Written(Written(j)) == Written(j)
  {
    match j
    case Arr(items) =>
      forall i | 0 <= i < |items| ensures Written(Written(items[i])) == Written(items[i]) {
        WrittenTwice(items[i]);
      }
    case Obj(f) =>
      forall i | 0 <= i < |f|
        ensures Written(Written(f[i].value)) == Written(f[i].value)
      {
        WrittenTwice(f[i].value);
      }
    case _ =>
  }

  /** Every number in the value is finite and none is -0. */
  predicate PlainNumbers(j: Json) {
    match j
    case Num(n) => n.Fin?
    case Arr(items) => forall i :: 0 <= i < |items| ==> PlainNumbers(items[i])
    case Obj(f) => forall i :: 0 <= i < |f| ==> PlainNumbers(f[i].value)
    case _ => true
  }

  /** Such a value loses nothing in JSON text. */
  lemma {:induction false} PlainIsWritten(j: Json)
    requires PlainNumbers(j)
    ensures Written(j) == j
  {
    match j
    case Arr(items) =>
      forall i | 0 <= i < |items| ensures Written(items[i]) == items[i] { PlainIsWritten(items[i]); }
      assert Written(j).items == items;
    case Obj(f) =>
      forall i | 0 <= i < |f| ensures Written(f[i].value) == f[i].value { PlainIsWritten(f[i].value); }
      assert Written(j).fields == f;
    case _ =>
  }

  predicate NotFinite(n: Number) { n.NaN? || n.PosInf? || n.NegInf? }

  /** Both zeros are one number in text. */
  predicate SameNumber(m: Number, n: Number) {
    m == n || (m == NegZero && n == Fin(0.0)) || (m == Fin(0.0) && n == NegZero)
  }

  /** The two values have the same JSON text up to key order: numbers that are not finite pass for null. */
  predicate WrittenAlike(a: Json, b: Json) {
    match (a, b)
    case (Num(m), Num(n)) => SameNumber(m, n) || (NotFinite(m) && NotFinite(n))
    case (Num(m), Null) => NotFinite(m)
    case (Null, Num(n)) => NotFinite(n)
    case (Arr(x), Arr(y)) => |x| == |y| && forall i :: 0 <= i < |x| ==> WrittenAlike(x[i], y[i])
    case (Obj(f), Obj(g)) =>
      |f| == |g| && forall i :: 0 <= i < |f| ==> HasKey(g, f[i].key) && WrittenAlike(f[i].value, Lookup(g, f[i].key))
    case _ => a == b
  }

  lemma {:induction false} LookupWritten(f: seq<Field>, g: seq<Field>, key: string)
    requires |f| == |g| && forall i :: 0 <= i < |f| ==> g[i].key == f[i].key && g[i].value == Written(f[i].value)
    ensures HasKey(g, key) <==> HasKey(f, key)
    ensures HasKey(f, key) ==> Lookup(g, key) == Written(Lookup(f, key))
  {
    if HasKey(f, key) {
      var i :| 0 <= i < |f| && f[i].key == key;
      assert g[i].key == key;
      SameIndex(f, g, key);
    }
    if HasKey(g, key) {
      var i :| 0 <= i < |g| && g[i].key == key;
      assert f[i].key == key;
    }
  }

  lemma {:induction false} SameIndex(f: seq<Field>, g: seq<Field>, key: string)
    requires |f| == |g| && (forall i :: 0 <= i < |f| ==> g[i].key == f[i].key) && HasKey(f, key) && HasKey(g, key)
    ensures IndexOf(f, key) == IndexOf(g, key)
  {
    if f[0].key != key { SameIndex(f[1..], g[1..], key); }
  }

  /** Two values are equal as they are written exactly when they are written alike. */
  lemma {:induction false} WrittenAlikeIff(a: Json, b: Json)
    ensures SchemaValuesEqual(Written(a), Written(b)) <==> WrittenAlike(a, b)
    decreases a
  {
    match (a, b)
    case (Arr(x), Arr(y)) =>
      if |x| == |y| {
        forall i | 0 <= i < |x| ensures SchemaValuesEqual(Written(x[i]), Written(y[i])) <==> WrittenAlike(x[i], y[i]) {
          WrittenAlikeIff(x[i], y[i]);
        }
      }
      assert forall i :: 0 <= i < |x| ==> Written(a).items[i] == Written(x[i]);
      assert forall i :: 0 <= i < |y| ==> Written(b).items[i] == Written(y[i]);
    case (Obj(f), Obj(g)) =>
      forall i | 0 <= i < |f| && HasKey(g, f[i].key)
        ensures SchemaValuesEqual(Written(f[i].value), Written(Lookup(g, f[i].key)))
                <==> WrittenAlike(f[i].value, Lookup(g, f[i].key))
      {
        WrittenAlikeIff(f[i].value, Lookup(g, f[i].key));
      }
      WrittenObjects(f, g);
    case _ =>
  }

  lemma WrittenObjects(f: seq<Field>, g: seq<Field>)
    requires forall i :: 0 <= i < |f| && HasKey(g, f[i].key) ==>
               (SchemaValuesEqual(Written(f[i].value), Written(Lookup(g, f[i].key)))
                <==> WrittenAlike(f[i].value, Lookup(g, f[i].key)))
    ensures SchemaValuesEqual(Written(Obj(f)), Written(Obj(g))) <==> WrittenAlike(Obj(f), Obj(g))
  {
    var w, v := Written(Obj(f)).fields, Written(Obj(g)).fields;
    forall i | 0 <= i < |f|
      ensures w[i].key == f[i].key && w[i].value == Written(f[i].value)
      ensures HasKey(v, f[i].key) <==> HasKey(g, f[i].key)
      ensures HasKey(g, f[i].key) ==> Lookup(v, f[i].key) == Written(Lookup(g, f[i].key))
    {
      LookupWritten(g, v, f[i].key);
    }
  }

  /** For values of plain numbers that is equality up to key order. */
  lemma PlainAlikeIff(a: Json, b: Json)
    requires PlainNumbers(a) && PlainNumbers(b)
    ensures WrittenAlike(a, b) <==> SchemaValuesEqual(a, b)
  {
    WrittenAlikeIff(a, b);
    PlainIsWritten(a);
    PlainIsWritten(b);
  }
}
