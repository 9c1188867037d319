/** The side-effect memo of one turn and the canonical argument key it is indexed by. */
module SideEffects {
  import opened Json
  import opened Options

  type KeyOrder = (string, string) -> bool

  /** What any comparison used for sorting offers: it compares all keys, and consistently. */
  ghost predicate TotalPreorder(leq: KeyOrder) {
    && (forall a, b :: leq(a, b) || leq(b, a))
    && (forall a, b, c :: leq(a, b) && leq(b, c) ==> leq(a, c))
  }

  /** It ties no two distinct keys. */
  ghost predicate Antisymmetric(leq: KeyOrder) {
    forall a, b :: leq(a, b) && leq(b, a) ==> a == b
  }

  ghost predicate TotalOrder(leq: KeyOrder) { TotalPreorder(leq) && Antisymmetric(leq) }

  // ----- canonical form -----

  function Insert(leq: KeyOrder, x: Field, s: seq<Field>): (r: seq<Field>)
    ensures forall y :: y in r <==> y == x || y in s
    ensures |r| == |s| + 1
  {
    if s == [] || leq(x.key, s[0].key) then [x] + s else
      assert s == [s[0]] + s[1..];
      [s[0]] + Insert(leq, x, s[1..])
  }

  /** `Object.entries(value).sort(...)`: a stable sort by key. */
  function SortFields(leq: KeyOrder, f: seq<Field>): (r: seq<Field>)
    ensures forall y :: y in r <==> y in f
    ensures |r| == |f|
  {
    if f == [] then [] else
      assert f == [f[0]] + f[1..];
      Insert(leq, f[0], SortFields(leq, f[1..]))
  }

  function SortJson(leq: KeyOrder, j: Json): Json {
    match j
    case Arr(items) => Arr(seq(|items|, i requires 0 <= i < |items| => SortJson(leq, items[i])))
    case Obj(f) =>
      var s := SortFields(leq, f);
      Obj(seq(|s|, i requires 0 <= i < |s| => assert s[i] in f; Field(s[i].key, SortJson(leq, s[i].value))))
    case _ => j
  }

  predicate StrictlySorted(leq: KeyOrder, f: seq<Field>) {
    forall i, j :: 0 <= i < j < |f| ==> leq(f[i].key, f[j].key) && f[i].key != f[j].key
  }

  predicate Canonical(leq: KeyOrder, j: Json) {
    match j
    case Arr(items) => forall i :: 0 <= i < |items| ==> Canonical(leq, items[i])
    case Obj(f) => StrictlySorted(leq, f) && forall i :: 0 <= i < |f| ==> Canonical(leq, f[i].value)
    case _ => true
  }

  lemma {:induction false} InsertKeepsOrder(leq: KeyOrder, x: Field, s: seq<Field>)
    requires TotalOrder(leq) && StrictlySorted(leq, s)
    requires forall y :: y in s ==> y.key != x.key
    ensures StrictlySorted(leq, Insert(leq, x, s))
  {
    if s != [] && !leq(x.key, s[0].key) {
      InsertKeepsOrder(leq, x, s[1..]);
      var r := Insert(leq, x, s[1..]);
      forall i | 0 <= i < |r| ensures leq(s[0].key, r[i].key) && s[0].key != r[i].key {
        assert r[i] in r;
        if r[i] != x {
          var k :| 0 <= k < |s[1..]| && s[1..][k] == r[i];
          assert s[k + 1] == r[i];
        }
      }
    }
  }

  lemma {:induction false} SortFieldsSorts(leq: KeyOrder, f: seq<Field>)
    requires TotalOrder(leq) && DistinctKeys(f)
    ensures StrictlySorted(leq, SortFields(leq, f))
  {
    if f != [] {
      SortFieldsSorts(leq, f[1..]);
      forall y | y in SortFields(leq, f[1..]) ensures y.key != f[0].key {
        assert y in f[1..];
      }
      InsertKeepsOrder(leq, f[0], SortFields(leq, f[1..]));
    }
  }

  /** Sorting changes no meaning, and yields a canonical value. */
  lemma {:induction false} SortJsonSorts(leq: KeyOrder, j: Json)
    requires TotalOrder(leq) && WellFormed(j)
    ensures Canonical(leq, SortJson(leq, j)) && WellFormed(SortJson(leq, j))
    ensures Meaning(SortJson(leq, j)) == Meaning(j)
    decreases j, 2
  {
    match j
    case Arr(items) =>
      forall i | 0 <= i < |items|
        ensures Canonical(leq, SortJson(leq, items[i])) && WellFormed(SortJson(leq, items[i]))
        ensures Meaning(SortJson(leq, items[i])) == Meaning(items[i])
      {
        SortJsonSorts(leq, items[i]);
      }
      assert Meaning(SortJson(leq, j)).items == Meaning(j).items;
    case Obj(f) => SortObject(leq, f);
    case _ =>
  }

  /** A value of the object is sorted well. */
  lemma {:induction false} SortField(leq: KeyOrder, f: seq<Field>, i: nat)
    requires TotalOrder(leq) && WellFormed(Obj(f)) && i < |f|
    ensures var s, r := SortFields(leq, f)[i].value, SortJson(leq, Obj(f)).fields[i].value;
            WellFormed(s) && Canonical(leq, r) && WellFormed(r) && Meaning(r) == Meaning(s)
    decreases Obj(f), 0
  {
    var s := SortFields(leq, f);
    assert s[i] in f;
    SortJsonSorts(leq, s[i].value);
  }

  lemma {:induction false} SortObject(leq: KeyOrder, f: seq<Field>)
    requires TotalOrder(leq) && WellFormed(Obj(f))
    ensures Canonical(leq, SortJson(leq, Obj(f))) && WellFormed(SortJson(leq, Obj(f)))
    ensures Meaning(SortJson(leq, Obj(f))) == Meaning(Obj(f))
    decreases Obj(f), 1
  {
    var s, r := SortFields(leq, f), SortJson(leq, Obj(f)).fields;
    SortFieldsSorts(leq, f);
    SameKeysSorted(leq, s, r);
    forall i | 0 <= i < |s|
      ensures WellFormed(s[i].value) && Canonical(leq, r[i].value)
      ensures WellFormed(r[i].value) && Meaning(r[i].value) == Meaning(s[i].value)
    {
      SortField(leq, f, i);
    }
    SortedMeaning(leq, f);
    FieldwiseMeaning(s, r);
  }

  /** Replacing values keeps keys in their places. */
  lemma SameKeysSorted(leq: KeyOrder, s: seq<Field>, r: seq<Field>)
    requires StrictlySorted(leq, s) && |r| == |s| && forall i :: 0 <= i < |s| ==> r[i].key == s[i].key
    ensures StrictlySorted(leq, r) && DistinctKeys(r) && DistinctKeys(s)
  {
  }

  /** Reordering fields changes no meaning. */
  lemma SortedMeaning(leq: KeyOrder, f: seq<Field>)
    requires WellFormed(Obj(f)) && WellFormed(Obj(SortFields(leq, f)))
    ensures Meaning(Obj(SortFields(leq, f))) == Meaning(Obj(f))
  {
    KeyOrderIrrelevant(f, SortFields(leq, f));
    EqualIffSameMeaning(Obj(f), Obj(SortFields(leq, f)));
  }

  lemma FieldwiseMeaning(s: seq<Field>, r: seq<Field>)
    requires DistinctKeys(s) && DistinctKeys(r) && |s| == |r|
    requires forall i :: 0 <= i < |s| ==> r[i].key == s[i].key && Meaning(r[i].value) == Meaning(s[i].value)
    ensures Meaning(Obj(s)) == Meaning(Obj(r))
  {
    assert FieldsAgree(s, r) by {
      forall i | 0 <= i < |s| ensures HasKey(r, s[i].key) && Meaning(s[i].value) == Meaning(Lookup(r, s[i].key)) {
        LookupAt(r, i);
      }
    }
    AgreeIffSameEntries(s, r);
  }

  /** Strictly sorted listings of the same keys list them in the same places. */
  lemma {:induction false} SameKeysSamePlaces(leq: KeyOrder, f: seq<Field>, g: seq<Field>)
    requires TotalOrder(leq) && StrictlySorted(leq, f) && StrictlySorted(leq, g)
    requires Keys(f) == Keys(g)
    ensures |f| == |g| && forall i :: 0 <= i < |f| ==> f[i].key == g[i].key
  {
    assert |f| > 0 ==> f[0].key in Keys(f);
    assert |g| > 0 ==> g[0].key in Keys(g);
    if f != [] && g != [] {
      assert f[0].key in Keys(g) && g[0].key in Keys(f);
      assert f[0].key == g[0].key;
      assert Keys(f[1..]) == Keys(f) - {f[0].key} by { TailKeys(f); }
      assert Keys(g[1..]) == Keys(g) - {g[0].key} by { TailKeys(g); }
      SameKeysSamePlaces(leq, f[1..], g[1..]);
      forall i | 0 <= i < |f| ensures f[i].key == g[i].key {
        if i > 0 { assert f[i] == f[1..][i - 1] && g[i] == g[1..][i - 1]; }
      }
    }
  }

  lemma TailKeys(f: seq<Field>)
    requires f != [] && DistinctKeys(f)
    ensures Keys(f[1..]) == Keys(f) - {f[0].key}
  {
    forall k ensures k in Keys(f[1..]) <==> k in Keys(f) && k != f[0].key {
      if k in Keys(f) && k != f[0].key {
        var i :| 0 <= i < |f| && f[i].key == k;
        assert f[1..][i - 1].key == k;
      }
      if k in Keys(f[1..]) {
        var i :| 0 <= i < |f[1..]| && f[1..][i].key == k;
        assert f[i + 1].key == k;
      }
    }
  }

  lemma {:induction false} CanonicalIsUnique(leq: KeyOrder, a: Json, b: Json)
    requires TotalOrder(leq) && WellFormed(a) && WellFormed(b)
    requires Canonical(leq, a) && Canonical(leq, b) && Meaning(a) == Meaning(b)
    ensures a == b
    decreases a
  {
    match (a, b)
    case (Arr(x), Arr(y)) =>
      assert |Meaning(a).items| == |x| && |Meaning(b).items| == |y|;
      forall i | 0 <= i < |x| ensures x[i] == y[i] {
        assert Meaning(x[i]) == Meaning(a).items[i] == Meaning(b).items[i];
        CanonicalIsUnique(leq, x[i], y[i]);
      }
    case (Obj(f), Obj(g)) =>
      assert Keys(f) == Meaning(a).entries.Keys == Meaning(b).entries.Keys == Keys(g);
      SameKeysSamePlaces(leq, f, g);
      forall i | 0 <= i < |f| ensures f[i] == g[i] {
        LookupAt(f, i);
        LookupAt(g, i);
        assert f[i].key in Keys(f);
        assert Meaning(f[i].value) == Meaning(a).entries[f[i].key] == Meaning(b).entries[f[i].key]
            == Meaning(g[i].value);
        CanonicalIsUnique(leq, f[i].value, g[i].value);
      }
    case _ =>
  }

  /** Main result on keys: two argument values sort to the same form exactly when they mean the same. */
  lemma SortDecidesMeaning(leq: KeyOrder, a: Json, b: Json)
    requires TotalOrder(leq) && WellFormed(a) && WellFormed(b)
    ensures SortJson(leq, a) == SortJson(leq, b) <==> SchemaValuesEqual(a, b)
  {
    EqualIffSameMeaning(a, b);
    SortJsonSorts(leq, a);
    SortJsonSorts(leq, b);
    if SchemaValuesEqual(a, b) {
      CanonicalIsUnique(leq, SortJson(leq, a), SortJson(leq, b));
    }
  }

  function Pair(x: string, y: string): Json { Obj([Field(x, Null), Field(y, Null)]) }

  lemma PairKeepsItsOrder(leq: KeyOrder, x: string, y: string)
    requires leq(x, y)
    ensures SortJson(leq, Pair(x, y)) == Pair(x, y)
  {
    var f := Pair(x, y).fields;
    assert SortFields(leq, f[1..][1..]) == [];
    assert SortFields(leq, f[1..]) == [f[1]];
    assert SortFields(leq, f) == f;
  }

  /** Two distinct keys that tie keep the order they came in: equal objects sort to different forms. */
  lemma TiedKeysKeepTheirOrder(leq: KeyOrder, x: string, y: string)
    requires leq(x, y) && leq(y, x) && x != y
    ensures WellFormed(Pair(x, y)) && WellFormed(Pair(y, x)) && SchemaValuesEqual(Pair(x, y), Pair(y, x))
    ensures SortJson(leq, Pair(x, y)) != SortJson(leq, Pair(y, x))
  {
    PairKeepsItsOrder(leq, x, y);
    PairKeepsItsOrder(leq, y, x);
    KeyOrderIrrelevant(Pair(x, y).fields, Pair(y, x).fields);
    assert Pair(x, y).fields[0].key != Pair(y, x).fields[0].key;
  }

  ghost predicate DecidesMeaning(leq: KeyOrder) {
    forall a, b :: WellFormed(a) && WellFormed(b) ==>
      (SortJson(leq, a) == SortJson(leq, b) <==> SchemaValuesEqual(a, b))
  }

  /** Sorting decides equality up to key order for all values exactly when the comparison ties no two keys. */
  lemma DecidesMeaningIffNoTies(leq: KeyOrder)
    requires TotalPreorder(leq)
    ensures DecidesMeaning(leq) <==> Antisymmetric(leq)
  {
    if Antisymmetric(leq) {
      forall a, b | WellFormed(a) && WellFormed(b)
        ensures SortJson(leq, a) == SortJson(leq, b) <==> SchemaValuesEqual(a, b)
      {
        SortDecidesMeaning(leq, a, b);
      }
    } else {
      var x, y :| leq(x, y) && leq(y, x) && x != y;
      TiedKeysKeepTheirOrder(leq, x, y);
    }
  }

  // ----- the execution key -----

  /** The tool name and the key-sorted text of its arguments, the text standing for the value it writes. */
  datatype ExecutionKey = ExecutionKey(name: string, text: Json)

  function BuildSideEffectExecutionKey(leq: KeyOrder, name: string, args: Json): ExecutionKey {
    ExecutionKey(name, SortJson(leq, Written(args)))
  }

  lemma SameKeyIffSameCall(leq: KeyOrder, name1: string, args1: Json, name2: string, args2: Json)
    requires TotalOrder(leq) && WellFormed(args1) && WellFormed(args2)
    ensures BuildSideEffectExecutionKey(leq, name1, args1) == BuildSideEffectExecutionKey(leq, name2, args2)
       <==> name1 == name2 && WrittenAlike(args1, args2)
    ensures PlainNumbers(args1) && PlainNumbers(args2) ==>
              (BuildSideEffectExecutionKey(leq, name1, args1) == BuildSideEffectExecutionKey(leq, name2, args2)
               <==> name1 == name2 && SchemaValuesEqual(args1, args2))
  {
    WrittenWellFormed(args1);
    WrittenWellFormed(args2);
    SortDecidesMeaning(leq, Written(args1), Written(args2));
    WrittenAlikeIff(args1, args2);
    if PlainNumbers(args1) && PlainNumbers(args2) { PlainAlikeIff(args1, args2); }
  }

  // ----- the memo -----

  datatype Policy = Read | Write | Ui

  /** A call as the turn meets it, with what its executor answers if it is dispatched now. */
  datatype Call = Call(name: string, args: Json, policy: Policy, answer: Json)

  /** What the memo needs to know of a call: its key, if it is a write or UI action, and its answer. */
  datatype Entry = Entry(key: Option<ExecutionKey>, answer: Json)

  function EntryOf(leq: KeyOrder, c: Call): Entry {
    Entry(if c.policy == Read then None else Some(BuildSideEffectExecutionKey(leq, c.name, c.args)), c.answer)
  }

  predicate SameEffect(a: Entry, b: Entry) { a.key.Some? && a.key == b.key }

  /** The first entry of the turn with the same effect as entry i; i itself for a read. */
  ghost function First(turn: seq<Entry>, i: nat): (f: nat)
    requires i < |turn|
    ensures f <= i && (f == i || SameEffect(turn[f], turn[i]))
    ensures forall k :: 0 <= k < f ==> !SameEffect(turn[k], turn[i])
  {
    FirstFrom(turn, i, 0)
  }

  ghost function FirstFrom(turn: seq<Entry>, i: nat, from: nat): (f: nat)
    requires from <= i < |turn|
    requires forall k :: 0 <= k < from ==> !SameEffect(turn[k], turn[i])
    ensures from <= f <= i && (f == i || SameEffect(turn[f], turn[i]))
    ensures forall k :: 0 <= k < f ==> !SameEffect(turn[k], turn[i])
    decreases i - from
  {
    if from == i || SameEffect(turn[from], turn[i]) then from else FirstFrom(turn, i, from + 1)
  }

  /** What entry i is answered: the answer of the first entry with the same effect. */
  ghost function Answer(turn: seq<Entry>, i: nat): Json
    requires i < |turn|
  {
    turn[First(turn, i)].answer
  }

  ghost predicate Recorded(turn: seq<Entry>, key: ExecutionKey) {
    exists i :: 0 <= i < |turn| && turn[i].key == Some(key)
  }

  ghost predicate OnlyRecorded(completed: map<ExecutionKey, Json>, turn: seq<Entry>) {
    forall k :: k in completed ==> Recorded(turn, k)
  }

  ghost predicate Held(completed: map<ExecutionKey, Json>, turn: seq<Entry>, i: nat)
    requires i < |turn|
  {
    turn[i].key.Some? ==> turn[i].key.value in completed && completed[turn[i].key.value] == Answer(turn, i)
  }

  ghost predicate AllHeld(completed: map<ExecutionKey, Json>, turn: seq<Entry>) {
    forall i :: 0 <= i < |turn| ==> Held(completed, turn, i)
  }

  /** The memo holds exactly the effects of the turn, each with its first answer. */
  ghost predicate MemoMatches(completed: map<ExecutionKey, Json>, turn: seq<Entry>) {
    OnlyRecorded(completed, turn) && AllHeld(completed, turn)
  }

  /** The entries that reached an executor are exactly the first ones, in order. */
  ghost predicate DispatchMatches(turn: seq<Entry>, dispatched: seq<nat>) {
    && (forall d: nat :: d in dispatched <==> d < |turn| && First(turn, d) == d)
    && (forall i, j :: 0 <= i < j < |dispatched| ==> dispatched[i] < dispatched[j])
  }

  class SideEffectMemo {
    const leq: KeyOrder
    var completed: map<ExecutionKey, Json>
    ghost var turn: seq<Entry>         // every call of the turn so far
    ghost var dispatched: seq<nat>     // the positions in `turn` that reached an executor

    ghost predicate Valid()
      reads this
    {
      MemoMatches(completed, turn) && DispatchMatches(turn, dispatched)
    }

    constructor (leq: KeyOrder)
      ensures Valid() && turn == [] && dispatched == [] && this.leq == leq
    {
      this.leq := leq;
      completed := map[];
      turn := [];
      dispatched := [];
    }

    method RunOne(c: Call) returns (result: Json)
      requires Valid()
      modifies this
      ensures Valid() && turn == old(turn) + [EntryOf(leq, c)]
      ensures result == Answer(turn, |old(turn)|)
    {
      ghost var before, e := turn, EntryOf(leq, c);
      turn := turn + [e];
      if c.policy != Read {
        var key := BuildSideEffectExecutionKey(leq, c.name, c.args);
        if key in completed {
          RepeatedCall(completed, before, e);
          DispatchGrows(before, dispatched, e);
          return completed[key];
        }
        FirstCall(completed, before, e);
        completed := completed[key := c.answer];
      } else {
        FirstCall(completed, before, e);
      }
      DispatchGrows(before, dispatched, e);
      dispatched := dispatched + [|before|];
      result := c.answer;
    }

    /** A batch holding anything but reads runs one call at a time. */
    method ExecuteValidatedToolCallsSequentially(calls: seq<Call>) returns (results: seq<Json>)
      requires Valid()
      modifies this
      ensures Valid() && |turn| == |old(turn)| + |calls| && old(turn) <= turn
      ensures |results| == |calls|
      ensures forall i :: 0 <= i < |calls| ==> turn[|old(turn)| + i] == EntryOf(leq, calls[i])
      ensures forall i :: 0 <= i < |calls| ==> results[i] == Answer(turn, |old(turn)| + i)
    {
      results := [];
      ghost var base := |turn|;
      for index := 0 to |calls|
        invariant Valid() && |turn| == base + index && old(turn) <= turn
        invariant |results| == index
        invariant forall i :: 0 <= i < index ==> turn[base + i] == EntryOf(leq, calls[i])
        invariant forall i :: 0 <= i < index ==> results[i] == Answer(turn, base + i)
      {
        ghost var before := turn;
        var r := RunOne(calls[index]);
        forall i | 0 <= i < |before| ensures Answer(turn, i) == Answer(before, i) {
          FirstStable(before, EntryOf(leq, calls[index]), i);
        }
        results := results + [r];
      }
    }
  }

  /** Later calls do not change which call came first. */
  lemma FirstStable(turn: seq<Entry>, e: Entry, i: nat)
    requires i < |turn|
    ensures First(turn + [e], i) == First(turn, i)
    ensures Answer(turn + [e], i) == Answer(turn, i)
  {
    var longer, f := turn + [e], First(turn, i);
    assert longer[i] == turn[i] && longer[f] == turn[f];
    assert forall k :: 0 <= k < f ==> longer[k] == turn[k];
  }

  lemma RecordedGrows(completed: map<ExecutionKey, Json>, turn: seq<Entry>, e: Entry)
    requires OnlyRecorded(completed, turn)
    ensures OnlyRecorded(completed, turn + [e])
    ensures e.key.Some? ==> OnlyRecorded(completed[e.key.value := e.answer], turn + [e])
  {
    var longer := turn + [e];
    forall k | Recorded(turn, k) || Some(k) == e.key ensures Recorded(longer, k) {
      if Some(k) == e.key {
        assert longer[|turn|].key == Some(k);
      } else {
        var j :| 0 <= j < |turn| && turn[j].key == Some(k);
        assert longer[j].key == Some(k);
      }
    }
  }

  lemma RepeatedCall(completed: map<ExecutionKey, Json>, turn: seq<Entry>, e: Entry)
    requires MemoMatches(completed, turn) && e.key.Some? && e.key.value in completed
    ensures MemoMatches(completed, turn + [e])
    ensures completed[e.key.value] == Answer(turn + [e], |turn|)
    ensures First(turn + [e], |turn|) < |turn|
  {
    RecordedGrows(completed, turn, e);
    RepeatedAnswer(completed, turn, e);
    forall j | 0 <= j < |turn| + 1 ensures Held(completed, turn + [e], j) {
      if j < |turn| {
        assert Held(completed, turn, j);
        FirstStable(turn, e, j);
      }
    }
  }

  lemma RepeatedAnswer(completed: map<ExecutionKey, Json>, turn: seq<Entry>, e: Entry)
    requires AllHeld(completed, turn) && e.key.Some? && Recorded(turn, e.key.value)
    ensures First(turn + [e], |turn|) < |turn|
    ensures e.key.value in completed && completed[e.key.value] == Answer(turn + [e], |turn|)
  {
    var longer, n := turn + [e], |turn|;
    var i :| 0 <= i < n && turn[i].key == e.key;
    assert SameEffect(longer[i], longer[n]);
    var f := First(longer, n);
    assert f < n && longer[f] == turn[f];
    assert Held(completed, turn, f);
    assert First(turn, f) == f by {
      assert forall k :: 0 <= k < f ==> turn[k] == longer[k];
    }
  }

  /** A read, or a write or UI action met for the first time. */
  lemma FirstCall(completed: map<ExecutionKey, Json>, turn: seq<Entry>, e: Entry)
    requires MemoMatches(completed, turn) && (e.key.Some? ==> e.key.value !in completed)
    ensures MemoMatches(if e.key.Some? then completed[e.key.value := e.answer] else completed, turn + [e])
    ensures First(turn + [e], |turn|) == |turn|
  {
    var longer, n := turn + [e], |turn|;
    var after := if e.key.Some? then completed[e.key.value := e.answer] else completed;
    RecordedGrows(completed, turn, e);
    assert First(longer, n) == n by {
      forall j | 0 <= j < n ensures !SameEffect(longer[j], e) {
        assert Held(completed, turn, j);
      }
    }
    forall j | 0 <= j < n + 1 ensures Held(after, longer, j) {
      if j < n {
        assert Held(completed, turn, j);
        FirstStable(turn, e, j);
      }
    }
  }

  lemma DispatchGrows(turn: seq<Entry>, dispatched: seq<nat>, e: Entry)
    requires DispatchMatches(turn, dispatched)
    ensures DispatchMatches(turn + [e],
              if First(turn + [e], |turn|) == |turn| then dispatched + [|turn|] else dispatched)
  {
    forall j: nat | j < |turn| ensures First(turn + [e], j) == First(turn, j) { FirstStable(turn, e, j); }
    forall i | 0 <= i < |dispatched| ensures dispatched[i] < |turn| { assert dispatched[i] in dispatched; }
  }

  /** Main result on dispatch: two write or UI calls of one turn that both ran differ in name or in arguments. */
  lemma DispatchedAtMostOnce(leq: KeyOrder, turn: seq<Entry>, dispatched: seq<nat>, i: nat, j: nat, c: Call, d: Call)
    requires TotalOrder(leq) && DispatchMatches(turn, dispatched)
    requires i in dispatched && j in dispatched && i != j
    requires turn[i] == EntryOf(leq, c) && turn[j] == EntryOf(leq, d)
    requires c.policy != Read && d.policy != Read && WellFormed(c.args) && WellFormed(d.args)
    ensures c.name != d.name || !WrittenAlike(c.args, d.args)
  {
    SameKeyIffSameCall(leq, c.name, c.args, d.name, d.args);
    var lo, hi := if i < j then i else j, if i < j then j else i;
    assert First(turn, hi) == hi;
    assert !SameEffect(turn[lo], turn[hi]);
  }

  // ----- what it takes of the comparison -----

  /** The same tool, to change something, with arguments that are written alike up to key order. */
  predicate Alike(c: Call, d: Call) {
    c.policy != Read && d.policy != Read && c.name == d.name && WrittenAlike(c.args, d.args)
  }

  function EntriesOf(leq: KeyOrder, calls: seq<Call>): seq<Entry> {
    seq(|calls|, i requires 0 <= i < |calls| => EntryOf(leq, calls[i]))
  }

  predicate AllWellFormed(calls: seq<Call>) {
    forall i :: 0 <= i < |calls| ==> WellFormed(calls[i].args)
  }

  /** Of alike calls of a turn, only one reaches its executor. */
  ghost predicate OncePerTurn(leq: KeyOrder, calls: seq<Call>)
  {
    forall i, j :: 0 <= i < j < |calls| && Alike(calls[i], calls[j]) ==> First(EntriesOf(leq, calls), j) != j
  }

  ghost predicate NeverTwice(leq: KeyOrder) {
    forall calls: seq<Call> :: AllWellFormed(calls) ==> OncePerTurn(leq, calls)
  }

  /** Two calls share one entry of the memo exactly when they are alike. */
  lemma SameEffectIffAlike(leq: KeyOrder, c: Call, d: Call)
    requires TotalOrder(leq) && WellFormed(c.args) && WellFormed(d.args)
    ensures SameEffect(EntryOf(leq, c), EntryOf(leq, d)) <==> Alike(c, d)
  {
    SameKeyIffSameCall(leq, c.name, c.args, d.name, d.args);
  }

  /** A call reaches its executor exactly when no call of the turn before it is alike. */
  lemma DispatchedIff(leq: KeyOrder, calls: seq<Call>, j: nat)
    requires TotalOrder(leq) && AllWellFormed(calls) && j < |calls|
    ensures First(EntriesOf(leq, calls), j) == j <==> forall i :: 0 <= i < j ==> !Alike(calls[i], calls[j])
  {
    var turn := EntriesOf(leq, calls);
    forall i | 0 <= i < j ensures SameEffect(turn[i], turn[j]) <==> Alike(calls[i], calls[j]) {
      SameEffectIffAlike(leq, calls[i], calls[j]);
    }
  }

  function Writing(name: string, args: Json): Call { Call(name, args, Write, Null) }

  /** Two keys that tie let one action through twice. */
  lemma TiedKeysRunTwice(leq: KeyOrder, name: string, x: string, y: string)
    requires leq(x, y) && leq(y, x) && x != y
    ensures var calls := [Writing(name, Pair(x, y)), Writing(name, Pair(y, x))];
            AllWellFormed(calls) && Alike(calls[0], calls[1]) && First(EntriesOf(leq, calls), 1) == 1
  {
    TiedKeysKeepTheirOrder(leq, x, y);
    PairIsPlain(x, y);
    PairIsPlain(y, x);
    PlainAlikeIff(Pair(x, y), Pair(y, x));
    var turn := EntriesOf(leq, [Writing(name, Pair(x, y)), Writing(name, Pair(y, x))]);
    assert !SameEffect(turn[0], turn[1]);
  }

  lemma PairIsPlain(x: string, y: string)
    ensures PlainNumbers(Pair(x, y)) && Written(Pair(x, y)) == Pair(x, y)
  {
    var f := Pair(x, y).fields;
    assert forall i :: 0 <= i < |f| ==> PlainNumbers(f[i].value);
    PlainIsWritten(Pair(x, y));
  }

  /** The memo lets no action through twice, in any turn, exactly when the comparison ties no two keys. */
  lemma NeverTwiceIffNoTies(leq: KeyOrder)
    requires TotalPreorder(leq)
    ensures NeverTwice(leq) <==> Antisymmetric(leq)
  {
    if Antisymmetric(leq) {
      forall calls: seq<Call>, i, j | AllWellFormed(calls) && 0 <= i < j < |calls| && Alike(calls[i], calls[j])
        ensures First(EntriesOf(leq, calls), j) != j
      {
        DispatchedIff(leq, calls, j);
      }
    } else {
      var x, y :| leq(x, y) && leq(y, x) && x != y;
      TiedKeysRunTwice(leq, "", x, y);
      var calls := [Writing("", Pair(x, y)), Writing("", Pair(y, x))];
      assert !OncePerTurn(leq, calls);
    }
  }
}
