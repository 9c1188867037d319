/** Collecting finished output items from stream events: merging partial calls and restoring order. */
module StreamItems {
  import opened Options

  /** A property value; Other stands for anything but null and text, with what String() makes of it. */
  datatype Value = Null | Text(text: string) | Other(shown: string)

  /** A provider record; `{...a, ...b}` is a + b. */
  type Record = map<string, Value>

  datatype Kind = ItemAdded | ItemDone | ArgumentsDone | Unrelated

  /** `item` is data.item ?? data.output_item; `outputIndex` is already checked to be a safe index. */
  datatype Event = Event(kind: Kind, item: Option<Record>, outputIndex: Option<nat>, data: Record)

  datatype Collected = Collected(item: Record, outputIndex: Option<nat>, sequence: nat)

  function TextAt(r: Record, key: string): Option<string> {
    if key in r && r[key].Text? then Some(r[key].text) else None
  }

  predicate IsCallRecord(r: Record) { TextAt(r, "type") == Some("function_call") }

  function Shown(v: Value): string {
    match v
    case Null => "null"
    case Text(t) => t
    case Other(s) => s
  }

  /** `call_id ?? id`, as a string. */
  function Identity(r: Record): Option<string> {
    if "call_id" in r && !r["call_id"].Null? then Some(Shown(r["call_id"]))
    else if "id" in r && !r["id"].Null? then Some(Shown(r["id"]))
    else None
  }

  function Or<T>(a: Option<T>, b: Option<T>): Option<T> {
    if a.Some? then a else b
  }

  function Decimal(n: nat): string {
    if n < 10 then [Digit(n)] else Decimal(n / 10) + [Digit(n % 10)]
  }

  function Digit(n: nat): char
    requires n < 10
  {
    "0123456789"[n]
  }

  // ----- which record an event finishes -----

  /** The function calls announced anywhere in the stream, by item id; the last announcement wins. */
  function Announced(events: seq<Event>): map<string, Collected> {
    if events == [] then map[] else Announce(Announced(events[..|events| - 1]), events[|events| - 1], |events| - 1)
  }

  function Announce(added: map<string, Collected>, e: Event, sequence: nat): map<string, Collected> {
    if (e.kind.ItemAdded? || e.kind.ItemDone?) && e.item.Some? && IsCallRecord(e.item.value) then
      var id := TextAt(e.item.value, "id");
      if id.Some? && id.value != "" then added[id.value := Collected(e.item.value, e.outputIndex, sequence)] else added
    else added
  }

  /** The call a lone arguments.done event belongs to. */
  function AddedFor(added: map<string, Collected>, e: Event): Option<Collected> {
    var id := TextAt(e.data, "item_id");
    if e.kind.ArgumentsDone? && e.item.None? && id.Some? && id.value in added then Some(added[id.value]) else None
  }

  function Finished(added: map<string, Collected>, e: Event): Option<Record> {
    if !e.kind.ItemDone? && !e.kind.ArgumentsDone? then None
    else if e.item.Some? then (if TextAt(e.item.value, "type").Some? then e.item else None)
    else if e.kind.ArgumentsDone? then
      var known := AddedFor(added, e);
      var base := if known.Some? then known.value.item else map[];
      var itemId := TextAt(e.data, "item_id");
      var callId := Or(TextAt(e.data, "call_id"), TextAt(base, "call_id"));
      var name := Or(TextAt(e.data, "name"), TextAt(base, "name"));
      var arguments := TextAt(e.data, "arguments");
      if itemId.Some? && itemId.value != "" && callId.Some? && callId.value != "" && name.Some? && name.value != ""
         && arguments.Some? then
        Some(base + map["type" := Text("function_call"), "id" := Text(itemId.value), "call_id" := Text(callId.value),
                        "name" := Text(name.value), "arguments" := Text(arguments.value)])
      else None
    else None
  }

  // ----- merging -----

  /** A finished record with its place in the stream. */
  datatype Contribution = Contribution(item: Record, outputIndex: Option<nat>, sequence: nat)

  predicate IsCall(c: Contribution) { IsCallRecord(c.item) && Identity(c.item).Some? }

  function KeyOf(c: Contribution): string {
    var type_ := if TextAt(c.item, "type").Some? then TextAt(c.item, "type").value else "";
    var identity := Identity(c.item);
    if IsCall(c) then "function_call:" + identity.value
    else type_ + ":" + (if identity.Some? then identity.value else "anonymous") + ":sequence:" + Decimal(c.sequence)
  }

  function Combine(existing: Option<Collected>, c: Contribution): Collected {
    if existing.None? then Collected(c.item, c.outputIndex, c.sequence)
    else
      var old_ := existing.value;
      var merged := old_.item + c.item;
      var before, now := TextAt(old_.item, "arguments"), TextAt(c.item, "arguments");
      var longest :=
        if IsCallRecord(c.item) && before.Some? && now.Some? && |before.value| > |now.value|
        then merged["arguments" := Text(before.value)] else merged;
      Collected(longest, Or(c.outputIndex, old_.outputIndex), old_.sequence)
  }

  function MergeInto(output: map<string, Collected>, c: Contribution): map<string, Collected> {
    output[KeyOf(c) := Combine(if KeyOf(c) in output then Some(output[KeyOf(c)]) else None, c)]
  }

  function MergeAll(cs: seq<Contribution>): map<string, Collected> {
    if cs == [] then map[] else MergeInto(MergeAll(cs[..|cs| - 1]), cs[|cs| - 1])
  }

  /** The finished records of a stream, in stream order. */
  function Contributions(added: map<string, Collected>, events: seq<Event>): seq<Contribution> {
    if events == [] then [] else
      var n := |events| - 1;
      var e := events[n];
      var rest := Contributions(added, events[..n]);
      if Finished(added, e).None? then rest else rest + [ContributionOf(added, e, n)]
  }

  function ContributionOf(added: map<string, Collected>, e: Event, sequence: nat): Contribution
    requires Finished(added, e).Some?
  {
    var known := AddedFor(added, e);
    Contribution(Finished(added, e).value,
                 Or(e.outputIndex, if known.Some? then known.value.outputIndex else None), sequence)
  }

  lemma ContributionsSnoc(added: map<string, Collected>, events: seq<Event>, n: nat)
    requires n < |events|
    ensures var before := Contributions(added, events[..n]);
            Contributions(added, events[..n + 1])
            == if Finished(added, events[n]).None? then before else before + [ContributionOf(added, events[n], n)]
  {
    assert events[..n + 1][..n] == events[..n];
  }

  // ----- order -----

  /** By output index when every index is known, by first appearance otherwise. */
  predicate Before(complete: bool, a: Collected, b: Collected) {
    if complete && a.outputIndex.Some? && b.outputIndex.Some? && a.outputIndex != b.outputIndex
    then a.outputIndex.value < b.outputIndex.value
    else a.sequence < b.sequence
  }

  predicate AllIndexed(s: seq<Collected>) {
    forall i :: 0 <= i < |s| ==> s[i].outputIndex.Some?
  }

  predicate Ordered(complete: bool, s: seq<Collected>) {
    forall i, j :: 0 <= i < j < |s| ==> Before(complete, s[i], s[j])
  }

  predicate DistinctSequences(s: seq<Collected>) {
    forall i, j :: 0 <= i < j < |s| ==> s[i].sequence != s[j].sequence
  }

  // ----- the collector -----

  /** The records of the stream, merged per key and put in order. */
  method CollectDoneItems(events: seq<Event>) returns (items: seq<Record>, ghost entries: seq<Collected>)
    ensures |items| == |entries| && forall i :: 0 <= i < |items| ==> items[i] == entries[i].item
    ensures Lists(entries, MergeAll(Contributions(Announced(events), events)))
    ensures Ordered(AllIndexed(entries), entries)
    ensures AllIndexed(entries) ==> forall i, j :: 0 <= i < j < |entries| ==>
              entries[i].outputIndex.value < entries[j].outputIndex.value
              || (entries[i].outputIndex == entries[j].outputIndex && entries[i].sequence < entries[j].sequence)
    ensures !AllIndexed(entries) ==> forall i, j :: 0 <= i < j < |entries| ==> entries[i].sequence < entries[j].sequence
  {
    var addedFunctionCalls: map<string, Collected> := map[];
    for sequence := 0 to |events|
      invariant addedFunctionCalls == Announced(events[..sequence])
    {
      addedFunctionCalls := Announce(addedFunctionCalls, events[sequence], sequence);
      assert events[..sequence + 1][..sequence] == events[..sequence];
    }
    assert events[..|events|] == events;
    var output, keys := MergeEvents(addedFunctionCalls, events);
    var sorted := SortValues(output, keys);
    items := seq(|sorted|, i requires 0 <= i < |sorted| => sorted[i].item);
    entries := sorted;
  }

  /** The entries are exactly the values of the map, each once. */
  ghost predicate Lists(entries: seq<Collected>, output: map<string, Collected>) {
    && |entries| == |output|
    && DistinctSequences(entries)
    && (forall x :: x in entries <==> x in output.Values)
  }

  /** The second pass; `keys` is the insertion order of the map. */
  method MergeEvents(added: map<string, Collected>, events: seq<Event>)
      returns (output: map<string, Collected>, keys: seq<string>)
    ensures output == MergeAll(Contributions(added, events))
    ensures NoRepeats(keys) && (forall k :: k in keys <==> k in output)
    ensures DistinctEntries(output)
  {
    output, keys := map[], [];
    ghost var cs: seq<Contribution> := [];
    for sequence := 0 to |events|
      invariant cs == Contributions(added, events[..sequence]) && output == MergeAll(cs)
      invariant NoRepeats(keys) && (forall k :: k in keys <==> k in output)
    {
      ContributionsSnoc(added, events, sequence);
      var e := events[sequence];
      if Finished(added, e).Some? {
        var c := ContributionOf(added, e, sequence);
        var key := KeyOf(c);
        if key !in output { keys := keys + [key]; }
        output := MergeInto(output, c);
        MergeSnoc(cs, c);
        cs := cs + [c];
      }
    }
    assert events[..|events|] == events;
    StreamOrder(added, events);
    EntriesAreDistinct(cs);
  }

  ghost predicate DistinctEntries(output: map<string, Collected>) {
    forall k, l :: k in output && l in output && k != l ==> output[k].sequence != output[l].sequence
  }

  method SortValues(output: map<string, Collected>, keys: seq<string>) returns (sorted: seq<Collected>)
    requires NoRepeats(keys) && (forall k :: k in keys <==> k in output) && DistinctEntries(output)
    ensures Lists(sorted, output) && Ordered(AllIndexed(sorted), sorted)
  {
    KeyCount(keys, output.Keys);
    assert |output| == |output.Keys|;
    var collected := seq(|keys|, i requires 0 <= i < |keys| => output[keys[i]]);
    forall k | k in output ensures output[k] in collected {
      var i :| 0 <= i < |keys| && keys[i] == k;
      assert collected[i] == output[k];
    }
    sorted := Sort(AllIndexed(collected), collected);
    SameMembersSameIndexing(collected, sorted);
  }

  predicate NoRepeats(keys: seq<string>) {
    forall i, j :: 0 <= i < j < |keys| ==> keys[i] != keys[j]
  }

  /** Array.prototype.sort on entries no two of which tie. */
  method Sort(complete: bool, s: seq<Collected>) returns (r: seq<Collected>)
    requires DistinctSequences(s) && (complete ==> AllIndexed(s))
    ensures |r| == |s| && DistinctSequences(r) && Ordered(complete, r)
    ensures forall x :: x in r <==> x in s
  {
    r := [];
    for n := 0 to |s|
      invariant |r| == n && DistinctSequences(r) && Ordered(complete, r)
      invariant forall x :: x in r <==> x in s[..n]
    {
      var x := s[n];
      assert forall y :: y in r ==> y in s[..n];
      var i := 0;
      while i < |r| && Before(complete, r[i], x)
        invariant i <= |r| && forall k :: 0 <= k < i ==> Before(complete, r[k], x)
      {
        i := i + 1;
      }
      InsertKeepsOrder(complete, r, i, x);
      assert s[..n + 1] == s[..n] + [x];
      assert r == r[..i] + r[i..];
      r := r[..i] + [x] + r[i..];
    }
    assert s[..|s|] == s;
  }

  lemma KeyCount(keys: seq<string>, domain: set<string>)
    requires NoRepeats(keys) && forall k :: k in keys <==> k in domain
    ensures |keys| == |domain|
  {
    if keys != [] {
      var n := |keys| - 1;
      assert keys == keys[..n] + [keys[n]];
      KeyCount(keys[..n], domain - {keys[n]});
    } else {
      assert domain == {};
    }
  }

  lemma SameMembersSameIndexing(s: seq<Collected>, r: seq<Collected>)
    requires forall x :: x in r <==> x in s
    ensures AllIndexed(r) <==> AllIndexed(s)
  {
    forall i | 0 <= i < |s| ensures s[i] in r { assert s[i] in s; }
    forall i | 0 <= i < |r| ensures r[i] in s { assert r[i] in r; }
  }

  lemma InsertKeepsOrder(complete: bool, r: seq<Collected>, i: nat, x: Collected)
    requires i <= |r| && Ordered(complete, r) && DistinctSequences(r)
    requires forall y :: y in r ==> y.sequence != x.sequence && (complete ==> y.outputIndex.Some?)
    requires complete ==> x.outputIndex.Some?
    requires forall k :: 0 <= k < i ==> Before(complete, r[k], x)
    requires i < |r| ==> !Before(complete, r[i], x)
    ensures Ordered(complete, r[..i] + [x] + r[i..]) && DistinctSequences(r[..i] + [x] + r[i..])
  {
    forall k | i <= k < |r| ensures Before(complete, x, r[k]) {
      assert r[i] in r && r[k] in r;
      if k > i { assert Before(complete, r[i], r[k]); }
    }
    assert forall k :: 0 <= k < |r| ==> r[k] in r;
  }

  // ----- the stream order of contributions -----

  predicate StreamOrdered(cs: seq<Contribution>) {
    forall i, j :: 0 <= i < j < |cs| ==> cs[i].sequence < cs[j].sequence
  }

  lemma {:induction false} StreamOrder(added: map<string, Collected>, events: seq<Event>)
    ensures var cs := Contributions(added, events);
            StreamOrdered(cs) && forall i :: 0 <= i < |cs| ==> cs[i].sequence < |events|
  {
    if events != [] { StreamOrder(added, events[..|events| - 1]); }
  }

  /** Entry k was first seen at contribution i. */
  predicate SeenFirst(cs: seq<Contribution>, k: string, i: nat) {
    i < |cs| && KeyOf(cs[i]) == k && forall j :: 0 <= j < i ==> KeyOf(cs[j]) != k
  }

  ghost predicate HasKey(cs: seq<Contribution>, k: string) {
    exists j :: 0 <= j < |cs| && KeyOf(cs[j]) == k
  }

  ghost function FirstIndex(cs: seq<Contribution>, k: string): (i: nat)
    requires HasKey(cs, k)
    ensures SeenFirst(cs, k, i)
  {
    if HasKey(cs[..|cs| - 1], k) then FirstIndex(cs[..|cs| - 1], k) else
      assert forall j :: 0 <= j < |cs| - 1 ==> cs[j] == cs[..|cs| - 1][j];
      |cs| - 1
  }

  lemma MergeSnoc(cs: seq<Contribution>, c: Contribution)
    ensures MergeAll(cs + [c]) == MergeInto(MergeAll(cs), c)
  {
    assert (cs + [c])[..|cs|] == cs;
  }

  /** Each entry keeps the place where its key first appeared. */
  lemma {:induction false} FirstSeen(cs: seq<Contribution>, k: string)
    ensures k in MergeAll(cs) <==> HasKey(cs, k)
    ensures HasKey(cs, k) ==> MergeAll(cs)[k].sequence == cs[FirstIndex(cs, k)].sequence
  {
    if cs != [] {
      var n := |cs| - 1;
      FirstSeen(cs[..n], k);
      HasKeyGrows(cs, k);
    }
  }

  lemma HasKeyGrows(cs: seq<Contribution>, k: string)
    requires cs != []
    ensures HasKey(cs, k) <==> HasKey(cs[..|cs| - 1], k) || KeyOf(cs[|cs| - 1]) == k
  {
    assert forall j :: 0 <= j < |cs| - 1 ==> cs[j] == cs[..|cs| - 1][j];
  }

  lemma EntriesAreDistinct(cs: seq<Contribution>)
    requires StreamOrdered(cs)
    ensures DistinctEntries(MergeAll(cs))
  {
    forall k, l | k in MergeAll(cs) && l in MergeAll(cs) && k != l
      ensures MergeAll(cs)[k].sequence != MergeAll(cs)[l].sequence
    {
      FirstSeen(cs, k);
      FirstSeen(cs, l);
      var i, j := FirstIndex(cs, k), FirstIndex(cs, l);
      assert i != j;
      assert if i < j then cs[i].sequence < cs[j].sequence else cs[j].sequence < cs[i].sequence;
    }
  }

  // ----- one entry per call, one per other record -----

  /** Under one key there are calls only, or no call at all. */
  ghost predicate KeySeparate(cs: seq<Contribution>, k: string) {
    forall i, j :: 0 <= i < |cs| && 0 <= j < |cs| && KeyOf(cs[i]) == k == KeyOf(cs[j]) ==>
        IsCall(cs[i]) == IsCall(cs[j])
  }

  ghost function CallKey(identity: string): string { "function_call:" + identity }

  lemma CallKeyInjective(a: string, b: string)
    requires CallKey(a) == CallKey(b)
    ensures a == b
  {
    assert CallKey(a)[|"function_call:"|..] == a;
    assert CallKey(b)[|"function_call:"|..] == b;
  }

  /** `{...a, ...b}` of two records of one call is a record of that call. */
  lemma MergedCall(a: Record, b: Record)
    requires IsCallRecord(b) && Identity(a).Some? && Identity(a) == Identity(b)
    ensures IsCallRecord(a + b) && Identity(a + b) == Identity(b)
  {
  }

  /** A contribution under a call's key is a contribution of that call. */
  lemma KeyNamesCall(cs: seq<Contribution>, identity: string, j: nat)
    requires KeySeparate(cs, CallKey(identity)) && j < |cs| && KeyOf(cs[j]) == CallKey(identity)
    requires exists i :: 0 <= i < |cs| && IsCall(cs[i]) && Identity(cs[i].item) == Some(identity)
    ensures IsCall(cs[j]) && Identity(cs[j].item) == Some(identity)
  {
    var i :| 0 <= i < |cs| && IsCall(cs[i]) && Identity(cs[i].item) == Some(identity);
    assert KeyOf(cs[i]) == CallKey(identity);
    CallKeyInjective(Identity(cs[j].item).value, identity);
  }

  /** Every contribution under the key is one of the call. */
  predicate AllOfCall(cs: seq<Contribution>, k: string, identity: string) {
    forall j :: 0 <= j < |cs| && KeyOf(cs[j]) == k ==> IsCall(cs[j]) && Identity(cs[j].item) == Some(identity)
  }

  /** The entry under a call's key is a record of that call. */
  lemma {:induction false} CallEntry(cs: seq<Contribution>, k: string, identity: string)
    requires AllOfCall(cs, k, identity) && k in MergeAll(cs)
    ensures IsCallRecord(MergeAll(cs)[k].item) && Identity(MergeAll(cs)[k].item) == Some(identity)
  {
    var n := |cs| - 1;
    if k in MergeAll(cs[..n]) {
      CallEntry(cs[..n], k, identity);
      if KeyOf(cs[n]) == k { MergedCall(MergeAll(cs[..n])[k].item, cs[n].item); }
    }
  }

  predicate Digits(s: string) { forall i :: 0 <= i < |s| ==> '0' <= s[i] <= '9' }

  lemma {:induction false} DecimalDigits(n: nat)
    ensures Digits(Decimal(n)) && |Decimal(n)| > 0
  {
    if n >= 10 { DecimalDigits(n / 10); }
  }

  lemma {:induction false} DecimalInjective(a: nat, b: nat)
    requires Decimal(a) == Decimal(b)
    ensures a == b
  {
    DecimalDigits(a / 10);
    DecimalDigits(b / 10);
    assert Decimal(a)[|Decimal(a)| - 1] == Digit(a % 10);
    assert Decimal(b)[|Decimal(b)| - 1] == Digit(b % 10);
    DigitInjective(a % 10, b % 10);
    if a >= 10 && b >= 10 {
      assert Decimal(a)[..|Decimal(a)| - 1] == Decimal(a / 10);
      assert Decimal(b)[..|Decimal(b)| - 1] == Decimal(b / 10);
      DecimalInjective(a / 10, b / 10);
    }
  }

  lemma DigitInjective(a: nat, b: nat)
    requires a < 10 && b < 10 && Digit(a) == Digit(b)
    ensures a == b
  {
    assert forall d :: 0 <= d < 10 ==> "0123456789"[d] == '0' + d as char;
  }

  /** A colon followed by digits can only be cut in one place. */
  lemma SuffixNoLonger(a: string, b: string, d: string, e: string)
    requires Digits(e) && a + ":" + d == b + ":" + e
    ensures |e| <= |d|
  {
    var s, t := a + ":" + d, b + ":" + e;
    assert s[|a|] == ':';
    forall p | |b| + 1 <= p < |t| ensures '0' <= t[p] <= '9' {
      assert t[p] == e[p - |b| - 1];
    }
  }

  lemma SuffixesAgree(a: string, b: string, d: string, e: string)
    requires Digits(d) && Digits(e) && a + ":" + d == b + ":" + e
    ensures d == e
  {
    SuffixNoLonger(a, b, d, e);
    SuffixNoLonger(b, a, e, d);
    assert (a + ":" + d)[|a| + 1..] == d && (b + ":" + e)[|b| + 1..] == e;
  }

  lemma OtherKeysDiffer(c: Contribution, d: Contribution)
    requires !IsCall(c) && !IsCall(d) && KeyOf(c) == KeyOf(d)
    ensures c.sequence == d.sequence
  {
    DecimalDigits(c.sequence);
    DecimalDigits(d.sequence);
    var a := KeyOf(c)[..|KeyOf(c)| - |Decimal(c.sequence)| - 1];
    var b := KeyOf(d)[..|KeyOf(d)| - |Decimal(d.sequence)| - 1];
    assert KeyOf(c) == a + ":" + Decimal(c.sequence);
    assert KeyOf(d) == b + ":" + Decimal(d.sequence);
    SuffixesAgree(a, b, Decimal(c.sequence), Decimal(d.sequence));
    DecimalInjective(c.sequence, d.sequence);
  }

  lemma {:induction false} AloneUnderKey(cs: seq<Contribution>, i: nat)
    requires i < |cs| && forall j :: 0 <= j < |cs| && j != i ==> KeyOf(cs[j]) != KeyOf(cs[i])
    ensures KeyOf(cs[i]) in MergeAll(cs)
    ensures MergeAll(cs)[KeyOf(cs[i])] == Collected(cs[i].item, cs[i].outputIndex, cs[i].sequence)
  {
    var n := |cs| - 1;
    if i < n {
      AloneUnderKey(cs[..n], i);
    } else {
      FirstSeen(cs[..n], KeyOf(cs[i]));
    }
  }

  /** Records that are not calls never share a key among themselves. */
  lemma OthersDoNotCollide(cs: seq<Contribution>, i: nat, j: nat)
    requires StreamOrdered(cs) && i < |cs| && j < |cs| && i != j && !IsCall(cs[i]) && !IsCall(cs[j])
    ensures KeyOf(cs[i]) != KeyOf(cs[j])
  {
    assert if i < j then cs[i].sequence < cs[j].sequence else cs[j].sequence < cs[i].sequence;
    if KeyOf(cs[i]) == KeyOf(cs[j]) { OtherKeysDiffer(cs[i], cs[j]); }
  }

  /** What merging a call into an entry leaves is a record of some call. */
  lemma CallLeavesCall(before: Collected, c: Contribution)
    requires IsCall(c)
    ensures var r := Combine(Some(before), c).item; IsCallRecord(r) && Identity(r).Some?
  {
  }

  /** Once a call came in under a key, and nothing but calls after it, the entry is a record of a call. */
  lemma {:induction false} CallsLeaveCall(cs: seq<Contribution>, k: string, j: nat)
    requires j < |cs| && KeyOf(cs[j]) == k && forall i :: j <= i < |cs| && KeyOf(cs[i]) == k ==> IsCall(cs[i])
    ensures k in MergeAll(cs) && IsCallRecord(MergeAll(cs)[k].item) && Identity(MergeAll(cs)[k].item).Some?
  {
    var n := |cs| - 1;
    if j < n { CallsLeaveCall(cs[..n], k, j); }
    if KeyOf(cs[n]) == k && k in MergeAll(cs[..n]) { CallLeavesCall(MergeAll(cs[..n])[k], cs[n]); }
  }

  /** The record of contribution i is kept, unchanged and in its place. */
  ghost predicate Survives(cs: seq<Contribution>, i: nat)
    requires i < |cs|
  {
    var k := KeyOf(cs[i]);
    k in MergeAll(cs) && MergeAll(cs)[k] == Collected(cs[i].item, cs[i].outputIndex, cs[i].sequence)
  }

  /** Main result on other records: one survives exactly when no call of the stream has its key. */
  lemma SurvivesIff(cs: seq<Contribution>, i: nat)
    requires StreamOrdered(cs) && i < |cs| && !IsCall(cs[i])
    ensures Survives(cs, i) <==> forall j :: 0 <= j < |cs| && IsCall(cs[j]) ==> KeyOf(cs[j]) != KeyOf(cs[i])
  {
    if j: nat :| j < |cs| && IsCall(cs[j]) && KeyOf(cs[j]) == KeyOf(cs[i]) {
      SwallowedRecord(cs, i, j);
    } else {
      forall j | 0 <= j < |cs| && j != i ensures KeyOf(cs[j]) != KeyOf(cs[i]) {
        if !IsCall(cs[j]) { OthersDoNotCollide(cs, i, j); }
      }
      AloneUnderKey(cs, i);
    }
  }

  lemma SwallowedRecord(cs: seq<Contribution>, i: nat, j: nat)
    requires StreamOrdered(cs) && i < |cs| && !IsCall(cs[i])
    requires j < |cs| && IsCall(cs[j]) && KeyOf(cs[j]) == KeyOf(cs[i])
    ensures !Survives(cs, i)
  {
    var k := KeyOf(cs[i]);
    FirstSeen(cs, k);
    var f := FirstIndex(cs, k);
    if f == i {
      forall m | j <= m < |cs| && KeyOf(cs[m]) == k ensures IsCall(cs[m]) {
        if !IsCall(cs[m]) { OthersDoNotCollide(cs, i, m); }
      }
      CallsLeaveCall(cs, k, j);
    }
  }

  lemma EntryNamesKey(cs: seq<Contribution>, k: string)
    requires StreamOrdered(cs) && KeySeparate(cs, k) && k in MergeAll(cs)
    ensures var r := MergeAll(cs)[k].item;
            IsCallRecord(r) && Identity(r).Some? ==> k == CallKey(Identity(r).value)
  {
    FirstSeen(cs, k);
    var i := FirstIndex(cs, k);
    if IsCall(cs[i]) {
      var identity := Identity(cs[i].item).value;
      forall j | 0 <= j < |cs| && KeyOf(cs[j]) == k ensures IsCall(cs[j]) && Identity(cs[j].item) == Some(identity) {
        KeyNamesCall(cs, identity, j);
      }
      CallEntry(cs, k, identity);
    } else {
      SurvivesIff(cs, i);
    }
  }

  // ----- every other property: the last record that has it -----

  /** Contribution j is the last one under the key that has the property. */
  predicate LastWith(cs: seq<Contribution>, k: string, property: string, j: nat) {
    j < |cs| && KeyOf(cs[j]) == k && property in cs[j].item && NoneFrom(cs, k, property, j + 1)
  }

  /** No record under the key from i on has the property. */
  predicate NoneFrom(cs: seq<Contribution>, k: string, property: string, i: nat) {
    forall m :: i <= m < |cs| && KeyOf(cs[m]) == k ==> property !in cs[m].item
  }

  lemma NoneFromSnoc(cs: seq<Contribution>, k: string, property: string, i: nat)
    requires cs != [] && i < |cs|
    ensures var n := |cs| - 1;
            NoneFrom(cs, k, property, i)
            <==> NoneFrom(cs[..n], k, property, i) && !(KeyOf(cs[n]) == k && property in cs[n].item)
  {
    var n := |cs| - 1;
    forall m | i <= m < n ensures cs[..n][m] == cs[m] {}
    if NoneFrom(cs, k, property, i) { assert KeyOf(cs[n]) == k ==> property !in cs[n].item; }
  }

  lemma LastSnoc(cs: seq<Contribution>, k: string, property: string, j: nat)
    requires cs != []
    ensures var n := |cs| - 1;
            var here := KeyOf(cs[n]) == k && property in cs[n].item;
            LastWith(cs, k, property, j) <==> if j == n then here else !here && LastWith(cs[..n], k, property, j)
  {
    var n := |cs| - 1;
    if j < n { NoneFromSnoc(cs, k, property, j + 1); }
  }

  lemma CombineKeepsProperty(before: Option<Collected>, c: Contribution, property: string)
    requires property != "arguments"
    ensures var r := Combine(before, c).item;
            if property in c.item then property in r && r[property] == c.item[property]
            else property in r <==>
                   before.Some? && property in before.value.item && r[property] == before.value.item[property]
  {
  }

  lemma {:induction false} LastIsKept(cs: seq<Contribution>, k: string, property: string, j: nat)
    requires property != "arguments" && LastWith(cs, k, property, j)
    ensures k in MergeAll(cs) && property in MergeAll(cs)[k].item
    ensures MergeAll(cs)[k].item[property] == cs[j].item[property]
  {
    var n := |cs| - 1;
    var init := cs[..n];
    LastSnoc(cs, k, property, j);
    if j < n { LastIsKept(init, k, property, j); }
    if KeyOf(cs[n]) == k {
      CombineKeepsProperty(if k in MergeAll(init) then Some(MergeAll(init)[k]) else None, cs[n], property);
    }
  }

  lemma {:induction false} KeptHasLast(cs: seq<Contribution>, k: string, property: string) returns (j: nat)
    requires property != "arguments" && k in MergeAll(cs) && property in MergeAll(cs)[k].item
    ensures LastWith(cs, k, property, j)
  {
    var n := |cs| - 1;
    var init := cs[..n];
    if KeyOf(cs[n]) == k && property in cs[n].item {
      j := n;
    } else {
      if KeyOf(cs[n]) == k {
        CombineKeepsProperty(if k in MergeAll(init) then Some(MergeAll(init)[k]) else None, cs[n], property);
      }
      j := KeptHasLast(init, k, property);
      LastSnoc(cs, k, property, j);
    }
  }

  /** Apart from the arguments, an entry has exactly the properties its records had, each as it was last given. */
  lemma LastValueWins(cs: seq<Contribution>, k: string, property: string)
    requires k in MergeAll(cs) && property != "arguments"
    ensures property in MergeAll(cs)[k].item <==> exists j: nat :: LastWith(cs, k, property, j)
    ensures forall j: nat :: LastWith(cs, k, property, j) ==>
              property in MergeAll(cs)[k].item && MergeAll(cs)[k].item[property] == cs[j].item[property]
  {
    forall j: nat | LastWith(cs, k, property, j)
      ensures property in MergeAll(cs)[k].item && MergeAll(cs)[k].item[property] == cs[j].item[property]
    {
      LastIsKept(cs, k, property, j);
    }
    if property in MergeAll(cs)[k].item { var j := KeptHasLast(cs, k, property); }
  }

  // ----- one entry per call -----

  /** The value a property was last given under a key, if any. */
  ghost function LastValue(cs: seq<Contribution>, k: string, property: string): Option<Value> {
    if j: nat :| LastWith(cs, k, property, j) then Some(cs[j].item[property]) else None
  }

  /** The call that the last values under a key name: their call_id, else their id, if their type is a call's. */
  ghost function Left(cs: seq<Contribution>, k: string): Option<string> {
    var callId, id := LastValue(cs, k, "call_id"), LastValue(cs, k, "id");
    if LastValue(cs, k, "type") != Some(Text("function_call")) then None
    else if callId.Some? && !callId.value.Null? then Some(Shown(callId.value))
    else if id.Some? && !id.value.Null? then Some(Shown(id.value))
    else None
  }

  lemma LastValueKept(cs: seq<Contribution>, k: string, property: string)
    requires k in MergeAll(cs) && property != "arguments"
    ensures var r := MergeAll(cs)[k].item;
            LastValue(cs, k, property) == if property in r then Some(r[property]) else None
  {
    LastValueWins(cs, k, property);
  }

  /** The entry under the key is a record of the call y. */
  predicate Holds(cs: seq<Contribution>, k: string, y: string) {
    k in MergeAll(cs) && IsCallRecord(MergeAll(cs)[k].item) && Identity(MergeAll(cs)[k].item) == Some(y)
  }

  lemma HoldsIff(cs: seq<Contribution>, k: string, y: string)
    ensures Holds(cs, k, y) <==> Left(cs, k) == Some(y)
  {
    FirstSeen(cs, k);
    if k in MergeAll(cs) {
      LastValueKept(cs, k, "type");
      LastValueKept(cs, k, "call_id");
      LastValueKept(cs, k, "id");
    } else {
      assert forall j: nat :: !LastWith(cs, k, "type", j);
    }
  }

  /** Of two entries of one call one at least sits under a key that is not its own and mixes calls with others. */
  lemma OneIsMisplaced(cs: seq<Contribution>, k: string, l: string, y: string)
    requires StreamOrdered(cs) && k != l && Holds(cs, k, y) && Holds(cs, l, y)
    ensures (k != CallKey(y) && !KeySeparate(cs, k)) || (l != CallKey(y) && !KeySeparate(cs, l))
  {
    if KeySeparate(cs, k) { EntryNamesKey(cs, k); }
    if KeySeparate(cs, l) { EntryNamesKey(cs, l); }
  }

  /**
   * Under k, a key that is not the call's own and mixes calls with others, the last values name the call y; so do
   * those under l.
   */
  ghost predicate Doubled(cs: seq<Contribution>, k: string, l: string, y: string) {
    k != l && k != CallKey(y) && !KeySeparate(cs, k) && Left(cs, k) == Some(y) == Left(cs, l)
  }

  /** Main result on identity: exactly when two entries of the stream are records of one call. */
  lemma SharedIdentityIff(cs: seq<Contribution>, y: string)
    requires StreamOrdered(cs)
    ensures (exists k, l :: k != l && Holds(cs, k, y) && Holds(cs, l, y)) <==> (exists k, l :: Doubled(cs, k, l, y))
  {
    forall k { HoldsIff(cs, k, y); }
    if k, l :| k != l && Holds(cs, k, y) && Holds(cs, l, y) {
      OneIsMisplaced(cs, k, l, y);
      assert Doubled(cs, k, l, y) || Doubled(cs, l, k, y);
    }
    if k, l :| Doubled(cs, k, l, y) { assert Holds(cs, k, y) && Holds(cs, l, y); }
  }

  // ----- the longest arguments -----

  /** The record's arguments replace whatever was collected: they are not text, or the record is not a call. */
  predicate Resets(c: Contribution) {
    "arguments" in c.item && !(IsCallRecord(c.item) && c.item["arguments"].Text?)
  }

  predicate TextUnder(cs: seq<Contribution>, k: string, j: nat) {
    j < |cs| && KeyOf(cs[j]) == k && TextAt(cs[j].item, "arguments").Some?
  }

  /** An arguments text under the key that nothing replaced afterwards. */
  predicate Live(cs: seq<Contribution>, k: string, j: nat) {
    TextUnder(cs, k, j) && forall i :: j < i < |cs| && KeyOf(cs[i]) == k ==> !Resets(cs[i])
  }

  function TextOf(cs: seq<Contribution>, j: nat): string
    requires j < |cs| && TextAt(cs[j].item, "arguments").Some?
  {
    TextAt(cs[j].item, "arguments").value
  }

  function FinalText(cs: seq<Contribution>, k: string): Option<string>
    requires k in MergeAll(cs)
  {
    TextAt(MergeAll(cs)[k].item, "arguments")
  }

  /** What one more record makes of the arguments text. */
  lemma CombineArguments(before: Option<Collected>, c: Contribution)
    ensures var was := if before.Some? then TextAt(before.value.item, "arguments") else None;
            var now := TextAt(c.item, "arguments");
            TextAt(Combine(before, c).item, "arguments") ==
            if "arguments" !in c.item then was
            else if Resets(c) then now
            else if was.Some? && |was.value| > |now.value| then was else now
  {
  }

  lemma {:induction false} NoneUnseen(cs: seq<Contribution>, k: string)
    requires k !in MergeAll(cs)
    ensures forall j: nat :: !TextUnder(cs, k, j)
  {
    FirstSeen(cs, k);
  }

  lemma LiveSnoc(cs: seq<Contribution>, k: string, j: nat)
    requires cs != []
    ensures var n := |cs| - 1;
            Live(cs, k, j) <==> if j == n then TextUnder(cs, k, n)
                                else Live(cs[..n], k, j) && !(KeyOf(cs[n]) == k && Resets(cs[n]))
  {
  }

  /** No live text is longer than the final one. */
  lemma {:induction false} FinalIsLongest(cs: seq<Contribution>, k: string, j: nat)
    requires k in MergeAll(cs) && Live(cs, k, j)
    ensures FinalText(cs, k).Some? && |FinalText(cs, k).value| >= |TextOf(cs, j)|
  {
    var n := |cs| - 1;
    var init := cs[..n];
    LiveSnoc(cs, k, j);
    if j < n {
      if k !in MergeAll(init) { NoneUnseen(init, k); }
      FinalIsLongest(init, k, j);
    }
    if KeyOf(cs[n]) == k {
      CombineArguments(if k in MergeAll(init) then Some(MergeAll(init)[k]) else None, cs[n]);
    }
  }

  /** The final text is a live one. */
  lemma {:induction false} FinalIsLive(cs: seq<Contribution>, k: string) returns (j: nat)
    requires k in MergeAll(cs) && FinalText(cs, k).Some?
    ensures Live(cs, k, j) && FinalText(cs, k) == Some(TextOf(cs, j))
  {
    var n := |cs| - 1;
    var init := cs[..n];
    if KeyOf(cs[n]) == k {
      CombineArguments(if k in MergeAll(init) then Some(MergeAll(init)[k]) else None, cs[n]);
    }
    if KeyOf(cs[n]) == k && TextAt(cs[n].item, "arguments") == FinalText(cs, k) {
      j := n;
    } else {
      j := FinalIsLive(init, k);
      LiveSnoc(cs, k, j);
    }
  }

  /**
   * Main result on arguments: under every key the final text is the longest of those that came since the last record
   * whose arguments are not text (or that is not a call); there is none when no text came since.
   */
  lemma FinalArguments(cs: seq<Contribution>, k: string)
    requires k in MergeAll(cs)
    ensures FinalText(cs, k).Some? <==> exists j: nat :: Live(cs, k, j)
    ensures FinalText(cs, k).Some? ==>
              && (exists j: nat :: Live(cs, k, j) && TextOf(cs, j) == FinalText(cs, k).value)
              && (forall j: nat :: Live(cs, k, j) ==> |TextOf(cs, j)| <= |FinalText(cs, k).value|)
  {
    forall j: nat | Live(cs, k, j) ensures FinalText(cs, k).Some? && |FinalText(cs, k).value| >= |TextOf(cs, j)| {
      FinalIsLongest(cs, k, j);
    }
    if FinalText(cs, k).Some? { var j := FinalIsLive(cs, k); }
  }

  /** The longest text ever seen is kept exactly when none that was replaced is longer than all that came since. */
  lemma LongestKeptIff(cs: seq<Contribution>, k: string)
    requires k in MergeAll(cs)
    ensures (forall j: nat :: TextUnder(cs, k, j) ==>
               FinalText(cs, k).Some? && |TextOf(cs, j)| <= |FinalText(cs, k).value|)
       <==> (forall j: nat :: TextUnder(cs, k, j) ==>
               exists i: nat :: Live(cs, k, i) && |TextOf(cs, i)| >= |TextOf(cs, j)|)
  {
    FinalArguments(cs, k);
  }

  // ----- where the promises end -----

  /** A finished record on the wire. */
  function Done(item: Record): Event { Event(ItemDone, Some(item), None, map[]) }

  function DoneAll(items: seq<Record>): seq<Event> {
    if items == [] then [] else DoneAll(items[..|items| - 1]) + [Done(items[|items| - 1])]
  }

  /** What the second pass merges when the records come one by one. */
  function StreamOf(items: seq<Record>): seq<Contribution> { Contributions(Announced(DoneAll(items)), DoneAll(items)) }

  predicate Typed(items: seq<Record>) { forall i :: 0 <= i < |items| ==> TextAt(items[i], "type").Some? }

  /** One contribution for each record, in order. */
  predicate OneEach(cs: seq<Contribution>, items: seq<Record>) {
    |cs| == |items| && forall i :: 0 <= i < |items| ==> cs[i] == Contribution(items[i], None, i)
  }

  lemma OneMore(cs: seq<Contribution>, items: seq<Record>)
    requires items != [] && OneEach(cs, items[..|items| - 1])
    ensures OneEach(cs + [Contribution(items[|items| - 1], None, |items| - 1)], items)
  {
  }

  lemma DoneContribution(added: map<string, Collected>, events: seq<Event>, item: Record)
    requires TextAt(item, "type").Some?
    ensures Contributions(added, events + [Done(item)])
         == Contributions(added, events) + [Contribution(item, None, |events|)]
  {
    assert (events + [Done(item)])[..|events|] == events;
    assert ContributionOf(added, Done(item), |events|) == Contribution(item, None, |events|);
  }

  lemma {:induction false} DoneContributions(added: map<string, Collected>, items: seq<Record>)
    requires Typed(items)
    ensures |DoneAll(items)| == |items| && OneEach(Contributions(added, DoneAll(items)), items)
  {
    if items != [] {
      var n := |items| - 1;
      DoneContributions(added, items[..n]);
      DoneContribution(added, DoneAll(items[..n]), items[n]);
      OneMore(Contributions(added, DoneAll(items[..n])), items);
    }
  }

  function CallRecord(callId: Value): Record { map["type" := Text("function_call"), "call_id" := callId] }

  /** A later record whose arguments are not text wipes out the text seen before. */
  lemma NonTextArgumentsWin(callId: string, full: string)
    ensures var cs := StreamOf([CallRecord(Text(callId))["arguments" := Text(full)],
                                CallRecord(Text(callId))["arguments" := Null]]);
            CallKey(callId) in MergeAll(cs) && FinalText(cs, CallKey(callId)) == None
  {
    var items := [CallRecord(Text(callId))["arguments" := Text(full)], CallRecord(Text(callId))["arguments" := Null]];
    DoneContributions(Announced(DoneAll(items)), items);
    LastResets(StreamOf(items), CallKey(callId));
  }

  /** Nothing is left of the text when the last record replaces it and brings none. */
  lemma LastResets(cs: seq<Contribution>, k: string)
    requires cs != [] && KeyOf(cs[|cs| - 1]) == k && Resets(cs[|cs| - 1])
    requires TextAt(cs[|cs| - 1].item, "arguments").None?
    ensures k in MergeAll(cs) && FinalText(cs, k) == None
  {
    FirstSeen(cs, k);
    FinalArguments(cs, k);
    forall j: nat ensures !Live(cs, k, j) { assert j < |cs| - 1 ==> !Live(cs, k, j); }
  }

  /** A call whose id spells the key of a nameless record. */
  const SPELLED := "anonymous:sequence:1"

  lemma CollidingKeys(cs: seq<Contribution>)
    requires |cs| >= 2 && cs[1].sequence == 1
    requires IsCall(cs[0]) && Identity(cs[0].item) == Some(SPELLED)
    requires IsCallRecord(cs[1].item) && Identity(cs[1].item) == None
    ensures KeyOf(cs[0]) == KeyOf(cs[1]) == CallKey(SPELLED)
    ensures IsCall(cs[0]) && !IsCall(cs[1]) && !KeySeparate(cs, CallKey(SPELLED))
  {
    assert Decimal(1) == "1";
    assert "function_call:" + SPELLED == "function_call" + ":" + "anonymous" + ":sequence:" + "1";
  }

  /** It swallows that record: two records, one entry. */
  lemma CollidingKeysLoseARecord()
    ensures |MergeAll(StreamOf([CallRecord(Text(SPELLED)), CallRecord(Null)]))| == 1
  {
    var items := [CallRecord(Text(SPELLED)), CallRecord(Null)];
    var cs := StreamOf(items);
    DoneContributions(Announced(DoneAll(items)), items);
    CollidingKeys(cs);
    TwoUnderOneKey(cs, CallKey(SPELLED));
  }

  lemma TwoUnderOneKey(cs: seq<Contribution>, k: string)
    requires |cs| == 2 && KeyOf(cs[0]) == k == KeyOf(cs[1])
    ensures |MergeAll(cs)| == 1
  {
    OneKeyOneEntry(cs, k);
  }

  lemma {:induction false} OneKeyOneEntry(cs: seq<Contribution>, k: string)
    requires cs != [] && forall i :: 0 <= i < |cs| ==> KeyOf(cs[i]) == k
    ensures MergeAll(cs).Keys == {k} && |MergeAll(cs)| == 1
  {
    var n := |cs| - 1;
    assert KeyOf(cs[n]) == k;
    if n > 0 {
      assert forall i :: 0 <= i < n ==> cs[..n][i] == cs[i];
      OneKeyOneEntry(cs[..n], k);
    }
    assert MergeAll(cs).Keys == MergeAll(cs[..n]).Keys + {k};
    SizeOfKeys(MergeAll(cs));
  }

  lemma SizeOfKeys<K, V>(m: map<K, V>)
    ensures |m| == |m.Keys|
  {
  }

  /** After such a collision the entry can pass for another call, which then has two. */
  lemma CollisionSharesIdentity()
    ensures var cs := StreamOf([CallRecord(Text(SPELLED))["id" := Text("z")], CallRecord(Null), CallRecord(Text("z"))]);
            Doubled(cs, CallKey(SPELLED), CallKey("z"), "z")
            && Holds(cs, CallKey(SPELLED), "z") && Holds(cs, CallKey("z"), "z")
  {
    var items := [CallRecord(Text(SPELLED))["id" := Text("z")], CallRecord(Null), CallRecord(Text("z"))];
    var cs := StreamOf(items);
    DoneContributions(Announced(DoneAll(items)), items);
    CollidingKeys(cs);
    ThreeRecords(cs);
    HoldsIff(cs, CallKey(SPELLED), "z");
    HoldsIff(cs, CallKey("z"), "z");
  }

  lemma ThreeRecords(cs: seq<Contribution>)
    requires |cs| == 3 && KeyOf(cs[0]) == KeyOf(cs[1]) == CallKey(SPELLED)
    requires cs[0].item == CallRecord(Text(SPELLED))["id" := Text("z")]
    requires cs[1].item == CallRecord(Null) && cs[2].item == CallRecord(Text("z"))
    ensures CallKey(SPELLED) != CallKey("z")
    ensures Left(cs, CallKey(SPELLED)) == Some("z") == Left(cs, CallKey("z"))
  {
    var k, l := CallKey(SPELLED), CallKey("z");
    if k == l { CallKeyInjective(SPELLED, "z"); }
    assert KeyOf(cs[2]) == l;
    assert LastWith(cs, k, "type", 1) && LastWith(cs, k, "call_id", 1) && LastWith(cs, k, "id", 0);
    assert LastWith(cs, l, "type", 2) && LastWith(cs, l, "call_id", 2);
    OnlyLast(cs, k, "type", 1);
    OnlyLast(cs, k, "call_id", 1);
    OnlyLast(cs, k, "id", 0);
    OnlyLast(cs, l, "type", 2);
    OnlyLast(cs, l, "call_id", 2);
  }

  lemma OnlyLast(cs: seq<Contribution>, k: string, property: string, j: nat)
    requires LastWith(cs, k, property, j)
    ensures LastValue(cs, k, property) == Some(cs[j].item[property])
  {
  }
}
