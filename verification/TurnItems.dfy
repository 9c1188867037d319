/** The items of a turn: calls, their outputs, and what it means for a list to pair them. */
module TurnItems {

  datatype NoteKind = Text | Reasoning | Program | HostedSearch | Rest

  /**
   * An input or output item. `search` tells client tool searches from function calls; a note is anything that
   * is neither a call nor an output.
   */
  datatype Item =
    | Note(kind: NoteKind, text: string)
    | Call(search: bool, id: string, name: string, arguments: string)
    | Output(search: bool, id: string, text: string)

  predicate Answers(o: Item, c: Item) {
    o.Output? && c.Call? && o.id == c.id && o.search == c.search
  }

  /** Ids of calls and outputs. */
  function Ids(items: seq<Item>): set<string> {
    set i | 0 <= i < |items| && !items[i].Note? :: items[i].id
  }

  predicate NoRepeats(items: seq<Item>) {
    && (forall i, j :: 0 <= i < j < |items| && items[i].Call? && items[j].Call? ==> items[i].id != items[j].id)
    && (forall i, j :: 0 <= i < j < |items| && items[i].Output? && items[j].Output? ==> items[i].id != items[j].id)
  }

  predicate CallAnswered(items: seq<Item>, i: nat)
    requires i < |items|
  {
    items[i].Call? ==> exists j :: i < j < |items| && Answers(items[j], items[i])
  }

  predicate OutputCalled(items: seq<Item>, j: nat)
    requires j < |items|
  {
    items[j].Output? ==> exists i :: 0 <= i < j && Answers(items[j], items[i])
  }

  /** Every call has exactly one later output, every output an earlier call, and no id occurs twice. */
  predicate Paired(items: seq<Item>) {
    && NoRepeats(items)
    && (forall i :: 0 <= i < |items| ==> CallAnswered(items, i) && OutputCalled(items, i))
  }

  predicate OnlyNotes(items: seq<Item>) { forall i :: 0 <= i < |items| ==> items[i].Note? }

  lemma NotesArePaired(items: seq<Item>)
    requires OnlyNotes(items)
    ensures Paired(items) && Ids(items) == {}
  {
  }

  lemma IdsConcat(a: seq<Item>, b: seq<Item>)
    ensures Ids(a + b) == Ids(a) + Ids(b)
  {
    var c := a + b;
    assert forall i :: 0 <= i < |a| ==> c[i] == a[i];
    assert forall i :: 0 <= i < |b| ==> c[|a| + i] == b[i];
    forall x ensures x in Ids(c) <==> x in Ids(a) || x in Ids(b) {
      if x in Ids(c) {
        var i :| 0 <= i < |c| && !c[i].Note? && c[i].id == x;
        assert if i < |a| then c[i] == a[i] else c[i] == b[i - |a|];
      }
      if x in Ids(a) {
        var i :| 0 <= i < |a| && !a[i].Note? && a[i].id == x;
        assert c[i].id == x;
      }
      if x in Ids(b) {
        var i :| 0 <= i < |b| && !b[i].Note? && b[i].id == x;
        assert c[|a| + i].id == x;
      }
    }
  }

  lemma IdIn(items: seq<Item>, i: nat)
    requires i < |items| && !items[i].Note?
    ensures items[i].id in Ids(items)
  {
  }

  lemma NoRepeatsConcat(a: seq<Item>, b: seq<Item>)
    requires NoRepeats(a) && NoRepeats(b) && Ids(a) !! Ids(b)
    ensures NoRepeats(a + b)
  {
    var c := a + b;
    forall i, j | 0 <= i < j < |c| && !c[i].Note? && !c[j].Note? && c[i].Call? == c[j].Call?
      ensures c[i].id != c[j].id
    {
      if i < |a| && j >= |a| {
        IdIn(a, i);
        IdIn(b, j - |a|);
      }
    }
  }

  /** Lists with different ids can be put one after the other. */
  lemma PairedConcat(a: seq<Item>, b: seq<Item>)
    requires Paired(a) && Paired(b) && Ids(a) !! Ids(b)
    ensures Paired(a + b)
  {
    var c := a + b;
    NoRepeatsConcat(a, b);
    forall i | 0 <= i < |c| ensures CallAnswered(c, i) && OutputCalled(c, i) {
      if i < |a| {
        AnsweredInFront(a, b, i);
      } else {
        AnsweredBehind(a, b, i - |a|);
      }
    }
  }

  lemma AnsweredInFront(a: seq<Item>, b: seq<Item>, i: nat)
    requires i < |a| && CallAnswered(a, i) && OutputCalled(a, i)
    ensures CallAnswered(a + b, i) && OutputCalled(a + b, i)
  {
    var c := a + b;
    if a[i].Call? {
      var j :| i < j < |a| && Answers(a[j], a[i]);
      assert Answers(c[j], c[i]);
    }
    if a[i].Output? {
      var j :| 0 <= j < i && Answers(a[i], a[j]);
      assert Answers(c[i], c[j]);
    }
  }

  lemma AnsweredBehind(a: seq<Item>, b: seq<Item>, i: nat)
    requires i < |b| && CallAnswered(b, i) && OutputCalled(b, i)
    ensures CallAnswered(a + b, |a| + i) && OutputCalled(a + b, |a| + i)
  {
    var c, n := a + b, |a|;
    if b[i].Call? {
      var j :| i < j < |b| && Answers(b[j], b[i]);
      assert Answers(c[n + j], c[n + i]);
    }
    if b[i].Output? {
      var j :| 0 <= j < i && Answers(b[i], b[j]);
      assert Answers(c[n + i], c[n + j]);
    }
  }

  // ----- one round: what the provider sent, then one output per call -----

  function CallsIn(items: seq<Item>): (calls: seq<Item>)
    ensures forall k :: 0 <= k < |calls| ==> calls[k].Call?
  {
    if items == [] then [] else
      CallsIn(items[..|items| - 1]) + if items[|items| - 1].Call? then [items[|items| - 1]] else []
  }

  /** The k-th output answers the k-th call. */
  predicate OneOutputEach(calls: seq<Item>, outputs: seq<Item>) {
    |outputs| == |calls| && forall k :: 0 <= k < |calls| ==> Answers(outputs[k], calls[k])
  }

  predicate DistinctIds(calls: seq<Item>) {
    forall i, j :: 0 <= i < j < |calls| && calls[i].Call? && calls[j].Call? ==> calls[i].id != calls[j].id
  }

  lemma {:induction false} CallsInMembers(items: seq<Item>)
    ensures forall x :: x in CallsIn(items) <==> x in items && x.Call?
  {
    if items != [] {
      CallsInMembers(items[..|items| - 1]);
      assert items == items[..|items| - 1] + [items[|items| - 1]];
    }
  }

  lemma CallsSnoc(items: seq<Item>)
    requires items != []
    ensures var last := items[|items| - 1];
            CallsIn(items) == CallsIn(items[..|items| - 1]) + if last.Call? then [last] else []
  {
  }

  lemma DistinctSnoc(calls: seq<Item>, more: seq<Item>)
    requires DistinctIds(calls + more)
    ensures DistinctIds(calls)
    ensures forall k, m :: 0 <= k < |calls| && 0 <= m < |more| && calls[k].Call? && more[m].Call? ==>
              calls[k].id != more[m].id
  {
    var all := calls + more;
    forall i, j | 0 <= i < j < |calls| && calls[i].Call? && calls[j].Call? ensures calls[i].id != calls[j].id {
      assert all[i].id != all[j].id;
    }
    forall k, m | 0 <= k < |calls| && 0 <= m < |more| && calls[k].Call? && more[m].Call?
      ensures calls[k].id != more[m].id
    {
      assert all[k].id != all[|calls| + m].id;
    }
  }

  lemma IsCallIn(items: seq<Item>, i: nat) returns (k: nat)
    requires i < |items| && items[i].Call?
    ensures k < |CallsIn(items)| && CallsIn(items)[k] == items[i]
  {
    CallsInMembers(items);
    assert items[i] in CallsIn(items);
    k :| 0 <= k < |CallsIn(items)| && CallsIn(items)[k] == items[i];
  }

  lemma {:induction false} CallsInDistinct(items: seq<Item>)
    requires DistinctIds(CallsIn(items))
    ensures DistinctIds(items)
  {
    if items != [] {
      var n := |items| - 1;
      var last := if items[n].Call? then [items[n]] else [];
      CallsSnoc(items);
      DistinctSnoc(CallsIn(items[..n]), last);
      CallsInDistinct(items[..n]);
      forall i | 0 <= i < n && items[i].Call? && items[n].Call? ensures items[i].id != items[n].id {
        var k := IsCallIn(items[..n], i);
        assert CallsIn(items[..n])[k].id != last[0].id;
      }
    }
  }

  /** A response followed by one output per call is paired. */
  lemma RoundIsPaired(response: seq<Item>, outputs: seq<Item>)
    requires NoOutputs(response)
    requires DistinctIds(CallsIn(response)) && OneOutputEach(CallsIn(response), outputs)
    ensures Paired(response + outputs) && Ids(response + outputs) == Ids(response)
  {
    var round := response + outputs;
    CallsInDistinct(response);
    forall i | 0 <= i < |round| ensures CallAnswered(round, i) && OutputCalled(round, i) {
      if i < |response| {
        RoundAnswered(response, outputs, i);
      } else {
        RoundCalled(response, outputs, i - |response|);
      }
    }
    RoundIds(response, outputs);
  }

  predicate NoOutputs(items: seq<Item>) { forall i :: 0 <= i < |items| ==> !items[i].Output? }

  lemma RoundAnswered(response: seq<Item>, outputs: seq<Item>, i: nat)
    requires i < |response| && NoOutputs(response) && OneOutputEach(CallsIn(response), outputs)
    ensures CallAnswered(response + outputs, i) && OutputCalled(response + outputs, i)
  {
    var calls, round := CallsIn(response), response + outputs;
    if response[i].Call? {
      CallsInMembers(response);
      assert response[i] in calls;
      var k :| 0 <= k < |calls| && calls[k] == response[i];
      assert round[|response| + k] == outputs[k];
      assert Answers(round[|response| + k], round[i]);
    }
  }

  lemma RoundCalled(response: seq<Item>, outputs: seq<Item>, k: nat)
    requires k < |outputs| && OneOutputEach(CallsIn(response), outputs)
    ensures CallAnswered(response + outputs, |response| + k) && OutputCalled(response + outputs, |response| + k)
  {
    var calls, round := CallsIn(response), response + outputs;
    CallsInMembers(response);
    assert Answers(outputs[k], calls[k]) && calls[k] in calls;
    var j :| 0 <= j < |response| && response[j] == calls[k];
    assert Answers(round[|response| + k], round[j]);
  }

  lemma RoundIds(response: seq<Item>, outputs: seq<Item>)
    requires OneOutputEach(CallsIn(response), outputs)
    ensures Ids(response + outputs) == Ids(response)
  {
    var calls := CallsIn(response);
    CallsInMembers(response);
    IdsConcat(response, outputs);
    forall x | x in Ids(outputs) ensures x in Ids(response) {
      var k :| 0 <= k < |outputs| && !outputs[k].Note? && outputs[k].id == x;
      assert Answers(outputs[k], calls[k]) && calls[k] in calls;
      var i :| 0 <= i < |response| && response[i] == calls[k];
      IdIn(response, i);
    }
  }

  // ----- replaying a turn's exchanges -----

  datatype Exchange = Exchange(callId: string, name: string, arguments: string, output: string)

  function SizeOf(e: Exchange): nat { |e.output| + |e.arguments| + |e.name| }

  function TotalSize(exchanges: seq<Exchange>): nat {
    if exchanges == [] then 0 else SizeOf(exchanges[0]) + TotalSize(exchanges[1..])
  }

  /** A plain call and its output, in chronological order. */
  function Pairs(exchanges: seq<Exchange>): seq<Item> {
    if exchanges == [] then [] else
      var e := exchanges[|exchanges| - 1];
      Pairs(exchanges[..|exchanges| - 1])
      + [Call(false, e.callId, e.name, e.arguments), Output(false, e.callId, e.output)]
  }

  function ExchangeIds(exchanges: seq<Exchange>): set<string> {
    set i | 0 <= i < |exchanges| :: exchanges[i].callId
  }

  predicate DistinctExchanges(exchanges: seq<Exchange>) {
    forall i, j :: 0 <= i < j < |exchanges| ==> exchanges[i].callId != exchanges[j].callId
  }

  lemma {:induction false} PairsArePaired(exchanges: seq<Exchange>)
    requires DistinctExchanges(exchanges)
    ensures Paired(Pairs(exchanges)) && Ids(Pairs(exchanges)) == ExchangeIds(exchanges)
  {
    if exchanges != [] {
      var n := |exchanges| - 1;
      var init, e := exchanges[..n], exchanges[n];
      PairsArePaired(init);
      var pair := [Call(false, e.callId, e.name, e.arguments), Output(false, e.callId, e.output)];
      assert Answers(pair[1], pair[0]);
      assert Paired(pair) && Ids(pair) == {e.callId} by {
        assert pair[0].id in Ids(pair);
      }
      assert exchanges == init + [e];
      assert ExchangeIds(exchanges) == ExchangeIds(init) + {e.callId};
      PairedConcat(Pairs(init), pair);
      IdsConcat(Pairs(init), pair);
    }
  }

  /** The exchanges from k on are the most recent ones that fit the budget together. */
  predicate FitsFrom(exchanges: seq<Exchange>, budget: nat, k: nat) {
    && k <= |exchanges|
    && TotalSize(exchanges[k..]) <= budget
    && (k > 0 ==> TotalSize(exchanges[k - 1..]) > budget)
  }

  function ReplayFrom(exchanges: seq<Exchange>, budget: nat, k: nat): (r: nat)
    requires k <= |exchanges| && TotalSize(exchanges[k..]) <= budget
    ensures r <= k && FitsFrom(exchanges, budget, r)
  {
    if k == 0 then 0 else
      assert exchanges[k - 1..][1..] == exchanges[k..];
      if TotalSize(exchanges[k - 1..]) > budget then k else ReplayFrom(exchanges, budget, k - 1)
  }

  /** Newest first within the budget, emitted oldest first. */
  method BuildTurnToolReplayItems(exchanges: seq<Exchange>, budgetChars: nat)
      returns (items: seq<Item>, replayed: nat, omitted: nat, chars: nat)
    ensures replayed <= |exchanges| && omitted == |exchanges| - replayed
    ensures FitsFrom(exchanges, budgetChars, omitted)
    ensures items == Pairs(exchanges[omitted..]) && chars == TotalSize(exchanges[omitted..])
  {
    var selected: seq<Exchange> := [];
    chars := 0;
    var index: nat := |exchanges|;
    while index > 0
      invariant index <= |exchanges| && selected == exchanges[index..] && |selected| == |exchanges| - index
      invariant chars == TotalSize(exchanges[index..]) <= budgetChars
    {
      var exchange := exchanges[index - 1];
      var size := |exchange.output| + |exchange.arguments| + |exchange.name|;
      assert exchanges[index - 1..][1..] == exchanges[index..];
      if chars + size > budgetChars { break; }
      chars := chars + size;
      selected := [exchange] + selected;
      index := index - 1;
    }
    items := [];
    for i := 0 to |selected|
      invariant items == Pairs(selected[..i])
    {
      assert selected[..i + 1][..i] == selected[..i];
      var e := selected[i];
      items := items + [Call(false, e.callId, e.name, e.arguments), Output(false, e.callId, e.output)];
    }
    assert selected[..|selected|] == selected;
    replayed, omitted := |selected|, |exchanges| - |selected|;
  }
}
