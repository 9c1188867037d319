/** What the collector makes of the events of a stream: which records are finished, and with what in them. */
module StreamCalls {
  import opened Options
  import opened StreamItems

  /** The collected records of a stream, before they are put in order. */
  function Merged(events: seq<Event>): map<string, Collected> {
    MergeAll(Contributions(Announced(events), events))
  }

  predicate IsDone(e: Event) { e.kind == ItemDone || e.kind == ArgumentsDone }

  /** No event but the k-th, if any, tells of something finished. */
  predicate OnlyDone(events: seq<Event>, k: nat) {
    forall i :: 0 <= i < |events| && i != k ==> !IsDone(events[i])
  }

  /** The event shows a function call under the item id. */
  predicate Shows(e: Event, id: string) {
    && e.kind in {ItemAdded, ItemDone} && e.item.Some?
    && "type" in e.item.value && e.item.value["type"] == Text("function_call")
    && "id" in e.item.value && e.item.value["id"] == Text(id)
  }

  predicate ShownLast(events: seq<Event>, m: nat, id: string) {
    && m < |events| && Shows(events[m], id)
    && forall i :: m < i < |events| ==> !Shows(events[i], id)
  }

  predicate NeverShown(events: seq<Event>, id: string) {
    forall i :: 0 <= i < |events| ==> !Shows(events[i], id)
  }

  // ----- what was announced -----

  lemma AnnounceSnoc(events: seq<Event>, e: Event)
    ensures Announced(events + [e]) == Announce(Announced(events), e, |events|)
  {
    assert (events + [e])[..|events|] == events;
  }

  lemma AnnounceIff(added: map<string, Collected>, e: Event, sequence: nat, id: string)
    requires id != ""
    ensures var after := Announce(added, e, sequence);
            if Shows(e, id) then id in after && after[id] == Collected(e.item.value, e.outputIndex, sequence)
            else (id in after <==> id in added) && (id in added ==> after[id] == added[id])
  {
  }

  /** Of an item id the last announcement counts, wherever in the stream it stands. */
  lemma {:induction false} AnnouncedLast(events: seq<Event>, id: string, m: nat)
    requires id != ""
    ensures NeverShown(events, id) ==> id !in Announced(events)
    ensures ShownLast(events, m, id) ==>
              id in Announced(events)
              && Announced(events)[id] == Collected(events[m].item.value, events[m].outputIndex, m)
  {
    if events != [] {
      var init, last := events[..|events| - 1], events[|events| - 1];
      assert events == init + [last];
      AnnouncedLast(init, id, m);
      AnnounceSnoc(init, last);
      AnnounceIff(Announced(init), last, |init|, id);
      assert forall i :: 0 <= i < |init| ==> init[i] == events[i];
    }
  }

  // ----- what is finished -----

  lemma {:induction false} NoContribution(added: map<string, Collected>, events: seq<Event>)
    requires forall i :: 0 <= i < |events| ==> Finished(added, events[i]).None?
    ensures Contributions(added, events) == []
  {
    if events != [] { NoContribution(added, events[..|events| - 1]); }
  }

  lemma {:induction false} OneContribution(added: map<string, Collected>, events: seq<Event>, k: nat)
    requires k < |events| && forall i :: 0 <= i < |events| && i != k ==> Finished(added, events[i]).None?
    ensures Contributions(added, events)
         == if Finished(added, events[k]).None? then [] else [ContributionOf(added, events[k], k)]
  {
    var n := |events| - 1;
    if k == n {
      NoContribution(added, events[..n]);
    } else {
      OneContribution(added, events[..n], k);
    }
  }

  lemma OneRecord(c: Contribution)
    ensures |MergeAll([c])| == 1 && MergeAll([c]).Values == {Collected(c.item, c.outputIndex, c.sequence)}
  {
    var c0 := Collected(c.item, c.outputIndex, c.sequence);
    assert [c][..0] == [] && MergeAll([c]) == map[KeyOf(c) := c0];
    assert MergeAll([c])[KeyOf(c)] == c0;
  }

  /** Announcements alone collect nothing. */
  lemma NothingDone(events: seq<Event>)
    requires forall i :: 0 <= i < |events| ==> !IsDone(events[i])
    ensures Merged(events) == map[]
  {
    NoContribution(Announced(events), events);
  }

  /** A lone finished item is collected as it is, if it says what type it is. */
  lemma LoneItem(events: seq<Event>, k: nat)
    requires k < |events| && OnlyDone(events, k) && IsDone(events[k]) && events[k].item.Some?
    ensures var item := events[k].item.value;
            if "type" in item && item["type"].Text?
            then |Merged(events)| == 1 && Merged(events).Values == {Collected(item, events[k].outputIndex, k)}
            else Merged(events) == map[]
  {
    OneContribution(Announced(events), events, k);
    if Finished(Announced(events), events[k]).Some? { OneRecord(ContributionOf(Announced(events), events[k], k)); }
  }

  /** The event's own text under the key, or what the announcement has. */
  function TextOf(data: Record, base: Record, key: string): string {
    if key in data && data[key].Text? then data[key].text
    else if key in base && base[key].Text? then base[key].text
    else ""
  }

  /** What was announced last under the item id, if anything was. */
  predicate Base(events: seq<Event>, id: string, base: Record, index: Option<nat>) {
    || (NeverShown(events, id) && base == map[] && index.None?)
    || exists m :: 0 <= m < |events| && ShownLast(events, m, id) && events[m].item == Some(base)
                   && events[m].outputIndex == index
  }

  /**
   * A lone arguments.done collects the announced call, with the text it brings as arguments; its own call id, name and
   * place in the output come before the announced ones, and nothing is collected for want of an id, a name or a text.
   */
  lemma LoneArguments(events: seq<Event>, k: nat, id: string, base: Record, index: Option<nat>)
    requires k < |events| && OnlyDone(events, k) && events[k].kind == ArgumentsDone && events[k].item.None?
    requires "item_id" in events[k].data && events[k].data["item_id"] == Text(id) && id != ""
    requires Base(events, id, base, index)
    ensures var e := events[k];
            var callId, name := TextOf(e.data, base, "call_id"), TextOf(e.data, base, "name");
            if callId != "" && name != "" && "arguments" in e.data && e.data["arguments"].Text? then
              |Merged(events)| == 1
              && Merged(events).Values
                 == {Collected(base["type" := Text("function_call")]["id" := Text(id)]["call_id" := Text(callId)]
                                   ["name" := Text(name)]["arguments" := e.data["arguments"]],
                               if e.outputIndex.Some? then e.outputIndex else index, k)}
            else Merged(events) == map[]
  {
    var added, e := Announced(events), events[k];
    KnownIs(events, k, id, base, index);
    OneContribution(added, events, k);
    FinishedIs(added, e, id, base);
    if Finished(added, e).Some? { OneRecord(ContributionOf(added, e, k)); }
  }

  lemma KnownIs(events: seq<Event>, k: nat, id: string, base: Record, index: Option<nat>)
    requires k < |events| && events[k].kind == ArgumentsDone && events[k].item.None?
    requires "item_id" in events[k].data && events[k].data["item_id"] == Text(id) && id != ""
    requires Base(events, id, base, index)
    ensures var known := AddedFor(Announced(events), events[k]);
            base == (if known.Some? then known.value.item else map[])
            && index == (if known.Some? then known.value.outputIndex else None)
  {
    if NeverShown(events, id) {
      AnnouncedLast(events, id, 0);
    } else {
      var m: nat :| m < |events| && ShownLast(events, m, id) && events[m].item == Some(base)
                    && events[m].outputIndex == index;
      AnnouncedLast(events, id, m);
    }
  }

  lemma FinishedIs(added: map<string, Collected>, e: Event, id: string, base: Record)
    requires e.kind == ArgumentsDone && e.item.None? && id != ""
    requires "item_id" in e.data && e.data["item_id"] == Text(id)
    requires var known := AddedFor(added, e); base == if known.Some? then known.value.item else map[]
    ensures var callId, name := TextOf(e.data, base, "call_id"), TextOf(e.data, base, "name");
            Finished(added, e)
            == if callId != "" && name != "" && "arguments" in e.data && e.data["arguments"].Text? then
                 Some(base["type" := Text("function_call")]["id" := Text(id)]["call_id" := Text(callId)]
                          ["name" := Text(name)]["arguments" := e.data["arguments"]])
               else None
  {
    var callId, name := TextOf(e.data, base, "call_id"), TextOf(e.data, base, "name");
    if "arguments" in e.data && e.data["arguments"].Text? {
      FiveSet(base, Text("function_call"), Text(id), Text(callId), Text(name), e.data["arguments"]);
    }
  }

  lemma FiveSet(base: Record, type_: Value, id: Value, callId: Value, name: Value, arguments: Value)
    ensures base + map["type" := type_, "id" := id, "call_id" := callId, "name" := name, "arguments" := arguments]
         == base["type" := type_]["id" := id]["call_id" := callId]["name" := name]["arguments" := arguments]
  {
  }

  /** Without an item id it collects nothing. */
  lemma NamelessArguments(events: seq<Event>, k: nat)
    requires k < |events| && OnlyDone(events, k) && events[k].kind == ArgumentsDone && events[k].item.None?
    requires "item_id" in events[k].data && events[k].data["item_id"].Text? ==> events[k].data["item_id"].text == ""
    ensures Merged(events) == map[]
  {
    OneContribution(Announced(events), events, k);
  }
}
