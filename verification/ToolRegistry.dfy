/** The per-turn tool registry, its preview, and the discovery budget of a turn. */
module ToolRegistry {
  import opened Options

  /** A function declaration: its name, its JSON text, and whether its parameter schema is supported. */
  datatype Function = Function(name: string, text: string, supported: bool)

  datatype Tool = Plain(f: Function) | Namespace(name: string, functions: seq<Function>) | OtherTool

  datatype Entry = Entry(f: Function, namespace: Option<string>)

  datatype Delta = Delta(newFunctions: set<string>, newNamespaces: set<string>, alreadyLoaded: set<string>, bytes: nat)

  datatype Preview = Loads(delta: Delta) | Refused

  /** UTF-8 length, character by character. */
  function Bytes(s: string): nat {
    if s == [] then 0 else Bytes(s[..|s| - 1]) + CharBytes(s[|s| - 1])
  }

  function CharBytes(c: char): nat {
    if c < '\U{80}' then 1 else if c < '\U{800}' then 2 else if c < '\U{10000}' then 3 else 4
  }

  function Flatten(tools: seq<Tool>): seq<Entry> {
    if tools == [] then [] else
      Flatten(tools[..|tools| - 1]) +
      match tools[|tools| - 1]
      case Plain(f) => [Entry(f, None)]
      case Namespace(name, fs) => seq(|fs|, i requires 0 <= i < |fs| => Entry(fs[i], Some(name)))
      case OtherTool => []
  }

  // ----- sums over sets -----

  ghost function Sum<T(!new)>(s: set<T>, weight: T -> nat): nat {
    if s == {} then 0 else
      var x :| x in s;
      weight(x) + Sum(s - {x}, weight)
  }

  lemma {:induction false} SumWithout<T(!new)>(s: set<T>, x: T, weight: T -> nat)
    requires x in s
    ensures Sum(s, weight) == weight(x) + Sum(s - {x}, weight)
  {
    var y :| y in s && Sum(s, weight) == weight(y) + Sum(s - {y}, weight);
    if y != x {
      SumWithout(s - {y}, x, weight);
      SumWithout(s - {x}, y, weight);
      assert s - {y} - {x} == s - {x} - {y};
    }
  }

  lemma SumAdd<T(!new)>(s: set<T>, x: T, weight: T -> nat)
    requires x !in s
    ensures Sum(s + {x}, weight) == Sum(s, weight) + weight(x)
  {
    SumWithout(s + {x}, x, weight);
    assert s + {x} - {x} == s;
  }

  // ----- contents as values -----

  datatype Contents = Contents(tools: map<string, Entry>, namespaces: set<string>)

  /** Functions are filed under their own names, and only supported schemas get in. */
  ghost predicate ProperContents(c: Contents) {
    forall k :: k in c.tools ==> c.tools[k].f.name == k && c.tools[k].f.supported
  }

  ghost function EntryBytes(): Entry -> nat { (e: Entry) => Bytes(e.f.text) }

  ghost function NameBytes(): string -> nat { (s: string) => Bytes(s) }

  /** The schema bytes a registry holds. */
  ghost function Weight(c: Contents): nat {
    Sum(c.tools.Values, EntryBytes()) + Sum(c.namespaces, NameBytes())
  }

  /** Two entries of one name carry one definition. */
  predicate Agree(a: Entry, b: Entry) { a.f.name == b.f.name ==> a == b }

  /** The entry's schema is supported, and its name is free or already stands for it. */
  predicate Fits(c: Contents, e: Entry) {
    e.f.supported && (e.f.name in c.tools ==> c.tools[e.f.name] == e)
  }

  /** A batch that can be loaded: every entry fits, and no two entries conflict. */
  ghost predicate Loadable(c: Contents, entries: seq<Entry>) {
    && (forall i :: 0 <= i < |entries| ==> Fits(c, entries[i]))
    && (forall i, j :: 0 <= i < j < |entries| ==> Agree(entries[i], entries[j]))
  }

  /** `entry.namespaceName` is truthy. */
  predicate Named(e: Entry) { e.namespace.Some? && e.namespace.value != "" }

  /** The registry with one more entry, unless its name is taken. */
  function LoadOne(c: Contents, e: Entry): Contents {
    if e.f.name in c.tools then c
    else Contents(c.tools[e.f.name := e], if Named(e) then c.namespaces + {e.namespace.value} else c.namespaces)
  }

  /** The registry after a batch is loaded. */
  function Loaded(c: Contents, entries: seq<Entry>): Contents {
    if entries == [] then c else LoadOne(Loaded(c, entries[..|entries| - 1]), entries[|entries| - 1])
  }

  /** A new function weighs its text, and its namespace's name if that is new too. */
  lemma LoadOneWeight(c: Contents, e: Entry)
    requires ProperContents(c) && e.f.name !in c.tools
    ensures Weight(LoadOne(c, e)) == Weight(c) + Bytes(e.f.text)
              + if Named(e) && e.namespace.value !in c.namespaces then Bytes(e.namespace.value) else 0
  {
    var d := LoadOne(c, e);
    assert e !in c.tools.Values;
    assert d.tools.Values == c.tools.Values + {e} by {
      assert d.tools[e.f.name] == e;
      forall x | x in c.tools.Values ensures x in d.tools.Values {
        var k :| k in c.tools && c.tools[k] == x;
        assert k in d.tools && d.tools[k] == x;
      }
    }
    SumAdd(c.tools.Values, e, EntryBytes());
    if Named(e) && e.namespace.value !in c.namespaces {
      SumAdd(c.namespaces, e.namespace.value, NameBytes());
    } else {
      assert d.namespaces == c.namespaces;
    }
  }

  lemma {:induction false} LoadedGrows(c: Contents, entries: seq<Entry>)
    ensures forall k :: k in c.tools ==> k in Loaded(c, entries).tools && Loaded(c, entries).tools[k] == c.tools[k]
    ensures c.namespaces <= Loaded(c, entries).namespaces
  {
    if entries != [] { LoadedGrows(c, entries[..|entries| - 1]); }
  }

  /** What is filed under a name comes from the registry or from the batch. */
  lemma {:induction false} LoadedFrom(c: Contents, entries: seq<Entry>, k: string)
    requires k in Loaded(c, entries).tools
    ensures if k in c.tools then Loaded(c, entries).tools[k] == c.tools[k]
            else exists j :: 0 <= j < |entries| && entries[j].f.name == k && entries[j] == Loaded(c, entries).tools[k]
  {
    if entries != [] {
      var n := |entries| - 1;
      if k in Loaded(c, entries[..n]).tools {
        LoadedFrom(c, entries[..n], k);
      } else {
        LoadedGrows(c, entries[..n]);
        assert entries[n].f.name == k;
      }
    }
  }

  lemma {:induction false} LoadedHas(c: Contents, entries: seq<Entry>, i: nat)
    requires i < |entries|
    ensures entries[i].f.name in Loaded(c, entries).tools
  {
    var n := |entries| - 1;
    if i < n { LoadedHas(c, entries[..n], i); }
  }

  /** Checking the next entry against what is loaded so far decides loadability. */
  lemma LoadableSnoc(c: Contents, init: seq<Entry>, e: Entry)
    requires Loadable(c, init)
    ensures Loadable(c, init + [e]) <==> Fits(Loaded(c, init), e)
  {
    var longer := init + [e];
    if e.f.name in Loaded(c, init).tools { LoadedFrom(c, init, e.f.name); }
    LoadedGrows(c, init);
    if Loadable(c, longer) {
      assert Fits(c, longer[|init|]);
      forall j | 0 <= j < |init| ensures Agree(init[j], e) { assert Agree(longer[j], longer[|init|]); }
    }
    if Fits(Loaded(c, init), e) {
      forall j | 0 <= j < |init| ensures Agree(init[j], e) {
        LoadedHas(c, init, j);
        if init[j].f.name == e.f.name { SameNameSameEntry(c, init, j, e); }
      }
    }
  }

  lemma SameNameSameEntry(c: Contents, entries: seq<Entry>, j: nat, e: Entry)
    requires Loadable(c, entries) && j < |entries| && entries[j].f.name in Loaded(c, entries).tools
    requires Loaded(c, entries).tools[entries[j].f.name] == e
    ensures entries[j] == e
  {
    var k := entries[j].f.name;
    LoadedFrom(c, entries, k);
    assert Fits(c, entries[j]);
    if k !in c.tools {
      var i :| 0 <= i < |entries| && entries[i].f.name == k && entries[i] == e;
      assert if i < j then Agree(entries[i], entries[j]) else i == j || Agree(entries[j], entries[i]);
    }
  }

  lemma LoadablePrefix(c: Contents, entries: seq<Entry>, n: nat)
    requires n <= |entries| && Loadable(c, entries)
    ensures Loadable(c, entries[..n])
  {
  }

  lemma {:induction false} LoadedProper(c: Contents, entries: seq<Entry>)
    requires ProperContents(c) && forall i :: 0 <= i < |entries| ==> entries[i].f.supported
    ensures ProperContents(Loaded(c, entries))
  {
    if entries != [] { LoadedProper(c, entries[..|entries| - 1]); }
  }

  /** Loading a batch again changes nothing. */
  lemma ReloadIsNoOp(c: Contents, entries: seq<Entry>)
    requires ProperContents(c) && Loadable(c, entries)
    ensures Loadable(Loaded(c, entries), entries)
    ensures Loaded(Loaded(c, entries), entries) == Loaded(c, entries)
  {
    forall i | 0 <= i < |entries| ensures Fits(Loaded(c, entries), entries[i]) {
      assert Fits(c, entries[i]);
      LoadedHas(c, entries, i);
      SameNameSameEntry(c, entries, i, Loaded(c, entries).tools[entries[i].f.name]);
    }
    forall i | 0 <= i < |entries| ensures entries[i].f.name in Loaded(c, entries).tools { LoadedHas(c, entries, i); }
    AllPresent(Loaded(c, entries), entries);
  }

  lemma {:induction false} AllPresent(c: Contents, entries: seq<Entry>)
    requires forall i :: 0 <= i < |entries| ==> entries[i].f.name in c.tools
    ensures Loaded(c, entries) == c
  {
    if entries != [] { AllPresent(c, entries[..|entries| - 1]); }
  }

  // ----- the registry -----

  /** What a preview promises about loading the entries. */
  ghost predicate Foretells(c: Contents, entries: seq<Entry>, d: Delta) {
    var after := Loaded(c, entries);
    && d.newFunctions == after.tools.Keys - c.tools.Keys
    && d.newNamespaces == after.namespaces - c.namespaces
    && d.bytes == Weight(after) - Weight(c)
    && d.alreadyLoaded == RepeatedNames(c, entries)
  }

  /** The names a batch offers again: of functions the registry has, or that the batch brought before. */
  function RepeatedNames(c: Contents, entries: seq<Entry>): set<string> {
    if entries == [] then {} else
      var init, name := entries[..|entries| - 1], entries[|entries| - 1].f.name;
      RepeatedNames(c, init) + if name in Loaded(c, init).tools then {name} else {}
  }

  predicate RepeatsAre(c: Contents, entries: seq<Entry>, names: set<string>) { names == RepeatedNames(c, entries) }

  lemma RepeatOne(c: Contents, entries: seq<Entry>, i: nat, names: set<string>)
    requires i < |entries| && RepeatsAre(c, entries[..i], names)
    ensures entries[i].f.name in Loaded(c, entries[..i]).tools ==>
              RepeatsAre(c, entries[..i + 1], names + {entries[i].f.name})
    ensures entries[i].f.name !in Loaded(c, entries[..i]).tools ==> RepeatsAre(c, entries[..i + 1], names)
  {
    assert entries[..i + 1][..i] == entries[..i];
  }

  /** What a preview has gathered so far. */
  datatype Staging = Staging(tools: map<string, Entry>, namespaces: set<string>, alreadyLoaded: set<string>, bytes: nat)

  ghost predicate Previewed(c: Contents, entries: seq<Entry>, i: nat, s: Staging)
    requires i <= |entries|
  {
    && Loadable(c, entries[..i])
    && Staged(c, Loaded(c, entries[..i]), s.tools, s.namespaces, s.bytes)
    && RepeatsAre(c, entries[..i], s.alreadyLoaded)
  }

  class EffectiveToolRegistry {
    var tools: map<string, Entry>
    var namespaces: set<string>

    function View(): Contents
      reads this
    {
      Contents(tools, namespaces)
    }

    constructor ()
      ensures View() == Contents(map[], {})
    {
      tools, namespaces := map[], {};
    }

    /** Refuses exactly the batches that cannot be loaded, and foretells the rest. */
    method PreviewAdd(batch: seq<Tool>) returns (p: Preview)
      requires ProperContents(View())
      ensures p.Refused? <==> !Loadable(View(), Flatten(batch))
      ensures p.Loads? ==> Foretells(View(), Flatten(batch), p.delta)
    {
      var entries := Flatten(batch);
      var staging := Staging(map[], {}, {}, 0);
      ghost var c := View();
      for i := 0 to |entries|
        invariant Previewed(c, entries, i, staging)
      {
        var next := PreviewEntry(entries, i, staging);
        if next.None? { return Refused; }
        staging := next.value;
      }
      assert entries[..|entries|] == entries;
      return Loads(Delta(staging.tools.Keys, staging.namespaces, staging.alreadyLoaded, staging.bytes));
    }

    /** One entry of the loop: refused with the batch, or staged. */
    method PreviewEntry(entries: seq<Entry>, i: nat, before: Staging) returns (after: Option<Staging>)
      requires ProperContents(View()) && i < |entries| && Previewed(View(), entries, i, before)
      ensures after.None? ==> !Loadable(View(), entries)
      ensures after.Some? ==> Previewed(View(), entries, i + 1, after.value)
    {
      var e, name := entries[i], entries[i].f.name;
      if !e.f.supported {
        assert !Fits(View(), entries[i]);
        return None;
      }
      ghost var loaded := Loaded(View(), entries[..i]);
      NextEntry(View(), entries, i);
      RepeatOne(View(), entries, i, before.alreadyLoaded);
      if name in before.tools || name in tools {
        var existing := if name in before.tools then before.tools[name] else tools[name];
        assert existing == loaded.tools[name];
        if existing.namespace != e.namespace || existing.f.text != e.f.text { return None; }
        return Some(before.(alreadyLoaded := before.alreadyLoaded + {name}));
      }
      StageOne(View(), loaded, before.tools, before.namespaces, before.bytes, e);
      return Some(WithEntry(before, e));
    }

    /** A new function staged, with its namespace if that is new too. */
    function WithEntry(s: Staging, e: Entry): Staging
      reads this
    {
      if BringsNamespace(View(), s.namespaces, e)
      then s.(tools := s.tools[e.f.name := e], namespaces := s.namespaces + {e.namespace.value},
              bytes := s.bytes + Bytes(e.f.text) + Bytes(e.namespace.value))
      else s.(tools := s.tools[e.f.name := e], bytes := s.bytes + Bytes(e.f.text))
    }

    /** Loads what the preview foretells; a refused batch changes nothing. */
    method Add(batch: seq<Tool>) returns (p: Preview)
      requires ProperContents(View())
      modifies this
      ensures ProperContents(View())
      ensures p.Refused? <==> !Loadable(old(View()), Flatten(batch))
      ensures p.Refused? ==> View() == old(View())
      ensures p.Loads? ==> View() == Loaded(old(View()), Flatten(batch))
                           && Foretells(old(View()), Flatten(batch), p.delta)
    {
      p := PreviewAdd(batch);
      if p.Refused? { return; }
      var entries := Flatten(batch);
      LoadedIsProper(View(), entries);
      tools, namespaces := Filed(View(), entries, p.delta);
    }
  }

  lemma LoadedIsProper(c: Contents, entries: seq<Entry>)
    requires ProperContents(c) && Loadable(c, entries)
    ensures ProperContents(Loaded(c, entries))
  {
    assert forall i :: 0 <= i < |entries| ==> Fits(c, entries[i]);
    LoadedProper(c, entries);
  }

  /** The two loops of `add`: file every new name under its last entry, then every new namespace. */
  method Filed(c: Contents, entries: seq<Entry>, d: Delta) returns (tools: map<string, Entry>, namespaces: set<string>)
    requires Loadable(c, entries) && Foretells(c, entries, d)
    ensures Contents(tools, namespaces) == Loaded(c, entries)
  {
    FilesNew(c, entries);
    tools := c.tools + LastEntries(entries, d.newFunctions);
    namespaces := c.namespaces + d.newNamespaces;
  }

  /** How the staged additions stand to the contents they were staged on. */
  ghost predicate Staged(c: Contents, loaded: Contents, staged: map<string, Entry>, newNamespaces: set<string>,
      bytes: int) {
    && staged.Keys !! c.tools.Keys && newNamespaces !! c.namespaces
    && loaded == Contents(c.tools + staged, c.namespaces + newNamespaces)
    && bytes == Weight(loaded) - Weight(c)
  }

  /** Whether an entry brings a namespace that is neither loaded nor staged. */
  predicate BringsNamespace(c: Contents, newNamespaces: set<string>, e: Entry) {
    Named(e) && e.namespace.value !in c.namespaces && e.namespace.value !in newNamespaces
  }

  lemma StageOne(c: Contents, before: Contents, staged: map<string, Entry>, newNamespaces: set<string>, bytes: int,
      e: Entry)
    requires Staged(c, before, staged, newNamespaces, bytes) && ProperContents(before)
    requires e.f.name !in c.tools && e.f.name !in staged
    ensures var fresh_ := BringsNamespace(c, newNamespaces, e);
            Staged(c, LoadOne(before, e), staged[e.f.name := e],
                   if fresh_ then newNamespaces + {e.namespace.value} else newNamespaces,
                   bytes + Bytes(e.f.text) + if fresh_ then Bytes(e.namespace.value) else 0)
  {
    LoadOneWeight(before, e);
    StageNamespace(c, before, newNamespaces, e);
    assert LoadOne(before, e).tools == c.tools + staged[e.f.name := e];
  }

  lemma StageNamespace(c: Contents, before: Contents, newNamespaces: set<string>, e: Entry)
    requires before.namespaces == c.namespaces + newNamespaces && e.f.name !in before.tools
    ensures LoadOne(before, e).namespaces
         == c.namespaces
            + if BringsNamespace(c, newNamespaces, e) then newNamespaces + {e.namespace.value} else newNamespaces
  {
    var after := LoadOne(before, e).namespaces;
    if BringsNamespace(c, newNamespaces, e) {
      assert after == c.namespaces + (newNamespaces + {e.namespace.value});
    } else {
      assert after == c.namespaces + newNamespaces;
    }
  }

  function Names(entries: seq<Entry>): set<string> {
    set i | 0 <= i < |entries| :: entries[i].f.name
  }

  /** `new Map(entries)`: the last entry of a name. */
  function LastOf(entries: seq<Entry>, k: string): (e: Entry)
    requires k in Names(entries)
    ensures e in entries && e.f.name == k
  {
    var n := |entries| - 1;
    if entries[n].f.name == k then entries[n] else
      assert k in Names(entries[..n]) by {
        var i :| 0 <= i < |entries| && entries[i].f.name == k;
        assert entries[..n][i] == entries[i];
      }
      LastOf(entries[..n], k)
  }

  function LastEntries(entries: seq<Entry>, names: set<string>): map<string, Entry> {
    map k | k in names && k in Names(entries) :: LastOf(entries, k)
  }

  /** Filing the last entry of every new name gives the loaded registry. */
  lemma FilesNew(c: Contents, entries: seq<Entry>)
    requires Loadable(c, entries)
    ensures var after, fresh_ := Loaded(c, entries), Loaded(c, entries).tools.Keys - c.tools.Keys;
            && fresh_ <= Names(entries)
            && after.tools == c.tools + LastEntries(entries, fresh_)
            && after.namespaces == c.namespaces + (after.namespaces - c.namespaces)
  {
    LoadedGrows(c, entries);
    var after := Loaded(c, entries);
    forall k | k in after.tools && k !in c.tools
      ensures k in Names(entries) && LastOf(entries, k) == after.tools[k]
    {
      LoadedFrom(c, entries, k);
      var j :| 0 <= j < |entries| && entries[j].f.name == k && entries[j] == after.tools[k];
      var e := LastOf(entries, k);
      var i :| 0 <= i < |entries| && entries[i] == e;
      assert if i < j then Agree(entries[i], entries[j]) else i == j || Agree(entries[j], entries[i]);
    }
  }

  /** What the loop learns about entry i: it fits what is loaded before it, or the whole batch is refused. */
  lemma NextEntry(c: Contents, entries: seq<Entry>, i: nat)
    requires ProperContents(c) && i < |entries| && Loadable(c, entries[..i]) && entries[i].f.supported
    ensures var before, e := Loaded(c, entries[..i]), entries[i];
            && ProperContents(before)
            && Loaded(c, entries[..i + 1]) == LoadOne(before, e)
            && (Loadable(c, entries[..i + 1]) <==> Fits(before, e))
            && (Loadable(c, entries) ==> Fits(before, e))
            && (e.f.name in before.tools ==>
                  (Fits(before, e)
                   <==> before.tools[e.f.name].namespace == e.namespace && before.tools[e.f.name].f.text == e.f.text))
  {
    assert entries[..i + 1] == entries[..i] + [entries[i]];
    assert forall j :: 0 <= j < i ==> Fits(c, entries[..i][j]);
    LoadedProper(c, entries[..i]);
    LoadableSnoc(c, entries[..i], entries[i]);
    if Loadable(c, entries) { LoadablePrefix(c, entries, i + 1); }
  }

  // ----- discovery over a turn -----

  const MAX_FUNCTIONS := 80
  const MAX_NAMESPACES := 32
  const MAX_SCHEMA_BYTES := 96_000
  const MAX_CONSECUTIVE_EMPTY := 3

  datatype Discovery = Applied | Conflict | OverBudget | TooManyEmpty

  /** The turn's discovery counters. */
  datatype Usage = Usage(functions: nat, namespaces: nat, bytes: nat, consecutiveEmpty: nat)

  ghost predicate WithinBudget(base: Contents, now: Contents) {
    && |now.tools.Keys - base.tools.Keys| <= 80
    && |now.namespaces - base.namespaces| <= 32
    && Weight(now) - Weight(base) <= 96_000
  }

  /** The counters are the real growth of the registry since the turn began, and within the three budgets. */
  ghost predicate Charged(base: Contents, now: Contents, u: Usage) {
    && ProperContents(now)
    && base.tools.Keys <= now.tools.Keys && base.namespaces <= now.namespaces
    && u.functions == |now.tools.Keys - base.tools.Keys|
    && u.namespaces == |now.namespaces - base.namespaces|
    && u.bytes == Weight(now) - Weight(base)
    && WithinBudget(base, now)
    && u.consecutiveEmpty <= 3
  }

  lemma ChargedAtStart(base: Contents)
    requires ProperContents(base)
    ensures Charged(base, base, Usage(0, 0, 0, 0))
  {
    assert base.tools.Keys - base.tools.Keys == {} && base.namespaces - base.namespaces == {};
  }

  predicate CanApplyClientDiscoveryDelta(u: Usage, d: Delta) {
    && u.functions + |d.newFunctions| <= MAX_FUNCTIONS
    && u.namespaces + |d.newNamespaces| <= MAX_NAMESPACES
    && u.bytes + d.bytes <= MAX_SCHEMA_BYTES
  }

  function Charge(u: Usage, d: Delta, empty: nat): Usage {
    Usage(u.functions + |d.newFunctions|, u.namespaces + |d.newNamespaces|, u.bytes + d.bytes, empty)
  }

  /** Charging the foretold delta keeps the counters true, and the budget test is about the true growth. */
  lemma ChargeDelta(base: Contents, now: Contents, entries: seq<Entry>, d: Delta, u: Usage, empty: nat)
    requires Charged(base, now, u) && Loadable(now, entries) && Foretells(now, entries, d)
    ensures var after := Loaded(now, entries);
            && (CanApplyClientDiscoveryDelta(u, d) <==> WithinBudget(base, after))
            && (WithinBudget(base, after) && empty <= MAX_CONSECUTIVE_EMPTY ==>
                Charged(base, after, Charge(u, d, empty)))
  {
    LoadedGrows(now, entries);
    LoadedIsProper(now, entries);
    GrowthAdds(base, now, Loaded(now, entries));
  }

  /** What a round comes to, from the real growth of the registry since the turn began. */
  ghost function Decided(base: Contents, now: Contents, entries: seq<Entry>, u: Usage): Discovery {
    if !Loadable(now, entries) then Conflict
    else if !WithinBudget(base, Loaded(now, entries)) then OverBudget
    else if Loaded(now, entries).tools == now.tools && u.consecutiveEmpty >= 3 then TooManyEmpty
    else Applied
  }

  /** One discovery round of the turn: everything is decided on the preview before the registry is touched. */
  method Discover(registry: EffectiveToolRegistry, found: seq<Tool>, u: Usage, ghost base: Contents)
      returns (r: Discovery, after: Usage)
    requires Charged(base, registry.View(), u)
    modifies registry
    ensures r == Decided(base, old(registry.View()), Flatten(found), u)
    ensures !r.Applied? ==> registry.View() == old(registry.View()) && after == u
    ensures r.Applied? ==>
              && registry.View() == Loaded(old(registry.View()), Flatten(found))
              && Charged(base, registry.View(), after)
              && after.consecutiveEmpty
                 == if registry.View().tools == old(registry.View()).tools then u.consecutiveEmpty + 1 else 0
  {
    after := u;
    var preview := registry.PreviewAdd(found);
    if preview.Refused? { return Conflict, u; }
    var d := preview.delta;
    var empty := if |d.newFunctions| == 0 then u.consecutiveEmpty + 1 else 0;
    ChargeDelta(base, registry.View(), Flatten(found), d, u, empty);
    NothingNewIff(registry.View(), Flatten(found), d);
    if !CanApplyClientDiscoveryDelta(u, d) { return OverBudget, u; }
    if empty > MAX_CONSECUTIVE_EMPTY { return TooManyEmpty, u; }
    var loaded := registry.Add(found);
    return Applied, Charge(u, d, empty);
  }

  lemma NothingNewIff(c: Contents, entries: seq<Entry>, d: Delta)
    requires Foretells(c, entries, d)
    ensures |d.newFunctions| == 0 <==> Loaded(c, entries).tools == c.tools
  {
    LoadedGrows(c, entries);
    if |d.newFunctions| == 0 {
      assert Loaded(c, entries).tools.Keys - c.tools.Keys == {};
      assert Loaded(c, entries).tools.Keys == c.tools.Keys;
    }
  }

  /** Growth over two steps is the sum of the steps. */
  lemma GrowthAdds(a: Contents, b: Contents, c: Contents)
    requires a.tools.Keys <= b.tools.Keys <= c.tools.Keys && a.namespaces <= b.namespaces <= c.namespaces
    ensures |c.tools.Keys - a.tools.Keys| == |b.tools.Keys - a.tools.Keys| + |c.tools.Keys - b.tools.Keys|
    ensures |c.namespaces - a.namespaces| == |b.namespaces - a.namespaces| + |c.namespaces - b.namespaces|
  {
  }

  // ----- the discovery rounds of a turn -----

  /** The registry after a run of batches. */
  ghost function LoadedAll(c: Contents, batches: seq<seq<Tool>>): Contents {
    if batches == [] then c else
      var n := |batches| - 1;
      Loaded(LoadedAll(c, batches[..n]), Flatten(batches[n]))
  }

  lemma LoadedAllSnoc(c: Contents, batches: seq<seq<Tool>>, i: nat)
    requires i < |batches|
    ensures LoadedAll(c, batches[..i + 1]) == Loaded(LoadedAll(c, batches[..i]), Flatten(batches[i]))
  {
    assert batches[..i + 1][..i] == batches[..i];
  }

  /**
   * The rounds of a turn, whatever the searches find, until one of them ends it: the counters are at every point the
   * growth of the registry since the turn began, and that growth stays within the three budgets.
   */
  method DiscoverRounds(registry: EffectiveToolRegistry, batches: seq<seq<Tool>>)
      returns (rounds: nat, last: Discovery, u: Usage)
    requires ProperContents(registry.View())
    modifies registry
    ensures rounds <= |batches|
    ensures registry.View() == LoadedAll(old(registry.View()), batches[..rounds])
    ensures Charged(old(registry.View()), registry.View(), u)
    ensures rounds == |batches| ==> last.Applied?
    ensures rounds < |batches| ==>
              !last.Applied? && last == Decided(old(registry.View()), registry.View(), Flatten(batches[rounds]), u)
  {
    ghost var base := registry.View();
    ChargedAtStart(base);
    rounds, last, u := 0, Applied, Usage(0, 0, 0, 0);
    while rounds < |batches|
      invariant rounds <= |batches| && last.Applied?
      invariant registry.View() == LoadedAll(base, batches[..rounds]) && Charged(base, registry.View(), u)
    {
      LoadedAllSnoc(base, batches, rounds);
      last, u := Discover(registry, batches[rounds], u, base);
      if !last.Applied? { return; }
      rounds := rounds + 1;
    }
  }
}
