/** The coherence policy for programmatic tool batches and for local parallel batches. */
module ProgramPolicy {
  import opened Options

  /** The nine eligible tool families; any other name is unlisted. */
  datatype Tool =
    | CountUniverseObjects | BatchMarketPrices | CompareWormholeTypes | ScoutSystems | KillActivitySummary
    | MarketHistorySummary | SystemMetricSnapshot | DoctrineSummary | DynamicItemSummary
    | Unlisted(name: string)

  datatype Window = Window(target: string, fromMs: int, toMs: int)

  /** What validateProgrammaticCallPolicy answers for acceptable arguments. */
  datatype Policy = Policy(
    args: string, key: string, workUnits: nat,
    marketTypeIdsKey: Option<string>, comparisonKey: Option<string>, killWindow: Option<Window>)

  const MAX_CALLS_PER_BATCH := 4
  const MAX_CALLS_PER_TURN := 4
  const MAX_CALLS_PER_PROGRAM := 4

  function MaxCalls(tool: Tool): nat {
    match tool
    case CountUniverseObjects => 2
    case CompareWormholeTypes => 1
    case _ => 4
  }

  /** None stands for no limit. */
  function WorkUnitLimit(tool: Tool): Option<nat> {
    match tool
    case BatchMarketPrices => Some(40)
    case KillActivitySummary => Some(400)
    case MarketHistorySummary => Some(360)
    case SystemMetricSnapshot => Some(400)
    case DoctrineSummary => Some(20)
    case DynamicItemSummary => Some(40)
    case _ => None
  }

  predicate Overlap(a: Window, b: Window) {
    a.target == b.target && a.fromMs < b.toMs && b.fromMs < a.toMs
  }

  predicate Covers(w: Window, t: int) { w.fromMs <= t < w.toMs }

  /** For windows that are not empty, Overlap means having an instant in common. */
  lemma OverlapIsCommonInstant(a: Window, b: Window)
    requires a.fromMs < a.toMs && b.fromMs < b.toMs
    ensures Overlap(a, b) <==>
              a.target == b.target && exists t :: Covers(a, t) && Covers(b, t)
  {
    if Overlap(a, b) {
      var t := if a.fromMs < b.fromMs then b.fromMs else a.fromMs;
      assert Covers(a, t) && Covers(b, t);
    }
  }

  // ----- what a coherent program is -----

  datatype Entry = Entry(tool: Tool, policy: Policy)

  function TotalWork(h: seq<Entry>): nat {
    if h == [] then 0 else TotalWork(h[..|h| - 1]) + h[|h| - 1].policy.workUnits
  }

  predicate Agree(a: Option<string>, b: Option<string>) {
    a.Some? && b.Some? ==> a == b
  }

  /** Two calls that may stand in one program. */
  predicate Compatible(a: Policy, b: Policy) {
    && a.key != b.key
    && Agree(a.marketTypeIdsKey, b.marketTypeIdsKey)
    && Agree(a.comparisonKey, b.comparisonKey)
    && !(a.killWindow.Some? && b.killWindow.Some? && Overlap(a.killWindow.value, b.killWindow.value))
  }

  predicate WithinWork(tool: Tool, work: nat) {
    WorkUnitLimit(tool).Some? ==> work <= WorkUnitLimit(tool).value
  }

  predicate Coherent(h: seq<Entry>) {
    && (forall i :: 0 <= i < |h| ==> h[i].tool == h[0].tool)
    && (h != [] ==> |h| <= MAX_CALLS_PER_PROGRAM && |h| <= MaxCalls(h[0].tool) && WithinWork(h[0].tool, TotalWork(h)))
    && (forall i, j :: 0 <= i < j < |h| ==> Compatible(h[i].policy, h[j].policy))
  }

  predicate SameToolCompatible(tool: Tool, h: seq<Entry>) {
    && (forall i :: 0 <= i < |h| ==> h[i].tool == tool)
    && (forall i, j :: 0 <= i < j < |h| ==> Compatible(h[i].policy, h[j].policy))
  }

  /** How many calls a program of each family may hold, and how much work. */
  lemma FamilyLimits(tool: Tool, h: seq<Entry>)
    requires h != [] && SameToolCompatible(tool, h)
    ensures Coherent(h) <==>
              match tool
              case CountUniverseObjects => |h| <= 2
              case BatchMarketPrices => |h| <= 4 && TotalWork(h) <= 40
              case CompareWormholeTypes => |h| <= 1
              case ScoutSystems => |h| <= 4
              case KillActivitySummary => |h| <= 4 && TotalWork(h) <= 400
              case MarketHistorySummary => |h| <= 4 && TotalWork(h) <= 360
              case SystemMetricSnapshot => |h| <= 4 && TotalWork(h) <= 400
              case DoctrineSummary => |h| <= 4 && TotalWork(h) <= 20
              case DynamicItemSummary => |h| <= 4 && TotalWork(h) <= 40
              case Unlisted(_) => |h| <= 4
  {
  }

  /** The joined id lists the argument validators produce are never empty. */
  predicate ProperPolicy(p: Policy) {
    p.marketTypeIdsKey != Some("") && p.comparisonKey != Some("")
  }

  predicate Proper(h: seq<Entry>) {
    forall i :: 0 <= i < |h| ==> ProperPolicy(h[i].policy)
  }

  lemma TotalWorkSnoc(h: seq<Entry>, e: Entry)
    ensures TotalWork(h + [e]) == TotalWork(h) + e.policy.workUnits
  {
    assert (h + [e])[..|h|] == h;
  }

  lemma {:induction false} TotalWorkPrefix(h: seq<Entry>, n: nat)
    requires n <= |h|
    ensures TotalWork(h[..n]) <= TotalWork(h)
  {
    if n == |h| {
      assert h[..n] == h;
    } else {
      assert h[..|h| - 1][..n] == h[..n];
      TotalWorkPrefix(h[..|h| - 1], n);
    }
  }

  /** Coherence of a program is coherence of every beginning of it. */
  lemma CoherentPrefix(h: seq<Entry>, n: nat)
    requires Coherent(h) && n <= |h|
    ensures Coherent(h[..n])
  {
    TotalWorkPrefix(h, n);
  }

  // ----- the incremental state -----

  /** The fields of one program's state. */
  datatype Summary = Summary(
    tool: Tool, calls: nat, workUnits: nat, seenKeys: set<string>,
    marketTypeIdsKey: Option<string>, comparisonKey: Option<string>, killWindows: seq<Window>)

  function Blank(tool: Tool): Summary {
    Summary(tool, 0, 0, {}, None, None, [])
  }

  /** JavaScript `a && b && a !== b` on optional strings: an absent or empty key never clashes. */
  predicate Clash(a: Option<string>, b: Option<string>) {
    a.Some? && a.value != "" && b.Some? && b.value != "" && a != b
  }

  predicate WindowClash(windows: seq<Window>, w: Option<Window>) {
    w.Some? && exists i :: 0 <= i < |windows| && Overlap(windows[i], w.value)
  }

  /** The checks made on one call against the state of its program. */
  predicate Passes(s: Summary, tool: Tool, p: Policy) {
    && s.tool == tool
    && s.calls + 1 <= MAX_CALLS_PER_PROGRAM && s.calls + 1 <= MaxCalls(tool)
    && WithinWork(tool, s.workUnits + p.workUnits)
    && p.key !in s.seenKeys
    && !Clash(p.marketTypeIdsKey, s.marketTypeIdsKey)
    && !Clash(p.comparisonKey, s.comparisonKey)
    && !WindowClash(s.killWindows, p.killWindow)
  }

  /** `a ??= b` */
  function OrElse(a: Option<string>, b: Option<string>): Option<string> {
    if a.Some? then a else b
  }

  function Absorbed(s: Summary, p: Policy): Summary {
    Summary(s.tool, s.calls + 1, s.workUnits + p.workUnits, s.seenKeys + {p.key},
            OrElse(s.marketTypeIdsKey, p.marketTypeIdsKey), OrElse(s.comparisonKey, p.comparisonKey),
            s.killWindows + if p.killWindow.Some? then [p.killWindow.value] else [])
  }

  function StateOf(tool: Tool, h: seq<Entry>): Summary {
    if h == [] then Blank(tool) else Absorbed(StateOf(tool, h[..|h| - 1]), h[|h| - 1].policy)
  }

  /** The first key present is the one every later call is held to. */
  ghost predicate Represents(key: Option<string>, keys: seq<Option<string>>) {
    && (key.Some? ==> key in keys)
    && (key.None? ==> forall i :: 0 <= i < |keys| ==> keys[i].None?)
  }

  function MarketKeys(h: seq<Entry>): seq<Option<string>> {
    seq(|h|, i requires 0 <= i < |h| => h[i].policy.marketTypeIdsKey)
  }

  function ComparisonKeys(h: seq<Entry>): seq<Option<string>> {
    seq(|h|, i requires 0 <= i < |h| => h[i].policy.comparisonKey)
  }

  lemma {:induction false} StateKeys(tool: Tool, h: seq<Entry>)
    ensures Represents(StateOf(tool, h).marketTypeIdsKey, MarketKeys(h))
    ensures Represents(StateOf(tool, h).comparisonKey, ComparisonKeys(h))
  {
    if h != [] {
      var init, p := h[..|h| - 1], h[|h| - 1].policy;
      StateKeys(tool, init);
      assert MarketKeys(h) == MarketKeys(init) + [p.marketTypeIdsKey];
      assert ComparisonKeys(h) == ComparisonKeys(init) + [p.comparisonKey];
    }
  }

  ghost predicate KeysSeen(seen: set<string>, h: seq<Entry>) {
    forall k :: k in seen <==> exists i :: 0 <= i < |h| && h[i].policy.key == k
  }

  ghost predicate WindowsOf(windows: seq<Window>, h: seq<Entry>) {
    forall w :: w in windows <==> exists i :: 0 <= i < |h| && h[i].policy.killWindow == Some(w)
  }

  lemma KeysSeenSnoc(seen: set<string>, h: seq<Entry>)
    requires h != [] && KeysSeen(seen, h[..|h| - 1])
    ensures KeysSeen(seen + {h[|h| - 1].policy.key}, h)
  {
    var n, after := |h| - 1, seen + {h[|h| - 1].policy.key};
    forall k | k in after ensures exists i :: 0 <= i < |h| && h[i].policy.key == k {
      if k in seen {
        var i :| 0 <= i < n && h[..n][i].policy.key == k;
        assert h[i].policy.key == k;
      }
    }
    forall i | 0 <= i < |h| ensures h[i].policy.key in after {
      if i < n { assert h[..n][i].policy.key in seen; }
    }
  }

  lemma WindowsOfSnoc(windows: seq<Window>, h: seq<Entry>)
    requires h != [] && WindowsOf(windows, h[..|h| - 1])
    ensures var w := h[|h| - 1].policy.killWindow;
            WindowsOf(windows + if w.Some? then [w.value] else [], h)
  {
    var n, last := |h| - 1, h[|h| - 1].policy.killWindow;
    var after := windows + if last.Some? then [last.value] else [];
    forall w | w in after ensures exists i :: 0 <= i < |h| && h[i].policy.killWindow == Some(w) {
      if w in windows {
        var i :| 0 <= i < n && h[..n][i].policy.killWindow == Some(w);
        assert h[i].policy.killWindow == Some(w);
      }
    }
    forall w, i | 0 <= i < |h| && h[i].policy.killWindow == Some(w) ensures w in after {
      if i < n { assert h[..n][i].policy.killWindow == Some(w); }
    }
  }

  /** Everything else in the state, read off the history. */
  lemma {:induction false} StateCounts(tool: Tool, h: seq<Entry>)
    ensures var s := StateOf(tool, h);
            && s.tool == tool && s.calls == |h| && s.workUnits == TotalWork(h)
            && KeysSeen(s.seenKeys, h) && WindowsOf(s.killWindows, h)
  {
    if h != [] {
      var init := h[..|h| - 1];
      StateCounts(tool, init);
      KeysSeenSnoc(StateOf(tool, init).seenKeys, h);
      WindowsOfSnoc(StateOf(tool, init).killWindows, h);
    }
  }

  /** Main result on one call: the incremental checks accept exactly what keeps the whole program coherent. */
  lemma PassesIffCoherent(tool: Tool, h: seq<Entry>, p: Policy)
    requires Coherent(h) && Proper(h) && ProperPolicy(p) && (h != [] ==> h[0].tool == tool)
    ensures Passes(StateOf(tool, h), tool, p) <==> Coherent(h + [Entry(tool, p)])
  {
    var s, longer := StateOf(tool, h), h + [Entry(tool, p)];
    StateCounts(tool, h);
    TotalWorkSnoc(h, Entry(tool, p));
    assert longer[0].tool == tool;
    PassesIffCompatible(tool, h, p);
    assert Coherent(longer) <==>
        (|longer| <= MAX_CALLS_PER_PROGRAM && |longer| <= MaxCalls(tool) && WithinWork(tool, TotalWork(longer))
         && forall i :: 0 <= i < |h| ==> Compatible(h[i].policy, p)) by {
      LastCompatible(h, Entry(tool, p));
    }
  }

  lemma LastCompatible(h: seq<Entry>, e: Entry)
    requires forall i, j :: 0 <= i < j < |h| ==> Compatible(h[i].policy, h[j].policy)
    ensures var longer := h + [e];
            (forall i, j :: 0 <= i < j < |longer| ==> Compatible(longer[i].policy, longer[j].policy))
            <==> forall i :: 0 <= i < |h| ==> Compatible(h[i].policy, e.policy)
  {
    var longer := h + [e];
    assert longer[|h|] == e && forall i :: 0 <= i < |h| ==> longer[i] == h[i];
  }

  /** The key kept stands for all keys of a coherent program: a new one clashes with it or agrees with each. */
  lemma ClashIff(kept: Option<string>, keys: seq<Option<string>>, key: Option<string>)
    requires Represents(kept, keys) && key != Some("")
    requires forall i :: 0 <= i < |keys| ==> keys[i] != Some("")
    requires forall i, j :: 0 <= i < j < |keys| ==> Agree(keys[i], keys[j])
    ensures !Clash(key, kept) <==> forall i :: 0 <= i < |keys| ==> Agree(keys[i], key)
  {
    if kept.Some? {
      var k :| 0 <= k < |keys| && keys[k] == kept;
      forall i | 0 <= i < |keys| ensures Agree(keys[i], kept) {
        if i < k { assert Agree(keys[i], keys[k]); }
        if k < i { assert Agree(keys[k], keys[i]); }
      }
      assert Agree(keys[k], key) == !Clash(key, kept);
    }
  }

  lemma MarketKeyHeld(tool: Tool, h: seq<Entry>, p: Policy)
    requires Coherent(h) && Proper(h) && ProperPolicy(p)
    ensures !Clash(p.marketTypeIdsKey, StateOf(tool, h).marketTypeIdsKey)
            <==> forall i :: 0 <= i < |h| ==> Agree(h[i].policy.marketTypeIdsKey, p.marketTypeIdsKey)
  {
    StateKeys(tool, h);
    var keys := MarketKeys(h);
    forall i, j | 0 <= i < j < |keys| ensures Agree(keys[i], keys[j]) { assert Compatible(h[i].policy, h[j].policy); }
    ClashIff(StateOf(tool, h).marketTypeIdsKey, keys, p.marketTypeIdsKey);
    assert forall i :: 0 <= i < |h| ==> keys[i] == h[i].policy.marketTypeIdsKey;
  }

  lemma ComparisonKeyHeld(tool: Tool, h: seq<Entry>, p: Policy)
    requires Coherent(h) && Proper(h) && ProperPolicy(p)
    ensures !Clash(p.comparisonKey, StateOf(tool, h).comparisonKey)
            <==> forall i :: 0 <= i < |h| ==> Agree(h[i].policy.comparisonKey, p.comparisonKey)
  {
    StateKeys(tool, h);
    var keys := ComparisonKeys(h);
    forall i, j | 0 <= i < j < |keys| ensures Agree(keys[i], keys[j]) { assert Compatible(h[i].policy, h[j].policy); }
    ClashIff(StateOf(tool, h).comparisonKey, keys, p.comparisonKey);
    assert forall i :: 0 <= i < |h| ==> keys[i] == h[i].policy.comparisonKey;
  }

  lemma PassesIffCompatible(tool: Tool, h: seq<Entry>, p: Policy)
    requires Coherent(h) && Proper(h) && ProperPolicy(p)
    ensures var s := StateOf(tool, h);
            (p.key !in s.seenKeys && !Clash(p.marketTypeIdsKey, s.marketTypeIdsKey)
             && !Clash(p.comparisonKey, s.comparisonKey) && !WindowClash(s.killWindows, p.killWindow))
            <==> forall i :: 0 <= i < |h| ==> Compatible(h[i].policy, p)
  {
    StateCounts(tool, h);
    MarketKeyHeld(tool, h, p);
    ComparisonKeyHeld(tool, h, p);
    WindowsSeen(StateOf(tool, h).killWindows, h, p.killWindow);
  }

  lemma WindowsSeen(windows: seq<Window>, h: seq<Entry>, w: Option<Window>)
    requires WindowsOf(windows, h)
    ensures WindowClash(windows, w) <==>
            exists i :: 0 <= i < |h| && h[i].policy.killWindow.Some? && w.Some?
                && Overlap(h[i].policy.killWindow.value, w.value)
  {
    if WindowClash(windows, w) {
      var k :| 0 <= k < |windows| && Overlap(windows[k], w.value);
      assert windows[k] in windows;
    }
    if i :| 0 <= i < |h| && h[i].policy.killWindow.Some? && w.Some? && Overlap(h[i].policy.killWindow.value, w.value) {
      assert h[i].policy.killWindow.value in windows;
    }
  }

  /** Were an empty comparison key possible, it would switch the comparison off for the rest of the program. */
  lemma EmptyKeyDisarmsComparison(tool: Tool, p: Policy, q: Policy)
    requires p.comparisonKey == Some("") && q.comparisonKey.Some?
    ensures !Clash(q.comparisonKey, StateOf(tool, [Entry(tool, p)]).comparisonKey)
    ensures !Clash(p.comparisonKey, StateOf(tool, [Entry(tool, q)]).comparisonKey)
    ensures q.comparisonKey != p.comparisonKey ==> !Coherent([Entry(tool, p), Entry(tool, q)])
  {
    assert [Entry(tool, p)][..0] == [];
    assert StateOf(tool, [Entry(tool, p)]) == Absorbed(Blank(tool), p);
    assert [Entry(tool, q)][..0] == [] && StateOf(tool, [Entry(tool, q)]) == Absorbed(Blank(tool), q);
    var h := [Entry(tool, p), Entry(tool, q)];
    assert Compatible(h[0].policy, h[1].policy) ==> p.comparisonKey == q.comparisonKey;
  }
}
