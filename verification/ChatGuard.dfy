/** The shared per-actor sliding-window limiter, against one that never forgets. */
module ChatGuard {

  datatype Actor = User(id: int) | Chat(id: int)

  function ActorKey(chatId: int, userId: int): Actor {
    if userId > 0 then User(userId) else Chat(chatId)
  }

  /** Requests count together for a user wherever they come from, and for a chat when the user is not known. */
  lemma SameActorIff(chat1: int, user1: int, chat2: int, user2: int)
    ensures ActorKey(chat1, user1) == ActorKey(chat2, user2)
            <==> (user1 >= 1 && user1 == user2) || (user1 <= 0 && user2 <= 0 && chat1 == chat2)
  {
  }

  datatype Verdict = Accepted | StillRunning | Overloaded | TooMany

  datatype Start = Start(actor: Actor, at: int)

  // ----- the reference: keep every accepted start for ever -----

  function StartsOf(history: seq<Start>, actor: Actor): seq<int> {
    if history == [] then [] else
      var last := history[|history| - 1];
      StartsOf(history[..|history| - 1], actor) + if last.actor == actor then [last.at] else []
  }

  /** The starts still inside the window at time `now`. */
  function Prune(values: seq<int>, now: int, windowMs: int): seq<int> {
    if values == [] then [] else
      var last := values[|values| - 1];
      Prune(values[..|values| - 1], now, windowMs) + if now - last < windowMs then [last] else []
  }

  /** How many of an actor's accepted starts are less than a window ago. */
  function CountRecent(history: seq<Start>, actor: Actor, now: int, windowMs: int): nat {
    if history == [] then 0 else
      (if history[0].actor == actor && now < history[0].at + windowMs then 1 else 0)
      + CountRecent(history[1..], actor, now, windowMs)
  }

  lemma {:induction false} CountSnoc(history: seq<Start>, last: Start, actor: Actor, now: int, windowMs: int)
    ensures CountRecent(history + [last], actor, now, windowMs)
         == CountRecent(history, actor, now, windowMs)
            + if last.actor == actor && now < last.at + windowMs then 1 else 0
  {
    if history != [] {
      assert (history + [last])[1..] == history[1..] + [last];
      CountSnoc(history[1..], last, actor, now, windowMs);
    }
  }

  lemma {:induction false} PruneCounts(history: seq<Start>, actor: Actor, now: int, windowMs: int)
    ensures |Prune(StartsOf(history, actor), now, windowMs)| == CountRecent(history, actor, now, windowMs)
  {
    if history != [] {
      var init, last := history[..|history| - 1], history[|history| - 1];
      assert history == init + [last];
      PruneCounts(init, actor, now, windowMs);
      CountSnoc(init, last, actor, now, windowMs);
      if last.actor == actor {
        PruneSnoc(StartsOf(init, actor), last.at, now, windowMs);
      } else {
        assert StartsOf(history, actor) == StartsOf(init, actor);
      }
    }
  }

  predicate HasRoom(values: seq<int>, now: int, windowMs: int, maxPerWindow: nat) {
    |Prune(values, now, windowMs)| < maxPerWindow
  }

  /** How many starts fall in the half-open interval [from, from + width). */
  function CountWithin(values: seq<int>, from: int, width: int): nat {
    if values == [] then 0 else
      var last := values[|values| - 1];
      CountWithin(values[..|values| - 1], from, width) + if from <= last < from + width then 1 else 0
  }

  /** A sequence of starts the limiter could have let through. */
  ghost predicate Legal(values: seq<int>, windowMs: int, maxPerWindow: nat) {
    && (forall i, j :: 0 <= i < j < |values| ==> values[i] <= values[j])
    && (forall i :: 0 <= i < |values| ==> HasRoom(values[..i], values[i], windowMs, maxPerWindow))
  }

  // ----- pruning early or late makes no difference -----

  /** Values already out of the window at `now` are out of it later, too. */
  lemma {:induction false} PruneTwice(values: seq<int>, now: int, later: int, w: int)
    requires now <= later
    ensures Prune(Prune(values, now, w), later, w) == Prune(values, later, w)
  {
    if values != [] {
      var n := |values| - 1;
      PruneTwice(values[..n], now, later, w);
      var p := Prune(values[..n], now, w);
      if now - values[n] < w {
        assert (p + [values[n]])[..|p|] == p;
      } else {
        assert p + [] == p;
      }
    }
  }

  lemma {:induction false} PruneExpired(values: seq<int>, now: int, later: int, w: int)
    requires now <= later && forall i :: 0 <= i < |values| ==> now - values[i] >= w
    ensures Prune(values, later, w) == []
  {
    if values != [] { PruneExpired(values[..|values| - 1], now, later, w); }
  }

  lemma {:induction false} CountAtMostPruned(values: seq<int>, from: int, now: int, w: int)
    requires now < from + w && forall i :: 0 <= i < |values| ==> values[i] <= now
    ensures CountWithin(values, from, w) <= |Prune(values, now, w)|
  {
    if values != [] { CountAtMostPruned(values[..|values| - 1], from, now, w); }
  }

  lemma LegalPrefix(values: seq<int>, w: int, maxPerWindow: nat)
    requires Legal(values, w, maxPerWindow) && values != []
    ensures Legal(values[..|values| - 1], w, maxPerWindow)
    ensures HasRoom(values[..|values| - 1], values[|values| - 1], w, maxPerWindow)
  {
    var init := values[..|values| - 1];
    forall i | 0 <= i < |init| ensures HasRoom(init[..i], init[i], w, maxPerWindow) {
      assert init[..i] == values[..i];
      assert HasRoom(values[..i], values[i], w, maxPerWindow);
    }
  }

  /** Main result on rate: no interval of one window's length holds more than the maximum. */
  lemma {:induction false} AtMostMaxPerWindow(values: seq<int>, from: int, w: int, maxPerWindow: nat)
    requires Legal(values, w, maxPerWindow) && maxPerWindow > 0
    ensures CountWithin(values, from, w) <= maxPerWindow
  {
    if values != [] {
      var n := |values| - 1;
      LegalPrefix(values, w, maxPerWindow);
      AtMostMaxPerWindow(values[..n], from, w, maxPerWindow);
      if from <= values[n] < from + w {
        assert HasRoom(values[..n], values[n], w, maxPerWindow);
        CountAtMostPruned(values[..n], from, values[n], w);
      }
    }
  }

  lemma LegalAppend(values: seq<int>, x: int, w: int, maxPerWindow: nat)
    requires Legal(values, w, maxPerWindow) && HasRoom(values, x, w, maxPerWindow)
    requires forall i :: 0 <= i < |values| ==> values[i] <= x
    ensures Legal(values + [x], w, maxPerWindow)
  {
    var longer := values + [x];
    forall i | 0 <= i < |longer| ensures HasRoom(longer[..i], longer[i], w, maxPerWindow) {
      if i < |values| {
        assert longer[..i] == values[..i];
        assert HasRoom(values[..i], values[i], w, maxPerWindow);
      } else {
        assert longer[..i] == values;
      }
    }
  }

  // ----- the limiter -----

  /** From now on the kept starts and all starts prune to the same. */
  ghost predicate SamePrunes(kept: seq<int>, all: seq<int>, now: int, windowMs: int) {
    forall later :: now <= later ==> Prune(kept, later, windowMs) == Prune(all, later, windowMs)
  }

  ghost predicate LegalUpTo(values: seq<int>, now: int, windowMs: int, maxPerWindow: nat) {
    Legal(values, windowMs, maxPerWindow) && forall i :: 0 <= i < |values| ==> values[i] <= now
  }

  lemma PruneSnoc(values: seq<int>, x: int, later: int, w: int)
    ensures Prune(values + [x], later, w) == Prune(values, later, w) + if later - x < w then [x] else []
  {
    assert (values + [x])[..|values|] == values;
  }

  lemma SamePrunesSnoc(kept: seq<int>, all: seq<int>, now: int, w: int, x: int)
    requires SamePrunes(kept, all, now, w)
    ensures SamePrunes(kept + [x], all + [x], now, w)
  {
    forall later | now <= later ensures Prune(kept + [x], later, w) == Prune(all + [x], later, w) {
      PruneSnoc(kept, x, later, w);
      PruneSnoc(all, x, later, w);
    }
  }

  lemma LegalUpToSnoc(values: seq<int>, now: int, w: int, maxPerWindow: nat)
    requires LegalUpTo(values, now, w, maxPerWindow) && HasRoom(values, now, w, maxPerWindow)
    ensures LegalUpTo(values + [now], now, w, maxPerWindow)
  {
    LegalAppend(values, now, w, maxPerWindow);
  }

  lemma StartsSnoc(history: seq<Start>, key: Actor, at: int, actor: Actor)
    ensures StartsOf(history + [Start(key, at)], actor)
         == if actor == key then StartsOf(history, actor) + [at] else StartsOf(history, actor)
  {
    assert (history + [Start(key, at)])[..|history|] == history;
  }

  class ChatGuard {
    const windowMs: int
    const maxPerWindow: nat
    const maxActive: int
    var recentRequestStarts: map<Actor, seq<int>>
    var lastRecentRequestSweepAt: int
    ghost var history: seq<Start>      // every accepted start
    ghost var clock: int               // the latest time asked about

    function Recent(actor: Actor): seq<int>
      reads this
    {
      if actor in recentRequestStarts then recentRequestStarts[actor] else []
    }

    ghost predicate Agrees(actor: Actor)
      reads this
    {
      SamePrunes(Recent(actor), StartsOf(history, actor), clock, windowMs)
    }

    ghost predicate LegalSoFar(actor: Actor)
      reads this
    {
      LegalUpTo(StartsOf(history, actor), clock, windowMs, maxPerWindow)
    }

    ghost predicate Valid()
      reads this
    {
      maxPerWindow > 0 && forall actor :: Agrees(actor) && LegalSoFar(actor)
    }

    constructor (windowMs: int, maxPerWindow: nat, maxActive: int)
      requires maxPerWindow > 0
      ensures Valid() && history == [] && clock == 0 && recentRequestStarts == map[] && lastRecentRequestSweepAt == 0
      ensures this.windowMs == windowMs && this.maxPerWindow == maxPerWindow && this.maxActive == maxActive
    {
      this.windowMs, this.maxPerWindow, this.maxActive := windowMs, maxPerWindow, maxActive;
      recentRequestStarts, lastRecentRequestSweepAt := map[], 0;
      history, clock := [], 0;
    }

    ghost method Advance(now: int)
      requires Valid() && clock <= now
      modifies `clock
      ensures Valid() && clock == now
    {
      clock := now;
      forall actor ensures Agrees(actor) && LegalSoFar(actor) {
        assert old(Agrees(actor));
        assert old(LegalSoFar(actor));
      }
    }

    predicate Expired(values: seq<int>, now: int) {
      forall i :: 0 <= i < |values| ==> now - values[i] >= windowMs
    }

    /** Exactly the expired actors are gone, those still to be looked at aside. */
    predicate Swept(before: map<Actor, seq<int>>, after: map<Actor, seq<int>>, todo: set<Actor>, now: int) {
      && (forall a :: a in after ==> a in before && after[a] == before[a])
      && (forall a :: a in before ==> (a in after <==> a in todo || !Expired(before[a], now)))
    }

    /** Drops actors with nothing left in the window, at most once per window. */
    method SweepRecentRequestStarts(now: int)
      requires Valid() && clock == now
      modifies `recentRequestStarts, `lastRecentRequestSweepAt
      ensures Valid()
      ensures now - old(lastRecentRequestSweepAt) < windowMs ==>
                recentRequestStarts == old(recentRequestStarts)
                    && lastRecentRequestSweepAt == old(lastRecentRequestSweepAt)
      ensures now - old(lastRecentRequestSweepAt) >= windowMs ==>
                lastRecentRequestSweepAt == now && Swept(old(recentRequestStarts), recentRequestStarts, {}, now)
    {
      if now - lastRecentRequestSweepAt < windowMs { return; }
      lastRecentRequestSweepAt := now;
      forall actor ensures Agrees(actor) && LegalSoFar(actor) {
        assert old(Agrees(actor));
        assert old(LegalSoFar(actor));
      }
      var todo := recentRequestStarts.Keys;
      while todo != {}
        invariant Valid() && lastRecentRequestSweepAt == now && todo <= recentRequestStarts.Keys
        invariant Swept(old(recentRequestStarts), recentRequestStarts, todo, now)
        decreases todo
      {
        var key :| key in todo;
        todo := todo - {key};
        if Expired(recentRequestStarts[key], now) { Forget(key); }
      }
    }

    method Forget(key: Actor)
      requires Valid() && key in recentRequestStarts && Expired(recentRequestStarts[key], clock)
      modifies `recentRequestStarts
      ensures Valid() && recentRequestStarts == old(recentRequestStarts) - {key}
    {
      recentRequestStarts := recentRequestStarts - {key};
      forall actor ensures Agrees(actor) && LegalSoFar(actor) {
        assert old(Agrees(actor));
        assert old(LegalSoFar(actor));
        if actor == key {
          forall later | clock <= later ensures Prune(old(recentRequestStarts[key]), later, windowMs) == [] {
            PruneExpired(old(recentRequestStarts[key]), clock, later, windowMs);
          }
        } else {
          assert Recent(actor) == old(Recent(actor));
        }
      }
    }

    /** The pruned and swept limiter decides as the one that never forgets. */
    method EvaluateChatRequestAllowance(chatId: int, userId: int, hasActiveRequest: bool, activeRequestCount: int,
        now: int)
        returns (verdict: Verdict)
      requires Valid() && clock <= now
      modifies this
      ensures Valid()
      ensures var actor := ActorKey(chatId, userId);
              verdict == (if hasActiveRequest then StillRunning
                          else if activeRequestCount >= maxActive then Overloaded
                          else if CountRecent(old(history), actor, now, windowMs) < maxPerWindow then Accepted
                          else TooMany)
      ensures history == old(history) + if verdict == Accepted then [Start(ActorKey(chatId, userId), now)] else []
      ensures old(clock) <= clock <= now
    {
      if hasActiveRequest { return StillRunning; }
      if activeRequestCount >= maxActive { return Overloaded; }
      Advance(now);
      SweepRecentRequestStarts(now);
      var key := ActorKey(chatId, userId);
      var kept := Recent(key);
      var recent := Prune(kept, now, windowMs);
      assert Agrees(key);
      PruneCounts(history, key, now, windowMs);
      if |recent| >= maxPerWindow {
        Keep(key, recent);
        return TooMany;
      }
      assert HasRoom(StartsOf(history, key), now, windowMs, maxPerWindow);
      Keep(key, recent);
      Record(key, now);
      return Accepted;
    }

    /** Stores the pruned starts of an actor. */
    method Keep(key: Actor, recent: seq<int>)
      requires Valid() && recent == Prune(Recent(key), clock, windowMs)
      modifies `recentRequestStarts
      ensures Valid() && recentRequestStarts == old(recentRequestStarts)[key := recent]
    {
      recentRequestStarts := recentRequestStarts[key := recent];
      forall actor ensures Agrees(actor) && LegalSoFar(actor) {
        assert old(Agrees(actor));
        assert old(LegalSoFar(actor));
        if actor == key {
          forall later | clock <= later
            ensures Prune(recent, later, windowMs) == Prune(StartsOf(history, key), later, windowMs)
          {
            PruneTwice(old(Recent(key)), clock, later, windowMs);
          }
        } else {
          assert Recent(actor) == old(Recent(actor));
        }
      }
    }

    method Record(key: Actor, now: int)
      requires Valid() && now == clock && key in recentRequestStarts
      requires HasRoom(StartsOf(history, key), now, windowMs, maxPerWindow)
      modifies `recentRequestStarts, `history
      ensures Valid() && history == old(history) + [Start(key, now)]
      ensures recentRequestStarts == old(recentRequestStarts)[key := old(recentRequestStarts)[key] + [now]]
    {
      ghost var before := history;
      assert Agrees(key) && LegalSoFar(key);
      SamePrunesSnoc(Recent(key), StartsOf(before, key), clock, windowMs, now);
      LegalUpToSnoc(StartsOf(before, key), now, windowMs, maxPerWindow);
      recentRequestStarts := recentRequestStarts[key := recentRequestStarts[key] + [now]];
      history := history + [Start(key, now)];
      forall actor ensures Agrees(actor) && LegalSoFar(actor) {
        StartsSnoc(before, key, now, actor);
        assert old(Agrees(actor)) && old(LegalSoFar(actor));
      }
    }

    /** At any time the accepted starts of an actor respect the rate. */
    lemma RateHolds(actor: Actor, from: int)
      requires Valid()
      ensures CountWithin(StartsOf(history, actor), from, windowMs) <= maxPerWindow
    {
      assert LegalSoFar(actor);
      AtMostMaxPerWindow(StartsOf(history, actor), from, windowMs, maxPerWindow);
    }
  }
}
