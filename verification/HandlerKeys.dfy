/** Two exact conditions. Guarded loads are enough exactly when every store ID has one cache key: with
    two keys there are two cached messages for one store ID, and what a handler records through one
    passes the other by. And then each single load is safe exactly when it is alone. */
module HandlerKeys {
  import opened ByteText
  import opened TagLogs
  import opened Messages
  import opened Tables
  import opened SharedLogs
  import opened Handlers
  import opened HandlerSafety
  import opened HandlerTags
  import opened HandlerLoads
  import opened HandlerStaleness

  /** In every guarded run, nothing is recorded past a cached message. */
  ghost predicate AlwaysFresh(w: World) {
    forall s0, steps, s, key :: Initial(s0) && GuardedRun(w, s0, steps, s) && key in s.cache ==>
      s.cache[key] < |s.heap| && OnlyThrough(s, s.cache[key])
  }

  /** In every guarded run, no cached message is stale. */
  ghost predicate NeverStale(w: World) {
    forall s0, steps, s, key, id :: Initial(s0) && GuardedRun(w, s0, steps, s) ==> !Stale(s, key, id)
  }

  /** A run determines where it ends. */
  lemma {:induction false} RunIsFunction(w: World, s: State, steps: seq<Step>, a: State, b: State)
    requires Run(w, s, steps, a) && Run(w, s, steps, b)
    ensures a == b
  {
    hide Enabled, Next;
    if steps != [] {
      var n := |steps| - 1;
      var mid :| Run(w, s, steps[..n], mid) && Enabled(w, mid, steps[n]) && a == Next(w, mid, steps[n]);
      var mid' :| Run(w, s, steps[..n], mid') && Enabled(w, mid', steps[n]) && b == Next(w, mid', steps[n]);
      RunIsFunction(w, s, steps[..n], mid, mid');
    }
  }

  lemma GoGuarded(w: World, s0: State, steps: seq<Step>, s: State, step: Step) returns (steps': seq<Step>, s': State)
    requires GuardedRun(w, s0, steps, s) && Enabled(w, s, step) && LoadsAlone(s, step)
    ensures steps' == steps + [step] && s' == Next(w, s, step) && GuardedRun(w, s0, steps', s')
  {
    hide Enabled, Next, LoadsAlone;
    steps', s' := steps + [step], Next(w, s, step);
    assert steps'[..|steps|] == steps;
  }

  /** Steps that read no tags need no guard. */
  lemma {:induction false} GuardedGoesOn(w: World, s0: State, before: seq<Step>, s: State, steps: seq<Step>, s': State)
    requires GuardedRun(w, s0, before, s) && Run(w, s0, steps, s') && before <= steps && NoLoads(steps, |before|)
    ensures GuardedRun(w, s0, steps, s')
    decreases |steps|
  {
    hide Enabled, Next;
    if |steps| == |before| {
      assert steps == before;
      GuardedIsRun(w, s0, before, s);
      RunIsFunction(w, s0, steps, s, s');
    } else {
      var n := |steps| - 1;
      var mid :| Run(w, s0, steps[..n], mid) && Enabled(w, mid, steps[n]) && s' == Next(w, mid, steps[n]);
      GuardedGoesOn(w, s0, before, s, steps[..n], mid);
      assert !steps[n].QueryTags?;
    }
  }

  /** A new handler with body `b` can come and load its message, which has a row but is not cached. */
  ghost predicate CanLoad(w: World, s: State, h: nat, b: Bytes, id: string) {
    && h !in s.handlers && s.lock.None? && w.digest(b) !in s.cache && id in s.db.messages
    && w.parse(b).Some? && ToStoreID(w.parse(b).value, w.digest(b)) == id
    && forall g :: g in s.handlers && s.handlers[g].storeID == id ==> !AtWork(s.handlers[g])
  }

  lemma ComesAndMisses(w: World, s0: State, before: seq<Step>, s: State, h: nat, b: Bytes, id: string)
    returns (steps: seq<Step>, s': State)
    requires GuardedRun(w, s0, before, s) && CanLoad(w, s, h, b, id)
    ensures GuardedRun(w, s0, steps, s')
    ensures var x := Handler(b, [], id, None, [], ReadingTags(s.db.messages[id]));
      s' == s.(handlers := s.handlers[h := x], lock := Some(h))
  {
    hide GuardedRun, ToStoreID, AtWork;
    steps, s' := GoGuarded(w, s0, before, s, Arrive(h, b, []));
    steps, s' := GoGuarded(w, s0, steps, s', LookUp(h));
    steps, s' := GoGuarded(w, s0, steps, s', Acquire(h));
    steps, s' := GoGuarded(w, s0, steps, s', Recheck(h));
    steps, s' := GoGuarded(w, s0, steps, s', QueryRow(h));
    assert s'.handlers == s.handlers[h := Handler(b, [], id, None, [], ReadingTags(s.db.messages[id]))];
  }

  lemma Loads(w: World, s0: State, before: seq<Step>, s: State, h: nat, b: Bytes, id: string)
    returns (steps: seq<Step>, s': State)
    requires GuardedRun(w, s0, before, s) && CanLoad(w, s, h, b, id)
    ensures GuardedRun(w, s0, steps, s')
    ensures s'.handlers == s.handlers[h := Handler(b, [], id, Some(|s.heap|), [], Running)]
    ensures s'.cache == s.cache[w.digest(b) := |s.heap|] && s'.lock.None? && s'.db == s.db
    ensures s'.mutations == s.mutations && s'.upserts == s.upserts
    ensures var tags := Visible(s.db, id);
      s'.heap == s.heap + [Shared(w.parse(b).value, s.db.messages[id], tags, id, tags, |s.upserts|)]
  {
    hide GuardedRun, ToStoreID, Visible;
    var x := Handler(b, [], id, None, [], ReadingTags(s.db.messages[id]));
    steps, s' := ComesAndMisses(w, s0, before, s, h, b, id);
    assert !AtWork(x);
    steps, s' := GoGuarded(w, s0, steps, s', QueryTags(h));
    steps, s' := GoGuarded(w, s0, steps, s', CacheAndRelease(h));
    assert s'.handlers == s.handlers[h := Handler(b, [], id, Some(|s.heap|), [], Running)];
  }

  /** A handler with nothing recorded yet changes nothing and is done. */
  lemma IsDone(w: World, s0: State, before: seq<Step>, s: State, h: nat) returns (steps: seq<Step>, s': State)
    requires GuardedRun(w, s0, before, s) && CanRecord(s, h) && At(s, h).Running? && s.handlers[h].rules == []
    ensures GuardedRun(w, s0, steps, s') && Alone(s, s', h, s.handlers[h].(phase := Done))
    ensures s'.heap == s.heap && s'.mutations == s.mutations && s'.db.messages == s.db.messages
    ensures Visible(s'.db, s.handlers[h].storeID) == Visible(s.db, s.handlers[h].storeID)
  {
    hide GuardedRun, Run, Visible, Replay, AllChanges;
    GuardedIsRun(w, s0, before, s);
    NoRulesNoChanges();
    NothingToReplay(Visible(s.db, s.handlers[h].storeID));
    steps, s' := RecordsAll(w, s0, before, s, h);
    GuardedGoesOn(w, s0, before, s, steps, s');
  }

  /** A handler sets a tag that the store does not show yet, and is done. */
  lemma ChangesAndIsDone(w: World, s0: State, before: seq<Step>, s: State, h: nat) returns (steps: seq<Step>, s': State)
    requires GuardedRun(w, s0, before, s) && CanRecord(s, h) && At(s, h).Running?
    ensures GuardedRun(w, s0, steps, s') && s'.cache == s.cache && |s'.heap| == |s.heap|
    ensures forall m :: 0 <= m < |s.heap| && s.handlers[h].message != Some(m) ==> s'.heap[m] == s.heap[m]
    ensures exists rules :: s'.handlers == s.handlers[h := s.handlers[h].(rules := rules, phase := Done)]
    ensures exists e :: s'.mutations == s.mutations + [e] && s.handlers[h].message == Some(e.message)
    ensures Visible(s'.db, s.handlers[h].storeID) != Visible(s.db, s.handlers[h].storeID)
  {
    hide GuardedRun, Run, Visible, Replay, AllChanges, Change;
    GuardedIsRun(w, s0, before, s);
    var x, tags := s.handlers[h], Visible(s.db, s.handlers[h].storeID);
    var c := TagChange(0, "k", Some(OtherThan(Lookup(tags, "k"))));
    steps, s' := ChangesTag(w, s0, before, s, h, c);
    LastChangeShows(tags, x.rules, c);
    var mid := s';
    steps, s' := RecordsAll(w, s0, steps, mid, h);
    GuardedGoesOn(w, s0, before, s, steps, s');
    assert s'.handlers == s.handlers[h := x.(rules := x.rules + [RuleRecord([], false, None, [c])], phase := Done)];
    assert s'.mutations == s.mutations + [Event(h, x.message.value, x.storeID, c)];
  }

  /** Two bodies with one store ID and two sums: the second handler's changes pass the first one's
      message by, which is still cached. */
  lemma ChangesPassBy(w: World, b: Bytes, b': Bytes) returns (s0: State, steps: seq<Step>, s: State)
    requires SumsDetermineIDs(w) && w.parse(b).Some? && w.parse(b').Some? && w.digest(b) != w.digest(b')
    requires ToStoreID(w.parse(b).value, w.digest(b)) == ToStoreID(w.parse(b').value, w.digest(b'))
    ensures Initial(s0) && GuardedRun(w, s0, steps, s)
    ensures w.digest(b) in s.cache && s.cache[w.digest(b)] < |s.heap| && !OnlyThrough(s, s.cache[w.digest(b)])
    ensures Stale(s, w.digest(b), ToStoreID(w.parse(b).value, w.digest(b)))
  {
    hide GuardedRun, Run, ToStoreID, Visible, AllChanges, OnlyThrough, SumsDetermineIDs, OnMessage, InStore, LastValue;
    var id := ToStoreID(w.parse(b).value, w.digest(b));
    s0 := State(map[], None, map[], [], DB(map[id := true], map[], [], []), [], []);
    assert GuardedRun(w, s0, [], s0) by { EmptyGuardedRun(w, s0); }
    steps, s := Loads(w, s0, [], s0, 0, b, id);
    steps, s := IsDone(w, s0, steps, s, 0);
    assert !AtWork(s.handlers[0]);
    steps, s := Loads(w, s0, steps, s, 1, b', id);
    var two := s;
    steps, s := ChangesAndIsDone(w, s0, steps, two, 1);
    GuardedIsRun(w, s0, steps, s);
    NothingOnNewMessage(s.mutations, 0);
    if OnlyThrough(s, 0) {
      SettledMemoryMatchesStore(w, s0, steps, s, 0);
    }
  }

  lemma EmptyGuardedRun(w: World, s: State)
    ensures GuardedRun(w, s, [], s)
  {
  }

  lemma FreshIsNotStale(w: World, s: State, key: string, id: string)
    requires Good(w, s) && Fresh(w, s)
    ensures !Stale(s, key, id)
  {
    hide Good, LoaderOK, Settled, OnlyThrough, InMemory, InStore, LastValue, DisjointKeys, Visible, SameLastHandlers;
    if Stale(s, key, id) {
      assert CachedOK(s, key);
      SettledMatches(w, s, s.cache[key]);
    }
  }

  /** In all guarded runs nothing is recorded past a cached message, and no cached message is stale,
      exactly when every store ID has one cache key. */
  lemma FreshExactlyWithOneKey(w: World)
    requires SumsDetermineIDs(w)
    ensures AlwaysFresh(w) <==> OneKeyPerID(w)
    ensures NeverStale(w) <==> OneKeyPerID(w)
  {
    hide GuardedRun, Run, Initial, SumsDetermineIDs, ToStoreID, OnlyThrough, Stale, Good, Fresh;
    if OneKeyPerID(w) {
      forall s0, steps, s | Initial(s0) && GuardedRun(w, s0, steps, s)
        ensures forall key :: key in s.cache ==> s.cache[key] < |s.heap| && OnlyThrough(s, s.cache[key])
        ensures forall key, id :: !Stale(s, key, id)
      {
        forall key | key in s.cache ensures s.cache[key] < |s.heap| && OnlyThrough(s, s.cache[key]) {
          GuardedLoadsStayFresh(w, s0, steps, s, key);
        }
        ReachedIsFresh(w, s0, steps, s);
        forall key, id ensures !Stale(s, key, id) { FreshIsNotStale(w, s, key, id); }
      }
    } else {
      var b, b' :| w.parse(b).Some? && w.parse(b').Some?
        && ToStoreID(w.parse(b).value, w.digest(b)) == ToStoreID(w.parse(b').value, w.digest(b'))
        && w.digest(b) != w.digest(b');
      var s0, steps, s := ChangesPassBy(w, b, b');
    }
  }

  /** However a guarded run goes on from `s`, the message under `key` is not stale for `id`. */
  ghost predicate StaysFresh(w: World, s: State, key: string, id: string) {
    forall steps, s' :: GuardedRun(w, s, steps, s') ==> !Stale(s', key, id)
  }

  /** Then each load is as safe as it is alone: its message cannot go stale by later guarded steps,
      exactly when nobody is at work under the store ID at the moment of the load. */
  lemma LoadSafeExactlyWhenAlone(w: World, s0: State, before: seq<Step>, s: State, h: nat)
    requires Initial(s0) && GuardedRun(w, s0, before, s) && SumsDetermineIDs(w) && OneKeyPerID(w)
    requires At(s, h).ReadingTags?
    ensures LoadsAlone(s, QueryTags(h)) <==>
      StaysFresh(w, Next(w, s, QueryTags(h)), w.digest(s.handlers[h].body), s.handlers[h].storeID)
  {
    hide GuardedRun, Run, Initial, SumsDetermineIDs, OneKeyPerID, Good, Fresh, Stale, Next, AtWork, HasReadBeside;
    var key, id, one := w.digest(s.handlers[h].body), s.handlers[h].storeID, Next(w, s, QueryTags(h));
    if LoadsAlone(s, QueryTags(h)) {
      ReachedIsFresh(w, s0, before, s);
      StepKeepsFresh(w, s, QueryTags(h));
      forall steps, s' | GuardedRun(w, one, steps, s') ensures !Stale(s', key, id) {
        GuardedRunKeepsFresh(w, one, steps, s');
        FreshIsNotStale(w, s', key, id);
      }
    } else {
      var h' :| h' in s.handlers && s.handlers[h'].storeID == id && AtWork(s.handlers[h']);
      GuardedIsRun(w, s0, before, s);
      ReachedIsPlain(w, s0, before, s);
      ReadsBeside(w, s, h, h');
      assert GuardedRun(w, one, [], one) by { EmptyGuardedRun(w, one); }
      GuardedIsRun(w, one, [], one);
      var steps, s' := ReadBesideWorkGoesStale(w, one, [], one, h, h');
      GuardedGoesOn(w, one, [], one, steps, s');
      assert one.handlers[h].storeID == id && w.digest(one.handlers[h].body) == key by { StillTheSame(w, s, h); }
    }
  }

  lemma StillTheSame(w: World, s: State, h: nat)
    requires At(s, h).ReadingTags?
    ensures var x := Next(w, s, QueryTags(h)).handlers[h];
      x.storeID == s.handlers[h].storeID && x.body == s.handlers[h].body
  {
  }
}
