/** When a load cannot go stale: a guard on the moment at which prepareMsg reads a message's tags from
    the store (daemon/daemon.go), under which nothing is recorded past a cached message. */
module HandlerLoads {
  import opened ByteText
  import opened TagLogs
  import opened Messages
  import opened Tables
  import opened SharedLogs
  import opened Handlers
  import opened HandlerSafety
  import opened HandlerTags

  /** Bodies with equal store IDs have equal sums: one cache key for each store ID. */
  ghost predicate OneKeyPerID(w: World) {
    forall b, b' :: w.parse(b).Some? && w.parse(b').Some?
      && ToStoreID(w.parse(b).value, w.digest(b)) == ToStoreID(w.parse(b').value, w.digest(b'))
      ==> w.digest(b) == w.digest(b')
  }

  /** The handler can still change tags, or has changes that are not in the store yet. */
  predicate AtWork(x: Handler) { x.phase.Running? || Pending(x) != [] }

  /** Tags are read from the store only while no handler is at work under the store ID. */
  ghost predicate LoadsAlone(s: State, step: Step) {
    step.QueryTags? && step.h in s.handlers ==>
      forall h :: h in s.handlers && s.handlers[h].storeID == s.handlers[step.h].storeID ==> !AtWork(s.handlers[h])
  }

  /** A run in which every load is alone. */
  ghost predicate GuardedRun(w: World, s: State, steps: seq<Step>, s': State) {
    if steps == [] then s' == s
    else
      var n := |steps| - 1;
      exists mid ::
        && GuardedRun(w, s, steps[..n], mid)
        && Enabled(w, mid, steps[n]) && LoadsAlone(mid, steps[n]) && s' == Next(w, mid, steps[n])
  }

  predicate Loading(p: Phase) { p.Querying? || p.ReadingTags? || p.Inserting? || p.Caching? }

  /** A handler that loads a message has nothing cached in its place; and once it has read the store,
      nobody is at work under its store ID and nothing is recorded for it. */
  ghost predicate LoaderOK(w: World, s: State, h: nat)
    requires h in s.handlers
  {
    var x := s.handlers[h];
    && (Loading(x.phase) ==> w.digest(x.body) !in s.cache)
    && (x.phase.Caching? ==> Quiescent(s, x.storeID, x.phase.loadedAt))
  }

  ghost predicate Quiescent(s: State, id: string, from: nat) {
    && (forall h :: h in s.handlers && s.handlers[h].storeID == id ==> !AtWork(s.handlers[h]))
    && forall i :: from <= i < |s.upserts| ==> s.upserts[i].storeID != id
  }

  /** Whoever is at work under a cached message's store ID has that message, and nothing was recorded
      for the ID but through it since it was loaded. */
  ghost predicate CachedOK(s: State, key: string)
    requires key in s.cache
  {
    var m := s.cache[key];
    && m < |s.heap|
    && (forall h :: h in s.handlers && s.handlers[h].storeID == s.heap[m].storeID && AtWork(s.handlers[h])
          ==> s.handlers[h].message == Some(m))
    && OnlyThrough(s, m)
  }

  ghost predicate Fresh(w: World, s: State) {
    && (forall h :: h in s.handlers ==> LoaderOK(w, s, h))
    && (forall key :: key in s.cache ==> CachedOK(s, key))
  }

  // ---------- who is at work, and what is recorded ----------

  predicate Obtains(step: Step) { step.LookUp? || step.Recheck? || step.CacheAndRelease? }

  /** Only getting a message puts a handler to work. */
  lemma WorkerBefore(w: World, s: State, step: Step, h: nat)
    requires Enabled(w, s, step) && h in Next(w, s, step).handlers && AtWork(Next(w, s, step).handlers[h])
    requires step.Evict? || step.h != h || !Obtains(step)
    ensures h in s.handlers && AtWork(s.handlers[h])
    ensures s.handlers[h].storeID == Next(w, s, step).handlers[h].storeID
    ensures s.handlers[h].message == Next(w, s, step).handlers[h].message
  {
    hide Visible, ToStoreID, AllRuleWrites, GroupResult, Change, LastRule, AllChanges, ChangesFor, Execute;
    if step.WriteGroup? {
      var x := s.handlers[step.h];
      RuleWritesChanges(x.storeID, |s.db.groups| + 1, x.group, x.rules);
    } else if step.WriteNext? && s.handlers[step.h].phase.todo != [] {
      FirstWrite(s.handlers[step.h].phase.todo, s.handlers[step.h].storeID);
    }
  }

  /** A handler that gets a message is at work on what the cache now holds for its body. */
  lemma NewWorker(w: World, s: State, step: Step)
    requires Good(w, s) && SumsDetermineIDs(w) && Enabled(w, s, step) && Obtains(step)
    requires AtWork(Next(w, s, step).handlers[step.h])
    ensures var s' := Next(w, s, step);
      var x, key := s'.handlers[step.h], w.digest(s'.handlers[step.h].body);
      key in s'.cache && s'.cache[key] < |s'.heap| && x.message == Some(s'.cache[key])
      && x.storeID == s'.heap[s'.cache[key]].storeID
  {
    hide Visible, ToStoreID, AllChanges, ChangesFor, SumsDetermineIDs, Basics, Tagged, RowsHaveMessages;
    StepKeepsSound(w, s, step);
    assert HolderOK(Next(w, s, step), step.h);
  }

  /** Only a handler at work records changes, for its own store ID and through its own message. */
  lemma UpsertsBy(w: World, s: State, step: Step)
    requires Enabled(w, s, step) && (!step.Evict? && step.h in s.handlers ==> HolderOK(s, step.h))
    ensures var after := Next(w, s, step).upserts;
      || after == s.upserts
      || (&& !step.Evict? && step.h in s.handlers && !InLock(s.handlers[step.h].phase) && AtWork(s.handlers[step.h])
          && |after| == |s.upserts| + 1 && after[..|s.upserts|] == s.upserts
          && after[|s.upserts|].storeID == s.handlers[step.h].storeID
          && s.handlers[step.h].message == Some(after[|s.upserts|].message))
  {
    hide Visible, ToStoreID, AllRuleWrites, GroupResult, Change, LastRule, AllChanges, ChangesFor, Execute;
    if step.WriteNext? && s.handlers[step.h].phase.todo != [] {
      var x := s.handlers[step.h];
      assert x.phase.todo[0] in x.phase.todo;
      FirstWrite(x.phase.todo, x.storeID);
    }
  }

  /** Two cached messages of one store ID are one. */
  lemma OneEntryPerID(w: World, s: State, key: string, key': string)
    requires Basics(w, s) && OneKeyPerID(w) && key in s.cache && key' in s.cache
    requires s.cache[key] < |s.heap| && s.cache[key'] < |s.heap|
    requires s.heap[s.cache[key]].storeID == s.heap[s.cache[key']].storeID
    ensures key == key'
  {
    hide ToStoreID, HandlerOK;
    assert EntryOK(w, s, key) && EntryOK(w, s, key');
  }

  // ---------- every step keeps it ----------

  lemma QuiescentKept(w: World, s: State, step: Step, id: string, from: nat)
    requires Good(w, s) && Enabled(w, s, step) && Quiescent(s, id, from) && from <= |s.upserts|
    requires !step.Evict? && Obtains(step) ==>
      Next(w, s, step).handlers[step.h].storeID != id || !AtWork(Next(w, s, step).handlers[step.h])
    ensures Quiescent(Next(w, s, step), id, from)
  {
    hide Next, AtWork, Enabled, Basics, Tagged, HolderOK, RowsHaveMessages;
    var s' := Next(w, s, step);
    forall h | h in s'.handlers && s'.handlers[h].storeID == id ensures !AtWork(s'.handlers[h]) {
      if AtWork(s'.handlers[h]) && (step.Evict? || step.h != h || !Obtains(step)) {
        WorkerBefore(w, s, step, h);
      }
    }
    UpsertsBy(w, s, step);
    forall i | from <= i < |s'.upserts| ensures s'.upserts[i].storeID != id {
      assert i < |s.upserts| ==> s'.upserts[i] == s'.upserts[..|s.upserts|][i];
    }
  }

  /** While one handler loads, no other gets a message or fills the cache. */
  lemma LoaderExcludes(w: World, s: State, step: Step, h: nat)
    requires Basics(w, s) && Enabled(w, s, step) && h in s.handlers && Loading(s.handlers[h].phase)
    requires step.Evict? || step.h != h
    ensures h in Next(w, s, step).handlers && Next(w, s, step).handlers[h] == s.handlers[h]
    ensures step.Evict? || !Obtains(step)
    ensures Next(w, s, step).cache.Keys <= s.cache.Keys
  {
    hide Visible, ToStoreID, AllRuleWrites, GroupResult, Change, LastRule, Execute, EntryOK;
    assert HandlerOK(w, s, h);
    assert !step.Evict? && step.h in s.handlers ==> HandlerOK(w, s, step.h);
  }

  lemma OtherLoaderKept(w: World, s: State, step: Step, h: nat)
    requires Good(w, s) && Fresh(w, s) && Enabled(w, s, step) && h in s.handlers && (step.Evict? || step.h != h)
    requires h in Next(w, s, step).handlers && Next(w, s, step).handlers[h] == s.handlers[h]
    ensures LoaderOK(w, Next(w, s, step), h)
  {
    hide Next, Enabled, Quiescent, Basics, Sound, CachedOK, StoreFollows, ByHandler, AllChanges, Pending, MessageOK,
         EventsOK, LoadedFirst;
    var x := s.handlers[h];
    assert LoaderOK(w, s, h) && LogOK(s, h);
    if Loading(x.phase) {
      LoaderExcludes(w, s, step, h);
    }
    if x.phase.Caching? {
      FollowsFromBelow(s, x.storeID, x.phase.tags, x.phase.loadedAt);
      QuiescentKept(w, s, step, x.storeID, x.phase.loadedAt);
    }
  }

  lemma FollowsFromBelow(s: State, id: string, base: Tags, from: nat)
    requires StoreFollows(s, id, base, from)
    ensures from <= |s.upserts|
  {
  }

  /** Nobody works for a store ID without a row. */
  lemma NobodyWithoutRow(s: State, id: string)
    requires Sound(s) && id !in s.db.messages
    ensures forall h :: h in s.handlers && s.handlers[h].storeID == id ==> !AtWork(s.handlers[h])
  {
    hide RowsHaveMessages, Only, AllChanges, ChangesFor;
    forall h | h in s.handlers && s.handlers[h].storeID == id ensures !AtWork(s.handlers[h]) {
      assert HolderOK(s, h);
    }
  }

  /** A handler that has just read the store found nobody at work: by the guard when there was a row. */
  lemma OwnLoaderOK(w: World, s: State, step: Step)
    requires Good(w, s) && Enabled(w, s, step) && LoadsAlone(s, step) && !step.Evict?
    requires step.h in s.handlers ==> LoaderOK(w, s, step.h)
    ensures LoaderOK(w, Next(w, s, step), step.h)
  {
    hide Visible, ToStoreID, AllRuleWrites, GroupResult, Change, LastRule, AllChanges, ChangesFor, Execute, Tagged,
         EntryOK, Sound, HandlerOK;
    if step.Insert? && s.handlers[step.h].storeID !in s.db.messages {
      NobodyWithoutRow(s, s.handlers[step.h].storeID);
    }
  }

  lemma CachedKept(w: World, s: State, step: Step, key: string)
    requires Enabled(w, s, step) && Good(w, s) && Good(w, Next(w, s, step)) && SumsDetermineIDs(w) && OneKeyPerID(w)
    requires key in s.cache && CachedOK(s, key)
    requires key in Next(w, s, step).cache && Next(w, s, step).cache[key] == s.cache[key]
    ensures CachedOK(Next(w, s, step), key)
  {
    hide Next, Enabled, AtWork, Sound, Tagged, Obtains, SumsDetermineIDs, OneKeyPerID, Basics;
    var s', m := Next(w, s, step), s.cache[key];
    StepGrows(w, s, step);
    var id := s.heap[m].storeID;
    forall h | h in s'.handlers && s'.handlers[h].storeID == id && AtWork(s'.handlers[h])
      ensures s'.handlers[h].message == Some(m)
    {
      if !step.Evict? && step.h == h && Obtains(step) {
        NewWorker(w, s, step);
        OneEntryPerID(w, s', key, w.digest(s'.handlers[h].body));
      } else {
        WorkerBefore(w, s, step, h);
      }
    }
    OnlyThroughKept(w, s, step, m);
  }

  lemma OnlyThroughKept(w: World, s: State, step: Step, m: nat)
    requires Good(w, s) && Enabled(w, s, step) && m < |s.heap| && OnlyThrough(s, m)
    requires forall h :: h in s.handlers && s.handlers[h].storeID == s.heap[m].storeID && AtWork(s.handlers[h])
               ==> s.handlers[h].message == Some(m)
    ensures m < |Next(w, s, step).heap| && OnlyThrough(Next(w, s, step), m)
  {
    hide Next, Enabled, AtWork, HolderOK, RowsHaveMessages, Tagged, Basics;
    var s' := Next(w, s, step);
    StepGrows(w, s, step);
    UpsertsBy(w, s, step);
    forall i | s'.heap[m].loadedAt <= i < |s'.upserts| && s'.upserts[i].storeID == s'.heap[m].storeID
      ensures s'.upserts[i].message == m
    {
      if i < |s.upserts| {
        assert s'.upserts[i] == s'.upserts[..|s.upserts|][i] == s.upserts[i];
      }
    }
  }

  lemma NewlyCached(w: World, s: State, step: Step)
    requires Good(w, s) && Enabled(w, s, step) && step.CacheAndRelease? && LoaderOK(w, s, step.h)
    ensures CachedOK(Next(w, s, step), w.digest(s.handlers[step.h].body))
  {
    hide Visible, ToStoreID, AllChanges, ChangesFor, Basics, Sound, Tagged;
  }

  lemma StepKeepsFresh(w: World, s: State, step: Step)
    requires Good(w, s) && Fresh(w, s) && SumsDetermineIDs(w) && OneKeyPerID(w) && Enabled(w, s, step)
    requires LoadsAlone(s, step)
    ensures Good(w, Next(w, s, step)) && Fresh(w, Next(w, s, step))
  {
    hide Next, Enabled, LoadsAlone, LoaderOK, CachedOK, Good, SumsDetermineIDs, OneKeyPerID;
    var s' := Next(w, s, step);
    StepKeepsGood(w, s, step);
    forall h | h in s'.handlers ensures LoaderOK(w, s', h) {
      HandlersEffect(w, s, step, h);
      if !step.Evict? && step.h == h {
        OwnLoaderOK(w, s, step);
      } else {
        OtherLoaderKept(w, s, step, h);
      }
    }
    forall key | key in s'.cache ensures CachedOK(s', key) {
      CacheEffect(w, s, step, key);
      if key in s.cache && s'.cache[key] == s.cache[key] {
        CachedKept(w, s, step, key);
      } else {
        LoaderIsKnown(w, s, step);
        NewlyCached(w, s, step);
      }
    }
  }

  lemma LoaderIsKnown(w: World, s: State, step: Step)
    requires Enabled(w, s, step) && step.CacheAndRelease?
    ensures step.h in s.handlers
  {
  }

  lemma {:induction false} GuardedRunKeepsFresh(w: World, s: State, steps: seq<Step>, s': State)
    requires Good(w, s) && Fresh(w, s) && SumsDetermineIDs(w) && OneKeyPerID(w) && GuardedRun(w, s, steps, s')
    ensures Good(w, s') && Fresh(w, s')
  {
    hide Good, Fresh, Enabled, Next, SumsDetermineIDs, OneKeyPerID, LoadsAlone;
    if steps != [] {
      var n := |steps| - 1;
      var mid :|
        && GuardedRun(w, s, steps[..n], mid)
        && Enabled(w, mid, steps[n]) && LoadsAlone(mid, steps[n]) && s' == Next(w, mid, steps[n]);
      GuardedRunKeepsFresh(w, s, steps[..n], mid);
      StepKeepsFresh(w, mid, steps[n]);
    }
  }

  lemma {:induction false} GuardedIsRun(w: World, s: State, steps: seq<Step>, s': State)
    requires GuardedRun(w, s, steps, s')
    ensures Run(w, s, steps, s')
  {
    hide Enabled, Next, LoadsAlone;
    if steps != [] {
      var n := |steps| - 1;
      var mid :|
        && GuardedRun(w, s, steps[..n], mid)
        && Enabled(w, mid, steps[n]) && LoadsAlone(mid, steps[n]) && s' == Next(w, mid, steps[n]);
      GuardedIsRun(w, s, steps[..n], mid);
    }
  }

  lemma InitialFresh(w: World, s: State)
    requires Initial(s)
    ensures Fresh(w, s)
  {
  }

  lemma ReachedIsFresh(w: World, s0: State, steps: seq<Step>, s: State)
    requires Initial(s0) && GuardedRun(w, s0, steps, s) && SumsDetermineIDs(w) && OneKeyPerID(w)
    ensures Good(w, s) && Fresh(w, s)
  {
    hide GuardedRun, Initial, SumsDetermineIDs, OneKeyPerID, Good, Fresh;
    InitialGood(w, s0);
    InitialFresh(w, s0);
    GuardedRunKeepsFresh(w, s0, steps, s);
  }

  /** If store IDs have one cache key each and tags are read from the store only while nobody is at
      work under the store ID, then nothing is ever recorded past a cached message; and once the
      handlers of a cached message are done, its tags are the store's exactly when the last changes
      in memory and in the store agree, certainly so when no two handlers touched the same key. */
  lemma GuardedLoadsStayFresh(w: World, s0: State, steps: seq<Step>, s: State, key: string)
    requires Initial(s0) && GuardedRun(w, s0, steps, s) && SumsDetermineIDs(w) && OneKeyPerID(w)
    requires key in s.cache
    ensures Run(w, s0, steps, s) && s.cache[key] < |s.heap| && OnlyThrough(s, s.cache[key])
    ensures s.heap[s.cache[key]].loadedAt <= |s.upserts|
    ensures var m := s.cache[key];
      Settled(s, m) ==>
        var agree := s.heap[m].tags == Visible(s.db, s.heap[m].storeID);
        && (agree <==> forall k :: LastValue(InMemory(s, m), k) == LastValue(InStore(s, m), k))
        && (DisjointKeys(InMemory(s, m)) ==> agree)
  {
    hide Run, GuardedRun, Initial, SumsDetermineIDs, OneKeyPerID, Good, Settled, OnlyThrough, InMemory, InStore,
         LastValue, DisjointKeys, Visible;
    ReachedIsFresh(w, s0, steps, s);
    GuardedIsRun(w, s0, steps, s);
    assert CachedOK(s, key);
    LoadedInPast(w, s, s.cache[key]);
    if Settled(s, s.cache[key]) {
      SettledMemoryMatchesStore(w, s0, steps, s, s.cache[key]);
    }
  }
}
