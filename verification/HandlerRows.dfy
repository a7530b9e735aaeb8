/** When memory can be compared with the store at all. A handler that a colliding sum gave another
    body's message records tags for a store ID that has no row. If such an ID gets its row later, the
    message is loaded without these tags. */
module HandlerRows {
  import opened ByteText
  import opened TagLogs
  import opened Messages
  import opened Tables
  import opened Handlers
  import opened HandlerSafety
  import opened HandlerTags
  import opened HandlerStaleness

  /** The store ID of a body whose sum another body with another store ID has. */
  ghost predicate Conflicted(w: World, id: string) {
    exists b, b' :: w.parse(b).Some? && w.parse(b').Some? && w.digest(b) == w.digest(b')
      && ToStoreID(w.parse(b).value, w.digest(b)) == id && ToStoreID(w.parse(b').value, w.digest(b')) != id
  }

  /** No message whose date can be stored has such a store ID. Sums without collisions give this. */
  ghost predicate ConflictsGetNoRow(w: World) {
    forall c :: w.parse(c).Some? && w.parse(c).value.dateOK ==> !Conflicted(w, ToStoreID(w.parse(c).value, w.digest(c)))
  }

  ghost predicate Known(w: World, db: DB, id: string) { id in db.messages || Conflicted(w, id) }

  /** Tags in memory and rows in the store follow the changes made to them; and whoever records, records
      for a store ID that has a row or can get none. */
  ghost predicate Followed(w: World, s: State) {
    && (forall m :: 0 <= m < |s.heap| ==> MessageOK(s, m))
    && (forall h :: h in s.handlers ==> ReaderOK(w, s, h))
    && (forall tk :: tk in s.db.tags ==> Known(w, s.db, tk.message))
    && PlainHandlers(s)
  }

  ghost predicate ReaderOK(w: World, s: State, h: nat)
    requires h in s.handlers
  {
    var x := s.handlers[h];
    && (x.phase.Caching? ==> StoreFollows(s, x.storeID, x.phase.tags, x.phase.loadedAt))
    && (Active(x.phase) ==> Known(w, s.db, x.storeID))
  }

  // ---------- every step keeps it ----------

  /** Only an upsert moves the tag rows. */
  lemma TagsKept(w: World, s: State, step: Step)
    requires Enabled(w, s, step) && !Writes(s, step)
    ensures Next(w, s, step).db.tags == s.db.tags && Next(w, s, step).upserts == s.upserts
  {
    hide Visible, ToStoreID, AllRuleWrites, GroupResult, Change, LastRule;
  }

  lemma FollowingKept(w: World, s: State, step: Step, id: string, base: Tags, loadedAt: nat)
    requires Enabled(w, s, step) && StoreFollows(s, id, base, loadedAt)
    ensures StoreFollows(Next(w, s, step), id, base, loadedAt)
  {
    hide Next, Enabled, Visible, Since, Replay;
    if Writes(s, step) {
      WriteKeepsFollowing(w, s, step, id, base, loadedAt);
    } else {
      TagsKept(w, s, step);
      SameTagsSameView(s.db, Next(w, s, step).db, id);
    }
  }

  lemma HeapKept(w: World, s: State, step: Step)
    requires Enabled(w, s, step) && !step.ChangeTag? && !step.CacheAndRelease?
    ensures Next(w, s, step).heap == s.heap && Next(w, s, step).mutations == s.mutations
  {
    hide Visible, ToStoreID, AllRuleWrites, GroupResult, LastRule, Execute;
  }

  lemma HeapSize(w: World, s: State, step: Step)
    requires Enabled(w, s, step)
    ensures step.CacheAndRelease? ==> step.h in s.handlers && s.handlers[step.h].phase.Caching?
    ensures |Next(w, s, step).heap| == |s.heap| + if step.CacheAndRelease? then 1 else 0
  {
    hide Visible, ToStoreID, AllRuleWrites, GroupResult, LastRule, Execute, Change;
  }

  lemma MessagesFollow(w: World, s: State, step: Step, m: nat)
    requires Enabled(w, s, step) && Followed(w, s) && m < |Next(w, s, step).heap|
    ensures MessageOK(Next(w, s, step), m)
  {
    hide Next, Enabled, OnMessage, StoreFollows, Replay, Known, PlainHandler;
    HeapSize(w, s, step);
    if step.CacheAndRelease? {
      assert ReaderOK(w, s, step.h);
      CachingKeepsMessages(w, s, step, m);
    } else if step.ChangeTag? {
      ChangeKeepsMessages(w, s, step, m);
    } else {
      assert MessageOK(s, m);
      HeapKept(w, s, step);
      FollowingKept(w, s, step, s.heap[m].storeID, s.heap[m].base, s.heap[m].loadedAt);
    }
  }

  lemma KnownStays(w: World, s: State, s': State, id: string)
    requires Known(w, s.db, id) && Grows(s, s')
    ensures Known(w, s'.db, id)
  {
  }

  /** A message from the cache has a row; a body that hits it under the lock has the same store ID, or
      one that another body with its sum does not have. */
  lemma HitIsKnown(w: World, s: State, step: Step)
    requires Basics(w, s) && Enabled(w, s, step) && (step.LookUp? || step.Recheck?)
    requires Active(Next(w, s, step).handlers[step.h].phase)
    ensures Known(w, Next(w, s, step).db, Next(w, s, step).handlers[step.h].storeID)
  {
    hide ToStoreID;
    assert HandlerOK(w, s, step.h);
    var key := w.digest(s.handlers[step.h].body);
    assert EntryOK(w, s, key);
  }

  lemma OwnReaderOK(w: World, s: State, step: Step)
    requires Basics(w, s) && Followed(w, s) && ConflictsGetNoRow(w) && Enabled(w, s, step) && !step.Evict?
    ensures ReaderOK(w, Next(w, s, step), step.h)
  {
    hide Visible, ToStoreID, AllRuleWrites, GroupResult, Change, LastRule, Execute, EntryOK, Known, MessageOK,
         PlainHandlers, ConflictsGetNoRow, StoreFollows;
    var s' := Next(w, s, step);
    assert step.h in s.handlers ==> HandlerOK(w, s, step.h) && ReaderOK(w, s, step.h);
    StepGrows(w, s, step);
    if step.LookUp? || step.Recheck? {
      if Active(s'.handlers[step.h].phase) {
        HitIsKnown(w, s, step);
      }
    } else if step.QueryTags? {
      LoadedNow(s', s.handlers[step.h].storeID, Visible(s.db, s.handlers[step.h].storeID));
    } else if step.Insert? {
      if s'.handlers[step.h].phase.Caching? {
        InsertedHasNoTags(w, s, step.h);
        SameTagsSameView(s.db, s'.db, s.handlers[step.h].storeID);
        LoadedNow(s', s.handlers[step.h].storeID, map[]);
      }
    } else if step.CacheAndRelease? {
      assert Known(w, s'.db, s.handlers[step.h].storeID) by { RowIsKnown(w, s'.db, s.handlers[step.h].storeID); }
    } else if step.h in s.handlers && Active(s.handlers[step.h].phase) {
      KnownStays(w, s, s', s.handlers[step.h].storeID);
    }
  }

  lemma RowIsKnown(w: World, db: DB, id: string)
    requires id in db.messages
    ensures Known(w, db, id)
  {
  }

  /** A body that can be inserted has no conflicted store ID, so nothing was recorded for it before. */
  lemma InsertedHasNoTags(w: World, s: State, h: nat)
    requires Basics(w, s) && Followed(w, s) && ConflictsGetNoRow(w)
    requires At(s, h).Inserting? && w.parse(s.handlers[h].body).Some? && w.parse(s.handlers[h].body).value.dateOK
    ensures Visible(s.db, s.handlers[h].storeID) == map[]
  {
    hide ToStoreID, EntryOK, MessageOK, ReaderOK, PlainHandlers, Conflicted;
    assert HandlerOK(w, s, h);
    assert forall tk :: tk in s.db.tags ==> tk.message != s.handlers[h].storeID;
  }

  lemma RowsAreKnown(w: World, s: State, step: Step, tk: TagKey)
    requires Followed(w, s) && Enabled(w, s, step) && tk in Next(w, s, step).db.tags
    ensures Known(w, Next(w, s, step).db, tk.message)
  {
    hide ToStoreID, Visible, MessageOK, StoreFollows, Conflicted, AllRuleWrites, GroupResult, Change, LastRule;
    StepGrows(w, s, step);
    if Writes(s, step) {
      var x := s.handlers[step.h];
      assert ReaderOK(w, s, step.h) && PlainHandler(x) && x.phase.todo[0] in x.phase.todo;
    } else {
      TagsKept(w, s, step);
    }
  }

  lemma StepKeepsFollowed(w: World, s: State, step: Step)
    requires Basics(w, s) && Followed(w, s) && ConflictsGetNoRow(w) && Enabled(w, s, step)
    ensures Basics(w, Next(w, s, step)) && Followed(w, Next(w, s, step))
  {
    hide Next, Enabled, Basics, MessageOK, PlainHandler, ConflictsGetNoRow, StoreFollows, Known, Grows;
    var s' := Next(w, s, step);
    StepKeepsBasics(w, s, step);
    StepGrows(w, s, step);
    forall m | 0 <= m < |s'.heap| ensures MessageOK(s', m) { MessagesFollow(w, s, step, m); }
    forall h | h in s'.handlers ensures ReaderOK(w, s', h) {
      HandlersEffect(w, s, step, h);
      if !step.Evict? && h == step.h {
        OwnReaderOK(w, s, step);
      } else {
        OtherReaderOK(w, s, step, h);
      }
    }
    forall tk | tk in s'.db.tags ensures Known(w, s'.db, tk.message) { RowsAreKnown(w, s, step, tk); }
    StepKeepsPlain(w, s, step);
    StepKeepsBounds(w, s, step);
    forall h | h in s'.handlers ensures PlainHandler(s'.handlers[h]) { HandlersEffect(w, s, step, h); }
  }

  lemma OtherReaderOK(w: World, s: State, step: Step, h: nat)
    requires Enabled(w, s, step) && h in s.handlers && ReaderOK(w, s, h)
    requires h in Next(w, s, step).handlers && Next(w, s, step).handlers[h] == s.handlers[h]
    ensures ReaderOK(w, Next(w, s, step), h)
  {
    hide Next, Enabled, StoreFollows, Known;
    var x := s.handlers[h];
    StepGrows(w, s, step);
    if x.phase.Caching? {
      FollowingKept(w, s, step, x.storeID, x.phase.tags, x.phase.loadedAt);
    }
    if Active(x.phase) {
      KnownStays(w, s, Next(w, s, step), x.storeID);
    }
  }

  lemma {:induction false} RunKeepsFollowed(w: World, s0: State, steps: seq<Step>, s: State)
    requires Initial(s0) && ConflictsGetNoRow(w) && Run(w, s0, steps, s)
    ensures Basics(w, s) && Followed(w, s)
  {
    hide Enabled, Next, ConflictsGetNoRow, Basics, Followed;
    if steps == [] {
      InitialBasics(w, s0);
      assert Followed(w, s0) by { InitialFollowed(w, s0); }
    } else {
      var n := |steps| - 1;
      var mid :| Run(w, s0, steps[..n], mid) && Enabled(w, mid, steps[n]) && s == Next(w, mid, steps[n]);
      RunKeepsFollowed(w, s0, steps[..n], mid);
      StepKeepsFollowed(w, mid, steps[n]);
    }
  }

  lemma InitialFollowed(w: World, s: State)
    requires Initial(s)
    ensures Followed(w, s)
  {
  }

  // ---------- memory and store, in every state ----------

  /** Every key has the same value after the last change of it in memory as after the last upsert of it
      since the message was loaded; the value it was loaded with counts where there was none. */
  ghost predicate SameLastValues(s: State, m: nat)
    requires m < |s.heap| && s.heap[m].loadedAt <= |s.upserts|
  {
    forall key :: ValueAfter(s.heap[m].base, InMemory(s, m), key) == ValueAfter(s.heap[m].base, InStore(s, m), key)
  }

  /** In every state of every run, exactly these messages have the tags that the store shows. */
  ghost predicate AlwaysComparable(w: World) {
    forall s0, steps, s, m :: Initial(s0) && Run(w, s0, steps, s) && 0 <= m < |s.heap| ==>
      s.heap[m].loadedAt <= |s.upserts|
      && (s.heap[m].tags == Visible(s.db, s.heap[m].storeID) <==> SameLastValues(s, m))
  }

  lemma FollowedIsComparable(s: State, m: nat)
    requires m < |s.heap| && MessageOK(s, m)
    ensures s.heap[m].loadedAt <= |s.upserts|
    ensures s.heap[m].tags == Visible(s.db, s.heap[m].storeID) <==> SameLastValues(s, m)
  {
    hide OnMessage, Since, Visible, Replay, ValueAfter;
    var x := s.heap[m];
    LoadedBefore(s, m);
    forall key
      ensures Lookup(x.tags, key) == ValueAfter(x.base, InMemory(s, m), key)
      ensures Lookup(Visible(s.db, x.storeID), key) == ValueAfter(x.base, InStore(s, m), key)
    {
      ReplayedValue(x.base, InMemory(s, m), key);
      ReplayedValue(x.base, InStore(s, m), key);
    }
    SameLookups(x.tags, Visible(s.db, x.storeID));
  }

  /** In any state of any interleaving, a message's tags are the store's non-null rows exactly when
      every key has the same value after its last change in memory and after its last upsert. */
  lemma MemoryMatchesStore(w: World, s0: State, steps: seq<Step>, s: State, m: nat)
    requires Initial(s0) && Run(w, s0, steps, s) && ConflictsGetNoRow(w) && m < |s.heap|
    ensures s.heap[m].loadedAt <= |s.upserts|
    ensures s.heap[m].tags == Visible(s.db, s.heap[m].storeID) <==> SameLastValues(s, m)
  {
    hide Run, Initial, ConflictsGetNoRow, Basics, Visible, SameLastValues, ReaderOK, Known, PlainHandlers, MessageOK;
    RunKeepsFollowed(w, s0, steps, s);
    FollowedIsComparable(s, m);
  }

  // ---------- a row that comes too late ----------

  /** Handler 1 gets the message of another body with its sum, and records a tag for its own store ID,
      which has no row. Handler 0's message was cached in between and is evicted at the end. */
  lemma RecordsWithoutRow(w: World, b: Bytes, b': Bytes) returns (s0: State, steps: seq<Step>, s: State)
    requires w.parse(b).Some? && w.parse(b').Some? && w.digest(b) == w.digest(b')
    requires ToStoreID(w.parse(b).value, w.digest(b)) != ToStoreID(w.parse(b').value, w.digest(b'))
    ensures Initial(s0) && Run(w, s0, steps, s)
    ensures var id' := ToStoreID(w.parse(b').value, w.digest(b'));
      && s.lock.None? && s.cache == map[] && |s.heap| == 1 && s.handlers.Keys == {0, 1}
      && (forall i :: 0 <= i < |s.mutations| ==> s.mutations[i].message == 0)
      && id' !in s.db.messages && Visible(s.db, id') != map[]
  {
    hide Run, ToStoreID, Visible, Replay, AllChanges, Change;
    var key := w.digest(b);
    var id, id' := ToStoreID(w.parse(b).value, key), ToStoreID(w.parse(b').value, key);
    s0 := State(map[], None, map[], [], DB(map[id := true], map[], [], []), [], []);
    steps, s := BothMiss(w, s0, b, b');
    steps, s := SecondHits(w, s0, steps, s, b, b', id, id');
    var one := s;
    var c := TagChange(0, "k", Some("x"));
    steps, s := ChangesTag(w, s0, steps, one, 1, c);
    var two := s;
    LastChangeShows(Visible(two.db, id'), [], c);
    steps, s := RecordsAll(w, s0, steps, two, 1);
    assert Lookup(Visible(s.db, id'), "k") == Some("x");
    steps, s := Go(w, s0, steps, s, Evict(key));
    assert s.cache == map[];
  }

  lemma SecondHits(w: World, s0: State, before: seq<Step>, s: State, b: Bytes, b': Bytes, id: string, id': string)
    returns (steps: seq<Step>, s': State)
    requires w.parse(b).Some? && w.digest(b) == w.digest(b') && id in s.db.messages && Run(w, s0, before, s)
    requires s.lock.None? && s.cache == map[] && s.heap == [] && s.mutations == []
    requires s.handlers == map[0 := Handler(b, [], id, None, [], Waiting), 1 := Handler(b', [], id', None, [], Waiting)]
    ensures Run(w, s0, steps, s') && s'.lock.None? && s'.cache == map[w.digest(b) := 0] && |s'.heap| == 1
    ensures s'.mutations == [] && s'.db == s.db && s'.handlers.Keys == {0, 1}
    ensures s'.handlers[1] == Handler(b', [], id', Some(0), [], Running)
  {
    hide Run, ToStoreID, Visible;
    steps, s' := Go(w, s0, before, s, Acquire(0));
    steps, s' := Go(w, s0, steps, s', Recheck(0));
    steps, s' := Go(w, s0, steps, s', QueryRow(0));
    steps, s' := Go(w, s0, steps, s', QueryTags(0));
    steps, s' := Go(w, s0, steps, s', CacheAndRelease(0));
    steps, s' := Go(w, s0, steps, s', Acquire(1));
    steps, s' := Go(w, s0, steps, s', Recheck(1));
  }

  lemma ComesToInsert(w: World, s0: State, before: seq<Step>, s: State, c: Bytes, id: string)
    returns (steps: seq<Step>, s': State)
    requires Run(w, s0, before, s) && w.parse(c).Some? && ToStoreID(w.parse(c).value, w.digest(c)) == id
    requires s.lock.None? && s.cache == map[] && 2 !in s.handlers && id !in s.db.messages
    ensures Run(w, s0, steps, s')
    ensures s' == s.(handlers := s.handlers[2 := Handler(c, [], id, None, [], Inserting)], lock := Some(2))
  {
    hide Run, ToStoreID, Visible;
    steps, s' := Go(w, s0, before, s, Arrive(2, c, []));
    steps, s' := Go(w, s0, steps, s', LookUp(2));
    steps, s' := Go(w, s0, steps, s', Acquire(2));
    steps, s' := Go(w, s0, steps, s', Recheck(2));
    steps, s' := Go(w, s0, steps, s', QueryRow(2));
    assert s'.handlers == s.handlers[2 := Handler(c, [], id, None, [], Inserting)];
  }

  /** A body with a good date then inserts the row, and its message does not get the tags. */
  lemma InsertsLate(w: World, s0: State, before: seq<Step>, s: State, c: Bytes, id: string)
    returns (steps: seq<Step>, s': State)
    requires Run(w, s0, before, s) && w.parse(c).Some? && w.parse(c).value.dateOK
    requires ToStoreID(w.parse(c).value, w.digest(c)) == id
    requires s.lock.None? && s.cache == map[] && 2 !in s.handlers && id !in s.db.messages
    ensures Run(w, s0, steps, s') && |s'.heap| == |s.heap| + 1 && s'.mutations == s.mutations && s'.upserts == s.upserts
    ensures s'.db == s.db.(messages := s.db.messages[id := true])
    ensures s'.heap[|s.heap|] == Shared(w.parse(c).value, true, map[], id, map[], |s.upserts|)
  {
    hide Run, ToStoreID, Visible;
    steps, s' := ComesToInsert(w, s0, before, s, c, id);
    steps, s' := Go(w, s0, steps, s', Insert(2, true));
    steps, s' := Go(w, s0, steps, s', CacheAndRelease(2));
  }

  lemma LateRow(w: World, b: Bytes, b': Bytes, c: Bytes) returns (s0: State, steps: seq<Step>, s: State, m: nat)
    requires w.parse(b).Some? && w.parse(b').Some? && w.digest(b) == w.digest(b')
    requires ToStoreID(w.parse(b).value, w.digest(b)) != ToStoreID(w.parse(b').value, w.digest(b'))
    requires w.parse(c).Some? && w.parse(c).value.dateOK
    requires ToStoreID(w.parse(c).value, w.digest(c)) == ToStoreID(w.parse(b').value, w.digest(b'))
    ensures Initial(s0) && Run(w, s0, steps, s) && m < |s.heap| && s.heap[m].loadedAt <= |s.upserts|
    ensures s.heap[m].tags != Visible(s.db, s.heap[m].storeID) && SameLastValues(s, m)
  {
    hide Run, Initial, ToStoreID, Visible, OnMessage;
    steps, m := [], 1;
    s0, steps, s := RecordsWithoutRow(w, b, b');
    var before := s.db;
    var id := ToStoreID(w.parse(b').value, w.digest(b'));
    steps, s := InsertsLate(w, s0, steps, s, c, id);
    SameTagsSameView(before, s.db, id);
    NothingOnNewMessage(s.mutations, m);
    assert s.upserts[|s.upserts|..] == [];
  }

  /** Memory and store can be compared by last values in all states of all runs exactly when no body
      whose date can be stored has a conflicted store ID. */
  lemma ComparableExactly(w: World)
    ensures AlwaysComparable(w) <==> ConflictsGetNoRow(w)
  {
    hide Run, Initial, ToStoreID, Visible, SameLastValues;
    if ConflictsGetNoRow(w) {
      forall s0, steps, s, m: nat | Initial(s0) && Run(w, s0, steps, s) && m < |s.heap|
        ensures s.heap[m].loadedAt <= |s.upserts|
        ensures s.heap[m].tags == Visible(s.db, s.heap[m].storeID) <==> SameLastValues(s, m)
      {
        MemoryMatchesStore(w, s0, steps, s, m);
      }
    } else {
      var c :| w.parse(c).Some? && w.parse(c).value.dateOK && Conflicted(w, ToStoreID(w.parse(c).value, w.digest(c)));
      var b', b :| w.parse(b').Some? && w.parse(b).Some? && w.digest(b') == w.digest(b)
        && ToStoreID(w.parse(b').value, w.digest(b')) == ToStoreID(w.parse(c).value, w.digest(c))
        && ToStoreID(w.parse(b).value, w.digest(b)) != ToStoreID(w.parse(c).value, w.digest(c));
      var s0, steps, s, m := LateRow(w, b, b', c);
    }
  }
}
