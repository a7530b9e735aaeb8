/** What no interleaving of handlers breaks, and the one hypothesis part of it needs. */
module HandlerSafety {
  import opened ByteText
  import opened TagLogs
  import opened Messages
  import opened Tables
  import opened Handlers

  /** In every run in every world, PutMessage is attempted only for a store ID that has no row, by
      one handler at a time; and a cached message has a row with its sampling decision. */
  lemma InsertNeverMeetsARow(w: World, s0: State, steps: seq<Step>, s: State)
    requires Initial(s0) && Run(w, s0, steps, s)
    ensures forall h :: h in s.handlers && s.handlers[h].phase.Inserting? ==> s.handlers[h].storeID !in s.db.messages
    ensures forall h, h' ::
      h in s.handlers && h' in s.handlers && InLock(s.handlers[h].phase) && InLock(s.handlers[h'].phase) ==> h == h'
    ensures forall key :: key in s.cache ==>
              && s.cache[key] < |s.heap|
              && var m := s.heap[s.cache[key]];
                 ToStoreID(m.envelope, key) in s.db.messages && s.db.messages[ToStoreID(m.envelope, key)] == m.sampled
  {
    hide ToStoreID, Run, Initial;
    InitialBasics(w, s0);
    RunKeepsBasics(w, s0, steps, s);
    forall h | h in s.handlers ensures HandlerOK(w, s, h) {}
    forall key | key in s.cache ensures EntryOK(w, s, key) {}
  }

  /** A sampling decision, once stored, never changes, and no message object ever changes its own. */
  lemma SamplingIsStable(w: World, s0: State, steps: seq<Step>, s: State, more: seq<Step>, s': State)
    requires Initial(s0) && Run(w, s0, steps, s) && Run(w, s, more, s')
    ensures forall id :: id in s.db.messages ==> id in s'.db.messages && s'.db.messages[id] == s.db.messages[id]
    ensures forall m :: 0 <= m < |s.heap| ==> m < |s'.heap| && s'.heap[m].sampled == s.heap[m].sampled
  {
    hide Run, Initial, Basics;
    InitialBasics(w, s0);
    RunKeepsBasics(w, s0, steps, s);
    RunKeepsBasics(w, s, more, s');
  }

  // ---------- what needs sums to determine store IDs ----------

  /** Bodies with equal sums have equal store IDs. Sums without collisions give this. */
  ghost predicate SumsDetermineIDs(w: World) {
    forall b, b' :: w.parse(b).Some? && w.parse(b').Some? && w.digest(b) == w.digest(b')
      ==> ToStoreID(w.parse(b).value, w.digest(b)) == ToStoreID(w.parse(b').value, w.digest(b'))
  }

  /** A handler in or past the rule loop works under the store ID its message was loaded for; that
      ID has a row, whose sampling decision the message carries. */
  ghost predicate HolderOK(s: State, h: nat)
    requires h in s.handlers
  {
    var x := s.handlers[h];
    Active(x.phase) ==>
      && x.message.Some? && x.message.value < |s.heap|
      && x.storeID == s.heap[x.message.value].storeID
      && x.storeID in s.db.messages
      && s.db.messages[x.storeID] == s.heap[x.message.value].sampled
      && (x.phase.Writing? ==> Only(x.phase.todo, x.storeID))
  }

  ghost predicate Sound(s: State) {
    && (forall h :: h in s.handlers ==> HolderOK(s, h))
    && RowsHaveMessages(s.db)
  }

  /** What shows: a handler in or past the rule loop works for a store ID that has a row, with a
      message that carries the row's sampling decision; and every tag and group_eval row belongs to a
      message row. */
  ghost predicate Safe(s: State) {
    && RowsHaveMessages(s.db)
    && forall h :: h in s.handlers && Active(s.handlers[h].phase) ==>
         && s.handlers[h].message.Some? && s.handlers[h].message.value < |s.heap|
         && s.handlers[h].storeID in s.db.messages
         && s.db.messages[s.handlers[h].storeID] == s.heap[s.handlers[h].message.value].sampled
  }

  lemma SoundIsSafe(s: State)
    requires Sound(s)
    ensures Safe(s)
  {
    hide RowsHaveMessages, Only;
    forall h | h in s.handlers ensures HolderOK(s, h) {}
  }

  lemma OtherHolderKept(s: State, s': State, h: nat)
    requires h in s.handlers && h in s'.handlers && s'.handlers[h] == s.handlers[h]
    requires HolderOK(s, h) && Grows(s, s')
    ensures HolderOK(s', h)
  {
  }

  lemma CacheHitHolds(w: World, s: State, step: Step)
    requires Basics(w, s) && SumsDetermineIDs(w) && Enabled(w, s, step) && (step.LookUp? || step.Recheck?)
    ensures HolderOK(Next(w, s, step), step.h)
  {
  }

  lemma OwnHolderOK(w: World, s: State, step: Step)
    requires Basics(w, s) && Enabled(w, s, step) && !step.LookUp? && !step.Recheck? && !step.Evict?
    requires step.h in s.handlers ==> HolderOK(s, step.h)
    requires RowsHaveMessages(s.db)
    ensures HolderOK(Next(w, s, step), step.h)
  {
    hide Visible, ToStoreID, GroupResult, Change, LastRule, AllRuleWrites, Only, RowsHaveMessages;
    assert step.h in s.handlers ==> HandlerOK(w, s, step.h);
    if step.WriteGroup? {
      var x := s.handlers[step.h];
      RuleWritesChanges(x.storeID, |s.db.groups| + 1, x.group, x.rules);
    } else if step.WriteNext? && s.handlers[step.h].phase.todo != [] {
      OnlyRest(s.handlers[step.h].phase.todo, s.handlers[step.h].storeID);
    }
  }

  lemma OnlyRest(ws: seq<Write>, id: string)
    requires Only(ws, id) && ws != []
    ensures Only(ws[1..], id)
  {
  }

  lemma RowsKept(w: World, s: State, step: Step)
    requires Enabled(w, s, step) && RowsHaveMessages(s.db)
    requires !step.Evict? && step.h in s.handlers ==> HolderOK(s, step.h)
    ensures RowsHaveMessages(Next(w, s, step).db)
  {
    hide Visible, ToStoreID, GroupResult, Change, LastRule, AllRuleWrites;
    var s' := Next(w, s, step);
    if step.WriteGroup? {
      assert s'.db.groups[..|s.db.groups|] == s.db.groups;
    } else if step.WriteNext? && s.handlers[step.h].phase.todo != [] {
      assert s.handlers[step.h].phase.todo[0] in s.handlers[step.h].phase.todo;
    }
  }

  lemma StepKeepsSound(w: World, s: State, step: Step)
    requires Basics(w, s) && Sound(s) && SumsDetermineIDs(w) && Enabled(w, s, step)
    ensures Sound(Next(w, s, step))
  {
    hide Next, HolderOK, Enabled, Grows, Basics, SumsDetermineIDs, RowsHaveMessages;
    var s' := Next(w, s, step);
    StepGrows(w, s, step);
    RowsKept(w, s, step);
    forall h | h in s'.handlers ensures HolderOK(s', h) {
      HandlersEffect(w, s, step, h);
      if step.Evict? || h != step.h {
        OtherHolderKept(s, s', h);
      } else if step.LookUp? || step.Recheck? {
        CacheHitHolds(w, s, step);
      } else {
        OwnHolderOK(w, s, step);
      }
    }
  }

  lemma {:induction false} RunKeepsSound(w: World, s: State, steps: seq<Step>, s': State)
    requires Basics(w, s) && Sound(s) && SumsDetermineIDs(w) && Run(w, s, steps, s')
    ensures Sound(s')
  {
    hide Basics, Enabled, Next, Sound, SumsDetermineIDs;
    if steps != [] {
      var n := |steps| - 1;
      var mid :| Run(w, s, steps[..n], mid) && Enabled(w, mid, steps[n]) && s' == Next(w, mid, steps[n]);
      RunKeepsBasics(w, s, steps[..n], mid);
      RunKeepsSound(w, s, steps[..n], mid);
      StepKeepsSound(w, mid, steps[n]);
    }
  }

  ghost predicate AlwaysSafe(w: World) {
    forall s0, steps, s :: Initial(s0) && Run(w, s0, steps, s) ==> Safe(s)
  }

  /** Every run from every store is safe exactly when sums determine store IDs. The need comes from
      one place: the re-check under the lock may hit a message that another body with the same sum
      put there, and keeps the handler's own store ID. */
  lemma SafeExactlyWhenSumsDetermineIDs(w: World)
    ensures AlwaysSafe(w) <==> SumsDetermineIDs(w)
  {
    hide Run, Initial, Sound, RowsHaveMessages;
    if SumsDetermineIDs(w) {
      forall s0, steps, s | Initial(s0) && Run(w, s0, steps, s) ensures Safe(s) {
        InitialBasics(w, s0);
        InitialSound(s0);
        RunKeepsSound(w, s0, steps, s);
        SoundIsSafe(s);
      }
    } else {
      var b, b' :| w.parse(b).Some? && w.parse(b').Some? && w.digest(b) == w.digest(b')
        && ToStoreID(w.parse(b).value, w.digest(b)) != ToStoreID(w.parse(b').value, w.digest(b'));
      var s0, steps, s := CollidingRun(w, b, b');
    }
  }

  lemma InitialSound(s: State)
    requires Initial(s)
    ensures Sound(s)
  {
  }

  lemma RunOneMore(w: World, s: State, steps: seq<Step>, mid: State, step: Step)
    requires Run(w, s, steps, mid) && Enabled(w, mid, step)
    ensures Run(w, s, steps + [step], Next(w, mid, step))
  {
    hide Enabled, Next;
    assert (steps + [step])[..|steps|] == steps;
  }

  /** Both handlers miss before either caches; the second finds the first one's message, and records
      its evaluation for a store ID that has no message row. */
  lemma CollidingRun(w: World, b: Bytes, b': Bytes) returns (s0: State, steps: seq<Step>, s: State)
    requires w.parse(b).Some? && w.parse(b').Some? && w.digest(b) == w.digest(b')
    requires ToStoreID(w.parse(b).value, w.digest(b)) != ToStoreID(w.parse(b').value, w.digest(b'))
    ensures Initial(s0) && Run(w, s0, steps, s) && !RowsHaveMessages(s.db)
  {
    hide Run, ToStoreID, Visible;
    var key := w.digest(b);
    var id, id' := ToStoreID(w.parse(b).value, key), ToStoreID(w.parse(b').value, key);
    s0 := State(map[], None, map[], [], DB(map[id := true], map[], [], []), [], []);
    steps, s := BothMiss(w, s0, b, b');
    steps, s := Go(w, s0, steps, s, Acquire(0));
    steps, s := Go(w, s0, steps, s, Recheck(0));
    steps, s := Go(w, s0, steps, s, QueryRow(0));
    steps, s := Go(w, s0, steps, s, QueryTags(0));
    steps, s := Go(w, s0, steps, s, CacheAndRelease(0));
    steps, s := Go(w, s0, steps, s, Acquire(1));
    steps, s := Go(w, s0, steps, s, Recheck(1));
    steps, s := Go(w, s0, steps, s, StopLoop(1));
    steps, s := Go(w, s0, steps, s, WriteGroup(1));
    assert s.handlers[1].storeID == id' && s.db.messages == map[id := true];
    assert s.db.groups[0].message == id';
  }

  lemma Go(w: World, s0: State, steps: seq<Step>, s: State, step: Step) returns (steps': seq<Step>, s': State)
    requires Run(w, s0, steps, s) && Enabled(w, s, step)
    ensures steps' == steps + [step] && s' == Next(w, s, step) && Run(w, s0, steps', s')
  {
    hide Enabled, Next, Run;
    RunOneMore(w, s0, steps, s, step);
    steps', s' := steps + [step], Next(w, s, step);
  }

  lemma BothMiss(w: World, s0: State, b: Bytes, b': Bytes) returns (steps: seq<Step>, s: State)
    requires s0.handlers == map[] && s0.cache == map[] && s0.lock.None?
    requires w.parse(b).Some? && w.parse(b').Some?
    ensures Run(w, s0, steps, s)
    ensures s == s0.(handlers := map[
      0 := Handler(b, [], ToStoreID(w.parse(b).value, w.digest(b)), None, [], Waiting),
      1 := Handler(b', [], ToStoreID(w.parse(b').value, w.digest(b')), None, [], Waiting)])
  {
    hide Run, ToStoreID;
    assert Run(w, s0, [], s0) by { EmptyRun(w, s0); }
    steps, s := Go(w, s0, [], s0, Arrive(0, b, []));
    steps, s := Go(w, s0, steps, s, LookUp(0));
    steps, s := Go(w, s0, steps, s, Arrive(1, b', []));
    steps, s := Go(w, s0, steps, s, LookUp(1));
  }

  lemma EmptyRun(w: World, s: State)
    ensures Run(w, s, [], s)
  {
  }
}
