/** The converse of `HandlerLoads`, and of the conditions on shared messages: from every state, in every
    world, in which tags are about to be read while another handler is at work under the store ID, or
    in which two handlers are in the rule loop with one message, the daemon can go on to a state in
    which both handlers have recorded everything and memory and store differ. */
module HandlerStaleness {
  import opened ByteText
  import opened TagLogs
  import opened Messages
  import opened Tables
  import opened SharedLogs
  import opened Handlers
  import opened HandlerSafety
  import opened HandlerTags
  import opened HandlerLoads

  // ---------- what one handler can do on its own ----------

  /** Only handler `g` has moved, and neither lock nor cache. */
  ghost predicate Alone(s: State, s': State, g: nat, x: Handler) {
    s'.handlers == s.handlers[g := x] && s'.cache == s.cache && s'.lock == s.lock
  }

  /** No tags are read from the store after the first `n` steps. */
  ghost predicate NoLoads(steps: seq<Step>, n: nat) {
    forall i :: n <= i < |steps| ==> !steps[i].QueryTags?
  }

  lemma NothingToReplay(tags: Tags)
    ensures Replay(tags, []) == tags
  {
  }

  /** The handler has a message and is somewhere between its first rule and its last statement. */
  ghost predicate CanRecord(s: State, g: nat) {
    && g in s.handlers && s.handlers[g].message.Some? && s.handlers[g].message.value < |s.heap|
    && (At(s, g).Running? || At(s, g).Recording? || At(s, g).Writing?)
    && (At(s, g).Writing? ==> Only(s.handlers[g].phase.todo, s.handlers[g].storeID))
  }

  /** A handler without a message has called no rule, and its statements name its own store ID. */
  ghost predicate PlainHandler(x: Handler) {
    && (!Active(x.phase) && !x.phase.Gone? ==> x.rules == [])
    && (x.phase.Writing? ==> Only(x.phase.todo, x.storeID))
  }

  ghost predicate PlainHandlers(s: State) {
    && (forall h :: h in s.handlers ==> PlainHandler(s.handlers[h]))
    && forall i :: 0 <= i < |s.mutations| ==> s.mutations[i].message < |s.heap|
  }

  lemma StepKeepsPlain(w: World, s: State, step: Step)
    requires Enabled(w, s, step) && (!step.Evict? && step.h in s.handlers ==> PlainHandler(s.handlers[step.h]))
    ensures !step.Evict? ==> step.h in Next(w, s, step).handlers && PlainHandler(Next(w, s, step).handlers[step.h])
  {
    hide Visible, ToStoreID, GroupResult, Change, LastRule, AllRuleWrites, Only, Execute;
    if step.WriteGroup? {
      var x := s.handlers[step.h];
      RuleWritesChanges(x.storeID, |s.db.groups| + 1, x.group, x.rules);
    } else if step.WriteNext? && s.handlers[step.h].phase.todo != [] {
      OnlyRest(s.handlers[step.h].phase.todo, s.handlers[step.h].storeID);
    }
  }

  lemma StepKeepsBounds(w: World, s: State, step: Step)
    requires Enabled(w, s, step) && forall i :: 0 <= i < |s.mutations| ==> s.mutations[i].message < |s.heap|
    ensures forall i :: 0 <= i < |Next(w, s, step).mutations| ==>
      Next(w, s, step).mutations[i].message < |Next(w, s, step).heap|
  {
    hide Visible, ToStoreID, GroupResult, Change, LastRule, AllRuleWrites, Execute;
  }

  lemma {:induction false} RunKeepsPlain(w: World, s: State, steps: seq<Step>, s': State)
    requires PlainHandlers(s) && Run(w, s, steps, s')
    ensures PlainHandlers(s')
  {
    hide Enabled, Next, PlainHandler;
    if steps != [] {
      var n := |steps| - 1;
      var mid :| Run(w, s, steps[..n], mid) && Enabled(w, mid, steps[n]) && s' == Next(w, mid, steps[n]);
      RunKeepsPlain(w, s, steps[..n], mid);
      StepKeepsPlain(w, mid, steps[n]);
      StepKeepsBounds(w, mid, steps[n]);
      forall h | h in s'.handlers ensures PlainHandler(s'.handlers[h]) { HandlersEffect(w, mid, steps[n], h); }
    }
  }

  /** All that reachable states need here, whatever the world. */
  lemma ReachedIsPlain(w: World, s0: State, steps: seq<Step>, s: State)
    requires Initial(s0) && Run(w, s0, steps, s)
    ensures Basics(w, s) && PlainHandlers(s)
  {
    hide Run, Basics;
    InitialBasics(w, s0);
    RunKeepsBasics(w, s0, steps, s);
    RunKeepsPlain(w, s0, steps, s);
  }

  lemma {:induction false} WritesAll(w: World, s0: State, before: seq<Step>, s: State, g: nat)
    returns (steps: seq<Step>, s': State)
    requires Run(w, s0, before, s) && At(s, g).Writing? && s.handlers[g].message.Some?
    requires Only(s.handlers[g].phase.todo, s.handlers[g].storeID)
    ensures before <= steps && NoLoads(steps, |before|) && Run(w, s0, steps, s')
    ensures Alone(s, s', g, s.handlers[g].(phase := Done)) && s'.heap == s.heap && s'.mutations == s.mutations
    ensures s'.db.messages == s.db.messages
    ensures Visible(s'.db, s.handlers[g].storeID)
         == Replay(Visible(s.db, s.handlers[g].storeID), ChangesFor(s.handlers[g].phase.todo, s.handlers[g].storeID))
    decreases |s.handlers[g].phase.todo|
  {
    hide Run, Visible, Execute, Replay, ChangesFor;
    var x := s.handlers[g];
    var id, todo := x.storeID, x.phase.todo;
    steps, s' := Go(w, s0, before, s, WriteNext(g));
    if todo == [] {
      NoChanges(id);
      NothingToReplay(Visible(s.db, id));
    } else {
      assert todo[0] in todo;
      VisibleStep(s.db, todo[0], id);
      ExecuteKeepsMessages(s.db, todo[0]);
      FirstWrite(todo, id);
      OnlyRest(todo, id);
      var one := if todo[0].PutTag? then [todo[0].change] else [];
      assert Visible(s'.db, id) == Replay(Visible(s.db, id), one) by {
        if todo[0].PutTag? {
          ReplayOne(Visible(s.db, id), todo[0].change);
        } else {
          NothingToReplay(Visible(s.db, id));
        }
      }
      ReplayAppend(Visible(s.db, id), one, ChangesFor(todo[1..], id));
      var mid := s';
      steps, s' := WritesAll(w, s0, steps, mid, g);
    }
  }

  /** A handler at work can record what is pending, and is done. */
  lemma RecordsAll(w: World, s0: State, before: seq<Step>, s: State, g: nat)
    returns (steps: seq<Step>, s': State)
    requires Run(w, s0, before, s) && CanRecord(s, g)
    ensures before <= steps && NoLoads(steps, |before|) && Run(w, s0, steps, s')
    ensures Alone(s, s', g, s.handlers[g].(phase := Done)) && s'.heap == s.heap && s'.mutations == s.mutations
    ensures s'.db.messages == s.db.messages
    ensures Visible(s'.db, s.handlers[g].storeID)
         == Replay(Visible(s.db, s.handlers[g].storeID), Pending(s.handlers[g]))
  {
    hide Run, Visible, Replay, ChangesFor, AllChanges, AllRuleWrites, Only;
    steps, s' := before, s;
    var x := s.handlers[g];
    if x.phase.Running? {
      steps, s' := Go(w, s0, steps, s', StopLoop(g));
    }
    if s'.handlers[g].phase.Recording? {
      var db := s'.db;
      RuleWritesChanges(x.storeID, |db.groups| + 1, x.group, x.rules);
      steps, s' := Go(w, s0, steps, s', WriteGroup(g));
      SameTagsSameView(db, s'.db, x.storeID);
    }
    var mid := s';
    steps, s' := WritesAll(w, s0, steps, mid, g);
  }

  /** A handler in the rule loop can change any tag. */
  lemma ChangesTag(w: World, s0: State, before: seq<Step>, s: State, g: nat, c: TagChange)
    returns (steps: seq<Step>, s': State)
    requires Run(w, s0, before, s) && CanRecord(s, g) && At(s, g).Running?
    ensures before <= steps && NoLoads(steps, |before|) && Run(w, s0, steps, s')
    ensures var x, m := s.handlers[g], s.handlers[g].message.value;
      && Alone(s, s', g, x.(rules := x.rules + [RuleRecord([], false, None, [c])])) && s'.db == s.db
      && s'.mutations == s.mutations + [Event(g, m, x.storeID, c)]
      && s'.heap == s.heap[m := s.heap[m].(tags := Change(s.heap[m].tags, c))]
  {
    hide Run, Change;
    var x, r := s.handlers[g], RuleRecord([], false, None, []);
    steps, s' := Go(w, s0, before, s, CallRule(g, []));
    steps, s' := Go(w, s0, steps, s', ChangeTag(g, c));
    assert (x.rules + [r])[..|x.rules|] == x.rules && r.changes + [c] == [c];
  }

  /** Whatever was replayed before it, the last change shows. */
  lemma LastChangeShows(tags: Tags, rules: seq<RuleRecord>, c: TagChange)
    ensures Lookup(Replay(tags, AllChanges(rules + [RuleRecord([], false, None, [c])])), c.key) == c.value
  {
    hide Replay, AllChanges;
    OneMoreRule(rules, RuleRecord([], false, None, [c]));
    ReplayAppend(tags, AllChanges(rules), [c]);
    ReplayOne(Replay(tags, AllChanges(rules)), c);
  }

  // ---------- a load beside another handler at work ----------

  function OtherThan(v: Option<string>): (r: string)
    ensures v != Some(r)
  {
    if v == Some("x") then "y" else "x"
  }

  /** The handler can still change tags, or recording what is pending changes what the store shows. */
  ghost predicate WillShow(s: State, h: nat)
    requires h in s.handlers
  {
    var tags := Visible(s.db, s.handlers[h].storeID);
    s.handlers[h].phase.Running? || Replay(tags, Pending(s.handlers[h])) != tags
  }

  /** Such a handler sets a tag if it still can, and is done; then the store shows something else. */
  lemma WorksAndIsDone(w: World, s0: State, before: seq<Step>, s: State, h: nat)
    returns (steps: seq<Step>, s': State)
    requires Run(w, s0, before, s) && CanRecord(s, h) && WillShow(s, h)
    ensures before <= steps && NoLoads(steps, |before|) && Run(w, s0, steps, s')
    ensures exists rules :: Alone(s, s', h, s.handlers[h].(rules := rules, phase := Done))
    ensures |s'.heap| == |s.heap|
    ensures forall m :: 0 <= m < |s.heap| && s.handlers[h].message != Some(m) ==>
      s'.heap[m] == s.heap[m] && InMemory(s', m) == InMemory(s, m)
    ensures Visible(s'.db, s.handlers[h].storeID) != Visible(s.db, s.handlers[h].storeID)
  {
    hide Run, Visible, Replay, AllChanges, ChangesFor, RowsHaveMessages, Only, ToStoreID, Change, OnMessage;
    var x := s.handlers[h];
    var tags := Visible(s.db, x.storeID);
    NothingToReplay(tags);
    if x.phase.Running? {
      var c := TagChange(0, "k", Some(OtherThan(Lookup(tags, "k"))));
      var rules := x.rules + [RuleRecord([], false, None, [c])];
      steps, s' := ChangesTag(w, s0, before, s, h, c);
      LastChangeShows(tags, x.rules, c);
      var mid := s';
      steps, s' := RecordsAll(w, s0, steps, mid, h);
      assert Alone(s, s', h, x.(rules := rules, phase := Done));
      forall m | 0 <= m < |s.heap| && x.message != Some(m) ensures InMemory(s', m) == InMemory(s, m) {
        OnMessageOne(s.mutations, Event(h, x.message.value, x.storeID, c), m);
        assert OnMessage(s.mutations, m) + [] == OnMessage(s.mutations, m);
      }
    } else {
      steps, s' := RecordsAll(w, s0, before, s, h);
      assert Alone(s, s', h, x.(rules := x.rules, phase := Done));
    }
  }

  /** Both handlers of a load beside work are as their phases say. */
  lemma LoaderAndWorker(w: World, s: State, h: nat, h': nat)
    requires Basics(w, s) && PlainHandlers(s)
    requires h in s.handlers && h' in s.handlers && At(s, h).ReadingTags? && AtWork(s.handlers[h'])
    ensures w.parse(s.handlers[h].body).Some? && s.handlers[h].rules == [] && h != h' && CanRecord(s, h')
    ensures Bounded(s)
  {
    hide Visible, AllChanges, ChangesFor, Only, ToStoreID, EntryOK;
    assert HandlerOK(w, s, h) && PlainHandler(s.handlers[h]) && HandlerOK(w, s, h') && PlainHandler(s.handlers[h']);
    forall g | g in s.handlers ensures HandlerOK(w, s, g) {}
  }

  /** Handlers and events speak of messages that exist. */
  ghost predicate Bounded(s: State) {
    && (forall g :: g in s.handlers && s.handlers[g].message.Some? ==> s.handlers[g].message.value < |s.heap|)
    && forall i :: 0 <= i < |s.mutations| ==> s.mutations[i].message < |s.heap|
  }

  /** The cached message differs from the store, though whoever had it has recorded everything and no
      two of them touched one key. */
  ghost predicate Stale(s: State, key: string, id: string) {
    && key in s.cache && s.cache[key] < |s.heap| && s.heap[s.cache[key]].storeID == id
    && Settled(s, s.cache[key]) && DisjointKeys(InMemory(s, s.cache[key]))
    && s.heap[s.cache[key]].tags != Visible(s.db, id)
  }

  /** `h` has read the tags that the store shows, while `h'` is at work. */
  ghost predicate HasReadBeside(w: World, s: State, h: nat, h': nat) {
    && h in s.handlers && h' in s.handlers && h != h' && s.handlers[h].storeID == s.handlers[h'].storeID
    && At(s, h).Caching? && s.handlers[h].phase.tags == Visible(s.db, s.handlers[h].storeID)
    && w.parse(s.handlers[h].body).Some? && s.handlers[h].rules == []
    && CanRecord(s, h') && AtWork(s.handlers[h']) && Bounded(s)
  }

  /** It caches its message and can run rules on it. */
  lemma CachesIt(w: World, s0: State, before: seq<Step>, s: State, h: nat, h': nat)
    returns (steps: seq<Step>, s': State)
    requires Run(w, s0, before, s) && HasReadBeside(w, s, h, h')
    ensures steps == before + [CacheAndRelease(h)] && Run(w, s0, steps, s')
    ensures var x, m := s.handlers[h], |s.heap|;
      && s'.handlers == s.handlers[h := x.(message := Some(m), phase := Running)]
      && s'.cache == s.cache[w.digest(x.body) := m] && |s'.heap| == m + 1 && s'.heap[..m] == s.heap
      && s'.heap[m].tags == Visible(s.db, x.storeID) && s'.heap[m].storeID == x.storeID
      && s'.db == s.db && s'.mutations == s.mutations && InMemory(s', m) == []
    ensures CanRecord(s', h) && CanRecord(s', h')
  {
    hide Run, Visible, Replay, AllChanges, ChangesFor, Only, OnMessage, ToStoreID;
    steps, s' := Go(w, s0, before, s, CacheAndRelease(h));
    NothingOnNewMessage(s.mutations, |s.heap|);
  }

  /** When the other's work will show, the loader does nothing and the other does what shows. */
  lemma ShowingWorkGoesStale(w: World, s0: State, before: seq<Step>, s: State, h: nat, h': nat)
    returns (steps: seq<Step>, s': State)
    requires Run(w, s0, before, s) && HasReadBeside(w, s, h, h') && WillShow(s, h')
    ensures before <= steps && NoLoads(steps, |before|) && Run(w, s0, steps, s') && BothDone(s, s', h, h')
    ensures Stale(s', w.digest(s.handlers[h].body), s.handlers[h].storeID)
  {
    hide Run, Visible, Replay, Pending, OnMessage, CanRecord, AllChanges;
    var id := s.handlers[h].storeID;
    steps, s' := CachesIt(w, s0, before, s, h, h');
    var one := s';
    steps, s' := RecordsAll(w, s0, steps, one, h);
    assert Pending(one.handlers[h]) == [] by { NothingPending(one.handlers[h]); }
    NothingToReplay(Visible(s.db, id));
    var two := s';
    StillCanRecord(one, two, h');
    steps, s' := WorksAndIsDone(w, s0, steps, two, h');
    assert InMemory(s', |s.heap|) == InMemory(two, |s.heap|) == [];
  }

  lemma NothingPending(x: Handler)
    requires x.phase.Running? && x.rules == []
    ensures Pending(x) == []
  {
  }

  /** When it will not, the loader sets a key that the other is about to write, and records first. */
  lemma SilentWorkGoesStale(w: World, s0: State, before: seq<Step>, s: State, h: nat, h': nat)
    returns (steps: seq<Step>, s': State)
    requires Run(w, s0, before, s) && HasReadBeside(w, s, h, h') && !WillShow(s, h')
    ensures before <= steps && NoLoads(steps, |before|) && Run(w, s0, steps, s') && BothDone(s, s', h, h')
    ensures Stale(s', w.digest(s.handlers[h].body), s.handlers[h].storeID)
  {
    hide Run, Visible, Replay, Pending, OnMessage, CanRecord, AllChanges, LastFor, Change;
    var id, m, todo := s.handlers[h].storeID, |s.heap|, Pending(s.handlers[h']);
    var tags := Visible(s.db, id);
    var key := todo[|todo| - 1].key;
    var c := TagChange(0, key, Some(OtherThan(Lookup(tags, key))));
    steps, s' := CachesIt(w, s0, before, s, h, h');
    var one := s';
    steps, s' := ChangesTag(w, s0, steps, one, h, c);
    var two := s';
    StillCanRecord(one, two, h');
    RunningCanRecord(two, h);
    steps, s' := RecordsAll(w, s0, steps, two, h);
    var three := s';
    StillCanRecord(two, three, h');
    steps, s' := RecordsAll(w, s0, steps, three, h');
    OverwrittenAgain(tags, todo, Visible(three.db, id));
    OnMessageOne(one.mutations, Event(h, m, id, c), m);
    assert InMemory(s', m) == [] + [Event(h, m, id, c)];
    assert Lookup(s'.heap[m].tags, key) == c.value;
  }

  lemma RunningCanRecord(s: State, g: nat)
    requires At(s, g).Running? && s.handlers[g].message.Some? && s.handlers[g].message.value < |s.heap|
    ensures CanRecord(s, g)
  {
  }

  /** Changes that change nothing put their last key back, whatever was there meanwhile. */
  lemma OverwrittenAgain(tags: Tags, cs: seq<TagChange>, meanwhile: Tags)
    requires cs != [] && Replay(tags, cs) == tags
    ensures Lookup(Replay(meanwhile, cs), cs[|cs| - 1].key) == Lookup(tags, cs[|cs| - 1].key)
  {
    hide Replay;
    ReplayAt(tags, cs, cs[|cs| - 1].key);
    ReplayAt(meanwhile, cs, cs[|cs| - 1].key);
  }

  /** Both are done, and nobody else has moved. */
  ghost predicate BothDone(s: State, s': State, h: nat, h': nat) {
    && At(s', h).Done? && At(s', h').Done? && s'.handlers.Keys == s.handlers.Keys
    && forall g :: g in s.handlers && g != h && g != h' ==> s'.handlers[g] == s.handlers[g]
  }

  lemma ReadBesideWorkGoesStale(w: World, s0: State, before: seq<Step>, s: State, h: nat, h': nat)
    returns (steps: seq<Step>, s': State)
    requires Run(w, s0, before, s) && HasReadBeside(w, s, h, h')
    ensures before <= steps && NoLoads(steps, |before|) && Run(w, s0, steps, s') && BothDone(s, s', h, h')
    ensures Stale(s', w.digest(s.handlers[h].body), s.handlers[h].storeID)
  {
    hide Run, CanRecord, Bounded, AtWork, Visible, WillShow, Stale;
    if WillShow(s, h') {
      steps, s' := ShowingWorkGoesStale(w, s0, before, s, h, h');
    } else {
      steps, s' := SilentWorkGoesStale(w, s0, before, s, h, h');
    }
  }

  lemma ReadsBeside(w: World, s: State, h: nat, h': nat)
    requires Basics(w, s) && PlainHandlers(s)
    requires h in s.handlers && h' in s.handlers && s.handlers[h].storeID == s.handlers[h'].storeID
    requires At(s, h).ReadingTags? && AtWork(s.handlers[h'])
    ensures HasReadBeside(w, Next(w, s, QueryTags(h)), h, h')
  {
    hide Visible, AllChanges, ChangesFor, Only, ToStoreID, Basics, PlainHandlers;
    LoaderAndWorker(w, s, h, h');
  }

  /** A load beside a handler at work can be continued so that both handlers are done, nobody else has
      moved, and the message now cached differs from the store. */
  lemma LoadBesideWorkCanGoStale(w: World, s0: State, before: seq<Step>, s: State, h: nat, h': nat)
    returns (steps: seq<Step>, s': State)
    requires Initial(s0) && Run(w, s0, before, s)
    requires h in s.handlers && h' in s.handlers && s.handlers[h].storeID == s.handlers[h'].storeID
    requires At(s, h).ReadingTags? && AtWork(s.handlers[h'])
    ensures before + [QueryTags(h)] <= steps && Run(w, s0, steps, s') && BothDone(s, s', h, h')
    ensures Stale(s', w.digest(s.handlers[h].body), s.handlers[h].storeID)
  {
    hide Run, Initial, Visible, AtWork, Basics, PlainHandlers, HasReadBeside, Stale;
    ReachedIsPlain(w, s0, before, s);
    ReadsBeside(w, s, h, h');
    steps, s' := Go(w, s0, before, s, QueryTags(h));
    steps, s' := ReadBesideWorkGoesStale(w, s0, steps, s', h, h');
  }

  lemma StillCanRecord(s: State, s': State, h: nat)
    requires CanRecord(s, h) && h in s'.handlers && s'.handlers[h] == s.handlers[h] && |s.heap| <= |s'.heap|
    ensures CanRecord(s', h)
  {
  }

  // ---------- two handlers with one message ----------

  lemma SharerCanRecord(w: World, s: State, h: nat, m: nat)
    requires Basics(w, s) && PlainHandlers(s) && At(s, h).Running? && s.handlers[h].message == Some(m)
    ensures CanRecord(s, h) && m < |s.heap|
  {
    hide Only, ToStoreID, EntryOK;
    assert HandlerOK(w, s, h);
  }

  /** Two handlers in the rule loop with one message and one store ID can set one key and record in
      the other order; then both are done, nobody else has moved, and memory and store differ. */
  lemma SharersCanDisagree(w: World, s0: State, before: seq<Step>, s: State, h: nat, h': nat, m: nat)
    returns (steps: seq<Step>, s': State)
    requires Initial(s0) && Run(w, s0, before, s)
    requires h != h' && At(s, h).Running? && At(s, h').Running? && s.handlers[h].storeID == s.handlers[h'].storeID
    requires s.handlers[h].message == Some(m) && s.handlers[h'].message == Some(m)
    ensures before <= steps && Run(w, s0, steps, s') && s'.cache == s.cache
    ensures At(s', h).Done? && At(s', h').Done? && s'.handlers.Keys == s.handlers.Keys
    ensures s'.handlers[h].message == s'.handlers[h'].message == Some(m) && m < |s'.heap|
    ensures forall g :: g in s.handlers && g != h && g != h' ==> s'.handlers[g] == s.handlers[g]
    ensures s'.heap[m].tags != Visible(s'.db, s.handlers[h].storeID)
  {
    hide Run, Initial, Visible, Replay, AllChanges, Basics, PlainHandlers, Change;
    ReachedIsPlain(w, s0, before, s);
    SharerCanRecord(w, s, h, m);
    SharerCanRecord(w, s, h', m);
    var c, c' := TagChange(0, "k", Some("x")), TagChange(0, "k", Some("y"));
    steps, s' := ChangesTag(w, s0, before, s, h, c);
    var one := s';
    steps, s' := ChangesTag(w, s0, steps, one, h', c');
    assert Lookup(s'.heap[m].tags, "k") == Some("y");
    var two := s';
    steps, s' := RecordsAll(w, s0, steps, two, h');
    var three := s';
    steps, s' := RecordsAll(w, s0, steps, three, h);
    LastChangeShows(Visible(three.db, s.handlers[h].storeID), s.handlers[h].rules, c);
  }

  // ---------- both happen, in every world with a message ----------

  const EMPTY: State := State(map[], None, map[], [], DB(map[], map[], [], []), [], [])

  /** Handler 0 has inserted and cached the message `b`. */
  function Loaded(w: World, b: Bytes, sampled: bool): State
    requires w.parse(b).Some?
  {
    var e, key := w.parse(b).value, w.digest(b);
    var id := ToStoreID(e, key);
    State(map[0 := Handler(b, [], id, Some(0), [], Running)], None, map[key := 0],
          [Shared(e, sampled, map[], id, map[], 0)], DB(map[id := sampled], map[], [], []), [], [])
  }

  lemma FirstMisses(w: World, b: Bytes) returns (steps: seq<Step>, s: State)
    requires w.parse(b).Some?
    ensures Run(w, EMPTY, steps, s)
    ensures var x := Handler(b, [], ToStoreID(w.parse(b).value, w.digest(b)), None, [], Inserting);
      s == EMPTY.(handlers := map[0 := x], lock := Some(0))
  {
    hide Run, Visible, ToStoreID;
    EmptyRun(w, EMPTY);
    steps, s := Go(w, EMPTY, [], EMPTY, Arrive(0, b, []));
    steps, s := Go(w, EMPTY, steps, s, LookUp(0));
    steps, s := Go(w, EMPTY, steps, s, Acquire(0));
    steps, s := Go(w, EMPTY, steps, s, Recheck(0));
    steps, s := Go(w, EMPTY, steps, s, QueryRow(0));
  }

  lemma FirstLoads(w: World, b: Bytes, sampled: bool) returns (steps: seq<Step>)
    requires w.parse(b).Some? && w.parse(b).value.dateOK
    ensures Run(w, EMPTY, steps, Loaded(w, b, sampled))
  {
    hide Run, Visible, ToStoreID;
    var s;
    steps, s := FirstMisses(w, b);
    steps, s := Go(w, EMPTY, steps, s, Insert(0, sampled));
    steps, s := Go(w, EMPTY, steps, s, CacheAndRelease(0));
    assert s == Loaded(w, b, sampled);
  }

  /** An eviction while the first handler runs its rules makes the second load the message again. */
  lemma ReloadCanBeStale(w: World, b: Bytes, sampled: bool) returns (s0: State, steps: seq<Step>, s: State, key: string)
    requires w.parse(b).Some? && w.parse(b).value.dateOK
    ensures Initial(s0) && Run(w, s0, steps, s) && Stale(s, key, ToStoreID(w.parse(b).value, key))
    ensures forall h :: h in s.handlers ==> s.handlers[h].phase.Done?
  {
    hide Run, Visible, ToStoreID;
    s0, s, key := EMPTY, Loaded(w, b, sampled), w.digest(b);
    steps := FirstLoads(w, b, sampled);
    steps, s := Go(w, s0, steps, s, Evict(key));
    steps, s := Go(w, s0, steps, s, Arrive(1, b, []));
    steps, s := Go(w, s0, steps, s, LookUp(1));
    steps, s := Go(w, s0, steps, s, Acquire(1));
    steps, s := Go(w, s0, steps, s, Recheck(1));
    steps, s := Go(w, s0, steps, s, QueryRow(1));
    steps, s := LoadBesideWorkCanGoStale(w, s0, steps, s, 1, 0);
  }

  /** Two clients that send the message at one time share it. */
  lemma SharingCanDisagree(w: World, b: Bytes, sampled: bool) returns (s0: State, steps: seq<Step>, s: State, m: nat)
    requires w.parse(b).Some? && w.parse(b).value.dateOK
    ensures Initial(s0) && Run(w, s0, steps, s) && m < |s.heap|
    ensures forall h :: h in s.handlers ==> s.handlers[h].phase.Done? && s.handlers[h].message == Some(m)
    ensures s.heap[m].tags != Visible(s.db, ToStoreID(w.parse(b).value, w.digest(b)))
  {
    hide Run, Visible, ToStoreID;
    s0, s, m := EMPTY, Loaded(w, b, sampled), 0;
    steps := FirstLoads(w, b, sampled);
    steps, s := Go(w, s0, steps, s, Arrive(1, b, []));
    steps, s := Go(w, s0, steps, s, LookUp(1));
    steps, s := SharersCanDisagree(w, s0, steps, s, 0, 1, m);
  }
}
