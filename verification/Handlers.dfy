/** Handlers running side by side (handleEval, getCachedMsg and prepareMsg of daemon/daemon.go,
    RecordEval of cmd/reeed/store/sqlite3_store.go), as a machine whose steps are the shortest
    stretches that a lock or a single statement makes atomic. */
module Handlers {
  import opened ByteText
  import opened TagLogs
  import opened Messages
  import opened Tables
  import opened SharedLogs

  /** The MD5 sum of a body and the envelope parsed from it, whatever they are. */
  datatype World = World(digest: Bytes -> string, parse: Bytes -> Option<Envelope>)

  /** Where a handler stands. From Rechecking to Caching it holds the daemon's write lock. */
  datatype Phase =
    | Looking                                                    // before getCachedMsg
    | Waiting                                                    // missed and parsed; before Lock
    | Rechecking                                                 // before the second cache look-up
    | Querying                                                   // before SELECT is_sampled
    | ReadingTags(sampled: bool)                                 // before SELECT key, value
    | Inserting                                                  // no row found; before PutMessage
    | Caching(sampled: bool, tags: Tags, loadedAt: nat)          // before Cache.Put and Unlock
    | Running                                                    // has its message; in the rule loop
    | Recording                                                  // before INSERT INTO group_eval
    | Writing(todo: seq<Write>)                                  // before the other statements
    | Done
    | Gone                                                       // ended by an error on the way

  /** `message` is the heap index of the message the handler works on, once it has one. */
  datatype Handler = Handler(body: Bytes, group: Bytes, storeID: string, message: Option<nat>,
                             rules: seq<RuleRecord>, phase: Phase)

  /** A message object. `storeID`, `base` and `loadedAt` record how it came about: the store ID it
      was loaded for, its first tags, and how many upserts the store had seen by then. */
  datatype Shared = Shared(envelope: Envelope, sampled: bool, tags: Tags,
                           storeID: string, base: Tags, loadedAt: nat)

  /** `mutations` and `upserts` are the changes so far of tags in memory, in the order in which the
      message locks were taken, and of rows in the store, in the order of the statements. */
  datatype State = State(handlers: map<nat, Handler>, lock: Option<nat>, cache: map<string, nat>,
                         heap: seq<Shared>, db: DB, mutations: seq<Event>, upserts: seq<Event>)

  datatype Step =
    | Arrive(h: nat, body: Bytes, group: Bytes)
    | LookUp(h: nat)
    | Acquire(h: nat)
    | Recheck(h: nat)
    | QueryRow(h: nat)
    | QueryTags(h: nat)
    | Insert(h: nat, sampled: bool)
    | CacheAndRelease(h: nat)
    | CallRule(h: nat, rule: Bytes)
    | ChangeTag(h: nat, change: TagChange)
    | RuleReturns(h: nat, matched: bool, err: Option<Bytes>)
    | StopLoop(h: nat)
    | WriteGroup(h: nat)
    | WriteNext(h: nat)
    | StoreFails(h: nat)
    | Evict(key: string)

  predicate InLock(p: Phase) {
    p.Rechecking? || p.Querying? || p.ReadingTags? || p.Inserting? || p.Caching?
  }

  predicate Active(p: Phase) { p.Running? || p.Recording? || p.Writing? || p.Done? }

  predicate UsesStore(p: Phase) {
    p.Querying? || p.ReadingTags? || p.Inserting? || p.Recording? || p.Writing?
  }

  function At(s: State, h: nat): Phase {
    if h in s.handlers then s.handlers[h].phase else Gone
  }

  /** When a step can be taken. A cached index is known to be on the heap; the test only makes the
      step well defined. */
  predicate Enabled(w: World, s: State, step: Step) {
    match step
    case Arrive(h, _, _) => h !in s.handlers
    case LookUp(h) =>
      At(s, h).Looking? && s.lock.None?
      && (w.digest(s.handlers[h].body) in s.cache ==> s.cache[w.digest(s.handlers[h].body)] < |s.heap|)
    case Acquire(h) => At(s, h).Waiting? && s.lock.None?
    case Recheck(h) => At(s, h).Rechecking?
    case QueryRow(h) => At(s, h).Querying?
    case QueryTags(h) => At(s, h).ReadingTags?
    case Insert(h, _) => At(s, h).Inserting? && w.parse(s.handlers[h].body).Some?
    case CacheAndRelease(h) => At(s, h).Caching? && w.parse(s.handlers[h].body).Some?
    case CallRule(h, _) => At(s, h).Running?
    case ChangeTag(h, _) => At(s, h).Running? && s.handlers[h].rules != []
                            && s.handlers[h].message.Some? && s.handlers[h].message.value < |s.heap|
    case RuleReturns(h, _, _) => At(s, h).Running? && s.handlers[h].rules != []
    case StopLoop(h) => At(s, h).Running?
    case WriteGroup(h) => At(s, h).Recording?
    case WriteNext(h) => At(s, h).Writing? && s.handlers[h].message.Some?
    case StoreFails(h) => UsesStore(At(s, h))
    case Evict(_) => true
  }

  function Moved(s: State, h: nat, x: Handler): State {
    s.(handlers := s.handlers[h := x])
  }

  /** The handler got a message from the cache or from the store and enters the rule loop. */
  function Holding(x: Handler, storeID: string, m: nat): Handler {
    x.(storeID := storeID, message := Some(m), phase := Running)
  }

  function LastRule(rules: seq<RuleRecord>, r: RuleRecord): seq<RuleRecord>
    requires rules != []
  {
    rules[..|rules| - 1] + [r]
  }

  function Next(w: World, s: State, step: Step): State
    requires Enabled(w, s, step)
  {
    match step
    case Arrive(h, body, group) => Moved(s, h, Handler(body, group, "", None, [], Looking))
    case LookUp(h) =>
      var x := s.handlers[h];
      var key := w.digest(x.body);
      if key in s.cache then
        Moved(s, h, Holding(x, ToStoreID(s.heap[s.cache[key]].envelope, key), s.cache[key]))
      else if w.parse(x.body).None? then Moved(s, h, x.(phase := Gone))
      else Moved(s, h, x.(storeID := ToStoreID(w.parse(x.body).value, key), phase := Waiting))
    case Acquire(h) => Moved(s, h, s.handlers[h].(phase := Rechecking)).(lock := Some(h))
    case Recheck(h) =>
      var x := s.handlers[h];
      var key := w.digest(x.body);
      // A hit returns the cached message, but the store ID stays that of the handler's own body.
      if key in s.cache then Moved(s, h, Holding(x, x.storeID, s.cache[key])).(lock := None)
      else Moved(s, h, x.(phase := Querying))
    case QueryRow(h) =>
      var x := s.handlers[h];
      if x.storeID in s.db.messages then Moved(s, h, x.(phase := ReadingTags(s.db.messages[x.storeID])))
      else Moved(s, h, x.(phase := Inserting))
    case QueryTags(h) =>
      var x := s.handlers[h];
      Moved(s, h, x.(phase := Caching(x.phase.sampled, Visible(s.db, x.storeID), |s.upserts|)))
    case Insert(h, sampled) =>
      var x := s.handlers[h];
      if w.parse(x.body).value.dateOK && x.storeID !in s.db.messages then
        Moved(s, h, x.(phase := Caching(sampled, map[], |s.upserts|)))
          .(db := s.db.(messages := s.db.messages[x.storeID := sampled]))
      else Moved(s, h, x.(phase := Gone)).(lock := None)
    case CacheAndRelease(h) =>
      var x := s.handlers[h];
      var m := Shared(w.parse(x.body).value, x.phase.sampled, x.phase.tags, x.storeID, x.phase.tags, x.phase.loadedAt);
      Moved(s, h, Holding(x, x.storeID, |s.heap|))
        .(lock := None, heap := s.heap + [m], cache := s.cache[w.digest(x.body) := |s.heap|])
    case CallRule(h, rule) =>
      var x := s.handlers[h];
      Moved(s, h, x.(rules := x.rules + [RuleRecord(rule, false, None, [])]))
    case ChangeTag(h, c) =>
      var x := s.handlers[h];
      var m, r := x.message.value, x.rules[|x.rules| - 1];
      Moved(s, h, x.(rules := LastRule(x.rules, r.(changes := r.changes + [c]))))
        .(heap := s.heap[m := s.heap[m].(tags := Change(s.heap[m].tags, c))],
          mutations := s.mutations + [Event(h, m, x.storeID, c)])
    case RuleReturns(h, matched, err) =>
      var x := s.handlers[h];
      Moved(s, h, x.(rules := LastRule(x.rules, x.rules[|x.rules| - 1].(matched := matched, err := err))))
    case StopLoop(h) => Moved(s, h, s.handlers[h].(phase := Recording))
    case WriteGroup(h) =>
      var x := s.handlers[h];
      var r := GroupResult(x.rules);
      Moved(s, h, x.(phase := Writing(AllRuleWrites(x.storeID, |s.db.groups| + 1, x.group, x.rules))))
        .(db := Execute(s.db, PutGroup(GroupRow(x.storeID, x.group, r.0, r.1))))
    case WriteNext(h) =>
      var x := s.handlers[h];
      if x.phase.todo == [] then Moved(s, h, x.(phase := Done))
      else
        var stmt := x.phase.todo[0];
        Moved(s, h, x.(phase := Writing(x.phase.todo[1..])))
          .(db := Execute(s.db, stmt),
            upserts := s.upserts + if stmt.PutTag? then [Event(h, x.message.value, stmt.message, stmt.change)] else [])
    case StoreFails(h) =>
      var x := s.handlers[h];
      Moved(s, h, x.(phase := Gone)).(lock := if InLock(x.phase) then None else s.lock)
    case Evict(key) => s.(cache := s.cache - {key})
  }

  /** No handlers, an empty cache, and any store whose rows belong to messages. */
  ghost predicate Initial(s: State) {
    && s.handlers == map[] && s.lock.None? && s.cache == map[] && s.heap == []
    && s.mutations == [] && s.upserts == [] && RowsHaveMessages(s.db)
  }

  /** `s'` is reached from `s` by `steps`. */
  ghost predicate Run(w: World, s: State, steps: seq<Step>, s': State) {
    if steps == [] then s' == s
    else
      var n := |steps| - 1;
      exists mid :: Run(w, s, steps[..n], mid) && Enabled(w, mid, steps[n]) && s' == Next(w, mid, steps[n])
  }

  // ---------- what holds in every world ----------

  ghost predicate HandlerOK(w: World, s: State, h: nat)
    requires h in s.handlers
  {
    var x := s.handlers[h];
    && (InLock(x.phase) <==> s.lock == Some(h))
    && (x.phase.Waiting? || InLock(x.phase) ==>
          w.parse(x.body).Some? && x.storeID == ToStoreID(w.parse(x.body).value, w.digest(x.body)))
    && (x.phase.Inserting? ==> x.storeID !in s.db.messages)
    && (x.phase.ReadingTags? ==> x.storeID in s.db.messages && s.db.messages[x.storeID] == x.phase.sampled)
    && (x.phase.Caching? ==> x.storeID in s.db.messages && s.db.messages[x.storeID] == x.phase.sampled)
    && (x.message.Some? ==> x.message.value < |s.heap|)
    && (Active(x.phase) ==> x.message.Some?)
  }

  /** The entry's message has a row under the store ID the entry stands for, with its sampling
      decision; and it was parsed from a body with the entry's sum. */
  ghost predicate EntryOK(w: World, s: State, key: string)
    requires key in s.cache
  {
    var m := s.cache[key];
    && m < |s.heap|
    && ToStoreID(s.heap[m].envelope, key) == s.heap[m].storeID
    && s.heap[m].storeID in s.db.messages
    && s.db.messages[s.heap[m].storeID] == s.heap[m].sampled
    && exists b :: w.digest(b) == key && w.parse(b) == Some(s.heap[m].envelope)
  }

  ghost predicate Basics(w: World, s: State) {
    && (forall h :: h in s.handlers ==> HandlerOK(w, s, h))
    && (forall key :: key in s.cache ==> EntryOK(w, s, key))
    && (s.lock.Some? ==> s.lock.value in s.handlers)
  }

  /** What no step takes away: rows keep their sampling decision, message objects their identity. */
  ghost predicate Grows(s: State, s': State) {
    && (forall id :: id in s.db.messages ==> id in s'.db.messages && s'.db.messages[id] == s.db.messages[id])
    && |s.heap| <= |s'.heap|
    && (forall m :: 0 <= m < |s.heap| ==>
          && s'.heap[m].envelope == s.heap[m].envelope && s'.heap[m].sampled == s.heap[m].sampled
          && s'.heap[m].storeID == s.heap[m].storeID && s'.heap[m].base == s.heap[m].base
          && s'.heap[m].loadedAt == s.heap[m].loadedAt)
  }

  /** How a step by handler `x` may move the lock and the message rows. */
  ghost predicate LockEffect(s: State, s': State, x: nat) {
    && (s'.lock == s.lock || (s.lock.None? && s'.lock == Some(x)) || (s.lock == Some(x) && s'.lock.None?))
    && (s'.db.messages != s.db.messages ==> s.lock == Some(x))
  }

  lemma StepGrows(w: World, s: State, step: Step)
    requires Enabled(w, s, step)
    ensures Grows(s, Next(w, s, step))
  {
    hide Visible, ToStoreID, AllRuleWrites, GroupResult, Change, LastRule, Execute;
    if step.WriteGroup? {
      var r := GroupResult(s.handlers[step.h].rules);
      ExecuteKeepsMessages(s.db, PutGroup(GroupRow(s.handlers[step.h].storeID, s.handlers[step.h].group, r.0, r.1)));
    } else if step.WriteNext? && s.handlers[step.h].phase.todo != [] {
      ExecuteKeepsMessages(s.db, s.handlers[step.h].phase.todo[0]);
    }
  }

  lemma StepMovesLock(w: World, s: State, step: Step)
    requires Enabled(w, s, step) && !step.Evict? && (step.h in s.handlers ==> HandlerOK(w, s, step.h))
    ensures LockEffect(s, Next(w, s, step), step.h)
  {
    hide Visible, ToStoreID, AllRuleWrites, GroupResult, Change, LastRule;
  }

  lemma OtherHandlerKept(w: World, s: State, s': State, x: nat, h: nat)
    requires h != x && h in s.handlers && h in s'.handlers && s'.handlers[h] == s.handlers[h]
    requires HandlerOK(w, s, h) && Grows(s, s') && LockEffect(s, s', x)
    ensures HandlerOK(w, s', h)
  {
  }

  predicate InCache(step: Step) { step.Acquire? || step.Recheck? }

  predicate InPrepare(step: Step) {
    step.QueryRow? || step.QueryTags? || step.Insert? || step.CacheAndRelease? || step.StoreFails?
  }

  lemma OwnHandlerLookingUp(w: World, s: State, step: Step)
    requires Basics(w, s) && Enabled(w, s, step) && step.LookUp?
    ensures HandlerOK(w, Next(w, s, step), step.h)
  {
  }

  lemma OwnHandlerInCache(w: World, s: State, step: Step)
    requires Basics(w, s) && Enabled(w, s, step) && InCache(step)
    ensures HandlerOK(w, Next(w, s, step), step.h)
  {
  }

  lemma OwnHandlerInPrepare(w: World, s: State, step: Step)
    requires Basics(w, s) && Enabled(w, s, step) && InPrepare(step)
    ensures HandlerOK(w, Next(w, s, step), step.h)
  {
    hide Visible, ToStoreID;
    assert HandlerOK(w, s, step.h);
  }

  lemma OwnHandlerElsewhere(w: World, s: State, step: Step)
    requires Basics(w, s) && Enabled(w, s, step) && !step.LookUp? && !InCache(step) && !InPrepare(step) && !step.Evict?
    ensures HandlerOK(w, Next(w, s, step), step.h)
  {
    hide Visible, ToStoreID, AllRuleWrites, GroupResult, Change, LastRule;
    assert step.h in s.handlers ==> HandlerOK(w, s, step.h);
  }

  lemma EntryKept(w: World, s: State, s': State, key: string)
    requires key in s.cache && key in s'.cache && s'.cache[key] == s.cache[key]
    requires EntryOK(w, s, key) && Grows(s, s')
    ensures EntryOK(w, s', key)
  {
  }

  lemma NewEntry(w: World, s: State, step: Step)
    requires Basics(w, s) && Enabled(w, s, step) && step.CacheAndRelease?
    ensures EntryOK(w, Next(w, s, step), w.digest(s.handlers[step.h].body))
  {
  }

  /** Only Cache.Put adds an entry. */
  lemma CacheEffect(w: World, s: State, step: Step, key: string)
    requires Enabled(w, s, step) && key in Next(w, s, step).cache
    ensures (step.CacheAndRelease? && key == w.digest(s.handlers[step.h].body))
         || (key in s.cache && Next(w, s, step).cache[key] == s.cache[key])
  {
  }

  lemma HandlersEffect(w: World, s: State, step: Step, h: nat)
    requires Enabled(w, s, step) && h in Next(w, s, step).handlers
    ensures (!step.Evict? && h == step.h) || (h in s.handlers && Next(w, s, step).handlers[h] == s.handlers[h])
  {
    hide Visible, ToStoreID, AllRuleWrites, GroupResult, Change, LastRule;
  }

  lemma StepKeepsBasics(w: World, s: State, step: Step)
    requires Basics(w, s) && Enabled(w, s, step)
    ensures Basics(w, Next(w, s, step))
  {
    hide Next, HandlerOK, EntryOK, Enabled, Grows, InCache, InPrepare;
    var s' := Next(w, s, step);
    StepGrows(w, s, step);
    if step.Evict? {
      EvictKeepsBasics(w, s, step);
    } else {
      StepMovesLock(w, s, step);
      forall h | h in s'.handlers ensures HandlerOK(w, s', h) {
        HandlersEffect(w, s, step, h);
        if h != step.h {
          OtherHandlerKept(w, s, s', step.h, h);
        } else if step.LookUp? {
          OwnHandlerLookingUp(w, s, step);
        } else if InCache(step) {
          OwnHandlerInCache(w, s, step);
        } else if InPrepare(step) {
          OwnHandlerInPrepare(w, s, step);
        } else {
          OwnHandlerElsewhere(w, s, step);
        }
      }
      forall key | key in s'.cache ensures EntryOK(w, s', key) {
        CacheEffect(w, s, step, key);
        if key in s.cache && s'.cache[key] == s.cache[key] {
          EntryKept(w, s, s', key);
        } else {
          NewEntry(w, s, step);
        }
      }
      LockHolderStays(w, s, step);
    }
  }

  /** While a handler holds the lock, no other looks at the cache, loads a message, or adds one. */
  lemma LockExcludes(w: World, s: State, step: Step, h: nat)
    requires Basics(w, s) && Enabled(w, s, step) && s.lock == Some(h)
    requires step.LookUp? || InCache(step) || step.QueryRow? || step.QueryTags? || step.Insert? || step.CacheAndRelease?
    ensures step.h == h
  {
    assert step.h in s.handlers && HandlerOK(w, s, step.h);
  }

  lemma LockHolderStays(w: World, s: State, step: Step)
    requires Enabled(w, s, step) && (s.lock.Some? ==> s.lock.value in s.handlers)
    ensures Next(w, s, step).lock.Some? ==> Next(w, s, step).lock.value in Next(w, s, step).handlers
  {
  }

  lemma EvictKeepsBasics(w: World, s: State, step: Step)
    requires Basics(w, s) && step.Evict?
    ensures Basics(w, Next(w, s, step))
  {
    hide ToStoreID;
    var s' := Next(w, s, step);
    forall h | h in s'.handlers ensures HandlerOK(w, s', h) { assert HandlerOK(w, s, h); }
    forall key | key in s'.cache ensures EntryOK(w, s', key) { assert EntryOK(w, s, key); }
  }

  lemma {:induction false} RunKeepsBasics(w: World, s: State, steps: seq<Step>, s': State)
    requires Basics(w, s) && Run(w, s, steps, s')
    ensures Basics(w, s') && Grows(s, s')
  {
    hide Basics, Enabled, Next;
    if steps != [] {
      var n := |steps| - 1;
      var mid :| Run(w, s, steps[..n], mid) && Enabled(w, mid, steps[n]) && s' == Next(w, mid, steps[n]);
      RunKeepsBasics(w, s, steps[..n], mid);
      StepKeepsBasics(w, mid, steps[n]);
      StepGrows(w, mid, steps[n]);
    }
  }

  lemma InitialBasics(w: World, s: State)
    requires Initial(s)
    ensures Basics(w, s)
  {
  }
}
