/** Tags under concurrency: what the message objects in memory and the rows in the store have to do
    with the changes the handlers made, and when the two agree once the handlers are done. */
module HandlerTags {
  import opened ByteText
  import opened TagLogs
  import opened Messages
  import opened Tables
  import opened SharedLogs
  import opened Handlers
  import opened HandlerSafety

  function OnMessage(es: seq<Event>, m: nat): seq<Event> {
    if es == [] then []
    else OnMessage(es[..|es| - 1], m) + if es[|es| - 1].message == m then [es[|es| - 1]] else []
  }

  function ForID(es: seq<Event>, id: string): seq<Event> {
    if es == [] then []
    else ForID(es[..|es| - 1], id) + if es[|es| - 1].storeID == id then [es[|es| - 1]] else []
  }

  /** The upserts for `id` since the store had seen `from` of them. */
  function Since(es: seq<Event>, from: nat, id: string): seq<Event>
    requires from <= |es|
  {
    ForID(es[from..], id)
  }

  lemma OnMessageOne(es: seq<Event>, e: Event, m: nat)
    ensures OnMessage(es + [e], m) == OnMessage(es, m) + if e.message == m then [e] else []
  {
  }

  lemma SinceOne(es: seq<Event>, e: Event, from: nat, id: string)
    requires from <= |es|
    ensures Since(es + [e], from, id) == Since(es, from, id) + if e.storeID == id then [e] else []
  {
    assert (es + [e])[from..] == es[from..] + [e];
    assert (es[from..] + [e])[..|es[from..]|] == es[from..];
  }

  // ---------- the invariant ----------

  /** A message object's tags are its first tags and all changes made to it since; the store's view
      of its store ID is the same first tags and all upserts for the ID since. */
  ghost predicate MessageOK(s: State, m: nat)
    requires m < |s.heap|
  {
    var x := s.heap[m];
    && x.tags == Replay(x.base, Changes(OnMessage(s.mutations, m)))
    && StoreFollows(s, x.storeID, x.base, x.loadedAt)
  }

  ghost predicate StoreFollows(s: State, id: string, base: Tags, loadedAt: nat) {
    && loadedAt <= |s.upserts|
    && Visible(s.db, id) == Replay(base, Changes(Since(s.upserts, loadedAt, id)))
  }

  /** The changes a handler has yet to upsert. */
  function Pending(x: Handler): seq<TagChange> {
    match x.phase
    case Running => AllChanges(x.rules)
    case Recording => AllChanges(x.rules)
    case Writing(todo) => ChangesFor(todo, x.storeID)
    case _ => []
  }

  /** A handler's records hold its changes in memory; with what is pending, its upserts are the same. */
  ghost predicate LogOK(s: State, h: nat)
    requires h in s.handlers
  {
    var x := s.handlers[h];
    && ByHandler(s.mutations, h) == AllChanges(x.rules)
    && (!Active(x.phase) && !x.phase.Gone? ==> x.message.None? && x.rules == [] && ByHandler(s.upserts, h) == [])
    && (Active(x.phase) ==> ByHandler(s.upserts, h) + Pending(x) == AllChanges(x.rules))
    && (x.phase.Caching? ==> StoreFollows(s, x.storeID, x.phase.tags, x.phase.loadedAt))
  }

  /** An event is by a known handler on the message that handler holds, under the message's ID. */
  ghost predicate EventOK(s: State, e: Event) {
    && e.handler in s.handlers && s.handlers[e.handler].message == Some(e.message)
    && e.message < |s.heap| && e.storeID == s.heap[e.message].storeID
  }

  ghost predicate EventsOK(s: State, es: seq<Event>) {
    forall i :: 0 <= i < |es| ==> EventOK(s, es[i])
  }

  ghost predicate LoadedFirst(s: State) {
    forall i :: 0 <= i < |s.upserts| && s.upserts[i].message < |s.heap|
      ==> s.heap[s.upserts[i].message].loadedAt <= i
  }

  ghost predicate Tagged(s: State) {
    && (forall m :: 0 <= m < |s.heap| ==> MessageOK(s, m))
    && (forall h :: h in s.handlers ==> LogOK(s, h))
    && EventsOK(s, s.mutations) && EventsOK(s, s.upserts)
    && LoadedFirst(s)
  }

  ghost predicate Good(w: World, s: State) {
    Basics(w, s) && Sound(s) && Tagged(s)
  }

  // ---------- lists of events ----------

  lemma {:induction false} NoLogWithoutEvents(es: seq<Event>, h: nat)
    requires forall i :: 0 <= i < |es| ==> es[i].handler != h
    ensures ByHandler(es, h) == []
  {
    if es != [] {
      NoLogWithoutEvents(es[..|es| - 1], h);
    }
  }

  lemma {:induction false} NothingOnNewMessage(es: seq<Event>, m: nat)
    requires forall i :: 0 <= i < |es| ==> es[i].message != m
    ensures OnMessage(es, m) == []
  {
    if es != [] {
      NothingOnNewMessage(es[..|es| - 1], m);
    }
  }

  lemma ReplayEvent(base: Tags, es: seq<Event>, e: Event)
    ensures Replay(base, Changes(es + [e])) == Change(Replay(base, Changes(es)), e.change)
  {
    hide Replay;
    assert Changes(es + [e]) == Changes(es) + [e.change];
    ReplayAppend(base, Changes(es), [e.change]);
    ReplayOne(Replay(base, Changes(es)), e.change);
  }

  lemma LastRuleChanges(rules: seq<RuleRecord>, r: RuleRecord)
    requires rules != []
    ensures AllChanges(LastRule(rules, r)) == AllChanges(rules[..|rules| - 1]) + r.changes
  {
  }

  lemma OneMoreRule(rules: seq<RuleRecord>, r: RuleRecord)
    ensures AllChanges(rules + [r]) == AllChanges(rules) + r.changes
  {
  }

  lemma FirstWrite(ws: seq<Write>, id: string)
    requires ws != []
    ensures ChangesFor(ws, id)
         == (if ws[0].PutTag? && ws[0].message == id then [ws[0].change] else []) + ChangesFor(ws[1..], id)
  {
    assert ws == [ws[0]] + ws[1..] && [ws[0]][..0] == [];
    ChangesForAppend([ws[0]], ws[1..], id);
  }

  // ---------- steps that change neither tags nor rows of tags ----------

  /** Nothing that the invariant is about moves, except that a handler may get its message. */
  ghost predicate Quiet(s: State, s': State) {
    && s'.heap == s.heap && s'.mutations == s.mutations && s'.upserts == s.upserts
    && (forall id :: Visible(s'.db, id) == Visible(s.db, id))
    && (forall h :: h in s.handlers ==> h in s'.handlers)
    && (forall h :: h in s.handlers && s.handlers[h].message.Some? ==> s'.handlers[h].message == s.handlers[h].message)
  }

  predicate ChangesTags(s: State, step: Step) {
    step.ChangeTag? || step.CacheAndRelease?
    || (step.WriteNext? && At(s, step.h).Writing? && s.handlers[step.h].phase.todo != [])
  }

  lemma QuietStep(w: World, s: State, step: Step)
    requires Enabled(w, s, step) && !ChangesTags(s, step)
    requires !step.Evict? && step.h in s.handlers ==> HandlerOK(w, s, step.h) && LogOK(s, step.h)
    ensures Quiet(s, Next(w, s, step))
  {
    hide Visible, ToStoreID, AllRuleWrites, GroupResult, LastRule, AllChanges, ByHandler, StoreFollows, Pending;
    var s' := Next(w, s, step);
    forall id ensures Visible(s'.db, id) == Visible(s.db, id) {
      if step.Insert? {
        SameTagsSameView(s.db, s'.db, id);
      } else if step.WriteGroup? {
        SameTagsSameView(s.db, s'.db, id);
      }
    }
  }

  lemma QuietKeepsMessages(s: State, s': State)
    requires Tagged(s) && Quiet(s, s')
    ensures forall m :: 0 <= m < |s'.heap| ==> MessageOK(s', m)
    ensures EventsOK(s', s'.mutations) && EventsOK(s', s'.upserts) && LoadedFirst(s')
    ensures forall h :: h in s.handlers && h in s'.handlers && s'.handlers[h] == s.handlers[h] ==> LogOK(s', h)
  {
    hide Visible, Replay, ByHandler, AllChanges, Pending;
    forall m | 0 <= m < |s'.heap| ensures MessageOK(s', m) { assert MessageOK(s, m); }
    forall h | h in s.handlers && h in s'.handlers && s'.handlers[h] == s.handlers[h] ensures LogOK(s', h) {
      assert LogOK(s, h);
    }
    forall i | 0 <= i < |s'.mutations| ensures EventOK(s', s'.mutations[i]) { assert EventOK(s, s.mutations[i]); }
    forall i | 0 <= i < |s'.upserts| ensures EventOK(s', s'.upserts[i]) { assert EventOK(s, s.upserts[i]); }
  }

  lemma NewHandlerLog(w: World, s: State, step: Step)
    requires Tagged(s) && Enabled(w, s, step) && step.Arrive?
    ensures LogOK(Next(w, s, step), step.h)
  {
    hide Visible, ToStoreID;
    assert forall i :: 0 <= i < |s.mutations| ==> EventOK(s, s.mutations[i]);
    assert forall i :: 0 <= i < |s.upserts| ==> EventOK(s, s.upserts[i]);
    NoLogWithoutEvents(s.mutations, step.h);
    NoLogWithoutEvents(s.upserts, step.h);
  }

  lemma LoadedNow(s: State, id: string, tags: Tags)
    requires Visible(s.db, id) == tags
    ensures StoreFollows(s, id, tags, |s.upserts|)
  {
  }

  lemma LoadingLog(w: World, s: State, step: Step)
    requires Basics(w, s) && Sound(s) && Tagged(s) && Enabled(w, s, step) && (step.QueryTags? || step.Insert?)
    ensures LogOK(Next(w, s, step), step.h)
  {
    hide Visible, ToStoreID, StoreFollows, ByHandler, AllChanges, RowsHaveMessages;
    assert HandlerOK(w, s, step.h) && LogOK(s, step.h);
    var s' := Next(w, s, step);
    var id := s.handlers[step.h].storeID;
    if step.QueryTags? {
      LoadedNow(s', id, Visible(s.db, id));
    } else if s'.handlers[step.h].phase.Caching? {
      NoRowNoTags(s.db, id);
      SameTagsSameView(s.db, s'.db, id);
      LoadedNow(s', id, map[]);
    }
  }

  lemma RulesLog(w: World, s: State, step: Step)
    requires Tagged(s) && Enabled(w, s, step)
    requires step.CallRule? || step.RuleReturns? || step.StopLoop? || step.WriteGroup?
    ensures LogOK(Next(w, s, step), step.h)
  {
    hide Visible, ToStoreID, StoreFollows, ByHandler, AllChanges, AllRuleWrites, GroupResult;
    assert LogOK(s, step.h);
    var x := s.handlers[step.h];
    if step.CallRule? {
      OneMoreRule(x.rules, RuleRecord(step.rule, false, None, []));
      assert AllChanges(x.rules) + [] == AllChanges(x.rules);
    } else if step.RuleReturns? {
      var last := x.rules[|x.rules| - 1];
      LastRuleChanges(x.rules, last.(matched := step.matched, err := step.err));
      LastRuleChanges(x.rules, last);
      assert LastRule(x.rules, last) == x.rules;
    } else if step.WriteGroup? {
      RuleWritesChanges(x.storeID, |s.db.groups| + 1, x.group, x.rules);
    }
  }

  lemma LookingLog(w: World, s: State, step: Step)
    requires Tagged(s) && Enabled(w, s, step) && (step.LookUp? || step.Acquire? || step.Recheck? || step.QueryRow?)
    ensures LogOK(Next(w, s, step), step.h)
  {
    hide Visible, ToStoreID, StoreFollows, ByHandler, AllChanges;
    assert LogOK(s, step.h);
    NoRulesNoChanges();
  }

  lemma NoRulesNoChanges()
    ensures AllChanges([]) == []
  {
  }

  lemma EndingLog(w: World, s: State, step: Step)
    requires Tagged(s) && Enabled(w, s, step) && !ChangesTags(s, step) && (step.WriteNext? || step.StoreFails?)
    ensures LogOK(Next(w, s, step), step.h)
  {
    hide Visible, ToStoreID, StoreFollows, ByHandler, AllChanges;
    assert LogOK(s, step.h);
  }

  lemma QuietStepKeepsTagged(w: World, s: State, step: Step)
    requires Good(w, s) && Enabled(w, s, step) && !ChangesTags(s, step)
    ensures Tagged(Next(w, s, step))
  {
    hide Next, Enabled, LogOK, MessageOK, EventsOK, LoadedFirst, HandlerOK, Quiet, ChangesTags, Sound;
    var s' := Next(w, s, step);
    QuietStep(w, s, step);
    QuietKeepsMessages(s, s');
    forall h | h in s'.handlers ensures LogOK(s', h) {
      HandlersEffect(w, s, step, h);
      if !step.Evict? && h == step.h {
        if step.Arrive? {
          NewHandlerLog(w, s, step);
        } else if step.QueryTags? || step.Insert? {
          LoadingLog(w, s, step);
        } else if step.CallRule? || step.RuleReturns? || step.StopLoop? || step.WriteGroup? {
          RulesLog(w, s, step);
        } else {
          QuietRest(s, step);
          if step.WriteNext? || step.StoreFails? {
            EndingLog(w, s, step);
          } else {
            LookingLog(w, s, step);
          }
        }
      }
    }
  }

  lemma QuietRest(s: State, step: Step)
    requires !ChangesTags(s, step) && !step.Evict? && !step.Arrive? && !step.QueryTags? && !step.Insert?
    requires !step.CallRule? && !step.RuleReturns? && !step.StopLoop? && !step.WriteGroup?
    ensures step.LookUp? || step.Acquire? || step.Recheck? || step.QueryRow? || step.WriteNext? || step.StoreFails?
  {
  }

  // ---------- a new message object ----------

  lemma CachingKeepsMessages(w: World, s: State, step: Step, m: nat)
    requires Enabled(w, s, step) && step.CacheAndRelease? && m <= |s.heap| && (m < |s.heap| ==> MessageOK(s, m))
    requires var x := s.handlers[step.h]; StoreFollows(s, x.storeID, x.phase.tags, x.phase.loadedAt)
    requires forall i :: 0 <= i < |s.mutations| ==> s.mutations[i].message < |s.heap|
    ensures MessageOK(Next(w, s, step), m)
  {
    hide Visible, ToStoreID, ByHandler, AllChanges, Since, OnMessage;
    if m == |s.heap| {
      NothingOnNewMessage(s.mutations, m);
    }
  }

  lemma CachingKeepsLogs(w: World, s: State, step: Step, h: nat)
    requires Tagged(s) && Enabled(w, s, step) && step.CacheAndRelease? && h in s.handlers
    ensures LogOK(Next(w, s, step), h)
  {
    hide Visible, ToStoreID, ByHandler, AllChanges, Since;
    assert LogOK(s, h);
    NoRulesNoChanges();
  }

  lemma CachingKeepsEvents(w: World, s: State, step: Step)
    requires Tagged(s) && Enabled(w, s, step) && step.CacheAndRelease?
    ensures var s' := Next(w, s, step); EventsOK(s', s'.mutations) && EventsOK(s', s'.upserts) && LoadedFirst(s')
  {
    hide Visible, ToStoreID, ByHandler, AllChanges, MessageOK;
    var s' := Next(w, s, step);
    assert LogOK(s, step.h);
    forall i | 0 <= i < |s'.mutations| ensures EventOK(s', s'.mutations[i]) { assert EventOK(s, s.mutations[i]); }
    forall i | 0 <= i < |s'.upserts| ensures EventOK(s', s'.upserts[i]) { assert EventOK(s, s.upserts[i]); }
  }

  lemma CachingKeepsTagged(w: World, s: State, step: Step)
    requires Good(w, s) && Enabled(w, s, step) && step.CacheAndRelease?
    ensures Tagged(Next(w, s, step))
  {
    hide Visible, ToStoreID, ByHandler, AllChanges, Sound, Basics, MessageOK, LoadedFirst, StoreFollows;
    var s' := Next(w, s, step);
    assert LogOK(s, step.h);
    assert forall i :: 0 <= i < |s.mutations| ==> EventOK(s, s.mutations[i]);
    hide LogOK, EventsOK;
    forall m | 0 <= m < |s'.heap| ensures MessageOK(s', m) { CachingKeepsMessages(w, s, step, m); }
    forall h | h in s'.handlers ensures LogOK(s', h) { CachingKeepsLogs(w, s, step, h); }
    CachingKeepsEvents(w, s, step);
  }

  // ---------- a change in memory ----------

  lemma ChangeKeepsMessages(w: World, s: State, step: Step, m: nat)
    requires m < |s.heap| && MessageOK(s, m) && Enabled(w, s, step) && step.ChangeTag?
    ensures MessageOK(Next(w, s, step), m)
  {
    hide Visible, Change, ByHandler, AllChanges, LastRule, OnMessage, Since, ForID, Changes, Replay;
    var x := s.handlers[step.h];
    var e := Event(step.h, x.message.value, x.storeID, step.change);
    OnMessageOne(s.mutations, e, m);
    ReplayEvent(s.heap[m].base, OnMessage(s.mutations, m), e);
    assert OnMessage(s.mutations, m) + [] == OnMessage(s.mutations, m);
  }

  lemma ChangeKeepsLogs(w: World, s: State, step: Step, h: nat)
    requires Tagged(s) && Enabled(w, s, step) && step.ChangeTag? && h in s.handlers
    ensures LogOK(Next(w, s, step), h)
  {
    hide Visible, Change, ByHandler, AllChanges, LastRule, Since;
    assert LogOK(s, h);
    var x := s.handlers[step.h];
    var e := Event(step.h, x.message.value, x.storeID, step.change);
    ByHandlerOne(s.mutations, e, h);
    var r := x.rules[|x.rules| - 1];
    LastRuleChanges(x.rules, r.(changes := r.changes + [step.change]));
    LastRuleChanges(x.rules, r);
    assert LastRule(x.rules, r) == x.rules by { SameLastRule(x.rules); }
    assert ByHandler(s.mutations, h) + [] == ByHandler(s.mutations, h);
  }

  lemma SameLastRule(rules: seq<RuleRecord>)
    requires rules != []
    ensures LastRule(rules, rules[|rules| - 1]) == rules
  {
  }

  lemma ChangeKeepsTagged(w: World, s: State, step: Step)
    requires Good(w, s) && Enabled(w, s, step) && step.ChangeTag?
    ensures Tagged(Next(w, s, step))
  {
    hide Visible, Change, ByHandler, AllChanges, LastRule, MessageOK, LogOK, Basics;
    var s' := Next(w, s, step);
    assert HolderOK(s, step.h);
    forall m | 0 <= m < |s'.heap| ensures MessageOK(s', m) { ChangeKeepsMessages(w, s, step, m); }
    forall h | h in s'.handlers ensures LogOK(s', h) { ChangeKeepsLogs(w, s, step, h); }
    forall i | 0 <= i < |s'.mutations| ensures EventOK(s', s'.mutations[i]) {
      assert i < |s.mutations| ==> EventOK(s, s.mutations[i]);
    }
    forall i | 0 <= i < |s'.upserts| ensures EventOK(s', s'.upserts[i]) { assert EventOK(s, s.upserts[i]); }
  }

  // ---------- a statement of RecordEval ----------

  /** The event of a statement, if it is an upsert. */
  function UpsertBy(s: State, h: nat): seq<Event>
    requires h in s.handlers && s.handlers[h].phase.Writing? && s.handlers[h].phase.todo != []
    requires s.handlers[h].message.Some?
  {
    var stmt := s.handlers[h].phase.todo[0];
    if stmt.PutTag? then [Event(h, s.handlers[h].message.value, stmt.message, stmt.change)] else []
  }

  predicate Writes(s: State, step: Step) {
    step.WriteNext? && step.h in s.handlers && s.handlers[step.h].phase.Writing?
    && s.handlers[step.h].phase.todo != [] && s.handlers[step.h].message.Some?
  }

  lemma WriteKeepsFollowing(w: World, s: State, step: Step, id: string, base: Tags, loadedAt: nat)
    requires Enabled(w, s, step) && Writes(s, step) && StoreFollows(s, id, base, loadedAt)
    ensures StoreFollows(Next(w, s, step), id, base, loadedAt)
  {
    hide Visible, Change, Execute, Since, Replay;
    var stmt := s.handlers[step.h].phase.todo[0];
    VisibleStep(s.db, stmt, id);
    if stmt.PutTag? {
      var e := UpsertBy(s, step.h)[0];
      SinceOne(s.upserts, e, loadedAt, id);
      ReplayEvent(base, Since(s.upserts, loadedAt, id), e);
      assert Since(s.upserts, loadedAt, id) + [] == Since(s.upserts, loadedAt, id);
    } else {
      assert s.upserts + [] == s.upserts;
    }
  }

  lemma WriteKeepsLogs(w: World, s: State, step: Step, h: nat)
    requires Tagged(s) && Sound(s) && Enabled(w, s, step) && Writes(s, step) && h in s.handlers
    ensures LogOK(Next(w, s, step), h)
  {
    hide Visible, Execute, ByHandler, AllChanges, ChangesFor, StoreFollows;
    assert LogOK(s, h) && HolderOK(s, step.h);
    var x := s.handlers[step.h];
    var stmt := x.phase.todo[0];
    assert stmt in x.phase.todo;
    FirstWrite(x.phase.todo, x.storeID);
    if stmt.PutTag? {
      ByHandlerOne(s.upserts, UpsertBy(s, step.h)[0], h);
    } else {
      assert s.upserts + [] == s.upserts;
    }
    assert ByHandler(s.upserts, h) + [] == ByHandler(s.upserts, h);
    if s.handlers[h].phase.Caching? {
      WriteKeepsFollowing(w, s, step, s.handlers[h].storeID, s.handlers[h].phase.tags, s.handlers[h].phase.loadedAt);
    }
  }

  lemma WriteKeepsTagged(w: World, s: State, step: Step)
    requires Good(w, s) && Enabled(w, s, step) && Writes(s, step)
    ensures Tagged(Next(w, s, step))
  {
    hide Visible, Execute, ByHandler, AllChanges, LogOK, Basics, StoreFollows;
    var s' := Next(w, s, step);
    assert HolderOK(s, step.h);
    var x := s.handlers[step.h];
    assert x.phase.todo[0] in x.phase.todo;
    assert s'.upserts == s.upserts + UpsertBy(s, step.h);
    forall m | 0 <= m < |s'.heap| ensures MessageOK(s', m) {
      assert MessageOK(s, m);
      WriteKeepsFollowing(w, s, step, s.heap[m].storeID, s.heap[m].base, s.heap[m].loadedAt);
    }
    forall h | h in s'.handlers ensures LogOK(s', h) { WriteKeepsLogs(w, s, step, h); }
    forall i | 0 <= i < |s'.mutations| ensures EventOK(s', s'.mutations[i]) { assert EventOK(s, s.mutations[i]); }
    forall i | 0 <= i < |s'.upserts| ensures EventOK(s', s'.upserts[i]) {
      assert i < |s.upserts| ==> EventOK(s, s.upserts[i]);
    }
    assert LoadedFirst(s') by {
      assert MessageOK(s, x.message.value);
      LoadedBefore(s, x.message.value);
    }
  }

  lemma LoadedBefore(s: State, m: nat)
    requires m < |s.heap| && MessageOK(s, m)
    ensures s.heap[m].loadedAt <= |s.upserts|
  {
  }

  lemma LoadedInPast(w: World, s: State, m: nat)
    requires Good(w, s) && m < |s.heap|
    ensures s.heap[m].loadedAt <= |s.upserts|
  {
    hide Basics, Sound, LogOK, EventsOK, LoadedFirst;
    assert MessageOK(s, m);
    LoadedBefore(s, m);
  }

  // ---------- runs ----------

  lemma StepKeepsGood(w: World, s: State, step: Step)
    requires Good(w, s) && SumsDetermineIDs(w) && Enabled(w, s, step)
    ensures Good(w, Next(w, s, step))
  {
    hide Next, Basics, Sound, Tagged, SumsDetermineIDs, HandlerOK;
    StepKeepsBasics(w, s, step);
    StepKeepsSound(w, s, step);
    if step.ChangeTag? {
      ChangeKeepsTagged(w, s, step);
    } else if step.CacheAndRelease? {
      CachingKeepsTagged(w, s, step);
    } else if ChangesTags(s, step) {
      WriteKeepsTagged(w, s, step);
    } else {
      QuietStepKeepsTagged(w, s, step);
    }
  }

  lemma {:induction false} RunKeepsGood(w: World, s: State, steps: seq<Step>, s': State)
    requires Good(w, s) && SumsDetermineIDs(w) && Run(w, s, steps, s')
    ensures Good(w, s')
  {
    hide Good, Enabled, Next, SumsDetermineIDs;
    if steps != [] {
      var n := |steps| - 1;
      var mid :| Run(w, s, steps[..n], mid) && Enabled(w, mid, steps[n]) && s' == Next(w, mid, steps[n]);
      RunKeepsGood(w, s, steps[..n], mid);
      StepKeepsGood(w, mid, steps[n]);
    }
  }

  lemma InitialGood(w: World, s: State)
    requires Initial(s)
    ensures Good(w, s)
  {
  }

  // ---------- when memory and store agree ----------

  /** The value a key has after some events: that of the last one for it, else the value before. */
  function ValueAfter(base: Tags, es: seq<Event>, key: string): Option<string> {
    if LastValue(es, key).Some? then LastValue(es, key).value else Lookup(base, key)
  }

  lemma ReplayedValue(base: Tags, es: seq<Event>, key: string)
    ensures Lookup(Replay(base, Changes(es)), key) == ValueAfter(base, es, key)
  {
    hide Replay, LastFor, Changes;
    ReplayAt(base, Changes(es), key);
    LastChangeIsLastEvent(es, key);
  }

  /** The changes made to a message in memory, and the upserts for its store ID since it was loaded. */
  function InMemory(s: State, m: nat): seq<Event> {
    OnMessage(s.mutations, m)
  }

  function InStore(s: State, m: nat): seq<Event>
    requires m < |s.heap| && s.heap[m].loadedAt <= |s.upserts|
  {
    Since(s.upserts, s.heap[m].loadedAt, s.heap[m].storeID)
  }

  /** Every handler that ever held the message has recorded all it did. */
  ghost predicate Settled(s: State, m: nat) {
    forall h :: h in s.handlers && s.handlers[h].message == Some(m) ==> s.handlers[h].phase.Done?
  }

  /** Since the message was loaded, nothing was recorded for its store ID but through it. */
  ghost predicate OnlyThrough(s: State, m: nat)
    requires m < |s.heap|
  {
    forall i :: s.heap[m].loadedAt <= i < |s.upserts| && s.upserts[i].storeID == s.heap[m].storeID
      ==> s.upserts[i].message == m
  }

  lemma {:induction false} OnMessageByHandler(es: seq<Event>, m: nat, h: nat)
    requires forall i :: 0 <= i < |es| && es[i].handler == h ==> es[i].message == m
    ensures ByHandler(OnMessage(es, m), h) == ByHandler(es, h)
  {
    if es != [] {
      var n := |es| - 1;
      OnMessageByHandler(es[..n], m, h);
      ByHandlerOne(OnMessage(es[..n], m), es[n], h);
      assert OnMessage(es[..n], m) + [] == OnMessage(es[..n], m);
    }
  }

  lemma {:induction false} OnMessageByOther(es: seq<Event>, m: nat, h: nat)
    requires forall i :: 0 <= i < |es| && es[i].handler == h ==> es[i].message != m
    ensures ByHandler(OnMessage(es, m), h) == []
  {
    if es != [] {
      var n := |es| - 1;
      OnMessageByOther(es[..n], m, h);
      ByHandlerOne(OnMessage(es[..n], m), es[n], h);
      assert OnMessage(es[..n], m) + [] == OnMessage(es[..n], m);
    }
  }

  lemma {:induction false} ForIDByHandler(es: seq<Event>, id: string, h: nat)
    requires forall i :: 0 <= i < |es| && es[i].handler == h ==> es[i].storeID == id
    ensures ByHandler(ForID(es, id), h) == ByHandler(es, h)
  {
    if es != [] {
      var n := |es| - 1;
      ForIDByHandler(es[..n], id, h);
      ByHandlerOne(ForID(es[..n], id), es[n], h);
      assert ForID(es[..n], id) + [] == ForID(es[..n], id);
    }
  }

  lemma {:induction false} ForIDByOther(es: seq<Event>, id: string, h: nat)
    requires forall i :: 0 <= i < |es| && es[i].handler == h ==> es[i].storeID != id
    ensures ByHandler(ForID(es, id), h) == []
  {
    if es != [] {
      var n := |es| - 1;
      ForIDByOther(es[..n], id, h);
      ByHandlerOne(ForID(es[..n], id), es[n], h);
      assert ForID(es[..n], id) + [] == ForID(es[..n], id);
    }
  }

  lemma {:induction false} ByHandlerAppend(es: seq<Event>, fs: seq<Event>, h: nat)
    ensures ByHandler(es + fs, h) == ByHandler(es, h) + ByHandler(fs, h)
  {
    if fs == [] {
      assert es + fs == es;
    } else {
      var n := |fs| - 1;
      ByHandlerAppend(es, fs[..n], h);
      assert es + fs == es + fs[..n] + [fs[n]];
      ByHandlerOne(es + fs[..n], fs[n], h);
    }
  }

  /** The changes of a message in memory and its upserts since it was loaded are two merges of the
      same logs. */
  lemma SettledLogs(w: World, s: State, m: nat)
    requires Good(w, s) && m < |s.heap| && Settled(s, m) && OnlyThrough(s, m)
    ensures s.heap[m].loadedAt <= |s.upserts|
    ensures SameLogs(OnMessage(s.mutations, m), Since(s.upserts, s.heap[m].loadedAt, s.heap[m].storeID))
  {
    hide ByHandler, OnMessage, ForID, MessageOK, LogOK, Basics, Sound;
    var id, from := s.heap[m].storeID, s.heap[m].loadedAt;
    assert MessageOK(s, m);
    LoadedBefore(s, m);
    var late := s.upserts[from..];
    forall h ensures ByHandler(OnMessage(s.mutations, m), h) == ByHandler(Since(s.upserts, from, id), h) {
      assert forall i :: 0 <= i < |s.mutations| ==> EventOK(s, s.mutations[i]);
      assert forall i :: 0 <= i < |s.upserts| ==> EventOK(s, s.upserts[i]);
      assert forall i :: 0 <= i < |late| ==> late[i] == s.upserts[from + i];
      if h in s.handlers && s.handlers[h].message == Some(m) {
        OnMessageByHandler(s.mutations, m, h);
        ForIDByHandler(late, id, h);
        EarlierByOthers(s, m, h);
        DoneLogs(s, h);
      } else {
        OnMessageByOther(s.mutations, m, h);
        ForIDByOther(late, id, h);
      }
    }
  }

  lemma DoneLogs(s: State, h: nat)
    requires h in s.handlers && LogOK(s, h) && s.handlers[h].phase.Done?
    ensures ByHandler(s.mutations, h) == ByHandler(s.upserts, h)
  {
  }

  lemma EarlierByOthers(s: State, m: nat, h: nat)
    requires LoadedFirst(s) && EventsOK(s, s.upserts)
    requires m < |s.heap| && h in s.handlers && s.handlers[h].message == Some(m) && s.heap[m].loadedAt <= |s.upserts|
    ensures ByHandler(s.upserts[s.heap[m].loadedAt..], h) == ByHandler(s.upserts, h)
  {
    hide ByHandler;
    var from := s.heap[m].loadedAt;
    assert forall i :: 0 <= i < |s.upserts| ==> EventOK(s, s.upserts[i]);
    NoLogWithoutEvents(s.upserts[..from], h);
    assert s.upserts == s.upserts[..from] + s.upserts[from..];
    ByHandlerAppend(s.upserts[..from], s.upserts[from..], h);
  }

  lemma SettledMatches(w: World, s: State, m: nat)
    requires Good(w, s) && m < |s.heap| && Settled(s, m) && OnlyThrough(s, m)
    ensures s.heap[m].loadedAt <= |s.upserts|
    ensures var agree := s.heap[m].tags == Visible(s.db, s.heap[m].storeID);
      && (agree <==> forall key :: LastValue(InMemory(s, m), key) == LastValue(InStore(s, m), key))
      && (SameLastHandlers(InMemory(s, m), InStore(s, m)) ==> agree)
      && (DisjointKeys(InMemory(s, m)) ==> agree)
  {
    hide Settled, OnlyThrough, Basics, Sound, OnMessage, Since, Visible, Replay, SameLogs, SameLastHandlers,
         DisjointKeys, LastValue, LogOK, LoadedFirst, EventsOK;
    assert MessageOK(s, m);
    var x := s.heap[m];
    SettledLogs(w, s, m);
    MergesAgree(x.base, InMemory(s, m), InStore(s, m));
    if DisjointKeys(InMemory(s, m)) {
      DisjointKeysAgree(x.base, InMemory(s, m), InStore(s, m));
    }
  }

  /** So once the handlers of a message have recorded all they did, and nothing was recorded for its
      store ID but through it, only the order of the last changes matters: memory and store agree
      exactly when each key's last change and last upsert have the same value, and so whenever both
      are by the same handler, and always when no two handlers touch the same key. */
  lemma SettledMemoryMatchesStore(w: World, s0: State, steps: seq<Step>, s: State, m: nat)
    requires Initial(s0) && Run(w, s0, steps, s) && SumsDetermineIDs(w)
    requires m < |s.heap| && Settled(s, m) && OnlyThrough(s, m)
    ensures s.heap[m].loadedAt <= |s.upserts|
    ensures var agree := s.heap[m].tags == Visible(s.db, s.heap[m].storeID);
      && (agree <==> forall key :: LastValue(InMemory(s, m), key) == LastValue(InStore(s, m), key))
      && (SameLastHandlers(InMemory(s, m), InStore(s, m)) ==> agree)
      && (DisjointKeys(InMemory(s, m)) ==> agree)
  {
    hide Run, Initial, SumsDetermineIDs, Settled, OnlyThrough, Good, InMemory, InStore, Visible, SameLastHandlers,
         DisjointKeys, LastValue;
    InitialGood(w, s0);
    RunKeepsGood(w, s0, steps, s);
    SettledMatches(w, s, m);
  }
}
