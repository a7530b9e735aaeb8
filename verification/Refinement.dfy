/** Every eval request that the daemon object handles is a run of the machine of handlers: the two
    models of prepareMsg, of the rule loop and of RecordEval are one. */
module Refinement {
  import opened ByteText
  import opened TagLogs
  import opened Messages
  import opened Tables
  import opened Stores
  import opened Caches
  import opened Evaluations
  import opened Daemons
  import opened Handlers
  import opened HandlerSafety

  // ---------- one handler, alone ----------

  /** Between `s` and `s'` only handler `g` has moved, and only the tags of its message `m`. */
  ghost predicate OnlyTags(s: State, s': State, g: nat, x: Handler, m: nat, tags: Tags)
    requires m < |s.heap|
  {
    && s'.handlers == s.handlers[g := x] && s'.cache == s.cache && s'.lock == s.lock && s'.db == s.db
    && s'.heap == s.heap[m := s.heap[m].(tags := tags)]
  }

  ghost predicate InLoop(s: State, g: nat, m: nat) {
    At(s, g).Running? && s.handlers[g].message == Some(m) && m < |s.heap|
  }

  lemma {:induction false} MakesChanges(w: World, s0: State, before: seq<Step>, s: State, g: nat, m: nat,
                                        cs: seq<TagChange>)
    returns (steps: seq<Step>, s': State)
    requires Run(w, s0, before, s) && InLoop(s, g, m) && s.handlers[g].rules != []
    ensures before <= steps && Run(w, s0, steps, s')
    ensures var x := s.handlers[g];
      var r := x.rules[|x.rules| - 1];
      OnlyTags(s, s', g, x.(rules := LastRule(x.rules, r.(changes := r.changes + cs))), m, Replay(s.heap[m].tags, cs))
    decreases |cs|
  {
    hide Run, Change;
    var x := s.handlers[g];
    var r := x.rules[|x.rules| - 1];
    if cs == [] {
      steps, s' := before, s;
      assert r.(changes := r.changes + cs) == r && LastRule(x.rules, r) == x.rules;
      assert s.handlers[g := x] == s.handlers && s.heap[m := s.heap[m]] == s.heap;
    } else {
      var n := |cs| - 1;
      steps, s' := MakesChanges(w, s0, before, s, g, m, cs[..n]);
      var mid := s';
      steps, s' := Go(w, s0, steps, mid, ChangeTag(g, cs[n]));
      assert r.changes + cs == r.changes + cs[..n] + [cs[n]];
    }
  }

  lemma RunsRule(w: World, s0: State, before: seq<Step>, s: State, g: nat, m: nat, r: RuleRecord)
    returns (steps: seq<Step>, s': State)
    requires Run(w, s0, before, s) && InLoop(s, g, m)
    ensures before <= steps && Run(w, s0, steps, s')
    ensures var x := s.handlers[g];
      OnlyTags(s, s', g, x.(rules := x.rules + [r]), m, Replay(s.heap[m].tags, r.changes))
  {
    hide Run, Change, Replay;
    var x := s.handlers[g];
    var called := RuleRecord(r.rule, false, None, []);
    steps, s' := Go(w, s0, before, s, CallRule(g, r.rule));
    var one := s';
    assert (x.rules + [called])[..|x.rules|] == x.rules && [] + r.changes == r.changes;
    steps, s' := MakesChanges(w, s0, steps, one, g, m, r.changes);
    var two := s';
    assert two.handlers[g].rules == x.rules + [called.(changes := r.changes)];
    assert (x.rules + [called.(changes := r.changes)])[..|x.rules|] == x.rules;
    steps, s' := Go(w, s0, steps, two, RuleReturns(g, r.matched, r.err));
    assert s'.handlers == s.handlers[g := x.(rules := x.rules + [r])];
  }

  lemma {:induction false} RunsRules(w: World, s0: State, before: seq<Step>, s: State, g: nat, m: nat,
                                     rs: seq<RuleRecord>)
    returns (steps: seq<Step>, s': State)
    requires Run(w, s0, before, s) && InLoop(s, g, m)
    ensures before <= steps && Run(w, s0, steps, s')
    ensures var x := s.handlers[g];
      OnlyTags(s, s', g, x.(rules := x.rules + rs), m, Replay(s.heap[m].tags, AllChanges(rs)))
    decreases |rs|
  {
    hide Run, Replay;
    var x := s.handlers[g];
    if rs == [] {
      steps, s' := before, s;
      NothingReplayed(s.heap[m].tags);
      assert x.rules + rs == x.rules && s.handlers[g := x] == s.handlers;
      assert s.heap[m := s.heap[m].(tags := s.heap[m].tags)] == s.heap;
    } else {
      var n := |rs| - 1;
      steps, s' := RunsRules(w, s0, before, s, g, m, rs[..n]);
      var mid := s';
      steps, s' := RunsRule(w, s0, steps, mid, g, m, rs[n]);
      ReplayAppend(s.heap[m].tags, AllChanges(rs[..n]), rs[n].changes);
      assert x.rules + rs == x.rules + rs[..n] + [rs[n]];
    }
  }

  lemma NothingReplayed(tags: Tags)
    ensures Replay(tags, []) == tags
  {
  }

  /** Only handler `g` and the rows have moved. */
  ghost predicate OnlyRows(s: State, s': State, g: nat, x: Handler, db: DB) {
    s'.handlers == s.handlers[g := x] && s'.cache == s.cache && s'.lock == s.lock && s'.heap == s.heap && s'.db == db
  }

  lemma {:induction false} DoesWrites(w: World, s0: State, before: seq<Step>, s: State, g: nat, k: nat)
    returns (steps: seq<Step>, s': State)
    requires Run(w, s0, before, s) && At(s, g).Writing? && s.handlers[g].message.Some?
    requires k <= |s.handlers[g].phase.todo|
    ensures before <= steps && Run(w, s0, steps, s')
    ensures var x, todo := s.handlers[g], s.handlers[g].phase.todo;
      OnlyRows(s, s', g, x.(phase := Writing(todo[k..])), ExecuteAll(s.db, todo[..k]))
    decreases k
  {
    hide Run, Execute;
    var x, todo := s.handlers[g], s.handlers[g].phase.todo;
    if k == 0 {
      steps, s' := before, s;
      assert todo[0..] == todo && todo[..0] == [] && s.handlers[g := x] == s.handlers;
    } else {
      steps, s' := DoesWrites(w, s0, before, s, g, k - 1);
      var mid := s';
      steps, s' := Go(w, s0, steps, mid, WriteNext(g));
      ExecuteNext(s.db, todo, k - 1);
      assert todo[k - 1..][0] == todo[k - 1] && todo[k - 1..][1..] == todo[k..];
    }
  }

  lemma InsertsGroup(w: World, s0: State, before: seq<Step>, s: State, g: nat)
    returns (steps: seq<Step>, s': State)
    requires Run(w, s0, before, s) && At(s, g).Running?
    ensures before <= steps && Run(w, s0, steps, s')
    ensures var x := s.handlers[g];
      var ws := EvalWrites(s.db, x.storeID, x.group, x.rules);
      OnlyRows(s, s', g, x.(phase := Writing(ws[1..])), ExecuteAll(s.db, ws[..1]))
  {
    hide Run, Execute, AllRuleWrites, GroupResult;
    var x := s.handlers[g];
    var ws := EvalWrites(s.db, x.storeID, x.group, x.rules);
    steps, s' := Go(w, s0, before, s, StopLoop(g));
    steps, s' := Go(w, s0, steps, s', WriteGroup(g));
    assert ws[..1] == [ws[0]] && ws[1..] == AllRuleWrites(x.storeID, |s.db.groups| + 1, x.group, x.rules);
    ExecuteOne(s.db, ws[0]);
    assert s'.handlers == s.handlers[g := x.(phase := Writing(ws[1..]))];
  }

  /** Its last statement is the commit; one that fails ends it. */
  lemma EndsRecording(w: World, s0: State, before: seq<Step>, s: State, g: nat, ok: bool)
    returns (steps: seq<Step>, s': State)
    requires Run(w, s0, before, s) && (At(s, g).Writing? || (At(s, g).Recording? && !ok)) && s.handlers[g].message.Some?
    requires ok ==> s.handlers[g].phase.todo == []
    ensures before <= steps && Run(w, s0, steps, s')
    ensures OnlyRows(s, s', g, s.handlers[g].(phase := if ok then Done else Gone), s.db)
  {
    hide Run;
    if ok {
      steps, s' := Go(w, s0, before, s, WriteNext(g));
    } else {
      steps, s' := Go(w, s0, before, s, StoreFails(g));
    }
  }

  /** After its loop a handler executes the first `k` statements of its recording, and is done or, when
      the next one fails, gone. */
  lemma RecordsSome(w: World, s0: State, before: seq<Step>, s: State, g: nat, k: nat, ok: bool)
    returns (steps: seq<Step>, s': State)
    requires Run(w, s0, before, s) && At(s, g).Running? && s.handlers[g].message.Some?
    requires var ws := EvalWrites(s.db, s.handlers[g].storeID, s.handlers[g].group, s.handlers[g].rules);
      k <= |ws| && (ok ==> k == |ws|)
    ensures before <= steps && Run(w, s0, steps, s')
    ensures var x := s.handlers[g];
      var ws := EvalWrites(s.db, x.storeID, x.group, x.rules);
      OnlyRows(s, s', g, x.(phase := if ok then Done else Gone), ExecuteAll(s.db, ws[..k]))
  {
    hide Run, Next, Execute, ExecuteAll, EvalWrites;
    var x := s.handlers[g];
    var ws := EvalWrites(s.db, x.storeID, x.group, x.rules);
    if k == 0 {
      assert !ok by { SomeWrites(s.db, x.storeID, x.group, x.rules); }
      steps, s' := StopsLoop(w, s0, before, s, g);
      steps, s' := EndsRecording(w, s0, steps, s', g, ok);
      ExecuteNone(s.db, ws);
    } else {
      steps, s' := InsertsGroup(w, s0, before, s, g);
      var mid := s';
      steps, s' := DoesWrites(w, s0, steps, mid, g, k - 1);
      steps, s' := EndsRecording(w, s0, steps, s', g, ok);
      assert ws[..k] == ws[..1] + ws[1..][..k - 1];
      ExecuteAppend(s.db, ws[..1], ws[1..][..k - 1]);
    }
  }

  lemma StopsLoop(w: World, s0: State, before: seq<Step>, s: State, g: nat) returns (steps: seq<Step>, s': State)
    requires Run(w, s0, before, s) && At(s, g).Running?
    ensures before <= steps && Run(w, s0, steps, s') && OnlyRows(s, s', g, s.handlers[g].(phase := Recording), s.db)
  {
    hide Run;
    steps, s' := Go(w, s0, before, s, StopLoop(g));
  }

  lemma SomeWrites(db: DB, message: string, group: Bytes, rules: seq<RuleRecord>)
    ensures EvalWrites(db, message, group, rules) != []
  {
  }

  lemma ExecuteOne(db: DB, w: Write)
    ensures ExecuteAll(db, [w]) == Execute(db, w)
  {
    assert [w][..0] == [];
  }

  // ---------- looking for the message ----------

  /** The store once the message has its row. */
  function WithRow(db: DB, storeID: string, sampled: bool): (r: DB)
    ensures storeID in r.messages
  {
    if storeID in db.messages then db else db.(messages := db.messages[storeID := sampled])
  }

  lemma FindsCached(w: World, s: State, h: nat, body: Bytes, group: Bytes) returns (steps: seq<Step>, s': State)
    requires h !in s.handlers && s.lock.None? && w.digest(body) in s.cache && s.cache[w.digest(body)] < |s.heap|
    ensures Run(w, s, steps, s')
    ensures var m := s.cache[w.digest(body)];
      var x := Handler(body, group, ToStoreID(s.heap[m].envelope, w.digest(body)), Some(m), [], Running);
      s' == s.(handlers := s.handlers[h := x])
  {
    hide Run, ToStoreID, Visible;
    EmptyRun(w, s);
    steps, s' := Go(w, s, [], s, Arrive(h, body, group));
    steps, s' := Go(w, s, steps, s', LookUp(h));
    var m := s.cache[w.digest(body)];
    assert s'.handlers
        == s.handlers[h := Handler(body, group, ToStoreID(s.heap[m].envelope, w.digest(body)), Some(m), [], Running)];
  }

  lemma RefusesBody(w: World, s: State, h: nat, body: Bytes, group: Bytes) returns (steps: seq<Step>, s': State)
    requires h !in s.handlers && s.lock.None? && w.digest(body) !in s.cache && w.parse(body).None?
    ensures Run(w, s, steps, s') && s' == s.(handlers := s.handlers[h := Handler(body, group, "", None, [], Gone)])
  {
    hide Run, ToStoreID, Visible;
    EmptyRun(w, s);
    steps, s' := Go(w, s, [], s, Arrive(h, body, group));
    steps, s' := Go(w, s, steps, s', LookUp(h));
    assert s'.handlers == s.handlers[h := Handler(body, group, "", None, [], Gone)];
  }

  /** The state in which handler `h` holds the lock in phase `p`. */
  function HoldsLock(s: State, h: nat, body: Bytes, group: Bytes, id: string, p: Phase): State {
    s.(handlers := s.handlers[h := Handler(body, group, id, None, [], p)], lock := Some(h))
  }

  lemma ComesToQuery(w: World, s: State, h: nat, body: Bytes, group: Bytes) returns (steps: seq<Step>, s': State)
    requires h !in s.handlers && s.lock.None? && w.digest(body) !in s.cache && w.parse(body).Some?
    ensures Run(w, s, steps, s')
    ensures s' == HoldsLock(s, h, body, group, ToStoreID(w.parse(body).value, w.digest(body)), Querying)
  {
    hide Run, ToStoreID, Visible;
    EmptyRun(w, s);
    steps, s' := Go(w, s, [], s, Arrive(h, body, group));
    steps, s' := Go(w, s, steps, s', LookUp(h));
    steps, s' := Go(w, s, steps, s', Acquire(h));
    steps, s' := Go(w, s, steps, s', Recheck(h));
    var x := Handler(body, group, ToStoreID(w.parse(body).value, w.digest(body)), None, [], Querying);
    assert s'.handlers == s.handlers[h := x];
  }

  /** The handler ended before its rules. */
  ghost predicate TurnedAway(x: Handler, body: Bytes, group: Bytes) {
    x.phase.Gone? && x.body == body && x.group == group && x.rules == []
  }

  /** A store error, or a date that cannot be stored, ends the handler. */
  lemma FailsToLoad(w: World, s: State, h: nat, body: Bytes, group: Bytes, left: Option<nat>)
    returns (steps: seq<Step>, s': State)
    requires h !in s.handlers && s.lock.None? && w.digest(body) !in s.cache && w.parse(body).Some?
    requires !Loadable(left, s.db.messages, ToStoreID(w.parse(body).value, w.digest(body)), w.parse(body).value)
    ensures Run(w, s, steps, s') && h in s'.handlers && TurnedAway(s'.handlers[h], body, group)
    ensures s' == s.(handlers := s.handlers[h := s'.handlers[h]])
  {
    hide Run, ToStoreID, Visible;
    steps, s' := ComesToQuery(w, s, h, body, group);
    if Reach(left, 2) != 2 {
      steps, s' := Go(w, s, steps, s', StoreFails(h));
    } else {
      steps, s' := Go(w, s, steps, s', QueryRow(h));
      steps, s' := Go(w, s, steps, s', Insert(h, true));
    }
    assert s'.handlers == s.handlers[h := s'.handlers[h]];
  }

  /** Otherwise it loads or inserts the message and caches it. */
  lemma LoadsMessage(w: World, s: State, h: nat, body: Bytes, group: Bytes, sampled: bool)
    returns (steps: seq<Step>, s': State)
    requires h !in s.handlers && s.lock.None? && w.digest(body) !in s.cache && w.parse(body).Some?
    requires RowsHaveMessages(s.db)
    requires ToStoreID(w.parse(body).value, w.digest(body)) in s.db.messages || w.parse(body).value.dateOK
    ensures Run(w, s, steps, s') && s'.lock.None?
    ensures var e, key := w.parse(body).value, w.digest(body);
      var id := ToStoreID(e, key);
      var db, tags := WithRow(s.db, id, sampled), Visible(s.db, id);
      && s'.handlers == s.handlers[h := Handler(body, group, id, Some(|s.heap|), [], Running)]
      && s'.cache == s.cache[key := |s.heap|] && s'.db == db
      && s'.heap == s.heap + [Shared(e, db.messages[id], tags, id, tags, |s.upserts|)]
  {
    hide Run, ToStoreID, Visible, RowsHaveMessages;
    var id := ToStoreID(w.parse(body).value, w.digest(body));
    steps, s' := ComesToQuery(w, s, h, body, group);
    steps, s' := Go(w, s, steps, s', QueryRow(h));
    if id in s.db.messages {
      steps, s' := Go(w, s, steps, s', QueryTags(h));
    } else {
      NoRowNoTags(s.db, id);
      steps, s' := Go(w, s, steps, s', Insert(h, sampled));
    }
    steps, s' := Go(w, s, steps, s', CacheAndRelease(h));
    assert s'.handlers == s.handlers[h := Handler(body, group, id, Some(|s.heap|), [], Running)];
  }

  /** Any entries can be evicted. */
  lemma {:induction false} Evicts(w: World, s0: State, before: seq<Step>, s: State, gone: set<string>)
    returns (steps: seq<Step>, s': State)
    requires Run(w, s0, before, s)
    ensures Run(w, s0, steps, s') && s' == s.(cache := s.cache - gone)
    decreases |gone|
  {
    hide Run;
    if gone == {} {
      steps, s' := before, s;
      assert s.cache - gone == s.cache;
    } else {
      var key :| key in gone;
      steps, s' := Evicts(w, s0, before, s, gone - {key});
      var mid := s';
      steps, s' := Go(w, s0, steps, mid, Evict(key));
      assert mid.cache - {key} == s.cache - gone;
    }
  }

  // ---------- the daemon object is the machine ----------

  /** What the machine knows of a message object. */
  datatype Seen = Seen(envelope: Envelope, sampled: bool, tags: Tags)

  function SeenOf(msg: Message): Seen
    reads msg
  {
    Seen(msg.envelope, msg.sampled, msg.Tags())
  }

  /** What is cached under which key. */
  ghost function Looks(d: Daemon): (looks: seq<(string, Seen)>)
    reads d, d.cache, d.CachedMessages()
    ensures |looks| == |d.cache.entries|
  {
    seq(|d.cache.entries|, i requires 0 <= i < |d.cache.entries| reads d, d.cache, d.CachedMessages() =>
      (d.cache.entries[i].key, SeenOf(d.cache.entries[i].value)))
  }

  function KeysOf(looks: seq<(string, Seen)>): set<string> {
    set i | 0 <= i < |looks| :: looks[i].0
  }

  ghost predicate Holds(s: State, m: nat, look: Seen) {
    m < |s.heap| && look == Seen(s.heap[m].envelope, s.heap[m].sampled, s.heap[m].tags)
  }

  /** The machine has the same messages in its cache, each an object of its own. */
  ghost predicate Mirrors(s: State, looks: seq<(string, Seen)>) {
    && s.cache.Keys == KeysOf(looks)
    && (forall i :: 0 <= i < |looks| ==> looks[i].0 in s.cache && Holds(s, s.cache[looks[i].0], looks[i].1))
    && forall key, key' :: key in s.cache && key' in s.cache && s.cache[key] == s.cache[key'] ==> key == key'
  }

  /** Nobody has the lock, and store and cache are the same. */
  ghost predicate Matches(d: Daemon, s: State)
    reads d, d.cache, d.store, d.CachedMessages()
  {
    s.lock.None? && s.db == d.store.Contents() && Mirrors(s, Looks(d))
  }

  /** That is: they have the same tables, and under the same keys the same messages. */
  lemma MatchesMeans(d: Daemon, s: State)
    ensures Matches(d, s) ==>
      && s.lock.None? && s.db == d.store.Contents()
      && (forall e :: e in d.cache.entries ==>
            && e.key in s.cache && s.cache[e.key] < |s.heap|
            && var m := s.heap[s.cache[e.key]];
               (m.envelope, m.sampled, m.tags) == (e.value.envelope, e.value.sampled, e.value.Tags()))
      && forall key :: key in s.cache ==> exists e :: e in d.cache.entries && e.key == key
  {
    if Matches(d, s) {
      forall e | e in d.cache.entries ensures e.key in s.cache && Holds(s, s.cache[e.key], SeenOf(e.value)) {
        var i :| 0 <= i < |d.cache.entries| && d.cache.entries[i] == e;
        assert Looks(d)[i] == (e.key, SeenOf(e.value));
      }
      forall key | key in s.cache ensures exists e :: e in d.cache.entries && e.key == key {
        var i :| 0 <= i < |Looks(d)| && Looks(d)[i].0 == key;
        assert d.cache.entries[i] in d.cache.entries;
      }
    }
  }

  /** How the machine comes to the message of a new handler: from the cache, or from the store, unless
      the body is no message or cannot be loaded. `gone` are the entries evicted on the way. */
  lemma FindsInMachine(w: World, s: State, h: nat, body: Bytes, group: Bytes, sampled: bool, left: Option<nat>,
                       gone: set<string>)
    returns (steps: seq<Step>, s': State, m: nat)
    requires h !in s.handlers && s.lock.None? && RowsHaveMessages(s.db)
    requires w.digest(body) in s.cache ==> s.cache[w.digest(body)] < |s.heap|
    ensures Run(w, s, steps, s') && s'.lock.None? && h in s'.handlers && s'.handlers == s.handlers[h := s'.handlers[h]]
    ensures Comes(w, s, s', s'.handlers[h], body, group, sampled, left, gone, m)
  {
    hide Run, Visible, ToStoreID, RowsHaveMessages, Loadable;
    var key := w.digest(body);
    m := |s.heap|;
    if key in s.cache {
      steps, s' := FindsCached(w, s, h, body, group);
      m := s.cache[key];
    } else if w.parse(body).None? {
      steps, s' := RefusesBody(w, s, h, body, group);
    } else if !Loadable(left, s.db.messages, ToStoreID(w.parse(body).value, key), w.parse(body).value) {
      steps, s' := FailsToLoad(w, s, h, body, group, left);
    } else {
      CanBeLoaded(left, s.db.messages, ToStoreID(w.parse(body).value, key), w.parse(body).value);
      steps, s' := LoadsMessage(w, s, h, body, group, sampled);
    }
    var all := s';
    steps, s' := Evicts(w, s, steps, all, gone);
  }

  lemma CanBeLoaded(left: Option<nat>, messages: map<string, bool>, id: string, e: Envelope)
    requires Loadable(left, messages, id, e)
    ensures id in messages || e.dateOK
  {
  }

  ghost predicate Comes(w: World, s: State, s': State, x: Handler, body: Bytes, group: Bytes, sampled: bool,
                        left: Option<nat>, gone: set<string>, m: nat) {
    var key := w.digest(body);
    if key in s.cache then
      && m == s.cache[key] < |s.heap| && s'.db == s.db && s'.heap == s.heap && s'.cache == s.cache - gone
      && x == Handler(body, group, ToStoreID(s.heap[m].envelope, key), Some(m), [], Running)
    else if w.parse(body).None?
            || !Loadable(left, s.db.messages, ToStoreID(w.parse(body).value, key), w.parse(body).value) then
      s'.db == s.db && s'.heap == s.heap && s'.cache == s.cache - gone && TurnedAway(x, body, group)
    else
      var e := w.parse(body).value;
      var id := ToStoreID(e, key);
      var db, tags := WithRow(s.db, id, sampled), Visible(s.db, id);
      && m == |s.heap| && s'.db == db && s'.cache == s.cache[key := m] - gone
      && s'.heap == s.heap + [Shared(e, db.messages[id], tags, id, tags, |s.upserts|)]
      && x == Handler(body, group, id, Some(m), [], Running)
  }

  lemma HasIsKey(d: Daemon, key: string)
    ensures d.cache.Has(key) <==> key in KeysOf(Looks(d))
  {
    hide Find;
    if key in KeysOf(Looks(d)) {
      var i :| 0 <= i < |Looks(d)| && Looks(d)[i].0 == key;
      assert d.cache.entries[i] in d.cache.entries;
    }
    if d.cache.Has(key) {
      var i := Find(d.cache.entries, key).value;
      assert Looks(d)[i].0 == key;
    }
  }

  /** The cache lost some entries and may have got the message under its key. */
  ghost predicate OnlyAdded(before: seq<(string, Seen)>, after: seq<(string, Seen)>, key: string, look: Seen) {
    forall i :: 0 <= i < |after| ==>
      if after[i].0 != key || key in KeysOf(before) then after[i] in before else after[i].1 == look
  }

  lemma MirrorsOn(s: State, s': State, before: seq<(string, Seen)>, after: seq<(string, Seen)>, key: string, look: Seen,
                  m: nat)
    requires Mirrors(s, before) && OnlyAdded(before, after, key, look) && s.heap <= s'.heap
    requires if key in s.cache then s'.cache == s.cache - (s.cache.Keys - KeysOf(after))
             else s'.cache == s.cache[key := m] - (s.cache.Keys + {key} - KeysOf(after))
                  && (key in KeysOf(after) ==> m == |s.heap| && Holds(s', m, look))
    ensures Mirrors(s', after)
  {
    forall i | 0 <= i < |after| ensures after[i].0 in s'.cache && Holds(s', s'.cache[after[i].0], after[i].1) {
      assert after[i].0 in KeysOf(after);
      if after[i].0 != key || key in KeysOf(before) {
        var j :| 0 <= j < |before| && before[j] == after[i];
        assert before[j].0 in s.cache;
      }
    }
    forall k | k in s.cache ensures s.cache[k] < |s.heap| {
      assert k in KeysOf(before);
      var j :| 0 <= j < |before| && before[j].0 == k;
    }
    assert s'.cache.Keys == KeysOf(after) by { KeysOnly(before, after, key, look); }
  }

  lemma KeysOnly(before: seq<(string, Seen)>, after: seq<(string, Seen)>, key: string, look: Seen)
    requires OnlyAdded(before, after, key, look)
    ensures KeysOf(after) <= KeysOf(before) + {key}
  {
    forall k | k in KeysOf(after) ensures k in KeysOf(before) + {key} {
      var i :| 0 <= i < |after| && after[i].0 == k;
      if after[i].0 != key || key in KeysOf(before) {
        var j :| 0 <= j < |before| && before[j] == after[i];
        assert before[j].0 == k;
      }
    }
  }

  /** The message is the only one under its key, and the key stands for its store ID. */
  ghost predicate OnlyUnder(d: Daemon, key: string, msg: Message, storeID: string)
    reads d, d.cache
  {
    && (forall e :: e in d.cache.entries ==> (e.key == key <==> e.value == msg))
    && forall e :: e in d.cache.entries && e.key == key ==> StoreIDOf(e) == storeID
  }

  /** How the message looks that a request gets. */
  ghost predicate Gets(before: seq<(string, Seen)>, db: DB, key: string, parsed: Option<Envelope>, storeID: string,
                       sampled: bool, look: Seen) {
    if key in KeysOf(before) then (key, look) in before && storeID == ToStoreID(look.envelope, key)
    else parsed.Some? && storeID == ToStoreID(parsed.value, key)
         && look == Seen(parsed.value, WithRow(db, storeID, sampled).messages[storeID], Visible(db, storeID))
  }

  ghost predicate CanGet(before: seq<(string, Seen)>, left: Option<nat>, messages: map<string, bool>, key: string,
                         parsed: Option<Envelope>) {
    key in KeysOf(before)
    || (parsed.Some? && Loadable(left, messages, ToStoreID(parsed.value, key), parsed.value))
  }

  lemma AllLookedAt(d: Daemon)
    ensures forall e :: e in d.cache.entries ==> (e.key, SeenOf(e.value)) in Looks(d)
  {
    forall e | e in d.cache.entries ensures (e.key, SeenOf(e.value)) in Looks(d) {
      var i :| 0 <= i < |d.cache.entries| && d.cache.entries[i] == e;
      assert Looks(d)[i] == (e.key, SeenOf(e.value));
    }
  }

  lemma CachedEntry(d: Daemon, key: string) returns (e: Entry<Message>)
    requires d.Valid() && key in KeysOf(Looks(d))
    ensures e in d.cache.entries && e.key == key && (key, SeenOf(e.value)) in Looks(d)
    ensures StoreIDOf(e) in d.store.messages
  {
    hide ToStoreID, Total, DistinctKeys, RowsHaveMessages;
    var i :| 0 <= i < |Looks(d)| && Looks(d)[i].0 == key;
    e := d.cache.entries[i];
    assert Looks(d)[i] == (key, SeenOf(e.value)) && Backed(e.value, StoreIDOf(e), d.store.messages);
  }

  /** The first half of `HandleEval`, in terms of what is cached. */
  method FindSeen(d: Daemon, key: string, parsed: Option<Envelope>, bodySize: nat, sampled: bool, now: int)
    returns (msg: Message?, storeID: string, err: Option<HandlerError>)
    requires d.Valid() && bodySize < TWO64
    modifies d.cache, d.store
    ensures d.Valid() && (msg == null <==> Unevaluated(err)) && (msg != null ==> err.None?)
    ensures msg != null <==> CanGet(old(Looks(d)), old(d.store.stmtsLeft), old(d.store.messages), key, parsed)
    ensures msg == null ==> d.store.Contents() == old(d.store.Contents()) && Looks(d) == old(Looks(d))
    ensures msg != null ==>
      && Gets(old(Looks(d)), old(d.store.Contents()), key, parsed, storeID, sampled, SeenOf(msg))
      && OnlyAdded(old(Looks(d)), Looks(d), key, SeenOf(msg))
      && d.store.Contents() == WithRow(old(d.store.Contents()), storeID, sampled)
      && (key in KeysOf(old(Looks(d))) ==> storeID in old(d.store.messages))
      && Backed(msg, storeID, d.store.messages) && OnlyUnder(d, key, msg, storeID)
      && (fresh(msg) || msg in old(d.CachedMessages()))
    ensures forall x :: x in d.CachedMessages() ==> fresh(x) || x in old(d.CachedMessages())
  {
    hide Visible, ToStoreID, RowsHaveMessages, Loadable, Total, DistinctKeys, Find, KeysOf, AfterUse, UseFor;
    HasIsKey(d, key);
    ghost var before, entries := Looks(d), d.cache.entries;
    AllLookedAt(d);
    if key in KeysOf(before) {
      ghost var e := CachedEntry(d, key);
    }
    ghost var use;
    msg, storeID, err, use := d.FindMessage(key, parsed, bodySize, sampled, now);
    SameTagsSameView(old(d.store.Contents()), d.store.Contents(), storeID);
    StillSeen(d, entries, before, key, key in KeysOf(before));
  }

  lemma StillSeen(d: Daemon, entries: seq<Entry<Message>>, before: seq<(string, Seen)>, key: string, all: bool)
    requires forall e :: e in entries ==> (e.key, SeenOf(e.value)) in before
    requires forall e :: e in d.cache.entries && (e.key != key || all) ==> e in entries
    ensures forall i :: 0 <= i < |Looks(d)| && (Looks(d)[i].0 != key || all) ==> Looks(d)[i] in before
  {
    forall i | 0 <= i < |Looks(d)| && (Looks(d)[i].0 != key || all) ensures Looks(d)[i] in before {
      assert d.cache.entries[i] in entries;
    }
  }

  /** The handler is in the rule loop with the message, which the machine caches under that key only. */
  ghost predicate Got(s: State, x: Handler, body: Bytes, group: Bytes, key: string, storeID: string, m: nat,
                      look: Seen) {
    && x == Handler(body, group, storeID, Some(m), [], Running) && Holds(s, m, look)
    && forall k :: k in s.cache ==> (s.cache[k] == m <==> k == key)
  }

  lemma MachineFinds(w: World, s: State, h: nat, body: Bytes, group: Bytes, sampled: bool, left: Option<nat>,
                     before: seq<(string, Seen)>, after: seq<(string, Seen)>, storeID: string, look: Seen)
    returns (steps: seq<Step>, s': State, m: nat)
    requires h !in s.handlers && s.lock.None? && RowsHaveMessages(s.db) && Mirrors(s, before)
    requires CanGet(before, left, s.db.messages, w.digest(body), w.parse(body))
    requires Gets(before, s.db, w.digest(body), w.parse(body), storeID, sampled, look)
    requires OnlyAdded(before, after, w.digest(body), look)
    requires w.digest(body) in KeysOf(before) ==> storeID in s.db.messages
    ensures Run(w, s, steps, s') && s'.lock.None? && s'.db == WithRow(s.db, storeID, sampled) && Mirrors(s', after)
    ensures h in s'.handlers && s'.handlers == s.handlers[h := s'.handlers[h]]
    ensures Got(s', s'.handlers[h], body, group, w.digest(body), storeID, m, look)
  {
    hide Run, Visible, ToStoreID, RowsHaveMessages, Loadable, OnlyAdded, KeysOf;
    var key := w.digest(body);
    BoundedByMirror(s, before);
    KeysOnly(before, after, key, look);
    var gone := if key in s.cache then s.cache.Keys - KeysOf(after) else s.cache.Keys + {key} - KeysOf(after);
    steps, s', m := FindsInMachine(w, s, h, body, group, sampled, left, gone);
    if key in s.cache {
      SameLook(s, before, key, look);
    }
    MirrorsOn(s, s', before, after, key, look, m);
  }

  lemma BoundedByMirror(s: State, looks: seq<(string, Seen)>)
    requires Mirrors(s, looks)
    ensures forall k :: k in s.cache ==> s.cache[k] < |s.heap|
  {
    forall k | k in s.cache ensures s.cache[k] < |s.heap| {
      assert k in KeysOf(looks);
      var i :| 0 <= i < |looks| && looks[i].0 == k;
    }
  }

  lemma SameLook(s: State, looks: seq<(string, Seen)>, key: string, look: Seen)
    requires Mirrors(s, looks) && (key, look) in looks
    ensures key in s.cache && Holds(s, s.cache[key], look)
  {
  }

  lemma MachineRefuses(w: World, s: State, h: nat, body: Bytes, group: Bytes, left: Option<nat>,
                       looks: seq<(string, Seen)>)
    returns (steps: seq<Step>, s': State)
    requires h !in s.handlers && s.lock.None? && RowsHaveMessages(s.db) && Mirrors(s, looks)
    requires !CanGet(looks, left, s.db.messages, w.digest(body), w.parse(body))
    ensures Run(w, s, steps, s') && s'.lock.None? && s'.db == s.db && Mirrors(s', looks)
    ensures h in s'.handlers && s'.handlers == s.handlers[h := s'.handlers[h]]
    ensures TurnedAway(s'.handlers[h], body, group)
  {
    hide Run, Visible, ToStoreID, RowsHaveMessages, Loadable, KeysOf;
    var m;
    steps, s', m := FindsInMachine(w, s, h, body, group, false, left, {});
    assert s'.cache == s.cache;
  }

  /** The first half of `HandleEval`, with a run of the machine beside it. */
  method FindWithRun(d: Daemon, ghost w: World, ghost s: State, ghost h: nat, body: Bytes, ghost group: Bytes,
                     key: string, parsed: Option<Envelope>, sampled: bool, now: int)
    returns (msg: Message?, storeID: string, err: Option<HandlerError>, ghost steps: seq<Step>, ghost s': State,
             ghost m: nat)
    requires d.Valid() && Matches(d, s) && h !in s.handlers && |body| < TWO64
    requires key == w.digest(body) && parsed == w.parse(body)
    modifies d.cache, d.store
    ensures d.Valid() && Run(w, s, steps, s') && Matches(d, s')
    ensures h in s'.handlers && s'.handlers == s.handlers[h := s'.handlers[h]]
    ensures msg == null <==> Unevaluated(err)
    ensures msg == null ==> TurnedAway(s'.handlers[h], body, group)
    ensures msg != null ==>
      && err.None? && Got(s', s'.handlers[h], body, group, key, storeID, m, SeenOf(msg))
      && Backed(msg, storeID, d.store.messages) && OnlyUnder(d, key, msg, storeID)
      && (fresh(msg) || msg in old(d.CachedMessages()))
    ensures forall x :: x in d.CachedMessages() ==> fresh(x) || x in old(d.CachedMessages())
  {
    hide Run, Visible, ToStoreID, RowsHaveMessages, Backed, Find, CanGet, Gets, OnlyAdded, Mirrors, OnlyUnder,
         KeysOf, Got;
    ghost var left, before := d.store.stmtsLeft, Looks(d);
    msg, storeID, err := FindSeen(d, key, parsed, |body|, sampled, now);
    if msg != null {
      steps, s', m := MachineFinds(w, s, h, body, group, sampled, left, before, Looks(d), storeID, SeenOf(msg));
    } else {
      steps, s' := MachineRefuses(w, s, h, body, group, left, before);
      m := 0;
    }
  }

  // ---------- the rules and their recording ----------

  function WithTags(looks: seq<(string, Seen)>, key: string, tags: Tags): (r: seq<(string, Seen)>)
    ensures |r| == |looks|
  {
    seq(|looks|, i requires 0 <= i < |looks| =>
      if looks[i].0 == key then (key, looks[i].1.(tags := tags)) else looks[i])
  }

  lemma MirrorsTags(s: State, s': State, looks: seq<(string, Seen)>, key: string, m: nat, tags: Tags)
    requires Mirrors(s, looks) && m < |s.heap| && s'.heap == s.heap[m := s.heap[m].(tags := tags)]
    requires s'.cache == s.cache
    requires forall k :: k in s.cache ==> (s.cache[k] == m <==> k == key)
    ensures Mirrors(s', WithTags(looks, key, tags))
  {
    var after := WithTags(looks, key, tags);
    forall i | 0 <= i < |after| ensures after[i].0 in s'.cache && Holds(s', s'.cache[after[i].0], after[i].1) {
      assert after[i].0 == looks[i].0;
    }
    assert KeysOf(after) == KeysOf(looks) by { SameKeys(looks, after); }
  }

  lemma SameKeys(a: seq<(string, Seen)>, b: seq<(string, Seen)>)
    requires |a| == |b| && forall i :: 0 <= i < |a| ==> a[i].0 == b[i].0
    ensures KeysOf(a) == KeysOf(b)
  {
    forall k ensures k in KeysOf(a) <==> k in KeysOf(b) {
      if k in KeysOf(a) {
        var i :| 0 <= i < |a| && a[i].0 == k;
        assert b[i].0 == k;
      }
      if k in KeysOf(b) {
        var i :| 0 <= i < |b| && b[i].0 == k;
        assert a[i].0 == k;
      }
    }
  }

  /** The machine runs the rules of `rs`, executes the first `k` statements of their recording, and is
      done if that was committed. */
  lemma MachineEvaluates(w: World, s0: State, before: seq<Step>, s: State, h: nat, body: Bytes, group: Bytes,
                         key: string, storeID: string, m: nat, looks: seq<(string, Seen)>, look: Seen,
                         rs: seq<RuleRecord>, k: nat, ok: bool)
    returns (steps: seq<Step>, s': State)
    requires Run(w, s0, before, s) && h in s.handlers && Got(s, s.handlers[h], body, group, key, storeID, m, look)
    requires Mirrors(s, looks)
    requires var ws := EvalWrites(s.db, storeID, group, rs); k <= |ws| && (ok ==> k == |ws|)
    ensures Run(w, s0, steps, s') && s'.lock == s.lock
    ensures s'.db == ExecuteAll(s.db, EvalWrites(s.db, storeID, group, rs)[..k])
    ensures s'.handlers == s.handlers[h := Handler(body, group, storeID, Some(m), rs, if ok then Done else Gone)]
    ensures Mirrors(s', WithTags(looks, key, Replay(look.tags, AllChanges(rs))))
  {
    hide Run, Replay, AllChanges, EvalWrites, ExecuteAll, Mirrors;
    assert [] + rs == rs;
    steps, s' := RunsRules(w, s0, before, s, h, m, rs);
    var mid := s';
    steps, s' := RecordsSome(w, s0, steps, mid, h, k, ok);
    MirrorsTags(s, s', looks, key, m, Replay(look.tags, AllChanges(rs)));
  }

  /** The second half of `HandleEval`, with a run of the machine beside it. */
  method EvaluateWithRun(d: Daemon, ghost w: World, ghost s0: State, ghost before: seq<Step>, ghost s: State,
                         ghost h: nat, ghost body: Bytes, ghost m: nat, msg: Message, key: string,
                         storeID: string, group: Bytes, rules: seq<Rule>, runs: seq<RuleRun>)
    returns (data: Bytes, err: Option<HandlerError>, ghost steps: seq<Step>, ghost s': State)
    requires d.Valid() && Matches(d, s) && |runs| == |rules|
    requires Backed(msg, storeID, d.store.messages) && OnlyUnder(d, key, msg, storeID)
    requires Run(w, s0, before, s) && h in s.handlers
    requires Got(s, s.handlers[h], body, group, key, storeID, m, SeenOf(msg))
    modifies d.store, msg`tags
    ensures d.Valid() && Run(w, s0, steps, s') && Matches(d, s') && d.cache.entries == old(d.cache.entries)
    ensures s'.handlers.Keys == s.handlers.Keys && s'.handlers == s.handlers[h := s'.handlers[h]]
    ensures s'.handlers[h].rules == RecordsOf(rules, runs, Reached(runs))
    ensures s'.handlers[h].body == body && s'.handlers[h].group == group
    ensures s'.handlers[h].phase.Done? || s'.handlers[h].phase.Gone?
    ensures !Unevaluated(err) && Answers(VerdictOf(rules, runs), data, err)
    ensures err == Some(RecordFailed) <==> s'.handlers[h].phase.Gone? && !VerdictOf(rules, runs).FailedWith?
  {
    hide Run, Visible, ToStoreID, RowsHaveMessages, Find, Mirrors, KeysOf, Got, Replay, EvalWrites, ExecuteAll,
         AllChanges, VerdictOf, RecordsOf, Reached, HistoryGrows, Recorded, Answers, Total, DistinctKeys;
    ghost var looks, look, records := Looks(d), SeenOf(msg), RecordsOf(rules, runs, Reached(runs));
    ghost var n := |EvalWrites(s.db, storeID, group, records)|;
    ghost var k, ok := Executed(d.store.stmtsLeft, n), Reach(d.store.stmtsLeft, n + 2) == n + 2;
    ghost var executed;
    data, err, executed := d.Evaluate(msg, key, storeID, group, rules, runs);
    steps, s' := MachineEvaluates(w, s0, before, s, h, body, group, key, storeID, m, looks, look, records, k, ok);
    assert Looks(d) == WithTags(looks, key, Replay(look.tags, AllChanges(records)));
  }

  // ---------- whole requests, and any number of them ----------

  lemma {:induction false} RunsJoin(w: World, a: State, xs: seq<Step>, b: State, ys: seq<Step>, c: State)
    requires Run(w, a, xs, b) && Run(w, b, ys, c)
    ensures Run(w, a, xs + ys, c)
  {
    hide Enabled, Next;
    if ys == [] {
      assert xs + ys == xs;
    } else {
      var n := |ys| - 1;
      var mid :| Run(w, b, ys[..n], mid) && Enabled(w, mid, ys[n]) && c == Next(w, mid, ys[n]);
      RunsJoin(w, a, xs, b, ys[..n], mid);
      assert (xs + ys)[..|xs + ys| - 1] == xs + ys[..n] && (xs + ys)[|xs + ys| - 1] == ys[n];
    }
  }

  datatype BodyRequest = BodyRequest(body: Bytes, sampled: bool, now: int, group: Bytes, rules: seq<Rule>,
                                     runs: seq<RuleRun>)

  ghost predicate WellFormed(r: BodyRequest) { |r.body| < TWO64 && |r.runs| == |r.rules| }

  /** The handler is where its answer says: gone without rules when the request was refused; else it ran
      the rules that the answer is about, and is done unless its recording failed. */
  ghost predicate Replied(x: Handler, r: BodyRequest, reply: (Bytes, Option<HandlerError>)) {
    && WellFormed(r) && x.body == r.body && x.group == r.group
    && if Unevaluated(reply.1) then x.phase.Gone? && x.rules == []
       else
         && (x.phase.Done? || x.phase.Gone?) && x.rules == RecordsOf(r.rules, r.runs, Reached(r.runs))
         && Answers(VerdictOf(r.rules, r.runs), reply.0, reply.1)
         && (reply.1 == Some(RecordFailed) <==> x.phase.Gone? && !VerdictOf(r.rules, r.runs).FailedWith?)
  }

  /** `HandleEval` on a body, half by half, goes from a state of the machine to one that matches again.
      The new handler is done, or gone if it was refused or its recording failed. */
  method HandleWithRun(d: Daemon, w: World, ghost s: State, ghost h: nat, r: BodyRequest)
    returns (data: Bytes, err: Option<HandlerError>, ghost steps: seq<Step>, ghost s': State)
    requires d.Valid() && Matches(d, s) && h !in s.handlers && WellFormed(r)
    modifies d.cache, d.store, d.CachedMessages()
    ensures d.Valid() && Run(w, s, steps, s') && Matches(d, s')
    ensures h in s'.handlers && s'.handlers == s.handlers[h := s'.handlers[h]]
    ensures Replied(s'.handlers[h], r, (data, err))
    ensures forall m :: m in d.CachedMessages() ==> fresh(m) || m in old(d.CachedMessages())
  {
    hide Run, Visible, ToStoreID, Mirrors, Looks, Got, VerdictOf, RecordsOf, Reached, Answers, Find, Total,
         DistinctKeys, RowsHaveMessages, Backed, OnlyUnder;
    var msg, storeID;
    ghost var m;
    data := [];
    var key := w.digest(r.body);
    msg, storeID, err, steps, s', m := FindWithRun(d, w, s, h, r.body, r.group, key, w.parse(r.body), r.sampled, r.now);
    if msg != null {
      ghost var found := s';
      data, err, steps, s' :=
        EvaluateWithRun(d, w, s, steps, found, h, r.body, m, msg, key, storeID, r.group, r.rules, r.runs);
    }
  }

  lemma NewDaemonMatches(d: Daemon, s: State)
    requires d.cache.entries == [] && s == State(map[], None, map[], [], d.store.Contents(), [], [])
    ensures Matches(d, s)
  {
  }

  /** All that a new daemon does with requests that come one by one is one run of the machine, from an
      initial state: what holds in every interleaving holds of it. */
  method ServeWithRun(d: Daemon, w: World, rs: seq<BodyRequest>)
    returns (replies: seq<(Bytes, Option<HandlerError>)>, ghost s0: State, ghost steps: seq<Step>, ghost s: State)
    requires d.Valid() && d.cache.entries == [] && forall i :: 0 <= i < |rs| ==> WellFormed(rs[i])
    modifies d.cache, d.store
    ensures d.Valid() && Initial(s0) && s0.db == old(d.store.Contents()) && Run(w, s0, steps, s) && Matches(d, s)
    ensures |replies| == |rs| && forall i :: i in s.handlers <==> 0 <= i < |rs|
    ensures forall i :: 0 <= i < |rs| ==> Replied(s.handlers[i], rs[i], replies[i])
  {
    hide Run, Visible, ToStoreID, Mirrors, Looks, VerdictOf, RecordsOf, Reached, Answers, Find, Total, DistinctKeys,
         RowsHaveMessages, Matches, Replied;
    replies := [];
    s0 := State(map[], None, map[], [], d.store.Contents(), [], []);
    steps, s := [], s0;
    assert Initial(s0) by { NewStateIsInitial(s0); }
    NewDaemonMatches(d, s0);
    EmptyRun(w, s0);
    for i := 0 to |rs|
      invariant d.Valid() && Run(w, s0, steps, s) && Matches(d, s)
      invariant forall m :: m in d.CachedMessages() ==> fresh(m)
      invariant |replies| == i && forall j :: j in s.handlers <==> 0 <= j < i
      invariant forall j :: 0 <= j < i ==> Replied(s.handlers[j], rs[j], replies[j])
    {
      var data, err;
      ghost var more, s';
      data, err, more, s' := HandleWithRun(d, w, s, i, rs[i]);
      RunsJoin(w, s0, steps, s, more, s');
      replies, steps, s := replies + [(data, err)], steps + more, s';
    }
  }

  lemma NewStateIsInitial(s: State)
    requires s == State(map[], None, map[], [], s.db, [], []) && RowsHaveMessages(s.db)
    ensures Initial(s)
  {
  }
}
