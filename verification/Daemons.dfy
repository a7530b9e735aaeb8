/** The daemon handling eval requests one at a time (prepareMsg and the end of handleEval in
    daemon/daemon.go) over its cache and its store. */
module Daemons {
  import opened ByteText
  import opened TagLogs
  import opened Messages
  import opened Tables
  import opened Stores
  import opened Caches
  import opened EvalFrames
  import opened Evaluations

  /** `PrepareFailed` and `RecordFailed` are store errors before and after the rules. */
  datatype HandlerError = InvalidMessage | PrepareFailed | RecordFailed | RuleError(text: Bytes)

  /** The requests that end before any rule is called. */
  predicate Unevaluated(err: Option<HandlerError>) { err == Some(InvalidMessage) || err == Some(PrepareFailed) }

  ghost function StoreIDOf(e: Entry<Message>): string {
    ToStoreID(e.value.envelope, e.key)
  }

  /** There is a row for the store ID, with the message's sampling decision. */
  ghost predicate Backed(m: Message, storeID: string, messages: map<string, bool>) {
    storeID in messages && m.sampled == messages[storeID]
  }

  /** A cached message agrees with the store: it has its row, and its tags are the non-null tag rows. */
  ghost predicate Agrees(m: Message, storeID: string, db: DB)
    reads m
  {
    Backed(m, storeID, db.messages) && m.Tags() == Visible(db, storeID)
  }

  /** What a RecordEval that executed `k` of its statements did to each message. */
  lemma AfterRecord(db: DB, storeID: string, group: Bytes, records: seq<RuleRecord>, k: nat)
    returns (executed: seq<TagChange>)
    requires RowsHaveMessages(db) && storeID in db.messages
    requires k <= |EvalWrites(db, storeID, group, records)|
    ensures var ws := EvalWrites(db, storeID, group, records);
      var after := ExecuteAll(db, ws[..k]);
      && executed <= AllChanges(records)
      && (k == |ws| ==> executed == AllChanges(records))
      && RowsHaveMessages(after) && after.messages == db.messages
      && Visible(after, storeID) == Replay(Visible(db, storeID), executed)
      && forall other :: other != storeID ==> Visible(after, other) == Visible(db, other)
  {
    hide Execute, ExecuteAll, EvalWrites, Visible, AllChanges, Replay;
    var ws := EvalWrites(db, storeID, group, records);
    executed := ChangesFor(ws[..k], storeID);
    EvalWritesChanges(db, storeID, group, records);
    assert ws == ws[..k] + ws[k..];
    ChangesForAppend(ws[..k], ws[k..], storeID);
    VisibleIsReplay(db, ws[..k], storeID);
    MessagesKept(db, ws[..k]);
    assert Only(ws[..k], storeID);
    RowsHaveMessagesKept(db, ws[..k], storeID);
    forall other | other != storeID
      ensures Visible(ExecuteAll(db, ws[..k]), other) == Visible(db, other)
    {
      VisibleIsReplay(db, ws[..k], other);
      OtherMessagesUntouched(ws[..k], storeID, other);
      ReplayNothing(Visible(db, other));
    }
  }

  lemma ReplayNothing(tags: Tags)
    ensures Replay(tags, []) == tags
  {
  }

  /** At most a row for a new message was added, with the sampling decision just made. */
  ghost predicate OnlyNewMessage(before: DB, after: DB, storeID: string, sampled: bool, found: bool) {
    after == if found && storeID !in before.messages then before.(messages := before.messages[storeID := sampled])
             else before
  }

  lemma NewMessageKeepsView(before: DB, after: DB, storeID: string, sampled: bool, found: bool, id: string)
    requires OnlyNewMessage(before, after, storeID, sampled, found)
    ensures Visible(after, id) == Visible(before, id)
  {
    SameTagsSameView(before, after, id);
  }

  /** A message that is not cached can be loaded: the database executes two more statements, and the
      message has a row or its date lets it have one. */
  ghost predicate Loadable(left: Option<nat>, messages: map<string, bool>, storeID: string, e: Envelope) {
    Reach(left, 2) == 2 && (storeID in messages || e.dateOK)
  }

  /** A known message takes two queries, a new one a query and an insertion. */
  lemma LoadableInSteps(left: Option<nat>, messages: map<string, bool>, storeID: string, e: Envelope)
    ensures Loadable(left, messages, storeID, e) <==>
      if storeID in messages then Reach(left, 2) == 2
      else Reach(left, 1) == 1 && Minus(left, 1) != Some(0) && e.dateOK
  {
  }

  /** What a request does to the cache: a look, or the addition of its message with the size of its
      body and the time of the request. */
  ghost predicate UseFor(use: Use<Message>, md5Sum: string, parsed: Option<Envelope>, bodySize: nat, now: int) {
    match use
    case Look(key) => key == md5Sum
    case Add(e) =>
      e.key == md5Sum && e.size == bodySize && e.birthday == now && parsed == Some(e.value.envelope)
  }

  class Daemon {
    const cache: Cache<Message>
    const store: SQLiteStore

    constructor (policy: Policy, store: SQLiteStore)
      requires RowsHaveMessages(store.Contents())
      ensures Valid() && Coherent() && this.store == store && fresh(cache) && cache.entries == []
    {
      cache := new Cache<Message>(policy);
      this.store := store;
    }

    /** Cached messages are distinct objects that have their rows, and stored rows belong to messages. */
    ghost predicate Valid()
      reads this, cache, store
    {
      && cache.Valid()
      && (forall e, f :: e in cache.entries && f in cache.entries && e.value == f.value ==> e.key == f.key)
      && (forall e :: e in cache.entries ==> Backed(e.value, StoreIDOf(e), store.messages))
      && RowsHaveMessages(store.Contents())
    }

    ghost function CachedMessages(): set<Message>
      reads this, cache
    {
      set e | e in cache.entries :: e.value
    }

    /** Every cached message agrees with the store. A store that fails half way through a recording
        can end this, and so can two cache keys for one store ID; see `Evaluate`. */
    ghost predicate Coherent()
      reads this, cache, store, CachedMessages()
    {
      forall e :: e in cache.entries ==> Agrees(e.value, StoreIDOf(e), store.Contents())
    }

    /** Puts a new message into the cache, which may evict any others. */
    method CacheNew(cacheKey: string, msg: Message, bodySize: nat, now: int)
      requires Valid() && bodySize < TWO64
      requires msg !in CachedMessages() && Backed(msg, ToStoreID(msg.envelope, cacheKey), store.messages)
      modifies cache
      ensures Valid()
      ensures old(Coherent()) && Agrees(msg, ToStoreID(msg.envelope, cacheKey), store.Contents()) ==> Coherent()
      ensures cache.entries == Left(cache.policy, old(cache.entries), Entry(cacheKey, msg, bodySize, now))
      ensures forall e :: e in cache.entries ==> (e.key == cacheKey <==> e.value == msg)
      ensures forall e :: e in cache.entries && e.key != cacheKey ==> e in old(cache.entries)
    {
      hide Visible, ToStoreID, Left, Within;
      ghost var full, k := cache.Put(cacheKey, msg, bodySize, now);
    }

    /** The part of handleEval between the request and the rules: look in the cache, else parse, else
        prepare. `parsed` is None when the body is no MIME message; `sampled` is the one-time
        sampling decision, used only for a message the store does not know. */
    method FindMessage(md5Sum: string, parsed: Option<Envelope>, bodySize: nat, sampled: bool, now: int)
      returns (msg: Message?, storeID: string, err: Option<HandlerError>, ghost use: Use<Message>)
      requires Valid() && bodySize < TWO64
      modifies cache, store
      ensures Valid() && (old(Coherent()) ==> Coherent())
      ensures cache.entries == AfterUse(cache.policy, old(cache.entries), use)
      ensures UseFor(use, md5Sum, parsed, bodySize, now) && (use.Add? <==> old(!cache.Has(md5Sum)) && msg != null)
      ensures use.Add? ==> use.e.value == msg
      ensures err == Some(InvalidMessage) <==> old(!cache.Has(md5Sum)) && parsed.None?
      ensures err == Some(PrepareFailed) <==>
        old(!cache.Has(md5Sum)) && parsed.Some?
        && !Loadable(old(store.stmtsLeft), old(store.messages), ToStoreID(parsed.value, md5Sum), parsed.value)
      ensures if msg == null then Unevaluated(err) else err.None?
      ensures msg == null ==> store.Contents() == old(store.Contents()) && cache.entries == old(cache.entries)
      ensures msg != null ==> Backed(msg, storeID, store.messages) && (fresh(msg) || msg in old(CachedMessages()))
      ensures msg != null && (fresh(msg) || old(Coherent())) ==> Agrees(msg, storeID, store.Contents())
      ensures msg != null ==> forall e :: e in cache.entries ==> (e.key == md5Sum <==> e.value == msg)
      ensures msg != null ==> forall e :: e in cache.entries && e.key == md5Sum ==> StoreIDOf(e) == storeID
      ensures forall e :: e in cache.entries && e.key != md5Sum ==> e in old(cache.entries)
      ensures forall e :: e in old(cache.entries) && e.key == md5Sum ==> msg == e.value && storeID == StoreIDOf(e)
      ensures old(cache.Has(md5Sum)) ==> forall e :: e in cache.entries ==> e in old(cache.entries)
      ensures old(!cache.Has(md5Sum)) && msg != null ==>
        fresh(msg) && msg.envelope == parsed.value && storeID == ToStoreID(parsed.value, md5Sum)
      ensures OnlyNewMessage(old(store.Contents()), store.Contents(), storeID, sampled, msg != null)
      ensures old(store.stmtsLeft).None? ==> store.stmtsLeft.None?
    {
      hide Visible, ToStoreID, Loadable, Left, Touched, Find, RowsHaveMessages, DistinctKeys, Total;
      storeID, err, use := "", None, Look(md5Sum);
      var hit := cache.Get(md5Sum);
      if hit.Some? {
        msg := hit.value;
        storeID := ToStoreID(msg.envelope, md5Sum);
        return;
      }
      if parsed.None? {
        return null, "", Some(InvalidMessage), use;
      }
      storeID := ToStoreID(parsed.value, md5Sum);
      msg := PrepareMsg(md5Sum, storeID, parsed.value, bodySize, sampled, now);
      if msg == null {
        err := Some(PrepareFailed);
      } else {
        var m: Message := msg;
        use := Add(Entry(md5Sum, m, bodySize, now));
      }
    }

    /** prepareMsg without its cache re-check, which cannot hit when nothing runs beside it. */
    method PrepareMsg(cacheKey: string, storeID: string, envelope: Envelope, bodySize: nat, sampled: bool, now: int)
      returns (msg: Message?)
      requires Valid() && bodySize < TWO64
      requires !cache.Has(cacheKey) && storeID == ToStoreID(envelope, cacheKey)
      modifies cache, store
      ensures Valid() && (old(Coherent()) ==> Coherent())
      ensures msg != null <==> Loadable(old(store.stmtsLeft), old(store.messages), storeID, envelope)
      ensures msg != null ==> fresh(msg) && msg.envelope == envelope && Agrees(msg, storeID, store.Contents())
      ensures msg != null ==> forall e :: e in cache.entries ==> (e.key == cacheKey <==> e.value == msg)
      ensures forall e :: e in cache.entries && e.key != cacheKey ==> e in old(cache.entries)
      ensures msg == null ==> cache.entries == old(cache.entries)
      ensures msg != null ==>
        var m: Message := msg;
        cache.entries == Left(cache.policy, old(cache.entries), Entry(cacheKey, m, bodySize, now))
      ensures OnlyNewMessage(old(store.Contents()), store.Contents(), storeID, sampled, msg != null)
      ensures old(store.stmtsLeft).None? ==> store.stmtsLeft.None?
    {
      hide Visible, ToStoreID, Left, Find, RowsHaveMessages, DistinctKeys, Total, Loadable, Reach, Minus;
      LoadableInSteps(store.stmtsLeft, store.messages, storeID, envelope);
      var meta := store.GetMetadata(storeID);
      if meta.None? {
        return null;
      }
      if meta.value.1 {
        msg := new Message(envelope, meta.value.0);
        CacheNew(cacheKey, msg, bodySize, now);
        return;
      }
      // An unknown message gets its row, with the decision just made, before it is cached.
      msg := new Message(envelope, Metadata(sampled, None));
      var ok := PutNew(storeID, msg);
      if !ok {
        return null;
      }
      CacheNew(cacheKey, msg, bodySize, now);
    }

    /** Adds the row of a message that has no tags yet. */
    method PutNew(storeID: string, msg: Message) returns (ok: bool)
      requires Valid() && storeID !in store.messages && msg.tags.None? && msg !in CachedMessages()
      modifies store
      ensures Valid() && (old(Coherent()) ==> Coherent())
      ensures ok <==> msg.envelope.dateOK && old(store.stmtsLeft) != Some(0)
      ensures ok ==> Agrees(msg, storeID, store.Contents())
      ensures OnlyNewMessage(old(store.Contents()), store.Contents(), storeID, msg.sampled, ok)
      ensures old(store.stmtsLeft).None? ==> store.stmtsLeft.None?
    {
      hide Visible, ToStoreID;
      NoRowNoTags(store.Contents(), storeID);
      ghost var before := store.Contents();
      ok := store.PutMessage(storeID, msg);
      SameTagsSameView(before, store.Contents(), storeID);
      forall e | e in cache.entries && Agrees(e.value, StoreIDOf(e), before)
        ensures Agrees(e.value, StoreIDOf(e), store.Contents())
      {
        SameTagsSameView(before, store.Contents(), StoreIDOf(e));
      }
    }

    /** The rules of a request on its message, and their recording. The changes the store executed
        are a first part of those the rules made, all of them unless the database failed. If messages
        and store agreed before, then afterwards the evaluated message does exactly when the changes
        that did not reach the store make no difference, and a message cached under another key for
        the same store ID exactly when those that did make none. */
    method Evaluate(msg: Message, md5Sum: string, storeID: string, group: Bytes, rules: seq<Rule>, runs: seq<RuleRun>)
      returns (data: Bytes, err: Option<HandlerError>, ghost executed: seq<TagChange>)
      requires Valid() && |runs| == |rules| && Backed(msg, storeID, store.messages)
      requires forall e :: e in cache.entries ==> (e.key == md5Sum <==> e.value == msg)
      requires forall e :: e in cache.entries && e.key == md5Sum ==> StoreIDOf(e) == storeID
      modifies store, msg`tags
      ensures Valid() && cache.entries == old(cache.entries) && store.messages == old(store.messages)
      ensures Recorded(storeID, old(store.Contents()), store.Contents(), executed, ChangesOf(rules, runs))
      ensures msg.Tags() == Replay(old(msg.Tags()), ChangesOf(rules, runs))
      ensures old(Coherent() && Agrees(msg, storeID, store.Contents())) ==>
        Agreement(md5Sum, storeID, Visible(old(store.Contents()), storeID), executed, ChangesOf(rules, runs))
      ensures var ws := EvalWrites(old(store.Contents()), storeID, group, RecordsOf(rules, runs, Reached(runs)));
        && store.Contents() == ExecuteAll(old(store.Contents()), ws[..Executed(old(store.stmtsLeft), |ws|)])
        && (err == Some(RecordFailed) <==>
              Reach(old(store.stmtsLeft), |ws| + 2) < |ws| + 2 && !VerdictOf(rules, runs).FailedWith?)
      ensures old(store.stmtsLeft).None? ==>
        && executed == ChangesOf(rules, runs) && store.stmtsLeft.None?
        && HistoryGrows(old(store.Contents()), store.Contents(), storeID, group, RecordsOf(rules, runs, Reached(runs)))
      ensures !Unevaluated(err) && Answers(VerdictOf(rules, runs), data, err)
    {
      hide Visible, ToStoreID, ChangesOf, Replay, EvalWrites, ExecuteAll, VerdictOf, Reached, RecordsOf,
           HistoryGrows, Answers, RowsHaveMessages, DistinctKeys, Total;
      data, err, executed := RunAndRecord(msg, storeID, group, rules, runs);
    }

    /** The part of this that does not look at the cache. */
    method RunAndRecord(msg: Message, storeID: string, group: Bytes, rules: seq<Rule>, runs: seq<RuleRun>)
      returns (data: Bytes, err: Option<HandlerError>, ghost executed: seq<TagChange>)
      requires RowsHaveMessages(store.Contents()) && storeID in store.messages && |runs| == |rules|
      modifies store, msg`tags
      ensures RowsHaveMessages(store.Contents()) && store.messages == old(store.messages)
      ensures Recorded(storeID, old(store.Contents()), store.Contents(), executed, ChangesOf(rules, runs))
      ensures msg.Tags() == Replay(old(msg.Tags()), ChangesOf(rules, runs))
      ensures var ws := EvalWrites(old(store.Contents()), storeID, group, RecordsOf(rules, runs, Reached(runs)));
        && store.Contents() == ExecuteAll(old(store.Contents()), ws[..Executed(old(store.stmtsLeft), |ws|)])
        && (err == Some(RecordFailed) <==>
              Reach(old(store.stmtsLeft), |ws| + 2) < |ws| + 2 && !VerdictOf(rules, runs).FailedWith?)
      ensures old(store.stmtsLeft).None? ==>
        && executed == ChangesOf(rules, runs) && store.stmtsLeft.None?
        && HistoryGrows(old(store.Contents()), store.Contents(), storeID, group, RecordsOf(rules, runs, Reached(runs)))
      ensures !Unevaluated(err) && Answers(VerdictOf(rules, runs), data, err)
    {
      hide Visible, AllChanges, Replay, EvalWrites, ExecuteAll, VerdictOf, Reached, RecordsOf, HistoryGrows,
           RowsHaveMessages;
      ghost var db := store.Contents();
      var ger := new EvalRecord(msg, group);
      var ruleErr;
      data, ruleErr := EvalRules(rules, runs, ger);
      ghost var records := Values(ger.rules);
      ghost var n := |EvalWrites(db, storeID, group, records)|;
      ghost var k := Executed(store.stmtsLeft, n);
      var ok := store.RecordEval(storeID, ger);
      executed := AfterRecord(db, storeID, group, records, k);
      if k == n {
        HistoryAfter(db, storeID, group, records);
      }
      err := if ruleErr.Some? then Some(RuleError(ruleErr.value)) else if !ok then Some(RecordFailed) else None;
    }

    /** Which cached messages agree with the store after an evaluation for `storeID` that found
        `tags` and made `changes`, of which the store executed `executed`. */
    ghost predicate Agreement(md5Sum: string, storeID: string, tags: Tags, executed: seq<TagChange>,
                              changes: seq<TagChange>)
      reads this, cache, store, CachedMessages()
    {
      forall e :: e in cache.entries ==>
        (Agrees(e.value, StoreIDOf(e), store.Contents()) <==>
           if e.key == md5Sum then Replay(tags, executed) == Replay(tags, changes)
           else StoreIDOf(e) == storeID ==> Replay(tags, executed) == tags)
    }

    /** One eval request, from the lookup of the message to the answer. It is refused exactly when the
        message is not cached and cannot be parsed or loaded. */
    method HandleEval(md5Sum: string, parsed: Option<Envelope>, bodySize: nat, sampled: bool, now: int,
                      group: Bytes, rules: seq<Rule>, runs: seq<RuleRun>)
      returns (data: Bytes, err: Option<HandlerError>, ghost storeID: string, ghost executed: seq<TagChange>,
               ghost use: Use<Message>)
      requires Valid() && bodySize < TWO64 && |runs| == |rules|
      modifies cache, store, CachedMessages()
      ensures Valid()
      ensures cache.entries == AfterUse(cache.policy, old(cache.entries), use)
      ensures UseFor(use, md5Sum, parsed, bodySize, now)
      ensures use.Add? <==> old(!cache.Has(md5Sum)) && !Unevaluated(err)
      ensures err == Some(InvalidMessage) <==> old(!cache.Has(md5Sum)) && parsed.None?
      ensures err == Some(PrepareFailed) <==>
        old(!cache.Has(md5Sum)) && parsed.Some?
        && !Loadable(old(store.stmtsLeft), old(store.messages), ToStoreID(parsed.value, md5Sum), parsed.value)
      ensures Unevaluated(err) ==> store.Contents() == old(store.Contents()) && cache.entries == old(cache.entries)
      ensures !Unevaluated(err) ==>
        && Recorded(storeID, old(store.Contents()), store.Contents(), executed, ChangesOf(rules, runs))
        && Answers(VerdictOf(rules, runs), data, err)
        && store.messages == old(if storeID in store.messages then store.messages
                                 else store.messages[storeID := sampled])
      ensures old(Coherent()) ==>
        if Unevaluated(err) then Coherent()
        else Agreement(md5Sum, storeID, Visible(old(store.Contents()), storeID), executed, ChangesOf(rules, runs))
      ensures !Unevaluated(err) && old(store.stmtsLeft).None? ==>
        && executed == ChangesOf(rules, runs) && err != Some(RecordFailed)
        && HistoryGrows(old(store.Contents()), store.Contents(), storeID, group, RecordsOf(rules, runs, Reached(runs)))
      ensures old(store.stmtsLeft).None? ==> store.stmtsLeft.None?
      ensures !Unevaluated(err) ==>
        Tracked(md5Sum, parsed, old(cache.Has(md5Sum)), storeID, old(cache.entries), cache.entries, old(store.messages))
      ensures forall m :: m in CachedMessages() ==> fresh(m) || m in old(CachedMessages())
    {
      hide Visible, ToStoreID, ChangesOf, VerdictOf, Answers, Replay, ExecuteAll, EvalWrites, RuleRows,
           GroupResult, RecordsOf, Reached, RowsHaveMessages, DistinctKeys, Total, Find, AfterUse;
      data, executed := [], [];
      var msg, id;
      msg, id, err, use := FindMessage(md5Sum, parsed, bodySize, sampled, now);
      storeID := id;
      if msg == null {
        return;
      }
      forall other ensures Visible(store.Contents(), other) == Visible(old(store.Contents()), other) {
        NewMessageKeepsView(old(store.Contents()), store.Contents(), id, sampled, true, other);
      }
      data, err, executed := Evaluate(msg, md5Sum, id, group, rules, runs);
    }
  }

  /** Where the store ID of an evaluated request comes from: from the cached message when there was
      one, else from the request's own body, whose date is good if the ID is new. */
  ghost predicate Tracked(md5Sum: string, parsed: Option<Envelope>, hit: bool, storeID: string,
                          before: seq<Entry<Message>>, after: seq<Entry<Message>>, messages: map<string, bool>) {
    && (if hit then exists e :: e in before && e.key == md5Sum && storeID == StoreIDOf(e)
        else parsed.Some? && storeID == ToStoreID(parsed.value, md5Sum))
    && (storeID !in messages ==> !hit && parsed.value.dateOK)
    && (forall e :: e in after && e.key == md5Sum ==> StoreIDOf(e) == storeID)
    && (forall e :: e in after && e.key != md5Sum ==> e in before)
  }

  /** What one evaluation does to the store's tags: the first part `executed` of its changes reaches
      its own message, and no other message's tags move. */
  ghost predicate Recorded(storeID: string, before: DB, after: DB, executed: seq<TagChange>, changes: seq<TagChange>) {
    && executed <= changes
    && Visible(after, storeID) == Replay(Visible(before, storeID), executed)
    && forall other :: other != storeID ==> Visible(after, other) == Visible(before, other)
  }

  /** The history tables get the group's row and a row for each rule that ran. */
  ghost predicate HistoryGrows(before: DB, after: DB, storeID: string, group: Bytes, records: seq<RuleRecord>) {
    && after.groups == before.groups + [GroupRow(storeID, group, GroupResult(records).0, GroupResult(records).1)]
    && after.rules == before.rules + RuleRows(|before.groups| + 1, records)
  }

  lemma HistoryAfter(db: DB, storeID: string, group: Bytes, records: seq<RuleRecord>)
    ensures var ws := EvalWrites(db, storeID, group, records);
      HistoryGrows(db, ExecuteAll(db, ws[..|ws|]), storeID, group, records)
  {
    var ws := EvalWrites(db, storeID, group, records);
    assert ws[..|ws|] == ws;
    EvalAddsRows(db, storeID, group, records);
  }

  // ---------- whole runs ----------

  datatype EvalRequest = EvalRequest(md5Sum: string, parsed: Option<Envelope>, bodySize: nat, sampled: bool, now: int,
                                     group: Bytes, rules: seq<Rule>, runs: seq<RuleRun>)

  ghost predicate WellFormed(r: EvalRequest) { r.bodySize < TWO64 && |r.runs| == |r.rules| }

  /** The store ID that a request's own body gives. */
  ghost function IDOf(r: EvalRequest): string
    requires r.parsed.Some?
  {
    ToStoreID(r.parsed.value, r.md5Sum)
  }

  /** No two bodies with different sums share a store ID. */
  ghost predicate OneKeyPerStoreID(rs: seq<EvalRequest>) {
    forall i, j ::
      0 <= i < |rs| && 0 <= j < |rs| && rs[i].parsed.Some? && rs[j].parsed.Some? && IDOf(rs[i]) == IDOf(rs[j])
      ==> rs[i].md5Sum == rs[j].md5Sum
  }

  /** Bodies with equal sums parse alike. Sums without collisions give this. */
  ghost predicate SumsParseEqually(rs: seq<EvalRequest>) {
    forall i, j :: 0 <= i < |rs| && 0 <= j < |rs| && rs[i].md5Sum == rs[j].md5Sum ==> rs[i].parsed == rs[j].parsed
  }

  /** One of the first `n` requests has this sum and gives this store ID. */
  ghost predicate IDFrom(rs: seq<EvalRequest>, n: nat, md5Sum: string, storeID: string)
    requires n <= |rs|
  {
    exists j :: 0 <= j < n && rs[j].md5Sum == md5Sum && rs[j].parsed.Some? && IDOf(rs[j]) == storeID
  }

  /** The store ID had a row to begin with, or got one from one of the first `n` requests. */
  ghost predicate KnownFrom(known: map<string, bool>, rs: seq<EvalRequest>, n: nat, storeID: string)
    requires n <= |rs|
  {
    storeID in known
    || exists j :: 0 <= j < n && rs[j].parsed.Some? && rs[j].parsed.value.dateOK && IDOf(rs[j]) == storeID
  }

  /** The row was there before, or one of the first `n` requests inserted it with its own decision. */
  ghost predicate RowFrom(known: map<string, bool>, rs: seq<EvalRequest>, n: nat, storeID: string, sampled: bool)
    requires n <= |rs|
  {
    if storeID in known then known[storeID] == sampled
    else exists j ::
      0 <= j < n && rs[j].parsed.Some? && rs[j].parsed.value.dateOK && IDOf(rs[j]) == storeID
      && rs[j].sampled == sampled
  }

  /** A body that is no message, or whose date cannot be stored and that was not stored before. */
  ghost predicate Refusable(r: EvalRequest, known: map<string, bool>) {
    r.parsed.None? || (!r.parsed.value.dateOK && IDOf(r) !in known)
  }

  /** The changes that the evaluation for request `request` made, and the store ID it was for. */
  datatype Evaluated = Evaluated(request: nat, storeID: string, changes: seq<TagChange>)

  function ChangesTo(log: seq<Evaluated>, storeID: string): seq<TagChange> {
    if log == [] then []
    else
      var last := log[|log| - 1];
      ChangesTo(log[..|log| - 1], storeID) + if last.storeID == storeID then last.changes else []
  }

  lemma OneMoreEvaluation(tags: Tags, log: seq<Evaluated>, e: Evaluated, storeID: string)
    ensures Replay(tags, ChangesTo(log + [e], storeID))
         == if e.storeID == storeID then Replay(Replay(tags, ChangesTo(log, storeID)), e.changes)
            else Replay(tags, ChangesTo(log, storeID))
  {
    hide Replay;
    assert (log + [e])[..|log|] == log;
    ReplayAppend(tags, ChangesTo(log, storeID), e.changes);
    assert ChangesTo(log, storeID) + [] == ChangesTo(log, storeID);
  }

  /** The reply and the changes are those of the request's rules, and the evaluation was recorded
      for the store ID of the request's message. */
  ghost predicate Served(rs: seq<EvalRequest>, known: map<string, bool>, reply: (Bytes, Option<HandlerError>),
                         e: Evaluated) {
    && e.request < |rs|
    && var r := rs[e.request];
    && WellFormed(r) && !Unevaluated(reply.1)
    && e.changes == ChangesOf(r.rules, r.runs)
    && Answers(VerdictOf(r.rules, r.runs), reply.0, reply.1)
    && IDFrom(rs, e.request + 1, r.md5Sum, e.storeID)
    && KnownFrom(known, rs, e.request + 1, e.storeID)
  }

  ghost function RecordsFor(r: EvalRequest): seq<RuleRecord>
    requires |r.runs| == |r.rules|
  {
    RecordsOf(r.rules, r.runs, Reached(r.runs))
  }

  /** The rule rows of the evaluations in `log`, each under the ID of its group row, which are numbered
      from `n` on. */
  ghost function AllRuleRows(log: seq<Evaluated>, rs: seq<EvalRequest>, n: nat): seq<RuleRow>
    requires forall k :: 0 <= k < |log| ==> log[k].request < |rs| && WellFormed(rs[log[k].request])
  {
    if log == [] then []
    else
      var m := |log| - 1;
      var last := rs[log[m].request];
      assert WellFormed(last);
      AllRuleRows(log[..m], rs, n) + RuleRows(n + m + 1, RecordsFor(last))
  }

  /** Each evaluation in `log` added a group row with its own store ID, group and result, and its rule
      rows; no other row came or went. */
  ghost predicate Histories(before: DB, after: DB, log: seq<Evaluated>, rs: seq<EvalRequest>) {
    && (forall k :: 0 <= k < |log| ==> log[k].request < |rs| && WellFormed(rs[log[k].request]))
    && |after.groups| == |before.groups| + |log| && before.groups <= after.groups
    && (forall k :: 0 <= k < |log| ==>
          var r := rs[log[k].request];
          after.groups[|before.groups| + k]
          == GroupRow(log[k].storeID, r.group, GroupResult(RecordsFor(r)).0, GroupResult(RecordsFor(r)).1))
    && after.rules == before.rules + AllRuleRows(log, rs, |before.groups|)
  }

  lemma OneMoreHistory(before: DB, mid: DB, after: DB, log: seq<Evaluated>, rs: seq<EvalRequest>, one: Evaluated)
    requires Histories(before, mid, log, rs) && one.request < |rs| && WellFormed(rs[one.request])
    requires HistoryGrows(mid, after, one.storeID, rs[one.request].group, RecordsFor(rs[one.request]))
    ensures Histories(before, after, log + [one], rs)
  {
    hide RuleRows, GroupResult, RecordsFor;
    assert (log + [one])[..|log|] == log;
    forall k | 0 <= k <= |log|
      ensures (log + [one])[k].request < |rs| && WellFormed(rs[(log + [one])[k].request]) {}
  }

  /** `log` holds, in order, the requests whose rules ran, each with the changes its rules made and
      the store ID they were recorded for; `replies` answer accordingly, and a request is refused
      only if it can be. `known` are the message rows that were there before. */
  ghost predicate Logs(log: seq<Evaluated>, rs: seq<EvalRequest>, replies: seq<(Bytes, Option<HandlerError>)>,
                       known: map<string, bool>) {
    && |replies| <= |rs|
    && (forall k :: 0 <= k < |log| ==> log[k].request < |replies|)
    && (forall k :: 0 <= k < |log| ==> Served(rs, known, replies[log[k].request], log[k]))
    && (forall k, l :: 0 <= k < l < |log| ==> log[k].request < log[l].request)
    && (forall i :: 0 <= i < |replies| && !Unevaluated(replies[i].1) ==> InLog(log, i))
    && (forall i :: 0 <= i < |replies| && Unevaluated(replies[i].1) ==> Refusable(rs[i], known))
  }

  ghost predicate InLog(log: seq<Evaluated>, i: nat) {
    exists k :: 0 <= k < |log| && log[k].request == i
  }

  /** When sums tell bodies apart, exactly the requests that can be refused are, and every other is
      recorded under its own store ID. */
  lemma RefusedExactly(log: seq<Evaluated>, rs: seq<EvalRequest>, replies: seq<(Bytes, Option<HandlerError>)>,
                       known: map<string, bool>)
    requires Logs(log, rs, replies, known) && OneKeyPerStoreID(rs) && SumsParseEqually(rs)
    ensures forall k :: 0 <= k < |log| ==>
      rs[log[k].request].parsed.Some? && log[k].storeID == IDOf(rs[log[k].request])
    ensures forall i :: 0 <= i < |replies| ==> (Unevaluated(replies[i].1) <==> Refusable(rs[i], known))
  {
    hide ToStoreID, Answers, VerdictOf, ChangesOf;
  }

  /** The uses of the cache by the requests that `replies` answer: each adds its message when it is
      evaluated and its sum is not cached, and else only looks. */
  ghost predicate Uses(policy: Policy, uses: seq<Use<Message>>, rs: seq<EvalRequest>,
                       replies: seq<(Bytes, Option<HandlerError>)>) {
    && |uses| == |replies| <= |rs|
    && (forall k :: 0 <= k < |uses| ==>
          UseFor(uses[k], rs[k].md5Sum, rs[k].parsed, rs[k].bodySize, rs[k].now))
    && (forall k :: 0 <= k < |uses| ==>
          (uses[k].Add? <==>
             Find(After(policy, uses[..k]), rs[k].md5Sum).None? && !Unevaluated(replies[k].1)))
  }

  lemma OneMoreUsed(policy: Policy, uses: seq<Use<Message>>, rs: seq<EvalRequest>,
                    replies: seq<(Bytes, Option<HandlerError>)>, use: Use<Message>,
                    reply: (Bytes, Option<HandlerError>))
    requires Uses(policy, uses, rs, replies) && |replies| < |rs|
    requires var r := rs[|replies|];
      && UseFor(use, r.md5Sum, r.parsed, r.bodySize, r.now)
      && (use.Add? <==> Find(After(policy, uses), r.md5Sum).None? && !Unevaluated(reply.1))
    ensures Uses(policy, uses + [use], rs, replies + [reply])
    ensures After(policy, uses + [use]) == AfterUse(policy, After(policy, uses), use)
  {
    hide After, AfterUse, Find, Unevaluated, UseFor;
    var longer := uses + [use];
    assert longer[..|uses|] == uses;
    assert After(policy, longer) == AfterUse(policy, After(policy, uses), use) by { AfterLast(policy, longer); }
    forall k | 0 <= k < |uses| ensures longer[..k] == uses[..k] {}
  }

  lemma AfterLast(policy: Policy, uses: seq<Use<Message>>)
    requires uses != []
    ensures After(policy, uses) == AfterUse(policy, After(policy, uses[..|uses| - 1]), uses[|uses| - 1])
  {
  }

  /** So what is cached has the size and the birthday of a request with its sum, and the cache keeps its
      limit on the count, and that on size if there is room for one more body. */
  lemma CacheOfServed(policy: Policy, uses: seq<Use<Message>>, rs: seq<EvalRequest>,
                      replies: seq<(Bytes, Option<HandlerError>)>)
    requires Uses(policy, uses, rs, replies)
    ensures forall e :: e in After(policy, uses) ==> exists j ::
      0 <= j < |rs| && rs[j].md5Sum == e.key && rs[j].bodySize == e.size && rs[j].now == e.birthday
    ensures policy.maxCount > 0 ==> |After(policy, uses)| <= policy.maxCount
    ensures policy.maxSize > 0 && (forall j :: 0 <= j < |rs| ==> policy.maxSize + rs[j].bodySize < TWO64) ==>
      Total(After(policy, uses)) <= policy.maxSize
  {
    hide After, Find, Total;
    forall e | e in After(policy, uses)
      ensures exists j ::
        0 <= j < |rs| && rs[j].md5Sum == e.key && rs[j].bodySize == e.size && rs[j].now == e.birthday
    {
      var i := EntriesWereAdded(policy, uses, e);
    }
    var most := if policy.maxSize < TWO64 then TWO64 - 1 - policy.maxSize else 0;
    if forall j :: 0 <= j < |rs| ==> policy.maxSize + rs[j].bodySize < TWO64 {
      LimitsOverUses(policy, uses, most);
      assert rs != [] ==> policy.maxSize + rs[0].bodySize < TWO64;
      if rs == [] {
        assert uses == [];
        NothingUsed(policy);
      }
    }
    var any := Largest(uses);
    LimitsOverUses(policy, uses, any);
  }

  lemma NothingUsed(policy: Policy)
    ensures After<Message>(policy, []) == [] && Total<Message>([]) == 0
  {
  }

  /** Some number that no added size exceeds. */
  ghost function Largest(uses: seq<Use<Message>>): (most: nat)
    ensures SizesUpTo(uses, most)
  {
    if uses == [] then 0
    else
      var rest := Largest(uses[..|uses| - 1]);
      var last := uses[|uses| - 1];
      assert uses == uses[..|uses| - 1] + [last];
      if last.Add? && last.e.size > rest then last.e.size else rest
  }

  /** Requests served one after another, with whatever the cache evicts in between. The tags of
      every store ID are those of all the changes the evaluations made for it, in order, as if there
      were neither cache nor tombstones; and if store IDs have one key each, cached messages always
      agree with the store. The history has the rows of these evaluations, in order, new message rows
      have the decision of a request that inserted them, and the cache is what the requests' uses leave
      of it. */
  method ServeInTurn(d: Daemon, rs: seq<EvalRequest>)
    returns (replies: seq<(Bytes, Option<HandlerError>)>, ghost log: seq<Evaluated>, ghost uses: seq<Use<Message>>)
    requires d.Valid() && d.cache.entries == [] && d.store.stmtsLeft.None?
    requires forall i :: 0 <= i < |rs| ==> WellFormed(rs[i])
    modifies d.cache, d.store
    ensures d.Valid() && (OneKeyPerStoreID(rs) ==> d.Coherent())
    ensures |replies| == |rs| && Logs(log, rs, replies, old(d.store.messages))
    ensures forall id :: Visible(d.store.Contents(), id)
                      == Replay(Visible(old(d.store.Contents()), id), ChangesTo(log, id))
    ensures Histories(old(d.store.Contents()), d.store.Contents(), log, rs)
    ensures forall id :: id in old(d.store.messages) ==> id in d.store.messages
    ensures forall id :: id in d.store.messages ==>
      RowFrom(old(d.store.messages), rs, |rs|, id, d.store.messages[id])
    ensures Uses(d.cache.policy, uses, rs, replies) && d.cache.entries == After(d.cache.policy, uses)
    ensures forall e :: e in d.cache.entries ==> exists j ::
      0 <= j < |rs| && rs[j].md5Sum == e.key && rs[j].bodySize == e.size && rs[j].now == e.birthday
    ensures var p := d.cache.policy;
      && (p.maxCount > 0 ==> |d.cache.entries| <= p.maxCount)
      && (p.maxSize > 0 && (forall j :: 0 <= j < |rs| ==> p.maxSize + rs[j].bodySize < TWO64) ==>
            Total(d.cache.entries) <= p.maxSize)
  {
    hide Visible, ToStoreID, Replay, ChangesTo, Served, Logs, OneKeyPerStoreID, IDFrom, RowFrom, Histories, Uses,
         After, AfterUse, Find, Total, DistinctKeys, RowsHaveMessages, HistoryGrows, RecordsFor;
    replies, log, uses := [], [], [];
    ghost var known := d.store.messages;
    NothingLogged(d, rs);
    forall id ensures Visible(d.store.Contents(), id) == Replay(Visible(d.store.Contents(), id), ChangesTo([], id)) {
      NothingReplayed(Visible(d.store.Contents(), id), id);
    }
    for i := 0 to |rs|
      invariant d.Valid() && d.store.stmtsLeft.None? && (OneKeyPerStoreID(rs) ==> d.Coherent())
      invariant forall m :: m in d.CachedMessages() ==> fresh(m)
      invariant Sources(d.cache.entries, d.store.messages, known, rs, i)
      invariant |replies| == i && Logs(log, rs, replies, known)
      invariant forall id :: Visible(d.store.Contents(), id)
                          == Replay(Visible(old(d.store.Contents()), id), ChangesTo(log, id))
      invariant Histories(old(d.store.Contents()), d.store.Contents(), log, rs)
      invariant Uses(d.cache.policy, uses, rs, replies) && d.cache.entries == After(d.cache.policy, uses)
    {
      ghost var before := d.store.Contents();
      ghost var storeID, executed, use;
      var data, err;
      data, err, storeID, executed, use := ServeOne(d, rs, i, known);
      ghost var one := Evaluated(i, storeID, executed);
      OneMoreLogged(log, rs, replies, known, one, (data, err));
      OneMoreUsed(d.cache.policy, uses, rs, replies, use, (data, err));
      if !Unevaluated(err) {
        OneMoreHistory(old(d.store.Contents()), before, d.store.Contents(), log, rs, one);
        forall id ensures Visible(d.store.Contents(), id)
                       == Replay(Visible(old(d.store.Contents()), id), ChangesTo(log + [one], id)) {
          OneMoreEvaluation(Visible(old(d.store.Contents()), id), log, one, id);
        }
        log := log + [one];
      }
      replies, uses := replies + [(data, err)], uses + [use];
    }
    CacheOfServed(d.cache.policy, uses, rs, replies);
  }

  /** Cache entries and message rows come from the first `n` requests or were there before. */
  ghost predicate Sources(entries: seq<Entry<Message>>, messages: map<string, bool>, known: map<string, bool>,
                          rs: seq<EvalRequest>, n: nat)
    requires n <= |rs|
  {
    && (forall e :: e in entries ==> IDFrom(rs, n, e.key, StoreIDOf(e)))
    && (forall id :: id in messages ==> RowFrom(known, rs, n, id, messages[id]))
    && (forall id :: id in known ==> id in messages)
  }

  lemma SourcesNext(entries: seq<Entry<Message>>, entries': seq<Entry<Message>>, messages: map<string, bool>,
                    messages': map<string, bool>, known: map<string, bool>, rs: seq<EvalRequest>, i: nat,
                    hit: bool, storeID: string)
    requires i < |rs| && Sources(entries, messages, known, rs, i)
    requires Tracked(rs[i].md5Sum, rs[i].parsed, hit, storeID, entries, entries', messages)
    requires messages' == if storeID in messages then messages else messages[storeID := rs[i].sampled]
    ensures Sources(entries', messages', known, rs, i + 1)
    ensures IDFrom(rs, i + 1, rs[i].md5Sum, storeID) && KnownFrom(known, rs, i + 1, storeID)
    ensures OneKeyPerStoreID(rs) ==> forall e :: e in entries' && StoreIDOf(e) == storeID ==> e.key == rs[i].md5Sum
  {
    hide ToStoreID, IDFrom, RowFrom, KnownFrom, OneKeyPerStoreID;
    LaterStill(known, rs, i);
    if rs[i].parsed.Some? {
      FromThis(known, rs, i);
    }
    RowIsKnown(known, rs, i + 1, storeID, messages'[storeID]);
    if OneKeyPerStoreID(rs) {
      forall e | e in entries' && StoreIDOf(e) == storeID ensures e.key == rs[i].md5Sum {
        OneKey(rs, i + 1, e.key, rs[i].md5Sum, storeID);
      }
    }
  }

  lemma RowIsKnown(known: map<string, bool>, rs: seq<EvalRequest>, n: nat, id: string, sampled: bool)
    requires n <= |rs| && RowFrom(known, rs, n, id, sampled)
    ensures KnownFrom(known, rs, n, id)
  {
  }

  /** One request of a run. */
  method ServeOne(d: Daemon, rs: seq<EvalRequest>, i: nat, ghost known: map<string, bool>)
    returns (data: Bytes, err: Option<HandlerError>, ghost storeID: string, ghost executed: seq<TagChange>,
             ghost use: Use<Message>)
    requires i < |rs| && WellFormed(rs[i])
    requires d.Valid() && d.store.stmtsLeft.None? && Sources(d.cache.entries, d.store.messages, known, rs, i)
    modifies d.cache, d.store, d.CachedMessages()
    ensures d.Valid() && d.store.stmtsLeft.None? && Sources(d.cache.entries, d.store.messages, known, rs, i + 1)
    ensures OneKeyPerStoreID(rs) && old(d.Coherent()) ==> d.Coherent()
    ensures forall m :: m in d.CachedMessages() ==> fresh(m) || m in old(d.CachedMessages())
    ensures forall id :: Visible(d.store.Contents(), id)
                      == if !Unevaluated(err) && id == storeID
                         then Replay(Visible(old(d.store.Contents()), id), executed)
                         else Visible(old(d.store.Contents()), id)
    ensures if Unevaluated(err) then Refusable(rs[i], known)
            else Served(rs, known, (data, err), Evaluated(i, storeID, executed))
    ensures if Unevaluated(err) then d.store.Contents() == old(d.store.Contents())
            else HistoryGrows(old(d.store.Contents()), d.store.Contents(), storeID, rs[i].group, RecordsFor(rs[i]))
    ensures d.cache.entries == AfterUse(d.cache.policy, old(d.cache.entries), use)
    ensures UseFor(use, rs[i].md5Sum, rs[i].parsed, rs[i].bodySize, rs[i].now)
    ensures use.Add? <==> old(Find(d.cache.entries, rs[i].md5Sum)).None? && !Unevaluated(err)
  {
    hide Visible, ToStoreID, Replay, ChangesOf, Answers, VerdictOf, HistoryGrows, IDFrom, KnownFrom, OneKeyPerStoreID,
         Tracked, Find, RowFrom, AfterUse, RowsHaveMessages, DistinctKeys, Total, RecordsOf, Reached;
    var r := rs[i];
    ghost var hit, entries, messages := d.cache.Has(r.md5Sum), d.cache.entries, d.store.messages;
    data, err, storeID, executed, use :=
      d.HandleEval(r.md5Sum, r.parsed, r.bodySize, r.sampled, r.now, r.group, r.rules, r.runs);
    if Unevaluated(err) {
      LaterStill(known, rs, i);
    } else {
      SourcesNext(entries, d.cache.entries, messages, d.store.messages, known, rs, i, hit, storeID);
    }
  }

  lemma NothingLogged(d: Daemon, rs: seq<EvalRequest>)
    requires d.cache.entries == []
    ensures var known := d.store.messages;
      Logs([], rs, [], known) && Sources(d.cache.entries, known, known, rs, 0)
    ensures Histories(d.store.Contents(), d.store.Contents(), [], rs)
    ensures Uses(d.cache.policy, [], rs, []) && After<Message>(d.cache.policy, []) == []
  {
    hide IDFrom;
  }

  lemma LaterStill(known: map<string, bool>, rs: seq<EvalRequest>, n: nat)
    requires n < |rs|
    ensures forall key, id :: IDFrom(rs, n, key, id) ==> IDFrom(rs, n + 1, key, id)
    ensures forall id, sampled :: RowFrom(known, rs, n, id, sampled) ==> RowFrom(known, rs, n + 1, id, sampled)
  {
  }

  lemma FromThis(known: map<string, bool>, rs: seq<EvalRequest>, i: nat)
    requires i < |rs| && rs[i].parsed.Some?
    ensures IDFrom(rs, i + 1, rs[i].md5Sum, IDOf(rs[i]))
    ensures rs[i].parsed.value.dateOK && IDOf(rs[i]) !in known ==>
      RowFrom(known, rs, i + 1, IDOf(rs[i]), rs[i].sampled)
  {
  }

  lemma OneKey(rs: seq<EvalRequest>, n: nat, key: string, key': string, id: string)
    requires n <= |rs| && OneKeyPerStoreID(rs) && IDFrom(rs, n, key, id) && IDFrom(rs, n, key', id)
    ensures key == key'
  {
  }

  lemma OneMoreLogged(log: seq<Evaluated>, rs: seq<EvalRequest>, replies: seq<(Bytes, Option<HandlerError>)>,
                      known: map<string, bool>, one: Evaluated, reply: (Bytes, Option<HandlerError>))
    requires Logs(log, rs, replies, known) && |replies| < |rs| && one.request == |replies|
    requires if Unevaluated(reply.1) then Refusable(rs[|replies|], known) else Served(rs, known, reply, one)
    ensures Logs(if Unevaluated(reply.1) then log else log + [one], rs, replies + [reply], known)
  {
    hide Served, Unevaluated, InLog, Refusable;
    var replies' := replies + [reply];
    var log' := if Unevaluated(reply.1) then log else log + [one];
    forall k | 0 <= k < |log'|
      ensures log'[k].request < |replies'| && Served(rs, known, replies'[log'[k].request], log'[k])
    {
      assert k < |log| ==> log'[k] == log[k];
    }
    forall i | 0 <= i < |replies'| && !Unevaluated(replies'[i].1) ensures InLog(log', i) {
      InLongerLog(log, one, i);
    }
  }

  lemma InLongerLog(log: seq<Evaluated>, one: Evaluated, i: nat)
    ensures InLog(log, i) || one.request == i ==> InLog(log + [one], i)
  {
    if one.request == i {
      assert (log + [one])[|log|].request == i;
    } else if InLog(log, i) {
      var k :| 0 <= k < |log| && log[k].request == i;
      assert (log + [one])[k].request == i;
    }
  }

  lemma NothingReplayed(tags: Tags, id: string)
    ensures Replay(tags, ChangesTo([], id)) == tags
  {
  }

  /** All the changes the rules make before the loop stops. */
  ghost function ChangesOf(rules: seq<Rule>, runs: seq<RuleRun>): seq<TagChange>
    requires |runs| == |rules|
  {
    AllChanges(RecordsOf(rules, runs, Reached(runs)))
  }

  /** The answer of a request whose rules ran; a rule's error goes before a store error. */
  ghost predicate Answers(v: Verdict, data: Bytes, err: Option<HandlerError>) {
    match v
    case FailedWith(e) => err == Some(RuleError(e))
    case MatchedBy(name) => err == Some(RecordFailed) || (err.None? && data == MATCH + name)
    case NothingMatched => err == Some(RecordFailed) || (err.None? && data == [])
  }
}
