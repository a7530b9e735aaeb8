/** Two orders of the same tag changes: the order in which handlers that share a message change its
    tags in memory (daemon/message.go), and the order in which their logs, each kept in order, reach
    the store (cmd/reeed/store/sqlite3_store.go). */
module SharedLogs {
  import opened ByteText
  import opened TagLogs

  /** A tag change in memory or in the store, with who made it on which message. */
  datatype Event = Event(handler: nat, message: nat, storeID: string, change: TagChange)

  function Changes(es: seq<Event>): (cs: seq<TagChange>)
    ensures |cs| == |es|
  {
    seq(|es|, i requires 0 <= i < |es| => es[i].change)
  }

  /** The changes of one handler, in the order in which they stand in `es`. */
  function ByHandler(es: seq<Event>, h: nat): seq<TagChange> {
    if es == [] then []
    else
      var e := es[|es| - 1];
      ByHandler(es[..|es| - 1], h) + if e.handler == h then [e.change] else []
  }

  /** The last event that changes `key`. */
  function LastEvent(es: seq<Event>, key: string): Option<Event> {
    if es == [] then None
    else if es[|es| - 1].change.key == key then Some(es[|es| - 1])
    else LastEvent(es[..|es| - 1], key)
  }

  function LastValue(es: seq<Event>, key: string): Option<Option<string>> {
    match LastEvent(es, key)
    case None => None
    case Some(e) => Some(e.change.value)
  }

  lemma ByHandlerOne(es: seq<Event>, e: Event, h: nat)
    ensures ByHandler(es + [e], h) == ByHandler(es, h) + if e.handler == h then [e.change] else []
  {
  }

  lemma {:induction false} LastChangeIsLastEvent(es: seq<Event>, key: string)
    ensures LastFor(Changes(es), key)
         == if LastEvent(es, key).Some? then Some(LastEvent(es, key).value.change) else None
  {
    if es != [] {
      var n := |es| - 1;
      LastChangeIsLastEvent(es[..n], key);
      assert Changes(es)[..n] == Changes(es[..n]);
    }
  }

  /** The last event of a key is, to its handler, the last change of that key. */
  lemma {:induction false} LastEventEndsItsLog(es: seq<Event>, key: string)
    ensures var last := LastEvent(es, key);
      last.Some? ==> LastFor(ByHandler(es, last.value.handler), key) == Some(last.value.change)
  {
    if es != [] {
      var n := |es| - 1;
      LastEventEndsItsLog(es[..n], key);
      var last := LastEvent(es, key);
      if last.Some? {
        var log := ByHandler(es[..n], last.value.handler);
        assert (log + [es[n].change])[..|log|] == log;
        assert log + [] == log;
      }
    }
  }

  lemma {:induction false} LoggedKeyHasEvent(es: seq<Event>, h: nat, key: string)
    ensures LastFor(ByHandler(es, h), key).Some? ==> LastEvent(es, key).Some?
  {
    if es != [] {
      var n := |es| - 1;
      LoggedKeyHasEvent(es[..n], h, key);
      var log := ByHandler(es[..n], h);
      assert (log + [es[n].change])[..|log|] == log;
      assert log + [] == log;
    }
  }

  /** Every handler's log is the same in both: the two are merges of the same logs. */
  ghost predicate SameLogs(a: seq<Event>, b: seq<Event>) {
    forall h :: ByHandler(a, h) == ByHandler(b, h)
  }

  lemma SameKeysChanged(a: seq<Event>, b: seq<Event>, key: string)
    requires SameLogs(a, b)
    ensures LastEvent(a, key).Some? ==> LastEvent(b, key).Some?
  {
    LastEventEndsItsLog(a, key);
    if LastEvent(a, key).Some? {
      LoggedKeyHasEvent(b, LastEvent(a, key).value.handler, key);
    }
  }

  /** The handler that changes a key last is the same in both. */
  ghost predicate SameLastHandlers(a: seq<Event>, b: seq<Event>) {
    forall key :: LastEvent(a, key).Some? && LastEvent(b, key).Some?
                  ==> LastEvent(a, key).value.handler == LastEvent(b, key).value.handler
  }

  /** Two merges of the same logs leave the same tags exactly when the last change of every key has
      the same value in both, and certainly when it is made by the same handler. */
  lemma MergesAgree(base: Tags, a: seq<Event>, b: seq<Event>)
    requires SameLogs(a, b)
    ensures Replay(base, Changes(a)) == Replay(base, Changes(b))
       <==> forall key :: LastValue(a, key) == LastValue(b, key)
    ensures SameLastHandlers(a, b) ==> Replay(base, Changes(a)) == Replay(base, Changes(b))
  {
    hide Replay, Changes, ByHandler, LastEvent, SameLogs;
    var x, y := Replay(base, Changes(a)), Replay(base, Changes(b));
    forall key ensures Lookup(x, key) == Lookup(y, key) <==> LastValue(a, key) == LastValue(b, key) {
      ReplayAt(base, Changes(a), key);
      ReplayAt(base, Changes(b), key);
      LastChangeIsLastEvent(a, key);
      LastChangeIsLastEvent(b, key);
      SameKeysChanged(a, b, key);
      SameLogsSymmetric(a, b);
      SameKeysChanged(b, a, key);
    }
    SameLookups(x, y);
    if SameLastHandlers(a, b) {
      forall key ensures LastValue(a, key) == LastValue(b, key) {
        SameLogsSymmetric(a, b);
        SameKeysChanged(a, b, key);
        SameKeysChanged(b, a, key);
        LastEventEndsItsLog(a, key);
        LastEventEndsItsLog(b, key);
        if LastEvent(a, key).Some? {
          SameLogOf(a, b, LastEvent(a, key).value.handler);
        }
      }
    }
  }

  lemma SameLogsSymmetric(a: seq<Event>, b: seq<Event>)
    requires SameLogs(a, b)
    ensures SameLogs(b, a)
  {
  }

  lemma SameLogOf(a: seq<Event>, b: seq<Event>, h: nat)
    requires SameLogs(a, b)
    ensures ByHandler(a, h) == ByHandler(b, h)
  {
  }

  /** No key is changed by two handlers. */
  ghost predicate DisjointKeys(es: seq<Event>) {
    forall i, j :: 0 <= i < |es| && 0 <= j < |es| && es[i].change.key == es[j].change.key
      ==> es[i].handler == es[j].handler
  }

  lemma {:induction false} LastEventIsOne(es: seq<Event>, key: string) returns (i: int)
    ensures if LastEvent(es, key).Some?
            then 0 <= i < |es| && es[i] == LastEvent(es, key).value && es[i].change.key == key
            else i < 0
  {
    if es == [] {
      i := -1;
    } else if es[|es| - 1].change.key == key {
      i := |es| - 1;
    } else {
      i := LastEventIsOne(es[..|es| - 1], key);
    }
  }

  /** Handlers that touch disjoint keys always agree, however their logs are merged. */
  lemma DisjointKeysAgree(base: Tags, a: seq<Event>, b: seq<Event>)
    requires SameLogs(a, b) && DisjointKeys(a)
    ensures Replay(base, Changes(a)) == Replay(base, Changes(b))
  {
    hide Replay, Changes, ByHandler, LastEvent;
    forall key | LastEvent(a, key).Some? && LastEvent(b, key).Some?
      ensures LastEvent(a, key).value.handler == LastEvent(b, key).value.handler
    {
      var i := LastEventIsOne(a, key);
      LastEventEndsItsLog(b, key);
      var h := LastEvent(b, key).value.handler;
      SameLogOf(a, b, h);
      var j := LoggedByHandler(a, h, key);
    }
    MergesAgree(base, a, b);
  }

  lemma {:induction false} LoggedByHandler(es: seq<Event>, h: nat, key: string) returns (j: nat)
    requires LastFor(ByHandler(es, h), key).Some?
    ensures j < |es| && es[j].handler == h && es[j].change.key == key
  {
    var n := |es| - 1;
    var log := ByHandler(es[..n], h);
    assert (log + [es[n].change])[..|log|] == log;
    if es[n].handler == h && es[n].change.key == key {
      j := n;
    } else {
      assert log + [] == log;
      j := LoggedByHandler(es[..n], h, key);
    }
  }
}
