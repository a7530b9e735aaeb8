/** Tags and the log of changes a rule makes to them (TagChange in daemon/message.go). */
module TagLogs {
  import opened ByteText

  type Tags = map<string, string>

  /** A None value is a deletion. */
  datatype TagChange = TagChange(time: nat, key: string, value: Option<string>)

  function Lookup(tags: Tags, key: string): Option<string> {
    if key in tags then Some(tags[key]) else None
  }

  function Change(tags: Tags, c: TagChange): (r: Tags)
    ensures forall k :: Lookup(r, k) == if k == c.key then c.value else Lookup(tags, k)
  {
    match c.value
    case Some(v) => tags[c.key := v]
    case None => tags - {c.key}
  }

  function Replay(tags: Tags, cs: seq<TagChange>): Tags {
    if cs == [] then tags else Change(Replay(tags, cs[..|cs| - 1]), cs[|cs| - 1])
  }

  lemma {:induction false} ReplayAppend(tags: Tags, cs: seq<TagChange>, ds: seq<TagChange>)
    ensures Replay(tags, cs + ds) == Replay(Replay(tags, cs), ds)
  {
    if ds == [] {
      assert cs + ds == cs;
    } else {
      var n := |ds| - 1;
      ReplayAppend(tags, cs, ds[..n]);
      assert (cs + ds)[..|cs + ds| - 1] == cs + ds[..n];
    }
  }

  lemma ReplayOne(tags: Tags, c: TagChange)
    ensures Replay(tags, [c]) == Change(tags, c)
  {
  }

  /** The last change of `key`, if it was changed at all. */
  function LastFor(cs: seq<TagChange>, key: string): (r: Option<TagChange>)
    ensures r.None? ==> forall c :: c in cs ==> c.key != key
    ensures r.Some? ==> r.value in cs && r.value.key == key
  {
    if cs == [] then None
    else
      var n := |cs| - 1;
      assert cs == cs[..n] + [cs[n]];
      if cs[n].key == key then Some(cs[n]) else LastFor(cs[..n], key)
  }

  /** After a replay every key has the value of its last change, or its old one. */
  lemma {:induction false} ReplayAt(tags: Tags, cs: seq<TagChange>, key: string)
    ensures Lookup(Replay(tags, cs), key)
         == if LastFor(cs, key).Some? then LastFor(cs, key).value.value else Lookup(tags, key)
  {
    if cs != [] {
      ReplayAt(tags, cs[..|cs| - 1], key);
    }
  }

  /** Tags are equal when every lookup agrees. */
  lemma SameLookups(a: Tags, b: Tags)
    ensures a == b <==> forall k :: Lookup(a, k) == Lookup(b, k)
  {
    if forall k :: Lookup(a, k) == Lookup(b, k) {
      forall k ensures k in a <==> k in b { assert Lookup(a, k) == Lookup(b, k); }
      forall k | k in a ensures a[k] == b[k] { assert Lookup(a, k) == Lookup(b, k); }
      assert a.Keys == b.Keys;
    }
  }
}
