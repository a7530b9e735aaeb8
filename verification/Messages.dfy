/** Messages held in memory and the records of their evaluation (daemon/message.go). */
module Messages {
  import opened ByteText
  import opened TagLogs

  /** What the daemon looks at in a parsed MIME envelope: the Message-ID header, the address
      `mail.ParseAddress` finds in it, and whether the Date header is absent or can be parsed. */
  datatype Envelope = Envelope(messageID: string, address: Option<string>, dateOK: bool)

  function ToStoreID(e: Envelope, md5Sum: string): string {
    if e.messageID != "" && e.address.Some? then "Message-ID:" + e.address.value
    else "MD5-Sum:" + md5Sum
  }

  /** Two store IDs agree exactly when both come from the same address or both from the same sum. */
  lemma StoreIDsAgree(e: Envelope, sum: string, e': Envelope, sum': string)
    ensures ToStoreID(e, sum) == if e.messageID != "" && e.address.Some? then "Message-ID:" + e.address.value
                                 else "MD5-Sum:" + sum
    ensures ToStoreID(e, sum) == ToStoreID(e', sum')
      <==> if e.messageID != "" && e.address.Some?
           then e'.messageID != "" && e'.address == e.address
           else (e'.messageID == "" || e'.address.None?) && sum == sum'
  {
    var a, b := "Message-ID:", "MD5-Sum:";
    assert a[1] == 'e' && b[1] == 'D';
    PrefixCancels(a, if e.address.Some? then e.address.value else "",
                  if e'.address.Some? then e'.address.value else "");
    PrefixCancels(b, sum, sum');
    assert (a + if e.address.Some? then e.address.value else "")[1] == 'e';
    assert (a + if e'.address.Some? then e'.address.value else "")[1] == 'e';
    assert (b + sum)[1] == 'D' && (b + sum')[1] == 'D';
  }

  lemma PrefixCancels(p: string, x: string, y: string)
    ensures p + x == p + y <==> x == y
  {
    assert (p + x)[|p|..] == x && (p + y)[|p|..] == y;
  }

  datatype Metadata = Metadata(sampled: bool, tags: Option<Tags>)

  function TagsOf(tags: Option<Tags>): Tags {
    if tags.Some? then tags.value else map[]
  }

  /** Copies the given tags one by one, in no particular order. */
  method NewMetadata(sampled: bool, tags: Option<Tags>) returns (meta: Metadata)
    ensures meta == Metadata(sampled, Some(TagsOf(tags)))
  {
    var source := TagsOf(tags);
    var copied: Tags := map[];
    var left := source.Keys;
    while left != {}
      invariant left <= source.Keys && copied.Keys == source.Keys - left
      invariant forall k :: k in copied ==> copied[k] == source[k]
    {
      var k :| k in left;
      copied := copied[k := source[k]];
      left := left - {k};
    }
    assert copied == source;
    return Metadata(sampled, Some(copied));
  }

  /** A message shared by the cache and by every handler that found it. `tags` is None while the
      source's map is nil. */
  class Message {
    const envelope: Envelope
    const sampled: bool
    var tags: Option<Tags>

    constructor (envelope: Envelope, meta: Metadata)
      ensures this.envelope == envelope && sampled == meta.sampled && tags == meta.tags
    {
      this.envelope, sampled, tags := envelope, meta.sampled, meta.tags;
    }

    function Tags(): Tags
      reads this
    {
      TagsOf(tags)
    }
  }

  /** A finished rule evaluation, as a value. */
  datatype RuleRecord = RuleRecord(rule: Bytes, matched: bool, err: Option<Bytes>, changes: seq<TagChange>)

  /** One rule's evaluation; its tag operations change the shared message and are logged here. */
  class RuleEvalRecord {
    const message: Message
    const rule: Bytes
    var matched: bool
    var err: Option<Bytes>
    var tagChanges: seq<TagChange>

    constructor (message: Message, rule: Bytes)
      ensures this.message == message && this.rule == rule
      ensures !matched && err.None? && tagChanges == []
    {
      this.message, this.rule := message, rule;
      matched, err, tagChanges := false, None, [];
    }

    function Value(): RuleRecord
      reads this
    {
      RuleRecord(rule, matched, err, tagChanges)
    }

    method Keys() returns (keys: seq<string>)
      ensures forall k :: k in keys <==> k in message.Tags()
      ensures forall i, j :: 0 <= i < j < |keys| ==> keys[i] != keys[j]
    {
      keys := [];
      var left := message.Tags().Keys;
      while left != {}
        invariant left <= message.Tags().Keys
        invariant forall k :: k in keys <==> k in message.Tags() && k !in left
        invariant forall i, j :: 0 <= i < j < |keys| ==> keys[i] != keys[j]
      {
        var k :| k in left;
        keys := keys + [k];
        left := left - {k};
      }
    }

    method GetTag(key: string) returns (value: Option<string>)
      ensures value == Lookup(message.Tags(), key)
    {
      if message.tags.Some? && key in message.tags.value {
        return Some(message.tags.value[key]);
      }
      return None;
    }

    method SetTag(now: nat, key: string, value: string)
      modifies this`tagChanges, message`tags
      ensures tagChanges == old(tagChanges) + [TagChange(now, key, Some(value))]
      ensures message.Tags() == Change(old(message.Tags()), TagChange(now, key, Some(value)))
    {
      if message.tags.None? {
        message.tags := Some(map[]);
      }
      message.tags := Some(message.tags.value[key := value]);
      tagChanges := tagChanges + [TagChange(now, key, Some(value))];
    }

    /** Deleting an absent key changes no tag but is logged all the same. */
    method DeleteTag(now: nat, key: string)
      modifies this`tagChanges, message`tags
      ensures tagChanges == old(tagChanges) + [TagChange(now, key, None)]
      ensures message.Tags() == Change(old(message.Tags()), TagChange(now, key, None))
    {
      if message.tags.Some? {
        message.tags := Some(message.tags.value - {key});
      }
      tagChanges := tagChanges + [TagChange(now, key, None)];
    }

    /** The tag operations of one rule, whatever they are: the log they leave replays to exactly
        what they did to the message. */
    method Perform(ops: seq<TagChange>)
      requires tagChanges == []
      modifies this`tagChanges, message`tags
      ensures tagChanges == ops
      ensures message.Tags() == Replay(old(message.Tags()), ops)
    {
      for i := 0 to |ops|
        invariant tagChanges == ops[..i]
        invariant message.Tags() == Replay(old(message.Tags()), ops[..i])
      {
        assert ops[..i + 1][..i] == ops[..i];
        match ops[i].value
        case Some(v) => SetTag(ops[i].time, ops[i].key, v);
        case None => DeleteTag(ops[i].time, ops[i].key);
      }
      assert ops[..|ops|] == ops;
    }
  }

  ghost function Values(rs: seq<RuleEvalRecord>): seq<RuleRecord>
    reads rs
  {
    seq(|rs|, i requires 0 <= i < |rs| reads rs => rs[i].Value())
  }

  /** The evaluation of one group on one message. */
  class EvalRecord {
    const message: Message
    const group: Bytes
    var rules: seq<RuleEvalRecord>

    constructor (message: Message, group: Bytes)
      ensures this.message == message && this.group == group && rules == []
    {
      this.message, this.group, rules := message, group, [];
    }
  }
}
