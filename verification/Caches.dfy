/** The message cache (cmd/reeed/cache/cache.go): a least-recently-used list whose policy object
    keeps a byte count through the list's callbacks and decides what is evicted. The list itself is
    a library; assumed of it is that it calls Added and Removed exactly when an entry comes or goes
    and, after an addition, evicts from the least recently used end until Evict refuses. */
module Caches {
  import opened ByteText

  const TWO64: nat := 0x1_0000_0000_0000_0000

  /** A limit that is not positive does not limit. */
  datatype Policy = Policy(maxCount: int, maxSize: nat, maxAge: int)

  datatype Entry<+V> = Entry(key: string, value: V, size: nat, birthday: int)

  /** The sum of the sizes, as a number. */
  function Total<V>(es: seq<Entry<V>>): nat {
    if es == [] then 0 else es[0].size + Total(es[1..])
  }

  lemma {:induction false} TotalAppend<V>(es: seq<Entry<V>>, fs: seq<Entry<V>>)
    ensures Total(es + fs) == Total(es) + Total(fs)
  {
    if es == [] {
      assert es + fs == fs;
    } else {
      assert (es + fs)[1..] == es[1..] + fs;
      TotalAppend(es[1..], fs);
    }
  }

  lemma TotalOne<V>(e: Entry<V>)
    ensures Total([e]) == e.size
  {
  }

  ghost predicate DistinctKeys<V>(es: seq<Entry<V>>) {
    forall i, j :: 0 <= i < j < |es| ==> es[i].key != es[j].key
  }

  function Find<V>(es: seq<Entry<V>>, key: string): (r: Option<nat>)
    ensures r.Some? ==> r.value < |es| && es[r.value].key == key
    ensures r.None? <==> forall e :: e in es ==> e.key != key
  {
    if es == [] then None
    else if es[0].key == key then Some(0)
    else
      var r := Find(es[1..], key);
      assert es == [es[0]] + es[1..];
      if r.None? then None else Some(r.value + 1)
  }

  function Without<V>(es: seq<Entry<V>>, key: string): seq<Entry<V>> {
    match Find(es, key)
    case None => es
    case Some(i) => es[..i] + es[i + 1..]
  }

  function SizeAt<V>(es: seq<Entry<V>>, key: string): nat {
    match Find(es, key)
    case None => 0
    case Some(i) => es[i].size
  }

  lemma TotalWithout<V>(es: seq<Entry<V>>, key: string)
    ensures Total(es) == Total(Without(es, key)) + SizeAt(es, key)
  {
    var r := Find(es, key);
    if r.Some? {
      var i := r.value;
      assert es == es[..i] + ([es[i]] + es[i + 1..]);
      TotalAppend(es[..i], [es[i]] + es[i + 1..]);
      TotalAppend(es[..i], es[i + 1..]);
      assert ([es[i]] + es[i + 1..])[1..] == es[i + 1..];
    }
  }

  /** The policy's verdict on the oldest entry, given the byte count it keeps. */
  predicate Evictable<V>(p: Policy, size: nat, oldest: Entry<V>, n: nat, now: int) {
    || (p.maxCount > 0 && n > p.maxCount)
    || (p.maxSize > 0 && size > p.maxSize)
    || (p.maxAge > 0 && now - oldest.birthday > p.maxAge)
  }

  predicate Refused<V>(p: Policy, es: seq<Entry<V>>, now: int) {
    es == [] || !Evictable(p, Total(es) % TWO64, es[0], |es|, now)
  }

  /** The entries left when the oldest go, one by one, until the policy refuses. */
  function Kept<V>(p: Policy, es: seq<Entry<V>>, now: int): seq<Entry<V>> {
    if Refused(p, es, now) then es else Kept(p, es[1..], now)
  }

  /** The positive limits hold: on the number of entries, on what the 64-bit counter makes of their
      sizes, and on the age of the oldest. */
  ghost predicate Within<V>(p: Policy, es: seq<Entry<V>>, now: int) {
    es != [] ==>
      && (p.maxCount > 0 ==> |es| <= p.maxCount)
      && (p.maxSize > 0 ==> Total(es) % TWO64 <= p.maxSize)
      && (p.maxAge > 0 ==> now - es[0].birthday <= p.maxAge)
  }

  lemma RefusedIsWithin<V>(p: Policy, es: seq<Entry<V>>, now: int)
    ensures Refused(p, es, now) <==> Within(p, es, now)
  {
  }

  /** Eviction takes as few as it can: what is kept is the longest tail within the limits. */
  lemma {:induction false} KeptIsLongestTail<V>(p: Policy, es: seq<Entry<V>>, now: int) returns (k: nat)
    ensures k <= |es| && Kept(p, es, now) == es[k..] && Within(p, es[k..], now)
    ensures forall j :: 0 <= j < k ==> !Within(p, es[j..], now)
  {
    hide Refused, Within;
    assert es[0..] == es;
    RefusedIsWithin(p, es, now);
    if Refused(p, es, now) {
      k := 0;
    } else {
      assert Refused<V>(p, [], now) by { NothingToEvict<V>(p, now); }
      var k' := KeptIsLongestTail(p, es[1..], now);
      k := k' + 1;
      assert forall j :: 0 < j <= |es| ==> es[1..][j - 1..] == es[j..];
      forall j | 0 <= j < k ensures !Within(p, es[j..], now) {
        if j > 0 {
          assert !Within(p, es[1..][j - 1..], now);
        }
      }
    }
  }

  lemma NothingToEvict<V>(p: Policy, now: int)
    ensures Refused<V>(p, [], now)
  {
  }

  /** Nothing is evicted exactly while every positive limit holds, that on size modulo 2^64. */
  lemma AllKeptWithinLimits<V>(p: Policy, es: seq<Entry<V>>, now: int)
    requires es != []
    ensures Kept(p, es, now) == es <==>
      && (p.maxCount > 0 ==> |es| <= p.maxCount)
      && (p.maxSize > 0 ==> Total(es) % TWO64 <= p.maxSize)
      && (p.maxAge > 0 ==> now - es[0].birthday <= p.maxAge)
  {
    hide Total, Kept;
    var k := KeptIsLongestTail(p, es, now);
    assert es[0..] == es;
  }

  /** After eviction the positive limits hold: the count, the age of the oldest entry, and the size
      exactly when the true sum does not exceed what the 64-bit counter can hold. */
  lemma KeptWithinLimits<V>(p: Policy, es: seq<Entry<V>>, now: int)
    requires p.maxSize < TWO64
    ensures var kept := Kept(p, es, now);
      && (p.maxCount > 0 ==> |kept| <= p.maxCount)
      && (p.maxAge > 0 && kept != [] ==> now - kept[0].birthday <= p.maxAge)
      && (p.maxSize > 0 ==> Total(kept) % TWO64 <= p.maxSize)
      && (p.maxSize > 0 ==> (Total(kept) <= p.maxSize <==> Total(kept) < TWO64))
      && Total(kept) <= Total(es)
  {
  }

  /** What `Get` leaves: a hit makes its entry the newest. */
  function Touched<V>(es: seq<Entry<V>>, key: string): seq<Entry<V>> {
    match Find(es, key)
    case None => es
    case Some(i) => es[..i] + es[i + 1..] + [es[i]]
  }

  /** What `Put` leaves: the new entry replaces any of its key, and the oldest go until the policy
      refuses. */
  function Left<V>(p: Policy, es: seq<Entry<V>>, e: Entry<V>): seq<Entry<V>> {
    Kept(p, Without(es, e.key) + [e], e.birthday)
  }

  datatype Use<+V> = Look(key: string) | Add(e: Entry<V>)

  function AfterUse<V>(p: Policy, es: seq<Entry<V>>, u: Use<V>): seq<Entry<V>> {
    match u
    case Look(key) => Touched(es, key)
    case Add(e) => Left(p, es, e)
  }

  /** What any uses leave in a cache that was empty. */
  function After<V>(p: Policy, uses: seq<Use<V>>): seq<Entry<V>> {
    if uses == [] then [] else AfterUse(p, After(p, uses[..|uses| - 1]), uses[|uses| - 1])
  }

  lemma {:induction false} UsesKeepDistinct<V>(p: Policy, uses: seq<Use<V>>)
    ensures DistinctKeys(After(p, uses))
  {
    hide Find, Touched, Left, DistinctKeys;
    if uses == [] {
      NoEntries<V>();
    } else {
      var n := |uses| - 1;
      UsesKeepDistinct(p, uses[..n]);
      match uses[n]
      case Look(key) => TouchedIsMoved(After(p, uses[..n]), key);
      case Add(e) => LeftIsDistinct(p, After(p, uses[..n]), e);
    }
  }

  /** An entry is in the cache as it was added, and its key was not added again since. */
  lemma {:induction false} EntriesWereAdded<V>(p: Policy, uses: seq<Use<V>>, e: Entry<V>) returns (i: nat)
    requires e in After(p, uses)
    ensures i < |uses| && uses[i] == Add(e)
    ensures forall j :: i < j < |uses| && uses[j].Add? ==> uses[j].e.key != e.key
  {
    hide Find, Touched, Left, DistinctKeys;
    var n := |uses| - 1;
    var before := After(p, uses[..n]);
    UsesKeepDistinct(p, uses[..n]);
    i := n;
    match uses[n]
    case Look(key) =>
      TouchedIsMoved(before, key);
      i := EntriesWereAdded(p, uses[..n], e);
    case Add(f) =>
      LeftIsDistinct(p, before, f);
      if e != f {
        i := EntriesWereAdded(p, uses[..n], e);
      }
  }

  /** No added size is above `most`. */
  ghost predicate SizesUpTo<V>(uses: seq<Use<V>>, most: nat) {
    forall u :: u in uses && u.Add? ==> u.e.size <= most
  }

  /** An addition that cannot carry the sum past 64 bits keeps the size limit. */
  lemma AdditionKeepsLimit<V>(p: Policy, es: seq<Entry<V>>, e: Entry<V>)
    requires p.maxSize > 0 && Total(es) <= p.maxSize && p.maxSize + e.size < TWO64
    ensures Total(Left(p, es, e)) <= p.maxSize
  {
    hide Find, Total, Without, Kept, SizeAt;
    AddedTotal(es, e);
    KeptWithinLimits(p, Without(es, e.key) + [e], e.birthday);
  }

  /** Uses of an empty cache keep the count limit, and the size limit if it leaves room for any added
      size in the 64-bit sum. */
  lemma {:induction false} LimitsOverUses<V>(p: Policy, uses: seq<Use<V>>, most: nat)
    requires SizesUpTo(uses, most)
    ensures p.maxCount > 0 ==> |After(p, uses)| <= p.maxCount
    ensures p.maxSize > 0 && p.maxSize + most < TWO64 ==> Total(After(p, uses)) <= p.maxSize
  {
    hide Find, Total, Touched, Left, DistinctKeys;
    if uses == [] {
      NoEntries<V>();
    } else {
      var n := |uses| - 1;
      LimitsOverUses(p, uses[..n], most);
      var before := After(p, uses[..n]);
      UsesKeepDistinct(p, uses[..n]);
      match uses[n]
      case Look(key) => TouchedIsMoved(before, key);
      case Add(e) =>
        assert uses[n] in uses;
        LeftWithinCount(p, before, e);
        if p.maxSize > 0 && p.maxSize + most < TWO64 {
          AdditionKeepsLimit(p, before, e);
        }
    }
  }

  lemma LeftWithinCount<V>(p: Policy, es: seq<Entry<V>>, e: Entry<V>)
    ensures p.maxCount > 0 ==> |Left(p, es, e)| <= p.maxCount
  {
    hide Find, Total, Without, Kept;
    var k := KeptIsLongestTail(p, Without(es, e.key) + [e], e.birthday);
  }

  lemma NoEntries<V>()
    ensures Total<V>([]) == 0 && DistinctKeys<V>([])
  {
  }

  lemma TouchedIsMoved<V>(es: seq<Entry<V>>, key: string)
    requires DistinctKeys(es)
    ensures DistinctKeys(Touched(es, key)) && Total(Touched(es, key)) == Total(es) && |Touched(es, key)| == |es|
    ensures forall e :: e in Touched(es, key) <==> e in es
  {
    hide Find, Total, DistinctKeys;
    if Find(es, key).Some? {
      MovedToEnd(es, key);
    }
  }

  lemma LeftIsDistinct<V>(p: Policy, es: seq<Entry<V>>, e: Entry<V>)
    requires DistinctKeys(es)
    ensures DistinctKeys(Left(p, es, e))
    ensures forall f :: f in Left(p, es, e) ==> f == e || (f in es && f.key != e.key)
  {
    hide Find, Total, Without, Kept, SizeAt;
    AddedAtEnd(es, e);
    var k := KeptIsLongestTail(p, Without(es, e.key) + [e], e.birthday);
  }

  /** Over all uses of an empty cache the entries stay within a positive size limit exactly when the
      limit leaves room for one more body in the 64-bit sum. Otherwise a body can carry the sum past
      2^64, and it looks small to the policy. */
  lemma SizeLimitHoldsExactly(maxSize: nat)
    requires 0 < maxSize < TWO64
    ensures (forall p: Policy, uses: seq<Use<int>> ::
               p.maxSize == maxSize && SizesUpTo(uses, MAX_INT) ==> Total(After(p, uses)) <= maxSize)
       <==> maxSize + MAX_INT < TWO64
  {
    hide Total, After;
    if maxSize + MAX_INT < TWO64 {
      forall p: Policy, uses: seq<Use<int>> | p.maxSize == maxSize && SizesUpTo(uses, MAX_INT)
        ensures Total(After(p, uses)) <= maxSize
      {
        LimitsOverUses(p, uses, MAX_INT);
      }
    } else {
      var uses := OverflowingUses(maxSize);
    }
  }

  lemma OverflowingUses(maxSize: nat) returns (uses: seq<Use<int>>)
    requires maxSize < TWO64 <= maxSize + MAX_INT
    ensures SizesUpTo(uses, MAX_INT) && Total(After(Policy(0, maxSize, 0), uses)) > maxSize
  {
    hide Total, Left, After;
    var p := Policy(0, maxSize, 0);
    var a, b, c := Entry("a", 0, MAX_INT, 0), Entry("b", 0, 2, 0), Entry("c", 0, MAX_INT, 0);
    uses := [Add(a)] + [Add(b)] + [Add(c)];
    NoEntries<int>();
    KeepsAll(p, [], a);
    OneMoreUse(p, [], Add(a));
    assert [] + [Add(a)] == [Add(a)];
    KeepsAll(p, [] + [a], b);
    OneMoreUse(p, [Add(a)], Add(b));
    KeepsAll(p, [] + [a] + [b], c);
    OneMoreUse(p, [Add(a)] + [Add(b)], Add(c));
  }

  lemma OneMoreUse(p: Policy, uses: seq<Use<int>>, u: Use<int>)
    requires u.Add?
    ensures After(p, uses + [u]) == Left(p, After(p, uses), u.e) && After<int>(p, []) == []
  {
    assert (uses + [u])[..|uses|] == uses;
  }

  lemma KeepsAll(p: Policy, es: seq<Entry<int>>, e: Entry<int>)
    requires p.maxCount == 0 && p.maxAge == 0 && (Total(es) + e.size) % TWO64 <= p.maxSize
    requires forall f :: f in es ==> f.key != e.key
    ensures Left(p, es, e) == es + [e] && Total(es + [e]) == Total(es) + e.size
  {
    TotalAppend(es, [e]);
  }

  class Cache<V> {
    const policy: Policy
    var size: nat
    /** Least recently used first. */
    var entries: seq<Entry<V>>
    /** The last value put under each key. */
    ghost var puts: map<string, V>

    constructor (policy: Policy)
      ensures Valid() && entries == [] && this.policy == policy && puts == map[]
    {
      this.policy := policy;
      size, entries, puts := 0, [], map[];
    }

    ghost predicate Valid()
      reads this
    {
      && DistinctKeys(entries)
      && size == Total(entries) % TWO64
      && forall e :: e in entries ==> e.key in puts && puts[e.key] == e.value
    }

    predicate Has(key: string)
      reads this
    {
      Find(entries, key).Some?
    }

    /** A hit is the last value put under the key, and makes its entry the newest. */
    method Get(key: string) returns (r: Option<V>)
      requires Valid()
      modifies this`entries
      ensures Valid()
      ensures entries == Touched(old(entries), key)
      ensures (forall e :: e in old(entries) ==> e.key != key) ==> r.None? && entries == old(entries)
      ensures forall i :: 0 <= i < |old(entries)| && old(entries)[i].key == key ==>
        && r == Some(old(entries)[i].value)
        && entries == old(entries)[..i] + old(entries)[i + 1..] + [old(entries)[i]]
      ensures r.Some? <==> old(Has(key))
      ensures r.Some? ==> key in puts && r.value == puts[key]
      ensures forall e :: e in entries <==> e in old(entries)
      ensures forall e :: e in entries && e.key == key ==> r == Some(e.value)
    {
      var i := Find(entries, key);
      if i.None? {
        return None;
      }
      var e := entries[i.value];
      MakeNewest(i.value);
      return Some(e.value);
    }

    /** Taking an entry out and adding it again at the new end changes neither the entries nor the
        byte count. */
    method MakeNewest(i: nat)
      requires Valid() && i < |entries| && Find(entries, entries[i].key) == Some(i)
      modifies this`entries
      ensures Valid()
      ensures entries == old(entries)[..i] + old(entries)[i + 1..] + [old(entries)[i]]
      ensures forall e :: e in entries <==> e in old(entries)
      ensures forall e :: e in entries && e.key == old(entries)[i].key ==> e == old(entries)[i]
    {
      hide Find, Total, DistinctKeys;
      MovedToEnd(entries, entries[i].key);
      entries := entries[..i] + entries[i + 1..] + [entries[i]];
    }

    method Added(oldSize: nat, newSize: nat)
      modifies this`size
      ensures size == (old(size) - oldSize + newSize) % TWO64
    {
      size := (size - oldSize) % TWO64;
      size := (size + newSize) % TWO64;
    }

    method Removed(oldSize: nat)
      modifies this`size
      ensures size == (old(size) - oldSize) % TWO64
    {
      size := (size - oldSize) % TWO64;
    }

    predicate Evict(oldest: Entry<V>, n: nat, now: int)
      reads this`size
    {
      Evictable(policy, size, oldest, n, now)
    }

    /** The new entry becomes the newest of `full`, replacing any entry of its key; then the oldest `k`
        go, each of them because a limit was still exceeded. A size limit that held goes on to hold if
        the addition cannot carry the sum past 64 bits. */
    method Put(key: string, value: V, valueSize: nat, now: int) returns (ghost full: seq<Entry<V>>, ghost k: nat)
      requires Valid() && valueSize < TWO64
      modifies this
      ensures Valid()
      ensures entries == Left(policy, old(entries), Entry(key, value, valueSize, now))
      ensures (forall e :: e in old(entries) ==> e.key != key) ==>
        full == old(entries) + [Entry(key, value, valueSize, now)]
      ensures forall i :: 0 <= i < |old(entries)| && old(entries)[i].key == key ==>
        full == old(entries)[..i] + old(entries)[i + 1..] + [Entry(key, value, valueSize, now)]
      ensures k <= |full| && entries == full[k..]
      ensures Within(policy, entries, now) && forall j :: 0 <= j < k ==> !Within(policy, full[j..], now)
      ensures policy.maxSize > 0 && old(Total(entries)) <= policy.maxSize && policy.maxSize + valueSize < TWO64 ==>
        Total(entries) <= policy.maxSize
      ensures puts == old(puts)[key := value]
      ensures forall e :: e in entries ==> e == Entry(key, value, valueSize, now) || (e in old(entries) && e.key != key)
    {
      hide Find, Total, Without, Kept, SizeAt, DistinctKeys, Within;
      var e := Entry(key, value, valueSize, now);
      if policy.maxSize > 0 && Total(entries) <= policy.maxSize && policy.maxSize + valueSize < TWO64 {
        AdditionKeepsLimit(policy, entries, e);
      }
      full := ListAdded(entries, e);
      k := KeptIsLongestTail(policy, full, now);
      Replace(e);
      EvictOldest(now);
    }

    /** The list's part of an addition before any eviction. */
    method Replace(e: Entry<V>)
      requires Valid() && e.size < TWO64
      modifies this
      ensures Valid()
      ensures entries == Without(old(entries), e.key) + [e] && puts == old(puts)[e.key := e.value]
      ensures forall f :: f in entries ==> f == e || (f in old(entries) && f.key != e.key)
    {
      hide Find, Total, Without, SizeAt;
      AddedAtEnd(entries, e);
      var replaced := SizeAt(entries, e.key);
      Wrap(Total(entries), replaced, e.size);
      entries := Without(entries, e.key) + [e];
      puts := puts[e.key := e.value];
      Added(replaced, e.size);
    }

    /** The rest of it: evict from the old end while the policy says so. */
    method EvictOldest(now: int)
      requires Valid()
      modifies this`entries, this`size
      ensures Valid()
      ensures entries == Kept(policy, old(entries), now)
      ensures forall e :: e in entries ==> e in old(entries)
    {
      while entries != [] && Evict(entries[0], |entries|, now)
        invariant Valid()
        invariant Kept(policy, entries, now) == Kept(policy, old(entries), now)
        invariant forall e :: e in entries ==> e in old(entries)
      {
        var oldest := entries[0];
        Wrap(Total(entries), oldest.size, 0);
        entries := entries[1..];
        Removed(oldest.size);
      }
    }
  }

  /** Wrap-around arithmetic loses nothing modulo 2^64. */
  lemma Wrap(total: nat, gone: nat, come: nat)
    requires gone <= total
    ensures (total % TWO64 - gone + come) % TWO64 == (total - gone + come) % TWO64
  {
  }

  lemma MovedToEnd<V>(es: seq<Entry<V>>, key: string)
    requires DistinctKeys(es) && Find(es, key).Some?
    ensures var i := Find(es, key).value;
      var moved := es[..i] + es[i + 1..] + [es[i]];
      && DistinctKeys(moved) && Total(moved) == Total(es)
      && (forall e :: e in moved <==> e in es)
      && (forall e :: e in moved && e.key == key ==> e == es[i])
  {
    hide Find, Total;
    var i := Find(es, key).value;
    assert Without(es, key) == es[..i] + es[i + 1..];
    AddedTotal(es, es[i]);
    WithoutIsRest(es, key);
    forall e | e in es && e.key == key ensures e == es[i] {
      var j :| 0 <= j < |es| && es[j] == e;
    }
  }

  lemma AddedAtEnd<V>(es: seq<Entry<V>>, e: Entry<V>)
    requires DistinctKeys(es)
    ensures var added := Without(es, e.key) + [e];
      && DistinctKeys(added)
      && Total(added) == Total(es) - SizeAt(es, e.key) + e.size
      && SizeAt(es, e.key) <= Total(es)
      && (forall f :: f in added ==> f == e || (f in es && f.key != e.key))
  {
    hide Find, Total, Without, SizeAt;
    AddedTotal(es, e);
    WithoutIsRest(es, e.key);
    var w := Without(es, e.key);
    forall i | 0 <= i < |w| ensures w[i] in es && w[i].key != e.key { assert w[i] in w; }
  }

  lemma AddedTotal<V>(es: seq<Entry<V>>, e: Entry<V>)
    ensures Total(Without(es, e.key) + [e]) == Total(es) - SizeAt(es, e.key) + e.size
    ensures SizeAt(es, e.key) <= Total(es)
  {
    TotalWithout(es, e.key);
    TotalAppend(Without(es, e.key), [e]);
    assert [e][1..] == [];
  }

  lemma WithoutAt<V>(es: seq<Entry<V>>, key: string)
    requires DistinctKeys(es)
    ensures (forall e :: e in es ==> e.key != key) ==> Without(es, key) == es
    ensures forall i :: 0 <= i < |es| && es[i].key == key ==> Without(es, key) == es[..i] + es[i + 1..]
  {
    hide Find;
    if Find(es, key).Some? {
      assert es[Find(es, key).value] in es;
    }
    forall i | 0 <= i < |es| && es[i].key == key ensures Without(es, key) == es[..i] + es[i + 1..] {
      assert es[i] in es;
    }
  }

  /** The list that an addition leaves to eviction. */
  lemma ListAdded<V>(es: seq<Entry<V>>, e: Entry<V>) returns (full: seq<Entry<V>>)
    requires DistinctKeys(es)
    ensures full == Without(es, e.key) + [e]
    ensures (forall f :: f in es ==> f.key != e.key) ==> full == es + [e]
    ensures forall i :: 0 <= i < |es| && es[i].key == e.key ==> full == es[..i] + es[i + 1..] + [e]
  {
    hide Find, Without;
    WithoutAt(es, e.key);
    full := Without(es, e.key) + [e];
  }

  lemma WithoutIsRest<V>(es: seq<Entry<V>>, key: string)
    requires DistinctKeys(es)
    ensures DistinctKeys(Without(es, key))
    ensures forall e :: e in Without(es, key) ==> e in es && e.key != key
    ensures forall e :: e in es && e.key != key ==> e in Without(es, key)
  {
  }
}
