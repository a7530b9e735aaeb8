/** Bytes and decimal numbers as the wire protocol uses them.
    `IndexByte`, `Cut`, `Itoa` and `Atoi` stand for the Go library functions of those names. */
module ByteText {
  newtype Byte = x: int | 0 <= x < 256
  type Bytes = seq<Byte>

  datatype Option<+T> = None | Some(value: T)

  const SP: Byte := 32
  const NL: Byte := 10
  const PLUS: Byte := 43
  const MINUS: Byte := 45

  /** The least and greatest value of a Go `int`. */
  const MIN_INT: int := -0x8000_0000_0000_0000
  const MAX_INT: int := 0x7fff_ffff_ffff_ffff

  /** The index of the first `c` in `s`, or -1. */
  function IndexByte(s: Bytes, c: Byte): (p: int)
    ensures -1 <= p < |s|
    ensures p < 0 <==> c !in s
    ensures p >= 0 ==> s[p] == c && c !in s[..p]
  {
    if s == [] then -1
    else if s[0] == c then 0
    else
      var q := IndexByte(s[1..], c);
      assert s == [s[0]] + s[1..];
      assert q >= 0 ==> s[..q + 1] == [s[0]] + s[1..][..q];
      if q < 0 then -1 else q + 1
  }

  /** `a`, one separator byte, then `b`. */
  function Join(a: Bytes, c: Byte, b: Bytes): (s: Bytes)
    ensures |s| == |a| + 1 + |b|
  {
    a + [c] + b
  }

  /** Looking for the separator splits a join where it was made. */
  lemma JoinSplits(a: Bytes, c: Byte, b: Bytes)
    requires c !in a
    ensures IndexByte(Join(a, c, b), c) == |a|
    ensures Join(a, c, b)[..|a|] == a
    ensures Join(a, c, b)[|a| + 1..] == b
  {
  }

  lemma JoinWithout(a: Bytes, c: Byte, b: Bytes, n: Byte)
    requires n !in a && n != c && n !in b
    ensures n !in Join(a, c, b)
  {
  }

  lemma JoinAppend(a: Bytes, c: Byte, b: Bytes, d: Bytes)
    ensures Join(a, c, b) + d == Join(a, c, b + d)
  {
  }

  /** Everything before the first newline; all of `s` when there is none. */
  function UpToNewline(s: Bytes): (r: Bytes)
    ensures NL !in r && r <= s
    ensures r == s <==> NL !in s
    ensures NL in s ==> |r| < |s| && s[|r|] == NL
  {
    var p := IndexByte(s, NL);
    if p < 0 then s else s[..p]
  }

  datatype CutResult = CutResult(before: Bytes, after: Bytes, found: bool)

  function Cut(s: Bytes, c: Byte): (r: CutResult)
    ensures c !in r.before
    ensures r.found <==> c in s
    ensures s == if r.found then r.before + [c] + r.after else r.before
    ensures !r.found ==> r.after == []
  {
    var p := IndexByte(s, c);
    if p < 0 then CutResult(s, [], false) else CutResult(s[..p], s[p + 1..], true)
  }

  lemma CutAt(a: Bytes, c: Byte, b: Bytes)
    requires c !in a
    ensures Cut(Join(a, c, b), c) == CutResult(a, b, true)
  {
    JoinSplits(a, c, b);
  }

  // ---------- decimal numbers ----------

  predicate IsDigit(b: Byte) { 48 <= b <= 57 }

  predicate AllDigits(s: Bytes) { forall i :: 0 <= i < |s| ==> IsDigit(s[i]) }

  function Digits(n: nat): (ds: Bytes)
    ensures ds != [] && AllDigits(ds)
    ensures |ds| > 1 ==> ds[0] != 48
  {
    var d := (48 + n % 10) as Byte;
    if n < 10 then [d] else Digits(n / 10) + [d]
  }

  function Value(ds: Bytes): nat
    requires AllDigits(ds)
  {
    if ds == [] then 0
    else 10 * Value(ds[..|ds| - 1]) + (ds[|ds| - 1] as int - 48)
  }

  function Itoa(n: int): Bytes {
    if n < 0 then [MINUS] + Digits(-n) else Digits(n)
  }

  /** `strconv.Atoi`: an optional sign, at least one digit, and a value that fits an `int`. */
  function Atoi(s: Bytes): Option<int> {
    var signed := s != [] && (s[0] == PLUS || s[0] == MINUS);
    var ds := if signed then s[1..] else s;
    if ds == [] || !AllDigits(ds) then None
    else
      var v: int := if s[0] == MINUS then 0 - Value(ds) else Value(ds);
      if MIN_INT <= v <= MAX_INT then Some(v) else None
  }

  /** Decimal notation: each digit counts ten times the next. */
  lemma ValueIsDecimal(ds: Bytes, d: Byte)
    requires AllDigits(ds) && IsDigit(d)
    ensures Value([]) == 0 && Value(ds + [d]) == 10 * Value(ds) + (d as int - 48)
  {
    assert (ds + [d])[..|ds|] == ds;
  }

  /** A number is digits, with a sign or without. */
  lemma AtoiTakes(s: Bytes, v: int)
    ensures Atoi(s) == Some(v) <==>
      MIN_INT <= v <= MAX_INT && exists ds ::
        ds != [] && AllDigits(ds)
        && (((s == ds || s == [PLUS] + ds) && v == Value(ds)) || (s == [MINUS] + ds && v == 0 - Value(ds)))
  {
    hide Value;
    if Atoi(s) == Some(v) {
      var ds := if s[0] == PLUS || s[0] == MINUS then s[1..] else s;
      assert s == [s[0]] + s[1..];
      assert ds != [] && AllDigits(ds);
    }
    forall ds |
      ds != [] && AllDigits(ds) && MIN_INT <= v <= MAX_INT
      && (((s == ds || s == [PLUS] + ds) && v == Value(ds)) || (s == [MINUS] + ds && v == 0 - Value(ds)))
      ensures Atoi(s) == Some(v)
    {
      assert IsDigit(ds[0]);
      assert ([PLUS] + ds)[1..] == ds && ([MINUS] + ds)[1..] == ds;
    }
  }

  lemma {:induction false} ValueOfDigits(n: nat)
    ensures Value(Digits(n)) == n
  {
    if n >= 10 {
      ValueOfDigits(n / 10);
      assert Digits(n)[..|Digits(n)| - 1] == Digits(n / 10);
    }
  }

  /** Reading back a written number gives that number, for every `int` and no other integer. */
  lemma AtoiOfItoa(n: int)
    ensures Atoi(Itoa(n)) == if MIN_INT <= n <= MAX_INT then Some(n) else None
    ensures SP !in Itoa(n) && NL !in Itoa(n)
  {
    hide Digits, Value;
    var m: nat := if n < 0 then -n else n;
    var ds := Digits(m);
    ValueOfDigits(m);
    DigitsArePlain(ds);
    if n < 0 {
      assert ([MINUS] + ds)[1..] == ds;
    } else {
      assert IsDigit(ds[0]);
    }
  }

  lemma DigitsArePlain(ds: Bytes)
    requires AllDigits(ds)
    ensures SP !in ds && NL !in ds
  {
  }
}
