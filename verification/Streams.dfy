/** The buffered reader and writer of a connection, and what a decoder can answer. */
module Streams {
  import opened ByteText

  datatype WireError =
    | ReadFault            // a read failed for a reason other than the end of the stream
    | PrematureEOF         // the stream ended before the end of a line
    | UnfinishedType
    | UnfinishedID
    | UnfinishedLevel
    | InvalidLevel
    | InvalidType
    | InvalidLength
    | TruncatedData        // the stream ended before the announced number of data bytes

  /** A value, an error, or a Go run-time panic (a slice or allocation out of range). */
  datatype Outcome<+T> = Done(value: T) | Failed(error: WireError) | Panic

  /** What decoding a byte stream gives: the outcome, and the bytes left unread. */
  datatype Decoded<+T> = Decoded(outcome: Outcome<T>, rest: Bytes)

  /** The greatest number of bytes that Go allocates on a 64-bit machine; `make` panics past it. */
  const MAX_ALLOC: nat := 0x1_0000_0000_0000

  /** The length of a Go slice can be allocated. */
  predicate Slice(b: Bytes) { |b| <= MAX_ALLOC }

  datatype ReadStatus = Fine | EndOfStream | Fault

  /** A `bufio.Reader` on a connection. `unread` is everything that will still arrive. How it is
      cut into reads is left open: a read may be short, may return nothing (at most `stalls` more
      times), and may fail (at most `faults` more times) without the failure being permanent. */
  class Reader {
    var unread: Bytes
    var stalls: nat
    var faults: nat

    constructor (input: Bytes, stalls: nat, faults: nat)
      ensures unread == input && this.stalls == stalls && this.faults == faults
    {
      this.unread, this.stalls, this.faults := input, stalls, faults;
    }

    /** Reads into `buf[m..]`. */
    method Read(buf: array<Byte>, m: nat) returns (o: nat, status: ReadStatus)
      requires m <= buf.Length
      modifies this, buf
      ensures o <= |old(unread)| && m + o <= buf.Length
      ensures unread == old(unread)[o..]
      ensures buf[..m] == old(buf[..m]) && buf[m..m + o] == old(unread)[..o]
      ensures status.EndOfStream? ==> unread == []
      ensures if status.Fault? then faults < old(faults) else faults == old(faults)
      ensures stalls <= old(stalls)
      ensures status.Fine? && o == 0 && m < buf.Length ==> stalls < old(stalls)
    {
      var room := if |unread| < buf.Length - m then |unread| else buf.Length - m;
      var fail: bool, stall: bool := *, *;
      if fail && faults > 0 {
        faults, status := faults - 1, Fault;
        o :| 0 <= o <= room;
      } else if stall && stalls > 0 {
        stalls, status, o := stalls - 1, Fine, 0;
      } else if room == 0 {
        o, status := 0, if unread == [] then EndOfStream else Fine;
      } else {
        o :| 1 <= o <= room;
        status := Fine;
      }
      forall i | 0 <= i < o {
        buf[m + i] := unread[i];
      }
      assert forall i :: 0 <= i < o ==> buf[m..m + o][i] == unread[i];
      unread := unread[o..];
    }

    /** `ReadBytes('\n')`: the bytes up to and including the next newline. */
    method ReadLine() returns (line: Bytes, status: ReadStatus)
      modifies this
      ensures old(unread) == line + unread
      ensures status.Fine? ==> line != [] && line[|line| - 1] == NL && NL !in line[..|line| - 1]
      ensures !status.Fine? ==> NL !in line
      ensures status.EndOfStream? ==> unread == []
      ensures if status.Fault? then faults < old(faults) else faults == old(faults)
      ensures stalls == old(stalls)
    {
      var p := IndexByte(unread, NL);
      var fail: bool := *;
      if fail && faults > 0 {
        var o: nat :| o <= if p < 0 then |unread| else p;
        line, status, faults := unread[..o], Fault, faults - 1;
      } else if p < 0 {
        line, status := unread, EndOfStream;
      } else {
        line, status := unread[..p + 1], Fine;
        assert line[..p] == unread[..p];
      }
      assert unread == line + unread[|line|..];
      unread := unread[|line|..];
    }
  }

  /** A `bufio.Writer` on a connection: `sent` has reached the peer, `pending` is still buffered.
      A write may push out any part of the buffer; only `Flush` promises to push out all of it.
      Unless the connection is `reliable` any push may fail after a part of it, and from then on the
      writer is `broken` and refuses everything. */
  class Writer {
    const reliable: bool
    var sent: Bytes
    var pending: Bytes
    var broken: bool

    constructor (reliable: bool)
      ensures this.reliable == reliable && !broken && sent == [] && Out() == []
    {
      this.reliable := reliable;
      sent, pending, broken := [], [], false;
    }

    /** Everything written so far, in order. */
    ghost function Out(): Bytes
      reads this
    {
      sent + pending
    }

    /** `x` was written after `o`; or the writer broke, and no more than that has been sent. */
    ghost predicate Wrote(o: Bytes, x: Bytes, ok: bool)
      reads this
    {
      if ok then !broken && Out() == o + x else broken && sent <= o + x
    }

    /** Nothing more is sent on a broken connection. */
    twostate predicate StaysBroken()
      reads this
    {
      old(broken) ==> broken && sent == old(sent)
    }

    method Write(b: Bytes) returns (ok: bool)
      modifies this
      ensures Wrote(old(Out()), b, ok)
      ensures old(sent) <= sent && StaysBroken()
      ensures reliable && !old(broken) ==> ok
    {
      if broken {
        return false;
      }
      var fail: bool := *;
      pending := pending + b;
      var spill: nat :| spill <= |pending|;
      assert pending == pending[..spill] + pending[spill..];
      sent, pending := sent + pending[..spill], pending[spill..];
      broken := fail && !reliable;
      ok := !broken;
    }

    /** One more write, unless an earlier one has failed and the caller has given up. */
    method WriteNext(before: bool, b: Bytes, ghost o: Bytes, ghost x: Bytes) returns (ok: bool)
      requires Wrote(o, x, before)
      modifies this
      ensures Wrote(o, x + b, ok)
      ensures old(sent) <= sent && StaysBroken()
      ensures (ok ==> before) && (reliable && before ==> ok)
    {
      if !before {
        assert x <= x + b && o + x <= o + (x + b);
        return false;
      }
      ok := Write(b);
      assert o + x + b == o + (x + b);
    }

    method Flush() returns (ok: bool)
      modifies this
      ensures if ok then !broken && sent == Out() == old(Out()) && pending == [] else broken && sent <= old(Out())
      ensures old(sent) <= sent && StaysBroken()
      ensures reliable && !old(broken) ==> ok
    {
      if broken {
        return false;
      }
      ok := Write([]);
      if ok {
        sent, pending := sent + pending, [];
      }
    }
  }
}
