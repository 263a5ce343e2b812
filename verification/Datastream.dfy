/** Streams of bytes: a buffer of fixed size to write into and a cursor to read with. */
module Datastream {
  import opened Options
  import opened ByteKeys
  import opened SharedBytes

  function Reverse(b: Bytes): (r: Bytes)
    ensures |r| == |b| && forall i :: 0 <= i < |b| ==> r[i] == b[|b| - 1 - i]
  {
    seq(|b|, i requires 0 <= i < |b| => b[|b| - 1 - i])
  }

  /** The bytes of a number of `width` bytes in memory, least significant first. */
  function InMemory(n: nat, width: nat): Bytes {
    Reverse(ToBigEndian(n, width))
  }

  function Take(b: Bytes, n: nat): Option<(Bytes, Bytes)> {
    if n <= |b| then Some((b[..n], b[n..])) else None
  }

  lemma TakeBack(a: Bytes, rest: Bytes)
    ensures Take(a + rest, |a|) == Some((a, rest))
  {
    assert (a + rest)[..|a|] == a && (a + rest)[|a|..] == rest;
  }

  lemma HeadAndBody(c: Byte, n: Bytes, rest: Bytes)
    ensures var b := [c] + n + rest; b[0] == c && Take(b[1..], |n|) == Some((n, rest))
  {
    assert ([c] + n + rest)[1..] == n + rest;
    TakeBack(n, rest);
  }

  /** A buffer of fixed size; what does not fit is dropped. */
  class OutStream {
    const capacity: nat
    var out: Bytes

    constructor (capacity: nat)
      ensures this.capacity == capacity && out == []
    {
      this.capacity, out := capacity, [];
    }

    method Put(c: Byte)
      modifies this
      ensures out == if |old(out)| + 1 <= capacity then old(out) + [c] else old(out)
    {
      if |out| + 1 <= capacity {
        out := out + [c];
      }
    }

    method Write(b: Bytes)
      modifies this
      ensures out == if |old(out)| + |b| <= capacity then old(out) + b else old(out)
    {
      if |out| + |b| <= capacity {
        out := out + b;
      }
    }

    method ReverseWrite(b: Bytes)
      modifies this
      ensures out == if |old(out)| + |b| <= capacity then old(out) + Reverse(b) else old(out)
    {
      Write(Reverse(b));
    }
  }

  class InStream {
    const buf: Bytes
    var pos: nat

    ghost predicate Valid()
      reads this
    {
      pos <= |buf|
    }

    /** What is still to be read. */
    ghost function Rest(): Bytes
      requires Valid()
      reads this
    {
      buf[pos..]
    }

    constructor (buf: Bytes)
      ensures Valid() && Rest() == buf && this.buf == buf
    {
      this.buf, pos := buf, 0;
    }

    method Get() returns (c: Option<Byte>)
      requires Valid()
      modifies this
      ensures Valid() && old(pos) <= pos
      ensures if old(Rest()) == [] then c == None && pos == old(pos)
              else c == Some(old(Rest())[0]) && Rest() == old(Rest())[1..]
    {
      if pos == |buf| {
        return None;
      }
      c := Some(buf[pos]);
      pos := pos + 1;
    }

    method Read(n: nat) returns (b: Option<Bytes>)
      requires Valid()
      modifies this
      ensures Valid() && old(pos) <= pos
      ensures match Take(old(Rest()), n)
              case None => b == None && pos == old(pos)
              case Some((s, rest)) => b == Some(s) && Rest() == rest
    {
      if |buf| - pos < n {
        return None;
      }
      assert buf[pos..][..n] == buf[pos..pos + n] && buf[pos..][n..] == buf[pos + n..];
      b := Some(buf[pos..pos + n]);
      pos := pos + n;
    }

    /** The number whose most significant byte comes first. */
    method ReverseRead(n: nat) returns (v: Option<nat>)
      requires Valid()
      modifies this
      ensures Valid() && old(pos) <= pos
      ensures match Take(old(Rest()), n)
              case None => v == None && pos == old(pos)
              case Some((s, rest)) => v == Some(BigEndian(s)) && Rest() == rest
    {
      var b := Read(n);
      v := if b.None? then None else Some(BigEndian(b.value));
    }
  }

  /** The outcome of reading agrees with a decoding of what was to be read. */
  ghost predicate Agrees<T>(r: Option<T>, rest: Bytes, d: Option<(T, Bytes)>) {
    match d
    case None => r.None?
    case Some((v, rest')) => r == Some(v) && rest == rest'
  }
}
