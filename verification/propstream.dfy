/** The byte streams of src/fileloader.h: little-endian numbers and length-prefixed strings. */
module PropStreams {
  import opened Bytes

  const MAX_STRING := 0xFFFF

  function Pow256(n: nat): nat {
    if n == 0 then 1 else 256 * Pow256(n - 1)
  }

  /** The n low bytes of v, least significant first. */
  function Le(n: nat, v: nat): seq<byte> {
    if n == 0 then [] else [(v % 256) as byte] + Le(n - 1, v / 256)
  }

  function UnLe(bs: seq<byte>): nat {
    if bs == [] then 0 else bs[0] as nat + 256 * UnLe(bs[1..])
  }

  lemma {:induction false} LeRoundTrip(n: nat, v: nat)
    ensures |Le(n, v)| == n
    ensures v < Pow256(n) ==> UnLe(Le(n, v)) == v
  {
    if n > 0 {
      LeRoundTrip(n - 1, v / 256);
      assert Le(n, v)[1..] == Le(n - 1, v / 256);
    }
  }

  /** The bytes of the numbers that are written, least significant first. */
  lemma LeBytes(v: nat)
    ensures Le(1, v) == [(v % 256) as byte]
    ensures Le(2, v) == [(v % 256) as byte, (v / 256 % 256) as byte]
    ensures Le(4, v) == [(v % 256) as byte, (v / 256 % 256) as byte, (v / 0x1_0000 % 256) as byte, (v / 0x100_0000 % 256) as byte]
  {
    LeUnfold(0, v);
    LeUnfold(1, v);
    LeUnfold(0, v / 256);
    LeUnfold(3, v);
    LeUnfold(2, v / 256);
    LeUnfold(1, v / 256 / 256);
    LeUnfold(0, v / 256 / 256 / 256);
    assert v / 256 / 256 == v / 0x1_0000 && v / 256 / 256 / 256 == v / 0x100_0000;
  }

  lemma LeUnfold(n: nat, v: nat)
    ensures Le(n + 1, v) == [(v % 256) as byte] + Le(n, v / 256) && Le(0, v) == []
  {
  }

  lemma {:induction false} UnLeBound(bs: seq<byte>)
    ensures UnLe(bs) < Pow256(|bs|)
  {
    if bs != [] {
      UnLeBound(bs[1..]);
    }
  }

  /** `writeString` writes the empty string in place of one too long for its length field. */
  function StringBytes(s: seq<byte>): seq<byte> {
    if |s| > MAX_STRING then Le(2, 0) else Le(2, |s|) + s
  }

  function Kept(s: seq<byte>): seq<byte> {
    if |s| > MAX_STRING then [] else s
  }

  function TakeNumber(n: nat, data: seq<byte>): (r: Option<(nat, seq<byte>)>)
    ensures r.Some? ==> |r.value.1| == |data| - n
  {
    if |data| < n then None else Some((UnLe(data[..n]), data[n..]))
  }

  function TakeString(data: seq<byte>): (r: Option<(seq<byte>, seq<byte>)>)
    ensures r.Some? ==> |r.value.1| <= |data|
  {
    match TakeNumber(2, data)
    case None => None
    case Some((size, rest)) => if |rest| < size then None else Some((rest[..size], rest[size..]))
  }

  lemma NumberRoundTrip(n: nat, v: nat, rest: seq<byte>)
    requires v < Pow256(n)
    ensures TakeNumber(n, Le(n, v) + rest) == Some((v, rest))
  {
    LeRoundTrip(n, v);
    assert (Le(n, v) + rest)[..n] == Le(n, v) && (Le(n, v) + rest)[n..] == rest;
  }

  lemma Pow2()
    ensures Pow256(1) == 0x100 && Pow256(2) == 0x1_0000 && Pow256(4) == 0x1_0000_0000
  {
    assert Pow256(3) == 256 * Pow256(2) && Pow256(2) == 256 * Pow256(1) && Pow256(1) == 256 * Pow256(0);
  }

  lemma StringRoundTrip(s: seq<byte>, rest: seq<byte>)
    ensures TakeString(StringBytes(s) + rest) == Some((Kept(s), rest))
  {
    Pow2();
    var k := Kept(s);
    NumberRoundTrip(2, |k|, k + rest);
    assert StringBytes(s) + rest == Le(2, |k|) + (k + rest);
    assert (k + rest)[..|k|] == k && (k + rest)[|k|..] == rest;
  }

  class PropStream {
    const data: seq<byte>
    var p: nat

    ghost predicate Valid()
      reads this
    {
      p <= |data|
    }

    function Rest(): seq<byte>
      requires Valid()
      reads this
    {
      data[p..]
    }

    constructor (data: seq<byte>)
      ensures Valid() && Rest() == data
    {
      this.data := data;
      p := 0;
    }

    method Read(n: nat) returns (ok: bool, v: nat)
      requires Valid()
      modifies this
      ensures Valid()
      ensures match TakeNumber(n, old(Rest()))
              case None => !ok && Rest() == old(Rest())
              case Some((w, rest)) => ok && v == w && Rest() == rest
    {
      if |data| - p < n {
        return false, 0;
      }
      ok, v := true, UnLe(data[p..p + n]);
      assert data[p..][..n] == data[p..p + n] && data[p..][n..] == data[p + n..];
      p := p + n;
    }

    method ReadString() returns (ok: bool, s: seq<byte>)
      requires Valid()
      modifies this
      ensures Valid()
      ensures match TakeString(old(Rest()))
              case None => !ok
              case Some((t, rest)) => ok && s == t && Rest() == rest
    {
      var size;
      s := [];
      ok, size := Read(2);
      if !ok {
        return;
      }
      if |data| - p < size {
        return false, [];
      }
      s := data[p..p + size];
      assert data[p..][..size] == data[p..p + size] && data[p..][size..] == data[p + size..];
      p := p + size;
    }

    method Skip(n: nat) returns (ok: bool)
      requires Valid()
      modifies this
      ensures Valid() && ok == (|old(Rest())| >= n)
      ensures Rest() == if ok then old(Rest())[n..] else old(Rest())
    {
      if |data| - p < n {
        return false;
      }
      assert data[p..][n..] == data[p + n..];
      p := p + n;
      ok := true;
    }
  }

  class PropWriteStream {
    var buffer: seq<byte>

    constructor ()
      ensures buffer == []
    {
      buffer := [];
    }

    method Write(n: nat, v: nat)
      modifies this
      ensures buffer == old(buffer) + Le(n, v)
    {
      buffer := buffer + Le(n, v);
    }

    method WriteString(s: seq<byte>)
      modifies this
      ensures buffer == old(buffer) + StringBytes(s)
    {
      hide Le;
      if |s| > MAX_STRING {
        Write(2, 0);
        return;
      }
      Write(2, |s|);
      Assoc(old(buffer), Le(2, |s|), s);
      buffer := buffer + s;
    }
  }
}
