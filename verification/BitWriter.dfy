/** The growable output buffer and the bit packer of the zlib compressor. */
module BitWriters {
  import opened Basics
  import opened Bits

  /** The stretchy byte buffer; a null buffer is one of capacity 0. */
  class ByteBuffer {
    var data: array<byte>
    var count: nat

    ghost predicate Valid()
      reads this
    {
      if data.Length == 0 then count == 0 else count < data.Length
    }

    ghost function Bytes(): (s: seq<byte>)
      requires Valid()
      reads this, data
      ensures |s| == count
    {
      data[..count]
    }

    constructor ()
      ensures Valid() && Bytes() == [] && fresh(data)
    {
      data := new byte[0];
      count := 0;
    }

    /** Appends v, growing the buffer unless a slot stays free after the push. */
    method Push(v: byte)
      requires Valid()
      modifies this, data
      ensures Valid() && Bytes() == old(Bytes()) + [v]
      ensures if old(count) + 1 < old(data.Length) then data == old(data) else fresh(data)
    {
      if data.Length == 0 || count + 1 >= data.Length {
        Grow();
      }
      data[count] := v;
      count := count + 1;
    }

    method Grow()
      requires Valid()
      modifies this
      ensures Valid() && fresh(data) && Bytes() == old(Bytes()) && count == old(count)
      ensures count + 1 < data.Length == if old(data.Length) == 0 then 2 else 2 * old(data.Length) + 1
    {
      var m := if data.Length == 0 then 2 else 2 * data.Length + 1;
      var p := new byte[m](_ => 0);
      forall k | 0 <= k < count {
        p[k] := data[k];
      }
      data := p;
      assert data[..count] == old(data[..count]);
    }
  }

  /** out together with the bits not yet making up a byte. */
  class BitWriter {
    const out: ByteBuffer
    ghost const header: seq<byte>
    var bitbuf: nat
    var bitcount: nat

    ghost predicate Packing()
      reads this, out, out.data
    {
      out.Valid() && bitcount < 32 && bitbuf < Pow2(bitcount) &&
      |header| <= out.count && out.Bytes()[..|header|] == header
    }

    ghost predicate Valid()
      reads this, out, out.data
    {
      Packing() && bitcount < 8
    }

    /** Everything written after the header, in order. */
    ghost function Written(): bits
      requires Packing()
      reads this, out, out.data
    {
      ByteBits(out.Bytes()[|header|..]) + Lsb(bitbuf, bitcount)
    }

    constructor (o: ByteBuffer)
      requires o.Valid()
      ensures Valid() && out == o && header == o.Bytes() && Written() == []
    {
      out := o;
      header := o.Bytes();
      bitbuf := 0;
      bitcount := 0;
    }

    /** Moves whole bytes from the bit buffer to out. */
    method Flush()
      requires Packing()
      modifies this, out, out.data
      ensures Valid() && Written() == old(Written()) && bitcount == old(bitcount) % 8
      ensures out.data == old(out.data) || fresh(out.data)
    {
      hide ByteBits, Lsb, Pow2;
      while bitcount >= 8
        invariant Packing() && Written() == old(Written()) && bitcount % 8 == old(bitcount) % 8
        invariant out.data == old(out.data) || fresh(out.data)
        decreases bitcount
      {
        FlushByte();
      }
    }

    method FlushByte()
      requires Packing() && bitcount >= 8
      modifies this, out, out.data
      ensures Packing() && Written() == old(Written()) && bitcount == old(bitcount) - 8
      ensures out.data == old(out.data) || fresh(out.data)
    {
      hide Lsb, ByteBits, Pow2;
      LsbByte(bitbuf, bitcount);
      ghost var before, bs := out.Bytes(), out.Bytes()[|header|..];
      out.Push(bitbuf % 256);
      AppendAfter(before, bitbuf % 256, |header|);
      ByteBitsPush(bs, bitbuf % 256);
      SeqAssoc(ByteBits(bs), Lsb(bitbuf % 256, 8), Lsb(bitbuf / 256, bitcount - 8));
      bitbuf := bitbuf / 256;
      bitcount := bitcount - 8;
    }

    /** Appends the low k bits of code. */
    method Add(code: nat, k: nat)
      requires Valid() && k <= 24 && code < Pow2(k)
      modifies this, out, out.data
      ensures Valid() && Written() == old(Written()) + Lsb(code, k) && bitcount == (old(bitcount) + k) % 8
      ensures out.data == old(out.data) || fresh(out.data)
    {
      hide ByteBits, Lsb, Pow2, Or, Shl32;
      AddFits(bitbuf, bitcount, code, k);
      bitbuf := Or(bitbuf, Shl32(code, bitcount));
      bitcount := bitcount + k;
      Flush();
    }
  }

  lemma AppendAfter<T>(s: seq<T>, x: T, k: nat)
    requires k <= |s|
    ensures (s + [x])[k..] == s[k..] + [x] && (s + [x])[..k] == s[..k]
  {
  }

  lemma LsbByte(x: nat, n: nat)
    requires n >= 8 && x < Pow2(n)
    ensures Lsb(x, n) == Lsb(x % 256, 8) + Lsb(x / 256, n - 8)
    ensures x / 256 < Pow2(n - 8)
  {
    assert Pow2(8) == 256;
    LsbConcat(x % 256, 8, x / 256, n - 8);
    Pow2Add(8, n - 8);
  }

  lemma ShiftFits(bitbuf: nat, bitcount: nat, code: nat, k: nat)
    requires bitbuf < Pow2(bitcount) && code < Pow2(k) && bitcount + k <= 32
    ensures bitbuf + code * Pow2(bitcount) < Pow2(bitcount + k) <= 0x1_0000_0000
  {
    hide Pow2;
    Pow2Add(bitcount, k);
    Pow2Mono(bitcount + k, 32);
    Pow2At32();
    MulMono(code + 1, Pow2(k), Pow2(bitcount));
    MulSucc(code, Pow2(bitcount));
  }

  /** Adding a code sets bits above the pending ones, within 32 bits. */
  lemma AddFits(bitbuf: nat, bitcount: nat, code: nat, k: nat)
    requires bitcount < 8 && k <= 24 && bitbuf < Pow2(bitcount) && code < Pow2(k)
    ensures var b := Or(bitbuf, Shl32(code, bitcount));
            b < Pow2(bitcount + k) && Lsb(b, bitcount + k) == Lsb(bitbuf, bitcount) + Lsb(code, k)
  {
    hide Pow2, Or, Lsb, U32;
    ShiftFits(bitbuf, bitcount, code, k);
    OrIsAdd(bitbuf, bitcount, code);
    LsbConcat(bitbuf, bitcount, code, k);
  }
}
