/**
 * The body of every `to_bin`: a zero-filled buffer of the message's size,
 * then a fixed sequence of `write_alpha` / `write_num` calls, each of which
 * panics when its slice runs past the end of the buffer.
 */
module FieldWrites {
  import opened Ints
  import opened DataFeedErrors
  import opened BufferUtils

  /** One buffer write of a `to_bin` body: `write_num` of bytes, or `write_alpha` of characters. */
  datatype FieldWrite = NumWrite(offset: nat, bytes: seq<u8>) | AlphaWrite(offset: nat, chars: seq<char>)

  /** The bytes a write stores. */
  function Bytes(w: FieldWrite): (r: seq<u8>)
    ensures w.AlphaWrite? ==> |r| == |w.chars|
  {
    match w
    case NumWrite(_, bytes) => bytes
    case AlphaWrite(_, chars) => AlphaBytes(chars)
  }

  /** One past the last position a write touches. */
  function End(w: FieldWrite): nat {
    w.offset + |Bytes(w)|
  }

  /** The first n writes stay inside a buffer of `size` bytes, so none of them panics. */
  predicate FitsPrefix(size: nat, writes: seq<FieldWrite>, n: nat)
    requires n <= |writes|
  {
    forall i :: 0 <= i < n ==> End(writes[i]) <= size
  }

  /** Every write stays inside a buffer of `size` bytes. */
  predicate Fits(size: nat, writes: seq<FieldWrite>) {
    FitsPrefix(size, writes, |writes|)
  }

  /** The write touches no position of `lo..hi`. */
  predicate Disjoint(w: FieldWrite, lo: nat, hi: nat) {
    End(w) <= lo || hi <= w.offset
  }

  /** The buffer after performing the first n writes in order; a later write overwrites an earlier one. */
  function ApplyPrefix(buf: seq<u8>, writes: seq<FieldWrite>, n: nat): (r: seq<u8>)
    requires n <= |writes| && FitsPrefix(|buf|, writes, n)
    ensures |r| == |buf|
  {
    if n == 0 then buf
    else Splice(ApplyPrefix(buf, writes, n - 1), writes[n - 1].offset, Bytes(writes[n - 1]))
  }

  /** The buffer after performing all the writes. */
  function ApplyAll(buf: seq<u8>, writes: seq<FieldWrite>): (r: seq<u8>)
    requires Fits(|buf|, writes)
    ensures |r| == |buf|
  {
    ApplyPrefix(buf, writes, |writes|)
  }

  /** What running the writes on `[0u8; size]` produces: the bytes, or a panic. */
  function Encode(size: nat, writes: seq<FieldWrite>): (r: ToBinResult)
    ensures r.Panicked? <==> exists i :: 0 <= i < |writes| && End(writes[i]) > size
    ensures r.Encoded? ==> |r.bytes| == size
    ensures !r.Rejected?
  {
    if Fits(size, writes) then Encoded(ApplyAll(Zeros(size), writes)) else Panicked
  }

  /** Allocate the zero-filled buffer and perform the writes in order, stopping at the first panic. */
  method Serialize(size: nat, writes: seq<FieldWrite>) returns (r: ToBinResult)
    ensures r == Encode(size, writes)
  {
    var binary := new u8[size](_ => 0);
    assert binary[..] == Zeros(size);
    for i := 0 to |writes|
      invariant FitsPrefix(size, writes, i)
      invariant binary[..] == ApplyPrefix(Zeros(size), writes, i)
    {
      var w := writes[i];
      ghost var before := binary[..];
      var panicked: bool;
      if w.NumWrite? {
        panicked := WriteNum(binary, w.offset, w.bytes);
      } else {
        panicked := WriteAlpha(binary, w.offset, w.chars);
      }
      if panicked {
        assert End(writes[i]) > size;
        return Panicked;
      }
      assert binary[..] == Splice(before, w.offset, Bytes(w));
    }
    return Encoded(binary[..]);
  }

  /**
   * A position that the j-th write covers and none of the writes after it,
   * up to the n-th, touches holds that write's byte.
   */
  lemma {:induction false} ByteFromWrite(buf: seq<u8>, writes: seq<FieldWrite>, n: nat, j: nat, i: nat)
    requires n <= |writes| && FitsPrefix(|buf|, writes, n)
    requires j < n && writes[j].offset <= i < End(writes[j])
    requires forall k :: j < k < n ==> Disjoint(writes[k], i, i + 1)
    ensures ApplyPrefix(buf, writes, n)[i] == Bytes(writes[j])[i - writes[j].offset]
    decreases n
  {
    var w := writes[n - 1];
    assert FitsPrefix(|buf|, writes, n - 1);
    SpliceAt(ApplyPrefix(buf, writes, n - 1), w.offset, Bytes(w));
    if j < n - 1 {
      ByteFromWrite(buf, writes, n - 1, j, i);
    }
  }

  /** The writes are performed in order of their offsets, as every `to_bin` body does. */
  predicate Ascending(writes: seq<FieldWrite>) {
    forall k :: 0 < k < |writes| ==> writes[k - 1].offset <= writes[k].offset
  }

  lemma {:induction false} AscendingAfter(writes: seq<FieldWrite>, j: nat, k: nat)
    requires Ascending(writes) && j < k < |writes|
    ensures writes[j + 1].offset <= writes[k].offset
    decreases k
  {
    if k > j + 1 {
      AscendingAfter(writes, j, k - 1);
    }
  }

  /**
   * When every write fits and the writes go in offset order, the part of
   * the j-th write before the start of the next one holds that write's
   * leading bytes in the encoded message, and all of its bytes when it
   * ends there.
   */
  lemma EncodedField(size: nat, writes: seq<FieldWrite>, j: nat, hi: nat)
    requires Fits(size, writes) && Ascending(writes)
    requires j < |writes| && writes[j].offset <= hi <= End(writes[j])
    requires j + 1 < |writes| ==> hi <= writes[j + 1].offset
    ensures Encode(size, writes).Encoded?
    ensures Encode(size, writes).bytes[writes[j].offset..hi] == Bytes(writes[j])[..hi - writes[j].offset]
    ensures hi == End(writes[j]) ==> Encode(size, writes).bytes[writes[j].offset..hi] == Bytes(writes[j])
  {
    var bytes := Encode(size, writes).bytes;
    var field := Bytes(writes[j]);
    forall i | writes[j].offset <= i < hi
      ensures bytes[i] == field[i - writes[j].offset]
    {
      forall k | j < k < |writes|
        ensures Disjoint(writes[k], i, i + 1)
      {
        AscendingAfter(writes, j, k);
      }
      ByteFromWrite(Zeros(size), writes, |writes|, j, i);
    }
    assert bytes[writes[j].offset..hi] == field[..hi - writes[j].offset];
  }
}
