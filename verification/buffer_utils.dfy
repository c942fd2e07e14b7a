/**
 * Reading and writing field primitives at byte offsets of a buffer:
 * big-endian for numbers, one byte per character for text.
 */
module BufferUtils {
  import opened Ints
  import opened DataFeedErrors
  import opened NumericType
  import opened AlphaType
  import opened PriceType

  /** `b as char`: the Latin-1 character of a byte. */
  function ByteToChar(b: u8): (c: char)
    ensures c as int == b
  {
    b as char
  }

  /** `c as u8`: the code point truncated to its low 8 bits. */
  function CharToByte(c: char): (r: u8)
    ensures c as int < 0x100 ==> r == c as int
  {
    (c as int) % 0x100
  }

  /** The byte test of `read_alpha`: 0x20 through 0x7F, both included. */
  predicate IsPrintable(b: u8) {
    !(b < 0x20 || b > 0x7F)
  }

  /** The character counterpart of `IsPrintable`. */
  predicate IsPrintableChar(c: char) {
    0x20 <= c as int <= 0x7F
  }

  /** Every byte of `buf[offset..offset + size]` passes `IsPrintable`. */
  ghost predicate PrintableRange(buf: seq<u8>, offset: nat, size: nat)
    requires offset + size <= |buf|
  {
    forall i :: offset <= i < offset + size ==> IsPrintable(buf[i])
  }

  /** A zero-filled buffer, as `[0u8; SIZE]`. */
  function Zeros(n: nat): (r: seq<u8>)
    ensures |r| == n
  {
    seq(n, _ => 0)
  }

  /** `buf[offset..offset + |bytes|].copy_from_slice(bytes)` on a value. */
  function Splice(s: seq<u8>, offset: nat, bytes: seq<u8>): (r: seq<u8>)
    requires offset + |bytes| <= |s|
    ensures |r| == |s|
  {
    s[..offset] + bytes + s[offset + |bytes|..]
  }

  /** Position by position: the spliced bytes inside their range, the old bytes elsewhere. */
  lemma SpliceAt(s: seq<u8>, offset: nat, bytes: seq<u8>)
    requires offset + |bytes| <= |s|
    ensures forall i :: offset <= i < offset + |bytes| ==> Splice(s, offset, bytes)[i] == bytes[i - offset]
    ensures forall i :: 0 <= i < |s| && !(offset <= i < offset + |bytes|) ==> Splice(s, offset, bytes)[i] == s[i]
  {
  }

  /** A range inside the spliced bytes reads back those bytes. */
  lemma SpliceInside(s: seq<u8>, offset: nat, bytes: seq<u8>, lo: nat, hi: nat)
    requires offset <= lo <= hi <= offset + |bytes| <= |s|
    ensures Splice(s, offset, bytes)[lo..hi] == bytes[lo - offset..hi - offset]
  {
    var r := Splice(s, offset, bytes);
    SpliceAt(s, offset, bytes);
    assert forall i :: 0 <= i < hi - lo ==> r[lo..hi][i] == bytes[lo - offset..hi - offset][i];
  }

  /** A range disjoint from the spliced bytes is unchanged. */
  lemma SpliceOutside(s: seq<u8>, offset: nat, bytes: seq<u8>, lo: nat, hi: nat)
    requires offset + |bytes| <= |s| && lo <= hi <= |s|
    requires offset + |bytes| <= lo || hi <= offset
    ensures Splice(s, offset, bytes)[lo..hi] == s[lo..hi]
  {
    var r := Splice(s, offset, bytes);
    SpliceAt(s, offset, bytes);
    assert forall i :: 0 <= i < hi - lo ==> r[lo..hi][i] == s[lo..hi][i];
  }

  /** The bytes that `write_alpha` stores for `chars`, one per character. */
  function AlphaBytes(chars: seq<char>): (r: seq<u8>)
    ensures |r| == |chars|
  {
    seq(|chars|, i requires 0 <= i < |chars| => CharToByte(chars[i]))
  }

  /** The unsigned big-endian value of a byte string, accumulated left to right. */
  function BigEndian(s: seq<u8>): (r: nat)
    ensures r < Pow256(|s|)
  {
    if s == [] then 0 else BigEndian(s[..|s| - 1]) * 0x100 + s[|s| - 1]
  }

  /** The n-byte big-endian form of `v` modulo 256^n. */
  function ToBigEndian(v: nat, n: nat): (r: seq<u8>)
    ensures |r| == n
  {
    if n == 0 then [] else ToBigEndian(v / 0x100, n - 1) + [v % 0x100]
  }

  /** `u128::to_be_bytes`: always 16 bytes, whatever width the field has. */
  function U128ToBeBytes(v: u128): (r: seq<u8>)
    ensures |r| == 16
  {
    ToBigEndian(v, 16)
  }

  /** `i32::to_be_bytes`: the 4-byte two's-complement form. */
  function I32ToBeBytes(v: i32): (r: seq<u8>)
    ensures |r| == 4
  {
    ToBigEndian(v % 0x1_0000_0000, 4)
  }

  /** `write_num`: copy `bytes` into the buffer at `offset`; the slice index panics past the end. */
  method WriteNum(buf: array<u8>, offset: nat, bytes: seq<u8>) returns (panicked: bool)
    modifies buf
    ensures panicked <==> offset + |bytes| > buf.Length
    ensures panicked ==> buf[..] == old(buf[..])
    ensures !panicked ==> buf[..] == Splice(old(buf[..]), offset, bytes)
  {
    if offset + |bytes| > buf.Length {
      return true;
    }
    forall i | offset <= i < offset + |bytes| {
      buf[i] := bytes[i - offset];
    }
    return false;
  }

  /** `write_alpha`: store each character, truncated to a byte, at `offset + i`. */
  method WriteAlpha(buf: array<u8>, offset: nat, chars: seq<char>) returns (panicked: bool)
    modifies buf
    ensures panicked <==> offset + |chars| > buf.Length
    ensures panicked ==> buf[..] == old(buf[..])
    ensures !panicked ==> buf[..] == Splice(old(buf[..]), offset, AlphaBytes(chars))
  {
    if offset + |chars| > buf.Length {
      return true;
    }
    for i := 0 to |chars|
      invariant forall k :: 0 <= k < i ==> buf[offset + k] == CharToByte(chars[k])
      invariant forall k :: 0 <= k < buf.Length && !(offset <= k < offset + i) ==> buf[k] == old(buf[k])
    {
      buf[offset + i] := CharToByte(chars[i]);
    }
    return false;
  }

  /**
   * What `read_numeric` returns: an error for a width outside the valid
   * sizes (before the buffer is looked at), else the big-endian value.
   */
  function NumericAt(buf: seq<u8>, offset: nat, size: nat): (r: Result<Numeric>)
    requires size in VALID_NUMERIC_SIZES ==> offset + size <= |buf|
    ensures r.Err? <==> size !in VALID_NUMERIC_SIZES
    ensures r.Err? ==> r.error == InvalidNumericSize(size)
    ensures r.Ok? ==> r.value.value == BigEndian(buf[offset..offset + size]) && r.value.value < Pow256(size)
    ensures r.Ok? ==> NumericType.Validate(size, r.value).Ok?
  {
    if size !in VALID_NUMERIC_SIZES then
      Err(InvalidNumericSize(size))
    else
      Pow256Values();
      Pow256Monotone(size, 16);
      Ok(Numeric(BigEndian(buf[offset..offset + size])))
  }

  /** `read_numeric`: shift-and-or accumulation of SIZE bytes into a `u128`. */
  method ReadNumeric(buf: seq<u8>, offset: nat, size: nat) returns (r: Result<Numeric>)
    requires size in VALID_NUMERIC_SIZES ==> offset + size <= |buf|
    ensures r == NumericAt(buf, offset, size)
  {
    if size !in VALID_NUMERIC_SIZES {
      return Err(InvalidNumericSize(size));
    }
    var src := buf[offset..offset + size];
    Pow256Values();
    var value: u128 := 0;
    for i := 0 to |src|
      invariant value == BigEndian(src[..i])
    {
      Pow256Monotone(i + 1, 16);
      assert src[..i + 1][..i] == src[..i];
      assert BigEndian(src[..i + 1]) == value * 0x100 + src[i];
      assert value * 0x100 < U128_MODULUS;
      // `(value << 8) | b`: the shift drops the top byte, and the low byte it frees holds b
      value := (value * 0x100) % U128_MODULUS + src[i];
    }
    assert src[..|src|] == src;
    return Ok(Numeric(value));
  }

  /** `read_price`: the 4 bytes at `offset` as a big-endian two's-complement `i32`; never fails. */
  function ReadPrice(buf: seq<u8>, offset: nat): (p: Price)
    requires offset + 4 <= |buf|
    ensures p.value % 0x1_0000_0000 == BigEndian(buf[offset..offset + 4])
    ensures p.value < 0 <==> buf[offset] >= 0x80
  {
    var bytes := buf[offset..offset + 4];
    var unsigned := BigEndian(bytes);
    Pow256Values();
    BigEndianFirst(bytes);
    Price(if unsigned >= 0x8000_0000 then unsigned - 0x1_0000_0000 else unsigned)
  }

  /** The characters of `buf[offset..offset + size]`, one per byte. */
  function Chars(buf: seq<u8>, offset: nat, size: nat): (r: seq<char>)
    requires offset + size <= |buf|
    ensures |r| == size
  {
    seq(size, i requires 0 <= i < size => ByteToChar(buf[offset + i]))
  }

  /** Position k holds the first byte of `buf[offset..offset + size]` outside 0x20..=0x7F. */
  ghost predicate FirstUnprintable(buf: seq<u8>, offset: nat, size: nat, k: int)
    requires offset + size <= |buf|
  {
    offset <= k < offset + size && !IsPrintable(buf[k]) &&
    forall j :: offset <= j < k ==> IsPrintable(buf[j])
  }

  /** The scan of `read_alpha`: stop at the first byte outside 0x20..=0x7F. */
  function ScanPrintable(buf: seq<u8>, offset: nat, size: nat): (r: Result<seq<char>>)
    requires offset + size <= |buf|
    ensures r.Ok? <==> PrintableRange(buf, offset, size)
    ensures r.Ok? ==> r.value == Chars(buf, offset, size)
    ensures r.Err? ==> exists k :: FirstUnprintable(buf, offset, size, k) &&
                                   r.error == NonISO88591Value(ByteToChar(buf[k]))
    decreases size
  {
    if size == 0 then Ok([])
    else if !IsPrintable(buf[offset]) then
      assert FirstUnprintable(buf, offset, size, offset);
      Err(NonISO88591Value(ByteToChar(buf[offset])))
    else
      var rest := ScanPrintable(buf, offset + 1, size - 1);
      if rest.Err? then
        ghost var k :| FirstUnprintable(buf, offset + 1, size - 1, k) &&
                       rest.error == NonISO88591Value(ByteToChar(buf[k]));
        assert FirstUnprintable(buf, offset, size, k);
        Err(rest.error)
      else
        assert Chars(buf, offset, size) == [ByteToChar(buf[offset])] + Chars(buf, offset + 1, size - 1);
        Ok([ByteToChar(buf[offset])] + rest.value)
  }

  /**
   * What `read_alpha` returns: the characters of `buf[offset..offset + size]`,
   * or `NonISO88591Value` for the first byte outside 0x20..=0x7F.
   */
  function AlphaAt(buf: seq<u8>, offset: nat, size: nat): (r: Result<Alpha>)
    requires offset + size <= |buf|
    ensures r.Ok? <==> PrintableRange(buf, offset, size)
    ensures r.Ok? ==> r.value == Alpha(Chars(buf, offset, size))
    ensures r.Ok? ==> AlphaType.Validate(r.value).Ok?
    ensures r.Err? ==> exists k :: FirstUnprintable(buf, offset, size, k) &&
                                   r.error == NonISO88591Value(ByteToChar(buf[k]))
  {
    match ScanPrintable(buf, offset, size)
    case Ok(chars) =>
      ByteCharsAreLatin1(buf, offset, size);
      Ok(Alpha(chars))
    case Err(e) => Err(e)
  }

  /** Characters decoded from bytes always pass the ISO 8859-1 check of `Alpha::validate`. */
  lemma ByteCharsAreLatin1(buf: seq<u8>, offset: nat, size: nat)
    requires offset + size <= |buf|
    ensures AlphaType.Validate(Alpha(Chars(buf, offset, size))).Ok?
  {
    var chars := Chars(buf, offset, size);
    forall i | 0 <= i < size
      ensures PassesLatin1Check(chars[i])
    {
      assert chars[i] == ByteToChar(buf[offset + i]);
      assert 0 <= chars[i] as int < 0x100;
    }
  }

  /** `read_alpha` reports the first unprintable byte, whatever follows it. */
  lemma AlphaAtStopsAt(buf: seq<u8>, offset: nat, size: nat, k: nat)
    requires offset + size <= |buf|
    requires FirstUnprintable(buf, offset, size, k)
    ensures AlphaAt(buf, offset, size) == Err(NonISO88591Value(ByteToChar(buf[k])))
  {
    var r := AlphaAt(buf, offset, size);
    var k' :| FirstUnprintable(buf, offset, size, k') && r.error == NonISO88591Value(ByteToChar(buf[k']));
    assert k' == k;
  }

  /** `read_alpha`: fill a character array, returning early at the first unprintable byte. */
  method ReadAlpha(buf: seq<u8>, offset: nat, size: nat) returns (r: Result<Alpha>)
    requires offset + size <= |buf|
    ensures r == AlphaAt(buf, offset, size)
  {
    var charArr := new char[size](_ => ' ');
    var src := buf[offset..offset + size];
    for i := 0 to size
      invariant PrintableRange(buf, offset, i)
      invariant charArr[..i] == Chars(buf, offset, i)
    {
      var b := src[i];
      assert b == buf[offset + i];
      if b < 0x20 || b > 0x7F {
        AlphaAtStopsAt(buf, offset, size, offset + i);
        return Err(NonISO88591Value(ByteToChar(b)));
      }
      charArr[i] := ByteToChar(b);
      assert charArr[..i + 1] == Chars(buf, offset, i) + [ByteToChar(b)];
    }
    assert charArr[..] == charArr[..size];
    return Ok(Alpha(charArr[..]));
  }

  lemma ShiftByte(x: int, p: int, b: int)
    ensures (x * p + b) * 0x100 == x * (p * 0x100) + b * 0x100
  {
  }

  lemma {:induction false} BigEndianFirst(s: seq<u8>)
    requires |s| >= 1
    ensures BigEndian(s) == s[0] * Pow256(|s| - 1) + BigEndian(s[1..])
    decreases |s|
  {
    if |s| == 1 {
      assert s[..0] == [] && s[1..] == [];
    } else {
      var init, rest := s[..|s| - 1], s[1..];
      var p, b, c := Pow256(|s| - 2), BigEndian(init[1..]), s[|s| - 1];
      BigEndianFirst(init);
      assert init[0] == s[0];
      assert BigEndian(init) == s[0] * p + b;
      assert BigEndian(s) == BigEndian(init) * 0x100 + c;
      assert rest[..|rest| - 1] == init[1..];
      assert BigEndian(rest) == b * 0x100 + c;
      assert Pow256(|s| - 1) == p * 0x100;
      ShiftByte(s[0], p, b);
    }
  }

  /** Reading back n big-endian bytes of a value that fits in n bytes returns the value. */
  lemma {:induction false} BigEndianOfToBigEndian(v: nat, n: nat)
    requires v < Pow256(n)
    ensures BigEndian(ToBigEndian(v, n)) == v
  {
    if n > 0 {
      BigEndianOfToBigEndian(v / 0x100, n - 1);
      var bytes := ToBigEndian(v, n);
      assert bytes[..n - 1] == ToBigEndian(v / 0x100, n - 1);
    }
  }

  lemma {:induction false} BigEndianOfZeros(n: nat)
    ensures BigEndian(Zeros(n)) == 0
  {
    if n > 0 {
      assert Zeros(n)[..n - 1] == Zeros(n - 1);
      BigEndianOfZeros(n - 1);
    }
  }

  /** A value that fits in m bytes has n - m leading zero bytes in its n-byte form. */
  lemma {:induction false} ToBigEndianLeadingZeros(v: nat, n: nat, m: nat)
    requires m <= n && v < Pow256(m)
    ensures ToBigEndian(v, n) == Zeros(n - m) + ToBigEndian(v, m)
    decreases n
  {
    if m == n {
      assert Zeros(0) == [];
    } else if m == 0 {
      assert v == 0;
      ToBigEndianLeadingZeros(0, n - 1, 0);
      assert Zeros(n - 1) + [0] == Zeros(n);
    } else {
      ToBigEndianLeadingZeros(v / 0x100, n - 1, m - 1);
      assert Zeros(n - 1 - (m - 1)) == Zeros(n - m);
    }
  }

  /** The top k bytes of `u128::to_be_bytes` are zero when the value fits in 16 - k bytes. */
  lemma U128BytesLeadingZeros(v: u128, k: nat)
    requires k <= 16 && v < Pow256(16 - k)
    ensures U128ToBeBytes(v)[..k] == Zeros(k)
    ensures BigEndian(U128ToBeBytes(v)[..k]) == 0
  {
    ToBigEndianLeadingZeros(v, 16, 16 - k);
    assert U128ToBeBytes(v)[..k] == Zeros(k);
    BigEndianOfZeros(k);
  }

  /** `v >> (8 * m)`: the value without its m least significant bytes. */
  function DropLowBytes(v: nat, m: nat): (r: nat)
    ensures r <= v
  {
    if m == 0 then v else DropLowBytes(v / 0x100, m - 1)
  }

  lemma {:induction false} DropLowBytesBound(v: nat, m: nat, n: nat)
    requires m <= n && v < Pow256(n)
    ensures DropLowBytes(v, m) < Pow256(n - m)
    decreases m
  {
    if m > 0 {
      DropLowBytesBound(v / 0x100, m - 1, n - 1);
    }
  }

  /** Dropping the low bytes of a value that fits in them leaves zero. */
  lemma {:induction false} DropLowBytesOfSmall(v: nat, m: nat)
    requires v < Pow256(m)
    ensures DropLowBytes(v, m) == 0
    decreases m
  {
    if m > 0 {
      DropLowBytesOfSmall(v / 0x100, m - 1);
    }
  }

  /** The first k of n big-endian bytes are the big-endian form of the value without its last n - k bytes. */
  lemma {:induction false} ToBigEndianPrefix(v: nat, n: nat, k: nat)
    requires k <= n
    ensures ToBigEndian(v, n)[..k] == ToBigEndian(DropLowBytes(v, n - k), k)
    decreases n
  {
    if k < n {
      ToBigEndianPrefix(v / 0x100, n - 1, k);
      assert ToBigEndian(v, n)[..k] == ToBigEndian(v / 0x100, n - 1)[..k];
    }
  }

  /**
   * Reading k bytes where `u128::to_be_bytes` wrote 16 gives the value
   * shifted right by 16 - k bytes: its most significant part, not its value.
   */
  lemma U128LeadingBytes(v: u128, k: nat)
    requires k <= 16
    ensures BigEndian(U128ToBeBytes(v)[..k]) == DropLowBytes(v, 16 - k)
  {
    ToBigEndianPrefix(v, 16, k);
    Pow256Values();
    DropLowBytesBound(v, 16 - k, 16);
    BigEndianOfToBigEndian(DropLowBytes(v, 16 - k), k);
  }

  /** Printable text written by `write_alpha` reads back as the same characters. */
  lemma CharsOfAlphaBytes(buf: seq<u8>, offset: nat, chars: seq<char>)
    requires offset + |chars| <= |buf| && buf[offset..offset + |chars|] == AlphaBytes(chars)
    requires forall i :: 0 <= i < |chars| ==> IsPrintableChar(chars[i])
    ensures PrintableRange(buf, offset, |chars|)
    ensures Chars(buf, offset, |chars|) == chars
  {
    forall i | 0 <= i < |chars|
      ensures buf[offset + i] == CharToByte(chars[i]) && ByteToChar(buf[offset + i]) == chars[i]
    {
      assert buf[offset..offset + |chars|][i] == buf[offset + i];
    }
  }

  /** k bytes read where the leading k bytes of a `u128::to_be_bytes` form were written. */
  lemma NumericOfLeadingBytes(buf: seq<u8>, offset: nat, k: nat, v: u128)
    requires k in VALID_NUMERIC_SIZES && offset + k <= |buf|
    requires buf[offset..offset + k] == U128ToBeBytes(v)[..k]
    ensures NumericAt(buf, offset, k) == Ok(Numeric(DropLowBytes(v, 16 - k)))
  {
    U128LeadingBytes(v, k);
  }

  /** Field round trip: `read_numeric` after writing a value's SIZE-byte big-endian form. */
  lemma NumericRoundTrip(buf: seq<u8>, offset: nat, size: nat, v: u128)
    requires size in VALID_NUMERIC_SIZES && v < Pow256(size)
    requires offset + size <= |buf|
    ensures NumericAt(Splice(buf, offset, ToBigEndian(v, size)), offset, size) == Ok(Numeric(v))
  {
    var written := Splice(buf, offset, ToBigEndian(v, size));
    SpliceInside(buf, offset, ToBigEndian(v, size), offset, offset + size);
    assert written[offset..offset + size] == ToBigEndian(v, size);
    BigEndianOfToBigEndian(v, size);
  }

  /** Field round trip: `read_price` after writing `i32::to_be_bytes`. */
  lemma PriceRoundTrip(buf: seq<u8>, offset: nat, v: i32)
    requires offset + 4 <= |buf|
    ensures ReadPrice(Splice(buf, offset, I32ToBeBytes(v)), offset) == Price(v)
  {
    var written := Splice(buf, offset, I32ToBeBytes(v));
    SpliceInside(buf, offset, I32ToBeBytes(v), offset, offset + 4);
    assert written[offset..offset + 4] == I32ToBeBytes(v);
    Pow256Values();
    BigEndianOfToBigEndian(v % 0x1_0000_0000, 4);
  }

  /** Field round trip: `read_alpha` after `write_alpha`, for printable ASCII text. */
  lemma AlphaRoundTrip(buf: seq<u8>, offset: nat, chars: seq<char>)
    requires offset + |chars| <= |buf|
    requires forall i :: 0 <= i < |chars| ==> IsPrintableChar(chars[i])
    ensures AlphaAt(Splice(buf, offset, AlphaBytes(chars)), offset, |chars|) == Ok(Alpha(chars))
  {
    var written := Splice(buf, offset, AlphaBytes(chars));
    SpliceAt(buf, offset, AlphaBytes(chars));
    forall i | 0 <= i < |chars|
      ensures written[offset + i] == CharToByte(chars[i]) && ByteToChar(written[offset + i]) == chars[i]
    {
    }
    assert Chars(written, offset, |chars|) == chars;
  }

  /** The alpha scan depends on the scanned bytes only. */
  lemma {:induction false} ScanPrintableLocal(a: seq<u8>, b: seq<u8>, offset: nat, size: nat)
    requires offset + size <= |a| && offset + size <= |b|
    requires forall i :: offset <= i < offset + size ==> a[i] == b[i]
    ensures ScanPrintable(a, offset, size) == ScanPrintable(b, offset, size)
    decreases size
  {
    if size > 0 {
      ScanPrintableLocal(a, b, offset + 1, size - 1);
    }
  }

  /** Each decoded field depends on its own bytes only. */
  lemma FieldsLocal(a: seq<u8>, b: seq<u8>, offset: nat, size: nat)
    requires offset + size <= |a| && offset + size <= |b|
    requires forall i :: offset <= i < offset + size ==> a[i] == b[i]
    ensures AlphaAt(a, offset, size) == AlphaAt(b, offset, size)
    ensures size in VALID_NUMERIC_SIZES ==> NumericAt(a, offset, size) == NumericAt(b, offset, size)
    ensures size == 4 ==> ReadPrice(a, offset) == ReadPrice(b, offset)
  {
    AlphaLocal(a, b, offset, size);
    if size in VALID_NUMERIC_SIZES || size == 4 {
      assert a[offset..offset + size] == b[offset..offset + size];
    }
    if size in VALID_NUMERIC_SIZES {
      NumericLocal(a, b, offset, size);
    }
    if size == 4 {
      PriceLocal(a, b, offset);
    }
  }

  lemma AlphaLocal(a: seq<u8>, b: seq<u8>, offset: nat, size: nat)
    requires offset + size <= |a| && offset + size <= |b|
    requires forall i :: offset <= i < offset + size ==> a[i] == b[i]
    ensures AlphaAt(a, offset, size) == AlphaAt(b, offset, size)
  {
    ScanPrintableLocal(a, b, offset, size);
  }

  lemma NumericLocal(a: seq<u8>, b: seq<u8>, offset: nat, size: nat)
    requires size in VALID_NUMERIC_SIZES && offset + size <= |a| && offset + size <= |b|
    requires a[offset..offset + size] == b[offset..offset + size]
    ensures NumericAt(a, offset, size) == NumericAt(b, offset, size)
  {
  }

  lemma PriceLocal(a: seq<u8>, b: seq<u8>, offset: nat)
    requires offset + 4 <= |a| && offset + 4 <= |b|
    requires a[offset..offset + 4] == b[offset..offset + 4]
    ensures ReadPrice(a, offset) == ReadPrice(b, offset)
  {
  }
}
