/** Integers in MySQL packets: fixed-length and length-encoded, least significant byte first
    (src/network-mysqld-proto.c:112-235, 768-845). */
module MysqlInts {
  import opened Common

  const TWO_31: nat := 0x8000_0000
  const TWO_32: nat := 0x1_0000_0000
  const TWO_64: nat := 0x1_0000_0000_0000_0000

  function Pow256(n: nat): (r: nat)
    ensures r > 0
  {
    if n == 0 then 1 else 256 * Pow256(n - 1)
  }

  /** The value of bytes, least significant first. */
  function Value(bytes: seq<Byte>): (v: nat)
    ensures v < Pow256(|bytes|)
  {
    if bytes == [] then 0 else bytes[0] + 256 * Value(bytes[1..])
  }

  function Bytes(v: nat, size: nat): (r: seq<Byte>)
    ensures |r| == size
  {
    if size == 0 then [] else [v % 256] + Bytes(v / 256, size - 1)
  }

  /** What is left of a number when its `size` lowest bytes are dropped. */
  function Upper(v: nat, size: nat): nat {
    if size == 0 then v else Upper(v / 256, size - 1)
  }

  lemma Times256(p: nat, q: nat)
    ensures 256 * (p * q) == (256 * p) * q
  {
  }

  /** Writing a number in `size` bytes and reading it back keeps it modulo 256^size, and so keeps it
      exactly when it fits. */
  lemma {:induction false} ValueBytes(v: nat, size: nat)
    ensures v == Value(Bytes(v, size)) + Pow256(size) * Upper(v, size)
    ensures Value(Bytes(v, size)) == v <==> v < Pow256(size)
    decreases size
  {
    if size > 0 {
      ValueBytes(v / 256, size - 1);
      assert Bytes(v, size)[1..] == Bytes(v / 256, size - 1);
      Times256(Pow256(size - 1), Upper(v / 256, size - 1));
    }
    FitsIff(Value(Bytes(v, size)), Pow256(size), Upper(v, size));
  }

  lemma FitsIff(low: nat, p: nat, q: nat)
    requires low < p
    ensures low == low + p * q <==> low + p * q < p
  {
    if q > 0 { assert p * q >= p; } else { assert p * q == 0; }
  }

  /** The lowest byte comes first: byte `i` is the `i`th digit in base 256. */
  lemma {:induction false} ByteAt(v: nat, size: nat, i: nat)
    requires i < size
    ensures Bytes(v, size)[i] == Upper(v, i) % 256
    decreases size
  {
    if i > 0 { ByteAt(v / 256, size - 1, i - 1); }
  }

  /** Every sequence of bytes is what its value is written as. */
  lemma {:induction false} BytesValue(bytes: seq<Byte>)
    ensures Bytes(Value(bytes), |bytes|) == bytes
    decreases |bytes|
  {
    if bytes != [] {
      BytesValue(bytes[1..]);
      assert Value(bytes) % 256 == bytes[0] && Value(bytes) / 256 == Value(bytes[1..]);
    }
  }

  lemma {:induction false} ValueConcat(a: seq<Byte>, b: seq<Byte>)
    ensures Value(a + b) == Value(a) + Pow256(|a|) * Value(b)
    decreases |a|
  {
    if a == [] {
      assert a + b == b;
    } else {
      assert (a + b)[1..] == a[1..] + b;
      ValueConcat(a[1..], b);
      var (p, x, y) := (Pow256(|a| - 1), Value(a[1..]), Value(b));
      calc {
        Value(a + b);
        a[0] + 256 * (x + p * y);
        a[0] + 256 * x + 256 * (p * y);
        { Times256(p, y); }
        a[0] + 256 * x + (256 * p) * y;
      }
    }
  }

  // ----- length-encoded integers -----

  /** How many bytes follow the marker. */
  function LenencSize(v: nat): nat {
    if v < 251 then 0 else if v < 65536 then 2 else if v < 16777216 then 3 else 8
  }

  function LenencBytes(v: nat): (r: seq<Byte>)
    ensures |r| == 1 + LenencSize(v)
  {
    if v < 251 then [v]
    else [if v < 65536 then 252 else if v < 16777216 then 253 else 254] + Bytes(v, LenencSize(v))
  }

  /** The decoder builds the low word as a signed integer: when its top bit is set, its sign fills the upper
      word of the result. */
  function JoinWords(low: nat, high: nat): nat {
    if low < TWO_31 then high * TWO_32 + low else (TWO_32 - 1) * TWO_32 + low
  }

  /** The integer at the start of `d`, and the bytes it takes. */
  function LenencValue(d: seq<Byte>): (r: Option<(nat, nat)>)
    ensures r.Some? ==> 0 < r.value.1 <= |d|
  {
    if d == [] then None
    else if d[0] < 251 then Some((d[0], 1))
    else if d[0] == 252 then if |d| <= 2 then None else Some((Value(d[1..3]), 3))
    else if d[0] == 253 then if |d| <= 3 then None else Some((Value(d[1..4]), 4))
    else if d[0] == 254 then if |d| <= 8 then None else Some((JoinWords(Value(d[1..5]), Value(d[5..9])), 9))
    else None
  }

  /** Which numbers survive: in eight bytes, those whose bit 31 is clear or whose upper word is all ones. */
  predicate Survives(v: nat) {
    v < 16777216 || v % TWO_32 < TWO_31 || v / TWO_32 == TWO_32 - 1
  }

  lemma Words(v: nat, b: seq<Byte>)
    requires |b| == 8 && Value(b) == v
    ensures Value(b[..4]) == v % TWO_32 && Value(b[4..]) == v / TWO_32
  {
    Powers();
    assert b[..4] + b[4..] == b;
    ValueConcat(b[..4], b[4..]);
    SplitWords(v, Value(b[..4]), Value(b[4..]));
  }

  lemma SplitWords(v: nat, low: nat, high: nat)
    requires v == low + TWO_32 * high && low < TWO_32
    ensures low == v % TWO_32 && high == v / TWO_32
  {
  }

  lemma Powers()
    ensures Pow256(2) == 65536 && Pow256(3) == 16777216 && Pow256(4) == TWO_32 && Pow256(8) == TWO_64
  {
    assert Pow256(1) == 256 && Pow256(5) == 256 * TWO_32 && Pow256(6) == 65536 * TWO_32 &&
      Pow256(7) == 16777216 * TWO_32;
  }

  /** The four forms: a byte below 251, or the marker 252, 253 or 254 with two, three or eight bytes, lowest first. */
  lemma LenencForms(v: nat)
    requires v < TWO_64
    ensures v < 251 ==> LenencBytes(v) == [v]
    ensures 251 <= v < 0x1_0000 ==> LenencBytes(v) == [252, v % 256, v / 256]
    ensures 0x1_0000 <= v < 0x100_0000 ==> LenencBytes(v) == [253, v % 256, v / 256 % 256, v / 65536]
    ensures v >= 0x100_0000 ==> LenencBytes(v) == [254] + Bytes(v, 8)
  {
    if 251 <= v < 0x1_0000 {
      TwoBytes(v);
    } else if 0x1_0000 <= v < 0x100_0000 {
      ThreeBytes(v);
    }
  }

  lemma TwoBytes(v: nat)
    requires v < 0x1_0000
    ensures [252] + Bytes(v, 2) == [252, v % 256, v / 256]
  {
    assert Bytes(v / 256, 1) == [v / 256 % 256] && v / 256 % 256 == v / 256;
    assert Bytes(v, 2) == [v % 256] + Bytes(v / 256, 1);
  }

  lemma ThreeBytes(v: nat)
    requires v < 0x100_0000
    ensures [253] + Bytes(v, 3) == [253, v % 256, v / 256 % 256, v / 65536]
  {
    var (x, y) := (v / 256, v / 256 / 256);
    assert Bytes(y, 1) == [y % 256] && y % 256 == y == v / 65536;
    assert Bytes(x, 2) == [x % 256] + Bytes(y, 1);
    assert Bytes(v, 3) == [v % 256] + Bytes(x, 2);
  }

  /** The markers 251 and 255 stand for no number. */
  lemma NoNumber(d: seq<Byte>)
    requires d != [] && (d[0] == 251 || d[0] == 255)
    ensures LenencValue(d) == None
  {
  }

  /** What the decoder makes of the nine-byte form. */
  lemma WideDecodes(v: nat, suffix: seq<Byte>)
    requires 16777216 <= v < TWO_64
    ensures
      var r := LenencValue(LenencBytes(v) + suffix);
      r.Some? && r.value.0 == JoinWords(v % TWO_32, v / TWO_32) && r.value.1 == |LenencBytes(v)| == 9
  {
    var (e, n) := (LenencBytes(v), LenencSize(v));
    var (d, b) := (e + suffix, Bytes(v, n));
    Powers();
    ValueBytes(v, n);
    assert d[0] == e[0] && d[1..5] == b[..4] && d[5..9] == b[4..];
    Words(v, b);
  }

  /** Round trip with any suffix: the decoder takes exactly the encoder's bytes, and returns the number
      exactly when it is one of those that survive. */
  lemma LenencRoundTrip(v: nat, suffix: seq<Byte>)
    requires v < TWO_64
    ensures
      var r := LenencValue(LenencBytes(v) + suffix);
      r.Some? && r.value.1 == |LenencBytes(v)| && (r.value.0 == v <==> Survives(v))
  {
    if v >= 16777216 {
      WideDecodes(v, suffix);
      assert v == v / TWO_32 * TWO_32 + v % TWO_32;
    } else {
      var (e, n) := (LenencBytes(v), LenencSize(v));
      var d := e + suffix;
      Powers();
      assert d[0] == e[0];
      if v >= 251 {
        ValueBytes(v, n);
        assert d[1..1 + n] == Bytes(v, n);
      }
    }
  }

  /** The smallest number that does not survive: 2^31 comes back as 2^64 - 2^31. */
  lemma SignFills(v: nat, suffix: seq<Byte>)
    requires v == TWO_31
    ensures !Survives(v) && (forall u: nat :: u < v ==> Survives(u))
    ensures var r := LenencValue(LenencBytes(v) + suffix); r.Some? && r.value.0 == TWO_64 - TWO_31
  {
    WideDecodes(v, suffix);
  }

  // ----- encoders and decoders -----

  class Buffer {
    var data: seq<Byte>

    constructor ()
      ensures data == []
    {
      data := [];
    }

    method Append(b: Byte)
      modifies this
      ensures data == old(data) + [b]
    {
      data := data + [b];
    }

    method AppendIntLen(num: nat, size: nat)
      modifies this
      ensures data == old(data) + Bytes(num, size)
    {
      var n, i: nat := num, 0;
      while i < size
        invariant i <= size && old(data) + Bytes(num, size) == data + Bytes(n, size - i)
      {
        assert Bytes(n, size - i) == [n % 256] + Bytes(n / 256, size - i - 1);
        Append(n % 256);
        n := n / 256;
        i := i + 1;
      }
    }

    method AppendLenencInt(length: nat)
      requires length < TWO_64
      modifies this
      ensures data == old(data) + LenencBytes(length)
    {
      if length < 251 {
        Append(length);
      } else {
        var first, n := if length < 65536 then 252 else if length < 16777216 then 253 else 254, LenencSize(length);
        ghost var before := data;
        Append(first);
        AppendIntLen(length, n);
        assert data == before + ([first] + Bytes(length, n));
      }
    }
  }

  class Packet {
    const data: seq<Byte>
    var offset: nat

    constructor (bytes: seq<Byte>)
      ensures data == bytes && offset == 0
    {
      data, offset := bytes, 0;
    }

    /** What is still to be read; nothing once the offset is past the end. */
    function Rest(): seq<Byte>
      reads this
    {
      if offset <= |data| then data[offset..] else []
    }

    method GetLenencInt() returns (v: Option<nat>)
      modifies this
      ensures match LenencValue(old(Rest()))
              case None => v == None && offset == old(offset)
              case Some((n, size)) => v == Some(n) && offset == old(offset) + size
    {
      ghost var d := Rest();
      var off := offset;
      if off >= |data| { return None; }
      assert d == data[off..];
      var ret: nat := 0;
      if data[off] < 251 {
        ret := data[off];
      } else if data[off] == 252 {
        if off + 2 >= |data| { return None; }
        SliceOf(data, off, 1, 3);
        ret := Value(data[off + 1..off + 3]);
        off := off + 2;
      } else if data[off] == 253 {
        if off + 3 >= |data| { return None; }
        SliceOf(data, off, 1, 4);
        ret := Value(data[off + 1..off + 4]);
        off := off + 3;
      } else if data[off] == 254 {
        if off + 8 >= |data| { return None; }
        SliceOf(data, off, 1, 5);
        SliceOf(data, off, 5, 9);
        ret := JoinWords(Value(data[off + 1..off + 5]), Value(data[off + 5..off + 9]));
        off := off + 8;
      } else {
        return None;
      }
      off := off + 1;
      offset := off;
      v := Some(ret);
    }

    /** The word made of the `n` bytes at `at`, shifted into place one by one. */
    method Word(at: nat, n: nat) returns (w: nat)
      requires at + n <= |data|
      ensures w == Value(data[at..at + n])
    {
      ghost var d := data[at..at + n];
      var i: nat, unit: nat := 0, 1;
      w := 0;
      while i < n
        invariant i <= n && unit == Pow256(i) && w == Value(d[..i])
      {
        TakeOne(d, i);
        w := w + data[at + i] * unit;
        unit := unit * 256;
        i := i + 1;
      }
      assert d[..n] == d;
    }

    /** Reads `size` bytes without taking them: the first four make the low word, the others the high one. */
    method PeekIntLen(size: nat) returns (v: Option<nat>)
      requires size <= 8
      ensures v == if offset + size <= |data| then Some(Value(data[offset..offset + size])) else None
    {
      if offset > |data| { return None; }
      if offset + size > |data| { return None; }
      var n := if size < 4 then size else 4;
      var low := Word(offset, n);
      var high := Word(offset + n, size - n);
      v := Some(high * TWO_32 + low);
      assert data[offset..offset + size] == data[offset..offset + n] + data[offset + n..offset + size];
      TwoWords(data[offset..offset + n], data[offset + n..offset + size]);
    }

    method GetIntLen(size: nat) returns (v: Option<nat>)
      requires size <= 8
      modifies this
      ensures v == if old(offset) + size <= |data| then Some(Value(data[old(offset)..old(offset) + size])) else None
      ensures offset == if v.Some? then old(offset) + size else old(offset)
    {
      v := PeekIntLen(size);
      if v.Some? { offset := offset + size; }
    }
  }

  /** Four bytes are a full low word; fewer are all there is. */
  lemma TwoWords(a: seq<Byte>, b: seq<Byte>)
    requires |a| == 4 || (|a| < 4 && b == [])
    ensures Value(a + b) == Value(b) * TWO_32 + Value(a)
  {
    ValueConcat(a, b);
    Powers();
  }

  lemma SliceOf(d: seq<Byte>, off: nat, i: nat, j: nat)
    requires off + j <= |d| && i <= j
    ensures d[off..][i..j] == d[off + i..off + j]
  {
  }

  /** One more byte at the top. */
  lemma TakeOne(d: seq<Byte>, i: nat)
    requires i < |d|
    ensures Value(d[..i + 1]) == Value(d[..i]) + d[i] * Pow256(i) && Pow256(i + 1) == Pow256(i) * 256
  {
    assert d[..i + 1] == d[..i] + [d[i]];
    ValueConcat(d[..i], [d[i]]);
    assert Value([d[i]]) == d[i] by { assert [d[i]][1..] == []; }
  }

  /** Fixed sizes: what was appended is read back exactly when it fits, whatever follows. */
  lemma FixedRoundTrip(num: nat, size: nat, suffix: seq<Byte>)
    ensures
      var d := Bytes(num, size) + suffix;
      (Value(d[..size]) == num <==> num < Pow256(size)) && d[size..] == suffix
  {
    ValueBytes(num, size);
    assert (Bytes(num, size) + suffix)[..size] == Bytes(num, size);
  }
}
