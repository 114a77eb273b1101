/** Validation of BER-encoded ASN.1 data (src/network-asn1.c; identifier and length octets as in sections
    8.1.2 and 8.1.3 of ITU-T X.690). */
module Asn1 {
  import opened Common

  datatype Klass = Universal | Application | ContextSpecific | Private

  const SEQUENCE: int := 0x10

  datatype Error = Eof | Unsupported | Invalid

  /** The identifier and length octets at the start of the data, `size` octets in all. */
  datatype Header = Header(klass: Klass, constructed: bool, tag: nat, len: nat, size: nat)

  /** `Aborts`: the assertion on the number of length octets fails. */
  datatype Outcome<T> = Ok(value: T) | Err(error: Error) | Aborts

  function KlassOf(b: Byte): Klass {
    if b / 64 == 0 then Universal
    else if b / 64 == 1 then Application
    else if b / 64 == 2 then ContextSpecific
    else Private
  }

  /** A number in base 256, most significant octet first. */
  function BigEndian(bytes: seq<Byte>): (n: nat) {
    if bytes == [] then 0 else BigEndian(bytes[..|bytes| - 1]) * 256 + bytes[|bytes| - 1]
  }

  /** The length octets of `d`: the length and how many octets it takes. */
  function LengthOf(d: seq<Byte>): Outcome<(nat, nat)> {
    if d == [] then Err(Eof)
    else if d[0] < 128 then Ok((d[0], 1))
    else
      var n := d[0] - 128;
      if n == 0 then Err(Invalid)
      else if n > 8 then Err(Unsupported)
      else if n == 8 then Aborts
      else if |d| < 1 + n then Err(Eof)
      else Ok((BigEndian(d[1..1 + n]), 1 + n))
  }

  function HeaderOf(d: seq<Byte>): (h: Outcome<Header>)
    ensures h.Ok? ==> 2 <= h.value.size <= |d|
  {
    if d == [] then Err(Eof)
    else if d[0] % 32 == 31 then Err(Unsupported)
    else
      match LengthOf(d[1..])
      case Err(e) => Err(e)
      case Aborts => Aborts
      case Ok((len, n)) => Ok(Header(KlassOf(d[0]), d[0] / 32 % 2 == 1, d[0] % 32, len, 1 + n))
  }

  predicate IsSequence(h: Header) {
    h.klass == Universal && h.tag == SEQUENCE
  }

  predicate IsWrapper(h: Header) {
    h.klass == Application || h.klass == ContextSpecific
  }

  // ----- the encoding -----

  /** The two upper bits of the identifier octet. */
  function KlassBits(k: Klass): nat {
    match k
    case Universal => 0
    case Application => 1
    case ContextSpecific => 2
    case Private => 3
  }

  function Pow256(k: nat): nat {
    if k == 0 then 1 else 256 * Pow256(k - 1)
  }

  /** The last `k` digits of a number in base 256, the highest first. */
  function Digits(n: nat, k: nat): (r: seq<Byte>)
    ensures |r| == k
    decreases k
  {
    if k == 0 then [] else Digits(n / 256, k - 1) + [n % 256]
  }

  /** The header can be written with its length in the short form (`k == 0`), or in `k` further octets. */
  predicate Encodable(h: Header, k: nat) {
    h.tag < 31 && h.size == 2 + k && Fits(h.len, k)
  }

  predicate Fits(len: nat, k: nat) {
    if k == 0 then len < 128 else k < 8 && len < Pow256(k)
  }

  function IdOctet(klass: Klass, constructed: bool, tag: nat): Byte
    requires tag < 31
  {
    64 * KlassBits(klass) + (if constructed then 32 else 0) + tag
  }

  function LengthOctets(len: nat, k: nat): (r: seq<Byte>)
    requires Fits(len, k)
    ensures |r| == 1 + k
  {
    if k == 0 then [len] else [128 + k] + Digits(len, k)
  }

  /** Identifier and length octets, as sections 8.1.2.2 and 8.1.3 of X.690 lay them out. */
  function Encoded(h: Header, k: nat): (r: seq<Byte>)
    requires Encodable(h, k)
    ensures |r| == h.size
  {
    [IdOctet(h.klass, h.constructed, h.tag)] + LengthOctets(h.len, k)
  }

  /** `d` starts with the header `h`. */
  predicate Starts(h: Header, k: nat, d: seq<Byte>) {
    Encodable(h, k) && Encoded(h, k) <= d
  }

  /** Writing a number and reading it gives the number. */
  lemma {:induction false} DigitsValue(n: nat, k: nat)
    requires n < Pow256(k)
    ensures BigEndian(Digits(n, k)) == n
    decreases k
  {
    if k > 0 {
      DigitsValue(n / 256, k - 1);
      assert Digits(n, k)[..k - 1] == Digits(n / 256, k - 1);
    }
  }

  /** Reading octets and writing their number gives the octets. */
  lemma {:induction false} ValueDigits(bytes: seq<Byte>)
    ensures BigEndian(bytes) < Pow256(|bytes|) && Digits(BigEndian(bytes), |bytes|) == bytes
    decreases |bytes|
  {
    if bytes != [] {
      var k := |bytes| - 1;
      ValueDigits(bytes[..k]);
      assert bytes == bytes[..k] + [bytes[k]];
    }
  }

  lemma IdReads(klass: Klass, constructed: bool, tag: nat)
    requires tag < 31
    ensures
      var b := IdOctet(klass, constructed, tag);
      KlassOf(b) == klass && b / 32 % 2 == (if constructed then 1 else 0) && b % 32 == tag
  {
  }

  lemma IdWritten(b: Byte)
    requires b % 32 != 31
    ensures IdOctet(KlassOf(b), b / 32 % 2 == 1, b % 32) == b
  {
  }

  lemma LengthReads(len: nat, k: nat, rest: seq<Byte>)
    requires Fits(len, k)
    ensures LengthOf(LengthOctets(len, k) + rest) == Ok((len, 1 + k))
  {
    if k > 0 {
      assert (LengthOctets(len, k) + rest)[1..1 + k] == Digits(len, k);
      DigitsValue(len, k);
    }
  }

  lemma LengthWritten(t: seq<Byte>, len: nat, n: nat)
    requires LengthOf(t) == Ok((len, n))
    ensures n > 0 && Fits(len, n - 1) && n <= |t| && LengthOctets(len, n - 1) == t[..n]
  {
    if n > 1 { ValueDigits(t[1..n]); }
  }

  /** A header is read from its encoding, whatever follows. */
  lemma HeaderReads(h: Header, k: nat, rest: seq<Byte>)
    requires Encodable(h, k)
    ensures HeaderOf(Encoded(h, k) + rest) == Ok(h)
  {
    assert (Encoded(h, k) + rest)[1..] == LengthOctets(h.len, k) + rest;
    IdReads(h.klass, h.constructed, h.tag);
    LengthReads(h.len, k, rest);
  }

  /** What is read as a header is one of its encodings. */
  lemma HeaderWritten(d: seq<Byte>) returns (k: nat)
    requires HeaderOf(d).Ok?
    ensures Starts(HeaderOf(d).value, k, d)
  {
    var (h, t) := (HeaderOf(d).value, d[1..]);
    k := h.size - 2;
    IdWritten(d[0]);
    LengthWritten(t, h.len, h.size - 1);
    assert d[..h.size] == [d[0]] + t[..h.size - 1];
  }

  /** The reader finds a header exactly where one is written. */
  lemma HeaderIff(d: seq<Byte>, h: Header)
    ensures HeaderOf(d) == Ok(h) <==> exists k: nat :: Starts(h, k, d)
  {
    if HeaderOf(d) == Ok(h) { var k := HeaderWritten(d); }
    if k: nat :| Starts(h, k, d) {
      HeaderReads(h, k, d[h.size..]);
      assert d == Encoded(h, k) + d[h.size..];
    }
  }

  /** It asks for more exactly when the data are the beginning of an encoding and not yet all of it. */
  lemma HeaderShort(d: seq<Byte>)
    ensures HeaderOf(d) == Err(Eof) <==> exists h: Header, k: nat :: Encodable(h, k) && d < Encoded(h, k)
  {
    if h: Header, k: nat :| Encodable(h, k) && d < Encoded(h, k) {
      var whole := Encoded(h, k);
      assert d == whole[..|d|] && (|d| > 0 ==> d[0] == whole[0]) && (|d| > 1 ==> d[1] == whole[1]);
    }
    if HeaderOf(d) == Err(Eof) {
      var zeros: seq<Byte> := seq(7, _ => 0);
      var id: Byte := if d == [] then 0 else d[0];
      var whole := if |d| < 2 then [id, 0] else d + zeros[..d[1] - 128 - (|d| - 2)];
      var t := whole[1..];
      assert |d| >= 2 ==> t[0] == d[1] && d[1..][0] == d[1];
      var k := HeaderWritten(whole);
      var h := HeaderOf(whole).value;
      assert Encoded(h, k) == whole;
    }
  }

  /** Which data are rejected for good, and why: a high tag or more than eight length octets, no length octets, and
      eight of them. */
  lemma HeaderErrors(d: seq<Byte>)
    ensures HeaderOf(d) == Err(Unsupported) <==> d != [] && (d[0] % 32 == 31 || (|d| > 1 && d[1] > 136))
    ensures HeaderOf(d) == Err(Invalid) <==> |d| > 1 && d[0] % 32 != 31 && d[1] == 128
    ensures HeaderOf(d) == Aborts <==> |d| > 1 && d[0] % 32 != 31 && d[1] == 136
  {
    if |d| > 1 { assert d[1..][0] == d[1]; }
  }

  // ----- the grammar -----

  /** `d` is exactly one valid value: it starts with a header that announces what follows, and the content is a list
      of values (SEQUENCE), empty or one value (application and context-specific tags), or anything. */
  ghost predicate IsValue(d: seq<Byte>)
    decreases |d|, 0
  {
    exists h: Header, k: nat {:trigger Starts(h, k, d)} ::
      Starts(h, k, d) && |d| == h.size + h.len && IsContent(h, d[h.size..])
  }

  /** The same through the reader of headers. */
  lemma ValueHeader(d: seq<Byte>)
    ensures
      var h := HeaderOf(d);
      IsValue(d) <==> h.Ok? && |d| == h.value.size + h.value.len && IsContent(h.value, d[h.value.size..])
  {
    if HeaderOf(d).Ok? { var k := HeaderWritten(d); }
    if IsValue(d) {
      var h: Header, k: nat :| Starts(h, k, d) && |d| == h.size + h.len && IsContent(h, d[h.size..]);
      HeaderIff(d, h);
    }
  }

  ghost predicate IsContent(h: Header, c: seq<Byte>)
    decreases |c|, 3
  {
    if h.klass == Universal && h.tag == 16 then IsList(c)
    else if h.klass == Application || h.klass == ContextSpecific then c == [] || IsValue(c)
    else true
  }

  ghost predicate IsList(c: seq<Byte>)
    decreases |c|, 2
  {
    c == [] || exists k: nat {:trigger IsSize(k, c)} :: IsSize(k, c) && IsValue(c[..k]) && IsList(c[k..])
  }

  predicate IsSize(k: nat, c: seq<Byte>) {
    0 < k <= |c|
  }

  // ----- the validator's decisions -----

  /** What the validator says about data that starts with a value: the size of that value. */
  function Judge(d: seq<Byte>): (r: Outcome<nat>)
    ensures r.Ok? ==> 2 <= r.value <= |d|
    decreases |d|, 0
  {
    match HeaderOf(d)
    case Err(e) => Err(e)
    case Aborts => Aborts
    case Ok(h) =>
      if h.len > |d| - h.size then Err(Invalid)
      else
        var end := h.size + h.len;
        match JudgeContent(h, d[h.size..end])
        case Ok(_) => Ok(end)
        case Err(e) => Err(e)
        case Aborts => Aborts
  }

  function JudgeContent(h: Header, c: seq<Byte>): (r: Outcome<nat>)
    decreases |c|, 2
  {
    if IsSequence(h) then JudgeList(c)
    else if IsWrapper(h) && c != [] then
      var r := Judge(c);
      if r.Ok? && r.value < |c| then Err(Invalid) else r
    else Ok(0)
  }

  function JudgeList(c: seq<Byte>): (r: Outcome<nat>)
    decreases |c|, 1
  {
    if c == [] then Ok(0)
    else
      var r := Judge(c);
      if r.Ok? then JudgeList(c[r.value..]) else r
  }

  /** Only the header's octets decide what it says. */
  lemma HeaderPrefix(d: seq<Byte>, k: nat)
    requires k <= |d| && (HeaderOf(d[..k]).Ok? || (HeaderOf(d).Ok? && HeaderOf(d).value.size <= k))
    ensures HeaderOf(d) == HeaderOf(d[..k])
  {
    var e := d[..k];
    assert k > 0 && e[0] == d[0] && e[1..] == d[1..k];
    var (t, u) := (d[1..], e[1..]);
    assert |t| > 0 ==> t[0] == d[1];
    if |u| > 0 {
      assert forall j :: 0 <= j < |u| ==> u[j] == t[j];
      var n := (t[0] as int) - 128;
      if 1 <= n < 8 && |u| >= 1 + n { assert u[1..1 + n] == t[1..1 + n]; }
    }
  }

  /** The validator accepts exactly the data that start with a value of the grammar, and the size it
      reports is the size of that value. */
  lemma {:induction false} JudgeIff(d: seq<Byte>, k: nat)
    requires k <= |d|
    ensures Judge(d) == Ok(k) <==> IsValue(d[..k])
    decreases |d|, 0
  {
    var e := d[..k];
    var (h, he) := (HeaderOf(d), HeaderOf(e));
    ValueHeader(e);
    if h.Ok? && h.value.size + h.value.len == k {
      HeaderPrefix(d, k);
      var n := h.value.size;
      assert e[n..] == d[n..k];
      ContentIff(h.value, e[n..]);
    } else if he.Ok? && he.value.size + he.value.len == k {
      HeaderPrefix(d, k);
    }
  }

  lemma {:induction false} ContentIff(h: Header, c: seq<Byte>)
    ensures JudgeContent(h, c).Ok? <==> IsContent(h, c)
    decreases |c|, 2
  {
    if IsSequence(h) {
      ListIff(c);
    } else if IsWrapper(h) && c != [] {
      JudgeIff(c, |c|);
      assert c[..|c|] == c;
    }
  }

  lemma {:induction false} ListIff(c: seq<Byte>)
    ensures JudgeList(c).Ok? <==> IsList(c)
    decreases |c|, 1
  {
    if c != [] {
      var r := Judge(c);
      if r.Ok? {
        JudgeIff(c, r.value);
        ListIff(c[r.value..]);
        if JudgeList(c).Ok? { assert IsSize(r.value, c); }
      }
      if IsList(c) {
        var k: nat :| IsSize(k, c) && IsValue(c[..k]) && IsList(c[k..]);
        JudgeIff(c, k);
      }
    }
  }

  // ----- the packet reader -----

  class Packet {
    const data: seq<Byte>
    var offset: nat

    constructor (bytes: seq<Byte>)
      ensures data == bytes && offset == 0
    {
      data, offset := bytes, 0;
    }

    ghost predicate Valid()
      reads this
    {
      offset <= |data|
    }

    /** What is still to be read. */
    ghost function Rest(): seq<Byte>
      reads this
      requires Valid()
    {
      data[offset..]
    }

    predicate HasMore(n: nat)
      reads this
    {
      offset + n <= |data|
    }

    method GetData(n: nat) returns (bytes: Outcome<seq<Byte>>)
      requires Valid()
      modifies this
      ensures Valid()
      ensures n <= old(|data| - offset) ==> bytes == Ok(old(Rest())[..n]) && offset == old(offset) + n
      ensures n > old(|data| - offset) ==> bytes == Err(Eof) && offset == old(offset)
    {
      if !HasMore(n) { return Err(Eof); }
      bytes := Ok(data[offset..offset + n]);
      assert data[offset..][..n] == data[offset..offset + n];
      offset := offset + n;
    }

    method GetLength() returns (len: Outcome<nat>)
      requires Valid()
      modifies this
      ensures Valid()
      ensures match LengthOf(old(Rest()))
              case Ok((l, n)) => len == Ok(l) && offset == old(offset) + n
              case Err(e) => len == Err(e)
              case Aborts => len == Aborts
    {
      ghost var rest := Rest();
      var b := GetData(1);
      if b.Err? { return Err(b.error); }
      var first: int := b.value[0];
      if first < 128 { return Ok(first); }
      var n := first - 128;
      if n == 0 { return Err(Invalid); }
      if n > 8 { return Err(Unsupported); }
      if n >= 8 { return Aborts; }
      assert Rest() == rest[1..];
      var octets := GetData(n);
      if octets.Err? { return Err(octets.error); }
      assert octets.value == rest[1..1 + n];
      var l: nat, i: nat := 0, 0;
      while i < n
        invariant 0 <= i <= n && l == BigEndian(octets.value[..i])
      {
        l := l * 256 + octets.value[i];
        i := i + 1;
        assert octets.value[..i][..i - 1] == octets.value[..i - 1];
      }
      assert octets.value[..n] == octets.value;
      len := Ok(l);
    }

    method GetHeader() returns (h: Outcome<Header>)
      requires Valid()
      modifies this
      ensures Valid()
      ensures h == HeaderOf(old(Rest()))
      ensures h.Ok? ==> offset == old(offset) + h.value.size
    {
      ghost var rest := Rest();
      var start := offset;
      var b := GetData(1);
      if b.Err? { return Err(b.error); }
      var id: Byte := b.value[0];
      if id % 32 == 31 { return Err(Unsupported); }
      assert Rest() == rest[1..];
      var len := GetLength();
      if len.Err? { return Err(len.error); }
      if len.Aborts? { return Aborts; }
      h := Ok(Header(KlassOf(id), id / 32 % 2 == 1, id % 32, len.value, offset - start));
    }
  }

  // ----- the validator -----

  datatype Verdict = Valid | NotValid(error: Error) | Aborted

  /** The validator's answer for a judgement. */
  function Answer<T>(r: Outcome<T>): Verdict {
    match r
    case Ok(_) => Valid
    case Err(e) => NotValid(e)
    case Aborts => Aborted
  }

  /** Parses the value that the next `len` octets start with, in a packet of their own; `n` is its size. */
  method IsValidNested(p: Packet, len: nat) returns (v: Verdict, n: nat)
    requires p.offset + len <= |p.data| && len > 0
    ensures v == Answer(Judge(p.data[p.offset..p.offset + len]))
    ensures v.Valid? ==> Judge(p.data[p.offset..p.offset + len]) == Ok(n)
    decreases len, 1
  {
    var sub := new Packet(p.data[p.offset..p.offset + len]);
    assert sub.Rest() == p.data[p.offset..p.offset + len];
    v := IsValidInternal(sub);
    n := sub.offset;
  }

  /** The content of a value, `len` octets that are all there. */
  method IsValidContent(p: Packet, h: Header) returns (v: Verdict)
    requires p.offset + h.len <= |p.data|
    modifies p
    ensures v == Answer(JudgeContent(h, old(p.data[p.offset..p.offset + h.len])))
    ensures p.Valid() && (v.Valid? ==> p.offset == old(p.offset) + h.len)
    decreases h.len, 2
  {
    var len: nat := h.len;
    var end: nat := p.offset + len;
    ghost var c := p.data[p.offset..end];
    while len > 0
      invariant p.offset + len == end <= |p.data|
      invariant IsSequence(h) ==> JudgeList(c) == JudgeList(p.data[p.offset..end])
      invariant !IsSequence(h) ==> (len == h.len || (len == 0 && JudgeContent(h, c).Ok?))
      decreases len
    {
      ghost var left := p.data[p.offset..end];
      if IsWrapper(h) || IsSequence(h) {
        assert !IsSequence(h) ==> left == c;
        var n;
        v, n := IsValidNested(p, len);
        if !v.Valid? { return v; }
        p.offset := p.offset + n;
        len := len - n;
        assert left[n..] == p.data[p.offset..end];
        if !IsSequence(h) && len != 0 { return NotValid(Invalid); }
      } else {
        p.offset := p.offset + len;
        len := 0;
      }
    }
    assert p.data[p.offset..end] == [];
    assert h.len == 0 ==> c == [];
    v := Valid;
  }

  /** Parses one value, and its nested values through packets of their own. */
  method IsValidInternal(p: Packet) returns (v: Verdict)
    requires p.Valid()
    modifies p
    ensures p.Valid() && v == Answer(Judge(old(p.Rest())))
    ensures v.Valid? ==> p.offset == old(p.offset) + Judge(old(p.Rest())).value
    decreases |p.data| - p.offset, 0
  {
    ghost var rest := p.Rest();
    var header := p.GetHeader();
    if header.Err? { return NotValid(header.error); }
    if header.Aborts? { return Aborted; }
    var h := header.value;
    if !p.HasMore(h.len) { return NotValid(Invalid); }
    assert p.data[p.offset..p.offset + h.len] == rest[h.size..h.size + h.len];
    v := IsValidContent(p, h);
  }

  /** Whether the rest of the packet starts with a valid value; nothing is consumed. */
  method IsValid(p: Packet) returns (v: Verdict)
    requires p.Valid()
    modifies p
    ensures p.offset == old(p.offset)
    ensures v.Valid? <==> exists k: nat :: k <= |old(p.Rest())| && IsValue(old(p.Rest())[..k])
  {
    var oldOffset := p.offset;
    ghost var rest := p.Rest();
    v := IsValidInternal(p);
    p.offset := oldOffset;
    if v.Valid? {
      JudgeIff(rest, Judge(rest).value);
    } else {
      forall k: nat | k <= |rest|
        ensures !IsValue(rest[..k])
      {
        JudgeIff(rest, k);
      }
    }
  }
}
