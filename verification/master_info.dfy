/** The `master.info` file of a replication slave: one field per line, numbers in decimal
    (src/network-mysqld-masterinfo.c:68-183). */
module MasterInfo {
  import opened Common

  type Text = seq<char>

  const TWO_32: nat := 0x1_0000_0000
  const ULONG_MAX: nat := 0xFFFF_FFFF_FFFF_FFFF

  // ----- numbers -----

  function DigitChar(d: nat): char
    requires d < 10
  {
    '0' + d as char
  }

  /** `printf` of an unsigned number. */
  function Decimal(n: nat): (t: Text)
    ensures t != []
  {
    if n < 10 then [DigitChar(n)] else Decimal(n / 10) + [DigitChar(n % 10)]
  }

  predicate IsSpace(c: char) {
    c == ' ' || '\t' <= c <= '\r'
  }

  /** The value of a digit in any base up to 16; 16 for every other character. */
  function DigitValue(c: char): nat {
    if '0' <= c <= '9' then (c - '0') as int
    else if 'a' <= c <= 'f' then (c - 'a') as int + 10
    else if 'A' <= c <= 'F' then (c - 'A') as int + 10
    else 16
  }

  predicate IsDigit(c: char, base: nat) {
    DigitValue(c) < base
  }

  function SkipSpaces(t: Text): (i: nat)
    ensures i <= |t|
    ensures forall k :: 0 <= k < i ==> IsSpace(t[k])
  {
    if t != [] && IsSpace(t[0]) then 1 + SkipSpaces(t[1..]) else 0
  }

  function DigitRun(t: Text, base: nat): (n: nat)
    ensures n <= |t|
    ensures forall i :: 0 <= i < n ==> IsDigit(t[i], base)
    ensures n < |t| ==> !IsDigit(t[n], base)
  {
    if t != [] && IsDigit(t[0], base) then 1 + DigitRun(t[1..], base) else 0
  }

  /** A number moved up by one digit; the bases are 8, 10 and 16. */
  function Shifted(v: nat, base: nat): nat {
    if base == 16 then v * 16 else if base == 8 then v * 8 else v * 10
  }

  function Number(digits: Text, base: nat): nat {
    if digits == [] then 0 else Shifted(Number(digits[..|digits| - 1], base), base) + DigitValue(digits[|digits| - 1])
  }

  /** Base 0 of `strtoul`: the prefix tells the base; what follows it are the digits. */
  function BaseOf(t: Text): (r: (nat, nat))
    ensures r.1 <= |t|
  {
    if |t| >= 3 && t[0] == '0' && (t[1] == 'x' || t[1] == 'X') && IsDigit(t[2], 16) then (16, 2)
    else if |t| >= 1 && t[0] == '0' then (8, 0)
    else (10, 0)
  }

  /** The number at the start of `t`, without a sign, and how many characters it takes. */
  function Unsigned(t: Text): (r: (nat, nat))
    ensures r.1 <= |t|
  {
    var (base, skip) := BaseOf(t);
    var n := DigitRun(t[skip..], base);
    if n == 0 then (0, 0) else (Number(t[skip..skip + n], base), skip + n)
  }

  /** Too large numbers saturate, others are negated in 64 bits. */
  function Signed(v: nat, negative: bool): nat {
    if v > ULONG_MAX then ULONG_MAX else if negative && v > 0 then ULONG_MAX + 1 - v else v
  }

  predicate IsSign(c: char) {
    c == '-' || c == '+'
  }

  /** The same with a sign. */
  function SignedNumber(t: Text): (r: (nat, nat))
    ensures r.1 <= |t|
  {
    if t != [] && IsSign(t[0]) then
      var (v, n) := Unsigned(t[1..]);
      if n == 0 then (0, 0) else (Signed(v, t[0] == '-'), 1 + n)
    else
      var (v, n) := Unsigned(t);
      (Signed(v, false), n)
  }

  /** `strtoul` in base 0: the value, and how many characters it has used (none when there is no number). */
  function StrToUL(t: Text): (r: (nat, nat))
    ensures r.1 <= |t|
  {
    var i := SkipSpaces(t);
    var (v, n) := SignedNumber(t[i..]);
    if n == 0 then (0, 0) else (v, i + n)
  }

  /** A line as a C string ends at its first NUL. */
  function CString(t: Text): (r: Text)
    ensures |r| <= |t|
  {
    if t == [] || t[0] == '\0' then [] else [t[0]] + CString(t[1..])
  }

  /** The number on a line, cut to 32 bits; nothing may follow it. */
  function NumberOn(line: Text): Option<nat> {
    var t := CString(line);
    var (v, used) := StrToUL(t);
    if used == |t| then Some(v % TWO_32) else None
  }

  // ----- which lines are numbers -----

  /** The parts of a numeral: white space, a sign, the prefix of base 16, and digits. */
  datatype Numeral = Numeral(spaces: Text, sign: Text, prefix: Text, digits: Text)

  function Spelled(m: Numeral): Text {
    m.spaces + (m.sign + (m.prefix + m.digits))
  }

  function BaseFor(prefix: Text, digits: Text): nat
    requires digits != []
  {
    if prefix != [] then 16 else if digits[0] == '0' then 8 else 10
  }

  predicate AllSpaces(t: Text) {
    forall k :: 0 <= k < |t| ==> IsSpace(t[k])
  }

  predicate AllDigits(t: Text, base: nat) {
    forall k :: 0 <= k < |t| ==> IsDigit(t[k], base)
  }

  predicate IsBody(prefix: Text, digits: Text) {
    && (prefix == [] || prefix == ['0', 'x'] || prefix == ['0', 'X'])
    && digits != [] && AllDigits(digits, BaseFor(prefix, digits))
  }

  predicate IsNumeral(m: Numeral) {
    AllSpaces(m.spaces) && (m.sign == [] || m.sign == ['+'] || m.sign == ['-']) && IsBody(m.prefix, m.digits)
  }

  /** The number it stands for, as `strtoul` gives it. */
  function Means(m: Numeral): nat
    requires m.digits != []
  {
    Signed(Number(m.digits, BaseFor(m.prefix, m.digits)), m.sign == ['-'])
  }

  lemma {:induction false} SkipAll(spaces: Text, rest: Text)
    requires AllSpaces(spaces) && rest != [] && !IsSpace(rest[0])
    ensures SkipSpaces(spaces + rest) == |spaces|
    decreases |spaces|
  {
    if spaces == [] {
      assert spaces + rest == rest;
    } else {
      assert (spaces + rest)[1..] == spaces[1..] + rest;
      SkipAll(spaces[1..], rest);
    }
  }

  lemma {:induction false} RunAll(digits: Text, base: nat)
    requires AllDigits(digits, base)
    ensures DigitRun(digits, base) == |digits|
    decreases |digits|
  {
    if digits != [] { RunAll(digits[1..], base); }
  }

  lemma UnsignedReads(prefix: Text, digits: Text)
    requires IsBody(prefix, digits)
    ensures Unsigned(prefix + digits) == (Number(digits, BaseFor(prefix, digits)), |prefix + digits|)
  {
    var t := prefix + digits;
    assert IsDigit(digits[0], BaseFor(prefix, digits));
    assert BaseOf(t) == (BaseFor(prefix, digits), |prefix|);
    assert t[|prefix|..] == digits == t[|prefix|..|t|];
    RunAll(digits, BaseFor(prefix, digits));
  }

  lemma SignedReads(sign: Text, body: Text, v: nat)
    requires sign == [] || sign == ['+'] || sign == ['-']
    requires body != [] && !IsSign(body[0]) && Unsigned(body) == (v, |body|)
    ensures SignedNumber(sign + body) == (Signed(v, sign == ['-']), |sign + body|)
  {
    if sign == [] { assert sign + body == body; } else { assert (sign + body)[1..] == body; }
  }

  lemma SpacedReads(spaces: Text, rest: Text, v: nat)
    requires AllSpaces(spaces) && rest != [] && !IsSpace(rest[0]) && SignedNumber(rest) == (v, |rest|)
    ensures StrToUL(spaces + rest) == (v, |spaces + rest|)
  {
    SkipAll(spaces, rest);
    assert (spaces + rest)[|spaces|..] == rest;
  }

  /** A numeral is read to its end, as the number it stands for. */
  lemma NumeralReads(m: Numeral)
    requires IsNumeral(m)
    ensures StrToUL(Spelled(m)) == (Means(m), |Spelled(m)|)
  {
    var (body, v) := (m.prefix + m.digits, Number(m.digits, BaseFor(m.prefix, m.digits)));
    assert IsDigit(m.digits[0], BaseFor(m.prefix, m.digits));
    UnsignedReads(m.prefix, m.digits);
    SignedReads(m.sign, body, v);
    SpacedReads(m.spaces, m.sign + body, Means(m));
  }

  lemma UnsignedIs(t: Text) returns (prefix: Text, digits: Text)
    requires t != [] && Unsigned(t).1 == |t|
    ensures prefix + digits == t && IsBody(prefix, digits)
  {
    var (base, skip) := BaseOf(t);
    prefix, digits := t[..skip], t[skip..];
    assert DigitRun(digits, base) == |digits| > 0;
    assert base == BaseFor(prefix, digits);
  }

  lemma SignedIs(t: Text) returns (sign: Text, prefix: Text, digits: Text)
    requires t != [] && SignedNumber(t).1 == |t|
    ensures sign + (prefix + digits) == t && IsBody(prefix, digits)
    ensures sign == [] || sign == ['+'] || sign == ['-']
  {
    if IsSign(t[0]) {
      prefix, digits := UnsignedIs(t[1..]);
      sign := [t[0]];
    } else {
      prefix, digits := UnsignedIs(t);
      sign := [];
    }
  }

  /** Text that is read to its end is a numeral. */
  lemma ReadIsNumeral(t: Text) returns (m: Numeral)
    requires t != [] && StrToUL(t).1 == |t|
    ensures IsNumeral(m) && Spelled(m) == t
  {
    var i := SkipSpaces(t);
    assert AllSpaces(t[..i]) && t == t[..i] + t[i..];
    var sign, prefix, digits := SignedIs(t[i..]);
    m := Numeral(t[..i], sign, prefix, digits);
  }

  /** A line is accepted exactly when it is empty, or a numeral with nothing before or behind it but white space in
      front; what follows a NUL does not count. */
  lemma NumberLines(line: Text)
    ensures NumberOn(line).Some? <==>
      CString(line) == [] || exists m: Numeral :: IsNumeral(m) && Spelled(m) == CString(line)
  {
    var t := CString(line);
    if NumberOn(line).Some? && t != [] { var m := ReadIsNumeral(t); }
    if m: Numeral :| IsNumeral(m) && Spelled(m) == t { NumeralReads(m); }
  }

  /** The 32 bits that are read from a numeral on a line. */
  lemma NumberRead(line: Text, m: Numeral)
    requires IsNumeral(m) && Spelled(m) == CString(line)
    ensures NumberOn(line) == Some(Means(m) % TWO_32)
  {
    NumeralReads(m);
  }

  predicate Decimals(t: Text) {
    forall i {:trigger t[i]} :: 0 <= i < |t| ==> '0' <= t[i] <= '9'
  }

  lemma {:induction false} DecimalDigits(n: nat)
    ensures Decimals(Decimal(n)) && Number(Decimal(n), 10) == n
    ensures n > 0 ==> Decimal(n)[0] != '0'
    decreases n
  {
    var t := Decimal(n);
    if n < 10 {
      assert t[..0] == [] && Number(t[..0], 10) == 0;
    } else {
      DecimalDigits(n / 10);
      assert t[..|t| - 1] == Decimal(n / 10);
    }
  }

  lemma {:induction false} CStringOfDecimals(t: Text)
    requires Decimals(t)
    ensures CString(t) == t
    decreases |t|
  {
    if t != [] {
      assert Decimals(t[1..]);
      CStringOfDecimals(t[1..]);
    }
  }

  lemma Small(n: nat)
    requires n < TWO_32
    ensures n % TWO_32 == n
  {
  }

  lemma DecimalBody(n: nat)
    requires n <= ULONG_MAX
    ensures
      var m := Numeral([], [], [], Decimal(n));
      IsNumeral(m) && Spelled(m) == Decimal(n) && Means(m) == n
  {
    var t := Decimal(n);
    DecimalDigits(n);
    if n == 0 {
      assert t == ['0'] && t[..0] == [] && Number(t[..0], 8) == 0;
    } else {
      TenDigits(t);
    }
  }

  lemma TenDigits(t: Text)
    requires Decimals(t)
    ensures AllDigits(t, 10)
  {
  }

  /** What was printed in decimal is read back by the parser that guesses the base. */
  lemma PrintedNumber(n: nat)
    requires n < TWO_32
    ensures NumberOn(Decimal(n)) == Some(n)
  {
    DecimalDigits(n);
    CStringOfDecimals(Decimal(n));
    DecimalBody(n);
    NumberRead(Decimal(n), Numeral([], [], [], Decimal(n)));
    Small(n);
  }

  // ----- lines -----

  /** The text up to the next newline, and what follows the newline. */
  function TakeLine(d: Text): (r: Option<(Text, Text)>)
    ensures r.Some? ==> |r.value.0| + 1 + |r.value.1| == |d|
  {
    if d == [] then None
    else if d[0] == '\n' then Some(([], d[1..]))
    else
      var (line, rest) :- TakeLine(d[1..]);
      Some(([d[0]] + line, rest))
  }

  /** How the number on a line is read. */
  type Parser = Text -> Option<nat>

  function TakeNumber(num: Parser, d: Text): (r: Option<(nat, Text)>)
    ensures r.Some? ==> |r.value.1| < |d|
  {
    var (line, rest) :- TakeLine(d);
    var n :- num(line);
    Some((n, rest))
  }

  /** The parser understands what is printed. */
  ghost predicate Understands(num: Parser) {
    forall n: nat {:trigger Decimal(n)} :: n < TWO_32 ==> num(Decimal(n)) == Some(n)
  }

  predicate OneLine(t: Text) {
    '\n' !in t
  }

  lemma {:induction false} TakeLineOf(t: Text, rest: Text)
    requires OneLine(t)
    ensures TakeLine(t + ['\n'] + rest) == Some((t, rest))
    decreases |t|
  {
    var d := t + ['\n'] + rest;
    if t == [] {
      assert d[1..] == rest;
    } else {
      assert t[0] in t && (forall c :: c in t[1..] ==> c in t);
      TakeLineOf(t[1..], rest);
      assert d[1..] == t[1..] + ['\n'] + rest;
      assert t == [t[0]] + t[1..];
    }
  }

  lemma TakeNumberOf(num: Parser, n: nat, rest: Text)
    requires Understands(num) && n < TWO_32
    ensures TakeNumber(num, Decimal(n) + ['\n'] + rest) == Some((n, rest))
  {
    DecimalDigits(n);
    TakeLineOf(Decimal(n), rest);
  }

  // ----- the record -----

  datatype Info = Info(
    lines: nat, logFile: Text, logPos: nat, host: Text, user: Text, password: Text, port: nat, connectRetry: nat,
    ssl: nat, sslCa: Text, sslCapath: Text, sslCert: Text, sslCipher: Text, sslKey: Text, verifyCert: nat)

  /** Records the program can hold whose strings fit on a line. */
  predicate Printable(i: Info) {
    && i.lines < TWO_32 && i.logPos < TWO_32 && i.port < TWO_32 && i.connectRetry < TWO_32 && i.ssl < TWO_32 &&
      i.verifyCert < TWO_32
    && OneLine(i.logFile) && OneLine(i.host) && OneLine(i.user) && OneLine(i.password)
    && OneLine(i.sslCa) && OneLine(i.sslCapath) && OneLine(i.sslCert) && OneLine(i.sslCipher) && OneLine(i.sslKey)
  }

  function Line(t: Text): Text {
    t + ['\n']
  }

  function NumberLine(n: nat): Text {
    Decimal(n) + ['\n']
  }

  /** The lines of a record; the last one only from 15 lines on. */
  function Lines(i: Info): seq<Text> {
    MasterLines(i) + SslLines(i)
  }

  function MasterLines(i: Info): seq<Text> {
    [NumberLine(i.lines), Line(i.logFile), NumberLine(i.logPos), Line(i.host), Line(i.user), Line(i.password),
     NumberLine(i.port), NumberLine(i.connectRetry), NumberLine(i.ssl)]
  }

  function SslLines(i: Info): seq<Text> {
    [Line(i.sslCa), Line(i.sslCapath), Line(i.sslCert), Line(i.sslCipher), Line(i.sslKey)]
    + if i.lines >= 15 then [NumberLine(i.verifyCert)] else []
  }

  function Flat(ls: seq<Text>): Text {
    if ls == [] then [] else ls[0] + Flat(ls[1..])
  }

  function Printed(i: Info): Text {
    Flat(Lines(i))
  }

  /** Reads a record into `before`; the last field keeps its value when the record has fewer than 15 lines. */
  function Read(num: Parser, d: Text, before: Info): Option<(Info, Text)> {
    var (i, rest) :- ReadMaster(num, d, before);
    ReadSsl(num, rest, i)
  }

  function ReadMaster(num: Parser, d: Text, before: Info): Option<(Info, Text)> {
    var (lines, d1) :- TakeNumber(num, d);
    var (logFile, d2) :- TakeLine(d1);
    var (logPos, d3) :- TakeNumber(num, d2);
    var (host, d4) :- TakeLine(d3);
    var (user, d5) :- TakeLine(d4);
    var (password, d6) :- TakeLine(d5);
    var (port, d7) :- TakeNumber(num, d6);
    var (connectRetry, d8) :- TakeNumber(num, d7);
    var (ssl, d9) :- TakeNumber(num, d8);
    Some((before.(lines := lines, logFile := logFile, logPos := logPos, host := host, user := user,
                  password := password, port := port, connectRetry := connectRetry, ssl := ssl), d9))
  }

  function ReadSsl(num: Parser, d: Text, before: Info): Option<(Info, Text)> {
    var (sslCa, d1) :- TakeLine(d);
    var (sslCapath, d2) :- TakeLine(d1);
    var (sslCert, d3) :- TakeLine(d2);
    var (sslCipher, d4) :- TakeLine(d3);
    var (sslKey, d5) :- TakeLine(d4);
    var (verifyCert, d6) :- if before.lines >= 15 then TakeNumber(num, d5) else Some((before.verifyCert, d5));
    Some((before.(sslCa := sslCa, sslCapath := sslCapath, sslCert := sslCert, sslCipher := sslCipher,
                  sslKey := sslKey, verifyCert := verifyCert), d6))
  }

  lemma {:induction false} FlatAppend(ls: seq<Text>, x: Text)
    ensures Flat(ls + [x]) == Flat(ls) + x
    decreases |ls|
  {
    if ls == [] {
      assert ls + [x] == [x] && [x][1..] == [];
    } else {
      assert (ls + [x])[1..] == ls[1..] + [x];
      FlatAppend(ls[1..], x);
    }
  }

  /** `ds[k]` is the text from line `k` on. */
  predicate Chained(ls: seq<Text>, ds: seq<Text>, k: nat)
    requires k < |ls| && |ds| == |ls| + 1
  {
    ds[k] == ls[k] + ds[k + 1]
  }

  lemma {:induction false} Split(ls: seq<Text>, suffix: Text) returns (ds: seq<Text>)
    ensures |ds| == |ls| + 1 && ds[0] == Flat(ls) + suffix && ds[|ls|] == suffix
    ensures forall k {:trigger Chained(ls, ds, k)} :: 0 <= k < |ls| ==> Chained(ls, ds, k)
    decreases |ls|
  {
    if ls == [] {
      ds := [suffix];
    } else {
      var more := Split(ls[1..], suffix);
      ds := [Flat(ls) + suffix] + more;
      forall k | 0 <= k < |ls|
        ensures Chained(ls, ds, k)
      {
        if k > 0 { assert Chained(ls[1..], more, k - 1); }
      }
    }
  }

  lemma NextLine(ls: seq<Text>, ds: seq<Text>, k: nat, t: Text)
    requires k < |ls| && |ds| == |ls| + 1 && Chained(ls, ds, k) && ls[k] == Line(t) && OneLine(t)
    ensures TakeLine(ds[k]) == Some((t, ds[k + 1]))
  {
    TakeLineOf(t, ds[k + 1]);
  }

  lemma NextNumber(num: Parser, ls: seq<Text>, ds: seq<Text>, k: nat, n: nat)
    requires k < |ls| && |ds| == |ls| + 1 && Chained(ls, ds, k) && ls[k] == NumberLine(n) && n < TWO_32 &&
      Understands(num)
    ensures TakeNumber(num, ds[k]) == Some((n, ds[k + 1]))
  {
    TakeNumberOf(num, n, ds[k + 1]);
  }

  /** The first nine fields of a record, and the text behind them. */
  predicate FirstFields(num: Parser, ds: seq<Text>, i: Info)
    requires |ds| >= 15
  {
    NameFields(num, ds, i) && PortFields(num, ds, i)
  }

  predicate NameFields(num: Parser, ds: seq<Text>, i: Info)
    requires |ds| >= 15
  {
    && TakeNumber(num, ds[0]) == Some((i.lines, ds[1])) && TakeLine(ds[1]) == Some((i.logFile, ds[2]))
    && TakeNumber(num, ds[2]) == Some((i.logPos, ds[3])) && TakeLine(ds[3]) == Some((i.host, ds[4]))
  }

  predicate PortFields(num: Parser, ds: seq<Text>, i: Info)
    requires |ds| >= 15
  {
    && TakeLine(ds[4]) == Some((i.user, ds[5])) && TakeLine(ds[5]) == Some((i.password, ds[6]))
    && TakeNumber(num, ds[6]) == Some((i.port, ds[7])) && TakeNumber(num, ds[7]) == Some((i.connectRetry, ds[8]))
    && TakeNumber(num, ds[8]) == Some((i.ssl, ds[9]))
  }

  predicate LastFields(ds: seq<Text>, i: Info)
    requires |ds| >= 15
  {
    && TakeLine(ds[9]) == Some((i.sslCa, ds[10])) && TakeLine(ds[10]) == Some((i.sslCapath, ds[11]))
    && TakeLine(ds[11]) == Some((i.sslCert, ds[12])) && TakeLine(ds[12]) == Some((i.sslCipher, ds[13]))
    && TakeLine(ds[13]) == Some((i.sslKey, ds[14]))
  }

  /** A record as it is read back: the certificate field is printed, and read, only from 15 lines on. */
  function Kept(i: Info, before: Info): Info {
    if i.lines >= 15 then i else i.(verifyCert := before.verifyCert)
  }

  lemma ReadIs(num: Parser, ds: seq<Text>, i: Info, before: Info, rest: Text)
    requires |ds| >= 15 && FirstFields(num, ds, i) && LastFields(ds, i)
    requires i.lines >= 15 ==> TakeNumber(num, ds[14]) == Some((i.verifyCert, rest))
    requires i.lines < 15 ==> ds[14] == rest
    ensures Read(num, ds[0], before) == Some((Kept(i, before), rest))
  {
  }

  /** `ls` are lines, and `ds` the texts from each line on. */
  predicate Texts(ls: seq<Text>, ds: seq<Text>) {
    |ds| == |ls| + 1 && forall k {:trigger Chained(ls, ds, k)} :: 0 <= k < |ls| ==> Chained(ls, ds, k)
  }

  predicate FirstLines(ls: seq<Text>, i: Info) {
    |ls| >= 14 && ls[0] == NumberLine(i.lines) && ls[1] == Line(i.logFile) && ls[2] == NumberLine(i.logPos) &&
    ls[3] == Line(i.host) && ls[4] == Line(i.user) && ls[5] == Line(i.password) && ls[6] == NumberLine(i.port) &&
    ls[7] == NumberLine(i.connectRetry) && ls[8] == NumberLine(i.ssl)
  }

  predicate LastLines(ls: seq<Text>, i: Info) {
    |ls| >= 14 && ls[9] == Line(i.sslCa) && ls[10] == Line(i.sslCapath) && ls[11] == Line(i.sslCert) &&
    ls[12] == Line(i.sslCipher) && ls[13] == Line(i.sslKey) &&
      (i.lines >= 15 ==> |ls| == 15 && ls[14] == NumberLine(i.verifyCert))
  }

  lemma LinesAre(i: Info)
    ensures FirstLines(Lines(i), i) && LastLines(Lines(i), i)
  {
  }

  lemma ReadsNames(num: Parser, ls: seq<Text>, i: Info, ds: seq<Text>)
    requires Understands(num) && Printable(i) && FirstLines(ls, i) && Texts(ls, ds)
    ensures NameFields(num, ds, i)
  {
    NextNumber(num, ls, ds, 0, i.lines);
    NextLine(ls, ds, 1, i.logFile);
    NextNumber(num, ls, ds, 2, i.logPos);
    NextLine(ls, ds, 3, i.host);
  }

  lemma ReadsPorts(num: Parser, ls: seq<Text>, i: Info, ds: seq<Text>)
    requires Understands(num) && Printable(i) && FirstLines(ls, i) && Texts(ls, ds)
    ensures PortFields(num, ds, i)
  {
    NextLine(ls, ds, 4, i.user);
    NextLine(ls, ds, 5, i.password);
    NextNumber(num, ls, ds, 6, i.port);
    NextNumber(num, ls, ds, 7, i.connectRetry);
    NextNumber(num, ls, ds, 8, i.ssl);
  }

  lemma ReadsLast(num: Parser, ls: seq<Text>, i: Info, ds: seq<Text>)
    requires Understands(num) && Printable(i) && LastLines(ls, i) && Texts(ls, ds)
    ensures LastFields(ds, i)
    ensures i.lines >= 15 ==> |ds| == 16 && TakeNumber(num, ds[14]) == Some((i.verifyCert, ds[15]))
  {
    NextLine(ls, ds, 9, i.sslCa);
    NextLine(ls, ds, 10, i.sslCapath);
    NextLine(ls, ds, 11, i.sslCert);
    NextLine(ls, ds, 12, i.sslCipher);
    NextLine(ls, ds, 13, i.sslKey);
    if i.lines >= 15 { NextNumber(num, ls, ds, 14, i.verifyCert); }
  }

  lemma ReadsAll(num: Parser, ls: seq<Text>, i: Info, ds: seq<Text>)
    requires Understands(num) && Printable(i) && FirstLines(ls, i) && LastLines(ls, i) && Texts(ls, ds)
    ensures FirstFields(num, ds, i) && LastFields(ds, i)
    ensures i.lines >= 15 ==> |ds| == 16 && TakeNumber(num, ds[14]) == Some((i.verifyCert, ds[15]))
  {
    ReadsNames(num, ls, i, ds);
    ReadsPorts(num, ls, i, ds);
    ReadsLast(num, ls, i, ds);
  }

  lemma RoundTripWith(num: Parser, i: Info, before: Info, suffix: Text)
    requires Understands(num) && Printable(i)
    ensures Read(num, Printed(i) + suffix, before) == Some((Kept(i, before), suffix))
  {
    var ls := Lines(i);
    var ds := Split(ls, suffix);
    LinesAre(i);
    ReadsAll(num, ls, i, ds);
    ReadIs(num, ds, i, before, suffix);
  }

  /** Round trip: reading what was printed gives the record back and leaves exactly what follows it. */
  lemma RoundTrip(i: Info, before: Info, suffix: Text)
    requires Printable(i)
    ensures Read(NumberOn, Printed(i) + suffix, before) == Some((Kept(i, before), suffix))
  {
    forall n: nat | n < TWO_32
      ensures NumberOn(Decimal(n)) == Some(n)
    {
      PrintedNumber(n);
    }
    RoundTripWith(NumberOn, i, before, suffix);
  }

  /** The record that the program's own test reads and prints again. */
  const SAMPLE: Info := Info(15, "hostname-bin.000024", 2143897, "127.0.0.1", "root", "123", 3306, 60, 0,
                             "", "", "", "", "", 0)

  lemma SampleNumbers()
    ensures Decimal(15) == "15" && Decimal(2143897) == "2143897" && Decimal(3306) == "3306"
    ensures Decimal(60) == "60" && Decimal(0) == "0"
  {
    assert Decimal(2) == "2" && Decimal(21) == "21" && Decimal(214) == "214" && Decimal(2143) == "2143";
    assert Decimal(21438) == "21438" && Decimal(214389) == "214389";
    assert Decimal(3) == "3" && Decimal(33) == "33" && Decimal(330) == "330" && Decimal(1) == "1" && Decimal(6) == "6";
  }

  /** A record has the fifteenth line exactly from 15 announced lines on. */
  lemma LineCount(i: Info)
    ensures |Lines(i)| == if i.lines < 15 then 14 else 15
  {
  }

  /** Which field stands on which line. */
  lemma SampleLines()
    ensures Lines(SAMPLE) ==
      ["15\n", "hostname-bin.000024\n", "2143897\n", "127.0.0.1\n", "root\n", "123\n", "3306\n", "60\n", "0\n",
       "\n", "\n", "\n", "\n", "\n", "0\n"]
  {
    SampleNumbers();
    assert NumberLine(15) == "15\n" && NumberLine(2143897) == "2143897\n" && NumberLine(3306) == "3306\n";
    assert NumberLine(60) == "60\n" && NumberLine(0) == "0\n" && Line("") == "\n" && Line("root") == "root\n";
    assert Line("hostname-bin.000024") == "hostname-bin.000024\n" && Line("127.0.0.1") == "127.0.0.1\n";
    assert Line("123") == "123\n";
  }

  lemma {:induction false} FlatConcat(a: seq<Text>, b: seq<Text>)
    ensures Flat(a + b) == Flat(a) + Flat(b)
    decreases |a|
  {
    if a == [] {
      assert a + b == b;
    } else {
      assert (a + b)[1..] == a[1..] + b;
      FlatConcat(a[1..], b);
    }
  }

  // ----- printer and reader -----

  class Buffer {
    var data: Text
    ghost var written: seq<Text>

    ghost predicate Valid()
      reads this
    {
      data == Flat(written)
    }

    constructor ()
      ensures Valid() && data == [] && written == []
    {
      data, written := [], [];
    }

    method AppendString(s: Text)
      requires Valid()
      modifies this
      ensures Valid() && written == old(written) + [Line(s)]
    {
      data := data + s;
      data := data + ['\n'];
      FlatAppend(written, Line(s));
      written := written + [Line(s)];
    }

    method AppendInt32(n: nat)
      requires Valid()
      modifies this
      ensures Valid() && written == old(written) + [NumberLine(n)]
    {
      data := data + NumberLine(n);
      FlatAppend(written, NumberLine(n));
      written := written + [NumberLine(n)];
    }

    method AppendMaster(i: Info)
      requires Valid()
      modifies this
      ensures Valid() && written == old(written) + MasterLines(i)
    {
      AppendInt32(i.lines);
      AppendString(i.logFile);
      AppendInt32(i.logPos);
      AppendString(i.host);
      AppendString(i.user);
      AppendString(i.password);
      AppendInt32(i.port);
      AppendInt32(i.connectRetry);
      AppendInt32(i.ssl);
    }

    method AppendSsl(i: Info)
      requires Valid()
      modifies this
      ensures Valid() && written == old(written) + SslLines(i)
    {
      AppendString(i.sslCa);
      AppendString(i.sslCapath);
      AppendString(i.sslCert);
      AppendString(i.sslCipher);
      AppendString(i.sslKey);
      if i.lines >= 15 {
        AppendInt32(i.verifyCert);
      }
    }

    /** Prints a record behind what is already there. */
    method Append(i: Info)
      requires Valid()
      modifies this
      ensures Valid() && data == old(data) + Printed(i)
    {
      ghost var before := written;
      AppendMaster(i);
      AppendSsl(i);
      assert written == before + Lines(i);
      FlatConcat(before, Lines(i));
    }
  }

  /** A line ends at the first newline. */
  lemma {:induction false} LineEnds(d: Text, n: nat)
    requires n <= |d| && OneLine(d[..n])
    ensures n < |d| && d[n] == '\n' ==> TakeLine(d) == Some((d[..n], d[n + 1..]))
    ensures n == |d| ==> TakeLine(d) == None
    decreases |d|
  {
    if n < |d| && d[n] == '\n' {
      TakeLineOf(d[..n], d[n + 1..]);
      assert d == d[..n] + ['\n'] + d[n + 1..];
    } else if n == |d| && n > 0 {
      assert d[..n] == d && d[0] in d[..n];
      assert d[1..][..n - 1] == d[1..] && forall c :: c in d[1..] ==> c in d;
      LineEnds(d[1..], n - 1);
    }
  }

  class Packet {
    const data: Text
    var offset: nat

    ghost predicate Valid()
      reads this
    {
      offset <= |data|
    }

    ghost function Rest(): Text
      requires Valid()
      reads this
    {
      data[offset..]
    }

    constructor (text: Text)
      ensures Valid() && data == text && offset == 0
    {
      data, offset := text, 0;
    }

    /** Gets a string that ends in a newline. */
    method GetString() returns (s: Option<Text>)
      requires Valid()
      modifies this
      ensures Valid()
      ensures match TakeLine(old(Rest()))
              case Some((line, rest)) => s == Some(line) && Rest() == rest
              case None => s == None && offset == old(offset)
    {
      ghost var d := Rest();
      var i := offset;
      while i < |data| && data[i] != '\n'
        invariant offset <= i <= |data| && OneLine(d[..i - offset])
      {
        assert d[..i - offset + 1] == d[..i - offset] + [data[i]];
        i := i + 1;
      }
      LineEnds(d, i - offset);
      if i < |data| {
        s := Some(data[offset..i]);
        assert d[..i - offset] == data[offset..i] && d[i - offset + 1..] == data[i + 1..];
        offset := i + 1;
      } else {
        s := None;
      }
    }

    method GetInt32(num: Parser) returns (n: Option<nat>)
      requires Valid()
      modifies this
      ensures Valid()
      ensures match TakeNumber(num, old(Rest()))
              case Some((v, rest)) => n == Some(v) && Rest() == rest
              case None => n == None
    {
      var line :- GetString();
      n := num(line);
    }

    method GetMaster(num: Parser, before: Info) returns (info: Option<Info>)
      requires Valid()
      modifies this
      ensures Valid()
      ensures match ReadMaster(num, old(Rest()), before)
              case Some((i, rest)) => info == Some(i) && Rest() == rest
              case None => info == None
    {
      var lines :- GetInt32(num);
      var logFile :- GetString();
      var logPos :- GetInt32(num);
      var host :- GetString();
      var user :- GetString();
      var password :- GetString();
      var port :- GetInt32(num);
      var connectRetry :- GetInt32(num);
      var ssl :- GetInt32(num);
      info := Some(before.(lines := lines, logFile := logFile, logPos := logPos, host := host, user := user,
                           password := password, port := port, connectRetry := connectRetry, ssl := ssl));
    }

    method GetSsl(num: Parser, before: Info) returns (info: Option<Info>)
      requires Valid()
      modifies this
      ensures Valid()
      ensures match ReadSsl(num, old(Rest()), before)
              case Some((i, rest)) => info == Some(i) && Rest() == rest
              case None => info == None
    {
      var sslCa :- GetString();
      var sslCapath :- GetString();
      var sslCert :- GetString();
      var sslCipher :- GetString();
      var sslKey :- GetString();
      var verifyCert := before.verifyCert;
      if before.lines >= 15 {
        verifyCert :- GetInt32(num);
      }
      info := Some(before.(sslCa := sslCa, sslCapath := sslCapath, sslCert := sslCert, sslCipher := sslCipher,
                           sslKey := sslKey, verifyCert := verifyCert));
    }

    /** Reads a record into `before`, unless some line is missing or is not a number where one belongs. */
    method Get(num: Parser, before: Info) returns (info: Option<Info>)
      requires Valid()
      modifies this
      ensures Valid()
      ensures match Read(num, old(Rest()), before)
              case Some((i, rest)) => info == Some(i) && Rest() == rest
              case None => info == None
    {
      var i :- GetMaster(num, before);
      info := GetSsl(num, i);
    }
  }
}
