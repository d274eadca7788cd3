/**
 Unpadded base64url as the code builds it: the library's padded encoder with
 the padding stripped, and the library's lenient decoder with the padding put
 back (section 5 of RFC 4648, padding per section 3.2).
 */
module Base64Url {
  import opened Wrappers

  type Byte = b: int | 0 <= b < 256

  type Sextet = v: int | 0 <= v < 64

  // Table 2 of RFC 4648.
  function Symbol(v: Sextet): char {
    if v < 26 then ('A' as int + v) as char
    else if v < 52 then ('a' as int + v - 26) as char
    else if v < 62 then ('0' as int + v - 52) as char
    else if v == 62 then '-'
    else '_'
  }

  predicate InAlphabet(c: char) {
    'A' <= c <= 'Z' || 'a' <= c <= 'z' || '0' <= c <= '9' || c == '-' || c == '_'
  }

  // The decoder first maps '-' and '_' to the standard alphabet, so it takes both forms.
  function SextetOf(c: char): Option<Sextet> {
    if 'A' <= c <= 'Z' then Some(c as int - 'A' as int)
    else if 'a' <= c <= 'z' then Some(c as int - 'a' as int + 26)
    else if '0' <= c <= '9' then Some(c as int - '0' as int + 52)
    else if c == '-' || c == '+' then Some(62)
    else if c == '_' || c == '/' then Some(63)
    else None
  }

  /** base64.urlsafe_b64encode */
  function EncodePadded(data: seq<Byte>): string {
    if data == [] then ""
    else if |data| == 1 then
      [Symbol(data[0] / 4), Symbol(data[0] % 4 * 16), '=', '=']
    else if |data| == 2 then
      [Symbol(data[0] / 4), Symbol(data[0] % 4 * 16 + data[1] / 16), Symbol(data[1] % 16 * 4), '=']
    else
      [Symbol(data[0] / 4), Symbol(data[0] % 4 * 16 + data[1] / 16),
       Symbol(data[1] % 16 * 4 + data[2] / 64), Symbol(data[2] % 64)] + EncodePadded(data[3..])
  }

  function StripPadding(s: string): string {
    if s != "" && s[|s| - 1] == '=' then StripPadding(s[..|s| - 1]) else s
  }

  /** _b64url_encode */
  function Encode(data: seq<Byte>): string {
    StripPadding(EncodePadded(data))
  }

  function Padding(n: nat): string {
    seq(n, _ => '=')
  }

  /**
   The library decoder in its non-strict mode: `quad` data characters of the
   current group are read, `left` holds their unwritten bits, `pads` counts the
   padding characters since; characters outside the alphabet are skipped.
   */
  function Scan(s: string, quad: nat, left: nat, pads: nat): Option<seq<Byte>>
    requires quad < 4
    requires (quad == 1 ==> left < 64) && (quad == 2 ==> left < 16) && (quad == 3 ==> left < 4)
    decreases |s|
  {
    if s == "" then if quad == 0 then Some([]) else None
    else if s[0] == '=' then
      if quad >= 2 && quad + pads + 1 >= 4 then Some([])
      else Scan(s[1..], quad, left, if quad >= 2 then pads + 1 else pads)
    else
      match SextetOf(s[0])
      case None => Scan(s[1..], quad, left, pads)
      case Some(v) =>
        if quad == 0 then Scan(s[1..], 1, v, 0)
        else if quad == 1 then Prepend(left * 4 + v / 16, Scan(s[1..], 2, v % 16, 0))
        else if quad == 2 then Prepend(left * 16 + v / 4, Scan(s[1..], 3, v % 4, 0))
        else Prepend(left * 64 + v, Scan(s[1..], 0, 0, 0))
  }

  function Prepend(b: Byte, rest: Option<seq<Byte>>): Option<seq<Byte>> {
    match rest
    case None => None
    case Some(bytes) => Some([b] + bytes)
  }

  predicate Ascii(s: string) {
    forall i :: 0 <= i < |s| ==> s[i] < 128 as char
  }

  /** _b64url_decode; None is the ValueError the library raises. */
  function Decode(s: string): Option<seq<Byte>> {
    if Ascii(s) then Scan(s + Padding(-|s| % 4), 0, 0, 0) else None
  }

  // ---------- the alphabet ----------

  /** Table 2 of RFC 4648: 'A' to 'Z', 'a' to 'z', '0' to '9', each run in order, then '-' and '_'. */
  lemma SymbolTable(v: Sextet)
    ensures Symbol(0) == 'A' && Symbol(26) == 'a' && Symbol(52) == '0' && Symbol(62) == '-' && Symbol(63) == '_'
    ensures v + 1 in {26, 52, 62, 63, 64} || Symbol(v + 1) as int == Symbol(v) as int + 1
    ensures Symbol(25) == 'Z' && Symbol(51) == 'z' && Symbol(61) == '9'
  {
  }

  // The number that four symbols spell, six bits each, the most significant first.
  function Spelled(s: string): Option<int>
    requires |s| == 4
  {
    if SextetOf(s[0]).Some? && SextetOf(s[1]).Some? && SextetOf(s[2]).Some? && SextetOf(s[3]).Some? then
      Some(262144 * SextetOf(s[0]).value + 4096 * SextetOf(s[1]).value
           + 64 * SextetOf(s[2]).value + SextetOf(s[3]).value)
    else None
  }

  lemma EncodesThree(a: Byte, b: Byte, c: Byte)
    ensures Encode([a, b, c])
         == [Symbol(a / 4), Symbol(a % 4 * 16 + b / 16), Symbol(b % 16 * 4 + c / 64), Symbol(c % 64)]
  {
    var head := GroupHead(a, b, c);
    StripExact(head, 0);
    assert EncodePadded([a, b, c][3..]) == "";
    assert EncodePadded([a, b, c]) == head + Padding(0);
  }

  /** Three bytes become four symbols that spell the same 24 bits. */
  lemma GroupsAreSixBits(a: Byte, b: Byte, c: Byte)
    ensures |Encode([a, b, c])| == 4 && Spelled(Encode([a, b, c])) == Some(65536 * a + 256 * b + c)
  {
    EncodesThree(a, b, c);
    SymbolRoundTrip(a / 4);
    SymbolRoundTrip(a % 4 * 16 + b / 16);
    SymbolRoundTrip(b % 16 * 4 + c / 64);
    SymbolRoundTrip(c % 64);
  }

  // ---------- round trip ----------

  lemma SymbolRoundTrip(v: Sextet)
    ensures InAlphabet(Symbol(v)) && SextetOf(Symbol(v)) == Some(v)
  {
  }

  lemma ScanSymbol(v: Sextet, rest: string, quad: nat, left: nat, pads: nat)
    requires quad < 4
    requires (quad == 1 ==> left < 64) && (quad == 2 ==> left < 16) && (quad == 3 ==> left < 4)
    ensures Scan([Symbol(v)] + rest, quad, left, pads) ==
      if quad == 0 then Scan(rest, 1, v, 0)
      else if quad == 1 then Prepend(left * 4 + v / 16, Scan(rest, 2, v % 16, 0))
      else if quad == 2 then Prepend(left * 16 + v / 4, Scan(rest, 3, v % 4, 0))
      else Prepend(left * 64 + v, Scan(rest, 0, 0, 0))
  {
    SymbolRoundTrip(v);
    assert ([Symbol(v)] + rest)[1..] == rest;
  }

  // The bits of a group come back together.
  lemma GroupBits(a: Byte, b: Byte, c: Byte)
    ensures a / 4 * 4 + (a % 4 * 16 + b / 16) / 16 == a
    ensures (a % 4 * 16 + b / 16) % 16 * 16 + (b % 16 * 4 + c / 64) / 4 == b
    ensures (b % 16 * 4 + c / 64) % 4 * 64 + c % 64 == c
  {
    assert (a % 4 * 16 + b / 16) / 16 == a % 4 && (a % 4 * 16 + b / 16) % 16 == b / 16;
    assert (b % 16 * 4 + c / 64) / 4 == b % 16 && (b % 16 * 4 + c / 64) % 4 == c / 64;
  }

  lemma ScanGroup(v0: Sextet, v1: Sextet, v2: Sextet, v3: Sextet, rest: string)
    ensures Scan([Symbol(v0), Symbol(v1), Symbol(v2), Symbol(v3)] + rest, 0, 0, 0)
         == Prepend(v0 * 4 + v1 / 16, Prepend(v1 % 16 * 16 + v2 / 4, Prepend(v2 % 4 * 64 + v3, Scan(rest, 0, 0, 0))))
  {
    var r3 := [Symbol(v3)] + rest;
    var r2 := [Symbol(v2)] + r3;
    var r1 := [Symbol(v1)] + r2;
    assert [Symbol(v0), Symbol(v1), Symbol(v2), Symbol(v3)] + rest == [Symbol(v0)] + r1;
    ScanSymbol(v0, r1, 0, 0, 0);
    ScanSymbol(v1, r2, 1, v0, 0);
    ScanSymbol(v2, r3, 2, v1 % 16, 0);
    ScanSymbol(v3, rest, 3, v2 % 4, 0);
  }

  lemma ScanPair(v0: Sextet, v1: Sextet)
    ensures Scan([Symbol(v0), Symbol(v1), '=', '='], 0, 0, 0) == Some([v0 * 4 + v1 / 16])
  {
    assert [Symbol(v0), Symbol(v1), '=', '='] == [Symbol(v0)] + ([Symbol(v1)] + "==");
    ScanSymbol(v0, [Symbol(v1)] + "==", 0, 0, 0);
    ScanSymbol(v1, "==", 1, v0, 0);
    assert "=="[1..] == "=";
    assert Scan("==", 2, v1 % 16, 0) == Some([]);
    var b: Byte := v0 * 4 + v1 / 16;
    assert [b] + [] == [b];
  }

  lemma ScanTriple(v0: Sextet, v1: Sextet, v2: Sextet)
    ensures Scan([Symbol(v0), Symbol(v1), Symbol(v2), '='], 0, 0, 0)
         == Some([v0 * 4 + v1 / 16, v1 % 16 * 16 + v2 / 4])
  {
    var r2 := [Symbol(v2)] + "=";
    var r1 := [Symbol(v1)] + r2;
    assert [Symbol(v0), Symbol(v1), Symbol(v2), '='] == [Symbol(v0)] + r1;
    ScanSymbol(v0, r1, 0, 0, 0);
    ScanSymbol(v1, r2, 1, v0, 0);
    ScanSymbol(v2, "=", 2, v1 % 16, 0);
    assert Scan("=", 3, v2 % 4, 0) == Some([]);
    var b: Byte, c: Byte := v0 * 4 + v1 / 16, v1 % 16 * 16 + v2 / 4;
    assert [b] + ([c] + []) == [b, c];
  }

  lemma OneByteRoundTrip(a: Byte)
    ensures Scan([Symbol(a / 4), Symbol(a % 4 * 16), '=', '='], 0, 0, 0) == Some([a])
  {
    ScanPair(a / 4, a % 4 * 16);
    assert a / 4 * 4 + a % 4 * 16 / 16 == a;
  }

  lemma TwoBytesRoundTrip(a: Byte, b: Byte)
    ensures Scan([Symbol(a / 4), Symbol(a % 4 * 16 + b / 16), Symbol(b % 16 * 4), '='], 0, 0, 0) == Some([a, b])
  {
    GroupBits(a, b, 0);
    ScanTriple(a / 4, a % 4 * 16 + b / 16, b % 16 * 4);
  }

  lemma ThreeBytesRoundTrip(a: Byte, b: Byte, c: Byte, rest: string, bytes: seq<Byte>)
    requires Scan(rest, 0, 0, 0) == Some(bytes)
    ensures Scan([Symbol(a / 4), Symbol(a % 4 * 16 + b / 16), Symbol(b % 16 * 4 + c / 64), Symbol(c % 64)] + rest, 0, 0, 0)
         == Some([a, b, c] + bytes)
  {
    GroupBits(a, b, c);
    ScanGroup(a / 4, a % 4 * 16 + b / 16, b % 16 * 4 + c / 64, c % 64, rest);
    assert [a] + ([b] + ([c] + bytes)) == [a, b, c] + bytes;
  }

  lemma {:induction false} PaddedRoundTrip(data: seq<Byte>)
    ensures Scan(EncodePadded(data), 0, 0, 0) == Some(data)
  {
    if |data| == 0 {
    } else if |data| == 1 {
      OneByteRoundTrip(data[0]);
      assert data == [data[0]];
    } else if |data| == 2 {
      TwoBytesRoundTrip(data[0], data[1]);
      assert data == [data[0], data[1]];
    } else {
      PaddedRoundTrip(data[3..]);
      ThreeBytesRoundTrip(data[0], data[1], data[2], EncodePadded(data[3..]), data[3..]);
      assert data == [data[0], data[1], data[2]] + data[3..];
    }
  }

  predicate AllInAlphabet(s: string) {
    forall i :: 0 <= i < |s| ==> InAlphabet(s[i])
  }

  // How many padding characters n bytes need.
  function Pads(n: nat): nat {
    if n % 3 == 0 then 0 else 3 - n % 3
  }

  lemma GroupShape(head: string, rest: string, n: nat)
    requires AllInAlphabet(head) && AllInAlphabet(rest)
    ensures AllInAlphabet(head + rest)
    ensures head + (rest + Padding(n)) == (head + rest) + Padding(n)
  {
  }

  lemma OneByteShape(a: Byte) returns (body: string)
    ensures [Symbol(a / 4), Symbol(a % 4 * 16), '=', '='] == body + Padding(2)
    ensures AllInAlphabet(body) && |body| == 2
  {
    SymbolRoundTrip(a / 4);
    SymbolRoundTrip(a % 4 * 16);
    body := [Symbol(a / 4), Symbol(a % 4 * 16)];
  }

  lemma TwoBytesShape(a: Byte, b: Byte) returns (body: string)
    ensures [Symbol(a / 4), Symbol(a % 4 * 16 + b / 16), Symbol(b % 16 * 4), '='] == body + Padding(1)
    ensures AllInAlphabet(body) && |body| == 3
  {
    SymbolRoundTrip(a / 4);
    SymbolRoundTrip(a % 4 * 16 + b / 16);
    SymbolRoundTrip(b % 16 * 4);
    body := [Symbol(a / 4), Symbol(a % 4 * 16 + b / 16), Symbol(b % 16 * 4)];
  }

  // The padded text is alphabet characters followed by the padding.
  lemma {:induction false} PaddedShape(data: seq<Byte>) returns (body: string)
    ensures EncodePadded(data) == body + Padding(Pads(|data|))
    ensures AllInAlphabet(body) && |body| == (4 * |data| + 2) / 3
  {
    if |data| == 0 {
      body := "";
    } else if |data| == 1 {
      body := OneByteShape(data[0]);
    } else if |data| == 2 {
      body := TwoBytesShape(data[0], data[1]);
    } else {
      var rest := PaddedShape(data[3..]);
      var head := GroupHead(data[0], data[1], data[2]);
      body := head + rest;
      GroupShape(head, rest, Pads(|data| - 3));
      assert EncodePadded(data) == head + EncodePadded(data[3..]);
    }
  }

  lemma GroupHead(a: Byte, b: Byte, c: Byte) returns (head: string)
    ensures head == [Symbol(a / 4), Symbol(a % 4 * 16 + b / 16), Symbol(b % 16 * 4 + c / 64), Symbol(c % 64)]
    ensures AllInAlphabet(head)
  {
    SymbolRoundTrip(a / 4);
    SymbolRoundTrip(a % 4 * 16 + b / 16);
    SymbolRoundTrip(b % 16 * 4 + c / 64);
    SymbolRoundTrip(c % 64);
    head := [Symbol(a / 4), Symbol(a % 4 * 16 + b / 16), Symbol(b % 16 * 4 + c / 64), Symbol(c % 64)];
  }

  lemma {:induction false} StripExact(body: string, n: nat)
    requires AllInAlphabet(body)
    ensures StripPadding(body + Padding(n)) == body
  {
    if n == 0 {
      assert body + Padding(0) == body;
      assert body != "" ==> InAlphabet(body[|body| - 1]);
    } else {
      assert (body + Padding(n))[..|body| + n - 1] == body + Padding(n - 1);
      StripExact(body, n - 1);
    }
  }

  /**
   Encoding keeps only alphabet characters, is exactly ceil(4n/3) long, and the
   decoder's -len % 4 rule restores exactly the padding that was stripped.
   */
  lemma EncodeShape(data: seq<Byte>)
    ensures AllInAlphabet(Encode(data))
    ensures |Encode(data)| == (4 * |data| + 2) / 3
    ensures Encode(data) + Padding(-|Encode(data)| % 4) == EncodePadded(data)
  {
    var body := PaddedShape(data);
    StripExact(body, Pads(|data|));
    assert -|body| % 4 == Pads(|data|) by {
      PadsRestored(|data|);
    }
  }

  lemma PadsRestored(n: nat)
    ensures -((4 * n + 2) / 3) % 4 == Pads(n)
  {
    var q, r := n / 3, n % 3;
    if r == 0 {
      LengthOf(n, q, 0, 0);
      Remainder(-(4 * q), -q, 0);
    } else if r == 1 {
      LengthOf(n, q, 1, 2);
      Remainder(-(4 * q + 2), -q - 1, 2);
    } else {
      LengthOf(n, q, 2, 3);
      Remainder(-(4 * q + 3), -q - 1, 1);
    }
  }

  // 3q + r bytes give 4q + k characters.
  lemma LengthOf(n: nat, q: nat, r: nat, k: nat)
    requires n == 3 * q + r
    requires (r == 0 && k == 0) || (r == 1 && k == 2) || (r == 2 && k == 3)
    ensures (4 * n + 2) / 3 == 4 * q + k
  {
    var m := 4 * n + 2;
    assert 3 * (4 * q + k) <= m < 3 * (4 * q + k) + 3;
  }

  lemma Remainder(x: int, k: int, c: nat)
    requires x == 4 * k + c && c < 4
    ensures x % 4 == c
  {
  }

  /** Decoding undoes encoding, for every byte string. */
  lemma RoundTrip(data: seq<Byte>)
    ensures Decode(Encode(data)) == Some(data)
  {
    EncodeShape(data);
    PaddedRoundTrip(data);
    assert Ascii(Encode(data));
  }

  lemma EncodeInjective(x: seq<Byte>, y: seq<Byte>)
    requires Encode(x) == Encode(y)
    ensures x == y
  {
    RoundTrip(x);
    RoundTrip(y);
  }

  // ---------- which texts decode ----------

  // How many characters of s carry data.
  function DataCount(s: string): nat {
    if s == "" then 0 else DataCount(s[..|s| - 1]) + (if SextetOf(s[|s| - 1]).Some? then 1 else 0)
  }

  function DataBefore(s: string, i: nat): nat
    requires i <= |s|
  {
    DataCount(s[..i])
  }

  // A padding character at j, with no data character between j and i.
  predicate PadJustBefore(s: string, j: nat, i: nat) {
    j < i <= |s| && s[j] == '=' && DataBefore(s, j) == DataBefore(s, i)
  }

  // The padding character at i completes a last group of three or of two data characters.
  ghost predicate ClosesAt(s: string, i: nat) {
    && i < |s| && s[i] == '='
    && (|| DataBefore(s, i) % 4 == 3
        || (DataBefore(s, i) % 4 == 2 && exists j: nat :: PadJustBefore(s, j, i)))
  }

  // The text has whole groups only, or its padding completes the last group.
  ghost predicate Complete(s: string) {
    DataCount(s) % 4 == 0 || exists i: nat :: ClosesAt(s, i)
  }

  lemma DataStep(s: string, k: nat)
    requires k < |s|
    ensures DataBefore(s, k + 1) == DataBefore(s, k) + (if SextetOf(s[k]).Some? then 1 else 0)
  {
    assert s[..k + 1][..k] == s[..k];
  }

  lemma {:induction false} DataMonotone(s: string, j: nat, i: nat)
    requires j <= i <= |s|
    ensures DataBefore(s, j) <= DataBefore(s, i)
    decreases i - j
  {
    if j < i {
      DataStep(s, j);
      DataMonotone(s, j + 1, i);
    }
  }

  // What the decoder remembers of s[..k]: its counters, and that nothing has closed yet.
  ghost predicate Remembers(s: string, k: nat, quad: nat, pads: nat) {
    && k <= |s|
    && quad == DataBefore(s, k) % 4
    && (quad == 2 ==> pads == if exists j: nat :: PadJustBefore(s, j, k) then 1 else 0)
    && (quad == 3 ==> pads == 0)
    && (forall i: nat :: ClosesAt(s, i) ==> i >= k)
  }

  // A data character resets the padding count.
  lemma AfterData(s: string, k: nat, quad: nat, pads: nat)
    requires k < |s| && Remembers(s, k, quad, pads) && SextetOf(s[k]).Some?
    ensures Remembers(s, k + 1, (quad + 1) % 4, 0)
  {
    DataStep(s, k);
    forall j: nat | j < k + 1 && s[j] == '=' ensures !PadJustBefore(s, j, k + 1) {
      DataMonotone(s, j, k);
    }
  }

  lemma AfterSkip(s: string, k: nat, quad: nat, pads: nat)
    requires k < |s| && Remembers(s, k, quad, pads) && s[k] != '=' && SextetOf(s[k]).None?
    ensures Remembers(s, k + 1, quad, pads)
  {
    DataStep(s, k);
    assert !ClosesAt(s, k);
    if j: nat :| PadJustBefore(s, j, k) {
      assert PadJustBefore(s, j, k + 1);
    }
    var m := k + 1;
    if j: nat :| PadJustBefore(s, j, m) {
      assert PadJustBefore(s, j, k);
    }
  }

  lemma AfterPad(s: string, k: nat, quad: nat, pads: nat)
    requires k < |s| && Remembers(s, k, quad, pads) && s[k] == '='
    ensures ClosesAt(s, k) <==> quad >= 2 && quad + pads + 1 >= 4
    ensures !ClosesAt(s, k) ==> Remembers(s, k + 1, quad, if quad >= 2 then pads + 1 else pads)
  {
    DataStep(s, k);
    assert PadJustBefore(s, k, k + 1);
  }

  lemma {:induction false} ScanDecodes(s: string, k: nat, quad: nat, left: nat, pads: nat)
    requires quad < 4 && Remembers(s, k, quad, pads)
    requires (quad == 1 ==> left < 64) && (quad == 2 ==> left < 16) && (quad == 3 ==> left < 4)
    ensures Scan(s[k..], quad, left, pads).Some? <==> Complete(s)
    decreases |s| - k
  {
    if k == |s| {
      assert s[..k] == s;
    } else {
      assert s[k..][1..] == s[k + 1..];
      if s[k] == '=' {
        AfterPad(s, k, quad, pads);
        if !ClosesAt(s, k) {
          ScanDecodes(s, k + 1, quad, left, if quad >= 2 then pads + 1 else pads);
        }
      } else {
        match SextetOf(s[k])
        case None =>
          AfterSkip(s, k, quad, pads);
          ScanDecodes(s, k + 1, quad, left, pads);
        case Some(v) =>
          AfterData(s, k, quad, pads);
          if quad == 0 {
            ScanDecodes(s, k + 1, 1, v, 0);
          } else if quad == 1 {
            ScanDecodes(s, k + 1, 2, v % 16, 0);
          } else if quad == 2 {
            ScanDecodes(s, k + 1, 3, v % 4, 0);
          } else {
            ScanDecodes(s, k + 1, 0, 0, 0);
          }
      }
    }
  }

  /** A text decodes exactly when it is ASCII and, with the padding put back, complete. */
  lemma DecodesIff(s: string)
    ensures Decode(s).Some? <==> Ascii(s) && Complete(s + Padding(-|s| % 4))
  {
    var padded := s + Padding(-|s| % 4);
    assert padded[0..] == padded;
    ScanDecodes(padded, 0, 0, 0, 0);
  }

  lemma {:induction false} AlphabetIsData(s: string, n: nat, k: nat)
    requires AllInAlphabet(s) && k <= |s| + n
    ensures DataBefore(s + Padding(n), k) == if k <= |s| then k else |s|
  {
    if k > 0 {
      AlphabetIsData(s, n, k - 1);
      DataStep(s + Padding(n), k - 1);
    }
  }

  /** Over the alphabet, decoding fails exactly when the length is 1 modulo 4. */
  lemma AlphabetDecodesIff(s: string)
    requires AllInAlphabet(s)
    ensures Decode(s).Some? <==> |s| % 4 != 1
  {
    var n := -|s| % 4;
    var padded := s + Padding(n);
    DecodesIff(s);
    assert Ascii(s);
    forall k: nat | k <= |padded| ensures DataBefore(padded, k) == if k <= |s| then k else |s| {
      AlphabetIsData(s, n, k);
    }
    assert padded[..|padded|] == padded;
    assert DataCount(padded) == DataBefore(padded, |padded|) == |s|;
    if |s| % 4 == 2 {
      assert PadJustBefore(padded, |s|, |s| + 1);
      assert ClosesAt(padded, |s| + 1);
    } else if |s| % 4 == 3 {
      assert ClosesAt(padded, |s|);
    } else if |s| % 4 == 1 {
      assert forall i: nat :: i < |s| ==> InAlphabet(padded[i]);
      forall i: nat | i < |padded| && padded[i] == '=' ensures !ClosesAt(padded, i) {
        assert DataBefore(padded, i) == |s|;
      }
    }
  }
}
