/** `Util::ToBase64` and `Util::FromBase64`: a 32-bit accumulator fed with bytes (or with symbols of 6 bits), against
    the groups of section 4 of RFC 4648. */
module Base64 {

  type byte = x: nat | x < 256
  type sextet = x: nat | x < 64

  const UINT32: nat := 0x1_0000_0000

  datatype Option<T> = None | Some(value: T)

  // ---------------------------------------------------------------- the alphabet

  /** `_B64Table` */
  function Symbol(v: sextet): char {
    if v < 26 then 'A' + v as char
    else if v < 52 then 'a' + (v - 26) as char
    else if v < 62 then '0' + (v - 52) as char
    else if v == 62 then '+' else '/'
  }

  /** `_ReverseB64Table`: 64 for what is no symbol. */
  function Reverse(c: char): (v: nat)
    ensures v <= 64
  {
    if 'A' <= c <= 'Z' then (c - 'A') as nat
    else if 'a' <= c <= 'z' then (c - 'a') as nat + 26
    else if '0' <= c <= '9' then (c - '0') as nat + 52
    else if c == '+' then 62 else if c == '/' then 63 else 64
  }

  lemma SymbolReverse(v: sextet)
    ensures Reverse(Symbol(v)) == v && !Skipped(Symbol(v))
  {
  }

  /** What the decoder passes over: white space and padding, wherever they are. */
  predicate Skipped(c: char) {
    c == ' ' || '\t' <= c <= '\r' || c == '='
  }

  // ---------------------------------------------------------------- reference: groups

  /** The four symbols that three bytes make. */
  function S0(a: byte): sextet { a / 4 }
  function S1(a: byte, b: byte): sextet { a % 4 * 16 + b / 16 }
  function S2(b: byte, c: byte): sextet { b % 16 * 4 + c / 64 }
  function S3(c: byte): sextet { c % 64 }

  function Three(a: byte, b: byte, c: byte): string {
    [Symbol(S0(a)), Symbol(S1(a, b)), Symbol(S2(b, c)), Symbol(S3(c))]
  }

  /** The encoding, group by group; missing bytes count as 0 and are padded. */
  function Encode(data: seq<byte>): string {
    if |data| == 0 then ""
    else if |data| == 1 then [Symbol(S0(data[0])), Symbol(S1(data[0], 0)), '=', '=']
    else if |data| == 2 then [Symbol(S0(data[0])), Symbol(S1(data[0], data[1])), Symbol(S2(data[1], 0)), '=']
    else Three(data[0], data[1], data[2]) + Encode(data[3..])
  }

  function EncodedSize(size: nat): nat { (size + 2) / 3 * 4 }

  /** The values of the symbols of a text. */
  function Values(text: string): Option<seq<sextet>> {
    if text == "" then Some([]) else Longer(Values(text[..|text| - 1]), text[|text| - 1])
  }

  /** One more character. */
  function Longer(values: Option<seq<sextet>>, c: char): Option<seq<sextet>> {
    if values.None? || Skipped(c) then values
    else if Reverse(c) == 64 then None
    else Some(values.value + [Reverse(c)])
  }

  function First(a: sextet, b: sextet): byte { a * 4 + b / 16 }

  function Second(b: sextet, c: sextet): byte { b % 16 * 16 + c / 4 }

  function Third(c: sextet, d: sextet): byte { c % 4 * 64 + d }

  /** Four symbols make three bytes; the bits that complete no byte are dropped. */
  function Bytes(v: seq<sextet>): seq<byte> {
    if |v| < 2 then []
    else if |v| == 2 then [First(v[0], v[1])]
    else if |v| == 3 then [First(v[0], v[1]), Second(v[1], v[2])]
    else [First(v[0], v[1]), Second(v[1], v[2]), Third(v[2], v[3])] + Bytes(v[4..])
  }

  function Decode(text: string): Option<seq<byte>> {
    match Values(text)
    case None => None
    case Some(values) => Some(Bytes(values))
  }

  // ---------------------------------------------------------------- round trip

  /** The symbols of a group, without the padding. */
  function Sextets(data: seq<byte>): seq<sextet> {
    if |data| == 0 then []
    else if |data| == 1 then [S0(data[0]), S1(data[0], 0)]
    else if |data| == 2 then [S0(data[0]), S1(data[0], data[1]), S2(data[1], 0)]
    else [S0(data[0]), S1(data[0], data[1]), S2(data[1], data[2]), S3(data[2])] + Sextets(data[3..])
  }

  lemma ThreeBytes(a: byte, b: byte, c: byte)
    ensures First(S0(a), S1(a, b)) == a && Second(S1(a, b), S2(b, c)) == b && Third(S2(b, c), S3(c)) == c
  {
    assert (a % 4 * 16 + b / 16) / 16 == a % 4 && (a % 4 * 16 + b / 16) % 16 == b / 16;
    assert (b % 16 * 4 + c / 64) / 4 == b % 16 && (b % 16 * 4 + c / 64) % 4 == c / 64;
  }

  lemma {:induction false} BytesOfSextets(data: seq<byte>)
    ensures Bytes(Sextets(data)) == data
    decreases |data|
  {
    hide First, Second, Third, S0, S1, S2, S3;
    if |data| > 0 {
      var a, b, c := data[0], if |data| > 1 then data[1] else 0, if |data| > 2 then data[2] else 0;
      ThreeBytes(a, b, c);
      if |data| == 1 {
        OneByte(data, a);
      } else if |data| == 2 {
        TwoBytes(data, a, b);
      } else {
        BytesOfSextets(data[3..]);
        assert data == [a, b, c] + data[3..];
        ThreeMore(data[3..], a, b, c);
      }
    }
  }

  lemma ThreeMore(data: seq<byte>, a: byte, b: byte, c: byte)
    requires Bytes(Sextets(data)) == data
    requires First(S0(a), S1(a, b)) == a && Second(S1(a, b), S2(b, c)) == b && Third(S2(b, c), S3(c)) == c
    ensures Bytes(Sextets([a, b, c] + data)) == [a, b, c] + data
  {
    assert ([a, b, c] + data)[3..] == data;
    hide First, Second, Third, S0, S1, S2, S3;
    var v := [S0(a), S1(a, b), S2(b, c), S3(c)];
    assert Sextets([a, b, c] + data) == v + Sextets(data);
    hide Sextets;
    FirstGroup(v, Sextets(data));
    hide Bytes;
  }

  lemma OneByte(data: seq<byte>, a: byte)
    requires data == [a] && First(S0(a), S1(a, 0)) == a
    ensures Bytes(Sextets(data)) == data
  {
    hide First, Second, Third, S0, S1, S2, S3;
  }

  lemma TwoBytes(data: seq<byte>, a: byte, b: byte)
    requires data == [a, b] && First(S0(a), S1(a, b)) == a && Second(S1(a, b), S2(b, 0)) == b
    ensures Bytes(Sextets(data)) == data
  {
    hide First, Second, Third, S0, S1, S2, S3;
  }

  lemma FirstGroup(v: seq<sextet>, rest: seq<sextet>)
    requires |v| == 4
    ensures Bytes(v + rest) == [First(v[0], v[1]), Second(v[1], v[2]), Third(v[2], v[3])] + Bytes(rest)
  {
    assert (v + rest)[4..] == rest;
  }

  lemma ValuesSnoc(text: string, c: char)
    ensures Values(text + [c]) == Longer(Values(text), c)
  {
    assert (text + [c])[..|text|] == text;
  }

  lemma {:induction false} ValuesAppend(a: string, b: string)
    requires Values(a).Some? && Values(b).Some?
    ensures Values(a + b) == Some(Values(a).value + Values(b).value)
    decreases |b|
  {
    assert Values("") == Some([]);
    hide Values, Reverse, Skipped;
    if b == "" {
      assert a + b == a;
      assert Values(a).value + [] == Values(a).value;
    } else {
      var n := |b| - 1;
      assert b[..n] + [b[n]] == b && a + b[..n] + [b[n]] == a + b;
      ValuesSnoc(b[..n], b[n]);
      ValuesSnoc(a + b[..n], b[n]);
      ValuesAppend(a, b[..n]);
      LongerAppend(Values(a).value, Values(b[..n]).value, b[n]);
    }
  }

  lemma LongerAppend(x: seq<sextet>, y: seq<sextet>, c: char)
    ensures Longer(Some(x + y), c).Some? <==> Longer(Some(y), c).Some?
    ensures Longer(Some(y), c).Some? ==> Longer(Some(x + y), c) == Some(x + Longer(Some(y), c).value)
  {
    hide Reverse, Skipped;
    assert Reverse(c) < 64 ==> x + (y + [Reverse(c)]) == x + y + [Reverse(c)];
  }

  lemma ValuesOfFour(c0: char, c1: char, c2: char, c3: char)
    ensures Values([c0, c1, c2, c3]) == Longer(Longer(Longer(Longer(Some([]), c0), c1), c2), c3)
  {
    assert Values("") == Some([]);
    hide Longer, Values;
    ValuesSnoc("", c0);
    ValuesSnoc("" + [c0], c1);
    ValuesSnoc("" + [c0] + [c1], c2);
    ValuesSnoc("" + [c0] + [c1] + [c2], c3);
    assert "" + [c0] + [c1] + [c2] + [c3] == [c0, c1, c2, c3];
  }

  lemma LongerSymbol(values: seq<sextet>, v: sextet)
    ensures Longer(Some(values), Symbol(v)) == Some(values + [v])
  {
    SymbolReverse(v);
    hide Symbol, Reverse, Skipped;
  }

  lemma LongerPadding(values: seq<sextet>)
    ensures Longer(Some(values), '=') == Some(values)
  {
  }

  /** The values of two symbols, three or four, padded. */
  lemma TwoValues(v: sextet, w: sextet)
    ensures Values([Symbol(v), Symbol(w), '=', '=']) == Some([v, w])
  {
    hide Symbol, Longer, Values;
    ValuesOfFour(Symbol(v), Symbol(w), '=', '=');
    LongerSymbol([], v);
    LongerSymbol([] + [v], w);
    assert [] + [v] + [w] == [v, w];
    LongerPadding([v, w]);
  }

  lemma ThreeValues(v: sextet, w: sextet, x: sextet)
    ensures Values([Symbol(v), Symbol(w), Symbol(x), '=']) == Some([v, w, x])
  {
    hide Symbol, Longer, Values;
    ValuesOfFour(Symbol(v), Symbol(w), Symbol(x), '=');
    LongerSymbol([], v);
    LongerSymbol([] + [v], w);
    LongerSymbol([] + [v] + [w], x);
    assert [] + [v] + [w] + [x] == [v, w, x];
    LongerPadding([v, w, x]);
  }

  lemma FourValues(v: sextet, w: sextet, x: sextet, y: sextet)
    ensures Values([Symbol(v), Symbol(w), Symbol(x), Symbol(y)]) == Some([v, w, x, y])
  {
    hide Symbol, Longer, Values;
    ValuesOfFour(Symbol(v), Symbol(w), Symbol(x), Symbol(y));
    LongerSymbol([], v);
    LongerSymbol([] + [v], w);
    LongerSymbol([] + [v] + [w], x);
    LongerSymbol([] + [v] + [w] + [x], y);
    assert [] + [v] + [w] + [x] + [y] == [v, w, x, y];
  }

  lemma ShortEncode(data: seq<byte>)
    requires |data| <= 2
    ensures Values(Encode(data)) == Some(Sextets(data))
  {
    hide Symbol, Longer, S0, S1, S2, S3;
    if |data| == 1 {
      TwoValues(S0(data[0]), S1(data[0], 0));
    } else if |data| == 2 {
      ThreeValues(S0(data[0]), S1(data[0], data[1]), S2(data[1], 0));
    }
    assert Values("") == Some([]);
    hide Values;
  }

  lemma GroupEncode(data: seq<byte>)
    requires |data| > 2 && Values(Encode(data[3..])) == Some(Sextets(data[3..]))
    ensures Values(Encode(data)) == Some(Sextets(data))
  {
    hide Symbol, Longer, Values, S0, S1, S2, S3;
    var a, b, c := data[0], data[1], data[2];
    FourValues(S0(a), S1(a, b), S2(b, c), S3(c));
    ValuesAppend(Three(a, b, c), Encode(data[3..]));
  }

  lemma {:induction false} ValuesOfEncode(data: seq<byte>)
    ensures Values(Encode(data)) == Some(Sextets(data))
    decreases |data|
  {
    hide Values, Encode, Sextets;
    if |data| > 2 {
      ValuesOfEncode(data[3..]);
      GroupEncode(data);
    } else {
      ShortEncode(data);
    }
  }

  /** What is encoded is read back. */
  lemma RoundTrip(data: seq<byte>)
    ensures Decode(Encode(data)) == Some(data)
  {
    ValuesOfEncode(data);
    BytesOfSextets(data);
  }

  lemma {:induction false} EncodeSize(data: seq<byte>)
    ensures |Encode(data)| == EncodedSize(|data|)
    decreases |data|
  {
    hide Symbol, S0, S1, S2, S3;
    if |data| > 2 {
      EncodeSize(data[3..]);
      assert (|data| - 3 + 2) / 3 + 1 == (|data| + 2) / 3;
    }
  }

  // ---------------------------------------------------------------- the accumulator

  function Pow2(n: nat): (p: nat)
    ensures p > 0
  {
    if n == 0 then 1 else 2 * Pow2(n - 1)
  }

  lemma Powers()
    ensures Pow2(0) == 1 && Pow2(2) == 4 && Pow2(4) == 16 && Pow2(6) == 64
  {
    assert Pow2(1) == 2 && Pow2(3) == 8 && Pow2(5) == 32;
  }

  /** What the 32 bits of the accumulator lose does not reach the low bits. */
  lemma Low64(z: nat, q: nat, r: nat)
    requires z == q * 64 + r && r < 64
    ensures z % UINT32 % 64 == r
  {
  }

  lemma Low256(z: nat, q: nat, r: nat)
    requires z == q * 256 + r && r < 256
    ensures z % UINT32 % 256 == r
  {
  }

  lemma Low1024(z: nat, q: nat, r: nat)
    requires z == q * 1024 + r && r < 1024
    ensures z % UINT32 % 1024 == r
  {
  }

  lemma Low4096(z: nat, q: nat, r: nat)
    requires z == q * 4096 + r && r < 4096
    ensures z % UINT32 % 4096 == r
  {
  }

  /** The middle bits, when the low ones are known. */
  lemma High256(z: nat, r: nat)
    requires z % 256 == r
    ensures z / 4 % 64 == r / 4 && z % 4 == r % 4
  {
    var q := z / 256;
    assert z == 4 * (q * 64 + r / 4) + r % 4;
  }

  lemma High1024(z: nat, r: nat)
    requires z % 1024 == r
    ensures z / 16 % 64 == r / 16 && z % 16 == r % 16
  {
    var q := z / 1024;
    assert z == 16 * (q * 64 + r / 16) + r % 16;
  }

  lemma Wide1024(z: nat, r: nat)
    requires z % 1024 == r
    ensures z / 4 % 256 == r / 4 && z % 4 == r % 4
  {
    var q := z / 1024;
    assert z == 4 * (q * 256 + r / 4) + r % 4;
  }

  lemma High4096(z: nat, r: nat)
    requires z % 4096 == r
    ensures z / 64 % 64 == r / 64 && z % 64 == r % 64
  {
    var q := z / 4096;
    assert z == 64 * (q * 64 + r / 64) + r % 64;
  }

  lemma Wide4096(z: nat, r: nat)
    requires z % 4096 == r
    ensures z / 16 % 256 == r / 16 && z % 16 == r % 16
  {
    var q := z / 4096;
    assert z == 16 * (q * 256 + r / 16) + r % 16;
  }

  /** A byte when nothing, two or four bits are pending. */
  lemma ByteAfterNone(acc: nat, x: byte)
    ensures var z := (acc * 256 + x) % UINT32;
      z / 4 % 64 == S0(x) && z % 4 == x % 4
  {
    Low256(acc * 256 + x, acc, x);
    High256((acc * 256 + x) % UINT32, x);
  }

  lemma ByteAfterTwo(acc: nat, last: byte, x: byte)
    requires acc % 4 == last % 4
    ensures var z := (acc * 256 + x) % UINT32;
      z / 16 % 64 == S1(last, x) && z % 16 == x % 16
  {
    var q, r := acc / 4, acc % 4;
    assert acc == q * 4 + r;
    Low1024(acc * 256 + x, q, r * 256 + x);
    High1024((acc * 256 + x) % UINT32, r * 256 + x);
    Pack(r, x);
  }

  lemma Pack(r: nat, x: byte)
    ensures (r * 256 + x) / 16 == r * 16 + x / 16 && (r * 256 + x) % 16 == x % 16
    ensures (r * 256 + x) / 64 == r * 4 + x / 64 && (r * 256 + x) % 64 == x % 64
  {
  }

  lemma ByteAfterFour(acc: nat, last: byte, x: byte)
    requires acc % 16 == last % 16
    ensures var z := (acc * 256 + x) % UINT32;
      z / 64 % 64 == S2(last, x) && z % 64 == S3(x)
  {
    var q, r := acc / 16, acc % 16;
    assert acc == q * 16 + r;
    Low4096(acc * 256 + x, q, r * 256 + x);
    High4096((acc * 256 + x) % UINT32, r * 256 + x);
    Pack(r, x);
  }

  /** A symbol when nothing, six, four or two bits are pending. */
  lemma SymbolAfterNone(acc: nat, v: sextet)
    ensures (acc * 64 + v) % UINT32 % 64 == v
  {
    Low64(acc * 64 + v, acc, v);
  }

  lemma SymbolAfterSix(acc: nat, last: sextet, v: sextet)
    requires acc % 64 == last
    ensures var z := (acc * 64 + v) % UINT32;
      z / 16 % 256 == First(last, v) && z % 16 == v % 16
  {
    var q := acc / 64;
    assert acc == q * 64 + last;
    Low4096(acc * 64 + v, q, last * 64 + v);
    Wide4096((acc * 64 + v) % UINT32, last * 64 + v);
    Unpack(last, v);
  }

  lemma Unpack(r: nat, v: sextet)
    ensures (r * 64 + v) / 16 == r * 4 + v / 16 && (r * 64 + v) % 16 == v % 16
    ensures (r * 64 + v) / 4 == r * 16 + v / 4 && (r * 64 + v) % 4 == v % 4
  {
  }

  lemma SymbolAfterFour(acc: nat, last: sextet, v: sextet)
    requires acc % 16 == last % 16
    ensures var z := (acc * 64 + v) % UINT32;
      z / 4 % 256 == Second(last, v) && z % 4 == v % 4
  {
    var q, r := acc / 16, acc % 16;
    assert acc == q * 16 + r;
    Low1024(acc * 64 + v, q, r * 64 + v);
    Wide1024((acc * 64 + v) % UINT32, r * 64 + v);
    Unpack(r, v);
  }

  lemma SymbolAfterTwo(acc: nat, last: sextet, v: sextet)
    requires acc % 4 == last % 4
    ensures (acc * 64 + v) % UINT32 % 256 == Third(last, v)
  {
    var q, r := acc / 4, acc % 4;
    assert acc == q * 4 + r;
    Low256(acc * 64 + v, q, r * 64 + v);
  }

  /** The bits of the last byte, or symbol, that have not left. */
  predicate Holds(acc: nat, bits: nat, last: nat) { acc % Pow2(bits) == last % Pow2(bits) }

  // ---------------------------------------------------------------- encoder

  /** The symbols that are complete when these bytes are read. */
  function Begun(data: seq<byte>): string {
    if |data| == 0 then ""
    else if |data| == 1 then [Symbol(S0(data[0]))]
    else if |data| == 2 then [Symbol(S0(data[0])), Symbol(S1(data[0], data[1]))]
    else Three(data[0], data[1], data[2]) + Begun(data[3..])
  }

  /** What the inner loop still writes. */
  function Pending(bits: nat, acc: nat): string {
    if bits < 6 then "" else [Symbol(acc / Pow2(bits - 6) % 64)] + Pending(bits - 6, acc)
  }

  function LastOf(s: seq<byte>): byte { if s == [] then 0 else s[|s| - 1] }

  /** The symbols that one more byte completes. */
  function Completed(n: nat, last: byte, x: byte): string {
    if n % 3 == 0 then [Symbol(S0(x))]
    else if n % 3 == 1 then [Symbol(S1(last, x))]
    else [Symbol(S2(last, x)), Symbol(S3(x))]
  }

  /** What follows the last complete symbol. */
  function Ending(n: nat, last: byte): string {
    if n % 3 == 0 then "" else if n % 3 == 1 then [Symbol(S1(last, 0)), '=', '='] else [Symbol(S2(last, 0)), '=']
  }

  lemma BegunGroup(data: seq<byte>)
    requires |data| > 2
    ensures Begun(data) == Three(data[0], data[1], data[2]) + Begun(data[3..])
    ensures Encode(data) == Three(data[0], data[1], data[2]) + Encode(data[3..])
  {
  }

  lemma SameEnd(data: seq<byte>, x: byte)
    requires |data| > 2
    ensures Completed(|data|, LastOf(data), x) == Completed(|data[3..]|, LastOf(data[3..]), x)
    ensures Ending(|data|, LastOf(data)) == Ending(|data[3..]|, LastOf(data[3..]))
  {
    hide Symbol, S0, S1, S2, S3;
  }

  lemma NoByte(data: seq<byte>, x: byte)
    requires |data| == 0
    ensures Begun(data + [x]) == Begun(data) + [Symbol(S0(x))] && Encode(data) == Begun(data) + ""
  {
    hide Begun, Encode, Symbol, S0, S1, S2, S3;
    BegunOf(x, 0, 0);
    assert data == [] && data + [x] == [x];
  }

  lemma OneByteMore(data: seq<byte>, x: byte)
    requires |data| == 1
    ensures Begun(data + [x]) == Begun(data) + [Symbol(S1(data[0], x))]
    ensures Encode(data) == Begun(data) + [Symbol(S1(data[0], 0)), '=', '=']
  {
    hide Begun, Encode, Symbol, S0, S1, S2, S3;
    BegunOf(data[0], x, 0);
    assert data == [data[0]] && data + [x] == [data[0], x];
  }

  lemma TwoBytesMore(data: seq<byte>, x: byte)
    requires |data| == 2
    ensures Begun(data + [x]) == Begun(data) + [Symbol(S2(data[1], x)), Symbol(S3(x))]
    ensures Encode(data) == Begun(data) + [Symbol(S2(data[1], 0)), '=']
  {
    hide Begun, Encode, Symbol, S0, S1, S2, S3;
    BegunOf(data[0], data[1], x);
    assert data == [data[0], data[1]] && data + [x] == [data[0], data[1], x];
  }

  lemma BegunShort(data: seq<byte>, x: byte)
    requires |data| <= 2
    ensures Begun(data + [x]) == Begun(data) + Completed(|data|, LastOf(data), x)
    ensures Encode(data) == Begun(data) + Ending(|data|, LastOf(data))
  {
    hide Begun, Encode, Completed, Ending, LastOf, Symbol, S0, S1, S2, S3;
    ShortEnd(data, x);
    if |data| == 0 {
      NoByte(data, x);
    } else if |data| == 1 {
      OneByteMore(data, x);
    } else {
      TwoBytesMore(data, x);
    }
  }

  lemma ShortEnd(data: seq<byte>, x: byte)
    requires |data| <= 2
    ensures |data| == 0 ==> Completed(|data|, LastOf(data), x) == [Symbol(S0(x))] && Ending(|data|, LastOf(data)) == ""
    ensures |data| == 1 ==> Completed(|data|, LastOf(data), x) == [Symbol(S1(data[0], x))]
    ensures |data| == 1 ==> Ending(|data|, LastOf(data)) == [Symbol(S1(data[0], 0)), '=', '=']
    ensures |data| == 2 ==> Completed(|data|, LastOf(data), x) == [Symbol(S2(data[1], x)), Symbol(S3(x))]
    ensures |data| == 2 ==> Ending(|data|, LastOf(data)) == [Symbol(S2(data[1], 0)), '=']
  {
    hide Symbol, S0, S1, S2, S3;
  }

  lemma BegunOf(a: byte, b: byte, c: byte)
    ensures Begun([]) == "" && Begun([a]) == [Symbol(S0(a))]
    ensures Begun([a, b]) == [Symbol(S0(a)), Symbol(S1(a, b))]
    ensures Begun([a, b, c]) == [Symbol(S0(a)), Symbol(S1(a, b))] + [Symbol(S2(b, c)), Symbol(S3(c))]
    ensures Encode([]) == "" && Encode([a]) == [Symbol(S0(a)), Symbol(S1(a, 0)), '=', '=']
    ensures Encode([a, b]) == [Symbol(S0(a)), Symbol(S1(a, b)), Symbol(S2(b, 0)), '=']
  {
    hide Symbol, S0, S1, S2, S3;
    ThreeSymbols(a, b, c);
    assert Begun([a, b, c]) == Three(a, b, c) + Begun([]);
  }

  lemma ThreeSymbols(a: byte, b: byte, c: byte)
    ensures Three(a, b, c) == [Symbol(S0(a)), Symbol(S1(a, b))] + [Symbol(S2(b, c)), Symbol(S3(c))]
  {
    hide Symbol, S0, S1, S2, S3;
  }

  lemma {:induction false} BegunSnoc(data: seq<byte>, x: byte)
    ensures Begun(data + [x]) == Begun(data) + Completed(|data|, LastOf(data), x)
    decreases |data|
  {
    hide Begun, Completed, LastOf, Three;
    if |data| > 2 {
      assert (data + [x])[3..] == data[3..] + [x];
      BegunSnoc(data[3..], x);
      BegunGroup(data);
      BegunGroup(data + [x]);
      SameEnd(data, x);
    } else {
      BegunShort(data, x);
    }
  }

  lemma {:induction false} EncodeFromBegun(data: seq<byte>)
    ensures Encode(data) == Begun(data) + Ending(|data|, LastOf(data))
    decreases |data|
  {
    hide Begun, Encode, Ending, LastOf, Three;
    if |data| > 2 {
      EncodeFromBegun(data[3..]);
      BegunGroup(data);
      SameEnd(data, 0);
    } else {
      BegunShort(data, 0);
    }
  }

  /** The encoder between two bytes: what is written, and what the accumulator keeps. */
  predicate Encoding(data: seq<byte>, bits: nat, acc: nat, done: string) {
    done == Begun(data) && bits == 2 * (|data| % 3) && Holds(acc, bits, LastOf(data))
  }

  lemma HoldsIs(acc: nat, last: nat)
    ensures Holds(acc, 0, last)
    ensures Holds(acc, 2, last) <==> acc % 4 == last % 4
    ensures Holds(acc, 4, last) <==> acc % 16 == last % 16
    ensures Holds(acc, 6, last) <==> acc % 64 == last % 64
  {
    Powers();
  }

  lemma Snoc<T>(s: seq<T>, x: T)
    ensures |s + [x]| == |s| + 1 && (s + [x])[|s|] == x
  {
  }

  /** A byte is read, and the inner loop writes one symbol or two. */
  lemma EncodeByte(data: seq<byte>, bits: nat, acc: nat, done: string, x: byte)
    requires Encoding(data, bits, acc, done)
    ensures var acc' := (acc * 256 + x) % UINT32;
      Encoding(data + [x], (bits + 8) % 6, acc', done + Pending(bits + 8, acc'))
  {
    BegunSnoc(data, x);
    Snoc(data, x);
    Phase(|data|);
    hide Symbol, Begun, Pending, Holds, S0, S1, S2, S3;
    var last := LastOf(data);
    var z := (acc * 256 + x) % UINT32;
    PendingIs(z);
    HoldsIs(acc, last);
    HoldsIs(z, x);
    if |data| % 3 == 0 {
      ByteAfterNone(acc, x);
    } else if |data| % 3 == 1 {
      ByteAfterTwo(acc, last, x);
    } else {
      ByteAfterFour(acc, last, x);
    }
  }

  lemma Phase(n: nat)
    ensures (n + 1) % 3 == if n % 3 == 2 then 0 else n % 3 + 1
    ensures (2 * (n % 3) + 8) % 6 == 2 * ((n + 1) % 3)
  {
  }

  lemma PendingIs(acc: nat)
    ensures Pending(8, acc) == [Symbol(acc / 4 % 64)]
    ensures Pending(10, acc) == [Symbol(acc / 16 % 64)]
    ensures Pending(12, acc) == [Symbol(acc / 64 % 64), Symbol(acc % 64)]
  {
    Powers();
    assert Pending(6, acc) == [Symbol(acc % 64)] + Pending(0, acc);
  }

  // ---------------------------------------------------------------- the code

  /** The inner loop of the encoder. */
  method WriteSymbols(out: array<char>, current: nat, bits: nat, acc: nat) returns (current': nat, bits': nat)
    requires current + |Pending(bits, acc)| <= out.Length
    modifies out
    ensures current' == current + |Pending(bits, acc)| && bits' == bits % 6
    ensures out[..current'] == old(out[..current]) + Pending(bits, acc)
  {
    hide Symbol, Pow2, Pending;
    current', bits' := current, bits;
    while bits' >= 6
      invariant current <= current' && current' + |Pending(bits', acc)| == current + |Pending(bits, acc)|
      invariant bits' % 6 == bits % 6
      invariant out[..current'] + Pending(bits', acc) == old(out[..current]) + Pending(bits, acc)
    {
      ghost var before := out[..current'];
      PendingStep(bits', acc);
      bits' := bits' - 6;
      var symbol := Symbol(acc / Pow2(bits') % 64);
      out[current'] := symbol;
      current' := current' + 1;
      assert out[..current'] == before + [symbol];
      assert before + ([symbol] + Pending(bits', acc)) == before + [symbol] + Pending(bits', acc);
    }
    NoPending(bits', acc);
    assert out[..current'] + "" == out[..current'];
  }

  lemma PendingStep(bits: nat, acc: nat)
    requires bits >= 6
    ensures Pending(bits, acc) == [Symbol(acc / Pow2(bits - 6) % 64)] + Pending(bits - 6, acc)
    ensures (bits - 6) % 6 == bits % 6
  {
  }

  lemma NoPending(bits: nat, acc: nat)
    requires bits < 6
    ensures Pending(bits, acc) == "" && bits % 6 == bits
  {
  }

  /** The loop over the bytes. */
  method WriteBytes(out: array<char>, start: nat, data: seq<byte>) returns (current: nat, bits: nat, acc: nat)
    requires out.Length == start + EncodedSize(|data|)
    modifies out
    ensures start <= current <= out.Length
    ensures out[..current] == old(out[..start]) + Begun(data)
    ensures Encoding(data, bits, acc, Begun(data))
  {
    hide Encoding, Begun, EncodedSize, Pending;
    current, bits, acc := start, 0, 0;
    var i := 0;
    Nothing();
    assert data[..0] == [];
    ghost var kept := out[..start];
    assert kept + "" == kept;
    while i < |data|
      invariant i <= |data| && current == start + |Begun(data[..i])| <= out.Length
      invariant out[..current] == kept + Begun(data[..i])
      invariant Encoding(data[..i], bits, acc, Begun(data[..i]))
    {
      ghost var done := Begun(data[..i]);
      assert data[..i + 1] == data[..i] + [data[i]];
      EncodeByte(data[..i], bits, acc, done, data[i]);
      BegunFits(data, i + 1);
      acc := (acc * 256 + data[i]) % UINT32;
      EncodingIs(data[..i + 1], (bits + 8) % 6, acc, done + Pending(bits + 8, acc));
      assert kept + done + Pending(bits + 8, acc) == kept + (done + Pending(bits + 8, acc));
      current, bits := WriteSymbols(out, current, bits + 8, acc);
      i := i + 1;
    }
    assert data[..|data|] == data;
    BegunFits(data, |data|);
  }

  lemma Nothing()
    ensures Begun([]) == "" && Encoding([], 0, 0, "")
  {
    HoldsIs(0, 0);
  }

  lemma EncodingIs(data: seq<byte>, bits: nat, acc: nat, done: string)
    requires Encoding(data, bits, acc, done)
    ensures done == Begun(data)
  {
  }

  lemma {:induction false} BegunSize(data: seq<byte>)
    ensures |Begun(data)| == |data| + |data| / 3
    decreases |data|
  {
    hide Symbol, S0, S1, S2, S3;
    if |data| > 2 {
      BegunSize(data[3..]);
      assert (|data| - 3) / 3 + 1 == |data| / 3;
    }
  }

  lemma BegunFits(data: seq<byte>, n: nat)
    requires n <= |data|
    ensures |Begun(data[..n])| <= EncodedSize(|data|)
  {
    BegunSize(data[..n]);
    assert n / 3 <= |data| / 3;
    assert |data| + |data| / 3 <= (|data| + 2) / 3 * 4;
  }

  /** The last symbol and the padding. */
  lemma Trailing(data: seq<byte>, bits: nat, acc: nat)
    requires Encoding(data, bits, acc, Begun(data))
    ensures bits == 0 || bits == 2 || bits == 4
    ensures |Begun(data)| + (if bits > 0 then 1 else 0) <= EncodedSize(|data|)
    ensures Encode(data) == Begun(data) + (if bits > 0 then [Symbol(acc * Pow2(6 - bits) % UINT32 % 64)] else "")
      + seq(EncodedSize(|data|) - |Begun(data)| - (if bits > 0 then 1 else 0), _ => '=')
  {
    hide Symbol, Begun, Encode, Holds, Encoding, S1, S2, LastOf;
    var last := LastOf(data);
    EncodingBits(data, bits, acc);
    EncodeFromBegun(data);
    BegunSize(data);
    HoldsIs(acc, last);
    Sizes(|data|);
    Powers();
    hide Pow2;
    if |data| % 3 == 0 {
      assert seq(0, _ => '=') == "";
    } else if |data| % 3 == 1 {
      LastTwo(acc, last);
      assert seq(2, _ => '=') == ['=', '='];
    } else {
      LastFour(acc, last);
      assert seq(1, _ => '=') == ['='];
    }
  }

  lemma EncodingBits(data: seq<byte>, bits: nat, acc: nat)
    requires Encoding(data, bits, acc, Begun(data))
    ensures bits == 2 * (|data| % 3) && Holds(acc, bits, LastOf(data))
  {
  }

  lemma LastTwo(acc: nat, last: byte)
    requires acc % 4 == last % 4
    ensures acc * 16 % UINT32 % 64 == S1(last, 0)
  {
    var q, r := acc / 4, acc % 4;
    assert acc == q * 4 + r;
    Low64(acc * 16, q, r * 16);
  }

  lemma LastFour(acc: nat, last: byte)
    requires acc % 16 == last % 16
    ensures acc * 4 % UINT32 % 64 == S2(last, 0)
  {
    var q, r := acc / 16, acc % 16;
    assert acc == q * 16 + r;
    Low64(acc * 4, q, r * 4);
  }

  lemma Sizes(n: nat)
    ensures n + n / 3 + (if n % 3 == 0 then 0 else 4 - n % 3) == EncodedSize(n)
  {
  }

  /** `ToBase64`: the buffer is resized once, and the writes stay inside it. */
  method ToBase64(data: seq<byte>, buffer: string, append: bool) returns (result: string)
    requires |buffer| + EncodedSize(|data|) < UINT32
    ensures result == (if append then buffer else "") + Encode(data)
  {
    hide Encode, Begun, Encoding, EncodedSize, Symbol, Holds;
    var start := if append then |buffer| else 0;
    var out := new char[start + EncodedSize(|data|)](i => if 0 <= i < |buffer| then buffer[i] else '\0');
    assert out[..start] == if append then buffer else "";
    var current, bits, acc := WriteBytes(out, start, data);
    Trailing(data, bits, acc);
    ghost var written := out[..current];
    if bits > 0 {
      out[current] := Symbol(acc * Pow2(6 - bits) % UINT32 % 64);
      current := current + 1;
    }
    ghost var tail := if bits > 0 then [Symbol(acc * Pow2(6 - bits) % UINT32 % 64)] else "";
    ghost var from := current;
    assert out[..from] == written + tail;
    while current < out.Length
      invariant from <= current <= out.Length
      invariant out[..from] == written + tail
      invariant forall k :: from <= k < current ==> out[k] == '='
    {
      out[current] := '=';
      current := current + 1;
    }
    assert out[..] == written + tail + seq(out.Length - from, _ => '=');
    result := out[..];
  }

  // ---------------------------------------------------------------- decoder

  /** The bytes that one more symbol completes. */
  function Made(n: nat, last: sextet, v: sextet): seq<byte> {
    if n % 4 == 0 then [] else if n % 4 == 1 then [First(last, v)] else if n % 4 == 2 then [Second(last, v)] else [Third(last, v)]
  }

  function LastSymbol(s: seq<sextet>): sextet { if s == [] then 0 else s[|s| - 1] }

  lemma {:induction false} BytesSnoc(values: seq<sextet>, v: sextet)
    ensures Bytes(values + [v]) == Bytes(values) + Made(|values|, LastSymbol(values), v)
    decreases |values|
  {
    hide First, Second, Third;
    if |values| > 3 {
      assert (values + [v])[4..] == values[4..] + [v];
      BytesSnoc(values[4..], v);
      assert Made(|values|, LastSymbol(values), v) == Made(|values[4..]|, LastSymbol(values[4..]), v);
    }
  }

  /** The decoder between two symbols. */
  predicate Decoding(values: seq<sextet>, bits: nat, acc: nat, done: seq<byte>) {
    done == Bytes(values) && bits == 6 * |values| % 8 && Holds(acc, bits, LastSymbol(values))
  }

  /** What a symbol makes the decoder write. */
  function Output(bits: nat, acc: nat): seq<byte> {
    if bits < 8 then [] else [acc / Pow2(bits - 8) % 256]
  }

  lemma DecodeSymbol(values: seq<sextet>, bits: nat, acc: nat, done: seq<byte>, v: sextet)
    requires Decoding(values, bits, acc, done)
    ensures var z := (acc * 64 + v) % UINT32;
      Decoding(values + [v], (bits + 6) % 8, z, done + Output(bits + 6, z))
  {
    hide Bytes, Holds, Made, Output;
    BytesSnoc(values, v);
    Snoc(values, v);
    SymbolStep(|values|, bits, acc, LastSymbol(values), v);
  }

  lemma SymbolStep(n: nat, bits: nat, acc: nat, last: sextet, v: sextet)
    requires bits == 6 * n % 8 && Holds(acc, bits, last)
    ensures var z := (acc * 64 + v) % UINT32;
      Output(bits + 6, z) == Made(n, last, v) && Holds(z, (bits + 6) % 8, v) && (bits + 6) % 8 == 6 * (n + 1) % 8
  {
    hide Holds, First, Second, Third, Pow2;
    var z := (acc * 64 + v) % UINT32;
    Powers();
    HoldsIs(acc, last);
    HoldsIs(z, v);
    FourPhases(n);
    FourPhases(n + 1);
    if n % 4 == 0 {
      SymbolAfterNone(acc, v);
    } else if n % 4 == 1 {
      SymbolAfterSix(acc, last, v);
    } else if n % 4 == 2 {
      SymbolAfterFour(acc, last, v);
    } else {
      SymbolAfterTwo(acc, last, v);
    }
  }

  lemma FourPhases(n: nat)
    ensures 6 * n % 8 == if n % 4 == 0 then 0 else if n % 4 == 1 then 6 else if n % 4 == 2 then 4 else 2
    ensures (n + 1) % 4 == if n % 4 == 3 then 0 else n % 4 + 1
  {
    var q, r := n / 4, n % 4;
    assert n == q * 4 + r;
    assert 6 * n == 3 * q * 8 + 6 * r;
    NextOfFour(n);
  }

  lemma NextOfFour(n: nat)
    ensures (n + 1) % 4 == if n % 4 == 3 then 0 else n % 4 + 1
  {
  }

  lemma NoSymbol()
    ensures Values("") == Some([]) && Decoding([], 0, 0, [])
  {
    HoldsIs(0, 0);
  }

  function Room(size: nat): nat { (size + 3) / 4 * 3 }

  lemma {:induction false} BytesSize(v: seq<sextet>)
    ensures |Bytes(v)| == |v| * 3 / 4
    decreases |v|
  {
    hide First, Second, Third;
    if |v| > 3 {
      BytesSize(v[4..]);
      assert (|v| - 4) * 3 / 4 + 3 == |v| * 3 / 4;
    }
  }

  lemma {:induction false} ValuesSize(text: string)
    ensures Values(text).Some? ==> |Values(text).value| <= |text|
    decreases |text|
  {
    hide Skipped, Reverse;
    if text != "" {
      ValuesSize(text[..|text| - 1]);
    }
  }

  lemma Fits(text: string, n: nat)
    requires n <= |text| && Values(text[..n]).Some?
    ensures |Bytes(Values(text[..n]).value)| <= Room(|text|)
  {
    hide Bytes;
    ValuesSize(text[..n]);
    BytesSize(Values(text[..n]).value);
    var k := |Values(text[..n]).value|;
    assert k * 3 / 4 <= (|text| + 3) / 4 * 3;
  }

  /** A text that holds a foreign character has no values. */
  lemma {:induction false} NoneFrom(text: string, n: nat)
    requires n <= |text| && Values(text[..n]).None?
    ensures Values(text).None?
    decreases |text|
  {
    hide Skipped, Reverse;
    if n == |text| {
      assert text[..n] == text;
    } else {
      var before := text[..|text| - 1];
      assert before[..n] == text[..n];
      NoneFrom(before, n);
    }
  }

  /** The decoder refuses a text exactly when it holds something else than symbols, white space and padding. */
  lemma {:induction false} RefusedIff(text: string)
    ensures Decode(text).None? <==> exists i :: 0 <= i < |text| && !Skipped(text[i]) && Reverse(text[i]) == 64
    decreases |text|
  {
    hide Skipped, Reverse;
    if text != "" {
      var n := |text| - 1;
      RefusedIff(text[..n]);
      if Decode(text[..n]).None? {
        var i :| 0 <= i < n && !Skipped(text[..n][i]) && Reverse(text[..n][i]) == 64;
        assert text[i] == text[..n][i];
      } else if Decode(text).Some? {
        forall i | 0 <= i < |text|
          ensures Skipped(text[i]) || Reverse(text[i]) != 64
        {
          if i < n {
            assert text[i] == text[..n][i];
          }
        }
      }
    }
  }

  /** `FromBase64`: one byte at most is written for each symbol, inside the room made for them at the start. */
  method FromBase64(text: string, buffer: seq<byte>, append: bool) returns (ok: bool, result: seq<byte>)
    requires |buffer| + Room(|text|) < UINT32
    ensures ok == Decode(text).Some?
    ensures result == (if append then buffer else []) + if ok then Decode(text).value else []
  {
    hide Values, Bytes, Decoding, Room, Reverse, Skipped;
    var oldSize := if append then |buffer| else 0;
    var out := new byte[if |buffer| < oldSize + Room(|text|) then oldSize + Room(|text|) else |buffer|]
      (i => if 0 <= i < |buffer| then buffer[i] else 0);
    ghost var kept := if append then buffer else [];
    assert out[..oldSize] == kept;
    var bits: nat, acc: nat, size: nat := 0, 0, 0;
    var i := 0;
    ghost var values: seq<sextet> := [];
    NoSymbol();
    assert text[..0] == "" && kept + [] == kept;
    Fits(text, 0);
    while i < |text|
      invariant i <= |text| && oldSize + size <= out.Length
      invariant Values(text[..i]) == Some(values) && size == |Bytes(values)|
      invariant out[..oldSize + size] == kept + Bytes(values)
      invariant Decoding(values, bits, acc, Bytes(values))
    {
      var c := text[i];
      assert text[..i + 1] == text[..i] + [c];
      ValuesSnoc(text[..i], c);
      i := i + 1;
      if Skipped(c) {
        continue;
      }
      if Reverse(c) > 63 {
        NoneFrom(text, i);
        return false, out[..oldSize];
      }
      var v: sextet := Reverse(c);
      acc, bits, size, values := DecodeOne(out, oldSize, kept, text, i, values, bits, acc, size, v);
    }
    assert text[..|text|] == text;
    ok, result := true, out[..oldSize + size];
  }

  function TextOf(bytes: seq<byte>): string { seq(|bytes|, i requires 0 <= i < |bytes| => bytes[i] as char) }

  /** The text is large enough to hold what is made of it, and so not resized before it is read, unless it has one,
      two or five characters. */
  lemma RoomInPlaceIff(n: nat)
    ensures Room(n) <= n <==> n != 1 && n != 2 && n != 5
  {
  }

  /** What has been read makes room for what it says. */
  lemma BehindTheReader(text: string, n: nat)
    requires n <= |text| && Values(text[..n]).Some?
    ensures |Bytes(Values(text[..n]).value)| <= n
  {
    ValuesSize(text[..n]);
    BytesSize(Values(text[..n]).value);
  }

  /** `FromBase64(buffer)`: a text is decoded into itself; the bytes written stay behind the characters still to read. */
  method FromBase64InPlace(a: array<byte>) returns (ok: bool, size: nat)
    requires Room(a.Length) <= a.Length
    modifies a
    ensures ok == Decode(TextOf(old(a[..]))).Some? && size <= a.Length
    ensures a[..size] == if ok then Decode(TextOf(old(a[..]))).value else []
  {
    hide Values, Bytes, Decoding, Room, Reverse, Skipped;
    ghost var text := TextOf(a[..]);
    var bits: nat, acc: nat := 0, 0;
    size := 0;
    var i := 0;
    ghost var values: seq<sextet> := [];
    NoSymbol();
    assert text[..0] == "" && [] + Bytes(values) == Bytes(values);
    while i < a.Length
      invariant size <= i <= a.Length
      invariant Values(text[..i]) == Some(values) && size == |Bytes(values)|
      invariant a[..size] == [] + Bytes(values)
      invariant Decoding(values, bits, acc, Bytes(values))
      invariant forall k :: i <= k < a.Length ==> a[k] as char == text[k]
    {
      var c := a[i] as char;
      assert text[..i + 1] == text[..i] + [c];
      ValuesSnoc(text[..i], c);
      i := i + 1;
      if Skipped(c) {
        continue;
      }
      if Reverse(c) > 63 {
        NoneFrom(text, i);
        return false, 0;
      }
      var v: sextet := Reverse(c);
      acc, bits, size, values := DecodeOne(a, 0, [], text, i, values, bits, acc, size, v);
      BehindTheReader(text, i);
    }
    assert text[..|text|] == text;
    assert [] + Bytes(values) == Bytes(values);
    ok := true;
  }

  /** One symbol. */
  method DecodeOne(out: array<byte>, oldSize: nat, ghost kept: seq<byte>, ghost text: string, ghost i: nat, ghost values: seq<sextet>,
                   bits: nat, acc: nat, size: nat, v: sextet)
    returns (acc': nat, bits': nat, size': nat, ghost values': seq<sextet>)
    requires |kept| == oldSize && oldSize + Room(|text|) <= out.Length && size == |Bytes(values)| && oldSize + size <= out.Length
    requires i <= |text| && Values(text[..i]) == Some(values + [v])
    requires out[..oldSize + size] == kept + Bytes(values) && Decoding(values, bits, acc, Bytes(values))
    modifies out
    ensures values' == values + [v] && size' == |Bytes(values')| && oldSize + size' <= out.Length
    ensures out[..oldSize + size'] == kept + Bytes(values') && Decoding(values', bits', acc', Bytes(values'))
    ensures forall k :: oldSize + size' <= k < out.Length ==> out[k] == old(out[k])
  {
    hide Values, Bytes, Room, Holds;
    acc', bits', size' := (acc * 64 + v) % UINT32, bits + 6, size;
    values' := values + [v];
    DecodeSymbol(values, bits, acc, Bytes(values), v);
    DecodingBits(values, bits, acc);
    Fits(text, i);
    ghost var done := Bytes(values);
    assert Bytes(values') == done + Output(bits', acc');
    hide Decoding;
    if bits' >= 8 {
      bits' := bits' - 8;
      ghost var before := out[..oldSize + size];
      out[oldSize + size'] := acc' / Pow2(bits') % 256;
      size' := size' + 1;
      assert out[..oldSize + size'] == before + [acc' / Pow2(bits') % 256];
    }
    assert kept + done + Output(bits + 6, acc') == kept + (done + Output(bits + 6, acc'));
  }

  lemma DecodingBits(values: seq<sextet>, bits: nat, acc: nat)
    requires Decoding(values, bits, acc, Bytes(values))
    ensures bits < 8
  {
  }
}
