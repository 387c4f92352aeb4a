/** The definite-length BER codec the SNMP probe uses (sections 8.1.3 and 8.3 of ITU-T X.690). */
module Ber {
  import opened Wrappers
  import opened Bytes

  datatype BerError = Protocol | ResponseLimit

  datatype Parsed<+T> = Parsed(value: T, rest: seq<Byte>)

  // ---------------------------------------------------------------- encoding

  /** One length byte below 128, else the two low-order bytes behind a marker. */
  function LengthBytes(n: nat): seq<Byte> {
    if n < 128 then [n] else [0x82, n / 256 % 256, n % 256]
  }

  function Encode(tag: Byte, v: seq<Byte>): seq<Byte> {
    [tag] + LengthBytes(|v|) + v
  }

  /** The index of the first non-zero byte, or of the last byte. */
  function FirstNonZero(s: seq<Byte>): nat
    requires s != []
    ensures FirstNonZero(s) < |s|
  {
    if |s| == 1 || s[0] != 0 then 0 else 1 + FirstNonZero(s[1..])
  }

  function TwosComplement(value: int): nat
    requires -0x8000_0000 <= value < 0x8000_0000
  {
    if value < 0 then value + 0x1_0000_0000 else value
  }

  function IntegerContent(value: int): seq<Byte>
    requires -0x8000_0000 <= value < 0x8000_0000
  {
    var bytes := BigEndian(TwosComplement(value), 4);
    var content := bytes[FirstNonZero(bytes)..];
    if content[0] >= 0x80 then [0] + content else content
  }

  function EncodeInteger(value: int): seq<Byte>
    requires -0x8000_0000 <= value < 0x8000_0000
  {
    Encode(0x02, IntegerContent(value))
  }

  // ---------------------------------------------------------------- decoding

  datatype Header = Header(size: nat, length: nat)

  /** Where the value starts and how long it claims to be. */
  function ReadHeader(input: seq<Byte>, expected: Byte): Result<Header, BerError> {
    if |input| < 2 || input[0] != expected then Err(Protocol)
    else if input[1] < 0x80 then Ok(Header(2, input[1]))
    else
      var count := input[1] - 0x80;
      if count == 0 || count > 2 || |input| < 2 + count then Err(Protocol)
      else Ok(Header(2 + count, Number(input[2..2 + count])))
  }

  function Decode(input: seq<Byte>, expected: Byte): Result<Parsed<seq<Byte>>, BerError> {
    match ReadHeader(input, expected)
    case Err(e) => Err(e)
    case Ok(h) =>
      if h.length > 16384 || h.size + h.length > |input| then Err(ResponseLimit)
      else Ok(Parsed(input[h.size..h.size + h.length], input[h.size + h.length..]))
  }

  function DecodeInteger(input: seq<Byte>): Result<Parsed<int>, BerError> {
    match Decode(input, 0x02)
    case Err(e) => Err(e)
    case Ok(p) =>
      if p.value == [] || |p.value| > 5 then Err(Protocol)
      else if Number(p.value) >= 0x8000_0000 then Err(Protocol)
      else Ok(Parsed(Number(p.value), p.rest))
  }

  /** Advances the input past one value. */
  method Tlv(input: seq<Byte>, expected: Byte) returns (r: Result<Parsed<seq<Byte>>, BerError>)
    ensures r == Decode(input, expected)
  {
    if |input| < 2 || input[0] != expected {
      return Err(Protocol);
    }
    var first := input[1];
    var header: nat, length: nat := 2, first;
    if first >= 0x80 {
      var count := first - 0x80;
      if count == 0 || count > 2 || |input| < 2 + count {
        return Err(Protocol);
      }
      header, length := 2 + count, 0;
      var i := 2;
      while i < header
        invariant 2 <= i <= header && length == Number(input[2..i])
      {
        assert input[2..i + 1] == input[2..i] + [input[i]];
        NumberSnoc(input[2..i], input[i]);
        length := 256 * length + input[i];
        i := i + 1;
      }
    }
    if length > 16384 || header + length > |input| {
      return Err(ResponseLimit);
    }
    return Ok(Parsed(input[header..header + length], input[header + length..]));
  }

  method Integer(input: seq<Byte>) returns (r: Result<Parsed<int>, BerError>)
    ensures r == DecodeInteger(input)
  {
    var value := Tlv(input, 0x02);
    if value.Err? {
      return Err(value.error);
    }
    var bytes := value.value.value;
    if bytes == [] || |bytes| > 5 {
      return Err(Protocol);
    }
    var out: nat := 0;
    for i := 0 to |bytes|
      invariant out == Number(bytes[..i])
    {
      assert bytes[..i + 1] == bytes[..i] + [bytes[i]];
      NumberSnoc(bytes[..i], bytes[i]);
      out := 256 * out + bytes[i];
    }
    assert bytes[..|bytes|] == bytes;
    if out >= 0x8000_0000 {
      return Err(Protocol);
    }
    return Ok(Parsed(out, value.value.rest));
  }

  // ---------------------------------------------------------------- round trips

  lemma TwoBytes(a: Byte, b: Byte)
    ensures Number([a, b]) == 256 * a + b
  {
    assert [a, b] == [] + [a] + [b];
    NumberSnoc([], a);
    NumberSnoc([] + [a], b);
  }

  /** The header an encoding starts with. */
  lemma EncodedHeader(tag: Byte, v: seq<Byte>, suffix: seq<Byte>)
    ensures ReadHeader(Encode(tag, v) + suffix, tag) ==
            Ok(Header(1 + |LengthBytes(|v|)|, if |v| < 128 then |v| else |v| % 65536))
  {
    var input := Encode(tag, v) + suffix;
    assert input[0] == tag && input[1] == LengthBytes(|v|)[0];
    if |v| >= 128 {
      var n, length := |v|, LengthBytes(|v|);
      assert input[1..4] == length;
      assert input[2] == input[1..4][1] && input[3] == input[1..4][2];
      assert input[2..4] == [input[2], input[3]];
      TwoBytes(n / 256 % 256, n % 256);
      LowBytes(n);
    }
  }

  lemma Remainder(n: nat, q: nat, r: nat)
    requires n == 65536 * q + r && r < 65536
    ensures n % 65536 == r
  {
  }

  lemma LowBytes(n: nat)
    ensures 256 * (n / 256 % 256) + n % 256 == n % 65536
  {
    var q, r := n / 256, n % 256;
    var q', r' := q / 256, q % 256;
    assert n == 256 * q + r && q == 256 * q' + r';
    Remainder(n, q', 256 * r' + r);
  }

  /** Decoding an encoding gives the value and leaves the suffix exactly when the value is at most 16384 bytes. */
  lemma RoundTripIff(tag: Byte, v: seq<Byte>, suffix: seq<Byte>)
    ensures Decode(Encode(tag, v) + suffix, tag) == Ok(Parsed(v, suffix)) <==> |v| <= 16384
  {
    var input, size := Encode(tag, v) + suffix, 1 + |LengthBytes(|v|)|;
    EncodedHeader(tag, v, suffix);
    if |v| <= 16384 {
      assert input[size..size + |v|] == v && input[size + |v|..] == suffix;
    }
  }

  lemma {:induction false} TrimmedNumber(s: seq<Byte>)
    requires s != []
    ensures Number(s[FirstNonZero(s)..]) == Number(s)
  {
    if |s| > 1 && s[0] == 0 {
      TrimmedNumber(s[1..]);
      assert s == [0] + s[1..];
      LeadingZero(s[1..]);
      assert s[FirstNonZero(s)..] == s[1..][FirstNonZero(s[1..])..];
    } else {
      assert s[0..] == s;
    }
  }

  lemma ContentSpells(value: int)
    requires -0x8000_0000 <= value < 0x8000_0000
    ensures Number(IntegerContent(value)) == TwosComplement(value) && 0 < |IntegerContent(value)| <= 5
  {
    var n := TwosComplement(value);
    var bytes := BigEndian(n, 4);
    assert Power(4) == 256 * Power(3) && Power(3) == 256 * Power(2) && Power(2) == 256 * Power(1);
    NumberInverse(n, 4);
    TrimmedNumber(bytes);
    LeadingZero(bytes[FirstNonZero(bytes)..]);
  }

  /** An encoded integer decodes to itself exactly when it is not negative. */
  lemma IntegerRoundTripIff(value: int, suffix: seq<Byte>)
    requires -0x8000_0000 <= value < 0x8000_0000
    ensures DecodeInteger(EncodeInteger(value) + suffix) == Ok(Parsed(value, suffix)) <==> value >= 0
    ensures value < 0 ==> DecodeInteger(EncodeInteger(value) + suffix) == Err(Protocol)
  {
    ContentSpells(value);
    RoundTripIff(0x02, IntegerContent(value), suffix);
  }
}
