/** Message identifiers: a 48-bit millisecond timestamp and ten random bytes, in hexadecimal. */
module MessageId {
  import opened Ordering

  const TIMESTAMP_BYTES := 6
  const ID_BYTES := 16
  const WORD := 0x1_0000_0000_0000_0000
  const STAMP_RANGE := 0x1_0000_0000_0000

  type Byte = b: int | 0 <= b < 256

  datatype Option<+T> = None | Some(value: T)

  /** What the random source delivered: all ten bytes, or fewer before it failed. */
  datatype Entropy = Full(bytes: seq<Byte>) | Short(bytes: seq<Byte>)

  ghost predicate Drawn(e: Entropy) {
    if e.Full? then |e.bytes| == 10 else |e.bytes| < 10
  }

  // ----- Big-endian numbers -----

  function Pow(w: nat): (r: nat)
    ensures r > 0
  {
    if w == 0 then 1 else 256 * Pow(w - 1)
  }

  function Bytes(n: nat, w: nat): (r: seq<Byte>)
    ensures |r| == w
  {
    if w == 0 then [] else [n / Pow(w - 1) % 256] + Bytes(n, w - 1)
  }

  function Value(bs: seq<Byte>): nat {
    if bs == [] then 0 else bs[0] * Pow(|bs| - 1) + Value(bs[1..])
  }

  lemma {:induction false} ValueBounded(bs: seq<Byte>)
    ensures Value(bs) < Pow(|bs|)
    decreases |bs|
  {
    if bs != [] {
      ValueBounded(bs[1..]);
      Below(bs[0], Pow(|bs| - 1));
    }
  }

  lemma Below(b: Byte, p: nat)
    ensures 0 <= b * p <= 255 * p
  {}

  lemma DivideBy(n: int, p: int)
    requires p > 0
    ensures n == n / p * p + n % p
  {}

  lemma Scale(d: int, p: int)
    requires p > 0
    ensures (d > 0 ==> d * p >= p) && (d < 0 ==> d * p <= -p)
  {}

  lemma QuotientIs(n: int, p: int, q: int, r: int)
    requires p > 0 && n == q * p + r && 0 <= r < p
    ensures n % p == r
  {
    DivideBy(n, p);
    var d := q - n / p;
    assert d * p == q * p - n / p * p;
    Scale(d, p);
  }

  lemma Distribute(a: int, b: int, p: int)
    ensures (a * 256 + b) * p == a * (256 * p) + b * p
  {}

  lemma Combine(n: int, p: int, q: int, r: int, a: int, b: int)
    requires n == q * p + r && 0 <= r < p && q == a * 256 + b && 0 <= b < 256
    ensures n % (256 * p) == b * p + r
  {
    Distribute(a, b, p);
    Below(b, p);
    QuotientIs(n, 256 * p, a, b * p + r);
  }

  /** Splitting off the leading byte of a remainder. */
  lemma RemainderSplits(n: int, p: int)
    requires p > 0
    ensures n % (256 * p) == n / p % 256 * p + n % p
  {
    DivideBy(n, p);
    DivideBy(n / p, 256);
    Combine(n, p, n / p, n % p, n / p / 256, n / p % 256);
  }

  lemma {:induction false} ValueOfBytes(n: nat, w: nat)
    ensures Value(Bytes(n, w)) == n % Pow(w)
    decreases w
  {
    if w > 0 {
      ValueOfBytes(n, w - 1);
      RemainderSplits(n, Pow(w - 1));
      assert Bytes(n, w)[1..] == Bytes(n, w - 1);
    }
  }

  lemma Powers()
    ensures Pow(6) == STAMP_RANGE && Pow(8) == WORD
  {
    assert Pow(2) == 0x1_0000 && Pow(4) == 256 * Pow(3) && Pow(3) == 256 * Pow(2);
    assert Pow(6) == 256 * Pow(5) && Pow(5) == 256 * Pow(4);
    assert Pow(8) == 256 * Pow(7) && Pow(7) == 256 * Pow(6);
  }

  // ----- Hexadecimal -----

  function Digit(d: int): char
    requires 0 <= d < 16
  {
    "0123456789abcdef"[d]
  }

  /** Both letter cases are read; only lower case is written. */
  function DigitValue(c: char): Option<int> {
    if '0' <= c <= '9' then Some(c as int - '0' as int)
    else if 'a' <= c <= 'f' then Some(c as int - 'a' as int + 10)
    else if 'A' <= c <= 'F' then Some(c as int - 'A' as int + 10)
    else None
  }

  lemma DigitIs(d: int)
    requires 0 <= d < 16
    ensures Digit(d) as int == if d < 10 then '0' as int + d else 'a' as int + d - 10
    ensures DigitValue(Digit(d)) == Some(d)
  {}

  function Encode(bs: seq<Byte>): (s: string)
    ensures |s| == 2 * |bs|
  {
    if bs == [] then "" else [Digit(bs[0] / 16), Digit(bs[0] % 16)] + Encode(bs[1..])
  }

  function Decode(s: string): (r: Option<seq<Byte>>)
    ensures r.Some? ==> |s| == 2 * |r.value|
  {
    if s == "" then Some([])
    else if |s| == 1 then None
    else
      match (DigitValue(s[0]), DigitValue(s[1]), Decode(s[2..]))
      case (Some(high), Some(low), Some(rest)) =>
        assert 0 <= high < 16 && 0 <= low < 16;
        Some([high * 16 + low] + rest)
      case _ => None
  }

  lemma DecodePair(b: Byte, rest: string)
    ensures Decode([Digit(b / 16), Digit(b % 16)] + rest)
            == match Decode(rest) case Some(bs) => Some([b] + bs) case None => None
  {
    hide Digit, DigitValue;
    DigitIs(b / 16);
    DigitIs(b % 16);
    assert ([Digit(b / 16), Digit(b % 16)] + rest)[2..] == rest;
  }

  lemma {:induction false} DecodeEncode(bs: seq<Byte>)
    ensures Decode(Encode(bs)) == Some(bs)
    decreases |bs|
  {
    hide Decode, Digit;
    if bs == [] {
      assert Decode("") == Some([]) by { DecodeNothing(); }
    } else {
      DecodeEncode(bs[1..]);
      DecodePair(bs[0], Encode(bs[1..]));
      assert bs == [bs[0]] + bs[1..];
    }
  }

  lemma DecodeNothing()
    ensures Decode("") == Some([])
  {}

  /** Decoding accepts exactly the strings of an even number of hexadecimal digits. */
  lemma {:induction false} DecodesIff(s: string)
    ensures Decode(s).Some? <==> |s| % 2 == 0 && forall i :: 0 <= i < |s| ==> DigitValue(s[i]).Some?
    decreases |s|
  {
    if |s| >= 2 {
      DecodesIff(s[2..]);
      assert forall i :: 2 <= i < |s| ==> s[i] == s[2..][i - 2];
    }
  }

  // ----- Identifiers -----

  function Stamp(ms: int): (r: seq<Byte>)
    ensures |r| == TIMESTAMP_BYTES
  {
    Bytes(ms % WORD, TIMESTAMP_BYTES)
  }

  /** The ten trailing bytes. When the random source fails, the clock overwrites the first eight. */
  function Tail(e: Entropy, nanos: int): (r: seq<Byte>)
    ensures Drawn(e) ==> |r| == 10
  {
    if e.Full? then e.bytes
    else Bytes(nanos % WORD, 8) + [if |e.bytes| > 8 then e.bytes[8] else 0, 0]
  }

  function Identifier(ms: int, tail: seq<Byte>): string {
    Encode(Stamp(ms) + tail)
  }

  /** The timestamp an identifier carries, if it has the right form. */
  function TimestampIn(id: string): Option<int> {
    match Decode(id)
    case Some(raw) => if |raw| != ID_BYTES then None else Some(Value(raw[..TIMESTAMP_BYTES]))
    case None => None
  }

  // ----- In place -----

  method PutWord(buffer: array<Byte>, at: nat, v: nat)
    requires at + 8 <= buffer.Length
    modifies buffer
    ensures buffer[..] == old(buffer[..at]) + Bytes(v, 8) + old(buffer[at + 8..])
  {
    for i := 0 to 8
      invariant buffer[..at] == old(buffer[..at]) && buffer[at + 8..] == old(buffer[at + 8..])
      invariant buffer[at..at + i] == Bytes(v, 8)[..i]
    {
      BytesAt(v, 8, i);
      buffer[at + i] := v / Pow(7 - i) % 256;
    }
    assert buffer[..] == buffer[..at] + buffer[at..at + 8] + buffer[at + 8..];
  }

  lemma {:induction false} BytesAt(n: nat, w: nat, i: nat)
    requires i < w
    ensures Bytes(n, w)[i] == n / Pow(w - 1 - i) % 256
    decreases w
  {
    if i > 0 { BytesAt(n, w - 1, i - 1); }
  }

  method Word(buffer: array<Byte>) returns (v: nat)
    requires buffer.Length == 8
    ensures v == Value(buffer[..])
  {
    v := 0;
    var i := 8;
    while i > 0
      invariant 0 <= i <= 8 && v == Value(buffer[i..])
    {
      i := i - 1;
      assert buffer[i..][1..] == buffer[i + 1..];
      v := v + buffer[i] * Pow(7 - i);
    }
    assert buffer[0..] == buffer[..];
  }

  method NewIdAt(ms: int, nanos: int, entropy: Entropy) returns (id: string)
    requires Drawn(entropy)
    ensures id == Identifier(ms, Tail(entropy, nanos))
  {
    var raw := new Byte[ID_BYTES](_ => 0);
    var stamp := new Byte[8](_ => 0);
    PutWord(stamp, 0, ms % WORD);
    assert stamp[..] == Bytes(ms % WORD, 8);
    for i := 0 to TIMESTAMP_BYTES
      invariant raw[..i] == stamp[2..2 + i] && stamp[..] == Bytes(ms % WORD, 8)
      invariant forall j :: i <= j < ID_BYTES ==> raw[j] == 0
    {
      raw[i] := stamp[2 + i];
    }
    StampIs(ms);
    for i := 0 to |entropy.bytes|
      invariant raw[..TIMESTAMP_BYTES] == Stamp(ms)
      invariant forall j :: 0 <= j < i ==> raw[TIMESTAMP_BYTES + j] == entropy.bytes[j]
      invariant forall j :: TIMESTAMP_BYTES + i <= j < ID_BYTES ==> raw[j] == 0
    {
      raw[TIMESTAMP_BYTES + i] := entropy.bytes[i];
    }
    if entropy.Short? {
      PutWord(raw, TIMESTAMP_BYTES, nanos % WORD);
    }
    assert raw[..] == Stamp(ms) + Tail(entropy, nanos);
    id := Encode(raw[..]);
  }

  lemma StampIs(ms: int)
    ensures Bytes(ms % WORD, 8)[2..] == Stamp(ms)
  {
    var v := ms % WORD;
    assert Bytes(v, 8)[1..] == Bytes(v, 7) && Bytes(v, 7)[1..] == Bytes(v, 6);
  }

  method TimestampOf(id: string) returns (r: Option<int>)
    ensures r == TimestampIn(id)
  {
    var decoded := Decode(id);
    if decoded.None? || |decoded.value| != ID_BYTES {
      return None;
    }
    var stamp := new Byte[8](_ => 0);
    for i := 0 to TIMESTAMP_BYTES
      invariant stamp[0] == stamp[1] == 0 && stamp[2..2 + i] == decoded.value[..i]
    {
      stamp[2 + i] := decoded.value[i];
    }
    var v := Word(stamp);
    LeadingZeros(decoded.value[..TIMESTAMP_BYTES]);
    assert stamp[..] == [0, 0] + decoded.value[..TIMESTAMP_BYTES];
    r := Some(v);
  }

  lemma LeadingZeros(bs: seq<Byte>)
    ensures Value([0, 0] + bs) == Value(bs)
  {
    assert ([0, 0] + bs)[1..] == [0] + bs && ([0] + bs)[1..] == bs;
  }

  // ----- Promises -----

  lemma StampValue(ms: int)
    ensures Value(Stamp(ms)) == ms % STAMP_RANGE
  {
    ValueOfBytes(ms % WORD, TIMESTAMP_BYTES);
    Powers();
    DivideBy(ms, WORD);
    var q := ms / WORD;
    DivideBy(ms % WORD, STAMP_RANGE);
    QuotientIs(ms, STAMP_RANGE, q * 65536 + ms % WORD / STAMP_RANGE, ms % WORD % STAMP_RANGE);
  }

  /** The timestamp read back is the one written, if and only if it fits in 48 bits. */
  lemma TimestampRoundTrips(ms: int, entropy: Entropy, nanos: int)
    requires Drawn(entropy)
    ensures var read := TimestampIn(Identifier(ms, Tail(entropy, nanos)));
            && read == Some(ms % STAMP_RANGE)
            && (read == Some(ms) <==> 0 <= ms < STAMP_RANGE)
  {
    hide Encode, Decode, Stamp, Value, Tail;
    var raw := Stamp(ms) + Tail(entropy, nanos);
    DecodeEncode(raw);
    StampValue(ms);
    assert raw[..TIMESTAMP_BYTES] == Stamp(ms);
  }

  /** An identifier is accepted exactly when it is 32 hexadecimal digits, in either case. */
  lemma WellFormedIff(id: string)
    ensures TimestampIn(id).Some? <==> |id| == 32 && forall i :: 0 <= i < |id| ==> DigitValue(id[i]).Some?
  {
    DecodesIff(id);
  }

  lemma EncodedByteLess(a: Byte, b: Byte)
    requires a < b
    ensures a / 16 < b / 16 || (a / 16 == b / 16 && a % 16 < b % 16)
  {}

  /** Hexadecimal keeps the order of numbers, whatever follows them. */
  lemma {:induction false} EncodeOrders(x: seq<Byte>, y: seq<Byte>, t: seq<Byte>, u: seq<Byte>)
    requires |x| == |y| && Value(x) < Value(y)
    ensures Less(Encode(x + t), Encode(y + u))
    decreases |x|
  {
    if x != [] {
      ValueBounded(x[1..]);
      ValueBounded(y[1..]);
      LeadingByte(x[0], y[0], Pow(|x| - 1), Value(x[1..]), Value(y[1..]));
      assert (x + t)[1..] == x[1..] + t && (y + u)[1..] == y[1..] + u;
      EncodeHead(x[0], x[1..] + t);
      EncodeHead(y[0], y[1..] + u);
      assert x + t == [x[0]] + (x[1..] + t) && y + u == [y[0]] + (y[1..] + u);
      if x[0] == y[0] {
        EncodeOrders(x[1..], y[1..], t, u);
      } else {
        EncodedByteLess(x[0], y[0]);
        DigitIs(x[0] / 16);
        DigitIs(y[0] / 16);
        DigitIs(x[0] % 16);
        DigitIs(y[0] % 16);
      }
    }
  }

  lemma LeadingByte(a: Byte, b: Byte, p: nat, x: nat, y: nat)
    requires a * p + x < b * p + y && x < p && y < p
    ensures a < b || (a == b && x < y)
  {
    Scale(b - a, p);
    assert (b - a) * p == b * p - a * p;
  }

  lemma EncodeHead(b: Byte, rest: seq<Byte>)
    ensures Encode([b] + rest) == [Digit(b / 16)] + ([Digit(b % 16)] + Encode(rest))
  {
    assert ([b] + rest)[1..] == rest;
  }

  /** Identifiers sort by time whatever their random parts, exactly when the 48-bit timestamps do. */
  lemma IdentifiersSortByTimeIff(a: int, b: int)
    ensures (forall t: seq<Byte>, u: seq<Byte> :: |t| == |u| == 10 ==> Less(Identifier(a, t), Identifier(b, u)))
            <==> a % STAMP_RANGE < b % STAMP_RANGE
  {
    StampValue(a);
    StampValue(b);
    if a % STAMP_RANGE < b % STAMP_RANGE {
      forall t: seq<Byte>, u: seq<Byte> | |t| == |u| == 10
        ensures Less(Identifier(a, t), Identifier(b, u))
      {
        EncodeOrders(Stamp(a), Stamp(b), t, u);
      }
    } else {
      var t: seq<Byte> := [0, 0, 0, 0, 0, 0, 0, 0, 0, 0];
      assert !Less(Identifier(a, t), Identifier(b, t)) by {
        if a % STAMP_RANGE == b % STAMP_RANGE {
          SameStamp(a, b);
          LessIrreflexive(Identifier(a, t));
        } else {
          EncodeOrders(Stamp(b), Stamp(a), t, t);
          if Less(Identifier(a, t), Identifier(b, t)) {
            LessTransitive(Identifier(a, t), Identifier(b, t), Identifier(a, t));
            LessIrreflexive(Identifier(a, t));
          }
        }
      }
    }
  }

  lemma {:induction false} ValueInjective(x: seq<Byte>, y: seq<Byte>)
    requires |x| == |y| && Value(x) == Value(y)
    ensures x == y
    decreases |x|
  {
    if x != [] {
      ValueBounded(x[1..]);
      ValueBounded(y[1..]);
      SameLeadingByte(x[0], y[0], Pow(|x| - 1), Value(x[1..]), Value(y[1..]));
      ValueInjective(x[1..], y[1..]);
      assert x == [x[0]] + x[1..] && y == [y[0]] + y[1..];
    }
  }

  lemma SameLeadingByte(a: Byte, b: Byte, p: nat, x: nat, y: nat)
    requires a * p + x == b * p + y && x < p && y < p
    ensures a == b && x == y
  {
    Scale(b - a, p);
    assert (b - a) * p == b * p - a * p;
  }

  lemma SameStamp(a: int, b: int)
    requires a % STAMP_RANGE == b % STAMP_RANGE
    ensures Stamp(a) == Stamp(b)
  {
    StampValue(a);
    StampValue(b);
    ValueInjective(Stamp(a), Stamp(b));
  }
}
