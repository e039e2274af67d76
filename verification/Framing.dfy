/** Length-prefixed framing: base-128 unsigned varints, big-endian 64-bit words and
    length-prefixed fields, as written into a byte buffer and read back by a cursor. */
module Framing {

  type byte = x: int | 0 <= x < 256
  type Bytes = seq<byte>

  const TWO64: int := 0x1_0000_0000_0000_0000
  type u64 = x: int | 0 <= x < TWO64

  /** Two's-complement reading of a 64-bit word. */
  function Signed64(x: int): int {
    var low := x % TWO64;
    if low < 0x8000_0000_0000_0000 then low else low - TWO64
  }

  /** The errors the messaging code distinguishes. */
  datatype MsgError =
    | InvalidEnvelope
    | InvalidSignature
    | InvalidSequence
    | NotBoundHere
    | BindingNotFound
    | TooLarge
    | ChargeRefused
    | RateLimited
    | TargetUnavailable

  datatype Option<+T> = None | Some(value: T)

  datatype Result<+T> = Ok(value: T) | Err(error: MsgError)

  /** What a read leaves: the value and the unread bytes, or the error it reports. */
  datatype Parsed<+T> = Fail(error: MsgError) | Got(value: T, rest: Bytes) {
    predicate IsFailure() { Fail? }
    function PropagateFailure<U>(): Parsed<U>
      requires Fail?
    {
      Fail(error)
    }
    function Extract(): (T, Bytes)
      requires Got?
    {
      (value, rest)
    }
    function Else(e: MsgError): Parsed<T> {
      if Fail? then Fail(e) else this
    }
  }

  /** The bytes of an ASCII string. */
  function Ascii(s: string): (b: Bytes)
    ensures |b| == |s|
  {
    seq(|s|, i requires 0 <= i < |s| => s[i] as int % 256)
  }

  // ---------------------------------------------------------------- uvarint

  function PutUvarint(n: nat): Bytes {
    if n < 128 then [n] else [n % 128 + 128] + PutUvarint(n / 128)
  }

  /** `i` bytes of the varint were already read: at most ten in all, and the tenth may
      only carry the top bit of a 64-bit word. */
  function UvarintFrom(s: Bytes, i: nat): (p: Parsed<nat>)
    ensures p.Fail? ==> p.error == InvalidEnvelope
    decreases |s|
  {
    if s == [] || i >= 10 then Fail(InvalidEnvelope)
    else if s[0] < 128 then
      if i == 9 && s[0] > 1 then Fail(InvalidEnvelope) else Got(s[0], s[1..])
    else
      var (high, rest) :- UvarintFrom(s[1..], i + 1);
      Got(s[0] - 128 + 128 * high, rest)
  }

  function Uvarint(s: Bytes): Parsed<nat> {
    UvarintFrom(s, 0)
  }

  /** The first value too large for a varint whose first `i` bytes are gone. */
  function Cap(i: nat): nat
    decreases 9 - i
  {
    if i >= 9 then 2 else 128 * Cap(i + 1)
  }

  lemma CapIsWord()
    ensures Cap(0) == TWO64
  {
    assert Cap(8) == 256;
    assert Cap(6) == 256 * 128 * 128;
    assert Cap(4) == 256 * 128 * 128 * 128 * 128;
    assert Cap(2) == 256 * 128 * 128 * 128 * 128 * 128 * 128;
  }

  lemma Split128(v: nat, cap: nat)
    ensures v == v % 128 + 128 * (v / 128)
    ensures v < 128 * cap ==> v / 128 < cap
  {
  }

  lemma UvarintStep(b: byte, rest: Bytes, i: nat)
    requires b >= 128 && i < 10
    ensures UvarintFrom([b] + rest, i)
      == match UvarintFrom(rest, i + 1) {
           case Fail(e) => Fail(InvalidEnvelope)
           case Got(high, r) => Got(b - 128 + 128 * high, r)
         }
  {
    assert ([b] + rest)[1..] == rest;
  }

  lemma {:induction false} UvarintRoundTrip(v: nat, i: nat, t: Bytes)
    requires i <= 9 && v < Cap(i)
    ensures UvarintFrom(PutUvarint(v) + t, i) == Got(v, t)
    decreases v
  {
    if v < 128 {
      assert (PutUvarint(v) + t)[1..] == t;
    } else {
      var b := v % 128 + 128;
      assert PutUvarint(v) + t == [b] + (PutUvarint(v / 128) + t);
      Split128(v, Cap(i + 1));
      UvarintRoundTrip(v / 128, i + 1, t);
      UvarintStep(b, PutUvarint(v / 128) + t, i);
    }
  }

  /** Reading looks only at the bytes it consumes, consumes at least one, and never
      yields a value that does not fit. */
  lemma {:induction false} UvarintLocal(s: Bytes, i: nat, t: Bytes)
    requires i <= 9 && UvarintFrom(s, i).Got?
    ensures UvarintFrom(s + t, i) == Got(UvarintFrom(s, i).value, UvarintFrom(s, i).rest + t)
    ensures |UvarintFrom(s, i).rest| < |s|
    ensures UvarintFrom(s, i).value < Cap(i)
    decreases |s|
  {
    if s[0] < 128 {
      assert (s + t)[1..] == s[1..] + t;
      CapAtLeast(i);
    } else {
      assert (s + t)[1..] == s[1..] + t;
      UvarintLocal(s[1..], i + 1, t);
    }
  }

  lemma {:induction false} CapAtLeast(i: nat)
    ensures Cap(i) >= if i >= 9 then 2 else 256
    decreases 9 - i
  {
    if i < 9 { CapAtLeast(i + 1); }
  }

  /** The bytes `w` hold the value `v`, padded or not. */
  ghost predicate Holds(w: Bytes, v: nat) {
    && w != [] && |PutUvarint(v)| <= |w|
    && (w == PutUvarint(v) <==> |w| == 1 || w[|w| - 1] != 0)
    && (w != PutUvarint(v) ==> |PutUvarint(v)| < |w|)
  }

  lemma HoldsStep(b: byte, w: Bytes, v: nat)
    requires b >= 128 && Holds(w, v)
    ensures Holds([b] + w, b - 128 + 128 * v)
  {
    var u := b - 128 + 128 * v;
    var x := [b] + w;
    assert u / 128 == v && u % 128 == b - 128;
    assert x[|x| - 1] == w[|w| - 1];
    if v > 0 {
      assert PutUvarint(u) == [b] + PutUvarint(v);
      assert x == PutUvarint(u) ==> x[1..] == PutUvarint(u)[1..];
      assert x[1..] == w && PutUvarint(u)[1..] == PutUvarint(v);
    }
  }

  /** The decoder accepts padded varints. It read the writer's own bytes exactly when the
      last byte it consumed was not a padding zero; otherwise the writer would be shorter. */
  lemma {:induction false} UvarintMinimal(s: Bytes, i: nat)
    requires i <= 9 && UvarintFrom(s, i).Got?
    ensures var p := UvarintFrom(s, i); var n := |s| - |p.rest|;
            0 < n <= |s| && s[n..] == p.rest && Holds(s[..n], p.value)
    decreases |s|
  {
    if s[0] >= 128 {
      var p := UvarintFrom(s[1..], i + 1);
      UvarintMinimal(s[1..], i + 1);
      var n := |s| - |p.rest|;
      assert s[..n] == [s[0]] + s[1..][..n - 1];
      HoldsStep(s[0], s[1..][..n - 1], p.value);
    }
  }

  /** A varint is never a proper prefix of another: equal streams start with equal values. */
  lemma {:induction false} UvarintInjective(x: nat, y: nat, t: Bytes, u: Bytes)
    requires PutUvarint(x) + t == PutUvarint(y) + u
    ensures x == y && t == u
  {
    var s, r := PutUvarint(x) + t, PutUvarint(y) + u;
    assert s[0] == r[0];
    assert s[0] == PutUvarint(x)[0] && r[0] == PutUvarint(y)[0];
    if x < 128 {
      assert s[1..] == t && r[1..] == u;
    } else {
      assert s[1..] == PutUvarint(x / 128) + t && r[1..] == PutUvarint(y / 128) + u;
      UvarintInjective(x / 128, y / 128, t, u);
    }
  }

  lemma {:induction false} UvarintLength(n: nat)
    ensures 1 <= |PutUvarint(n)|
    ensures n < 128 ==> |PutUvarint(n)| == 1
    ensures n < 128 * 128 * 128 ==> |PutUvarint(n)| <= 3
  {
    if n >= 128 * 128 {
      assert PutUvarint(n / 128 / 128) == [n / 128 / 128] || n / 128 / 128 >= 128;
    }
  }

  /** Appending piece by piece builds the right-nested concatenation the formats are stated in. */
  lemma Regroup(h: Bytes, a: Bytes, b: Bytes, c: Bytes, t: Bytes)
    ensures h + a + b + c + t == h + (a + (b + (c + t)))
  {
    assert h + a + b + c + t == h + a + b + (c + t);
    assert h + a + b + (c + t) == h + a + (b + (c + t));
  }

  // ------------------------------------------------------- big-endian words

  function BigEndian(v: nat, width: nat): (b: Bytes)
    ensures |b| == width
  {
    if width == 0 then [] else BigEndian(v / 256, width - 1) + [v % 256]
  }

  function FromBigEndian(b: Bytes): nat {
    if b == [] then 0 else 256 * FromBigEndian(b[..|b| - 1]) + b[|b| - 1]
  }

  function Pow256(n: nat): nat {
    if n == 0 then 1 else 256 * Pow256(n - 1)
  }

  lemma {:induction false} BigEndianRoundTrip(v: nat, width: nat)
    requires v < Pow256(width)
    ensures FromBigEndian(BigEndian(v, width)) == v
  {
    if width > 0 {
      var b := BigEndian(v, width);
      assert b[..|b| - 1] == BigEndian(v / 256, width - 1);
      BigEndianRoundTrip(v / 256, width - 1);
    }
  }

  lemma {:induction false} FromBigEndianRoundTrip(b: Bytes)
    ensures FromBigEndian(b) < Pow256(|b|)
    ensures BigEndian(FromBigEndian(b), |b|) == b
  {
    if b != [] {
      var front := b[..|b| - 1];
      FromBigEndianRoundTrip(front);
      assert (256 * FromBigEndian(front) + b[|b| - 1]) / 256 == FromBigEndian(front);
    }
  }

  lemma Pow256Word()
    ensures Pow256(8) == TWO64
  {
    assert Pow256(2) == 256 * 256;
    assert Pow256(4) == 256 * 256 * 256 * 256;
    assert Pow256(6) == 256 * 256 * 256 * 256 * 256 * 256;
  }

  function PutWord(v: u64): Bytes {
    BigEndian(v, 8)
  }

  function Word(s: Bytes): Parsed<u64> {
    if |s| < 8 then Fail(InvalidEnvelope)
    else
      FromBigEndianRoundTrip(s[..8]); Pow256Word();
      Got(FromBigEndian(s[..8]), s[8..])
  }

  lemma WordRoundTrip(v: u64, t: Bytes)
    ensures Word(PutWord(v) + t) == Got(v, t)
  {
    Pow256Word();
    BigEndianRoundTrip(v, 8);
    assert (PutWord(v) + t)[..8] == PutWord(v);
  }

  lemma WordInjective(v: u64, w: u64, t: Bytes, u: Bytes)
    requires PutWord(v) + t == PutWord(w) + u
    ensures v == w && t == u
  {
    WordRoundTrip(v, t);
    WordRoundTrip(w, u);
  }

  lemma WordLocal(s: Bytes, t: Bytes)
    requires Word(s).Got?
    ensures Word(s + t) == Got(Word(s).value, Word(s).rest + t)
    ensures s == PutWord(Word(s).value) + Word(s).rest
  {
    assert (s + t)[..8] == s[..8];
    assert (s + t)[8..] == s[8..] + t;
    FromBigEndianRoundTrip(s[..8]);
    Pow256Word();
  }

  function Byte(s: Bytes): Parsed<byte> {
    if s == [] then Fail(InvalidEnvelope) else Got(s[0], s[1..])
  }

  lemma ByteLocal(s: Bytes, t: Bytes)
    requires Byte(s).Got?
    ensures Byte(s + t) == Got(Byte(s).value, Byte(s).rest + t)
    ensures s == [Byte(s).value] + Byte(s).rest
  {
    assert (s + t)[1..] == s[1..] + t;
  }

  // ------------------------------------------------- length-prefixed fields

  function PutField(value: Bytes): Bytes {
    PutUvarint(|value|) + value
  }

  function Field(s: Bytes, max: nat): (p: Parsed<Bytes>)
    ensures p.Fail? ==> p.error == InvalidEnvelope
  {
    var (length, rest) :- Uvarint(s);
    if length > max || length > |rest| then Fail(InvalidEnvelope)
    else Got(rest[..length], rest[length..])
  }

  /** A field is read back whole when it fits the reader's limit, and refused otherwise. */
  lemma FieldRoundTrip(value: Bytes, max: nat, t: Bytes)
    requires |value| < TWO64
    ensures Field(PutField(value) + t, max) ==
            if |value| <= max then Got(value, t) else Fail(InvalidEnvelope)
  {
    CapIsWord();
    UvarintRoundTrip(|value|, 0, value + t);
    assert PutField(value) + t == PutUvarint(|value|) + (value + t);
    assert (value + t)[..|value|] == value;
    assert (value + t)[|value|..] == t;
  }

  lemma FieldInjective(x: Bytes, y: Bytes, t: Bytes, u: Bytes)
    requires PutField(x) + t == PutField(y) + u
    ensures x == y && t == u
  {
    assert PutField(x) + t == PutUvarint(|x|) + (x + t);
    assert PutField(y) + u == PutUvarint(|y|) + (y + u);
    UvarintInjective(|x|, |y|, x + t, y + u);
    assert x == (x + t)[..|x|] && y == (y + u)[..|y|];
    assert t == (x + t)[|x|..] && u == (y + u)[|y|..];
  }

  /** Reading a field ignores what follows it, and re-writing what was read never takes
      more bytes than were read. */
  lemma FieldLocal(s: Bytes, max: nat, t: Bytes)
    requires Field(s, max).Got?
    ensures Field(s + t, max) == Got(Field(s, max).value, Field(s, max).rest + t)
    ensures |Field(s, max).value| <= max
    ensures |PutField(Field(s, max).value)| + |Field(s, max).rest| <= |s|
  {
    UvarintLocal(s, 0, t);
    UvarintMinimal(s, 0);
    var length, rest := Uvarint(s).value, Uvarint(s).rest;
    assert (rest + t)[..length] == rest[..length];
    assert (rest + t)[length..] == rest[length..] + t;
  }

  // ------------------------------------------------------------- the cursor

  /** A byte reader whose position moves forward: `rest` is what it has not handed out. */
  class Reader {
    var rest: Bytes

    constructor (data: Bytes)
      ensures rest == data
    {
      rest := data;
    }

    method ReadByte() returns (b: Option<byte>)
      modifies this
      ensures match Byte(old(rest))
              case Got(v, r) => b == Some(v) && rest == r
              case Fail(_) => b == None && rest == old(rest)
    {
      if rest == [] { return None; }
      b := Some(rest[0]);
      rest := rest[1..];
    }

    /** Go's varint loop: shift in seven bits a byte, stop at the first byte below 0x80,
        give up on the tenth byte or on overflow. */
    method ReadUvarint() returns (v: Option<nat>)
      modifies this
      ensures match Uvarint(old(rest))
              case Got(x, r) => v == Some(x) && rest == r
              case Fail(_) => v == None
    {
      var x, scale, i := 0, 1, 0;
      while i < 10
        invariant 0 <= i <= 10 && x >= 0 && scale >= 1
        invariant match UvarintFrom(rest, i)
                  case Got(high, r) => Uvarint(old(rest)) == Got(x + scale * high, r)
                  case Fail(_) => Uvarint(old(rest)).Fail?
      {
        ghost var was := rest;
        var b := ReadByte();
        if b == None { return None; }
        if b.value < 128 {
          if i == 9 && b.value > 1 { return None; }
          return Some(x + scale * b.value);
        }
        ghost var next := UvarintFrom(rest, i + 1);
        if next.Got? {
          ShiftIn(x, scale, b.value - 128, next.value);
        }
        x := x + scale * (b.value - 128);
        scale := scale * 128;
        i := i + 1;
      }
      v := None;
    }

    /** Hand out exactly `n` bytes, or fail when fewer are left. */
    method ReadFull(n: nat) returns (value: Option<Bytes>)
      modifies this
      ensures n <= |old(rest)| ==> value == Some(old(rest)[..n]) && rest == old(rest)[n..]
      ensures n > |old(rest)| ==> value == None
    {
      if n > |rest| { return None; }
      value := Some(rest[..n]);
      rest := rest[n..];
    }

    method ReadField(max: nat) returns (value: Option<Bytes>)
      modifies this
      ensures match Field(old(rest), max)
              case Got(x, r) => value == Some(x) && rest == r
              case Fail(_) => value == None
    {
      var length := ReadUvarint();
      if length == None || length.value > max || length.value > |rest| { return None; }
      value := ReadFull(length.value);
    }

    method ReadWord() returns (value: Option<u64>)
      modifies this
      ensures match Word(old(rest))
              case Got(x, r) => value == Some(x) && rest == r
              case Fail(_) => value == None
    {
      var scratch := ReadFull(8);
      if scratch == None { return None; }
      FromBigEndianRoundTrip(scratch.value);
      Pow256Word();
      value := Some(FromBigEndian(scratch.value));
    }
  }

  lemma ShiftIn(x: nat, scale: nat, low: nat, high: nat)
    ensures x + scale * (low + 128 * high) == x + scale * low + (scale * 128) * high
  {
  }
}
