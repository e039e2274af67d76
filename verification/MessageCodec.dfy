/** The messages CoreNodes exchange and store, and their wire forms: envelope, ack,
    Direct message, topic fan-out and the durable acceptance record.

    For each message `Encode...` says which values are written and how, `Parse...` says how
    a byte string is read, and the `Marshal`/`Unmarshal` methods are the buffer and cursor
    code. Fields are concatenated to the right, so each lemma follows the fields in order. */
module MessageCodec {
  import opened Framing

  // Message types
  const DIRECT: byte := 1
  const TOPIC_PUBLISH: byte := 5
  const TOPIC_FANOUT: byte := 6
  const TOPIC_KEY_FANOUT: byte := 7
  const ACK: byte := 8

  // Ack statuses
  const ACK_OK: byte := 1
  const ACK_RETRYABLE: byte := 2
  const ACK_REJECTED: byte := 3

  // Size limits
  const MAX_TARGET: nat := 256
  const MAX_DATA: nat := 1024 * 1024 + 4 * 1024
  const MAX_SIGNATURE: nat := 256
  const MAX_VALUE: nat := 16 * 1024
  const MAX_CIPHERTEXT: nat := 1024 * 1024 - 4 * 1024
  const MAX_RECIPIENTS: nat := 4096
  const MAX_RECORD_TARGET: nat := 256
  const MAX_RECORD_DATA: nat := 4 * 1024 * 1024
  const ACCOUNT_SIZE: nat := 64
  const MESSAGE_ID_SIZE: nat := 32
  const DIGEST_SIZE: nat := 32

  predicate LowerHex(c: byte) {
    48 <= c <= 57 || 97 <= c <= 102
  }

  predicate Hex(c: byte) {
    LowerHex(c) || 65 <= c <= 70
  }

  /** 64 hexadecimal digits, in either case. */
  predicate ValidAccount(a: Bytes) {
    |a| == ACCOUNT_SIZE && forall i :: 0 <= i < |a| ==> Hex(a[i])
  }

  /** 32 lower-case hexadecimal digits. */
  predicate ValidMessageId(m: Bytes) {
    |m| == MESSAGE_ID_SIZE && forall i :: 0 <= i < |m| ==> LowerHex(m[i])
  }

  // --------------------------------------------------------------- envelope

  datatype Envelope = Envelope(kind: byte, source: Bytes, payload: Bytes, signature: Bytes)

  predicate SignedKind(kind: byte) {
    kind == TOPIC_FANOUT || kind == TOPIC_KEY_FANOUT
  }

  function EnvelopeBytes(e: Envelope): Bytes {
    [e.kind] + (PutField(e.source) + (PutField(e.payload) +
      if SignedKind(e.kind) then PutField(e.signature) else []))
  }

  function EncodeEnvelope(e: Envelope): Result<Bytes> {
    if e.kind == 0 || |e.payload| == 0 || |e.source| > MAX_TARGET || |e.payload| > MAX_DATA then
      Err(InvalidEnvelope)
    else if SignedKind(e.kind) && (|e.signature| == 0 || |e.signature| > MAX_SIGNATURE) then
      Err(InvalidSignature)
    else if |EnvelopeBytes(e)| > MAX_DATA then
      Err(TooLarge)
    else
      Ok(EnvelopeBytes(e))
  }

  function ParseEnvelope(s: Bytes): Parsed<Envelope> {
    var (kind, r1) :- Byte(s);
    if kind == 0 then Fail(InvalidEnvelope)
    else
      var (source, r2) :- Field(r1, MAX_TARGET);
      var (payload, r3) :- Field(r2, MAX_DATA);
      if |payload| == 0 then Fail(InvalidEnvelope)
      else if !SignedKind(kind) then Got(Envelope(kind, source, payload, []), r3)
      else
        var (signature, r4) :- Field(r3, MAX_SIGNATURE).Else(InvalidSignature);
        if |signature| == 0 then Fail(InvalidSignature)
        else Got(Envelope(kind, source, payload, signature), r4)
  }

  /** A parsed value counts only when every byte was consumed. */
  function Whole<T>(p: Parsed<T>): Result<T> {
    match p
    case Fail(e) => Err(e)
    case Got(v, rest) => if rest == [] then Ok(v) else Err(InvalidEnvelope)
  }

  function DecodeEnvelope(s: Bytes): Result<Envelope> {
    if |s| == 0 || |s| > MAX_DATA then Err(InvalidEnvelope) else Whole(ParseEnvelope(s))
  }

  lemma EnvelopeParsesBack(e: Envelope, t: Bytes)
    requires EncodeEnvelope(e).Ok?
    ensures ParseEnvelope(EnvelopeBytes(e) + t) ==
            Got(if SignedKind(e.kind) then e else e.(signature := []), t)
  {
    var last := if SignedKind(e.kind) then PutField(e.signature) else [];
    var r3 := last + t;
    var r2 := PutField(e.payload) + r3;
    var r1 := PutField(e.source) + r2;
    assert EnvelopeBytes(e) + t == [e.kind] + r1;
    FieldRoundTrip(e.source, MAX_TARGET, r2);
    FieldRoundTrip(e.payload, MAX_DATA, r3);
    if SignedKind(e.kind) {
      FieldRoundTrip(e.signature, MAX_SIGNATURE, t);
    } else {
      assert r3 == t;
    }
  }

  /** Every envelope that can be written is read back, and it is the same envelope exactly
      when an unsigned message type carries no signature. */
  lemma EnvelopeRoundTrip(e: Envelope)
    requires EncodeEnvelope(e).Ok?
    ensures DecodeEnvelope(EncodeEnvelope(e).value).Ok?
    ensures DecodeEnvelope(EncodeEnvelope(e).value) == Ok(e) <==> SignedKind(e.kind) || e.signature == []
  {
    EnvelopeParsesBack(e, []);
    assert EnvelopeBytes(e) + [] == EnvelopeBytes(e);
  }

  lemma EnvelopeLocal(s: Bytes, t: Bytes)
    requires ParseEnvelope(s).Got?
    ensures ParseEnvelope(s + t) == Got(ParseEnvelope(s).value, ParseEnvelope(s).rest + t)
    ensures |EnvelopeBytes(ParseEnvelope(s).value)| + |ParseEnvelope(s).rest| <= |s|
  {
    ByteLocal(s, t);
    var r1 := Byte(s).rest;
    FieldLocal(r1, MAX_TARGET, t);
    var r2 := Field(r1, MAX_TARGET).rest;
    FieldLocal(r2, MAX_DATA, t);
    var r3 := Field(r2, MAX_DATA).rest;
    if SignedKind(s[0]) {
      FieldLocal(r3, MAX_SIGNATURE, t);
    }
  }

  /** No accepted byte string is a proper prefix of another. */
  lemma EnvelopePrefixFree(s: Bytes, t: Bytes)
    requires DecodeEnvelope(s).Ok? && DecodeEnvelope(s + t).Ok?
    ensures t == []
  {
    EnvelopeLocal(s, t);
  }

  lemma EnvelopeParsedOk(s: Bytes)
    requires ParseEnvelope(s).Got?
    ensures EncodeEnvelope(ParseEnvelope(s).value) == Ok(EnvelopeBytes(ParseEnvelope(s).value)) || |s| > MAX_DATA
    ensures var e := ParseEnvelope(s).value; SignedKind(e.kind) || e.signature == []
  {
    EnvelopeLocal(s, []);
    var r1 := Byte(s).rest;
    FieldLocal(r1, MAX_TARGET, []);
    var r2 := Field(r1, MAX_TARGET).rest;
    FieldLocal(r2, MAX_DATA, []);
    if SignedKind(s[0]) {
      FieldLocal(Field(r2, MAX_DATA).rest, MAX_SIGNATURE, []);
    }
  }

  /** Whatever is accepted could have been written: writing it again succeeds, is no longer
      than what was received, and is accepted as the same value. */
  lemma EnvelopeReencodes(s: Bytes)
    requires DecodeEnvelope(s).Ok?
    ensures var e := DecodeEnvelope(s).value;
            && EncodeEnvelope(e).Ok?
            && |EncodeEnvelope(e).value| <= |s|
            && DecodeEnvelope(EncodeEnvelope(e).value) == Ok(e)
  {
    EnvelopeLocal(s, []);
    EnvelopeParsedOk(s);
    EnvelopeRoundTrip(DecodeEnvelope(s).value);
  }

  method MarshalEnvelope(e: Envelope) returns (r: Result<Bytes>)
    ensures r == EncodeEnvelope(e)
  {
    if e.kind == 0 || |e.payload| == 0 || |e.source| > MAX_TARGET || |e.payload| > MAX_DATA {
      return Err(InvalidEnvelope);
    }
    var buf: Bytes := [e.kind];
    buf := buf + PutField(e.source);
    buf := buf + PutField(e.payload);
    if e.kind == TOPIC_FANOUT || e.kind == TOPIC_KEY_FANOUT {
      if |e.signature| == 0 || |e.signature| > MAX_SIGNATURE { return Err(InvalidSignature); }
      buf := buf + PutField(e.signature);
    }
    assert buf == EnvelopeBytes(e);
    if |buf| > MAX_DATA { return Err(TooLarge); }
    r := Ok(buf);
  }

  method UnmarshalEnvelope(encoded: Bytes) returns (r: Result<Envelope>)
    ensures r == DecodeEnvelope(encoded)
  {
    if |encoded| == 0 || |encoded| > MAX_DATA { return Err(InvalidEnvelope); }
    var reader := new Reader(encoded);
    var kind := reader.ReadByte();
    if kind == None || kind.value == 0 { return Err(InvalidEnvelope); }
    var source := reader.ReadField(MAX_TARGET);
    if source == None { return Err(InvalidEnvelope); }
    var payload := reader.ReadField(MAX_DATA);
    if payload == None || |payload.value| == 0 { return Err(InvalidEnvelope); }
    var signature: Bytes := [];
    if kind.value == TOPIC_FANOUT || kind.value == TOPIC_KEY_FANOUT {
      var sig := reader.ReadField(MAX_SIGNATURE);
      if sig == None || |sig.value| == 0 { return Err(InvalidSignature); }
      signature := sig.value;
    }
    if reader.rest != [] { return Err(InvalidEnvelope); }
    r := Ok(Envelope(kind.value, source.value, payload.value, signature));
  }

  // -------------------------------------------------------------------- ack

  datatype MessageAck = MessageAck(
    original: byte, sender: Bytes, senderMsgId: u64, messageId: Bytes, status: byte,
    errorCode: Bytes, deliveryId: Bytes, retryAfterMs: u64, signature: Bytes)

  predicate NeedsMessageId(original: byte) {
    original == DIRECT || original == TOPIC_PUBLISH || original == TOPIC_FANOUT
  }

  predicate AckMessageIdOk(original: byte, messageId: Bytes) {
    if NeedsMessageId(original) then ValidMessageId(messageId)
    else messageId == [] || ValidMessageId(messageId)
  }

  /** The fields of an ack in order, followed by `tail`. */
  function AckBytes(a: MessageAck, tail: Bytes): Bytes {
    [a.original] + (PutField(a.sender) + (PutWord(a.senderMsgId) + (PutField(a.messageId) + ([a.status] +
      (PutField(a.errorCode) + (PutField(a.deliveryId) + (PutWord(a.retryAfterMs) + tail)))))))
  }

  function EncodeAck(a: MessageAck, signed: bool): Result<Bytes> {
    if a.original == 0 || !ValidAccount(a.sender) || a.status == 0 || |a.errorCode| > 128 || |a.deliveryId| > 64 then
      Err(InvalidEnvelope)
    else if signed && (|a.signature| == 0 || |a.signature| > MAX_SIGNATURE) then
      Err(InvalidSignature)
    else if !AckMessageIdOk(a.original, a.messageId) || (a.deliveryId != [] && |a.deliveryId| != 64) then
      Err(InvalidEnvelope)
    else
      Ok(AckBytes(a, if signed then PutField(a.signature) else []))
  }

  /** The fields of an ack up to its status. */
  datatype AckHead = AckHead(original: byte, sender: Bytes, senderMsgId: u64, messageId: Bytes, status: byte)

  function ParseAckHead(s: Bytes): Parsed<AckHead> {
    var (original, r1) :- Byte(s);
    if original == 0 then Fail(InvalidEnvelope)
    else
      var (sender, r2) :- Field(r1, ACCOUNT_SIZE);
      if !ValidAccount(sender) then Fail(InvalidEnvelope)
      else
        var (senderMsgId, r3) :- Word(r2);
        var (messageId, r4) :- Field(r3, MESSAGE_ID_SIZE);
        var (status, r5) :- Byte(r4);
        if status == 0 then Fail(InvalidEnvelope)
        else Got(AckHead(original, sender, senderMsgId, messageId, status), r5)
  }

  function ParseAckTail(h: AckHead, s: Bytes): Parsed<MessageAck> {
    var (errorCode, r6) :- Field(s, 128);
    var (deliveryId, r7) :- Field(r6, 64);
    if deliveryId != [] && |deliveryId| != 64 then Fail(InvalidEnvelope)
    else
      var (retryAfterMs, r8) :- Word(r7);
      var (signature, r9) :- Field(r8, MAX_SIGNATURE);
      if |signature| == 0 || !AckMessageIdOk(h.original, h.messageId) then Fail(InvalidEnvelope)
      else Got(MessageAck(h.original, h.sender, h.senderMsgId, h.messageId, h.status, errorCode, deliveryId,
                          retryAfterMs, signature), r9)
  }

  function ParseAck(s: Bytes): Parsed<MessageAck> {
    var (head, rest) :- ParseAckHead(s);
    ParseAckTail(head, rest)
  }

  function DecodeAck(s: Bytes): Result<MessageAck> {
    Whole(ParseAck(s))
  }

  lemma AckHeadReads(h: AckHead, rest: Bytes)
    requires h.original != 0 && ValidAccount(h.sender) && h.status != 0 && AckMessageIdOk(h.original, h.messageId)
    ensures ParseAckHead([h.original] + (PutField(h.sender) + (PutWord(h.senderMsgId) + (PutField(h.messageId) +
              ([h.status] + rest))))) == Got(h, rest)
  {
    var r4 := [h.status] + rest;
    var r3 := PutField(h.messageId) + r4;
    FieldRoundTrip(h.sender, ACCOUNT_SIZE, PutWord(h.senderMsgId) + r3);
    WordRoundTrip(h.senderMsgId, r3);
    FieldRoundTrip(h.messageId, MESSAGE_ID_SIZE, r4);
  }

  lemma AckTailReads(h: AckHead, a: MessageAck)
    requires h == AckHead(a.original, a.sender, a.senderMsgId, a.messageId, a.status)
    requires |a.errorCode| <= 128 && (a.deliveryId == [] || |a.deliveryId| == 64)
    requires 0 < |a.signature| <= MAX_SIGNATURE && AckMessageIdOk(a.original, a.messageId)
    ensures ParseAckTail(h, PutField(a.errorCode) + (PutField(a.deliveryId) + (PutWord(a.retryAfterMs) +
              PutField(a.signature)))) == Got(a, [])
  {
    var r8 := PutField(a.signature);
    var r7 := PutWord(a.retryAfterMs) + r8;
    FieldRoundTrip(a.errorCode, 128, PutField(a.deliveryId) + r7);
    FieldRoundTrip(a.deliveryId, 64, r7);
    WordRoundTrip(a.retryAfterMs, r8);
    FieldRoundTrip(a.signature, MAX_SIGNATURE, []);
    assert r8 + [] == r8;
  }

  lemma AckRoundTrip(a: MessageAck)
    requires EncodeAck(a, true).Ok?
    ensures DecodeAck(EncodeAck(a, true).value) == Ok(a)
  {
    var h := AckHead(a.original, a.sender, a.senderMsgId, a.messageId, a.status);
    AckHeadReads(h, PutField(a.errorCode) + (PutField(a.deliveryId) +
                      (PutWord(a.retryAfterMs) + PutField(a.signature))));
    AckTailReads(h, a);
  }

  lemma AckHeadLocal(s: Bytes, t: Bytes)
    requires ParseAckHead(s).Got?
    ensures ParseAckHead(s + t) == Got(ParseAckHead(s).value, ParseAckHead(s).rest + t)
    ensures var h := ParseAckHead(s).value;
            && h.original != 0 && ValidAccount(h.sender) && h.status != 0
            && 10 + |PutField(h.sender)| + |PutField(h.messageId)| + |ParseAckHead(s).rest| <= |s|
  {
    ByteLocal(s, t);
    var r1 := Byte(s).rest;
    FieldLocal(r1, ACCOUNT_SIZE, t);
    var r2 := Field(r1, ACCOUNT_SIZE).rest;
    WordLocal(r2, t);
    var r3 := Word(r2).rest;
    FieldLocal(r3, MESSAGE_ID_SIZE, t);
    var r4 := Field(r3, MESSAGE_ID_SIZE).rest;
    ByteLocal(r4, t);
  }

  lemma AckTailLocal(h: AckHead, s: Bytes, t: Bytes)
    requires ParseAckTail(h, s).Got?
    ensures ParseAckTail(h, s + t) == Got(ParseAckTail(h, s).value, ParseAckTail(h, s).rest + t)
    ensures var a := ParseAckTail(h, s).value;
            && |a.errorCode| <= 128 && (a.deliveryId == [] || |a.deliveryId| == 64)
            && 0 < |a.signature| <= MAX_SIGNATURE && AckMessageIdOk(h.original, h.messageId)
            && 8 + |PutField(a.errorCode)| + |PutField(a.deliveryId)| + |PutField(a.signature)| +
                 |ParseAckTail(h, s).rest| <= |s|
  {
    FieldLocal(s, 128, t);
    var r6 := Field(s, 128).rest;
    FieldLocal(r6, 64, t);
    var r7 := Field(r6, 64).rest;
    WordLocal(r7, t);
    FieldLocal(Word(r7).rest, MAX_SIGNATURE, t);
  }

  lemma AckLocal(s: Bytes, t: Bytes)
    requires ParseAck(s).Got?
    ensures ParseAck(s + t) == Got(ParseAck(s).value, ParseAck(s).rest + t)
    ensures EncodeAck(ParseAck(s).value, true).Ok?
    ensures |EncodeAck(ParseAck(s).value, true).value| + |ParseAck(s).rest| <= |s|
  {
    AckHeadLocal(s, t);
    AckTailLocal(ParseAckHead(s).value, ParseAckHead(s).rest, t);
  }

  lemma AckPrefixFree(s: Bytes, t: Bytes)
    requires DecodeAck(s).Ok? && DecodeAck(s + t).Ok?
    ensures t == []
  {
    AckLocal(s, t);
  }

  lemma AckReencodes(s: Bytes)
    requires DecodeAck(s).Ok?
    ensures var a := DecodeAck(s).value;
            && EncodeAck(a, true).Ok?
            && |EncodeAck(a, true).value| <= |s|
            && DecodeAck(EncodeAck(a, true).value) == Ok(a)
  {
    AckLocal(s, []);
    AckRoundTrip(DecodeAck(s).value);
  }

  /** The unsigned form determines every field the signature must cover. */
  lemma AckBytesInjective(a: MessageAck, b: MessageAck, t: Bytes, u: Bytes)
    requires AckBytes(a, t) == AckBytes(b, u)
    ensures a == b.(signature := a.signature) && t == u
  {
    var a7, b7 := PutWord(a.retryAfterMs) + t, PutWord(b.retryAfterMs) + u;
    var a6, b6 := PutField(a.deliveryId) + a7, PutField(b.deliveryId) + b7;
    var a5, b5 := PutField(a.errorCode) + a6, PutField(b.errorCode) + b6;
    var a4, b4 := [a.status] + a5, [b.status] + b5;
    var a3, b3 := PutField(a.messageId) + a4, PutField(b.messageId) + b4;
    var a2, b2 := PutWord(a.senderMsgId) + a3, PutWord(b.senderMsgId) + b3;
    var a1, b1 := PutField(a.sender) + a2, PutField(b.sender) + b2;
    HeadInjective(a.original, b.original, a1, b1);
    FieldInjective(a.sender, b.sender, a2, b2);
    WordInjective(a.senderMsgId, b.senderMsgId, a3, b3);
    FieldInjective(a.messageId, b.messageId, a4, b4);
    HeadInjective(a.status, b.status, a5, b5);
    FieldInjective(a.errorCode, b.errorCode, a6, b6);
    FieldInjective(a.deliveryId, b.deliveryId, a7, b7);
    WordInjective(a.retryAfterMs, b.retryAfterMs, t, u);
  }

  lemma HeadInjective(x: byte, y: byte, t: Bytes, u: Bytes)
    requires [x] + t == [y] + u
    ensures x == y && t == u
  {
    assert ([x] + t)[0] == x && ([y] + u)[0] == y;
    assert ([x] + t)[1..] == t && ([y] + u)[1..] == u;
  }

  /** The fields written one after the other, and then `tail`, are the encoding. */
  lemma AckLayout(a: MessageAck, tail: Bytes)
    ensures [a.original] + PutField(a.sender) + PutWord(a.senderMsgId) + PutField(a.messageId) + [a.status] +
            PutField(a.errorCode) + PutField(a.deliveryId) + PutWord(a.retryAfterMs) + tail == AckBytes(a, tail)
  {
    var head := [a.original] + PutField(a.sender) + PutWord(a.senderMsgId) + PutField(a.messageId);
    var last := PutWord(a.retryAfterMs) + tail;
    Regroup(head, [a.status], PutField(a.errorCode), PutField(a.deliveryId), last);
    Regroup([a.original], PutField(a.sender), PutWord(a.senderMsgId), PutField(a.messageId),
            [a.status] + (PutField(a.errorCode) + (PutField(a.deliveryId) + last)));
  }

  method MarshalAck(a: MessageAck, signed: bool) returns (r: Result<Bytes>)
    ensures r == EncodeAck(a, signed)
  {
    if a.original == 0 || !ValidAccount(a.sender) || a.status == 0 || |a.errorCode| > 128 || |a.deliveryId| > 64 {
      return Err(InvalidEnvelope);
    }
    if signed && (|a.signature| == 0 || |a.signature| > MAX_SIGNATURE) { return Err(InvalidSignature); }
    var requiresMessageId := a.original == DIRECT || a.original == TOPIC_PUBLISH || a.original == TOPIC_FANOUT;
    if (requiresMessageId && !ValidMessageId(a.messageId)) ||
       (!requiresMessageId && a.messageId != [] && !ValidMessageId(a.messageId)) {
      return Err(InvalidEnvelope);
    }
    if a.deliveryId != [] && |a.deliveryId| != 64 { return Err(InvalidEnvelope); }
    var buf: Bytes := [a.original];
    buf := buf + PutField(a.sender);
    buf := buf + PutWord(a.senderMsgId);
    buf := buf + PutField(a.messageId);
    buf := buf + [a.status];
    buf := buf + PutField(a.errorCode);
    buf := buf + PutField(a.deliveryId);
    buf := buf + PutWord(a.retryAfterMs);
    AckLayout(a, if signed then PutField(a.signature) else []);
    if signed { buf := buf + PutField(a.signature); } else { assert buf == buf + []; }
    r := Ok(buf);
  }

  method UnmarshalAck(encoded: Bytes) returns (r: Result<MessageAck>)
    ensures r == DecodeAck(encoded)
  {
    var reader := new Reader(encoded);
    var original := reader.ReadByte();
    if original == None || original.value == 0 { return Err(InvalidEnvelope); }
    var sender := reader.ReadField(ACCOUNT_SIZE);
    if sender == None || !ValidAccount(sender.value) { return Err(InvalidEnvelope); }
    var senderMsgId := reader.ReadWord();
    if senderMsgId == None { return Err(InvalidEnvelope); }
    var messageId := reader.ReadField(MESSAGE_ID_SIZE);
    if messageId == None { return Err(InvalidEnvelope); }
    var status := reader.ReadByte();
    if status == None || status.value == 0 { return Err(InvalidEnvelope); }
    var errorCode := reader.ReadField(128);
    if errorCode == None { return Err(InvalidEnvelope); }
    var deliveryId := reader.ReadField(64);
    if deliveryId == None || (deliveryId.value != [] && |deliveryId.value| != 64) { return Err(InvalidEnvelope); }
    var retryAfterMs := reader.ReadWord();
    if retryAfterMs == None { return Err(InvalidEnvelope); }
    var signature := reader.ReadField(MAX_SIGNATURE);
    if signature == None || |signature.value| == 0 || reader.rest != [] { return Err(InvalidEnvelope); }
    if !AckMessageIdOk(original.value, messageId.value) { return Err(InvalidEnvelope); }
    r := Ok(MessageAck(original.value, sender.value, senderMsgId.value, messageId.value, status.value,
                       errorCode.value, deliveryId.value, retryAfterMs.value, signature.value));
  }

  // --------------------------------------------------------- Direct message

  datatype DirectMessage = DirectMessage(
    sender: Bytes, senderMsgId: u64, messageId: Bytes, recipient: Bytes, ciphertext: Bytes, signature: Bytes)

  function DirectBytes(m: DirectMessage): Bytes {
    PutField(m.sender) + (PutWord(m.senderMsgId) + (PutField(m.messageId) + (PutField(m.recipient) +
      (PutField(m.ciphertext) + PutField(m.signature)))))
  }

  /** Which Direct messages can be written with their signature. */
  predicate DirectOk(m: DirectMessage) {
    && ValidAccount(m.sender)
    && ValidMessageId(m.messageId)
    && ValidAccount(m.recipient)
    && 0 < |m.ciphertext| <= MAX_CIPHERTEXT
    && 0 < |m.signature| <= MAX_SIGNATURE
  }

  function EncodeDirect(m: DirectMessage): Result<Bytes> {
    if DirectOk(m) then Ok(DirectBytes(m)) else Err(InvalidEnvelope)
  }

  function ParseDirect(s: Bytes): Parsed<DirectMessage> {
    var (sender, r1) :- Field(s, ACCOUNT_SIZE);
    if !ValidAccount(sender) then Fail(InvalidEnvelope)
    else
      var (senderMsgId, r2) :- Word(r1);
      var (messageId, r3) :- Field(r2, MESSAGE_ID_SIZE);
      if !ValidMessageId(messageId) then Fail(InvalidEnvelope)
      else
        var (recipient, r4) :- Field(r3, ACCOUNT_SIZE);
        if !ValidAccount(recipient) then Fail(InvalidEnvelope)
        else
          var (ciphertext, r5) :- Field(r4, MAX_CIPHERTEXT);
          if |ciphertext| == 0 then Fail(InvalidEnvelope)
          else
            var (signature, r6) :- Field(r5, MAX_SIGNATURE);
            if |signature| == 0 then Fail(InvalidEnvelope)
            else Got(DirectMessage(sender, senderMsgId, messageId, recipient, ciphertext, signature), r6)
  }

  function DecodeDirect(s: Bytes): Result<DirectMessage> {
    Whole(ParseDirect(s))
  }

  lemma DirectRoundTrip(m: DirectMessage)
    requires DirectOk(m)
    ensures DecodeDirect(DirectBytes(m)) == Ok(m)
  {
    var r5 := PutField(m.signature);
    var r4 := PutField(m.ciphertext) + r5;
    var r3 := PutField(m.recipient) + r4;
    var r2 := PutField(m.messageId) + r3;
    var r1 := PutWord(m.senderMsgId) + r2;
    FieldRoundTrip(m.sender, ACCOUNT_SIZE, r1);
    WordRoundTrip(m.senderMsgId, r2);
    FieldRoundTrip(m.messageId, MESSAGE_ID_SIZE, r3);
    FieldRoundTrip(m.recipient, ACCOUNT_SIZE, r4);
    FieldRoundTrip(m.ciphertext, MAX_CIPHERTEXT, r5);
    FieldRoundTrip(m.signature, MAX_SIGNATURE, []);
    assert r5 + [] == r5;
  }

  lemma DirectLocal(s: Bytes, t: Bytes)
    requires ParseDirect(s).Got?
    ensures ParseDirect(s + t) == Got(ParseDirect(s).value, ParseDirect(s).rest + t)
    ensures DirectOk(ParseDirect(s).value)
  {
    FieldLocal(s, ACCOUNT_SIZE, t);
    var r1 := Field(s, ACCOUNT_SIZE).rest;
    WordLocal(r1, t);
    var r2 := Word(r1).rest;
    FieldLocal(r2, MESSAGE_ID_SIZE, t);
    var r3 := Field(r2, MESSAGE_ID_SIZE).rest;
    FieldLocal(r3, ACCOUNT_SIZE, t);
    var r4 := Field(r3, ACCOUNT_SIZE).rest;
    FieldLocal(r4, MAX_CIPHERTEXT, t);
    FieldLocal(Field(r4, MAX_CIPHERTEXT).rest, MAX_SIGNATURE, t);
  }

  lemma DirectPrefixFree(s: Bytes, t: Bytes)
    requires DecodeDirect(s).Ok? && DecodeDirect(s + t).Ok?
    ensures t == []
  {
    DirectLocal(s, t);
  }

  // ---------------------------------------------------------- topic fan-out

  datatype TopicFanout = TopicFanout(
    topic: Bytes, sender: Bytes, senderMsgId: u64, messageId: Bytes, keySeq: u64,
    ciphertext: Bytes, senderSignature: Bytes, recipients: seq<Bytes>)

  function RecipientBytes(recipients: seq<Bytes>): Bytes {
    if recipients == [] then [] else PutField(recipients[0]) + RecipientBytes(recipients[1..])
  }

  predicate FanoutOk(f: TopicFanout) {
    && 0 < |f.topic| <= 64
    && ValidAccount(f.sender)
    && ValidMessageId(f.messageId)
    && 0 < |f.ciphertext| <= MAX_VALUE
    && 0 < |f.senderSignature| <= MAX_SIGNATURE
    && 0 < |f.recipients| <= MAX_RECIPIENTS
    && forall i :: 0 <= i < |f.recipients| ==> ValidAccount(f.recipients[i])
  }

  function EncodeFanout(f: TopicFanout): Result<Bytes> {
    if !FanoutOk(f) then Err(InvalidEnvelope)
    else if |FanoutBytes(f)| > MAX_DATA then Err(TooLarge)
    else Ok(FanoutBytes(f))
  }

  function ParseRecipients(s: Bytes, count: nat): (p: Parsed<seq<Bytes>>)
    ensures p.Fail? ==> p.error == InvalidEnvelope
    decreases count
  {
    if count == 0 then Got([], s)
    else
      var (first, r1) :- Field(s, ACCOUNT_SIZE);
      if !ValidAccount(first) then Fail(InvalidEnvelope)
      else
        var (others, r2) :- ParseRecipients(r1, count - 1);
        Got([first] + others, r2)
  }

  /** Everything before the ciphertext. */
  datatype FanoutHead = FanoutHead(topic: Bytes, sender: Bytes, senderMsgId: u64, messageId: Bytes, keySeq: u64)

  function FanoutBytes(f: TopicFanout): Bytes {
    HeadBytes(f, BodyBytes(f))
  }

  function HeadBytes(f: TopicFanout, tail: Bytes): Bytes {
    PutField(f.topic) + (PutField(f.sender) + (PutWord(f.senderMsgId) + (PutField(f.messageId) +
      (PutWord(f.keySeq) + tail))))
  }

  function BodyBytes(f: TopicFanout): Bytes {
    PutField(f.ciphertext) + (PutField(f.senderSignature) + (PutUvarint(|f.recipients|) + RecipientBytes(f.recipients)))
  }

  function ParseHead(s: Bytes): (p: Parsed<FanoutHead>)
    ensures p.Fail? ==> p.error == InvalidEnvelope
  {
    var (topic, r1) :- Field(s, 64);
    if topic == [] then Fail(InvalidEnvelope)
    else
      var (sender, r2) :- Field(r1, ACCOUNT_SIZE);
      if !ValidAccount(sender) then Fail(InvalidEnvelope)
      else
        var (senderMsgId, r3) :- Word(r2);
        var (messageId, r4) :- Field(r3, MESSAGE_ID_SIZE);
        if !ValidMessageId(messageId) then Fail(InvalidEnvelope)
        else
          var (keySeq, r5) :- Word(r4);
          Got(FanoutHead(topic, sender, senderMsgId, messageId, keySeq), r5)
  }

  function ParseBody(head: FanoutHead, s: Bytes): (p: Parsed<TopicFanout>)
    ensures p.Fail? ==> p.error == InvalidEnvelope
  {
    var (ciphertext, r1) :- Field(s, MAX_VALUE);
    if |ciphertext| == 0 then Fail(InvalidEnvelope)
    else
      var (signature, r2) :- Field(r1, MAX_SIGNATURE);
      if |signature| == 0 then Fail(InvalidEnvelope)
      else
        var (count, r3) :- Uvarint(r2);
        if count == 0 || count > MAX_RECIPIENTS then Fail(InvalidEnvelope)
        else
          var (recipients, r4) :- ParseRecipients(r3, count);
          Got(TopicFanout(head.topic, head.sender, head.senderMsgId, head.messageId, head.keySeq,
                          ciphertext, signature, recipients), r4)
  }

  function ParseFanout(s: Bytes): (p: Parsed<TopicFanout>)
    ensures p.Fail? ==> p.error == InvalidEnvelope
  {
    var (head, r) :- ParseHead(s);
    ParseBody(head, r)
  }

  function DecodeFanout(s: Bytes): Result<TopicFanout> {
    Whole(ParseFanout(s))
  }

  lemma {:induction false} RecipientsRoundTrip(recipients: seq<Bytes>, t: Bytes)
    requires forall i :: 0 <= i < |recipients| ==> ValidAccount(recipients[i])
    ensures ParseRecipients(RecipientBytes(recipients) + t, |recipients|) == Got(recipients, t)
    ensures |RecipientBytes(recipients)| == (ACCOUNT_SIZE + 1) * |recipients|
  {
    if recipients == [] {
      assert RecipientBytes(recipients) + t == t;
    } else {
      var others := recipients[1..];
      assert RecipientBytes(recipients) + t == PutField(recipients[0]) + (RecipientBytes(others) + t);
      FieldRoundTrip(recipients[0], ACCOUNT_SIZE, RecipientBytes(others) + t);
      UvarintLength(ACCOUNT_SIZE);
      RecipientsRoundTrip(others, t);
      assert recipients == [recipients[0]] + others;
    }
  }

  lemma {:induction false} RecipientsLocal(s: Bytes, count: nat, t: Bytes)
    requires ParseRecipients(s, count).Got?
    ensures var p := ParseRecipients(s, count);
            && ParseRecipients(s + t, count) == Got(p.value, p.rest + t)
            && |p.value| == count
            && forall i :: 0 <= i < count ==> ValidAccount(p.value[i])
    decreases count
  {
    if count > 0 {
      FieldLocal(s, ACCOUNT_SIZE, t);
      RecipientsLocal(Field(s, ACCOUNT_SIZE).rest, count - 1, t);
    }
  }

  /** A well-formed fan-out always fits: the size refusal can never be reached. */
  lemma FanoutFits(f: TopicFanout)
    requires FanoutOk(f)
    ensures |FanoutBytes(f)| <= MAX_DATA
  {
    RecipientsRoundTrip(f.recipients, []);
    UvarintLength(|f.topic|);
    UvarintLength(|f.sender|);
    UvarintLength(|f.messageId|);
    UvarintLength(|f.ciphertext|);
    UvarintLength(|f.senderSignature|);
    UvarintLength(|f.recipients|);
  }

  lemma HeadRoundTrip(f: TopicFanout, t: Bytes)
    requires FanoutOk(f)
    ensures ParseHead(HeadBytes(f, t)) == Got(FanoutHead(f.topic, f.sender, f.senderMsgId, f.messageId, f.keySeq), t)
  {
    var r4 := PutWord(f.keySeq) + t;
    var r3 := PutField(f.messageId) + r4;
    var r2 := PutWord(f.senderMsgId) + r3;
    var r1 := PutField(f.sender) + r2;
    FieldRoundTrip(f.topic, 64, r1);
    FieldRoundTrip(f.sender, ACCOUNT_SIZE, r2);
    WordRoundTrip(f.senderMsgId, r3);
    FieldRoundTrip(f.messageId, MESSAGE_ID_SIZE, r4);
    WordRoundTrip(f.keySeq, t);
  }

  lemma BodyRoundTrip(f: TopicFanout)
    requires FanoutOk(f)
    ensures ParseBody(FanoutHead(f.topic, f.sender, f.senderMsgId, f.messageId, f.keySeq), BodyBytes(f)) == Got(f, [])
  {
    var r3 := RecipientBytes(f.recipients);
    var r2 := PutUvarint(|f.recipients|) + r3;
    var r1 := PutField(f.senderSignature) + r2;
    FieldRoundTrip(f.ciphertext, MAX_VALUE, r1);
    FieldRoundTrip(f.senderSignature, MAX_SIGNATURE, r2);
    CapIsWord();
    UvarintRoundTrip(|f.recipients|, 0, r3);
    RecipientsRoundTrip(f.recipients, []);
    assert r3 + [] == r3;
  }

  lemma FanoutRoundTrip(f: TopicFanout)
    requires FanoutOk(f)
    ensures EncodeFanout(f).Ok?
    ensures DecodeFanout(EncodeFanout(f).value) == Ok(f)
  {
    FanoutFits(f);
    HeadRoundTrip(f, BodyBytes(f));
    BodyRoundTrip(f);
  }

  lemma HeadLocal(s: Bytes, t: Bytes)
    requires ParseHead(s).Got?
    ensures ParseHead(s + t) == Got(ParseHead(s).value, ParseHead(s).rest + t)
    ensures var h := ParseHead(s).value; 0 < |h.topic| <= 64 && ValidAccount(h.sender) && ValidMessageId(h.messageId)
  {
    FieldLocal(s, 64, t);
    var r1 := Field(s, 64).rest;
    FieldLocal(r1, ACCOUNT_SIZE, t);
    var r2 := Field(r1, ACCOUNT_SIZE).rest;
    WordLocal(r2, t);
    var r3 := Word(r2).rest;
    FieldLocal(r3, MESSAGE_ID_SIZE, t);
    WordLocal(Field(r3, MESSAGE_ID_SIZE).rest, t);
  }

  lemma FanoutLocal(s: Bytes, t: Bytes)
    requires ParseFanout(s).Got?
    ensures ParseFanout(s + t) == Got(ParseFanout(s).value, ParseFanout(s).rest + t)
    ensures FanoutOk(ParseFanout(s).value)
  {
    HeadLocal(s, t);
    var r0 := ParseHead(s).rest;
    FieldLocal(r0, MAX_VALUE, t);
    var r1 := Field(r0, MAX_VALUE).rest;
    FieldLocal(r1, MAX_SIGNATURE, t);
    var r2 := Field(r1, MAX_SIGNATURE).rest;
    UvarintLocal(r2, 0, t);
    RecipientsLocal(Uvarint(r2).rest, Uvarint(r2).value, t);
  }

  lemma FanoutPrefixFree(s: Bytes, t: Bytes)
    requires DecodeFanout(s).Ok? && DecodeFanout(s + t).Ok?
    ensures t == []
  {
    FanoutLocal(s, t);
  }

  lemma FanoutReencodes(s: Bytes)
    requires DecodeFanout(s).Ok?
    ensures var f := DecodeFanout(s).value;
            EncodeFanout(f).Ok? && DecodeFanout(EncodeFanout(f).value) == Ok(f)
  {
    FanoutLocal(s, []);
    FanoutRoundTrip(DecodeFanout(s).value);
  }

  method MarshalRecipients(recipients: seq<Bytes>) returns (r: Result<Bytes>)
    ensures r == if (forall i :: 0 <= i < |recipients| ==> ValidAccount(recipients[i])) then
      Ok(RecipientBytes(recipients))
                 else Err(InvalidEnvelope)
  {
    var buf: Bytes := [];
    var n := 0;
    while n < |recipients|
      invariant 0 <= n <= |recipients|
      invariant forall i :: 0 <= i < n ==> ValidAccount(recipients[i])
      invariant buf + RecipientBytes(recipients[n..]) == RecipientBytes(recipients)
    {
      if !ValidAccount(recipients[n]) { return Err(InvalidEnvelope); }
      var field := PutField(recipients[n]);
      assert recipients[n..][1..] == recipients[n + 1..];
      assert buf + (field + RecipientBytes(recipients[n + 1..])) == buf + field + RecipientBytes(recipients[n + 1..]);
      buf := buf + field;
      n := n + 1;
    }
    assert buf + [] == buf;
    r := Ok(buf);
  }

  method MarshalFanout(f: TopicFanout) returns (r: Result<Bytes>)
    ensures r == EncodeFanout(f)
  {
    if |f.topic| == 0 || |f.topic| > 64 || !ValidAccount(f.sender) || !ValidMessageId(f.messageId) ||
       |f.ciphertext| == 0 || |f.ciphertext| > MAX_VALUE || |f.senderSignature| == 0 ||
       |f.senderSignature| > MAX_SIGNATURE || |f.recipients| == 0 || |f.recipients| > MAX_RECIPIENTS {
      return Err(InvalidEnvelope);
    }
    var buf := PutField(f.topic);
    buf := buf + PutField(f.sender);
    buf := buf + PutWord(f.senderMsgId);
    buf := buf + PutField(f.messageId);
    ghost var head := buf;
    buf := buf + PutWord(f.keySeq);
    buf := buf + PutField(f.ciphertext);
    buf := buf + PutField(f.senderSignature);
    ghost var most := buf;
    buf := buf + PutUvarint(|f.recipients|);
    var written := MarshalRecipients(f.recipients);
    if written.Err? { return Err(written.error); }
    buf := buf + written.value;
    ghost var last := PutUvarint(|f.recipients|) + written.value;
    assert buf == most + last;
    Regroup(head, PutWord(f.keySeq), PutField(f.ciphertext), PutField(f.senderSignature), last);
    Regroup(PutField(f.topic), PutField(f.sender), PutWord(f.senderMsgId), PutField(f.messageId),
            PutWord(f.keySeq) + BodyBytes(f));
    if |buf| > MAX_DATA { return Err(TooLarge); }
    r := Ok(buf);
  }

  method UnmarshalRecipients(reader: Reader, count: nat) returns (r: Option<seq<Bytes>>)
    modifies reader
    ensures match ParseRecipients(old(reader.rest), count)
            case Got(recipients, rest) => r == Some(recipients) && reader.rest == rest
            case Fail(_) => r == None
  {
    var recipients: seq<Bytes> := [];
    var n := 0;
    assert forall others: seq<Bytes> :: [] + others == others;
    while n < count
      invariant 0 <= n <= count
      invariant match ParseRecipients(reader.rest, count - n)
                case Got(others, rest) => ParseRecipients(old(reader.rest), count) == Got(recipients + others, rest)
                case Fail(_) => ParseRecipients(old(reader.rest), count).Fail?
    {
      var recipient := reader.ReadField(ACCOUNT_SIZE);
      if recipient == None || !ValidAccount(recipient.value) { return None; }
      ghost var others := ParseRecipients(reader.rest, count - n - 1);
      assert others.Got? ==>
        recipients + ([recipient.value] + others.value) == recipients + [recipient.value] + others.value;
      recipients := recipients + [recipient.value];
      n := n + 1;
    }
    assert recipients + [] == recipients;
    r := Some(recipients);
  }

  method UnmarshalFanout(encoded: Bytes) returns (r: Result<TopicFanout>)
    ensures r == DecodeFanout(encoded)
  {
    var reader := new Reader(encoded);
    var topic := reader.ReadField(64);
    if topic == None || topic.value == [] { return Err(InvalidEnvelope); }
    var sender := reader.ReadField(ACCOUNT_SIZE);
    if sender == None || !ValidAccount(sender.value) { return Err(InvalidEnvelope); }
    var senderMsgId := reader.ReadWord();
    if senderMsgId == None { return Err(InvalidEnvelope); }
    var messageId := reader.ReadField(MESSAGE_ID_SIZE);
    if messageId == None || !ValidMessageId(messageId.value) { return Err(InvalidEnvelope); }
    var keySeq := reader.ReadWord();
    if keySeq == None { return Err(InvalidEnvelope); }
    var ciphertext := reader.ReadField(MAX_VALUE);
    if ciphertext == None || |ciphertext.value| == 0 { return Err(InvalidEnvelope); }
    var signature := reader.ReadField(MAX_SIGNATURE);
    if signature == None || |signature.value| == 0 { return Err(InvalidEnvelope); }
    var count := reader.ReadUvarint();
    if count == None || count.value == 0 || count.value > MAX_RECIPIENTS { return Err(InvalidEnvelope); }
    var recipients := UnmarshalRecipients(reader, count.value);
    if recipients == None { return Err(InvalidEnvelope); }
    if reader.rest != [] { return Err(InvalidEnvelope); }
    r := Ok(TopicFanout(topic.value, sender.value, senderMsgId.value, messageId.value, keySeq.value,
                        ciphertext.value, signature.value, recipients.value));
  }

  // ------------------------------------------------------ acceptance record

  datatype Accepted = Accepted(
    sender: Bytes, senderMsgId: u64, messageId: Bytes, digest: Bytes, target: Bytes, data: Bytes,
    final: bool, status: byte)

  function RecordBytes(m: Accepted): Bytes {
    m.digest + (PutWord(m.senderMsgId) + (PutField(m.messageId) + (PutField(m.sender) +
      (PutField(m.target) + (PutField(m.data) + [if m.final then 1 else 0, m.status])))))
  }

  predicate RecordWritable(m: Accepted) {
    ValidAccount(m.sender) && ValidMessageId(m.messageId) && m.target != [] && m.data != []
  }

  function EncodeRecord(m: Accepted): Result<Bytes> {
    if RecordWritable(m) then Ok(RecordBytes(m)) else Err(InvalidEnvelope)
  }

  /** The first read takes up to 32 bytes and only fails on an empty input. */
  function ReadDigest(s: Bytes): Parsed<Bytes> {
    if s == [] then Fail(InvalidEnvelope)
    else if |s| < DIGEST_SIZE then Got(s + seq(DIGEST_SIZE - |s|, _ => 0), [])
    else Got(s[..DIGEST_SIZE], s[DIGEST_SIZE..])
  }

  /** What identifies a stored job: digest, sequence number, message id and sender. */
  function ParseRecordHead(s: Bytes): (p: Parsed<Accepted>)
    ensures p.Fail? ==> p.error == InvalidEnvelope
  {
    var (digest, r1) :- ReadDigest(s);
    var (senderMsgId, r2) :- Word(r1);
    var (messageId, r3) :- Field(r2, MESSAGE_ID_SIZE);
    if !ValidMessageId(messageId) then Fail(InvalidEnvelope)
    else
      var (sender, r4) :- Field(r3, ACCOUNT_SIZE);
      if !ValidAccount(sender) then Fail(InvalidEnvelope)
      else Got(Accepted(sender, senderMsgId, messageId, digest, [], [], false, 0), r4)
  }

  /** Where it goes, what it carries and how far it got. */
  function ParseRecordTail(head: Accepted, s: Bytes): (p: Parsed<Accepted>)
    ensures p.Fail? ==> p.error == InvalidEnvelope
  {
    var (target, r1) :- Field(s, MAX_RECORD_TARGET);
    if target == [] then Fail(InvalidEnvelope)
    else
      var (data, r2) :- Field(r1, MAX_RECORD_DATA);
      if |data| == 0 then Fail(InvalidEnvelope)
      else
        var (flags, r3) :- Byte(r2);
        if flags > 1 then Fail(InvalidEnvelope)
        else
          var (status, r4) :- Byte(r3);
          Got(head.(target := target, data := data, final := flags == 1, status := status), r4)
  }

  function ParseRecord(s: Bytes): (p: Parsed<Accepted>)
    ensures p.Fail? ==> p.error == InvalidEnvelope
  {
    var (head, r) :- ParseRecordHead(s);
    ParseRecordTail(head, r)
  }

  function DecodeRecord(s: Bytes): Result<Accepted> {
    Whole(ParseRecord(s))
  }

  /** A stored job can be read again exactly when its target and data are within the
      reader's limits, which the writer does not check. */
  lemma RecordRoundTrip(m: Accepted)
    requires RecordWritable(m) && |m.digest| == DIGEST_SIZE
    requires |m.target| < TWO64 && |m.data| < TWO64
    ensures DecodeRecord(RecordBytes(m)) == Ok(m) <==>
            |m.target| <= MAX_RECORD_TARGET && |m.data| <= MAX_RECORD_DATA
    ensures DecodeRecord(RecordBytes(m)).Ok? ==> DecodeRecord(RecordBytes(m)) == Ok(m)
  {
    var r6: Bytes := [if m.final then 1 else 0, m.status];
    var r5 := PutField(m.data) + r6;
    var r4 := PutField(m.target) + r5;
    var r3 := PutField(m.sender) + r4;
    var r2 := PutField(m.messageId) + r3;
    var r1 := PutWord(m.senderMsgId) + r2;
    assert (m.digest + r1)[..DIGEST_SIZE] == m.digest && (m.digest + r1)[DIGEST_SIZE..] == r1;
    WordRoundTrip(m.senderMsgId, r2);
    FieldRoundTrip(m.messageId, MESSAGE_ID_SIZE, r3);
    FieldRoundTrip(m.sender, ACCOUNT_SIZE, r4);
    FieldRoundTrip(m.target, MAX_RECORD_TARGET, r5);
    FieldRoundTrip(m.data, MAX_RECORD_DATA, r6);
    assert r6[1..] == [m.status] && r6[1..][1..] == [];
  }

  lemma RecordHeadLocal(s: Bytes, t: Bytes)
    requires ParseRecordHead(s).Got?
    ensures ParseRecordHead(s + t) == Got(ParseRecordHead(s).value, ParseRecordHead(s).rest + t)
    ensures var m := ParseRecordHead(s).value;
            ValidAccount(m.sender) && ValidMessageId(m.messageId) && |m.digest| == DIGEST_SIZE
  {
    assert |s| >= DIGEST_SIZE;
    var r1 := s[DIGEST_SIZE..];
    assert (s + t)[..DIGEST_SIZE] == s[..DIGEST_SIZE] && (s + t)[DIGEST_SIZE..] == r1 + t;
    WordLocal(r1, t);
    var r2 := Word(r1).rest;
    FieldLocal(r2, MESSAGE_ID_SIZE, t);
    FieldLocal(Field(r2, MESSAGE_ID_SIZE).rest, ACCOUNT_SIZE, t);
  }

  lemma RecordLocal(s: Bytes, t: Bytes)
    requires ParseRecord(s).Got?
    ensures ParseRecord(s + t) == Got(ParseRecord(s).value, ParseRecord(s).rest + t)
    ensures var m := ParseRecord(s).value;
            && RecordWritable(m)
            && |m.digest| == DIGEST_SIZE
            && |m.target| <= MAX_RECORD_TARGET
            && |m.data| <= MAX_RECORD_DATA
  {
    RecordHeadLocal(s, t);
    var r0 := ParseRecordHead(s).rest;
    FieldLocal(r0, MAX_RECORD_TARGET, t);
    var r1 := Field(r0, MAX_RECORD_TARGET).rest;
    FieldLocal(r1, MAX_RECORD_DATA, t);
    var r2 := Field(r1, MAX_RECORD_DATA).rest;
    ByteLocal(r2, t);
    ByteLocal(Byte(r2).rest, t);
  }

  lemma RecordPrefixFree(s: Bytes, t: Bytes)
    requires DecodeRecord(s).Ok? && DecodeRecord(s + t).Ok?
    ensures t == []
  {
    RecordLocal(s, t);
  }

  method MarshalRecord(m: Accepted) returns (r: Result<Bytes>)
    ensures r == EncodeRecord(m)
  {
    if !ValidAccount(m.sender) || !ValidMessageId(m.messageId) || m.target == [] || |m.data| == 0 {
      return Err(InvalidEnvelope);
    }
    var head := m.digest + PutWord(m.senderMsgId) + PutField(m.messageId);
    var buf := head + PutField(m.sender);
    buf := buf + PutField(m.target);
    buf := buf + PutField(m.data);
    var flags: byte := 0;
    if m.final { flags := 1; }
    buf := buf + [flags];
    buf := buf + [m.status];
    assert [flags] + [m.status] == [flags, m.status];
    assert buf == head + (PutField(m.sender) + (PutField(m.target) + (PutField(m.data) + [flags, m.status])));
    assert buf == RecordBytes(m);
    r := Ok(buf);
  }

  method UnmarshalRecord(encoded: Bytes) returns (r: Result<Accepted>)
    ensures r == DecodeRecord(encoded)
  {
    var reader := new Reader(encoded);
    if reader.rest == [] { return Err(InvalidEnvelope); }
    var taken := if |encoded| < DIGEST_SIZE then |encoded| else DIGEST_SIZE;
    var prefix := reader.ReadFull(taken);
    var digest := prefix.value + seq(DIGEST_SIZE - taken, _ => 0);
    assert reader.rest == ReadDigest(encoded).rest && digest == ReadDigest(encoded).value;
    var senderMsgId := reader.ReadWord();
    if senderMsgId == None { return Err(InvalidEnvelope); }
    var messageId := reader.ReadField(MESSAGE_ID_SIZE);
    if messageId == None || !ValidMessageId(messageId.value) { return Err(InvalidEnvelope); }
    var sender := reader.ReadField(ACCOUNT_SIZE);
    if sender == None || !ValidAccount(sender.value) { return Err(InvalidEnvelope); }
    var target := reader.ReadField(MAX_RECORD_TARGET);
    if target == None || target.value == [] { return Err(InvalidEnvelope); }
    var data := reader.ReadField(MAX_RECORD_DATA);
    if data == None || |data.value| == 0 { return Err(InvalidEnvelope); }
    var flags := reader.ReadByte();
    if flags == None || flags.value > 1 { return Err(InvalidEnvelope); }
    var status := reader.ReadByte();
    if status == None || reader.rest != [] { return Err(InvalidEnvelope); }
    r := Ok(Accepted(sender.value, senderMsgId.value, messageId.value, digest, target.value, data.value,
                     flags.value == 1, status.value));
  }

  // ------------------------------------------------------------------ layout

  lemma ShortField(x: byte)
    ensures PutField([x]) == [1, x]
  {
  }

  lemma ShortWord(x: byte)
    ensures PutWord(x) == [0, 0, 0, 0, 0, 0, 0, x]
  {
    assert BigEndian(0, 7) == [0, 0, 0, 0, 0, 0, 0];
    assert BigEndian(x, 8) == BigEndian(0, 7) + [x];
  }

  /** Where every field of an envelope stands on the wire, shown on fields of one byte: fields carry
      their length, and topic fan-outs, they alone, a signature. */
  lemma EnvelopeLayout(kind: byte, source: byte, payload: byte, signature: byte)
    ensures EnvelopeBytes(Envelope(kind, [source], [payload], [signature])) ==
      [kind, 1, source, 1, payload] + if kind == 6 || kind == 7 then [1, signature] else []
  {
    ShortField(source);
    ShortField(payload);
    ShortField(signature);
  }

  /** The same of an ack: numbers are eight bytes, most significant first. */
  lemma AckFieldsLayout(kind: byte, sender: byte, number: byte, id: byte, status: byte, code: byte, delivery: byte,
                        ms: byte,
                        signature: byte)
    ensures AckBytes(MessageAck(kind, [sender], number, [id], status, [code], [delivery], ms, []),
      PutField([signature])) ==
      [kind, 1, sender, 0, 0, 0, 0, 0, 0, 0, number, 1, id, status, 1, code, 1, delivery, 0, 0, 0, 0, 0, 0, 0, ms,
       1, signature]
  {
    ShortField(sender);
    ShortWord(number);
    ShortField(id);
    ShortField(code);
    ShortField(delivery);
    ShortWord(ms);
    ShortField(signature);
  }

  lemma DirectLayout(sender: byte, number: byte, id: byte, recipient: byte, text: byte, signature: byte)
    ensures DirectBytes(DirectMessage([sender], number, [id], [recipient], [text], [signature])) ==
      [1, sender, 0, 0, 0, 0, 0, 0, 0, number, 1, id, 1, recipient, 1, text, 1, signature]
  {
    ShortField(sender);
    ShortWord(number);
    ShortField(id);
    ShortField(recipient);
    ShortField(text);
    ShortField(signature);
  }

  /** A stored record begins with the bare digest and ends with a flag and the status. */
  lemma RecordLayout(digest: Bytes, number: byte, id: byte, sender: byte, target: byte, data: byte, final: bool,
                     status: byte)
    ensures RecordBytes(Accepted([sender], number, [id], digest, [target], [data], final, status)) ==
      digest + [0, 0, 0, 0, 0, 0, 0, number, 1, id, 1, sender, 1, target, 1, data, if final then 1 else 0, status]
  {
    ShortWord(number);
    ShortField(id);
    ShortField(sender);
    ShortField(target);
    ShortField(data);
  }
}
