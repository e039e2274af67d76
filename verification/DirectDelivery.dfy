/** The protocol over the real wire format: the codec and the signing payload meet the
    contract the protocol relies on, so its guarantees hold of actual packets. */
module DirectDelivery {
  import opened Framing
  import opened MessageCodec
  import opened Signing
  import opened Protocol
  import Retry

  function PutEnvelope(kind: byte, core: Bytes, payload: Result<Bytes>): Option<Bytes> {
    match payload
    case Err(_) => None
    case Ok(p) =>
      match EncodeEnvelope(Envelope(kind, core, p, []))
      case Err(_) => None
      case Ok(data) => Some(data)
  }

  /** The payload of an envelope of one kind, with the core that claims to have sent it. */
  function PayloadOf(kind: byte, data: Bytes): Option<(Bytes, Bytes)> {
    match DecodeEnvelope(data)
    case Err(_) => None
    case Ok(e) => if e.kind == kind then Some((e.source, e.payload)) else None
  }

  function PutDirect(core: Bytes, m: DirectMessage): Option<Bytes> {
    PutEnvelope(DIRECT, core, EncodeDirect(m))
  }

  function PutAck(core: Bytes, a: MessageAck): Option<Bytes> {
    PutEnvelope(ACK, core, EncodeAck(a, true))
  }

  function DirectOf(data: Bytes): Option<(Bytes, DirectMessage)> {
    match PayloadOf(DIRECT, data)
    case None => None
    case Some((source, payload)) =>
      if DecodeDirect(payload).Ok? then Some((source, DecodeDirect(payload).value)) else None
  }

  function AckOf(data: Bytes): Option<(Bytes, MessageAck)> {
    match PayloadOf(ACK, data)
    case None => None
    case Some((source, payload)) => if DecodeAck(payload).Ok? then Some((source, DecodeAck(payload).value)) else None
  }

  function Payload(source: Bytes, target: Bytes, a: MessageAck): Option<Bytes> {
    match AckPayload(source, target, a)
    case Err(_) => None
    case Ok(p) => Some(p)
  }

  const WIRE := Wire(PutDirect, PutAck, DirectOf, AckOf, Retry.Destination, Payload)

  lemma EnvelopeCarries(kind: byte, core: Bytes, payload: Bytes)
    requires !SignedKind(kind) && PutEnvelope(kind, core, Ok(payload)).Some?
    ensures PayloadOf(kind, PutEnvelope(kind, core, Ok(payload)).value) == Some((core, payload))
    ensures forall other :: other != kind ==> PayloadOf(other, PutEnvelope(kind, core, Ok(payload)).value) == None
  {
    EnvelopeRoundTrip(Envelope(kind, core, payload, []));
  }

  lemma DirectTravels(core: Bytes, m: DirectMessage)
    requires PutDirect(core, m).Some?
    ensures DirectOf(PutDirect(core, m).value) == Some((core, m))
  {
    EnvelopeCarries(DIRECT, core, DirectBytes(m));
    DirectRoundTrip(m);
  }

  lemma AckTravels(core: Bytes, a: MessageAck)
    requires PutAck(core, a).Some?
    ensures AckOf(PutAck(core, a).value) == Some((core, a)) && DirectOf(PutAck(core, a).value) == None
  {
    EnvelopeCarries(ACK, core, EncodeAck(a, true).value);
    AckRoundTrip(a);
  }

  lemma DirectReadable(data: Bytes)
    requires DirectOf(data).Some?
    ensures AckOf(data) == None && ValidAccount(DirectOf(data).value.1.sender)
  {
    DirectLocal(PayloadOf(DIRECT, data).value.1, []);
  }

  lemma AckReadable(data: Bytes)
    requires AckOf(data).Some?
    ensures ValidAccount(AckOf(data).value.1.sender)
  {
    AckLocal(PayloadOf(ACK, data).value.1, []);
  }

  lemma PayloadContract()
    ensures PayloadOk(WIRE)
  {
    forall s1, t1, a1, s2, t2, a2 | Payload(s1, t1, a1).Some? && Payload(s1, t1, a1) == Payload(s2, t2, a2)
      ensures s1 == s2 && t1 == t2 && SameButSignature(a1, a2)
    {
      AckPayloadInjective(s1, t1, a1, s2, t2, a2);
    }
    forall s, t, a1, a2 | SameButSignature(a1, a2) ensures Payload(s, t, a1) == Payload(s, t, a2) {
      assert EncodeAck(a1, false) == EncodeAck(a2, false);
    }
  }

  lemma WireContract()
    ensures WireOk(WIRE)
  {
    forall c, m | PutDirect(c, m).Some? ensures DirectOf(PutDirect(c, m).value) == Some((c, m)) { DirectTravels(c, m); }
    forall c, a | PutAck(c, a).Some?
      ensures AckOf(PutAck(c, a).value) == Some((c, a)) && DirectOf(PutAck(c, a).value) == None
    {
      AckTravels(c, a);
    }
    forall d | DirectOf(d).Some? ensures AckOf(d) == None && ValidAccount(DirectOf(d).value.1.sender) {
      DirectReadable(d);
    }
    forall d | AckOf(d).Some? ensures ValidAccount(AckOf(d).value.1.sender) { AckReadable(d); }
    PayloadContract();
  }

  /** End-to-end safety of the real packets. */
  lemma DirectDeliveryIsSafe(k: Crypto, honest: bool, start: State, run: seq<Action>, c: Bytes, key: Bytes)
    requires Init(start) && Possible(WIRE, k, honest, start, run)
    requires ClosedOk(After(WIRE, k, honest, start, run), c, key)
    ensures var s := After(WIRE, k, honest, start, run);
            var job := s.cores[c].store.accepted[key];
            && DirectOf(job.data).Some?
            && var (source, m) := DirectOf(job.data).value;
               && source == c && k.accountSigned(m) && (c, m) in s.history.accepted
               && m.sender == job.sender && m.senderMsgId == job.senderMsgId && m.messageId == job.messageId
               && (honest || OneRecipient(k, m) ==> (job.target, DeliveryKey(m)) in s.history.mailbox)
  {
    WireContract();
    OkMeansDelivered(WIRE, k, honest, start, run, c, key);
  }
}
