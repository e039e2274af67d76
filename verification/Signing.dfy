/** What CoreNodes sign: acknowledgements and topic deliveries. */
module Signing {
  import opened Framing
  import opened MessageCodec

  const ACK_DOMAIN: Bytes := Ascii("satoshinet-message-ack-v1")
  const DELIVERY_DOMAIN: Bytes := Ascii("satoshinet-topic-delivery-v1")

  /** The payload a core signs for an ack: domain, both core identities, every ack field. */
  function AckPayload(source: Bytes, target: Bytes, ack: MessageAck): Result<Bytes> {
    if source == [] || target == [] then Err(InvalidEnvelope)
    else
      match EncodeAck(ack, false)
      case Err(e) => Err(e)
      case Ok(encoded) =>
        Ok(PutField(ACK_DOMAIN) + (PutField(source) + (PutField(target) + PutField(encoded))))
  }

  /** The payload the service core signs for a topic delivery. */
  function DeliveryPayload(target: Bytes, e: Envelope): Result<Bytes> {
    if target == [] || e.source == [] || |e.payload| == 0 || !SignedKind(e.kind) then Err(InvalidEnvelope)
    else Ok(PutField(DELIVERY_DOMAIN) + (PutField(e.source) + (PutField(target) + ([e.kind] + PutField(e.payload)))))
  }

  /** There is something to sign exactly if both cores are named and the ack can be written. */
  lemma AckPayloadIff(source: Bytes, target: Bytes, a: MessageAck)
    ensures AckPayload(source, target, a).Ok? <==> source != [] && target != [] && EncodeAck(a, false).Ok?
    ensures EncodeAck(a, false).Ok? <==>
      && a.original != 0 && ValidAccount(a.sender) && a.status != 0 && |a.errorCode| <= 128
      && (a.deliveryId == [] || |a.deliveryId| == 64)
      && (ValidMessageId(a.messageId) || (a.messageId == [] && a.original != 1 && a.original != 5 && a.original != 6))
  {
  }

  /** Of topic deliveries, exactly if both cores are named and it is a fan-out with a body. */
  lemma DeliveryPayloadIff(target: Bytes, e: Envelope)
    ensures DeliveryPayload(target, e).Ok? <==>
      target != [] && e.source != [] && e.payload != [] && (e.kind == 6 || e.kind == 7)
  {
  }

  /** One signature cannot be moved to another ack: the payload fixes both cores and
      every field except the signature itself. */
  lemma AckPayloadInjective(s1: Bytes, t1: Bytes, a1: MessageAck, s2: Bytes, t2: Bytes, a2: MessageAck)
    requires AckPayload(s1, t1, a1).Ok? && AckPayload(s1, t1, a1) == AckPayload(s2, t2, a2)
    ensures s1 == s2 && t1 == t2 && a1 == a2.(signature := a1.signature)
  {
    var e1, e2 := EncodeAck(a1, false).value, EncodeAck(a2, false).value;
    FieldInjective(ACK_DOMAIN, ACK_DOMAIN, PutField(s1) + (PutField(t1) + PutField(e1)),
                   PutField(s2) + (PutField(t2) + PutField(e2)));
    FieldInjective(s1, s2, PutField(t1) + PutField(e1), PutField(t2) + PutField(e2));
    FieldInjective(t1, t2, PutField(e1), PutField(e2));
    assert PutField(e1) + [] == PutField(e1) && PutField(e2) + [] == PutField(e2);
    FieldInjective(e1, e2, [], []);
    AckBytesInjective(a1, a2, [], []);
  }

  lemma DeliveryPayloadInjective(t1: Bytes, e1: Envelope, t2: Bytes, e2: Envelope)
    requires DeliveryPayload(t1, e1).Ok? && DeliveryPayload(t1, e1) == DeliveryPayload(t2, e2)
    ensures t1 == t2 && e1 == e2.(signature := e1.signature)
  {
    var b1, b2 := [e1.kind] + PutField(e1.payload), [e2.kind] + PutField(e2.payload);
    FieldInjective(DELIVERY_DOMAIN, DELIVERY_DOMAIN, PutField(e1.source) + (PutField(t1) + b1),
                   PutField(e2.source) + (PutField(t2) + b2));
    FieldInjective(e1.source, e2.source, PutField(t1) + b1, PutField(t2) + b2);
    FieldInjective(t1, t2, b1, b2);
    HeadInjective(e1.kind, e2.kind, PutField(e1.payload), PutField(e2.payload));
    assert PutField(e1.payload) + [] == PutField(e1.payload) && PutField(e2.payload) + [] == PutField(e2.payload);
    FieldInjective(e1.payload, e2.payload, [], []);
  }

  /** A signature over one kind of payload is never a signature over the other. */
  lemma DomainsSeparate(source: Bytes, target: Bytes, ack: MessageAck, t: Bytes, e: Envelope)
    requires AckPayload(source, target, ack).Ok? && DeliveryPayload(t, e).Ok?
    ensures AckPayload(source, target, ack) != DeliveryPayload(t, e)
  {
    assert |ACK_DOMAIN| == 25 && |DELIVERY_DOMAIN| == 28;
    if AckPayload(source, target, ack) == DeliveryPayload(t, e) {
      FieldInjective(ACK_DOMAIN, DELIVERY_DOMAIN,
                     PutField(source) + (PutField(target) + PutField(EncodeAck(ack, false).value)),
                     PutField(e.source) + (PutField(t) + ([e.kind] + PutField(e.payload))));
    }
  }
}
