/**
 A channel end and the three packet handlers.  What a light client proves of the other end is that
 a packet was committed there, or that an acknowledgement was written there; a proof stays good when
 the commitment has since been removed.
 */
module PacketChannel {
  import opened Wrappers
  import opened TokenBank

  datatype End = End(port: string, chan: string)

  /** The denomination travels as a string. */
  datatype Data = Data(denom: string, amount: int, sender: Address, receiver: Address)

  datatype Packet = Packet(sequence: nat, source: End, destination: End, data: Data)

  datatype Ack = Success | Failure

  datatype Order = Unordered | Ordered

  datatype Channel = Channel(
    self: End,
    counterparty: End,
    order: Order,
    nextSequenceSend: nat,
    nextSequenceRecv: nat,
    nextSequenceAck: nat,
    packets: map<nat, Packet>,
    receipts: set<nat>,
    acknowledgements: map<nat, Ack>)

  function NewChannel(self: End, counterparty: End, order: Order): Channel {
    Channel(self, counterparty, order, 1, 1, 1, map[], {}, map[])
  }

  function SendPacket(c: Channel, p: Packet): Option<Channel> {
    if p.source != c.self || p.destination != c.counterparty || p.sequence != c.nextSequenceSend then None
    else Some(c.(nextSequenceSend := c.nextSequenceSend + 1, packets := c.packets[p.sequence := p]))
  }

  function RecvPacket(c: Channel, p: Packet, proven: bool, ack: Ack): Option<Channel> {
    if p.destination != c.self || p.source != c.counterparty || !proven then None
    else
      var d := c.(acknowledgements := c.acknowledgements[p.sequence := ack]);
      match c.order
      case Unordered =>
        if p.sequence in c.receipts then None else Some(d.(receipts := c.receipts + {p.sequence}))
      case Ordered =>
        if p.sequence != c.nextSequenceRecv then None else Some(d.(nextSequenceRecv := c.nextSequenceRecv + 1))
  }

  function AcknowledgePacket(c: Channel, p: Packet, proven: bool): Option<Channel> {
    if p.source != c.self || p.destination != c.counterparty then None
    else if p.sequence !in c.packets || c.packets[p.sequence] != p || !proven then None
    else if c.order.Ordered? && p.sequence != c.nextSequenceAck then None
    else
      var next := if c.order.Ordered? then c.nextSequenceAck + 1 else c.nextSequenceAck;
      Some(c.(nextSequenceAck := next, packets := c.packets - {p.sequence}))
  }

  // ---------------------------------------------------------------- two ends

  /**
   What holds between the end x that sends and the end y that receives; sent is every packet that
   x ever committed.
   */
  ghost predicate Linked(x: Channel, y: Channel, sent: map<nat, Packet>) {
    && x.self == y.counterparty && x.counterparty == y.self && x.order == y.order
    && (forall s :: s in sent <==> 1 <= s < x.nextSequenceSend) && 1 <= x.nextSequenceSend
    && (forall s :: s in sent ==> sent[s].sequence == s && sent[s].source == x.self && sent[s].destination == y.self)
    && (forall s :: s in x.packets ==> s in sent && x.packets[s] == sent[s])
    && (forall s :: s in y.acknowledgements ==> s in sent)
    && (forall s :: s in sent ==> s in x.packets || s in y.acknowledgements)
    && (if x.order.Unordered? then y.receipts == y.acknowledgements.Keys
        else
          && 1 <= x.nextSequenceAck <= y.nextSequenceRecv <= x.nextSequenceSend
          && (forall s :: s in y.acknowledgements <==> 1 <= s < y.nextSequenceRecv)
          && (forall s :: s in x.packets <==> x.nextSequenceAck <= s < x.nextSequenceSend))
  }

  lemma NewIsLinked(a: End, b: End, order: Order)
    ensures Linked(NewChannel(a, b, order), NewChannel(b, a, order), map[])
  {
  }

  lemma SendKeepsLink(x: Channel, y: Channel, sent: map<nat, Packet>, p: Packet)
    requires Linked(x, y, sent) && SendPacket(x, p).Some?
    ensures p.sequence !in sent && p.sequence !in y.acknowledgements
    ensures Linked(SendPacket(x, p).value, y, sent[p.sequence := p])
  {
  }

  /** What an end sends has nothing to do with what it receives. */
  lemma SendKeepsOther(x: Channel, y: Channel, sent: map<nat, Packet>, p: Packet)
    requires Linked(x, y, sent) && SendPacket(y, p).Some?
    ensures Linked(x, SendPacket(y, p).value, sent)
  {
  }

  /** A packet is received only once, and in order on an ordered channel. */
  lemma RecvKeepsLink(x: Channel, y: Channel, sent: map<nat, Packet>, p: Packet, ack: Ack)
    requires Linked(x, y, sent) && p.sequence in sent && sent[p.sequence] == p && RecvPacket(y, p, true, ack).Some?
    ensures p.sequence !in y.acknowledgements && p.sequence in x.packets && x.packets[p.sequence] == p
    ensures Linked(x, RecvPacket(y, p, true, ack).value, sent)
    ensures RecvPacket(y, p, true, ack).value.acknowledgements == y.acknowledgements[p.sequence := ack]
  {
  }

  lemma RecvKeepsOther(x: Channel, y: Channel, sent: map<nat, Packet>, p: Packet, ack: Ack)
    requires Linked(y, x, sent) && RecvPacket(y, p, true, ack).Some?
    ensures Linked(RecvPacket(y, p, true, ack).value, x, sent)
  {
  }

  /** Acknowledging removes a commitment that was received. */
  lemma AckKeepsLink(x: Channel, y: Channel, sent: map<nat, Packet>, p: Packet)
    requires Linked(x, y, sent) && p.sequence in y.acknowledgements && AcknowledgePacket(x, p, true).Some?
    ensures Linked(AcknowledgePacket(x, p, true).value, y, sent)
    ensures AcknowledgePacket(x, p, true).value.packets == x.packets - {p.sequence} && p.sequence in x.packets
  {
  }

  lemma AckKeepsOther(x: Channel, y: Channel, sent: map<nat, Packet>, p: Packet)
    requires Linked(y, x, sent) && AcknowledgePacket(x, p, true).Some?
    ensures Linked(y, AcknowledgePacket(x, p, true).value, sent)
  {
  }

  /** A packet that was received before is refused, and one that was acknowledged cannot be again. */
  lemma NeverTwice(x: Channel, y: Channel, sent: map<nat, Packet>, p: Packet, ack: Ack, proven: bool)
    requires Linked(x, y, sent)
    ensures p.sequence in y.acknowledgements ==> RecvPacket(y, p, proven, ack) == None
    ensures p.sequence in sent && p.sequence !in x.packets ==> AcknowledgePacket(x, p, proven) == None
  {
  }
}
