/**
 ICS-20 transfers between two chains that both run this code: tokens are locked where they are at
 home and minted as vouchers where they are sent, and vouchers are burned on their way back.
 */
module TokenTransfer {
  import opened Wrappers
  import opened DenomPath
  import opened TokenBank
  import opened PacketChannel

  datatype Chain = Chain(chan: Channel, bank: Bank)

  // ---------------------------------------------------------------- the module

  /** The denomination came over the channel that ends here. */
  predicate CameOver(d: Denom, e: End) {
    HasPrefixes(d.path, [e.port, e.chan])
  }

  function Voucher(d: Denom, e: End): Denom {
    Denom(AddPath(d.path, e.port, e.chan), d.base)
  }

  function OutgoingPacket(c: Channel, d: Denom, amount: int, sender: Address, receiver: Address): Packet {
    Packet(c.nextSequenceSend, c.self, c.counterparty, Data(ToString(d), amount, sender, receiver))
  }

  function Transfer(c: Chain, d: Denom, amount: int, sender: Address, receiver: Address): Option<Chain> {
    match if !CameOver(d, c.chan.self) then Lock(c.bank, sender, d, amount) else Burn(c.bank, sender, d, amount)
    case None => None
    case Some(bank) =>
      match SendPacket(c.chan, OutgoingPacket(c.chan, d, amount, sender, receiver))
      case None => None
      case Some(chan) => Some(Chain(chan, bank))
  }

  /** Whatever goes wrong here is told to the sender, and leaves the bank as it is. */
  function OnRecvPacket(b: Bank, p: Packet): (Bank, Ack) {
    var d := FromString(p.data.denom);
    if CameOver(d, p.source) then
      match RemovePrefix(d.path)
      case None => (b, Failure)
      case Some(path) =>
        match Unlock(b, p.data.receiver, Denom(path, d.base), p.data.amount)
        case None => (b, Failure)
        case Some(bank) => (bank, Success)
    else (Mint(b, p.data.receiver, Voucher(d, p.destination), p.data.amount), Success)
  }

  function Receive(c: Chain, p: Packet, proven: bool): Option<Chain> {
    var r := OnRecvPacket(c.bank, p);
    match RecvPacket(c.chan, p, proven, r.1)
    case None => None
    case Some(chan) => Some(Chain(chan, r.0))
  }

  function RefundTokens(b: Bank, p: Packet): Option<Bank> {
    var d := FromString(p.data.denom);
    if !CameOver(d, p.source) then Unlock(b, p.data.sender, d, p.data.amount)
    else Some(Mint(b, p.data.sender, d, p.data.amount))
  }

  function Acknowledge(c: Chain, p: Packet, ack: Ack, proven: bool): Option<Chain> {
    match if ack.Success? then Some(c.bank) else RefundTokens(c.bank, p)
    case None => None
    case Some(bank) =>
      match AcknowledgePacket(c.chan, p, proven)
      case None => None
      case Some(chan) => Some(Chain(chan, bank))
  }

  // ---------------------------------------------------------------- two chains

  datatype Side = A | B

  /** Two chains, and all packets that either of them ever committed. */
  datatype World = World(a: Chain, b: Chain, sentA: map<nat, Packet>, sentB: map<nat, Packet>)

  /** The same world with this side called a. */
  function Seen(w: World, from: Side): World {
    if from.A? then w else World(w.b, w.a, w.sentB, w.sentA)
  }

  datatype Action =
    | Fund(owner: Address, denom: Denom, amount: int)
    | Send(denom: Denom, amount: int, sender: Address, receiver: Address)
    | Deliver(packet: Packet)
    | Confirm(packet: Packet, ack: Ack)

  /**
   An action of side a; one that fails changes nothing.  The denomination to send has been read from
   a string, or is one that was recorded when it was minted, so its base has no slash.
   */
  function Act(w: World, x: Action): World {
    match x
    case Fund(owner, d, amount) => w.(a := w.a.(bank := Allocate(w.a.bank, owner, d, amount)))
    case Send(d, amount, sender, receiver) =>
      if !Slashless(d.base) then w
      else
      (match Transfer(w.a, d, amount, sender, receiver)
       case None => w
       case Some(c) =>
         var p := OutgoingPacket(w.a.chan, d, amount, sender, receiver);
         w.(a := c, sentA := w.sentA[p.sequence := p]))
    case Deliver(p) =>
      (match Receive(w.a, p, p.sequence in w.sentB && w.sentB[p.sequence] == p)
       case None => w
       case Some(c) => w.(a := c))
    case Confirm(p, ack) =>
      var acks := w.b.chan.acknowledgements;
      (match Acknowledge(w.a, p, ack, p.sequence in acks && acks[p.sequence] == ack)
       case None => w
       case Some(c) => w.(a := c))
  }

  function Turn(w: World, side: Side, x: Action): World {
    Seen(Act(Seen(w, side), x), side)
  }

  // ---------------------------------------------------------------- what is under way

  /**
   A packet's amount is under way from when it is sent until it is received with success, or its
   failure has been confirmed to the sender.
   */
  function UnderWay(packets: map<nat, Packet>, acks: map<nat, Ack>, denom: string): map<nat, int> {
    map k | k in packets :: if packets[k].data.denom == denom && !(k in acks && acks[k].Success?) then packets[k].data.amount else 0
  }

  ghost function Flight(packets: map<nat, Packet>, acks: map<nat, Ack>, denom: string): int {
    Sum(UnderWay(packets, acks, denom))
  }

  lemma FlightOnSend(packets: map<nat, Packet>, acks: map<nat, Ack>, p: Packet, denom: string)
    requires p.sequence !in packets && p.sequence !in acks
    ensures Flight(packets[p.sequence := p], acks, denom)
         == Flight(packets, acks, denom) + if p.data.denom == denom then p.data.amount else 0
  {
    var k, v := p.sequence, if p.data.denom == denom then p.data.amount else 0;
    SumPut(UnderWay(packets, acks, denom), k, v);
    assert UnderWay(packets[k := p], acks, denom) == UnderWay(packets, acks, denom)[k := v];
  }

  lemma FlightOnReceive(packets: map<nat, Packet>, acks: map<nat, Ack>, p: Packet, ack: Ack, denom: string)
    requires p.sequence in packets && packets[p.sequence] == p && p.sequence !in acks
    ensures Flight(packets, acks[p.sequence := ack], denom)
         == Flight(packets, acks, denom) - if p.data.denom == denom && ack.Success? then p.data.amount else 0
  {
    var k, v := p.sequence, if p.data.denom == denom && ack.Failure? then p.data.amount else 0;
    SumPut(UnderWay(packets, acks, denom), k, v);
    assert UnderWay(packets, acks[k := ack], denom) == UnderWay(packets, acks, denom)[k := v];
  }

  lemma FlightOnAck(packets: map<nat, Packet>, acks: map<nat, Ack>, p: Packet, denom: string)
    requires p.sequence in packets && packets[p.sequence] == p && p.sequence in acks
    ensures Flight(packets - {p.sequence}, acks, denom)
         == Flight(packets, acks, denom) - if p.data.denom == denom && acks[p.sequence].Failure? then p.data.amount else 0
  {
    var k := p.sequence;
    SumPick(UnderWay(packets, acks, denom), k);
    assert UnderWay(packets - {k}, acks, denom) == UnderWay(packets, acks, denom) - {k};
  }

  // ---------------------------------------------------------------- denominations

  predicate EndOk(e: End) {
    Slashless(e.port) && Slashless(e.chan)
  }

  /** Taking the prefix off and putting it back gives the same. */
  predicate Proper(d: Denom, e: End) {
    Slashless(d.base) && RemovePrefix(d.path).Some? && AddPath(RemovePrefix(d.path).value, e.port, e.chan) == d.path
  }

  lemma SameString(d: Denom, e: Denom)
    requires Slashless(d.base) && Slashless(e.base)
    ensures FromString(ToString(d)) == d
    ensures ToString(d) == ToString(e) <==> d == e
  {
    DenomRoundTrip(d);
    DenomRoundTrip(e);
  }

  lemma VoucherFacts(d: Denom, e: End)
    requires EndOk(e) && Slashless(d.base)
    ensures CameOver(Voucher(d, e), e) && Proper(Voucher(d, e), e) && RemovePrefix(Voucher(d, e).path) == Some(d.path)
  {
    PrefixRoundTrip(d.path, e.port, e.chan);
  }

  lemma ProperIsVoucher(v: Denom, e: End)
    requires Proper(v, e)
    ensures v == Voucher(Denom(RemovePrefix(v.path).value, v.base), e)
  {
  }

  lemma SameVoucher(d: Denom, f: Denom, e: End)
    requires EndOk(e) && Slashless(d.base) && Slashless(f.base)
    ensures Voucher(d, e) == Voucher(f, e) <==> d == f
  {
    VoucherFacts(d, e);
    VoucherFacts(f, e);
  }

  // ---------------------------------------------------------------- conservation

  /**
   What is locked of d at home is out there as vouchers, or under way in either direction.
   */
  ghost predicate Balanced(x: Chain, y: Chain, d: Denom) {
    Total(x.bank.locked, d)
    == Total(y.bank.minted, Voucher(d, y.chan.self))
     + Flight(x.chan.packets, y.chan.acknowledgements, ToString(d))
     + Flight(y.chan.packets, x.chan.acknowledgements, ToString(Voucher(d, y.chan.self)))
  }

  ghost predicate Conserved(x: Chain, y: Chain) {
    forall d: Denom :: Slashless(d.base) && !CameOver(d, x.chan.self) ==> Balanced(x, y, d)
  }

  /** What holds of a chain and of the packets that it sends to the other. */
  ghost predicate Orderly(x: Chain, y: Chain, sent: map<nat, Packet>) {
    && Linked(x.chan, y.chan, sent) && EndOk(x.chan.self)
    && (forall d :: d in x.bank.minted ==> Proper(d, x.chan.self))
    && (forall s :: s in sent ==> ProperlySent(sent[s], x.chan.self))
    && (forall s :: s in y.chan.acknowledgements && y.chan.acknowledgements[s].Failure? ==>
          CameOver(FromString(sent[s].data.denom), x.chan.self))
  }

  /** Only a voucher that was minted here is ever sent back. */
  predicate ProperlySent(p: Packet, e: End) {
    var d := FromString(p.data.denom);
    p.data.denom == ToString(d) && Slashless(d.base) && (CameOver(d, e) ==> Proper(d, e))
  }

  ghost predicate Safe(w: World) {
    && Orderly(w.a, w.b, w.sentA) && Orderly(w.b, w.a, w.sentB)
    && Conserved(w.a, w.b) && Conserved(w.b, w.a)
  }

  /** Chain x sends d. */
  lemma SendBalances(x: Chain, y: Chain, sent: map<nat, Packet>, d: Denom, amount: int, sender: Address, receiver: Address, e: Denom)
    requires Orderly(x, y, sent) && EndOk(y.chan.self) && Slashless(d.base) && Slashless(e.base)
    requires Transfer(x, d, amount, sender, receiver).Some?
    ensures var z := Transfer(x, d, amount, sender, receiver).value;
            && (Balanced(x, y, e) && !CameOver(e, x.chan.self) ==> Balanced(z, y, e))
            && (Balanced(y, x, e) && !CameOver(e, y.chan.self) ==> Balanced(y, z, e))
  {
    hide ToString, HasPrefixes, AddPath, Total, Flight, Up, Down;
    var z := Transfer(x, d, amount, sender, receiver).value;
    var p := OutgoingPacket(x.chan, d, amount, sender, receiver);
    SendKeepsLink(x.chan, y.chan, sent, p);
    FlightOnSend(x.chan.packets, y.chan.acknowledgements, p, ToString(e));
    FlightOnSend(x.chan.packets, y.chan.acknowledgements, p, ToString(Voucher(e, x.chan.self)));
    SameString(d, e);
    SameString(d, Voucher(e, x.chan.self));
    VoucherFacts(e, x.chan.self);
    if !CameOver(d, x.chan.self) {
      LockMoves(x.bank, sender, d, amount);
    } else {
      TotalDown(x.bank.minted, d, sender, amount);
    }
  }

  /** Chain y receives from x. */
  lemma ReceiveBalances(x: Chain, y: Chain, sent: map<nat, Packet>, p: Packet, e: Denom)
    requires Orderly(x, y, sent) && EndOk(y.chan.self) && Slashless(e.base)
    requires p.sequence in sent && sent[p.sequence] == p && Receive(y, p, true).Some?
    ensures var z := Receive(y, p, true).value;
            && (Balanced(x, y, e) && !CameOver(e, x.chan.self) ==> Balanced(x, z, e))
            && (Balanced(y, x, e) && !CameOver(e, y.chan.self) ==> Balanced(z, x, e))
  {
    hide ToString, FromString, HasPrefixes, AddPath, RemovePrefix, Total, Flight, Up, Down;
    var ack := OnRecvPacket(y.bank, p).1;
    RecvKeepsLink(x.chan, y.chan, sent, p, ack);
    FlightOnReceive(x.chan.packets, y.chan.acknowledgements, p, ack, ToString(e));
    FlightOnReceive(x.chan.packets, y.chan.acknowledgements, p, ack, ToString(Voucher(e, x.chan.self)));
    var d := FromString(p.data.denom);
    assert ProperlySent(p, x.chan.self);
    SameString(d, e);
    SameString(d, Voucher(e, x.chan.self));
    VoucherFacts(e, x.chan.self);
    if CameOver(d, x.chan.self) {
      var home := Denom(RemovePrefix(d.path).value, d.base);
      ProperIsVoucher(d, x.chan.self);
      SameVoucher(home, e, x.chan.self);
      if ack.Success? {
        UnlockMoves(y.bank, p.data.receiver, home, p.data.amount);
      }
    } else {
      SameVoucher(d, e, y.chan.self);
      TotalUp(y.bank.minted, Voucher(d, y.chan.self), p.data.receiver, p.data.amount);
    }
  }

  /** Chain x is told what has become of its packet. */
  lemma ConfirmBalances(x: Chain, y: Chain, sent: map<nat, Packet>, p: Packet, ack: Ack, e: Denom)
    requires Orderly(x, y, sent) && EndOk(y.chan.self) && Slashless(e.base)
    requires p.sequence in y.chan.acknowledgements && y.chan.acknowledgements[p.sequence] == ack
    requires Acknowledge(x, p, ack, true).Some?
    ensures var z := Acknowledge(x, p, ack, true).value;
            && (Balanced(x, y, e) && !CameOver(e, x.chan.self) ==> Balanced(z, y, e))
            && (Balanced(y, x, e) && !CameOver(e, y.chan.self) ==> Balanced(y, z, e))
  {
    hide ToString, FromString, HasPrefixes, AddPath, RemovePrefix, Total, Flight, Up, Down;
    AckKeepsLink(x.chan, y.chan, sent, p);
    FlightOnAck(x.chan.packets, y.chan.acknowledgements, p, ToString(e));
    FlightOnAck(x.chan.packets, y.chan.acknowledgements, p, ToString(Voucher(e, x.chan.self)));
    var d := FromString(p.data.denom);
    assert ProperlySent(sent[p.sequence], x.chan.self);
    SameString(d, e);
    SameString(d, Voucher(e, x.chan.self));
    VoucherFacts(e, x.chan.self);
    if ack.Failure? {
      if !CameOver(d, x.chan.self) {
        UnlockMoves(x.bank, p.data.sender, d, p.data.amount);
      } else {
        TotalUp(x.bank.minted, d, p.data.sender, p.data.amount);
      }
    }
  }

  // ---------------------------------------------------------------- order

  lemma SendOrder(x: Chain, y: Chain, sentX: map<nat, Packet>, sentY: map<nat, Packet>,
                  d: Denom, amount: int, sender: Address, receiver: Address)
    requires Orderly(x, y, sentX) && Orderly(y, x, sentY) && Slashless(d.base)
    requires Transfer(x, d, amount, sender, receiver).Some?
    ensures var z, p := Transfer(x, d, amount, sender, receiver).value, OutgoingPacket(x.chan, d, amount, sender, receiver);
            Orderly(z, y, sentX[p.sequence := p]) && Orderly(y, z, sentY)
  {
    hide ToString, FromString, HasPrefixes, AddPath, RemovePrefix, Linked;
    var p := OutgoingPacket(x.chan, d, amount, sender, receiver);
    SendKeepsLink(x.chan, y.chan, sentX, p);
    SendKeepsOther(y.chan, x.chan, sentY, p);
    SameString(d, d);
  }

  lemma ReceiveOrder(x: Chain, y: Chain, sentX: map<nat, Packet>, sentY: map<nat, Packet>, p: Packet)
    requires Orderly(x, y, sentX) && Orderly(y, x, sentY)
    requires p.sequence in sentX && sentX[p.sequence] == p && Receive(y, p, true).Some?
    ensures var z := Receive(y, p, true).value; Orderly(x, z, sentX) && Orderly(z, x, sentY)
  {
    hide ToString, FromString, HasPrefixes, AddPath, RemovePrefix, Linked;
    var ack := OnRecvPacket(y.bank, p).1;
    RecvKeepsLink(x.chan, y.chan, sentX, p, ack);
    RecvKeepsOther(x.chan, y.chan, sentY, p, ack);
    var d := FromString(p.data.denom);
    assert ProperlySent(p, x.chan.self);
    LinkedEnds(x.chan, y.chan, sentX);
    VoucherFacts(d, y.chan.self);
  }

  lemma LinkedEnds(x: Channel, y: Channel, sent: map<nat, Packet>)
    requires Linked(x, y, sent)
    ensures forall s :: s in sent ==> sent[s].source == x.self && sent[s].destination == y.self
    ensures forall s :: s in x.packets ==> s in sent && x.packets[s] == sent[s]
    ensures forall s :: s in y.acknowledgements ==> s in sent
  {
  }

  lemma ConfirmOrder(x: Chain, y: Chain, sentX: map<nat, Packet>, sentY: map<nat, Packet>, p: Packet, ack: Ack)
    requires Orderly(x, y, sentX) && Orderly(y, x, sentY)
    requires p.sequence in y.chan.acknowledgements && y.chan.acknowledgements[p.sequence] == ack
    requires Acknowledge(x, p, ack, true).Some?
    ensures var z := Acknowledge(x, p, ack, true).value; Orderly(z, y, sentX) && Orderly(y, z, sentY)
  {
    hide ToString, FromString, HasPrefixes, AddPath, RemovePrefix, Linked;
    AckKeepsLink(x.chan, y.chan, sentX, p);
    AckKeepsOther(x.chan, y.chan, sentY, p);
    LinkedEnds(x.chan, y.chan, sentX);
    assert ProperlySent(sentX[p.sequence], x.chan.self);
  }

  // ---------------------------------------------------------------- every run

  lemma SafeSend(w: World, d: Denom, amount: int, sender: Address, receiver: Address)
    requires Safe(w) && Slashless(d.base) && Transfer(w.a, d, amount, sender, receiver).Some?
    ensures Safe(Act(w, Send(d, amount, sender, receiver)))
  {
    hide Transfer, Balanced, Linked, CameOver, ProperlySent, Proper, Slashless;
    SendOrder(w.a, w.b, w.sentA, w.sentB, d, amount, sender, receiver);
    var z := Transfer(w.a, d, amount, sender, receiver).value;
    SendSelf(w.a, d, amount, sender, receiver);
    forall e: Denom | Slashless(e.base)
      ensures !CameOver(e, w.a.chan.self) ==> Balanced(z, w.b, e)
      ensures !CameOver(e, w.b.chan.self) ==> Balanced(w.b, z, e)
    {
      SendBalances(w.a, w.b, w.sentA, d, amount, sender, receiver, e);
    }
  }

  lemma SendSelf(x: Chain, d: Denom, amount: int, sender: Address, receiver: Address)
    requires Transfer(x, d, amount, sender, receiver).Some?
    ensures Transfer(x, d, amount, sender, receiver).value.chan.self == x.chan.self
  {
  }

  lemma ReceiveSelf(y: Chain, p: Packet)
    requires Receive(y, p, true).Some?
    ensures Receive(y, p, true).value.chan.self == y.chan.self
  {
  }

  lemma ConfirmSelf(x: Chain, p: Packet, ack: Ack)
    requires Acknowledge(x, p, ack, true).Some?
    ensures Acknowledge(x, p, ack, true).value.chan.self == x.chan.self
  {
  }

  lemma SafeDeliver(w: World, p: Packet)
    requires Safe(w) && p.sequence in w.sentB && w.sentB[p.sequence] == p && Receive(w.a, p, true).Some?
    ensures Safe(Act(w, Deliver(p)))
  {
    hide Balanced, Linked, Receive, CameOver, ProperlySent, Proper, Slashless;
    ReceiveOrder(w.b, w.a, w.sentB, w.sentA, p);
    var z := Receive(w.a, p, true).value;
    ReceiveSelf(w.a, p);
    forall e: Denom | Slashless(e.base)
      ensures !CameOver(e, w.a.chan.self) ==> Balanced(z, w.b, e)
      ensures !CameOver(e, w.b.chan.self) ==> Balanced(w.b, z, e)
    {
      ReceiveBalances(w.b, w.a, w.sentB, p, e);
    }
  }

  lemma SafeConfirm(w: World, p: Packet, ack: Ack)
    requires Safe(w) && p.sequence in w.b.chan.acknowledgements && w.b.chan.acknowledgements[p.sequence] == ack
    requires Acknowledge(w.a, p, ack, true).Some?
    ensures Safe(Act(w, Confirm(p, ack)))
  {
    hide Balanced, Linked, Acknowledge, CameOver, ProperlySent, Proper, Slashless;
    ConfirmOrder(w.a, w.b, w.sentA, w.sentB, p, ack);
    var z := Acknowledge(w.a, p, ack, true).value;
    ConfirmSelf(w.a, p, ack);
    forall e: Denom | Slashless(e.base)
      ensures !CameOver(e, w.a.chan.self) ==> Balanced(z, w.b, e)
      ensures !CameOver(e, w.b.chan.self) ==> Balanced(w.b, z, e)
    {
      ConfirmBalances(w.a, w.b, w.sentA, p, ack, e);
    }
  }

  lemma SafeAct(w: World, x: Action)
    requires Safe(w)
    ensures Safe(Act(w, x))
  {
    hide Safe, Transfer;
    match x {
      case Fund(owner, d, amount) => SafeFund(w, owner, d, amount);
      case Send(d, amount, sender, receiver) =>
        if Slashless(d.base) && Transfer(w.a, d, amount, sender, receiver).Some? {
          SafeSend(w, d, amount, sender, receiver);
        }
      case Deliver(p) =>
        var proven := p.sequence in w.sentB && w.sentB[p.sequence] == p;
        if Receive(w.a, p, proven).Some? {
          assert proven;
          SafeDeliver(w, p);
        }
      case Confirm(p, ack) =>
        var acks := w.b.chan.acknowledgements;
        var proven := p.sequence in acks && acks[p.sequence] == ack;
        if Acknowledge(w.a, p, ack, proven).Some? {
          assert proven;
          SafeConfirm(w, p, ack);
        }
    }
  }

  lemma SafeFund(w: World, owner: Address, d: Denom, amount: int)
    requires Safe(w)
    ensures Safe(Act(w, Fund(owner, d, amount)))
  {
    hide Flight, Total, Voucher, Linked;
    var z := Act(w, Fund(owner, d, amount));
    forall e: Denom | Slashless(e.base)
      ensures Balanced(w.a, w.b, e) ==> Balanced(z.a, w.b, e)
      ensures Balanced(w.b, w.a, e) ==> Balanced(w.b, z.a, e)
    {
    }
  }

  function Play(w: World, turns: seq<(Side, Action)>): World {
    if turns == [] then w else Turn(Play(w, turns[..|turns| - 1]), turns[|turns| - 1].0, turns[|turns| - 1].1)
  }

  /**
   Whatever the two chains do, and however packets and acknowledgements are relayed, delayed,
   repeated or dropped, every denomination stays balanced in both directions.
   */
  lemma {:induction false} PlayIsSafe(w: World, turns: seq<(Side, Action)>)
    requires Safe(w)
    ensures Safe(Play(w, turns))
    decreases |turns|
  {
    if turns != [] {
      var n := |turns| - 1;
      PlayIsSafe(w, turns[..n]);
      hide Safe, Act, Play;
      var v := Play(w, turns[..n]);
      SeenIsSafe(v, turns[n].0);
      SafeAct(Seen(v, turns[n].0), turns[n].1);
      SeenIsSafe(Act(Seen(v, turns[n].0), turns[n].1), turns[n].0);
      PlayLast(w, turns);
    }
  }

  lemma PlayLast(w: World, turns: seq<(Side, Action)>)
    requires turns != []
    ensures var n := |turns| - 1; Play(w, turns) == Turn(Play(w, turns[..n]), turns[n].0, turns[n].1)
  {
  }

  lemma SeenIsSafe(w: World, from: Side)
    requires Safe(w)
    ensures Safe(Seen(w, from))
  {
  }

  // ---------------------------------------------------------------- what follows for every run

  function NewWorld(a: End, b: End, order: Order): World {
    var none := Bank(map[], map[], map[]);
    World(Chain(NewChannel(a, b, order), none), Chain(NewChannel(b, a, order), none), map[], map[])
  }

  lemma NewIsSafe(a: End, b: End, order: Order)
    requires EndOk(a) && EndOk(b)
    ensures Safe(NewWorld(a, b, order))
  {
    NewIsLinked(a, b, order);
    NewIsLinked(b, a, order);
    var w := NewWorld(a, b, order);
    forall d: Denom
      ensures Balanced(w.a, w.b, d) && Balanced(w.b, w.a, d)
    {
      assert UnderWay(map[], map[], ToString(d)) == map[];
    }
  }

  /** Every token of d that was ever locked is out as a voucher or under way, and nothing else is. */
  lemma TokensAreConserved(a: End, b: End, order: Order, turns: seq<(Side, Action)>, d: Denom)
    requires EndOk(a) && EndOk(b) && Slashless(d.base) && !CameOver(d, a)
    ensures var w := Play(NewWorld(a, b, order), turns);
            Total(w.a.bank.locked, d)
            == Total(w.b.bank.minted, Voucher(d, b))
             + Flight(w.a.chan.packets, w.b.chan.acknowledgements, ToString(d))
             + Flight(w.b.chan.packets, w.a.chan.acknowledgements, ToString(Voucher(d, b)))
  {
    NewIsSafe(a, b, order);
    PlayIsSafe(NewWorld(a, b, order), turns);
    EndsStay(NewWorld(a, b, order), turns);
    hide Play, Orderly;
    assert Balanced(Play(NewWorld(a, b, order), turns).a, Play(NewWorld(a, b, order), turns).b, d);
  }

  lemma {:induction false} EndsStay(w: World, turns: seq<(Side, Action)>)
    ensures Play(w, turns).a.chan.self == w.a.chan.self && Play(w, turns).b.chan.self == w.b.chan.self
    decreases |turns|
  {
    if turns != [] {
      EndsStay(w, turns[..|turns| - 1]);
      hide Play, Act;
      PlayLast(w, turns);
      var v := Play(w, turns[..|turns| - 1]);
      ActEnds(Seen(v, turns[|turns| - 1].0), turns[|turns| - 1].1);
    }
  }

  lemma ActEnds(w: World, x: Action)
    ensures Act(w, x).a.chan.self == w.a.chan.self && Act(w, x).b == w.b
  {
  }

  /**
   A returning voucher is paid out if and only if its receiver has that much locked; anyone else's
   locked tokens do not count.
   */
  lemma ReturnSucceedsIff(x: Chain, y: Chain, sent: map<nat, Packet>, p: Packet)
    requires Orderly(y, x, sent) && p.sequence in sent && sent[p.sequence] == p
    requires CameOver(FromString(p.data.denom), y.chan.self)
    ensures var v := FromString(p.data.denom);
            && RemovePrefix(v.path).Some?
            && (OnRecvPacket(x.bank, p).1.Success? <==>
                  var d := Denom(RemovePrefix(v.path).value, v.base);
                  d in x.bank.locked && p.data.receiver in x.bank.locked[d] && x.bank.locked[d][p.data.receiver] >= p.data.amount)
  {
    hide FromString, ToString, HasPrefixes, RemovePrefix, AddPath;
    assert ProperlySent(p, y.chan.self);
    assert p.source == y.chan.self;
  }

  /** So tokens that all lie locked may still not be paid out, when they were locked by another. */
  lemma ReturnToAnotherFails(d: Denom, from: End, to: End, owner: Address, receiver: Address, amount: int)
    requires EndOk(from) && Slashless(d.base) && owner != receiver
    ensures var b := Bank(map[], map[d := map[owner := amount]], map[]);
            var p := Packet(1, from, to, Data(ToString(Voucher(d, from)), amount, owner, receiver));
            Total(b.locked, d) == amount && OnRecvPacket(b, p) == (b, Failure)
  {
    var held := map[owner := amount];
    SumPick(held, owner);
    assert held - {owner} == map[];
    SameString(Voucher(d, from), Voucher(d, from));
    VoucherFacts(d, from);
  }

  /**
   A failure that is reported never gets stuck: it can only concern a voucher that was burned, and
   minting it again cannot fail.
   */
  lemma RefundsSucceed(x: Chain, y: Chain, sent: map<nat, Packet>, p: Packet)
    requires Orderly(x, y, sent) && p.sequence in x.chan.packets && x.chan.packets[p.sequence] == p
    requires p.sequence in y.chan.acknowledgements
    requires x.chan.order.Unordered? || p.sequence == x.chan.nextSequenceAck
    ensures Acknowledge(x, p, y.chan.acknowledgements[p.sequence], true).Some?
  {
    hide FromString, ToString, HasPrefixes, RemovePrefix, AddPath;
    assert sent[p.sequence] == p;
  }

  ghost predicate AmountsOk(w: World) {
    && Solvent(w.a.bank) && Solvent(w.b.bank)
    && (forall k :: k in w.sentA ==> w.sentA[k].data.amount >= 0) && (forall k :: k in w.sentB ==> w.sentB[k].data.amount >= 0)
  }

  /** Over every run from two new chains: with no negative amounts in play, vouchers are always backed by what is locked. */
  lemma VouchersAreBacked(a: End, b: End, order: Order, turns: seq<(Side, Action)>, d: Denom)
    requires EndOk(a) && EndOk(b) && Slashless(d.base) && !CameOver(d, a)
    requires forall i :: 0 <= i < |turns| ==> AmountOf(turns[i].1)
    ensures var w := Play(NewWorld(a, b, order), turns);
            0 <= Total(w.b.bank.minted, Voucher(d, b)) <= Total(w.a.bank.locked, d)
  {
    hide Play, Total, Voucher, CameOver, Safe, EndOk, Slashless, ToString;
    var w := Play(NewWorld(a, b, order), turns);
    NewIsSafe(a, b, order);
    PlayIsSafe(NewWorld(a, b, order), turns);
    PlayAmounts(NewWorld(a, b, order), turns);
    BackedIff(a, b, order, turns, d);
    CommittedAmounts(w);
    TotalNonNegative(w.b.bank.minted, Voucher(d, b));
    FlightNonNegative(w.a.chan.packets, w.b.chan.acknowledgements, ToString(d));
    FlightNonNegative(w.b.chan.packets, w.a.chan.acknowledgements, ToString(Voucher(d, b)));
  }

  /** Amounts may have either sign: vouchers are backed if and only if what is under way is not negative. */
  lemma BackedIff(a: End, b: End, order: Order, turns: seq<(Side, Action)>, d: Denom)
    requires EndOk(a) && EndOk(b) && Slashless(d.base) && !CameOver(d, a)
    ensures var w := Play(NewWorld(a, b, order), turns);
            Total(w.b.bank.minted, Voucher(d, b)) <= Total(w.a.bank.locked, d) <==>
            Flight(w.a.chan.packets, w.b.chan.acknowledgements, ToString(d))
            + Flight(w.b.chan.packets, w.a.chan.acknowledgements, ToString(Voucher(d, b))) >= 0
  {
    TokensAreConserved(a, b, order, turns, d);
  }

  /** A run that sends a negative amount: nothing is out as vouchers, and less than nothing is locked. */
  lemma NegativeSend(a: End, b: End, order: Order, owner: Address, receiver: Address, d: Denom)
    requires Slashless(d.base) && !CameOver(d, a)
    ensures var w := Play(NewWorld(a, b, order), [(A, Fund(owner, d, 0)), (A, Send(d, -5, owner, receiver))]);
            Total(w.b.bank.minted, Voucher(d, b)) == 0 && Total(w.a.bank.locked, d) == -5 && Total(w.a.bank.allocations, d) == 5
  {
    var w, turns := NewWorld(a, b, order), [(A, Fund(owner, d, 0)), (A, Send(d, -5, owner, receiver))];
    assert turns[..1][..0] == [] && turns[..1] == [(A, Fund(owner, d, 0))];
    PlayLast(w, turns[..1]);
    PlayLast(w, turns);
    var v := Play(w, turns[..1]);
    assert v == Act(w, Fund(owner, d, 0));
    hide Play, CameOver, Total, Voucher;
    LockMoves(v.a.bank, owner, d, -5);
    TotalUp(w.a.bank.allocations, d, owner, 0);
    NothingHeld(d);
    NothingHeld(Voucher(d, b));
  }

  lemma NothingHeld(d: Denom)
    ensures Total(map[], d) == 0
  {
  }

  lemma CommittedAmounts(w: World)
    requires Safe(w) && AmountsOk(w)
    ensures forall k :: k in w.a.chan.packets ==> w.a.chan.packets[k].data.amount >= 0
    ensures forall k :: k in w.b.chan.packets ==> w.b.chan.packets[k].data.amount >= 0
  {
    LinkedEnds(w.a.chan, w.b.chan, w.sentA);
    LinkedEnds(w.b.chan, w.a.chan, w.sentB);
  }

  lemma SeenIsOk(w: World, from: Side)
    requires AmountsOk(w)
    ensures AmountsOk(Seen(w, from))
  {
  }

  lemma {:induction false} PlayAmounts(w: World, turns: seq<(Side, Action)>)
    requires Safe(w) && AmountsOk(w) && forall i :: 0 <= i < |turns| ==> AmountOf(turns[i].1)
    ensures AmountsOk(Play(w, turns))
    decreases |turns|
  {
    if turns != [] {
      var n := |turns| - 1;
      PlayAmounts(w, turns[..n]);
      PlayIsSafe(w, turns[..n]);
      PlayLast(w, turns);
      hide Safe, AmountsOk, Act, Play, AmountOf;
      var v := Play(w, turns[..n]);
      SeenIsSafe(v, turns[n].0);
      SeenIsOk(v, turns[n].0);
      AmountsStayOk(Seen(v, turns[n].0), turns[n].1);
      SeenIsOk(Act(Seen(v, turns[n].0), turns[n].1), turns[n].0);
    }
  }

  lemma FlightNonNegative(packets: map<nat, Packet>, acks: map<nat, Ack>, denom: string)
    requires forall k :: k in packets ==> packets[k].data.amount >= 0
    ensures Flight(packets, acks, denom) >= 0
  {
    SumNonNegative(UnderWay(packets, acks, denom));
  }

  predicate AmountOf(x: Action) {
    match x
    case Fund(_, _, amount) => amount >= 0
    case Send(_, amount, _, _) => amount >= 0
    case _ => true
  }

  /** Amounts that are not negative keep every balance so. */
  lemma AmountsStayOk(w: World, x: Action)
    requires AmountsOk(w) && AmountOf(x) && Safe(w)
    ensures AmountsOk(Act(w, x))
  {
    hide Solvent, Lock, Unlock, Burn, Mint, Allocate, Safe, FromString, CameOver, RemovePrefix;
    match x {
      case Fund(owner, d, amount) => StaysSolvent(w.a.bank, owner, d, amount);
      case Send(d, amount, sender, receiver) => StaysSolvent(w.a.bank, sender, d, amount);
      case Deliver(p) =>
        var d := FromString(p.data.denom);
        if p.sequence in w.sentB && w.sentB[p.sequence] == p {
          StaysSolvent(w.a.bank, p.data.receiver, Voucher(d, p.destination), p.data.amount);
          if RemovePrefix(d.path).Some? {
            StaysSolvent(w.a.bank, p.data.receiver, Denom(RemovePrefix(d.path).value, d.base), p.data.amount);
          }
        }
      case Confirm(p, _) =>
        if p.sequence in w.a.chan.packets && w.a.chan.packets[p.sequence] == p {
          CommittedWasSent(w, p);
          StaysSolvent(w.a.bank, p.data.sender, FromString(p.data.denom), p.data.amount);
        }
    }
  }

  lemma CommittedWasSent(w: World, p: Packet)
    requires Safe(w) && p.sequence in w.a.chan.packets && w.a.chan.packets[p.sequence] == p
    ensures p.sequence in w.sentA && w.sentA[p.sequence] == p
  {
    LinkedEnds(w.a.chan, w.b.chan, w.sentA);
  }

  /** Nothing is received twice: once acknowledged, always so, with the same answer. */
  lemma ReceivedOnce(w: World, x: Action, s: nat)
    requires Safe(w) && s in w.a.chan.acknowledgements
    ensures s in Act(w, x).a.chan.acknowledgements && Act(w, x).a.chan.acknowledgements[s] == w.a.chan.acknowledgements[s]
    ensures x.Deliver? && x.packet.sequence == s ==> Act(w, x) == w
  {
    hide Transfer, Receive, Acknowledge, OnRecvPacket, Safe, Slashless;
    match x {
      case Fund(_, _, _) =>
      case Send(d, amount, sender, receiver) =>
        if Transfer(w.a, d, amount, sender, receiver).Some? {
          TransferAcks(w.a, d, amount, sender, receiver);
        }
      case Deliver(p) =>
        ReceiveAcks(w, p, p.sequence in w.sentB && w.sentB[p.sequence] == p, s);
      case Confirm(p, ack) =>
        var acks := w.b.chan.acknowledgements;
        ConfirmAcks(w.a, p, ack, p.sequence in acks && acks[p.sequence] == ack);
    }
  }

  lemma ReceiveAcks(w: World, p: Packet, proven: bool, s: nat)
    requires Safe(w) && s in w.a.chan.acknowledgements
    ensures p.sequence == s ==> Receive(w.a, p, proven) == None
    ensures var c := Receive(w.a, p, proven);
            c.Some? ==> s in c.value.chan.acknowledgements && c.value.chan.acknowledgements[s] == w.a.chan.acknowledgements[s]
  {
    hide OnRecvPacket, Conserved, Proper, ProperlySent, CameOver, FromString, Slashless, ToString;
    NeverTwice(w.b.chan, w.a.chan, w.sentB, p, OnRecvPacket(w.a.bank, p).1, proven);
  }

  lemma ConfirmAcks(x: Chain, p: Packet, ack: Ack, proven: bool)
    ensures var c := Acknowledge(x, p, ack, proven); c.Some? ==> c.value.chan.acknowledgements == x.chan.acknowledgements
  {
  }

  /** Nor is anything acknowledged twice: a commitment that is gone never comes back. */
  lemma ConfirmedOnce(w: World, x: Action, s: nat)
    requires Safe(w) && s in w.sentA && s !in w.a.chan.packets
    ensures s in Act(w, x).sentA && s !in Act(w, x).a.chan.packets
    ensures x.Confirm? && x.packet.sequence == s ==> Act(w, x) == w
  {
    hide OnRecvPacket, RefundTokens, Lock, Burn, Conserved, Proper, CameOver, ToString, FromString, Slashless;
  }

  lemma TransferAcks(x: Chain, d: Denom, amount: int, sender: Address, receiver: Address)
    requires Transfer(x, d, amount, sender, receiver).Some?
    ensures Transfer(x, d, amount, sender, receiver).value.chan.acknowledgements == x.chan.acknowledgements
  {
  }

  /** Only funding changes how much of d there is at home, free and locked together. */
  lemma HomeTotalStays(w: World, x: Action, d: Denom)
    requires !x.Fund?
    ensures var b, c := w.a.bank, Act(w, x).a.bank;
            Total(c.allocations, d) + Total(c.locked, d) == Total(b.allocations, d) + Total(b.locked, d)
  {
    hide FromString, CameOver, RemovePrefix, Total, Lock, Unlock, Burn, Safe, SendPacket, RecvPacket, AcknowledgePacket;
    match x {
      case Fund(_, _, _) =>
      case Send(e, amount, sender, receiver) =>
        if Lock(w.a.bank, sender, e, amount).Some? {
          LockMoves(w.a.bank, sender, e, amount);
        }
        BurnKeeps(w.a.bank, sender, e, amount);
      case Deliver(p) =>
        var v := FromString(p.data.denom);
        if RemovePrefix(v.path).Some? {
          var e := Denom(RemovePrefix(v.path).value, v.base);
          if Unlock(w.a.bank, p.data.receiver, e, p.data.amount).Some? {
            UnlockMoves(w.a.bank, p.data.receiver, e, p.data.amount);
          }
        }
      case Confirm(p, _) =>
        var e := FromString(p.data.denom);
        if Unlock(w.a.bank, p.data.sender, e, p.data.amount).Some? {
          UnlockMoves(w.a.bank, p.data.sender, e, p.data.amount);
        }
    }
  }

  lemma BurnKeeps(b: Bank, owner: Address, d: Denom, amount: int)
    ensures var c := Burn(b, owner, d, amount);
            c.Some? ==> c.value.allocations == b.allocations && c.value.locked == b.locked
  {
  }
}
