/**
 The opening handshake of channels between two hosts on one connection.  A proof shows that the
 other host has, or once had, a channel end in some state; a signed transaction that holds the end
 is such a proof for good.
 */
module ChannelHandshake {
  import opened Wrappers
  import opened PacketChannel

  datatype Phase = Init | TryOpen | Open

  /** The identifier of the peer is not known before it has answered. */
  datatype ChannelEnd = ChannelEnd(
    port: string, phase: Phase, order: Order, peerPort: string, peer: Option<nat>, version: string)

  /** The channels of a host, the next number for one, and every end it ever stored. */
  datatype Host = Host(channels: map<nat, ChannelEnd>, next: nat, past: set<(nat, ChannelEnd)>)

  const NEW_HOST := Host(map[], 0, {})

  function Store(h: Host, id: nat, e: ChannelEnd): Host {
    h.(channels := h.channels[id := e], past := h.past + {(id, e)})
  }

  predicate Proven(other: Host, id: nat, e: ChannelEnd) {
    (id, e) in other.past
  }

  function OpenInit(x: Host, port: string, order: Order, peerPort: string, peer: Option<nat>, version: string): Host {
    Store(x, x.next, ChannelEnd(port, Init, order, peerPort, peer, version)).(next := x.next + 1)
  }

  /** An answer to the init of `peer`; it takes the place of an own init if one is given. */
  function OpenTry(x: Host, y: Host, previous: Option<nat>, port: string, order: Order, peerPort: string, peer: nat,
                   version: string, peerVersion: string): Host
  {
    var e := ChannelEnd(port, TryOpen, order, peerPort, Some(peer), version);
    if !Proven(y, peer, ChannelEnd(peerPort, Init, order, port, None, peerVersion)) then x
    else if previous.None? then Store(x, x.next, e).(next := x.next + 1)
    else
      var id := previous.value;
      if id !in x.channels then x
      else
        var p := x.channels[id];
        if p.order != order || p.peerPort != peerPort || p.peer != None || p.version != version || p.phase != Init then x
        else Store(x, id, e)
  }

  function OpenAck(x: Host, y: Host, id: nat, peer: nat, peerVersion: string): Host {
    if id !in x.channels || x.channels[id].phase == Open then x
    else
      var c := x.channels[id];
      if !Proven(y, peer, ChannelEnd(c.peerPort, TryOpen, c.order, c.port, Some(id), peerVersion)) then x
      else Store(x, id, c.(phase := Open, version := peerVersion, peer := Some(peer)))
  }

  function OpenConfirm(x: Host, y: Host, id: nat): Host {
    if id !in x.channels || x.channels[id].phase != TryOpen || x.channels[id].peer.None? then x
    else
      var c := x.channels[id];
      if !Proven(y, c.peer.value, ChannelEnd(c.peerPort, Open, c.order, c.port, Some(id), c.version)) then x
      else Store(x, id, c.(phase := Open))
  }

  datatype Message =
    | InitMsg(port: string, order: Order, peerPort: string, peer: Option<nat>, version: string)
    | TryMsg(previous: Option<nat>, port: string, order: Order, peerPort: string, peerId: nat, version: string, peerVersion: string)
    | AckMsg(id: nat, peerId: nat, peerVersion: string)
    | ConfirmMsg(id: nat)

  /** Host x handles a message, with proofs about host y; one that is refused changes nothing. */
  function Handle(x: Host, y: Host, m: Message): Host {
    match m
    case InitMsg(port, order, peerPort, peer, version) => OpenInit(x, port, order, peerPort, peer, version)
    case TryMsg(previous, port, order, peerPort, peer, version, peerVersion) =>
      OpenTry(x, y, previous, port, order, peerPort, peer, version, peerVersion)
    case AckMsg(id, peer, peerVersion) => OpenAck(x, y, id, peer, peerVersion)
    case ConfirmMsg(id) => OpenConfirm(x, y, id)
  }

  datatype Hosts = Hosts(a: Host, b: Host)

  /** The first host handles the message if `first` is set. */
  function Turn(w: Hosts, first: bool, m: Message): Hosts {
    if first then w.(a := Handle(w.a, w.b, m)) else w.(b := Handle(w.b, w.a, m))
  }

  function Run(ms: seq<(bool, Message)>): Hosts {
    if ms == [] then Hosts(NEW_HOST, NEW_HOST)
    else Turn(Run(ms[..|ms| - 1]), ms[|ms| - 1].0, ms[|ms| - 1].1)
  }

  // ---------------------------------------------------------------- agreement

  /** What an end that is open says of its peer is what the peer says of it. */
  ghost predicate Agrees(x: Host, y: Host, id: nat) {
    id in x.channels && x.channels[id].phase == Open ==>
      var e := x.channels[id];
      e.peer.Some? && e.peer.value in y.channels &&
      var f := y.channels[e.peer.value];
      f.port == e.peerPort && f.peerPort == e.port && f.order == e.order && f.version == e.version &&
      f.peer == Some(id) && f.phase != Init
  }

  /**
   How an end that was stored of a channel goes with what the channel is now.  An init may become
   anything; what is more never goes back, and in a careful run it keeps its fields.
   */
  predicate Precedes(careful: bool, e: ChannelEnd, now: ChannelEnd) {
    if e.phase == Init then now.phase == Init ==> e == now
    else now.phase != Init && (careful ==> now == e.(phase := now.phase) && (e.phase == Open ==> now.phase == Open))
  }

  ghost predicate Kept(careful: bool, x: Host) {
    && (forall p :: p in x.past ==> p.0 in x.channels && p.0 < x.next && Precedes(careful, p.1, x.channels[p.0]))
    && (forall id :: id in x.channels ==> (id, x.channels[id]) in x.past)
  }

  /** The init that e was accepted as an answer to. */
  ghost predicate Answers(y: Host, e: ChannelEnd) {
    e.phase == TryOpen ==>
      e.peer.Some? && exists version: string :: Asked(y, e.peer.value, e, version)
  }

  ghost predicate Asked(y: Host, id: nat, e: ChannelEnd, version: string) {
    (id, ChannelEnd(e.peerPort, Init, e.order, e.port, None, version)) in y.past
  }

  /** What every run keeps of host x, whose peer is y. */
  ghost predicate Recorded(careful: bool, x: Host, y: Host) {
    && Kept(careful, x)
    && (forall p :: p in x.past ==> Answers(y, p.1))
    && (careful ==> forall id :: Agrees(x, y, id))
  }

  /**
   What host x can check of its own channel before it handles a message: an ack of a channel that
   has answered names the channel that was answered, in the version of the answer.
   */
  predicate Fits(x: Host, m: Message) {
    m.AckMsg? && m.id in x.channels && x.channels[m.id].phase == TryOpen ==>
      x.channels[m.id].peer == Some(m.peerId) && x.channels[m.id].version == m.peerVersion
  }

  /** Every message fits the host that handles it. */
  predicate Careful(ms: seq<(bool, Message)>) {
    ms == [] ||
    (var n := |ms| - 1;
     var w := Run(ms[..n]);
     Careful(ms[..n]) && Fits(if ms[n].0 then w.a else w.b, ms[n].1))
  }

  lemma StoreKeeps(careful: bool, x: Host, id: nat, e: ChannelEnd)
    requires Kept(careful, x)
    requires if id in x.channels then e.phase != Init && Precedes(careful, x.channels[id], e) else id == x.next
    ensures if id in x.channels then Kept(careful, Store(x, id, e)) else Kept(careful, Store(x, id, e).(next := x.next + 1))
  {
    if id in x.channels {
      forall p | p in x.past && p.0 == id ensures Precedes(careful, p.1, e) {
        PrecedesOn(careful, p.1, x.channels[id], e);
      }
    }
    PrecedesItself(careful, e);
    hide Precedes;
  }

  lemma PrecedesItself(careful: bool, e: ChannelEnd)
    ensures Precedes(careful, e, e)
  {
  }

  lemma PrecedesOn(careful: bool, e: ChannelEnd, f: ChannelEnd, g: ChannelEnd)
    requires Precedes(careful, e, f) && Precedes(careful, f, g) && g.phase != Init
    ensures Precedes(careful, e, g)
  {
  }

  lemma NewIsFresh(careful: bool, x: Host)
    requires Kept(careful, x)
    ensures x.next !in x.channels
  {
    assert forall id :: id in x.channels ==> (id, x.channels[id]) in x.past && id < x.next;
  }

  /** Storing adds to what can be proven, and takes nothing away. */
  lemma AnswersStay(y: Host, more: Host, e: ChannelEnd)
    requires Answers(y, e) && y.past <= more.past
    ensures Answers(more, e)
  {
    if e.phase == TryOpen {
      var version :| Asked(y, e.peer.value, e, version);
      assert Asked(more, e.peer.value, e, version);
    }
  }

  /** Host x stores end e, and keeps the record; y does not notice unless it is open with that channel. */
  lemma StoreRecords(careful: bool, x: Host, y: Host, id: nat, e: ChannelEnd, z: Host)
    requires Recorded(careful, x, y) && Recorded(careful, y, x) && Answers(y, e)
    requires if id in x.channels then e.phase != Init && Precedes(careful, x.channels[id], e) && z == Store(x, id, e)
             else id == x.next && z == Store(x, id, e).(next := x.next + 1)
    requires careful ==> Agrees(z, y, id)
    ensures Recorded(careful, z, y) && Recorded(careful, y, z)
  {
    hide Answers;
    StoreKeeps(careful, x, id, e);
    forall p | p in y.past ensures Answers(z, p.1) {
      AnswersStay(x, z, p.1);
    }
    if careful {
      forall k ensures Agrees(z, y, k) && Agrees(y, z, k) {
        AgreementStays(x, y, id, e, z, k);
      }
    }
  }

  lemma AgreementStays(x: Host, y: Host, id: nat, e: ChannelEnd, z: Host, k: nat)
    requires Agrees(x, y, k) && Agrees(y, x, k) && z.channels == x.channels[id := e]
    requires id in x.channels ==> Precedes(true, x.channels[id], e)
    requires Agrees(z, y, id)
    ensures Agrees(z, y, k) && Agrees(y, z, k)
  {
  }

  lemma NewRecords(careful: bool, x: Host, y: Host, e: ChannelEnd)
    requires Recorded(careful, x, y) && Recorded(careful, y, x) && Answers(y, e) && e.phase != Open
    ensures var z := Store(x, x.next, e).(next := x.next + 1); Recorded(careful, z, y) && Recorded(careful, y, z)
  {
    hide Answers, Precedes;
    NewIsFresh(careful, x);
    StoreRecords(careful, x, y, x.next, e, Store(x, x.next, e).(next := x.next + 1));
  }

  lemma TryRecords(careful: bool, x: Host, y: Host, m: Message)
    requires Recorded(careful, x, y) && Recorded(careful, y, x) && m.TryMsg?
    ensures Recorded(careful, Handle(x, y, m), y) && Recorded(careful, y, Handle(x, y, m))
  {
    hide Recorded;
    var e := ChannelEnd(m.port, TryOpen, m.order, m.peerPort, Some(m.peerId), m.version);
    var z := Handle(x, y, m);
    if z != x {
      assert Asked(y, m.peerId, e, m.peerVersion);
      if m.previous.None? {
        NewRecords(careful, x, y, e);
      } else {
        StoreRecords(careful, x, y, m.previous.value, e, z);
      }
    }
  }

  /** An ack is of a channel that named this one when it answered; where it fits, it still does. */
  lemma AckRecords(careful: bool, x: Host, y: Host, id: nat, peer: nat, peerVersion: string)
    requires Recorded(careful, x, y) && Recorded(careful, y, x) && (careful ==> Fits(x, AckMsg(id, peer, peerVersion)))
    ensures var z := OpenAck(x, y, id, peer, peerVersion); Recorded(careful, z, y) && Recorded(careful, y, z)
  {
    hide Answers;
    var z := OpenAck(x, y, id, peer, peerVersion);
    if z != x {
      var c := x.channels[id];
      var t := (peer, ChannelEnd(c.peerPort, TryOpen, c.order, c.port, Some(id), peerVersion));
      assert t in y.past && Precedes(careful, t.1, y.channels[peer]);
      var e := c.(phase := Open, version := peerVersion, peer := Some(peer));
      NotATry(y, e);
      hide Recorded;
      StoreRecords(careful, x, y, id, e, z);
    }
  }

  lemma NotATry(y: Host, e: ChannelEnd)
    requires e.phase != TryOpen
    ensures Answers(y, e)
  {
  }

  /** A confirmation is of a channel that is open with this one. */
  lemma ConfirmRecords(careful: bool, x: Host, y: Host, id: nat)
    requires Recorded(careful, x, y) && Recorded(careful, y, x)
    ensures Recorded(careful, OpenConfirm(x, y, id), y) && Recorded(careful, y, OpenConfirm(x, y, id))
  {
    hide Answers;
    var z := OpenConfirm(x, y, id);
    if z != x {
      var c := x.channels[id];
      var t := (c.peer.value, ChannelEnd(c.peerPort, Open, c.order, c.port, Some(id), c.version));
      assert t in y.past && Precedes(careful, t.1, y.channels[t.0]);
      NotATry(y, c.(phase := Open));
      hide Recorded;
      StoreRecords(careful, x, y, id, c.(phase := Open), z);
    }
  }

  lemma HandleRecords(careful: bool, x: Host, y: Host, m: Message)
    requires Recorded(careful, x, y) && Recorded(careful, y, x) && (careful ==> Fits(x, m))
    ensures Recorded(careful, Handle(x, y, m), y) && Recorded(careful, y, Handle(x, y, m))
  {
    hide Recorded, OpenTry;
    match m {
      case InitMsg(port, order, peerPort, peer, version) =>
        var e := ChannelEnd(port, Init, order, peerPort, peer, version);
        NotATry(y, e);
        NewRecords(careful, x, y, e);
      case TryMsg(_, _, _, _, _, _, _) => TryRecords(careful, x, y, m);
      case AckMsg(id, peer, peerVersion) => AckRecords(careful, x, y, id, peer, peerVersion);
      case ConfirmMsg(id) => ConfirmRecords(careful, x, y, id);
    }
  }

  /** Every run keeps the record, and careful runs keep all that is open agreed. */
  lemma {:induction false} RunIsRecorded(ms: seq<(bool, Message)>, careful: bool)
    requires careful ==> Careful(ms)
    ensures Recorded(careful, Run(ms).a, Run(ms).b) && Recorded(careful, Run(ms).b, Run(ms).a)
    decreases |ms|
  {
    if ms != [] {
      var n := |ms| - 1;
      RunIsRecorded(ms[..n], careful);
      hide Recorded, Handle, Fits;
      var w := Run(ms[..n]);
      if ms[n].0 {
        HandleRecords(careful, w.a, w.b, ms[n].1);
      } else {
        HandleRecords(careful, w.b, w.a, ms[n].1);
      }
    }
  }

  /** This host of the two, and the other. */
  function This(w: Hosts, first: bool): Host {
    if first then w.a else w.b
  }

  /**
   In a run in which every ack fits, answers in place of an own init included, a channel of either
   host that is open has a peer that names it, with the same order and version and the ports crossed,
   and no other open channel has that peer.
   */
  lemma OpenChannelsAgree(ms: seq<(bool, Message)>, first: bool, id: nat, other: nat)
    requires Careful(ms)
    requires id in This(Run(ms), first).channels && This(Run(ms), first).channels[id].phase == Open
    ensures var x, y := This(Run(ms), first), This(Run(ms), !first);
            var e := x.channels[id];
            && Agrees(x, y, id) && e.peer.Some?
            && (other in x.channels && x.channels[other].phase == Open && x.channels[other].peer == e.peer ==> other == id)
  {
    hide Run, Careful;
    RunIsRecorded(ms, true);
    var x, y := This(Run(ms), first), This(Run(ms), !first);
    assert Agrees(x, y, id) && Agrees(x, y, other);
  }

  /** The channel still waits for an answer, or has answered with the fields that an answer to e has. */
  predicate Waits(f: ChannelEnd, e: ChannelEnd) {
    f.phase == Init || (f.phase == TryOpen && f.port == e.peerPort && f.peerPort == e.port && f.order == e.order)
  }

  /**
   The converse, after any run: an ack is accepted that does not fit, while the channel that was
   answered still waits.  Then one ack of that channel, which is accepted too, leaves it open with a
   peer that does not agree.
   */
  lemma MisfitDisagrees(ms: seq<(bool, Message)>, first: bool, m: Message)
    requires !Fits(This(Run(ms), first), m)
    requires Handle(This(Run(ms), first), This(Run(ms), !first), m) != This(Run(ms), first)
    requires var x, y := This(Run(ms), first), This(Run(ms), !first);
             var answer := x.channels[m.id];
             answer.peer.Some? && answer.peer.value in y.channels ==> Waits(y.channels[answer.peer.value], answer)
    ensures var x, y := This(Run(ms), first), This(Run(ms), !first);
            var answer := x.channels[m.id];
            var x' := Handle(x, y, m);
            && answer.peer.Some? && answer.peer.value in y.channels
            && (var y' := Handle(y, x', AckMsg(answer.peer.value, m.id, answer.version));
                answer.peer.value in y'.channels && y'.channels[answer.peer.value].phase == Open &&
                !Agrees(y', x', answer.peer.value))
  {
    RunIsRecorded(ms, false);
    hide Run;
    var x, y := This(Run(ms), first), This(Run(ms), !first);
    var answer := x.channels[m.id];
    assert (m.id, answer) in x.past;
    var version :| Asked(y, answer.peer.value, answer, version);
    assert Precedes(false, ChannelEnd(answer.peerPort, Init, answer.order, answer.port, None, version), y.channels[answer.peer.value]);
  }

  /** If the channel that was answered is open with this one already, there is no need of another ack. */
  lemma MisfitLeaves(x: Host, y: Host, m: Message, peer: nat)
    requires !Fits(x, m) && Handle(x, y, m) != x && x.channels[m.id].peer == Some(peer)
    requires peer in y.channels && y.channels[peer].phase == Open && y.channels[peer].peer == Some(m.id)
    ensures Agrees(y, Handle(x, y, m), peer) ==> m.peerId == peer && y.channels[peer].version == m.peerVersion != x.channels[m.id].version
  {
    assert m.AckMsg?;
  }

  /** The four messages in turn open a channel between any two hosts, in the version of the answer. */
  lemma HandshakeOpens(x: Host, y: Host, port: string, order: Order, peerPort: string, version: string, answer: string)
    ensures var x1 := OpenInit(x, port, order, peerPort, None, version);
            var y1 := OpenTry(y, x1, None, peerPort, order, port, x.next, answer, version);
            var x2 := OpenAck(x1, y1, x.next, y.next, answer);
            var y2 := OpenConfirm(y1, x2, y.next);
            && x.next in x2.channels && x2.channels[x.next].phase == Open && Agrees(x2, y2, x.next)
            && y.next in y2.channels && y2.channels[y.next].phase == Open && Agrees(y2, x2, y.next)
  {
    var init := ChannelEnd(port, Init, order, peerPort, None, version);
    var try := ChannelEnd(peerPort, TryOpen, order, port, Some(x.next), answer);
    var open := ChannelEnd(port, Open, order, peerPort, Some(y.next), answer);
    var x1 := OpenInit(x, port, order, peerPort, None, version);
    assert Proven(x1, x.next, init);
    var y1 := OpenTry(y, x1, None, peerPort, order, port, x.next, answer, version);
    assert Proven(y1, y.next, try);
    var x2 := OpenAck(x1, y1, x.next, y.next, answer);
    assert Proven(x2, x.next, open);
  }

  /** So does a handshake in which both hosts begin and one answers in place of its own init. */
  lemma InPlaceOpens(a: Host, b: Host, port: string, order: Order, peerPort: string, version: string, answer: string)
    ensures var x := OpenInit(a, port, order, peerPort, None, version);
            var y := OpenInit(b, peerPort, order, port, None, answer);
            var y1 := OpenTry(y, x, Some(b.next), peerPort, order, port, a.next, answer, version);
            var x1 := OpenAck(x, y1, a.next, b.next, answer);
            var y2 := OpenConfirm(y1, x1, b.next);
            && Fits(x, AckMsg(a.next, b.next, answer))
            && a.next in x1.channels && x1.channels[a.next].phase == Open && Agrees(x1, y2, a.next)
            && b.next in y2.channels && y2.channels[b.next].phase == Open && Agrees(y2, x1, b.next)
  {
    var init := ChannelEnd(port, Init, order, peerPort, None, version);
    var try := ChannelEnd(peerPort, TryOpen, order, port, Some(a.next), answer);
    var open := ChannelEnd(port, Open, order, peerPort, Some(b.next), answer);
    var x := OpenInit(a, port, order, peerPort, None, version);
    var y := OpenInit(b, peerPort, order, port, None, answer);
    assert Proven(x, a.next, init);
    var y1 := OpenTry(y, x, Some(b.next), peerPort, order, port, a.next, answer, version);
    assert Proven(y1, b.next, try);
    var x1 := OpenAck(x, y1, a.next, b.next, answer);
    assert Proven(x1, a.next, open);
  }

  /** An answer in place of an own init names the peer, in a port of its choice, and changes nothing else of it. */
  lemma InPlaceKeeps(x: Host, y: Host, id: nat, m: Message)
    requires m.TryMsg? && m.previous == Some(id) && Handle(x, y, m) != x
    ensures id in x.channels && x.channels[id].phase == Init && x.channels[id].peer == None
    ensures Handle(x, y, m).channels
         == x.channels[id := x.channels[id].(phase := TryOpen, port := m.port, peer := Some(m.peerId))]
  {
  }

  // ---------------------------------------------------------------- crossing inits

  function EndOf(port: string, phase: Phase, peerPort: string, peer: Option<nat>): ChannelEnd {
    ChannelEnd(port, phase, Unordered, peerPort, peer, "v")
  }

  /** Both hosts begin; one answers in place of its own init, the other with a new channel. */
  function Crossing(): seq<(bool, Message)> {
    [(true, InitMsg("p", Unordered, "q", None, "v")),
     (false, InitMsg("q", Unordered, "p", None, "v")),
     (false, TryMsg(Some(0), "q", Unordered, "p", 0, "v", "v")),
     (true, TryMsg(None, "p", Unordered, "q", 0, "v", "v")),
     (false, AckMsg(0, 1, "v")),
     (true, AckMsg(0, 0, "v"))]
  }

  lemma RunPrefix(n: nat)
    requires n < 6
    ensures Run(Crossing()[..n + 1]) == Turn(Run(Crossing()[..n]), Crossing()[n].0, Crossing()[n].1)
  {
    var ms := Crossing()[..n + 1];
    assert ms[..n] == Crossing()[..n] && ms[n] == Crossing()[n];
  }

  /** After the two inits. */
  lemma CrossingBegins()
    ensures var w := Run(Crossing()[..2]);
            && w.a == Host(map[0 := EndOf("p", Init, "q", None)], 1, {(0, EndOf("p", Init, "q", None))})
            && w.b == Host(map[0 := EndOf("q", Init, "p", None)], 1, {(0, EndOf("q", Init, "p", None))})
  {
    assert Run(Crossing()[..0]) == Hosts(NEW_HOST, NEW_HOST);
    RunPrefix(0);
    RunPrefix(1);
  }

  /** After the two answers. */
  lemma CrossingAnswers()
    ensures var w := Run(Crossing()[..4]);
            && w.a.channels == map[0 := EndOf("p", Init, "q", None), 1 := EndOf("p", TryOpen, "q", Some(0))]
            && w.b.channels == map[0 := EndOf("q", TryOpen, "p", Some(0))]
            && (1, EndOf("p", TryOpen, "q", Some(0))) in w.a.past && (0, EndOf("q", TryOpen, "p", Some(0))) in w.b.past
  {
    CrossingBegins();
    RunPrefix(2);
    RunPrefix(3);
    hide Run;
    var w := Run(Crossing()[..2]);
    assert Proven(w.a, 0, EndOf("p", Init, "q", None)) && Proven(w.b, 0, EndOf("q", Init, "p", None));
  }

  /** Then both are open, and one names a peer that names another: the first ack does not fit. */
  lemma CrossingDisagrees()
    ensures !Fits(Run(Crossing()[..4]).b, Crossing()[4].1)
    ensures var w := Run(Crossing());
            && 0 in w.a.channels && w.a.channels[0] == EndOf("p", Open, "q", Some(0))
            && 0 in w.b.channels && w.b.channels[0] == EndOf("q", Open, "p", Some(1))
            && !Agrees(w.a, w.b, 0)
  {
    CrossingAnswers();
    RunPrefix(4);
    RunPrefix(5);
    assert Crossing()[..6] == Crossing();
    hide Run;
  }
}
