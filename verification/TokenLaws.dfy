/** Who is credited and who is debited: the balances of every owner, and not only the totals. */
module TokenLaws {
  import opened Wrappers
  import opened DenomPath
  import opened TokenBank
  import opened PacketChannel
  import opened TokenTransfer

  /** One owner's balance of d changes by so much, and no other balance of anyone changes. */
  ghost predicate Shifts(m: Balances, n: Balances, owner: Address, d: Denom, amount: int) {
    forall e: Denom, o: Address :: Balance(n, e, o) == Balance(m, e, o) + if e == d && o == owner then amount else 0
  }

  ghost predicate Moves(b: Bank, c: Bank, owner: Address, d: Denom, free: int, locked: int, minted: int) {
    && Shifts(b.allocations, c.allocations, owner, d, free)
    && Shifts(b.locked, c.locked, owner, d, locked)
    && Shifts(b.minted, c.minted, owner, d, minted)
  }

  lemma UpShifts(m: Balances, owner: Address, d: Denom, amount: int)
    ensures Shifts(m, Up(m, d, owner, amount), owner, d, amount)
  {
  }

  lemma DownShifts(m: Balances, owner: Address, d: Denom, amount: int)
    ensures Shifts(m, m, owner, d, 0)
    ensures Down(m, d, owner, amount).Some? ==> Shifts(m, Down(m, d, owner, amount).value, owner, d, -amount)
  {
  }

  lemma OperationsMove(b: Bank, owner: Address, d: Denom, amount: int)
    ensures Moves(b, Allocate(b, owner, d, amount), owner, d, amount, 0, 0)
    ensures Moves(b, Mint(b, owner, d, amount), owner, d, 0, 0, amount)
    ensures var c := Lock(b, owner, d, amount); c.Some? ==> Moves(b, c.value, owner, d, -amount, amount, 0)
    ensures var c := Unlock(b, owner, d, amount); c.Some? ==> Moves(b, c.value, owner, d, amount, -amount, 0)
    ensures var c := Burn(b, owner, d, amount); c.Some? ==> Moves(b, c.value, owner, d, 0, 0, -amount)
  {
    hide Shifts, Up, Down;
    UpShifts(b.allocations, owner, d, amount);
    UpShifts(b.locked, owner, d, amount);
    UpShifts(b.minted, owner, d, amount);
    DownShifts(b.allocations, owner, d, amount);
    DownShifts(b.locked, owner, d, amount);
    DownShifts(b.minted, owner, d, amount);
  }

  /**
   Sending takes the amount from the sender, who has it locked where the denomination is at home and
   loses vouchers otherwise, and commits a packet that names the denomination, the amount and both.
   */
  lemma SendDebitsSender(x: Chain, d: Denom, amount: int, sender: Address, receiver: Address)
    requires Transfer(x, d, amount, sender, receiver).Some?
    ensures var z, s := Transfer(x, d, amount, sender, receiver).value, x.chan.nextSequenceSend;
            && (if CameOver(d, x.chan.self) then Moves(x.bank, z.bank, sender, d, 0, 0, -amount)
                else Moves(x.bank, z.bank, sender, d, -amount, amount, 0))
            && z.chan.packets == x.chan.packets[s :=
                 Packet(s, x.chan.self, x.chan.counterparty, Data(ToString(d), amount, sender, receiver))]
  {
    hide Moves, CameOver, ToString;
    OperationsMove(x.bank, sender, d, amount);
  }

  /**
   Receiving with success gives the amount to the receiver: vouchers of the chain's own end, or what
   had been locked.  Receiving with a failure changes no balance.
   */
  lemma ReceiveCreditsReceiver(y: Chain, p: Packet, proven: bool)
    requires Receive(y, p, proven).Some?
    ensures var z, d, data := Receive(y, p, proven).value, FromString(p.data.denom), p.data;
            && p.sequence in z.chan.acknowledgements
            && if z.chan.acknowledgements[p.sequence].Failure? then z.bank == y.bank
               else if !CameOver(d, p.source) then
                 Moves(y.bank, z.bank, data.receiver, Voucher(d, p.destination), 0, 0, data.amount)
               else
                 && RemovePrefix(d.path).Some?
                 && Moves(y.bank, z.bank, data.receiver, Denom(RemovePrefix(d.path).value, d.base), data.amount, -data.amount, 0)
  {
    hide Moves, CameOver, FromString, RemovePrefix, Voucher;
    var d := FromString(p.data.denom);
    if !CameOver(d, p.source) {
      OperationsMove(y.bank, p.data.receiver, Voucher(d, p.destination), p.data.amount);
    } else if RemovePrefix(d.path).Some? {
      OperationsMove(y.bank, p.data.receiver, Denom(RemovePrefix(d.path).value, d.base), p.data.amount);
    }
  }

  /** A confirmed success changes no balance; a confirmed failure gives the sender back what was taken. */
  lemma ConfirmRefundsSender(x: Chain, p: Packet, ack: Ack, proven: bool)
    requires Acknowledge(x, p, ack, proven).Some?
    ensures var z, d, data := Acknowledge(x, p, ack, proven).value, FromString(p.data.denom), p.data;
            if ack.Success? then z.bank == x.bank
            else if CameOver(d, p.source) then Moves(x.bank, z.bank, data.sender, d, 0, 0, data.amount)
            else Moves(x.bank, z.bank, data.sender, d, data.amount, -data.amount, 0)
  {
    hide Moves, CameOver, FromString;
    OperationsMove(x.bank, p.data.sender, FromString(p.data.denom), p.data.amount);
  }


  /**
   From end to end, away from home: what the sender has locked on one chain the receiver holds on the
   other as a voucher, written as the port and the channel of that chain in front of what was sent.
   */
  lemma TransferOut(x: Chain, y: Chain, d: Denom, amount: int, sender: Address, receiver: Address)
    requires x.chan.counterparty == y.chan.self && y.chan.counterparty == x.chan.self
    requires Slashless(d.base) && !CameOver(d, x.chan.self) && Transfer(x, d, amount, sender, receiver).Some?
    ensures var z := Transfer(x, d, amount, sender, receiver).value; var s := x.chan.nextSequenceSend;
            && Moves(x.bank, z.bank, sender, d, -amount, amount, 0) && s in z.chan.packets
            && (var w := Receive(y, z.chan.packets[s], true);
                var v := Voucher(d, y.chan.self);
                && ToString(v) == y.chan.self.port + "/" + y.chan.self.chan + "/" + ToString(d)
                && (w.Some? ==> Moves(y.bank, w.value.bank, receiver, v, 0, 0, amount)))
  {
    SendDebitsSender(x, d, amount, sender, receiver);
    DenomRoundTrip(d);
    VoucherString(d, y.chan.self.port, y.chan.self.chan);
    var p := Transfer(x, d, amount, sender, receiver).value.chan.packets[x.chan.nextSequenceSend];
    if Receive(y, p, true).Some? {
      ReceiveCreditsReceiver(y, p, true);
    }
    hide Moves, CameOver, ToString, FromString, Voucher, RemovePrefix;
  }

  /** And home again: the vouchers of the sender are gone, and the receiver has as much less locked and more free. */
  lemma TransferHome(y: Chain, x: Chain, d: Denom, amount: int, sender: Address, receiver: Address)
    requires x.chan.counterparty == y.chan.self && y.chan.counterparty == x.chan.self
    requires EndOk(y.chan.self) && Slashless(d.base)
    requires Transfer(y, Voucher(d, y.chan.self), amount, sender, receiver).Some?
    ensures var z := Transfer(y, Voucher(d, y.chan.self), amount, sender, receiver).value; var s := y.chan.nextSequenceSend;
            && Moves(y.bank, z.bank, sender, Voucher(d, y.chan.self), 0, 0, -amount) && s in z.chan.packets
            && (var w := Receive(x, z.chan.packets[s], true);
                w.Some? && w.value.chan.acknowledgements[s].Success? ==> Moves(x.bank, w.value.bank, receiver, d, amount, -amount, 0))
  {
    var v := Voucher(d, y.chan.self);
    VoucherFacts(d, y.chan.self);
    SendDebitsSender(y, v, amount, sender, receiver);
    DenomRoundTrip(v);
    var p := Transfer(y, v, amount, sender, receiver).value.chan.packets[y.chan.nextSequenceSend];
    if Receive(x, p, true).Some? {
      ReceiveCreditsReceiver(x, p, true);
    }
    hide Moves, CameOver, ToString, FromString, Voucher, RemovePrefix;
  }

  /** A transfer that is refunded leaves every balance of everyone as it was. */
  lemma RefundUndoesTransfer(x: Chain, d: Denom, amount: int, sender: Address, receiver: Address)
    requires Slashless(d.base) && Transfer(x, d, amount, sender, receiver).Some?
    ensures var z := Transfer(x, d, amount, sender, receiver).value; var s := x.chan.nextSequenceSend;
            && s in z.chan.packets
            && (var w := Acknowledge(z, z.chan.packets[s], Failure, true);
                w.Some? ==> Moves(x.bank, w.value.bank, sender, d, 0, 0, 0))
  {
    SendDebitsSender(x, d, amount, sender, receiver);
    DenomRoundTrip(d);
    var z := Transfer(x, d, amount, sender, receiver).value;
    var p := z.chan.packets[x.chan.nextSequenceSend];
    hide CameOver, ToString, FromString;
    if Acknowledge(z, p, Failure, true).Some? {
      ConfirmRefundsSender(z, p, Failure, true);
    }
  }
}
