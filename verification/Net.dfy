/**
 The network interface's registers. A packet takes a fixed time to send, and
 the START bit says that one is on its way. What is in the packets, and the
 socket they go to, are not part of this model.
 */
module Net {

  const NETWORK_LATENCY: nat := 2_000_000
  const NET_BUFSIZE: nat := 4096

  /* `sends` counts the send events the clock holds for this interface. */
  datatype Nic = Nic(promisc: bool, start: bool, rirq: bool, wirq: bool, line: bool, sends: nat)

  function PowerOn(): Nic {
    Nic(false, false, false, false, false, 0)
  }

  /* chkint. */
  function Checked(n: Nic): Nic {
    n.(line := n.rirq || n.wirq)
  }

  /* setctl. Bits other than the two below stop the machine. A start while one
     is in progress does too, but the register is written all the same. */
  function ControlStored(n: Nic, val: nat): Nic {
    if val >= 4 then n
    else
      var promisc, start := val % 2 == 1, val / 2 == 1;
      if start && !n.start then n.(promisc := promisc, start := true, sends := n.sends + 1)
      else n.(promisc := promisc)
  }

  /* setirq. */
  function IrqStored(n: Nic, isRead: bool, val: nat): Nic {
    if val >= 2 then n
    else Checked(if isRead then n.(rirq := val == 1) else n.(wirq := val == 1))
  }

  function Received(n: Nic): Nic {
    if n.rirq then n else Checked(n.(rirq := true))
  }

  /* triggersend, for a packet that says it is `len` bytes long. */
  function SendFired(n: Nic, len: nat): Nic
    requires n.sends > 0
  {
    var s := n.(sends := n.sends - 1, start := false);
    if len > NET_BUFSIZE then s else Checked(s.(wirq := true))
  }

  /* START means one send is pending, and the line is up for a full register. */
  predicate Sound(n: Nic) {
    n.sends == (if n.start then 1 else 0) && n.line == (n.rirq || n.wirq)
  }

  /** A send ends with the write interrupt up, unless the packet is longer than the
      buffer; a packet that comes in puts the read interrupt up; and each stays up until
      it is stored to. */
  lemma InterruptsMean(n: Nic, len: nat)
    requires Sound(n) && n.sends > 0
    ensures var r := SendFired(n, len);
            && Sound(r) && !r.start && r.rirq == n.rirq && r.promisc == n.promisc
            && (r.wirq <==> n.wirq || len <= 4096) && (r.line <==> n.rirq || n.wirq || len <= 4096)
    ensures var r := Received(n);
            Sound(r) && r.rirq && r.line && r.wirq == n.wirq && r.start == n.start && r.promisc == n.promisc
  {
  }

  class Interface {
    var promisc: bool
    var start: bool
    var rirq: bool
    var wirq: bool
    var line: bool
    var sends: nat

    ghost function View(): Nic
      reads this
    {
      Nic(promisc, start, rirq, wirq, line, sends)
    }

    constructor ()
      ensures View() == PowerOn()
    {
      promisc, start, rirq, wirq, line, sends := false, false, false, false, false, 0;
    }

    method ChkInt()
      modifies this`line
      ensures View() == Checked(old(View()))
    {
      line := rirq || wirq;
    }

    method SetCtl(val: nat)
      modifies this`promisc, this`start, this`sends
      ensures View() == ControlStored(old(View()), val)
      ensures val < 4 ==>
                && promisc == (val % 2 == 1) && start == (old(start) || val >= 2)
                && sends == old(sends) + if val >= 2 && !old(start) then 1 else 0
      ensures val >= 4 ==> promisc == old(promisc) && start == old(start) && sends == old(sends)
    {
      if val >= 4 {
        return;
      }
      var newStart := val / 2 % 2 == 1;
      if newStart {
        if !start {
          sends := sends + 1;
        }
      } else if start {
        newStart := true;
      }
      promisc, start := val % 2 == 1, newStart;
    }

    method SetIrq(val: nat, isRead: bool)
      modifies this`rirq, this`wirq, this`line
      ensures View() == IrqStored(old(View()), isRead, val)
      ensures rirq == (if isRead && val < 2 then val == 1 else old(rirq))
      ensures wirq == (if !isRead && val < 2 then val == 1 else old(wirq))
      ensures val < 2 ==> line == (rirq || wirq)
    {
      if val >= 2 {
        return;
      }
      if isRead {
        rirq := val == 1;
      } else {
        wirq := val == 1;
      }
      ChkInt();
    }

    method TriggerSend(len: nat)
      requires sends > 0
      modifies this`sends, this`start, this`wirq, this`line
      ensures View() == SendFired(old(View()), len)
      ensures !start && sends == old(sends) - 1 && wirq == (old(wirq) || len <= 4096)
      ensures len <= 4096 ==> line
    {
      sends := sends - 1;
      if len <= NET_BUFSIZE {
        wirq := true;
        ChkInt();
      }
      start := false;
    }
  }
}
