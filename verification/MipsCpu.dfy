/**
 The processor itself, updated in place: exception entry, translation and the
 precompute routines in their mutual recursion, and the cycle built from them.
 */
module MipsCpu {
  import opened Words
  import opened MipsMmu
  import opened MipsState
  import opened MipsPcCache
  import opened MipsEffects

  class MipsCpu {
    const tlb: array<TlbEntry>
    const ramSize: word
    const code: (Page, word) -> word

    var pc: word
    var nextpc: word
    var expc: word
    var pcpage: Page
    var pcoff: word
    var nextpcpage: Page
    var nextpcoff: word
    var jumping: bool
    var inJumpDelay: bool
    var entry: TlbEntry
    var status: Status
    var llActive: bool
    var report: Report
    var exceptions: nat

    /* There is some memory and every TLB entry. */
    ghost predicate Valid()
      reads this
    {
      tlb.Length == NTLB && ramSize > 0
    }

    ghost function View(): Cpu
      reads this, tlb
    {
      Cpu(pc, nextpc, expc, pcpage, pcoff, nextpcpage, nextpcoff, jumping, inJumpDelay,
          tlb[..], entry, status, llActive, report, exceptions)
    }

    /* In kernel mode, direct-mapped, aligned: translating it cannot fail. */
    ghost predicate Hardwired(vaddr: word)
      reads this
    {
      !status.cur.user && !Mapped(vaddr) && vaddr % 4 == 0
    }

    ghost predicate Fetchable(vaddr: word)
      reads this
    {
      Hardwired(vaddr) && MapMem(Direct(vaddr), ramSize) != NoPage
    }

    /* mips_init. */
    constructor (ramSize: word, code: (Page, word) -> word)
      requires ramSize > 0
      ensures Valid() && this.ramSize == ramSize && this.code == code && fresh(tlb)
      ensures View() == PrecomputedBoth(Reset(), ramSize)
    {
      tlb := new TlbEntry[NTLB](i requires 0 <= i < NTLB => ResetEntry(i));
      this.ramSize := ramSize;
      this.code := code;
      pc := 0xbfc0_0000;
      nextpc := 0xbfc0_0004;
      expc := 0;
      pcpage, pcoff, nextpcpage, nextpcoff := NoPage, 0, NoPage, 0;
      jumping, inJumpDelay := false, false;
      entry := ResetEntry(NTLB);
      status := Status(KERNEL_OFF, KERNEL_OFF, KERNEL_OFF, true);
      llActive := false;
      report := Report(false, 0, 0, 0, 0, 0, 0);
      exceptions := 0;
      new;
      assert tlb[..] == ResetTlb();
      PrecomputeBoth();
    }

    method FindTlb(vpage: word) returns (ix: int)
      requires Valid()
      ensures ix == FirstMatch(tlb[..], vpage, entry.pid, 0)
    {
      var i := 0;
      while i < NTLB
        invariant i <= NTLB
        invariant FirstMatch(tlb[..], vpage, entry.pid, 0) == FirstMatch(tlb[..], vpage, entry.pid, i)
      {
        if tlb[i].vpn == vpage && (tlb[i].pid == entry.pid || tlb[i].global) {
          return i;
        }
        i := i + 1;
      }
      return -1;
    }

    /* Exception entry up to the jump: the report, the status stack, and whatever was in progress. */
    method SaveState(code: nat, cnOrUser: nat, vaddr: word)
      modifies this
      ensures View() == Saved(old(View()), code, cnOrUser, vaddr)
    {
      exceptions := exceptions + 1;
      report := Report(inJumpDelay, if code == EX_CPU then cnOrUser else 0, code, vaddr, expc,
                       report.contextBase, vaddr / PAGE % 0x8_0000);
      jumping, inJumpDelay, llActive := false, false, false;
      status := Pushed(status);
    }

    /** Exception entry. The recursion below it bottoms out: the vectors are
        hardwired addresses backed by memory, so precomputing them never raises
        another exception and exactly one is counted. */
    method Exception(code: nat, cnOrUser: nat, vaddr: word)
      requires Valid()
      modifies this
      ensures View() == Raise(old(View()), code, cnOrUser, vaddr)
      decreases 2
    {
      SaveState(code, cnOrUser, vaddr);
      if (code == EX_TLBL || code == EX_TLBS) && cnOrUser != 0 {
        pc := if status.boot then 0xbfc0_0100 else 0x8000_0000;
      } else {
        pc := if status.boot then 0xbfc0_0180 else 0x8000_0080;
      }
      nextpc := pc + 4;
      VectorsLocated(View(), ramSize, UsesUtlbVector(code, cnOrUser));
      var _ := PrecomputePc();
      VectorsLocated(View(), ramSize, UsesUtlbVector(code, cnOrUser));
      var _ := PrecomputeNextPc();
    }

    /* translatemem for a mapped address that may be used: find its entry. */
    method MapPage(vaddr: word, iswrite: bool) returns (ok: bool, paddr: word)
      requires Valid() && Mapped(vaddr) && vaddr % 4 == 0 && !(vaddr >= 0x8000_0000 && status.cur.user)
      modifies this
      ensures (View(), ok) == Translated(old(View()), vaddr, iswrite)
      ensures paddr == PhysOf(old(Look(View(), vaddr, iswrite)))
      decreases 3, 0
    {
      hide Raise, FirstMatch;
      entry := entry.(vpn := PageOf(vaddr));
      var ix := FindTlb(PageOf(vaddr));
      if ix < 0 {
        Exception(if iswrite then EX_TLBS else EX_TLBL, if vaddr < 0x8000_0000 then 1 else 0, vaddr);
        return false, 0;
      }
      if !tlb[ix].valid {
        Exception(if iswrite then EX_TLBS else EX_TLBL, 0, vaddr);
        return false, 0;
      }
      if iswrite && !tlb[ix].dirty {
        Exception(EX_MOD, 0, vaddr);
        return false, 0;
      }
      return true, Join(tlb[ix].pfn, vaddr % PAGE);
    }

    method TranslateMem(vaddr: word, iswrite: bool) returns (ok: bool, paddr: word)
      requires Valid()
      modifies this
      ensures (View(), ok) == Translated(old(View()), vaddr, iswrite)
      ensures ok ==> old(Look(View(), vaddr, iswrite)) == Phys(paddr)
      ensures Translates(old(View()), vaddr, iswrite, View(), ok, paddr)
      decreases if Hardwired(vaddr) then 0 else 3, 1
    {
      hide Raise, FirstMatch, Translates;
      TranslationMeans(View(), vaddr, iswrite);
      paddr := 0;
      if (vaddr >= 0x8000_0000 && status.cur.user) || vaddr % 4 != 0 {
        Exception(if iswrite then EX_ADES else EX_ADEL, 0, vaddr);
        return false, 0;
      }
      if !Mapped(vaddr) {
        return true, Direct(vaddr);
      }
      ok, paddr := MapPage(vaddr, iswrite);
    }

    method PrecomputePc() returns (ok: bool)
      requires Valid()
      modifies this
      ensures (View(), ok) == Precomputed(old(View()), ramSize)
      decreases if Fetchable(pc) then 1 else 4
    {
      hide Translates;
      var physpc;
      ok, physpc := TranslateMem(pc, false);
      if !ok {
        return false;
      }
      pcpage := MapMem(physpc, ramSize);
      if pcpage == NoPage {
        Exception(EX_IBE, 0, 0);
        assert pcpage != NoPage;  // "Bus error invoking exception handler"
        return false;
      }
      pcoff := physpc % PAGE;
      return true;
    }

    method PrecomputeNextPc() returns (ok: bool)
      requires Valid()
      modifies this
      ensures (View(), ok) == PrecomputedNext(old(View()), ramSize)
      decreases if Fetchable(nextpc) then 1 else 4
    {
      hide Translates;
      var physnext;
      ok, physnext := TranslateMem(nextpc, false);
      if !ok {
        return false;
      }
      nextpcpage := MapMem(physnext, ramSize);
      if nextpcpage == NoPage {
        Exception(EX_IBE, 0, 0);
        assert nextpcpage != NoPage;  // "Bus error invoking exception handler"
        return false;
      }
      nextpcoff := physnext % PAGE;
      return true;
    }

    method PrecomputeBoth()
      requires Valid()
      modifies this
      ensures View() == PrecomputedBoth(old(View()), ramSize)
    {
      var _ := PrecomputePc();
      var _ := PrecomputeNextPc();
    }

    /* tlbwi and tlbwr. The running code may be mapped by the entry replaced,
       so both cached places are looked up again. A clash stops the machine. */
    method WriteTlb(ix: nat) returns (dup: int)
      requires Valid() && ix < NTLB
      modifies this, tlb
      ensures View() == PrecomputedBoth(old(View()).(tlb := old(tlb[..])[ix := old(entry)]), ramSize)
      ensures dup < 0 <==> Clean(tlb[..], ix)
    {
      tlb[ix] := entry;
      dup := CheckTlbDups(tlb, ix);
      PrecomputeBoth();
    }

    method DoRfe()
      requires Valid() && !status.cur.user
      modifies this
      ensures View() == Returned(old(View()), ramSize)
    {
      status := Popped(status);
      inJumpDelay := false;
      expc := pc;
      PrecomputeBoth();
    }

    /* phony_exception: go back to the instruction at expc. */
    method Restart()
      requires Valid()
      modifies this
      ensures View() == PrecomputedBoth(Restarted(old(View())), ramSize)
    {
      hide PrecomputedBoth;
      jumping := false;
      inJumpDelay := false;
      pc := expc;
      nextpc := Next(pc);
      PrecomputeBoth();
    }

    method DoMem(vaddr: word, iswrite: bool, busError: bool, link: bool)
      requires Valid()
      modifies this
      ensures View() == Executed(old(View()), code, ramSize, Access(vaddr, iswrite, busError, link))
    {
      hide Raise, Translated, Translates;
      var ok, _ := TranslateMem(vaddr, iswrite);
      if ok {
        if busError {
          Exception(EX_DBE, 0, 0);
        } else if link {
          llActive := true;
        }
      }
    }

    /* abranch: pc is the delay slot here, and its page pointer is followed. */
    method ABranch(target: word)
      requires Valid()
      requires target % 4 == 0 ==> pcpage != NoPage
      modifies this
      ensures View() == Branched(old(View()), code, ramSize, target)
    {
      hide Raise, PrecomputedNext;
      if target % 4 != 0 {
        Exception(EX_ADEL, 0, target);
        return;
      }
      nextpc := target;
      jumping := true;
      if code(pcpage, pcoff) == OP_RFE {
        nextpcpage := NoPage;
        nextpcoff := 0;
      } else {
        var _ := PrecomputeNextPc();
      }
    }

    method Begin(irq: bool)
      requires Valid()
      modifies this
      ensures View() == Begun(old(View()), irq)
    {
      hide Raise;
      if jumping {
        jumping := false;
        inJumpDelay := true;
      } else {
        expc := pc;
      }
      if status.cur.irqon && irq {
        Exception(EX_IRQ, 0, 0);
        expc := pc;
      }
    }

    method Advance(insn: word) returns (ok: bool)
      requires Valid()
      modifies this
      ensures (View(), ok) == Advanced(old(View()), ramSize, insn)
    {
      hide PrecomputedNext;
      pc := nextpc;
      pcoff := nextpcoff;
      pcpage := nextpcpage;
      nextpc := Next(nextpc);
      ok := true;
      if nextpc % PAGE == 0 {
        if insn == OP_RFE {
          nextpcpage := NoPage;
          nextpcoff := 0;
        } else {
          ok := PrecomputeNextPc();
        }
      } else {
        nextpcoff := Next(nextpcoff);
      }
    }

    method Execute(op: Op) returns (running: bool)
      requires Valid()
      requires op.TlbWrite? || op.TlbRead? ==> op.ix < NTLB
      requires op.Rfe? ==> !status.cur.user
      requires op.Branch? ==> pcpage != NoPage
      modifies this, tlb
      ensures View() == Executed(old(View()), code, ramSize, op)
      ensures running <==> (op.TlbWrite? ==> Clean(tlb[..], op.ix))
    {
      hide Raise, PrecomputedBoth, Returned, Branched, Translated;
      running := true;
      match op {
        case Plain =>
        case Stall => Restart();
        case Branch(target) => ABranch(target);
        case Access(vaddr, iswrite, busError, link) => DoMem(vaddr, iswrite, busError, link);
        case Trap(ex, cn) => Exception(ex, cn, 0);
        case TlbWrite(ix) =>
          var dup := WriteTlb(ix);
          running := dup < 0;
        case TlbRead(ix) => entry := tlb[ix];
        case MtTlbLo(val) => entry := WithTlbLo(entry, val);
        case MtTlbHi(val) => entry := WithTlbHi(entry, val);
        case MtStatus(val) => status := StatusFrom(val);
        case Rfe => DoRfe();
      }
    }

    /** One cycle. Started in step, it follows no missing page pointer, does what
        `Cycled` says and ends in step. */
    method Cycle(irq: bool, op: Op) returns (running: bool)
      requires Valid() && InStep(View(), code, ramSize)
      requires LegalCycle(View(), code, ramSize, irq, op)
      modifies this, tlb
      ensures View() == Cycled(old(View()), code, ramSize, irq, op)
      ensures InStep(View(), code, ramSize)
    {
      hide Executed, Begun, Advanced, InStep, WellFormed;
      ghost var start := View();
      CycledInStep(start, code, ramSize, irq, op);
      BegunReady(start, code, ramSize, irq);
      running := true;
      Begin(irq);
      ghost var begun := View();
      assert pcpage != NoPage;
      var insn := code(pcpage, pcoff);
      AdvancedKeeps(begun, ramSize, insn);
      var ok := Advance(insn);
      if !ok {
        return;
      }
      if insn != OP_RFE {
        AdvancedSettles(begun, code, ramSize);
      }
      running := Execute(op);
      inJumpDelay := false;
    }
  }
}
