/**
 * The interrupt descriptor table set-up (kern/arch/x86/idt.c).
 *
 * idt_init makes every one of the 256 vectors a kernel trap gate to its
 * entry stub, then reopens the system-call vector to user mode.
 */
module Idt {
  import Desc

  const IDT_ENTRIES: nat := 256
  /** The system-call vector, T_SYSCALL. */
  const T_SYSCALL: nat := 0x80

  /** What entry i holds after idt_init, given the entry stubs' addresses. */
  function Entry(vectors: seq<nat>, i: nat): Desc.GateDesc
    requires i < |vectors|
  {
    if i == T_SYSCALL then Desc.SysGate(vectors[i]) else Desc.TrapGate(vectors[i])
  }

  /**
   * Every entry is a present 32-bit trap gate into the kernel code segment
   * whose offset is its stub's address; only the system-call vector may be
   * used from user mode.
   */
  lemma EntryShape(vectors: seq<nat>, i: nat)
    requires i < |vectors| && forall j :: 0 <= j < |vectors| ==> vectors[j] < Desc.U32
    ensures var g := Entry(vectors, i);
      g.p == 1 && g.gateType == Desc.STS_TG32 && g.ss == Desc.GD_KTEXT &&
      Desc.Offset(g) == vectors[i] &&
      (g.dpl == Desc.DPL_USER <==> i == T_SYSCALL) &&
      (i != T_SYSCALL ==> g.dpl == Desc.DPL_KERNEL)
  {
    Desc.OffsetRoundTrip(Desc.STS_TG32, Desc.GD_KTEXT, if i == T_SYSCALL then Desc.DPL_USER else Desc.DPL_KERNEL, vectors[i]);
  }

  class Table {
    /** __idt. */
    const gates: array<Desc.GateDesc>

    predicate Valid()
      reads this
    {
      gates.Length == IDT_ENTRIES
    }

    constructor (initial: Desc.GateDesc)
      ensures Valid() && fresh(gates)
      ensures forall i :: 0 <= i < IDT_ENTRIES ==> gates[i] == initial
    {
      gates := new Desc.GateDesc[IDT_ENTRIES](_ => initial);
    }

    /**
     * idt_init: SET_TRAP_GATE on every entry with its stub's address from
     * __vectors, then SET_SYS_GATE on entry T_SYSCALL.
     */
    method Init(vectors: seq<nat>)
      requires Valid() && |vectors| == IDT_ENTRIES
      modifies gates
      ensures forall i :: 0 <= i < IDT_ENTRIES ==> gates[i] == Entry(vectors, i)
    {
      var i := 0;
      while i < IDT_ENTRIES
        invariant i <= IDT_ENTRIES
        invariant forall j :: 0 <= j < i ==> gates[j] == Desc.TrapGate(vectors[j])
      {
        gates[i] := Desc.TrapGate(vectors[i]);
        i := i + 1;
      }
      gates[T_SYSCALL] := Desc.SysGate(vectors[T_SYSCALL]);
    }
  }
}
