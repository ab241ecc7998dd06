/** The first Intcode machine (day02, Go and Rust): opcodes 1 (add),
    2 (multiply) and 99 (halt) over a flat memory, every parameter an
    address. The Go version ends the process on an unknown opcode; the Rust
    version returns the word as an error and leaves the machine as it was. */
module Intcode02 {
  import opened IntcodeCore

  /** A snapshot of the machine: memory and program counter. */
  datatype Vm = Vm(mem: seq<int>, pc: int)

  /** Running: the instruction completed and the machine may go on. */
  datatype Status = Running | Halted | Faulted(fault: Fault)

  datatype Transition = Transition(status: Status, next: Vm)

  /** The four words of an add or multiply instruction and the cells they
      name, read in the order the source reads them. */
  function Arith(s: Vm, op: int): (t: Transition)
    requires op == 1 || op == 2
    ensures t.status == Running ==> |t.next.mem| == |s.mem| && t.next.pc == s.pc + 4
    ensures t.status.Faulted? ==> t.next == s
  {
    match Load(s.mem, s.pc + 1)
    case Err(f) => Transition(Faulted(f), s)
    case Ok(arg1) =>
    match Load(s.mem, s.pc + 2)
    case Err(f) => Transition(Faulted(f), s)
    case Ok(arg2) =>
    match Load(s.mem, s.pc + 3)
    case Err(f) => Transition(Faulted(f), s)
    case Ok(dest) =>
    match Load(s.mem, arg1)
    case Err(f) => Transition(Faulted(f), s)
    case Ok(a) =>
    match Load(s.mem, arg2)
    case Err(f) => Transition(Faulted(f), s)
    case Ok(b) =>
    match Store(s.mem, dest, if op == 1 then a + b else a * b)
    case Err(f) => Transition(Faulted(f), s)
    case Ok(mem') => Transition(Running, Vm(mem', s.pc + 4))
  }

  /** One fetch-decode-execute step (Exec / exec). */
  function Step(s: Vm): (t: Transition)
    ensures t.status.Faulted? ==> t.next == s
  {
    match Load(s.mem, s.pc)
    case Err(f) => Transition(Faulted(f), s)
    case Ok(word) =>
      if word == 1 || word == 2 then Arith(s, word)
      else if word == 99 then Transition(Halted, s.(pc := s.pc + 1))
      else Transition(Faulted(BadOpcode(s.pc, word)), s)
  }

  /** Execute / execute: step until the machine halts or faults, for at most
      `fuel` steps (a program may loop forever; Running means the fuel ran
      out). */
  function Run(s: Vm, fuel: nat): (t: Transition)
    decreases fuel
  {
    if fuel == 0 then Transition(Running, s)
    else
      var t := Step(s);
      if t.status == Running then Run(t.next, fuel - 1) else t
  }

  /** The memory cells an arithmetic instruction at pc reads, all in range. */
  predicate ArithOperandsInRange(s: Vm) {
    0 <= s.pc && s.pc + 3 < |s.mem|
    && 0 <= s.mem[s.pc + 1] < |s.mem| && 0 <= s.mem[s.pc + 2] < |s.mem|
    && 0 <= s.mem[s.pc + 3] < |s.mem|
  }

  /** Opcodes 1 and 2: the sum or product of the cells named by the first
      two parameters lands in the cell named by the third, pc moves by 4,
      and no other cell changes. */
  lemma ArithSemantics(s: Vm)
    requires ArithOperandsInRange(s) && (s.mem[s.pc] == 1 || s.mem[s.pc] == 2)
    ensures var a, b, d := s.mem[s.mem[s.pc + 1]], s.mem[s.mem[s.pc + 2]], s.mem[s.pc + 3];
      Step(s).status == Running
      && Step(s).next.pc == s.pc + 4
      && |Step(s).next.mem| == |s.mem|
      && Step(s).next.mem[d] == (if s.mem[s.pc] == 1 then a + b else a * b)
      && forall i :: 0 <= i < |s.mem| && i != d ==> Step(s).next.mem[i] == s.mem[i]
  {
  }

  /** Opcode 99 advances pc by one, halts, and leaves memory alone. */
  lemma HaltSemantics(s: Vm)
    requires 0 <= s.pc < |s.mem| && s.mem[s.pc] == 99
    ensures Step(s) == Transition(Halted, Vm(s.mem, s.pc + 1))
  {
  }

  /** A word other than 1, 2 and 99 at pc is reported with the machine
      unchanged; conversely every fault leaves the machine unchanged. */
  lemma BadOpcodeSemantics(s: Vm)
    requires 0 <= s.pc < |s.mem| && s.mem[s.pc] !in {1, 2, 99}
    ensures Step(s) == Transition(Faulted(BadOpcode(s.pc, s.mem[s.pc])), s)
  {
  }

  /** A run that has stopped (halted or faulted) stays stopped: more fuel
      changes nothing. So Run returns Halted exactly when some step halts
      before the fuel runs out, and otherwise the first fault unchanged. */
  lemma {:induction false} RunStable(s: Vm, fuel: nat, extra: nat)
    requires Run(s, fuel).status != Running
    ensures Run(s, fuel + extra) == Run(s, fuel)
    decreases fuel
  {
    var t := Step(s);
    if t.status == Running {
      RunStable(t.next, fuel - 1, extra);
    }
  }

  /** The first example program: 1,0,0,0,99 becomes 2,0,0,0,99. */
  lemma ExampleAdd()
    ensures Run(Vm([1, 0, 0, 0, 99], 0), 2) == Transition(Halted, Vm([2, 0, 0, 0, 99], 5))
  {
    assert Step(Vm([1, 0, 0, 0, 99], 0)) == Transition(Running, Vm([2, 0, 0, 0, 99], 4));
  }

  /** 2,4,4,5,99,0 computes 99 * 99 into the last cell. */
  lemma ExampleMultiply()
    ensures Run(Vm([2, 4, 4, 5, 99, 0], 0), 2) == Transition(Halted, Vm([2, 4, 4, 5, 99, 9801], 5))
  {
    assert Step(Vm([2, 4, 4, 5, 99, 0], 0)) == Transition(Running, Vm([2, 4, 4, 5, 99, 9801], 4));
  }

  /** Machine (Go) / Machine (Rust): a program counter and a memory that
      instructions overwrite in place. */
  class Machine {
    var pc: int
    const mem: array<int>

    ghost function State(): Vm
      reads this, mem
    {
      Vm(mem[..], pc)
    }

    /** NewMachine / Machine::new: pc 0 over a copy of the program. */
    constructor (image: seq<int>)
      ensures State() == Vm(image, 0) && fresh(mem)
    {
      pc := 0;
      mem := new int[|image|] (i requires 0 <= i < |image| => image[i]);
    }

    /** MemAt / mem_at: the host reads a cell (in range, or the source
        panics). */
    function MemAt(offset: int): (v: int)
      reads this, mem
      requires 0 <= offset < mem.Length
      ensures v == State().mem[offset]
    {
      mem[offset]
    }

    /** MemSet / mem_set: the host overwrites one cell; reading it back gives
        val and every other cell is as before. */
    method MemSet(offset: int, val: int)
      requires 0 <= offset < mem.Length
      modifies mem
      ensures MemAt(offset) == val
      ensures forall i :: 0 <= i < mem.Length && i != offset ==> mem[i] == old(mem[i])
      ensures State() == old(State()).(mem := old(mem[..])[offset := val])
    {
      mem[offset] := val;
    }

    /** Exec / exec: one instruction. Running is Go's `true` and Rust's
        Ok(true), Halted is `false` / Ok(false), a fault is Go's fatal exit
        or Rust's Err. */
    method Exec() returns (st: Status)
      modifies this, mem
      ensures Step(old(State())) == Transition(st, State())
    {
      var word := LoadFrom(mem, pc);
      if word.Err? {
        return Faulted(word.error);
      }
      if word.value == 99 {
        pc := pc + 1;
        return Halted;
      }
      if word.value != 1 && word.value != 2 {
        return Faulted(BadOpcode(pc, word.value));
      }
      var arg1 := LoadFrom(mem, pc + 1);
      if arg1.Err? { return Faulted(arg1.error); }
      var arg2 := LoadFrom(mem, pc + 2);
      if arg2.Err? { return Faulted(arg2.error); }
      var dest := LoadFrom(mem, pc + 3);
      if dest.Err? { return Faulted(dest.error); }
      var a := LoadFrom(mem, arg1.value);
      if a.Err? { return Faulted(a.error); }
      var b := LoadFrom(mem, arg2.value);
      if b.Err? { return Faulted(b.error); }
      if !(0 <= dest.value < mem.Length) {
        return Faulted(AddressFault(dest.value));
      }
      mem[dest.value] := if word.value == 1 then a.value + b.value else a.value * b.value;
      pc := pc + 4;
      return Running;
    }

    /** Execute / execute: Exec until it reports anything but Running, for at
        most `fuel` instructions. */
    method Execute(fuel: nat) returns (st: Status)
      modifies this, mem
      ensures Run(old(State()), fuel) == Transition(st, State())
    {
      var n := fuel;
      while n > 0
        invariant Run(old(State()), fuel) == Run(State(), n)
        decreases n
      {
        st := Exec();
        if st != Running {
          return;
        }
        n := n - 1;
      }
      st := Running;
    }
  }
}
