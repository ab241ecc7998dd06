/** The second Intcode machine (day05, Go and Rust): decimal parameter
    modes (position and immediate only), jumps, comparisons, one fixed input
    value that every opcode 3 stores, and an output register. Destinations
    are always position-addressed: the third mode digit is decoded, checked
    and then ignored. */
module Intcode05 {
  import opened IntcodeCore

  /** A snapshot of the machine. `inp` is fixed at construction, `out` holds
      the last value opcode 4 produced. */
  datatype Vm = Vm(mem: seq<int>, pc: int, inp: int, out: int)

  datatype Status = Running | Halted | Faulted(fault: Fault)

  /** One step's effect; `emitted` is Go's first result of Exec (opcode 4
      ran). */
  datatype Transition = Transition(status: Status, next: Vm, emitted: bool)

  /** A run's effect: final status and machine, and every value printed. */
  datatype Outcome = Outcome(status: Status, last: Vm, printed: seq<int>)

  /** Opcodes 1, 2, 7, 8 of this generation: read the three parameter words,
      evaluate the first two through their modes, store the combination at
      the address the third word holds. Returns the new memory. */
  function Binary(mem: seq<int>, pc: int, ins: Instr): (r: Result<seq<int>, Fault>)
    requires ins.op in {1, 2, 7, 8}
    ensures r.Ok? ==> |r.value| == |mem|
  {
    match Load(mem, pc + 1)
    case Err(f) => Err(f)
    case Ok(arg1) =>
    match Load(mem, pc + 2)
    case Err(f) => Err(f)
    case Ok(arg2) =>
    match Load(mem, pc + 3)
    case Err(f) => Err(f)
    case Ok(dest) =>
    match EvalArg(mem, 0, ins.m1, arg1)
    case Err(f) => Err(f)
    case Ok(a) =>
    match EvalArg(mem, 0, ins.m2, arg2)
    case Err(f) => Err(f)
    case Ok(b) => Store(mem, dest, Combine(ins.op, a, b))
  }

  /** Opcodes 5 and 6 of this generation: both parameter words are read,
      the target is only evaluated when the jump is taken. Returns the new
      pc. */
  function Jump(mem: seq<int>, pc: int, ins: Instr): (r: Result<int, Fault>)
    requires ins.op == 5 || ins.op == 6
  {
    match Load(mem, pc + 1)
    case Err(f) => Err(f)
    case Ok(arg1) =>
    match Load(mem, pc + 2)
    case Err(f) => Err(f)
    case Ok(arg2) =>
    match EvalArg(mem, 0, ins.m1, arg1)
    case Err(f) => Err(f)
    case Ok(a) =>
      if JumpTaken(ins.op, a) then EvalArg(mem, 0, ins.m2, arg2) else Ok(pc + 3)
  }

  /** One fetch-decode-execute step (Exec / exec). */
  function Step(s: Vm): (t: Transition)
    ensures t.status.Faulted? ==> t.next == s
    ensures t.next.inp == s.inp && |t.next.mem| == |s.mem|
    ensures t.emitted ==> t.status == Running
  {
    var stay := Transition(Running, s, false);
    match Load(s.mem, s.pc)
    case Err(f) => stay.(status := Faulted(f))
    case Ok(word) =>
    match DecodeOp(word, false)
    case Err(d) => stay.(status := Faulted(BadMode(d)))
    case Ok(ins) =>
      if ins.op in {1, 2, 7, 8} then
        match Binary(s.mem, s.pc, ins)
        case Err(f) => stay.(status := Faulted(f))
        case Ok(mem') => Transition(Running, s.(mem := mem', pc := s.pc + 4), false)
      else if ins.op == 3 then
        match Load(s.mem, s.pc + 1)
        case Err(f) => stay.(status := Faulted(f))
        case Ok(arg1) =>
        match Store(s.mem, arg1, s.inp)
        case Err(f) => stay.(status := Faulted(f))
        case Ok(mem') => Transition(Running, s.(mem := mem', pc := s.pc + 2), false)
      else if ins.op == 4 then
        match GetArg(s.mem, s.pc, 0, ins.m1, 1)
        case Err(f) => stay.(status := Faulted(f))
        case Ok(v) => Transition(Running, s.(out := v, pc := s.pc + 2), true)
      else if ins.op == 5 || ins.op == 6 then
        match Jump(s.mem, s.pc, ins)
        case Err(f) => stay.(status := Faulted(f))
        case Ok(pc') => Transition(Running, s.(pc := pc'), false)
      else if ins.op == 99 then
        Transition(Halted, s.(pc := s.pc + 1), false)
      else
        stay.(status := Faulted(BadOpcode(s.pc, word)))
  }

  /** Repeat a step function at most `fuel` times, collecting the value of
      `out` after every step that emitted; stop at the first step that does
      not report Running. */
  function Iterate(step: Vm -> Transition, s: Vm, fuel: nat): (r: Outcome)
    decreases fuel
  {
    if fuel == 0 then Outcome(Running, s, [])
    else
      var t := step(s);
      if t.status != Running then Outcome(t.status, t.next, [])
      else
        var r := Iterate(step, t.next, fuel - 1);
        Outcome(r.status, r.last, (if t.emitted then [t.next.out] else []) + r.printed)
  }

  /** Execute / execute: Exec until halt or fault, for at most `fuel`
      steps, printing `out` after every opcode 4. */
  function Run(s: Vm, fuel: nat): Outcome {
    Iterate(Step, s, fuel)
  }

  /** An outcome with p printed before everything it printed. */
  function Prepend(p: seq<int>, o: Outcome): Outcome {
    Outcome(o.status, o.last, p + o.printed)
  }

  lemma PrependTwice(p: seq<int>, q: seq<int>, o: Outcome)
    ensures Prepend(p, Prepend(q, o)) == Prepend(p + q, o)
  {
    assert p + (q + o.printed) == (p + q) + o.printed;
  }

  lemma IterateRunning(step: Vm -> Transition, s: Vm, n: nat, t: Transition)
    requires step(s) == t && t.status == Running
    ensures var r := Iterate(step, t.next, n);
      Iterate(step, s, n + 1) == Outcome(r.status, r.last, (if t.emitted then [t.next.out] else []) + r.printed)
  {
  }

  lemma IterateStopped(step: Vm -> Transition, s: Vm, n: nat, t: Transition)
    requires step(s) == t && t.status != Running
    ensures Iterate(step, s, n + 1) == Outcome(t.status, t.next, [])
  {
  }

  /** A run that has stopped (halted or faulted) stays stopped: more fuel
      changes nothing, so `execute` returns at the first halt and reports the
      first fault unchanged. */
  lemma {:induction false} IterateStable(step: Vm -> Transition, s: Vm, fuel: nat, extra: nat)
    requires Iterate(step, s, fuel).status != Running
    ensures Iterate(step, s, fuel + extra) == Iterate(step, s, fuel)
    decreases fuel
  {
    var t := step(s);
    if t.status == Running {
      IterateStable(step, t.next, fuel - 1, extra);
      IterateRunning(step, s, fuel - 1, t);
      IterateRunning(step, s, fuel - 1 + extra, t);
    }
  }

  /** The machine's fixed input never changes during a run, so every
      opcode 3 of the run stores the same value. */
  lemma {:induction false} RunKeepsInput(s: Vm, fuel: nat)
    ensures Run(s, fuel).last.inp == s.inp
    decreases fuel
  {
    if fuel > 0 {
      var t := Step(s);
      if t.status == Running {
        RunKeepsInput(t.next, fuel - 1);
        IterateRunning(Step, s, fuel - 1, t);
      } else {
        IterateStopped(Step, s, fuel - 1, t);
      }
    }
  }

  /** The instruction at pc decodes to opcode `op`. */
  predicate DecodesTo(s: Vm, op: int) {
    0 <= s.pc < |s.mem| && DecodeOp(s.mem[s.pc], false).Ok? && DecodeOp(s.mem[s.pc], false).value.op == op
  }

  function Decoded(s: Vm): Instr
    requires 0 <= s.pc < |s.mem| && DecodeOp(s.mem[s.pc], false).Ok?
  {
    DecodeOp(s.mem[s.pc], false).value
  }

  /** Opcodes 1 and 2: the sum or product of the two evaluated operands is
      stored at mem[mem[pc+3]], pc moves by 4; nothing else changes. */
  lemma ArithSemantics(s: Vm)
    requires DecodesTo(s, 1) || DecodesTo(s, 2)
    requires s.pc + 3 < |s.mem| && 0 <= s.mem[s.pc + 3] < |s.mem|
    requires EvalArg(s.mem, 0, Decoded(s).m1, s.mem[s.pc + 1]).Ok?
    requires EvalArg(s.mem, 0, Decoded(s).m2, s.mem[s.pc + 2]).Ok?
    ensures var a, b := EvalArg(s.mem, 0, Decoded(s).m1, s.mem[s.pc + 1]).value,
                        EvalArg(s.mem, 0, Decoded(s).m2, s.mem[s.pc + 2]).value;
      Step(s) == Transition(Running, s.(mem := s.mem[s.mem[s.pc + 3] := if Decoded(s).op == 1 then a + b else a * b],
                                        pc := s.pc + 4), false)
  {
  }

  /** Opcode 3 stores the fixed input at mem[mem[pc+1]] and moves pc by 2. */
  lemma InputSemantics(s: Vm)
    requires DecodesTo(s, 3)
    requires s.pc + 1 < |s.mem| && 0 <= s.mem[s.pc + 1] < |s.mem|
    ensures Step(s) == Transition(Running, s.(mem := s.mem[s.mem[s.pc + 1] := s.inp], pc := s.pc + 2), false)
  {
  }

  /** Opcode 4 sets the output register to its evaluated operand, moves pc
      by 2, leaves memory alone and reports an output. */
  lemma OutputSemantics(s: Vm)
    requires DecodesTo(s, 4)
    requires s.pc + 1 < |s.mem| && EvalArg(s.mem, 0, Decoded(s).m1, s.mem[s.pc + 1]).Ok?
    ensures Step(s) == Transition(Running,
      s.(out := EvalArg(s.mem, 0, Decoded(s).m1, s.mem[s.pc + 1]).value, pc := s.pc + 2), true)
  {
  }

  /** Opcodes 5 and 6: when the first operand is nonzero (5) or zero (6)
      pc becomes the second operand; otherwise pc moves by 3. */
  lemma JumpSemantics(s: Vm)
    requires DecodesTo(s, 5) || DecodesTo(s, 6)
    requires s.pc + 2 < |s.mem|
    requires EvalArg(s.mem, 0, Decoded(s).m1, s.mem[s.pc + 1]).Ok?
    requires EvalArg(s.mem, 0, Decoded(s).m2, s.mem[s.pc + 2]).Ok?
    ensures var a, target := EvalArg(s.mem, 0, Decoded(s).m1, s.mem[s.pc + 1]).value,
                             EvalArg(s.mem, 0, Decoded(s).m2, s.mem[s.pc + 2]).value;
      var taken := if Decoded(s).op == 5 then a != 0 else a == 0;
      Step(s) == Transition(Running, s.(pc := if taken then target else s.pc + 3), false)
  {
  }

  /** Opcodes 7 and 8 store 1 when the comparison holds and 0 otherwise at
      mem[mem[pc+3]], whatever the third mode digit says, and move pc by 4. */
  lemma CompareSemantics(s: Vm)
    requires DecodesTo(s, 7) || DecodesTo(s, 8)
    requires s.pc + 3 < |s.mem| && 0 <= s.mem[s.pc + 3] < |s.mem|
    requires EvalArg(s.mem, 0, Decoded(s).m1, s.mem[s.pc + 1]).Ok?
    requires EvalArg(s.mem, 0, Decoded(s).m2, s.mem[s.pc + 2]).Ok?
    ensures var a, b := EvalArg(s.mem, 0, Decoded(s).m1, s.mem[s.pc + 1]).value,
                        EvalArg(s.mem, 0, Decoded(s).m2, s.mem[s.pc + 2]).value;
      var flag := if Decoded(s).op == 7 then a < b else a == b;
      Step(s) == Transition(Running, s.(mem := s.mem[s.mem[s.pc + 3] := if flag then 1 else 0], pc := s.pc + 4), false)
  {
  }

  /** Opcode 99 halts and moves pc by 1. */
  lemma HaltSemantics(s: Vm)
    requires DecodesTo(s, 99)
    ensures Step(s) == Transition(Halted, s.(pc := s.pc + 1), false)
  {
  }

  /** A word whose mode digits are illegal is reported as the first bad
      digit, and any other undefined opcode as itself; the machine is
      unchanged either way. */
  lemma FaultSemantics(s: Vm)
    requires 0 <= s.pc < |s.mem|
    ensures DecodeOp(s.mem[s.pc], false).Err? ==>
      Step(s) == Transition(Faulted(BadMode(DecodeOp(s.mem[s.pc], false).error)), s, false)
    ensures DecodeOp(s.mem[s.pc], false).Ok? && Decoded(s).op !in {1, 2, 3, 4, 5, 6, 7, 8, 99} ==>
      Step(s) == Transition(Faulted(BadOpcode(s.pc, s.mem[s.pc])), s, false)
  {
  }

  /** A mode digit is checked even where the opcode has no parameter:
      20099 is rejected instead of halting, and 11107 (a comparison whose
      destination mode says immediate) is accepted. */
  lemma UnusedModes()
    ensures DecodeOp(20099, false) == Err(2)
    ensures DecodeOp(11107, false) == Ok(Instr(7, Imm, Imm, Imm))
  {
  }

  const EqualsEight: seq<int> := [3, 9, 8, 9, 10, 9, 4, 9, 99, -1, 8]

  /** The first two instructions of EqualsEight: store the input in cell 9,
      then overwrite it with the flag "cell 9 equals cell 10". */
  lemma EqualsEightHead(inp: int)
    ensures var s1 := Vm(EqualsEight[9 := inp], 2, inp, 0);
      Step(Vm(EqualsEight, 0, inp, 0)) == Transition(Running, s1, false)
      && Step(s1) == Transition(Running, Vm(EqualsEight[9 := if inp == 8 then 1 else 0], 6, inp, 0), false)
  {
    assert DecodeOp(3, false) == Ok(Instr(3, Pos, Pos, Pos));
    assert DecodeOp(8, false) == Ok(Instr(8, Pos, Pos, Pos));
    InputSemantics(Vm(EqualsEight, 0, inp, 0));
    CompareSemantics(Vm(EqualsEight[9 := inp], 2, inp, 0));
  }

  /** The last two instructions of EqualsEight: print cell 9, then halt. */
  lemma EqualsEightTail(s: Vm, v: int)
    requires s.mem == EqualsEight[9 := v] && s.pc == 6
    ensures Run(s, 2) == Outcome(Halted, s.(out := v, pc := 9), [v])
  {
    assert DecodeOp(4, false) == Ok(Instr(4, Pos, Pos, Pos));
    assert DecodeOp(99, false) == Ok(Instr(99, Pos, Pos, Pos));
    var s1 := s.(out := v, pc := 8);
    OutputSemantics(s);
    HaltSemantics(s1);
    IterateStopped(Step, s1, 0, Step(s1));
    IterateRunning(Step, s, 1, Step(s));
  }

  /** The comparison program 3,9,8,9,10,9,4,9,99,-1,8 prints 1 when the
      input is 8 and 0 otherwise, for every input. */
  lemma EqualsEightProgram(inp: int)
    ensures var r := Run(Vm(EqualsEight, 0, inp, 0), 4);
      r.status == Halted && r.printed == [if inp == 8 then 1 else 0]
  {
    var v := if inp == 8 then 1 else 0;
    var s0 := Vm(EqualsEight, 0, inp, 0);
    var s1 := Vm(EqualsEight[9 := inp], 2, inp, 0);
    var s2 := Vm(EqualsEight[9 := v], 6, inp, 0);
    EqualsEightHead(inp);
    EqualsEightTail(s2, v);
    IterateRunning(Step, s1, 2, Step(s1));
    IterateRunning(Step, s0, 3, Step(s0));
  }

  /** Opcodes 1, 2, 7, 8 on a machine's memory, in place. */
  method BinaryOp(mem: array<int>, pc: int, ins: Instr) returns (r: Result<(), Fault>)
    requires ins.op in {1, 2, 7, 8}
    modifies mem
    ensures var b := Binary(old(mem[..]), pc, ins);
      if b.Ok? then r.Ok? && mem[..] == b.value else r == Err(b.error) && mem[..] == old(mem[..])
  {
    var arg1 := LoadFrom(mem, pc + 1);
    if arg1.Err? { return Err(arg1.error); }
    var arg2 := LoadFrom(mem, pc + 2);
    if arg2.Err? { return Err(arg2.error); }
    var dest := LoadFrom(mem, pc + 3);
    if dest.Err? { return Err(dest.error); }
    var a := EvalArgFrom(mem, 0, ins.m1, arg1.value);
    if a.Err? { return Err(a.error); }
    var b := EvalArgFrom(mem, 0, ins.m2, arg2.value);
    if b.Err? { return Err(b.error); }
    if !(0 <= dest.value < mem.Length) {
      return Err(AddressFault(dest.value));
    }
    mem[dest.value] := Combine(ins.op, a.value, b.value);
    r := Ok(());
  }

  /** Opcodes 5 and 6 on a machine's memory: the new pc. */
  method JumpOp(mem: array<int>, pc: int, ins: Instr) returns (r: Result<int, Fault>)
    requires ins.op == 5 || ins.op == 6
    ensures r == Jump(mem[..], pc, ins)
  {
    var arg1 := LoadFrom(mem, pc + 1);
    if arg1.Err? { return Err(arg1.error); }
    var arg2 := LoadFrom(mem, pc + 2);
    if arg2.Err? { return Err(arg2.error); }
    var a := EvalArgFrom(mem, 0, ins.m1, arg1.value);
    if a.Err? { return Err(a.error); }
    if JumpTaken(ins.op, a.value) {
      r := EvalArgFrom(mem, 0, ins.m2, arg2.value);
    } else {
      r := Ok(pc + 3);
    }
  }

  /** Machine (day05, Go and Rust). */
  class Machine {
    var pc: int
    const mem: array<int>
    const inp: int
    var out: int

    ghost function State(): Vm
      reads this, mem
    {
      Vm(mem[..], pc, inp, out)
    }

    /** NewMachine / Machine::new: pc 0, the given input, out 0. */
    constructor (image: seq<int>, input: int)
      ensures State() == Vm(image, 0, input, 0) && fresh(mem)
    {
      pc := 0;
      mem := new int[|image|] (i requires 0 <= i < |image| => image[i]);
      inp := input;
      out := 0;
    }

    /** MemAt: the host reads a cell. */
    function MemAt(offset: int): (v: int)
      reads this, mem
      requires 0 <= offset < mem.Length
      ensures v == State().mem[offset]
    {
      mem[offset]
    }

    /** MemSet: the host overwrites one cell and nothing else. */
    method MemSet(offset: int, val: int)
      requires 0 <= offset < mem.Length
      modifies mem
      ensures MemAt(offset) == val
      ensures State() == old(State()).(mem := old(mem[..])[offset := val])
    {
      mem[offset] := val;
    }

    /** Exec / exec: one instruction; `emitted` is Go's first result, and
        Running / Halted its second. */
    method Exec() returns (emitted: bool, st: Status)
      modifies this, mem
      ensures Step(old(State())) == Transition(st, State(), emitted)
    {
      emitted := false;
      var word := LoadFrom(mem, pc);
      if word.Err? { return false, Faulted(word.error); }
      var dec := DecodeOp(word.value, false);
      if dec.Err? { return false, Faulted(BadMode(dec.error)); }
      var ins := dec.value;
      if ins.op in {1, 2, 7, 8} {
        var r := BinaryOp(mem, pc, ins);
        if r.Err? { return false, Faulted(r.error); }
        pc := pc + 4;
        st := Running;
      } else if ins.op == 3 {
        var arg1 := LoadFrom(mem, pc + 1);
        if arg1.Err? { return false, Faulted(arg1.error); }
        if !(0 <= arg1.value < mem.Length) { return false, Faulted(AddressFault(arg1.value)); }
        mem[arg1.value] := inp;
        pc := pc + 2;
        st := Running;
      } else if ins.op == 4 {
        var v := GetArgFrom(mem, pc, 0, ins.m1, 1);
        if v.Err? { return false, Faulted(v.error); }
        out := v.value;
        pc := pc + 2;
        emitted, st := true, Running;
      } else if ins.op == 5 || ins.op == 6 {
        var r := JumpOp(mem, pc, ins);
        if r.Err? { return false, Faulted(r.error); }
        pc := r.value;
        st := Running;
      } else if ins.op == 99 {
        pc := pc + 1;
        st := Halted;
      } else {
        st := Faulted(BadOpcode(pc, word.value));
      }
    }

    /** Execute / execute: run to a halt or fault (at most `fuel` steps) and
        return what was printed. */
    method Execute(fuel: nat) returns (st: Status, printed: seq<int>)
      modifies this, mem
      ensures Run(old(State()), fuel) == Outcome(st, State(), printed)
    {
      var n := fuel;
      printed := [];
      assert Prepend([], Run(State(), n)) == Run(State(), n);
      while n > 0
        invariant Run(old(State()), fuel) == Prepend(printed, Run(State(), n))
        decreases n
      {
        ghost var before := State();
        var emitted;
        emitted, st := Exec();
        if st != Running {
          IterateStopped(Step, before, n - 1, Transition(st, State(), emitted));
          return;
        }
        IterateRunning(Step, before, n - 1, Transition(st, State(), emitted));
        var head := if emitted then [out] else [];
        assert Run(before, n) == Prepend(head, Run(State(), n - 1));
        PrependTwice(printed, head, Run(State(), n - 1));
        printed := printed + head;
        n := n - 1;
      }
      st := Running;
    }
  }
}
