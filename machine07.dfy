/** The third Intcode machine (day07, Go and Rust): the day05 instruction
    set with input and output through FIFO queues and an `outGauge` register
    that remembers the last value sent. Opcode 3 takes the head of the input
    queue; on an empty queue the Go machine (and the Rust one while a sender
    is alive) waits, which the model reports as Blocked with nothing
    changed; the Rust machine reports a fault once the input is
    disconnected and drained. */
module Intcode07 {
  import opened IntcodeCore
  import opened Num
  import Intcode05

  datatype Vm = Vm(mem: seq<int>, pc: int, input: seq<int>, inputClosed: bool, output: seq<int>, outGauge: int)

  /** Blocked: opcode 3 found the input queue empty and still open. */
  datatype Status = Running | Halted | Blocked | Faulted(fault: Fault)

  datatype Transition = Transition(status: Status, next: Vm)

  /** Opcode 3: read the destination word, take the head of the input queue
      and store it there. The value is taken before the store is checked,
      so a bad destination faults with the input already consumed. */
  function Input(s: Vm): (t: Transition)
    ensures t.status != Running ==> t.next.mem == s.mem && t.next.pc == s.pc
  {
    match Load(s.mem, s.pc + 1)
    case Err(f) => Transition(Faulted(f), s)
    case Ok(arg1) =>
      if |s.input| == 0 then
        Transition(if s.inputClosed then Faulted(InputClosed) else Blocked, s)
      else
        var s' := s.(input := s.input[1..]);
        match Store(s.mem, arg1, s.input[0])
        case Err(f) => Transition(Faulted(f), s')
        case Ok(mem') => Transition(Running, s'.(mem := mem', pc := s.pc + 2))
  }

  /** One fetch-decode-execute step (Exec / exec). */
  function Step(s: Vm): (t: Transition)
    ensures t.status == Blocked ==> t.next == s
    ensures |t.next.mem| == |s.mem| && t.next.inputClosed == s.inputClosed
  {
    match Load(s.mem, s.pc)
    case Err(f) => Transition(Faulted(f), s)
    case Ok(word) =>
    match DecodeOp(word, false)
    case Err(d) => Transition(Faulted(BadMode(d)), s)
    case Ok(ins) =>
      if ins.op in {1, 2, 7, 8} then
        match Intcode05.Binary(s.mem, s.pc, ins)
        case Err(f) => Transition(Faulted(f), s)
        case Ok(mem') => Transition(Running, s.(mem := mem', pc := s.pc + 4))
      else if ins.op == 3 then
        Input(s)
      else if ins.op == 4 then
        match GetArg(s.mem, s.pc, 0, ins.m1, 1)
        case Err(f) => Transition(Faulted(f), s)
        case Ok(v) => Transition(Running, s.(output := s.output + [v], outGauge := v, pc := s.pc + 2))
      else if ins.op == 5 || ins.op == 6 then
        match Intcode05.Jump(s.mem, s.pc, ins)
        case Err(f) => Transition(Faulted(f), s)
        case Ok(pc') => Transition(Running, s.(pc := pc'))
      else if ins.op == 99 then
        Transition(Halted, s.(pc := s.pc + 1))
      else
        Transition(Faulted(BadOpcode(s.pc, word)), s)
  }

  /** Repeat a step function at most `fuel` times, stopping at the first
      step that does not report Running. */
  function Iterate(step: Vm -> Transition, s: Vm, fuel: nat): Transition
    decreases fuel
  {
    if fuel == 0 then Transition(Running, s)
    else
      var t := step(s);
      if t.status != Running then t else Iterate(step, t.next, fuel - 1)
  }

  /** Execute / execute: Exec until it halts, faults or blocks, for at most
      `fuel` instructions. The Go version does not close its output. */
  function Run(s: Vm, fuel: nat): Transition {
    Iterate(Step, s, fuel)
  }

  lemma IterateRunning(step: Vm -> Transition, s: Vm, n: nat)
    requires step(s).status == Running
    ensures Iterate(step, s, n + 1) == Iterate(step, step(s).next, n)
  {
  }

  lemma IterateStopped(step: Vm -> Transition, s: Vm, n: nat)
    requires step(s).status != Running
    ensures Iterate(step, s, n + 1) == step(s)
  {
  }

  /** `b` (with gauge `gb`) continues `a` (with gauge `ga`): values were
      only appended, and the gauge holds the last appended value, or is
      unchanged when nothing was appended. */
  predicate Sent(a: seq<int>, ga: int, b: seq<int>, gb: int) {
    |a| <= |b| && b[..|a|] == a
    && (|b| > |a| ==> gb == b[|b| - 1])
    && (|b| == |a| ==> gb == ga)
  }

  lemma SentTrans(a: seq<int>, ga: int, b: seq<int>, gb: int, c: seq<int>, gc: int)
    requires Sent(a, ga, b, gb) && Sent(b, gb, c, gc)
    ensures Sent(a, ga, c, gc)
  {
    assert c[..|a|] == c[..|b|][..|a|];
  }

  /** A step appends at most one value to the output queue and keeps the
      gauge in step with it. */
  lemma StepOutput(s: Vm)
    ensures var n := Step(s).next;
      |n.output| <= |s.output| + 1 && Sent(s.output, s.outGauge, n.output, n.outGauge)
  {
  }

  /** Over a whole run the output queue only grows at the back, and
      outGauge is the last value sent, or its old value if nothing was
      sent. */
  lemma {:induction false} RunOutput(s: Vm, fuel: nat)
    ensures var n := Run(s, fuel).next;
      Sent(s.output, s.outGauge, n.output, n.outGauge)
    decreases fuel
  {
    if fuel > 0 {
      StepOutput(s);
      var m := Step(s).next;
      if Step(s).status == Running {
        IterateRunning(Step, s, fuel - 1);
        RunOutput(m, fuel - 1);
        var n := Run(s, fuel).next;
        SentTrans(s.output, s.outGauge, m.output, m.outGauge, n.output, n.outGauge);
      } else {
        IterateStopped(Step, s, fuel - 1);
      }
    }
  }

  /** The instruction at pc decodes to opcode `op`. */
  predicate DecodesTo(s: Vm, op: int) {
    0 <= s.pc < |s.mem| && DecodeOp(s.mem[s.pc], false).Ok? && DecodeOp(s.mem[s.pc], false).value.op == op
  }

  function Decoded(s: Vm): Instr
    requires 0 <= s.pc < |s.mem| && DecodeOp(s.mem[s.pc], false).Ok?
  {
    DecodeOp(s.mem[s.pc], false).value
  }

  /** Opcode 3 with a non-empty queue stores its head at mem[mem[pc+1]],
      removes it, and moves pc by 2. With an empty queue it blocks (open) or
      faults (closed), changing nothing. */
  lemma InputSemantics(s: Vm)
    requires DecodesTo(s, 3) && s.pc + 1 < |s.mem| && 0 <= s.mem[s.pc + 1] < |s.mem|
    ensures |s.input| > 0 ==>
      Step(s) == Transition(Running, s.(mem := s.mem[s.mem[s.pc + 1] := s.input[0]], input := s.input[1..], pc := s.pc + 2))
    ensures |s.input| == 0 && !s.inputClosed ==> Step(s) == Transition(Blocked, s)
    ensures |s.input| == 0 && s.inputClosed ==> Step(s) == Transition(Faulted(InputClosed), s)
  {
  }

  /** Opcode 4 appends its evaluated operand to the output queue, records it
      in outGauge, and moves pc by 2; memory is unchanged. */
  lemma OutputSemantics(s: Vm)
    requires DecodesTo(s, 4)
    requires s.pc + 1 < |s.mem| && EvalArg(s.mem, 0, Decoded(s).m1, s.mem[s.pc + 1]).Ok?
    ensures var v := EvalArg(s.mem, 0, Decoded(s).m1, s.mem[s.pc + 1]).value;
      Step(s) == Transition(Running, s.(output := s.output + [v], outGauge := v, pc := s.pc + 2))
  {
  }

  /** Opcodes 7 and 8 write 1/0 at mem[mem[pc+3]] whatever the third mode
      digit; opcode 99 halts with pc + 1. */
  lemma CompareAndHaltSemantics(s: Vm)
    requires 0 <= s.pc && s.pc + 3 < |s.mem| && 0 <= s.mem[s.pc + 3] < |s.mem|
    requires DecodesTo(s, 7) || DecodesTo(s, 8) || DecodesTo(s, 99)
    requires EvalArg(s.mem, 0, Decoded(s).m1, s.mem[s.pc + 1]).Ok?
    requires EvalArg(s.mem, 0, Decoded(s).m2, s.mem[s.pc + 2]).Ok?
    ensures var a, b := EvalArg(s.mem, 0, Decoded(s).m1, s.mem[s.pc + 1]).value,
                        EvalArg(s.mem, 0, Decoded(s).m2, s.mem[s.pc + 2]).value;
      Step(s) == if Decoded(s).op == 99 then Transition(Halted, s.(pc := s.pc + 1))
        else Transition(Running, s.(mem := s.mem[s.mem[s.pc + 3] := Combine(Decoded(s).op, a, b)], pc := s.pc + 4))
  {
  }

  const Echo: seq<int> := [3, 0, 4, 0, 99]

  /** The echo program 3,0,4,0,99 sends its one input back out and halts,
      leaving outGauge equal to it; with no input it blocks before doing
      anything. */
  lemma EchoProgram(x: int, rest: seq<int>)
    ensures var r := Run(Vm(Echo, 0, [x] + rest, false, [], 0), 3);
      r.status == Halted && r.next.output == [x] && r.next.outGauge == x && r.next.input == rest
    ensures Run(Vm(Echo, 0, [], false, [], 0), 3) == Transition(Blocked, Vm(Echo, 0, [], false, [], 0))
  {
    assert DecodeOp(3, false) == Ok(Instr(3, Pos, Pos, Pos));
    assert DecodeOp(4, false) == Ok(Instr(4, Pos, Pos, Pos));
    assert DecodeOp(99, false) == Ok(Instr(99, Pos, Pos, Pos));
    var s0 := Vm(Echo, 0, [x] + rest, false, [], 0);
    var s1 := Vm(Echo[0 := x], 2, rest, false, [], 0);
    var s2 := Vm(Echo[0 := x], 4, rest, false, [x], x);
    InputSemantics(s0);
    assert ([x] + rest)[1..] == rest;
    OutputSemantics(s1);
    IterateRunning(Step, s0, 2);
    IterateRunning(Step, s1, 1);
    IterateStopped(Step, s2, 0);
    var e := Vm(Echo, 0, [], false, [], 0);
    InputSemantics(e);
    IterateStopped(Step, e, 2);
  }

  /** Machine (day07, Go and Rust). */
  class Machine {
    var pc: int
    const mem: array<int>
    var input: seq<int>
    var inputClosed: bool
    var output: seq<int>
    var outGauge: int

    ghost function State(): Vm
      reads this, mem
    {
      Vm(mem[..], pc, input, inputClosed, output, outGauge)
    }

    /** NewMachine / Machine::new: pc 0, empty queues, outGauge 0. */
    constructor (image: seq<int>)
      ensures State() == Vm(image, 0, [], false, [], 0) && fresh(mem)
    {
      pc := 0;
      mem := new int[|image|] (i requires 0 <= i < |image| => image[i]);
      input := [];
      inputClosed := false;
      output := [];
      outGauge := 0;
    }

    /** Write: the host sends a value to the input queue. */
    method Write(v: int)
      modifies this
      ensures State() == old(State()).(input := old(input) + [v])
    {
      input := input + [v];
    }

    /** The host drops its sender (Rust): once drained, input is closed. */
    method CloseInput()
      modifies this
      ensures State() == old(State()).(inputClosed := true)
    {
      inputClosed := true;
    }

    /** Read: the host takes the oldest output, or None when the queue is
        empty (where Go's Read would wait). */
    method Read() returns (r: Option<int>)
      modifies this
      ensures old(output) == [] ==> r == None && State() == old(State())
      ensures old(output) != [] ==> r == Some(old(output)[0]) && State() == old(State()).(output := old(output)[1..])
    {
      if output == [] {
        r := None;
      } else {
        r := Some(output[0]);
        output := output[1..];
      }
    }

    /** Output / send_out: record the value in outGauge, then enqueue it. */
    method Output(v: int)
      modifies this
      ensures State() == old(State()).(output := old(output) + [v], outGauge := v)
    {
      outGauge := v;
      output := output + [v];
    }

    /** Opcode 3: GetInp / recv_inp into the cell the first word names. */
    method ExecInput() returns (st: Status)
      modifies this, mem
      ensures Input(old(State())) == Transition(st, State())
    {
      var arg1 := LoadFrom(mem, pc + 1);
      if arg1.Err? { return Faulted(arg1.error); }
      if input == [] {
        return if inputClosed then Faulted(InputClosed) else Blocked;
      }
      var v := input[0];
      input := input[1..];
      if !(0 <= arg1.value < mem.Length) { return Faulted(AddressFault(arg1.value)); }
      mem[arg1.value] := v;
      pc := pc + 2;
      st := Running;
    }

    /** Exec / exec: one instruction. */
    method Exec() returns (st: Status)
      modifies this, mem
      ensures Step(old(State())) == Transition(st, State())
    {
      var word := LoadFrom(mem, pc);
      if word.Err? { return Faulted(word.error); }
      var dec := DecodeOp(word.value, false);
      if dec.Err? { return Faulted(BadMode(dec.error)); }
      var ins := dec.value;
      if ins.op in {1, 2, 7, 8} {
        var r := Intcode05.BinaryOp(mem, pc, ins);
        if r.Err? { return Faulted(r.error); }
        pc := pc + 4;
        st := Running;
      } else if ins.op == 3 {
        st := ExecInput();
      } else if ins.op == 4 {
        var v := GetArgFrom(mem, pc, 0, ins.m1, 1);
        if v.Err? { return Faulted(v.error); }
        Output(v.value);
        pc := pc + 2;
        st := Running;
      } else if ins.op == 5 || ins.op == 6 {
        var r := Intcode05.JumpOp(mem, pc, ins);
        if r.Err? { return Faulted(r.error); }
        pc := r.value;
        st := Running;
      } else if ins.op == 99 {
        pc := pc + 1;
        st := Halted;
      } else {
        st := Faulted(BadOpcode(pc, word.value));
      }
    }

    /** Execute / execute: Exec until halt, fault or an empty input, for at
        most `fuel` instructions. */
    method Execute(fuel: nat) returns (st: Status)
      modifies this, mem
      ensures Run(old(State()), fuel) == Transition(st, State())
    {
      var n := fuel;
      while n > 0
        invariant Run(old(State()), fuel) == Run(State(), n)
        decreases n
      {
        ghost var before := State();
        st := Exec();
        if st != Running {
          IterateStopped(Step, before, n - 1);
          return;
        }
        IterateRunning(Step, before, n - 1);
        n := n - 1;
      }
      st := Running;
    }
  }
}
