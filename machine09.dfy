/** The final Intcode machine (day09, 11, 13, 17 and 21 in Go; day09 in
    Rust): mode digit 2 reads and writes relative to a `relBase` register,
    opcode 9 moves that register, every destination goes through `setArg`
    so any of the three modes may name it (immediate mode is a fault), and
    the machine closes its output queue after a halt (Go) or its input
    queue after a halt or a fault (Rust).

    day13's machine first sends the value of its `getInp` callback to its
    own input queue on every opcode 3; its host passes a callback that
    always returns 0, so the model carries that value as `feed`, and the
    other machines have feed None. */
module Intcode09 {
  import opened IntcodeCore
  import opened Num
  import Intcode07

  datatype Vm = Vm(mem: seq<int>, pc: int, relBase: int,
                   input: seq<int>, inputClosed: bool,
                   output: seq<int>, outputClosed: bool, outGauge: int)

  datatype Status = Running | Halted | Blocked | Faulted(fault: Fault)

  datatype Transition = Transition(status: Status, next: Vm)

  /** Opcodes 1, 2, 7 and 8: the two operands, then the result written
      through the third mode. */
  function Binary(s: Vm, ins: Instr): (r: Result<seq<int>, Fault>)
    requires ins.op in {1, 2, 7, 8}
    ensures r.Ok? ==> |r.value| == |s.mem|
    ensures ins.m3 == Imm ==> r.Err?
  {
    match GetArg(s.mem, s.pc, s.relBase, ins.m1, 1)
    case Err(f) => Err(f)
    case Ok(a) =>
    match GetArg(s.mem, s.pc, s.relBase, ins.m2, 2)
    case Err(f) => Err(f)
    case Ok(b) => SetArg(s.mem, s.pc, s.relBase, ins.m3, 3, Combine(ins.op, a, b))
  }

  /** Opcodes 5 and 6: the target is evaluated only when the jump is taken. */
  function Jump(s: Vm, ins: Instr): (r: Result<int, Fault>)
    requires ins.op == 5 || ins.op == 6
  {
    match GetArg(s.mem, s.pc, s.relBase, ins.m1, 1)
    case Err(f) => Err(f)
    case Ok(a) =>
      if JumpTaken(ins.op, a) then GetArg(s.mem, s.pc, s.relBase, ins.m2, 2) else Ok(s.pc + 3)
  }

  /** The input queue opcode 3 reads from: with a feed, its value is
      appended first. */
  function Queue(s: Vm, feed: Option<int>): seq<int> {
    if feed.Some? then s.input + [feed.value] else s.input
  }

  /** Opcode 3: recvInput / recv_inp, then setArg through the first mode.
      The value is received before the destination is checked, so a bad
      destination faults with the input consumed. An empty queue blocks
      while it is open; a closed, empty queue is Rust's "Failed to read". */
  function Input(s: Vm, m1: Mode, feed: Option<int>): (t: Transition)
    ensures t.status != Running ==> t.next.mem == s.mem && t.next.pc == s.pc
    ensures t.status == Blocked ==> t.next == s
  {
    var q := Queue(s, feed);
    if |q| == 0 then
      Transition(if s.inputClosed then Faulted(InputClosed) else Blocked, s)
    else
      var s' := s.(input := q[1..]);
      match SetArg(s.mem, s.pc, s.relBase, m1, 1, q[0])
      case Err(f) => Transition(Faulted(f), s')
      case Ok(mem') => Transition(Running, s'.(mem := mem', pc := s.pc + 2))
  }

  /** Opcode 4: sendOutput / send_out of the first argument; outGauge
      records the value sent. */
  function Output(s: Vm, m1: Mode): Transition {
    match GetArg(s.mem, s.pc, s.relBase, m1, 1)
    case Err(f) => Transition(Faulted(f), s)
    case Ok(v) => Transition(Running, s.(output := s.output + [v], outGauge := v, pc := s.pc + 2))
  }

  /** Opcode 9: the relative base moves by the first argument. */
  function AdjustBase(s: Vm, m1: Mode): Transition {
    match GetArg(s.mem, s.pc, s.relBase, m1, 1)
    case Err(f) => Transition(Faulted(f), s)
    case Ok(a) => Transition(Running, s.(relBase := s.relBase + a, pc := s.pc + 2))
  }

  /** One fetch-decode-execute step (Exec / exec). */
  function Step(s: Vm, feed: Option<int>): (t: Transition)
    ensures t.status == Blocked ==> t.next == s
    ensures |t.next.mem| == |s.mem| && t.next.inputClosed == s.inputClosed
    ensures t.next.outputClosed == s.outputClosed
  {
    match Load(s.mem, s.pc)
    case Err(f) => Transition(Faulted(f), s)
    case Ok(word) =>
    match DecodeOp(word, true)
    case Err(d) => Transition(Faulted(BadMode(d)), s)
    case Ok(ins) =>
      if ins.op in {1, 2, 7, 8} then
        match Binary(s, ins)
        case Err(f) => Transition(Faulted(f), s)
        case Ok(mem') => Transition(Running, s.(mem := mem', pc := s.pc + 4))
      else if ins.op == 3 then
        Input(s, ins.m1, feed)
      else if ins.op == 4 then
        Output(s, ins.m1)
      else if ins.op == 5 || ins.op == 6 then
        match Jump(s, ins)
        case Err(f) => Transition(Faulted(f), s)
        case Ok(pc') => Transition(Running, s.(pc := pc'))
      else if ins.op == 9 then
        AdjustBase(s, ins.m1)
      else if ins.op == 99 then
        Transition(Halted, s.(pc := s.pc + 1))
      else
        Transition(Faulted(BadOpcode(s.pc, word)), s)
  }

  /** Repeat a step function at most `fuel` times, stopping at the first
      step that does not report Running. */
  function Iterate(step: Vm -> Transition, s: Vm, fuel: nat): Transition
    decreases fuel
  {
    if fuel == 0 then Transition(Running, s)
    else
      var t := step(s);
      if t.status != Running then t else Iterate(step, t.next, fuel - 1)
  }

  lemma IterateRunning(step: Vm -> Transition, s: Vm, n: nat)
    requires step(s).status == Running
    ensures Iterate(step, s, n + 1) == Iterate(step, step(s).next, n)
  {
  }

  lemma IterateStopped(step: Vm -> Transition, s: Vm, n: nat)
    requires step(s).status != Running
    ensures Iterate(step, s, n + 1) == step(s)
  {
  }

  /** Exec repeated until it halts, faults or waits for input, for at most
      `fuel` instructions. */
  function Run(s: Vm, feed: Option<int>, fuel: nat): Transition {
    Iterate(s => Step(s, feed), s, fuel)
  }

  /** Execute (Go): run, and close the output queue after a halt. */
  function RunAndCloseOutput(s: Vm, feed: Option<int>, fuel: nat): (t: Transition)
    ensures t.next.outputClosed <==> (s.outputClosed || t.status == Halted)
    ensures t.status == Run(s, feed, fuel).status
  {
    var t := Run(s, feed, fuel);
    RunKeepsFlags(s, feed, fuel);
    if t.status == Halted then t.(next := t.next.(outputClosed := true)) else t
  }

  /** execute (Rust): run, and close the input receiver after a halt or a
      fault, but not while it is still waiting. */
  function RunAndCloseInput(s: Vm, fuel: nat): (t: Transition)
    ensures t.next.inputClosed <==> (s.inputClosed || t.status == Halted || t.status.Faulted?)
    ensures t.status == Run(s, None, fuel).status
  {
    var t := Run(s, None, fuel);
    RunKeepsFlags(s, None, fuel);
    if t.status == Halted || t.status.Faulted? then t.(next := t.next.(inputClosed := true)) else t
  }

  /** A step never closes a queue: only Execute does. */
  lemma {:induction false} RunKeepsFlags(s: Vm, feed: Option<int>, fuel: nat)
    ensures Run(s, feed, fuel).next.inputClosed == s.inputClosed
    ensures Run(s, feed, fuel).next.outputClosed == s.outputClosed
    decreases fuel
  {
    if fuel > 0 {
      var step := s => Step(s, feed);
      if step(s).status == Running {
        IterateRunning(step, s, fuel - 1);
        RunKeepsFlags(step(s).next, feed, fuel - 1);
      } else {
        IterateStopped(step, s, fuel - 1);
      }
    }
  }

  /** A step appends at most one value to the output queue and keeps the
      gauge equal to the last value sent. */
  lemma StepOutput(s: Vm, feed: Option<int>)
    ensures var n := Step(s, feed).next;
      |n.output| <= |s.output| + 1 && Intcode07.Sent(s.output, s.outGauge, n.output, n.outGauge)
  {
  }

  /** A run of fuel > 0 is one step, then the rest of the run if that step
      left the machine running. */
  lemma RunFirst(s: Vm, feed: Option<int>, fuel: nat)
    requires fuel > 0
    ensures var t := Step(s, feed);
      Run(s, feed, fuel) == if t.status == Running then Run(t.next, feed, fuel - 1) else t
  {
    var step := s => Step(s, feed);
    if step(s).status == Running {
      IterateRunning(step, s, fuel - 1);
    } else {
      IterateStopped(step, s, fuel - 1);
    }
  }

  /** Over a run the output queue only grows at the back, and outGauge is
      the last value sent (or unchanged if nothing was sent). */
  lemma {:induction false} RunOutput(s: Vm, feed: Option<int>, fuel: nat)
    ensures var n := Run(s, feed, fuel).next;
      Intcode07.Sent(s.output, s.outGauge, n.output, n.outGauge)
    decreases fuel
  {
    if fuel > 0 {
      var t := Step(s, feed);
      StepOutput(s, feed);
      RunFirst(s, feed, fuel);
      if t.status == Running {
        RunOutput(t.next, feed, fuel - 1);
        var n := Run(t.next, feed, fuel - 1).next;
        Intcode07.SentTrans(s.output, s.outGauge, t.next.output, t.next.outGauge, n.output, n.outGauge);
      }
    }
  }

  /** The instruction at pc decodes to opcode `op`. */
  predicate DecodesTo(s: Vm, op: int) {
    0 <= s.pc < |s.mem| && DecodeOp(s.mem[s.pc], true).Ok? && DecodeOp(s.mem[s.pc], true).value.op == op
  }

  function Decoded(s: Vm): Instr
    requires 0 <= s.pc < |s.mem| && DecodeOp(s.mem[s.pc], true).Ok?
  {
    DecodeOp(s.mem[s.pc], true).value
  }

  /** The operand of parameter k (1 or 2) of the instruction at pc. */
  function Operand(s: Vm, k: int): Result<int, Fault>
    requires 0 <= s.pc < |s.mem| && DecodeOp(s.mem[s.pc], true).Ok? && (k == 1 || k == 2)
  {
    GetArg(s.mem, s.pc, s.relBase, if k == 1 then Decoded(s).m1 else Decoded(s).m2, k)
  }

  /** Opcode 9 adds its operand to relBase and moves pc by 2; memory and the
      queues are unchanged. */
  lemma RelBaseSemantics(s: Vm, feed: Option<int>)
    requires DecodesTo(s, 9) && Operand(s, 1).Ok?
    ensures Step(s, feed) == Transition(Running, s.(relBase := s.relBase + Operand(s, 1).value, pc := s.pc + 2))
  {
  }

  /** Opcodes 1, 2, 7 and 8 write their result through the third mode:
      at mem[pc+3] in position mode, at mem[pc+3] + relBase in relative
      mode, and move pc by 4. */
  lemma BinarySemantics(s: Vm, feed: Option<int>)
    requires 0 <= s.pc && s.pc + 3 < |s.mem|
    requires DecodesTo(s, 1) || DecodesTo(s, 2) || DecodesTo(s, 7) || DecodesTo(s, 8)
    requires Operand(s, 1).Ok? && Operand(s, 2).Ok? && Decoded(s).m3 != Imm
    ensures var ins, v := Decoded(s), Combine(Decoded(s).op, Operand(s, 1).value, Operand(s, 2).value);
      var d := if ins.m3 == Rel then s.mem[s.pc + 3] + s.relBase else s.mem[s.pc + 3];
      if 0 <= d < |s.mem| then Step(s, feed) == Transition(Running, s.(mem := s.mem[d := v], pc := s.pc + 4))
      else Step(s, feed) == Transition(Faulted(AddressFault(d)), s)
  {
  }

  /** An immediate-mode destination is a fault: the instruction changes
      nothing and pc is not advanced. */
  lemma ImmediateWriteFaults(s: Vm, feed: Option<int>)
    requires 0 <= s.pc && s.pc + 3 < |s.mem|
    requires DecodesTo(s, 1) || DecodesTo(s, 2) || DecodesTo(s, 7) || DecodesTo(s, 8)
    requires Operand(s, 1).Ok? && Operand(s, 2).Ok? && Decoded(s).m3 == Imm
    ensures Step(s, feed) == Transition(Faulted(ImmediateWrite), s)
  {
  }

  /** Opcode 3 takes the head of the queue (after the feed, if any) and
      writes it through the first mode; with no value it blocks on an open
      queue and faults on a closed one, changing nothing. */
  lemma InputSemantics(s: Vm, feed: Option<int>)
    requires DecodesTo(s, 3) && s.pc + 1 < |s.mem|
    ensures var q, ins := Queue(s, feed), Decoded(s);
      var d := if ins.m1 == Rel then s.mem[s.pc + 1] + s.relBase else s.mem[s.pc + 1];
      if |q| == 0 then
        Step(s, feed) == Transition(if s.inputClosed then Faulted(InputClosed) else Blocked, s)
      else if ins.m1 == Imm then
        Step(s, feed) == Transition(Faulted(ImmediateWrite), s.(input := q[1..]))
      else if 0 <= d < |s.mem| then
        Step(s, feed) == Transition(Running, s.(mem := s.mem[d := q[0]], input := q[1..], pc := s.pc + 2))
      else Step(s, feed) == Transition(Faulted(AddressFault(d)), s.(input := q[1..]))
  {
  }

  /** day13: with the queue empty, opcode 3 stores the value of getInp and
      leaves the queue empty again. */
  lemma FeedSemantics(s: Vm, x: int)
    requires DecodesTo(s, 3) && s.pc + 1 < |s.mem| && Decoded(s).m1 == Pos
    requires s.input == [] && 0 <= s.mem[s.pc + 1] < |s.mem|
    ensures Step(s, Some(x)) == Transition(Running, s.(mem := s.mem[s.mem[s.pc + 1] := x], pc := s.pc + 2))
  {
    InputSemantics(s, Some(x));
  }

  /** Opcode 4 appends its operand to the output queue and records it in
      outGauge; memory is unchanged. */
  lemma OutputSemantics(s: Vm, feed: Option<int>)
    requires DecodesTo(s, 4) && Operand(s, 1).Ok?
    ensures var v := Operand(s, 1).value;
      Step(s, feed) == Transition(Running, s.(output := s.output + [v], outGauge := v, pc := s.pc + 2))
  {
  }

  /** Opcodes 5 and 6 jump to the second operand when the first is nonzero
      (5) or zero (6), and otherwise move pc by 3. */
  lemma JumpSemantics(s: Vm, feed: Option<int>)
    requires (DecodesTo(s, 5) || DecodesTo(s, 6)) && Operand(s, 1).Ok?
    requires JumpTaken(Decoded(s).op, Operand(s, 1).value) ==> Operand(s, 2).Ok?
    ensures Step(s, feed) == Transition(Running, s.(pc :=
      if JumpTaken(Decoded(s).op, Operand(s, 1).value) then Operand(s, 2).value else s.pc + 3))
  {
  }

  /** Opcode 99 halts with pc + 1; an opcode outside 1-9 and 99 faults
      with nothing changed. */
  lemma HaltAndBadOpcode(s: Vm, feed: Option<int>)
    requires 0 <= s.pc < |s.mem| && DecodeOp(s.mem[s.pc], true).Ok?
    requires Decoded(s).op !in {1, 2, 3, 4, 5, 6, 7, 8, 9}
    ensures Decoded(s).op == 99 ==> Step(s, feed) == Transition(Halted, s.(pc := s.pc + 1))
    ensures Decoded(s).op != 99 ==> Step(s, feed) == Transition(Faulted(BadOpcode(s.pc, s.mem[s.pc])), s)
  {
  }

  const RelEcho: seq<int> := [109, 5, 204, 0, 99, 42]

  /** 109,5,204,0,99,42: opcode 9 sets relBase to 5, then a relative-mode
      output prints mem[0 + 5]; after the halt Execute closes the output. */
  lemma RelEchoProgram()
    ensures var t := RunAndCloseOutput(Vm(RelEcho, 0, 0, [], false, [], false, 0), None, 3);
      t.status == Halted && t.next.output == [42] && t.next.outGauge == 42 && t.next.outputClosed
      && t.next.relBase == 5 && t.next.pc == 5
  {
    assert DecodeOp(109, true) == Ok(Instr(9, Imm, Pos, Pos));
    assert DecodeOp(204, true) == Ok(Instr(4, Rel, Pos, Pos));
    assert DecodeOp(99, true) == Ok(Instr(99, Pos, Pos, Pos));
    var step := s => Step(s, None);
    var s0 := Vm(RelEcho, 0, 0, [], false, [], false, 0);
    var s1 := s0.(relBase := 5, pc := 2);
    var s2 := s1.(output := [42], outGauge := 42, pc := 4);
    RelBaseSemantics(s0, None);
    OutputSemantics(s1, None);
    IterateRunning(step, s0, 2);
    IterateRunning(step, s1, 1);
    IterateStopped(step, s2, 0);
  }

  /** copy_vec: the first min(|dest|, |src|) cells of dest take src's
      values; the rest of dest, and its length, are unchanged. */
  method CopyVec(dest: array<int>, src: seq<int>)
    modifies dest
    ensures forall i :: 0 <= i < dest.Length && i < |src| ==> dest[i] == src[i]
    ensures forall i :: |src| <= i < dest.Length ==> dest[i] == old(dest[i])
  {
    var n := if dest.Length < |src| then dest.Length else |src|;
    for i := 0 to n
      invariant forall k :: 0 <= k < i ==> dest[k] == src[k]
      invariant forall k :: i <= k < dest.Length ==> dest[k] == old(dest[k])
    {
      dest[i] := src[i];
    }
  }

  /** The hosts' memory: ramSize zeroed cells with the program copied to
      the front. */
  method LoadProgram(tokens: seq<int>, ramSize: nat) returns (mem: array<int>)
    ensures fresh(mem) && mem.Length == ramSize
    ensures forall i :: 0 <= i < ramSize ==> mem[i] == if i < |tokens| then tokens[i] else 0
  {
    mem := new int[ramSize] (_ => 0);
    CopyVec(mem, tokens);
  }

  /** Opcodes 1, 2, 7 and 8 over the machine's memory array. */
  method BinaryOp(mem: array<int>, pc: int, relBase: int, ins: Instr) returns (r: Result<(), Fault>)
    requires ins.op in {1, 2, 7, 8}
    modifies mem
    ensures var s := Vm(old(mem[..]), pc, relBase, [], false, [], false, 0);
      var b := Binary(s, ins);
      if b.Ok? then r.Ok? && mem[..] == b.value else r == Err(b.error) && mem[..] == old(mem[..])
  {
    var a := GetArgFrom(mem, pc, relBase, ins.m1, 1);
    if a.Err? { return Err(a.error); }
    var b := GetArgFrom(mem, pc, relBase, ins.m2, 2);
    if b.Err? { return Err(b.error); }
    r := SetArgIn(mem, pc, relBase, ins.m3, 3, Combine(ins.op, a.value, b.value));
  }

  /** Opcodes 5 and 6 over the machine's memory array. */
  method JumpOp(mem: array<int>, pc: int, relBase: int, ins: Instr) returns (r: Result<int, Fault>)
    requires ins.op == 5 || ins.op == 6
    ensures r == Jump(Vm(mem[..], pc, relBase, [], false, [], false, 0), ins)
  {
    var a := GetArgFrom(mem, pc, relBase, ins.m1, 1);
    if a.Err? { return Err(a.error); }
    if JumpTaken(ins.op, a.value) {
      r := GetArgFrom(mem, pc, relBase, ins.m2, 2);
    } else {
      r := Ok(pc + 3);
    }
  }

  /** Machine (day09 Go and Rust, and the copies in day11, 13, 17, 21). */
  class Machine {
    var pc: int
    const mem: array<int>
    var relBase: int
    var input: seq<int>
    var inputClosed: bool
    var output: seq<int>
    var outputClosed: bool
    var outGauge: int
    const feed: Option<int>

    ghost function State(): Vm
      reads this, mem
    {
      Vm(mem[..], pc, relBase, input, inputClosed, output, outputClosed, outGauge)
    }

    /** NewMachine: the machine runs over the caller's memory (not a
        copy), with pc and relBase 0 and empty, open queues. */
    constructor (mem: array<int>, feed: Option<int>)
      ensures this.mem == mem && this.feed == feed
      ensures State() == Vm(mem[..], 0, 0, [], false, [], false, 0)
    {
      this.mem := mem;
      this.feed := feed;
      pc := 0;
      relBase := 0;
      input := [];
      inputClosed := false;
      output := [];
      outputClosed := false;
      outGauge := 0;
    }

    /** Write: the host sends a value to the input queue. */
    method Write(v: int)
      modifies this
      ensures State() == old(State()).(input := old(input) + [v])
    {
      input := input + [v];
    }

    /** The host drops its sender (Rust). */
    method CloseInput()
      modifies this
      ensures State() == old(State()).(inputClosed := true)
    {
      inputClosed := true;
    }

    /** Read: the oldest output and true, or (0, false) once the queue is
        closed and drained. (With the queue empty and open, Go's Read waits;
        that case is excluded here.) */
    method Read() returns (v: int, ok: bool)
      requires output != [] || outputClosed
      modifies this
      ensures old(output) != [] ==> v == old(output)[0] && ok && State() == old(State()).(output := old(output)[1..])
      ensures old(output) == [] ==> v == 0 && !ok && State() == old(State())
    {
      if output == [] {
        return 0, false;
      }
      v, ok := output[0], true;
      output := output[1..];
    }

    /** The hosts' read loop: Read until it reports false. The values come
        out in the order they were sent. */
    method Drain() returns (vals: seq<int>)
      requires outputClosed
      modifies this
      ensures vals == old(output)
      ensures State() == old(State()).(output := [])
    {
      vals := [];
      var ok := true;
      while ok
        invariant outputClosed && vals + output == old(output)
        invariant State() == old(State()).(output := output)
        invariant !ok ==> output == []
        decreases |output| + (if ok then 1 else 0)
      {
        var v;
        v, ok := Read();
        if ok {
          vals := vals + [v];
        }
      }
    }

    /** sendOutput / send_out: record the value in outGauge, then enqueue it. */
    method SendOutput(v: int)
      modifies this
      ensures State() == old(State()).(output := old(output) + [v], outGauge := v)
    {
      outGauge := v;
      output := output + [v];
    }

    /** Opcode 3: recvInput (with day13's feed written first), then setArg. */
    method ExecInput(m1: Mode) returns (st: Status)
      modifies this, mem
      ensures Input(old(State()), m1, feed) == Transition(st, State())
    {
      if feed.Some? {
        Write(feed.value);
      }
      if input == [] {
        return if inputClosed then Faulted(InputClosed) else Blocked;
      }
      var v := input[0];
      input := input[1..];
      var r := SetArgIn(mem, pc, relBase, m1, 1, v);
      if r.Err? { return Faulted(r.error); }
      pc := pc + 2;
      st := Running;
    }

    /** Opcode 4: send the first argument. */
    method ExecOutput(m1: Mode) returns (st: Status)
      modifies this
      ensures Output(old(State()), m1) == Transition(st, State())
    {
      var v := GetArgFrom(mem, pc, relBase, m1, 1);
      if v.Err? { return Faulted(v.error); }
      SendOutput(v.value);
      pc := pc + 2;
      st := Running;
    }

    /** Opcode 9: move the relative base by the first argument. */
    method ExecAdjustBase(m1: Mode) returns (st: Status)
      modifies this
      ensures AdjustBase(old(State()), m1) == Transition(st, State())
    {
      var a := GetArgFrom(mem, pc, relBase, m1, 1);
      if a.Err? { return Faulted(a.error); }
      relBase := relBase + a.value;
      pc := pc + 2;
      st := Running;
    }

    /** Exec / exec: one instruction. */
    method Exec() returns (st: Status)
      modifies this, mem
      ensures Step(old(State()), feed) == Transition(st, State())
    {
      var word := LoadFrom(mem, pc);
      if word.Err? { return Faulted(word.error); }
      var dec := DecodeOp(word.value, true);
      if dec.Err? { return Faulted(BadMode(dec.error)); }
      var ins := dec.value;
      if ins.op in {1, 2, 7, 8} {
        var r := BinaryOp(mem, pc, relBase, ins);
        if r.Err? { return Faulted(r.error); }
        pc := pc + 4;
        st := Running;
      } else if ins.op == 3 {
        st := ExecInput(ins.m1);
      } else if ins.op == 4 {
        st := ExecOutput(ins.m1);
      } else if ins.op == 5 || ins.op == 6 {
        var r := JumpOp(mem, pc, relBase, ins);
        if r.Err? { return Faulted(r.error); }
        pc := r.value;
        st := Running;
      } else if ins.op == 9 {
        st := ExecAdjustBase(ins.m1);
      } else if ins.op == 99 {
        pc := pc + 1;
        st := Halted;
      } else {
        st := Faulted(BadOpcode(pc, word.value));
      }
    }

    /** The Exec loop both Execute variants share. */
    method ExecLoop(fuel: nat) returns (st: Status)
      modifies this, mem
      ensures Run(old(State()), feed, fuel) == Transition(st, State())
    {
      var n := fuel;
      ghost var step := s => Step(s, feed);
      while n > 0
        invariant Run(old(State()), feed, fuel) == Run(State(), feed, n)
        decreases n
      {
        ghost var before := State();
        st := Exec();
        if st != Running {
          IterateStopped(step, before, n - 1);
          return;
        }
        IterateRunning(step, before, n - 1);
        n := n - 1;
      }
      st := Running;
    }

    /** Execute (Go): Exec until it halts, then close the output queue. */
    method Execute(fuel: nat) returns (st: Status)
      modifies this, mem
      ensures RunAndCloseOutput(old(State()), feed, fuel) == Transition(st, State())
    {
      st := ExecLoop(fuel);
      if st == Halted {
        outputClosed := true;
      }
    }

    /** execute (Rust): Exec until it halts or faults, then close the input
        receiver. */
    method ExecuteClosingInput(fuel: nat) returns (st: Status)
      requires feed == None
      modifies this, mem
      ensures RunAndCloseInput(old(State()), fuel) == Transition(st, State())
    {
      st := ExecLoop(fuel);
      if st == Halted || st.Faulted? {
        inputClosed := true;
      }
    }
  }
}
