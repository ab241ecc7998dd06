/** The parts of the Intcode machine that every re-implementation shares:
    the instruction decoder (opcode in the two low decimal digits, one
    addressing-mode digit per parameter above them), the faults, and
    memory access through an addressing mode. Memory is the machine's
    fixed-size slice, here a sequence; an index outside it is the Go/Rust
    index panic, modelled as an AddressFault. */
module IntcodeCore {
  import opened Num

  datatype Result<T, E> = Ok(value: T) | Err(error: E)

  /** Addressing modes: 0 position, 1 immediate, 2 relative. */
  datatype Mode = Pos | Imm | Rel

  /** Why an instruction could not complete. In Go every fault ends the
      process (log.Fatal or an index panic); the Rust versions return the
      first three as Err values and panic on the fourth. */
  datatype Fault =
    | BadMode(digit: int)
    | BadOpcode(pc: int, word: int)
    | ImmediateWrite
    | AddressFault(addr: int)
    | InputClosed

  /** An instruction word after decoding. */
  datatype Instr = Instr(op: int, m1: Mode, m2: Mode, m3: Mode)

  function ModeDigit(m: Mode): (d: nat)
    ensures d <= 2
  {
    match m
    case Pos => 0
    case Imm => 1
    case Rel => 2
  }

  /** paramMode / Mode::i_to_a. Without relative addressing (the day05 and
      day07 machines) only 0 and 1 are legal; with it 0, 1 and 2 are. Any
      other digit is returned as the error. */
  function ParamMode(d: int, relative: bool): (r: Result<Mode, int>)
    ensures r.Ok? <==> (d == 0 || d == 1 || (relative && d == 2))
    ensures r.Ok? ==> ModeDigit(r.value) == d
    ensures r.Err? ==> r.error == d
  {
    if d == 0 then Ok(Pos)
    else if d == 1 then Ok(Imm)
    else if d == 2 && relative then Ok(Rel)
    else Err(d)
  }

  /** The opcode field, the source's `code % 100` with the remainder taking
      the sign of the word (see OpAndModeFieldsTruncate). */
  function OpField(code: int): int {
    if code >= 0 then code % 100 else -((-code) % 100)
  }

  /** The k-th mode digit (k = 1, 2, 3) of an instruction word, the
      source's `code / 10^(k+1) % 10` with truncating division and
      remainder. */
  function ModeField(code: int, k: int): int
    requires 1 <= k <= 3
  {
    var p := if k == 1 then 100 else if k == 2 then 1000 else 10000;
    if code >= 0 then (code / p) % 10 else -(((-code) / p) % 10)
  }

  /** The two fields are exactly Go's and Rust's truncating `/` and `%`. */
  lemma OpAndModeFieldsTruncate(code: int)
    ensures OpField(code) == Rem(code, 100)
    ensures ModeField(code, 1) == Rem(Quot(code, 100), 10)
    ensures ModeField(code, 2) == Rem(Quot(code, 1000), 10)
    ensures ModeField(code, 3) == Rem(Quot(code, 10000), 10)
  {
    if code >= 0 {
      QuotRemNonNeg(code, 100);
      QuotRemNonNeg(code, 1000);
      QuotRemNonNeg(code, 10000);
      QuotRemNonNeg(code / 100, 10);
      QuotRemNonNeg(code / 1000, 10);
      QuotRemNonNeg(code / 10000, 10);
    } else {
      RemNeg(code, 100);
      FieldNeg(code, 100);
      FieldNeg(code, 1000);
      FieldNeg(code, 10000);
    }
  }

  lemma FieldNeg(code: int, p: int)
    requires code < 0 && p > 0
    ensures Rem(Quot(code, p), 10) == -(((-code) / p) % 10)
  {
    QuotNeg(code, p);
    var q := Quot(code, p);
    if q < 0 {
      RemNeg(q, 10);
    } else {
      assert q == 0;
    }
  }

  predicate LegalDigit(d: int, relative: bool) {
    d == 0 || d == 1 || (relative && d == 2)
  }

  /** decodeOp / decode_op: the opcode `code % 100` and the three parameter
      modes. All three digits are checked, even those the opcode does not
      use; the first illegal one is the error. */
  function DecodeOp(code: int, relative: bool): (r: Result<Instr, int>)
  {
    match ParamMode(ModeField(code, 1), relative)
    case Err(d) => Err(d)
    case Ok(m1) =>
      match ParamMode(ModeField(code, 2), relative)
      case Err(d) => Err(d)
      case Ok(m2) =>
        match ParamMode(ModeField(code, 3), relative)
        case Err(d) => Err(d)
        case Ok(m3) => Ok(Instr(OpField(code), m1, m2, m3))
  }

  /** A decoded word carries `code % 100` as its opcode and, in position k,
      the mode whose digit is `code / 10^(k+1) % 10`. */
  lemma DecodeFields(code: int, relative: bool)
    requires DecodeOp(code, relative).Ok?
    ensures DecodeOp(code, relative).value.op == OpField(code)
    ensures ModeDigit(DecodeOp(code, relative).value.m1) == ModeField(code, 1)
    ensures ModeDigit(DecodeOp(code, relative).value.m2) == ModeField(code, 2)
    ensures ModeDigit(DecodeOp(code, relative).value.m3) == ModeField(code, 3)
  {
  }

  /** Decoding fails exactly when one of the three digits is illegal, and it
      reports the first illegal digit. */
  lemma DecodeError(code: int, relative: bool)
    ensures DecodeOp(code, relative).Ok? <==>
      (LegalDigit(ModeField(code, 1), relative) && LegalDigit(ModeField(code, 2), relative)
       && LegalDigit(ModeField(code, 3), relative))
    ensures DecodeOp(code, relative).Err? ==>
      DecodeOp(code, relative).error ==
        if !LegalDigit(ModeField(code, 1), relative) then ModeField(code, 1)
        else if !LegalDigit(ModeField(code, 2), relative) then ModeField(code, 2)
        else ModeField(code, 3)
  {
  }

  /** The instruction word an assembler would write: opcode plus the mode
      digits in the hundreds, thousands and ten-thousands places. */
  function EncodeOp(ins: Instr): int {
    ins.op + 100 * ModeDigit(ins.m1) + 1000 * ModeDigit(ins.m2) + 10000 * ModeDigit(ins.m3)
  }

  predicate UsesRelative(ins: Instr) {
    ins.m1 == Rel || ins.m2 == Rel || ins.m3 == Rel
  }

  lemma DigitsOfEncoding(op: int, d1: int, d2: int, d3: int)
    requires 0 <= op < 100 && 0 <= d1 < 10 && 0 <= d2 < 10 && 0 <= d3 < 10
    ensures var c := op + 100 * d1 + 1000 * d2 + 10000 * d3;
      c % 100 == op && (c / 100) % 10 == d1 && (c / 1000) % 10 == d2 && (c / 10000) % 10 == d3
  {
    var c := op + 100 * d1 + 1000 * d2 + 10000 * d3;
    assert c == 100 * (d1 + 10 * d2 + 100 * d3) + op;
    assert c / 100 == d1 + 10 * d2 + 100 * d3;
    assert c == 1000 * (d2 + 10 * d3) + (op + 100 * d1);
    assert c / 1000 == d2 + 10 * d3;
    assert c == 10000 * d3 + (op + 100 * d1 + 1000 * d2);
    assert c / 10000 == d3;
  }

  /** Encoding then decoding recovers the opcode and all three modes, for
      every opcode below 100 and modes legal for the machine. */
  lemma DecodeEncode(ins: Instr, relative: bool)
    requires 0 <= ins.op < 100
    requires relative || !UsesRelative(ins)
    ensures DecodeOp(EncodeOp(ins), relative) == Ok(ins)
  {
    var c := EncodeOp(ins);
    DigitsOfEncoding(ins.op, ModeDigit(ins.m1), ModeDigit(ins.m2), ModeDigit(ins.m3));
    assert ModeField(c, 1) == ModeDigit(ins.m1);
    assert ModeField(c, 2) == ModeDigit(ins.m2);
    assert ModeField(c, 3) == ModeDigit(ins.m3);
    assert OpField(c) == ins.op;
    ModeDigitParses(ins.m1, relative);
    ModeDigitParses(ins.m2, relative);
    ModeDigitParses(ins.m3, relative);
  }

  lemma ModeDigitParses(m: Mode, relative: bool)
    requires relative || m != Rel
    ensures ParamMode(ModeDigit(m), relative) == Ok(m)
  {
  }

  /** Conversely a non-negative word below 100000 that decodes is exactly
      the encoding of what it decodes to. */
  lemma EncodeDecode(code: int, relative: bool)
    requires 0 <= code < 100000
    requires DecodeOp(code, relative).Ok?
    ensures EncodeOp(DecodeOp(code, relative).value) == code
  {
    var d1, d2, d3 := (code / 100) % 10, (code / 1000) % 10, code / 10000;
    assert code / 10000 < 10;
    assert code == code % 100 + 100 * (code / 100);
    assert code / 100 == d1 + 10 * (code / 1000) by {
      assert (code / 100) / 10 == code / 1000;
    }
    assert code / 1000 == d2 + 10 * d3 by {
      assert (code / 1000) / 10 == code / 10000;
    }
  }

  // ---------------------------------------------------------------------
  // Memory access

  /** Reading a cell: an index outside the memory is an address fault. */
  function Load(mem: seq<int>, addr: int): (r: Result<int, Fault>)
    ensures r.Ok? <==> 0 <= addr < |mem|
    ensures r.Ok? ==> r.value == mem[addr]
    ensures r.Err? ==> r.error == AddressFault(addr)
  {
    if 0 <= addr < |mem| then Ok(mem[addr]) else Err(AddressFault(addr))
  }

  /** Writing a cell: exactly that cell changes, the length never does. */
  function Store(mem: seq<int>, addr: int, v: int): (r: Result<seq<int>, Fault>)
    ensures r.Ok? <==> 0 <= addr < |mem|
    ensures r.Ok? ==> |r.value| == |mem| && r.value[addr] == v
    ensures r.Ok? ==> forall i :: 0 <= i < |mem| && i != addr ==> r.value[i] == mem[i]
    ensures r.Err? ==> r.error == AddressFault(addr)
  {
    if 0 <= addr < |mem| then Ok(mem[addr := v]) else Err(AddressFault(addr))
  }

  /** evalArg / eval_arg: position mode reads mem[arg], immediate mode is arg
      itself, relative mode reads mem[arg + relBase]. */
  function EvalArg(mem: seq<int>, relBase: int, mode: Mode, arg: int): (r: Result<int, Fault>)
    ensures mode == Imm ==> r == Ok(arg)
    ensures mode == Pos ==> r == Load(mem, arg)
    ensures mode == Rel ==> r == Load(mem, arg + relBase)
  {
    match mode
    case Pos => Load(mem, arg)
    case Imm => Ok(arg)
    case Rel => Load(mem, arg + relBase)
  }

  /** getArg / get_arg: evaluate the parameter stored at pc + offset. */
  function GetArg(mem: seq<int>, pc: int, relBase: int, mode: Mode, offset: int): Result<int, Fault> {
    match Load(mem, pc + offset)
    case Err(f) => Err(f)
    case Ok(arg) => EvalArg(mem, relBase, mode, arg)
  }

  /** The address a destination parameter names: mem[pc + offset] in
      position mode, that plus relBase in relative mode; an immediate-mode
      destination is a fault. */
  function DestAddr(mem: seq<int>, pc: int, relBase: int, mode: Mode, offset: int): (r: Result<int, Fault>)
    ensures mode == Imm && 0 <= pc + offset < |mem| ==> r == Err(ImmediateWrite)
  {
    match Load(mem, pc + offset)
    case Err(f) => Err(f)
    case Ok(arg) =>
      match mode
      case Pos => Ok(arg)
      case Imm => Err(ImmediateWrite)
      case Rel => Ok(arg + relBase)
  }

  /** setArg / set_arg: write v through a destination parameter. */
  function SetArg(mem: seq<int>, pc: int, relBase: int, mode: Mode, offset: int, v: int): (r: Result<seq<int>, Fault>)
    ensures r.Ok? ==> (DestAddr(mem, pc, relBase, mode, offset).Ok?
      && var a := DestAddr(mem, pc, relBase, mode, offset).value;
         0 <= a < |mem| && r.value == mem[a := v])
    ensures mode == Imm ==> r.Err?
  {
    match DestAddr(mem, pc, relBase, mode, offset)
    case Err(f) => Err(f)
    case Ok(a) => Store(mem, a, v)
  }

  // ---------------------------------------------------------------------
  // Arithmetic shared by every generation

  /** The value opcodes 1, 2, 7 and 8 store: sum, product, less-than flag,
      equals flag. */
  function Combine(op: int, a: int, b: int): (v: int)
    requires op in {1, 2, 7, 8}
    ensures op == 7 || op == 8 ==> (v == 0 || v == 1)
    ensures op == 7 ==> (v == 1 <==> a < b)
    ensures op == 8 ==> (v == 1 <==> a == b)
  {
    if op == 1 then a + b
    else if op == 2 then a * b
    else if op == 7 then (if a < b then 1 else 0)
    else (if a == b then 1 else 0)
  }

  /** Opcode 5 jumps on a nonzero first argument, opcode 6 on zero. */
  predicate JumpTaken(op: int, a: int)
    requires op == 5 || op == 6
  {
    if op == 5 then a != 0 else a == 0
  }

  // ---------------------------------------------------------------------
  // The same memory access on a machine's array, in place

  /** getMem: read a cell of the machine's memory. */
  method LoadFrom(mem: array<int>, addr: int) returns (r: Result<int, Fault>)
    ensures r == Load(mem[..], addr)
  {
    if 0 <= addr < mem.Length {
      r := Ok(mem[addr]);
    } else {
      r := Err(AddressFault(addr));
    }
  }

  /** evalArg on the machine's memory. */
  method EvalArgFrom(mem: array<int>, relBase: int, mode: Mode, arg: int) returns (r: Result<int, Fault>)
    ensures r == EvalArg(mem[..], relBase, mode, arg)
  {
    match mode
    case Imm => r := Ok(arg);
    case Pos => r := LoadFrom(mem, arg);
    case Rel => r := LoadFrom(mem, arg + relBase);
  }

  /** getArg on the machine's memory. */
  method GetArgFrom(mem: array<int>, pc: int, relBase: int, mode: Mode, offset: int) returns (r: Result<int, Fault>)
    ensures r == GetArg(mem[..], pc, relBase, mode, offset)
  {
    var arg := LoadFrom(mem, pc + offset);
    if arg.Err? {
      return Err(arg.error);
    }
    r := EvalArgFrom(mem, relBase, mode, arg.value);
  }

  /** setArg on the machine's memory: on success the array holds exactly
      what SetArg computes; on a fault it is untouched. */
  method SetArgIn(mem: array<int>, pc: int, relBase: int, mode: Mode, offset: int, v: int) returns (r: Result<(), Fault>)
    modifies mem
    ensures var w := SetArg(old(mem[..]), pc, relBase, mode, offset, v);
      if w.Ok? then r.Ok? && mem[..] == w.value else r == Err(w.error) && mem[..] == old(mem[..])
  {
    var arg := LoadFrom(mem, pc + offset);
    if arg.Err? {
      return Err(arg.error);
    }
    if mode == Imm {
      return Err(ImmediateWrite);
    }
    var addr := if mode == Rel then arg.value + relBase else arg.value;
    if !(0 <= addr < mem.Length) {
      return Err(AddressFault(addr));
    }
    mem[addr] := v;
    r := Ok(());
  }
}
