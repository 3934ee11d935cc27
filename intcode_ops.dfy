/**
 * The Intcode instruction decoder of shared/Intcode.py: the closed opcode table, decoded
 * parameters (raw value and mode digit) and the decode step `Op.parse`.
 *
 * Python's `%` and floor division by a positive number agree with Dafny's Euclidean `%`
 * and `/`, so `full_code % 100` and `(full_code / 10^k) % 10` are exact for negative words too.
 */
module IntcodeOps {
  import opened Wrappers

  /** Everything the interpreter can raise, as a value. */
  datatype Error =
    | InvalidAddress(address: int)        // a memory index outside 0 .. len(registers) - 1
    | UnknownOpcode(opcode: int)          // the KeyError of the dispatch table
    | WrongArity(opcode: int, given: nat) // the arity check of Op.__init__
    | NoInput                             // an Input instruction with an empty queue
    | InvalidState(pos: int)              // next(): the program counter ran past the end

  datatype Opcode = Add | Mult | Input | Output | JumpIfTrue | JumpIfFalse | LessThan | Equals | Halt

  /** The numeric code of each operation (the constructor argument of each Op subclass). */
  function Code(o: Opcode): int {
    match o
    case Add => 1
    case Mult => 2
    case Input => 3
    case Output => 4
    case JumpIfTrue => 5
    case JumpIfFalse => 6
    case LessThan => 7
    case Equals => 8
    case Halt => 99
  }

  /** The static `param_count()` of each operation. */
  function ParamCount(o: Opcode): nat {
    match o
    case Add | Mult | LessThan | Equals => 3
    case JumpIfTrue | JumpIfFalse => 2
    case Input | Output => 1
    case Halt => 0
  }

  /** `get_op`: the closed dispatch table; any other code is an error. */
  function GetOp(code: int): (r: Result<Opcode, Error>)
    ensures r.Ok? <==> code in {1, 2, 3, 4, 5, 6, 7, 8, 99}
    ensures r.Ok? ==> Code(r.value) == code
    ensures r.Err? ==> r.error == UnknownOpcode(code)
  {
    match code
    case 1 => Ok(Add)
    case 2 => Ok(Mult)
    case 3 => Ok(Input)
    case 4 => Ok(Output)
    case 5 => Ok(JumpIfTrue)
    case 6 => Ok(JumpIfFalse)
    case 7 => Ok(LessThan)
    case 8 => Ok(Equals)
    case 99 => Ok(Halt)
    case _ => Err(UnknownOpcode(code))
  }

  /** The table and `Code` are mutually inverse. */
  lemma GetOpCode(o: Opcode)
    ensures GetOp(Code(o)) == Ok(o)
  {
  }

  /** A decoded parameter: the raw cell value and its mode digit. */
  datatype Param = Param(raw: int, mode: int)

  /** A decoded instruction: its operation and its parameters. */
  datatype Op = Op(opcode: Opcode, params: seq<Param>)

  /** An instruction with exactly as many parameters as its operation takes. */
  predicate WellFormed(op: Op) {
    |op.params| == ParamCount(op.opcode)
  }

  /** `Op.__init__`: refuses a parameter list of the wrong length. */
  function MakeOp(o: Opcode, params: seq<Param>): (r: Result<Op, Error>)
    ensures r.Ok? <==> |params| == ParamCount(o)
    ensures r.Ok? ==> r.value.opcode == o && r.value.params == params && WellFormed(r.value)
    ensures r.Err? ==> r.error == WrongArity(Code(o), |params|)
  {
    if |params| == ParamCount(o) then Ok(Op(o, params)) else Err(WrongArity(Code(o), |params|))
  }

  function Pow10(k: nat): (r: nat)
    ensures r >= 1
  {
    if k == 0 then 1 else 10 * Pow10(k - 1)
  }

  /** The mode of parameter `i`: decimal digit `i + 2` of the instruction word. */
  function ModeDigit(full: int, i: nat): (m: int)
    ensures 0 <= m < 10
  {
    (full / Pow10(i + 2)) % 10
  }

  /** Reading one memory cell; an index outside memory (negative included) is an error. */
  function Load(registers: seq<int>, address: int): (r: Result<int, Error>)
    ensures r.Ok? <==> 0 <= address < |registers|
    ensures r.Ok? ==> r.value == registers[address]
    ensures r.Err? ==> r.error == InvalidAddress(address)
  {
    if 0 <= address < |registers| then Ok(registers[address]) else Err(InvalidAddress(address))
  }

  /** Writing one memory cell; memory never grows, so an index outside it is an error. */
  function Store(registers: seq<int>, address: int, value: int): (r: Result<seq<int>, Error>)
    ensures r.Ok? <==> 0 <= address < |registers|
    ensures r.Ok? ==> |r.value| == |registers| && r.value[address] == value
    ensures r.Ok? ==> forall k :: 0 <= k < |registers| && k != address ==> r.value[k] == registers[k]
    ensures r.Err? ==> r.error == InvalidAddress(address)
  {
    if 0 <= address < |registers| then Ok(registers[address := value]) else Err(InvalidAddress(address))
  }

  /** `Op.param_val`: mode 1 is immediate; every other mode reads the cell the raw value names. */
  function ParamVal(op: Op, num: nat, registers: seq<int>): (r: Result<int, Error>)
    requires num < |op.params|
    ensures op.params[num].mode == 1 ==> r == Ok(op.params[num].raw)
    ensures op.params[num].mode != 1 ==>
      && (r.Ok? <==> 0 <= op.params[num].raw < |registers|)
      && (r.Ok? ==> r.value == registers[op.params[num].raw])
      && (r.Err? ==> r.error == InvalidAddress(op.params[num].raw))
  {
    var p := op.params[num];
    if p.mode == 1 then Ok(p.raw) else Load(registers, p.raw)
  }

  /**
   * `Op.parse`: decodes the instruction at `pos` from the current memory. The parameters
   * are the cells after `pos`, cut short at the end of memory as a Python slice is, so a
   * short tail fails the arity check.
   */
  function Parse(registers: seq<int>, pos: int): (r: Result<Op, Error>)
    ensures !(0 <= pos < |registers|) ==> r == Err(InvalidAddress(pos))
    ensures 0 <= pos < |registers| && GetOp(registers[pos] % 100).Err? ==>
      r == Err(UnknownOpcode(registers[pos] % 100))
    ensures 0 <= pos < |registers| && GetOp(registers[pos] % 100).Ok? ==>
      var o := GetOp(registers[pos] % 100).value;
      && (r.Ok? <==> pos + ParamCount(o) < |registers|)
      && (r.Err? ==> r.error == WrongArity(Code(o), |registers| - pos - 1))
    ensures r.Ok? ==>
      && 0 <= pos && pos + |r.value.params| < |registers|
      && WellFormed(r.value)
      && Code(r.value.opcode) == registers[pos] % 100
      && forall i :: 0 <= i < |r.value.params| ==>
           r.value.params[i] == Param(registers[pos + 1 + i], ModeDigit(registers[pos], i))
  {
    if !(0 <= pos < |registers|) then Err(InvalidAddress(pos))
    else
      var full := registers[pos];
      match GetOp(full % 100)
      case Err(e) => Err(e)
      case Ok(o) =>
        var end := if pos + 1 + ParamCount(o) <= |registers| then pos + 1 + ParamCount(o) else |registers|;
        var raws := registers[pos + 1..end];
        MakeOp(o, seq(|raws|, i requires 0 <= i < |raws| => Param(raws[i], ModeDigit(full, i))))
  }

  /** The mode digits of a parameter list as one number, parameter 0 in the units place. */
  function ModeWord(params: seq<Param>): int {
    if params == [] then 0 else params[0].mode + 10 * ModeWord(params[1..])
  }

  predicate DecimalModes(op: Op) {
    forall i :: 0 <= i < |op.params| ==> 0 <= op.params[i].mode <= 9
  }

  /** The memory cells that encode an instruction: the instruction word, then the raw parameters. */
  function Assemble(op: Op): (cells: seq<int>)
    requires WellFormed(op)
    ensures |cells| == 1 + ParamCount(op.opcode)
  {
    [Code(op.opcode) + 100 * ModeWord(op.params)] +
      seq(|op.params|, i requires 0 <= i < |op.params| => op.params[i].raw)
  }

  /** Digit arithmetic for an instruction word with up to three mode digits. */
  lemma WordDigits(c: int, m0: int, m1: int, m2: int)
    requires 0 <= c < 100 && 0 <= m0 <= 9 && 0 <= m1 <= 9 && 0 <= m2 <= 9
    ensures var w := c + 100 * (m0 + 10 * (m1 + 10 * m2));
      w % 100 == c && (w / 100) % 10 == m0 && (w / 1000) % 10 == m1 && (w / 10000) % 10 == m2
  {
    var w := c + 100 * (m0 + 10 * (m1 + 10 * m2));
    assert w == c + 100 * m0 + 1000 * m1 + 10000 * m2;
    assert w / 100 == m0 + 10 * m1 + 100 * m2;
    assert w / 1000 == m1 + 10 * m2;
    assert w / 10000 == m2;
  }

  /** The instruction word of an assembled instruction carries its opcode and every mode digit. */
  lemma AssembledWord(op: Op)
    requires WellFormed(op) && DecimalModes(op)
    ensures Assemble(op)[0] % 100 == Code(op.opcode)
    ensures forall i :: 0 <= i < |op.params| ==> ModeDigit(Assemble(op)[0], i) == op.params[i].mode
  {
    var ps := op.params;
    var m0 := if |ps| > 0 then ps[0].mode else 0;
    var m1 := if |ps| > 1 then ps[1].mode else 0;
    var m2 := if |ps| > 2 then ps[2].mode else 0;
    assert ModeWord(ps) == m0 + 10 * (m1 + 10 * m2) by {
      if |ps| == 1 {
        assert ps[1..] == [];
      } else if |ps| == 2 {
        assert ps[1..] == [ps[1]] && ps[1..][1..] == [];
      } else if |ps| == 3 {
        assert ps[1..][1..][1..] == [];
        assert ModeWord(ps[1..][1..]) == m2;
        assert ModeWord(ps[1..]) == m1 + 10 * m2;
      }
    }
    WordDigits(Code(op.opcode), m0, m1, m2);
    assert Pow10(2) == 100 && Pow10(3) == 1000 && Pow10(4) == 10000;
  }

  /** Decoding inverts assembling: an assembled instruction placed at `pos` decodes to itself. */
  lemma ParseAssembled(registers: seq<int>, pos: int, op: Op)
    requires WellFormed(op) && DecimalModes(op)
    requires 0 <= pos && pos + |Assemble(op)| <= |registers|
    requires registers[pos..pos + |Assemble(op)|] == Assemble(op)
    ensures Parse(registers, pos) == Ok(op)
  {
    var cells := Assemble(op);
    assert registers[pos] == cells[0];
    AssembledWord(op);
    GetOpCode(op.opcode);
    var r := Parse(registers, pos);
    assert r.Ok?;
    assert r.value.opcode == op.opcode;
    forall i | 0 <= i < |op.params|
      ensures r.value.params[i] == op.params[i]
    {
      assert registers[pos + 1 + i] == cells[1 + i];
    }
    assert r.value.params == op.params;
  }
}
