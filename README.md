# Intcode interpreter and wire geometry, modelled in Dafny

This project models two parts of an Advent of Code 2019 solutions repository.

- **The Intcode interpreter** (`shared/Intcode.py`). Memory is a list of integers, the
  "registers". An instruction word holds its opcode in the last two decimal digits and
  one addressing-mode digit per parameter above them. `Op.parse` decodes the instruction
  at the program counter. The operation's `execute` returns a shift of the program
  counter, or `None` on Halt. `Computer.next` applies one decode-and-execute step.
  `Computer.run` steps until a halt and returns all outputs. `Computer.run_until_output`
  stops at the first pending output and pops it, returning `None` if the machine halts
  first.
- **The wire geometry of day 3** (`shared/day3.py`). `Wire.read_instructions` turns moves
  like `R8` or `U5` into the list of grid points a wire passes through, one unit step at a
  time from the origin. A `Wire` keeps a dictionary from each point to the first step that
  reaches it. `manhattan` is the taxicab distance from the origin.

Files:

- `wrappers.dfy`: `Option` and `Result`.
- `pytext.dfy`: the Python built-ins the core relies on (`str.strip`, `str.split`, `int`
  and `str` on integers), restricted to ASCII. It also holds their round trips.
- `intcode_ops.dfy`: the opcode table, parameters, memory reads and writes, and `Op.parse`.
- `intcode.dfy`: the effect of each `execute`, the step `next`, and the two drivers.
  These are first written as pure functions of a `MachineState`. Then comes the `Computer`
  class, whose methods change its fields in place and are proved to agree with those
  functions.
- `wires.dfy`: the `Wire` class and `read_instructions`. Reference definitions (unit
  walks, the first step of a point, dictionary insertion order) state what they compute.

### What `shared/Intcode.py` supports

The interpreter has only modes 0 and 1: every mode other than 1 reads in position mode.
It has no relative base, no opcode 9, and no memory growth. Writes ignore the mode digit
of their target, and Output always reads in position mode. So a read or a write outside
memory is an error here (`InvalidAddress`).

## Model

| member | source | states |
|---|---|---|
| IntcodeOps.GetOp | shared/Intcode.py:8-19 | The table succeeds exactly on the codes 1-8 and 99, maps each to the operation with that code, and gives `UnknownOpcode(code)` for any other code. |
| IntcodeOps.GetOpCode | shared/Intcode.py:8-19 | Looking up an operation's own code gives that operation back. |
| IntcodeOps.MakeOp | shared/Intcode.py:29-33 | An instruction is built exactly when the parameter count equals the operation's `param_count`; otherwise `WrongArity(code, given)`. |
| IntcodeOps.ModeDigit | shared/Intcode.py:51 | A mode is one decimal digit, between 0 and 9. |
| IntcodeOps.Load | shared/Intcode.py:41 | A read succeeds exactly for an address inside memory and yields that cell; any other address, negative ones included, is `InvalidAddress`. |
| IntcodeOps.Store | shared/Intcode.py:72 | A write succeeds exactly inside memory; it keeps the length, sets the target cell and leaves every other cell alone. |
| IntcodeOps.ParamVal | shared/Intcode.py:39-41 | Mode 1 yields the raw value. Every other mode succeeds exactly when the raw value is an address inside memory, and then yields that cell; otherwise it is `InvalidAddress`. |
| IntcodeOps.Parse | shared/Intcode.py:43-54 | Decoding fails for a `pos` outside memory, fails with `UnknownOpcode` for an unknown `word % 100`, and fails with `WrongArity` exactly when memory ends before all parameters. On success, parameter `i` is the cell at `pos + 1 + i` with digit `i + 2` of the word as its mode. |
| IntcodeOps.AssembledWord | shared/Intcode.py:46-51 | An instruction word built from an opcode and decimal mode digits gives back that opcode as `word % 100` and each digit as its parameter's mode. |
| IntcodeOps.ParseAssembled | shared/Intcode.py:43-54 | Decoding inverts encoding: an encoded instruction placed anywhere in memory decodes to itself. |
| Intcode.ParseAll | shared/Intcode.py:263 | The list comprehension succeeds exactly when every token is an integer, with one value per token, each the value of its token. |
| Intcode.ParseRegisters | shared/Intcode.py:261-263 | A parsed program has one cell more than the text has commas. |
| Intcode.ParseFormatRegisters | shared/Intcode.py:261-263 | Parsing a non-empty program written out as comma-separated integers gives the program back. |
| Intcode.ExecStop | shared/Intcode.py:104-105 | Only Halt's `execute` returns `None`, and it changes nothing. |
| Intcode.StepHalt | shared/Intcode.py:229-232 | `next` reports a halt exactly when the word at `pos` decodes to Halt, and then the state is unchanged. |
| Intcode.StepWrite | shared/Intcode.py:69-73 | For Add, Mult, LessThan and Equals: a failed parameter read fails the step unchanged. The result goes to the cell the third raw parameter names, whatever its mode. `pos` moves by 4, and reaching the end of memory is `InvalidState`. |
| Intcode.StepJump | shared/Intcode.py:151-171 | A conditional jump never touches memory or the queues. Taken, `pos` becomes the second parameter's value; not taken, `pos` moves by 3. A landing place at or past the end is `InvalidState`. |
| Intcode.StepInput | shared/Intcode.py:119-121 | Input fails with `NoInput` on an empty queue. Otherwise it pops the front value and writes it to the cell the raw parameter names. A bad target still pops the value before failing. |
| Intcode.StepOutput | shared/Intcode.py:135-137 | Output appends the cell the raw parameter names, in position mode whatever its mode digit, and moves `pos` by 2. |
| Intcode.ExecFrame | shared/Intcode.py:69-205 | Executing any instruction keeps memory's size, pops at most the front input, and appends at most one output. |
| Intcode.StepFrame | shared/Intcode.py:229-236 | The same holds for a whole `next` step. |
| Intcode.RunHistory | shared/Intcode.py:238-242 | `run` from a `pos` at or past the end returns the outputs at once. Every run keeps memory's size, only pops inputs from the front, and only appends outputs. A finished run returns the whole output queue. |
| Intcode.UntilOutputPending | shared/Intcode.py:250-253 | With `pos` inside memory and an output already pending, `run_until_output` pops and returns it without executing anything. |
| Intcode.UntilOutputPastEnd | shared/Intcode.py:250-255 | With `pos` at or past the end, `run_until_output` returns `None` at once and leaves any pending output queued. |
| Intcode.UntilOutputHaltState | shared/Intcode.py:250-255 | A `None` result leaves the machine either untouched past the end of memory, or on a Halt instruction with no output pending. |
| Intcode.HaltIsFinal | shared/Intcode.py:244-255 | After `None`, every further call returns `None` and changes nothing. |
| Intcode.UntilOutputIsFirstOutput | shared/Intcode.py:238-255 | From an empty output queue, the value `run_until_output` returns is the first output a finished `run` returns. |
| Intcode.Computer.constructor | shared/Intcode.py:214-218 | A new machine holds the given memory, `pos` and inputs, with no outputs. |
| Intcode.Computer.FromString | shared/Intcode.py:257-259 | Text that is not a comma-separated list of integers gives no machine. Otherwise a fresh machine holds the parsed program at `pos` 0 with the given inputs. |
| Intcode.Computer.RequestInput | shared/Intcode.py:220-224 | Pops and returns the front input and changes nothing else; an empty queue is `NoInput` and changes nothing. |
| Intcode.Computer.Output | shared/Intcode.py:226-227 | Appends the value to the output queue and changes nothing else. |
| Intcode.Computer.Execute | shared/Intcode.py:69-205 | The new fields and the returned shift are exactly the effect `Exec` gives the old state. |
| Intcode.Computer.Next | shared/Intcode.py:229-236 | The new fields and the status are exactly the `Step` of the old state. |
| Intcode.Computer.Run | shared/Intcode.py:238-242 | The new fields and the result are exactly `RunFrom` of the old state, to which `RunHistory` applies. |
| Intcode.Computer.RunUntilOutput | shared/Intcode.py:244-255 | The new fields and the result are exactly `UntilOutput` of the old state. |
| PyText.ParseInt | shared/Intcode.py:263 | `int` succeeds exactly on optional whitespace, an optional sign, and one or more digits. |
| PyText.ParseFormat | shared/Intcode.py:263 | `int(str(n)) == n` for every integer. |
| PyText.SplitCount | shared/Intcode.py:263 | `split(",")` yields one piece more than there are commas. |
| PyText.JoinSplit | shared/Intcode.py:263 | Joining the pieces of a split with the separator gives back the string. |
| PyText.SplitJoin | shared/Intcode.py:263 | Splitting a join of separator-free pieces gives back the pieces. |
| Wires.Walk | shared/day3.py:35-42 | A walk visits one point per unit step. |
| Wires.WalkIsUnitPath | shared/day3.py:35-42 | Every step of a walk of recognised directions moves one unit along one axis. |
| Wires.Segment | shared/day3.py:35-42 | A move appends as many points as its distance when the direction is D, U, L or R and the distance is positive, and none otherwise. |
| Wires.SegmentPoints | shared/day3.py:35-42 | Point `k` of a segment is `k + 1` unit steps from the start, in the move's direction. |
| Wires.SegmentIsWalk | shared/day3.py:35-42 | Each of the four comprehensions is the unit walk of the move. |
| Wires.ParseFormatMove | shared/day3.py:33-34 | Decoding an instruction written as its letter followed by its distance gives the move back. |
| Wires.DecodeAt | shared/day3.py:32-34 | Each instruction is decoded on its own. |
| Wires.Draw | shared/day3.py:30-43 | A successful draw of at least one move is not empty, and a failure names an instruction of the list. |
| Wires.DrawSucceeds | shared/day3.py:28-43 | Reading succeeds exactly when every instruction decodes and the first one, if any, appends at least one point. |
| Wires.DrawFailsAt | shared/day3.py:32-43 | The failure reported is that of the first failing instruction: everything before it draws, and the list cut just after it fails the same way. |
| Wires.DrawStopsAt | shared/day3.py:32-43 | Once an instruction fails, instructions after it change nothing. |
| Wires.DrawNext | shared/day3.py:32-43 | With the first `j` instructions drawn, instruction `j` either fails the whole list with its fault, fails it with `NoPosition` when nothing has been appended yet, or appends its segment. |
| Wires.DrawIsWalk | shared/day3.py:28-44 | The points read are the unit walk from the origin of all the moves, each move continuing from where the last one ended; there are as many points as the moves' total distance. |
| Wires.CollectPoints | shared/day3.py:30-43 | The loop produces exactly `Draw` of the decoded instructions. |
| Wires.ReadInstructions | shared/day3.py:28-44 | A failed read reports that failure. Otherwise the result is a fresh, consistent wire over exactly the points read. |
| Wires.FirstStep | shared/day3.py:10-15 | The 1-based first step of a point holds the point, and no earlier step does. |
| Wires.StepMapHas | shared/day3.py:11-15 | The dictionary's keys are exactly the listed points. |
| Wires.StepMapIsFirstStep | shared/day3.py:10-15 | Each point is stored with the first step that reaches it. |
| Wires.KeyOrderHas | shared/day3.py:14-15 | The dictionary iterates over exactly the listed points. |
| Wires.KeyOrderDistinct | shared/day3.py:14-15 | The dictionary iterates over each point once. |
| Wires.KeyOrderByFirstStep | shared/day3.py:14-15 | The dictionary iterates in order of first step. |
| Wires.Wire.constructor | shared/day3.py:7-17 | The constructor keeps the points, builds the first-step dictionary and its key order, and counts every point, repeats included. |
| Wires.Wire.OnWirePath | shared/day3.py:19-20 | A point is on the path exactly when the wire lists it. |
| Wires.Wire.Intersects | shared/day3.py:22-23 | Two wires intersect exactly when they share a point. |
| Wires.Wire.GetIntersections | shared/day3.py:25-26 | The intersections are the shared points, each once, in the order of this wire's dictionary: ordered by the step at which this wire first reaches them. |
| Wires.OnPath | shared/day3.py:26 | The filter keeps exactly the given keys on the other wire's path, without repeats. |
| Wires.OnPathOrder | shared/day3.py:26 | The filter keeps the order of the keys: keys ordered by first step along a list of points stay ordered after filtering. |
| Wires.IntersectsIffIntersections | shared/day3.py:22-26 | `intersects` holds exactly when `get_intersections` is not empty, and it is symmetric. |
| Wires.WireFirstSteps | shared/day3.py:10-17 | In a consistent wire, each stored step lies between 1 and the total length, holds the point, and is its first occurrence. |
| Wires.Manhattan | shared/day3.py:54-55 | The distance is zero exactly at the origin. |

## Left out

- Intcode.Computer.RequestInput: the interactive fallback to `input()` on an empty queue is I/O. An empty queue is the `NoInput` error instead.
- Intcode.RunFrom: a program may loop forever, so `run` is bounded by a fuel count of `next` calls. Running out of fuel is the `OutOfFuel` outcome, which the source does not have.
- Intcode.UntilOutput: bounded by fuel in the same way.
- Intcode.Computer.Run: bounded by fuel, as `RunFrom` is.
- Intcode.Computer.RunUntilOutput: bounded by fuel, as `UntilOutput` is.
- Negative memory indices: Python would wrap around to the end of the list. Here every index outside memory is `InvalidAddress`, on reads, on writes, and when decoding at `pos`.
- Exceptions are error values. Their message text is not modelled.
- Mode extraction: `math.floor(full_code / 10 ** (i + 2))` goes through floating point. It is modelled as exact integer floor division, which differs only for words too large for a double to hold exactly.
- Aliasing: the source shares three lists with its callers. The `registers` list given to `Computer` is kept as it is, so every write changes the caller's list. The `inputs` list is popped in place. `run` returns the live output list, which later `run_until_output` pops change. The model copies values in and out, so none of this sharing is captured.
- PyText.ParseInt: Python's `int` also accepts underscores between digits and non-ASCII digits and whitespace; only the ASCII forms are modelled.
- `load_wires` reads a file, so it is not part of this model.
- Wires.Wire.constructor: the source accepts any iterable. Its `list(coords)` followed by a second pass consumes a one-shot iterator before the loop. The model takes a sequence, which is what `read_instructions` passes.
- Wire: the optional `corners` argument is unused by the source and is not modelled.
- Wires.ReadInstructions: decodes all instructions before drawing instead of one per loop turn. Decoding has no side effects, and `DrawFailsAt` shows that the first failure is the one reported, so the result is the same.
- Day 3's part 1 and part 2 drivers are not part of this model.
