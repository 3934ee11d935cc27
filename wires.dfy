/**
 * The wire geometry of shared/day3.py: a wire is the list of grid points it passes through,
 * one unit step at a time from the origin, together with the step at which each point is
 * first reached. `Wire.read_instructions` turns moves such as `R8` or `U5` into that list.
 */
module Wires {
  import opened Wrappers
  import PyText

  /** A grid point `(x, y)`. */
  type Coord = (int, int)

  const Origin: Coord := (0, 0)

  /*
   * Reference geometry: unit moves and walks
   */

  predicate Recognised(direction: char) {
    direction == 'D' || direction == 'U' || direction == 'L' || direction == 'R'
  }

  /** The unit step of a direction: D raises y, U lowers y, L lowers x, R raises x. */
  function Delta(direction: char): Coord {
    match direction
    case 'D' => (0, 1)
    case 'U' => (0, -1)
    case 'L' => (-1, 0)
    case 'R' => (1, 0)
    case _ => (0, 0)
  }

  function Add(p: Coord, d: Coord): Coord {
    (p.0 + d.0, p.1 + d.1)
  }

  /** Two points one unit apart along a single axis. */
  predicate Adjacent(p: Coord, q: Coord) {
    (p.0 == q.0 && (q.1 == p.1 + 1 || q.1 == p.1 - 1)) || (p.1 == q.1 && (q.0 == p.0 + 1 || q.0 == p.0 - 1))
  }

  /** The points visited by taking the unit steps `us` from `p`, `p` itself excluded. */
  function Walk(p: Coord, us: seq<char>): (r: seq<Coord>)
    ensures |r| == |us|
    decreases us
  {
    if us == [] then [] else [Add(p, Delta(us[0]))] + Walk(Add(p, Delta(us[0])), us[1..])
  }

  /** Where the walk `us` from `p` ends. */
  function End(p: Coord, us: seq<char>): Coord
    decreases us
  {
    if us == [] then p else End(Add(p, Delta(us[0])), us[1..])
  }

  /** A walk of recognised directions moves one unit along one axis at every step. */
  lemma {:induction false} WalkIsUnitPath(p: Coord, us: seq<char>)
    requires forall k :: 0 <= k < |us| ==> Recognised(us[k])
    ensures var w := Walk(p, us);
      && (w != [] ==> Adjacent(p, w[0]))
      && forall k :: 0 <= k < |w| - 1 ==> Adjacent(w[k], w[k + 1])
    decreases us
  {
    if us != [] {
      var q := Add(p, Delta(us[0]));
      WalkIsUnitPath(q, us[1..]);
      var w := Walk(p, us);
      assert w == [q] + Walk(q, us[1..]);
      forall k | 0 <= k < |w| - 1
        ensures Adjacent(w[k], w[k + 1])
      {
        if k > 0 {
          assert w[k] == Walk(q, us[1..])[k - 1];
        }
      }
    }
  }

  /** Walking `a` then `b` is walking `a + b`; the second part starts where the first ends. */
  lemma {:induction false} WalkAppend(p: Coord, a: seq<char>, b: seq<char>)
    ensures Walk(p, a + b) == Walk(p, a) + Walk(End(p, a), b)
    ensures End(p, a + b) == End(End(p, a), b)
    decreases a
  {
    if a != [] {
      var q := Add(p, Delta(a[0]));
      WalkAppend(q, a[1..], b);
      assert (a + b)[0] == a[0] && (a + b)[1..] == a[1..] + b;
    } else {
      assert a + b == b;
    }
  }

  /** A non-empty walk ends at its last point. */
  lemma {:induction false} WalkLast(p: Coord, us: seq<char>)
    requires us != []
    ensures Walk(p, us)[|us| - 1] == End(p, us)
    decreases us
  {
    var q := Add(p, Delta(us[0]));
    if |us| > 1 {
      WalkLast(q, us[1..]);
      assert Walk(p, us)[|us| - 1] == Walk(q, us[1..])[|us| - 2];
    }
  }

  /** `n` copies of one direction. */
  function Repeat(direction: char, n: nat): (r: seq<char>)
    ensures |r| == n && forall k :: 0 <= k < n ==> r[k] == direction
  {
    if n == 0 then [] else [direction] + Repeat(direction, n - 1)
  }

  /*
   * Moves and the segments they draw
   */

  /** One instruction: a direction letter and a distance. */
  datatype Move = Move(direction: char, distance: int)

  /** How many points a move appends: its distance, if its direction is known and the distance positive. */
  function Length(m: Move): nat {
    if Recognised(m.direction) && m.distance > 0 then m.distance else 0
  }

  /**
   * The points one move appends from `p`, as the four list comprehensions build them over
   * `range`: a non-positive distance or an unknown direction gives an empty range.
   */
  function Segment(p: Coord, m: Move): (r: seq<Coord>)
    ensures |r| == Length(m)
  {
    var n := if m.distance > 0 then m.distance else 0;
    if m.direction == 'D' then seq(n, k => (p.0, p.1 + k + 1))
    else if m.direction == 'U' then seq(n, k => (p.0, p.1 - k - 1))
    else if m.direction == 'L' then seq(n, k => (p.0 - k - 1, p.1))
    else if m.direction == 'R' then seq(n, k => (p.0 + k + 1, p.1))
    else []
  }

  /** Point `k` of a segment is `k + 1` unit steps from where the move starts. */
  lemma SegmentPoints(p: Coord, m: Move)
    ensures var s := Segment(p, m); var d := Delta(m.direction);
      forall k :: 0 <= k < |s| ==> s[k] == (p.0 + (k + 1) * d.0, p.1 + (k + 1) * d.1)
  {
  }

  /** A segment is the walk of `Length(m)` unit steps in the move's direction. */
  lemma {:induction false} SegmentIsWalk(p: Coord, m: Move)
    ensures Segment(p, m) == Walk(p, Repeat(m.direction, Length(m)))
  {
    var n := Length(m);
    var d := Delta(m.direction);
    RepeatWalk(p, m.direction, n);
    SegmentPoints(p, m);
    var s := Segment(p, m);
    var w := Walk(p, Repeat(m.direction, n));
    assert |s| == |w|;
    forall k | 0 <= k < n
      ensures s[k] == w[k]
    {
      assert w[k] == (p.0 + (k + 1) * d.0, p.1 + (k + 1) * d.1);
    }
  }

  lemma {:induction false} RepeatWalk(p: Coord, direction: char, n: nat)
    ensures forall k :: 0 <= k < n ==>
      Walk(p, Repeat(direction, n))[k] == (p.0 + (k + 1) * Delta(direction).0, p.1 + (k + 1) * Delta(direction).1)
    decreases n
  {
    if n > 0 {
      var d := Delta(direction);
      var q := Add(p, d);
      RepeatWalk(q, direction, n - 1);
      var w := Walk(p, Repeat(direction, n));
      assert Repeat(direction, n)[1..] == Repeat(direction, n - 1);
      assert w == [q] + Walk(q, Repeat(direction, n - 1));
      forall k | 0 <= k < n
        ensures w[k] == (p.0 + (k + 1) * d.0, p.1 + (k + 1) * d.1)
      {
        if k > 0 {
          assert w[k] == (q.0 + k * d.0, q.1 + k * d.1);
        }
      }
    }
  }

  /** The unit steps of a list of moves, in order. */
  function Units(ms: seq<Move>): (r: seq<char>)
    ensures forall k :: 0 <= k < |r| ==> Recognised(r[k])
  {
    if ms == [] then []
    else
      var m := ms[|ms| - 1];
      Units(ms[..|ms| - 1]) + Repeat(m.direction, Length(m))
  }

  /** The sum of the lengths of the moves. */
  function TotalDistance(ms: seq<Move>): nat {
    if ms == [] then 0 else Length(ms[0]) + TotalDistance(ms[1..])
  }

  lemma {:induction false} TotalDistanceSnoc(ms: seq<Move>, m: Move)
    ensures TotalDistance(ms + [m]) == TotalDistance(ms) + Length(m)
  {
    if ms != [] {
      TotalDistanceSnoc(ms[1..], m);
      assert (ms + [m])[1..] == ms[1..] + [m];
    }
  }

  /** There is one unit step per point of distance of the recognised moves. */
  lemma {:induction false} UnitsLength(ms: seq<Move>)
    ensures |Units(ms)| == TotalDistance(ms)
  {
    if ms != [] {
      var init := ms[..|ms| - 1];
      UnitsLength(init);
      TotalDistanceSnoc(init, ms[|ms| - 1]);
      assert init + [ms[|ms| - 1]] == ms;
    }
  }

  /*
   * Reading instructions
   */

  datatype Fault = EmptyInstruction | BadDistance | NoPosition

  /**
   * Why `read_instructions` raises, and at which instruction: an empty string has no
   * direction letter (IndexError), the rest is not an integer (ValueError), or nothing has
   * been appended when the new position is taken from the end of the list (IndexError).
   */
  datatype ReadError = ReadError(index: nat, fault: Fault)

  /** `i[0]` and `int(i[1:])`. */
  function ParseMove(i: string): Result<Move, Fault>
  {
    if i == [] then Err(EmptyInstruction)
    else
      match PyText.ParseInt(i[1..])
      case None => Err(BadDistance)
      case Some(d) => Ok(Move(i[0], d))
  }

  /** An instruction as the puzzle input writes it: the direction letter, then the distance. */
  function FormatMove(m: Move): string {
    [m.direction] + PyText.FormatInt(m.distance)
  }

  /** Decoding inverts formatting. */
  lemma ParseFormatMove(m: Move)
    ensures ParseMove(FormatMove(m)) == Ok(m)
  {
    assert FormatMove(m)[1..] == PyText.FormatInt(m.distance);
    PyText.ParseFormat(m.distance);
  }

  /** Each instruction decoded on its own. */
  function Decode(instructions: seq<string>): (ps: seq<Result<Move, Fault>>)
    ensures |ps| == |instructions|
  {
    if instructions == [] then [] else [ParseMove(instructions[0])] + Decode(instructions[1..])
  }

  lemma {:induction false} DecodeAt(instructions: seq<string>, k: nat)
    requires k < |instructions|
    ensures Decode(instructions)[k] == ParseMove(instructions[k])
  {
    if k > 0 {
      DecodeAt(instructions[1..], k - 1);
    }
  }

  /** The position a move starts from: the last point appended so far, or the origin. */
  function Position(cs: seq<Coord>): Coord {
    if cs == [] then Origin else cs[|cs| - 1]
  }

  /**
   * The points `read_instructions` collects from the decoded instructions, taken one at a
   * time from the front (the last one is peeled off here): the first failure, of decoding
   * or of finding a position, is the one reported.
   */
  function Draw(ps: seq<Result<Move, Fault>>): (r: Result<seq<Coord>, ReadError>)
    ensures r.Ok? && ps != [] ==> r.value != []
    ensures r.Err? ==> r.error.index < |ps|
  {
    if ps == [] then Ok([])
    else
      var j := |ps| - 1;
      match Draw(ps[..j])
      case Err(e) => Err(e)
      case Ok(cs) =>
        match ps[j]
        case Err(f) => Err(ReadError(j, f))
        case Ok(m) =>
          var next := cs + Segment(Position(cs), m);
          if next == [] then Err(ReadError(j, NoPosition)) else Ok(next)
  }

  /** `read_instructions` on a list of strings. */
  function Read(instructions: seq<string>): Result<seq<Coord>, ReadError> {
    Draw(Decode(instructions))
  }

  /** Every instruction decodes to a move. */
  predicate AllOk(ps: seq<Result<Move, Fault>>) {
    forall k :: 0 <= k < |ps| ==> ps[k].Ok?
  }

  function Moves(ps: seq<Result<Move, Fault>>): (ms: seq<Move>)
    requires AllOk(ps)
    ensures |ms| == |ps|
    ensures forall k :: 0 <= k < |ms| ==> ms[k] == ps[k].value
  {
    seq(|ps|, k requires 0 <= k < |ps| => ps[k].value)
  }

  /**
   * Drawing succeeds exactly when every instruction decodes and, unless there are none,
   * the first one draws at least one point.
   */
  lemma {:induction false} DrawSucceeds(ps: seq<Result<Move, Fault>>)
    ensures Draw(ps).Ok? <==> AllOk(ps) && (ps == [] || Length(ps[0].value) > 0)
  {
    if ps != [] {
      var j := |ps| - 1;
      var init := ps[..j];
      DrawSucceeds(init);
      assert AllOk(ps) <==> AllOk(init) && ps[j].Ok? by {
        if AllOk(init) && ps[j].Ok? {
          forall k | 0 <= k < |ps|
            ensures ps[k].Ok?
          {
            if k < j {
              assert ps[k] == init[k];
            }
          }
        }
        if AllOk(ps) {
          forall k | 0 <= k < j
            ensures init[k].Ok?
          {
            assert ps[k] == init[k];
          }
        }
      }
      if j > 0 {
        assert init[0] == ps[0];
      }
    }
  }

  /** How the last instruction bears on a failure: an earlier failure is kept, else the last one failed. */
  lemma DrawLast(ps: seq<Result<Move, Fault>>)
    requires ps != []
    ensures Draw(ps[..|ps| - 1]).Err? ==> Draw(ps) == Draw(ps[..|ps| - 1])
    ensures Draw(ps[..|ps| - 1]).Ok? && Draw(ps).Err? ==> Draw(ps).error.index == |ps| - 1
  {
  }

  /** A failure is reported at the first instruction that fails: everything before it draws. */
  lemma {:induction false} DrawFailsAt(ps: seq<Result<Move, Fault>>)
    requires Draw(ps).Err?
    ensures var e := Draw(ps).error;
      Draw(ps[..e.index]).Ok? && Draw(ps[..e.index + 1]) == Draw(ps)
  {
    var j := |ps| - 1;
    var init := ps[..j];
    DrawLast(ps);
    if Draw(init).Err? {
      DrawFailsAt(init);
      var i := Draw(init).error.index;
      assert init[..i] == ps[..i] && init[..i + 1] == ps[..i + 1];
    } else {
      assert ps[..j + 1] == ps;
    }
  }

  /**
   * The points drawn are the walk from the origin of the unit steps of all the moves: each
   * move continues from the last point appended before it, and there are as many points as
   * the moves' total distance.
   */
  lemma {:induction false} DrawIsWalk(ps: seq<Result<Move, Fault>>)
    requires Draw(ps).Ok?
    ensures AllOk(ps)
    ensures Draw(ps).value == Walk(Origin, Units(Moves(ps)))
    ensures |Draw(ps).value| == TotalDistance(Moves(ps))
  {
    DrawSucceeds(ps);
    var ms := Moves(ps);
    UnitsLength(ms);
    if ps != [] {
      var j := |ps| - 1;
      var init := ps[..j];
      DrawIsWalk(init);
      var cs := Draw(init).value;
      var mi := Moves(init);
      assert mi == ms[..j];
      var m := ms[j];
      var before := Units(mi);
      assert Units(ms) == before + Repeat(m.direction, Length(m));
      assert Position(cs) == End(Origin, before) by {
        if before != [] {
          WalkLast(Origin, before);
        }
      }
      SegmentIsWalk(Position(cs), m);
      WalkAppend(Origin, before, Repeat(m.direction, Length(m)));
    }
  }

  /**
   * One step of the loop of `read_instructions`: with the points of the first `j`
   * instructions drawn, instruction `j` either stops the whole list with its error or
   * appends its segment.
   */
  lemma DrawNext(ps: seq<Result<Move, Fault>>, j: nat, cs: seq<Coord>)
    requires j < |ps| && Draw(ps[..j]) == Ok(cs)
    ensures ps[j].Err? ==> Draw(ps) == Err(ReadError(j, ps[j].error))
    ensures ps[j].Ok? && cs + Segment(Position(cs), ps[j].value) == [] ==>
      Draw(ps) == Err(ReadError(j, NoPosition))
    ensures ps[j].Ok? && cs + Segment(Position(cs), ps[j].value) != [] ==>
      Draw(ps[..j + 1]) == Ok(cs + Segment(Position(cs), ps[j].value))
  {
    assert ps[..j + 1][..j] == ps[..j];
    if Draw(ps[..j + 1]).Err? {
      DrawStopsAt(ps, j);
    }
  }

  /** Once an instruction fails, drawing the whole list fails with that error. */
  lemma {:induction false} DrawStopsAt(ps: seq<Result<Move, Fault>>, j: nat)
    requires j < |ps| && Draw(ps[..j + 1]).Err?
    ensures Draw(ps) == Draw(ps[..j + 1])
    decreases |ps|
  {
    if |ps| > j + 1 {
      var init := ps[..|ps| - 1];
      assert init[..j + 1] == ps[..j + 1];
      DrawStopsAt(init, j);
    } else {
      assert ps[..j + 1] == ps;
    }
  }

  /*
   * The wire
   */

  /** The 1-based index of the first occurrence of `c` in `cs`. */
  function FirstStep(cs: seq<Coord>, c: Coord): (n: nat)
    requires c in cs
    ensures 1 <= n <= |cs| && cs[n - 1] == c
    ensures forall k :: 0 <= k < n - 1 ==> cs[k] != c
  {
    if cs[0] == c then 1 else 1 + FirstStep(cs[1..], c)
  }

  /**
   * The dictionary the constructor builds, one point at a time: a point already present
   * keeps its step, a new one gets the step it is reached at.
   */
  function StepMap(cs: seq<Coord>): map<Coord, nat> {
    if cs == [] then map[]
    else
      var init := cs[..|cs| - 1];
      var c := cs[|cs| - 1];
      var m := StepMap(init);
      if c in m then m else m[c := |cs|]
  }

  /** The keys of the dictionary are the listed points. */
  lemma {:induction false} StepMapHas(cs: seq<Coord>, c: Coord)
    ensures c in StepMap(cs) <==> c in cs
  {
    if cs != [] {
      var init := cs[..|cs| - 1];
      StepMapHas(init, c);
      assert cs == init + [cs[|cs| - 1]];
    }
  }

  lemma StepMapKeys(cs: seq<Coord>)
    ensures forall c :: c in StepMap(cs) <==> c in cs
  {
    forall c {
      StepMapHas(cs, c);
    }
  }

  /** The first occurrence does not move when a point is appended. */
  lemma FirstStepSnoc(cs: seq<Coord>, c: Coord, d: Coord)
    requires d in cs
    ensures FirstStep(cs + [c], d) == FirstStep(cs, d)
  {
    var n1 := FirstStep(cs + [c], d);
    var n2 := FirstStep(cs, d);
    assert (cs + [c])[n2 - 1] == d;
  }

  /** Each point of a wire is stored with the 1-based step at which it first occurs. */
  lemma {:induction false} StepMapIsFirstStep(cs: seq<Coord>, c: Coord)
    requires c in cs
    ensures c in StepMap(cs) && StepMap(cs)[c] == FirstStep(cs, c)
  {
    var init := cs[..|cs| - 1];
    var last := cs[|cs| - 1];
    assert cs == init + [last];
    StepMapHas(init, c);
    if c in init {
      StepMapIsFirstStep(init, c);
      FirstStepSnoc(init, last, c);
    } else {
      assert FirstStep(cs, c) == |cs|;
    }
  }

  predicate Distinct(cs: seq<Coord>) {
    forall i, j :: 0 <= i < j < |cs| ==> cs[i] != cs[j]
  }

  /** The iteration order of the dictionary: each listed point once, at its first occurrence. */
  function KeyOrder(cs: seq<Coord>): seq<Coord> {
    if cs == [] then []
    else
      var init := cs[..|cs| - 1];
      var c := cs[|cs| - 1];
      if c in init then KeyOrder(init) else KeyOrder(init) + [c]
  }

  /** The dictionary iterates over exactly the listed points. */
  lemma {:induction false} KeyOrderHas(cs: seq<Coord>, c: Coord)
    ensures c in KeyOrder(cs) <==> c in cs
  {
    if cs != [] {
      var init := cs[..|cs| - 1];
      KeyOrderHas(init, c);
      assert cs == init + [cs[|cs| - 1]];
    }
  }

  lemma KeyOrderKeys(cs: seq<Coord>)
    ensures forall c :: c in KeyOrder(cs) <==> c in cs
  {
    forall c {
      KeyOrderHas(cs, c);
    }
  }

  /** The dictionary holds each point once. */
  lemma {:induction false} KeyOrderDistinct(cs: seq<Coord>)
    ensures Distinct(KeyOrder(cs))
  {
    if cs != [] {
      var init := cs[..|cs| - 1];
      KeyOrderDistinct(init);
      KeyOrderHas(init, cs[|cs| - 1]);
    }
  }

  lemma StepMapSnoc(cs: seq<Coord>, c: Coord)
    ensures StepMap(cs + [c]) == if c in StepMap(cs) then StepMap(cs) else StepMap(cs)[c := |cs| + 1]
  {
    assert (cs + [c])[..|cs|] == cs;
  }

  lemma KeyOrderSnoc(cs: seq<Coord>, c: Coord)
    ensures KeyOrder(cs + [c]) == if c in cs then KeyOrder(cs) else KeyOrder(cs) + [c]
  {
    assert (cs + [c])[..|cs|] == cs;
  }

  /** Dictionary order is first-step order. */
  predicate FirstStepOrder(cs: seq<Coord>, r: seq<Coord>)
    requires forall k :: 0 <= k < |r| ==> r[k] in cs
  {
    forall i, j :: 0 <= i < j < |r| ==> FirstStep(cs, r[i]) < FirstStep(cs, r[j])
  }

  lemma {:induction false} KeyOrderByFirstStep(cs: seq<Coord>)
    ensures (forall k :: 0 <= k < |KeyOrder(cs)| ==> KeyOrder(cs)[k] in cs) && FirstStepOrder(cs, KeyOrder(cs))
  {
    if cs != [] {
      var init := cs[..|cs| - 1];
      var c := cs[|cs| - 1];
      assert cs == init + [c];
      KeyOrderByFirstStep(init);
      KeyOrderSnoc(init, c);
      FirstStepOrderSnoc(init, c, KeyOrder(init));
    }
  }

  /** Appending a point keeps an order by first step, and a new point comes after all others. */
  lemma FirstStepOrderSnoc(cs: seq<Coord>, c: Coord, r: seq<Coord>)
    requires forall k :: 0 <= k < |r| ==> r[k] in cs
    requires FirstStepOrder(cs, r)
    ensures var cs' := cs + [c];
      && (forall k :: 0 <= k < |r| ==> r[k] in cs') && FirstStepOrder(cs', r)
      && (c !in cs ==> FirstStepOrder(cs', r + [c]))
  {
    var cs' := cs + [c];
    forall k | 0 <= k < |r|
      ensures FirstStep(cs', r[k]) == FirstStep(cs, r[k])
    {
      FirstStepSnoc(cs, c, r[k]);
    }
    if c !in cs {
      var r' := r + [c];
      assert FirstStep(cs', c) == |cs'|;
      forall i, j | 0 <= i < j < |r'|
        ensures FirstStep(cs', r'[i]) < FirstStep(cs', r'[j])
      {
        assert r'[i] == r[i];
        if j < |r| {
          assert r'[j] == r[j];
        }
      }
    }
  }

  /** A `Wire`: its points as given, the first-step dictionary and its key order, and its length. */
  class Wire {
    var raw: seq<Coord>
    var coords: map<Coord, nat>
    /** The keys of `coords` in insertion order, which is the order Python iterates a dict in. */
    var keys: seq<Coord>
    var totalLength: nat

    /** The fields are those the constructor builds from `raw`. */
    predicate Valid()
      reads this
    {
      coords == StepMap(raw) && keys == KeyOrder(raw) && totalLength == |raw|
    }

    /** `Wire.__init__`: one pass over the points, keeping the first step each is reached at. */
    constructor(cs: seq<Coord>)
      ensures raw == cs && coords == StepMap(cs) && keys == KeyOrder(cs) && totalLength == |cs|
      ensures Valid()
    {
      raw := cs;
      coords := map[];
      keys := [];
      totalLength := 0;
      new;
      var step := 0;
      while step < |cs|
        invariant 0 <= step <= |cs|
        invariant raw == cs
        invariant coords == StepMap(cs[..step]) && keys == KeyOrder(cs[..step])
      {
        var c := cs[step];
        ghost var seen := cs[..step];
        assert cs[..step + 1] == seen + [c];
        StepMapSnoc(seen, c);
        KeyOrderSnoc(seen, c);
        StepMapHas(seen, c);
        step := step + 1;
        if c !in coords {
          coords := coords[c := step];
          keys := keys + [c];
        }
      }
      assert cs[..step] == cs;
      totalLength := step;
    }

    /** `on_wire_path`: for a wire built by the constructor, the listed points. */
    function OnWirePath(pos: Coord): (r: bool)
      reads this
      ensures Valid() ==> (r <==> pos in raw)
    {
      StepMapHas(raw, pos);
      pos in coords
    }

    /** `intersects`: some key of the other wire is on this wire's path. */
    function Intersects(wire: Wire): (r: bool)
      reads this, wire
      ensures Valid() && wire.Valid() ==> (r <==> exists c :: c in wire.raw && c in raw)
    {
      KeyOrderKeys(wire.raw);
      exists c :: c in wire.keys && OnWirePath(c)
    }

    /** `get_intersections`: the keys of this wire, in order, that are on the other wire's path. */
    function GetIntersections(wire: Wire): (r: seq<Coord>)
      reads this, wire
      ensures Valid() && wire.Valid() ==> Distinct(r) && forall c :: c in r <==> c in raw && c in wire.raw
      ensures Valid() && wire.Valid() ==>
        (forall k :: 0 <= k < |r| ==> r[k] in raw) && FirstStepOrder(raw, r)
    {
      KeyOrderDistinct(raw);
      KeyOrderKeys(raw);
      var r := OnPath(keys, wire);
      if Valid() then
        KeyOrderByFirstStep(raw);
        OnPathOrder(keys, wire, raw);
        r
      else r
    }
  }

  /** The points of `ks` on the path of `wire`, in order. */
  function OnPath(ks: seq<Coord>, wire: Wire): (r: seq<Coord>)
    reads wire
    ensures forall c :: c in r <==> c in ks && wire.OnWirePath(c)
    ensures Distinct(ks) ==> Distinct(r)
  {
    if ks == [] then []
    else
      var rest := OnPath(ks[1..], wire);
      if wire.OnWirePath(ks[0]) then
        assert ks[0] !in ks[1..] ==> ks[0] !in rest;
        [ks[0]] + rest
      else rest
  }

  /** Filtering keeps the order of the keys: keys ordered by first step in `cs` stay so. */
  lemma {:induction false} OnPathOrder(ks: seq<Coord>, wire: Wire, cs: seq<Coord>)
    requires forall k :: 0 <= k < |ks| ==> ks[k] in cs
    requires FirstStepOrder(cs, ks)
    ensures forall k :: 0 <= k < |OnPath(ks, wire)| ==> OnPath(ks, wire)[k] in cs
    ensures FirstStepOrder(cs, OnPath(ks, wire))
    decreases |ks|
  {
    if ks != [] {
      FirstStepOrderTail(cs, ks);
      OnPathOrder(ks[1..], wire, cs);
      var rest := OnPath(ks[1..], wire);
      if wire.OnWirePath(ks[0]) {
        assert forall c :: c in rest ==> c in ks[1..];
        FirstStepOrderCons(cs, ks, rest);
      }
    }
  }

  /** The tail of a list ordered by first step is ordered, and comes after the head. */
  lemma FirstStepOrderTail(cs: seq<Coord>, ks: seq<Coord>)
    requires ks != [] && forall k :: 0 <= k < |ks| ==> ks[k] in cs
    requires FirstStepOrder(cs, ks)
    ensures forall k :: 0 <= k < |ks[1..]| ==> ks[1..][k] in cs
    ensures FirstStepOrder(cs, ks[1..])
    ensures forall c :: c in ks[1..] ==> FirstStep(cs, ks[0]) < FirstStep(cs, c)
  {
    var tail := ks[1..];
    forall i, j | 0 <= i < j < |tail|
      ensures FirstStep(cs, tail[i]) < FirstStep(cs, tail[j])
    {
      assert tail[i] == ks[i + 1] && tail[j] == ks[j + 1];
    }
    forall c | c in tail
      ensures FirstStep(cs, ks[0]) < FirstStep(cs, c)
    {
      var m :| 0 <= m < |tail| && tail[m] == c;
      assert ks[m + 1] == c;
    }
  }

  /** Putting the head back in front of an ordered filtered tail keeps the order. */
  lemma FirstStepOrderCons(cs: seq<Coord>, ks: seq<Coord>, rest: seq<Coord>)
    requires ks != [] && forall k :: 0 <= k < |ks| ==> ks[k] in cs
    requires forall k :: 0 <= k < |rest| ==> rest[k] in cs
    requires FirstStepOrder(cs, rest)
    requires forall c :: c in rest ==> c in ks[1..]
    requires forall c :: c in ks[1..] ==> FirstStep(cs, ks[0]) < FirstStep(cs, c)
    ensures forall k :: 0 <= k < |[ks[0]] + rest| ==> ([ks[0]] + rest)[k] in cs
    ensures FirstStepOrder(cs, [ks[0]] + rest)
  {
    var r := [ks[0]] + rest;
    forall i, j | 0 <= i < j < |r|
      ensures FirstStep(cs, r[i]) < FirstStep(cs, r[j])
    {
      var c := rest[j - 1];
      assert r[j] == c;
      if i == 0 {
        assert c in rest;
        assert c in ks[1..];
      } else {
        assert r[i] == rest[i - 1];
      }
    }
  }

  /** `a.intersects(b)` holds exactly when `a.get_intersections(b)` is not empty, and is symmetric. */
  lemma IntersectsIffIntersections(a: Wire, b: Wire)
    requires a.Valid() && b.Valid()
    ensures a.Intersects(b) <==> a.GetIntersections(b) != []
    ensures a.Intersects(b) <==> b.Intersects(a)
  {
    if a.Intersects(b) {
      var c :| c in b.raw && c in a.raw;
      assert c in a.GetIntersections(b);
    }
    if a.GetIntersections(b) != [] {
      var c := a.GetIntersections(b)[0];
      assert c in a.raw && c in b.raw;
    }
  }

  /** The first-step dictionary of a wire: its keys are the listed points, each with its first 1-based step. */
  lemma WireFirstSteps(w: Wire, c: Coord)
    requires w.Valid() && c in w.coords
    ensures c in w.raw
    ensures 1 <= w.coords[c] <= w.totalLength
    ensures w.raw[w.coords[c] - 1] == c
    ensures forall k :: 0 <= k < w.coords[c] - 1 ==> w.raw[k] != c
  {
    StepMapHas(w.raw, c);
    StepMapIsFirstStep(w.raw, c);
  }

  /** `manhattan`: the taxicab distance from the origin. */
  function Manhattan(pos: Coord): (d: nat)
    ensures d == 0 <==> pos == Origin
  {
    (if pos.0 < 0 then -pos.0 else pos.0) + (if pos.1 < 0 then -pos.1 else pos.1)
  }

  /**
   * The loop of `read_instructions` over the decoded instructions: appends the segment of
   * each move and continues from the last point appended, stopping at the first failure.
   */
  method CollectPoints(ps: seq<Result<Move, Fault>>) returns (r: Result<seq<Coord>, ReadError>)
    ensures r == Draw(ps)
  {
    var coords: seq<Coord> := [];
    var position := Origin;
    var j := 0;
    while j < |ps|
      invariant 0 <= j <= |ps|
      invariant Draw(ps[..j]) == Ok(coords)
      invariant position == Position(coords)
    {
      DrawNext(ps, j, coords);
      var move := ps[j];
      if move.Err? {
        return Err(ReadError(j, move.error));
      }
      coords := coords + Segment(position, move.value);
      if coords == [] {
        return Err(ReadError(j, NoPosition));
      }
      position := coords[|coords| - 1];
      j := j + 1;
    }
    assert ps[..j] == ps;
    return Ok(coords);
  }

  /**
   * `read_instructions`: the points of the instructions, as a freshly built wire. Decoding
   * has no side effects, so decoding every instruction before drawing reports the same
   * first failure as decoding each one as the loop reaches it.
   */
  method ReadInstructions(instructions: seq<string>) returns (r: Result<Wire, ReadError>)
    ensures Read(instructions).Err? ==> r == Err(Read(instructions).error)
    ensures Read(instructions).Ok? ==>
      r.Ok? && fresh(r.value) && r.value.Valid() && r.value.raw == Read(instructions).value
  {
    var coords := CollectPoints(Decode(instructions));
    if coords.Err? {
      return Err(coords.error);
    }
    var w := new Wire(coords.value);
    return Ok(w);
  }
}
