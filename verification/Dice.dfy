/** Dice expressions: splitting into signed terms, evaluating each against a shared budget of
    dice, and the total. The source of randomness is the i-th draw of a die with some faces. */
module Dice {
  import opened Wrappers
  import opened DiceSelection
  import opened Text

  const MAX_DICE: nat := 200
  const MAX_FACES: nat := 1000
  const MAX_LENGTH: nat := 200
  const MAX_INT: nat := 0x7fff_ffff_ffff_ffff

  datatype Error = EmptyExpression | TooManyDice | UnsupportedDie | MalformedExpression

  datatype Result<+T> = Success(value: T) | Failure(error: Error)

  type Source = (nat, nat) -> int

  datatype Term = Term(sign: int, text: string, dice: seq<Die>, constant: Option<nat>, subtotal: int)

  // ----- Reading one term -----

  function DigitRun(s: string): (n: nat)
    ensures n <= |s| && (forall i :: 0 <= i < n ==> IsDigit(s[i])) && (n < |s| ==> !IsDigit(s[n]))
  {
    if s == [] || !IsDigit(s[0]) then 0 else 1 + DigitRun(s[1..])
  }

  /** A nonempty run of digits that fits a machine integer. */
  function ParseNumber(s: string): Option<nat> {
    if s == [] || DigitRun(s) != |s| then None
    else
      var n := DecimalValue(s);
      if n <= MAX_INT then Some(n) else None
  }

  datatype Shape = Shape(count: string, faces: string, selection: Option<(Mode, string)>)

  function ParseMode(s: string): Option<Mode> {
    if s == "kh" then Some(KeepHigh)
    else if s == "kl" then Some(KeepLow)
    else if s == "dh" then Some(DropHigh)
    else if s == "dl" then Some(DropLow)
    else None
  }

  /** Digits, a d, digits, and optionally a mode followed by digits, to the end. */
  function ParseShape(s: string): Option<Shape> {
    var a := DigitRun(s);
    if a == |s| || s[a] != 'd' then None else ParseTail(s[..a], s[a + 1..])
  }

  // What follows the d.
  function ParseTail(count: string, rest: string): Option<Shape> {
    var b := DigitRun(rest);
    if b == 0 then None
    else if b == |rest| then Some(Shape(count, rest, None))
    else if |rest| < b + 2 || ParseMode(rest[b..b + 2]).None? then None
    else
      var keep := rest[b + 2..];
      if keep == [] || DigitRun(keep) != |keep| then None
      else Some(Shape(count, rest[..b], Some((ParseMode(rest[b..b + 2]).value, keep))))
  }

  // What a term asks for, or why it is refused given the dice left.
  datatype Plan = Fixed(amount: nat) | Throw(count: nat, faces: nat, selection: Option<(Mode, nat)>)

  function PlanTerm(piece: string, budget: nat): Result<Plan> {
    if ParseNumber(piece).Some? then Success(Fixed(ParseNumber(piece).value))
    else match ParseShape(piece)
      case None => Failure(MalformedExpression)
      case Some(shape) => PlanShape(shape, budget)
  }

  function PlanShape(shape: Shape, budget: nat): Result<Plan> {
    var count := if shape.count == "" then Some(1) else ParseNumber(shape.count);
    var faces := ParseNumber(shape.faces);
    if count.None? then Failure(MalformedExpression)
    else if faces.None? || faces.value < 2 || faces.value > MAX_FACES then Failure(UnsupportedDie)
    else if count.value < 1 then Failure(MalformedExpression)
    else if count.value > budget then Failure(TooManyDice)
    else if shape.selection.None? then Success(Throw(count.value, faces.value, None))
    else if ParseNumber(shape.selection.value.1).None? then Failure(MalformedExpression)
    else Success(Throw(count.value, faces.value,
                       Some((shape.selection.value.0, ParseNumber(shape.selection.value.1).value))))
  }

  // ----- Evaluating one term -----

  function Thrown(source: Source, drawn: nat, count: nat, faces: nat): (r: seq<Die>)
    ensures |r| == count && AllKept(r) && forall i :: 0 <= i < count ==> r[i].value == source(drawn + i, faces)
  {
    seq(count, i requires 0 <= i < count => Die(faces, source(drawn + i, faces), true))
  }

  function Chosen(dice: seq<Die>, selection: Option<(Mode, nat)>): (r: seq<Die>)
    ensures |r| == |dice|
  {
    if selection.None? then dice else Selected(dice, selection.value.0, selection.value.1)
  }

  // A term with the dice left over and the draws made so far.
  datatype Evaluated = Evaluated(term: Term, budget: nat, drawn: nat)

  function Evaluate(piece: string, sign: int, source: Source, budget: nat, drawn: nat): Result<Evaluated> {
    match PlanTerm(piece, budget)
    case Failure(error) => Failure(error)
    case Success(Fixed(amount)) => Success(Evaluated(Term(sign, piece, [], Some(amount), amount), budget, drawn))
    case Success(Throw(count, faces, selection)) =>
      if count > budget then Failure(TooManyDice)
      else
        var dice := Chosen(Thrown(source, drawn, count, faces), selection);
        Success(Evaluated(Term(sign, piece, dice, None, Subtotal(Values(dice), Flags(dice))), budget - count, drawn + count))
  }

  /** Throwing, selecting in place, and adding up what was kept. */
  method ThrowDice(count: nat, faces: nat, selection: Option<(Mode, nat)>, source: Source, drawn: nat)
    returns (dice: seq<Die>, subtotal: int)
    ensures dice == Chosen(Thrown(source, drawn, count, faces), selection)
    ensures subtotal == Subtotal(Values(dice), Flags(dice))
  {
    var thrown := new Die[count](i => Die(faces, source(drawn + i, faces), true));
    assert thrown[..] == Thrown(source, drawn, count, faces);
    if selection.Some? {
      ApplySelection(thrown, selection.value.0, selection.value.1);
    }
    subtotal := AddKept(thrown);
    dice := thrown[..];
  }

  method EvaluateTerm(piece: string, sign: int, source: Source, budget: nat, drawn: nat) returns (r: Result<Evaluated>)
    ensures r == Evaluate(piece, sign, source, budget, drawn)
  {
    var plan := PlanTerm(piece, budget);
    match plan
    case Failure(error) =>
      return Failure(error);
    case Success(Fixed(amount)) =>
      return Success(Evaluated(Term(sign, piece, [], Some(amount), amount), budget, drawn));
    case Success(Throw(count, faces, selection)) =>
      if count > budget {
        return Failure(TooManyDice);
      }
      var dice, subtotal := ThrowDice(count, faces, selection, source, drawn);
      r := Success(Evaluated(Term(sign, piece, dice, None, subtotal), budget - count, drawn + count));
  }

  method AddKept(dice: array<Die>) returns (subtotal: int)
    ensures subtotal == Subtotal(Values(dice[..]), Flags(dice[..]))
  {
    subtotal := 0;
    ghost var values, flags := Values(dice[..]), Flags(dice[..]);
    var i := 0;
    assert values[0..] == values && flags[0..] == flags;
    while i < dice.Length
      invariant 0 <= i <= dice.Length
      invariant subtotal + Subtotal(values[i..], flags[i..]) == Subtotal(values, flags)
    {
      assert values[i..][1..] == values[i + 1..] && flags[i..][1..] == flags[i + 1..];
      if dice[i].kept {
        subtotal := subtotal + dice[i].value;
      }
      i := i + 1;
    }
    assert flags[i..] == [];
  }

  // ----- Splitting and evaluating an expression -----

  datatype Piece = Piece(sign: int, text: string)

  function SignOf(c: char): int {
    if c == '-' then -1 else 1
  }

  predicate IsSign(c: char) {
    c == '+' || c == '-'
  }

  // The pieces of the rest of an expression, the first of which is already under way.
  function PiecesFrom(sign: int, buffer: string, rest: string): (r: seq<Piece>)
    ensures |r| > 0
    decreases |rest|
  {
    if rest == [] then [Piece(sign, buffer)]
    else if IsSign(rest[0]) then [Piece(sign, buffer)] + PiecesFrom(SignOf(rest[0]), "", rest[1..])
    else PiecesFrom(sign, buffer + [rest[0]], rest[1..])
  }

  // A sign in front belongs to the first piece.
  function Pieces(normalised: string): (r: seq<Piece>)
    requires normalised != ""
    ensures |r| > 0
  {
    if IsSign(normalised[0]) then PiecesFrom(SignOf(normalised[0]), "", normalised[1..])
    else PiecesFrom(1, "", normalised)
  }

  datatype Tally = Tally(terms: seq<Term>, total: int, budget: nat, drawn: nat)

  const OPENING := Tally([], 0, MAX_DICE, 0)

  function Flush(tally: Tally, piece: Piece, source: Source): Result<Tally> {
    if piece.text == "" then Failure(MalformedExpression)
    else match Evaluate(piece.text, piece.sign, source, tally.budget, tally.drawn)
      case Failure(error) => Failure(error)
      case Success(e) => Success(Tally(tally.terms + [e.term], tally.total + piece.sign * e.term.subtotal, e.budget, e.drawn))
  }

  function FlushAll(tally: Tally, pieces: seq<Piece>, source: Source): Result<Tally>
    decreases |pieces|
  {
    if pieces == [] then Success(tally)
    else match Flush(tally, pieces[0], source)
      case Failure(error) => Failure(error)
      case Success(next) => FlushAll(next, pieces[1..], source)
  }

  function Normalised(tables: Unicode, expression: string): string {
    Without(ToLower(tables, TrimSpace(tables, expression)), ' ')
  }

  function RollNormalised(normalised: string, source: Source): Result<Tally> {
    if normalised == "" then Failure(EmptyExpression)
    else if |normalised| > MAX_LENGTH then Failure(MalformedExpression)
    else FlushAll(OPENING, Pieces(normalised), source)
  }

  method FlushTerm(tally: Tally, sign: int, buffer: string, source: Source) returns (r: Result<Tally>)
    ensures r == Flush(tally, Piece(sign, buffer), source)
  {
    if buffer == "" {
      return Failure(MalformedExpression);
    }
    var e := EvaluateTerm(buffer, sign, source, tally.budget, tally.drawn);
    match e
    case Failure(error) =>
      r := Failure(error);
    case Success(done) =>
      r := Success(Tally(tally.terms + [done.term], tally.total + sign * done.term.subtotal, done.budget, done.drawn));
  }

  method Roll(tables: Unicode, expression: string, source: Source) returns (r: Result<Tally>)
    ensures r == RollNormalised(Normalised(tables, expression), source)
  {
    var normalised := Normalised(tables, expression);
    if normalised == "" {
      return Failure(EmptyExpression);
    }
    if |normalised| > MAX_LENGTH {
      return Failure(MalformedExpression);
    }
    r := RollTerms(normalised, source);
  }

  /** One pass over the characters, flushing a term at every sign after the first character. */
  method RollTerms(normalised: string, source: Source) returns (r: Result<Tally>)
    requires normalised != ""
    ensures r == FlushAll(OPENING, Pieces(normalised), source)
  {
    var sign, buffer, tally := 1, "", OPENING;
    var index := 0;
    while index < |normalised|
      invariant 0 <= index <= |normalised|
      invariant index == 0 ==> sign == 1 && buffer == "" && tally == OPENING
      invariant index > 0 ==>
                  FlushAll(OPENING, Pieces(normalised), source) == FlushAll(tally, PiecesFrom(sign, buffer, normalised[index..]), source)
    {
      var character := normalised[index];
      PiecesStep(sign, buffer, normalised, index);
      if IsSign(character) && index > 0 {
        var flushed := FlushTerm(tally, sign, buffer, source);
        if flushed.Failure? {
          return flushed;
        }
        tally, sign, buffer := flushed.value, SignOf(character), "";
      } else if IsSign(character) {
        sign := SignOf(character);
      } else {
        buffer := buffer + [character];
      }
      index := index + 1;
    }
    assert normalised[|normalised|..] == [];
    assert [Piece(sign, buffer)][1..] == [];
    r := FlushTerm(tally, sign, buffer, source);
  }

  // How the pieces of an expression unfold at one character.
  lemma PiecesStep(sign: int, buffer: string, normalised: string, index: nat)
    requires index < |normalised|
    ensures var c, later := normalised[index], normalised[index + 1..];
            && (IsSign(c) ==> PiecesFrom(sign, buffer, normalised[index..])[0] == Piece(sign, buffer)
                              && PiecesFrom(sign, buffer, normalised[index..])[1..] == PiecesFrom(SignOf(c), "", later))
            && (!IsSign(c) ==> PiecesFrom(sign, buffer, normalised[index..]) == PiecesFrom(sign, buffer + [c], later))
    ensures normalised[0..] == normalised
  {
    assert normalised[index..][0] == normalised[index] && normalised[index..][1..] == normalised[index + 1..];
  }
}
