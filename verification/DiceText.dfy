/** What the text of a dice term means: which texts are terms, and what each form throws, keeps
    and adds up to. */
module DiceText {
  import opened Wrappers
  import opened Text
  import opened TextTheory
  import opened DiceSelection
  import opened Dice

  // ----- Printing and reading -----

  function ModeText(mode: Mode): string {
    match mode
    case KeepHigh => "kh"
    case KeepLow => "kl"
    case DropHigh => "dh"
    case DropLow => "dl"
  }

  // What follows the d.
  function Tail(shape: Shape): string {
    shape.faces + if shape.selection.None? then "" else ModeText(shape.selection.value.0) + shape.selection.value.1
  }

  function Print(shape: Shape): string {
    shape.count + ("d" + Tail(shape))
  }

  predicate WellFormed(shape: Shape) {
    && AllDigits(shape.count) && AllDigits(shape.faces) && shape.faces != ""
    && (shape.selection.Some? ==> AllDigits(shape.selection.value.1) && shape.selection.value.1 != "")
  }

  lemma RunEndsThere(s: string, n: nat)
    requires n <= |s| && AllDigits(s[..n]) && (n < |s| ==> !IsDigit(s[n]))
    ensures DigitRun(s) == n
  {
    assert forall i :: 0 <= i < n ==> s[i] == s[..n][i];
  }

  lemma DigitRunOf(digits: string, rest: string)
    requires AllDigits(digits) && (rest == "" || !IsDigit(rest[0]))
    ensures DigitRun(digits + rest) == |digits|
    ensures (digits + rest)[..|digits|] == digits && (digits + rest)[|digits|..] == rest
  {
    RunEndsThere(digits + rest, |digits|);
  }

  lemma ModeReadsBack(mode: Mode)
    ensures ParseMode(ModeText(mode)) == Some(mode) && |ModeText(mode)| == 2 && !IsDigit(ModeText(mode)[0])
  {
  }

  lemma ModePrints(s: string)
    requires ParseMode(s).Some?
    ensures ModeText(ParseMode(s).value) == s
  {
  }

  lemma TailReads(shape: Shape)
    requires WellFormed(shape)
    ensures var rest, b := Tail(shape), |shape.faces|;
            && DigitRun(rest) == b && rest[..b] == shape.faces
            && (shape.selection.None? <==> b == |rest|)
            && (shape.selection.Some? ==>
                  |rest| >= b + 2 && rest[b..b + 2] == ModeText(shape.selection.value.0)
                  && rest[b + 2..] == shape.selection.value.1)
  {
    if shape.selection.None? {
      DigitRunOf(shape.faces, "");
      assert shape.faces + "" == shape.faces;
    } else {
      var (mode, keep) := shape.selection.value;
      ModeReadsBack(mode);
      DigitRunOf(shape.faces, ModeText(mode) + keep);
      var rest, b := Tail(shape), |shape.faces|;
      assert rest[b..] == ModeText(mode) + keep;
      assert rest[b..b + 2] == rest[b..][..2] == ModeText(mode);
      assert rest[b + 2..] == rest[b..][2..] == keep;
    }
  }

  lemma TailReadsBack(shape: Shape)
    requires WellFormed(shape)
    ensures ParseTail(shape.count, Tail(shape)) == Some(shape)
  {
    TailReads(shape);
    if shape.selection.None? {
      assert Tail(shape)[..|Tail(shape)|] == Tail(shape);
    } else {
      var keep := shape.selection.value.1;
      ModeReadsBack(shape.selection.value.0);
      DigitRunOf(keep, "");
      assert keep + "" == keep;
    }
  }

  lemma HeadReads(count: string, tail: string)
    requires AllDigits(count)
    ensures var s, a := count + ("d" + tail), |count|;
            DigitRun(s) == a < |s| && s[a] == 'd' && s[..a] == count && s[a + 1..] == tail
  {
    var s, a := count + ("d" + tail), |count|;
    assert ("d" + tail)[0] == 'd' && !IsDigit('d');
    DigitRunOf(count, "d" + tail);
    assert s[a] == ("d" + tail)[0];
    assert s[a + 1..] == s[a..][1..] == tail;
  }

  /** Every well-formed term is read as what it was printed from. */
  lemma PrintedReadsBack(shape: Shape)
    requires WellFormed(shape)
    ensures ParseShape(Print(shape)) == Some(shape)
  {
    HeadReads(shape.count, Tail(shape));
    TailReadsBack(shape);
  }

  lemma TailPrintsBack(count: string, rest: string)
    requires AllDigits(count) && ParseTail(count, rest).Some?
    ensures var shape := ParseTail(count, rest).value;
            WellFormed(shape) && shape.count == count && Tail(shape) == rest
  {
    var b := DigitRun(rest);
    if b == |rest| {
      assert rest + "" == rest;
    } else {
      ModePrints(rest[b..b + 2]);
      assert rest == rest[..b] + (rest[b..b + 2] + rest[b + 2..]);
    }
  }

  /** And nothing else is read: a text that is read is the print of what it is read as. */
  lemma ReadPrintsBack(s: string)
    requires ParseShape(s).Some?
    ensures WellFormed(ParseShape(s).value) && Print(ParseShape(s).value) == s
  {
    var a := DigitRun(s);
    TailPrintsBack(s[..a], s[a + 1..]);
    CutAtD(s, a);
  }

  lemma CutAtD(s: string, a: nat)
    requires a < |s| && s[a] == 'd'
    ensures s == s[..a] + ("d" + s[a + 1..])
  {
  }

  // ----- What a term throws -----

  // The value of a run of digits, a missing count being one.
  function CountOf(shape: Shape): nat
    requires WellFormed(shape)
  {
    if shape.count == "" then 1 else DecimalValue(shape.count)
  }

  // Numbers that fit, a die of 2 to 1000 faces, at least one throw and no more than are left.
  predicate InRange(shape: Shape, budget: nat)
    requires WellFormed(shape)
  {
    && 1 <= CountOf(shape) <= budget && CountOf(shape) < 0x8000_0000_0000_0000
    && 2 <= DecimalValue(shape.faces) <= 1000
    && (shape.selection.Some? ==> DecimalValue(shape.selection.value.1) < 0x8000_0000_0000_0000)
  }

  lemma NumberReads(s: string)
    requires s != "" && AllDigits(s)
    ensures ParseNumber(s) == if DecimalValue(s) < 0x8000_0000_0000_0000 then Some(DecimalValue(s)) else None
  {
    DigitRunOf(s, "");
    assert s + "" == s;
  }

  lemma PrintIsNoNumber(shape: Shape)
    requires WellFormed(shape)
    ensures ParseNumber(Print(shape)).None?
  {
    var s := Print(shape);
    assert s[|shape.count|] == 'd' && !IsDigit('d');
  }

  // What a term asks for, when it is in range.
  function Asked(shape: Shape): Plan
    requires WellFormed(shape)
  {
    Throw(CountOf(shape), DecimalValue(shape.faces),
          if shape.selection.None? then None
          else Some((shape.selection.value.0, DecimalValue(shape.selection.value.1))))
  }

  lemma PlanOfShape(shape: Shape, budget: nat)
    requires WellFormed(shape)
    ensures PlanShape(shape, budget).Success? <==> InRange(shape, budget)
    ensures InRange(shape, budget) ==> PlanShape(shape, budget) == Success(Asked(shape))
  {
    NumberReads(shape.faces);
    if shape.count != "" {
      NumberReads(shape.count);
    }
    if shape.selection.Some? {
      NumberReads(shape.selection.value.1);
    }
  }

  lemma PlanOf(shape: Shape, budget: nat)
    requires WellFormed(shape)
    ensures PlanTerm(Print(shape), budget).Success? <==> InRange(shape, budget)
    ensures InRange(shape, budget) ==> PlanTerm(Print(shape), budget) == Success(Asked(shape))
  {
    PrintIsNoNumber(shape);
    PrintedReadsBack(shape);
    PlanOfShape(shape, budget);
  }

  /** Why a well-formed term is refused: first a count that does not fit, then the die, then no
      dice at all, then too many, then a number to keep that does not fit. */
  lemma RefusedTerm(shape: Shape, sign: int, source: Source, budget: nat, drawn: nat)
    requires WellFormed(shape) && !InRange(shape, budget)
    ensures var faces, tooBig := DecimalValue(shape.faces), 0x8000_0000_0000_0000;
            Evaluate(Print(shape), sign, source, budget, drawn)
            == Failure(if CountOf(shape) >= tooBig then MalformedExpression
                       else if faces < 2 || faces > 1000 then UnsupportedDie
                       else if CountOf(shape) == 0 then MalformedExpression
                       else if CountOf(shape) > budget then TooManyDice
                       else MalformedExpression)
  {
    PrintIsNoNumber(shape);
    PrintedReadsBack(shape);
    NumberReads(shape.faces);
    if shape.count != "" {
      NumberReads(shape.count);
    }
    if shape.selection.Some? {
      NumberReads(shape.selection.value.1);
    }
  }

  // The dice of a term are the next draws of its die.
  predicate Throws(dice: seq<Die>, source: Source, drawn: nat, count: nat, faces: nat) {
    |dice| == count && forall i :: 0 <= i < count ==> dice[i].faces == faces && dice[i].value == source(drawn + i, faces)
  }

  /** A term is accepted exactly when its numbers are in range; then it throws as many dice of the
      kind it says, takes them off the budget, and adds up those it keeps. */
  lemma TermThrows(shape: Shape, sign: int, source: Source, budget: nat, drawn: nat)
    requires WellFormed(shape)
    ensures var r := Evaluate(Print(shape), sign, source, budget, drawn);
            && (r.Success? <==> InRange(shape, budget))
            && (r.Success? ==>
                  var term, n := r.value.term, CountOf(shape);
                  && Throws(term.dice, source, drawn, n, DecimalValue(shape.faces))
                  && r.value.budget == budget - n && r.value.drawn == drawn + n
                  && term.sign == sign && term.text == Print(shape)
                  && term.subtotal == Subtotal(Values(term.dice), Flags(term.dice))
                  && (shape.selection.None? ==> AllKept(term.dice)))
  {
    PlanOf(shape, budget);
    if InRange(shape, budget) {
      ChosenThrows(source, drawn, CountOf(shape), DecimalValue(shape.faces), Asked(shape).selection);
    }
  }

  // Selecting changes neither a value nor a die.
  lemma ChosenThrows(source: Source, drawn: nat, count: nat, faces: nat, selection: Option<(Mode, nat)>)
    ensures Throws(Chosen(Thrown(source, drawn, count, faces), selection), source, drawn, count, faces)
    ensures selection.None? ==> AllKept(Chosen(Thrown(source, drawn, count, faces), selection))
  {
    var thrown := Thrown(source, drawn, count, faces);
    if selection.Some? {
      var (mode, amount) := selection.value;
      SelectionIsOptimal(thrown, mode, amount);
      FacesStay(thrown, Order(thrown, Descending(mode), |thrown|), mode, amount, |thrown|);
      var dice := Selected(thrown, mode, amount);
      forall i | 0 <= i < |dice| ensures dice[i].value == thrown[i].value {
        assert Values(dice)[i] == Values(thrown)[i];
      }
    }
  }

  lemma {:induction false} FacesStay(dice: seq<Die>, order: seq<nat>, mode: Mode, amount: nat, upTo: nat)
    requires upTo <= |order| && Indices(order, |dice|)
    ensures forall i :: 0 <= i < |dice| ==> Marked(dice, order, mode, amount, upTo)[i].faces == dice[i].faces
    decreases upTo
  {
    if upTo > 0 {
      FacesStay(dice, order, mode, amount, upTo - 1);
    }
  }

  // ----- The four ways to keep or drop -----

  // How many dice a term keeps, and whether no choice of as many has a better subtotal.
  ghost predicate Keeps(piece: string, sign: int, source: Source, budget: nat, drawn: nat, count: nat, faces: nat,
                        kept: nat, high: bool)
  {
    var r := Evaluate(piece, sign, source, budget, drawn);
    && r.Success?
    && var dice := r.value.term.dice;
       && Throws(dice, source, drawn, count, faces)
       && Count(Flags(dice)) == kept
       && r.value.term.subtotal == Subtotal(Values(dice), Flags(dice))
       && forall other: seq<bool> :: |other| == count && Count(other) == kept ==>
            if high then Subtotal(Values(dice), Flags(dice)) >= Subtotal(Values(dice), other)
            else Subtotal(Values(dice), Flags(dice)) <= Subtotal(Values(dice), other)
  }

  function Least(a: nat, b: nat): nat {
    if a < b then a else b
  }

  lemma SelectingTerm(shape: Shape, sign: int, source: Source, budget: nat, drawn: nat)
    requires WellFormed(shape) && shape.selection.Some? && InRange(shape, budget)
    ensures var n, (mode, amount) := CountOf(shape), (shape.selection.value.0, DecimalValue(shape.selection.value.1));
            Keeps(Print(shape), sign, source, budget, drawn, n, DecimalValue(shape.faces), KeptOf(mode, amount, n), HighStay(mode))
  {
    TermThrows(shape, sign, source, budget, drawn);
    PlanOf(shape, budget);
    var n, faces := CountOf(shape), DecimalValue(shape.faces);
    var (mode, amount) := (shape.selection.value.0, DecimalValue(shape.selection.value.1));
    var thrown := Thrown(source, drawn, n, faces);
    SelectionIsOptimal(thrown, mode, amount);
    assert Evaluate(Print(shape), sign, source, budget, drawn).value.term.dice == Selected(thrown, mode, amount);
  }

  // Digits for a count, a die and a number to keep or drop, all in range.
  predicate Numbers(c: string, f: string, k: string, budget: nat) {
    && c != "" && f != "" && k != "" && AllDigits(c) && AllDigits(f) && AllDigits(k)
    && 1 <= DecimalValue(c) <= budget && DecimalValue(c) < 0x8000_0000_0000_0000
    && 2 <= DecimalValue(f) <= 1000 && DecimalValue(k) < 0x8000_0000_0000_0000
  }

  lemma Regroup(c: string, f: string, mode: string, k: string)
    ensures c + ("d" + (f + (mode + k))) == c + "d" + f + mode + k
  {
  }

  /** Keeping the highest: the largest subtotal of any that many dice. */
  lemma KeepHighest(c: string, f: string, k: string, sign: int, source: Source, budget: nat, drawn: nat)
    requires Numbers(c, f, k, budget)
    ensures Keeps(c + "d" + f + "kh" + k, sign, source, budget, drawn, DecimalValue(c), DecimalValue(f),
                  Least(DecimalValue(k), DecimalValue(c)), true)
  {
    SelectingTerm(Shape(c, f, Some((KeepHigh, k))), sign, source, budget, drawn);
    Regroup(c, f, "kh", k);
  }

  /** Keeping the lowest: the smallest. */
  lemma KeepLowest(c: string, f: string, k: string, sign: int, source: Source, budget: nat, drawn: nat)
    requires Numbers(c, f, k, budget)
    ensures Keeps(c + "d" + f + "kl" + k, sign, source, budget, drawn, DecimalValue(c), DecimalValue(f),
                  Least(DecimalValue(k), DecimalValue(c)), false)
  {
    SelectingTerm(Shape(c, f, Some((KeepLow, k))), sign, source, budget, drawn);
    Regroup(c, f, "kl", k);
  }

  /** Dropping the highest: the smallest subtotal of as many dice as are left. */
  lemma DropHighest(c: string, f: string, k: string, sign: int, source: Source, budget: nat, drawn: nat)
    requires Numbers(c, f, k, budget)
    ensures Keeps(c + "d" + f + "dh" + k, sign, source, budget, drawn, DecimalValue(c), DecimalValue(f),
                  DecimalValue(c) - Least(DecimalValue(k), DecimalValue(c)), false)
  {
    SelectingTerm(Shape(c, f, Some((DropHigh, k))), sign, source, budget, drawn);
    Regroup(c, f, "dh", k);
  }

  /** Dropping the lowest: the largest. */
  lemma DropLowest(c: string, f: string, k: string, sign: int, source: Source, budget: nat, drawn: nat)
    requires Numbers(c, f, k, budget)
    ensures Keeps(c + "d" + f + "dl" + k, sign, source, budget, drawn, DecimalValue(c), DecimalValue(f),
                  DecimalValue(c) - Least(DecimalValue(k), DecimalValue(c)), true)
  {
    SelectingTerm(Shape(c, f, Some((DropLow, k))), sign, source, budget, drawn);
    Regroup(c, f, "dl", k);
  }

  // ----- Every term -----

  /** A number is a term of that value that throws nothing. */
  lemma NumberTerm(s: string, sign: int, source: Source, budget: nat, drawn: nat)
    requires s != "" && AllDigits(s) && DecimalValue(s) < 0x8000_0000_0000_0000
    ensures Evaluate(s, sign, source, budget, drawn)
         == Success(Evaluated(Term(sign, s, [], Some(DecimalValue(s)), DecimalValue(s)), budget, drawn))
  {
    NumberReads(s);
  }

  /** Numbers that fit and dice in range are terms, and nothing else is. */
  lemma AcceptedTerms(piece: string, sign: int, source: Source, budget: nat, drawn: nat)
    ensures Evaluate(piece, sign, source, budget, drawn).Success? <==>
            || (piece != "" && AllDigits(piece) && DecimalValue(piece) < 0x8000_0000_0000_0000)
            || (exists shape :: WellFormed(shape) && Print(shape) == piece && InRange(shape, budget))
  {
    if piece != "" && AllDigits(piece) {
      NumberReads(piece);
    }
    if ParseShape(piece).Some? {
      ReadPrintsBack(piece);
      TermThrows(ParseShape(piece).value, sign, source, budget, drawn);
    }
    forall shape | WellFormed(shape) && Print(shape) == piece
      ensures InRange(shape, budget) <==> Evaluate(piece, sign, source, budget, drawn).Success?
    {
      TermThrows(shape, sign, source, budget, drawn);
    }
  }

  // ----- Normalising -----

  // Letters in small, everything else as it is.
  predicate Lowered(s: string, lowered: string) {
    |lowered| == |s| && forall i :: 0 <= i < |s| ==>
      s[i] as int < 128 && lowered[i] as int == (if 65 <= s[i] as int <= 90 then s[i] as int + 32 else s[i] as int)
  }

  // No white space but blanks.
  predicate BlanksOnly(s: string) {
    forall i :: 0 <= i < |s| ==> s[i] as int !in {9, 10, 11, 12, 13}
  }

  lemma {:induction false} BlankIsNothing(s: string)
    requires forall i :: 0 <= i < |s| ==> s[i] == ' '
    ensures Without(s, ' ') == ""
  {
    if s != "" {
      BlankIsNothing(s[1..]);
    }
  }

  lemma LoweredPart(tables: Unicode, s: string, lowered: string, i: nat, j: nat)
    requires Lowered(s, lowered) && i <= j <= |s|
    ensures ToLower(tables, s[i..j]) == lowered[i..j]
  {
    forall k | 0 <= k < j - i ensures Lower(tables, s[i..j][k]) == lowered[i..j][k] {
      Ascii(tables, s[i + k]);
    }
  }

  lemma BlankEnds(tables: Unicode, s: string, lowered: string, i: nat, j: nat)
    requires Lowered(s, lowered) && BlanksOnly(s) && i <= j <= |s|
    requires All(s[i..j], c => IsSpace(tables, c))
    ensures Without(lowered[i..j], ' ') == ""
  {
    forall k | 0 <= k < j - i ensures lowered[i..j][k] == ' ' {
      assert IsSpace(tables, s[i..j][k]);
      Ascii(tables, s[i + k]);
    }
    BlankIsNothing(lowered[i..j]);
  }

  /** An ASCII expression is rolled in small letters and without its blanks, wherever they are. */
  lemma NormalisedExactly(tables: Unicode, expression: string, lowered: string)
    requires Lowered(expression, lowered) && BlanksOnly(expression)
    ensures Normalised(tables, expression) == Without(lowered, ' ')
  {
    var i, j := TrimsExactly(tables, expression);
    LoweredPart(tables, expression, lowered, i, j);
    assert expression[..i] == expression[0..i] && expression[j..] == expression[j..|expression|];
    BlankEnds(tables, expression, lowered, 0, i);
    BlankEnds(tables, expression, lowered, j, |expression|);
    ThreeParts(lowered, i, j);
    OnlyTheMiddle(lowered[0..i], lowered[i..j], lowered[j..|expression|]);
  }

  // Ends that vanish leave the middle.
  lemma OnlyTheMiddle(first: string, middle: string, last: string)
    requires Without(first, ' ') == "" && Without(last, ' ') == ""
    ensures Without(first + (middle + last), ' ') == Without(middle, ' ')
  {
    var kept := Without(middle, ' ');
    WithoutOnly(first, middle + last, ' ');
    WithoutOnly(middle, last, ' ');
    assert Without(middle + last, ' ') == kept + "" == kept;
    assert "" + kept == kept;
  }

  lemma ThreeParts(s: string, i: nat, j: nat)
    requires i <= j <= |s|
    ensures s == s[0..i] + (s[i..j] + s[j..|s|])
  {
  }

  // ----- Expressions of a single term -----

  predicate NoSign(s: string) {
    forall i :: 0 <= i < |s| ==> !IsSign(s[i])
  }

  lemma {:induction false} OnePiece(sign: int, buffer: string, rest: string)
    requires NoSign(rest)
    ensures PiecesFrom(sign, buffer, rest) == [Piece(sign, buffer + rest)]
    decreases |rest|
  {
    if rest == "" {
      assert buffer + rest == buffer;
    } else {
      assert !IsSign(rest[0]);
      OnePiece(sign, buffer + [rest[0]], rest[1..]);
      assert buffer + [rest[0]] + rest[1..] == buffer + rest;
    }
  }

  /** An expression without a sign is one term, and its total that term's subtotal. */
  lemma SingleTerm(piece: string, source: Source)
    requires 1 <= |piece| <= 200 && NoSign(piece)
    ensures RollNormalised(piece, source).Success? <==> Evaluate(piece, 1, source, 200, 0).Success?
    ensures RollNormalised(piece, source).Success? ==>
              RollNormalised(piece, source).value.total == Evaluate(piece, 1, source, 200, 0).value.term.subtotal
  {
    OnePiece(1, "", piece);
    assert "" + piece == piece;
    assert !IsSign(piece[0]) && Pieces(piece) == [Piece(1, piece)];
    FlushOne(Piece(1, piece), source);
  }

  lemma FlushOne(piece: Piece, source: Source)
    ensures FlushAll(OPENING, [piece], source) == Flush(OPENING, piece, source)
  {
    assert [piece][1..] == [];
    var first := Flush(OPENING, piece, source);
    assert first.Success? ==> FlushAll(first.value, [], source) == first;
  }

  lemma OneAndTwenty()
    ensures AllDigits("1") && DecimalValue("1") == 1 && AllDigits("20") && DecimalValue("20") == 20
  {
    assert "1"[..0] == "" && "20"[..1] == "2" && "2"[..0] == "";
    assert DecimalValue("2") == 2;
  }

  // A single die kept is the whole subtotal.
  lemma OneDie(dice: seq<Die>)
    requires |dice| == 1 && dice[0].kept
    ensures Subtotal(Values(dice), Flags(dice)) == dice[0].value
  {
    assert Values(dice)[1..] == [] && Flags(dice)[1..] == [];
  }

  /** One die and no selection: the total is the one draw. */
  lemma OneThrow(shape: Shape, source: Source)
    requires WellFormed(shape) && shape.selection.None? && CountOf(shape) == 1 && 2 <= DecimalValue(shape.faces) <= 1000
    requires 1 <= |Print(shape)| <= 200 && NoSign(Print(shape))
    ensures var r := RollNormalised(Print(shape), source);
            r.Success? && r.value.total == source(0, DecimalValue(shape.faces))
  {
    TermThrows(shape, 1, source, 200, 0);
    SingleTerm(Print(shape), source);
    OneDie(Evaluate(Print(shape), 1, source, 200, 0).value.term.dice);
  }

  lemma OneD20(source: Source)
    ensures RollNormalised("1d20", source).Success? && RollNormalised("1d20", source).value.total == source(0, 20)
  {
    var shape := Shape("1", "20", None);
    OneAndTwenty();
    assert Tail(shape) == "20" + "" == "20";
    assert Print(shape) == "1d20";
    OneThrow(shape, source);
  }
}
