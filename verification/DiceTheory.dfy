/** What an accepted dice expression guarantees. */
module DiceTheory {
  import opened DiceSelection
  import opened Dice

  // ----- Splitting loses nothing -----

  function SignText(sign: int): string {
    if sign < 0 then "-" else "+"
  }

  // Each piece with its sign in front.
  function Signed(pieces: seq<Piece>): string {
    if pieces == [] then "" else SignText(pieces[0].sign) + pieces[0].text + Signed(pieces[1..])
  }

  // The first piece carries its sign only when it is a minus.
  function Join(pieces: seq<Piece>): string {
    if pieces == [] then ""
    else (if pieces[0].sign < 0 then "-" else "") + pieces[0].text + Signed(pieces[1..])
  }

  lemma {:induction false} PiecesRejoin(sign: int, buffer: string, rest: string)
    ensures Signed(PiecesFrom(sign, buffer, rest)) == SignText(sign) + buffer + rest
    ensures Join(PiecesFrom(sign, buffer, rest)) == (if sign < 0 then "-" else "") + buffer + rest
    decreases |rest|
  {
    if rest == [] {
      assert buffer + rest == buffer;
      assert [Piece(sign, buffer)][1..] == [];
    } else if IsSign(rest[0]) {
      var later := PiecesFrom(SignOf(rest[0]), "", rest[1..]);
      PiecesRejoin(SignOf(rest[0]), "", rest[1..]);
      assert ([Piece(sign, buffer)] + later)[1..] == later;
      assert SignText(SignOf(rest[0])) + "" + rest[1..] == rest;
    } else {
      PiecesRejoin(sign, buffer + [rest[0]], rest[1..]);
      assert buffer + [rest[0]] + rest[1..] == buffer + rest;
    }
  }

  /** Joining the signs and texts of the pieces gives back the expression, up to a leading plus. */
  lemma SplittingLosesNothing(normalised: string)
    requires normalised != ""
    ensures normalised == Join(Pieces(normalised)) || normalised == "+" + Join(Pieces(normalised))
  {
    if IsSign(normalised[0]) {
      PiecesRejoin(SignOf(normalised[0]), "", normalised[1..]);
      assert normalised == [normalised[0]] + normalised[1..];
    } else {
      PiecesRejoin(1, "", normalised);
    }
  }

  // ----- Evaluating -----

  function PiecesOf(terms: seq<Term>): (r: seq<Piece>)
    ensures |r| == |terms| && forall i :: 0 <= i < |r| ==> r[i] == Piece(terms[i].sign, terms[i].text)
  {
    seq(|terms|, i requires 0 <= i < |terms| => Piece(terms[i].sign, terms[i].text))
  }

  function SignedSum(terms: seq<Term>): int {
    if terms == [] then 0 else SignedSum(terms[..|terms| - 1]) + terms[|terms| - 1].sign * terms[|terms| - 1].subtotal
  }

  function DiceCount(terms: seq<Term>): nat {
    if terms == [] then 0 else DiceCount(terms[..|terms| - 1]) + |terms[|terms| - 1].dice|
  }

  // A tally in order: its total and its budget follow from its terms.
  predicate Balanced(tally: Tally) {
    && tally.total == SignedSum(tally.terms)
    && DiceCount(tally.terms) + tally.budget == MAX_DICE
    && tally.drawn == DiceCount(tally.terms)
  }

  lemma FlushKeeps(tally: Tally, piece: Piece, source: Source)
    requires Balanced(tally) && Flush(tally, piece, source).Success?
    ensures Balanced(Flush(tally, piece, source).value)
    ensures PiecesOf(Flush(tally, piece, source).value.terms) == PiecesOf(tally.terms) + [piece]
  {
    var next := Flush(tally, piece, source).value;
    assert next.terms[..|next.terms| - 1] == tally.terms;
  }

  lemma {:induction false} FlushAllBalances(tally: Tally, pieces: seq<Piece>, source: Source)
    requires Balanced(tally) && FlushAll(tally, pieces, source).Success?
    ensures Balanced(FlushAll(tally, pieces, source).value)
    decreases |pieces|
  {
    if pieces != [] {
      FlushKeeps(tally, pieces[0], source);
      FlushAllBalances(Flush(tally, pieces[0], source).value, pieces[1..], source);
    }
  }

  lemma Regroup(front: seq<Piece>, pieces: seq<Piece>)
    requires pieces != []
    ensures front + [pieces[0]] + pieces[1..] == front + pieces
  {
  }

  lemma {:induction false} FlushAllSpells(tally: Tally, pieces: seq<Piece>, source: Source)
    requires Balanced(tally) && FlushAll(tally, pieces, source).Success?
    ensures PiecesOf(FlushAll(tally, pieces, source).value.terms) == PiecesOf(tally.terms) + pieces
    decreases |pieces|
  {
    if pieces == [] {
      assert PiecesOf(tally.terms) + pieces == PiecesOf(tally.terms);
    } else {
      FlushKeeps(tally, pieces[0], source);
      FlushAllSpells(Flush(tally, pieces[0], source).value, pieces[1..], source);
      Regroup(PiecesOf(tally.terms), pieces);
    }
  }

  /** For every accepted expression: it has 1 to 200 characters, the terms spell it out again up
      to a leading plus, the total is the signed sum of their subtotals, and all terms together
      use at most 200 dice. */
  lemma AcceptedExpression(normalised: string, source: Source)
    requires RollNormalised(normalised, source).Success?
    ensures var tally := RollNormalised(normalised, source).value;
            && 1 <= |normalised| <= 200
            && (normalised == Join(PiecesOf(tally.terms)) || normalised == "+" + Join(PiecesOf(tally.terms)))
            && tally.total == SignedSum(tally.terms)
            && DiceCount(tally.terms) <= 200
  {
    FlushAllBalances(OPENING, Pieces(normalised), source);
    FlushAllSpells(OPENING, Pieces(normalised), source);
    SplittingLosesNothing(normalised);
    assert PiecesOf(OPENING.terms) + Pieces(normalised) == Pieces(normalised);
  }

  // ----- Acceptance depends on the expression alone -----

  predicate Agree(a: Result<Tally>, b: Result<Tally>) {
    if a.Failure? then a == b else b.Success? && a.value.budget == b.value.budget
  }

  lemma {:induction false} FlushAllAgree(t: Tally, u: Tally, pieces: seq<Piece>, first: Source, second: Source)
    requires t.budget == u.budget
    ensures Agree(FlushAll(t, pieces, first), FlushAll(u, pieces, second))
    decreases |pieces|
  {
    if pieces != [] {
      var a, b := Flush(t, pieces[0], first), Flush(u, pieces[0], second);
      assert Agree(a, b);
      if a.Success? {
        FlushAllAgree(a.value, b.value, pieces[1..], first, second);
      }
    }
  }

  /** Whatever the dice show, an expression is accepted or refused, and refused for the same
      reason: one checked once cannot fail later. */
  lemma AcceptanceIgnoresTheDice(normalised: string, first: Source, second: Source)
    ensures Agree(RollNormalised(normalised, first), RollNormalised(normalised, second))
  {
    if normalised != "" && |normalised| <= MAX_LENGTH {
      FlushAllAgree(OPENING, OPENING, Pieces(normalised), first, second);
    }
  }

  // ----- The subtotal of a thrown term -----

  /** A term that keeps or drops dice has the best subtotal its kept number of the dice thrown
      could have: the largest when high dice stay, the smallest otherwise. */
  lemma ThrownTermIsOptimal(piece: string, sign: int, source: Source, budget: nat, drawn: nat)
    requires PlanTerm(piece, budget).Success? && PlanTerm(piece, budget).value.Throw?
    requires PlanTerm(piece, budget).value.selection.Some? && PlanTerm(piece, budget).value.count <= budget
    ensures var plan := PlanTerm(piece, budget).value;
            var thrown := Thrown(source, drawn, plan.count, plan.faces);
            var (mode, amount) := plan.selection.value;
            && Evaluate(piece, sign, source, budget, drawn).Success?
            && var term := Evaluate(piece, sign, source, budget, drawn).value.term;
               && Values(term.dice) == Values(thrown)
               && Count(Flags(term.dice)) == KeptOf(mode, amount, plan.count)
               && term.subtotal == Subtotal(Values(thrown), Flags(term.dice))
               && Optimal(Values(thrown), Flags(term.dice), HighStay(mode))
  {
    var plan := PlanTerm(piece, budget).value;
    SelectionIsOptimal(Thrown(source, drawn, plan.count, plan.faces), plan.selection.value.0, plan.selection.value.1);
  }
}
