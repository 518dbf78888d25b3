/** Combat: rolling initiative for the tokens of a scene, passing the turn, and ending. */
module Combat {
  import opened Wrappers
  import Dice
  import opened Text
  import opened CombatOrder

  const DEFAULT_INITIATIVE := "1d20"
  const MAX_COMBATANTS: nat := 60

  datatype Combat = Combat(active: bool, round: int, turn: int, formula: string, sceneId: string, combatants: seq<Combatant>)

  // What is read of a listed token.
  datatype Token = Token(id: string, name: string, disposition: string)

  datatype Reply =
    | Forbidden | MissingScene | MalformedFormula | NoCombatants | NotRunning
    | Broken(error: Dice.Error)
    | Done(combat: Combat)

  // A request to start: who asks, for which scene, with which formula.
  datatype StartRequest = StartRequest(staff: bool, sceneId: string, formula: string)

  // The dice of one start: those of the first check, and those of each token.
  datatype Draws = Draws(check: Dice.Source, token: nat -> Dice.Source)

  function FormulaOf(tables: Unicode, request: StartRequest): string {
    var formula := TrimSpace(tables, request.formula);
    if formula == "" then DEFAULT_INITIATIVE else formula
  }

  function Throw(tables: Unicode, formula: string, source: Dice.Source): Dice.Result<Dice.Tally> {
    Dice.RollNormalised(Dice.Normalised(tables, formula), source)
  }

  function Listed(tokens: seq<Token>): (r: seq<Token>)
    ensures |r| <= MAX_COMBATANTS && r <= tokens
  {
    if |tokens| <= MAX_COMBATANTS then tokens else tokens[..MAX_COMBATANTS]
  }

  // The roll of each token, by its place in the listing.
  type Rolls = nat -> Dice.Result<Dice.Tally>

  function RollsOf(tables: Unicode, formula: string, draws: Draws): Rolls {
    (i: nat) => Throw(tables, formula, draws.token(i))
  }

  // Initiative for the tokens in listing order.
  function RollAll(rolls: Rolls, tokens: seq<Token>): (r: Dice.Result<seq<Combatant>>)
    ensures r.Success? ==> |r.value| == |tokens|
  {
    if tokens == [] then Dice.Success([])
    else
      var n := |tokens| - 1;
      match RollAll(rolls, tokens[..n])
      case Failure(error) => Dice.Failure(error)
      case Success(earlier) =>
        match rolls(n)
        case Failure(error) => Dice.Failure(error)
        case Success(tally) =>
          Dice.Success(earlier + [Combatant(tokens[n].id, tokens[n].name, tally.total, tokens[n].disposition)])
  }

  function Start(tables: Unicode, stored: Option<Combat>, request: StartRequest, tokens: seq<Token>, draws: Draws)
    : (Reply, Option<Combat>)
  {
    var formula := FormulaOf(tables, request);
    if !request.staff then (Forbidden, stored)
    else if request.sceneId == "" then (MissingScene, stored)
    else if Throw(tables, formula, draws.check).Failure? then (MalformedFormula, stored)
    else if tokens == [] then (NoCombatants, stored)
    else match RollAll(RollsOf(tables, formula, draws), Listed(tokens))
      case Failure(error) => (Broken(error), stored)
      case Success(rolled) =>
        var combat := Combat(true, 1, 0, formula, request.sceneId, Sorted(rolled));
        (Done(combat), Some(combat))
  }

  function Advanced(combat: Combat): Combat {
    if combat.turn + 1 >= |combat.combatants| then combat.(turn := 0, round := combat.round + 1)
    else combat.(turn := combat.turn + 1)
  }

  function Next(stored: Option<Combat>, staff: bool): (Reply, Option<Combat>) {
    if !staff then (Forbidden, stored)
    else if stored.None? || !stored.value.active || stored.value.combatants == [] then (NotRunning, stored)
    else (Done(Advanced(stored.value)), Some(Advanced(stored.value)))
  }

  function End(stored: Option<Combat>, staff: bool): (Reply, Option<Combat>) {
    if !staff then (Forbidden, stored)
    else if stored.None? then (NotRunning, stored)
    else
      var over := stored.value.(active := false, combatants := []);
      (Done(over), Some(over))
  }

  method RollInitiative(tables: Unicode, formula: string, tokens: seq<Token>, draws: Draws)
    returns (r: Dice.Result<seq<Combatant>>)
    ensures r == RollAll(RollsOf(tables, formula, draws), tokens)
  {
    ghost var rolls := RollsOf(tables, formula, draws);
    var combatants: seq<Combatant> := [];
    for i := 0 to |tokens|
      invariant RollAll(rolls, tokens[..i]) == Dice.Success(combatants)
    {
      var token := tokens[i];
      var result := Dice.Roll(tables, formula, draws.token(i));
      assert result == rolls(i);
      RollOneMore(rolls, tokens, i);
      if result.Failure? {
        FailureStays(rolls, tokens, i + 1);
        return Dice.Failure(result.error);
      }
      combatants := combatants + [Combatant(token.id, token.name, result.value.total, token.disposition)];
    }
    assert tokens[..|tokens|] == tokens;
    r := Dice.Success(combatants);
  }

  lemma RollOneMore(rolls: Rolls, tokens: seq<Token>, i: nat)
    requires i < |tokens| && RollAll(rolls, tokens[..i]).Success?
    ensures var token := tokens[i];
            RollAll(rolls, tokens[..i + 1])
            == match rolls(i)
               case Failure(error) => Dice.Failure(error)
               case Success(tally) => Dice.Success(RollAll(rolls, tokens[..i]).value
                                                   + [Combatant(token.id, token.name, tally.total, token.disposition)])
  {
    assert tokens[..i + 1][..i] == tokens[..i];
  }

  /** The combat document of a world as the intents change it. */
  class Document {
    var stored: Option<Combat>

    constructor ()
      ensures stored == None
    {
      stored := None;
    }

    method HandleStart(tables: Unicode, request: StartRequest, tokens: seq<Token>, draws: Draws) returns (reply: Reply)
      modifies this
      ensures (reply, stored) == Start(tables, old(stored), request, tokens, draws)
    {
      if !request.staff {
        return Forbidden;
      }
      if request.sceneId == "" {
        return MissingScene;
      }
      var formula := FormulaOf(tables, request);
      var first := Dice.Roll(tables, formula, draws.check);
      if first.Failure? {
        return MalformedFormula;
      }
      var listed := Listed(tokens);
      if |listed| == 0 {
        return NoCombatants;
      }
      var rolled := RollInitiative(tables, formula, listed, draws);
      if rolled.Failure? {
        return Broken(rolled.error);
      }
      var combat := Combat(true, 1, 0, formula, request.sceneId, Sorted(rolled.value));
      stored := Some(combat);
      reply := Done(combat);
    }

    method HandleNext(staff: bool) returns (reply: Reply)
      modifies this
      ensures (reply, stored) == Next(old(stored), staff)
    {
      if !staff {
        return Forbidden;
      }
      if stored.None? || !stored.value.active || |stored.value.combatants| == 0 {
        return NotRunning;
      }
      var loaded := stored.value;
      loaded := loaded.(turn := loaded.turn + 1);
      if loaded.turn >= |loaded.combatants| {
        loaded := loaded.(turn := 0, round := loaded.round + 1);
      }
      stored := Some(loaded);
      reply := Done(loaded);
    }

    method HandleEnd(staff: bool) returns (reply: Reply)
      modifies this
      ensures (reply, stored) == End(old(stored), staff)
    {
      if !staff {
        return Forbidden;
      }
      if stored.None? {
        return NotRunning;
      }
      var loaded := stored.value.(active := false, combatants := []);
      stored := Some(loaded);
      reply := Done(loaded);
    }
  }

  lemma {:induction false} FailureStays(rolls: Rolls, tokens: seq<Token>, n: nat)
    requires n <= |tokens| && RollAll(rolls, tokens[..n]).Failure?
    ensures RollAll(rolls, tokens) == RollAll(rolls, tokens[..n])
    decreases |tokens|
  {
    if n == |tokens| {
      assert tokens[..n] == tokens;
    } else {
      var front := tokens[..|tokens| - 1];
      assert front[..n] == tokens[..n];
      FailureStays(rolls, front, n);
    }
  }
}
