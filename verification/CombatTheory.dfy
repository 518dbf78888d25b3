/** What holds over every run of starting, advancing and ending a combat. */
module CombatTheory {
  import opened Wrappers
  import Dice
  import DiceTheory
  import opened Text
  import opened TextTheory
  import opened DiceText
  import opened CombatOrder
  import opened Combat

  // ----- Starting -----

  // A combatant is a token with its roll.
  predicate RollOf(roll: Dice.Result<Dice.Tally>, token: Token, combatant: Combatant) {
    roll.Success? && combatant == Combatant(token.id, token.name, roll.value.total, token.disposition)
  }

  // The rolled list names the tokens in listing order, each with a roll of its own.
  predicate Rolled(rolls: Rolls, tokens: seq<Token>, rolled: seq<Combatant>) {
    |rolled| == |tokens| && forall i :: 0 <= i < |tokens| ==> RollOf(rolls(i), tokens[i], rolled[i])
  }

  lemma ThrowsAgree(tables: Unicode, formula: string, first: Dice.Source, second: Dice.Source)
    ensures Throw(tables, formula, first).Success? <==> Throw(tables, formula, second).Success?
  {
    DiceTheory.AcceptanceIgnoresTheDice(Dice.Normalised(tables, formula), first, second);
  }

  lemma {:induction false} AllRolled(rolls: Rolls, tokens: seq<Token>, n: nat)
    requires n <= |tokens| && forall i: nat :: rolls(i).Success?
    ensures RollAll(rolls, tokens[..n]).Success? && Rolled(rolls, tokens[..n], RollAll(rolls, tokens[..n]).value)
    decreases n
  {
    if n > 0 {
      AllRolled(rolls, tokens, n - 1);
      RollOneMore(rolls, tokens, n - 1);
    }
  }

  lemma CheckedFormulaNeverFails(tables: Unicode, formula: string, tokens: seq<Token>, draws: Draws)
    requires Throw(tables, formula, draws.check).Success?
    ensures var rolls := RollsOf(tables, formula, draws);
            RollAll(rolls, tokens).Success? && Rolled(rolls, tokens, RollAll(rolls, tokens).value)
  {
    var rolls := RollsOf(tables, formula, draws);
    forall i: nat ensures rolls(i).Success? {
      ThrowsAgree(tables, formula, draws.check, draws.token(i));
    }
    AllRolled(rolls, tokens, |tokens|);
    assert tokens[..|tokens|] == tokens;
  }

  /** A formula that passed the check cannot fail while the initiative is rolled, and a started
      combat has between 1 and 60 combatants: the listed tokens, each with a roll of its own, as
      a stable sort leaves them. */
  lemma StartIsSound(tables: Unicode, stored: Option<Combat>, request: StartRequest, tokens: seq<Token>, draws: Draws)
    returns (rolled: seq<Combatant>)
    ensures var (reply, next) := Start(tables, stored, request, tokens, draws);
            && !reply.Broken?
            && (reply.Done? <==> request.staff && request.sceneId != "" && tokens != []
                                 && Throw(tables, FormulaOf(tables, request), draws.check).Success?)
            && (!reply.Done? ==> next == stored)
            && (reply.Done? ==>
                  && next == Some(reply.combat) && JustStarted(reply.combat)
                  && Rolled(RollsOf(tables, FormulaOf(tables, request), draws), Listed(tokens), rolled)
                  && IsStableSort(rolled, reply.combat.combatants))
  {
    rolled := [];
    var formula := FormulaOf(tables, request);
    if request.staff && request.sceneId != "" && Throw(tables, formula, draws.check).Success? && tokens != [] {
      var listed := Listed(tokens);
      CheckedFormulaNeverFails(tables, formula, listed, draws);
      rolled := RollAll(RollsOf(tables, formula, draws), listed).value;
      StableSortIsUnique(rolled, Sorted(rolled));
      OrderedAfterSorting(rolled);
    }
  }

  /** A formula that is given, without the white space around it, is the one kept and rolled: for
      each token listed the total of that expression, with that token's own dice. */
  lemma GivenFormulaIsRolled(tables: Unicode, stored: Option<Combat>, request: StartRequest, tokens: seq<Token>, draws: Draws)
    returns (rolled: seq<Combatant>)
    requires TrimSpace(tables, request.formula) != "" && Start(tables, stored, request, tokens, draws).0.Done?
    ensures var combat, text := Start(tables, stored, request, tokens, draws).0.combat, TrimSpace(tables, request.formula);
            && combat.formula == text && combat.sceneId == request.sceneId && IsStableSort(rolled, combat.combatants)
            && |rolled| == (if |tokens| < 60 then |tokens| else 60)
            && forall i :: 0 <= i < |rolled| ==>
                 RollOf(Dice.RollNormalised(Dice.Normalised(tables, text), draws.token(i)), tokens[i], rolled[i])
  {
    var text := TrimSpace(tables, request.formula);
    rolled := StartIsSound(tables, stored, request, tokens, draws);
    var rolls := RollsOf(tables, text, draws);
    forall i | 0 <= i < |rolled|
      ensures RollOf(Dice.RollNormalised(Dice.Normalised(tables, text), draws.token(i)), tokens[i], rolled[i])
    {
      assert RollOf(rolls(i), Listed(tokens)[i], rolled[i]);
      assert rolls(i) == Dice.RollNormalised(Dice.Normalised(tables, text), draws.token(i));
    }
  }

  /** Without a formula everyone rolls one die of twenty faces, and the first 60 tokens listed
      take part. */
  lemma BlankFormulaIsD20(tables: Unicode, stored: Option<Combat>, request: StartRequest, tokens: seq<Token>, draws: Draws)
    returns (rolled: seq<Combatant>)
    requires request.staff && request.sceneId != "" && tokens != [] && TrimSpace(tables, request.formula) == ""
    ensures var (reply, next) := Start(tables, stored, request, tokens, draws);
            && reply.Done? && IsStableSort(rolled, reply.combat.combatants)
            && |rolled| == (if |tokens| < 60 then |tokens| else 60)
            && forall i :: 0 <= i < |rolled| ==>
                 rolled[i] == Combatant(tokens[i].id, tokens[i].name, draws.token(i)(0, 20), tokens[i].disposition)
  {
    PlainStays(tables, "1d20");
    assert Dice.Normalised(tables, "1d20") == "1d20";
    OneD20(draws.check);
    rolled := StartIsSound(tables, stored, request, tokens, draws);
    forall i | 0 <= i < |rolled|
      ensures rolled[i] == Combatant(tokens[i].id, tokens[i].name, draws.token(i)(0, 20), tokens[i].disposition)
    {
      OneD20(draws.token(i));
      assert Listed(tokens)[i] == tokens[i];
      assert RollOf(RollsOf(tables, "1d20", draws)(i), tokens[i], rolled[i]);
    }
  }

  // ----- Every run -----

  predicate Ordered(combatants: seq<Combatant>) {
    forall i, j :: 0 <= i < j < |combatants| ==> !Before(combatants[j], combatants[i])
  }

  lemma OrderedAfterSorting(list: seq<Combatant>)
    ensures Ordered(Sorted(list))
  {
    forall i, j | 0 <= i < j < |list| ensures !Before(Sorted(list)[j], Sorted(list)[i]) {
      SortedDescends(list, i, j);
    }
  }

  predicate Running(stored: Option<Combat>) {
    stored.Some? && stored.value.active
    && 1 <= |stored.value.combatants| <= 60
    && 0 <= stored.value.turn < |stored.value.combatants| && 1 <= stored.value.round
    && Ordered(stored.value.combatants)
  }

  predicate Sane(stored: Option<Combat>) {
    stored.Some? ==> if stored.value.active then Running(stored) else stored.value.combatants == []
  }

  datatype Action =
    | DoStart(request: StartRequest, tokens: seq<Token>, draws: Draws)
    | DoNext(staff: bool)
    | DoEnd(staff: bool)

  function Act(tables: Unicode, stored: Option<Combat>, action: Action): (Reply, Option<Combat>) {
    match action
    case DoStart(request, tokens, draws) => Start(tables, stored, request, tokens, draws)
    case DoNext(staff) => Next(stored, staff)
    case DoEnd(staff) => End(stored, staff)
  }

  function ActAll(tables: Unicode, stored: Option<Combat>, actions: seq<Action>): Option<Combat>
    decreases |actions|
  {
    if actions == [] then stored else ActAll(tables, Act(tables, stored, actions[0]).1, actions[1..])
  }

  lemma ActKeepsSane(tables: Unicode, stored: Option<Combat>, action: Action)
    requires Sane(stored)
    ensures Sane(Act(tables, stored, action).1)
  {
    if action.DoStart? {
      var rolled := StartIsSound(tables, stored, action.request, action.tokens, action.draws);
    }
  }

  /** After every run from no combat at all, an active combat has 1 to 60 combatants in turn
      order and a turn among them, and an inactive one has none. */
  lemma {:induction false} RunsStaySane(tables: Unicode, stored: Option<Combat>, actions: seq<Action>)
    requires Sane(stored)
    ensures Sane(ActAll(tables, stored, actions))
    decreases |actions|
  {
    if actions != [] {
      ActKeepsSane(tables, stored, actions[0]);
      RunsStaySane(tables, Act(tables, stored, actions[0]).1, actions[1..]);
    }
  }

  // ----- Taking turns -----

  predicate OnlyNexts(actions: seq<Action>) {
    forall i :: 0 <= i < |actions| ==> actions[i].DoNext?
  }

  // Only staff moves the turn on.
  function Advances(actions: seq<Action>): nat
    requires OnlyNexts(actions)
  {
    if actions == [] then 0 else (if actions[0].staff then 1 else 0) + Advances(actions[1..])
  }

  // The combat k advances after the given place.
  predicate At(combat: Combat, first: Combat, k: nat) {
    var n := |first.combatants|;
    n > 0 && combat == first.(turn := k % n, round := 1 + k / n)
  }

  lemma StepDivision(k: nat, n: nat)
    requires n > 0
    ensures k % n + 1 < n ==> (k + 1) % n == k % n + 1 && (k + 1) / n == k / n
    ensures k % n + 1 >= n ==> (k + 1) % n == 0 && (k + 1) / n == k / n + 1
  {
    var q, r := k / n, k % n;
    assert k == q * n + r;
    if r + 1 < n {
      Quotient(k + 1, n, q, r + 1);
    } else {
      assert k + 1 == q * n + n == (q + 1) * n;
      Quotient(k + 1, n, q + 1, 0);
    }
  }

  lemma Multiples(d: int, n: int)
    requires n > 0
    ensures d >= 1 ==> d * n >= n
    ensures d <= -1 ==> d * n <= -n
  {
  }

  lemma Quotient(k: nat, n: nat, q: nat, r: nat)
    requires n > 0 && k == q * n + r && r < n
    ensures k / n == q && k % n == r
  {
    var d := k / n - q;
    assert d * n == (k / n) * n - q * n;
    Multiples(d, n);
  }

  /** However many times the turn is passed on, the same combatants stay, the turn is the number
      of advances modulo their number and the round one more than the quotient. */
  lemma {:induction false} AfterAdvances(tables: Unicode, first: Combat, k: nat, stored: Option<Combat>, actions: seq<Action>)
    requires first.active && first.combatants != [] && OnlyNexts(actions)
    requires stored.Some? && At(stored.value, first, k)
    ensures var last := ActAll(tables, stored, actions);
            last.Some? && At(last.value, first, k + Advances(actions))
    decreases |actions|
  {
    if actions != [] {
      var next := Act(tables, stored, actions[0]).1;
      if actions[0].staff {
        StepDivision(k, |first.combatants|);
        AfterAdvances(tables, first, k + 1, next, actions[1..]);
      } else {
        AfterAdvances(tables, first, k, next, actions[1..]);
      }
    }
  }

  // As a start leaves it.
  predicate JustStarted(first: Combat) {
    Running(Some(first)) && first.turn == 0 && first.round == 1
  }

  /** From a start on: any number of advances, by the division of their count. */
  lemma TurnsFromStart(tables: Unicode, first: Combat, actions: seq<Action>)
    requires JustStarted(first) && OnlyNexts(actions)
    ensures var last := ActAll(tables, Some(first), actions);
            && Running(last)
            && last.value.combatants == first.combatants
            && last.value.turn == Advances(actions) % |first.combatants|
            && last.value.round == 1 + Advances(actions) / |first.combatants|
  {
    var n := |first.combatants|;
    Quotient(0, n, 0, 0);
    AfterAdvances(tables, first, 0, Some(first), actions);
    RunsStaySane(tables, Some(first), actions);
  }

  lemma Division(k: nat, n: nat, q: nat, r: nat)
    requires n > 0 && r < n
    ensures k % n == r && k / n == q <==> k == q * n + r
  {
    if k == q * n + r {
      Quotient(k, n, q, r);
    }
  }

  /** In every round each combatant has the turn once: after one number of advances and no other. */
  lemma EveryoneActsOncePerRound(tables: Unicode, first: Combat, actions: seq<Action>, round: nat, place: nat)
    requires JustStarted(first) && OnlyNexts(actions) && round >= 1 && place < |first.combatants|
    ensures var last := ActAll(tables, Some(first), actions);
            && last.Some?
            && ((last.value.turn == place && last.value.round == round)
                <==> Advances(actions) == (round - 1) * |first.combatants| + place)
  {
    TurnsFromStart(tables, first, actions);
    Division(Advances(actions), |first.combatants|, round - 1, place);
  }

  /** Once staff has ended a combat, no one passes a turn on until another is started. */
  lemma {:induction false} EndStopsTurns(tables: Unicode, stored: Option<Combat>, actions: seq<Action>)
    requires stored.Some? && OnlyNexts(actions)
    ensures End(stored, true).0.Done? && !End(stored, true).0.combat.active
    ensures ActAll(tables, End(stored, true).1, actions) == End(stored, true).1
    decreases |actions|
  {
    if actions != [] {
      EndStopsTurns(tables, stored, actions[1..]);
    }
  }
}
