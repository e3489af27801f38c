/** The persistent score ledger of App.tsx: `updateScores` adds each player's
    points for the finished game to the total kept under the player's name. */
module ScoreLedger {
  import opened GameTypes
  import ResultPhase

  type Ledger = map<string, int>

  /** `newScores[name]` after the "create at 0" step. */
  function Get(m: Ledger, name: string): int
  {
    if name in m then m[name] else 0
  }

  /** The increment `updateScores` adds for one player. */
  function Increment(winner: Winner, p: Player, roundsSurvived: int): int
  {
    if winner == Citizens then
      if p.role == Citizen then 100
      else if p.role == Undercover then (if p.isDead then 50 else 150)
      else roundsSurvived * 25
    else
      if p.role == Impostor then 100 + roundsSurvived * 50
      else if p.role == Undercover then (if p.isDead then 0 else 25)
      else 0
  }

  /** The ledger after crediting the players one by one, in list order. */
  function Credited(prev: Ledger, winner: Winner, ps: seq<Player>, roundsSurvived: int): Ledger
  {
    if ps == [] then prev
    else
      var m := Credited(prev, winner, ps[..|ps| - 1], roundsSurvived);
      var p := ps[|ps| - 1];
      m[p.name := Get(m, p.name) + Increment(winner, p, roundsSurvived)]
  }

  /** The names of the players. */
  function Names(ps: seq<Player>): (r: set<string>)
    ensures forall n :: n in r <==> exists i :: 0 <= i < |ps| && ps[i].name == n
  {
    if ps == [] then {}
    else
      var r := Names(ps[..|ps| - 1]) + {ps[|ps| - 1].name};
      assert forall i :: 0 <= i < |ps| - 1 ==> ps[..|ps| - 1][i] == ps[i];
      r
  }

  /** What the result screen says the players named `name` earned, summed. */
  function EarnedBy(winner: Winner, ps: seq<Player>, name: string, round: int): int
  {
    if ps == [] then 0
    else
      var p := ps[|ps| - 1];
      EarnedBy(winner, ps[..|ps| - 1], name, round)
        + (if p.name == name then ResultPhase.PointsEarned(winner, p, Some(round)) else 0)
  }

  /** The ledger's increments are the result screen's points. */
  lemma IncrementIsPointsEarned(winner: Winner, p: Player, round: int)
    ensures Increment(winner, p, round) == ResultPhase.PointsEarned(winner, p, Some(round))
  {
  }

  /** After crediting, the ledger knows every old name and every player's name. */
  lemma {:induction false} CreditedKeys(prev: Ledger, winner: Winner, ps: seq<Player>, round: int)
    ensures Credited(prev, winner, ps, round).Keys == prev.Keys + Names(ps)
  {
    if ps != [] {
      CreditedKeys(prev, winner, ps[..|ps| - 1], round);
      assert Names(ps) == Names(ps[..|ps| - 1]) + {ps[|ps| - 1].name};
    }
  }

  /** Each total is the old total (0 if absent) plus what the result screen
      shows that name earning. */
  lemma {:induction false} CreditedEntry(prev: Ledger, winner: Winner, ps: seq<Player>, round: int, n: string)
    ensures Get(Credited(prev, winner, ps, round), n) == Get(prev, n) + EarnedBy(winner, ps, n, round)
  {
    if ps != [] {
      var init := ps[..|ps| - 1];
      var p := ps[|ps| - 1];
      CreditedEntry(prev, winner, init, round, n);
      IncrementIsPointsEarned(winner, p, round);
      var m := Credited(prev, winner, init, round);
      assert Credited(prev, winner, ps, round) == m[p.name := Get(m, p.name) + Increment(winner, p, round)];
    }
  }

  /** `updateScores`: a copy of the ledger, a zero entry for each new name, and
      each player's increment added to the entry under the player's name. */
  method UpdateScores(prevScores: Ledger, winner: Winner, players: seq<Player>, roundsSurvived: int)
    returns (newScores: Ledger)
    ensures newScores == Credited(prevScores, winner, players, roundsSurvived)
    ensures newScores.Keys == prevScores.Keys + Names(players)
    ensures forall n :: n in newScores ==>
              newScores[n] == Get(prevScores, n) + EarnedBy(winner, players, n, roundsSurvived)
    ensures forall n :: n in prevScores && n !in Names(players) ==> newScores[n] == prevScores[n]
  {
    newScores := prevScores;
    var i := 0;
    while i < |players|
      invariant 0 <= i <= |players|
      invariant newScores == Credited(prevScores, winner, players[..i], roundsSurvived)
    {
      newScores := CreditOne(newScores, winner, players[i], roundsSurvived);
      CreditedStep(prevScores, winner, players, i, roundsSurvived);
      i := i + 1;
    }
    assert players[..|players|] == players;
    CreditedLedger(prevScores, winner, players, roundsSurvived);
  }

  /** One iteration of the `forEach`: a missing name starts at 0, then the
      player's points are added to it. */
  method CreditOne(scores: Ledger, winner: Winner, p: Player, roundsSurvived: int) returns (m: Ledger)
    ensures m == scores[p.name := Get(scores, p.name) + Increment(winner, p, roundsSurvived)]
    ensures m[p.name] - Get(scores, p.name) == ResultPhase.PointsEarned(winner, p, Some(roundsSurvived))
  {
    m := scores;
    if p.name !in m {
      m := m[p.name := 0];
    }
    m := m[p.name := m[p.name] + Increment(winner, p, roundsSurvived)];
    IncrementIsPointsEarned(winner, p, roundsSurvived);
  }

  /** The credited ledger holds the old names and the players' names; each
      total grew by what the result screen shows that name earning, and the
      names that did not play keep their totals. */
  lemma CreditedLedger(prev: Ledger, winner: Winner, ps: seq<Player>, round: int)
    ensures Credited(prev, winner, ps, round).Keys == prev.Keys + Names(ps)
    ensures forall n :: n in Credited(prev, winner, ps, round) ==>
              Credited(prev, winner, ps, round)[n] == Get(prev, n) + EarnedBy(winner, ps, n, round)
    ensures forall n :: n in prev && n !in Names(ps) ==> Credited(prev, winner, ps, round)[n] == prev[n]
  {
    var m := Credited(prev, winner, ps, round);
    CreditedKeys(prev, winner, ps, round);
    forall n | n in m
      ensures m[n] == Get(prev, n) + EarnedBy(winner, ps, n, round)
    {
      CreditedEntry(prev, winner, ps, round, n);
    }
    forall n | n in prev && n !in Names(ps)
      ensures m[n] == prev[n]
    {
      NotNamedEarnsNothing(winner, ps, n, round);
    }
  }

  lemma CreditedStep(prev: Ledger, winner: Winner, ps: seq<Player>, i: nat, round: int)
    requires i < |ps|
    ensures Credited(prev, winner, ps[..i + 1], round)
         == var m := Credited(prev, winner, ps[..i], round);
            m[ps[i].name := Get(m, ps[i].name) + Increment(winner, ps[i], round)]
  {
    assert ps[..i + 1][..i] == ps[..i];
  }

  lemma {:induction false} NotNamedEarnsNothing(winner: Winner, ps: seq<Player>, name: string, round: int)
    requires name !in Names(ps)
    ensures EarnedBy(winner, ps, name, round) == 0
  {
    if ps != [] {
      assert Names(ps) == Names(ps[..|ps| - 1]) + {ps[|ps| - 1].name};
      NotNamedEarnsNothing(winner, ps[..|ps| - 1], name, round);
    }
  }

  /** `resetScores`: the ledger is emptied. */
  function ResetScores(): (m: Ledger)
    ensures forall n :: n !in m
  {
    map[]
  }
}
