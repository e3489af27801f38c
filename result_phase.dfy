/** The end-of-game screen's arithmetic (components/ResultPhase.tsx): the points
    each player earned in the game just finished, and the ledger total shown
    beside them. */
module ResultPhase {
  import opened GameTypes

  /** The `currentRound` prop; the component substitutes 1 when it is not passed. */
  function RoundOrDefault(currentRound: Option<int>): (r: int)
    ensures currentRound.None? ==> r == 1
    ensures currentRound.Some? ==> r == currentRound.value
  {
    if currentRound.Some? then currentRound.value else 1
  }

  /** `getPointsEarned`: points by role, winner, death and rounds survived. */
  function PointsEarned(winner: Winner, p: Player, currentRound: Option<int>): int
  {
    var roundsSurvived := RoundOrDefault(currentRound);
    match winner
    case Citizens =>
      (match p.role
       case Citizen => 100
       case Undercover => if p.isDead then 50 else 150
       case Impostor => roundsSurvived * 25)
    case Impostors =>
      (match p.role
       case Impostor => 100 + roundsSurvived * 50
       case Undercover => if p.isDead then 0 else 25
       case Citizen => 0)
  }

  /** The winners' rows of the scoring table. */
  lemma WinnersScore(p: Player, round: int)
    ensures p.role == Citizen ==> PointsEarned(Citizens, p, Some(round)) == 100
    ensures p.role == Impostor ==> PointsEarned(Impostors, p, Some(round)) == 100 + 50 * round
    ensures p.role == Undercover && !p.isDead ==> PointsEarned(Citizens, p, Some(round)) == 150
    ensures p.role == Undercover && p.isDead ==> PointsEarned(Citizens, p, Some(round)) == 50
  {
  }

  /** The losers' rows: a caught impostor keeps 25 per round, an undercover on
      the losing side keeps 25 only if alive, and a losing citizen gets nothing. */
  lemma LosersScore(p: Player, round: int)
    ensures p.role == Impostor ==> PointsEarned(Citizens, p, Some(round)) == 25 * round
    ensures p.role == Undercover ==> PointsEarned(Impostors, p, Some(round)) == (if p.isDead then 0 else 25)
    ensures p.role == Citizen ==> PointsEarned(Impostors, p, Some(round)) == 0
  {
  }

  /** With a round counter that is not negative (the default is 1), nobody loses points. */
  lemma PointsNeverNegative(w: Winner, p: Player, currentRound: Option<int>)
    requires currentRound.Some? ==> currentRound.value >= 0
    ensures PointsEarned(w, p, currentRound) >= 0
  {
  }

  /** Whoever wins, a surviving undercover earns strictly more than a dead one. */
  lemma SurvivingUndercoverEarnsMore(w: Winner, p: Player, currentRound: Option<int>)
    requires p.role == Undercover
    ensures PointsEarned(w, p.(isDead := false), currentRound) > PointsEarned(w, p.(isDead := true), currentRound)
  {
  }

  /** `scores[p.name] || 0`: the ledger total displayed for a name. */
  function TotalShown(scores: map<string, int>, name: string): (t: int)
    ensures name !in scores ==> t == 0
    ensures name in scores ==> t == scores[name]
  {
    if name in scores && scores[name] != 0 then scores[name] else 0
  }

  /** The "+points" badge is drawn only for a positive amount. */
  predicate ShowsBadge(points: int)
  {
    points > 0
  }

  /** The losing side's citizens and dead undercover agents get no badge; every
      winner and every caught impostor past round 0 gets one. */
  lemma BadgeShownToEarners(w: Winner, p: Player, round: int)
    requires round >= 1
    ensures ShowsBadge(PointsEarned(w, p, Some(round))) <==>
              !(w == Impostors && (p.role == Citizen || (p.role == Undercover && p.isDead)))
  {
  }
}
