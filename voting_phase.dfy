/** components/VotingPhase.tsx: the open vote. The living players are the
    suspects; one is picked and the pick is confirmed. */
module VotingPhase {
  import opened GameTypes
  import opened JsText

  class SuspectScreen {
    const players: seq<Player>
    var selectedSuspect: Option<string>

    /** A selection is always the id of a living player. */
    ghost predicate Valid()
      reads this
    {
      selectedSuspect.Some? ==> exists p :: p in Living(players) && p.id == selectedSuspect.value
    }

    constructor (players: seq<Player>)
      ensures Valid()
      ensures this.players == players && selectedSuspect == None
    {
      this.players := players;
      selectedSuspect := None;
    }

    /** Tapping a suspect; only living players are listed. The new pick
        replaces the previous one. */
    method Select(suspect: Player)
      requires Valid()
      requires suspect in Living(players)
      modifies this`selectedSuspect
      ensures Valid()
      ensures selectedSuspect == Some(suspect.id)
    {
      selectedSuspect := Some(suspect.id);
    }

    /** `selectedSuspect && onVote(selectedSuspect)`: nothing while no one is
        picked, otherwise exactly the picked id, a living player's. */
    method Confirm() returns (vote: Option<string>)
      requires Valid()
      ensures vote.Some? <==> Truthy(selectedSuspect)
      ensures vote.Some? ==> vote == selectedSuspect
      ensures vote.Some? ==> exists p :: p in players && !p.isDead && p.id == vote.value
    {
      if !Truthy(selectedSuspect) {
        return None;
      }
      vote := selectedSuspect;
    }
  }
}
