/** components/LocalVotingPhase.tsx: one player's secret ballot. The phone is
    handed over ("waiting"), the player confirms it is them, picks someone
    else who is alive, and confirms the pick. */
module LocalVotingPhase {
  import opened GameTypes
  import opened JsText
  import opened VoteReveal

  datatype Screen = Waiting | Choosing

  /** `allPlayers.filter(p => !p.isDead && p.id !== player.id)`. */
  function Votable(all: seq<Player>, voterId: string): (r: seq<Player>)
    ensures |r| <= |all|
    ensures forall p :: p in r <==> p in all && !p.isDead && p.id != voterId
  {
    if all == [] then []
    else
      var rest := Votable(all[1..], voterId);
      if !all[0].isDead && all[0].id != voterId then [all[0]] + rest else rest
  }

  class BallotScreen {
    const player: Player
    const allPlayers: seq<Player>
    var screen: Screen
    var selectedId: Option<string>

    /** A selection is always the id of a votable player. */
    ghost predicate Valid()
      reads this
    {
      selectedId.Some? ==> exists p :: p in Votable(allPlayers, player.id) && p.id == selectedId.value
    }

    constructor (player: Player, allPlayers: seq<Player>)
      ensures Valid()
      ensures this.player == player && this.allPlayers == allPlayers
      ensures screen == Waiting && selectedId == None
    {
      this.player := player;
      this.allPlayers := allPlayers;
      screen := Waiting;
      selectedId := None;
    }

    /** "LISTO, SOY YO": the only way from the hand-over screen to the choice. */
    method ConfirmIdentity()
      requires screen == Waiting
      modifies this`screen
      ensures screen == Choosing
    {
      screen := Choosing;
    }

    /** Tapping a candidate; only votable players are listed. The new pick
        replaces any earlier one. */
    method Select(candidate: Player)
      requires Valid() && screen == Choosing
      requires candidate in Votable(allPlayers, player.id)
      modifies this`selectedId
      ensures Valid()
      ensures selectedId == Some(candidate.id)
    {
      selectedId := Some(candidate.id);
    }

    /** The confirm button: nothing without a pick; otherwise the ballot
        `(player.id, selectedId)`, naming a living player other than the voter. */
    method Confirm() returns (ballot: Option<Ballot>)
      requires Valid()
      ensures ballot.Some? <==> Truthy(selectedId)
      ensures ballot.Some? ==> ballot.value == Ballot(player.id, selectedId.value)
      ensures ballot.Some? ==> ballot.value.victim != ballot.value.voter
      ensures ballot.Some? ==>
                exists p :: p in allPlayers && !p.isDead && p.id == ballot.value.victim
    {
      if !Truthy(selectedId) {
        return None;
      }
      ballot := Some(Ballot(player.id, selectedId.value));
    }
  }
}
