/** components/OnlineLobby.tsx: the online demo. A room is created or joined
    with a simulated table of four, one impostor is drawn, and a single vote
    decides the game. The component's `useState` fields are the fields of
    `Lobby`. */
module OnlineLobby {
  import opened GameTypes
  import opened JsText
  import WordService

  datatype OnlinePhase = Lobby | Assignment | Debate | Voting | Result

  /** The room-code input: upper-cased, then cut to four characters. */
  function CodeInput(value: string): (code: string)
    ensures |code| == if |value| < 4 then |value| else 4
    ensures forall k :: 0 <= k < |code| ==> code[k] == UpperChar(value[k])
  {
    Take(Upper(value), 4)
  }

  /** Feeding the field its own value back leaves it as it is. */
  lemma CodeInputStable(value: string)
    ensures CodeInput(CodeInput(value)) == CodeInput(value)
  {
    var c := CodeInput(value);
    var cc := CodeInput(c);
    assert |cc| == |c|;
    forall k | 0 <= k < |c| ensures cc[k] == c[k] {
      assert !('a' <= c[k] <= 'z');
    }
  }

  /** The themes the demo draws its word from. */
  const DemoThemes: seq<string> := ["argentina", "cordoba"]

  /** The table shown after creating a room: the host first. */
  function CreatedTable(playerName: string): (t: seq<Player>)
    ensures |t| == 4 && t[0].id == "host" && t[0].name == playerName
    ensures forall i :: 0 <= i < 4 ==> t[i].role == Citizen && !t[i].isDead
  {
    [Player("host", playerName, Citizen, None, false),
     Player("p2", "Jugador 2", Citizen, None, false),
     Player("p3", "Jugador 3", Citizen, None, false),
     Player("p4", "Jugador 4", Citizen, None, false)]
  }

  /** The table shown after joining a room: the host, then this player. */
  function JoinedTable(playerName: string): seq<Player>
  {
    [Player("host", "Anfitri\U{00F3}n", Citizen, None, false),
     Player("me", playerName, Citizen, None, false),
     Player("p3", "Jugador 3", Citizen, None, false),
     Player("p4", "Jugador 4", Citizen, None, false)]
  }

  /** The `forEach` of `handleStartGame`: everyone is revived, the player at
      `impostorIndex` becomes the impostor with no word, everyone else a
      citizen holding the secret word; ids and names stay. */
  method DealOnline(ps: seq<Player>, impostorIndex: nat, word: string) returns (r: seq<Player>)
    ensures |r| == |ps|
    ensures forall i :: 0 <= i < |ps| ==> r[i].id == ps[i].id && r[i].name == ps[i].name && !r[i].isDead
    ensures forall i :: 0 <= i < |ps| ==>
              if i == impostorIndex then r[i].role == Impostor && r[i].word == None
              else r[i].role == Citizen && r[i].word == Some(word)
  {
    r := ps;
    var index := 0;
    while index < |r|
      invariant 0 <= index <= |r| == |ps|
      invariant forall i :: 0 <= i < |ps| ==> r[i].id == ps[i].id && r[i].name == ps[i].name
      invariant forall i :: 0 <= i < index ==>
                  && !r[i].isDead
                  && if i == impostorIndex then r[i].role == Impostor && r[i].word == None
                     else r[i].role == Citizen && r[i].word == Some(word)
    {
      var p := r[index].(isDead := false);
      if index == impostorIndex {
        p := p.(role := Impostor, word := None);
      } else {
        p := p.(role := Citizen, word := Some(word));
      }
      r := r[index := p];
      index := index + 1;
    }
  }

  /** How many players hold the impostor role. */
  function ImpostorSeats(r: seq<Player>): nat
  {
    if r == [] then 0
    else ImpostorSeats(r[..|r| - 1]) + (if r[|r| - 1].role == Impostor then 1 else 0)
  }

  /** A table without an impostor role counts none. */
  lemma {:induction false} NoImpostorSeat(r: seq<Player>)
    requires forall i :: 0 <= i < |r| ==> r[i].role != Impostor
    ensures ImpostorSeats(r) == 0
  {
    if r != [] {
      NoImpostorSeat(r[..|r| - 1]);
    }
  }

  /** After the deal exactly one player is the impostor when the drawn index
      is a seat of the table. */
  lemma {:induction false} OneImpostor(r: seq<Player>, impostorIndex: nat)
    requires impostorIndex < |r|
    requires forall i :: 0 <= i < |r| ==> (r[i].role == Impostor <==> i == impostorIndex)
    ensures ImpostorSeats(r) == 1
  {
    var init := r[..|r| - 1];
    if impostorIndex == |r| - 1 {
      NoImpostorSeat(init);
    } else {
      OneImpostor(init, impostorIndex);
    }
  }

  class LobbyScreen {
    var roomCode: string
    var playerName: string
    var isInRoom: bool
    var generatedCode: string
    var hostName: string
    var phase: OnlinePhase
    var players: seq<Player>
    var myPlayerId: string
    var secretWord: string
    var winner: Option<Winner>

    constructor ()
      ensures roomCode == "" && playerName == "" && !isInRoom && generatedCode == "" && hostName == ""
      ensures phase == Lobby && players == [] && myPlayerId == "" && secretWord == "" && winner == None
    {
      roomCode := "";
      playerName := "";
      isInRoom := false;
      generatedCode := "";
      hostName := "";
      phase := Lobby;
      players := [];
      myPlayerId := "";
      secretWord := "";
      winner := None;
    }

    /** The name field's `onChange`. */
    method EnterName(value: string)
      modifies this`playerName
      ensures playerName == value
    {
      playerName := value;
    }

    /** The room-code field's `onChange`: never longer than four characters. */
    method EnterCode(value: string)
      modifies this`roomCode
      ensures roomCode == CodeInput(value) && |roomCode| <= 4
    {
      roomCode := CodeInput(value);
    }

    /** `handleCreate`: nothing for a blank name; otherwise this player hosts
        (`host`, first at the table of four) under the drawn room code. */
    method Create(drawnCode: string)
      modifies this`generatedCode, this`hostName, this`myPlayerId, this`players, this`isInRoom
      ensures IsBlank(playerName) ==> unchanged(this)
      ensures !IsBlank(playerName) ==>
                && generatedCode == Upper(drawnCode) && hostName == playerName && myPlayerId == "host"
                && players == CreatedTable(playerName) && isInRoom
    {
      if Trim(playerName) == [] {
        return;
      }
      generatedCode := Upper(drawnCode);
      hostName := playerName;
      myPlayerId := "host";
      players := CreatedTable(playerName);
      isInRoom := true;
    }

    /** `handleJoin`: only with a name that is not blank and a four-character code. */
    method Join()
      modifies this`generatedCode, this`hostName, this`myPlayerId, this`players, this`isInRoom
      ensures IsBlank(playerName) || |roomCode| != 4 ==> unchanged(this)
      ensures !IsBlank(playerName) && |roomCode| == 4 ==>
                && generatedCode == Upper(roomCode) && hostName == "Anfitri\U{00F3}n" && myPlayerId == "me"
                && players == JoinedTable(playerName) && isInRoom
    {
      if Trim(playerName) == [] || |roomCode| != 4 {
        return;
      }
      generatedCode := Upper(roomCode);
      hostName := "Anfitri\U{00F3}n";
      myPlayerId := "me";
      players := JoinedTable(playerName);
      isInRoom := true;
    }

    /** `handleStartGame`: a word from the demo themes, one impostor at the
        drawn seat, everyone else a citizen with the word, then the assignment
        screen. The stored word history is read and written back. */
    method StartGame(lists: WordService.WordLists, stored: WordService.Stored<WordService.UsedWords>,
                     wordDraw: Unit, impostorDraw: Unit)
      returns (saved: WordService.Stored<WordService.UsedWords>)
      requires WordService.DefaultTheme in lists && WordService.DrawPool(lists, DemoThemes) != []
      modifies this`secretWord, this`players, this`phase
      ensures phase == Assignment && |players| == |old(players)|
      ensures exists e :: e in WordService.DrawPool(lists, DemoThemes) && WordService.WordsOf(e).secretWord == secretWord
                          && WordService.LoadUsedWords(saved) ==
                             WordService.Recorded(WordService.LoadUsedWords(stored), e.themeId, secretWord)
      ensures WordService.Available(WordService.DrawPool(lists, DemoThemes), WordService.LoadUsedWords(stored)) != [] ==>
                exists e :: e in WordService.DrawPool(lists, DemoThemes)
                            && WordService.Unused(WordService.LoadUsedWords(stored), e)
                            && WordService.WordsOf(e).secretWord == secretWord
      ensures |players| > 0 ==> players[Scale(impostorDraw, |players|)].role == Impostor
      ensures forall i :: 0 <= i < |players| ==>
                players[i].id == old(players)[i].id && players[i].name == old(players)[i].name && !players[i].isDead
      ensures |players| > 0 ==> ImpostorSeats(players) == 1
      ensures forall i :: 0 <= i < |players| && players[i].role != Impostor ==>
                players[i].role == Citizen && players[i].word == Some(secretWord)
      ensures forall i :: 0 <= i < |players| && players[i].role == Impostor ==> players[i].word == None
    {
      var words;
      words, saved := WordService.GetGameWords(lists, DemoThemes, stored, wordDraw);
      secretWord := words.secretWord;
      var impostorIndex := Scale(impostorDraw, |players|);
      var dealt := DealOnline(players, impostorIndex, words.secretWord);
      if |dealt| > 0 {
        OneImpostor(dealt, impostorIndex);
      }
      players := dealt;
      phase := Assignment;
    }

    /** `handleVote`: an unknown id changes nothing; otherwise the citizens win
        exactly when the victim is the impostor, and the result is shown. */
    method Vote(victimId: string)
      modifies this`winner, this`phase
      ensures Find(players, victimId).None? ==> unchanged(this)
      ensures Find(players, victimId).Some? ==>
                phase == Result &&
                winner == Some(if Find(players, victimId).value.role == Impostor then Citizens else Impostors)
    {
      var victim := Find(players, victimId);
      if victim.None? {
        return;
      }
      if victim.value.role == Impostor {
        winner := Some(Citizens);
      } else {
        winner := Some(Impostors);
      }
      phase := Result;
    }

    /** `resetGame`: back to the lobby. */
    method Reset()
      modifies this`phase
      ensures phase == Lobby
    {
      phase := Lobby;
    }

    /** The back arrow of the waiting room. */
    method LeaveRoom()
      modifies this`isInRoom
      ensures !isInRoom
    {
      isInRoom := false;
    }

    /** The result screen's "change setup": out of the room, back to the lobby. */
    method ChangeSetup()
      modifies this`isInRoom, this`phase
      ensures !isInRoom && phase == Lobby
    {
      isInRoom := false;
      phase := Lobby;
    }

    /** The assignment screen's `onNext`. */
    method Next()
      modifies this`phase
      ensures phase == Debate
    {
      phase := Debate;
    }

    /** The debate's `onTimerEnd`. */
    method TimerEnd()
      modifies this`phase
      ensures phase == Voting
    {
      phase := Voting;
    }
  }
}
