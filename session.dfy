/** App.tsx: the pass-and-play session. The `gameState` record is a datatype
    replaced by each handler as `setGameState` replaces it with a spread copy;
    the component's other state variables (the score ledger, the impostor
    history, the selected themes, the debate length, the overlay) are fields of
    the `Game` class beside it. Every draw of `Math.random()` is a parameter. */
module Session {
  import opened GameTypes
  import opened VoteReveal
  import opened RoleAssignment
  import ScoreLedger
  import WordService

  /** The phases App.tsx moves through, including the secret-ballot ones. */
  datatype Phase =
    | Setup | Loading | AssignmentWait | AssignmentReveal | Debate
    | Voting | VotingPass | VotingReveal | LastBullet | GameOver

  /** The announced turn order. */
  datatype Direction = Derecha | Izquierda

  /** The effect of a round event. */
  datatype Effect = HalfTimer | Silent | OneWord | Confessional | NoTimer

  /** A round event (its display texts are left out). */
  datatype GameEvent = GameEvent(id: string, effect: Effect)

  /** `GAME_EVENTS`, in their order. */
  const GameEvents: seq<GameEvent> := [
    GameEvent("lightning", HalfTimer), GameEvent("silent", Silent), GameEvent("one_word", OneWord),
    GameEvent("confessional", Confessional), GameEvent("no_timer", NoTimer)]

  /** The overlay `feedback`, by its `type`, with the values its texts show. */
  datatype Feedback =
    | Success(victimName: string, impostorsLeft: nat)
    | Danger(victimName: string, wasUndercover: bool, impostorsLeft: nat, othersLeft: int)
    | Info(impostorsLeft: nat)
    | RoundStart(startingPlayer: string, direction: Direction)
    | EventNotice(event: GameEvent)

  /** The `gameState` record as App.tsx builds it. `gameId` is left out;
      `roundStartShown` is `false` where the source leaves it `undefined`. */
  datatype GameState = GameState(
    phase: Phase,
    players: seq<Player>,
    impostorCount: int,
    undercoverCount: int,
    gameMode: GameMode,
    theme: string,
    secretWord: string,
    undercoverWord: string,
    currentPlayerIndex: int,
    winner: Option<Winner>,
    roundStartShown: bool,
    turnDirection: Option<Direction>,
    startingPlayer: Option<string>,
    currentRound: int,
    maxRounds: Option<int>,
    votes: Votes,
    votingPlayerIndex: int,
    activeEvent: Option<GameEvent>,
    timerOverride: Option<int>,
    useSecretVoting: bool)

  /** `initialGameState`. */
  const InitialGameState: GameState :=
    GameState(Setup, [], 1, 0, Classic, "", "", "", 0, None, false, None, None, 1, None, [], 0, None, None, true)

  // ----- eliminating a player -----

  /** The `players.map` of `handleVote`. */
  function MarkDead(ps: seq<Player>, victimId: string): (r: seq<Player>)
    ensures |r| == |ps|
    ensures forall i :: 0 <= i < |ps| ==> r[i].(isDead := ps[i].isDead) == ps[i]
    ensures forall i :: 0 <= i < |ps| ==> (r[i].isDead <==> ps[i].isDead || ps[i].id == victimId)
  {
    seq(|ps|, i requires 0 <= i < |ps| => if ps[i].id == victimId then ps[i].(isDead := true) else ps[i])
  }

  /** With unique ids, the elimination removes exactly one living player when
      the id names a living player, and none otherwise. */
  lemma {:induction false} MarkDeadLivingCount(ps: seq<Player>, victimId: string)
    requires UniqueIds(ps)
    ensures LivingCount(MarkDead(ps, victimId)) ==
            LivingCount(ps) - (if Find(ps, victimId).Some? && !Find(ps, victimId).value.isDead then 1 else 0)
  {
    if ps != [] {
      var rest := ps[1..];
      assert MarkDead(ps, victimId)[1..] == MarkDead(rest, victimId);
      assert UniqueIds(rest) by {
        forall i, j | 0 <= i < j < |rest| ensures rest[i].id != rest[j].id {
          assert rest[i] == ps[i + 1] && rest[j] == ps[j + 1];
        }
      }
      MarkDeadLivingCount(rest, victimId);
      if ps[0].id == victimId {
        assert Find(rest, victimId).None? by {
          forall i | 0 <= i < |rest| ensures rest[i].id != victimId { assert rest[i] == ps[i + 1]; }
        }
      }
    }
  }

  /** The ids `p-0`, `p-1`, ... that `startGame` hands out are unique. */
  lemma NumberedIdsUnique(ps: seq<Player>)
    requires forall i :: 0 <= i < |ps| ==> ps[i].id == PlayerId(i)
    ensures UniqueIds(ps)
  {
    forall i, j | 0 <= i < j < |ps| ensures ps[i].id != ps[j].id {
      if ps[i].id == ps[j].id { PlayerIdInjective(i, j); }
    }
  }

  /** How a vote ends. */
  datatype Outcome = ToLastBullet | Ends(winner: Winner) | Continues

  /** The vote was for an impostor. */
  predicate Caught(ps: seq<Player>, victimId: string)
  {
    Find(ps, victimId).Some? && Find(ps, victimId).value.role == Impostor
  }

  /** The branches of `handleVote`; an id that names nobody takes the
      not-an-impostor branch. */
  function VoteOutcome(mode: GameMode, ps: seq<Player>, victimId: string): Outcome
  {
    var updated := MarkDead(ps, victimId);
    if Caught(ps, victimId) then
      if mode == Hardcore then ToLastBullet
      else if LivingImpostorCount(updated) == 0 then Ends(Citizens)
      else Continues
    else
      var living := LivingCount(updated);
      if living <= 2 || LivingImpostorCount(updated) >= living then Ends(Impostors)
      else Continues
  }

  /** The win rules of a vote, stated on the players after the elimination:
      catching an impostor in hardcore mode leads to the last bullet; catching
      one otherwise lets the citizens win exactly when no impostor is left
      alive; any other vote lets the impostors win exactly when at most two
      players are alive or every survivor is an impostor. */
  lemma VoteWinRules(mode: GameMode, ps: seq<Player>, victimId: string)
    ensures VoteOutcome(mode, ps, victimId) == ToLastBullet <==> Caught(ps, victimId) && mode == Hardcore
    ensures VoteOutcome(mode, ps, victimId) == Ends(Citizens) <==>
              Caught(ps, victimId) && mode != Hardcore && NoLivingImpostor(MarkDead(ps, victimId))
    ensures VoteOutcome(mode, ps, victimId) == Ends(Impostors) <==>
              !Caught(ps, victimId) &&
              (LivingCount(MarkDead(ps, victimId)) <= 2 || AllSurvivorsImpostors(MarkDead(ps, victimId)))
  {
    var updated := MarkDead(ps, victimId);
    NoImpostorCount(updated);
    ImpostorCountBound(updated);
  }

  /** A table of five: one citizen about to be voted out, two impostors, two
      more citizens. */
  function EvenTable(): seq<Player>
  {
    [Player("p-0", "A", Citizen, Some("w"), false), Player("p-1", "B", Impostor, None, false),
     Player("p-2", "C", Impostor, None, false), Player("p-3", "D", Citizen, Some("w"), false),
     Player("p-4", "E", Citizen, Some("w"), false)]
  }

  /** The same table once the first citizen is dead. */
  function EvenTableAfterVote(): seq<Player>
  {
    [Player("p-0", "A", Citizen, Some("w"), true), Player("p-1", "B", Impostor, None, false),
     Player("p-2", "C", Impostor, None, false), Player("p-3", "D", Citizen, Some("w"), false),
     Player("p-4", "E", Citizen, Some("w"), false)]
  }

  lemma EvenTableVote()
    ensures MarkDead(EvenTable(), "p-0") == EvenTableAfterVote()
    ensures !Caught(EvenTable(), "p-0")
  {
    assert EvenTable()[0].id == "p-0";
  }

  lemma EvenTableImpostors()
    ensures LivingImpostorCount(EvenTableAfterVote()) == 2
  {
    var t := EvenTableAfterVote();
    assert t[1..][1..][1..][1..][1..] == [];
  }

  lemma EvenTableLiving()
    ensures LivingCount(EvenTableAfterVote()) == 4
  {
    var t := EvenTableAfterVote();
    assert t[1..][1..][1..][1..][1..] == [];
    assert |Living(t[1..][1..][1..][1..])| == 1;
    assert |Living(t[1..][1..][1..])| == 2;
    assert |Living(t[1..][1..])| == 3;
  }

  /** The impostors do not win merely by matching the other survivors in
      number: with two impostors and two citizens left alive after a citizen
      is voted out, the game goes on. */
  lemma EqualNumbersContinue()
    ensures LivingImpostorCount(MarkDead(EvenTable(), "p-0")) == 2
    ensures LivingCount(MarkDead(EvenTable(), "p-0")) - LivingImpostorCount(MarkDead(EvenTable(), "p-0")) == 2
    ensures VoteOutcome(Classic, EvenTable(), "p-0") == Continues
  {
    EvenTableVote();
    EvenTableImpostors();
    EvenTableLiving();
  }

  /** A vote for an id nobody has kills nobody and is judged as a miss. */
  lemma UnknownIdIsAMiss(mode: GameMode, ps: seq<Player>, victimId: string)
    requires Find(ps, victimId).None?
    ensures MarkDead(ps, victimId) == ps
    ensures VoteOutcome(mode, ps, victimId) ==
              if LivingCount(ps) <= 2 || AllSurvivorsImpostors(ps) then Ends(Impostors) else Continues
  {
    assert MarkDead(ps, victimId) == ps;
    ImpostorCountBound(ps);
  }

  /** The overlay of a vote that does not end the game. */
  function ContinueFeedback(ps: seq<Player>, victimId: string): Feedback
  {
    var updated := MarkDead(ps, victimId);
    var victim := Find(ps, victimId);
    if Caught(ps, victimId) then Success(victim.value.name, LivingImpostorCount(updated))
    else
      Danger(if victim.Some? then victim.value.name else "",
             victim.Some? && victim.value.role == Undercover,
             LivingImpostorCount(updated),
             LivingCount(updated) - LivingImpostorCount(updated))
  }

  // ----- ballots -----

  /** `votes[voter]`: the ballot of the first entry with that key, if any. */
  function BallotOf(votes: Votes, voter: string): (b: Option<string>)
    ensures b.None? <==> forall k :: 0 <= k < |votes| ==> votes[k].voter != voter
    ensures b.Some? ==> exists k :: 0 <= k < |votes| && votes[k] == Ballot(voter, b.value)
  {
    if votes == [] then None
    else if votes[0].voter == voter then Some(votes[0].victim)
    else
      var rest := BallotOf(votes[1..], voter);
      assert forall k :: 1 <= k < |votes| ==> votes[k] == votes[1..][k - 1];
      rest
  }

  /** `{ ...votes, [voter]: victim }`: a voter who already voted keeps their
      place and has the ballot replaced; a new voter is added last. */
  function SetVote(votes: Votes, voter: string, victim: string): (r: Votes)
    ensures |r| == |votes| || r == votes + [Ballot(voter, victim)]
  {
    if votes == [] then [Ballot(voter, victim)]
    else if votes[0].voter == voter then [Ballot(voter, victim)] + votes[1..]
    else [votes[0]] + SetVote(votes[1..], voter, victim)
  }

  /** Recording a ballot sets the voter's ballot and leaves every other
      voter's ballot as it was. */
  lemma {:induction false} SetVoteBallots(votes: Votes, voter: string, victim: string)
    ensures BallotOf(SetVote(votes, voter, victim), voter) == Some(victim)
    ensures forall w :: w != voter ==> BallotOf(SetVote(votes, voter, victim), w) == BallotOf(votes, w)
  {
    if votes != [] && votes[0].voter != voter {
      SetVoteBallots(votes[1..], voter, victim);
      var r := SetVote(votes, voter, victim);
      assert r[1..] == SetVote(votes[1..], voter, victim);
    } else if votes != [] {
      var r := SetVote(votes, voter, victim);
      assert r[1..] == votes[1..];
    }
  }

  /** A voter who already voted keeps their place (every key stays where it
      was); a new voter's ballot is appended. */
  lemma {:induction false} SetVoteShape(votes: Votes, voter: string, victim: string)
    ensures BallotOf(votes, voter).Some? ==>
              |SetVote(votes, voter, victim)| == |votes| &&
              forall k :: 0 <= k < |votes| ==> SetVote(votes, voter, victim)[k].voter == votes[k].voter
    ensures BallotOf(votes, voter).None? ==> SetVote(votes, voter, victim) == votes + [Ballot(voter, victim)]
  {
    if votes != [] && votes[0].voter != voter {
      var rest := votes[1..];
      SetVoteShape(rest, voter, victim);
      var r := SetVote(votes, voter, victim);
      assert r == [votes[0]] + SetVote(rest, voter, victim);
      if BallotOf(votes, voter).None? {
        assert votes == [votes[0]] + rest;
      }
    }
  }

  /** Recording a ballot keeps one ballot per voter. */
  lemma SetVoteUnique(votes: Votes, voter: string, victim: string)
    requires UniqueVoters(votes)
    ensures UniqueVoters(SetVote(votes, voter, victim))
  {
    SetVoteShape(votes, voter, victim);
    var r := SetVote(votes, voter, victim);
    if BallotOf(votes, voter).None? {
      forall i, j | 0 <= i < j < |r| ensures r[i].voter != r[j].voter {
        assert r[i] == votes[i];
        if j < |votes| { assert r[j] == votes[j]; }
      }
    }
  }

  // ----- round events -----

  /** The event a round draws: none, or `GAME_EVENTS[floor(u * 5)]`. */
  function EventFor(roll: Option<Unit>): (ev: Option<GameEvent>)
    ensures ev.Some? <==> roll.Some?
    ensures ev.Some? ==> ev.value in GameEvents
  {
    if roll.Some? then Some(GameEvents[Scale(roll.value, |GameEvents|)]) else None
  }

  /** The timer override of an event: half the debate for `half_timer`,
      9999 for `no_timer`, none otherwise. */
  function OverrideFor(ev: Option<GameEvent>, timerDuration: nat): (t: Option<int>)
    ensures t.Some? <==> ev.Some? && ev.value.effect in {HalfTimer, NoTimer}
    ensures t.Some? && ev.value.effect == HalfTimer ==> 2 * t.value <= timerDuration < 2 * t.value + 2
    ensures t.Some? && ev.value.effect == NoTimer ==> t.value == 9999
  {
    if ev.None? then None
    else match ev.value.effect
      case HalfTimer => Some(timerDuration / 2)
      case NoTimer => Some(9999)
      case _ => None
  }

  /** `Math.random() < 0.5 ? 'derecha' : 'izquierda'`. */
  function DirectionOf(u: Unit): Direction
  {
    if 2 * u.num < u.den then Derecha else Izquierda
  }

  /** The names of the players, in order. */
  function NamesOf(ps: seq<Player>): (r: seq<string>)
    ensures |r| == |ps| && forall i :: 0 <= i < |ps| ==> r[i] == ps[i].name
  {
    seq(|ps|, i requires 0 <= i < |ps| => ps[i].name)
  }

  // ----- starting a game -----

  /** The state `startGame` opens with: the first assignment of a fresh round
      1, with words drawn from the selected themes' pool and the dealt table. */
  ghost predicate Opened(st: GameState, names: seq<string>, impostorCount: int, undercoverCount: int, mode: GameMode,
                         roundLimit: Option<int>, useSecretVoting: bool, lists: WordService.WordLists,
                         selectedThemes: seq<string>)
    requires WordService.DefaultTheme in lists
  {
    && (exists e :: e in WordService.DrawPool(lists, selectedThemes) &&
                    WordService.WordsOf(e) == WordService.GameWords(st.secretWord, st.undercoverWord, st.theme))
    && Dealt(st.players, names, impostorCount, undercoverCount, st.secretWord, st.undercoverWord)
    && st == GameState(AssignmentWait, st.players, impostorCount, undercoverCount, mode, st.theme,
                       st.secretWord, st.undercoverWord, 0, None, false, None, None, 1, roundLimit,
                       [], 0, None, None, useSecretVoting)
  }

  /** The drawn words come from a pair not yet used in its theme whenever
      the pool still holds one. */
  ghost predicate FreshWhenLeft(st: GameState, lists: WordService.WordLists, selectedThemes: seq<string>,
                                used: WordService.UsedWords)
    requires WordService.DefaultTheme in lists
  {
    WordService.Available(WordService.DrawPool(lists, selectedThemes), used) != [] ==>
      exists e :: e in WordService.DrawPool(lists, selectedThemes) && WordService.Unused(used, e)
                  && WordService.WordsOf(e) == WordService.GameWords(st.secretWord, st.undercoverWord, st.theme)
  }

  /** Everything `startGame` promises: the opened state, the used-word store
      recording the drawn word, the impostor history raised for the dealt
      impostors, and a fresh pair whenever one is left. */
  ghost predicate Started(st: GameState, newHistory: History, saved: WordService.Stored<WordService.UsedWords>,
                          names: seq<string>, impostorCount: int, undercoverCount: int, mode: GameMode,
                          roundLimit: Option<int>, useSecretVoting: bool, lists: WordService.WordLists,
                          selectedThemes: seq<string>, stored: WordService.Stored<WordService.UsedWords>,
                          history: History)
    requires WordService.DefaultTheme in lists
  {
    && Opened(st, names, impostorCount, undercoverCount, mode, roundLimit, useSecretVoting, lists, selectedThemes)
    && WordService.LoadUsedWords(saved) ==
       WordService.Recorded(WordService.LoadUsedWords(stored), st.theme, st.secretWord)
    && |st.players| == |names|
    && Bumped(history, newHistory, names, st.players)
    && FreshWhenLeft(st, lists, selectedThemes, WordService.LoadUsedWords(stored))
  }

  /** The rest of `continueRound` on values, once the round limit is not
      passed: the next round, with its event overlay when one is drawn, or
      straight into the debate. */
  method AdvanceRound(s: GameState, roll: Option<Unit>, timerDuration: nat)
    returns (r: GameState, fb: Option<Feedback>)
    ensures roll.Some? ==>
              r == s.(currentRound := s.currentRound + 1, activeEvent := EventFor(roll),
                      timerOverride := OverrideFor(EventFor(roll), timerDuration))
              && fb == Some(EventNotice(EventFor(roll).value))
    ensures roll.None? ==>
              r == s.(currentRound := s.currentRound + 1, phase := Debate, activeEvent := None, timerOverride := None)
              && fb.None?
  {
    var nextRound := s.currentRound + 1;
    var activeEvent := EventFor(roll);
    var timerOverride := OverrideFor(activeEvent, timerDuration);
    if activeEvent.Some? {
      return s.(currentRound := nextRound, activeEvent := activeEvent, timerOverride := timerOverride),
             Some(EventNotice(activeEvent.value));
    }
    r := s.(currentRound := nextRound, phase := Debate, activeEvent := None, timerOverride := None);
    fb := None;
  }

  /** The body of `startGame` on values: the words, the deal, the new history
      and the stored used words. */
  method OpenGame(names: seq<string>, impostorCount: int, undercoverCount: int, selectedThemes: seq<string>,
                  mode: GameMode, roundLimit: Option<int>, useSecretVoting: bool,
                  lists: WordService.WordLists, stored: WordService.Stored<WordService.UsedWords>, history: History,
                  picks: seq<nat>, shuffleDraws: seq<Unit>, wordDraw: Unit)
    returns (st: GameState, newHistory: History, saved: WordService.Stored<WordService.UsedWords>)
    requires WordService.DefaultTheme in lists && WordService.DrawPool(lists, selectedThemes) != []
    requires |shuffleDraws| >= |names|
    ensures Started(st, newHistory, saved, names, impostorCount, undercoverCount, mode, roundLimit, useSecretVoting,
                    lists, selectedThemes, stored, history)
  {
    var words;
    words, saved := WordService.GetGameWords(lists, selectedThemes, stored, wordDraw);
    var players;
    players, newHistory := DealRoles(names, impostorCount, undercoverCount, history, picks, shuffleDraws,
                                     words.secretWord, words.undercoverWord);
    st := GameState(AssignmentWait, players, impostorCount, undercoverCount, mode, words.themeLabel,
                    words.secretWord, words.undercoverWord, 0, None, false, None, None, 1, roundLimit,
                    [], 0, None, None, useSecretVoting);
  }

  /** The App component's state. */
  class Game {
    var state: GameState
    var scores: ScoreLedger.Ledger
    var impostorHistory: History
    var selectedThemeIds: seq<string>
    var timerDuration: nat
    var feedback: Option<Feedback>
    /** What the key-value store holds for the used-word history. */
    var usedWords: WordService.Stored<WordService.UsedWords>

    /** Rounds count from 1, the players keep the ids `p-i`, nobody votes
        twice, and a finished game has a winner. */
    ghost predicate Valid()
      reads this
    {
      && state.currentRound >= 1
      && (forall i :: 0 <= i < |state.players| ==> state.players[i].id == PlayerId(i))
      && UniqueVoters(state.votes)
      && (state.phase == GameOver ==> state.winner.Some?)
    }

    /** A fresh session with the stored ledger, history and used words. */
    constructor (scores: ScoreLedger.Ledger, impostorHistory: History, usedWords: WordService.Stored<WordService.UsedWords>)
      ensures Valid()
      ensures state == InitialGameState && feedback.None? && selectedThemeIds == [] && timerDuration == 180
      ensures this.scores == scores && this.impostorHistory == impostorHistory && this.usedWords == usedWords
    {
      state := InitialGameState;
      this.scores := scores;
      this.impostorHistory := impostorHistory;
      selectedThemeIds := [];
      timerDuration := 180;
      feedback := None;
      this.usedWords := usedWords;
    }

    /** `timerOverride || timerDuration`: the length handed to the debate. */
    function DebateLength(): (d: int)
      reads this
      ensures state.timerOverride.Some? && state.timerOverride.value != 0 ==> d == state.timerOverride.value
      ensures state.timerOverride.None? || state.timerOverride.value == 0 ==> d == timerDuration
    {
      if state.timerOverride.Some? && state.timerOverride.value != 0 then state.timerOverride.value else timerDuration
    }

    /** The debate after a round's event: `half_timer` halves it (a half of 0
        falls back to the whole), `no_timer` makes it 9999, any other event or
        none leaves the configured length. */
    lemma EventDebateLength()
      requires state.timerOverride == OverrideFor(state.activeEvent, timerDuration)
      ensures state.activeEvent.Some? && state.activeEvent.value.effect == HalfTimer ==>
                if timerDuration >= 2 then 2 * DebateLength() <= timerDuration < 2 * DebateLength() + 2
                else DebateLength() == timerDuration
      ensures state.activeEvent.Some? && state.activeEvent.value.effect == NoTimer ==> DebateLength() == 9999
      ensures state.activeEvent.None? || state.activeEvent.value.effect !in {HalfTimer, NoTimer} ==>
                DebateLength() == timerDuration
      ensures timerDuration > 0 ==> DebateLength() > 0
    {
    }

    /** `startGame`: draws the words, the impostors (by history), the shuffled
        undercover agents, records the draw, and opens the first assignment. */
    method StartGame(names: seq<string>, impostorCount: int, undercoverCount: int, selectedThemes: seq<string>,
                     mode: GameMode, roundLimit: Option<int>, useSecretVoting: bool,
                     lists: WordService.WordLists, picks: seq<nat>, shuffleDraws: seq<Unit>, wordDraw: Unit)
      requires Valid()
      requires WordService.DefaultTheme in lists && WordService.DrawPool(lists, selectedThemes) != []
      requires |shuffleDraws| >= |names|
      modifies this`state, this`impostorHistory, this`timerDuration, this`selectedThemeIds, this`usedWords
      ensures Valid()
      ensures Started(state, impostorHistory, usedWords, names, impostorCount, undercoverCount, mode, roundLimit,
                      useSecretVoting, lists, selectedThemes, old(usedWords), old(impostorHistory))
      ensures timerDuration == Max(180, |names| * 60) && selectedThemeIds == selectedThemes
    {
      var st, newHistory, saved := OpenGame(names, impostorCount, undercoverCount, selectedThemes, mode, roundLimit,
                                            useSecretVoting, lists, usedWords, impostorHistory, picks, shuffleDraws, wordDraw);
      usedWords := saved;
      impostorHistory := newHistory;
      timerDuration := Max(180, |names| * 60);
      selectedThemeIds := selectedThemes;
      state := st;
    }

    /** `handleNextPlayer`: the next assignment, then once the round-start
        overlay naming a random living player and direction, then the debate. */
    method NextPlayer(pick: Unit, coin: Unit)
      requires Valid()
      requires state.currentPlayerIndex + 1 >= |state.players| && !state.roundStartShown ==> LivingCount(state.players) > 0
      modifies this`state, this`feedback
      ensures Valid()
      ensures old(state.currentPlayerIndex) + 1 < |old(state.players)| ==>
                state == old(state).(currentPlayerIndex := old(state.currentPlayerIndex) + 1, phase := AssignmentWait)
                && feedback == old(feedback)
      ensures old(state.currentPlayerIndex) + 1 >= |old(state.players)| && !old(state.roundStartShown) ==>
                var starter := Living(old(state.players))[Scale(pick, LivingCount(old(state.players)))];
                && starter in old(state.players) && !starter.isDead
                && state == old(state).(roundStartShown := true, turnDirection := Some(DirectionOf(coin)),
                                        startingPlayer := Some(starter.name))
                && feedback == Some(RoundStart(starter.name, DirectionOf(coin)))
      ensures old(state.currentPlayerIndex) + 1 >= |old(state.players)| && old(state.roundStartShown) ==>
                state == old(state).(phase := Debate) && feedback == old(feedback)
    {
      var nextIndex := state.currentPlayerIndex + 1;
      if nextIndex < |state.players| {
        state := state.(currentPlayerIndex := nextIndex, phase := AssignmentWait);
      } else if !state.roundStartShown {
        var alivePlayers := Living(state.players);
        var randomPlayer := alivePlayers[Scale(pick, |alivePlayers|)];
        var direction := DirectionOf(coin);
        state := state.(roundStartShown := true, turnDirection := Some(direction), startingPlayer := Some(randomPlayer.name));
        feedback := Some(RoundStart(randomPlayer.name, direction));
      } else {
        state := state.(phase := Debate);
      }
    }

    /** `finishGame`: the final players, the winner and the ledger credited with
        the rounds played so far. */
    method FinishGame(winner: Winner, finalPlayers: seq<Player>)
      requires Valid()
      requires forall i :: 0 <= i < |finalPlayers| ==> finalPlayers[i].id == PlayerId(i)
      modifies this`state, this`scores
      ensures Valid()
      ensures state == old(state).(players := finalPlayers, winner := Some(winner), phase := GameOver)
      ensures scores == ScoreLedger.Credited(old(scores), winner, finalPlayers, old(state.currentRound))
    {
      var newScores := ScoreLedger.UpdateScores(scores, winner, finalPlayers, state.currentRound);
      scores := newScores;
      state := state.(players := finalPlayers, winner := Some(winner), phase := GameOver);
    }

    /** `handleVote` (also reached from the reveal of a secret ballot). */
    method Vote(victimId: string)
      requires Valid()
      modifies this`state, this`scores, this`feedback
      ensures Valid()
      ensures VoteOutcome(old(state.gameMode), old(state.players), victimId) == ToLastBullet ==>
                state == old(state).(players := MarkDead(old(state.players), victimId), phase := LastBullet)
                && scores == old(scores) && feedback == old(feedback)
      ensures VoteOutcome(old(state.gameMode), old(state.players), victimId).Ends? ==>
                var w := VoteOutcome(old(state.gameMode), old(state.players), victimId).winner;
                && state == old(state).(players := MarkDead(old(state.players), victimId), winner := Some(w), phase := GameOver)
                && scores == ScoreLedger.Credited(old(scores), w, MarkDead(old(state.players), victimId), old(state.currentRound))
                && feedback == old(feedback)
      ensures VoteOutcome(old(state.gameMode), old(state.players), victimId) == Continues ==>
                state == old(state).(players := MarkDead(old(state.players), victimId))
                && scores == old(scores) && feedback == Some(ContinueFeedback(old(state.players), victimId))
    {
      var players := state.players;
      var updatedPlayers := MarkDead(players, victimId);
      assert forall i :: 0 <= i < |updatedPlayers| ==> updatedPlayers[i].id == PlayerId(i);
      match VoteOutcome(state.gameMode, players, victimId)
      case ToLastBullet =>
        state := state.(players := updatedPlayers, phase := LastBullet);
      case Ends(winner) =>
        FinishGame(winner, updatedPlayers);
      case Continues =>
        state := state.(players := updatedPlayers);
        feedback := Some(ContinueFeedback(players, victimId));
    }

    /** `handleLastBulletGuess`: the caught impostor's guess, compared after
        `normalize`. */
    method LastBulletGuess(guess: string, normalize: string -> string)
      requires Valid()
      modifies this`state, this`scores, this`feedback
      ensures Valid()
      ensures normalize(guess) == normalize(old(state.secretWord)) ==>
                state == old(state).(winner := Some(Impostors), phase := GameOver)
                && scores == ScoreLedger.Credited(old(scores), Impostors, old(state.players), old(state.currentRound))
                && feedback == old(feedback)
      ensures normalize(guess) != normalize(old(state.secretWord)) && LivingImpostorCount(old(state.players)) == 0 ==>
                state == old(state).(winner := Some(Citizens), phase := GameOver)
                && scores == ScoreLedger.Credited(old(scores), Citizens, old(state.players), old(state.currentRound))
                && feedback == old(feedback)
      ensures normalize(guess) != normalize(old(state.secretWord)) && LivingImpostorCount(old(state.players)) > 0 ==>
                state == old(state).(phase := Debate) && scores == old(scores)
                && feedback == Some(Info(LivingImpostorCount(old(state.players))))
    {
      if normalize(guess) == normalize(state.secretWord) {
        FinishGame(Impostors, state.players);
      } else {
        var remainingImpostors := LivingImpostorCount(state.players);
        if remainingImpostors == 0 {
          FinishGame(Citizens, state.players);
        } else {
          feedback := Some(Info(remainingImpostors));
          state := state.(phase := Debate);
        }
      }
    }

    /** `continueRound`: the overlay closes; past the round limit the impostors
        win with the round unchanged; otherwise the round advances, with an
        event overlay when an event is drawn or straight into the debate. */
    method ContinueRound(roll: Option<Unit>)
      requires Valid()
      modifies this`state, this`scores, this`feedback
      ensures Valid()
      ensures old(state.maxRounds).Some? && old(state.currentRound) + 1 > old(state.maxRounds).value ==>
                state == old(state).(winner := Some(Impostors), phase := GameOver)
                && scores == ScoreLedger.Credited(old(scores), Impostors, old(state.players), old(state.currentRound))
                && feedback.None?
      ensures (old(state.maxRounds).None? || old(state.currentRound) + 1 <= old(state.maxRounds).value) && roll.Some? ==>
                state == old(state).(currentRound := old(state.currentRound) + 1, activeEvent := EventFor(roll),
                                     timerOverride := OverrideFor(EventFor(roll), timerDuration))
                && scores == old(scores) && feedback == Some(EventNotice(EventFor(roll).value))
      ensures (old(state.maxRounds).None? || old(state.currentRound) + 1 <= old(state.maxRounds).value) && roll.None? ==>
                state == old(state).(currentRound := old(state.currentRound) + 1, phase := Debate,
                                     activeEvent := None, timerOverride := None)
                && scores == old(scores) && feedback.None?
    {
      feedback := None;
      var nextRound := state.currentRound + 1;
      if state.maxRounds.Some? && nextRound > state.maxRounds.value {
        FinishGame(Impostors, state.players);
        return;
      }
      state, feedback := AdvanceRound(state, roll, timerDuration);
    }

    /** The "start the round" button of the round-start and event overlays. */
    method DismissToDebate()
      requires Valid()
      requires feedback.Some? && (feedback.value.RoundStart? || feedback.value.EventNotice?)
      modifies this`state, this`feedback
      ensures Valid()
      ensures feedback.None? && state == old(state).(phase := Debate)
    {
      feedback := None;
      state := state.(phase := Debate);
    }

    /** The debate's `onTimerEnd`: to the secret ballot or the open vote, with
        the ballots cleared. */
    method EndDebate()
      requires Valid()
      modifies this`state
      ensures Valid()
      ensures state == old(state).(phase := if old(state.useSecretVoting) then VotingPass else Voting,
                                   votes := [], votingPlayerIndex := 0)
    {
      state := state.(phase := if state.useSecretVoting then VotingPass else Voting, votes := [], votingPlayerIndex := 0);
    }

    /** `handleLocalVote`: records (or replaces) the voter's ballot and moves
        to the reveal once as many ballots were cast as players are alive. */
    method LocalVote(voterId: string, victimId: string)
      requires Valid()
      modifies this`state
      ensures Valid()
      ensures state.votes == SetVote(old(state.votes), voterId, victimId)
      ensures state.votingPlayerIndex == old(state.votingPlayerIndex) + 1
      ensures state.phase == VotingReveal <==>
                old(state.votingPlayerIndex) + 1 >= LivingCount(old(state.players)) || old(state.phase) == VotingReveal
      ensures state == old(state).(votes := state.votes, votingPlayerIndex := state.votingPlayerIndex, phase := state.phase)
      ensures old(state.votingPlayerIndex) + 1 < LivingCount(old(state.players)) ==> state.phase == old(state.phase)
    {
      var newVotes := SetVote(state.votes, voterId, victimId);
      SetVoteUnique(state.votes, voterId, victimId);
      var alivePlayers := Living(state.players);
      var nextVotingIndex := state.votingPlayerIndex + 1;
      if nextVotingIndex >= |alivePlayers| {
        state := state.(votes := newVotes, votingPlayerIndex := nextVotingIndex, phase := VotingReveal);
      } else {
        state := state.(votes := newVotes, votingPlayerIndex := nextVotingIndex);
      }
    }

    /** `handleReplay`: a new game with the same names, counts, themes, mode and
        round limit; secret voting returns to its default. */
    method Replay(lists: WordService.WordLists, picks: seq<nat>, shuffleDraws: seq<Unit>, wordDraw: Unit)
      requires Valid()
      requires WordService.DefaultTheme in lists && WordService.DrawPool(lists, selectedThemeIds) != []
      requires |shuffleDraws| >= |state.players|
      modifies this`state, this`impostorHistory, this`timerDuration, this`selectedThemeIds, this`usedWords
      ensures Valid()
      ensures NamesOf(state.players) == NamesOf(old(state.players))
      ensures forall i :: 0 <= i < |state.players| ==> !state.players[i].isDead
      ensures state.phase == AssignmentWait && state.currentRound == 1 && state.winner.None?
      ensures state.impostorCount == old(state.impostorCount) && state.undercoverCount == old(state.undercoverCount)
      ensures state.gameMode == old(state.gameMode) && state.maxRounds == old(state.maxRounds)
      ensures state.useSecretVoting
      ensures selectedThemeIds == old(selectedThemeIds)
      ensures Started(state, impostorHistory, usedWords, NamesOf(old(state.players)), old(state.impostorCount),
                      old(state.undercoverCount), old(state.gameMode), old(state.maxRounds), true, lists,
                      old(selectedThemeIds), old(usedWords), old(impostorHistory))
      ensures timerDuration == Max(180, |old(state.players)| * 60)
    {
      var currentNames := NamesOf(state.players);
      StartGame(currentNames, state.impostorCount, state.undercoverCount, selectedThemeIds, state.gameMode,
                state.maxRounds, true, lists, picks, shuffleDraws, wordDraw);
    }

    /** `handleResetToSetup`: back to setup, with the impostor history cleared. */
    method ResetToSetup()
      requires Valid()
      modifies this`state, this`impostorHistory
      ensures Valid()
      ensures state == old(state).(phase := Setup) && impostorHistory == map[]
    {
      state := state.(phase := Setup);
      impostorHistory := map[];
    }

    /** `resetScores`. */
    method ResetScores()
      requires Valid()
      modifies this`scores
      ensures Valid() && scores == map[]
    {
      scores := ScoreLedger.ResetScores();
    }
  }
}
