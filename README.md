# Impostor: a verified model of the game core

"Impostor" is a social-deduction party game. Each player gets a role, and the
round turns on a secret word pair:

- **Citizens** hold the secret word.
- **Undercover** agents hold a neighbouring word.
- **Impostors** hold no word.

The players debate and then vote someone out. The game ends when:

- the citizens catch every impostor;
- the impostors survive or take over the table;
- in hardcore mode, a caught impostor guesses the word (the "last bullet").

Points are credited to a score ledger kept by player name.

This project models the game's core in Dafny and proves properties of it:

- **The pass-and-play session of `App.tsx`** (module `Session`, class
  `Session.Game`). It covers the `gameState` record and the handlers that
  replace it:
  - starting a game;
  - the assignment turns and the round-start overlay;
  - the vote and its win rules;
  - the last bullet, the next round and its random events;
  - the secret ballots, replay and reset.
- **The role-dealing steps of `startGame`** (module `RoleAssignment`):
  - the impostors are drawn without replacement, weighted by history;
  - the impostor history is updated;
  - the other indices are shuffled Fisher–Yates, in place on an array;
  - roles and words are written into the table.
- **The score ledger's `updateScores`** (module `ScoreLedger`) and the result
  screen's points (module `ResultPhase`).
- **The secret-ballot reveal** (module `VoteReveal`):
  - the tally and the plurality leader, with a random pick among tied leaders;
  - the tie notice;
  - the sorted final count;
  - the one-by-one reveal.
- **The word draw of `services/wordService.ts`** (module `WordService`):
  - the pool of pairs from the selected themes, with a fallback theme;
  - the filter that drops pairs already used;
  - the per-theme history that is read and written back.
- **The components' own state:**
  - `SetupPhase` (names, themes, mode, the start gate);
  - `OnlineLobby` (the online demo's room, deal and single vote);
  - `LocalVotingPhase` and `VotingPhase` (picking a suspect);
  - `DebatePhase` (the countdown and its display).
- **JavaScript helpers the handlers depend on:**
  - `JsText`: `trim` over the ECMAScript white-space set, string truthiness,
    ASCII `toUpperCase` and `slice`;
  - `Decimal`: `${n}` for the `p-${i}` ids and the clock.

How JavaScript features are modelled:

- **Records and components:**
  - A record that the source rebuilds with a spread copy is a datatype, and its
    handler returns or assigns a new value.
  - A component or object whose state the handlers update is a class with
    fields and `modifies` clauses.
- **Objects as ordered maps:** `votes` and `tally` are keyed by ids such as
  `p-3`, which are not integer-like, so JavaScript keeps their keys in
  insertion order. Both are modelled as association lists (`seq` of pairs).
  Overwriting a key keeps its place.
- **Randomness:** every `Math.random()` is a parameter of type `Unit`, a
  fraction in [0, 1). `Math.floor(u * n)` is `GameTypes.Scale`.

Notes on the code as written:

- **Impostor win rule.** `App.tsx:337` compares the living impostors with
  *all* living players (`livingImpostors >= livingPlayers`). After a miss, the
  impostors therefore win only when at most two players live or every
  survivor is an impostor.
  - `Session.VoteWinRules` states the rule as coded.
  - `Session.EqualNumbersContinue` shows two impostors and two citizens
    surviving a vote, and the game going on.
- **`SetupPhase` arguments.** `SetupPhase` passes five arguments to
  `startGame`, so the round limit and secret voting always take their
  defaults (`null` and `true`). The setup screen never changes the impostor
  count, so it stays at 1.

## Model

| member | source | states |
|---|---|---|
| GameTypes.Scale | services/wordService.ts:57 | `Math.floor(Math.random() * n)` is an index below `n` whenever `n > 0`; for `n == 0` it is 0 |
| GameTypes.Living | App.tsx:277 | the filtered list holds exactly the living players of the input and is no longer than it |
| GameTypes.ImpostorCountBound | App.tsx:334-337 | the living impostors never exceed the living players, and they are equal exactly when every survivor is an impostor |
| GameTypes.NoImpostorCount | App.tsx:317-318 | the living-impostor count is 0 exactly when no living player is an impostor |
| GameTypes.Find | App.tsx:305 | `find` returns a player exactly when some player has the id, and then the first such player |
| Decimal.NatToString | App.tsx:184 | `${i}` is a non-empty string of digits without a leading zero, one digit exactly below 10 |
| Decimal.ParseNatToString | App.tsx:184 | reading the printed digits back gives the number |
| Decimal.NatToStringInjective | App.tsx:184 | different indices print differently |
| JsText.TrimStartSpec | components/SetupPhase.tsx:33 | the leading cut is a run of ECMAScript white space and stops at the first other character |
| JsText.TrimEndSpec | components/SetupPhase.tsx:33 | the trailing cut is a run of white space and stops at the last other character |
| JsText.TrimEnds | components/SetupPhase.tsx:33 | a trimmed string neither starts nor ends with white space |
| JsText.TrimIsSlice | components/SetupPhase.tsx:33 | `trim` returns a slice of the input with only white space outside it |
| JsText.TrimEmpty | components/SetupPhase.tsx:33 | a string trims to empty (is falsy once trimmed) exactly when it is all white space |
| JsText.TrimIdempotent | components/SetupPhase.tsx:33-34 | trimming a trimmed name changes nothing |
| JsText.UpperChar | components/OnlineLobby.tsx:342 | ASCII lower-case letters move up 32 code points; everything else stays; the result is never a lower-case ASCII letter |
| JsText.Upper | components/OnlineLobby.tsx:342 | `toUpperCase` keeps the length and upper-cases position by position |
| JsText.Take | components/OnlineLobby.tsx:342 | `slice(0, n)` is a prefix of length `min(n, length)` |
| ResultPhase.RoundOrDefault | components/ResultPhase.tsx:41 | a missing `currentRound` reads as 1 and a given one as itself |
| ResultPhase.WinnersScore | components/ResultPhase.tsx:55-66 | winning citizens get 100, winning impostors 100 + 50 per round, an undercover on the citizens' side 150 alive or 50 dead |
| ResultPhase.LosersScore | components/ResultPhase.tsx:55-66 | a caught impostor keeps 25 per round, a losing undercover 25 only if alive, a losing citizen 0 |
| ResultPhase.PointsNeverNegative | components/ResultPhase.tsx:55-66 | with a round counter that is not negative, nobody earns negative points |
| ResultPhase.SurvivingUndercoverEarnsMore | components/ResultPhase.tsx:55-66 | whichever side wins, a surviving undercover earns strictly more than a dead one |
| ResultPhase.TotalShown | components/ResultPhase.tsx:95 | `scores[name] \|\| 0` is the ledger entry, or 0 for an unknown name |
| ResultPhase.BadgeShownToEarners | components/ResultPhase.tsx:114 | the "+points" badge is missing exactly for the losing citizens and dead undercover agents when the impostors win |
| ScoreLedger.IncrementIsPointsEarned | App.tsx:155-168 | the increment `updateScores` adds equals the points the result screen shows for that player |
| ScoreLedger.CreditedKeys | App.tsx:151-153 | after crediting, the ledger's names are the old names plus the players' names |
| ScoreLedger.CreditedEntry | App.tsx:149-172 | each total is the old total (0 if absent) plus the sum of the points shown for every player of that name |
| ScoreLedger.NotNamedEarnsNothing | App.tsx:152-169 | a name that no player has gains nothing |
| ScoreLedger.CreditOne | App.tsx:153-168 | one `forEach` step creates a missing entry at 0 and adds exactly the player's shown points |
| ScoreLedger.UpdateScores | App.tsx:149-173 | the loop yields the credited ledger: old names plus players' names, each total raised by what its players earned, other names untouched |
| ScoreLedger.CreditedLedger | App.tsx:149-173 | the credited ledger's keys, its entries as old total plus earnings, and the unchanged entries of names that did not play |
| ScoreLedger.ResetScores | App.tsx:175-178 | the ledger is emptied |
| WordService.LoadUsedWords | services/wordService.ts:10-17 | a missing or unparseable stored history reads as empty; a parsed one as itself |
| WordService.SaveThenLoad | services/wordService.ts:10-21 | reading back a saved history gives the same history |
| WordService.Tagged | services/wordService.ts:29-31 | each pair of a theme is tagged with that theme, in order |
| WordService.PoolMembers | services/wordService.ts:27-33 | an item is in the pool exactly when it is a pair of a selected theme that exists, tagged with that theme |
| WordService.Available | services/wordService.ts:44-47 | the filter keeps exactly the pool items whose word is not in their theme's history |
| WordService.Recorded | services/wordService.ts:60-61 | the drawn word is appended to its theme's history; other themes keep theirs |
| WordService.PushTheme | services/wordService.ts:29-31 | the inner loop appends the theme's pairs, tagged, to the pool |
| WordService.BuildPool | services/wordService.ts:25-38 | the loop builds the selected themes' pool, or the default theme's pairs when that is empty |
| WordService.GetGameWords | services/wordService.ts:23-74 | the words come from a pool item, from an unused one whenever one exists, and the stored history gains that word under its theme |
| RoleAssignment.ChosenIdx | App.tsx:202-206 | the drawn position is always an index of the remaining candidates |
| RoleAssignment.WeightedSelect | App.tsx:191-211 | exactly `min(count, pool size)` candidates are drawn, all from the pool, none twice when the pool has no repeats |
| RoleAssignment.BumpHistory | App.tsx:216-220 | the history gains each drawn name once per draw; its keys are the old names plus the drawn names |
| RoleAssignment.BumpedOnce | App.tsx:216-220 | with distinct names and indices, each drawn name gains exactly one and every other name nothing |
| RoleAssignment.OtherIndices | App.tsx:228 | the filter keeps exactly the indices below n that were not drawn, in increasing order |
| RoleAssignment.SwapPermutes | App.tsx:231 | a swap keeps the same elements with the same multiplicities |
| RoleAssignment.FisherYatesPermutes | App.tsx:229-232 | the whole shuffle is a permutation of its input |
| RoleAssignment.SwapInPlace | App.tsx:231 | the destructuring assignment swaps the two array cells |
| RoleAssignment.Shuffle | App.tsx:229-232 | the in-place loop leaves the array as the Fisher–Yates function of its draws, a permutation of the original |
| RoleAssignment.ShuffledOthers | App.tsx:228-232 | the shuffled order lists every index that is not an impostor exactly once |
| RoleAssignment.PlayerIdInjective | App.tsx:184 | `p-${i}` ids of different positions differ |
| RoleAssignment.AssignRoles | App.tsx:183-239 | player i is `p-i`, named `names[i]`, alive, undercover if among the first undercover picks, else impostor if drawn, else citizen, holding the word of that role |
| RoleAssignment.RolesDrawn | App.tsx:213-239 | exactly as many impostors as drawn indices, and `min(undercoverCount, seats left)` undercover agents (never below 0) |
| RoleAssignment.DrawnGainOne | App.tsx:216-226 | with distinct names, the history rises by one exactly for the players who end up impostors |
| RoleAssignment.DrawImpostors | App.tsx:213-221 | the drawn indices are distinct, in range, `min(impostorCount, players)` of them, and the history counts each once |
| RoleAssignment.DealtPlayers | App.tsx:183-239 | the dealt table has the drawn number of impostors and the capped number of undercover agents |
| RoleAssignment.DealRoles | App.tsx:183-239 | the table is dealt (ids, names, alive, words by role, role counts capped by the table size) and the history is raised exactly for the impostors |
| VoteReveal.CountOneMore | components/VoteRevealPhase.tsx:26-28 | one `forEach` step keeps the tally exact: distinct ids, each counting its ballots, totals summing to the ballots seen |
| VoteReveal.Tally | components/VoteRevealPhase.tsx:25-28 | the tally lists each voted id once with its number of ballots, every count at least 1, summing to the number of ballots |
| VoteReveal.MaxVotes | components/VoteRevealPhase.tsx:30-31 | `Math.max(..., 0)` bounds every count and is 0 or one of the counts |
| VoteReveal.TopCandidates | components/VoteRevealPhase.tsx:32-34 | the leaders are exactly the ids whose count equals the maximum |
| VoteReveal.TopCandidatesDistinct | components/VoteRevealPhase.tsx:32-34 | no leader is listed twice |
| VoteReveal.ChooseVictim | components/VoteRevealPhase.tsx:37-39 | a victim exists exactly when there is a leader; it is a leader; a single leader is always chosen |
| VoteReveal.TopCandidatesNonEmpty | components/VoteRevealPhase.tsx:30-34 | a tally with a ballot has at least one leader |
| VoteReveal.TieNoticeMeansTie | components/VoteRevealPhase.tsx:122 | the tie notice is due (it shows once `showResult` is set) exactly when two different ids share the highest count |
| VoteReveal.VictimLeads | components/VoteRevealPhase.tsx:37-39 | the chosen victim has the highest count |
| VoteReveal.UniqueLeaderChosen | components/VoteRevealPhase.tsx:30-39 | an id with strictly more votes than every other is chosen whatever the draw |
| VoteReveal.LeaderHasMost | components/VoteRevealPhase.tsx:25-39 | from the ballots, someone is chosen exactly when there is a ballot, and the chosen id received the most ballots |
| VoteReveal.UniqueLeaderWins | components/VoteRevealPhase.tsx:25-39 | an id with strictly more ballots than any other is the victim |
| VoteReveal.ChooseFromBallots | components/VoteRevealPhase.tsx:25-39 | `victimId` is undefined only without ballots, otherwise a most-voted id, and the only one when it is unique |
| VoteReveal.VotedLiving | components/VoteRevealPhase.tsx:89-90 | the filter keeps exactly the living players with at least one vote |
| VoteReveal.InsertByCount | components/VoteRevealPhase.tsx:91 | insertion adds one occurrence of the player and nothing else |
| VoteReveal.InsertKeepsOrder | components/VoteRevealPhase.tsx:91 | inserting into a list sorted by descending count keeps it sorted |
| VoteReveal.SortByCount | components/VoteRevealPhase.tsx:91 | the sort is a permutation ordered by descending count |
| VoteReveal.FinalCountListsVotedLiving | components/VoteRevealPhase.tsx:89-91 | "Conteo Final" lists exactly the living players with votes, each once, highest count first |
| VoteReveal.Reveal.constructor | components/VoteRevealPhase.tsx:18-19 | nothing revealed and no result at first |
| VoteReveal.Reveal.Revealed | components/VoteRevealPhase.tsx:66 | the shown ballots are the first `revealedCount` entries |
| VoteReveal.Reveal.Step | components/VoteRevealPhase.tsx:44-54 | each tick reveals one more ballot until all are shown, then shows the result; what was shown stays shown |
| VoteReveal.Reveal.Complete | components/VoteRevealPhase.tsx:37-41 | the id handed on is the one chosen from these ballots: only once the result shows, never without ballots, always a player and a most-voted id, the strict leader whenever there is one, and some id whenever every ballot names a player |
| Session.MarkDead | App.tsx:302-304 | the map kills exactly the players with the victim's id and changes nothing else |
| Session.MarkDeadLivingCount | App.tsx:302-305 | with unique ids, the vote removes one living player when the id names a living one, none otherwise |
| Session.NumberedIdsUnique | App.tsx:184 | the `p-i` ids are unique |
| Session.VoteWinRules | App.tsx:307-338 | hardcore catch goes to the last bullet; another catch lets the citizens win exactly when no impostor lives; a miss lets the impostors win exactly when at most two live or only impostors survive |
| Session.EqualNumbersContinue | App.tsx:334-339 | two surviving impostors facing two surviving citizens do not win |
| Session.UnknownIdIsAMiss | App.tsx:305-338 | an id naming nobody kills nobody and is judged as a miss |
| Session.BallotOf | App.tsx:432 | a voter has a ballot exactly when one entry has that key, and it is that entry's |
| Session.SetVote | App.tsx:432 | the spread either keeps the length or appends the ballot |
| Session.SetVoteBallots | App.tsx:432 | the voter's ballot becomes the new one; every other voter's ballot is unchanged |
| Session.SetVoteShape | App.tsx:432 | an existing voter keeps their place; a new voter is appended last |
| Session.SetVoteUnique | App.tsx:432 | recording a ballot keeps one ballot per voter |
| Session.EventFor | App.tsx:403-404 | an event is drawn exactly when the roll happens, and it is one of `GAME_EVENTS` |
| Session.OverrideFor | App.tsx:405-409 | only `half_timer` (half the debate, rounded down) and `no_timer` (9999) override the timer |
| Session.NamesOf | App.tsx:450 | the players' names in order |
| Session.AdvanceRound | App.tsx:399-425 | the round goes up by one; with an event its overlay opens and the timer override is set, otherwise straight into the debate with no event |
| Session.OpenGame | App.tsx:180-264 | the opened state is round 1's first assignment with words from the pool (from an unused pair whenever one is left), the dealt table, the stored words recorded and the history raised for the impostors |
| Session.Game.constructor | App.tsx:42-60 | the initial game state with the stored ledger, history and used words |
| Session.Game.DebateLength | App.tsx:803 | the override when it is truthy, otherwise the debate length |
| Session.Game.EventDebateLength | App.tsx:401-409 | with the override an event sets, the debate handed on is half the length for `half_timer` (the whole length when that half is 0), 9999 for `no_timer`, the configured length otherwise, and never 0 when the configured length is not |
| Session.Game.StartGame | App.tsx:180-265 | the state is opened as `OpenGame` states (a fresh pair whenever one is left), the used words and history are stored, and the debate lasts `max(180, 60 per player)` |
| Session.Game.NextPlayer | App.tsx:267-299 | the next assignment; after the last one, once, a living starter and direction on the round-start overlay; then the debate |
| Session.Game.FinishGame | App.tsx:355-366 | final players, winner, game over, and the ledger credited with the current round |
| Session.Game.Vote | App.tsx:301-353 | the victim dies; the outcome of `VoteOutcome` decides last bullet, game over with the ledger credited, or the success/danger overlay with its counts |
| Session.Game.LastBulletGuess | App.tsx:368-388 | a matching normalized guess wins for the impostors; otherwise the citizens win when no impostor lives, else back to the debate with the count shown |
| Session.Game.ContinueRound | App.tsx:390-427 | past the round limit the impostors win at the current round; otherwise the round advances as `AdvanceRound` states |
| Session.Game.DismissToDebate | App.tsx:529-533 | the round-start or event overlay closes into the debate |
| Session.Game.EndDebate | App.tsx:804-811 | to the secret or open vote, with the ballots and the voter index cleared |
| Session.Game.LocalVote | App.tsx:430-443 | the ballot is recorded per voter, the voter index rises, and the reveal opens once every living player has voted |
| Session.Game.Replay | App.tsx:449-452 | a new game with the same names, counts, mode, themes and round limit, everyone alive, secret voting on: the table is dealt again from the selected themes, with an unused pair whenever one is left, the drawn word is recorded, the impostor history is raised for the new impostors and the debate lasts `max(180, 60 per player)` |
| Session.Game.ResetToSetup | App.tsx:454-460 | back to setup with the impostor history cleared |
| Session.Game.ResetScores | App.tsx:175-178 | the ledger is emptied |
| SetupPhase.RemoveAt | components/SetupPhase.tsx:45-47 | the filter drops exactly position `index` and keeps the order; an index out of range changes nothing |
| SetupPhase.Without | components/SetupPhase.tsx:52 | the filter keeps exactly the other themes, one fewer when the theme was there |
| SetupPhase.WithoutNoDuplicates | components/SetupPhase.tsx:49-57 | removing a theme keeps the selection free of repeats |
| SetupPhase.AppendNew | components/SetupPhase.tsx:32-37 | appending a name not yet listed keeps the names distinct |
| SetupPhase.UndercoverFor | components/SetupPhase.tsx:63-66 | one undercover exactly in chaos or hardcore with at least four names, otherwise none |
| SetupPhase.Setup.constructor | components/SetupPhase.tsx:15-20 | no names, impostor count 1, the first theme selected, chaos mode |
| SetupPhase.Setup.Prefill | components/SetupPhase.tsx:23-30 | with no names listed, the ledger's names fill the list; otherwise nothing changes |
| SetupPhase.Setup.Type | components/SetupPhase.tsx:124 | the input holds what was typed |
| SetupPhase.Setup.AddPlayer | components/SetupPhase.tsx:32-37 | a trimmed, non-blank, new name is appended and the input cleared; otherwise nothing changes; names stay distinct |
| SetupPhase.Setup.RemovePlayer | components/SetupPhase.tsx:45-47 | the name at `index` goes, names stay distinct |
| SetupPhase.Setup.ToggleTheme | components/SetupPhase.tsx:49-57 | a selected theme is dropped unless it is the last one; an unselected one is appended; the selection is never empty |
| SetupPhase.Setup.SetMode | components/SetupPhase.tsx:157 | the chosen mode is set |
| SetupPhase.Setup.ClearNames | components/SetupPhase.tsx:78 | the scoreboard reset also clears the names |
| SetupPhase.Setup.Start | components/SetupPhase.tsx:59-71 | a start request exactly when there are enough names, carrying the names, count, themes, mode and the mode's undercover count |
| OnlineLobby.CodeInput | components/OnlineLobby.tsx:342 | the code field holds the first four characters of the input, upper-cased |
| OnlineLobby.CodeInputStable | components/OnlineLobby.tsx:342 | feeding the field its own value changes nothing |
| OnlineLobby.CreatedTable | components/OnlineLobby.tsx:44-49 | four alive citizens, the host first under the player's name |
| OnlineLobby.DealOnline | components/OnlineLobby.tsx:77-86 | everyone revived, the drawn seat impostor without a word, all others citizens with the word; ids and names kept |
| OnlineLobby.OneImpostor | components/OnlineLobby.tsx:75-86 | a deal at a seat of the table makes exactly one impostor |
| OnlineLobby.LobbyScreen.constructor | components/OnlineLobby.tsx:19-33 | the empty lobby |
| OnlineLobby.LobbyScreen.EnterName | components/OnlineLobby.tsx:330 | the name field holds what was typed |
| OnlineLobby.LobbyScreen.EnterCode | components/OnlineLobby.tsx:342 | the code field is the cut, upper-cased input, never over four characters |
| OnlineLobby.LobbyScreen.Create | components/OnlineLobby.tsx:37-51 | nothing for a blank name; otherwise this player hosts the table of four under the upper-cased code |
| OnlineLobby.LobbyScreen.Join | components/OnlineLobby.tsx:53-66 | only with a non-blank name and a four-character code: the joined table, this player second |
| OnlineLobby.LobbyScreen.StartGame | components/OnlineLobby.tsx:68-90 | a word from the demo themes, an unused one whenever one is left, recorded under its theme in the stored history; the drawn seat is the one impostor, without a word; the others are citizens with the word; then the assignment |
| OnlineLobby.LobbyScreen.Vote | components/OnlineLobby.tsx:92-106 | an unknown id changes nothing; otherwise the citizens win exactly when the victim is the impostor |
| OnlineLobby.LobbyScreen.Reset | components/OnlineLobby.tsx:108-110 | back to the lobby |
| OnlineLobby.LobbyScreen.LeaveRoom | components/OnlineLobby.tsx:191 | out of the room |
| OnlineLobby.LobbyScreen.ChangeSetup | components/OnlineLobby.tsx:178 | out of the room and back to the lobby |
| OnlineLobby.LobbyScreen.Next | components/OnlineLobby.tsx:137 | on to the debate |
| OnlineLobby.LobbyScreen.TimerEnd | components/OnlineLobby.tsx:150 | on to the vote |
| LocalVotingPhase.Votable | components/LocalVotingPhase.tsx:22 | exactly the living players other than the voter |
| LocalVotingPhase.BallotScreen.constructor | components/LocalVotingPhase.tsx:19-20 | the hand-over screen with nothing picked |
| LocalVotingPhase.BallotScreen.ConfirmIdentity | components/LocalVotingPhase.tsx:45 | from the hand-over screen to the choice |
| LocalVotingPhase.BallotScreen.Select | components/LocalVotingPhase.tsx:72 | the tapped votable player becomes the pick |
| LocalVotingPhase.BallotScreen.Confirm | components/LocalVotingPhase.tsx:110-114 | a ballot exactly when something is picked, from this voter for a living player other than the voter |
| VotingPhase.SuspectScreen.constructor | components/VotingPhase.tsx:12 | nothing picked |
| VotingPhase.SuspectScreen.Select | components/VotingPhase.tsx:24-27 | the tapped living player becomes the pick |
| VotingPhase.SuspectScreen.Confirm | components/VotingPhase.tsx:56 | a vote exactly when someone is picked, for a living player |
| DebatePhase.CountsDown | components/DebatePhase.tsx:14-24 | a running countdown from t shows t − k after k ≤ t ticks, then stays at 0, switched off |
| DebatePhase.Stopped | components/DebatePhase.tsx:20-22 | at 0 and switched off, the clock stays put |
| DebatePhase.RunningUntilZero | components/DebatePhase.tsx:14-24 | a clock that is running or at zero stays so, and never goes below zero, under any number of effect runs: the timer only stops at zero |
| DebatePhase.TwoDigits | components/DebatePhase.tsx:33 | the seconds are two digits that read back as themselves |
| DebatePhase.FormatTimeReadsBack | components/DebatePhase.tsx:31-33 | the display is minutes, a colon and two digits of seconds below 60, reading back as the time left |
| DebatePhase.DebateTimer.constructor | components/DebatePhase.tsx:11-12 | the clock starts at the debate length, running |
| DebatePhase.DebateTimer.Step | components/DebatePhase.tsx:14-24 | one second off while running with time left, switched off at 0, otherwise unchanged; never below 0, and running whenever time is left |
| DebatePhase.DebateTimer.AddMinute | components/DebatePhase.tsx:26-29 | exactly sixty seconds more, running again |
| DebatePhase.DebateTimer.Display | components/DebatePhase.tsx:31-33 | the shown clock is the formatted time left |

## Left out

- Rendering, styling, animations, sounds, vibration, the PWA shell and the
  settings menu. They do not change the game state.
- The delays themselves: `setTimeout` and `setInterval`. A tick or a timer
  firing is a method call: `VoteReveal.Reveal.Step` and
  `DebatePhase.DebateTimer.Step`.
- React batching, double-invoked state updaters under StrictMode, and stale
  closures. Each handler runs once, atomically, on the current state.
  `finishGame` crediting the ledger from inside a `setGameState` updater is
  therefore modelled as one step.
- `localStorage`, JSON and the restore of a saved game:
  - the used-word history is a `Stored` value passed in and returned;
  - the score ledger and the impostor history are fields;
  - their persistence effects are not modelled.
- `gameId` and `Date.now()`: the id is left out of `GameState`.
- `Math.random()` is a rational number in [0, 1). A draw is a parameter, not
  a source of randomness.
- `RoleAssignment.WeightedSelect`: the floating-point weights
  `1 / (times + 1)` and the cumulative subtraction are not modelled. The
  index of each draw is an injected choice. An out-of-range choice falls back
  to 0, which is what `chosenIdx` keeps when no cumulative weight is reached.
  The model therefore proves what holds for every choice: count, membership,
  no repeats. It does not prove the weighting.
- `Session.Game.ContinueRound`: the 40% event chance is the presence of the
  `roll` parameter. The event index is `Math.floor(u * 5)` of that roll.
- `Session.Game.LastBulletGuess`: `normalize` (lower case, NFD,
  diacritic stripping, `trim`) is a function parameter. Unicode normalization
  is not modelled.
- `Session.Game.NextPlayer`: it requires a living player when it draws the
  starting player. The source would read `undefined.name` and throw on a
  table with nobody alive.
- `JsText.UpperChar`: `toUpperCase` is modelled for ASCII letters only; other
  characters are kept as they are.
- `JsText.Trim`: strings are Dafny characters rather than UTF-16 code units.
  `trim` uses the ECMAScript white-space and line-terminator set.
- `VoteReveal.ChooseVictim`: in the component, the tie-break draw is repeated
  on every render. The model states what holds for any one draw; which draw
  the final click sees is not modelled.
- `OnlineLobby.LobbyScreen.StartGame`: the source mutates the player objects
  it shares with the previous array. The model deals on values and does not
  capture that aliasing.
- `OnlineLobby.LobbyScreen.Create`: the room code drawn from
  `Math.random().toString(36)` is a parameter. The clipboard and share
  buttons, the `view` navigation of the menu, and the host-only visibility of
  the start button are not modelled.
- `SetupPhase.Setup.Prefill`: the order of `Object.keys(scores)` is given as a
  parameter that lists the ledger's names once each.
- The constants are parameters or are reduced to what the handlers use:
  - `WORD_LISTS` is a `WordLists` map;
  - `THEMES[0].id` and `MIN_PLAYERS` are constructor arguments;
  - only the events' ids and effects are kept (their texts and emoji are
    left out).
- `WordService.GetGameWords`: it requires the pool it draws from to be
  non-empty. That pool is empty only when the selected themes yield no pair
  and the default theme is empty; the source would then index an empty list
  and fail.
- `WordService.LoadUsedWords`: a stored value that parses to `null` or to a
  non-object is not modelled. `Stored` is missing, unparseable or a parsed
  history. In the source, such a value passes `getUsedWords` and makes the
  filter throw.
- `ScoreLedger.UpdateScores`: the score ledger is a map from names to
  totals. In the source it is a plain object keyed by the names typed at
  setup. A name that is an `Object.prototype` member (`constructor`,
  `toString`, `__proto__`, …) reads an inherited value there: the entry is
  never set to 0, `+= points` concatenates a string, and `__proto__` drops the
  write. The model does not capture this, here or in the handlers that
  credit the ledger or raise the impostor history (`Session.OpenGame`,
  `Session.Game.FinishGame`, `Session.Game.Vote`, `Session.Game.LastBulletGuess`,
  `Session.Game.ContinueRound`).
- `ScoreLedger.CreditOne`: states the ledger as a map, so it holds only for
  names that are not `Object.prototype` members.
- `ScoreLedger.CreditedLedger`: the same map reading; it holds only for names
  that are not `Object.prototype` members.
- `ScoreLedger.CreditedEntry`: the same map reading; it holds only for names
  that are not `Object.prototype` members.
- `ScoreLedger.CreditedKeys`: the same map reading; it holds only for names
  that are not `Object.prototype` members.
- `RoleAssignment.BumpHistory`: the impostor history is a map as well;
  `(newHistory[name] || 0) + 1` on a prototype-member name reads the
  inherited value in the source, which the model does not capture.
- `RoleAssignment.BumpedOnce`: states the history update as a map, so it holds
  only for names that are not `Object.prototype` members.
- `RoleAssignment.DrawnGainOne`: states the history update as a map, so it
  holds only for names that are not `Object.prototype` members.
- `RoleAssignment.DrawImpostors`: states the history update as a map, so it
  holds only for names that are not `Object.prototype` members.
- `RoleAssignment.DealRoles`: states the history update as a map, so it holds
  only for names that are not `Object.prototype` members.
- `ResultPhase.TotalShown`: `scores[name] || 0` is a map lookup; a
  prototype-member name reads an inherited value in the source.
- `VoteReveal.SortByCount`: the relative order of players with equal counts
  (the stability of `Array.prototype.sort`) is not stated.
- `DebatePhase.DebateTimer`: the progress ring is left out. The duration is a
  natural number; `timerOverride || timerDuration` is `Session.Game.DebateLength`.
- The assignment screen (`AssignmentPhase`), the last-bullet input screen, the
  scoreboard and the AI hints are not part of this model. They only display
  state or forward one value to a modelled handler.
