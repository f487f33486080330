# Blackjack round engine of the VK chat bot, in Dafny

This project models the engine that runs one round of Blackjack per VK group chat. It
covers how cards are drawn and scored, and the stage machine:

`inactive → gathering → betting → dealing_players → dealing_dealer → results → inactive`

It also covers the chat-command handlers that drive the machine, the text-to-event router
with its stage guards, the classifier of VK updates, the Russian plural-form helper and
the VK request-URL builder.

Modules, one per source file or component:

- `Decks`, in `decks.dfy` (`EndlessDeck`). Cards are the strings `"<rank> <suit>"`.
  - `CountPoints` is the source's two loops, proved equal to the specification function
    `HandValue`.
  - `HandValue` is the greedy ace rule exactly as written. Non-ace cards are summed first,
    then each ace adds 11 while that keeps the total at most 21, and 1 otherwise. Its
    closed form is proved: at most one ace counts 11, and only when the non-ace sum is at
    most 10.
  - This is not the usual soft-total rule: King, Ace, Ace scores 22, not 12.
    `GreedyAgainstSoftTotal` characterises exactly the hands on which the two rules differ.
- `GameStore`, in `store.dfy`. This is the persisted chat state held in memory: one `Store`
  object whose fields are the Game row, the Player rows and the chat's games-played
  counter.
  - Field shapes follow `api_service/game/models.py`; stages follow
    `api_service/game/states.py`.
  - A Player row is identified by its user, since the chat's Game row is reused for every
    round.
  - Outbound messages are an abstract `notices` log without text. Pending timers are the
    list of continuations they will run. The store's win/loss/draw record calls form an
    `outcomes` log.
  - `Consistent` is the record invariant every method keeps:
    - balances are non-negative and cover the bet;
    - one row per user;
    - every card can be scored;
    - the current-turn id names a player.
- `Rounds`, in `rounds.dfy`. This module is the specification of the manager:
  - the outcome of a hand against the dealer (`Classify`);
  - what recording an outcome does to a row (`Settle`);
  - the state each stage step leaves behind;
  - the relation `Cascade` that the mutually recursive turn procedure establishes. Every
    outcome recorded in it belongs to a distinct player who was in the round and is now
    out of it, so no player is settled twice. Inactive rows are untouched. The cascade
    ends with the round over, or with exactly one player offered a card and the turn
    timer armed.
- `GameManager`, in `manager.dfy` (`app/store/game/manager.py`). Each step is an imperative
  method on the `Store`, proved against `Rounds`.
- `GameHandler`, in `handler.dfy` (`app/store/game/handler.py`). These are the command
  handlers, each behind its decorators.
- `Decorators`, in `decorators.dfy`. These are the guards as admit/refuse functions of the
  stage; a refusal carries at most one notice.
- `Events` and `Router`, in `events.dfy` and `router.dfy`. These are the closed command
  vocabulary, `get_event` and the `HANDLERS` table.
- `Utils`, `Bot` and `VkApi`. These are `get_noun_ending`, `BotManager`'s update
  classification and `_build_query`. `_build_query` appears identically in the bot and
  poller services too.

The bot's chat commands and its offer after an invite call `new_game`, `game_rules` and
`offer_to_play` on the game manager, which defines none of them. Each such call raises
AttributeError, which ends the loop over the batch: `Bot.HandleUpdates` handles the
updates up to and including the first that raises, and reports the raise.

Randomness (`random.choice`, `take_a_card`) is nondeterministic choice. A drawn card is
*some* deck card, and the next player is *some* active player without cards. The members
count that the VK API reports is a parameter of the handlers; 0 stands for an empty or
unavailable list.

Points of the code worth knowing, which the model follows:
- The greedy ace rule is not the soft-total rule (see `Decks.GreedyAgainstSoftTotal`).
- Unregistering clears a bet only when it is truthy, so a stored all-in bet of 0 stays;
  `inactivate_game` does the same.
- Besides abort and cancel, the round also ends early when no active player is left to
  take a turn.

Two behaviours of the code that follow from it as written:
- If the process stops after a bust was booked as a loss but before the turn passed, the
  game resumes in `dealing_players` with the busted player still current, out of the
  round and holding no cards. `recovery` then deals that player two cards
  (`Rounds.RetiredPlayerRedealt`); under 21 they are offered a card and the turn timer
  starts, and their record can be booked again.
- A `betting` game found at start-up whose players all left has every bet placed
  vacuously, so dealing opens and `random.choice` raises. The game is left in
  `dealing_players` with no current player and nobody in the round. By the ensures of
  `GameManager.Recovery` for that stage, a start-up from such a state opens dealing
  again (`DealingOpened`) and raises again. `Rounds.RaisedDealingRepeats` shows that the
  state after `n` such start-ups (`Rounds.Reopened`) is still such a state, with the
  rows unchanged and `n` more games counted.

In `recovery`, a `dealing_dealer` game that already has a dealer hand is settled once. The
following `results` test reads the stage loaded at entry, so it does not settle again.

## Model

| member | source | states |
|---|---|---|
| `Decks.TakeACard` | app/store/game/decks.py:24-32 | The card drawn is some rank of the 13-key table, a space, and some of the 4 suits, and it has a first word. |
| `Decks.FirstWordOfCard` | app/store/game/decks.py:30-41 | `split()[0]` of `"<word> <suit>"` is the word: formatting and parsing a card round-trip. |
| `Decks.DeckCardScore` | app/store/game/decks.py:24-47 | A card built by `take_a_card` parses back to its rank, and alone it scores that rank's weight (11 for Туз). |
| `Decks.CountPoints` | app/store/game/decks.py:34-58 | The two accumulator loops return exactly `HandValue` of the hand. |
| `Decks.AddAcesClosedForm` | app/store/game/decks.py:52-58 | Adding aces one at a time greedily gives base + aces, plus 10 exactly when there is an ace and base ≤ 10. |
| `Decks.HandValueClosedForm` | app/store/game/decks.py:40-58 | A hand's total is its non-ace sum plus its ace count, plus 10 when it holds an ace and the non-ace sum is at most 10. |
| `Decks.NoAcesPlainSum` | app/store/game/decks.py:40-50 | A hand without aces scores the plain sum of its rank weights. |
| `Decks.HandValueAtLeastCount` | app/store/game/decks.py:40-58 | Every card contributes at least one point, so the total is never below the number of cards. |
| `Decks.UnknownRankCountsAsAce` | app/store/game/decks.py:41-47 | A card whose first word is not a key of the rank table is counted as an ace (11 on its own). |
| `Decks.BlackjackIsAceAndTen` | app/store/game/decks.py:60-69 | `is_blackjack` holds iff the hand is two cards, one an ace and the other ten-valued, in either order. |
| `Decks.TwoCardsAtMost21` | app/store/game/decks.py:34-58 | Two cards never score more than 21. |
| `Decks.NotBlackjackUnlessTwoCards` | app/store/game/decks.py:63-64 | A hand of any size other than two is never a blackjack. |
| `Decks.FourAces` | app/store/game/decks.py:52-58 | Four aces score 14 (11 + 1 + 1 + 1). |
| `Decks.KingAceAce` | app/store/game/decks.py:52-56 | King, Ace, Ace scores 22 under the greedy rule, where the usual rule gives 12. |
| `Decks.SoftReduceClosedForm` | app/store/game/decks.py:52-58 | The usual soft-total reduction keeps one ace at 11 exactly when the hard total plus 10 fits in 21. |
| `Decks.GreedyAgainstSoftTotal` | app/store/game/decks.py:49-58 | The greedy rule equals the usual rule except when there is an ace, base ≤ 10 and base + aces > 11; there it scores 10 more and busts. |
| `GameStore.StageNameInjective` | api_service/game/states.py:4-12 | The six stages are stored as six distinct strings. |
| `GameStore.FindPlayer` | api_service/game/models.py:55-67 | The player look-up returns an index holding that user's row, or None exactly when no row has that user. |
| `GameStore.Store.constructor` | api_service/game/models.py:28-36 | A chat's game starts inactive, with no current player, no dealer cards or points, and no players. |
| `Rounds.Classify` | app/store/game/manager.py:268-290 | Dealer over 21 means every hand wins, flagged blackjack iff it is one. Otherwise: a blackjack against a dealer under 21 wins; P<D loses, P>D wins and P==D draws, both ways. A blackjack never loses and draws against a dealer 21. |
| `Rounds.Settle` | app/store/game/manager.py:294-336 | After an outcome is recorded the player is out of the round, with hand and bet cleared, the given balance and played+1. A win adds one to won, a loss adds one to lost, and a draw moves neither. |
| `Rounds.ActiveIds` | app/store/game/manager.py:59-72 | The names listed at the end of gathering are exactly the active players, one per active row. |
| `Rounds.DropBetless` | app/store/game/manager.py:100-106 | An active player without a bet leaves the round with the rest of the row unchanged; every other row is unchanged; so every player still in the round has a bet. |
| `Rounds.ClearActive` | app/store/game/manager.py:498-505 | Each active row leaves the round with an empty hand and no truthy bet (a falsy bet is kept), and nothing else in it changes; inactive rows are untouched. |
| `Rounds.CountActiveNonZero` | app/store/game/manager.py:59-61 | The active-player list is empty iff no row is active. |
| `Rounds.SettlementsOfActive` | app/store/game/manager.py:268-290 | Every outcome recorded by the settlement loop is the classified outcome of an active row, and no user is settled twice. |
| `Rounds.DealerStopsBound` | app/store/game/manager.py:239-244 | A dealer hand drawn until 17 or more has at most 17 cards. |
| `Rounds.InactivatedIsRoundOver` | app/store/game/manager.py:484-507 | After inactivation the stage is inactive, there is no current player, no dealer hand and no active player, and the records stay consistent. |
| `Rounds.TurnMovesOn` | app/store/game/manager.py:171-184 | Once a player holds 21 or more, the turn never rests with that player again in the cascade that follows. |
| `Rounds.SummedIsCascade` | app/store/game/manager.py:254-292 | Settling all remaining players settles each once, touches no inactive row, and ends the round. |
| `Rounds.DealerTurnIsCascade` | app/store/game/manager.py:229-252 | The dealer's turn is a stretch of the turn cascade. |
| `Rounds.PlayerTurnIsCascade` | app/store/game/manager.py:212-227 | Handing the turn to a player without cards and dealing them two is a stretch of the turn cascade. |
| `Rounds.OfferChecked` | app/store/game/manager.py:186-197 | A hand under 21 is offered a card and the turn timer is armed; nothing else changes and the turn stays. For a player in the round that is a stretch of the cascade. |
| `Rounds.TwentyOneChecked` | app/store/game/manager.py:171-178 | A hand of 21 is announced as a blackjack exactly when it has two cards (nothing is announced otherwise), and then the turn passes exactly as `set_next_player_turn` passes it. For a player in the round the whole is a stretch of the cascade that leaves the turn with someone else. |
| `Rounds.OverflowChecked` | app/store/game/manager.py:180-184 | A hand over 21 is announced, recorded as a loss (the player leaves the round), and then the turn passes exactly as `set_next_player_turn` passes it. For a player in the round the whole is a stretch of the cascade that leaves the turn with someone else. |
| `Rounds.RetiredPlayerRedealt` | app/store/game/manager.py:442-465 | Two cards dealt to a current player who is already out of the round with no cards (the row a loss leaves while the turn is still theirs) land in that player's hand; they stay out of the round, and under 21 they are offered a card with the turn timer armed and the turn still theirs. |
| `Rounds.RetiredChecked` | app/store/game/manager.py:158-197 | Checking a hand of at most 21 held by a player out of the round leaves that row as it is, and under 21 only offers a card and arms the timer. |
| `Rounds.RaisedDealingRepeats` | app/store/game/manager.py:118-140 | Starting from no current player and nobody in the round, dealing opened `n` times over leaves the stage `dealing_players` (for `n` > 0), still no current player, the rows unchanged with nobody in the round, `n` more games counted and `n` more notices. This is the precondition of the `dealing_players`, no-current-player branch of `GameManager.Recovery` again. |
| `GameManager.StartGame` | app/store/game/manager.py:28-35 | A start is announced, then the gathering stage begins. |
| `GameManager.GatheringPlayers` | app/store/game/manager.py:37-52 | The stage becomes gathering and the collect-players timer is armed. |
| `GameManager.CollectPlayers` | app/store/game/manager.py:54-73 | With no active player the round aborts to inactive. Otherwise the active players are listed and betting starts. |
| `GameManager.StartBetting` | app/store/game/manager.py:75-90 | The stage becomes betting and the collect-bets timer is armed. |
| `GameManager.CollectBets` | app/store/game/manager.py:92-116 | Betless active players are deactivated and named. With nobody left the round aborts; otherwise dealing starts. |
| `GameManager.StartDealing` | app/store/game/manager.py:118-140 | The chat's games-played count goes up exactly once and the stage becomes dealing_players. Some active player gets the turn and two cards; with none, `random.choice` raises. |
| `GameManager.DealCards` | app/store/game/manager.py:142-156 | Exactly `amount` deck cards are added to the player's hand and shown, and then the hand is checked, whether or not the player is still in the round. |
| `Rounds.DealtIntro` | app/store/game/manager.py:142-156 | Fresh deck cards added to a hand and shown, followed by the check of that hand, are a deal of that many cards, and the notices only grow. |
| `GameManager.DrawCards` | app/store/game/manager.py:151 | Exactly `amount` deck cards are drawn. |
| `GameManager.CheckHand` | app/store/game/manager.py:158-197 | 21 is announced as a blackjack exactly when held in two cards, then the turn passes as `set_next_player_turn` passes it. Over 21 is announced and booked as a loss, then the turn passes likewise. Under 21 offers a card and arms the timer without a turn change. The player need not be in the round; when they are, the check is a stretch of the cascade. |
| `GameManager.NextTurn` | app/store/game/manager.py:199-227 | With no active player the game ends. With every active player holding cards the dealer plays. Otherwise some active player without cards gets the turn and exactly two cards. In all cases no one is settled twice. |
| `GameManager.DrawDealerHand` | app/store/game/manager.py:239-244 | The dealer draws two cards, then draws while under 17. Points equal the hand's score and are at least 17, and at most 17 cards are drawn. |
| `GameManager.DealToDealer` | app/store/game/manager.py:229-252 | The stage becomes dealing_dealer. The stored dealer points are the score of the stored dealer hand, and then results are summed up. |
| `GameManager.SumUp` | app/store/game/manager.py:254-292 | Without truthy dealer points the game is inactivated and nobody is settled. Otherwise each active player gets exactly their classified outcome, in row order, and the game ends. |
| `GameManager.SettleRows` | app/store/game/manager.py:268-290 | The loop settles each active row against the dealer's points and leaves inactive rows alone. |
| `GameManager.JudgeHand` | app/store/game/manager.py:274-290 | The branch taken for one hand is `Classify` of that hand. |
| `GameManager.RecordOutcome` | app/store/game/manager.py:294-336 | The outcome is announced and recorded for the player, who leaves the round. A loss that empties the balance is also announced. |
| `GameManager.EndGame` | app/store/game/manager.py:338-348 | The stage becomes inactive with no current player and the dealer hand and points cleared, and the players are offered another game. |
| `GameManager.SendStatistic` | app/store/game/manager.py:350-386 | The chat's played count is sent, followed by the asker's own record (none for a non-player). Nothing else changes. |
| `GameManager.InactivateGame` | app/store/game/manager.py:484-507 | Timers are cancelled first. Only players active at entry are touched: each ends with no truthy bet, an empty hand and inactive. The game ends inactive with no current player and no dealer hand. |
| `GameManager.Recovery` | app/store/game/manager.py:403-482 | A game found on at start-up resumes from its stored stage: gathering or betting re-arms its timer, or betting goes straight to dealing when all bets are placed. Mid-deal it re-checks the current player's hand, or deals them two cards when they hold none, whether or not they are still in the round; the dealer or results stages settle. |
| `GameManager.OnTimer` | app/store/game/timer.py:35-39 | An expired timer is removed from the pending list and its continuation (collect players, collect bets or next turn) runs. |
| `GameHandler.SendGameOffer` | app/store/game/handler.py:29-37 | With no game on, the chat is invited to play ("again" once it has played); with a game on, nothing happens. |
| `GameHandler.StartGame` | app/store/game/handler.py:39-59 | With no game on: if every member has lost all their cash, the game is refused with a notice; otherwise gathering starts. With a game on, nothing happens. |
| `GameHandler.RegisterPlayer` | app/store/game/handler.py:61-114 | Outside gathering, the guard's notice is the only change. In gathering the user is registered by the four cases of `Registered`. |
| `GameHandler.Register` | app/store/game/handler.py:73-114 | The body of `register_player` past its guards takes the store to `Registered`: a new row with the start cash for an unknown user, a notice for a user with no cash or already in the round, otherwise the row rejoins; then the all-play check. |
| `GameHandler.CheckAllPlay` | app/store/game/handler.py:106-114 | When all play, the gathering timer ends and betting starts; otherwise nothing changes. |
| `GameHandler.AllPlayCounts` | app/store/game/handler.py:116-130 | When all play, somebody is active and the active players plus the losers are exactly the chat's members. |
| `GameHandler.RegisteredRows` | app/store/game/handler.py:73-104 | Registration never changes any cash, bet or hand, or another user's row. Afterwards the user has exactly one row, which is in the round unless it was out of the round with no cash. A row is added only for an unknown user. |
| `GameHandler.UnregisterPlayer` | app/store/game/handler.py:132-156 | In gathering or betting the user's row leaves the round with any truthy bet cleared; otherwise the guard's notice is the only change. |
| `GameHandler.UnregisteredRows` | app/store/game/handler.py:150-153 | Unregistering leaves the user out of the round with no stake and no refund, and touches no other row. |
| `GameHandler.CheckBet` | app/store/game/handler.py:179-190 | All-in stakes the whole cash. A number is refused iff it is zero, or iff it exceeds the cash. An accepted bet never exceeds the cash, and an accepted number is positive. |
| `GameHandler.RoutedBetTexts` | app/store/game/handler.py:179-182 | Every text routed to the bet handler is either "ва-банк" or all digits. |
| `GameHandler.AcceptBet` | app/store/game/handler.py:158-202 | Outside betting only the guard acts. In betting, a non-player or inactive player is ignored silently, an existing bet is kept with a reminder, and zero or too-much is refused without a state change. Otherwise the bet is stored, and once every active player has bet the timer ends and dealing starts. |
| `GameHandler.TakeBet` | app/store/game/handler.py:163-202 | This is the body of `accept_bet` past its guards, with the cases of `AcceptBet`. |
| `GameHandler.StoreBet` | app/store/game/handler.py:192-202 | The bet is stored and acknowledged. If every active player now has a bet, the timer ends and dealing begins. |
| `GameHandler.DealMoreCard` | app/store/game/handler.py:204-227 | A non-player or another player gets a notice and nothing else changes. The current player's request ends the timer and deals exactly one card. |
| `GameHandler.StopDealingCards` | app/store/game/handler.py:229-253 | A non-player or another player gets a notice and nothing else changes. The current player's stand ends the timer and passes the turn. |
| `GameHandler.SendPlayerHand` | app/store/game/handler.py:255-270 | With a game on, the asker's cards are shown (empty for a non-player), and nothing else changes. |
| `GameHandler.Available` | app/store/game/handler.py:285-286 | The balance shown is the cash minus a truthy bet, between 0 and the cash, and the stored cash is unchanged. |
| `GameHandler.SendPlayerCash` | app/store/game/handler.py:272-289 | A non-player gets a notice; a player is shown their available balance. Nothing is written. |
| `GameHandler.SendGameRules` | app/store/game/handler.py:291-298 | The rules are sent and nothing else changes. |
| `GameHandler.SendRestoreCommand` | app/store/game/handler.py:331-342 | The restore command is offered iff somebody has no cash left. |
| `GameHandler.AbortGame` | app/store/game/handler.py:300-309 | In gathering or betting the game is inactivated and the causer named; otherwise the guard's notice is the only change. |
| `GameHandler.CancelGame` | app/store/game/handler.py:311-322 | In dealing_players, dealing_dealer or results the game is inactivated without settlement and the canceller named; otherwise the guard's notice is the only change. |
| `GameHandler.RestoreGameAndCash` | app/store/game/handler.py:344-364 | Nothing happens without losers. Otherwise the game is inactivated and every player's cash is set to the global start cash. |
| `GameHandler.RestoredRows` | app/store/game/handler.py:348-364 | After a restore the round is over, nobody plays, and every row holds the start cash. With a positive start cash no loser is left. |
| `GameHandler.Refuse` | app/store/game/decorators.py:10-56 | A refused handler sends the guard's notice, if it has one, and changes nothing else. |
| `Decorators.GameMustBeOn` | app/store/game/decorators.py:10-23 | The handler is admitted iff a game is on; a refusal sends the "game is off" notice. |
| `Decorators.GameMustBeOff` | app/store/game/decorators.py:26-37 | The handler is admitted iff no game is on; a refusal sends no notice. |
| `Decorators.GameMustBeOnState` | app/store/game/decorators.py:40-56 | The handler is admitted iff the stage is in the allowed list; a refusal sends the "wrong state" notice. |
| `Decorators.NamesMatchStages` | app/store/game/decorators.py:48 | Comparing stored stage names decides membership of the stage itself. |
| `Decorators.Stack` | app/store/game/handler.py:61-62 | Of two stacked guards the outer one decides first, and the handler runs iff both admit. |
| `Decorators.OnAndInState` | app/store/game/decorators.py:14-52 | The two stacked guards refuse an idle game as off, and a running game outside the list as in the wrong state. |
| `Events.ValueInjective` | app/store/game/events.py:4-21 | No two events share a text value. |
| `Events.LookupValue` | app/store/game/router.py:46-50 | Looking up a text by value finds an event iff the text is that event's value. |
| `Router.DecimalValue` | app/store/game/handler.py:182 | `int` of a digit string is zero iff every digit is 0. |
| `Router.NoValueIsDigits` | app/store/game/events.py:7-21 | No event's value is all digits. |
| `Router.GetEventCases` | app/store/game/router.py:40-50 | `get_event` returns bet for all-digit text and the event whose value the text is otherwise. It returns no event for any other text, in both directions. |
| `Router.GetEventOfValue` | app/store/game/router.py:43-48 | Round trip: the value of every event routes back to that event. |
| `Router.DigitsAreBets` | app/store/game/router.py:43-44 | Any all-digit text is a bet, whatever number it spells. |
| `Router.HandlersTotal` | app/store/game/router.py:22-38 | Every one of the 15 events has a handler in `HANDLERS`. |
| `Router.Route` | app/store/game/router.py:52-55 | `route` always returns a handler from the table. |
| `Router.RouteIsInjective` | app/store/game/router.py:22-38 | No two events share a handler. |
| `Utils.GetNounEnding` | app/store/common/utils.py:1-15 | The result is always one of the three given forms. |
| `Utils.GetNounEndingIsPluralForm` | app/store/common/utils.py:6-15 | The selector agrees with the Russian agreement rule: "one" for last digit 1 except 11, "two" for 2..4 except 12..14, "five" otherwise. |
| `Utils.SignInsensitive` | app/store/common/utils.py:6 | f(n) == f(−n). |
| `Utils.DependsOnLastTwoDigits` | app/store/common/utils.py:6-7 | The result depends only on abs(n) mod 100. |
| `Utils.TeensTakeFive` | app/store/common/utils.py:8-9 | When abs(n) mod 100 is 5..20, the "five" form is returned. |
| `Utils.LastDigitDecides` | app/store/common/utils.py:10-15 | Outside 5..20, last digit 1 gives "one", 2..4 gives "two", and 0 or 5..9 gives "five". |
| `Utils.DocExample` | app/store/common/utils.py:4 | 4 gives 'слона', 11 gives 'слонов' and −21 gives 'слон'. |
| `Bot.BranchOf` | app/store/bot/manager.py:21-30 | Each update takes exactly one branch: private iff from_id == peer_id; an invite iff not private and the action is "chat_invite_user"; otherwise a chat message. |
| `Bot.Lower` | app/store/bot/manager.py:64 | Lower-casing keeps the length and lower-cases each letter. |
| `Bot.ChatCommandOf` | app/store/bot/manager.py:60-74 | Either start phrase (lower-cased) starts a game, the rules phrase (lower-cased) sends the rules, and the bare mention (case-sensitive) sends an offer. Nothing else triggers an action. |
| `Bot.MentionIsCaseSensitive` | app/store/bot/manager.py:72 | A capitalised bare mention triggers nothing. |
| `Bot.StartIgnoresCase` | app/store/bot/manager.py:63-69 | Texts equal up to letter case trigger the same start or rules command. |
| `Bot.RaisesIffCommand` | app/store/bot/manager.py:44-74 | An update raises (it reaches a call of `new_game`, `game_rules` or `offer_to_play`, which the game manager does not define) iff its actions hold a command, and the command is then its last action. |
| `Bot.Handled` | app/store/bot/manager.py:21-30 | The updates handled are a prefix of the batch in which no update but the last raises; a shorter prefix ends with an update that raises. |
| `Bot.HandledUpToFirstRaise` | app/store/bot/manager.py:21-30 | With no update raising the whole batch is handled; otherwise exactly the updates up to and including the first that raises. |
| `Bot.HandleUpdates` | app/store/bot/manager.py:18-30 | The loop sends the actions of the handled updates in list order, and reports a raise iff some update in the batch raises. |
| `Bot.HandledConcat` | app/store/bot/manager.py:21-30 | A first batch in which nothing raises is handled whole, followed by the second batch handled on its own. |
| `Bot.ReactionsConcat` | app/store/bot/manager.py:21 | The actions of two runs of updates handled one after the other are those of their concatenation. |
| `Bot.PrivateBeforeInvite` | app/store/bot/manager.py:23-24 | An update with from_id == peer_id gets only the private reply, even when it carries an invite. |
| `Bot.InviteOffersWhenIdle` | app/store/bot/manager.py:44-57 | An invite is greeted, and an offer follows iff the chat's game is "inactive". |
| `VkApi.WithVersion` | app/store/vk_api/accessor.py:55-56 | An absent "v" is appended with "5.131"; a present "v" leaves the dict unchanged. Keys stay unique and "v" is present. |
| `VkApi.Rendered` | app/store/vk_api/accessor.py:57 | Each pair is rendered as "k=v", unescaped, in order. |
| `VkApi.BuildQuery` | app/store/vk_api/accessor.py:53-58 | The caller's dict gains "v" in place only if it was absent. The URL is host + method + "?" + the "&"-joined pairs of the updated dict. |
| `VkApi.QuerySnoc` | app/store/vk_api/accessor.py:57 | One more pair extends the query by "&k=v" (or is the whole query). |
| `VkApi.VersionComesLast` | app/store/vk_api/accessor.py:55-57 | An inserted "v=5.131" comes after every given pair. |
| `VkApi.NoEscaping` | app/store/vk_api/accessor.py:57 | A value holding "&" and "=" gives the same query as two separate pairs. |

## Left out

- Message text, keyboards, images and the user directory: each notification is an abstract `Notice` in a log. A user's name and sex are not modelled.
- VK HTTP calls, the long-poll loop, message-broker relays and the 4-second pause after an invite are not modelled. The member list from `get_chat_users` is the `members` parameter, and the game stage read after an invite is the `stateOf` parameter.
- Timers: durations (30 and 60 seconds) and asyncio scheduling are not modelled. A pending timer is an entry in `timers`, and ending the timers empties the list. That is an idealisation: the code's `end_timer` removes entries from the list it is iterating over, so it can skip one, and it leaves a task whose sleep has already finished. `GameManager.OnTimer` fires one entry.
- Concurrency: each command and each timer continuation runs atomically, so the race in which two players' concurrent bets both see "all bets placed" is not represented.
- Payouts and the house bank: the store's `set_player_win/loss/draw` are not part of this model. `Rounds.Settle` assumes they leave the player inactive with hand and bet cleared, and with played, won and lost counters moved on. The new balance is some non-negative amount, and the 1.5× blackjack payout and the chat's casino cash are not modelled.
- `count_losers` and `is_game_on` are not part of this model. They are taken to count the rows with zero cash and to test that the stage is not inactive.
- Chat and game rows are assumed to exist; the lazy creation in `start_game` and the "no chat" branch of `send_statistic` are not modelled. The start-up loop `connect` and `disconnect` are not modelled beyond `GameManager.Recovery`.
- Persistence internals, the admin and statistics HTTP API, configuration loading and the retry-on-database-error wrapper are not modelled.
- Decks.CountPoints: requires every card to contain a non-blank word, because `split()[0]` raises IndexError on a blank card string and that exception is not modelled.
- GameManager.StartDealing: the IndexError that `random.choice` raises with no active player is reported by the `raised` result; the exception's propagation to the caller is not modelled.
- GameHandler.AcceptBet: requires the text to be "ва-банк" or all digits. The handler is taken to be reached only with the text the router classified as a bet (`GameHandler.RoutedBetTexts`); the `ValueError` that `int` raises on any other text is not modelled. The same holds for `GameHandler.TakeBet` and `GameHandler.CheckBet`.
- GameHandler.TakeBet: requires the same bet text as `GameHandler.AcceptBet`, for the same reason.
- GameHandler.CheckBet: requires the same bet text as `GameHandler.AcceptBet`, for the same reason.
- GameHandler.NewPlayer: the store's `create_player` is not part of this model. A new row is taken to hold the global start cash, no bet, no cards and zero games, and to be in the round.
- Router.IsDigits: models `str.isdigit` on ASCII digits only. Python also accepts other Unicode digits, on which `int()` may raise.
- Bot.HandleUpdates: a `Command` action stands for the call of `new_game`, `game_rules` or `offer_to_play`, which the game manager of this code base does not define; the call raises AttributeError, modelled as the end of the batch and the `raised` result. The exception's propagation to the poller is not modelled.
- Bot.Lower: models `str.lower` on the Latin and Russian alphabets only.
- VkApi.BuildQuery: parameter keys and values are modelled as strings; Python's formatting of other value types is not modelled.
