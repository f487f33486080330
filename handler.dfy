/**
  The chat-command handlers of app/store/game/handler.py, as methods on the store. Each
  runs behind the guards of its decorators; a refused command only sends the guard's
  notice. The number of chat members the VK API reports is a parameter, `members`, where
  0 stands for an empty or unavailable member list.
 */
module GameHandler {
  import opened Wrappers
  import opened Decks
  import opened GameStore
  import opened Rounds
  import opened Decorators
  import Router
  import Events
  import GameManager

  /** The state after a guard refused a command. */
  function AfterRefusal(v: Snapshot, a: Admission): Snapshot {
    if a.Refused? && a.notice.Some? then v.(notices := v.notices + [a.notice.value]) else v
  }

  /** `@game_must_be_on` over `@game_must_be_on_state(states)`. */
  function OnIn(stage: Stage, states: seq<Stage>): Admission {
    Stack(GameMustBeOn(stage), GameMustBeOnState(stage, states))
  }

  method Refuse(s: Store, a: Admission)
    requires s.Valid()
    modifies s
    ensures s.Valid() && s.View() == AfterRefusal(old(s.View()), a)
  {
    if a.Refused? && a.notice.Some? {
      s.notices := s.notices + [a.notice.value];
    }
  }

  // ---------------------------------------------------------------- offers and start

  /** With no game on, the chat is invited to play, "again" once it has played a game. */
  method SendGameOffer(s: Store)
    requires s.Valid()
    modifies s
    ensures s.Valid()
    ensures IsGameOn(old(s.stage)) ==> s.View() == old(s.View())
    ensures !IsGameOn(old(s.stage)) ==>
      s.View() == old(s.View()).(notices := old(s.notices) + [GameOffer(old(s.gamesPlayed) != 0)])
  {
    var a := GameMustBeOff(s.stage);
    if a.Refused? {
      Refuse(s, a);
      return;
    }
    s.notices := s.notices + [GameOffer(s.gamesPlayed != 0)];
  }

  /** With no game on, a game starts unless every chat member has lost all their cash. */
  method StartGame(s: Store, members: nat)
    requires s.Valid()
    modifies s
    ensures s.Valid()
    ensures IsGameOn(old(s.stage)) ==> s.View() == old(s.View())
    ensures !IsGameOn(old(s.stage)) && members != 0 && members == CountLosers(old(s.players)) ==>
      s.View() == old(s.View()).(notices := old(s.notices) + [AllLosers])
    ensures !IsGameOn(old(s.stage)) && !(members != 0 && members == CountLosers(old(s.players))) ==>
      s.View() == GatheringStarted(old(s.View()).(notices := old(s.notices) + [GameStarting]))
  {
    var a := GameMustBeOff(s.stage);
    if a.Refused? {
      Refuse(s, a);
      return;
    }
    if members != 0 {
      var losers := CountLosers(s.players);
      if members == losers {
        s.notices := s.notices + [AllLosers];
        return;
      }
    }
    GameManager.StartGame(s);
  }

  // ---------------------------------------------------------------- registration

  /** A newly created row: the start cash, no bet, no cards, in the round, no games. */
  function NewPlayer(user: UserId, cash: nat): Player {
    Player(user, cash, None, [], true, 0, 0, 0)
  }

  /** `_is_all_play`: the member list is there, somebody plays, and the players are
      exactly the members who still have cash. */
  predicate IsAllPlay(members: nat, ps: seq<Player>, losers: nat) {
    members != 0 && AnyActive(ps) && CountActive(ps) == members - losers
  }

  /** When every member with cash plays, the gathering timer ends and betting starts. */
  function AllPlayChecked(v: Snapshot, members: nat): Snapshot {
    var losers := CountLosers(v.players);
    if IsAllPlay(members, v.players, losers)
    then BettingStarted(v.(timers := [], notices := v.notices + [AllPlay(losers)]))
    else v
  }

  /** The effect of register_player in the gathering stage. */
  function Registered(v: Snapshot, user: UserId, members: nat): Snapshot {
    match FindPlayer(v.players, user)
    case None =>
      AllPlayChecked(v.(players := v.players + [NewPlayer(user, v.startCash)],
                        notices := v.notices + [StartCashGiven(user), PlayerRegistered(user)]), members)
    case Some(i) =>
      if v.players[i].cash == 0 then v.(notices := v.notices + [NoCashToPlay(user)])
      else if v.players[i].isActive then v.(notices := v.notices + [PlayerRegisteredAlready(user)])
      else AllPlayChecked(v.(players := v.players[i := v.players[i].(isActive := true)],
                             notices := v.notices + [PlayerRegistered(user)]), members)
  }

  method RegisterPlayer(s: Store, user: UserId, members: nat)
    requires s.Valid()
    modifies s
    ensures s.Valid()
    ensures old(s.stage) != Gathering ==>
      s.View() == AfterRefusal(old(s.View()), OnIn(old(s.stage), [Gathering]))
    ensures old(s.stage) == Gathering ==> s.View() == Registered(old(s.View()), user, members)
  {
    var a := OnIn(s.stage, [Gathering]);
    OnAndInState(s.stage, [Gathering]);
    if a.Refused? {
      Refuse(s, a);
      return;
    }
    Register(s, user, members);
  }

  /** The body of register_player, past its guards. */
  method Register(s: Store, user: UserId, members: nat)
    requires s.Valid()
    modifies s
    ensures s.Valid() && s.View() == Registered(old(s.View()), user, members)
  {
    ghost var v0 := s.View();
    var r := FindPlayer(s.players, user);
    if r.None? {
      ConsistentAfterJoin(s.View(), NewPlayer(user, s.startCash));
      s.players := s.players + [NewPlayer(user, s.startCash)];
      s.notices := s.notices + [StartCashGiven(user), PlayerRegistered(user)];
      assert s.View() == v0.(players := v0.players + [NewPlayer(user, v0.startCash)],
                             notices := v0.notices + [StartCashGiven(user), PlayerRegistered(user)]);
      CheckAllPlay(s, members);
    } else {
      var i := r.value;
      if s.players[i].cash == 0 {
        s.notices := s.notices + [NoCashToPlay(user)];
        return;
      }
      if s.players[i].isActive {
        s.notices := s.notices + [PlayerRegisteredAlready(user)];
        return;
      }
      ConsistentAfterRowUpdate(s.View(), i, s.players[i].(isActive := true));
      s.players := s.players[i := s.players[i].(isActive := true)];
      s.notices := s.notices + [PlayerRegistered(user)];
      CheckAllPlay(s, members);
    }
  }

  method CheckAllPlay(s: Store, members: nat)
    requires s.Valid()
    modifies s
    ensures s.Valid() && s.View() == AllPlayChecked(old(s.View()), members)
  {
    var losers := CountLosers(s.players);
    if IsAllPlay(members, s.players, losers) {
      s.timers := [];
      s.notices := s.notices + [AllPlay(losers)];
      GameManager.StartBetting(s);
    }
  }

  /** The player of an unregistered user leaves the round with any stake cleared; the
      cash stays where it is. */
  function Unregistered(v: Snapshot, user: UserId): Snapshot {
    match FindPlayer(v.players, user)
    case None => v.(notices := v.notices + [PlayerUnregistered(user)])
    case Some(i) =>
      var p := v.players[i];
      v.(players := v.players[i := p.(bet := if Truthy(p.bet) then None else p.bet, isActive := false)],
         notices := v.notices + [PlayerUnregistered(user)])
  }

  method UnregisterPlayer(s: Store, user: UserId)
    requires s.Valid()
    modifies s
    ensures s.Valid()
    ensures old(s.stage) !in {Gathering, Betting} ==>
      s.View() == AfterRefusal(old(s.View()), OnIn(old(s.stage), [Gathering, Betting]))
    ensures old(s.stage) in {Gathering, Betting} ==> s.View() == Unregistered(old(s.View()), user)
  {
    var a := OnIn(s.stage, [Gathering, Betting]);
    OnAndInState(s.stage, [Gathering, Betting]);
    if a.Refused? {
      Refuse(s, a);
      return;
    }
    var r := FindPlayer(s.players, user);
    if r.None? {
      s.notices := s.notices + [PlayerUnregistered(user)];
      return;
    }
    var i := r.value;
    var p := s.players[i];
    if Truthy(p.bet) {
      p := p.(bet := None);
    }
    p := p.(isActive := false);
    ConsistentAfterRowUpdate(s.View(), i, p);
    s.players := s.players[i := p];
    s.notices := s.notices + [PlayerUnregistered(user)];
  }

  // ---------------------------------------------------------------- bets

  datatype BetCheck = Accept(amount: int) | RejectZero | RejectTooMuch

  /** The branches of accept_bet on the command text: all-in stakes the whole cash, a
      number is refused when zero or above the cash and staked otherwise. */
  function CheckBet(cash: int, text: string): (c: BetCheck)
    requires text == Events.Value(Events.Bet) || Router.IsDigits(text)
    ensures text == Events.Value(Events.Bet) ==> c == Accept(cash)
    ensures c.Accept? && cash >= 0 ==> 0 <= c.amount <= cash
    ensures c.Accept? && text != Events.Value(Events.Bet) ==> c.amount > 0
    ensures Router.IsDigits(text) ==>
      && (c == RejectZero <==> forall i :: 0 <= i < |text| ==> text[i] == '0')
      && (c == RejectTooMuch <==> Router.DecimalValue(text) > cash && Router.DecimalValue(text) != 0)
  {
    Router.NoValueIsDigits(Events.Bet);
    if text == Events.Value(Events.Bet) then Accept(cash)
    else
      var b := Router.DecimalValue(text);
      if b == 0 then RejectZero
      else if b > cash then RejectTooMuch
      else Accept(b)
  }

  /** Every text the router sends to accept_bet is one CheckBet is defined on. */
  lemma RoutedBetTexts(text: string)
    requires Router.GetEvent(text) == Some(Events.Bet)
    ensures text == Events.Value(Events.Bet) || Router.IsDigits(text)
  {
    Router.GetEventCases(text, Events.Bet);
  }

  /** The bet `b` stored for player `i` and acknowledged. */
  function BetStored(v: Snapshot, i: nat, b: int): Snapshot
    requires i < |v.players|
  {
    v.(players := v.players[i := v.players[i].(bet := Some(b))],
       notices := v.notices + [BetAccepted(v.players[i].id, b)])
  }

  /** The effect of accept_bet in the betting stage: silence for a non-player or a
      player out of the round, a reminder of an existing bet, a refusal of a zero or too
      large number; otherwise the bet is stored, and dealing begins once every player in
      the round has bet. */
  ghost predicate BetTaken(v0: Snapshot, v: Snapshot, user: UserId, text: string)
    requires text == Events.Value(Events.Bet) || Router.IsDigits(text)
  {
    var r := FindPlayer(v0.players, user);
    if r.None? || !v0.players[r.value].isActive then v == v0
    else
      var p := v0.players[r.value];
      if Truthy(p.bet) then v == v0.(notices := v0.notices + [BetAcceptedAlready(user, p.bet.value)])
      else match CheckBet(p.cash, text)
        case RejectZero => v == v0.(notices := v0.notices + [ZeroBet(user)])
        case RejectTooMuch => v == v0.(notices := v0.notices + [TooMuchBet(user)])
        case Accept(b) => BetThenDeal(BetStored(v0, r.value, b), v)
  }

  /** After a stored bet: dealing begins when every player in the round has bet. */
  ghost predicate BetThenDeal(v1: Snapshot, v: Snapshot) {
    if EveryoneBet(v1.players)
    then DealingBegan(v1.(timers := [], notices := v1.notices + [AllBetsPlaced]), v)
    else v == v1
  }

  method AcceptBet(s: Store, user: UserId, text: string)
    requires s.Valid()
    requires text == Events.Value(Events.Bet) || Router.IsDigits(text)
    modifies s
    ensures s.Valid()
    ensures old(s.stage) != Betting ==>
      s.View() == AfterRefusal(old(s.View()), OnIn(old(s.stage), [Betting]))
    ensures old(s.stage) == Betting ==> BetTaken(old(s.View()), s.View(), user, text)
  {
    var a := OnIn(s.stage, [Betting]);
    OnAndInState(s.stage, [Betting]);
    if a.Refused? {
      Refuse(s, a);
      return;
    }
    TakeBet(s, user, text);
  }

  /** The body of accept_bet, past its guards. */
  method TakeBet(s: Store, user: UserId, text: string)
    requires s.Valid()
    requires text == Events.Value(Events.Bet) || Router.IsDigits(text)
    modifies s
    ensures s.Valid() && BetTaken(old(s.View()), s.View(), user, text)
  {
    var r := FindPlayer(s.players, user);
    if r.None? || !s.players[r.value].isActive {
      return;
    }
    var i := r.value;
    var p := s.players[i];
    if Truthy(p.bet) {
      s.notices := s.notices + [BetAcceptedAlready(user, p.bet.value)];
      return;
    }
    var bet: int;
    if text == Events.Value(Events.Bet) {
      bet := p.cash;
    } else {
      bet := Router.DecimalValue(text);
      if bet == 0 {
        s.notices := s.notices + [ZeroBet(user)];
        return;
      }
      if bet > p.cash {
        s.notices := s.notices + [TooMuchBet(user)];
        return;
      }
    }
    assert CheckBet(p.cash, text) == Accept(bet);
    StoreBet(s, i, bet);
  }

  method StoreBet(s: Store, i: nat, bet: int)
    requires s.Valid() && i < |s.players| && s.players[i].isActive
    requires 0 <= bet <= s.players[i].cash
    modifies s
    ensures s.Valid() && BetThenDeal(BetStored(old(s.View()), i, bet), s.View())
  {
    ghost var v0 := s.View();
    var p := s.players[i];
    ConsistentAfterRowUpdate(s.View(), i, p.(bet := Some(bet)));
    s.players := s.players[i := p.(bet := Some(bet))];
    s.notices := s.notices + [BetAccepted(p.id, bet)];
    ghost var v1 := s.View();
    assert v1 == BetStored(v0, i, bet);
    if EveryoneBet(s.players) {
      s.timers := [];
      s.notices := s.notices + [AllBetsPlaced];
      assert s.players[i].isActive;
      var raised := GameManager.StartDealing(s);
    }
  }

  // ---------------------------------------------------------------- the player's turn

  /** A card asked for: refused to non-players and to anyone whose turn it is not;
      otherwise the turn timer ends and the current player is dealt one card. */
  method DealMoreCard(s: Store, user: UserId)
    requires s.Valid()
    modifies s
    ensures s.Valid()
    ensures old(s.stage) != DealingPlayers ==>
      s.View() == AfterRefusal(old(s.View()), OnIn(old(s.stage), [DealingPlayers]))
    ensures old(s.stage) == DealingPlayers ==>
      var v0 := old(s.View());
      var r := FindPlayer(v0.players, user);
      && (r.None? ==> s.View() == v0.(notices := v0.notices + [NotAPlayer(user)]))
      && (r.Some? && v0.currentPlayer != Some(user) ==>
            s.View() == v0.(notices := v0.notices + [NotYourTurn(user)]))
      && (r.Some? && v0.currentPlayer == Some(user) ==>
            && Grows(v0, s.View())
            && exists cards :: |cards| == 1 && DeckCards(cards)
                 && v0.notices + [CardsReceived(cards)] <= s.notices)
      && (r.Some? && v0.currentPlayer == Some(user) ==>
            Dealt(v0.(timers := []), s.View(), r.value, 1))
  {
    var a := OnIn(s.stage, [DealingPlayers]);
    OnAndInState(s.stage, [DealingPlayers]);
    if a.Refused? {
      Refuse(s, a);
      return;
    }
    var r := FindPlayer(s.players, user);
    if r.None? {
      s.notices := s.notices + [NotAPlayer(user)];
      return;
    }
    if s.currentPlayer != Some(user) {
      s.notices := s.notices + [NotYourTurn(user)];
      return;
    }
    s.timers := [];
    GameManager.DealCards(s, 1, r.value);
  }

  /** Enough cards: the same refusals as for a card; otherwise the turn timer ends and the
      turn passes on. */
  method StopDealingCards(s: Store, user: UserId)
    requires s.Valid()
    modifies s
    ensures s.Valid()
    ensures old(s.stage) != DealingPlayers ==>
      s.View() == AfterRefusal(old(s.View()), OnIn(old(s.stage), [DealingPlayers]))
    ensures old(s.stage) == DealingPlayers ==>
      var v0 := old(s.View());
      var r := FindPlayer(v0.players, user);
      && (r.None? ==> s.View() == v0.(notices := v0.notices + [NotAPlayer(user)]))
      && (r.Some? && v0.currentPlayer != Some(user) ==>
            s.View() == v0.(notices := v0.notices + [NotYourTurn(user)]))
      && (r.Some? && v0.currentPlayer == Some(user) ==> TurnPassed(v0.(timers := []), s.View()))
  {
    var a := OnIn(s.stage, [DealingPlayers]);
    OnAndInState(s.stage, [DealingPlayers]);
    if a.Refused? {
      Refuse(s, a);
      return;
    }
    var r := FindPlayer(s.players, user);
    if r.None? {
      s.notices := s.notices + [NotAPlayer(user)];
      return;
    }
    if s.currentPlayer != Some(user) {
      s.notices := s.notices + [NotYourTurn(user)];
      return;
    }
    s.timers := [];
    GameManager.NextTurn(s);
  }

  // ---------------------------------------------------------------- information

  /** With a game on, the asker's cards are shown (none for a non-player). */
  method SendPlayerHand(s: Store, user: UserId)
    requires s.Valid()
    modifies s
    ensures s.Valid()
    ensures !IsGameOn(old(s.stage)) ==> s.View() == old(s.View()).(notices := old(s.notices) + [GameIsOff])
    ensures IsGameOn(old(s.stage)) ==>
      var r := FindPlayer(old(s.players), user);
      s.View() == old(s.View()).(notices := old(s.notices)
        + [PlayerHand(user, if r.None? then [] else old(s.players[r.value].hand))])
  {
    var a := GameMustBeOn(s.stage);
    if a.Refused? {
      Refuse(s, a);
      return;
    }
    var r := FindPlayer(s.players, user);
    var hand := if r.None? then [] else s.players[r.value].hand;
    s.notices := s.notices + [PlayerHand(user, hand)];
  }

  /** The balance shown to a player: the cash not staked on the pending bet. */
  function Available(p: Player): (c: int)
    ensures ValidPlayer(p) ==> 0 <= c <= p.cash
    ensures ValidPlayer(p) && !p.isActive ==> c == p.cash
    ensures Truthy(p.bet) ==> c == p.cash - p.bet.value
  {
    if Truthy(p.bet) then p.cash - p.bet.value else p.cash
  }

  /** The asker's available balance, in any stage; the stored cash is not touched. */
  method SendPlayerCash(s: Store, user: UserId)
    requires s.Valid()
    modifies s
    ensures s.Valid()
    ensures var r := FindPlayer(old(s.players), user);
      s.View() == old(s.View()).(notices := old(s.notices)
        + [if r.None? then NotAPlayerCash(user) else ShowCash(user, Available(old(s.players[r.value])))])
  {
    var r := FindPlayer(s.players, user);
    if r.None? {
      s.notices := s.notices + [NotAPlayerCash(user)];
      return;
    }
    var p := s.players[r.value];
    if Truthy(p.bet) {
      p := p.(cash := p.cash - p.bet.value);
    }
    s.notices := s.notices + [ShowCash(user, p.cash)];
  }

  method SendGameRules(s: Store, user: UserId)
    requires s.Valid()
    modifies s
    ensures s.Valid()
    ensures s.View() == old(s.View()).(notices := old(s.notices) + [GameRules(user)])
  {
    s.notices := s.notices + [GameRules(user)];
  }

  /** The restore command is offered only once somebody has lost all their cash. */
  method SendRestoreCommand(s: Store, user: UserId)
    requires s.Valid()
    modifies s
    ensures s.Valid()
    ensures CountLosers(old(s.players)) == 0 ==> s.View() == old(s.View())
    ensures CountLosers(old(s.players)) != 0 ==>
      s.View() == old(s.View()).(notices := old(s.notices) + [RestoreCommand(user)])
  {
    var losers := CountLosers(s.players);
    if losers != 0 {
      s.notices := s.notices + [RestoreCommand(user)];
    }
  }

  // ---------------------------------------------------------------- stopping and restoring

  /** Aborting while players gather or bet: the game is inactivated and the causer named. */
  method AbortGame(s: Store, user: UserId)
    requires s.Valid()
    modifies s
    ensures s.Valid()
    ensures old(s.stage) !in {Gathering, Betting} ==>
      s.View() == AfterRefusal(old(s.View()), OnIn(old(s.stage), [Gathering, Betting]))
    ensures old(s.stage) in {Gathering, Betting} ==>
      && s.View() == Inactivated(old(s.View())).(notices := old(s.notices) + [GameAborted(Some(user))])
      && RoundOver(s.View()) && !AnyActive(s.players)
  {
    var a := OnIn(s.stage, [Gathering, Betting]);
    OnAndInState(s.stage, [Gathering, Betting]);
    if a.Refused? {
      Refuse(s, a);
      return;
    }
    GameManager.InactivateGame(s);
    s.notices := s.notices + [GameAborted(Some(user))];
  }

  /** Cancelling once dealing has begun: the game is inactivated and the canceller named. */
  method CancelGame(s: Store, user: UserId)
    requires s.Valid()
    modifies s
    ensures s.Valid()
    ensures old(s.stage) !in {DealingPlayers, DealingDealer, Results} ==>
      s.View() == AfterRefusal(old(s.View()), OnIn(old(s.stage), [DealingPlayers, DealingDealer, Results]))
    ensures old(s.stage) in {DealingPlayers, DealingDealer, Results} ==>
      && s.View() == Inactivated(old(s.View())).(notices := old(s.notices) + [GameCanceled(user)])
      && RoundOver(s.View()) && !AnyActive(s.players)
  {
    var a := OnIn(s.stage, [DealingPlayers, DealingDealer, Results]);
    OnAndInState(s.stage, [DealingPlayers, DealingDealer, Results]);
    if a.Refused? {
      Refuse(s, a);
      return;
    }
    GameManager.InactivateGame(s);
    s.notices := s.notices + [GameCanceled(user)];
  }

  /** Every row given the same balance. */
  function Restocked(ps: seq<Player>, cash: nat): (r: seq<Player>)
    ensures |r| == |ps|
    ensures forall i :: 0 <= i < |ps| ==> r[i] == ps[i].(cash := cash)
  {
    seq(|ps|, i requires 0 <= i < |ps| => ps[i].(cash := cash))
  }

  /** The effect of restore_game_and_cash once somebody has lost everything. */
  function Restored(v: Snapshot): Snapshot {
    var w := Inactivated(v);
    w.(players := Restocked(w.players, v.startCash), notices := w.notices + [CashRestored, GameOffer(false)])
  }

  method RestoreGameAndCash(s: Store)
    requires s.Valid()
    modifies s
    ensures s.Valid()
    ensures CountLosers(old(s.players)) == 0 ==> s.View() == old(s.View())
    ensures CountLosers(old(s.players)) != 0 ==> s.View() == Restored(old(s.View()))
  {
    var losers := CountLosers(s.players);
    if losers == 0 {
      return;
    }
    GameManager.InactivateGame(s);
    ghost var w := s.View();
    var i := 0;
    while i < |s.players|
      invariant 0 <= i <= |s.players| == |w.players|
      invariant forall k :: 0 <= k < i ==> s.players[k] == w.players[k].(cash := w.startCash)
      invariant forall k :: i <= k < |w.players| ==> s.players[k] == w.players[k]
      invariant s.View() == w.(players := s.players)
      invariant s.Valid()
    {
      assert !s.players[i].isActive;
      ConsistentAfterRowUpdate(s.View(), i, s.players[i].(cash := s.startCash));
      s.players := s.players[i := s.players[i].(cash := s.startCash)];
      i := i + 1;
    }
    assert s.players == Restocked(w.players, w.startCash);
    s.notices := s.notices + [CashRestored, GameOffer(false)];
  }
  // ---------------------------------------------------------------- lemmas

  /** When all play, the active players and the losers together are the chat members. */
  lemma AllPlayCounts(members: nat, ps: seq<Player>, losers: nat)
    requires IsAllPlay(members, ps, losers)
    ensures 0 < CountActive(ps) && CountActive(ps) + losers == members && losers < members
  {
    CountActiveNonZero(ps);
  }

  /** The all-play check never touches the rows. */
  lemma AllPlayKeepsRows(v: Snapshot, members: nat)
    ensures AllPlayChecked(v, members).players == v.players
    ensures Consistent(v) ==> Consistent(AllPlayChecked(v, members))
  {
  }

  /** Registration never touches another user's row nor anybody's cash, bet or cards;
      afterwards the user has exactly one row, which is in the round unless it was out of
      it with its cash gone, and a row was added exactly when the user had none. */
  lemma RegisteredRows(v: Snapshot, user: UserId, members: nat)
    requires Consistent(v)
    ensures var w := Registered(v, user, members);
      && Consistent(w)
      && |w.players| == |v.players| + (if FindPlayer(v.players, user).None? then 1 else 0)
      && (forall i :: 0 <= i < |v.players| ==>
            && w.players[i].id == v.players[i].id && w.players[i].cash == v.players[i].cash
            && w.players[i].bet == v.players[i].bet && w.players[i].hand == v.players[i].hand)
      && (forall i :: 0 <= i < |v.players| && v.players[i].id != user ==> w.players[i] == v.players[i])
      && FindPlayer(w.players, user).Some?
      && (w.players[FindPlayer(w.players, user).value].isActive <==>
            || FindPlayer(v.players, user).None?
            || v.players[FindPlayer(v.players, user).value].cash != 0
            || v.players[FindPlayer(v.players, user).value].isActive)
  {
    var w := Registered(v, user, members);
    var r := FindPlayer(v.players, user);
    if r.None? {
      var p := NewPlayer(user, v.startCash);
      var u := v.(players := v.players + [p], notices := v.notices + [StartCashGiven(user), PlayerRegistered(user)]);
      ConsistentAfterJoin(v, p);
      assert Consistent(u);
      AllPlayKeepsRows(u, members);
      assert w.players == v.players + [p];
      FindPlayerUnique(w.players, |v.players|);
    } else {
      var i := r.value;
      if v.players[i].cash != 0 && !v.players[i].isActive {
        var q := v.players[i].(isActive := true);
        var u := v.(players := v.players[i := q], notices := v.notices + [PlayerRegistered(user)]);
        ConsistentAfterRowUpdate(v, i, q);
        assert Consistent(u);
        AllPlayKeepsRows(u, members);
        assert w.players == v.players[i := q];
      } else {
        assert w.players == v.players;
      }
      FindPlayerUnique(w.players, i);
    }
  }

  /** Unregistering takes the user's row out of the round with no stake left and no
      refund, and touches no other row. */
  lemma UnregisteredRows(v: Snapshot, user: UserId)
    requires Consistent(v)
    ensures var w := Unregistered(v, user);
      && Consistent(w) && |w.players| == |v.players|
      && (forall i :: 0 <= i < |v.players| ==> w.players[i].cash == v.players[i].cash)
      && (forall i :: 0 <= i < |v.players| && v.players[i].id != user ==> w.players[i] == v.players[i])
      && (forall i :: 0 <= i < |v.players| && v.players[i].id == user ==>
            !w.players[i].isActive && !Truthy(w.players[i].bet))
  {
    var r := FindPlayer(v.players, user);
    if r.Some? {
      var i := r.value;
      var p := v.players[i];
      ConsistentAfterRowUpdate(v, i, p.(bet := if Truthy(p.bet) then None else p.bet, isActive := false));
    }
  }

  /** No losers is no row without cash. */
  lemma {:induction false} NoLosers(ps: seq<Player>)
    ensures CountLosers(ps) == 0 <==> forall i :: 0 <= i < |ps| ==> ps[i].cash != 0
  {
    if ps != [] {
      var n := |ps| - 1;
      NoLosers(ps[..n]);
      assert forall i :: 0 <= i < n ==> ps[..n][i] == ps[i];
    }
  }

  /** After a restore the round is over, nobody plays, every row holds the start cash, and
      with a positive start cash there is no loser left. */
  lemma RestoredRows(v: Snapshot)
    requires Consistent(v)
    ensures var w := Restored(v);
      && Consistent(w) && RoundOver(w) && !AnyActive(w.players)
      && |w.players| == |v.players|
      && (forall i :: 0 <= i < |w.players| ==> w.players[i].cash == v.startCash && w.players[i].id == v.players[i].id)
      && (v.startCash > 0 ==> CountLosers(w.players) == 0)
      && w.gamesPlayed == v.gamesPlayed && w.outcomes == v.outcomes
  {
    InactivatedIsRoundOver(v);
    var u := Inactivated(v);
    var w := Restored(v);
    forall i | 0 <= i < |w.players|
      ensures ValidPlayer(w.players[i]) && !w.players[i].isActive
    {
      assert ValidPlayer(u.players[i]) && !u.players[i].isActive;
    }
    NoLosers(w.players);
  }
}
