/**
  The round engine of app/store/game/manager.py, as methods on the store. Each method
  performs the source's store writes and notifications in the source's order; stage
  entry points that start a timer append its continuation to `timers`.
  `NextTurn`, `DealCards` and `CheckHand` call one another exactly as
  set_next_player_turn, deal_cards_to_player and check_player_hand do; the number of
  active players still without cards bounds that recursion.
 */
module GameManager {
  import opened Wrappers
  import opened Decks
  import opened GameStore
  import opened Rounds

  method StartGame(s: Store)
    requires s.Valid()
    modifies s
    ensures s.Valid()
    ensures s.View() == GatheringStarted(old(s.View()).(notices := old(s.notices) + [GameStarting]))
  {
    s.notices := s.notices + [GameStarting];
    GatheringPlayers(s);
  }

  method GatheringPlayers(s: Store)
    requires s.Valid()
    modifies s
    ensures s.Valid()
    ensures s.View() == GatheringStarted(old(s.View()))
  {
    s.stage := Gathering;
    s.notices := s.notices + [WaitingPlayers];
    s.timers := s.timers + [RunCollectPlayers];
  }

  method CollectPlayers(s: Store)
    requires s.Valid()
    modifies s
    ensures s.Valid()
    ensures PlayersCollected(old(s.View()), s.View())
  {
    ghost var v0 := s.View();
    var names := ActiveIds(s.players);
    CountActiveNonZero(s.players);
    if names == [] {
      s.notices := s.notices + [NoPlayers];
      InactivateGame(s);
      s.notices := s.notices + [GameAborted(None)];
      return;
    }
    s.notices := s.notices + [ActivePlayers(names)];
    StartBetting(s);
  }

  method StartBetting(s: Store)
    requires s.Valid()
    modifies s
    ensures s.Valid()
    ensures s.View() == BettingStarted(old(s.View()))
  {
    s.stage := Betting;
    s.notices := s.notices + [WaitingBets];
    s.timers := s.timers + [RunCollectBets];
  }

  method CollectBets(s: Store)
    requires s.Valid()
    modifies s
    ensures s.Valid()
    ensures BetsCollected(old(s.View()), s.View())
  {
    ghost var v0 := s.View();
    var i := 0;
    while i < |s.players|
      invariant 0 <= i <= |s.players| == |v0.players|
      invariant forall k :: 0 <= k < i ==>
        s.players[k] == if v0.players[k].isActive && v0.players[k].bet.None?
                        then v0.players[k].(isActive := false) else v0.players[k]
      invariant forall k :: i <= k < |v0.players| ==> s.players[k] == v0.players[k]
      invariant s.View() == v0.(players := s.players, notices := v0.notices + BetlessNotices(v0.players[..i]))
      invariant s.Valid()
    {
      assert v0.players[..i + 1][..i] == v0.players[..i];
      if s.players[i].isActive && s.players[i].bet.None? {
        ConsistentAfterRowUpdate(s.View(), i, s.players[i].(isActive := false));
        s.players := s.players[i := s.players[i].(isActive := false)];
        s.notices := s.notices + [NoPlayerBet(s.players[i].id)];
      }
      i := i + 1;
    }
    assert v0.players[..i] == v0.players;
    assert s.players == DropBetless(v0.players);
    assert s.View() == Betless(v0);
    if !AnyActive(s.players) {
      s.notices := s.notices + [NoPlayers];
      InactivateGame(s);
      s.notices := s.notices + [GameAborted(None)];
      return;
    }
    var raised := StartDealing(s);
  }

  /** Games played count from here on. With no active player `random.choice` raises
      IndexError after the counter and the stage were written; `raised` reports that. */
  method StartDealing(s: Store) returns (raised: bool)
    requires s.Valid()
    modifies s
    ensures s.Valid()
    ensures raised <==> !AnyActive(old(s.players))
    ensures raised ==> s.View() == DealingOpened(old(s.View()))
    ensures !raised ==> DealingBegan(old(s.View()), s.View())
    ensures s.gamesPlayed == old(s.gamesPlayed) + 1
  {
    ghost var v0 := s.View();
    s.gamesPlayed := s.gamesPlayed + 1;
    s.stage := DealingPlayers;
    s.notices := s.notices + [DealingStarted];
    if !AnyActive(s.players) {
      return true;
    }
    var i :| 0 <= i < |s.players| && s.players[i].isActive;
    s.currentPlayer := Some(s.players[i].id);
    s.notices := s.notices + [PlayerTurn(s.players[i].id)];
    assert s.View() == Turned(DealingOpened(v0), i);
    DealCards(s, 2, i);
    raised := false;
  }

  /** `amount` cards from the endless deck for player `i`, whose turn it is. */
  method DealCards(s: Store, amount: nat, i: nat)
    requires s.Valid() && 1 <= amount && i < |s.players|
    requires s.currentPlayer == Some(s.players[i].id)
    modifies s
    decreases |Waiting(s.players) - {i}|, 2
    ensures s.Valid() && Grows(old(s.View()), s.View())
    ensures exists cards ::
      |cards| == amount && DeckCards(cards) && old(s.notices) + [CardsReceived(cards)] <= s.notices
    ensures Dealt(old(s.View()), s.View(), i, amount)
  {
    ghost var v0 := s.View();
    var cards := DrawCards(amount);
    var p := s.players[i];
    ConsistentAfterRowUpdate(s.View(), i, p.(hand := p.hand + cards));
    s.players := s.players[i := p.(hand := p.hand + cards)];
    s.notices := s.notices + [CardsReceived(cards)];
    assert s.View() == Added(v0, i, cards);
    WaitingAfterDeal(v0.players, i, cards);
    CheckHand(s, i);
    DealtIntro(v0, s.View(), i, cards);
  }

  /** `[take_a_card() for card in range(amount)]`. */
  method DrawCards(amount: nat) returns (cards: seq<Card>)
    ensures |cards| == amount && DeckCards(cards)
  {
    cards := [];
    for k := 0 to amount
      invariant |cards| == k && DeckCards(cards)
    {
      var c := TakeACard();
      cards := cards + [c];
    }
  }

  /** Looks at the points of player `i`, whose turn it is: 21 passes the turn on
      (announcing a two-card blackjack), over 21 loses and passes the turn on, under 21
      offers a card and starts the turn timer. */
  method CheckHand(s: Store, i: nat)
    requires s.Valid() && i < |s.players| && s.players[i].hand != []
    requires s.currentPlayer == Some(s.players[i].id)
    modifies s
    decreases |Waiting(s.players)|, 1
    ensures s.Valid() && Grows(old(s.View()), s.View())
    ensures Checked(old(s.View()), s.View(), i)
  {
    ghost var v0 := s.View();
    var p := s.players[i];
    var points := CountPoints(p.hand);
    if points == 21 {
      if |p.hand| == 2 {
        s.notices := s.notices + [PlayerBlackjack(p.id)];
      }
      assert s.View() == Announced(v0, i);
      NextTurn(s);
      TwentyOneChecked(v0, s.View(), i);
    } else if points > 21 {
      s.notices := s.notices + [PlayerOverflow];
      RecordOutcome(s, i, Loss);
      ghost var q := s.players[i];
      assert s.View() == Busted(v0, i, q);
      WaitingSame(v0.players, i, q);
      NextTurn(s);
      OverflowChecked(v0, s.View(), i, q);
    } else {
      s.notices := s.notices + [OfferACard(p.id)];
      s.timers := s.timers + [RunNextPlayerTurn];
      OfferChecked(v0, i);
    }
  }

  /** Passes the turn: with nobody left the game ends, with everybody holding cards the
      dealer plays, otherwise a random player without cards gets the turn and two cards. */
  method NextTurn(s: Store)
    requires s.Valid()
    modifies s
    decreases |Waiting(s.players)|, 0
    ensures s.Valid()
    ensures TurnPassed(old(s.View()), s.View())
  {
    ghost var v0 := s.View();
    if !AnyActive(s.players) {
      EndGame(s);
      return;
    }
    var waiting := Waiting(s.players);
    if waiting == {} {
      DealToDealer(s);
      DealerTurnIsCascade(v0, s.View());
      return;
    }
    var i :| i in waiting;
    s.currentPlayer := Some(s.players[i].id);
    s.notices := s.notices + [PlayerTurn(s.players[i].id)];
    ghost var v1 := s.View();
    assert v1 == Turned(v0, i);
    assert waiting == (waiting - {i}) + {i};
    DealCards(s, 2, i);
    PlayerTurnIsCascade(v0, s.View(), i);
  }

  /** The dealer draws two cards and keeps drawing while under 17. */
  method DrawDealerHand() returns (cards: seq<Card>, points: int)
    ensures DealerStops(cards) && DeckCards(cards) && points == HandValue(cards)
    ensures |cards| <= 17
  {
    var a := TakeACard();
    var b := TakeACard();
    cards := [a, b];
    points := CountPoints(cards);
    while points < 17
      invariant 2 <= |cards| <= 17 && DeckCards(cards) && points == HandValue(cards)
      invariant forall k :: 2 <= k < |cards| ==> HandValue(cards[..k]) < 17
      decreases 17 - |cards|
    {
      HandValueAtLeastCount(cards);
      var c := TakeACard();
      ghost var before := cards;
      cards := cards + [c];
      assert cards[..|before|] == before;
      assert forall k :: 2 <= k < |before| ==> cards[..k] == before[..k];
      points := CountPoints(cards);
    }
  }

  method DealToDealer(s: Store)
    requires s.Valid()
    modifies s
    ensures s.Valid()
    ensures DealerPlayed(old(s.View()), s.View())
  {
    ghost var v0 := s.View();
    s.stage := DealingDealer;
    s.notices := s.notices + [DealingToDealer];
    var cards, points := DrawDealerHand();
    s.dealerCards, s.dealerPoints := cards, Some(points);
    s.notices := s.notices + [CardsReceived(cards)];
    assert s.View() == DealerDealt(v0, cards);
    SumUp(s);
  }

  /** Settles every active player against the dealer, in row order, and ends the game;
      without dealer points the game is inactivated instead. */
  method SumUp(s: Store)
    requires s.Valid()
    modifies s
    ensures s.Valid()
    ensures ResultsSummed(old(s.View()), s.View())
  {
    s.stage := Results;
    if !Truthy(s.dealerPoints) {
      InactivateGame(s);
      return;
    }
    var d := s.dealerPoints.value;
    SettleRows(s, d);
    EndGame(s);
  }

  /** The loop of sum_up_results: each active row, in row order, settled against `d`. */
  method SettleRows(s: Store, d: int)
    requires s.Valid()
    modifies s
    ensures s.Valid() && |s.players| == |old(s.players)|
    ensures forall k :: 0 <= k < |old(s.players)| ==>
      if old(s.players[k].isActive) then SettledAs(old(s.players[k]), s.players[k], Classify(old(s.players[k].hand), d))
      else s.players[k] == old(s.players[k])
    ensures s.outcomes == old(s.outcomes) + Settlements(old(s.players), d)
    ensures s.notices == old(s.notices) + SettleNotices(old(s.players), s.players, d)
    ensures s.View() == old(s.View()).(players := s.players, outcomes := s.outcomes, notices := s.notices)
  {
    ghost var v0 := s.View();
    var ps := s.players;
    var i := 0;
    while i < |ps|
      invariant 0 <= i <= |ps| == |s.players| && ps == v0.players
      invariant SettledUpTo(v0, s.View(), d, i)
      invariant s.Valid()
    {
      ghost var vb := s.View();
      if ps[i].isActive {
        var o := JudgeHand(ps[i].hand, d);
        RecordOutcome(s, i, o);
      }
      SettledOneMore(v0, vb, s.View(), d, i);
      i := i + 1;
    }
    SettledAll(v0, s.View(), d);
  }

  /** The branches of sum_up_results for one remaining hand. */
  method JudgeHand(hand: seq<Card>, d: int) returns (o: Outcome)
    requires IsHand(hand)
    ensures o == Classify(hand, d)
  {
    if d > 21 {
      o := if IsBlackjack(hand) then Win(true) else Win(false);
    } else {
      var points := CountPoints(hand);
      if IsBlackjack(hand) && d < 21 {
        o := Win(true);
      } else if points < d {
        o := Loss;
      } else if points > d {
        o := Win(false);
      } else {
        o := Draw;
      }
    }
  }

  /** The store's win/draw/loss record for player `i`, preceded by its notice; a loss
      that empties the balance is announced too. The new balance is left to the store. */
  method RecordOutcome(s: Store, i: nat, o: Outcome)
    requires s.Valid() && i < |s.players|
    modifies s
    ensures s.Valid()
    ensures |s.players| == |old(s.players)| && SettledAs(old(s.players[i]), s.players[i], o)
    ensures s.View() == old(s.View()).(
      players := old(s.players)[i := s.players[i]],
      outcomes := old(s.outcomes) + [Settlement(old(s.players[i].id), o)],
      notices := old(s.notices) + OutcomeNotices(s.players[i], o))
  {
    var p := s.players[i];
    match o {
      case Win(b) => s.notices := s.notices + [PlayerWin(p.id, b)];
      case Draw => s.notices := s.notices + [PlayerDraw(p.id)];
      case Loss => s.notices := s.notices + [PlayerLoss(p.id)];
    }
    var cash: int :| cash >= 0;
    ConsistentAfterRowUpdate(s.View(), i, Settle(p, o, cash));
    s.players := s.players[i := Settle(p, o, cash)];
    s.outcomes := s.outcomes + [Settlement(p.id, o)];
    if o == Loss && s.players[i].cash == 0 {
      s.notices := s.notices + [LastCashSpent(p.id)];
    }
  }

  method EndGame(s: Store)
    requires s.Valid()
    modifies s
    ensures s.Valid()
    ensures s.View() == Ended(old(s.View()))
  {
    s.stage := Inactive;
    s.currentPlayer := None;
    s.dealerCards, s.dealerPoints := [], None;
    s.notices := s.notices + [GameEnded, GameOffer(true)];
  }

  /** The chat's statistics, then the asker's own record (none for a non-player). */
  method SendStatistic(s: Store, user: UserId)
    requires s.Valid()
    modifies s
    ensures s.Valid()
    ensures var r := FindPlayer(old(s.players), user);
      s.View() == old(s.View()).(notices := old(s.notices)
        + [ChatStat(old(s.gamesPlayed)), PlayerStat(user, if r.None? then None else Some(old(s.players[r.value])))])
  {
    s.notices := s.notices + [ChatStat(s.gamesPlayed)];
    var r := FindPlayer(s.players, user);
    if r.None? {
      s.notices := s.notices + [PlayerStat(user, None)];
      return;
    }
    s.notices := s.notices + [PlayerStat(user, Some(s.players[r.value]))];
  }

  method InactivateGame(s: Store)
    requires s.Valid()
    modifies s
    ensures s.Valid() && RoundOver(s.View()) && !AnyActive(s.players)
    ensures s.View() == Inactivated(old(s.View()))
  {
    ghost var v0 := s.View();
    s.timers := [];
    if s.currentPlayer.Some? {
      s.currentPlayer := None;
    }
    if s.dealerCards != [] {
      s.dealerCards, s.dealerPoints := [], None;
    }
    var i := 0;
    while i < |s.players|
      invariant 0 <= i <= |s.players| == |v0.players|
      invariant forall k :: 0 <= k < i ==> s.players[k] == ClearPlayer(v0.players[k])
      invariant forall k :: i <= k < |v0.players| ==> s.players[k] == v0.players[k]
      invariant s.timers == [] && s.currentPlayer == None && s.stage == v0.stage
      invariant s.dealerCards == Inactivated(v0).dealerCards && s.dealerPoints == Inactivated(v0).dealerPoints
      invariant s.gamesPlayed == v0.gamesPlayed && s.startCash == v0.startCash
      invariant s.outcomes == v0.outcomes && s.notices == v0.notices
    {
      var p := s.players[i];
      if p.isActive {
        if Truthy(p.bet) {
          p := p.(bet := None);
        }
        if p.hand != [] {
          p := p.(hand := []);
        }
        p := p.(isActive := false);
        s.players := s.players[i := p];
      }
      i := i + 1;
    }
    s.stage := Inactive;
    assert s.players == ClearActive(v0.players);
    assert s.View() == Inactivated(v0);
    InactivatedIsRoundOver(v0);
  }

  /** Resumes a game found active at start-up from its stored stage. */
  method Recovery(s: Store) returns (raised: bool)
    requires s.Valid()
    modifies s
    ensures s.Valid()
    ensures old(s.stage) == Inactive ==> s.View() == old(s.View()) && !raised
    ensures old(s.stage) == Gathering ==> s.View() == GatheringStarted(old(s.View())) && !raised
    ensures old(s.stage) == Betting && !EveryoneBet(old(s.players)) ==>
      s.View() == BettingStarted(old(s.View())) && !raised
    ensures old(s.stage) == Betting && EveryoneBet(old(s.players)) ==>
      var v1 := old(s.View()).(notices := old(s.notices) + [AllBetsPlaced]);
      && (raised <==> !AnyActive(v1.players))
      && (raised ==> s.View() == DealingOpened(v1))
      && (!raised ==> DealingBegan(v1, s.View()))
    ensures old(s.stage) == DealingPlayers && old(s.currentPlayer).None? ==>
      && (raised <==> !AnyActive(old(s.players)))
      && (raised ==> s.View() == DealingOpened(old(s.View())))
      && (!raised ==> DealingBegan(old(s.View()), s.View()))
    ensures old(s.stage) == DealingPlayers && old(s.currentPlayer).Some? ==>
      && !raised
      && exists i :: 0 <= i < |old(s.players)| && old(s.players[i].id) == old(s.currentPlayer.value)
           && (old(s.players[i].hand) != [] ==>
                 Checked(old(s.View()).(notices := old(s.notices) + [PlayerHand(old(s.players[i].id), old(s.players[i].hand))]), s.View(), i))
           && (old(s.players[i].hand) == [] ==>
                 Dealt(old(s.View()).(notices := old(s.notices) + [PlayerTurn(old(s.players[i].id))]), s.View(), i, 2))
    ensures old(s.stage) == DealingDealer && old(s.dealerCards) == [] ==>
      DealerPlayed(old(s.View()), s.View()) && !raised
    ensures old(s.stage) == DealingDealer && old(s.dealerCards) != [] ==>
      ResultsSummed(old(s.View()).(notices := old(s.notices) + [CardsReceived(old(s.dealerCards))]), s.View()) && !raised
    ensures old(s.stage) == Results ==> ResultsSummed(old(s.View()), s.View()) && !raised
  {
    raised := false;
    match s.stage {
      case Inactive =>
      case Gathering =>
        GatheringPlayers(s);
      case Betting =>
        if EveryoneBet(s.players) {
          s.notices := s.notices + [AllBetsPlaced];
          raised := StartDealing(s);
        } else {
          StartBetting(s);
        }
      case DealingPlayers =>
        if s.currentPlayer.None? {
          raised := StartDealing(s);
          return;
        }
        var id := s.currentPlayer.value;
        var i :| 0 <= i < |s.players| && s.players[i].id == id;
        var p := s.players[i];
        if p.hand != [] {
          s.notices := s.notices + [PlayerHand(p.id, p.hand)];
          CheckHand(s, i);
        } else {
          s.notices := s.notices + [PlayerTurn(p.id)];
          DealCards(s, 2, i);
        }
      case DealingDealer =>
        if s.dealerCards == [] {
          DealToDealer(s);
          return;
        }
        s.notices := s.notices + [CardsReceived(s.dealerCards)];
        SumUp(s);
      case Results =>
        SumUp(s);
    }
  }

  /** A pending timer expires: its entry is removed and its continuation runs. */
  method OnTimer(s: Store, k: nat)
    requires s.Valid() && k < |s.timers|
    modifies s
    ensures s.Valid()
    ensures var v1 := old(s.View()).(timers := old(s.timers[..k] + s.timers[k + 1..]));
      match old(s.timers[k])
      case RunCollectPlayers => PlayersCollected(v1, s.View())
      case RunCollectBets => BetsCollected(v1, s.View())
      case RunNextPlayerTurn => TurnPassed(v1, s.View())
  {
    var next := s.timers[k];
    s.timers := s.timers[..k] + s.timers[k + 1..];
    match next {
      case RunCollectPlayers => CollectPlayers(s);
      case RunCollectBets => CollectBets(s);
      case RunNextPlayerTurn => NextTurn(s);
    }
  }
}
