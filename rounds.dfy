/**
  The rules of one round of the chat game, as functions and predicates over store
  snapshots: how a remaining hand is settled against the dealer, what settling does to a
  player row, the shape of the state the stage transitions leave behind, and the relation
  the player-turn cascade of app/store/game/manager.py establishes.
 */
module Rounds {
  import opened Wrappers
  import opened Decks
  import opened GameStore

  // ---------------------------------------------------------------- outcomes

  /** The outcome of a remaining hand against the dealer's points. */
  function Classify(hand: seq<Card>, dealer: int): (o: Outcome)
    ensures o.Win? ==> o.blackjack == IsBlackjack(hand)
    ensures IsBlackjack(hand) ==> o != Loss
    ensures dealer > 21 ==> o.Win?
    ensures IsBlackjack(hand) && dealer < 21 ==> o == Win(true)
    ensures IsBlackjack(hand) && dealer == 21 ==> o == Draw
    ensures dealer <= 21 && !IsBlackjack(hand) ==>
      && (o == Loss <==> HandValue(hand) < dealer)
      && (o == Draw <==> HandValue(hand) == dealer)
      && (o == Win(false) <==> HandValue(hand) > dealer)
  {
    if dealer > 21 then Win(IsBlackjack(hand))
    else if IsBlackjack(hand) && dealer < 21 then Win(true)
    else if HandValue(hand) < dealer then Loss
    else if HandValue(hand) > dealer then Win(false)
    else Draw
  }

  /** A player row after the store records an outcome: out of the round, hand and bet
      cleared, counters moved on, cash set to the given balance. */
  function Settle(p: Player, o: Outcome, cash: int): (q: Player)
    ensures q.id == p.id && !q.isActive && q.hand == [] && q.bet == None
    ensures q.gamesPlayed == p.gamesPlayed + 1
    ensures q.cash == cash
    ensures q.gamesWon == p.gamesWon + (if o.Win? then 1 else 0)
    ensures q.gamesLost == p.gamesLost + (if o == Loss then 1 else 0)
  {
    p.(cash := cash, bet := None, hand := [], isActive := false,
       gamesPlayed := p.gamesPlayed + 1,
       gamesWon := p.gamesWon + (if o.Win? then 1 else 0),
       gamesLost := p.gamesLost + (if o == Loss then 1 else 0))
  }

  predicate SettledAs(p0: Player, p1: Player, o: Outcome) {
    p1.cash >= 0 && p1 == Settle(p0, o, p1.cash)
  }

  /** What the chat is told when an outcome is recorded for a player (now `p1`). */
  function OutcomeNotices(p1: Player, o: Outcome): seq<Notice> {
    match o
    case Win(b) => [PlayerWin(p1.id, b)]
    case Draw => [PlayerDraw(p1.id)]
    case Loss => [PlayerLoss(p1.id)] + (if p1.cash == 0 then [LastCashSpent(p1.id)] else [])
  }

  /** The outcomes recorded when the remaining players are settled in row order. */
  function Settlements(ps: seq<Player>, dealer: int): seq<Settlement> {
    if ps == [] then []
    else
      var last := ps[|ps| - 1];
      Settlements(ps[..|ps| - 1], dealer)
        + (if last.isActive then [Settlement(last.id, Classify(last.hand, dealer))] else [])
  }

  /** The notices of settling `ps0`, whose rows afterwards are `ps1`. */
  function SettleNotices(ps0: seq<Player>, ps1: seq<Player>, dealer: int): seq<Notice>
    requires |ps0| == |ps1|
  {
    if ps0 == [] then []
    else
      var n := |ps0| - 1;
      SettleNotices(ps0[..n], ps1[..n], dealer)
        + (if ps0[n].isActive then OutcomeNotices(ps1[n], Classify(ps0[n].hand, dealer)) else [])
  }

  // ---------------------------------------------------------------- player rows

  predicate AnyActive(ps: seq<Player>) {
    exists i :: 0 <= i < |ps| && ps[i].isActive
  }

  function CountActive(ps: seq<Player>): nat {
    if ps == [] then 0
    else CountActive(ps[..|ps| - 1]) + (if ps[|ps| - 1].isActive then 1 else 0)
  }

  /** The ids of the active players, in row order. */
  function ActiveIds(ps: seq<Player>): (r: seq<UserId>)
    ensures |r| == CountActive(ps)
    ensures forall id :: id in r <==> exists i :: 0 <= i < |ps| && ps[i].isActive && ps[i].id == id
  {
    if ps == [] then []
    else
      var n := |ps| - 1;
      var r := ActiveIds(ps[..n]) + (if ps[n].isActive then [ps[n].id] else []);
      assert forall i :: 0 <= i < n ==> ps[..n][i] == ps[i];
      r
  }

  /** Players with no cash left (the store's count of losers). */
  function CountLosers(ps: seq<Player>): nat {
    if ps == [] then 0
    else CountLosers(ps[..|ps| - 1]) + (if ps[|ps| - 1].cash == 0 then 1 else 0)
  }

  /** Every active player has a truthy bet (`all(player.bet for ...)`). */
  predicate EveryoneBet(ps: seq<Player>) {
    forall i :: 0 <= i < |ps| && ps[i].isActive ==> Truthy(ps[i].bet)
  }

  /** Indices of the active players still without cards. */
  function Waiting(ps: seq<Player>): set<nat> {
    set i: nat | i < |ps| && ps[i].isActive && ps[i].hand == []
  }

  /** The active players who had not bet, dropped out of the round. */
  function DropBetless(ps: seq<Player>): (r: seq<Player>)
    ensures |r| == |ps|
    ensures forall i :: 0 <= i < |ps| && !(ps[i].isActive && ps[i].bet.None?) ==> r[i] == ps[i]
    ensures forall i :: 0 <= i < |ps| && ps[i].isActive && ps[i].bet.None? ==>
      !r[i].isActive && r[i] == ps[i].(isActive := false)
    ensures forall i :: 0 <= i < |r| && r[i].isActive ==> r[i].bet.Some? && ps[i].isActive
  {
    seq(|ps|, i requires 0 <= i < |ps| =>
      if ps[i].isActive && ps[i].bet.None? then ps[i].(isActive := false) else ps[i])
  }

  function BetlessNotices(ps: seq<Player>): seq<Notice> {
    if ps == [] then []
    else
      var last := ps[|ps| - 1];
      BetlessNotices(ps[..|ps| - 1])
        + (if last.isActive && last.bet.None? then [NoPlayerBet(last.id)] else [])
  }

  function ClearPlayer(p: Player): Player {
    if !p.isActive then p
    else p.(bet := if Truthy(p.bet) then None else p.bet, hand := [], isActive := false)
  }

  function ClearActive(ps: seq<Player>): (r: seq<Player>)
    ensures |r| == |ps|
    ensures forall i :: 0 <= i < |ps| && !ps[i].isActive ==> r[i] == ps[i]
    ensures forall i :: 0 <= i < |ps| && ps[i].isActive ==>
      && !r[i].isActive && r[i].hand == [] && !Truthy(r[i].bet)
      && (!Truthy(ps[i].bet) ==> r[i].bet == ps[i].bet)
      && r[i] == ps[i].(isActive := false, hand := [], bet := r[i].bet)
  {
    seq(|ps|, i requires 0 <= i < |ps| => ClearPlayer(ps[i]))
  }

  // ---------------------------------------------------------------- stage transitions

  function GatheringStarted(v: Snapshot): Snapshot {
    v.(stage := Gathering, notices := v.notices + [WaitingPlayers], timers := v.timers + [RunCollectPlayers])
  }

  function BettingStarted(v: Snapshot): Snapshot {
    v.(stage := Betting, notices := v.notices + [WaitingBets], timers := v.timers + [RunCollectBets])
  }

  function Ended(v: Snapshot): Snapshot {
    v.(stage := Inactive, currentPlayer := None, dealerCards := [], dealerPoints := None,
       notices := v.notices + [GameEnded, GameOffer(true)])
  }

  /** The effect of inactivate_game: timers cancelled, turn and dealer cleared, every
      active player out with hand and truthy bet cleared, stage inactive. */
  function Inactivated(v: Snapshot): Snapshot {
    v.(timers := [],
       currentPlayer := None,
       dealerCards := if v.dealerCards != [] then [] else v.dealerCards,
       dealerPoints := if v.dealerCards != [] then None else v.dealerPoints,
       players := ClearActive(v.players),
       stage := Inactive)
  }

  /** The round given up for want of players. */
  function Abandoned(v: Snapshot): Snapshot {
    var w := Inactivated(v.(notices := v.notices + [NoPlayers]));
    w.(notices := w.notices + [GameAborted(None)])
  }

  function DealingOpened(v: Snapshot): Snapshot {
    v.(gamesPlayed := v.gamesPlayed + 1, stage := DealingPlayers, notices := v.notices + [DealingStarted])
  }

  /** The turn handed to player `i`. */
  function Turned(v: Snapshot, i: nat): Snapshot
    requires i < |v.players|
  {
    v.(currentPlayer := Some(v.players[i].id), notices := v.notices + [PlayerTurn(v.players[i].id)])
  }

  /** Cards added to the hand of player `i` and shown to the chat. */
  function Added(v: Snapshot, i: nat, cards: seq<Card>): Snapshot
    requires i < |v.players|
  {
    v.(players := v.players[i := v.players[i].(hand := v.players[i].hand + cards)],
       notices := v.notices + [CardsReceived(cards)])
  }

  function DealerDealt(v: Snapshot, d: seq<Card>): Snapshot {
    v.(stage := DealingDealer, dealerCards := d, dealerPoints := Some(HandValue(d)),
       notices := v.notices + [DealingToDealer, CardsReceived(d)])
  }

  predicate DeckCards(cards: seq<Card>) {
    IsHand(cards) && forall k :: 0 <= k < |cards| ==> IsDeckCard(cards[k])
  }

  /** The dealer drew two cards, then one more while under 17, and stopped at 17 or more. */
  predicate DealerStops(d: seq<Card>) {
    && 2 <= |d|
    && HandValue(d) >= 17
    && forall k :: 2 <= k < |d| ==> HandValue(d[..k]) < 17
  }

  // ---------------------------------------------------------------- the turn cascade

  /** Nothing the cascade never touches has changed, and the logs only grew. */
  ghost predicate Grows(v0: Snapshot, v: Snapshot) {
    && |v.players| == |v0.players|
    && (forall i :: 0 <= i < |v0.players| ==> v.players[i].id == v0.players[i].id)
    && v0.outcomes <= v.outcomes
    && v0.notices <= v.notices
    && v.gamesPlayed == v0.gamesPlayed
    && v.startCash == v0.startCash
  }

  /** A player who was active in `v0` and is out of the round, hand cleared, in `v`. */
  ghost predicate Retired(v0: Snapshot, v: Snapshot, id: UserId)
    requires |v.players| == |v0.players|
  {
    exists i :: 0 <= i < |v0.players| && v0.players[i].isActive && !v.players[i].isActive
      && v.players[i].hand == [] && v.players[i].id == id
  }

  /** Inactive rows are untouched, and every outcome recorded since `v0` belongs to a
      distinct player who took part and is now retired. */
  ghost predicate Evolves(v0: Snapshot, v: Snapshot) {
    && Grows(v0, v)
    && (forall i :: 0 <= i < |v0.players| && !v0.players[i].isActive ==> v.players[i] == v0.players[i])
    && (forall k :: |v0.outcomes| <= k < |v.outcomes| ==> Retired(v0, v, v.outcomes[k].player))
    && (forall k, l :: |v0.outcomes| <= k < l < |v.outcomes| ==> v.outcomes[k].player != v.outcomes[l].player)
  }

  /** An active player who already holds cards is never dealt again: either untouched or
      settled. */
  ghost predicate NonWaitingKept(v0: Snapshot, v: Snapshot) {
    && |v.players| == |v0.players|
    && forall i :: 0 <= i < |v0.players| && v0.players[i].isActive && v0.players[i].hand != [] ==>
         v.players[i] == v0.players[i] || (!v.players[i].isActive && v.players[i].hand == [])
  }

  predicate RoundOver(v: Snapshot) {
    v.stage == Inactive && v.currentPlayer == None && v.dealerCards == [] && v.dealerPoints == None
  }

  /** The current player is active, holds cards worth less than 21 and is being asked. */
  ghost predicate AwaitingDecision(v: Snapshot) {
    && v.currentPlayer.Some?
    && exists i :: 0 <= i < |v.players| && v.players[i].id == v.currentPlayer.value
         && v.players[i].isActive && v.players[i].hand != [] && HandValue(v.players[i].hand) < 21
  }

  /** The cascade stops either with the round over or with one player offered a card and
      the turn timer started. */
  ghost predicate CascadeEnd(v0: Snapshot, v: Snapshot) {
    || (RoundOver(v) && v.timers == v0.timers)
    || (&& AwaitingDecision(v) && v.stage == v0.stage && v.timers == v0.timers + [RunNextPlayerTurn]
        && v.dealerCards == v0.dealerCards && v.dealerPoints == v0.dealerPoints)
  }

  ghost predicate Cascade(v0: Snapshot, v: Snapshot) {
    Evolves(v0, v) && NonWaitingKept(v0, v) && CascadeEnd(v0, v)
  }

  predicate SameFrame(v0: Snapshot, v: Snapshot) {
    && v.stage == v0.stage && v.timers == v0.timers
    && v.dealerCards == v0.dealerCards && v.dealerPoints == v0.dealerPoints
  }

  /** The effect of sum_up_results from `v1`. */
  ghost predicate ResultsSummed(v1: Snapshot, v: Snapshot) {
    if !Truthy(v1.dealerPoints) then v == Inactivated(v1)
    else
      var d := v1.dealerPoints.value;
      && |v.players| == |v1.players|
      && (forall i :: 0 <= i < |v1.players| ==>
            if v1.players[i].isActive then SettledAs(v1.players[i], v.players[i], Classify(v1.players[i].hand, d))
            else v.players[i] == v1.players[i])
      && v.outcomes == v1.outcomes + Settlements(v1.players, d)
      && v.notices == v1.notices + SettleNotices(v1.players, v.players, d) + [GameEnded, GameOffer(true)]
      && RoundOver(v)
      && v.timers == v1.timers && v.gamesPlayed == v1.gamesPlayed && v.startCash == v1.startCash
  }

  /** Player `i` offered a card, and the turn timer started. */
  function Offered(v: Snapshot, i: nat): Snapshot
    requires i < |v.players|
  {
    v.(notices := v.notices + [OfferACard(v.players[i].id)], timers := v.timers + [RunNextPlayerTurn])
  }

  /** A hand of 21 of player `i` announced: as a blackjack when it has two cards, not at
      all otherwise. */
  function Announced(v: Snapshot, i: nat): Snapshot
    requires i < |v.players|
  {
    var p := v.players[i];
    v.(notices := v.notices + (if |p.hand| == 2 then [PlayerBlackjack(p.id)] else []))
  }

  /** Player `i` announced as overflowing and booked a loss, leaving row `q`. */
  function Busted(v: Snapshot, i: nat, q: Player): Snapshot
    requires i < |v.players|
  {
    v.(players := v.players[i := q],
       outcomes := v.outcomes + [Settlement(v.players[i].id, Loss)],
       notices := v.notices + [PlayerOverflow] + OutcomeNotices(q, Loss))
  }

  /** The effect of check_player_hand on player `i` from `v1`. The source does not look
      at whether the player is still in the round; when they are, the whole check is a
      stretch of the cascade that leaves the turn with someone else from 21 on. */
  ghost predicate Checked(v1: Snapshot, v: Snapshot, i: nat)
    requires i < |v1.players|
    decreases |Waiting(v1.players)|, 2
  {
    var p := v1.players[i];
    && (p.isActive ==> Cascade(v1, v))
    && (HandValue(p.hand) < 21 ==> v == Offered(v1, i))
    && (HandValue(p.hand) == 21 ==> TurnPassed(Announced(v1, i), v))
    && (HandValue(p.hand) > 21 ==> Overflowed(v1, v, i))
    && (p.isActive && HandValue(p.hand) >= 21 ==> v.currentPlayer != Some(p.id))
  }

  /** Over 21: player `i` loses (their row in `v` is the settled one) and the turn passes. */
  ghost predicate Overflowed(v1: Snapshot, v: Snapshot, i: nat)
    requires i < |v1.players|
    decreases |Waiting(v1.players)|, 1
  {
    && |v.players| == |v1.players|
    && SettledAs(v1.players[i], v.players[i], Loss)
    && (WaitingRetire(v1.players, i, v.players[i]);
        TurnPassed(Busted(v1, i, v.players[i]), v))
  }

  /** `amount` fresh deck cards given to player `i`, then the hand checked. */
  ghost predicate Dealt(v0: Snapshot, v: Snapshot, i: nat, amount: nat)
    requires i < |v0.players| && 1 <= amount
    decreases |Waiting(v0.players) - {i}|, 3
  {
    exists cards :: |cards| == amount && DeckCards(cards)
      && (WaitingAfterDeal(v0.players, i, cards); Checked(Added(v0, i, cards), v, i))
  }

  /** The effect of dealing to the dealer from `v0`. */
  ghost predicate DealerPlayed(v0: Snapshot, v: Snapshot) {
    exists d :: DealerStops(d) && DeckCards(d) && ResultsSummed(DealerDealt(v0, d), v)
  }

  /** The effect of set_next_player_turn from `v0`. */
  ghost predicate TurnPassed(v0: Snapshot, v: Snapshot)
    decreases |Waiting(v0.players)|, 0
  {
    && Cascade(v0, v)
    && (!AnyActive(v0.players) ==> v == Ended(v0))
    && (AnyActive(v0.players) && Waiting(v0.players) == {} ==> DealerPlayed(v0, v))
    && (Waiting(v0.players) != {} ==>
          exists i :: i in Waiting(v0.players)
            && (WaitingLess(v0.players, i); Dealt(Turned(v0, i), v, i, 2)))
  }

  /** The effect of start_dealing from `v0` when some player is active. */
  ghost predicate DealingBegan(v0: Snapshot, v: Snapshot) {
    exists i :: 0 <= i < |v0.players| && v0.players[i].isActive
      && Dealt(Turned(DealingOpened(v0), i), v, i, 2)
  }

  /** Dealing opened `n` times over: the state after `n` start-ups that each take the
      `dealing_players` branch with no current player. */
  function Reopened(v: Snapshot, n: nat): Snapshot {
    if n == 0 then v else DealingOpened(Reopened(v, n - 1))
  }

  /** Dealing opened with nobody in the round (where `random.choice` raises) leaves a
      game in the dealing stage, with no current player and still nobody in the round,
      that is, in the state from which resuming opens dealing again. After `n` rounds
      of this the rows are unchanged and `n` more games are counted. */
  lemma {:induction false} RaisedDealingRepeats(v: Snapshot, n: nat)
    requires v.currentPlayer == None && !AnyActive(v.players)
    ensures var w := Reopened(v, n);
      && (n > 0 ==> w.stage == DealingPlayers)
      && w.currentPlayer == None && w.players == v.players && !AnyActive(w.players)
      && w.gamesPlayed == v.gamesPlayed + n
      && |w.notices| == |v.notices| + n
  {
    if n > 0 {
      RaisedDealingRepeats(v, n - 1);
    }
  }

  /** The players who had not bet dropped out, each named to the chat. */
  function Betless(v: Snapshot): Snapshot {
    v.(players := DropBetless(v.players), notices := v.notices + BetlessNotices(v.players))
  }

  /** The effect of collect_players from `v0`. */
  ghost predicate PlayersCollected(v0: Snapshot, v: Snapshot) {
    if !AnyActive(v0.players) then v == Abandoned(v0)
    else v == BettingStarted(v0.(notices := v0.notices + [ActivePlayers(ActiveIds(v0.players))]))
  }

  /** The effect of collect_bets from `v0`. */
  ghost predicate BetsCollected(v0: Snapshot, v: Snapshot) {
    var v1 := Betless(v0);
    if !AnyActive(v1.players) then v == Abandoned(v1) else DealingBegan(v1, v)
  }

  // ---------------------------------------------------------------- lemmas

  lemma {:induction false} CountActiveNonZero(ps: seq<Player>)
    ensures CountActive(ps) > 0 <==> AnyActive(ps)
  {
    if ps != [] {
      var n := |ps| - 1;
      CountActiveNonZero(ps[..n]);
      if AnyActive(ps[..n]) {
        var i :| 0 <= i < n && ps[..n][i].isActive;
        assert ps[i].isActive;
      }
      if AnyActive(ps) && !ps[n].isActive {
        var i :| 0 <= i < |ps| && ps[i].isActive;
        assert ps[..n][i].isActive;
      }
    }
  }

  /** Each settlement belongs to an active row and is that row's classified outcome; with
      one row per user, no user is settled twice. */
  lemma {:induction false} SettlementsOfActive(ps: seq<Player>, d: int)
    ensures forall k :: 0 <= k < |Settlements(ps, d)| ==>
      exists j :: 0 <= j < |ps| && ps[j].isActive
        && Settlements(ps, d)[k] == Settlement(ps[j].id, Classify(ps[j].hand, d))
    ensures UniqueIds(ps) ==> forall k, l :: 0 <= k < l < |Settlements(ps, d)| ==>
      Settlements(ps, d)[k].player != Settlements(ps, d)[l].player
  {
    if ps != [] {
      var n := |ps| - 1;
      var pre := ps[..n];
      SettlementsOfActive(pre, d);
      assert forall k :: 0 <= k < |Settlements(pre, d)| ==>
        exists j :: 0 <= j < |pre| && pre[j].isActive
          && Settlements(pre, d)[k] == Settlement(pre[j].id, Classify(pre[j].hand, d));
      var s0 := Settlements(pre, d);
      var s := Settlements(ps, d);
      assert s[..|s0|] == s0;
      forall k | 0 <= k < |Settlements(ps, d)|
        ensures exists j ::
          0 <= j < |ps| && ps[j].isActive && Settlements(ps, d)[k] == Settlement(ps[j].id, Classify(ps[j].hand, d))
      {
        if k < |s0| {
          assert 0 <= k < |Settlements(pre, d)|;
          var j :| 0 <= j < |pre| && pre[j].isActive && s0[k] == Settlement(pre[j].id, Classify(pre[j].hand, d));
          assert s[k] == s0[k];
          assert ps[j] == pre[j];
        } else {
          assert s[k] == Settlement(ps[n].id, Classify(ps[n].hand, d));
        }
      }
      if UniqueIds(ps) {
        assert UniqueIds(pre);
        forall k, l | 0 <= k < l < |s|
          ensures s[k].player != s[l].player
        {
          if l < |s0| {
            assert s[k] == s0[k] && s[l] == s0[l];
          } else {
            var j :| 0 <= j < |pre| && pre[j].isActive && s0[k] == Settlement(pre[j].id, Classify(pre[j].hand, d));
            assert s[k] == s0[k];
            assert ps[j] == pre[j];
            assert s[l].player == ps[n].id;
          }
        }
      }
      assert forall k :: 0 <= k < |Settlements(ps, d)| ==>
        exists j :: 0 <= j < |ps| && ps[j].isActive
          && Settlements(ps, d)[k] == Settlement(ps[j].id, Classify(ps[j].hand, d));
    } else {
      assert Settlements(ps, d) == [];
    }
  }

  lemma GrowsCompose(v0: Snapshot, v1: Snapshot, v2: Snapshot)
    requires Grows(v0, v1) && Grows(v1, v2)
    ensures Grows(v0, v2)
  {
  }

  /** Two stretches of the cascade make one, when the first leaves stage, timers and
      dealer alone. */
  lemma CascadeCompose(v0: Snapshot, v1: Snapshot, v2: Snapshot)
    requires Evolves(v0, v1) && NonWaitingKept(v0, v1) && SameFrame(v0, v1)
    requires UniqueIds(v1.players)
    requires Cascade(v1, v2)
    ensures Cascade(v0, v2)
  {
    RetiredCompose(v0, v1, v2);
    DistinctCompose(v0, v1, v2);
    KeptCompose(v0, v1, v2);
  }

  lemma RetiredCompose(v0: Snapshot, v1: Snapshot, v2: Snapshot)
    requires Evolves(v0, v1) && Evolves(v1, v2)
    ensures forall k :: |v0.outcomes| <= k < |v2.outcomes| ==> Retired(v0, v2, v2.outcomes[k].player)
  {
    forall k | |v0.outcomes| <= k < |v2.outcomes|
      ensures Retired(v0, v2, v2.outcomes[k].player)
    {
      if k < |v1.outcomes| {
        assert v2.outcomes[k] == v1.outcomes[k];
        assert Retired(v0, v1, v1.outcomes[k].player);
        var i :| 0 <= i < |v0.players| && v0.players[i].isActive && !v1.players[i].isActive
          && v1.players[i].hand == [] && v1.players[i].id == v1.outcomes[k].player;
        assert v2.players[i] == v1.players[i];
      } else {
        assert Retired(v1, v2, v2.outcomes[k].player);
        var i :| 0 <= i < |v1.players| && v1.players[i].isActive && !v2.players[i].isActive
          && v2.players[i].hand == [] && v2.players[i].id == v2.outcomes[k].player;
        assert v0.players[i].isActive;
      }
    }
  }

  lemma DistinctCompose(v0: Snapshot, v1: Snapshot, v2: Snapshot)
    requires Evolves(v0, v1) && Evolves(v1, v2) && UniqueIds(v1.players)
    ensures forall k, l :: |v0.outcomes| <= k < l < |v2.outcomes| ==> v2.outcomes[k].player != v2.outcomes[l].player
  {
    forall k, l | |v0.outcomes| <= k < l < |v2.outcomes|
      ensures v2.outcomes[k].player != v2.outcomes[l].player
    {
      if k < |v1.outcomes| <= l {
        assert v2.outcomes[k] == v1.outcomes[k];
        assert Retired(v0, v1, v1.outcomes[k].player);
        assert Retired(v1, v2, v2.outcomes[l].player);
        var i :| 0 <= i < |v0.players| && v0.players[i].isActive && !v1.players[i].isActive
          && v1.players[i].hand == [] && v1.players[i].id == v1.outcomes[k].player;
        var j :| 0 <= j < |v1.players| && v1.players[j].isActive && !v2.players[j].isActive
          && v2.players[j].hand == [] && v2.players[j].id == v2.outcomes[l].player;
        assert i != j;
        assert v1.players[i].id != v1.players[j].id && v2.players[j].id == v1.players[j].id;
      } else if l < |v1.outcomes| {
        assert v2.outcomes[k] == v1.outcomes[k] && v2.outcomes[l] == v1.outcomes[l];
      }
    }
  }

  lemma KeptCompose(v0: Snapshot, v1: Snapshot, v2: Snapshot)
    requires Evolves(v0, v1) && NonWaitingKept(v0, v1) && Evolves(v1, v2) && NonWaitingKept(v1, v2)
    ensures NonWaitingKept(v0, v2)
  {
    forall i | 0 <= i < |v0.players| && v0.players[i].isActive && v0.players[i].hand != []
      ensures v2.players[i] == v0.players[i] || (!v2.players[i].isActive && v2.players[i].hand == [])
    {
      if v1.players[i] != v0.players[i] {
        assert v2.players[i] == v1.players[i];
      }
    }
  }

  /** Once a player holds 21 or more, the cascade that follows never leaves the turn with
      them. */
  lemma TurnMovesOn(v1: Snapshot, v: Snapshot, i: nat)
    requires i < |v1.players| && v1.players[i].isActive && v1.players[i].hand != []
    requires HandValue(v1.players[i].hand) >= 21
    requires Cascade(v1, v) && UniqueIds(v.players)
    ensures v.currentPlayer != Some(v1.players[i].id)
  {
    assert v.players[i].id == v1.players[i].id;
    assert !(v.players[i].isActive && HandValue(v.players[i].hand) < 21);
    forall j | 0 <= j < |v.players| && v.players[j].id == v1.players[i].id
      ensures j == i
    {
    }
  }

  lemma WaitingAfterDeal(ps: seq<Player>, i: nat, cards: seq<Card>)
    requires i < |ps| && cards != []
    ensures Waiting(ps[i := ps[i].(hand := ps[i].hand + cards)]) == Waiting(ps) - {i}
  {
    var qs := ps[i := ps[i].(hand := ps[i].hand + cards)];
    assert qs[i].hand != [] by { assert |qs[i].hand| >= |cards|; }
  }

  lemma WaitingLess(ps: seq<Player>, i: nat)
    requires i in Waiting(ps)
    ensures |Waiting(ps) - {i}| < |Waiting(ps)|
  {
    assert Waiting(ps) == (Waiting(ps) - {i}) + {i};
  }

  /** Taking a player out of the round never adds to those waiting for cards. */
  lemma WaitingRetire(ps: seq<Player>, i: nat, q: Player)
    requires i < |ps| && !q.isActive
    ensures |Waiting(ps[i := q])| <= |Waiting(ps)|
  {
    if i in Waiting(ps) {
      assert Waiting(ps[i := q]) == Waiting(ps) - {i};
      WaitingLess(ps, i);
    } else {
      assert Waiting(ps[i := q]) == Waiting(ps);
    }
  }

  lemma WaitingSame(ps: seq<Player>, i: nat, q: Player)
    requires i < |ps| && !(ps[i].isActive && ps[i].hand == []) && !(q.isActive && q.hand == [])
    ensures Waiting(ps[i := q]) == Waiting(ps)
  {
  }

  /** Inactivating a consistent store ends the round and keeps it consistent. */
  lemma InactivatedIsRoundOver(v: Snapshot)
    requires Consistent(v)
    ensures RoundOver(Inactivated(v)) && Consistent(Inactivated(v))
    ensures !AnyActive(Inactivated(v).players)
  {
    var w := Inactivated(v);
    forall i | 0 <= i < |w.players|
      ensures ValidPlayer(w.players[i]) && !w.players[i].isActive
    {
      assert ValidPlayer(v.players[i]);
    }
    assert w.currentPlayer == None;
  }

  /** A dealer's hand has at most 17 cards. */
  lemma DealerStopsBound(d: seq<Card>)
    requires DealerStops(d)
    ensures |d| <= 17
  {
    if |d| > 2 {
      var k := |d| - 1;
      HandValueAtLeastCount(d[..k]);
    }
  }

  /** Settling every remaining player is a stretch of the cascade that ends the round. */
  lemma SummedIsCascade(v1: Snapshot, v: Snapshot)
    requires Truthy(v1.dealerPoints) && ResultsSummed(v1, v) && UniqueIds(v1.players)
    ensures Evolves(v1, v) && NonWaitingKept(v1, v) && RoundOver(v) && v.timers == v1.timers
  {
    var d := v1.dealerPoints.value;
    var s := Settlements(v1.players, d);
    SettlementsOfActive(v1.players, d);
    forall i | 0 <= i < |v1.players|
      ensures v.players[i].id == v1.players[i].id
      ensures v1.players[i].isActive ==> !v.players[i].isActive && v.players[i].hand == []
      ensures !v1.players[i].isActive ==> v.players[i] == v1.players[i]
    {
    }
    forall k | |v1.outcomes| <= k < |v.outcomes|
      ensures Retired(v1, v, v.outcomes[k].player)
    {
      assert v.outcomes[k] == s[k - |v1.outcomes|];
      var j :| 0 <= j < |v1.players| && v1.players[j].isActive
        && s[k - |v1.outcomes|] == Settlement(v1.players[j].id, Classify(v1.players[j].hand, d));
      assert !v.players[j].isActive && v.players[j].hand == [];
    }
    forall k, l | |v1.outcomes| <= k < l < |v.outcomes|
      ensures v.outcomes[k].player != v.outcomes[l].player
    {
      assert v.outcomes[k] == s[k - |v1.outcomes|] && v.outcomes[l] == s[l - |v1.outcomes|];
    }
  }

  /** The dealer's round, from a consistent store, is a stretch of the cascade. */
  lemma DealerTurnIsCascade(v0: Snapshot, v: Snapshot)
    requires Consistent(v0) && DealerPlayed(v0, v)
    ensures Cascade(v0, v)
  {
    var d :| DealerStops(d) && DeckCards(d) && ResultsSummed(DealerDealt(v0, d), v);
    var v1 := DealerDealt(v0, d);
    SummedIsCascade(v1, v);
  }

  /** Handing the turn to waiting player `i` and dealing them two cards is a stretch of
      the cascade. */
  lemma PlayerTurnIsCascade(v0: Snapshot, v: Snapshot, i: nat)
    requires Consistent(v0) && i in Waiting(v0.players) && Dealt(Turned(v0, i), v, i, 2)
    ensures Cascade(v0, v)
  {
    var v1 := Turned(v0, i);
    var cards :| |cards| == 2 && DeckCards(cards) && Checked(Added(v1, i, cards), v, i);
    var v2 := Added(v1, i, cards);
    DealtToWaiting(v0, i, cards);
    assert Cascade(v2, v);
    CascadeCompose(v0, v2, v);
  }

  /** The turn and the cards given to a waiting player are a stretch of the cascade that
      leaves stage, timers and dealer alone. */
  lemma DealtToWaiting(v0: Snapshot, i: nat, cards: seq<Card>)
    requires Consistent(v0) && i in Waiting(v0.players)
    ensures var v2 := Added(Turned(v0, i), i, cards);
      Evolves(v0, v2) && NonWaitingKept(v0, v2) && SameFrame(v0, v2) && UniqueIds(v2.players)
  {
    var v2 := Added(Turned(v0, i), i, cards);
    assert forall j :: 0 <= j < |v0.players| && j != i ==> v2.players[j] == v0.players[j];
  }

  /** Rows before `i` of `v0` settled against `d` in row order into `v`, the rest untouched. */
  ghost predicate SettledUpTo(v0: Snapshot, v: Snapshot, d: int, i: nat)
    requires i <= |v0.players|
  {
    && |v.players| == |v0.players|
    && (forall k :: 0 <= k < i ==>
          if v0.players[k].isActive then SettledAs(v0.players[k], v.players[k], Classify(v0.players[k].hand, d))
          else v.players[k] == v0.players[k])
    && (forall k :: i <= k < |v0.players| ==> v.players[k] == v0.players[k])
    && v.outcomes == v0.outcomes + Settlements(v0.players[..i], d)
    && v.notices == v0.notices + SettleNotices(v0.players[..i], v.players[..i], d)
    && v == v0.(players := v.players, outcomes := v.outcomes, notices := v.notices)
  }

  /** Settling row `i` (or skipping it when inactive) extends the settled prefix. */
  lemma SettledOneMore(v0: Snapshot, vb: Snapshot, v: Snapshot, d: int, i: nat)
    requires i < |v0.players| && SettledUpTo(v0, vb, d, i)
    requires v0.players[i].isActive ==>
      var o := Classify(v0.players[i].hand, d);
      && |v.players| == |vb.players| && SettledAs(vb.players[i], v.players[i], o)
      && v == vb.(players := vb.players[i := v.players[i]],
                  outcomes := vb.outcomes + [Settlement(vb.players[i].id, o)],
                  notices := vb.notices + OutcomeNotices(v.players[i], o))
    requires !v0.players[i].isActive ==> v == vb
    ensures SettledUpTo(v0, v, d, i + 1)
  {
    var ps := v0.players;
    assert ps[..i + 1][..i] == ps[..i];
    assert v.players[..i + 1][..i] == vb.players[..i];
  }

  lemma SettledAll(v0: Snapshot, v: Snapshot, d: int)
    requires SettledUpTo(v0, v, d, |v0.players|)
    ensures forall k :: 0 <= k < |v0.players| ==>
      if v0.players[k].isActive then SettledAs(v0.players[k], v.players[k], Classify(v0.players[k].hand, d))
      else v.players[k] == v0.players[k]
    ensures v.outcomes == v0.outcomes + Settlements(v0.players, d)
    ensures v.notices == v0.notices + SettleNotices(v0.players, v.players, d)
    ensures v == v0.(players := v.players, outcomes := v.outcomes, notices := v.notices)
  {
    assert v0.players[..|v0.players|] == v0.players;
    assert v.players[..|v.players|] == v.players;
  }

  /** A hand under 21 of the player whose turn it is: offered a card, the turn timer
      started, nothing else touched; that is the check of the hand. */
  lemma OfferChecked(v0: Snapshot, i: nat)
    requires Consistent(v0) && i < |v0.players| && v0.players[i].hand != []
    requires HandValue(v0.players[i].hand) < 21 && v0.currentPlayer == Some(v0.players[i].id)
    ensures Grows(v0, Offered(v0, i)) && Checked(v0, Offered(v0, i), i)
  {
    var v := Offered(v0, i);
    if v0.players[i].isActive {
      assert AwaitingDecision(v);
      assert Evolves(v0, v) && NonWaitingKept(v0, v) && CascadeEnd(v0, v);
    }
  }

  /** A hand worth 21, announced, followed by the passing of the turn, is the check of
      that hand. */
  lemma TwentyOneChecked(v0: Snapshot, v: Snapshot, i: nat)
    requires Consistent(v0) && i < |v0.players| && v0.players[i].hand != []
    requires HandValue(v0.players[i].hand) == 21
    requires TurnPassed(Announced(v0, i), v) && Consistent(v)
    ensures Grows(v0, v) && Checked(v0, v, i)
  {
    var v1 := Announced(v0, i);
    assert Cascade(v1, v);
    GrowsCompose(v0, v1, v);
    if v0.players[i].isActive {
      CascadeCompose(v0, v1, v);
      TurnMovesOn(v0, v, i);
    }
  }

  /** A hand over 21 recorded as a loss, followed by the passing of the turn, is the
      check of that hand. */
  lemma OverflowChecked(v0: Snapshot, v: Snapshot, i: nat, q: Player)
    requires Consistent(v0) && i < |v0.players| && v0.players[i].hand != []
    requires HandValue(v0.players[i].hand) > 21
    requires SettledAs(v0.players[i], q, Loss) && Consistent(Busted(v0, i, q))
    requires TurnPassed(Busted(v0, i, q), v) && Consistent(v)
    ensures Grows(v0, v) && Checked(v0, v, i)
  {
    var v2 := Busted(v0, i, q);
    assert Cascade(v2, v);
    assert v.players[i] == q;
    assert Overflowed(v0, v, i);
    GrowsCompose(v0, v2, v);
    if v0.players[i].isActive {
      OverflowCascade(v0, v2, v, i, q);
    }
  }

  /** The cards `cards` given to player `i`, then the check of the hand, are a deal. */
  lemma DealtIntro(v0: Snapshot, v: Snapshot, i: nat, cards: seq<Card>)
    requires i < |v0.players| && 1 <= |cards| && DeckCards(cards)
    requires Grows(Added(v0, i, cards), v) && Checked(Added(v0, i, cards), v, i)
    ensures Grows(v0, v) && Dealt(v0, v, i, |cards|)
    ensures v0.notices + [CardsReceived(cards)] <= v.notices
  {
    WaitingAfterDeal(v0.players, i, cards);
    GrowsCompose(v0, Added(v0, i, cards), v);
  }

  /** Two cards dealt to a player who is already out of the round, with no cards (the
      row a loss leaves behind while the turn is still theirs): the player stays out of
      the round yet holds the two cards, and under 21 is offered a card with the turn
      timer started, the turn still theirs. */
  lemma RetiredPlayerRedealt(v0: Snapshot, v: Snapshot, i: nat)
    requires i < |v0.players| && !v0.players[i].isActive && v0.players[i].hand == []
    requires Dealt(v0, v, i, 2)
    ensures |v.players| == |v0.players| && !v.players[i].isActive && |v.players[i].hand| == 2
    ensures HandValue(v.players[i].hand) < 21 ==>
      && v.currentPlayer == v0.currentPlayer && v.stage == v0.stage
      && v.timers == v0.timers + [RunNextPlayerTurn]
      && v.notices == v0.notices + [CardsReceived(v.players[i].hand), OfferACard(v0.players[i].id)]
  {
    var cards :| |cards| == 2 && DeckCards(cards) && Checked(Added(v0, i, cards), v, i);
    RetiredDealtWith(v0, v, i, cards);
  }

  lemma RetiredDealtWith(v0: Snapshot, v: Snapshot, i: nat, cards: seq<Card>)
    requires i < |v0.players| && !v0.players[i].isActive && v0.players[i].hand == []
    requires |cards| == 2 && Checked(Added(v0, i, cards), v, i)
    ensures |v.players| == |v0.players| && !v.players[i].isActive && v.players[i].hand == cards
    ensures HandValue(cards) < 21 ==>
      && v.currentPlayer == v0.currentPlayer && v.stage == v0.stage
      && v.timers == v0.timers + [RunNextPlayerTurn]
      && v.notices == v0.notices + [CardsReceived(cards), OfferACard(v0.players[i].id)]
  {
    var v1 := Added(v0, i, cards);
    assert v1.players[i].hand == [cards[0], cards[1]] == cards;
    TwoCardsAtMost21(cards[0], cards[1]);
    RetiredChecked(v1, v, i);
  }

  /** The check of a hand of at most 21 held by a player out of the round leaves their
      row as it is. */
  lemma RetiredChecked(v1: Snapshot, v: Snapshot, i: nat)
    requires i < |v1.players| && !v1.players[i].isActive && HandValue(v1.players[i].hand) <= 21
    requires Checked(v1, v, i)
    ensures |v.players| == |v1.players| && v.players[i] == v1.players[i]
    ensures HandValue(v1.players[i].hand) < 21 ==> v == Offered(v1, i)
  {
    if HandValue(v1.players[i].hand) == 21 {
      var v2 := Announced(v1, i);
      assert TurnPassed(v2, v);
      assert Evolves(v2, v);
    }
  }

  /** The retirement of an active player that overflowed, followed by the passing of
      the turn, is one cascade that leaves the turn away from that player. */
  lemma OverflowCascade(v0: Snapshot, v2: Snapshot, v: Snapshot, i: nat, q: Player)
    requires Consistent(v0) && i < |v0.players| && v0.players[i].isActive
    requires v0.players[i].hand != [] && HandValue(v0.players[i].hand) > 21
    requires SettledAs(v0.players[i], q, Loss)
    requires v2 == Busted(v0, i, q)
    requires Consistent(v2) && Cascade(v2, v) && Consistent(v)
    ensures Cascade(v0, v) && v.currentPlayer != Some(v0.players[i].id)
  {
    RetireEvolves(v0, v2, i, q);
    CascadeCompose(v0, v2, v);
    TurnMovesOn(v0, v, i);
  }

  /** Settling one active player with cards is a step of the cascade that leaves stage,
      timers and dealer alone. */
  lemma RetireEvolves(v0: Snapshot, v2: Snapshot, i: nat, q: Player)
    requires i < |v0.players| && v0.players[i].isActive && v0.players[i].hand != []
    requires SettledAs(v0.players[i], q, Loss)
    requires v2 == Busted(v0, i, q)
    ensures Evolves(v0, v2) && NonWaitingKept(v0, v2) && SameFrame(v0, v2)
  {
    assert Retired(v0, v2, v0.players[i].id);
  }
}
