/**
  The persisted records the round engine reads and writes, held in memory.

  One chat owns one Game row, which is reused from round to round, and one Player row
  per chat member who ever registered; a Player is therefore identified by its user's
  id. The Game fields follow `GameModel` and the Player fields `PlayerModel`
  (api_service/game/models.py); the stages are those of api_service/game/states.py.
  Outbound notifications are kept as an abstract log, pending timers as the list of
  continuations they will run, and the store's "record outcome" calls as a log of
  settlements.
 */
module GameStore {
  import opened Wrappers
  import opened Decks

  type UserId = int

  datatype Stage = Inactive | Gathering | Betting | DealingPlayers | DealingDealer | Results

  /** The stored string of each stage. */
  function StageName(st: Stage): string {
    match st
    case Inactive => "inactive"
    case Gathering => "gathering"
    case Betting => "betting"
    case DealingPlayers => "dealing_players"
    case DealingDealer => "dealing_dealer"
    case Results => "results"
  }

  datatype Player = Player(
    id: UserId,
    cash: int,
    bet: Option<int>,
    hand: seq<Card>,
    isActive: bool,
    gamesPlayed: nat,
    gamesWon: nat,
    gamesLost: nat)

  datatype Outcome = Win(blackjack: bool) | Loss | Draw

  /** One call of the store's set_player_win / set_player_loss / set_player_draw. */
  datatype Settlement = Settlement(player: UserId, outcome: Outcome)

  /** What a pending timer runs when it expires. */
  datatype Continuation = RunCollectPlayers | RunCollectBets | RunNextPlayerTurn

  /** A message sent to the chat, without its text. */
  datatype Notice =
    | GameStarting | WaitingPlayers | NoPlayers | GameAborted(causer: Option<UserId>)
    | ActivePlayers(players: seq<UserId>) | WaitingBets | NoPlayerBet(player: UserId)
    | DealingStarted | PlayerTurn(player: UserId) | CardsReceived(cards: seq<Card>)
    | PlayerBlackjack(player: UserId) | PlayerOverflow | OfferACard(player: UserId)
    | DealingToDealer | PlayerWin(player: UserId, blackjack: bool) | PlayerDraw(player: UserId)
    | PlayerLoss(player: UserId) | LastCashSpent(player: UserId) | GameEnded
    | GameOffer(again: bool) | AllBetsPlaced | PlayerHand(player: UserId, cards: seq<Card>)
    | AllLosers | StartCashGiven(player: UserId) | NoCashToPlay(player: UserId)
    | PlayerRegisteredAlready(player: UserId) | PlayerRegistered(player: UserId)
    | AllPlay(losers: nat) | PlayerUnregistered(user: UserId)
    | BetAcceptedAlready(player: UserId, bet: int) | ZeroBet(player: UserId)
    | TooMuchBet(player: UserId) | BetAccepted(player: UserId, bet: int)
    | NotAPlayer(user: UserId) | NotYourTurn(player: UserId) | NotAPlayerCash(user: UserId)
    | ShowCash(player: UserId, cash: int) | GameCanceled(canceller: UserId) | CashRestored
    | GameIsOff | WrongState | GameRules(user: UserId) | ChatStat(played: nat)
    | PlayerStat(user: UserId, stats: Option<Player>) | RestoreCommand(user: UserId)

  /** Python truthiness of a nullable integer: present and not zero. */
  predicate Truthy(x: Option<int>) {
    x.Some? && x.value != 0
  }

  /** A snapshot of everything the store holds. */
  datatype Snapshot = Snapshot(
    stage: Stage,
    currentPlayer: Option<UserId>,
    dealerCards: seq<Card>,
    dealerPoints: Option<int>,
    players: seq<Player>,
    gamesPlayed: nat,
    startCash: nat,
    timers: seq<Continuation>,
    outcomes: seq<Settlement>,
    notices: seq<Notice>)

  predicate ValidPlayer(p: Player) {
    && p.cash >= 0
    && (p.bet.Some? ==> 0 <= p.bet.value <= (if p.isActive then p.cash else 0))
    && IsHand(p.hand)
  }

  predicate UniqueIds(ps: seq<Player>) {
    forall i, j :: 0 <= i < j < |ps| ==> ps[i].id != ps[j].id
  }

  /** The index of the player of a user, if that user has a Player row. */
  function FindPlayer(ps: seq<Player>, user: UserId): (r: Option<nat>)
    ensures r.Some? ==> r.value < |ps| && ps[r.value].id == user
    ensures r.None? ==> forall i :: 0 <= i < |ps| ==> ps[i].id != user
  {
    if ps == [] then None
    else if ps[|ps| - 1].id == user then Some(|ps| - 1)
    else FindPlayer(ps[..|ps| - 1], user)
  }

  /** The record invariant: balances are non-negative and cover the bet, only players in
      the round hold a stake, every card can be scored, one row per user, no dealer points without dealer cards, and the current-turn
      id names a player. */
  predicate Consistent(v: Snapshot) {
    && (forall i :: 0 <= i < |v.players| ==> ValidPlayer(v.players[i]))
    && UniqueIds(v.players)
    && IsHand(v.dealerCards)
    && (v.dealerCards == [] ==> v.dealerPoints == None)
    && (v.currentPlayer.Some? ==> HasPlayer(v.players, v.currentPlayer.value))
  }

  predicate HasPlayer(ps: seq<Player>, user: UserId) {
    exists i :: 0 <= i < |ps| && ps[i].id == user
  }

  class Store {
    var stage: Stage
    var currentPlayer: Option<UserId>
    var dealerCards: seq<Card>
    var dealerPoints: Option<int>
    var players: seq<Player>
    /** The chat's games-played counter. */
    var gamesPlayed: nat
    /** The global start cash of new players. */
    var startCash: nat
    var timers: seq<Continuation>
    var outcomes: seq<Settlement>
    var notices: seq<Notice>

    function View(): Snapshot
      reads this
    {
      Snapshot(stage, currentPlayer, dealerCards, dealerPoints, players, gamesPlayed, startCash,
           timers, outcomes, notices)
    }

    predicate Valid()
      reads this
    {
      Consistent(View())
    }

    /** A chat seen for the first time: its game idle, no players. */
    constructor (startCash: nat)
      ensures Valid()
      ensures View() == Snapshot(Inactive, None, [], None, [], 0, startCash, [], [], [])
    {
      stage, currentPlayer, dealerCards, dealerPoints := Inactive, None, [], None;
      players, gamesPlayed, this.startCash := [], 0, startCash;
      timers, outcomes, notices := [], [], [];
    }
  }

  /** Distinct stages are stored as distinct strings. */
  lemma StageNameInjective(a: Stage, b: Stage)
    requires StageName(a) == StageName(b)
    ensures a == b
  {
    assert |StageName(a)| == |StageName(b)|;
    assert StageName(a)[0] == StageName(b)[0];
  }

  /** Rewriting one row, keeping its user, keeps the records consistent. */
  lemma ConsistentAfterRowUpdate(v: Snapshot, i: nat, q: Player)
    requires Consistent(v) && i < |v.players| && q.id == v.players[i].id && ValidPlayer(q)
    ensures Consistent(v.(players := v.players[i := q]))
  {
    var ps := v.players[i := q];
    if v.currentPlayer.Some? {
      var j :| 0 <= j < |v.players| && v.players[j].id == v.currentPlayer.value;
      assert ps[j].id == v.currentPlayer.value;
    }
  }

  /** With unique ids the look-up finds the one row of that user. */
  lemma FindPlayerUnique(ps: seq<Player>, i: nat)
    requires UniqueIds(ps) && i < |ps|
    ensures FindPlayer(ps, ps[i].id) == Some(i)
  {
    if i < |ps| - 1 {
      assert UniqueIds(ps[..|ps| - 1]);
      FindPlayerUnique(ps[..|ps| - 1], i);
    }
  }
  /** Adding a valid row for a user without one keeps the records consistent. */
  lemma ConsistentAfterJoin(v: Snapshot, p: Player)
    requires Consistent(v) && ValidPlayer(p) && !HasPlayer(v.players, p.id)
    ensures Consistent(v.(players := v.players + [p]))
  {
    var ps := v.players + [p];
    if v.currentPlayer.Some? {
      var j :| 0 <= j < |v.players| && v.players[j].id == v.currentPlayer.value;
      assert ps[j].id == v.currentPlayer.value;
    }
    forall i | 0 <= i < |ps|
      ensures ValidPlayer(ps[i])
    {
      if i < |v.players| {
        assert ps[i] == v.players[i];
      }
    }
  }
}
