/** `GameEventRouter` (app/store/game/router.py): cleaned chat text to a game event, and
    each event to its handler. */
module Router {
  import opened Wrappers
  import opened Events

  /** `str.isdigit()` on ASCII digits: non-empty and every character a digit. */
  predicate IsDigits(text: string) {
    |text| > 0 && forall i :: 0 <= i < |text| ==> '0' <= text[i] <= '9'
  }

  /** `int(text)` of a digit string: its decimal value, leading zeros allowed. */
  function DecimalValue(text: string): (n: nat)
    requires forall i :: 0 <= i < |text| ==> '0' <= text[i] <= '9'
    ensures n == 0 <==> forall i :: 0 <= i < |text| ==> text[i] == '0'
  {
    if text == [] then 0
    else
      var m := |text| - 1;
      var r := DecimalValue(text[..m]) * 10 + (text[m] as int - '0' as int);
      assert forall i :: 0 <= i < m ==> text[..m][i] == text[i];
      r
  }

  /** `get_event`: all-digit text is a bet; otherwise the member with that value, if any. */
  function GetEvent(text: string): Option<GameEvent> {
    if IsDigits(text) then Some(Bet) else Lookup(text)
  }

  /** No member's value is all digits (the empty value included). */
  lemma NoValueIsDigits(e: GameEvent)
    ensures !IsDigits(Value(e))
  {
    var v := Value(e);
    if v != [] {
      assert !('0' <= v[0] <= '9');
    }
  }

  /** What `get_event` returns, in both directions: a digit string is a bet, a value names
      its member, and nothing else yields an event. */
  lemma GetEventCases(text: string, e: GameEvent)
    ensures GetEvent(text) == Some(e) <==> (IsDigits(text) && e == Bet) || (!IsDigits(text) && Value(e) == text)
    ensures GetEvent(text) == None <==> !IsDigits(text) && forall x: GameEvent :: Value(x) != text
  {
    LookupValue(text, e);
    if GetEvent(text) == None {
      forall x: GameEvent ensures Value(x) != text { LookupValue(text, x); }
    }
    if !IsDigits(text) && Lookup(text).Some? {
      LookupValue(text, Lookup(text).value);
    }
  }

  /** Round trip: the value of an event routes back to that event. */
  lemma GetEventOfValue(e: GameEvent)
    ensures GetEvent(Value(e)) == Some(e)
  {
    NoValueIsDigits(e);
    LookupValue(Value(e), e);
  }

  /** Any digit string is a bet, whatever number it spells. */
  lemma DigitsAreBets(text: string)
    requires IsDigits(text)
    ensures GetEvent(text) == Some(Bet)
  {
  }

  /** The handlers of `GameHandler` an event can be routed to. */
  datatype Handler =
    | StartGame | SendGameRules | RegisterPlayer | UnregisterPlayer | AcceptBet
    | SendPlayerCash | DealMoreCard | StopDealingCards | SendPlayerHand
    | SendRestoreCommand | RestoreGameAndCash | AbortGame | CancelGame
    | SendStatistic | SendGameOffer

  /** `HANDLERS`: built once, never updated. */
  const Handlers: map<GameEvent, Handler> :=
    map[Start := StartGame, Rules := SendGameRules, Register := RegisterPlayer,
        Unregister := UnregisterPlayer, Bet := AcceptBet, Cash := SendPlayerCash,
        MoreCard := DealMoreCard, EnoughCards := StopDealingCards, Hand := SendPlayerHand,
        Resent := SendRestoreCommand, RestoreCash := RestoreGameAndCash, Abort := AbortGame,
        Stop := CancelGame, Statistic := SendStatistic, Empty := SendGameOffer]

  lemma HandlersTotal(e: GameEvent)
    ensures e in Handlers
  {
  }

  /** `route`: the handler registered for the event; defined for every event. */
  function Route(e: GameEvent): (h: Handler)
    ensures h in Handlers.Values
  {
    HandlersTotal(e);
    Handlers[e]
  }

  /** Every event has its own handler: the table is total and no two events share one. */
  lemma RouteIsInjective(a: GameEvent, b: GameEvent)
    ensures a in Handlers && b in Handlers
    ensures Route(a) == Route(b) ==> a == b
  {
  }
}
