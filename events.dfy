/** The closed vocabulary of chat commands (app/store/game/events.py). */
module Events {
  import opened Wrappers

  datatype GameEvent =
    | Start | Rules | Register | Unregister | Bet | Cash | MoreCard | EnoughCards
    | Hand | Resent | RestoreCash | Abort | Stop | Statistic | Empty

  /** The text value of each event, in declaration order. */
  function Value(e: GameEvent): string {
    match e
    case Start => "начать"
    case Rules => "правила"
    case Register => "играю"
    case Unregister => "пас"
    case Bet => "ва-банк"
    case Cash => "кошель"
    case MoreCard => "карту"
    case EnoughCards => "довольно"
    case Hand => "рука"
    case Resent => "ебаный рот этого казино"
    case RestoreCash => "converta tempus"
    case Abort => "отмена"
    case Stop => "прекратить это безумие"
    case Statistic => "статистика"
    case Empty => ""
  }

  /** The members in declaration order, as iterating the enum yields them. */
  const AllEvents: seq<GameEvent> :=
    [Start, Rules, Register, Unregister, Bet, Cash, MoreCard, EnoughCards,
     Hand, Resent, RestoreCash, Abort, Stop, Statistic, Empty]

  lemma AllEventsListed(e: GameEvent)
    ensures e in AllEvents
  {
  }

  /** `GameEvent(text)`: the member whose value is `text`, if any. */
  function FindByValue(events: seq<GameEvent>, text: string): (r: Option<GameEvent>)
    ensures r.Some? ==> r.value in events && Value(r.value) == text
    ensures r.None? ==> forall e :: e in events ==> Value(e) != text
  {
    if events == [] then None
    else if Value(events[0]) == text then Some(events[0])
    else FindByValue(events[1..], text)
  }

  function Lookup(text: string): Option<GameEvent> {
    FindByValue(AllEvents, text)
  }

  /** No two members share a value, so the value names the member. */
  lemma ValueInjective(a: GameEvent, b: GameEvent)
    requires Value(a) == Value(b)
    ensures a == b
  {
    assert |Value(a)| == |Value(b)|;
    assert Value(a)[..|Value(a)|] == Value(b)[..|Value(b)|];
  }

  /** Value lookup succeeds exactly on the members' values. */
  lemma LookupValue(text: string, e: GameEvent)
    ensures Lookup(text) == Some(e) <==> Value(e) == text
  {
    AllEventsListed(e);
    if Lookup(text).Some? && Value(e) == text {
      ValueInjective(Lookup(text).value, e);
    }
  }
}
