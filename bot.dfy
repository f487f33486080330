/**
  `BotManager` (app/store/bot/manager.py): how each update from VK is classified and
  what the bot answers. The answers are kept as abstract actions; the stage of a chat's
  game, which the invite branch reads from the store, is a parameter.
 */
module Bot {
  import opened Wrappers

  /** The fields of a VK update the bot looks at. */
  datatype Update = Update(id: int, kind: string, fromId: int, peerId: int, actionType: string, text: string)

  datatype Branch = PrivateMessage | ChatInvite | ChatMessage

  /** Which of the three handlers an update goes to. */
  function BranchOf(u: Update): (b: Branch)
    ensures b == PrivateMessage <==> u.fromId == u.peerId
    ensures b == ChatInvite <==> u.fromId != u.peerId && u.actionType == "chat_invite_user"
    ensures b == ChatMessage <==> u.fromId != u.peerId && u.actionType != "chat_invite_user"
  {
    if u.fromId == u.peerId then PrivateMessage
    else if u.actionType == "chat_invite_user" then ChatInvite
    else ChatMessage
  }

  // ---------------------------------------------------------------- chat messages

  /** `str.lower` on the Latin and Russian alphabets; every other character is kept. */
  function LowerChar(c: char): char {
    if 'A' <= c <= 'Z' then (c as int + 32) as char
    else if 'А' <= c <= 'Я' then (c as int + 32) as char
    else if c == 'Ё' then 'ё'
    else c
  }

  function Lower(t: string): (r: string)
    ensures |r| == |t|
    ensures forall i :: 0 <= i < |t| ==> r[i] == LowerChar(t[i])
  {
    seq(|t|, i requires 0 <= i < |t| => LowerChar(t[i]))
  }

  /** The bot's mention in the chat, and the phrases that follow it. */
  const Mention: string := "[club218753438|@shadow_dementia]"
  const StartPhrase: string := Mention + " начать игру"
  const StartNowPhrase: string := Mention + " начать уже игру"
  const RulesPhrase: string := Mention + " правила игры"

  datatype ChatCommand = NewGame | GameRules | Offer

  /** `handle_chat_msg`: the two start phrases and the rules phrase are matched on the
      lower-cased text, the bare mention on the text as sent; anything else is ignored. */
  function ChatCommandOf(text: string): (r: Option<ChatCommand>)
    ensures r == Some(NewGame) <==> Lower(text) == StartPhrase || Lower(text) == StartNowPhrase
    ensures r == Some(GameRules) <==> Lower(text) == RulesPhrase
    ensures r == Some(Offer) <==> text == Mention
  {
    if Lower(text) == StartPhrase || Lower(text) == StartNowPhrase then Some(NewGame)
    else if Lower(text) == RulesPhrase then Some(GameRules)
    else if text == Mention then Some(Offer)
    else None
  }

  /** The bare mention is compared case-sensitively: a capitalised one does nothing. */
  lemma MentionIsCaseSensitive()
    ensures ChatCommandOf("[Club218753438|@shadow_dementia]") == None
  {
    var t := "[Club218753438|@shadow_dementia]";
    assert t[1] != Mention[1];
  }

  /** Start commands differing only in letter case are the same command. */
  lemma StartIgnoresCase(t: string, t': string)
    requires Lower(t) == Lower(t')
    ensures ChatCommandOf(t) == Some(NewGame) <==> ChatCommandOf(t') == Some(NewGame)
    ensures ChatCommandOf(t) == Some(GameRules) <==> ChatCommandOf(t') == Some(GameRules)
  {
  }

  // ---------------------------------------------------------------- updates

  datatype Action =
    | PrivateReply(peer: int)
    | Greeting(peer: int)
    | Command(peer: int, command: ChatCommand)

  /** What the bot does for one update: a reply in private; a greeting after an invite,
      followed by an offer when the chat's game is inactive; the matched command, if any,
      for a chat message. A `Command` is the call the bot makes into the game manager. */
  function Reaction(u: Update, stateOf: int -> string): seq<Action> {
    match BranchOf(u)
    case PrivateMessage => [PrivateReply(u.peerId)]
    case ChatInvite =>
      [Greeting(u.peerId)] + (if stateOf(u.peerId) == "inactive" then [Command(u.peerId, Offer)] else [])
    case ChatMessage =>
      match ChatCommandOf(u.text)
      case None => []
      case Some(c) => [Command(u.peerId, c)]
  }

  /** The update ends in a call of `new_game`, `game_rules` or `offer_to_play`, which the
      game manager does not define: the call raises AttributeError. */
  predicate Raises(u: Update, stateOf: int -> string) {
    match BranchOf(u)
    case PrivateMessage => false
    case ChatInvite => stateOf(u.peerId) == "inactive"
    case ChatMessage => ChatCommandOf(u.text).Some?
  }

  /** An update raises exactly when its reaction holds a command, which is then its last
      action. */
  lemma RaisesIffCommand(u: Update, stateOf: int -> string)
    ensures Raises(u, stateOf) <==> exists a :: a in Reaction(u, stateOf) && a.Command?
    ensures Raises(u, stateOf) ==> Reaction(u, stateOf)[|Reaction(u, stateOf)| - 1].Command?
  {
    var r := Reaction(u, stateOf);
    if Raises(u, stateOf) {
      assert r[|r| - 1] in r;
    }
  }

  /** The actions of a list of updates, handled in list order. */
  function Reactions(us: seq<Update>, stateOf: int -> string): seq<Action> {
    if us == [] then [] else Reactions(us[..|us| - 1], stateOf) + Reaction(us[|us| - 1], stateOf)
  }

  /** The updates of a batch that get handled: all of them up to and including the first
      one that raises, whose exception ends the loop. */
  function Handled(us: seq<Update>, stateOf: int -> string): (h: seq<Update>)
    ensures |h| <= |us| && h == us[..|h|]
    ensures forall j :: 0 <= j < |h| - 1 ==> !Raises(h[j], stateOf)
    ensures |h| < |us| ==> h != [] && Raises(h[|h| - 1], stateOf)
    decreases |us|
  {
    if us == [] then []
    else if Raises(us[0], stateOf) then [us[0]]
    else
      var rest := Handled(us[1..], stateOf);
      assert forall j :: 0 <= j < |rest| ==> rest[j] == us[1..][j];
      [us[0]] + rest
  }

  /** With no update raising, the whole batch is handled; otherwise exactly the updates
      up to the first one that raises. */
  lemma {:induction false} HandledUpToFirstRaise(us: seq<Update>, k: nat, stateOf: int -> string)
    requires k <= |us|
    requires forall j :: 0 <= j < k ==> !Raises(us[j], stateOf)
    ensures k == |us| ==> Handled(us, stateOf) == us
    ensures k < |us| && Raises(us[k], stateOf) ==> Handled(us, stateOf) == us[..k + 1]
    decreases k
  {
    if us != [] {
      if k == 0 {
        assert us[..1] == [us[0]];
      } else {
        HandledUpToFirstRaise(us[1..], k - 1, stateOf);
        if k < |us| {
          assert [us[0]] + us[1..][..k] == us[..k + 1];
        } else {
          assert [us[0]] + us[1..] == us;
        }
      }
    }
  }

  /** `handle_updates`: each update in list order, until one raises. `raised` reports the
      AttributeError that ends the loop. */
  method HandleUpdates(updates: seq<Update>, stateOf: int -> string) returns (sent: seq<Action>, raised: bool)
    ensures sent == Reactions(Handled(updates, stateOf), stateOf)
    ensures raised <==> exists k :: 0 <= k < |updates| && Raises(updates[k], stateOf)
  {
    sent := [];
    for k := 0 to |updates|
      invariant sent == Reactions(updates[..k], stateOf)
      invariant forall j :: 0 <= j < k ==> !Raises(updates[j], stateOf)
    {
      assert updates[..k + 1][..k] == updates[..k];
      sent := sent + Reaction(updates[k], stateOf);
      if Raises(updates[k], stateOf) {
        HandledUpToFirstRaise(updates, k, stateOf);
        return sent, true;
      }
    }
    assert updates[..|updates|] == updates;
    HandledUpToFirstRaise(updates, |updates|, stateOf);
    raised := false;
  }

  /** Handling two batches one after the other is handling them together. */
  lemma {:induction false} ReactionsConcat(a: seq<Update>, b: seq<Update>, stateOf: int -> string)
    ensures Reactions(a + b, stateOf) == Reactions(a, stateOf) + Reactions(b, stateOf)
    decreases |b|
  {
    if b != [] {
      var n := |b| - 1;
      assert (a + b)[..|a + b| - 1] == a + b[..n];
      ReactionsConcat(a, b[..n], stateOf);
    } else {
      assert a + b == a;
    }
  }

  /** A first batch in which nothing raises is handled whole, and then the second one
      as if on its own. */
  lemma HandledConcat(a: seq<Update>, b: seq<Update>, stateOf: int -> string)
    requires forall j :: 0 <= j < |a| ==> !Raises(a[j], stateOf)
    ensures Handled(a + b, stateOf) == a + Handled(b, stateOf)
    ensures Reactions(Handled(a + b, stateOf), stateOf)
      == Reactions(a, stateOf) + Reactions(Handled(b, stateOf), stateOf)
  {
    HandledPrefix(a, b, stateOf);
    ReactionsConcat(a, Handled(b, stateOf), stateOf);
  }

  lemma {:induction false} HandledPrefix(a: seq<Update>, b: seq<Update>, stateOf: int -> string)
    requires forall j :: 0 <= j < |a| ==> !Raises(a[j], stateOf)
    ensures Handled(a + b, stateOf) == a + Handled(b, stateOf)
    decreases |a|
  {
    if a == [] {
      assert a + b == b;
    } else {
      var ab := a + b;
      assert ab[0] == a[0];
      assert !Raises(ab[0], stateOf);
      assert ab[1..] == a[1..] + b;
      HandledPrefix(a[1..], b, stateOf);
      calc {
        Handled(ab, stateOf);
        [ab[0]] + Handled(ab[1..], stateOf);
        [a[0]] + (a[1..] + Handled(b, stateOf));
        { assert [a[0]] + a[1..] == a; }
        a + Handled(b, stateOf);
      }
    }
  }

  /** An update from the chat's own peer is a private message, invite or not. */
  lemma PrivateBeforeInvite(u: Update, stateOf: int -> string)
    requires u.fromId == u.peerId
    ensures Reaction(u, stateOf) == [PrivateReply(u.peerId)]
  {
  }

  /** After an invite an offer follows exactly when the chat's game is inactive. */
  lemma InviteOffersWhenIdle(u: Update, stateOf: int -> string)
    requires u.fromId != u.peerId && u.actionType == "chat_invite_user"
    ensures Reaction(u, stateOf)[0] == Greeting(u.peerId)
    ensures Command(u.peerId, Offer) in Reaction(u, stateOf) <==> stateOf(u.peerId) == "inactive"
  {
  }
}
