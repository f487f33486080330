/**
  The command guards of app/store/game/decorators.py. A guard reads only the stage of the
  chat's game; it either admits the wrapped handler, which then runs on the same call, or
  refuses it, in which case at most one notice is sent and nothing is written.
 */
module Decorators {
  import opened Wrappers
  import opened GameStore

  datatype Admission = Admitted | Refused(notice: Option<Notice>)

  /** The store's is_game_on: the chat's game is in a stage other than inactive. */
  predicate IsGameOn(stage: Stage) {
    stage != Inactive
  }

  /** `game_must_be_on`: with no game on, a "game is off" notice and the handler skipped. */
  function GameMustBeOn(stage: Stage): (a: Admission)
    ensures a == Admitted <==> IsGameOn(stage)
    ensures a.Refused? ==> a.notice == Some(GameIsOff)
  {
    if !IsGameOn(stage) then Refused(Some(GameIsOff)) else Admitted
  }

  /** `game_must_be_off`: with a game on, the handler is skipped without a word. */
  function GameMustBeOff(stage: Stage): (a: Admission)
    ensures a == Admitted <==> !IsGameOn(stage)
    ensures a.Refused? ==> a.notice == None
  {
    if IsGameOn(stage) then Refused(None) else Admitted
  }

  /** The stored names of the allowed stages, as the guard lists them. */
  function Names(states: seq<Stage>): (r: seq<string>)
    ensures |r| == |states|
    ensures forall k :: 0 <= k < |states| ==> r[k] == StageName(states[k])
  {
    seq(|states|, k requires 0 <= k < |states| => StageName(states[k]))
  }

  /** Comparing stored names decides membership of the stage itself. */
  lemma NamesMatchStages(stage: Stage, states: seq<Stage>)
    ensures StageName(stage) in Names(states) <==> stage in states
  {
    if StageName(stage) in Names(states) {
      var k :| 0 <= k < |states| && Names(states)[k] == StageName(stage);
      StageNameInjective(stage, states[k]);
    }
    if stage in states {
      var k :| 0 <= k < |states| && states[k] == stage;
      assert Names(states)[k] == StageName(stage);
    }
  }

  /** `game_must_be_on_state`: the stored stage name is looked up among the names of the
      allowed stages; outside them, a "wrong state" notice and the handler skipped. */
  function GameMustBeOnState(stage: Stage, states: seq<Stage>): (a: Admission)
    ensures a == Admitted <==> stage in states
    ensures a.Refused? ==> a.notice == Some(WrongState)
  {
    NamesMatchStages(stage, states);
    if StageName(stage) !in Names(states) then Refused(Some(WrongState)) else Admitted
  }

  /** Two decorators on one handler: the outer guard is consulted first, and the inner one
      only once the outer admits. */
  function Stack(outer: Admission, inner: Admission): (a: Admission)
    ensures a == Admitted <==> outer == Admitted && inner == Admitted
    ensures outer.Refused? ==> a == outer
    ensures outer == Admitted ==> a == inner
  {
    if outer.Refused? then outer else inner
  }

  /** `@game_must_be_on` over `@game_must_be_on_state(states)`: an idle game is refused as
      off, a running game outside `states` as in the wrong state, and the handler runs
      exactly in the listed running stages. */
  lemma OnAndInState(stage: Stage, states: seq<Stage>)
    ensures var a := Stack(GameMustBeOn(stage), GameMustBeOnState(stage, states));
      && (a == Admitted <==> stage != Inactive && stage in states)
      && (stage == Inactive ==> a == Refused(Some(GameIsOff)))
      && (stage != Inactive && stage !in states ==> a == Refused(Some(WrongState)))
  {
  }
}
