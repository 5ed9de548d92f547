/** The ambient behaviour of the "claude" bot between chats: each round
    draws a roll in [0, 1) and dances (below 0.12), waves (below 0.20),
    says an idle line (below 0.28) or walks to the next patrol waypoint.
    The roll, the dance style and the idle line are parameters; the
    sleeps and the pause while a chat is being answered are not
    modelled. */
module Ambient {
  import opened Codec
  import opened Outbound

  const PATROL_WAYPOINTS: seq<(int32, int32)> :=
    [(16, 19), (13, 15), (10, 12), (14, 18), (11, 16), (15, 14), (12, 20)]

  /** One round's random draws: random.random(), randint(1, 4) and the
      idle line chosen. */
  datatype Roll = Roll(roll: real, style: int32, line: string)

  /** wp_idx and the dancing flag. */
  datatype AmbientState = AmbientState(wpIdx: nat, dancing: bool)

  /** The waypoint of patrol number i: PATROL_WAYPOINTS[i % 7]. */
  function Waypoint(i: nat): (int32, int32)
  {
    PATROL_WAYPOINTS[i % |PATROL_WAYPOINTS|]
  }

  /** One round: the commands sent and the state after. A dance is
      started and stopped within the round. */
  function AmbientStep(s: AmbientState, r: Roll): (AmbientState, seq<Out>)
  {
    if r.roll < 0.12 then (s.(dancing := false), [Dance(r.style), Dance(STOP)])
    else if r.roll < 0.20 then (s, [Expression(WAVE)])
    else if r.roll < 0.28 then (s, [Chat(r.line)])
    else
      var stop := if s.dancing then [Dance(STOP)] else [];
      var (x, y) := Waypoint(s.wpIdx);
      (AmbientState(s.wpIdx + 1, false), stop + [MoveAvatar(x, y)])
  }

  /** The rounds in order, from wp_idx = 0 and not dancing. */
  function AmbientRun(rolls: seq<Roll>): (AmbientState, seq<Out>)
  {
    if rolls == [] then (AmbientState(0, false), [])
    else
      var (s, outs) := AmbientRun(rolls[..|rolls| - 1]);
      var (s2, more) := AmbientStep(s, rolls[|rolls| - 1]);
      (s2, outs + more)
  }

  /** The ambient loop over the given rounds. */
  method AmbientLoop(rolls: seq<Roll>) returns (sent: seq<Out>)
    ensures sent == AmbientRun(rolls).1
  {
    var wpIdx: nat := 0;
    var dancing := false;
    sent := [];
    for i := 0 to |rolls|
      invariant (AmbientState(wpIdx, dancing), sent) == AmbientRun(rolls[..i])
    {
      AmbientRunStep(rolls, i);
      var r := rolls[i];
      if r.roll < 0.12 {
        sent := sent + [Dance(r.style)];
        dancing := true;
        sent := sent + [Dance(STOP)];
        dancing := false;
        assert sent == AmbientRun(rolls[..i]).1 + [Dance(r.style), Dance(STOP)];
      } else if r.roll < 0.20 {
        sent := sent + [Expression(WAVE)];
      } else if r.roll < 0.28 {
        sent := sent + [Chat(r.line)];
      } else {
        ghost var before := sent;
        ghost var stop: seq<Out> := if dancing then [Dance(STOP)] else [];
        if dancing {
          sent := sent + [Dance(STOP)];
          dancing := false;
        }
        var (x, y) := PATROL_WAYPOINTS[wpIdx % |PATROL_WAYPOINTS|];
        sent := sent + [MoveAvatar(x, y)];
        assert (x, y) == Waypoint(wpIdx);
        assert sent == before + (stop + [MoveAvatar(x, y)]);
        wpIdx := wpIdx + 1;
      }
    }
    assert rolls[..|rolls|] == rolls;
  }

  lemma AmbientRunStep(rolls: seq<Roll>, i: nat)
    requires i < |rolls|
    ensures AmbientRun(rolls[..i + 1])
      == (AmbientStep(AmbientRun(rolls[..i]).0, rolls[i]).0,
          AmbientRun(rolls[..i]).1 + AmbientStep(AmbientRun(rolls[..i]).0, rolls[i]).1)
  {
    assert rolls[..i + 1][..i] == rolls[..i];
  }

  // ---- properties ----

  /** The walk targets among the commands, in order. */
  function Targets(outs: seq<Out>): seq<(int32, int32)>
  {
    if outs == [] then []
    else
      var last := outs[|outs| - 1];
      Targets(outs[..|outs| - 1]) + (if last.MoveAvatar? then [(last.x, last.y)] else [])
  }

  lemma {:induction false} TargetsAppend(a: seq<Out>, b: seq<Out>)
    ensures Targets(a + b) == Targets(a) + Targets(b)
    decreases |b|
  {
    if b == [] {
      assert a + b == a;
    } else {
      var init := b[..|b| - 1];
      TargetsAppend(a, init);
      assert (a + b)[..|a + b| - 1] == a + init;
    }
  }

  lemma TargetsSingle(o: Out)
    ensures Targets([o]) == if o.MoveAvatar? then [(o.x, o.y)] else []
  {
    assert [o][..0] == [];
  }

  /** How many rounds were patrols. */
  function Patrols(rolls: seq<Roll>): nat
  {
    if rolls == [] then 0 else Patrols(rolls[..|rolls| - 1]) + (if rolls[|rolls| - 1].roll >= 0.28 then 1 else 0)
  }

  /** The patrol index counts the patrols, the bot is never left dancing
      between rounds, and the n-th patrol walks to waypoint n mod 7: the
      waypoints are visited in order, cyclically. */
  lemma {:induction false} PatrolCycles(rolls: seq<Roll>)
    ensures var (s, outs) := AmbientRun(rolls);
      && s.wpIdx == Patrols(rolls) && !s.dancing
      && |Targets(outs)| == Patrols(rolls)
      && forall k :: 0 <= k < |Targets(outs)| ==> Targets(outs)[k] == Waypoint(k)
  {
    if rolls != [] {
      var init := rolls[..|rolls| - 1];
      var r := rolls[|rolls| - 1];
      PatrolCycles(init);
      var (s, outs) := AmbientRun(init);
      var (s2, more) := AmbientStep(s, r);
      TargetsAppend(outs, more);
      if r.roll < 0.12 {
        assert more == [Dance(r.style)] + [Dance(STOP)];
        TargetsAppend([Dance(r.style)], [Dance(STOP)]);
        TargetsSingle(Dance(r.style));
        TargetsSingle(Dance(STOP));
      } else if r.roll < 0.20 {
        TargetsSingle(Expression(WAVE));
      } else if r.roll < 0.28 {
        TargetsSingle(Chat(r.line));
      } else {
        var (x, y) := Waypoint(s.wpIdx);
        assert more == [MoveAvatar(x, y)];
        TargetsSingle(MoveAvatar(x, y));
      }
    }
  }

  /** Since every dance is stopped within its round, a patrol never has to
      send the extra DANCE(0). */
  lemma PatrolNeverStopsDance(rolls: seq<Roll>, r: Roll)
    requires r.roll >= 0.28
    ensures var s := AmbientRun(rolls).0;
      AmbientStep(s, r).1 == [MoveAvatar(Waypoint(s.wpIdx).0, Waypoint(s.wpIdx).1)]
  {
    PatrolCycles(rolls);
  }
}
