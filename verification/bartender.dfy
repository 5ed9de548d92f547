/** The bartender bot ("joejoegopro"): after entering the room it walks
    its route round and round. At each stop it stops dancing unless the
    stop is a dance stop, walks there, waves, starts dancing, or holds up a
    sign as the stop says, and shouts a hype line at the hype stops. The
    random draws are a parameter, the number of rounds bounds the endless
    patrol, and the waits are computed but not performed. */
module Bartender {
  import opened Codec
  import opened Outbound
  import opened Session

  const ROOM_ID: int32 := 206
  const ANNOUNCEMENT: string := "yo! bartender's here!"

  datatype Action = Walk | Wave | DanceAct | SignAct

  /** A stop of the route: where, whether to shout a hype line, what to
      do there and how long to stay (in seconds). */
  datatype RouteStep = RouteStep(x: int32, y: int32, hype: bool, action: Action, pause: int)

  /** Bar, DJ booth, dance floor, fountain, jukebox and back to the bar. */
  const ROUTE: seq<RouteStep> := [
    RouteStep(9, 21, false, Walk, 3), RouteStep(9, 22, false, Wave, 4),
    RouteStep(10, 21, true, Walk, 3), RouteStep(8, 22, false, Walk, 2),
    RouteStep(8, 14, false, Walk, 3), RouteStep(10, 8, false, Walk, 3),
    RouteStep(11, 4, false, Walk, 3), RouteStep(11, 3, true, DanceAct, 8),
    RouteStep(10, 9, false, DanceAct, 6), RouteStep(9, 8, false, Walk, 2),
    RouteStep(12, 9, true, SignAct, 5), RouteStep(10, 14, false, Walk, 3),
    RouteStep(10, 17, false, Wave, 5), RouteStep(13, 19, false, Walk, 3),
    RouteStep(13, 21, false, Wave, 4), RouteStep(10, 22, true, Walk, 3)
  ]

  /** The draws of one stop: randint(1, 4) for a dance, randint(0, 10) for
      a sign, and the hype line chosen. */
  datatype StepRoll = StepRoll(style: int32, sign: int32, line: string)

  /** The DANCE(0) sent on arriving at a stop while dancing, unless the
      stop is a dance stop. */
  function StopPart(step: RouteStep, dancing: bool): seq<Out>
  {
    if dancing && step.action != DanceAct then [Dance(STOP)] else []
  }

  /** The command of the stop's action; `dancing` is the flag after the
      stop part. A dance stop starts a dance only when not dancing. */
  function ActPart(step: RouteStep, dancing: bool, r: StepRoll): seq<Out>
  {
    match step.action
    case Walk => []
    case Wave => [Expression(WAVE)]
    case DanceAct => if dancing then [] else [Dance(r.style)]
    case SignAct => [Sign(r.sign)]
  }

  function HypePart(step: RouteStep, r: StepRoll): seq<Out>
  {
    if step.hype then [Shout(r.line)] else []
  }

  /** One stop: what is sent, in order, and the dancing flag after it. */
  function StepOuts(step: RouteStep, dancing: bool, r: StepRoll): (seq<Out>, bool)
  {
    var d := dancing && step.action == DanceAct;
    (StopPart(step, dancing) + [MoveAvatar(step.x, step.y)] + ActPart(step, d, r) + HypePart(step, r),
     step.action == DanceAct)
  }

  /** The seconds waited at a stop: a second after stopping a dance,
      min(pause, 3) to arrive, and the rest of the pause after acting. */
  function StepWait(step: RouteStep, dancing: bool): int
  {
    var settle := if dancing && step.action != DanceAct then 1 else 0;
    var arrive := if step.pause < 3 then step.pause else 3;
    var rest := if step.pause - 3 > 0 then step.pause - 3 else 0;
    settle + arrive + rest
  }

  datatype PatrolState = PatrolState(dancing: bool, pos: nat)

  /** The first n stops of the endless patrol, from the start of the route
      and not dancing: the state after them and everything sent. Stop k
      uses the draws rolls(k). */
  function Run(route: seq<RouteStep>, n: nat, rolls: nat -> StepRoll): (r: (PatrolState, seq<Out>))
    ensures route != [] ==> r.0.pos < |route|
  {
    if n == 0 || route == [] then (PatrolState(false, 0), [])
    else
      var (st, outs) := Run(route, n - 1, rolls);
      var (more, d) := StepOuts(route[st.pos], st.dancing, rolls(n - 1));
      (PatrolState(d, if st.pos + 1 == |route| then 0 else st.pos + 1), outs + more)
  }

  /** The body of the route loop for one stop. */
  method Visit(step: RouteStep, dancing0: bool, r: StepRoll) returns (outs: seq<Out>, dancing: bool)
    ensures outs == StepOuts(step, dancing0, r).0
    ensures dancing == StepOuts(step, dancing0, r).1
  {
    outs, dancing := [], dancing0;
    if dancing && step.action != DanceAct {
      outs := outs + [Dance(STOP)];
      dancing := false;
    }
    outs := outs + [MoveAvatar(step.x, step.y)];
    ghost var walked := outs;
    assert walked == StopPart(step, dancing0) + [MoveAvatar(step.x, step.y)];
    match step.action {
      case Wave =>
        outs := outs + [Expression(WAVE)];
      case DanceAct =>
        if !dancing {
          outs := outs + [Dance(r.style)];
          dancing := true;
        }
      case SignAct =>
        outs := outs + [Sign(r.sign)];
      case Walk =>
    }
    assert outs == walked + ActPart(step, dancing0 && step.action == DanceAct, r);
    ghost var acted := outs;
    if step.hype {
      outs := outs + [Shout(r.line)];
    }
    assert outs == acted + HypePart(step, r);
  }

  /** The patrol loop, for the given number of rounds of the route. */
  method Patrol(route: seq<RouteStep>, rounds: nat, rolls: nat -> StepRoll) returns (sent: seq<Out>, loopCount: nat)
    ensures loopCount == rounds
    ensures sent == Run(route, rounds * |route|, rolls).1
  {
    sent, loopCount := [], 0;
    var dancing := false;
    var k: nat := 0;  // the stops visited, which index the draws
    while loopCount < rounds
      invariant loopCount <= rounds
      invariant k == loopCount * |route|
      invariant At(route, k, rolls, PatrolState(dancing, 0), sent)
    {
      sent, dancing, k := Round(route, dancing, k, rolls, sent);
      assert loopCount * |route| + |route| == (loopCount + 1) * |route|;
      loopCount := loopCount + 1;
    }
  }

  /** After the first n stops the patrol is in state st and has sent
      `sent`. */
  predicate At(route: seq<RouteStep>, n: nat, rolls: nat -> StepRoll, st: PatrolState, sent: seq<Out>)
  {
    Run(route, n, rolls) == (st, sent)
  }

  /** The route position after the first j stops of a round: j, or back
      to 0 once the round is complete. */
  function Pos(route: seq<RouteStep>, j: nat): nat
  {
    if j == |route| then 0 else j
  }

  /** One round of the route loop, from stop k0 at the start of the
      route; `sent` extends what was sent before, sent0. */
  method Round(route: seq<RouteStep>, dancing0: bool, k0: nat, rolls: nat -> StepRoll, sent0: seq<Out>)
    returns (sent: seq<Out>, dancing: bool, k: nat)
    requires At(route, k0, rolls, PatrolState(dancing0, 0), sent0)
    ensures k == k0 + |route|
    ensures At(route, k, rolls, PatrolState(dancing, 0), sent)
  {
    sent, dancing, k := sent0, dancing0, k0;
    for j := 0 to |route|
      invariant k == k0 + j
      invariant At(route, k, rolls, PatrolState(dancing, Pos(route, j)), sent)
    {
      var more;
      more, dancing := VisitAt(route, k, j, dancing, rolls, sent);
      sent := sent + more;
      k := k + 1;
    }
  }

  /** The visit of stop n of the patrol, at route position j. */
  method VisitAt(route: seq<RouteStep>, n: nat, j: nat, dancing0: bool, rolls: nat -> StepRoll, ghost before: seq<Out>)
    returns (more: seq<Out>, dancing: bool)
    requires j < |route| && At(route, n, rolls, PatrolState(dancing0, j), before)
    ensures At(route, n + 1, rolls, PatrolState(dancing, Pos(route, j + 1)), before + more)
  {
    RunStepAt(route, n + 1, rolls, dancing0, j);
    more, dancing := Visit(route[j], dancing0, rolls(n));
  }

  /** Stop n of the patrol, from the state after the stops before it. */
  lemma RunStepAt(route: seq<RouteStep>, n: nat, rolls: nat -> StepRoll, dancing: bool, j: nat)
    requires n > 0 && j < |route| && Run(route, n - 1, rolls).0 == PatrolState(dancing, j)
    ensures Run(route, n, rolls).0
      == PatrolState(StepOuts(route[j], dancing, rolls(n - 1)).1, if j + 1 == |route| then 0 else j + 1)
    ensures Run(route, n, rolls).1 == Run(route, n - 1, rolls).1 + StepOuts(route[j], dancing, rolls(n - 1)).0
  {
  }

  lemma RunStep(route: seq<RouteStep>, n: nat, rolls: nat -> StepRoll)
    requires route != []
    ensures var (st, outs) := Run(route, n, rolls);
      var (more, d) := StepOuts(route[st.pos], st.dancing, rolls(n));
      Run(route, n + 1, rolls) == (PatrolState(d, if st.pos + 1 == |route| then 0 else st.pos + 1), outs + more)
  {
  }

  /** Everything the bartender sends, from the handshake through the given
      number of patrol rounds. */
  method RunBot(ticket: string, login: seq<Inbound>, d1: seq<Inbound>, d2: seq<Inbound>, d3: seq<Inbound>,
                rounds: nat, rolls: nat -> StepRoll)
    returns (sent: seq<Out>)
    ensures !Authenticated(Collected(login)) ==> sent == EntrySends(ticket, ROOM_ID, ANNOUNCEMENT, login, d1, d2, d3)
    ensures Authenticated(Collected(login)) ==>
      sent == EntrySends(ticket, ROOM_ID, ANNOUNCEMENT, login, d1, d2, d3) + Run(ROUTE, rounds * |ROUTE|, rolls).1
  {
    var entered;
    sent, entered := EnterRoom(ticket, ROOM_ID, ANNOUNCEMENT, login, d1, d2, d3);
    if !entered {
      return;
    }
    var patrol, _ := Patrol(ROUTE, rounds, rolls);
    sent := sent + patrol;
  }

  // ---- properties ----

  /** Whether the commands leave the bot dancing: the last DANCE sent had
      a non-zero style. */
  function DanceState(outs: seq<Out>): bool
  {
    if outs == [] then false
    else
      var last := outs[|outs| - 1];
      if last.Dance? then last.style != STOP else DanceState(outs[..|outs| - 1])
  }

  /** Appending at most one command changes the dance state only when it
      is a DANCE. */
  lemma DanceStateShort(a: seq<Out>, p: seq<Out>)
    requires |p| <= 1
    ensures DanceState(a + p) == if p != [] && p[0].Dance? then p[0].style != STOP else DanceState(a)
  {
    if p == [] {
      assert a + p == a;
    } else {
      assert (a + p)[..|a|] == a;
    }
  }

  predicate StartsDance(outs: seq<Out>)
  {
    exists i :: 0 <= i < |outs| && outs[i].Dance? && outs[i].style != STOP
  }

  predicate HasShout(outs: seq<Out>)
  {
    exists i :: 0 <= i < |outs| && outs[i].Shout?
  }

  /** Where the walk of a stop sits among its commands: after the
      DANCE(0) that stops a dance when the bot is dancing at a stop that is
      not a dance stop, first otherwise; it goes to the stop's position and
      is the stop's only walk. */
  lemma StepWalk(step: RouteStep, dancing: bool, r: StepRoll)
    ensures var outs := StepOuts(step, dancing, r).0;
      var w := if dancing && step.action != DanceAct then 1 else 0;
      && (w == 1 ==> outs[0] == Dance(STOP))
      && w < |outs| && outs[w] == MoveAvatar(step.x, step.y)
      && (forall i :: 0 <= i < |outs| && i != w ==> !outs[i].MoveAvatar?)
  {
    var outs := StepOuts(step, dancing, r).0;
    var sp, ap := StopPart(step, dancing), ActPart(step, dancing && step.action == DanceAct, r);
    var hp := HypePart(step, r);
    var tail: seq<Out> := ap + hp;
    assert outs == sp + [MoveAvatar(step.x, step.y)] + tail;
    assert forall i :: 0 <= i < |tail| ==> !tail[i].MoveAvatar?;
  }

  /** What a stop does besides walking, for draws that follow
      randint(1, 4): a dance is started exactly at a dance stop reached
      while not dancing, so consecutive dance stops start one dance; a
      hype line is shouted exactly at the hype stops, last; a wave stop
      waves and a sign stop holds up the drawn sign; and the bot is
      dancing afterwards exactly when the stop is a dance stop. */
  lemma StepActs(step: RouteStep, dancing: bool, r: StepRoll)
    requires r.style != STOP
    ensures var (outs, after) := StepOuts(step, dancing, r);
      && (StartsDance(outs) <==> step.action == DanceAct && !dancing)
      && (HasShout(outs) <==> step.hype)
      && (step.hype ==> outs[|outs| - 1] == Shout(r.line))
      && (step.action == Wave ==> Expression(WAVE) in outs)
      && (step.action == SignAct ==> Sign(r.sign) in outs)
      && after == (step.action == DanceAct)
  {
    var (outs, after) := StepOuts(step, dancing, r);
    var d := dancing && step.action == DanceAct;
    var sp, ap, hp := StopPart(step, dancing), ActPart(step, d, r), HypePart(step, r);
    var head := sp + [MoveAvatar(step.x, step.y)];
    assert outs == head + ap + hp;
    assert forall i :: 0 <= i < |head| ==> !head[i].Shout? && (head[i].Dance? ==> head[i].style == STOP);
    assert forall i :: 0 <= i < |outs| ==>
      outs[i] == (if i < |head| then head[i] else if i < |head| + |ap| then ap[i - |head|] else hp[i - |head| - |ap|]);
    if StartsDance(outs) {
      var i :| 0 <= i < |outs| && outs[i].Dance? && outs[i].style != STOP;
    }
    if step.action == DanceAct && !dancing {
      assert outs[|head|] == Dance(r.style);
    }
    if HasShout(outs) {
      var i :| 0 <= i < |outs| && outs[i].Shout?;
    }
    if step.hype {
      assert outs[|outs| - 1] == Shout(r.line);
    }
    if step.action == Wave {
      assert outs[|head|] == Expression(WAVE);
    }
    if step.action == SignAct {
      assert outs[|head|] == Sign(r.sign);
    }
  }

  /** After a stop, the commands leave the bot dancing exactly when the
      flag says so. */
  lemma StepDanceAfter(before: seq<Out>, step: RouteStep, dancing: bool, r: StepRoll)
    requires DanceState(before) == dancing && r.style != STOP
    ensures DanceState(before + StepOuts(step, dancing, r).0) == StepOuts(step, dancing, r).1
  {
    var sp, ap := StopPart(step, dancing), ActPart(step, dancing && step.action == DanceAct, r);
    var hp := HypePart(step, r);
    var m := MoveAvatar(step.x, step.y);
    DanceStateShort(before, sp);
    DanceStateShort(before + sp, [m]);
    DanceStateShort(before + sp + [m], ap);
    DanceStateShort(before + sp + [m] + ap, hp);
    Regroup(before, sp, [m], ap, hp);
  }

  /** The walk of a stop is sent while not dancing unless the stop is a
      dance stop. */
  lemma StepWalkStill(before: seq<Out>, step: RouteStep, dancing: bool, r: StepRoll)
    requires DanceState(before) == dancing
    ensures var outs := StepOuts(step, dancing, r).0;
      var w := |StopPart(step, dancing)|;
      && outs[w] == MoveAvatar(step.x, step.y)
      && (step.action != DanceAct ==> !DanceState(before + outs[..w]))
  {
    var outs := StepOuts(step, dancing, r).0;
    var sp := StopPart(step, dancing);
    DanceStateShort(before, sp);
    assert outs[..|sp|] == sp;
  }

  lemma Regroup(a: seq<Out>, b: seq<Out>, c: seq<Out>, d: seq<Out>, e: seq<Out>)
    ensures a + (b + c + d + e) == a + b + c + d + e
  {
  }

  /** The dancing flag agrees with the commands sent: after any number of
      stops, the last DANCE sent started a dance exactly when the flag is
      set. */
  lemma {:induction false} FlagMatchesCommands(route: seq<RouteStep>, n: nat, rolls: nat -> StepRoll)
    requires forall k: nat :: rolls(k).style != STOP
    ensures FlagAgrees(route, n, rolls)
  {
    if n > 0 && route != [] {
      FlagMatchesCommands(route, n - 1, rolls);
      FlagStep(route, n, rolls);
    }
  }

  /** The last DANCE among the first n stops' commands started a dance
      exactly when the dancing flag is set after them. */
  predicate FlagAgrees(route: seq<RouteStep>, n: nat, rolls: nat -> StepRoll)
  {
    DanceState(Run(route, n, rolls).1) == Run(route, n, rolls).0.dancing
  }

  lemma FlagStep(route: seq<RouteStep>, n: nat, rolls: nat -> StepRoll)
    requires route != [] && n > 0 && rolls(n - 1).style != STOP && FlagAgrees(route, n - 1, rolls)
    ensures FlagAgrees(route, n, rolls)
  {
    var (st, outs) := Run(route, n - 1, rolls);
    RunStepAt(route, n, rolls, st.dancing, st.pos);
    StepDanceAfter(outs, route[st.pos], st.dancing, rolls(n - 1));
  }

  /** The bot never walks while dancing, except towards a dance stop: at
      every stop of the patrol, the commands sent before its walk leave the
      bot not dancing. */
  lemma WalkNotDancing(route: seq<RouteStep>, n: nat, rolls: nat -> StepRoll)
    requires route != []
    requires forall k: nat :: rolls(k).style != STOP
    ensures var (st, outs) := Run(route, n, rolls);
      var step := route[st.pos];
      var more := StepOuts(step, st.dancing, rolls(n)).0;
      var w := |StopPart(step, st.dancing)|;
      more[w] == MoveAvatar(step.x, step.y)
      && (step.action != DanceAct ==> !DanceState(outs + more[..w]))
  {
    FlagMatchesCommands(route, n, rolls);
    var (st, outs) := Run(route, n, rolls);
    StepWalkStill(outs, route[st.pos], st.dancing, rolls(n));
  }

  /** The route is walked in order, round and round: stop n = q * |route|
      + p of the patrol is at route position p. */
  lemma {:induction false} RouteCycles(route: seq<RouteStep>, n: nat, q: nat, p: nat, rolls: nat -> StepRoll)
    requires p < |route| && n == q * |route| + p
    ensures Run(route, n, rolls).0.pos == p
    decreases n
  {
    if p > 0 {
      RouteCycles(route, n - 1, q, p - 1, rolls);
      RunPos(route, n - 1, rolls);
    } else if q > 0 {
      assert (q - 1) * |route| == q * |route| - |route|;
      RouteCycles(route, n - 1, q - 1, |route| - 1, rolls);
      RunPos(route, n - 1, rolls);
    }
  }

  lemma RunPos(route: seq<RouteStep>, n: nat, rolls: nat -> StepRoll)
    requires route != []
    ensures var p := Run(route, n, rolls).0.pos;
      Run(route, n + 1, rolls).0.pos == if p + 1 == |route| then 0 else p + 1
  {
  }

  /** Every stop is waited at for its whole pause, plus a second when a
      dance had to be stopped first. */
  lemma StepWaitTotal(step: RouteStep, dancing: bool)
    requires step.pause >= 0
    ensures StepWait(step, dancing) == step.pause + (if dancing && step.action != DanceAct then 1 else 0)
  {
  }

  /** The route ends at a stop that is not a dance stop, so each round of
      the patrol starts with the bot not dancing. */
  lemma RoundStartsStill(rounds: nat, rolls: nat -> StepRoll)
    ensures !Run(ROUTE, rounds * |ROUTE|, rolls).0.dancing
  {
    if rounds > 0 {
      var n := rounds * |ROUTE|;
      assert (rounds - 1) * |ROUTE| == n - |ROUTE|;
      RouteCycles(ROUTE, n - 1, rounds - 1, |ROUTE| - 1, rolls);
      RunStep(ROUTE, n - 1, rolls);
    }
  }
}
