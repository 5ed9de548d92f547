/** The builder bot ("dude"): after entering the room it works through a
    build plan, walking to each spot, commenting where the plan says so and
    placing the item, until the plan is done or five minutes have passed;
    then it reports how many items it placed, dances and signs off. The
    clock readings are parameters; the sleeps and idle drains are not
    modelled. */
module Builder {
  import opened Codec
  import opened Outbound
  import opened Text
  import opened Session

  const ROOM_ID: int32 := 206
  const DURATION: real := 300.0
  const ANNOUNCEMENT: string := "alright, time to upgrade this club!"
  const SIGN_OFF: string := "aight im out, enjoy the new club!"

  /** One entry of the build plan: the inventory item and its type, where
      it goes and which way it faces, where to walk first (if anywhere) and
      the commentary ("" for none). */
  datatype PlanStep = PlanStep(itemId: int, typeId: int, x: int, y: int, rot: int,
                               walk: Option<(int32, int32)>, comment: string)

  /** The PLACE_OBJECT text: item id, x, y and rotation, space-separated. */
  function Placement(s: PlanStep): string
  {
    Join([Decimal(s.itemId), Decimal(s.x), Decimal(s.y), Decimal(s.rot)])
  }

  /** What one plan step sends: the walk, the comment, the placement. */
  function StepOuts(s: PlanStep): seq<Out>
  {
    (if s.walk.Some? then [MoveAvatar(s.walk.value.0, s.walk.value.1)] else [])
    + (if s.comment != "" then [Chat(s.comment)] else [])
    + [PlaceObject(Placement(s))]
  }

  /** What the steps send, in order. */
  function BuildOuts(steps: seq<PlanStep>): seq<Out>
  {
    if steps == [] then [] else BuildOuts(steps[..|steps| - 1]) + StepOuts(steps[|steps| - 1])
  }

  /** The build loop. elapsed(i) is the time since start read before step
      i; the loop stops at the first step read at or after DURATION, and
      `placed` counts the steps carried out. */
  method RunBuildPlan(plan: seq<PlanStep>, elapsed: nat -> real) returns (sent: seq<Out>, placed: nat)
    ensures placed <= |plan|
    ensures InTime(elapsed, placed)
    ensures placed < |plan| ==> elapsed(placed) >= DURATION
    ensures sent == BuildOuts(plan[..placed])
  {
    sent, placed := [], 0;
    while placed < |plan|
      invariant placed <= |plan|
      invariant InTime(elapsed, placed)
      invariant sent == BuildOuts(plan[..placed])
    {
      if elapsed(placed) >= DURATION {
        break;
      }
      InTimeStep(elapsed, placed);
      BuildOutsStep(plan, placed);
      var outs := CarryOut(plan[placed]);
      sent := sent + outs;
      placed := placed + 1;
    }
  }

  /** One step of the loop body: walk, comment, place. */
  method CarryOut(s: PlanStep) returns (outs: seq<Out>)
    ensures outs == StepOuts(s)
  {
    outs := [];
    if s.walk.Some? {
      outs := outs + [MoveAvatar(s.walk.value.0, s.walk.value.1)];
    }
    if s.comment != "" {
      outs := outs + [Chat(s.comment)];
    }
    var placeStr := Placement(s);
    outs := outs + [PlaceObject(placeStr)];
  }

  /** Every clock reading before step n was under DURATION. */
  predicate InTime(elapsed: nat -> real, n: nat)
  {
    forall k: nat :: k < n ==> elapsed(k) < DURATION
  }

  lemma InTimeStep(elapsed: nat -> real, n: nat)
    requires InTime(elapsed, n) && elapsed(n) < DURATION
    ensures InTime(elapsed, n + 1)
  {
  }

  lemma BuildOutsStep(plan: seq<PlanStep>, i: nat)
    requires i < |plan|
    ensures BuildOuts(plan[..i + 1]) == BuildOuts(plan[..i]) + StepOuts(plan[i])
  {
    assert plan[..i + 1][..i] == plan[..i];
  }

  /** Python's int() of a float: truncation toward zero. */
  function Trunc(e: real): int
  {
    if e >= 0.0 then e.Floor else -((-e).Floor)
  }

  /** The report shout, "done! placed <n> items in <t>s. club upgraded!",
      written as its words joined by single spaces. */
  function Report(placed: nat, elapsed: real): string
  {
    Join(["done!", "placed", Decimal(placed), "items", "in", Decimal(Trunc(elapsed)) + "s.", "club", "upgraded!"])
  }

  /** After the plan: the report, a dance started and stopped, the
      sign-off. */
  function Finale(placed: nat, elapsed: real): seq<Out>
  {
    [Shout(Report(placed, elapsed)), Dance(2), Dance(STOP), Chat(SIGN_OFF)]
  }

  /** Everything the builder sends, from the handshake to the sign-off. */
  method RunBot(ticket: string, login: seq<Inbound>, d1: seq<Inbound>, d2: seq<Inbound>, d3: seq<Inbound>,
                plan: seq<PlanStep>, elapsed: nat -> real, finish: real)
    returns (sent: seq<Out>, placed: nat)
    ensures !Authenticated(Collected(login)) ==> sent == EntrySends(ticket, ROOM_ID, ANNOUNCEMENT, login, d1, d2, d3) && placed == 0
    ensures Authenticated(Collected(login)) ==>
      && placed <= |plan|
      && InTime(elapsed, placed)
      && (placed < |plan| ==> elapsed(placed) >= DURATION)
      && sent == EntrySends(ticket, ROOM_ID, ANNOUNCEMENT, login, d1, d2, d3)
                 + BuildOuts(plan[..placed]) + Finale(placed, finish)
  {
    var entered;
    sent, entered := EnterRoom(ticket, ROOM_ID, ANNOUNCEMENT, login, d1, d2, d3);
    placed := 0;
    if !entered {
      return;
    }
    var built;
    built, placed := RunBuildPlan(plan, elapsed);
    sent := sent + built + Finale(placed, finish);
  }

  // ---- properties ----

  /** The placement texts among the commands, in order. */
  function Placed(outs: seq<Out>): seq<string>
  {
    if outs == [] then []
    else
      var last := outs[|outs| - 1];
      Placed(outs[..|outs| - 1]) + (if last.PlaceObject? then [last.placement] else [])
  }

  lemma {:induction false} PlacedAppend(a: seq<Out>, b: seq<Out>)
    ensures Placed(a + b) == Placed(a) + Placed(b)
    decreases |b|
  {
    if b == [] {
      assert a + b == a;
    } else {
      PlacedAppend(a, b[..|b| - 1]);
      assert (a + b)[..|a + b| - 1] == a + b[..|b| - 1];
    }
  }

  lemma PlacedSingle(o: Out)
    ensures Placed([o]) == if o.PlaceObject? then [o.placement] else []
  {
    assert [o][..0] == [];
  }

  /** Each step places exactly its own item, once. */
  lemma PlacedStep(s: PlanStep)
    ensures Placed(StepOuts(s)) == [Placement(s)]
  {
    var walk: seq<Out> := if s.walk.Some? then [MoveAvatar(s.walk.value.0, s.walk.value.1)] else [];
    var say: seq<Out> := if s.comment != "" then [Chat(s.comment)] else [];
    PlacedAppend(walk + say, [PlaceObject(Placement(s))]);
    PlacedAppend(walk, say);
    PlacedSingle(PlaceObject(Placement(s)));
    if s.walk.Some? {
      PlacedSingle(MoveAvatar(s.walk.value.0, s.walk.value.1));
    }
    if s.comment != "" {
      PlacedSingle(Chat(s.comment));
    }
  }

  /** The placement texts of the steps, in plan order. */
  function Placements(steps: seq<PlanStep>): (ps: seq<string>)
    ensures |ps| == |steps|
  {
    if steps == [] then [] else Placements(steps[..|steps| - 1]) + [Placement(steps[|steps| - 1])]
  }

  /** The items are placed in plan order, one PLACE_OBJECT per step and no
      other. */
  lemma {:induction false} PlacementsInOrder(steps: seq<PlanStep>)
    ensures Placed(BuildOuts(steps)) == Placements(steps)
  {
    if steps != [] {
      var init := steps[..|steps| - 1];
      var last := steps[|steps| - 1];
      PlacementsInOrder(init);
      PlacedAppend(BuildOuts(init), StepOuts(last));
      PlacedStep(last);
    }
  }

  /** Numbers with at most nine digits. */
  const LIMIT: int := 1_000_000_000

  /** The numbers of a step are short enough for the placement text to be
      sent. */
  predicate InRange(s: PlanStep)
  {
    -LIMIT < s.itemId < LIMIT && -LIMIT < s.x < LIMIT && -LIMIT < s.y < LIMIT && -LIMIT < s.rot < LIMIT
  }

  lemma DecimalLength(n: int)
    requires -LIMIT < n < LIMIT
    ensures |Decimal(n)| <= 10
  {
    assert Pow10(9) == LIMIT;
    DigitsLength(if n < 0 then -n else n, 9);
  }

  /** The placement text splits into four numbers that read back as the
      item id, x, y and rotation. */
  lemma PlacementWords(s: PlanStep)
    ensures var ws := Words(Placement(s));
      && |ws| == 4
      && ParseInt(ws[0]) == Some(s.itemId) && ParseInt(ws[1]) == Some(s.x)
      && ParseInt(ws[2]) == Some(s.y) && ParseInt(ws[3]) == Some(s.rot)
  {
    DecimalChars(s.itemId);
    DecimalChars(s.x);
    DecimalChars(s.y);
    DecimalChars(s.rot);
    WordsJoin([Decimal(s.itemId), Decimal(s.x), Decimal(s.y), Decimal(s.rot)]);
    ParseIntDecimal(s.itemId);
    ParseIntDecimal(s.x);
    ParseIntDecimal(s.y);
    ParseIntDecimal(s.rot);
  }

  /** The placement text is ASCII, at most 44 characters long. */
  lemma PlacementShort(s: PlanStep)
    requires InRange(s)
    ensures IsAscii(Placement(s)) && |Placement(s)| <= 44
  {
    DecimalChars(s.itemId);
    DecimalChars(s.x);
    DecimalChars(s.y);
    DecimalChars(s.rot);
    DecimalLength(s.itemId);
    DecimalLength(s.x);
    DecimalLength(s.y);
    DecimalLength(s.rot);
    JoinBound([Decimal(s.itemId), Decimal(s.x), Decimal(s.y), Decimal(s.rot)], 10);
  }

  /** The PLACE_OBJECT frame is sent and the server reads the placement
      text back from it as written; with PlacementWords, the server gets
      the step's item id, x, y and rotation. */
  lemma PlacementReadBack(s: PlanStep)
    requires InRange(s)
    ensures Encode(PlaceObject(Placement(s))).Some?
    ensures DecodeOut(Encode(PlaceObject(Placement(s))).value) == Some(PlaceObject(Placement(s)))
  {
    var p := Placement(s);
    PlacementShort(s);
    AsciiRoundTrip(p);
    ShortTextEncodes(PlaceObject(p));
    DecodeEncode(PlaceObject(p));
  }

  /** The report shout's third word reads back as the number of items
      placed. */
  lemma ReportCount(placed: nat, elapsed: real)
    ensures var ws := Words(Report(placed, elapsed));
      |ws| == 8 && ParseInt(ws[2]) == Some(placed)
  {
    DecimalChars(placed);
    var t := Decimal(Trunc(elapsed));
    DecimalChars(Trunc(elapsed));
    assert NoSpace(t + "s.") by {
      assert forall i :: |t| <= i < |t + "s."| ==> (t + "s.")[i] in "s.";
    }
    WordsJoin(["done!", "placed", Decimal(placed), "items", "in", t + "s.", "club", "upgraded!"]);
    ParseIntDecimal(placed);
  }
}
