/** The occupant table, room_users: room-unit id to the occupant's name,
    user id and tile. Three inbound packets change it:
    - ROOM_USERS (parse_room_users) inserts or overwrites the records it
      decodes;
    - USER_UPDATE (parse_user_update) moves occupants already present;
    - USER_REMOVE (the departure branch of the listener) drops one id.
    All three are best-effort. Decoding stops at the first field that does
    not fit, and what was applied before the failure stays applied.

    Each packet's decoding is given as a function on the payload. The
    class's methods make the change in place through a PayloadReader and
    are proved to leave the table as those functions say. */
module Tracker {
  import opened Codec
  import opened Reader
  import Text

  /** One entry of room_users. */
  datatype Occupant = Occupant(username: string, userId: int32, x: int32, y: int32)

  /** The eleven fixed fields of one ROOM_USERS record, in wire order. */
  datatype RoomUser = RoomUser(
    userId: int32, username: string, motto: string, figure: string,
    unitId: int32, x: int32, y: int32, z: string,
    bodyDir: int32, headDir: int32, userType: string)

  /** The wire layout of the fixed fields: user id, username, motto,
      figure, room-unit id, x, y, height string, body and head direction,
      user type. */
  const RoomUserLayout: seq<Kind> := [IntField, StringField, StringField, StringField,
    IntField, IntField, IntField, StringField, IntField, IntField, StringField]

  /** The type-specific fields after a "legacy" record: gender, group id,
      group status, group name, swim figure, achievement score, moderator
      flag. */
  const LegacyTrailer: seq<Kind> := [StringField, IntField, IntField, StringField, StringField, IntField, BoolField]

  /** The fields after a "bot" record: owner name, owner id. */
  const BotTrailer: seq<Kind> := [StringField, IntField]

  function ToRoomUser(vs: seq<Value>): RoomUser
    requires Conforms(vs, RoomUserLayout)
  {
    assert HasKind(vs[0], IntField) && HasKind(vs[1], StringField) && HasKind(vs[2], StringField);
    assert HasKind(vs[3], StringField) && HasKind(vs[4], IntField) && HasKind(vs[5], IntField);
    assert HasKind(vs[6], IntField) && HasKind(vs[7], StringField) && HasKind(vs[8], IntField);
    assert HasKind(vs[9], IntField) && HasKind(vs[10], StringField);
    RoomUser(vs[0].i, vs[1].s, vs[2].s, vs[3].s, vs[4].i, vs[5].i, vs[6].i, vs[7].s, vs[8].i, vs[9].i, vs[10].s)
  }

  /** The fixed fields of a record starting at p; None when one of them
      does not fit. */
  function RoomUserAt(d: seq<byte>, p: nat): (r: Option<(RoomUser, nat)>)
    requires p <= |d|
    ensures r.Some? ==> p < r.value.1 <= |d|
  {
    match FieldsAt(d, p, RoomUserLayout)
    case None => None
    case Some((vs, q)) => Some((ToRoomUser(vs), q))
  }

  /** The type-specific fields after a record: the new cursor, or None when
      one of them does not fit. Other user types have none. */
  function TrailerAt(d: seq<byte>, p: nat, userType: string): (r: Option<nat>)
    requires p <= |d|
    ensures r.Some? ==> p <= r.value <= |d|
  {
    var layout := if userType == "legacy" then LegacyTrailer else if userType == "bot" then BotTrailer else [];
    match FieldsAt(d, p, layout)
    case None => None
    case Some((_, q)) => Some(q)
  }

  /** The records parse_room_users stores, from cursor p with k records
      still to go: a record whose fixed fields fail is not stored and ends
      the parse; a record whose trailing fields fail is stored and ends it. */
  function RoomUsersFrom(d: seq<byte>, p: nat, k: nat): (us: seq<RoomUser>)
    requires p <= |d|
    ensures |us| <= k
    decreases k
  {
    if k == 0 then []
    else
      match RoomUserAt(d, p)
      case None => []
      case Some((u, q)) =>
        match TrailerAt(d, q, u.userType)
        case None => [u]
        case Some(q2) => [u] + RoomUsersFrom(d, q2, k - 1)
  }

  /** The records a ROOM_USERS payload yields: a count, then that many
      records (none when the count is negative or missing). */
  function RoomUsers(payload: seq<byte>): seq<RoomUser>
  {
    match IntAt(payload, 0)
    case None => []
    case Some((count, p)) => RoomUsersFrom(payload, p, if count < 0 then 0 else count)
  }

  /** The list parse_room_users returns: (room-unit id, username) per
      stored record, in payload order. */
  function Arrivals(us: seq<RoomUser>): (r: seq<(int32, string)>)
    ensures |r| == |us|
    ensures forall i :: 0 <= i < |us| ==> r[i] == (us[i].unitId, us[i].username)
  {
    if us == [] then [] else Arrivals(us[..|us| - 1]) + [(us[|us| - 1].unitId, us[|us| - 1].username)]
  }

  function EntryOf(u: RoomUser): Occupant
  {
    Occupant(u.username, u.userId, u.x, u.y)
  }

  function UnitIds(us: seq<RoomUser>): set<int>
  {
    set i | 0 <= i < |us| :: us[i].unitId as int
  }

  /** The table after storing the records in order, each overwriting any
      entry with its id. */
  function Store(users: map<int, Occupant>, us: seq<RoomUser>): (r: map<int, Occupant>)
    ensures r.Keys == users.Keys + UnitIds(us)
    ensures forall k :: k in users && k !in UnitIds(us) ==> r[k] == users[k]
  {
    if us == [] then users
    else
      var u := us[|us| - 1];
      var r := Store(users, us[..|us| - 1]);
      assert UnitIds(us) == UnitIds(us[..|us| - 1]) + {u.unitId as int} by {
        assert forall i :: 0 <= i < |us| - 1 ==> us[..|us| - 1][i] == us[i];
      }
      r[u.unitId := EntryOf(u)]
  }

  // ---- USER_UPDATE ----

  /** The fields of one USER_UPDATE record that the table uses. */
  datatype Movement = Movement(unitId: int32, x: int32, y: int32)

  /** One USER_UPDATE record: unit id, x, y, height string, head and body
      direction, status string. */
  const MovementLayout: seq<Kind> := [IntField, IntField, IntField, StringField, IntField, IntField, StringField]

  function MovementAt(d: seq<byte>, p: nat): (r: Option<(Movement, nat)>)
    requires p <= |d|
    ensures r.Some? ==> p < r.value.1 <= |d|
  {
    match FieldsAt(d, p, MovementLayout)
    case None => None
    case Some((vs, q)) =>
      assert HasKind(vs[0], IntField) && HasKind(vs[1], IntField) && HasKind(vs[2], IntField);
      Some((Movement(vs[0].i, vs[1].i, vs[2].i), q))
  }

  function MovementsFrom(d: seq<byte>, p: nat, k: nat): (ms: seq<Movement>)
    requires p <= |d|
    ensures |ms| <= k
    decreases k
  {
    if k == 0 then []
    else
      match MovementAt(d, p)
      case None => []
      case Some((m, q)) => [m] + MovementsFrom(d, q, k - 1)
  }

  /** The records a USER_UPDATE payload yields, up to the first that does
      not decode. */
  function Movements(payload: seq<byte>): seq<Movement>
  {
    match IntAt(payload, 0)
    case None => []
    case Some((count, p)) => MovementsFrom(payload, p, if count < 0 then 0 else count)
  }

  /** The table after one movement: a known id gets the new x and y, an
      unknown id is ignored. */
  function MoveOne(users: map<int, Occupant>, m: Movement): (r: map<int, Occupant>)
  {
    if m.unitId as int in users then users[m.unitId := users[m.unitId].(x := m.x, y := m.y)] else users
  }

  /** The table after the movements in order. */
  function Move(users: map<int, Occupant>, ms: seq<Movement>): (r: map<int, Occupant>)
  {
    if ms == [] then users else Move(MoveOne(users, ms[0]), ms[1..])
  }

  // ---- USER_REMOVE ----

  /** The id a USER_REMOVE payload names: a string field holding a decimal
      integer. None when the field does not decode or int() would raise. */
  function DepartureId(payload: seq<byte>): Option<int>
  {
    match StringAt(payload, 0)
    case None => None
    case Some((s, _)) => Text.ParseInt(s)
  }

  /** The table after a departure: the named id is removed, if present. */
  function Depart(users: map<int, Occupant>, payload: seq<byte>): (r: map<int, Occupant>)
    ensures r.Keys <= users.Keys
    ensures DepartureId(payload).Some? ==> r.Keys == users.Keys - {DepartureId(payload).value}
    ensures DepartureId(payload).None? ==> r == users
    ensures forall k :: k in r ==> r[k] == users[k]
  {
    match DepartureId(payload)
    case None => users
    case Some(id) => users - {id}
  }

  // ---- reading through a PayloadReader ----

  method ReadRoomUser(r: PayloadReader) returns (u: Option<RoomUser>)
    requires r.Valid()
    modifies r
    ensures r.Valid()
    ensures RoomUserAt(r.data, old(r.pos)).None? ==> u.None?
    ensures RoomUserAt(r.data, old(r.pos)).Some? ==>
      u == Some(RoomUserAt(r.data, old(r.pos)).value.0) && r.pos == RoomUserAt(r.data, old(r.pos)).value.1
  {
    var vs := ReadFields(r, RoomUserLayout);
    u := if vs.Some? then Some(ToRoomUser(vs.value)) else None;
  }

  method SkipTrailer(r: PayloadReader, userType: string) returns (ok: bool)
    requires r.Valid()
    modifies r
    ensures r.Valid()
    ensures ok <==> TrailerAt(r.data, old(r.pos), userType).Some?
    ensures ok ==> r.pos == TrailerAt(r.data, old(r.pos), userType).value
  {
    var layout := if userType == "legacy" then LegacyTrailer else if userType == "bot" then BotTrailer else [];
    var vs := ReadFields(r, layout);
    ok := vs.Some?;
  }

  method ReadMovement(r: PayloadReader) returns (m: Option<Movement>)
    requires r.Valid()
    modifies r
    ensures r.Valid()
    ensures MovementAt(r.data, old(r.pos)).None? ==> m.None?
    ensures MovementAt(r.data, old(r.pos)).Some? ==>
      m == Some(MovementAt(r.data, old(r.pos)).value.0) && r.pos == MovementAt(r.data, old(r.pos)).value.1
  {
    var vs := ReadFields(r, MovementLayout);
    if vs.None? {
      return None;
    }
    var v := vs.value;
    assert HasKind(v[0], IntField) && HasKind(v[1], IntField) && HasKind(v[2], IntField);
    m := Some(Movement(v[0].i, v[1].i, v[2].i));
  }

  class OccupantTable {
    var users: map<int, Occupant>

    constructor ()
      ensures users == map[]
    {
      users := map[];
    }

    /** parse_room_users: store every record that decodes, in order, and
        return (unit id, username) for each. */
    method ApplyRoomUsers(payload: seq<byte>) returns (parsed: seq<(int32, string)>)
      modifies this
      ensures parsed == Arrivals(RoomUsers(payload))
      ensures users == Store(old(users), RoomUsers(payload))
    {
      parsed := [];
      var r := new PayloadReader(payload);
      var count := r.ReadInt();
      if count.None? {
        return;
      }
      var n: int := count.value;
      ghost var left: nat := if n < 0 then 0 else n;
      ghost var all := RoomUsers(payload);
      ghost var stored: seq<RoomUser> := [];
      var i := 0;
      while i < n
        invariant r.Valid() && r.data == payload
        invariant n >= 0 ==> i + left == n
        invariant n < 0 ==> left == 0
        invariant all == stored + RoomUsersFrom(payload, r.pos, left)
        invariant users == Store(old(users), stored)
        invariant parsed == Arrivals(stored)
        decreases n - i
      {
        ghost var p := r.pos;
        var u := ReadRoomUser(r);
        if u.None? {
          RoomUsersStopAtRecord(payload, all, stored, p, left);
          return;
        }
        var user := u.value;
        ghost var q := r.pos;
        StoreAppend(old(users), stored, user);
        ArrivalsAppend(stored, user);
        users := users[user.unitId := Occupant(user.username, user.userId, user.x, user.y)];
        parsed := parsed + [(user.unitId, user.username)];
        var ok := SkipTrailer(r, user.userType);
        if !ok {
          RoomUsersStopAtTrailer(payload, all, stored, p, left, user, q);
          stored := stored + [user];
          return;
        }
        ghost var next: nat := left - 1;
        RoomUsersAdvance(payload, all, stored, p, left, user, q, r.pos, next);
        stored := stored + [user];
        left := next;
        i := i + 1;
      }
      RoomUsersEnd(payload, all, stored, r.pos);
    }

    /** parse_user_update: move every known occupant a decoded record names. */
    method ApplyUserUpdate(payload: seq<byte>)
      modifies this
      ensures users == Move(old(users), Movements(payload))
    {
      var r := new PayloadReader(payload);
      var count := r.ReadInt();
      if count.None? {
        return;
      }
      var n: int := count.value;
      ghost var left: nat := if n < 0 then 0 else n;
      ghost var final := Move(users, Movements(payload));
      var i := 0;
      while i < n
        invariant r.Valid() && r.data == payload
        invariant n >= 0 ==> i + left == n
        invariant n < 0 ==> left == 0
        invariant Move(users, MovementsFrom(payload, r.pos, left)) == final
        decreases n - i
      {
        ghost var p := r.pos;
        var m := ReadMovement(r);
        if m.None? {
          MoveStop(users, payload, p, left);
          return;
        }
        var mv := m.value;
        ghost var next: nat := left - 1;
        MoveStep(users, payload, p, left, mv, r.pos, next);
        if mv.unitId as int in users {
          users := users[mv.unitId := users[mv.unitId].(x := mv.x, y := mv.y)];
        }
        left := next;
        i := i + 1;
      }
    }

    /** The USER_REMOVE branch: read the id string, convert it with int()
        and pop that id; any failure leaves the table as it was. */
    method ApplyDeparture(payload: seq<byte>)
      modifies this
      ensures users == Depart(old(users), payload)
    {
      var r := new PayloadReader(payload);
      var s := r.ReadString();
      if s.None? {
        return;
      }
      var id := Text.ParseInt(s.value);
      if id.None? {
        return;
      }
      users := users - {id.value};
    }
  }

  // ---- one-step unfoldings used by the loops ----

  lemma MoveStop(users: map<int, Occupant>, d: seq<byte>, p: nat, left: nat)
    requires p <= |d| && left > 0
    requires MovementAt(d, p).None?
    ensures Move(users, MovementsFrom(d, p, left)) == users
  {
    assert MovementsFrom(d, p, left) == [];
  }

  lemma MoveStep(users: map<int, Occupant>, d: seq<byte>, p: nat, left: nat, m: Movement, q: nat, next: nat)
    requires p <= |d| && q <= |d| && next + 1 == left
    requires MovementAt(d, p) == Some((m, q))
    ensures Move(users, MovementsFrom(d, p, left)) == Move(MoveOne(users, m), MovementsFrom(d, q, next))
  {
    MoveUnfold(users, d, p, m, q, next);
  }

  lemma MoveUnfold(users: map<int, Occupant>, d: seq<byte>, p: nat, m: Movement, q: nat, next: nat)
    requires p <= |d| && q <= |d|
    requires MovementAt(d, p) == Some((m, q))
    ensures Move(users, MovementsFrom(d, p, next + 1)) == Move(MoveOne(users, m), MovementsFrom(d, q, next))
  {
    var rest := MovementsFrom(d, q, next);
    assert MovementsFrom(d, p, next + 1) == [m] + rest;
    assert ([m] + rest)[1..] == rest;
  }

  lemma RoomUsersStopAtRecord(d: seq<byte>, all: seq<RoomUser>, stored: seq<RoomUser>, p: nat, left: nat)
    requires p <= |d| && left > 0
    requires all == stored + RoomUsersFrom(d, p, left)
    requires RoomUserAt(d, p).None?
    ensures all == stored
  {
    assert RoomUsersFrom(d, p, left) == [];
  }

  lemma RoomUsersStopAtTrailer(d: seq<byte>, all: seq<RoomUser>, stored: seq<RoomUser>, p: nat, left: nat,
                               u: RoomUser, q: nat)
    requires p <= |d| && left > 0
    requires all == stored + RoomUsersFrom(d, p, left)
    requires RoomUserAt(d, p) == Some((u, q))
    requires TrailerAt(d, q, u.userType).None?
    ensures all == stored + [u]
  {
    assert RoomUsersFrom(d, p, left) == [u];
  }

  lemma RoomUsersAdvance(d: seq<byte>, all: seq<RoomUser>, stored: seq<RoomUser>, p: nat, left: nat,
                         u: RoomUser, q: nat, q2: nat, next: nat)
    requires p <= |d| && next + 1 == left
    requires all == stored + RoomUsersFrom(d, p, left)
    requires RoomUserAt(d, p) == Some((u, q))
    requires TrailerAt(d, q, u.userType) == Some(q2)
    ensures all == (stored + [u]) + RoomUsersFrom(d, q2, next)
  {
    RoomUsersUnfold(d, p, u, q, q2, next);
    assert stored + ([u] + RoomUsersFrom(d, q2, next)) == (stored + [u]) + RoomUsersFrom(d, q2, next);
  }

  lemma RoomUsersUnfold(d: seq<byte>, p: nat, u: RoomUser, q: nat, q2: nat, next: nat)
    requires p <= |d|
    requires RoomUserAt(d, p) == Some((u, q))
    requires TrailerAt(d, q, u.userType) == Some(q2)
    ensures RoomUsersFrom(d, p, next + 1) == [u] + RoomUsersFrom(d, q2, next)
  {
  }

  lemma RoomUsersEnd(d: seq<byte>, all: seq<RoomUser>, stored: seq<RoomUser>, p: nat)
    requires p <= |d|
    requires all == stored + RoomUsersFrom(d, p, 0)
    ensures all == stored
  {
    assert stored + [] == stored;
  }

  lemma StoreAppend(users: map<int, Occupant>, us: seq<RoomUser>, u: RoomUser)
    ensures Store(users, us + [u]) == Store(users, us)[u.unitId := EntryOf(u)]
  {
    assert (us + [u])[..|us|] == us;
  }

  lemma ArrivalsAppend(us: seq<RoomUser>, u: RoomUser)
    ensures Arrivals(us + [u]) == Arrivals(us) + [(u.unitId, u.username)]
  {
    assert (us + [u])[..|us|] == us;
  }

  // ---- properties ----

  /** parse_room_users returns at most max(count, 0) entries. */
  lemma RoomUsersBound(payload: seq<byte>)
    requires |payload| >= 4
    ensures var count := IntAt(payload, 0).value.0;
      |RoomUsers(payload)| <= if count < 0 then 0 else count
  {
  }

  /** A record stored later overwrites an earlier one with the same id, so
      each id ends up with the last record that names it. */
  lemma {:induction false} StoreLastWins(users: map<int, Occupant>, us: seq<RoomUser>, i: nat)
    requires i < |us|
    requires forall j :: i < j < |us| ==> us[j].unitId != us[i].unitId
    ensures Store(users, us)[us[i].unitId] == EntryOf(us[i])
  {
    if i < |us| - 1 {
      var init := us[..|us| - 1];
      assert forall j :: i < j < |init| ==> init[j] == us[j];
      StoreLastWins(users, init, i);
      assert init[i] == us[i];
    }
  }
  /** Position updates never add or drop an id and never change a name or
      user id. */
  lemma {:induction false} MoveKeepsEntries(users: map<int, Occupant>, ms: seq<Movement>)
    ensures Move(users, ms).Keys == users.Keys
    ensures forall k :: k in users ==>
      Move(users, ms)[k].username == users[k].username && Move(users, ms)[k].userId == users[k].userId
  {
    if ms != [] {
      MoveKeepsEntries(MoveOne(users, ms[0]), ms[1..]);
    }
  }

  /** An occupant no record names keeps its entry. */
  lemma {:induction false} MoveUntouched(users: map<int, Occupant>, ms: seq<Movement>, k: int)
    requires k in users
    requires forall i :: 0 <= i < |ms| ==> ms[i].unitId as int != k
    ensures k in Move(users, ms) && Move(users, ms)[k] == users[k]
  {
    if ms != [] {
      assert ms[0].unitId as int != k;
      MoveUntouched(MoveOne(users, ms[0]), ms[1..], k);
    }
  }

  /** A known occupant ends at the position of the last record naming it. */
  lemma {:induction false} MoveLastWins(users: map<int, Occupant>, ms: seq<Movement>, i: nat)
    requires i < |ms| && ms[i].unitId as int in users
    requires forall j :: i < j < |ms| ==> ms[j].unitId != ms[i].unitId
    ensures var k := ms[i].unitId as int;
      k in Move(users, ms) && Move(users, ms)[k].x == ms[i].x && Move(users, ms)[k].y == ms[i].y
  {
    var k := ms[i].unitId as int;
    var next := MoveOne(users, ms[0]);
    if i == 0 {
      MoveUntouched(next, ms[1..], k);
    } else {
      MoveLastWins(next, ms[1..], i - 1);
    }
  }

  /** An id that is not in the table is never added by a position update. */
  lemma MoveUnknownIgnored(users: map<int, Occupant>, payload: seq<byte>, k: int)
    requires k !in users
    ensures k !in Move(users, Movements(payload))
  {
    MoveKeepsEntries(users, Movements(payload));
  }
}
