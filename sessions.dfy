/** Game sessions: the record, its defaults, the mutating operations of the
    session object and the two finders over the session store
    (backend/models/GameSession.js). */
module Sessions {
  import opened Common

  /** Session keys. The database's push keys are modelled as positive numbers
      issued in increasing order, so key order is creation order. */
  type SessionId = n: nat | n > 0 witness 1

  datatype Status = Active | Paused | Completed | Failed

  /** A stored session: the fields that `toObject` writes. */
  datatype SessionData = SessionData(
    userId: string, phase: int, score: int, targetScore: int, timeRemaining: int,
    itemsCollected: map<string, int>, status: Status,
    startedAt: int, completedAt: Option<int>, createdAt: int, updatedAt: int)

  /** A session with its key, as the finders and `toJSON` give it out. */
  datatype Row = Row(id: SessionId, data: SessionData)

  /** The `data` argument of the constructor: every field may be absent. */
  datatype SessionInit = SessionInit(
    id: Option<SessionId>, userId: Option<string>, phase: Option<int>, score: Option<int>,
    targetScore: Option<int>, timeRemaining: Option<int>, itemsCollected: Option<map<string, int>>,
    status: Option<Status>, startedAt: Option<int>, completedAt: Option<int>,
    createdAt: Option<int>, updatedAt: Option<int>)

  /** What the constructor stores: each field falls back through `||`. */
  function WithDefaults(data: SessionInit, now: int): SessionData {
    SessionData(
      OrStr(data.userId, ""), OrInt(data.phase, 1), OrInt(data.score, 0),
      OrInt(data.targetScore, 100), OrInt(data.timeRemaining, 60),
      OrObj(data.itemsCollected, EmptyTally), OrObj(data.status, Active),
      OrInt(data.startedAt, now),
      if data.completedAt.Some? && data.completedAt.value != 0 then data.completedAt else None,
      OrInt(data.createdAt, now), OrInt(data.updatedAt, now))
  }

  /** A falsy phase, target or time becomes 1, 100 or 60; a missing counter
      map becomes all zeros; a missing status becomes active. */
  lemma FalsyFieldsTakeDefaults(data: SessionInit, now: int)
    ensures data.phase in {None, Some(0)} ==> WithDefaults(data, now).phase == 1
    ensures data.targetScore in {None, Some(0)} ==> WithDefaults(data, now).targetScore == 100
    ensures data.timeRemaining in {None, Some(0)} ==> WithDefaults(data, now).timeRemaining == 60
    ensures data.itemsCollected.None? ==> WithDefaults(data, now).itemsCollected == EmptyTally
    ensures data.status.None? ==> WithDefaults(data, now).status == Active
  {
  }

  /** The constructor's argument when a stored record is loaded
      (`new GameSession({ id, ...data })`); the database does not keep an
      empty object, so an empty counter map reads back as missing. */
  function FromStored(id: SessionId, d: SessionData): SessionInit {
    SessionInit(
      Some(id), Some(d.userId), Some(d.phase), Some(d.score), Some(d.targetScore),
      Some(d.timeRemaining), if d.itemsCollected == map[] then None else Some(d.itemsCollected),
      Some(d.status), Some(d.startedAt), d.completedAt, Some(d.createdAt), Some(d.updatedAt))
  }

  /** A stored row as a session object built from it sees it. */
  function ReadBack(r: Row, now: int): Row {
    Row(r.id, WithDefaults(FromStored(r.id, r.data), now))
  }

  /** No field of `d` is one that `||` would replace. */
  predicate NoFalsyFields(d: SessionData) {
    d.phase != 0 && d.targetScore != 0 && d.timeRemaining != 0 && d.itemsCollected != map[]
    && d.startedAt != 0 && d.completedAt != Some(0) && d.createdAt != 0 && d.updatedAt != 0
  }

  /** Loading returns a record unchanged exactly when it holds no falsy field
      that a default would overwrite; a stored 0 in any of phase, target or
      time reads back as the default. */
  lemma ReadBackKeepsRecord(r: Row, now: int)
    ensures NoFalsyFields(r.data) ==> ReadBack(r, now) == r
    ensures r.data.phase == 0 ==> ReadBack(r, now).data.phase == 1
    ensures r.data.targetScore == 0 ==> ReadBack(r, now).data.targetScore == 100
    ensures r.data.timeRemaining == 0 ==> ReadBack(r, now).data.timeRemaining == 60
    ensures ReadBack(r, now).data.status == r.data.status && ReadBack(r, now).data.score == r.data.score
    ensures ReadBack(r, now).data.userId == r.data.userId
  {
  }

  /** A record built by the constructor with a non-zero clock and a non-empty
      counter map reads back unchanged, so loading is idempotent. */
  lemma DefaultsAreStable(data: SessionInit, now: int, later: int)
    requires now != 0 && data.itemsCollected != Some(map[])
    ensures NoFalsyFields(WithDefaults(data, now))
    ensures forall id: SessionId :: ReadBack(Row(id, WithDefaults(data, now)), later).data == WithDefaults(data, now)
  {
    assert "pens" in EmptyTally;
  }

  /** The counter step of `updateScore`: a counter moves only when the item
      type is given and is already a key of the map. */
  function Tally(items: map<string, int>, itemType: Option<string>): (r: map<string, int>)
    ensures r.Keys == items.Keys
    ensures TruthyStr(itemType) && itemType.value in items ==> r[itemType.value] == items[itemType.value] + 1
    ensures forall k :: k in items && !(TruthyStr(itemType) && k == itemType.value) ==> r[k] == items[k]
  {
    if TruthyStr(itemType) && itemType.value in items then items[itemType.value := items[itemType.value] + 1]
    else items
  }

  /** The client sends the singular item types; the session's counters are
      plural, so no counter of a fresh session ever moves. */
  lemma ClientItemTypesAreNotCounted(items: map<string, int>, t: string)
    requires items.Keys == EmptyTally.Keys && t in {"pen", "cup", "book"}
    ensures Tally(items, Some(t)) == items
  {
  }

  /** The record `updateScore` saves for a session that already has a key. */
  function AfterScore(d: SessionData, points: int, itemType: Option<string>, now: int): SessionData {
    d.(score := d.score + points, itemsCollected := Tally(d.itemsCollected, itemType), updatedAt := now)
  }

  /** The record `complete` saves for a session that already has a key. */
  function AfterComplete(d: SessionData, now: int): SessionData {
    d.(status := if d.score >= d.targetScore then Completed else Failed, completedAt := Some(now), updatedAt := now)
  }

  /** The record `pause` or `resume` saves for a session that already has a key. */
  function AfterStatus(d: SessionData, s: Status, now: int): SessionData {
    d.(status := s, updatedAt := now)
  }

  /** Completing again decides the same way: score and target do not move,
      so repeated ends of one session agree on won or lost. */
  lemma CompleteAgain(d: SessionData, t1: int, t2: int)
    ensures AfterComplete(AfterComplete(d, t1), t2).status == AfterComplete(d, t1).status
    ensures AfterComplete(d, t1).status == Completed <==> d.score >= d.targetScore
    ensures AfterComplete(d, t1).status in {Completed, Failed}
  {
  }

  /** Pausing then resuming leaves every field but the save time as it was,
      whatever the status was, terminal ones included. */
  lemma PauseThenResume(d: SessionData, t1: int, t2: int)
    ensures AfterStatus(AfterStatus(d, Paused, t1), Active, t2) == d.(status := Active, updatedAt := t2)
    ensures d.status in {Completed, Failed} ==> AfterStatus(d, Active, t1).status == Active
  {
  }

  /** The session store: stored records by key, and the next key `push()`
      will issue. */
  class SessionStore {
    var sessions: map<SessionId, SessionData>
    var nextId: SessionId

    ghost predicate Valid()
      reads this
    {
      forall k :: k in sessions ==> k < nextId
    }

    constructor ()
      ensures Valid() && sessions == map[] && nextId == 1
    {
      sessions := map[];
      nextId := 1;
    }
  }

  /** A session object: a copy of a stored record that the operations change
      and then write back with `Save`. */
  class GameSession {
    var id: Option<SessionId>
    var userId: string
    var phase: int
    var score: int
    var targetScore: int
    var timeRemaining: int
    var itemsCollected: map<string, int>
    var status: Status
    var startedAt: int
    var completedAt: Option<int>
    var createdAt: int
    var updatedAt: int

    function ToObject(): SessionData
      reads this
    {
      SessionData(userId, phase, score, targetScore, timeRemaining, itemsCollected, status,
                  startedAt, completedAt, createdAt, updatedAt)
    }

    function ToJSON(): Row
      reads this
      requires id.Some?
    {
      Row(id.value, ToObject())
    }

    /** The fields that `Save` does not touch. */
    function Content(): (string, int, int, int, int, map<string, int>, Status, int, Option<int>)
      reads this
    {
      (userId, phase, score, targetScore, timeRemaining, itemsCollected, status, startedAt, completedAt)
    }

    constructor (data: SessionInit, now: int)
      ensures id == data.id && ToObject() == WithDefaults(data, now)
    {
      var d := WithDefaults(data, now);
      id := data.id;
      userId, phase, score, targetScore := d.userId, d.phase, d.score, d.targetScore;
      timeRemaining, itemsCollected, status := d.timeRemaining, d.itemsCollected, d.status;
      startedAt, completedAt, createdAt, updatedAt := d.startedAt, d.completedAt, d.createdAt, d.updatedAt;
    }

    /** What `Save` did: the timestamps and key it set and the record it wrote. */
    twostate predicate SavedTo(store: SessionStore, now: int)
      reads this, store
    {
      && updatedAt == now
      && (old(id).Some? ==> id == old(id) && createdAt == old(createdAt) && store.nextId == old(store.nextId))
      && (old(id).None? ==> id == Some(old(store.nextId)) && createdAt == now && store.nextId == old(store.nextId) + 1)
      && id.Some?
      && store.sessions == old(store.sessions)[id.value := ToObject()]
    }

    /** An existing key is overwritten with the current fields; an object
        without a key gets a fresh one and a creation time. */
    method Save(store: SessionStore, now: int)
      requires store.Valid() && (id.Some? ==> id.value < store.nextId)
      modifies this, store
      ensures store.Valid() && SavedTo(store, now) && Content() == old(Content())
      ensures id.value < store.nextId
    {
      updatedAt := now;
      if id.Some? {
        store.sessions := store.sessions[id.value := ToObject()];
      } else {
        createdAt := now;
        id := Some(store.nextId);
        store.nextId := store.nextId + 1;
        store.sessions := store.sessions[id.value := ToObject()];
      }
    }

    /** Adds `points` to the score and counts one item of `itemType` when it
        names an existing counter; then saves. */
    method UpdateScore(points: int, itemType: Option<string>, store: SessionStore, now: int)
      requires store.Valid() && (id.Some? ==> id.value < store.nextId)
      modifies this, store
      ensures store.Valid() && SavedTo(store, now) && id.value < store.nextId
      ensures score == old(score) + points
      ensures itemsCollected == Tally(old(itemsCollected), itemType)
      ensures old(id).Some? ==> ToObject() == AfterScore(old(ToObject()), points, itemType, now)
      ensures (userId, phase, targetScore, timeRemaining, status, startedAt, completedAt)
           == old((userId, phase, targetScore, timeRemaining, status, startedAt, completedAt))
    {
      score := score + points;
      itemsCollected := Tally(itemsCollected, itemType);
      Save(store, now);
    }

    /** Won when the score reached the target, lost otherwise; the completion
        time is always stamped. */
    method Complete(store: SessionStore, now: int)
      requires store.Valid() && (id.Some? ==> id.value < store.nextId)
      modifies this, store
      ensures store.Valid() && SavedTo(store, now) && id.value < store.nextId
      ensures status == (if old(score) >= old(targetScore) then Completed else Failed)
      ensures completedAt == Some(now)
      ensures old(id).Some? ==> ToObject() == AfterComplete(old(ToObject()), now)
      ensures (userId, phase, score, targetScore, timeRemaining, itemsCollected, startedAt)
           == old((userId, phase, score, targetScore, timeRemaining, itemsCollected, startedAt))
    {
      status := if score >= targetScore then Completed else Failed;
      completedAt := Some(now);
      Save(store, now);
    }

    /** Sets the status to paused whatever it was, terminal states included. */
    method Pause(store: SessionStore, now: int)
      requires store.Valid() && (id.Some? ==> id.value < store.nextId)
      modifies this, store
      ensures store.Valid() && SavedTo(store, now) && id.value < store.nextId
      ensures status == Paused
      ensures old(id).Some? ==> ToObject() == AfterStatus(old(ToObject()), Paused, now)
      ensures (userId, phase, score, targetScore, timeRemaining, itemsCollected, startedAt, completedAt)
           == old((userId, phase, score, targetScore, timeRemaining, itemsCollected, startedAt, completedAt))
    {
      status := Paused;
      Save(store, now);
    }

    /** Sets the status to active whatever it was, terminal states included. */
    method Resume(store: SessionStore, now: int)
      requires store.Valid() && (id.Some? ==> id.value < store.nextId)
      modifies this, store
      ensures store.Valid() && SavedTo(store, now) && id.value < store.nextId
      ensures status == Active
      ensures old(id).Some? ==> ToObject() == AfterStatus(old(ToObject()), Active, now)
      ensures (userId, phase, score, targetScore, timeRemaining, itemsCollected, startedAt, completedAt)
           == old((userId, phase, score, targetScore, timeRemaining, itemsCollected, startedAt, completedAt))
    {
      status := Active;
      Save(store, now);
    }
  }

  /** `findById` as the controllers call it: a fresh object, or null. */
  method LoadSession(store: SessionStore, id: SessionId, now: int) returns (s: GameSession?)
    ensures (s == null) <==> id !in store.sessions
    ensures s != null ==> fresh(s) && s.id == Some(id) && s.ToObject() == ReadBack(Row(id, store.sessions[id]), now).data
  {
    if id in store.sessions {
      s := new GameSession(FromStored(id, store.sessions[id]), now);
    } else {
      s := null;
    }
  }

  // ---------------------------------------------------------------------------
  // Finders. `bound` is the store's next key: every stored key is below it.

  /** The stored rows with keys below `bound`, in key order. */
  function Listing(sessions: map<SessionId, SessionData>, bound: nat): (rows: seq<Row>)
    ensures forall r :: r in rows <==> r.id < bound && r.id in sessions && sessions[r.id] == r.data
    decreases bound
  {
    if bound <= 1 then []
    else Listing(sessions, bound - 1) + (if bound - 1 in sessions then [Row(bound - 1, sessions[bound - 1])] else [])
  }

  /** `findById`: the loaded session, or nothing for a missing key. */
  function FindById(sessions: map<SessionId, SessionData>, id: SessionId, now: int): (r: Option<Row>)
    ensures r.Some? <==> id in sessions
    ensures r.Some? ==> r.value.id == id && r.value.data.status == sessions[id].status
    ensures r.Some? ==> r.value == ReadBack(Row(id, sessions[id]), now)
  {
    if id in sessions then Some(ReadBack(Row(id, sessions[id]), now)) else None
  }

  predicate IsActiveOf(d: SessionData, userId: string) {
    d.userId == userId && d.status == Active
  }

  /** The most recently created active session of a user, as loaded; paused
      sessions are never returned. */
  function FindActiveByUserId(sessions: map<SessionId, SessionData>, bound: nat, userId: string, now: int): (r: Option<Row>)
    requires forall k :: k in sessions ==> k < bound
    ensures r.None? <==> forall k :: k in sessions ==> !IsActiveOf(sessions[k], userId)
    ensures r.Some? ==> r.value.id in sessions && IsActiveOf(sessions[r.value.id], userId)
    ensures r.Some? ==> r == Some(ReadBack(Row(r.value.id, sessions[r.value.id]), now))
    ensures r.Some? ==> forall k :: k in sessions && IsActiveOf(sessions[k], userId) ==>
                                      sessions[k].createdAt <= sessions[r.value.id].createdAt
  {
    var active := Filter(Listing(sessions, bound), (x: Row) => IsActiveOf(x.data, userId));
    var key := (x: Row) => x.data.createdAt;
    var sorted := SortDesc(active, key);
    SortDescCorrect(active, key);
    FindActiveFacts(sessions, bound, userId, active, sorted, key);
    if sorted == [] then None else Some(ReadBack(sorted[0], now))
  }

  lemma FindActiveFacts(sessions: map<SessionId, SessionData>, bound: nat, userId: string,
                        active: seq<Row>, sorted: seq<Row>, key: Row -> int)
    requires forall k :: k in sessions ==> k < bound
    requires active == Filter(Listing(sessions, bound), (x: Row) => IsActiveOf(x.data, userId))
    requires forall x :: key(x) == x.data.createdAt
    requires SortedDesc(sorted, key) && multiset(sorted) == multiset(active)
    ensures sorted == [] <==> forall k :: k in sessions ==> !IsActiveOf(sessions[k], userId)
    ensures sorted != [] ==> sorted[0].id in sessions && sessions[sorted[0].id] == sorted[0].data
                             && IsActiveOf(sorted[0].data, userId)
    ensures sorted != [] ==> forall k :: k in sessions && IsActiveOf(sessions[k], userId) ==>
                                           sessions[k].createdAt <= sorted[0].data.createdAt
  {
    var p := (x: Row) => IsActiveOf(x.data, userId);
    forall k | k in sessions && IsActiveOf(sessions[k], userId)
      ensures Row(k, sessions[k]) in sorted
    {
      FilterComplete(Listing(sessions, bound), p, Row(k, sessions[k]));
      assert Row(k, sessions[k]) in multiset(active);
    }
    if sorted != [] {
      assert sorted[0] in multiset(active);
      forall k | k in sessions && IsActiveOf(sessions[k], userId)
        ensures sessions[k].createdAt <= sorted[0].data.createdAt
      {
        var j :| 0 <= j < |sorted| && sorted[j] == Row(k, sessions[k]);
        if j > 0 {
          assert key(sorted[0]) >= key(sorted[j]);
        }
      }
    }
  }

  /** The filter condition of `findByUserId`. */
  function OwnedBy(userId: string): Row -> bool {
    (x: Row) => x.data.userId == userId
  }

  /** The keys of the user's stored sessions. */
  ghost function OwnedKeys(sessions: map<SessionId, SessionData>, userId: string): set<SessionId> {
    set k | k in sessions && sessions[k].userId == userId
  }

  /** The keys of the user's stored sessions below `bound`. */
  ghost function OwnedBelow(sessions: map<SessionId, SessionData>, userId: string, bound: nat): set<SessionId> {
    set k | k in sessions && k < bound && sessions[k].userId == userId
  }

  ghost predicate IdsIncrease(rows: seq<Row>) {
    forall i, j :: 0 <= i < j < |rows| ==> rows[i].id < rows[j].id
  }

  /** The user's sessions as loaded, in key order: each stored session of
      the user once, and nothing else. */
  function LoadedOf(sessions: map<SessionId, SessionData>, bound: nat, userId: string, now: int): (rows: seq<Row>)
    requires forall k :: k in sessions ==> k < bound
    ensures |rows| == |OwnedKeys(sessions, userId)|
    ensures IdsIncrease(rows)
    ensures forall x :: x in rows ==>
              (x.id in sessions && sessions[x.id].userId == userId && x == ReadBack(Row(x.id, sessions[x.id]), now))
    ensures forall k :: k in sessions && sessions[k].userId == userId ==> ReadBack(Row(k, sessions[k]), now) in rows
  {
    var mine := Filter(Listing(sessions, bound), OwnedBy(userId));
    var rows := seq(|mine|, i requires 0 <= i < |mine| => ReadBack(mine[i], now));
    LoadedFacts(sessions, bound, userId, now, mine, rows);
    rows
  }

  lemma LoadedFacts(sessions: map<SessionId, SessionData>, bound: nat, userId: string, now: int, mine: seq<Row>, rows: seq<Row>)
    requires forall k :: k in sessions ==> k < bound
    requires mine == Filter(Listing(sessions, bound), OwnedBy(userId))
    requires |rows| == |mine| && forall i :: 0 <= i < |mine| ==> rows[i] == ReadBack(mine[i], now)
    ensures |rows| == |OwnedKeys(sessions, userId)|
    ensures IdsIncrease(rows)
    ensures forall x :: x in rows ==>
              (x.id in sessions && sessions[x.id].userId == userId && x == ReadBack(Row(x.id, sessions[x.id]), now))
    ensures forall k :: k in sessions && sessions[k].userId == userId ==> ReadBack(Row(k, sessions[k]), now) in rows
  {
    MineFacts(sessions, bound, userId);
    forall i, j | 0 <= i < j < |rows|
      ensures rows[i].id < rows[j].id
    {
      assert rows[i].id == mine[i].id && rows[j].id == mine[j].id;
    }
    forall x | x in rows
      ensures x.id in sessions && sessions[x.id].userId == userId && x == ReadBack(Row(x.id, sessions[x.id]), now)
    {
      var i :| 0 <= i < |rows| && rows[i] == x;
      assert mine[i] in mine;
    }
    forall k | k in sessions && sessions[k].userId == userId
      ensures ReadBack(Row(k, sessions[k]), now) in rows
    {
      var j :| 0 <= j < |mine| && mine[j] == Row(k, sessions[k]);
      assert rows[j] == ReadBack(Row(k, sessions[k]), now);
    }
  }

  /** The user's rows of the listing: one per stored session of the user,
      ids increasing. */
  lemma MineFacts(sessions: map<SessionId, SessionData>, bound: nat, userId: string)
    requires forall k :: k in sessions ==> k < bound
    ensures |Filter(Listing(sessions, bound), OwnedBy(userId))| == |OwnedKeys(sessions, userId)|
    ensures IdsIncrease(Filter(Listing(sessions, bound), OwnedBy(userId)))
    ensures forall k :: k in sessions && sessions[k].userId == userId ==>
              Row(k, sessions[k]) in Filter(Listing(sessions, bound), OwnedBy(userId))
  {
    OwnedCount(sessions, userId, bound);
    assert OwnedBelow(sessions, userId, bound) == OwnedKeys(sessions, userId);
    ListingIncreasing(sessions, bound);
    FilterIdsIncrease(Listing(sessions, bound), OwnedBy(userId));
    forall k | k in sessions && sessions[k].userId == userId
      ensures Row(k, sessions[k]) in Filter(Listing(sessions, bound), OwnedBy(userId))
    {
      FilterComplete(Listing(sessions, bound), OwnedBy(userId), Row(k, sessions[k]));
    }
  }

  lemma {:induction false} ListingIncreasing(sessions: map<SessionId, SessionData>, bound: nat)
    ensures IdsIncrease(Listing(sessions, bound))
    decreases bound
  {
    if bound > 1 {
      ListingIncreasing(sessions, bound - 1);
    }
  }

  lemma {:induction false} FilterIdsIncrease(rows: seq<Row>, p: Row -> bool)
    requires IdsIncrease(rows)
    ensures IdsIncrease(Filter(rows, p))
  {
    if rows != [] {
      var rest := rows[1..];
      TailIdsIncrease(rows);
      FilterIdsIncrease(rest, p);
      var tail := Filter(rest, p);
      forall y | y in tail
        ensures y.id > rows[0].id
      {
        var k :| 0 <= k < |rest| && rest[k] == y;
        assert rows[k + 1] == y;
      }
      if p(rows[0]) {
        ConsIdsIncrease(rows[0], tail);
        assert Filter(rows, p) == [rows[0]] + tail;
      } else {
        assert Filter(rows, p) == tail;
      }
    }
  }

  lemma TailIdsIncrease(rows: seq<Row>)
    requires rows != [] && IdsIncrease(rows)
    ensures IdsIncrease(rows[1..])
  {
    forall i, j | 0 <= i < j < |rows[1..]|
      ensures rows[1..][i].id < rows[1..][j].id
    {
      assert rows[1..][i] == rows[i + 1] && rows[1..][j] == rows[j + 1];
    }
  }

  lemma ConsIdsIncrease(h: Row, t: seq<Row>)
    requires IdsIncrease(t) && forall y :: y in t ==> y.id > h.id
    ensures IdsIncrease([h] + t)
  {
    var r := [h] + t;
    forall i, j | 0 <= i < j < |r|
      ensures r[i].id < r[j].id
    {
      assert r[j] == t[j - 1] && r[j] in t;
      if i > 0 {
        assert r[i] == t[i - 1];
      }
    }
  }

  /** The user's rows of the listing below `bound` are as many as the user's
      stored keys below it. */
  lemma {:induction false} OwnedCount(sessions: map<SessionId, SessionData>, userId: string, bound: nat)
    ensures |Filter(Listing(sessions, bound), OwnedBy(userId))| == |OwnedBelow(sessions, userId, bound)|
    decreases bound
  {
    if bound <= 1 {
      assert OwnedBelow(sessions, userId, bound) == {};
    } else {
      OwnedCount(sessions, userId, bound - 1);
      ListingStep(sessions, userId, bound);
      OwnedBelowStep(sessions, userId, bound);
    }
  }

  /** One more key in the listing adds one of the user's rows exactly when
      that key holds a session of the user. */
  lemma ListingStep(sessions: map<SessionId, SessionData>, userId: string, bound: nat)
    requires bound > 1
    ensures |Filter(Listing(sessions, bound), OwnedBy(userId))|
            == |Filter(Listing(sessions, bound - 1), OwnedBy(userId))|
               + (if bound - 1 in sessions && sessions[bound - 1].userId == userId then 1 else 0)
  {
    var k: SessionId := bound - 1;
    var last := if k in sessions then [Row(k, sessions[k])] else [];
    FilterAppend(Listing(sessions, k), last, OwnedBy(userId));
    if k in sessions {
      assert last[1..] == [];
    }
  }

  lemma OwnedBelowStep(sessions: map<SessionId, SessionData>, userId: string, bound: nat)
    requires bound > 1
    ensures |OwnedBelow(sessions, userId, bound)|
            == |OwnedBelow(sessions, userId, bound - 1)|
               + (if bound - 1 in sessions && sessions[bound - 1].userId == userId then 1 else 0)
  {
    var k: SessionId := bound - 1;
    var below := OwnedBelow(sessions, userId, k);
    assert k !in below;
    if k in sessions && sessions[k].userId == userId {
      assert OwnedBelow(sessions, userId, bound) == below + {k};
    } else {
      assert OwnedBelow(sessions, userId, bound) == below;
    }
  }

  /** `findByUserId`: the newest `limit` of the user's sessions as loaded,
      newest first, each at most once; `slice(0, limit)` takes them all when
      the limit reaches their number and drops from the back for a negative
      limit. */
  function FindByUserId(sessions: map<SessionId, SessionData>, bound: nat, userId: string, limit: int, now: int): (r: seq<Row>)
    requires forall k :: k in sessions ==> k < bound
    ensures |r| == SliceEnd(|OwnedKeys(sessions, userId)|, limit)
    ensures limit >= 0 ==> |r| <= limit
    ensures forall i, j :: 0 <= i < j < |r| ==> r[i].data.createdAt >= r[j].data.createdAt
    ensures forall i, j :: 0 <= i < j < |r| ==> r[i].id != r[j].id
    ensures forall x :: x in r ==>
              (x.id in sessions && sessions[x.id].userId == userId && x == ReadBack(Row(x.id, sessions[x.id]), now))
    ensures (forall x, k :: x in r && k in sessions && sessions[k].userId == userId
                             && ReadBack(Row(k, sessions[k]), now) !in r ==>
               ReadBack(Row(k, sessions[k]), now).data.createdAt <= x.data.createdAt)
  {
    var loaded := LoadedOf(sessions, bound, userId, now);
    var key := (x: Row) => x.data.createdAt;
    var r := Take(SortDesc(loaded, key), limit);
    HistoryFacts(sessions, bound, userId, now, loaded, SortDesc(loaded, key), key, r);
    r
  }

  /** The facts `FindByUserId` states, about the sorted rows and a prefix of
      them. */
  lemma HistoryFacts(sessions: map<SessionId, SessionData>, bound: nat, userId: string, now: int,
                     loaded: seq<Row>, sorted: seq<Row>, key: Row -> int, r: seq<Row>)
    requires forall k :: k in sessions ==> k < bound
    requires loaded == LoadedOf(sessions, bound, userId, now)
    requires forall x :: key(x) == x.data.createdAt
    requires sorted == SortDesc(loaded, key)
    requires |r| <= |sorted| && r == sorted[..|r|]
    ensures forall i, j :: 0 <= i < j < |r| ==> r[i].data.createdAt >= r[j].data.createdAt
    ensures forall i, j :: 0 <= i < j < |r| ==> r[i].id != r[j].id
    ensures forall x :: x in r ==>
              (x.id in sessions && sessions[x.id].userId == userId && x == ReadBack(Row(x.id, sessions[x.id]), now))
    ensures (forall x, k :: x in r && k in sessions && sessions[k].userId == userId
                             && ReadBack(Row(k, sessions[k]), now) !in r ==>
               ReadBack(Row(k, sessions[k]), now).data.createdAt <= x.data.createdAt)
  {
    SortDescCorrect(loaded, key);
    MultisetKeepsMembers(sorted, loaded);
    MultisetKeepsMembers(loaded, sorted);
    assert Distinct(loaded) by {
      forall i, j | 0 <= i < j < |loaded|
        ensures loaded[i] != loaded[j]
      {
        assert loaded[i].id < loaded[j].id;
      }
    }
    PermutationDistinct(loaded, sorted);
    PrefixOfSorted(sorted, r, key);
    forall i, j | 0 <= i < j < |r|
      ensures r[i].data.createdAt >= r[j].data.createdAt && r[i].id != r[j].id
    {
      assert key(r[i]) >= key(r[j]) && r[i] != r[j];
      assert r[i] in r && r[j] in r;
    }
  }

  lemma MultisetKeepsMembers<T>(a: seq<T>, b: seq<T>)
    requires multiset(a) == multiset(b)
    ensures forall x :: x in a ==> x in b
  {
    forall x | x in a ensures x in b {
      assert x in multiset(a);
    }
  }

  /** Every session of the user is in the history when the limit reaches the
      number of the user's sessions. */
  lemma HistoryIsComplete(sessions: map<SessionId, SessionData>, bound: nat, userId: string, limit: int, now: int, k: SessionId)
    requires forall k :: k in sessions ==> k < bound
    requires limit >= |OwnedKeys(sessions, userId)|
    requires k in sessions && sessions[k].userId == userId
    ensures ReadBack(Row(k, sessions[k]), now) in FindByUserId(sessions, bound, userId, limit, now)
  {
    var loaded := LoadedOf(sessions, bound, userId, now);
    var key := (x: Row) => x.data.createdAt;
    SortDescCorrect(loaded, key);
    var sorted := SortDesc(loaded, key);
    assert FindByUserId(sessions, bound, userId, limit, now) == sorted;
    assert ReadBack(Row(k, sessions[k]), now) in multiset(sorted);
  }

  lemma ListingSize(sessions: map<SessionId, SessionData>, bound: nat)
    ensures |Listing(sessions, bound)| <= |sessions|
  {
    ListingCountsKeys(sessions, bound);
    SubsetCard(KeysBelow(sessions, bound), sessions.Keys);
  }

  /** The stored keys below `bound`. */
  ghost function KeysBelow(sessions: map<SessionId, SessionData>, bound: nat): set<SessionId> {
    set k | k in sessions && k < bound
  }

  /** The listing holds one row per stored key below the bound. */
  lemma {:induction false} ListingCountsKeys(sessions: map<SessionId, SessionData>, bound: nat)
    ensures |Listing(sessions, bound)| == |KeysBelow(sessions, bound)|
    decreases bound
  {
    if bound <= 1 {
      assert KeysBelow(sessions, bound) == {};
    } else {
      ListingCountsKeys(sessions, bound - 1);
      var below := KeysBelow(sessions, bound - 1);
      assert bound - 1 !in below;
      if bound - 1 in sessions {
        assert KeysBelow(sessions, bound) == below + {bound - 1};
      } else {
        assert KeysBelow(sessions, bound) == below;
      }
    }
  }

  lemma SubsetCard<T>(a: set<T>, b: set<T>)
    requires a <= b
    ensures |a| <= |b|
  {
    assert b == a + (b - a);
  }
}
