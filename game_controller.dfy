/** The game endpoints: start, score, end, pause, resume, the active session
    and the history (backend/controllers/gameController.js). Each handler is
    a chain of guarded early returns followed by calls into the models. */
module GameController {
  import opened Common
  import opened Sessions
  import Users

  /** The target of a phase. */
  function TargetScoreFor(phase: int): int { phase * 100 }

  /** The record `startGame` creates for a user in a phase. */
  function NewSessionData(userId: string, phase: int, now: int): (d: SessionData)
    ensures d.userId == userId
    ensures d.phase == (if phase == 0 then 1 else phase)
    ensures d.targetScore == (if phase == 0 then 100 else 100 * phase)
    ensures d.timeRemaining == 60 && d.itemsCollected == EmptyTally && d.score == 0
    ensures d.status == Active && d.completedAt.None?
    ensures d.startedAt == now && d.createdAt == now && d.updatedAt == now
  {
    var init := SessionInit(None, Some(userId), Some(phase), None, Some(TargetScoreFor(phase)), Some(60),
                            Some(EmptyTally), None, None, None, None, None);
    WithDefaults(init, now).(createdAt := now, updatedAt := now)
  }

  /** Every phase of the table gets the target the client expects, 100 per
      phase; the defaults make phase 0 play as phase 1. */
  lemma StartTargets(userId: string, phase: int, now: int)
    ensures phase != 0 ==> NewSessionData(userId, phase, now).targetScore == TargetScoreFor(phase)
    ensures NewSessionData(userId, 0, now) == NewSessionData(userId, 1, now)
  {
  }

  /** `startGame`: 400 without a user id, 404 for an unknown user, the newest
      active session when there is one, and a new session otherwise. */
  method StartGame(userId: Option<string>, phase: Option<int>, users: Users.UserStore, store: SessionStore, now: int)
    returns (res: Response<Row>)
    requires store.Valid()
    modifies store
    ensures store.Valid()
    ensures !TruthyStr(userId) ==> res.BadRequest? && unchanged(store)
    ensures TruthyStr(userId) && userId.value !in users.users ==> res.NotFound? && unchanged(store)
    ensures TruthyStr(userId) && userId.value in users.users ==> res.Ok?
    ensures (TruthyStr(userId) && userId.value in users.users
             && old(FindActiveByUserId(store.sessions, store.nextId, userId.value, now)).Some?) ==>
              res == Ok(old(FindActiveByUserId(store.sessions, store.nextId, userId.value, now)).value) && unchanged(store)
    ensures (TruthyStr(userId) && userId.value in users.users
             && old(FindActiveByUserId(store.sessions, store.nextId, userId.value, now)).None?) ==>
              && res.value == Row(old(store.nextId), NewSessionData(userId.value, if phase.Some? then phase.value else 1, now))
              && store.sessions == old(store.sessions)[res.value.id := res.value.data]
              && store.nextId == old(store.nextId) + 1
  {
    if !TruthyStr(userId) {
      return BadRequest("ID do usu\U{e1}rio \U{e9} obrigat\U{f3}rio");
    }
    var uid := userId.value;
    if Users.FindById(users.users, uid, now).None? {
      return NotFound("Usu\U{e1}rio n\U{e3}o encontrado");
    }
    var active := FindActiveByUserId(store.sessions, store.nextId, uid, now);
    if active.Some? {
      return Ok(active.value);
    }
    var p := if phase.Some? then phase.value else 1;
    var session := new GameSession(
      SessionInit(None, Some(uid), Some(p), None, Some(TargetScoreFor(p)), Some(60), Some(EmptyTally),
                  None, None, None, None, None), now);
    session.Save(store, now);
    res := Ok(session.ToJSON());
  }

  /** `updateScore`: the points are checked before the session is looked up;
      a missing session is 404, one that is not active is 400, and only then
      is the score added. */
  method UpdateScore(sessionId: SessionId, points: Option<int>, itemType: Option<string>, store: SessionStore, now: int)
    returns (res: Response<Row>)
    requires store.Valid()
    modifies store
    ensures store.Valid() && store.nextId == old(store.nextId)
    ensures points.None? || points.value <= 0 ==> res.BadRequest? && unchanged(store)
    ensures points.Some? && points.value > 0 && sessionId !in old(store.sessions) ==> res.NotFound? && unchanged(store)
    ensures (points.Some? && points.value > 0 && sessionId in old(store.sessions)
             && old(store.sessions[sessionId].status) != Active) ==> res.BadRequest? && unchanged(store)
    ensures (points.Some? && points.value > 0 && sessionId in old(store.sessions)
             && old(store.sessions[sessionId].status) == Active) ==>
              && res == Ok(Row(sessionId, AfterScore(ReadBack(Row(sessionId, old(store.sessions[sessionId])), now).data,
                                                     points.value, itemType, now)))
              && store.sessions == old(store.sessions)[sessionId := res.value.data]
              && res.value.data.score == old(store.sessions[sessionId].score) + points.value
  {
    if points.None? || points.value <= 0 {
      return BadRequest("Pontua\U{e7}\U{e3}o inv\U{e1}lida");
    }
    var session := LoadSession(store, sessionId, now);
    if session == null {
      return NotFound("Sess\U{e3}o n\U{e3}o encontrada");
    }
    ReadBackKeepsRecord(Row(sessionId, store.sessions[sessionId]), now);
    if session.status != Active {
      return BadRequest("Sess\U{e3}o n\U{e3}o est\U{e1} ativa");
    }
    session.UpdateScore(points.value, itemType, store, now);
    res := Ok(session.ToJSON());
  }

  /** The session record `endGame` saves. */
  function Ended(d: SessionData, id: SessionId, now: int): SessionData {
    AfterComplete(ReadBack(Row(id, d), now).data, now)
  }

  /** The status label of the report `endGame` writes. */
  function ReportLabel(d: SessionData): (tag: string)
    ensures tag == Users.Concluded <==> d.status == Completed
    ensures d.status != Completed ==> tag == Users.Failed
  {
    if d.status == Completed then Users.Concluded else Users.Failed
  }

  /** A report is labelled as concluded exactly when the score reached the
      target. */
  lemma EndedLabel(d: SessionData, id: SessionId, now: int)
    ensures ReportLabel(Ended(d, id, now)) == Users.Concluded <==> d.score >= ReadBack(Row(id, d), now).data.targetScore
  {
    ReadBackKeepsRecord(Row(id, d), now);
  }

  /** The balance the owner holds after `endGame`: the balance as loaded plus
      one coin per 10 points. */
  function CreditedBalance(rec: Users.UserRecord, score: int): int {
    (if rec.profile.senacoins == 0 then 100 else rec.profile.senacoins) + score / 10
  }

  datatype EndResult = EndResult(session: Row, user: Option<Users.UserView>)

  /** The owner's part of `endGame`: when the owner exists, one report for
      the ended session is appended and the coins are credited. */
  method CreditOwner(d: SessionData, users: Users.UserStore, now: int) returns (view: Option<Users.UserView>)
    requires users.Valid()
    modifies users
    ensures users.Valid() && users.order == old(users.order)
    ensures d.userId !in old(users.users) ==> view.None? && unchanged(users)
    ensures d.userId in old(users.users) ==>
              var rec := old(users.users[d.userId]);
              var report := Users.NewReport(d.score, Users.GameMeta(Some(ReportLabel(d)), Some(d.phase), Some(d.itemsCollected)),
                                            rec.profile.fullname, now);
              && users.users == old(users.users)[d.userId := rec.(
                   profile := rec.profile.(senacoins := CreditedBalance(rec, d.score), lastLogin := now),
                   reports := rec.reports + [report])]
              && view.Some? && view.value.senacoins == CreditedBalance(rec, d.score)
              && view.value.reportsCount == |rec.reports| + 1
  {
    var user := Users.LoadUser(users, d.userId, now);
    if user == null {
      return None;
    }
    ghost var rec := users.users[d.userId];
    var meta := Users.GameMeta(Some(ReportLabel(d)), Some(d.phase), Some(d.itemsCollected));
    user.UpdateScore(d.score, meta, users, now);
    assert user.id == Some(d.userId) && user.fullname == rec.profile.fullname;
    assert user.senacoins == CreditedBalance(rec, d.score);
    assert Users.StoredReports(users.users, user.id) == rec.reports + [Users.NewReport(d.score, meta, rec.profile.fullname, now)];
    view := Some(Users.ToJSON(users.users, user.Fields()));
  }

  /** `endGame`: with no status check, every call on an existing session
      completes it again and appends another report, with the coin credit, to
      its owner when the owner exists. */
  method EndGame(sessionId: SessionId, users: Users.UserStore, store: SessionStore, now: int)
    returns (res: Response<EndResult>)
    requires store.Valid() && users.Valid()
    modifies store, users
    ensures store.Valid() && users.Valid() && store.nextId == old(store.nextId) && users.order == old(users.order)
    ensures sessionId !in old(store.sessions) ==> res.NotFound? && unchanged(store) && unchanged(users)
    ensures sessionId in old(store.sessions) ==>
              var d := Ended(old(store.sessions[sessionId]), sessionId, now);
              && res.Ok? && res.value.session == Row(sessionId, d)
              && store.sessions == old(store.sessions)[sessionId := d]
              && (d.userId !in old(users.users) ==> res.value.user.None? && unchanged(users))
    ensures (sessionId in old(store.sessions) && Ended(old(store.sessions[sessionId]), sessionId, now).userId in old(users.users)) ==>
              var d := Ended(old(store.sessions[sessionId]), sessionId, now);
              var rec := old(users.users[d.userId]);
              var report := Users.NewReport(d.score, Users.GameMeta(Some(ReportLabel(d)), Some(d.phase), Some(d.itemsCollected)),
                                            rec.profile.fullname, now);
              && users.users == old(users.users)[d.userId := rec.(
                   profile := rec.profile.(senacoins := CreditedBalance(rec, d.score), lastLogin := now),
                   reports := rec.reports + [report])]
              && res.Ok? && res.value.user.Some?
              && res.value.user.value.senacoins == CreditedBalance(rec, d.score)
              && res.value.user.value.reportsCount == |rec.reports| + 1
  {
    var session := LoadSession(store, sessionId, now);
    if session == null {
      return NotFound("Sess\U{e3}o n\U{e3}o encontrada");
    }
    session.Complete(store, now);
    var userData := CreditOwner(session.ToObject(), users, now);
    res := Ok(EndResult(session.ToJSON(), userData));
  }

  /** `pauseGame`: 404 for a missing session, otherwise paused from any status. */
  method PauseGame(sessionId: SessionId, store: SessionStore, now: int) returns (res: Response<Row>)
    requires store.Valid()
    modifies store
    ensures store.Valid() && store.nextId == old(store.nextId)
    ensures sessionId !in old(store.sessions) ==> res.NotFound? && unchanged(store)
    ensures sessionId in old(store.sessions) ==>
              && res == Ok(Row(sessionId, AfterStatus(ReadBack(Row(sessionId, old(store.sessions[sessionId])), now).data, Paused, now)))
              && store.sessions == old(store.sessions)[sessionId := res.value.data]
  {
    var session := LoadSession(store, sessionId, now);
    if session == null {
      return NotFound("Sess\U{e3}o n\U{e3}o encontrada");
    }
    session.Pause(store, now);
    res := Ok(session.ToJSON());
  }

  /** `resumeGame`: 404 for a missing session, otherwise active from any
      status, completed and failed included. */
  method ResumeGame(sessionId: SessionId, store: SessionStore, now: int) returns (res: Response<Row>)
    requires store.Valid()
    modifies store
    ensures store.Valid() && store.nextId == old(store.nextId)
    ensures sessionId !in old(store.sessions) ==> res.NotFound? && unchanged(store)
    ensures sessionId in old(store.sessions) ==>
              && res == Ok(Row(sessionId, AfterStatus(ReadBack(Row(sessionId, old(store.sessions[sessionId])), now).data, Active, now)))
              && store.sessions == old(store.sessions)[sessionId := res.value.data]
  {
    var session := LoadSession(store, sessionId, now);
    if session == null {
      return NotFound("Sess\U{e3}o n\U{e3}o encontrada");
    }
    session.Resume(store, now);
    res := Ok(session.ToJSON());
  }

  /** `getActiveSession`: the user's newest active session, or 404. */
  function GetActiveSession(sessions: map<SessionId, SessionData>, bound: nat, userId: string, now: int): (r: Response<Row>)
    requires forall k :: k in sessions ==> k < bound
    ensures r.NotFound? <==> forall k :: k in sessions ==> !IsActiveOf(sessions[k], userId)
    ensures r.Ok? ==> r.value.id in sessions && IsActiveOf(sessions[r.value.id], userId)
                      && r.value.data.status == Active
    ensures r.Ok? ==> forall k :: k in sessions && IsActiveOf(sessions[k], userId) ==>
                                    sessions[k].createdAt <= sessions[r.value.id].createdAt
    ensures r.Ok? ==> Some(r.value) == FindActiveByUserId(sessions, bound, userId, now)
    ensures r.Ok? ==> r.value == ReadBack(Row(r.value.id, sessions[r.value.id]), now)
    ensures r.BadRequest? ==> false
  {
    match FindActiveByUserId(sessions, bound, userId, now)
    case None => NotFound("Nenhuma sess\U{e3}o ativa encontrada")
    case Some(row) =>
      ReadBackKeepsRecord(Row(row.id, sessions[row.id]), now);
      Ok(row)
  }

  /** `getGameHistory`: at most `limit` sessions, newest first; a missing,
      unparsable or zero limit means 10. */
  function GetGameHistory(sessions: map<SessionId, SessionData>, bound: nat, userId: string, limit: Option<int>, now: int): (r: seq<Row>)
    requires forall k :: k in sessions ==> k < bound
    ensures r == FindByUserId(sessions, bound, userId, ParseLimit(limit, 10), now)
    ensures (limit.None? || limit.value == 0 ==>
              |r| == (var n := |OwnedKeys(sessions, userId)|; if n < 10 then n else 10))
    ensures (limit.Some? && limit.value > 0 ==>
              |r| == (var n := |OwnedKeys(sessions, userId)|; if n < limit.value then n else limit.value))
    ensures forall i, j :: 0 <= i < j < |r| ==> r[i].data.createdAt >= r[j].data.createdAt
    ensures forall x :: x in r ==> x.id in sessions && sessions[x.id].userId == userId
  {
    FindByUserId(sessions, bound, userId, ParseLimit(limit, 10), now)
  }
}
