/** The reporting endpoints: the ranking, the general statistics, one user's
    session report and the name search; all of them only read
    (backend/controllers/reportsController.js). */
module ReportsController {
  import opened Common
  import opened Sessions
  import Users

  datatype RankEntry = RankEntry(
    position: int, id: Option<string>, fullname: string, totalScore: int, senacoins: int,
    pensCollected: int, cupsCollected: int, booksCollected: int, createdAt: int)

  /** `getUserRanking`: the first `limit` listed users with positions from
      1; a missing, unparsable or zero limit means 50. */
  function GetUserRanking(users: map<string, Users.UserRecord>, order: seq<string>, limit: Option<int>, now: int): (r: seq<RankEntry>)
    ensures var all := Users.FindAll(users, order, now);
            && |r| == SliceEnd(|all|, ParseLimit(limit, 50))
            && forall i :: 0 <= i < |r| ==>
                 && r[i].position == i + 1
                 && r[i].id == all[i].id && r[i].fullname == all[i].fullname
                 && r[i].totalScore == all[i].totalScore && r[i].senacoins == all[i].senacoins
                 && r[i].pensCollected == all[i].pensCollected && r[i].cupsCollected == all[i].cupsCollected
                 && r[i].booksCollected == all[i].booksCollected && r[i].createdAt == all[i].createdAt
    ensures limit.None? || limit == Some(0) ==> |r| <= 50
  {
    var top := Take(Users.FindAll(users, order, now), ParseLimit(limit, 50));
    seq(|top|, i requires 0 <= i < |top| =>
      RankEntry(i + 1, top[i].id, top[i].fullname, top[i].totalScore, top[i].senacoins,
                top[i].pensCollected, top[i].cupsCollected, top[i].booksCollected, top[i].createdAt))
  }

  datatype TopPlayer = TopPlayer(fullname: string, totalScore: int)

  datatype Stats = Stats(
    totalUsers: int, totalScore: int, totalSenacoins: int, totalPensCollected: int,
    totalCupsCollected: int, totalBooksCollected: int, averageScore: int, topPlayer: Option<TopPlayer>)

  function ViewScore(u: Users.UserView): int { u.totalScore }
  function ViewSenacoins(u: Users.UserView): int { u.senacoins }
  function ViewPens(u: Users.UserView): int { u.pensCollected }
  function ViewCups(u: Users.UserView): int { u.cupsCollected }
  function ViewBooks(u: Users.UserView): int { u.booksCollected }

  /** The statistics of a list of users; the average is the total divided by
      the count, rounded to the nearest integer with halves going up. */
  function StatsOf(all: seq<Users.UserView>): (st: Stats)
    ensures st.totalUsers == |all|
    ensures st.totalScore == SumBy(all, ViewScore)
    ensures st.totalSenacoins == SumBy(all, ViewSenacoins)
    ensures st.totalPensCollected == SumBy(all, ViewPens)
    ensures st.totalCupsCollected == SumBy(all, ViewCups)
    ensures st.totalBooksCollected == SumBy(all, ViewBooks)
    ensures |all| > 0 ==> 2 * |all| * st.averageScore <= 2 * st.totalScore + |all| < 2 * |all| * (st.averageScore + 1)
    ensures |all| == 0 ==> st.averageScore == 0 && st.topPlayer.None?
    ensures |all| > 0 ==> st.topPlayer == Some(TopPlayer(all[0].fullname, all[0].totalScore))
  {
    var total := SumBy(all, ViewScore);
    Stats(
      |all|, total,
      SumBy(all, ViewSenacoins),
      SumBy(all, ViewPens),
      SumBy(all, ViewCups),
      SumBy(all, ViewBooks),
      if |all| > 0 then RoundDiv(total, |all|) else 0,
      if |all| > 0 then Some(TopPlayer(all[0].fullname, all[0].totalScore)) else None)
  }

  /** The average lies between the lowest and the highest total. */
  lemma AverageWithinScores(all: seq<Users.UserView>, lo: int, hi: int)
    requires |all| > 0
    requires forall i :: 0 <= i < |all| ==> lo <= all[i].totalScore <= hi
    ensures lo <= StatsOf(all).averageScore <= hi
  {
    var st := StatsOf(all);
    SumByBounds(all, ViewScore, lo, hi);
    RoundedWithin(st.totalScore, |all|, st.averageScore, lo, hi);
  }

  /** The totals add up over two stretches of the listing, so each user's
      folds enter them exactly once. */
  lemma StatsSplit(a: seq<Users.UserView>, b: seq<Users.UserView>)
    ensures StatsOf(a + b).totalUsers == StatsOf(a).totalUsers + StatsOf(b).totalUsers
    ensures StatsOf(a + b).totalScore == StatsOf(a).totalScore + StatsOf(b).totalScore
    ensures StatsOf(a + b).totalSenacoins == StatsOf(a).totalSenacoins + StatsOf(b).totalSenacoins
    ensures StatsOf(a + b).totalPensCollected == StatsOf(a).totalPensCollected + StatsOf(b).totalPensCollected
    ensures StatsOf(a + b).totalCupsCollected == StatsOf(a).totalCupsCollected + StatsOf(b).totalCupsCollected
    ensures StatsOf(a + b).totalBooksCollected == StatsOf(a).totalBooksCollected + StatsOf(b).totalBooksCollected
  {
    SumByAppend(a, b, ViewScore);
    SumByAppend(a, b, ViewSenacoins);
    SumByAppend(a, b, ViewPens);
    SumByAppend(a, b, ViewCups);
    SumByAppend(a, b, ViewBooks);
  }

  /** `getGeneralStats`: the statistics of the listed users' views, whose
      count, five totals, rounded average and top player `StatsOf` states. */
  function GetGeneralStats(users: map<string, Users.UserRecord>, order: seq<string>, now: int): (st: Stats)
    ensures st == StatsOf(Users.FindAll(users, order, now))
    ensures st.totalUsers == |Users.Listed(users, order)|
  {
    var all := Users.FindAll(users, order, now);
    StatsOf(all)
  }

  /** What `getGeneralStats` answers, field by field. */
  lemma GeneralStatsFields(users: map<string, Users.UserRecord>, order: seq<string>, now: int)
    ensures var st := GetGeneralStats(users, order, now);
            var all := Users.FindAll(users, order, now);
            && st.totalUsers == |Users.Listed(users, order)| == |all|
            && st.totalScore == SumBy(all, ViewScore)
            && st.totalSenacoins == SumBy(all, ViewSenacoins)
            && st.totalPensCollected == SumBy(all, ViewPens)
            && st.totalCupsCollected == SumBy(all, ViewCups)
            && st.totalBooksCollected == SumBy(all, ViewBooks)
            && (|all| > 0 ==> 2 * |all| * st.averageScore <= 2 * st.totalScore + |all| < 2 * |all| * (st.averageScore + 1))
            && (|all| == 0 ==> st.averageScore == 0 && st.topPlayer.None?)
            && (|all| > 0 ==> st.topPlayer == Some(TopPlayer(all[0].fullname, all[0].totalScore)))
  {
    var all := Users.FindAll(users, order, now);
    var st := StatsOf(all);
    assert GetGeneralStats(users, order, now) == st;
  }

  datatype SessionStats = SessionStats(total: int, completed: int, failed: int, successRate: int)

  datatype UserReport = UserReport(user: Users.UserView, sessionStats: SessionStats, recentSessions: seq<Row>)

  function IsCompleted(r: Row): bool { r.data.status == Completed }
  function IsFailed(r: Row): bool { r.data.status == Sessions.Failed }

  /** The counts of a history and the rounded share of completed sessions. */
  function StatsOfSessions(sessions: seq<Row>): (st: SessionStats)
    ensures st.total == |sessions|
    ensures st.completed == |Filter(sessions, IsCompleted)| && st.failed == |Filter(sessions, IsFailed)|
    ensures 0 <= st.completed && 0 <= st.failed && st.completed + st.failed <= st.total
    ensures 0 <= st.successRate <= 100
    ensures st.total == 0 ==> st.successRate == 0
    ensures st.total > 0 ==> 2 * st.total * st.successRate <= 200 * st.completed + st.total < 2 * st.total * (st.successRate + 1)
  {
    var c := |Filter(sessions, IsCompleted)|;
    var f := |Filter(sessions, IsFailed)|;
    FilterDisjoint(sessions, IsCompleted, IsFailed);
    var rate := if |sessions| > 0 then (RoundedPercentBounds(c, |sessions|); RoundDiv(100 * c, |sessions|)) else 0;
    SessionStats(|sessions|, c, f, rate)
  }

  /** `getUserReport`: 404 for an unknown user; otherwise the statistics of
      the newest 20 sessions and the newest 10 of them. */
  function GetUserReport(users: map<string, Users.UserRecord>, sessions: map<SessionId, SessionData>, bound: nat,
                         userId: string, now: int): (r: Response<UserReport>)
    requires forall k :: k in sessions ==> k < bound
    ensures r.NotFound? <==> userId !in users
    ensures r.BadRequest? ==> false
    ensures r.Ok? ==>
              && r.value.sessionStats.total <= 20
              && r.value.sessionStats.completed + r.value.sessionStats.failed <= r.value.sessionStats.total
              && |r.value.recentSessions| == (var n := |FindByUserId(sessions, bound, userId, 20, now)|; if n < 10 then n else 10)
              && r.value.recentSessions == FindByUserId(sessions, bound, userId, 20, now)[..|r.value.recentSessions|]
              && r.value.sessionStats == StatsOfSessions(FindByUserId(sessions, bound, userId, 20, now))
  {
    match Users.FindById(users, userId, now)
    case None => NotFound("Usu\U{e1}rio n\U{e3}o encontrado")
    case Some(u) =>
      var history := FindByUserId(sessions, bound, userId, 20, now);
      Ok(UserReport(Users.ToJSON(users, u), StatsOfSessions(history), Take(history, 10)))
  }

  datatype SearchResult = SearchResult(id: Option<string>, fullname: string, totalScore: int, senacoins: int, createdAt: int)

  datatype Search = Search(results: seq<SearchResult>, total: int)

  function ResultOf(u: Users.UserView): SearchResult {
    SearchResult(u.id, u.fullname, u.totalScore, u.senacoins, u.createdAt)
  }

  /** The name search over a list of users: the first 20 matches and the
      number of all matches. */
  function SearchIn(all: seq<Users.UserView>, query: string): (s: Search)
    ensures var matches := Filter(all, (u: Users.UserView) => NameMatches(u.fullname, query));
            && s.total == |matches|
            && |s.results| == (if s.total < 20 then s.total else 20)
            && forall i :: 0 <= i < |s.results| ==> s.results[i] == ResultOf(matches[i])
  {
    var matches := Filter(all, (u: Users.UserView) => NameMatches(u.fullname, query));
    var top := Take(matches, 20);
    Search(seq(|top|, i requires 0 <= i < |top| => ResultOf(top[i])), |matches|)
  }

  /** Every listed user whose name matches is counted, and is returned when
      there are at most 20 matches. */
  lemma SearchFindsEveryMatch(all: seq<Users.UserView>, query: string, u: Users.UserView)
    requires u in all && NameMatches(u.fullname, query)
    ensures SearchIn(all, query).total >= 1
    ensures SearchIn(all, query).total <= 20 ==> ResultOf(u) in SearchIn(all, query).results
  {
    var p := (v: Users.UserView) => NameMatches(v.fullname, query);
    var matches := Filter(all, p);
    FilterComplete(all, p, u);
    var i :| 0 <= i < |matches| && matches[i] == u;
    if SearchIn(all, query).total <= 20 {
      assert SearchIn(all, query).results[i] == ResultOf(u);
    }
  }

  /** `searchUsers`: 400 for a missing query or one shorter than 2
      characters; otherwise the search over the listed users. */
  function SearchUsers(users: map<string, Users.UserRecord>, order: seq<string>, query: Option<string>, now: int): (r: Response<Search>)
    ensures r.BadRequest? <==> query.None? || |query.value| < 2
    ensures r.NotFound? ==> false
    ensures r.Ok? ==> r.value == SearchIn(Users.FindAll(users, order, now), query.value)
    ensures r.Ok? ==> |r.value.results| <= 20 && |r.value.results| <= r.value.total
    ensures r.Ok? ==> forall x :: x in r.value.results ==> NameMatches(x.fullname, query.value)
  {
    if query.None? || |query.value| < 2 then BadRequest("Query de busca deve ter pelo menos 2 caracteres")
    else
      var s := SearchIn(Users.FindAll(users, order, now), query.value);
      SearchResultsMatch(Users.FindAll(users, order, now), query.value);
      Ok(s)
  }

  lemma SearchResultsMatch(all: seq<Users.UserView>, query: string)
    ensures forall x :: x in SearchIn(all, query).results ==> NameMatches(x.fullname, query)
  {
    var p := (v: Users.UserView) => NameMatches(v.fullname, query);
    var matches := Filter(all, p);
    var s := SearchIn(all, query);
    forall x | x in s.results ensures NameMatches(x.fullname, query) {
      var i :| 0 <= i < |s.results| && s.results[i] == x;
      assert matches[i] in matches;
    }
  }
}
