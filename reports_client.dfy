/** The reports page: the ranking table it loaded, the rows it shows, the
    local name filter and the server search (frontend/js/reports.js). Server
    replies are parameters. */
module ReportsClient {
  import opened Common
  import ReportsController
  import Users

  /** The fields of a table row the page shows. */
  datatype TableRow = TableRow(position: int, id: Option<string>, fullname: string, totalScore: int, senacoins: int, createdAt: int)

  function FromRank(e: ReportsController.RankEntry): TableRow {
    TableRow(e.position, e.id, e.fullname, e.totalScore, e.senacoins, e.createdAt)
  }

  /** The rows whose lower-cased name contains the lower-cased query, which
      is not trimmed. */
  function LocalMatches(rows: seq<TableRow>, query: string): (r: seq<TableRow>)
    ensures |r| <= |rows|
    ensures forall x :: x in r <==> x in rows && NameMatches(x.fullname, query)
  {
    var r := Filter(rows, (x: TableRow) => NameMatches(x.fullname, query));
    forall x | x in rows && NameMatches(x.fullname, query)
      ensures x in r
    {
      FilterComplete(rows, (x: TableRow) => NameMatches(x.fullname, query), x);
    }
    r
  }

  /** The filter keeps the table's order: the matches of two consecutive
      stretches of rows are the matches of the first followed by those of
      the second. */
  lemma LocalMatchesKeepOrder(a: seq<TableRow>, b: seq<TableRow>, query: string)
    ensures LocalMatches(a + b, query) == LocalMatches(a, query) + LocalMatches(b, query)
  {
    FilterAppend(a, b, (x: TableRow) => NameMatches(x.fullname, query));
  }

  /** The empty query matches every row. */
  lemma {:induction false} EmptyQueryMatchesAll(rows: seq<TableRow>)
    ensures LocalMatches(rows, "") == rows
  {
    forall i | 0 <= i < |rows|
      ensures NameMatches(rows[i].fullname, "")
    {
      OccursContains(Lower(rows[i].fullname), Lower(""), 0);
    }
    FilterAll(rows, (x: TableRow) => NameMatches(x.fullname, ""));
  }

  /** The search results as the table shows them: in reply order, numbered
      from 1. */
  function Numbered(results: seq<ReportsController.SearchResult>): (rows: seq<TableRow>)
    ensures |rows| == |results|
    ensures forall i :: 0 <= i < |rows| ==> rows[i].position == i + 1
    ensures (forall i :: 0 <= i < |rows| ==>
               && rows[i].id == results[i].id && rows[i].fullname == results[i].fullname
               && rows[i].totalScore == results[i].totalScore && rows[i].senacoins == results[i].senacoins
               && rows[i].createdAt == results[i].createdAt)
  {
    seq(|results|, i requires 0 <= i < |results| =>
      TableRow(i + 1, results[i].id, results[i].fullname, results[i].totalScore, results[i].senacoins, results[i].createdAt))
  }

  class ReportsManager {
    var currentData: seq<TableRow>
    var filteredData: seq<TableRow>

    constructor ()
      ensures currentData == [] && filteredData == []
    {
      currentData := [];
      filteredData := [];
    }

    /** `loadReportsData`, given the server's ranking: on success it becomes
        both the loaded and the shown data; otherwise nothing changes. */
    method LoadReportsData(reply: Response<seq<ReportsController.RankEntry>>)
      modifies this
      ensures (reply.Ok? ==>
                && |currentData| == |reply.value|
                && (forall i :: 0 <= i < |currentData| ==> currentData[i] == FromRank(reply.value[i]))
                && filteredData == currentData)
      ensures !reply.Ok? ==> unchanged(this)
    {
      if reply.Ok? {
        currentData := seq(|reply.value|, i requires 0 <= i < |reply.value| => FromRank(reply.value[i]));
        filteredData := currentData;
      }
    }

    /** `filterData`: a blank query shows every loaded row; any other query
        shows the loaded rows whose names match it, in table order. The loaded
        rows never change. */
    method FilterData(query: string)
      modifies this
      ensures currentData == old(currentData)
      ensures IsBlank(query) ==> filteredData == currentData
      ensures !IsBlank(query) ==> filteredData == LocalMatches(currentData, query)
    {
      if IsBlank(query) {
        filteredData := currentData;
      } else {
        filteredData := LocalMatches(currentData, query);
      }
    }

    /** `searchUsers`, given the server's reply: a query shorter than 2
        characters shows the loaded rows again without asking; a successful
        reply is shown numbered from 1; a failed request falls back to the
        local filter. The loaded rows never change. */
    method SearchUsers(query: string, reply: Response<ReportsController.Search>) returns (asked: bool)
      modifies this
      ensures currentData == old(currentData)
      ensures asked <==> |query| >= 2
      ensures !asked ==> filteredData == currentData
      ensures asked && reply.Ok? ==> filteredData == Numbered(reply.value.results)
      ensures (asked && !reply.Ok? ==>
                filteredData == (if IsBlank(query) then currentData else LocalMatches(currentData, query)))
    {
      if |query| < 2 {
        filteredData := currentData;
        return false;
      }
      asked := true;
      if reply.Ok? {
        filteredData := Numbered(reply.value.results);
      } else {
        FilterData(query);
      }
    }
  }

  /** Shown a successful server search, the table holds at most 20 rows,
      every one of them a name match, numbered 1 to n. */
  lemma ServerSearchShown(users: map<string, Users.UserRecord>, order: seq<string>, query: string, now: int)
    requires |query| >= 2
    ensures ReportsController.SearchUsers(users, order, Some(query), now).Ok?
    ensures (var rows := Numbered(ReportsController.SearchUsers(users, order, Some(query), now).value.results);
             && |rows| <= 20
             && forall i :: 0 <= i < |rows| ==> rows[i].position == i + 1 && NameMatches(rows[i].fullname, query))
  {
    var s := ReportsController.SearchUsers(users, order, Some(query), now).value;
    forall i | 0 <= i < |s.results|
      ensures NameMatches(s.results[i].fullname, query)
    {
      assert s.results[i] in s.results;
    }
  }
}
