/** Users: the email key encoding, the user record and its stored form, the
    mutating operations of the user object (coins, bonuses, logins, reports)
    and the derived totals (backend/models/User.js). */
module Users {
  import opened Common

  // ---------------------------------------------------------------------------
  // Email keys.

  /** `s.replace(/pat/g, rep)` for a literal pattern: every leftmost,
      non-overlapping occurrence of `pat` is replaced. */
  function Replace(s: string, pat: string, rep: string): string
    requires |pat| > 0
    decreases |s|
  {
    if s == [] then []
    else if IsPrefix(pat, s) then rep + Replace(s[|pat|..], pat, rep)
    else [s[0]] + Replace(s[1..], pat, rep)
  }

  /** The database key of an email: dots become commas, `@` becomes `_at_`. */
  function EncodeEmail(email: string): string {
    Replace(Replace(email, ".", ","), "@", "_at_")
  }

  /** The inverse attempted by `decodeEmail`: commas become dots, `_at_`
      becomes `@`. */
  function DecodeEmail(key: string): string {
    Replace(Replace(key, ",", "."), "_at_", "@")
  }

  lemma ReplaceCons(c: char, s: string, p: char, rep: string)
    ensures Replace([c] + s, [p], rep) == (if c == p then rep else [c]) + Replace(s, [p], rep)
  {
    assert ([c] + s)[1..] == s;
  }

  lemma {:induction false} ReplaceAppend(a: string, b: string, p: char, rep: string)
    ensures Replace(a + b, [p], rep) == Replace(a, [p], rep) + Replace(b, [p], rep)
  {
    if a != [] {
      assert a + b == [a[0]] + (a[1..] + b);
      assert a == [a[0]] + a[1..];
      ReplaceCons(a[0], a[1..] + b, p, rep);
      ReplaceCons(a[0], a[1..], p, rep);
      ReplaceAppend(a[1..], b, p, rep);
    } else {
      assert a + b == b;
    }
  }

  /** Every character of a single-character replacement comes from the
      input (and is not the pattern) or from the replacement text. */
  lemma {:induction false} ReplaceChars(s: string, p: char, rep: string)
    ensures forall ch :: ch in Replace(s, [p], rep) ==> (ch in s && ch != p) || ch in rep
  {
    if s != [] {
      assert s == [s[0]] + s[1..];
      ReplaceCons(s[0], s[1..], p, rep);
      ReplaceChars(s[1..], p, rep);
    }
  }

  /** Keys hold no `.` and no `@`, the characters a database key may not
      contain or that encoding is meant to hide. */
  lemma EncodedKeyHasNoDotOrAt(email: string)
    ensures '.' !in EncodeEmail(email) && '@' !in EncodeEmail(email)
  {
    ReplaceChars(email, '.', ",");
    ReplaceChars(Replace(email, ".", ","), '@', "_at_");
  }

  lemma EncodedKeyNonEmpty(email: string)
    requires email != ""
    ensures EncodeEmail(email) != ""
  {
    assert email == [email[0]] + email[1..];
    EncodeCons(email[0], email[1..]);
  }

  /** The key of a single character. */
  function EncodeChar(c: char): string {
    if c == '.' then "," else if c == '@' then "_at_" else [c]
  }

  lemma EncodeCons(c: char, t: string)
    ensures EncodeEmail([c] + t) == EncodeChar(c) + EncodeEmail(t)
  {
    ReplaceCons(c, t, '.', ",");
    var a := Replace(t, ".", ",");
    var c1 := if c == '.' then "," else [c];
    ReplaceAppend(c1, a, '@', "_at_");
    ReplaceCons(c1[0], [], '@', "_at_");
    assert c1 == [c1[0]] + [];
  }

  lemma DecodeCons(c: char, y: string)
    requires c != ',' && c != '_'
    ensures DecodeEmail(EncodeChar(c) + y) == [c] + DecodeEmail(y)
  {
    var z := Replace(y, ",", ".");
    ReplaceAppend(EncodeChar(c), y, ',', ".");
    if c == '.' {
      ReplaceCons(',', [], ',', ".");
      assert "," == [','] + [];
      assert ("." + z)[1..] == z;
    } else if c == '@' {
      assert "_at_" == ['_'] + "at_";
      ReplaceCons('_', "at_", ',', ".");
      assert "at_" == ['a'] + "t_";
      ReplaceCons('a', "t_", ',', ".");
      assert "t_" == ['t'] + "_";
      ReplaceCons('t', "_", ',', ".");
      assert "_" == ['_'] + [];
      ReplaceCons('_', [], ',', ".");
      assert Replace("_at_", ",", ".") == "_at_";
      assert IsPrefix("_at_", "_at_" + z);
      assert ("_at_" + z)[4..] == z;
    } else {
      ReplaceCons(c, [], ',', ".");
      assert [c] == [c] + [];
      assert !IsPrefix("_at_", [c] + z);
      assert ([c] + z)[1..] == z;
    }
  }

  /** Decoding undoes encoding for every email without `,` or `_`. */
  lemma {:induction false} DecodeEncode(email: string)
    requires ',' !in email && '_' !in email
    ensures DecodeEmail(EncodeEmail(email)) == email
  {
    if email != [] {
      var c, t := email[0], email[1..];
      assert email == [c] + t;
      EncodeCons(c, t);
      DecodeCons(c, EncodeEmail(t));
      DecodeEncode(t);
    }
  }

  lemma EncodeConcat(a: string, b: string)
    ensures EncodeEmail(a + b) == EncodeEmail(a) + EncodeEmail(b)
  {
    ReplaceAppend(a, b, '.', ",");
    ReplaceAppend(Replace(a, ".", ","), Replace(b, ".", ","), '@', "_at_");
  }

  /** A comma and a dot in the same place give the same key. */
  lemma CommaEncodesLikeDot(a: string, b: string)
    ensures EncodeEmail(a + "," + b) == EncodeEmail(a + "." + b)
  {
    EncodeConcat(a + ",", b);
    EncodeConcat(a, ",");
    EncodeConcat(a + ".", b);
    EncodeConcat(a, ".");
    assert EncodeEmail(",") == "," == EncodeEmail(".");
  }

  /** Two different emails share a key, and a comma comes back as a dot. */
  lemma CommaDoesNotRoundTrip()
    ensures "a,b@c.d" != "a.b@c.d" && EncodeEmail("a,b@c.d") == EncodeEmail("a.b@c.d")
    ensures DecodeEmail(EncodeEmail("a,b@c.d")) == "a.b@c.d"
  {
    assert "a,b@c.d" == "a" + "," + "b@c.d" && "a.b@c.d" == "a" + "." + "b@c.d";
    CommaEncodesLikeDot("a", "b@c.d");
    DecodeEncode("a.b@c.d");
  }

  lemma {:induction false} ReplaceAbsent(s: string, p: char, rep: string)
    requires p !in s
    ensures Replace(s, [p], rep) == s
  {
    if s != [] {
      assert s == [s[0]] + s[1..];
      ReplaceCons(s[0], s[1..], p, rep);
      ReplaceAbsent(s[1..], p, rep);
    }
  }

  lemma ReplaceAtHit(y: string)
    ensures Replace("_at_" + y, "_at_", "@") == "@" + Replace(y, "_at_", "@")
  {
    assert IsPrefix("_at_", "_at_" + y) && ("_at_" + y)[4..] == y;
  }

  lemma ReplaceAtMiss(c: char, y: string)
    requires c != '_'
    ensures Replace([c] + y, "_at_", "@") == [c] + Replace(y, "_at_", "@")
  {
    assert ([c] + y)[0] == c;
    assert !IsPrefix("_at_", [c] + y) && ([c] + y)[1..] == y;
  }

  lemma EncodeUnderscoreSample()
    ensures EncodeEmail("_at@") == "_at_at_"
  {
    assert "_at@" == "_at" + "@";
    EncodeConcat("_at", "@");
    ReplaceAbsent("_at", '.', ",");
    ReplaceAbsent("_at", '@', "_at_");
  }

  lemma DecodeUnderscoreSample()
    ensures DecodeEmail("_at_at_") == "@at_"
  {
    ReplaceAbsent("_at_at_", ',', ".");
    assert "_at_at_" == "_at_" + "at_";
    ReplaceAtHit("at_");
    assert "at_" == ['a'] + "t_" && "t_" == ['t'] + "_";
    ReplaceAtMiss('a', "t_");
    ReplaceAtMiss('t', "_");
    assert !IsPrefix("_at_", "_") && "_"[1..] == "";
  }

  /** An underscore before `at@` is swallowed into a fake `_at_`. */
  lemma UnderscoreDoesNotRoundTrip()
    ensures EncodeEmail("_at@") == "_at_at_"
    ensures DecodeEmail(EncodeEmail("_at@")) == "@at_"
  {
    EncodeUnderscoreSample();
    DecodeUnderscoreSample();
  }

  // ---------------------------------------------------------------------------
  // Records.

  const Concluded: string := "Conclu\U{ed}do"
  const Failed: string := "Falhou"

  /** The bonuses given to a user that has none. */
  const DefaultBonuses: map<string, bool> := map["doublePoints" := false, "extraTime" := false]

  /** A stored game report. */
  datatype Report = Report(
    date: int, score: int, status: string, username: string, phase: int,
    itemsCollected: map<string, int>)

  /** The `profile` part of a stored user. */
  datatype Profile = Profile(
    email: string, fullname: string, phone: string, senacoins: int, loginCount: int,
    createdAt: int, lastLogin: int)

  /** A stored user; `reports` in the order the database lists them (push
      order). */
  datatype UserRecord = UserRecord(profile: Profile, bonuses: map<string, bool>, reports: seq<Report>)

  /** The fields of a user object. */
  datatype UserFields = UserFields(
    id: Option<string>, email: string, fullname: string, phone: string, senacoins: int,
    loginCount: int, createdAt: int, lastLogin: int, bonuses: map<string, bool>)

  /** The `data` argument of the constructor: every field may be absent. */
  datatype UserInit = UserInit(
    id: Option<string>, email: Option<string>, fullname: Option<string>, phone: Option<string>,
    senacoins: Option<int>, loginCount: Option<int>, createdAt: Option<int>, lastLogin: Option<int>,
    bonuses: Option<map<string, bool>>)

  /** What the constructor stores: each field falls back through `||`. */
  function UserDefaults(data: UserInit, now: int): UserFields {
    UserFields(
      if TruthyStr(data.id) then data.id else None,
      OrStr(data.email, ""), OrStr(data.fullname, ""), OrStr(data.phone, ""),
      OrInt(data.senacoins, 100), OrInt(data.loginCount, 0),
      OrInt(data.createdAt, now), OrInt(data.lastLogin, now),
      OrObj(data.bonuses, DefaultBonuses))
  }

  /** The constructor argument `findById` builds from a stored record; an
      empty bonus map is not kept by the database and reads back as missing. */
  function StoredInit(key: string, rec: UserRecord): UserInit {
    var p := rec.profile;
    UserInit(
      Some(key), Some(p.email), Some(p.fullname), Some(p.phone),
      Some(OrInt(Some(p.senacoins), 100)), Some(OrInt(Some(p.loginCount), 0)),
      Some(p.createdAt), Some(p.lastLogin),
      Some(if rec.bonuses == map[] then DefaultBonuses else rec.bonuses))
  }

  /** `findById` on the map of stored users. */
  function FindById(users: map<string, UserRecord>, key: string, now: int): (r: Option<UserFields>)
    ensures r.Some? <==> key in users
    ensures r.Some? ==> r.value.fullname == users[key].profile.fullname
                        && r.value.loginCount == users[key].profile.loginCount
                        && r.value.senacoins == (if users[key].profile.senacoins == 0 then 100
                                                 else users[key].profile.senacoins)
  {
    if key in users then Some(UserDefaults(StoredInit(key, users[key]), now)) else None
  }

  /** `findByEmail`: the lookup under the email's key. */
  function FindByEmail(users: map<string, UserRecord>, email: string, now: int): (r: Option<UserFields>)
    ensures r.Some? <==> EncodeEmail(email) in users
    ensures r.Some? ==> r.value.id == Some(EncodeEmail(email)) || EncodeEmail(email) == ""
  {
    FindById(users, EncodeEmail(email), now)
  }

  /** A stored balance of 0, reached by spending every coin, is read back as
      the starting balance of 100. */
  lemma SpentOutBalanceReadsAsHundred(users: map<string, UserRecord>, key: string, now: int)
    requires key in users && users[key].profile.senacoins == 0
    ensures FindById(users, key, now).value.senacoins == 100
  {
  }

  /** The reports of the user under `id`, in stored order. */
  function StoredReports(users: map<string, UserRecord>, id: Option<string>): seq<Report> {
    if id.Some? && id.value in users then users[id.value].reports else []
  }

  function ReportDate(r: Report): int { r.date }
  function ReportScore(r: Report): int { r.score }

  /** `r.itemsCollected?.[k] || 0`. */
  function ItemCount(r: Report, k: string): int {
    if k in r.itemsCollected then r.itemsCollected[k] else 0
  }

  /** `getReports`: the user's reports, newest first. */
  function GetReports(users: map<string, UserRecord>, id: Option<string>): (r: seq<Report>)
    ensures multiset(r) == multiset(StoredReports(users, id))
    ensures forall i, j :: 0 <= i < j < |r| ==> r[i].date >= r[j].date
  {
    SortDescCorrect(StoredReports(users, id), ReportDate);
    SortDesc(StoredReports(users, id), ReportDate)
  }

  /** The object `toJSON` resolves to. */
  datatype UserView = UserView(
    id: Option<string>, email: string, fullname: string, phone: string, senacoins: int,
    loginCount: int, createdAt: int, lastLogin: int, bonuses: map<string, bool>,
    totalScore: int, reportsCount: int, pensCollected: int, cupsCollected: int, booksCollected: int)

  /** `toJSON`: the fields plus folds over the user's reports. The folds run
      over the date-sorted list; their values are those of the stored list. */
  function ToJSON(users: map<string, UserRecord>, u: UserFields): (v: UserView)
    ensures v.id == u.id && v.fullname == u.fullname && v.senacoins == u.senacoins
            && v.createdAt == u.createdAt && v.loginCount == u.loginCount
    ensures v.reportsCount == |StoredReports(users, u.id)|
    ensures v.totalScore == SumBy(StoredReports(users, u.id), ReportScore)
    ensures v.pensCollected == SumBy(StoredReports(users, u.id), (r: Report) => ItemCount(r, "pens"))
    ensures v.cupsCollected == SumBy(StoredReports(users, u.id), (r: Report) => ItemCount(r, "cups"))
    ensures v.booksCollected == SumBy(StoredReports(users, u.id), (r: Report) => ItemCount(r, "books"))
  {
    var stored := StoredReports(users, u.id);
    var reports := GetReports(users, u.id);
    var pens := (r: Report) => ItemCount(r, "pens");
    var cups := (r: Report) => ItemCount(r, "cups");
    var books := (r: Report) => ItemCount(r, "books");
    SumBySort(stored, ReportDate, ReportScore);
    SumBySort(stored, ReportDate, pens);
    SumBySort(stored, ReportDate, cups);
    SumBySort(stored, ReportDate, books);
    UserView(u.id, u.email, u.fullname, u.phone, u.senacoins, u.loginCount, u.createdAt, u.lastLogin,
             u.bonuses, SumBy(reports, ReportScore), |reports|,
             SumBy(reports, pens), SumBy(reports, cups), SumBy(reports, books))
  }

  /** Scores are never negative in practice; then totals are not either. */
  lemma TotalScoreNonNegative(users: map<string, UserRecord>, u: UserFields)
    requires forall r :: r in StoredReports(users, u.id) ==> r.score >= 0
    ensures ToJSON(users, u).totalScore >= 0
  {
    var s := StoredReports(users, u.id);
    assert forall i :: 0 <= i < |s| ==> s[i] in s;
    SumByNonNegative(s, ReportScore);
  }

  /** The users listed by the database, in listing order. */
  function Listed(users: map<string, UserRecord>, order: seq<string>): (keys: seq<string>)
    ensures forall k :: k in keys ==> k in users
  {
    Filter(order, (k: string) => k in users)
  }

  /** The key `sort` reads: the object's `totalScore` property, which the
      constructor does not keep, so `|| 0` makes it 0 for every user. */
  function ListingKey(v: UserView): int { 0 }

  /** `findAll`: every listed user with the report folds, in listing order,
      since the sort compares equal keys only. */
  function FindAll(users: map<string, UserRecord>, order: seq<string>, now: int): (r: seq<UserView>)
    ensures |r| == |Listed(users, order)|
    ensures forall i :: 0 <= i < |r| ==>
              Listed(users, order)[i] in users
              && r[i] == ToJSON(users, FindById(users, Listed(users, order)[i], now).value)
  {
    var keys := Listed(users, order);
    var views := seq(|keys|, i requires 0 <= i < |keys| => ToJSON(users, FindById(users, keys[i], now).value));
    SortDescConstantKey(views, ListingKey);
    SortDesc(views, ListingKey)
  }

  // ---------------------------------------------------------------------------
  // The store and the user object.

  /** The stored users by key, and the order the database lists them in. */
  class UserStore {
    var users: map<string, UserRecord>
    var order: seq<string>

    /** Listing order holds every key once; no key is empty, because the
        path `users/` is the users node itself. */
    ghost predicate Valid()
      reads this
    {
      && "" !in users
      && (forall k :: k in users <==> k in order)
      && (forall i, j :: 0 <= i < j < |order| ==> order[i] != order[j])
    }

    constructor ()
      ensures Valid() && users == map[] && order == []
    {
      users := map[];
      order := [];
    }
  }

  class User {
    var id: Option<string>
    var email: string
    var fullname: string
    var phone: string
    var senacoins: int
    var loginCount: int
    var createdAt: int
    var lastLogin: int
    var bonuses: map<string, bool>

    function Fields(): UserFields
      reads this
    {
      UserFields(id, email, fullname, phone, senacoins, loginCount, createdAt, lastLogin, bonuses)
    }

    function ProfileOf(): Profile
      reads this
    {
      Profile(email, fullname, phone, senacoins, loginCount, createdAt, lastLogin)
    }

    constructor (data: UserInit, now: int)
      ensures Fields() == UserDefaults(data, now)
    {
      var d := UserDefaults(data, now);
      id, email, fullname, phone := d.id, d.email, d.fullname, d.phone;
      senacoins, loginCount, createdAt, lastLogin, bonuses := d.senacoins, d.loginCount, d.createdAt, d.lastLogin, d.bonuses;
    }

    /** Writes profile and bonuses under the user's key, taking the encoded
        email as key when there is none; reports are kept. */
    method Save(store: UserStore)
      requires store.Valid() && (TruthyStr(id) || email != "")
      modifies this, store
      ensures id == (if TruthyStr(old(id)) then old(id) else Some(EncodeEmail(email)))
      ensures (email, fullname, phone, senacoins, loginCount, createdAt, lastLogin, bonuses)
           == old((email, fullname, phone, senacoins, loginCount, createdAt, lastLogin, bonuses))
      ensures store.Valid()
      ensures store.users == old(store.users)[id.value := UserRecord(ProfileOf(), bonuses,
                               if id.value in old(store.users) then old(store.users)[id.value].reports else [])]
      ensures store.order == old(store.order) + (if id.value in old(store.users) then [] else [id.value])
    {
      if !TruthyStr(id) {
        EncodedKeyNonEmpty(email);
        id := Some(EncodeEmail(email));
      }
      var key := id.value;
      var reports := if key in store.users then store.users[key].reports else [];
      if key !in store.users {
        store.order := store.order + [key];
      }
      store.users := store.users[key := UserRecord(ProfileOf(), bonuses, reports)];
    }

    /** Appends a report of `newScore` and credits one coin per 10 points;
        the stored last-login time is set, the object's is not. */
    method UpdateScore(newScore: int, meta: GameMeta, store: UserStore, now: int)
      requires id.Some? && id.value in store.users && store.Valid()
      modifies this, store
      ensures senacoins == old(senacoins) + newScore / 10
      ensures (id, email, fullname, phone, loginCount, createdAt, lastLogin, bonuses)
           == old((id, email, fullname, phone, loginCount, createdAt, lastLogin, bonuses))
      ensures var rec := old(store.users)[id.value];
              store.users == old(store.users)[id.value := rec.(
                profile := rec.profile.(senacoins := senacoins, lastLogin := now),
                reports := rec.reports + [NewReport(newScore, meta, fullname, now)])]
      ensures store.order == old(store.order) && store.Valid()
    {
      var key := id.value;
      var rec := store.users[key];
      rec := rec.(reports := rec.reports + [NewReport(newScore, meta, fullname, now)]);
      senacoins := senacoins + newScore / 10;
      rec := rec.(profile := rec.profile.(senacoins := senacoins, lastLogin := now));
      store.users := store.users[key := rec];
    }

    /** Spends `amount` coins; refused, with nothing changed, when the balance
        is lower. */
    method SpendSenacoins(amount: int, store: UserStore) returns (ok: bool)
      requires id.Some? && id.value in store.users && store.Valid()
      modifies this, store
      ensures ok <==> old(senacoins) >= amount
      ensures senacoins == (if ok then old(senacoins) - amount else old(senacoins))
      ensures old(senacoins) >= 0 ==> senacoins >= 0
      ensures (id, email, fullname, phone, loginCount, createdAt, lastLogin, bonuses)
           == old((id, email, fullname, phone, loginCount, createdAt, lastLogin, bonuses))
      ensures var rec := old(store.users)[id.value];
              store.users == if ok then old(store.users)[id.value := rec.(profile := rec.profile.(senacoins := senacoins))]
                             else old(store.users)
      ensures store.order == old(store.order) && store.Valid()
    {
      if senacoins < amount {
        return false;
      }
      senacoins := senacoins - amount;
      var rec := store.users[id.value];
      store.users := store.users[id.value := rec.(profile := rec.profile.(senacoins := senacoins))];
      ok := true;
    }

    /** Sets one bonus flag to true, in the object and in the store. */
    method ActivateBonus(bonusType: string, store: UserStore)
      requires id.Some? && id.value in store.users && store.Valid()
      modifies this, store
      ensures bonuses == old(bonuses)[bonusType := true]
      ensures (id, email, fullname, phone, senacoins, loginCount, createdAt, lastLogin)
           == old((id, email, fullname, phone, senacoins, loginCount, createdAt, lastLogin))
      ensures var rec := old(store.users)[id.value];
              store.users == old(store.users)[id.value := rec.(bonuses := rec.bonuses[bonusType := true])]
      ensures store.order == old(store.order) && store.Valid()
    {
      bonuses := bonuses[bonusType := true];
      var rec := store.users[id.value];
      store.users := store.users[id.value := rec.(bonuses := rec.bonuses[bonusType := true])];
    }

    /** Sets one bonus flag to false, in the object and in the store. */
    method DeactivateBonus(bonusType: string, store: UserStore)
      requires id.Some? && id.value in store.users && store.Valid()
      modifies this, store
      ensures bonuses == old(bonuses)[bonusType := false]
      ensures (id, email, fullname, phone, senacoins, loginCount, createdAt, lastLogin)
           == old((id, email, fullname, phone, senacoins, loginCount, createdAt, lastLogin))
      ensures var rec := old(store.users)[id.value];
              store.users == old(store.users)[id.value := rec.(bonuses := rec.bonuses[bonusType := false])]
      ensures store.order == old(store.order) && store.Valid()
    {
      bonuses := bonuses[bonusType := false];
      var rec := store.users[id.value];
      store.users := store.users[id.value := rec.(bonuses := rec.bonuses[bonusType := false])];
    }

    /** Counts one more login at time `now`. */
    method UpdateLogin(store: UserStore, now: int)
      requires id.Some? && id.value in store.users && store.Valid()
      modifies this, store
      ensures loginCount == old(loginCount) + 1 && lastLogin == now
      ensures (id, email, fullname, phone, senacoins, createdAt, bonuses)
           == old((id, email, fullname, phone, senacoins, createdAt, bonuses))
      ensures var rec := old(store.users)[id.value];
              store.users == old(store.users)[id.value := rec.(profile := rec.profile.(loginCount := loginCount, lastLogin := now))]
      ensures store.order == old(store.order) && store.Valid()
    {
      loginCount := loginCount + 1;
      lastLogin := now;
      var rec := store.users[id.value];
      store.users := store.users[id.value := rec.(profile := rec.profile.(loginCount := loginCount, lastLogin := now))];
    }
  }

  /** The `gameData` argument of `updateScore`. */
  datatype GameMeta = GameMeta(status: Option<string>, phase: Option<int>, itemsCollected: Option<map<string, int>>)

  /** The report `updateScore` writes. */
  function NewReport(score: int, meta: GameMeta, username: string, now: int): (r: Report)
    ensures r.score == score && r.date == now && r.username == username
    ensures r.status == (if TruthyStr(meta.status) then meta.status.value else Concluded)
    ensures r.phase == (if meta.phase.Some? && meta.phase.value != 0 then meta.phase.value else 1)
    ensures r.itemsCollected == (if meta.itemsCollected.Some? then meta.itemsCollected.value else EmptyTally)
  {
    Report(now, score, OrStr(meta.status, Concluded), username, OrInt(meta.phase, 1),
           OrObj(meta.itemsCollected, EmptyTally))
  }

  /** Each stored report adds its score to the user's total exactly once. */
  lemma {:induction false} AppendedReportAddsToTotal(reports: seq<Report>, r: Report)
    ensures SumBy(reports + [r], ReportScore) == SumBy(reports, ReportScore) + r.score
  {
    SumByAppend(reports, [r], ReportScore);
  }

  /** `findById` as the controllers call it: a fresh object, or null. */
  method LoadUser(store: UserStore, key: string, now: int) returns (u: User?)
    ensures (u == null) <==> key !in store.users
    requires store.Valid()
    ensures u != null ==> fresh(u) && u.Fields() == FindById(store.users, key, now).value
    ensures u != null ==> u.id == Some(key) && u.fullname == store.users[key].profile.fullname
    ensures u != null ==> u.senacoins == (if store.users[key].profile.senacoins == 0 then 100
                                          else store.users[key].profile.senacoins)
  {
    if key in store.users {
      u := new User(StoredInit(key, store.users[key]), now);
    } else {
      u := null;
    }
  }
}
