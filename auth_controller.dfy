/** The account endpoints: login-or-register, the user lookup and the
    partial profile update (backend/controllers/authController.js). */
module AuthController {
  import opened Common
  import Users

  // ---------------------------------------------------------------------------
  // The email check `^[^\s@]+@[^\s@]+\.[^\s@]+$`.

  /** A run of `[^\s@]`. */
  predicate Plain(t: string) {
    forall k :: 0 <= k < |t| ==> !IsSpace(t[k]) && t[k] != '@'
  }

  /** The pattern matches with its `@` at `i` and its escaped dot at `j`. */
  ghost predicate RegexMatchAt(s: string, i: int, j: int) {
    && 0 < i && i + 1 < j && j + 1 < |s|
    && s[i] == '@' && s[j] == '.'
    && Plain(s[..i]) && Plain(s[i + 1..j]) && Plain(s[j + 1..])
  }

  /** The string is accepted by the pattern. */
  ghost predicate RegexMatch(s: string) {
    exists i, j :: RegexMatchAt(s, i, j)
  }

  /** The check as the shape it describes: no whitespace, a first `@` after a
      non-empty local part, no second `@`, and a dot in the domain that is
      neither its first nor its last character. */
  predicate EmailShapeOk(s: string) {
    var i := IndexOf(s, '@');
    && 0 < i < |s|
    && (forall k :: 0 <= k < |s| ==> !IsSpace(s[k]))
    && '@' !in s[i + 1..]
    && |s[i + 1..]| >= 3 && '.' in s[i + 1..][1..|s[i + 1..]| - 1]
  }

  lemma ShapeGivesMatch(s: string)
    requires EmailShapeOk(s)
    ensures RegexMatch(s)
  {
    var i := IndexOf(s, '@');
    var d := s[i + 1..];
    var m :| 0 <= m < |d[1..|d| - 1]| && d[1..|d| - 1][m] == '.';
    var j := i + 2 + m;
    assert s[j] == '.';
    var b, c := s[i + 1..j], s[j + 1..];
    forall k | 0 <= k < |b| ensures b[k] != '@' {
      assert b[k] == d[k];
    }
    forall k | 0 <= k < |c| ensures c[k] != '@' {
      assert c[k] == d[k + m + 2];
    }
    assert RegexMatchAt(s, i, j);
  }

  lemma MatchGivesShape(s: string, i: int, j: int)
    requires RegexMatchAt(s, i, j)
    ensures EmailShapeOk(s)
  {
    var a, b, c := s[..i], s[i + 1..j], s[j + 1..];
    assert forall k :: 0 <= k < i ==> s[k] == a[k];
    assert IndexOf(s, '@') == i;
    forall k | 0 <= k < |s| ensures !IsSpace(s[k]) {
      if k < i { assert s[k] == a[k]; }
      else if i < k < j { assert s[k] == b[k - i - 1]; }
      else if j < k { assert s[k] == c[k - j - 1]; }
    }
    var d := s[i + 1..];
    forall k | 0 <= k < |d| ensures d[k] != '@' {
      if k < j - i - 1 { assert d[k] == b[k]; }
      else if k > j - i - 1 { assert d[k] == c[k - (j - i)]; }
    }
    assert d[1..|d| - 1][j - i - 2] == '.';
  }

  /** The executable check accepts exactly the strings the pattern matches. */
  lemma EmailShapeIsRegex(s: string)
    ensures EmailShapeOk(s) <==> RegexMatch(s)
  {
    if EmailShapeOk(s) {
      ShapeGivesMatch(s);
    }
    if RegexMatch(s) {
      var i, j :| RegexMatchAt(s, i, j);
      MatchGivesShape(s, i, j);
    }
  }

  // ---------------------------------------------------------------------------
  // Endpoints.

  /** The profile a returning user is saved with. */
  function ReturningProfile(u: Users.UserFields, fullname: string, phone: string, now: int): Users.Profile {
    Users.Profile(u.email, fullname, phone, u.senacoins, u.loginCount + 1, u.createdAt, now)
  }

  /** `login`: 400 for a missing field, then 400 for a malformed email, each
      with nothing changed; an existing user gets the new name and phone and
      one more login, and the loaded profile is written back, so a stored 0
      balance becomes 100; anyone else is created with 100 coins and one
      login. */
  method Login(fullname: Option<string>, email: Option<string>, phone: Option<string>, users: Users.UserStore, now: int)
    returns (res: Response<Users.UserView>)
    requires users.Valid()
    modifies users
    ensures users.Valid()
    ensures !TruthyStr(fullname) || !TruthyStr(email) || !TruthyStr(phone) ==> res.BadRequest? && unchanged(users)
    ensures (TruthyStr(fullname) && TruthyStr(email) && TruthyStr(phone) && !EmailShapeOk(email.value)) ==>
              res.BadRequest? && unchanged(users)
    ensures (TruthyStr(fullname) && TruthyStr(email) && TruthyStr(phone) && EmailShapeOk(email.value)
             && Users.EncodeEmail(email.value) in old(users.users)) ==>
              var key := Users.EncodeEmail(email.value);
              var u := Users.FindById(old(users.users), key, now).value;
              && users.users == old(users.users)[key := Users.UserRecord(
                   ReturningProfile(u, fullname.value, phone.value, now), u.bonuses, old(users.users[key]).reports)]
              && users.order == old(users.order)
              && res.Ok? && res.value.id == Some(key)
              && res.value.loginCount == u.loginCount + 1 && res.value.senacoins == u.senacoins
              && res.value.fullname == fullname.value
    ensures (TruthyStr(fullname) && TruthyStr(email) && TruthyStr(phone) && EmailShapeOk(email.value)
             && Users.EncodeEmail(email.value) !in old(users.users)) ==>
              var key := Users.EncodeEmail(email.value);
              && users.users == old(users.users)[key := Users.UserRecord(
                   Users.Profile(email.value, fullname.value, phone.value, 100, 1, now, now), Users.DefaultBonuses, [])]
              && users.order == old(users.order) + [key]
              && res.Ok? && res.value.id == Some(key) && res.value.senacoins == 100 && res.value.loginCount == 1
  {
    if !TruthyStr(fullname) || !TruthyStr(email) || !TruthyStr(phone) {
      return BadRequest("Todos os campos s\U{e3}o obrigat\U{f3}rios");
    }
    if !EmailShapeOk(email.value) {
      return BadRequest("Email inv\U{e1}lido");
    }
    var key := Users.EncodeEmail(email.value);
    var view;
    if key in users.users {
      view := LoginReturning(key, fullname.value, phone.value, users, now);
    } else {
      view := LoginNew(email.value, fullname.value, phone.value, users, now);
    }
    res := Ok(view);
  }

  /** The returning branch of `login`: name and phone replaced, one more
      login, then saved. */
  method LoginReturning(key: string, fullname: string, phone: string, users: Users.UserStore, now: int)
    returns (view: Users.UserView)
    requires users.Valid() && key in users.users
    modifies users
    ensures users.Valid()
    ensures var u := Users.FindById(old(users.users), key, now).value;
            && users.users == old(users.users)[key := Users.UserRecord(
                 ReturningProfile(u, fullname, phone, now), u.bonuses, old(users.users[key]).reports)]
            && users.order == old(users.order)
            && view.id == Some(key)
            && view.loginCount == u.loginCount + 1 && view.senacoins == u.senacoins
            && view.fullname == fullname
  {
    var user := Users.LoadUser(users, key, now);
    Relogin(user, fullname, phone, users, now);
    view := Users.ToJSON(users.users, user.Fields());
  }

  /** The update a returning user gets: the new name and phone, one more
      login, saved over the stored record with its reports kept. */
  method Relogin(user: Users.User, fullname: string, phone: string, users: Users.UserStore, now: int)
    requires users.Valid() && user.id.Some? && user.id.value in users.users
    modifies user, users
    ensures users.Valid() && users.order == old(users.order)
    ensures user.Fields() == old(user.Fields()).(fullname := fullname, phone := phone,
                                                 loginCount := old(user.loginCount) + 1, lastLogin := now)
    ensures users.users == old(users.users)[user.id.value := Users.UserRecord(
              ReturningProfile(old(user.Fields()), fullname, phone, now), user.bonuses, old(users.users[user.id.value]).reports)]
  {
    ghost var key := user.id.value;
    ghost var reports := users.users[key].reports;
    user.fullname := fullname;
    user.phone := phone;
    user.UpdateLogin(users, now);
    assert key in users.users && users.users[key].reports == reports;
    user.Save(users);
  }

  /** The new-user branch of `login`: 100 coins and one login, saved under
      the encoded email. */
  method LoginNew(email: string, fullname: string, phone: string, users: Users.UserStore, now: int)
    returns (view: Users.UserView)
    requires users.Valid() && email != "" && Users.EncodeEmail(email) !in users.users
    modifies users
    ensures users.Valid()
    ensures var key := Users.EncodeEmail(email);
            && users.users == old(users.users)[key := Users.UserRecord(
                 Users.Profile(email, fullname, phone, 100, 1, now, now), Users.DefaultBonuses, [])]
            && users.order == old(users.order) + [key]
            && view.id == Some(key) && view.senacoins == 100 && view.loginCount == 1
  {
    var user := new Users.User(Users.UserInit(None, Some(email), Some(fullname), Some(phone), Some(100), Some(1), Some(now), Some(now), None), now);
    user.Save(users);
    view := Users.ToJSON(users.users, user.Fields());
  }

  /** `getUser`: the user's view, or 404. */
  function GetUser(users: map<string, Users.UserRecord>, userId: string, now: int): (r: Response<Users.UserView>)
    ensures r.NotFound? <==> userId !in users
    ensures r.Ok? ==> r.value.id == Some(userId) || userId == ""
    ensures (r.Ok? ==>
              && r.value.fullname == users[userId].profile.fullname
              && r.value.loginCount == users[userId].profile.loginCount
              && r.value.senacoins == (if users[userId].profile.senacoins == 0 then 100 else users[userId].profile.senacoins))
    ensures (r.Ok? && userId != "" ==>
              && r.value.reportsCount == |users[userId].reports|
              && r.value.totalScore == SumBy(users[userId].reports, Users.ReportScore))
    ensures r.BadRequest? ==> false
  {
    match Users.FindById(users, userId, now)
    case None => NotFound("Usu\U{e1}rio n\U{e3}o encontrado")
    case Some(u) => Ok(Users.ToJSON(users, u))
  }

  /** `updateUser`: 404 for an unknown id; otherwise each supplied (truthy)
      field replaces the loaded one and the loaded object is saved back, so
      a stored 0 balance becomes 100. */
  method UpdateUser(userId: string, fullname: Option<string>, phone: Option<string>, users: Users.UserStore, now: int)
    returns (res: Response<Users.UserView>)
    requires users.Valid()
    modifies users
    ensures users.Valid() && users.order == old(users.order)
    ensures userId !in old(users.users) ==> res.NotFound? && unchanged(users)
    ensures userId in old(users.users) ==>
              var u := Users.FindById(old(users.users), userId, now).value;
              var name := if TruthyStr(fullname) then fullname.value else u.fullname;
              var tel := if TruthyStr(phone) then phone.value else u.phone;
              && users.users == old(users.users)[userId := Users.UserRecord(
                   Users.Profile(u.email, name, tel, u.senacoins, u.loginCount, u.createdAt, u.lastLogin),
                   u.bonuses, old(users.users[userId]).reports)]
              && res.Ok? && res.value.fullname == name && res.value.phone == tel
  {
    var user := Users.LoadUser(users, userId, now);
    if user == null {
      return NotFound("Usu\U{e1}rio n\U{e3}o encontrado");
    }
    if TruthyStr(fullname) {
      user.fullname := fullname.value;
    }
    if TruthyStr(phone) {
      user.phone := phone.value;
    }
    user.Save(users);
    res := Ok(Users.ToJSON(users.users, user.Fields()));
  }
}
