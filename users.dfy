/** User accounts: the users table keyed by username, the credential check, the new-account
    validation chain, the freeze toggle, the temporary password, and the management screen's
    handlers over that table. */
module Users {
  import opened JavaText

  /** One row of the users table. */
  datatype User = User(username: string, password: string, phone: string, role: string, status: string)

  /** The users table, keyed by its primary key, the username. */
  type Table = map<string, User>

  /** Every row is stored under its own username. */
  ghost predicate WellKeyed(t: Table) {
    forall k :: k in t ==> t[k].username == k
  }

  const Active: string := "active"
  const Inactive: string := "inactive"

  /** The credential handed out on a successful login; `timestamp` is the clock at that moment. */
  datatype Credential = Credential(userId: string, role: string, timestamp: int)

  /** The credential check: the row must exist, its password must equal the input exactly,
      and its status must be "active". */
  function Authenticate(t: Table, username: string, password: string, nowMs: int): (c: Option<Credential>)
    ensures c.Some? <==> username in t && t[username].password == password && t[username].status == Active
    ensures c.Some? ==> c.value.userId == username && c.value.role == t[username].role && c.value.timestamp == nowMs
  {
    if username in t && password == t[username].password && Active == t[username].status then
      Some(Credential(username, t[username].role, nowMs))
    else
      None
  }

  /** The table after an update of one row's role. */
  function WithRole(t: Table, username: string, role: string): (r: Table)
    requires username in t
    ensures r.Keys == t.Keys
    ensures forall k :: k in t && k != username ==> r[k] == t[k]
    ensures r[username].role == role
    ensures var u, v := t[username], r[username];
      v.username == u.username && v.password == u.password && v.phone == u.phone && v.status == u.status
  {
    t[username := t[username].(role := role)]
  }

  /** The table after an update of one row's status. */
  function WithStatus(t: Table, username: string, status: string): (r: Table)
    requires username in t
    ensures r.Keys == t.Keys
    ensures forall k :: k in t && k != username ==> r[k] == t[k]
    ensures r[username].status == status
    ensures var u, v := t[username], r[username];
      v.username == u.username && v.password == u.password && v.phone == u.phone && v.role == u.role
  {
    t[username := t[username].(status := status)]
  }

  /** The table after an update of one row's password. */
  function WithPassword(t: Table, username: string, password: string): (r: Table)
    requires username in t
    ensures r.Keys == t.Keys
    ensures forall k :: k in t && k != username ==> r[k] == t[k]
    ensures r[username].password == password
    ensures var u, v := t[username], r[username];
      v.username == u.username && v.phone == u.phone && v.role == u.role && v.status == u.status
  {
    t[username := t[username].(password := password)]
  }

  /** The table after inserting a new, active row. */
  function WithNewUser(t: Table, username: string, password: string, phone: string, role: string): (r: Table)
    requires username !in t
    ensures r.Keys == t.Keys + {username}
    ensures forall k :: k in t ==> r[k] == t[k]
    ensures r[username] == User(username, password, phone, role, Active)
  {
    t[username := User(username, password, phone, role, Active)]
  }

  /** The table after deleting one row. */
  function WithoutUser(t: Table, username: string): (r: Table)
    ensures r.Keys == t.Keys - {username}
    ensures forall k :: k in r ==> r[k] == t[k]
  {
    t - {username}
  }

  /** The freeze toggle: "active" becomes "inactive", and every other status becomes "active". */
  function FlipStatus(status: string): (r: string)
    ensures r == Active || r == Inactive
    ensures r == Active <==> status != Active
  {
    if status == Active then Inactive else Active
  }

  /** Toggling twice restores any status that is "active" or "inactive". */
  lemma FlipTwice(status: string)
    requires status == Active || status == Inactive
    ensures FlipStatus(FlipStatus(status)) == status
  {
    assert Active != Inactive by { assert Active[0] != Inactive[0]; }
  }

  /** Freezing and then unfreezing a user gives back the table as it was. */
  lemma ToggleTwiceRestoresTable(t: Table, username: string)
    requires username in t && (t[username].status == Active || t[username].status == Inactive)
    ensures var once := WithStatus(t, username, FlipStatus(t[username].status));
      WithStatus(once, username, FlipStatus(once[username].status)) == t
  {
    var s := t[username].status;
    var once := WithStatus(t, username, FlipStatus(s));
    FlipTwice(s);
    var twice := WithStatus(once, username, FlipStatus(once[username].status));
    assert twice[username] == t[username];
    assert forall k :: k in t ==> twice[k] == t[k];
  }

  /** A freshly created account can log in with the password it was created with. */
  lemma {:induction false} NewUserCanLogIn(t: Table, username: string, password: string, phone: string, role: string, nowMs: int)
    requires username !in t
    ensures Authenticate(WithNewUser(t, username, password, phone, role), username, password, nowMs)
      == Some(Credential(username, role, nowMs))
  {
  }

  /** Freezing an active account stops every login to it, whatever the password. */
  lemma FrozenUserCannotLogIn(t: Table, username: string, password: string, nowMs: int)
    requires username in t && t[username].status == Active
    ensures Authenticate(WithStatus(t, username, FlipStatus(Active)), username, password, nowMs).None?
  {
    assert FlipStatus(Active) != Active by { assert Inactive[0] != Active[0]; }
  }

  /** After a password reset only the new password logs in. */
  lemma ResetPasswordReplacesLogin(t: Table, username: string, oldPassword: string, newPassword: string, nowMs: int)
    requires username in t && t[username].status == Active && oldPassword != newPassword
    ensures Authenticate(WithPassword(t, username, newPassword), username, newPassword, nowMs).Some?
    ensures Authenticate(WithPassword(t, username, newPassword), username, oldPassword, nowMs).None?
  {
  }

  /** A deleted account no longer exists and can no longer log in. */
  lemma DeletedUserCannotLogIn(t: Table, username: string, password: string, nowMs: int)
    ensures username !in WithoutUser(t, username)
    ensures Authenticate(WithoutUser(t, username), username, password, nowMs).None?
  {
  }

  /** Java's `phone.matches("^1[3-9]\\d{9}$")`: eleven characters, a 1, a digit from 3 to 9,
      then nine ASCII digits. */
  predicate IsMobilePhone(s: string)
    ensures IsMobilePhone(s) ==> |s| == 11 && forall i :: 0 <= i < |s| ==> IsAsciiDigit(s[i])
  {
    |s| == 11 && s[0] == '1' && '3' <= s[1] <= '9' && forall i :: 2 <= i < 11 ==> IsAsciiDigit(s[i])
  }

  /** Why a new account is refused, in the order the checks are made. */
  datatype CreateError = MissingField | UsernameTooShort | PasswordTooShort | InvalidPhone | UsernameTaken

  /** The new-account validation chain over already trimmed inputs; the first failing check
      decides the error. */
  function CheckNewUser(t: Table, username: string, password: string, phone: string): (r: Option<CreateError>)
    ensures r.None? <==>
      |username| >= 3 && |password| >= 6 && IsMobilePhone(phone) && username !in t
    ensures r == Some(MissingField) <==> username == [] || password == [] || phone == []
    ensures r == Some(UsernameTooShort) ==> 0 < |username| < 3
    ensures r == Some(PasswordTooShort) ==> |username| >= 3 && 0 < |password| < 6
    ensures r == Some(InvalidPhone) ==> |username| >= 3 && |password| >= 6 && !IsMobilePhone(phone)
    ensures r == Some(UsernameTaken) <==>
      |username| >= 3 && |password| >= 6 && IsMobilePhone(phone) && username in t
  {
    if username == [] || password == [] || phone == [] then Some(MissingField)
    else if |username| < 3 then Some(UsernameTooShort)
    else if |password| < 6 then Some(PasswordTooShort)
    else if !IsMobilePhone(phone) then Some(InvalidPhone)
    else if username in t then Some(UsernameTaken)
    else None
  }

  /** The temporary-password alphabet: capital letters without I and O, small letters
      without i, l and o, and the digits 2 to 9, in that order (one 55-character literal). */
  const UpperLetters: string := "ABCDEFGHJKLMNPQRSTUVWXYZ"
  const LowerLetters: string := "abcdefghjkmnpqrstuvwxyz"
  const PasswordDigits: string := "23456789"
  const TempPasswordAlphabet: string := UpperLetters + LowerLetters + PasswordDigits

  /** Characters easily mistaken for one another. */
  predicate IsLookalike(c: char) {
    c == 'I' || c == 'O' || c == 'i' || c == 'l' || c == 'o' || c == '0' || c == '1'
  }

  lemma NoLookalikeIn(s: string)
    requires s == UpperLetters || s == LowerLetters || s == PasswordDigits
    ensures forall i :: 0 <= i < |s| ==> !IsLookalike(s[i])
  {
  }

  /** The alphabet has 55 characters and none of them is a lookalike. */
  lemma TempPasswordAlphabetAvoidsLookalikes()
    ensures |TempPasswordAlphabet| == 55
    ensures forall i :: 0 <= i < |TempPasswordAlphabet| ==> !IsLookalike(TempPasswordAlphabet[i])
  {
    NoLookalikeIn(UpperLetters);
    NoLookalikeIn(LowerLetters);
    NoLookalikeIn(PasswordDigits);
    assert forall i :: 0 <= i < |TempPasswordAlphabet| ==>
      TempPasswordAlphabet[i] ==
        if i < 24 then UpperLetters[i] else if i < 47 then LowerLetters[i - 24] else PasswordDigits[i - 47];
  }

  /** An eight-character temporary password. `picks` are the eight draws of
      `(int)(Math.random() * 55)`, each an index into the alphabet. */
  method GenerateTempPassword(picks: seq<nat>) returns (password: string)
    requires |picks| == 8 && forall i :: 0 <= i < 8 ==> picks[i] < |TempPasswordAlphabet|
    ensures |password| == 8
    ensures forall i :: 0 <= i < 8 ==> password[i] == TempPasswordAlphabet[picks[i]]
    ensures forall i :: 0 <= i < 8 ==> !IsLookalike(password[i])
  {
    TempPasswordAlphabetAvoidsLookalikes();
    password := "";
    var i := 0;
    while i < 8
      invariant 0 <= i <= 8 && |password| == i
      invariant forall j :: 0 <= j < i ==> password[j] == TempPasswordAlphabet[picks[j]]
    {
      password := password + [TempPasswordAlphabet[picks[i]]];
      i := i + 1;
    }
  }

  /** The users table of the database, with the row operations the screens call. */
  class UserDatabase {
    var users: Table

    ghost predicate Valid()
      reads this
    {
      WellKeyed(users)
    }

    /** The three accounts a new database is seeded with. */
    constructor ()
      ensures Valid()
      ensures users == map[
        "admin" := User("admin", "admin123", "13800001111", "管理员", Active),
        "user1" := User("user1", "user123", "13800002222", "用户", Active),
        "user2" := User("user2", "user456", "13800003333", "客服", Inactive)]
    {
      users := map[
        "admin" := User("admin", "admin123", "13800001111", "管理员", Active),
        "user1" := User("user1", "user123", "13800002222", "用户", Active),
        "user2" := User("user2", "user456", "13800003333", "客服", Inactive)];
    }

    /** Lookup by username. */
    method GetUserByUsername(username: string) returns (user: Option<User>)
      requires Valid()
      ensures user.Some? <==> username in users
      ensures user.Some? ==> user.value == users[username] && user.value.username == username
    {
      if username in users {
        user := Some(users[username]);
      } else {
        user := None;
      }
    }

    /** Lookup by phone number. Phone numbers are not unique and the query has no ordering,
        so any matching row may come back. */
    method GetUserByPhone(phone: string) returns (user: Option<User>)
      requires Valid()
      ensures user.Some? <==> exists k :: k in users && users[k].phone == phone
      ensures user.Some? ==>
        user.value.phone == phone && user.value.username in users && users[user.value.username] == user.value
    {
      if k :| k in users && users[k].phone == phone {
        user := Some(users[k]);
      } else {
        user := None;
      }
    }

    method UserExists(username: string) returns (present: bool)
      ensures present <==> username in users
    {
      present := username in users;
    }

    /** The row a search is after: a non-empty username decides on its own and the phone
        is then ignored; only with an empty username is the phone used. */
    ghost predicate IsMatch(u: User, username: string, phone: string)
      reads this
    {
      if username != [] then username in users && u == users[username]
      else u.phone == phone && u.username in users && users[u.username] == u
    }

    ghost predicate HasMatch(username: string, phone: string)
      reads this
    {
      if username != [] then username in users
      else exists k :: k in users && users[k].phone == phone
    }

    /** The search lookup with its priority: username first, phone only without one. */
    method FindUser(username: string, phone: string) returns (user: Option<User>)
      requires Valid()
      ensures user.Some? <==> HasMatch(username, phone)
      ensures user.Some? ==> IsMatch(user.value, username, phone)
      ensures username != [] ==> user == (if username in users then Some(users[username]) else None)
    {
      if username != [] {
        user := GetUserByUsername(username);
      } else {
        user := GetUserByPhone(phone);
      }
    }

    /** `UPDATE ... SET role`: true exactly when the row exists. */
    method UpdateUserRole(username: string, role: string) returns (ok: bool)
      requires Valid()
      modifies this
      ensures Valid()
      ensures ok <==> username in old(users)
      ensures ok ==> users == WithRole(old(users), username, role)
      ensures !ok ==> users == old(users)
    {
      ok := username in users;
      if ok {
        users := WithRole(users, username, role);
      }
    }

    /** `UPDATE ... SET status`: true exactly when the row exists. */
    method UpdateUserStatus(username: string, status: string) returns (ok: bool)
      requires Valid()
      modifies this
      ensures Valid()
      ensures ok <==> username in old(users)
      ensures ok ==> users == WithStatus(old(users), username, status)
      ensures !ok ==> users == old(users)
    {
      ok := username in users;
      if ok {
        users := WithStatus(users, username, status);
      }
    }

    /** `UPDATE ... SET password`: true exactly when the row exists. */
    method ResetUserPassword(username: string, password: string) returns (ok: bool)
      requires Valid()
      modifies this
      ensures Valid()
      ensures ok <==> username in old(users)
      ensures ok ==> users == WithPassword(old(users), username, password)
      ensures !ok ==> users == old(users)
    {
      ok := username in users;
      if ok {
        users := WithPassword(users, username, password);
      }
    }

    /** `INSERT` of an active row: a taken username violates the primary key and fails. */
    method CreateUser(username: string, password: string, phone: string, role: string) returns (ok: bool)
      requires Valid()
      modifies this
      ensures Valid()
      ensures ok <==> username !in old(users)
      ensures ok ==> users == WithNewUser(old(users), username, password, phone, role)
      ensures !ok ==> users == old(users)
    {
      ok := username !in users;
      if ok {
        users := WithNewUser(users, username, password, phone, role);
      }
    }

    /** `DELETE`: true exactly when a row was removed. */
    method DeleteUser(username: string) returns (ok: bool)
      requires Valid()
      modifies this
      ensures Valid()
      ensures ok <==> username in old(users)
      ensures users == WithoutUser(old(users), username)
    {
      ok := username in users;
      users := WithoutUser(users, username);
    }
  }

  const Roles: seq<string> := ["用户", "客服", "管理员"]

  /** The role box only selects one of the roles it lists. */
  predicate IsListedRole(role: string) {
    role in Roles
  }

  const NoCriteriaMessage: string := "请输入用户名或手机号"
  const NotFoundMessage: string := "未找到匹配的用户"
  const NoSuchUserNotice: string := "\n\n用户不存在"
  const EmptyDeleteNameMessage: string := "请输入要删除的用户名"
  const UnknownUserMessage: string := "用户不存在"
  const DeleteCancelledMessage: string := "删除操作已取消"
  const FreezeCaption: string := "冻结账户"
  const UnfreezeCaption: string := "解冻账户"
  /** The freeze button's caption until a search or a toggle first sets it. */
  const FreezeToggleCaption: string := "冻结/解冻"

  /** The text the search shows for a found user. */
  function UserInfoText(u: User): string {
    "用户信息:" + ("\n用户名: " + u.username) + ("\n手机号: " + u.phone) + ("\n当前角色: " + u.role)
      + ("\n账户状态: " + StatusWord(u.status))
  }

  /** How the search names a status: "正常" for an active account, "已冻结" for any other. */
  function StatusWord(status: string): string {
    if status == Active then "正常" else "已冻结"
  }

  /** The search result shows the user's name, phone, role and status, each on its own line. */
  lemma UserInfoTextShowsUser(u: User)
    ensures var t := UserInfoText(u);
      && Contains(t, "\n用户名: " + u.username) && Contains(t, "\n手机号: " + u.phone)
      && Contains(t, "\n当前角色: " + u.role)
      && (u.status == Active ==> Contains(t, "\n账户状态: " + "正常"))
      && (u.status != Active ==> Contains(t, "\n账户状态: " + "已冻结"))
  {
    var name, phone, role := "\n用户名: " + u.username, "\n手机号: " + u.phone, "\n当前角色: " + u.role;
    var status := "\n账户状态: " + StatusWord(u.status);
    var p1 := "用户信息:" + name;
    var p2 := p1 + phone;
    var p3 := p2 + role;
    ContainsAtEnd("用户信息:", name);
    ContainsExtends(p1, phone, name);
    ContainsExtends(p2, role, name);
    ContainsExtends(p3, status, name);
    ContainsAtEnd(p1, phone);
    ContainsExtends(p2, role, phone);
    ContainsExtends(p3, status, phone);
    ContainsAtEnd(p2, role);
    ContainsExtends(p3, status, role);
    ContainsAtEnd(p3, status);
  }

  /** The freeze button offers to freeze an active account and to unfreeze any other. */
  function FreezeCaptionFor(status: string): (caption: string)
    ensures caption == FreezeCaption <==> status == Active
  {
    if status == Active then FreezeCaption else UnfreezeCaption
  }

  datatype SearchOutcome = NoCriteria | NotFound | Found(user: User)

  datatype DeleteOutcome = EmptyName | NoSuchUser | Cancelled | Deleted

  /** The user management window: the search tab's fields and buttons, the create and delete
      tabs' result areas, and the database they work on. */
  class UserManagementScreen {
    const db: UserDatabase
    var usernameField: string
    var phoneField: string
    var roleChoice: string
    var resultText: string
    var actionsEnabled: bool
    var freezeCaption: string
    var createUsernameField: string
    var createPasswordField: string
    var createPhoneField: string
    var createRole: string
    var createResultText: string
    var deleteUsernameField: string
    var deleteResultText: string

    ghost predicate Valid()
      reads this, db
    {
      db.Valid()
    }

    constructor (db: UserDatabase)
      requires db.Valid()
      ensures Valid() && this.db == db
      ensures usernameField == [] && phoneField == [] && roleChoice == Roles[0]
      ensures resultText == [] && !actionsEnabled
      ensures createUsernameField == [] && createPasswordField == [] && createPhoneField == []
      ensures createRole == Roles[0] && deleteUsernameField == []
      ensures freezeCaption == FreezeToggleCaption
      ensures createResultText == [] && deleteResultText == []
    {
      this.db := db;
      usernameField := [];
      phoneField := [];
      roleChoice := Roles[0];
      resultText := [];
      actionsEnabled := false;
      freezeCaption := FreezeToggleCaption;
      createUsernameField := [];
      createPasswordField := [];
      createPhoneField := [];
      createRole := Roles[0];
      createResultText := [];
      deleteUsernameField := [];
      deleteResultText := [];
    }

    /** The search handler. A found user fills the fields and enables the reset, freeze and
        role buttons; the role box only takes a role it lists. */
    method SearchUser() returns (outcome: SearchOutcome)
      requires Valid()
      modifies this`usernameField, this`phoneField, this`roleChoice, this`resultText,
        this`actionsEnabled, this`freezeCaption
      ensures Valid()
      ensures outcome.NoCriteria? <==> Trim(old(usernameField)) == [] && Trim(old(phoneField)) == []
      ensures !outcome.NoCriteria? ==>
        (outcome.Found? <==> db.HasMatch(Trim(old(usernameField)), Trim(old(phoneField))))
        && (outcome.Found? ==> db.IsMatch(outcome.user, Trim(old(usernameField)), Trim(old(phoneField))))
      ensures outcome.NoCriteria? ==>
        && resultText == NoCriteriaMessage
        && usernameField == old(usernameField) && phoneField == old(phoneField)
        && roleChoice == old(roleChoice) && actionsEnabled == old(actionsEnabled)
        && freezeCaption == old(freezeCaption)
      ensures outcome.NotFound? ==>
        && resultText == NotFoundMessage && !actionsEnabled
        && usernameField == old(usernameField) && phoneField == old(phoneField)
        && roleChoice == old(roleChoice) && freezeCaption == old(freezeCaption)
      ensures outcome.Found? ==>
        && resultText == UserInfoText(outcome.user)
        && usernameField == outcome.user.username && phoneField == outcome.user.phone
        && roleChoice == (if IsListedRole(outcome.user.role) then outcome.user.role else old(roleChoice))
        && actionsEnabled && freezeCaption == FreezeCaptionFor(outcome.user.status)
    {
      outcome := SearchFor(Trim(usernameField), Trim(phoneField));
    }

    /** The search for the already trimmed criteria. */
    method SearchFor(username: string, phone: string) returns (outcome: SearchOutcome)
      requires Valid()
      modifies this`usernameField, this`phoneField, this`roleChoice, this`resultText,
        this`actionsEnabled, this`freezeCaption
      ensures Valid()
      ensures outcome.NoCriteria? <==> username == [] && phone == []
      ensures !outcome.NoCriteria? ==>
        (outcome.Found? <==> db.HasMatch(username, phone))
        && (outcome.Found? ==> db.IsMatch(outcome.user, username, phone))
      ensures outcome.NoCriteria? ==>
        && resultText == NoCriteriaMessage
        && usernameField == old(usernameField) && phoneField == old(phoneField)
        && roleChoice == old(roleChoice) && actionsEnabled == old(actionsEnabled)
        && freezeCaption == old(freezeCaption)
      ensures outcome.NotFound? ==>
        && resultText == NotFoundMessage && !actionsEnabled
        && usernameField == old(usernameField) && phoneField == old(phoneField)
        && roleChoice == old(roleChoice) && freezeCaption == old(freezeCaption)
      ensures outcome.Found? ==>
        && resultText == UserInfoText(outcome.user)
        && usernameField == outcome.user.username && phoneField == outcome.user.phone
        && roleChoice == (if IsListedRole(outcome.user.role) then outcome.user.role else old(roleChoice))
        && actionsEnabled && freezeCaption == FreezeCaptionFor(outcome.user.status)
    {
      if username == [] && phone == [] {
        resultText := NoCriteriaMessage;
        return NoCriteria;
      }
      var user := db.FindUser(username, phone);
      outcome := ShowSearchResult(user);
    }

    /** What the search shows for the row it found, or for no row. */
    method ShowSearchResult(user: Option<User>) returns (outcome: SearchOutcome)
      modifies this`usernameField, this`phoneField, this`roleChoice, this`resultText,
        this`actionsEnabled, this`freezeCaption
      ensures user.None? ==>
        && outcome == NotFound && resultText == NotFoundMessage && !actionsEnabled
        && usernameField == old(usernameField) && phoneField == old(phoneField)
        && roleChoice == old(roleChoice) && freezeCaption == old(freezeCaption)
      ensures user.Some? ==>
        && outcome == Found(user.value)
        && resultText == UserInfoText(user.value)
        && usernameField == user.value.username && phoneField == user.value.phone
        && roleChoice == (if IsListedRole(user.value.role) then user.value.role else old(roleChoice))
        && actionsEnabled && freezeCaption == FreezeCaptionFor(user.value.status)
    {
      if user.Some? {
        var u := user.value;
        resultText := UserInfoText(u);
        usernameField := u.username;
        phoneField := u.phone;
        if IsListedRole(u.role) {
          roleChoice := u.role;
        }
        actionsEnabled := true;
        freezeCaption := FreezeCaptionFor(u.status);
        outcome := Found(u);
      } else {
        resultText := NotFoundMessage;
        actionsEnabled := false;
        outcome := NotFound;
      }
    }

    /** The reset-password handler. `picks` are the random alphabet indices and `sendOk` the
        outcome of the simulated SMS; the new password is stored before it is sent. */
    method ResetPassword(picks: seq<nat>, sendOk: bool) returns (newPassword: Option<string>)
      requires Valid()
      requires |picks| == 8 && forall i :: 0 <= i < 8 ==> picks[i] < |TempPasswordAlphabet|
      modifies this`resultText, db
      ensures Valid()
      ensures var username := Trim(usernameField);
        (newPassword.Some? <==> username in old(db.users))
        && (newPassword.None? ==> db.users == old(db.users) && resultText == old(resultText) + NoSuchUserNotice)
        && (newPassword.Some? ==>
              && |newPassword.value| == 8
              && (forall i :: 0 <= i < 8 ==> newPassword.value[i] == TempPasswordAlphabet[picks[i]])
              && db.users == WithPassword(old(db.users), username, newPassword.value)
              && resultText == old(resultText) + ResetReport(newPassword.value, sendOk))
    {
      var username := Trim(usernameField);
      var known := db.UserExists(username);
      if !known {
        resultText := resultText + NoSuchUserNotice;
        return None;
      }
      var temp := GenerateTempPassword(picks);
      var updated := db.ResetUserPassword(username, temp);
      // The row exists, so the update succeeds; the "database update failed" message needs an SQL error.
      resultText := resultText + ResetReport(temp, sendOk);
      newPassword := Some(temp);
    }

    /** The freeze/unfreeze handler. */
    method ToggleFreeze() returns (newStatus: Option<string>)
      requires Valid()
      modifies this`resultText, this`freezeCaption, db
      ensures Valid()
      ensures var username := Trim(usernameField);
        (newStatus.Some? <==> username in old(db.users))
        && (newStatus.None? ==>
              db.users == old(db.users) && resultText == old(resultText) + NoSuchUserNotice
              && freezeCaption == old(freezeCaption))
        && (newStatus.Some? ==>
              && newStatus.value == FlipStatus(old(db.users)[username].status)
              && db.users == WithStatus(old(db.users), username, newStatus.value)
              && resultText == old(resultText) + StatusReport(newStatus.value)
              && freezeCaption == FreezeCaptionFor(newStatus.value))
    {
      var username := Trim(usernameField);
      var user := db.GetUserByUsername(username);
      if user.None? {
        resultText := resultText + NoSuchUserNotice;
        return None;
      }
      var status := FlipStatus(user.value.status);
      var updated := db.UpdateUserStatus(username, status);
      resultText := resultText + StatusReport(status);
      freezeCaption := FreezeCaptionFor(status);
      newStatus := Some(status);
    }

    /** The assign-role handler: the role box's current choice becomes the user's role. */
    method AssignRole() returns (roleSet: bool)
      requires Valid()
      modifies this`resultText, db
      ensures Valid()
      ensures var username := Trim(usernameField);
        (roleSet <==> username in old(db.users))
        && (!roleSet ==> db.users == old(db.users) && resultText == old(resultText) + NoSuchUserNotice)
        && (roleSet ==>
              && db.users == WithRole(old(db.users), username, roleChoice)
              && resultText == old(resultText) + "\n\n角色分配成功!\n" + "新角色: " + roleChoice + "\n数据库已更新")
    {
      var username := Trim(usernameField);
      var user := db.GetUserByUsername(username);
      if user.None? {
        resultText := resultText + NoSuchUserNotice;
        return false;
      }
      roleSet := db.UpdateUserRole(username, roleChoice);
      resultText := resultText + "\n\n角色分配成功!\n" + "新角色: " + roleChoice + "\n数据库已更新";
    }

    /** The create-account handler. The field texts are trimmed and the role is taken as
        chosen. A created account clears the three fields and puts the role box back on its
        first role; a refusal leaves the form as it was. */
    method CreateUser() returns (error: Option<CreateError>)
      requires Valid()
      modifies this`createResultText, this`createUsernameField, this`createPasswordField,
        this`createPhoneField, this`createRole, db
      ensures Valid()
      ensures error == CheckNewUser(old(db.users), Trim(old(createUsernameField)),
        Trim(old(createPasswordField)), Trim(old(createPhoneField)))
      ensures error.Some? ==>
        && db.users == old(db.users) && createResultText == CreateErrorMessage(error.value)
        && createUsernameField == old(createUsernameField) && createPasswordField == old(createPasswordField)
        && createPhoneField == old(createPhoneField) && createRole == old(createRole)
      ensures error.None? ==> db.users == WithNewUser(old(db.users), Trim(old(createUsernameField)),
        Trim(old(createPasswordField)), Trim(old(createPhoneField)), old(createRole))
      ensures error.None? ==>
        && createResultText == CreatedReport(Trim(old(createUsernameField)), Trim(old(createPhoneField)), old(createRole))
        && createUsernameField == [] && createPasswordField == [] && createPhoneField == []
        && createRole == Roles[0]
    {
      error := SubmitNewUser(Trim(createUsernameField), Trim(createPasswordField), Trim(createPhoneField), createRole);
    }

    /** The create handler once the texts are read and trimmed: validate, then either report
        the refusal or add the account. */
    method SubmitNewUser(username: string, password: string, phone: string, role: string)
      returns (error: Option<CreateError>)
      requires Valid()
      modifies this`createResultText, this`createUsernameField, this`createPasswordField,
        this`createPhoneField, this`createRole, db
      ensures Valid()
      ensures error == CheckNewUser(old(db.users), username, password, phone)
      ensures error.Some? ==>
        && db.users == old(db.users) && createResultText == CreateErrorMessage(error.value)
        && createUsernameField == old(createUsernameField) && createPasswordField == old(createPasswordField)
        && createPhoneField == old(createPhoneField) && createRole == old(createRole)
      ensures error.None? ==> db.users == WithNewUser(old(db.users), username, password, phone, role)
      ensures error.None? ==>
        && createResultText == CreatedReport(username, phone, role)
        && createUsernameField == [] && createPasswordField == [] && createPhoneField == []
        && createRole == Roles[0]
    {
      error := CheckNewUser(db.users, username, password, phone);
      if error.Some? {
        createResultText := CreateErrorMessage(error.value);
        return;
      }
      AddAccount(username, password, phone, role);
    }

    /** The success path of the create handler: insert the row, report it, and empty the form
        with the role box back on its first role. */
    method AddAccount(username: string, password: string, phone: string, role: string)
      requires Valid() && username !in db.users
      modifies this`createResultText, this`createUsernameField, this`createPasswordField,
        this`createPhoneField, this`createRole, db
      ensures Valid()
      ensures db.users == WithNewUser(old(db.users), username, password, phone, role)
      ensures createResultText == CreatedReport(username, phone, role)
      ensures createUsernameField == [] && createPasswordField == [] && createPhoneField == []
      ensures createRole == Roles[0]
    {
      var created := db.CreateUser(username, password, phone, role);
      createResultText := CreatedReport(username, phone, role);
      createUsernameField := [];
      createPasswordField := [];
      createPhoneField := [];
      createRole := Roles[0];
    }

    /** The delete-account handler. `confirmed` is the answer to the confirmation dialog and
        `nowText` the current date as `Date.toString` writes it. Each refusal shows its own
        message; a deletion clears the name field. */
    method DeleteUser(confirmed: bool, nowText: string) returns (outcome: DeleteOutcome)
      requires Valid()
      modifies this`deleteResultText, this`deleteUsernameField, db
      ensures Valid()
      ensures var username := Trim(old(deleteUsernameField));
        && (outcome == EmptyName <==> username == [])
        && (outcome == NoSuchUser <==> username != [] && username !in old(db.users))
        && (outcome == Cancelled <==> username in old(db.users) && username != [] && !confirmed)
        && (outcome == Deleted <==> username in old(db.users) && username != [] && confirmed)
        && (outcome == Deleted ==>
              && db.users == WithoutUser(old(db.users), username)
              && deleteResultText == "用户删除成功!\n已删除用户: " + username + "\n删除时间: " + nowText
              && deleteUsernameField == [])
        && (outcome != Deleted ==> db.users == old(db.users) && deleteUsernameField == old(deleteUsernameField))
      ensures outcome == EmptyName ==> deleteResultText == EmptyDeleteNameMessage
      ensures outcome == NoSuchUser ==> deleteResultText == UnknownUserMessage
      ensures outcome == Cancelled ==> deleteResultText == DeleteCancelledMessage
    {
      outcome := DeleteNamed(Trim(deleteUsernameField), confirmed, nowText);
    }

    /** The delete handler for the already trimmed name. */
    method DeleteNamed(username: string, confirmed: bool, nowText: string) returns (outcome: DeleteOutcome)
      requires Valid()
      modifies this`deleteResultText, this`deleteUsernameField, db
      ensures Valid()
      ensures
        && (outcome == EmptyName <==> username == [])
        && (outcome == NoSuchUser <==> username != [] && username !in old(db.users))
        && (outcome == Cancelled <==> username in old(db.users) && username != [] && !confirmed)
        && (outcome == Deleted <==> username in old(db.users) && username != [] && confirmed)
        && (outcome == Deleted ==>
              && db.users == WithoutUser(old(db.users), username)
              && deleteResultText == "用户删除成功!\n已删除用户: " + username + "\n删除时间: " + nowText
              && deleteUsernameField == [])
        && (outcome != Deleted ==> db.users == old(db.users) && deleteUsernameField == old(deleteUsernameField))
      ensures outcome == EmptyName ==> deleteResultText == EmptyDeleteNameMessage
      ensures outcome == NoSuchUser ==> deleteResultText == UnknownUserMessage
      ensures outcome == Cancelled ==> deleteResultText == DeleteCancelledMessage
    {
      if username == [] {
        deleteResultText := EmptyDeleteNameMessage;
        return EmptyName;
      }
      var user := db.GetUserByUsername(username);
      if user.None? {
        deleteResultText := UnknownUserMessage;
        return NoSuchUser;
      }
      if !confirmed {
        deleteResultText := DeleteCancelledMessage;
        return Cancelled;
      }
      var removed := db.DeleteUser(username);
      deleteResultText := "用户删除成功!\n已删除用户: " + username + "\n删除时间: " + nowText;
      deleteUsernameField := [];
      outcome := Deleted;
    }
  }

  /** What the reset handler appends once the new password is stored. */
  function ResetReport(password: string, sendOk: bool): string {
    if sendOk then "\n\n密码重置成功!\n" + ("临时密码已发送到用户手机: " + password) + "\n数据库已更新"
    else "\n\n密码重置成功，但发送失败，请重试发送" + ("\n新密码: " + password)
  }

  /** The reset report shows the new password: as sent to the phone, or for sending again. */
  lemma ResetReportShowsPassword(password: string, sendOk: bool)
    ensures sendOk ==> Contains(ResetReport(password, sendOk), "临时密码已发送到用户手机: " + password)
    ensures !sendOk ==> Contains(ResetReport(password, sendOk), "\n新密码: " + password)
  {
    if sendOk {
      var sent := "临时密码已发送到用户手机: " + password;
      ContainsAtEnd("\n\n密码重置成功!\n", sent);
      ContainsExtends("\n\n密码重置成功!\n" + sent, "\n数据库已更新", sent);
    } else {
      ContainsAtEnd("\n\n密码重置成功，但发送失败，请重试发送", "\n新密码: " + password);
    }
  }

  /** What the create handler shows for a created account. */
  function CreatedReport(username: string, phone: string, role: string): string {
    "用户创建成功!" + ("\n用户名: " + username) + ("\n手机号: " + phone) + ("\n角色: " + role) + "\n状态: 激活"
  }

  /** The creation report shows the new account's name, phone and role, each on its own line. */
  lemma CreatedReportShowsAccount(username: string, phone: string, role: string)
    ensures var t := CreatedReport(username, phone, role);
      && Contains(t, "\n用户名: " + username) && Contains(t, "\n手机号: " + phone)
      && Contains(t, "\n角色: " + role)
  {
    var name, tel, r := "\n用户名: " + username, "\n手机号: " + phone, "\n角色: " + role;
    var active := "\n状态: 激活";
    var p1 := "用户创建成功!" + name;
    var p2 := p1 + tel;
    var p3 := p2 + r;
    ContainsAtEnd("用户创建成功!", name);
    ContainsExtends(p1, tel, name);
    ContainsExtends(p2, r, name);
    ContainsExtends(p3, active, name);
    ContainsAtEnd(p1, tel);
    ContainsExtends(p2, r, tel);
    ContainsExtends(p3, active, tel);
    ContainsAtEnd(p2, r);
    ContainsExtends(p3, active, r);
  }

  /** What the freeze handler appends once the status is stored. */
  function StatusReport(status: string): string {
    "\n\n账户状态已更新!\n" + ("新状态: " + (if status == Active then "已解冻" else "已冻结")) + "\n数据库已更新"
  }

  /** The freeze report names the new status: "已解冻" for an active account, "已冻结" otherwise. */
  lemma StatusReportNamesNewStatus(status: string)
    ensures status == Active ==> Contains(StatusReport(status), "新状态: " + "已解冻")
    ensures status != Active ==> Contains(StatusReport(status), "新状态: " + "已冻结")
  {
    var line := "新状态: " + (if status == Active then "已解冻" else "已冻结");
    ContainsAtEnd("\n\n账户状态已更新!\n", line);
    ContainsExtends("\n\n账户状态已更新!\n" + line, "\n数据库已更新", line);
  }

  function CreateErrorMessage(e: CreateError): string {
    match e
    case MissingField => "请填写所有必填字段"
    case UsernameTooShort => "用户名长度至少3个字符"
    case PasswordTooShort => "密码长度至少6个字符"
    case InvalidPhone => "请输入有效的手机号"
    case UsernameTaken => "用户名已存在，请选择其他用户名"
  }

  /** Each refusal has its own message. */
  lemma CreateErrorMessagesDistinct(e1: CreateError, e2: CreateError)
    requires e1 != e2
    ensures CreateErrorMessage(e1) != CreateErrorMessage(e2)
  {
  }
}
