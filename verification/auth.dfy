/** The account store: input validation, registration, login and logout over
    an in-memory map from e-mail address to user record. */
module Auth {
  import opened Wrappers
  import opened Text

  datatype User = User(
    id: string,
    email: string,
    username: string,
    password: string,
    avatar: string,
    status: string)

  /** The signed-in user as kept in the session: the user record without its
      password. */
  datatype Session = Session(
    id: string,
    email: string,
    username: string,
    avatar: string,
    status: string)

  /** The fields of the registration form. */
  datatype Registration = Registration(
    email: string,
    username: string,
    password: string,
    confirmPassword: string)

  /** One message per failed registration check, in the order they are made. */
  datatype RegisterError = InvalidEmail | UsernameLength | PasswordTooShort | PasswordMismatch | EmailTaken

  datatype LoginError = EmailRequired | PasswordRequired | UnknownEmail | WrongPassword

  datatype AuthState = AuthState(users: map<string, User>, current: Option<Session>)

  /** The account created when the store is empty. */
  const TestUser := User("1", "test@test.com", "TestUser", "123", "T", "online")

  // ---------------------------------------------------------------------------
  // Validators

  /** A character the pattern's `[^\s@]` class admits. */
  predicate Plain(c: char) {
    !IsSpace(c) && c != '@'
  }

  predicate AllPlain(s: string) {
    forall i | 0 <= i < |s| :: Plain(s[i])
  }

  /** The part `[^\s@]+\.[^\s@]+` of the e-mail pattern: plain characters with
      a dot that is neither the first nor the last of them. */
  predicate DottedDomain(d: string) {
    AllPlain(d) && exists k | 0 < k < |d| - 1 :: d[k] == '.'
  }

  /** The e-mail pattern `^[^\s@]+@[^\s@]+\.[^\s@]+$`, read position by position. */
  predicate EmailPattern(e: string) {
    exists at | 0 <= at < |e| ::
      e[at] == '@' && at > 0 && AllPlain(e[..at]) && DottedDomain(e[at + 1..])
  }

  /** `validateEmail`: one left-to-right scan that accepts exactly the strings
      the e-mail pattern matches. */
  method ValidateEmail(email: string) returns (ok: bool)
    ensures ok <==> EmailPattern(email)
  {
    var at := -1;   // position of the '@', once seen
    var dot := -1;  // first '.' at least two places after the '@'
    var i := 0;
    while i < |email|
      invariant 0 <= i <= |email|
      invariant forall k | 0 <= k < i :: !IsSpace(email[k])
      invariant at == -1 ==> dot == -1 && forall k | 0 <= k < i :: email[k] != '@'
      invariant at != -1 ==> 0 < at < i && email[at] == '@'
      invariant at != -1 ==> forall k | 0 <= k < i && k != at :: email[k] != '@'
      invariant dot != -1 ==> at + 2 <= dot < i && email[dot] == '.'
      invariant at != -1 ==> forall k | at + 2 <= k < i && (dot == -1 || k < dot) :: email[k] != '.'
    {
      var c := email[i];
      if IsSpace(c) {
        assert !Plain(email[i]);
        NoPatternWith(email, i);
        return false;
      }
      if c == '@' {
        if at != -1 || i == 0 {
          if i == 0 {
            NoPatternWith(email, 0);
          } else {
            NoPatternWithTwoAts(email, at, i);
          }
          return false;
        }
        at := i;
      } else if c == '.' && at != -1 && dot == -1 && i >= at + 2 {
        dot := i;
      }
      i := i + 1;
    }
    if at == -1 {
      ok := false;
    } else {
      var d := email[at + 1..];
      assert AllPlain(email[..at]);
      assert AllPlain(d);
      if dot != -1 && dot < |email| - 1 {
        assert d[dot - at - 1] == '.';
        assert DottedDomain(d);
        ok := true;
      } else {
        assert forall k | 0 < k < |d| - 1 :: d[k] != '.' by {
          forall k | 0 < k < |d| - 1 ensures d[k] != '.' {
            assert email[at + 1 + k] != '.';
          }
        }
        ok := false;
      }
    }
  }

  /** A character at position `i` that is a space, or an '@' at the front,
      rules the pattern out. */
  lemma NoPatternWith(e: string, i: int)
    requires 0 <= i < |e|
    requires IsSpace(e[i]) || (i == 0 && e[0] == '@')
    ensures !EmailPattern(e)
  {
    forall at | 0 <= at < |e| && e[at] == '@' && at > 0
      ensures !(AllPlain(e[..at]) && DottedDomain(e[at + 1..]))
    {
      if i < at {
        assert !Plain(e[..at][i]);
      } else if i > at {
        assert !Plain(e[at + 1..][i - at - 1]);
      }
    }
  }

  lemma NoPatternWithTwoAts(e: string, i: int, j: int)
    requires 0 <= i < j < |e| && e[i] == '@' && e[j] == '@'
    ensures !EmailPattern(e)
  {
    forall at | 0 <= at < |e| && e[at] == '@' && at > 0
      ensures !(AllPlain(e[..at]) && DottedDomain(e[at + 1..]))
    {
      if i < at {
        assert !Plain(e[..at][i]);
      } else if i > at {
        assert !Plain(e[at + 1..][i - at - 1]);
      } else {
        assert !Plain(e[at + 1..][j - at - 1]);
      }
    }
  }

  /** What a matching address looks like: no whitespace anywhere, exactly one
      '@' with something before it, and a dot after it that is neither right
      behind the '@' nor the last character. */
  lemma EmailPatternShape(e: string)
    requires EmailPattern(e)
    ensures forall i | 0 <= i < |e| :: !IsSpace(e[i])
    ensures exists at | 0 < at < |e| ::
      (e[at] == '@'
       && (forall j | 0 <= j < |e| && j != at :: e[j] != '@')
       && (exists k | at + 1 < k < |e| - 1 :: e[k] == '.'))
  {
    var at :| 0 <= at < |e| && e[at] == '@' && at > 0 && AllPlain(e[..at]) && DottedDomain(e[at + 1..]);
    var d := e[at + 1..];
    forall i | 0 <= i < |e| ensures !IsSpace(e[i]) {
      if i < at { assert e[..at][i] == e[i]; }
      else if i > at { assert d[i - at - 1] == e[i]; }
    }
    forall j | 0 <= j < |e| && j != at ensures e[j] != '@' {
      if j < at { assert e[..at][j] == e[j]; }
      else { assert d[j - at - 1] == e[j]; }
    }
    var k :| 0 < k < |d| - 1 && d[k] == '.';
    assert e[at + 1 + k] == '.';
  }

  /** `validateUsername`: between 2 and 20 characters. */
  predicate ValidUsername(username: string) {
    2 <= |username| <= 20
  }

  /** `validatePassword`: at least 3 characters. */
  predicate ValidPassword(password: string) {
    |password| >= 3
  }

  // ---------------------------------------------------------------------------
  // Registration

  function Check(failed: bool, e: RegisterError): seq<RegisterError> {
    if failed then [e] else []
  }

  /** Position of each check in the order `register` makes them. */
  function Rank(e: RegisterError): nat {
    match e
    case InvalidEmail => 0
    case UsernameLength => 1
    case PasswordTooShort => 2
    case PasswordMismatch => 3
    case EmailTaken => 4
  }

  /** Every check that fails, in the order they are made; an empty list means
      the registration is accepted. */
  function RegisterErrors(users: map<string, User>, form: Registration): (errs: seq<RegisterError>)
    ensures InvalidEmail in errs <==> !EmailPattern(form.email)
    ensures UsernameLength in errs <==> !ValidUsername(form.username)
    ensures PasswordTooShort in errs <==> !ValidPassword(form.password)
    ensures PasswordMismatch in errs <==> form.password != form.confirmPassword
    ensures EmailTaken in errs <==> form.email in users
  {
    Check(!EmailPattern(form.email), InvalidEmail)
    + (Check(!ValidUsername(form.username), UsernameLength)
    + (Check(!ValidPassword(form.password), PasswordTooShort)
    + (Check(form.password != form.confirmPassword, PasswordMismatch)
    + Check(form.email in users, EmailTaken))))
  }

  /** Errors listed strictly in the order of their checks. */
  predicate InCheckOrder(errs: seq<RegisterError>) {
    forall i, j | 0 <= i < j < |errs| :: Rank(errs[i]) < Rank(errs[j])
  }

  lemma CheckBeforeLater(failed: bool, e: RegisterError, rest: seq<RegisterError>)
    requires InCheckOrder(rest)
    requires forall x | x in rest :: Rank(e) < Rank(x)
    ensures InCheckOrder(Check(failed, e) + rest)
    ensures forall x | x in Check(failed, e) + rest :: Rank(e) <= Rank(x)
  {
    var s := Check(failed, e) + rest;
    if failed {
      forall i, j | 0 <= i < j < |s| ensures Rank(s[i]) < Rank(s[j]) {
        if i == 0 {
          assert s[j] == rest[j - 1];
          assert s[j] in rest;
        } else {
          assert s[i] == rest[i - 1] && s[j] == rest[j - 1];
        }
      }
    } else {
      assert s == rest;
    }
  }

  /** `register` reports its errors in the order it checks for them, each at
      most once. */
  lemma {:induction false} RegisterErrorsInOrder(users: map<string, User>, form: Registration)
    ensures InCheckOrder(RegisterErrors(users, form))
  {
    var c4 := Check(form.email in users, EmailTaken);
    var c3 := Check(form.password != form.confirmPassword, PasswordMismatch);
    var c2 := Check(!ValidPassword(form.password), PasswordTooShort);
    var c1 := Check(!ValidUsername(form.username), UsernameLength);
    var c0 := Check(!EmailPattern(form.email), InvalidEmail);
    CheckBeforeLater(form.email in users, EmailTaken, []);
    assert c4 + [] == c4;
    CheckBeforeLater(form.password != form.confirmPassword, PasswordMismatch, c4);
    CheckBeforeLater(!ValidPassword(form.password), PasswordTooShort, c3 + c4);
    CheckBeforeLater(!ValidUsername(form.username), UsernameLength, c2 + (c3 + c4));
    CheckBeforeLater(!EmailPattern(form.email), InvalidEmail, c1 + (c2 + (c3 + c4)));
  }

  /** `register`: all failed checks are reported together and the store is
      left alone; otherwise the new user is stored under its e-mail address.
      `id` is the identifier the application draws from the clock. */
  function Register(users: map<string, User>, form: Registration, id: string)
    : (r: (map<string, User>, Result<User, seq<RegisterError>>))
    ensures r.1.Failure? <==>
      !EmailPattern(form.email) || !ValidUsername(form.username) || !ValidPassword(form.password)
      || form.password != form.confirmPassword || form.email in users
    ensures r.1.Failure? ==> r.0 == users && r.1.error == RegisterErrors(users, form)
    ensures r.1.Success? ==>
      && form.email !in users
      && r.0 == users[form.email := r.1.value]
      && r.1.value == User(id, form.email, form.username, form.password, Initial(form.username), "online")
    ensures r.1.Success? ==> |r.1.value.avatar| == 1 && r.1.value.avatar[0] == Upper(form.username[0])
    ensures forall k | k in users :: k in r.0 && r.0[k] == users[k]
  {
    var errs := RegisterErrors(users, form);
    if |errs| > 0 then
      (users, Failure(errs))
    else
      var user := User(id, form.email, form.username, form.password, Initial(form.username), "online");
      (users[form.email := user], Success(user))
  }

  // ---------------------------------------------------------------------------
  // Login and logout

  /** The session copy of a user: every field but the password. */
  function WithoutPassword(u: User): (s: Session)
    ensures s.id == u.id && s.email == u.email && s.username == u.username
    ensures s.avatar == u.avatar && s.status == u.status
  {
    Session(u.id, u.email, u.username, u.avatar, u.status)
  }

  /** `login`: missing fields are reported together; then the address must be
      known and the password must match. On success the session holds the
      user without the password; the store never changes. */
  function Login(a: AuthState, email: string, password: string)
    : (r: (AuthState, Result<Session, seq<LoginError>>))
    ensures r.0.users == a.users
    ensures r.1.Success? <==>
      email != "" && password != "" && email in a.users && a.users[email].password == password
    ensures r.1.Success? ==>
      r.1.value == WithoutPassword(a.users[email]) && r.0.current == Some(r.1.value)
    ensures r.1.Failure? ==> r.0 == a && |r.1.error| > 0
    ensures r.1.Failure? ==>
      && (EmailRequired in r.1.error <==> email == "")
      && (PasswordRequired in r.1.error <==> password == "")
      && (UnknownEmail in r.1.error <==> email != "" && password != "" && email !in a.users)
      && (WrongPassword in r.1.error <==>
            email != "" && password != "" && email in a.users && a.users[email].password != password)
  {
    var missing := (if email == "" then [EmailRequired] else [])
      + (if password == "" then [PasswordRequired] else []);
    if |missing| > 0 then
      (a, Failure(missing))
    else if email !in a.users then
      (a, Failure([UnknownEmail]))
    else if a.users[email].password != password then
      (a, Failure([WrongPassword]))
    else
      var s := WithoutPassword(a.users[email]);
      (a.(current := Some(s)), Success(s))
  }

  /** `logout`: the session is dropped and the store kept. */
  function Logout(a: AuthState): (r: AuthState)
    ensures r.current.None? && r.users == a.users
  {
    a.(current := None)
  }

  // ---------------------------------------------------------------------------
  // Loading the store

  /** No user after position `i` of `saved` has the address of `saved[i]`. */
  predicate LastWithEmail(saved: seq<User>, i: int)
    requires 0 <= i < |saved|
  {
    forall j | i < j < |saved| :: saved[j].email != saved[i].email
  }

  /** The addresses of the saved users. */
  function Emails(saved: seq<User>): set<string> {
    set i | 0 <= i < |saved| :: saved[i].email
  }

  /** The saved user list keyed by e-mail (`forEach` with `Map.set`): exactly
      the saved addresses are keys, and under each sits the last saved user
      with that address. */
  function IndexByEmail(saved: seq<User>): (m: map<string, User>)
    ensures m.Keys == Emails(saved)
    ensures forall k | k in m :: m[k].email == k && m[k] in saved
    ensures forall i | 0 <= i < |saved| && LastWithEmail(saved, i) :: m[saved[i].email] == saved[i]
    decreases |saved|
  {
    if |saved| == 0 then map[]
    else
      var n := |saved| - 1;
      assert saved == saved[..n] + [saved[n]];
      LastWinsSnoc(saved[..n], saved[n], IndexByEmail(saved[..n]));
      IndexByEmail(saved[..n])[saved[n].email := saved[n]]
  }

  /** Storing one more user over the map of the earlier ones keeps every
      address with its last user. */
  lemma LastWinsSnoc(prefix: seq<User>, last: User, inner: map<string, User>)
    requires inner.Keys == Emails(prefix)
    requires forall k | k in inner :: inner[k].email == k && inner[k] in prefix
    requires forall i | 0 <= i < |prefix| && LastWithEmail(prefix, i) :: inner[prefix[i].email] == prefix[i]
    ensures var saved := prefix + [last];
      var m := inner[last.email := last];
      && m.Keys == Emails(saved)
      && (forall k | k in m :: m[k].email == k && m[k] in saved)
      && (forall i | 0 <= i < |saved| && LastWithEmail(saved, i) :: m[saved[i].email] == saved[i])
  {
    var saved := prefix + [last];
    var n := |prefix|;
    var m := inner[last.email := last];
    forall k | k in Emails(saved) ensures k in m {
      var i :| 0 <= i < |saved| && saved[i].email == k;
      if i < n { assert saved[i] == prefix[i]; }
    }
    forall k | k in m ensures k in Emails(saved) {
      if k == last.email {
        assert saved[n].email == k;
      } else {
        var i :| 0 <= i < n && prefix[i].email == k;
        assert saved[i].email == k;
      }
    }
    forall i | 0 <= i < |saved| && LastWithEmail(saved, i) ensures m[saved[i].email] == saved[i] {
      if i < n {
        assert saved[n].email != saved[i].email;
        assert saved[i] == prefix[i];
        forall j | i < j < n ensures prefix[j].email != prefix[i].email {
          assert saved[j] == prefix[j];
        }
      }
    }
  }

  /** `loadUsers`: the saved users keyed by address, or the test account when
      there are none. */
  function LoadUsers(saved: seq<User>): (m: map<string, User>)
    ensures |saved| == 0 ==> m == map[TestUser.email := TestUser]
    ensures |saved| > 0 ==> m.Keys == Emails(saved)
    ensures |saved| > 0 ==> forall i | 0 <= i < |saved| && LastWithEmail(saved, i) :: m[saved[i].email] == saved[i]
    ensures forall k | k in m :: m[k].email == k
  {
    var m := IndexByEmail(saved);
    if |saved| == 0 then map[TestUser.email := TestUser] else m
  }

  // ---------------------------------------------------------------------------
  // Properties relating the operations

  /** A freshly registered account can log in with the password it was
      registered with, and the session is that account minus its password. */
  lemma RegisterThenLogin(users: map<string, User>, form: Registration, id: string)
    requires Register(users, form, id).1.Success?
    ensures
      var (users', res) := Register(users, form, id);
      var (a', out) := Login(AuthState(users', None), form.email, form.password);
      && out.Success?
      && out.value == WithoutPassword(res.value)
      && out.value.avatar == Initial(form.username)
  {
    var (users', res) := Register(users, form, id);
    assert ValidPassword(form.password);
    assert form.email in users';
    assert form.email != "" by {
      var at :| 0 <= at < |form.email| && form.email[at] == '@' && at > 0
        && AllPlain(form.email[..at]) && DottedDomain(form.email[at + 1..]);
    }
  }

  /** Registering the same address twice fails the second time with exactly
      the "already registered" error added. */
  lemma RegisterTwiceFails(users: map<string, User>, form: Registration, id: string, id2: string)
    requires Register(users, form, id).1.Success?
    ensures
      var users' := Register(users, form, id).0;
      var r := Register(users', form, id2);
      r.0 == users' && r.1.Failure? && r.1.error == [EmailTaken]
  {
    var users' := Register(users, form, id).0;
    assert RegisterErrors(users, form) == [];
    assert RegisterErrors(users', form) == [EmailTaken];
  }

  /** Logging out after a successful login leaves the store exactly as it was,
      with nobody signed in. */
  lemma LoginThenLogout(a: AuthState, email: string, password: string)
    ensures Logout(Login(a, email, password).0) == a.(current := None)
  {
  }

  /** The seeded test account has a well-formed address and logs in with the
      password "123". */
  lemma TestUserLogsIn()
    ensures EmailPattern(TestUser.email)
    ensures Login(AuthState(LoadUsers([]), None), "test@test.com", "123").1.Success?
  {
    var e := TestUser.email;
    assert e[4] == '@';
    var d := e[5..];
    assert d == "test.com";
    assert d[4] == '.';
    assert AllPlain(e[..4]);
    assert DottedDomain(d);
  }
}
