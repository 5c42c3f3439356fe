/**
  auth.py: registration, login, the e-mail verification link and the
  resend action: an account moves from registered (unverified, with a
  token, affiliate unapproved) to verified and approved by one use of its
  token, and login is refused until then.

  The random token (`secrets.token_urlsafe`), the fresh slug and the
  password hash are inputs; password checking is a caller-supplied
  function. Whether the e-mail went out only changes the flashed message.
 */
module Auth {
  import opened Basics
  import opened Models

  // ---------------------------------------------------------------------
  // Account invariants
  // ---------------------------------------------------------------------

  ghost predicate UsernameTaken(db: Db, username: string)
  {
    exists u :: 0 <= u < |db.users| && db.users[u].username == username
  }

  ghost predicate EmailTaken(db: Db, email: string)
  {
    exists u :: 0 <= u < |db.users| && db.users[u].email == email
  }

  ghost predicate TokenTaken(db: Db, token: string)
  {
    exists u :: 0 <= u < |db.users| && db.users[u].verificationToken == Some(token)
  }

  /** The unique columns of the user table hold, and every affiliate points at its own existing user. */
  ghost predicate AccountsWellFormed(db: Db)
  {
    && (forall u, v :: 0 <= u < v < |db.users| ==> db.users[u].username != db.users[v].username)
    && (forall u, v :: 0 <= u < v < |db.users| ==> db.users[u].email != db.users[v].email)
    && (forall u, v :: 0 <= u < v < |db.users| && db.users[u].verificationToken.Some? ==>
          db.users[u].verificationToken != db.users[v].verificationToken)
    && (forall a :: 0 <= a < |db.affiliates| ==> db.affiliates[a].userId < |db.users|)
    && (forall a, b :: 0 <= a < b < |db.affiliates| ==> db.affiliates[a].userId != db.affiliates[b].userId)
    && (forall a, b :: 0 <= a < b < |db.affiliates| ==> db.affiliates[a].slug != db.affiliates[b].slug)
  }

  // ---------------------------------------------------------------------
  // register
  // ---------------------------------------------------------------------

  datatype RegisterOutcome =
    | UsernameExists
    | EmailExists
    | Registered(mailSent: bool)
    /** The drawn token collided with a stored one: the unique constraint fails at commit. */
    | RegisterFailed

  function FindUsername(db: Db, username: string): Option<nat>
  {
    FirstIndex(db.users, (u: User) => u.username == username)
  }

  function FindEmail(db: Db, email: string): Option<nat>
  {
    FirstIndex(db.users, (u: User) => u.email == email)
  }

  /** The user row a registration creates: role affiliate, unverified, holding the token, no expiry. */
  function NewUser(username: string, email: string, hash: string, token: string): User
  {
    User(username, email, hash, "affiliate", false, Some(token), None)
  }

  /**
    POST /register. The username is checked first, then the e-mail; either
    clash creates nothing. Otherwise a user and its affiliate are added
    together.
   */
  function Register(db: Db, username: string, email: string, hash: string, token: string, slug: string, mailSent: bool)
    : (r: (Db, RegisterOutcome))
    ensures UsernameTaken(db, username) ==> r == (db, UsernameExists)
    ensures !UsernameTaken(db, username) && EmailTaken(db, email) ==> r == (db, EmailExists)
    ensures !r.1.Registered? ==> r.0 == db
    ensures r.1.Registered? <==> !UsernameTaken(db, username) && !EmailTaken(db, email) && !TokenTaken(db, token)
    ensures r.1.Registered? ==>
              && r.1.mailSent == mailSent
              && r.0 == db.(users := db.users + [NewUser(username, email, hash, token)],
                            affiliates := db.affiliates + [Affiliate(|db.users|, slug, false, 0)])
              && !r.0.users[|db.users|].emailVerified
              && r.0.users[|db.users|].verificationToken == Some(token)
              && !r.0.affiliates[|db.affiliates|].approved && r.0.affiliates[|db.affiliates|].totalEarnings == 0
  {
    if FindUsername(db, username).Some? then (db, UsernameExists)
    else if FindEmail(db, email).Some? then (db, EmailExists)
    else if exists u :: 0 <= u < |db.users| && db.users[u].verificationToken == Some(token) then (db, RegisterFailed)
    else
      (db.(users := db.users + [NewUser(username, email, hash, token)],
           affiliates := db.affiliates + [Affiliate(|db.users|, slug, false, 0)]),
       Registered(mailSent))
  }

  /** With a fresh slug, registration keeps the unique columns unique and links the new affiliate to the new user. */
  lemma RegisterKeepsAccountsWellFormed(db: Db, username: string, email: string, hash: string, token: string, slug: string, mailSent: bool)
    requires AccountsWellFormed(db) && !SlugTaken(db, slug)
    ensures AccountsWellFormed(Register(db, username, email, hash, token, slug, mailSent).0)
    ensures Register(db, username, email, hash, token, slug, mailSent).1.Registered? ==>
              AffiliateOf(Register(db, username, email, hash, token, slug, mailSent).0, |db.users|) == Some(|db.affiliates|)
  {
    var r := Register(db, username, email, hash, token, slug, mailSent);
    if r.1.Registered? {
      var d := r.0;
      var n := |db.users|;
      forall a | 0 <= a < |db.affiliates|
        ensures d.affiliates[a].userId != n
      {
        assert d.affiliates[a] == db.affiliates[a];
      }
      assert d.affiliates[|db.affiliates|].userId == n;
    }
  }

  // ---------------------------------------------------------------------
  // login
  // ---------------------------------------------------------------------

  datatype Dashboard = AdminDashboard | AffiliateDashboard

  datatype LoginOutcome = InvalidCredentials | Unverified | LoggedIn(uid: nat, dashboard: Dashboard)

  /**
    POST /login: the first user with the e-mail, if the password checks
    against its hash; an unverified one is turned away.
   */
  function Login(db: Db, email: string, password: string, check: (string, string) -> bool): (r: LoginOutcome)
    ensures r.LoggedIn? <==>
              && FindEmail(db, email).Some?
              && check(db.users[FindEmail(db, email).value].passwordHash, password)
              && db.users[FindEmail(db, email).value].emailVerified
    ensures r.Unverified? <==>
              && FindEmail(db, email).Some?
              && check(db.users[FindEmail(db, email).value].passwordHash, password)
              && !db.users[FindEmail(db, email).value].emailVerified
    ensures r.LoggedIn? ==>
              && r.uid < |db.users| && db.users[r.uid].email == email
              && r.dashboard == (if db.users[r.uid].role == "admin" then AdminDashboard else AffiliateDashboard)
    ensures !EmailTaken(db, email) ==> r == InvalidCredentials
  {
    match FindEmail(db, email)
    case None => InvalidCredentials
    case Some(uid) =>
      var u := db.users[uid];
      if !check(u.passwordHash, password) then InvalidCredentials
      else if !u.emailVerified then Unverified
      else LoggedIn(uid, if u.role == "admin" then AdminDashboard else AffiliateDashboard)
  }

  // ---------------------------------------------------------------------
  // verify_email
  // ---------------------------------------------------------------------

  function FindToken(db: Db, token: string): Option<nat>
  {
    FirstIndex(db.users, (u: User) => u.verificationToken == Some(token))
  }

  /**
    GET /verify/<token>. The route does what `User.verify_email` does except
    that it leaves `token_expiry` in place. An unknown token changes nothing.
   */
  function VerifyEmailByToken(db: Db, token: string): (r: (Db, bool))
    ensures !TokenTaken(db, token) ==> r == (db, false)
    ensures r.1 <==> TokenTaken(db, token)
    ensures |r.0.users| == |db.users| && |r.0.affiliates| == |db.affiliates|
    ensures r.1 ==>
              var uid := FindToken(db, token).value;
              && r.0.users[uid].emailVerified && r.0.users[uid].verificationToken.None?
              && r.0.users[uid].tokenExpiry == db.users[uid].tokenExpiry
              && (AffiliateOf(db, uid).Some? ==> r.0.affiliates[AffiliateOf(db, uid).value].approved)
              && r.0 == VerifyEmail(db, uid).(users := VerifyEmail(db, uid).users[uid := VerifyEmail(db, uid).users[uid].(tokenExpiry := db.users[uid].tokenExpiry)])
  {
    match FindToken(db, token)
    case None => (db, false)
    case Some(uid) =>
      var u := db.users[uid].(emailVerified := true, verificationToken := None);
      var db1 := db.(users := db.users[uid := u]);
      match AffiliateOf(db, uid)
      case None => (db1, true)
      case Some(k) => (db1.(affiliates := db.affiliates[k := db.affiliates[k].(approved := true)]), true)
  }

  /** With unique tokens, a token verifies once: the second use finds nobody and changes nothing. */
  lemma TokenIsSingleUse(db: Db, token: string)
    requires AccountsWellFormed(db) && TokenTaken(db, token)
    ensures var once := VerifyEmailByToken(db, token).0;
            VerifyEmailByToken(once, token) == (once, false)
  {
    var uid := FindToken(db, token).value;
    var once := VerifyEmailByToken(db, token).0;
    forall u | 0 <= u < |once.users|
      ensures once.users[u].verificationToken != Some(token)
    {
      if u != uid {
        assert once.users[u] == db.users[u];
        if u < uid {
          assert db.users[u].verificationToken != db.users[uid].verificationToken;
        } else {
          assert db.users[uid].verificationToken != db.users[u].verificationToken;
        }
      }
    }
  }

  // ---------------------------------------------------------------------
  // resend_verification
  // ---------------------------------------------------------------------

  datatype ResendOutcome = AlreadyVerified | Resent(mailSent: bool) | ResendFailed

  /** The logged-in user `uid` asks for a new link: a verified user is left alone, otherwise the token is replaced. */
  function ResendVerification(db: Db, uid: nat, token: string, mailSent: bool): (r: (Db, ResendOutcome))
    requires uid < |db.users|
    ensures db.users[uid].emailVerified ==> r == (db, AlreadyVerified)
    ensures !r.1.Resent? ==> r.0 == db
    ensures r.1.Resent? <==> !db.users[uid].emailVerified && !TokenTaken(db, token)
    ensures r.1.Resent? ==> r.0 == db.(users := db.users[uid := db.users[uid].(verificationToken := Some(token))])
  {
    if db.users[uid].emailVerified then (db, AlreadyVerified)
    else if exists u :: 0 <= u < |db.users| && db.users[u].verificationToken == Some(token) then (db, ResendFailed)
    else (db.(users := db.users[uid := db.users[uid].(verificationToken := Some(token))]), Resent(mailSent))
  }

  /** After a resend the old token no longer verifies anybody, and the new one verifies this user. */
  lemma ResendRetiresOldToken(db: Db, uid: nat, oldToken: string, token: string, mailSent: bool)
    requires uid < |db.users| && AccountsWellFormed(db)
    requires db.users[uid].verificationToken == Some(oldToken) && oldToken != token
    requires ResendVerification(db, uid, token, mailSent).1.Resent?
    ensures var d := ResendVerification(db, uid, token, mailSent).0;
            && !TokenTaken(d, oldToken)
            && FindToken(d, token) == Some(uid)
  {
    var d := ResendVerification(db, uid, token, mailSent).0;
    forall u | 0 <= u < |d.users|
      ensures d.users[u].verificationToken != Some(oldToken)
    {
      if u != uid {
        if u < uid {
          assert db.users[u].verificationToken != db.users[uid].verificationToken;
        } else {
          assert db.users[uid].verificationToken != db.users[u].verificationToken;
        }
      }
    }
    assert !TokenTaken(db, token);
    forall u | 0 <= u < |d.users| && u != uid
      ensures d.users[u].verificationToken != Some(token)
    {
      assert d.users[u] == db.users[u];
    }
    assert d.users[uid].verificationToken == Some(token);
    var k := FindToken(d, token);
    assert k.Some? && d.users[k.value].verificationToken == Some(token);
  }

  // ---------------------------------------------------------------------
  // The account lifecycle
  // ---------------------------------------------------------------------

  /**
    Register, then log in: refused as unverified. Follow the link: the
    affiliate is approved and the same login now reaches the affiliate
    dashboard.
   */
  lemma {:induction false} AccountLifecycle(db: Db, username: string, email: string, hash: string, token: string,
                                            slug: string, password: string, check: (string, string) -> bool)
    requires AccountsWellFormed(db) && !SlugTaken(db, slug)
    requires !UsernameTaken(db, username) && !EmailTaken(db, email) && !TokenTaken(db, token)
    requires check(hash, password)
    ensures var d1 := Register(db, username, email, hash, token, slug, true).0;
            var d2 := VerifyEmailByToken(d1, token).0;
            && Login(d1, email, password, check) == Unverified
            && d2.affiliates[|db.affiliates|].approved
            && Login(d2, email, password, check) == LoggedIn(|db.users|, AffiliateDashboard)
  {
    var n := |db.users|;
    var d1 := Register(db, username, email, hash, token, slug, true).0;
    RegisterKeepsAccountsWellFormed(db, username, email, hash, token, slug, true);
    RegisteredIsFound(db, username, email, hash, token, slug);
    VerifiedIsFound(d1, n, email, token);
  }

  /** The new row is the one user holding the new e-mail and the new token. */
  lemma RegisteredIsFound(db: Db, username: string, email: string, hash: string, token: string, slug: string)
    requires !UsernameTaken(db, username) && !EmailTaken(db, email) && !TokenTaken(db, token)
    ensures var d1 := Register(db, username, email, hash, token, slug, true).0;
            FindEmail(d1, email) == Some(|db.users|) && FindToken(d1, token) == Some(|db.users|)
  {
    var n := |db.users|;
    var d1 := Register(db, username, email, hash, token, slug, true).0;
    assert d1.users[n].email == email;
    assert forall u :: 0 <= u < n ==> d1.users[u].email != email;
    assert d1.users[n].verificationToken == Some(token);
    assert forall u :: 0 <= u < n ==> d1.users[u].verificationToken != Some(token);
  }

  /** Verifying by the token of the user found by e-mail leaves that user found by e-mail, now verified. */
  lemma VerifiedIsFound(d1: Db, n: nat, email: string, token: string)
    requires FindEmail(d1, email) == Some(n) && FindToken(d1, token) == Some(n)
    ensures var d2 := VerifyEmailByToken(d1, token).0;
            FindEmail(d2, email) == Some(n) && d2.users[n].emailVerified
  {
    var d2 := VerifyEmailByToken(d1, token).0;
    assert forall u :: 0 <= u < n ==> d2.users[u] == d1.users[u];
    assert d2.users[n].email == email;
  }
}
