/**
 * The earlier backend's sign-up and login routes (`backend/routes/auth.js`): no
 * verification codes, a letters-and-digits password rule, and a 90-day token in an
 * httpOnly cookie. The `users` table and its validators are the current backend's.
 */
module LegacyAuth {
  import opened Util
  import opened JsUtil
  import AuthRoutes

  const TokenLifetimeDays := 90
  const MsPerDay := 24 * 60 * 60 * 1000
  /** `maxAge: 90 * 24 * 60 * 60 * 1000`. */
  const CookieMaxAgeMs := 90 * 24 * 60 * 60 * 1000

  const MsgLegacyPassword := "비밀번호는 8~16자, 영문과 숫자를 모두 포함해야 합니다"

  /** `/^(?=.*[A-Za-z])(?=.*\d)[A-Za-z\d]{8,16}$/`: 8 to 16 letters and digits, with one of each. */
  predicate LegacyPasswordOk(p: string)
  {
    && 8 <= |p| <= 16
    && (forall k :: 0 <= k < |p| ==> AuthRoutes.AsciiLetter(p[k]) || IsDigit(p[k]))
    && (exists k :: 0 <= k < |p| && AuthRoutes.AsciiLetter(p[k]))
    && (exists k :: 0 <= k < |p| && IsDigit(p[k]))
  }

  /** The two rules are disjoint: every legacy password lacks the special character the current sign-up demands. */
  lemma LegacyPasswordRefusedNow(p: string)
    requires LegacyPasswordOk(p)
    ensures !AuthRoutes.SignupPasswordOk(p)
  {
    AuthRoutes.SignupNeedsSpecial(p);
  }

  lemma LegacyPasswordExample()
    ensures LegacyPasswordOk("abcd1234")
    ensures !LegacyPasswordOk("abcdefgh") && !LegacyPasswordOk("abcd123!")
  {
    var p := "abcd1234";
    assert AuthRoutes.AsciiLetter(p[0]) && IsDigit(p[4]);
    var q := "abcd123!";
    assert !AuthRoutes.AsciiLetter(q[7]) && !IsDigit(q[7]);
  }

  /** The signed token's claims and the cookie that carries it. */
  datatype Session = Session(userId: int, email: string, nickname: string, expiresInDays: int, maxAgeMs: int)

  /** A route's reply together with the cookie it sets, if any. */
  datatype AuthReply = AuthReply(reply: Reply, session: Option<Session>)

  /** The session both routes issue for a user row. */
  function SessionFor(id: int, email: string, nickname: string): (s: Session)
    ensures s.userId == id && s.email == email && s.nickname == nickname
    ensures s.expiresInDays == 90 && s.maxAgeMs == s.expiresInDays * MsPerDay
  {
    Session(id, email, nickname, TokenLifetimeDays, CookieMaxAgeMs)
  }

  class LegacyAuthServer {
    var users: map<string, AuthRoutes.User>

    constructor (table: map<string, AuthRoutes.User>)
      ensures users == table
    {
      users := table;
    }

    /**
     * `POST /signup`: every field, then the address, the nickname length and the password
     * rule, then the address before the nickname for duplicates. `newId` is the serial the
     * INSERT assigns and `hash` bcrypt's hash of the password.
     */
    method Signup(email: string, nickname: string, password: string, newId: int, hash: string) returns (r: AuthReply)
      modifies this
      ensures email == [] || nickname == [] || password == [] ==> r == AuthReply(Reply(400, false, AuthRoutes.MsgAllFields), None)
      ensures email != [] && nickname != [] && password != [] ==> (r ==
        if !AuthRoutes.ValidEmail(email) then AuthReply(Reply(400, false, AuthRoutes.MsgBadEmail), None)
        else if !AuthRoutes.NicknameLengthOk(nickname) then AuthReply(Reply(400, false, AuthRoutes.MsgNicknameLength), None)
        else if !LegacyPasswordOk(password) then AuthReply(Reply(400, false, MsgLegacyPassword), None)
        else if email in old(users) then AuthReply(Reply(400, false, AuthRoutes.MsgEmailTaken), None)
        else if AuthRoutes.NicknameTaken(old(users), nickname) then AuthReply(Reply(400, false, AuthRoutes.MsgNicknameTaken), None)
        else AuthReply(Reply(201, true, AuthRoutes.MsgSignedUp), Some(SessionFor(newId, email, nickname))))
      ensures users == if r.reply.success then old(users)[email := AuthRoutes.User(newId, nickname, hash, false, None)] else old(users)
      ensures r.session.Some? <==> r.reply.success
    {
      if email == [] || nickname == [] || password == [] {
        return AuthReply(Reply(400, false, AuthRoutes.MsgAllFields), None);
      }
      if !AuthRoutes.ValidEmail(email) {
        return AuthReply(Reply(400, false, AuthRoutes.MsgBadEmail), None);
      }
      if !AuthRoutes.NicknameLengthOk(nickname) {
        return AuthReply(Reply(400, false, AuthRoutes.MsgNicknameLength), None);
      }
      if !LegacyPasswordOk(password) {
        return AuthReply(Reply(400, false, MsgLegacyPassword), None);
      }
      if email in users {
        return AuthReply(Reply(400, false, AuthRoutes.MsgEmailTaken), None);
      }
      if AuthRoutes.NicknameTaken(users, nickname) {
        return AuthReply(Reply(400, false, AuthRoutes.MsgNicknameTaken), None);
      }
      users := users[email := AuthRoutes.User(newId, nickname, hash, false, None)];
      r := AuthReply(Reply(201, true, AuthRoutes.MsgSignedUp), Some(SessionFor(newId, email, nickname)));
    }

    /**
     * `POST /login`; `matches` is `bcrypt.compare`. An unknown address and a wrong password
     * get the same 401 reply; a success stamps `last_login_at` and sets the cookie.
     */
    method Login(email: string, password: string, matches: (string, string) -> bool, now: int) returns (r: AuthReply)
      modifies this
      ensures email == [] || password == [] ==> r == AuthReply(Reply(400, false, AuthRoutes.MsgEmailAndPassword), None)
      ensures email != [] && password != [] ==> (r ==
        if !AuthRoutes.ValidEmail(email) then AuthReply(Reply(400, false, AuthRoutes.MsgBadEmail), None)
        else if email !in old(users) || !matches(password, old(users)[email].passwordHash)
        then AuthReply(Reply(401, false, AuthRoutes.MsgBadCredentials), None)
        else AuthReply(Reply(200, true, AuthRoutes.MsgLoggedIn),
                       Some(SessionFor(old(users)[email].id, email, old(users)[email].nickname))))
      ensures users == if r.reply.success then old(users)[email := old(users)[email].(lastLoginAt := Some(now))] else old(users)
    {
      if email == [] || password == [] {
        return AuthReply(Reply(400, false, AuthRoutes.MsgEmailAndPassword), None);
      }
      if !AuthRoutes.ValidEmail(email) {
        return AuthReply(Reply(400, false, AuthRoutes.MsgBadEmail), None);
      }
      if email !in users || !matches(password, users[email].passwordHash) {
        return AuthReply(Reply(401, false, AuthRoutes.MsgBadCredentials), None);
      }
      r := AuthReply(Reply(200, true, AuthRoutes.MsgLoggedIn), Some(SessionFor(users[email].id, email, users[email].nickname)));
      users := users[email := users[email].(lastLoginAt := Some(now))];
    }
  }
}
