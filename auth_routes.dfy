/**
 * The account routes of the Express backend: e-mail verification codes and password
 * reset codes held in two in-memory maps that a timer sweeps, the sign-up and login
 * validators and their order of checks, and the rule that lets an expired session be
 * renewed for seven days. The users table, bcrypt, the random source and the clock are
 * parameters; the e-mail sender and the Kakao login are not part of this model.
 */
module AuthRoutes {
  import opened Util
  import opened JsUtil

  const CodeLifetimeMs := 5 * 60 * 1000
  /** How long after its `exp` an expired session may still be renewed, in seconds. */
  const RefreshGraceSeconds := 7 * 24 * 60 * 60
  /** The signed token's `expiresIn`, in days, and the cookie's `maxAge`, in milliseconds. */
  const TokenLifetimeDays := 14
  const CookieMaxAgeMs := 14 * 24 * 60 * 60 * 1000

  const MsgEmailRequired := "이메일을 입력해주세요"
  const MsgBadEmail := "올바른 이메일 형식이 아닙니다"
  const MsgEmailTaken := "이미 사용 중인 이메일입니다"
  const MsgCodeSent := "인증번호가 발송되었습니다"
  const MsgEmailAndCode := "이메일과 인증번호를 입력해주세요"
  const MsgNoCode := "인증번호를 먼저 요청해주세요"
  const MsgCodeExpired := "인증번호가 만료되었습니다. 다시 요청해주세요"
  const MsgCodeWrong := "인증번호가 올바르지 않습니다"
  const MsgVerified := "인증되었습니다"
  const MsgAllFields := "모든 필드를 입력해주세요"
  const MsgNicknameLength := "닉네임은 2자 이상 20자 이하여야 합니다"
  const MsgSignupPassword := "비밀번호는 8~16자, 영문+숫자+특수문자 조합이어야 합니다"
  const MsgNicknameTaken := "이미 사용 중인 닉네임입니다"
  const MsgSignedUp := "회원가입이 완료되었습니다"
  const MsgEmailAndPassword := "이메일과 비밀번호를 입력해주세요"
  const MsgBadCredentials := "이메일 또는 비밀번호가 올바르지 않습니다"
  const MsgLoggedIn := "로그인이 완료되었습니다"
  const MsgResetSent := "가입된 이메일이면 인증번호가 발송됩니다"
  const MsgResetPassword := "비밀번호는 8~16자, 영문, 숫자, 특수문자를 모두 포함해야 합니다"
  const MsgPasswordChanged := "비밀번호가 변경되었습니다. 새 비밀번호로 로그인해주세요."
  const MsgLoginRequired := "로그인이 필요합니다"
  const MsgBadToken := "유효하지 않은 토큰입니다"
  const MsgSessionExpired := "세션이 만료되었습니다. 다시 로그인해주세요"
  const MsgNoUser := "사용자를 찾을 수 없습니다"
  const MsgRefreshed := "토큰이 갱신되었습니다"

  // ---------------------------------------------------------------------------
  // Validators

  /** A run of `[^\s@]`: no whitespace and no '@'. */
  predicate NoSpaceNoAt(x: string)
  {
    forall k :: 0 <= k < |x| ==> !JsIsSpace(x[k]) && x[k] != '@'
  }

  /**
   * `/^[^\s@]+@[^\s@]+\.[^\s@]+$/.test(s)`: the text up to the one '@' is a non-empty
   * run, and after it comes a run with a '.' that is neither its first nor its last character.
   */
  predicate ValidEmail(s: string)
  {
    match IndexOf(s, '@')
    case None => false
    case Some(i) =>
      var d := s[i + 1..];
      i > 0 && NoSpaceNoAt(s[..i]) && NoSpaceNoAt(d) && |d| >= 3 && '.' in d[1..|d| - 1]
  }

  /** The regular expression read by positions: '@' at `i`, the chosen '.' at `k`. */
  predicate EmailSplitAt(s: string, i: nat, k: nat)
  {
    && 0 < i && i + 1 < k && k + 1 < |s|
    && s[i] == '@' && s[k] == '.'
    && NoSpaceNoAt(s[..i]) && NoSpaceNoAt(s[i + 1..])
  }

  /** An address passes the check exactly when it splits as `local@host.tld` with every part a non-empty `[^\s@]` run. */
  lemma ValidEmailMeaning(s: string)
    ensures ValidEmail(s) <==> exists i: nat, k: nat :: EmailSplitAt(s, i, k)
  {
    if ValidEmail(s) {
      var k := ValidEmailSplit(s);
      assert EmailSplitAt(s, IndexOf(s, '@').value, k);
    }
    if exists i: nat, k: nat :: EmailSplitAt(s, i, k) {
      var i: nat, k: nat :| EmailSplitAt(s, i, k);
      SplitValidEmail(s, i, k);
    }
  }

  /** The '.' a passing address has in its host part. */
  lemma ValidEmailSplit(s: string) returns (k: nat)
    requires ValidEmail(s)
    ensures EmailSplitAt(s, IndexOf(s, '@').value, k)
  {
    var i := IndexOf(s, '@').value;
    var d := s[i + 1..];
    var j := IndexOf(d[1..|d| - 1], '.').value;
    assert s[i + 2 + j] == d[1..|d| - 1][j];
    k := i + 2 + j;
  }

  lemma SplitValidEmail(s: string, i: nat, k: nat)
    requires EmailSplitAt(s, i, k)
    ensures ValidEmail(s)
  {
    EmailAtIndex(s, i);
    var d := s[i + 1..];
    assert d[k - i - 1] == s[k];
    assert d[1..|d| - 1][k - i - 2] == s[k];
  }

  lemma EmailAtIndex(s: string, i: nat)
    requires i < |s| && s[i] == '@' && '@' !in s[..i]
    ensures IndexOf(s, '@') == Some(i)
  {
  }

  /** A plain address passes. */
  lemma EmailAccepted()
    ensures ValidEmail("a@b.c")
  {
    var s := "a@b.c";
    assert s[..1] == "a" && s[2..] == "b.c";
    assert !JsIsSpace('a') && !JsIsSpace('b') && !JsIsSpace('.') && !JsIsSpace('c');
    assert NoSpaceNoAt(s[..1]) && NoSpaceNoAt(s[2..]);
    SplitValidEmail(s, 1, 3);
  }

  /** A host without a dot is refused. */
  lemma EmailNeedsDot()
    ensures !ValidEmail("a@bc")
  {
    EmailAtIndex("a@bc", 1);
    assert "a@bc"[2..][1..1] == [];
  }

  /** A space anywhere is refused. */
  lemma EmailRefusesSpace()
    ensures !ValidEmail("a b@c.d")
  {
    EmailAtIndex("a b@c.d", 3);
    assert "a b@c.d"[..3][1] == ' ';
  }

  /** `nickname.length` in 2..20, counted in UTF-16 code units. */
  predicate NicknameLengthOk(nickname: string)
  {
    2 <= Utf16Length(nickname) <= 20
  }

  predicate AsciiLetter(c: char)
  {
    'A' <= c <= 'Z' || 'a' <= c <= 'z'
  }

  /** The special characters the sign-up and reset rule accepts. */
  const SignupSpecials: set<char> := {
    '!', '@', '#', '$', '%', '^', '&', '*', '(', ')', '_', '+', '-', '=', '[', ']',
    '{', '}', ';', '\'', ':', '"', '\\', '|', ',', '.', '<', '>', '/', '?', '`', '~'
  }

  /**
   * The sign-up and reset password pattern: 8 to 16 characters, each a letter, a digit or
   * one of the specials, with at least one of each kind. Every accepted character is ASCII,
   * so the length in code units is the length in characters.
   */
  predicate SignupPasswordOk(p: string)
  {
    && 8 <= |p| <= 16
    && (forall k :: 0 <= k < |p| ==> AsciiLetter(p[k]) || IsDigit(p[k]) || p[k] in SignupSpecials)
    && (exists k :: 0 <= k < |p| && AsciiLetter(p[k]))
    && (exists k :: 0 <= k < |p| && IsDigit(p[k]))
    && (exists k :: 0 <= k < |p| && p[k] in SignupSpecials)
  }

  /** A password of letters and digits alone, however long, never passes. */
  lemma SignupNeedsSpecial(p: string)
    requires forall k :: 0 <= k < |p| ==> AsciiLetter(p[k]) || IsDigit(p[k])
    ensures !SignupPasswordOk(p)
  {
  }

  lemma SignupPasswordExample()
    ensures SignupPasswordOk("abcd123!")
    ensures !SignupPasswordOk("abc12!")
  {
    var p := "abcd123!";
    assert AsciiLetter(p[0]) && IsDigit(p[4]) && p[7] in SignupSpecials;
  }

  // ---------------------------------------------------------------------------
  // Code stores

  /** One stored code: the six digits as text and the instant, in ms, after which it is void. */
  datatype CodeEntry = CodeEntry(code: string, expiresAt: int)

  /** The codes the server sends are `String(n)` for n in [100000, 1000000). */
  predicate IsSentCode(code: string)
  {
    exists n: nat | 100000 <= n < 1000000 :: code == NatToString(n)
  }

  predicate StoreWellFormed(entries: map<string, CodeEntry>)
  {
    forall e :: e in entries ==> IsSentCode(entries[e].code)
  }

  /** A sent code is six decimal digits. */
  lemma SentCodeShape(n: nat)
    requires 100000 <= n < 1000000
    ensures |NatToString(n)| == 6 && forall k :: 0 <= k < 6 ==> IsDigit(NatToString(n)[k])
    ensures IsSentCode(NatToString(n))
  {
    var a := n / 10;
    var b := a / 10;
    var c := b / 10;
    var d := c / 10;
    var e := d / 10;
    assert 1 <= e < 10;
    assert |NatToString(d)| == 2;
    assert |NatToString(c)| == 3;
    assert |NatToString(b)| == 4;
    assert |NatToString(a)| == 5;
  }

  /** The entries a sweep at `now` keeps: those with `now <= expiresAt`. */
  function Unexpired(entries: map<string, CodeEntry>, now: int): (r: map<string, CodeEntry>)
    ensures forall e :: e in r <==> e in entries && now <= entries[e].expiresAt
    ensures forall e :: e in r ==> r[e] == entries[e]
  {
    map e | e in entries && now <= entries[e].expiresAt :: entries[e]
  }

  /** What looking up a code finds: nothing, a stale code, another code, or the same live code. */
  datatype CodeCheck = NoCode | ExpiredCode | WrongCode | CodeMatches

  function CheckCode(entries: map<string, CodeEntry>, email: string, code: string, now: int): (r: CodeCheck)
    ensures r == NoCode <==> email !in entries
    ensures r == ExpiredCode <==> email in entries && now > entries[email].expiresAt
    ensures r == WrongCode <==> email in entries && now <= entries[email].expiresAt && entries[email].code != code
    ensures r == CodeMatches <==> email in entries && now <= entries[email].expiresAt && entries[email].code == code
  {
    if email !in entries then NoCode
    else if now > entries[email].expiresAt then ExpiredCode
    else if entries[email].code != code then WrongCode
    else CodeMatches
  }

  /** A `Map` from e-mail address to its pending code. */
  class CodeStore {
    var entries: map<string, CodeEntry>

    constructor ()
      ensures entries == map[]
    {
      entries := map[];
    }

    /** `set(email, { code, expiresAt: now + 5 min })`: any earlier code for the address is replaced. */
    method Put(email: string, code: string, now: int)
      modifies this
      ensures entries == old(entries)[email := CodeEntry(code, now + CodeLifetimeMs)]
    {
      entries := entries[email := CodeEntry(code, now + CodeLifetimeMs)];
    }

    method Delete(email: string)
      modifies this
      ensures entries == old(entries) - {email}
    {
      entries := entries - {email};
    }

    /** The five-minute timer: every entry with `now > expiresAt` is deleted, the rest stay. */
    method Sweep(now: int)
      modifies this
      ensures entries == Unexpired(old(entries), now)
    {
      var pending := entries.Keys;
      while pending != {}
        invariant pending <= old(entries).Keys
        invariant entries == map e | e in old(entries) && (e in pending || now <= old(entries)[e].expiresAt) :: old(entries)[e]
        decreases pending
      {
        var e :| e in pending;
        if now > entries[e].expiresAt {
          entries := entries - {e};
        }
        pending := pending - {e};
      }
    }
  }

  // ---------------------------------------------------------------------------
  // The server

  /** A `users` row: the address is the key of the table. */
  datatype User = User(id: int, nickname: string, passwordHash: string, isAdmin: bool, lastLoginAt: Option<int>)

  predicate NicknameTaken(users: map<string, User>, nickname: string)
  {
    exists e :: e in users && users[e].nickname == nickname
  }

  predicate HasUserId(users: map<string, User>, id: int)
  {
    exists e :: e in users && users[e].id == id
  }

  /**
   * The `token` cookie as `jwt.verify` sees it: absent, valid, expired (then `jwt.decode`
   * may still recover its claims), or refused for any other reason.
   */
  datatype Claims = Claims(userId: int, exp: Option<int>)
  datatype Token = NoCookie | Verified(claims: Claims) | ExpiredToken(decoded: Option<Claims>) | Rejected

  /**
   * `POST /refresh`. An expired token is renewed when its claims can be read and no more
   * than seven days have passed since `exp` (`Date.now() / 1000 - exp > 604800` refuses,
   * written here in milliseconds; an `exp` of 0 or none skips the test); the user must still exist.
   */
  function RefreshReply(token: Token, nowMs: int, users: map<string, User>): (r: Reply)
    ensures r.success <==> r.status == 200
    ensures r.success ==> match token
      case Verified(c) => HasUserId(users, c.userId)
      case ExpiredToken(d) => d.Some? && HasUserId(users, d.value.userId)
        && (d.value.exp.None? || d.value.exp.value == 0 || nowMs <= 1000 * (d.value.exp.value + RefreshGraceSeconds))
      case _ => false
  {
    match token
    case NoCookie => Reply(401, false, MsgLoginRequired)
    case Rejected => Reply(401, false, MsgBadToken)
    case ExpiredToken(None) => Reply(401, false, MsgBadToken)
    case ExpiredToken(Some(c)) =>
      if c.exp.Some? && c.exp.value != 0 && nowMs > 1000 * (c.exp.value + RefreshGraceSeconds)
      then Reply(401, false, MsgSessionExpired)
      else UserReply(c.userId, users)
    case Verified(c) => UserReply(c.userId, users)
  }

  function UserReply(id: int, users: map<string, User>): (r: Reply)
    ensures r.success <==> HasUserId(users, id)
    ensures r.success <==> r.status == 200
  {
    if HasUserId(users, id) then Reply(200, true, MsgRefreshed) else Reply(401, false, MsgNoUser)
  }

  /** An expired session is renewed inside the seven-day window and refused after it, for an existing user. */
  lemma RefreshGrace(u: User, email: string, users: map<string, User>, exp: int, nowMs: int)
    requires email in users && users[email] == u && exp != 0
    ensures var r := RefreshReply(ExpiredToken(Some(Claims(u.id, Some(exp)))), nowMs, users);
      && (nowMs > 1000 * (exp + RefreshGraceSeconds) ==> r == Reply(401, false, MsgSessionExpired))
      && (nowMs <= 1000 * (exp + RefreshGraceSeconds) ==> r == Reply(200, true, MsgRefreshed))
  {
    assert HasUserId(users, u.id);
  }

  /** The signed token's claims and the cookie that carries it. */
  datatype Session = Session(userId: int, email: string, nickname: string, isAdmin: bool, expiresInDays: int, maxAgeMs: int)

  /** The session sign-up and login issue for a user row: a 14-day token in a 14-day cookie. */
  function SessionFor(id: int, email: string, nickname: string, isAdmin: bool): (s: Session)
    ensures s.userId == id && s.email == email && s.nickname == nickname && s.isAdmin == isAdmin
    ensures s.expiresInDays == 14 && s.maxAgeMs == s.expiresInDays * 24 * 60 * 60 * 1000
  {
    Session(id, email, nickname, isAdmin, TokenLifetimeDays, CookieMaxAgeMs)
  }

  class AuthServer {
    var users: map<string, User>
    const verificationCodes: CodeStore
    const resetCodes: CodeStore

    ghost predicate Valid()
      reads this, verificationCodes, resetCodes
    {
      && verificationCodes != resetCodes
      && StoreWellFormed(verificationCodes.entries)
      && StoreWellFormed(resetCodes.entries)
    }

    constructor (table: map<string, User>)
      ensures Valid() && users == table
      ensures verificationCodes.entries == map[] && resetCodes.entries == map[]
      ensures fresh(verificationCodes) && fresh(resetCodes)
    {
      users := table;
      verificationCodes := new CodeStore();
      resetCodes := new CodeStore();
    }

    /** The verification-code timer. */
    method SweepVerificationCodes(now: int)
      requires Valid()
      modifies verificationCodes
      ensures Valid()
      ensures verificationCodes.entries == Unexpired(old(verificationCodes.entries), now)
    {
      verificationCodes.Sweep(now);
    }

    /** The reset-code timer. */
    method SweepResetCodes(now: int)
      requires Valid()
      modifies resetCodes
      ensures Valid()
      ensures resetCodes.entries == Unexpired(old(resetCodes.entries), now)
    {
      resetCodes.Sweep(now);
    }

    /**
     * `POST /send-code`: `n` is what `crypto.randomInt(100000, 1000000)` returned. A new,
     * well-formed address gets exactly one code, live for five minutes.
     */
    method SendCode(email: string, n: nat, now: int) returns (reply: Reply)
      requires Valid() && 100000 <= n < 1000000
      modifies verificationCodes
      ensures Valid()
      ensures email == [] ==> reply == Reply(400, false, MsgEmailRequired)
      ensures email != [] && !ValidEmail(email) ==> reply == Reply(400, false, MsgBadEmail)
      ensures email != [] && ValidEmail(email) && email in users ==> reply == Reply(400, false, MsgEmailTaken)
      ensures email != [] && ValidEmail(email) && email !in users ==> reply == Reply(200, true, MsgCodeSent)
      ensures verificationCodes.entries
        == if reply.success then old(verificationCodes.entries)[email := CodeEntry(NatToString(n), now + CodeLifetimeMs)]
           else old(verificationCodes.entries)
    {
      if email == [] {
        return Reply(400, false, MsgEmailRequired);
      }
      if !ValidEmail(email) {
        return Reply(400, false, MsgBadEmail);
      }
      if email in users {
        return Reply(400, false, MsgEmailTaken);
      }
      SentCodeShape(n);
      verificationCodes.Put(email, NatToString(n), now);
      reply := Reply(200, true, MsgCodeSent);
    }

    /** `POST /verify-code`: a stale code is deleted; a matching one is left in place. */
    method VerifyCode(email: string, code: string, now: int) returns (reply: Reply)
      requires Valid()
      modifies verificationCodes
      ensures Valid()
      ensures email == [] || code == [] ==> reply == Reply(400, false, MsgEmailAndCode)
      ensures email != [] && code != [] ==> reply == match CheckCode(old(verificationCodes.entries), email, code, now)
        case NoCode => Reply(400, false, MsgNoCode)
        case ExpiredCode => Reply(400, false, MsgCodeExpired)
        case WrongCode => Reply(400, false, MsgCodeWrong)
        case CodeMatches => Reply(200, true, MsgVerified)
      ensures verificationCodes.entries
        == if reply.text == MsgCodeExpired then old(verificationCodes.entries) - {email} else old(verificationCodes.entries)
    {
      if email == [] || code == [] {
        return Reply(400, false, MsgEmailAndCode);
      }
      match CheckCode(verificationCodes.entries, email, code, now)
      case NoCode =>
        reply := Reply(400, false, MsgNoCode);
      case ExpiredCode =>
        verificationCodes.Delete(email);
        reply := Reply(400, false, MsgCodeExpired);
      case WrongCode =>
        reply := Reply(400, false, MsgCodeWrong);
      case CodeMatches =>
        reply := Reply(200, true, MsgVerified);
    }

    /**
     * `POST /signup`, checks in the route's order; `newId` is the serial the INSERT assigns
     * and `hash` is bcrypt's hash of the password. The verification codes are neither
     * consulted nor consumed.
     */
    method Signup(email: string, nickname: string, password: string, newId: int, hash: string) returns (reply: Reply, session: Option<Session>)
      modifies this
      ensures email == [] || nickname == [] || password == [] ==> reply == Reply(400, false, MsgAllFields)
      ensures email != [] && nickname != [] && password != [] ==> (reply ==
        if !ValidEmail(email) then Reply(400, false, MsgBadEmail)
        else if !NicknameLengthOk(nickname) then Reply(400, false, MsgNicknameLength)
        else if !SignupPasswordOk(password) then Reply(400, false, MsgSignupPassword)
        else if email in old(users) then Reply(400, false, MsgEmailTaken)
        else if NicknameTaken(old(users), nickname) then Reply(400, false, MsgNicknameTaken)
        else Reply(201, true, MsgSignedUp))
      ensures users == if reply.success then old(users)[email := User(newId, nickname, hash, false, None)] else old(users)
      ensures reply.success ==> email !in old(users) && !NicknameTaken(old(users), nickname)
      ensures session == if reply.success then Some(SessionFor(newId, email, nickname, false)) else None
      ensures verificationCodes.entries == old(verificationCodes.entries) && resetCodes.entries == old(resetCodes.entries)
    {
      session := None;
      if email == [] || nickname == [] || password == [] {
        return Reply(400, false, MsgAllFields), None;
      }
      if !ValidEmail(email) {
        return Reply(400, false, MsgBadEmail), None;
      }
      if !NicknameLengthOk(nickname) {
        return Reply(400, false, MsgNicknameLength), None;
      }
      if !SignupPasswordOk(password) {
        return Reply(400, false, MsgSignupPassword), None;
      }
      if email in users {
        return Reply(400, false, MsgEmailTaken), None;
      }
      if NicknameTaken(users, nickname) {
        return Reply(400, false, MsgNicknameTaken), None;
      }
      users := users[email := User(newId, nickname, hash, false, None)];
      reply := Reply(201, true, MsgSignedUp);
      session := Some(SessionFor(newId, email, nickname, false));
    }

    /**
     * `POST /login`; `matches` is `bcrypt.compare`. An unknown address and a wrong password
     * get the same 401 reply; a success stamps `last_login_at`.
     */
    method Login(email: string, password: string, matches: (string, string) -> bool, now: int) returns (reply: Reply, session: Option<Session>)
      modifies this
      ensures email == [] || password == [] ==> reply == Reply(400, false, MsgEmailAndPassword)
      ensures email != [] && password != [] ==> (reply ==
        if !ValidEmail(email) then Reply(400, false, MsgBadEmail)
        else if email !in old(users) || !matches(password, old(users)[email].passwordHash) then Reply(401, false, MsgBadCredentials)
        else Reply(200, true, MsgLoggedIn))
      ensures users == if reply.success then old(users)[email := old(users)[email].(lastLoginAt := Some(now))] else old(users)
      ensures session == if reply.success
        then Some(SessionFor(old(users)[email].id, email, old(users)[email].nickname, old(users)[email].isAdmin))
        else None
    {
      if email == [] || password == [] {
        return Reply(400, false, MsgEmailAndPassword), None;
      }
      if !ValidEmail(email) {
        return Reply(400, false, MsgBadEmail), None;
      }
      if email !in users {
        return Reply(401, false, MsgBadCredentials), None;
      }
      if !matches(password, users[email].passwordHash) {
        return Reply(401, false, MsgBadCredentials), None;
      }
      session := Some(SessionFor(users[email].id, email, users[email].nickname, users[email].isAdmin));
      users := users[email := users[email].(lastLoginAt := Some(now))];
      reply := Reply(200, true, MsgLoggedIn);
    }

    /**
     * `POST /forgot-password`: a well-formed address gets the same reply whether or not it is
     * registered; only a registered one gets a reset code.
     */
    method ForgotPassword(email: string, n: nat, now: int) returns (reply: Reply)
      requires Valid() && 100000 <= n < 1000000
      modifies resetCodes
      ensures Valid()
      ensures email == [] ==> reply == Reply(400, false, MsgEmailRequired)
      ensures email != [] && !ValidEmail(email) ==> reply == Reply(400, false, MsgBadEmail)
      ensures email != [] && ValidEmail(email) ==> reply == Reply(200, true, MsgResetSent)
      ensures resetCodes.entries
        == if reply.success && email in users then old(resetCodes.entries)[email := CodeEntry(NatToString(n), now + CodeLifetimeMs)]
           else old(resetCodes.entries)
    {
      if email == [] {
        return Reply(400, false, MsgEmailRequired);
      }
      if !ValidEmail(email) {
        return Reply(400, false, MsgBadEmail);
      }
      if email !in users {
        return Reply(200, true, MsgResetSent);
      }
      SentCodeShape(n);
      resetCodes.Put(email, NatToString(n), now);
      reply := Reply(200, true, MsgResetSent);
    }

    /**
     * `POST /reset-password`; `hash` is bcrypt's hash of the new password. The code is
     * deleted when stale or once the password is updated; a rejected new password keeps it.
     */
    method ResetPassword(email: string, code: string, newPassword: string, hash: string, now: int) returns (reply: Reply)
      requires Valid()
      modifies this, resetCodes
      ensures Valid()
      ensures email == [] || code == [] || newPassword == [] ==> reply == Reply(400, false, MsgAllFields)
      ensures email != [] && code != [] && newPassword != [] ==> reply == match CheckCode(old(resetCodes.entries), email, code, now)
        case NoCode => Reply(400, false, MsgNoCode)
        case ExpiredCode => Reply(400, false, MsgCodeExpired)
        case WrongCode => Reply(400, false, MsgCodeWrong)
        case CodeMatches => if SignupPasswordOk(newPassword) then Reply(200, true, MsgPasswordChanged) else Reply(400, false, MsgResetPassword)
      ensures resetCodes.entries
        == if reply.success || reply.text == MsgCodeExpired then old(resetCodes.entries) - {email} else old(resetCodes.entries)
      ensures users == if reply.success && email in old(users) then old(users)[email := old(users)[email].(passwordHash := hash)] else old(users)
    {
      if email == [] || code == [] || newPassword == [] {
        return Reply(400, false, MsgAllFields);
      }
      match CheckCode(resetCodes.entries, email, code, now)
      case NoCode =>
        reply := Reply(400, false, MsgNoCode);
      case ExpiredCode =>
        resetCodes.Delete(email);
        reply := Reply(400, false, MsgCodeExpired);
      case WrongCode =>
        reply := Reply(400, false, MsgCodeWrong);
      case CodeMatches =>
        if !SignupPasswordOk(newPassword) {
          return Reply(400, false, MsgResetPassword);
        }
        if email in users {
          users := users[email := users[email].(passwordHash := hash)];
        }
        resetCodes.Delete(email);
        reply := Reply(200, true, MsgPasswordChanged);
    }
  }
}
