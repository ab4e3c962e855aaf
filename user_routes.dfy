/**
 * The signed-in user's own routes: the profile as stored, the combined nickname and
 * password edit, and account deletion. The route's `userId` is the one in the
 * caller's verified token.
 */
module UserRoutes {
  import opened Util
  import opened JsUtil
  import AuthRoutes

  const MsgServerError := "서버 오류가 발생했습니다"
  const MsgNoCurrentPassword := "현재 비밀번호를 입력해주세요"
  const MsgWrongCurrentPassword := "현재 비밀번호가 올바르지 않습니다"
  const MsgProfilePassword := "비밀번호는 8~16자, 영문, 숫자, 특수문자를 모두 포함해야 합니다"
  const MsgProfileUpdated := "프로필이 수정되었습니다"
  const MsgAccountDeleted := "회원 탈퇴가 완료되었습니다"

  /** A `users` row as these routes see it, by id. */
  datatype Account = Account(email: string, nickname: string, passwordHash: string, createdAt: int,
                             lastLoginAt: Option<int>, updatedAt: int)

  /** The `user` object of `GET /profile`. */
  datatype ProfileView = ProfileView(id: int, email: string, nickname: string, createdAt: int, lastLoginAt: Option<int>)

  datatype ProfileReply = ProfileOk(user: ProfileView) | ProfileNotFound

  /** `GET /profile`: the stored row of the caller, or 404 when it is gone. */
  function Profile(users: map<int, Account>, userId: int): (r: ProfileReply)
    ensures r.ProfileNotFound? <==> userId !in users
    ensures r.ProfileOk? ==> (r.user.id == userId && r.user.email == users[userId].email
      && r.user.nickname == users[userId].nickname && r.user.createdAt == users[userId].createdAt
      && r.user.lastLoginAt == users[userId].lastLoginAt)
  {
    if userId !in users then ProfileNotFound
    else
      var a := users[userId];
      ProfileOk(ProfileView(userId, a.email, a.nickname, a.createdAt, a.lastLoginAt))
  }

  /** The profile edit's own password rule: 8 to 16 letters, digits and `@$!%*#?&`, with one of each kind. */
  const ProfileSpecials: set<char> := {'@', '$', '!', '%', '*', '#', '?', '&'}

  predicate ProfilePasswordOk(p: string)
  {
    && 8 <= |p| <= 16
    && (forall k :: 0 <= k < |p| ==> AuthRoutes.AsciiLetter(p[k]) || IsDigit(p[k]) || p[k] in ProfileSpecials)
    && (exists k :: 0 <= k < |p| && AuthRoutes.AsciiLetter(p[k]))
    && (exists k :: 0 <= k < |p| && IsDigit(p[k]))
    && (exists k :: 0 <= k < |p| && p[k] in ProfileSpecials)
  }

  /** Every password the profile edit accepts is one sign-up and reset accept too. */
  lemma ProfilePasswordIsSignupPassword(p: string)
    requires ProfilePasswordOk(p)
    ensures AuthRoutes.SignupPasswordOk(p)
  {
    var k :| 0 <= k < |p| && p[k] in ProfileSpecials;
    assert p[k] in AuthRoutes.SignupSpecials;
  }

  /** ... but not the other way round: `^` is a sign-up special and not a profile one. */
  lemma SignupPasswordNotProfile()
    ensures AuthRoutes.SignupPasswordOk("abcd123^") && !ProfilePasswordOk("abcd123^")
  {
    var p := "abcd123^";
    assert AuthRoutes.AsciiLetter(p[0]) && IsDigit(p[4]) && p[7] in AuthRoutes.SignupSpecials;
    assert p[7] !in ProfileSpecials;
  }

  /** Some other user already has the nickname: `nickname = $1 AND id != $2`. */
  predicate TakenByOther(users: map<int, Account>, nickname: string, userId: int)
  {
    exists k :: k in users && k != userId && users[k].nickname == nickname
  }

  /** No two users share a nickname. */
  predicate NicknamesUnique(users: map<int, Account>)
  {
    forall a, b :: a in users && b in users && a != b ==> users[a].nickname != users[b].nickname
  }

  /** The table after the nickname update, which is committed on its own, before any password check. */
  function WithNickname(users: map<int, Account>, userId: int, nickname: string, now: int): (r: map<int, Account>)
    ensures r.Keys == users.Keys
    ensures forall k :: k in users && k != userId ==> r[k] == users[k]
    ensures nickname == [] ==> r == users
    ensures userId in users ==> (r[userId].passwordHash == users[userId].passwordHash && r[userId].email == users[userId].email
      && (nickname != [] ==> r[userId].nickname == nickname))
  {
    if nickname != [] && userId in users then users[userId := users[userId].(nickname := nickname, updatedAt := now)] else users
  }

  /** A nickname nobody else has keeps the nicknames unique. */
  lemma WithNicknameUnique(users: map<int, Account>, userId: int, nickname: string, now: int)
    requires NicknamesUnique(users) && (nickname == [] || !TakenByOther(users, nickname, userId))
    ensures NicknamesUnique(WithNickname(users, userId, nickname, now))
  {
    var r := WithNickname(users, userId, nickname, now);
    forall a, b | a in r && b in r && a != b
      ensures r[a].nickname != r[b].nickname
    {
      if nickname != [] && userId in users && (a == userId || b == userId) {
        var other := if a == userId then b else a;
        assert other in users && other != userId;
      }
    }
  }

  class UserDb {
    var users: map<int, Account>

    ghost predicate Valid()
      reads this
    {
      NicknamesUnique(users)
    }

    constructor (users: map<int, Account>)
      requires NicknamesUnique(users)
      ensures Valid() && this.users == users
    {
      this.users := users;
    }

    /** Whether a non-empty nickname in the edit passes its checks; an empty one is not asked for. */
    ghost predicate NicknameAccepted(nickname: string, userId: int)
      reads this
    {
      nickname == [] || (AuthRoutes.NicknameLengthOk(nickname) && !TakenByOther(users, nickname, userId))
    }

    /**
     * `PUT /profile`. A nickname, when given, is checked and stored first; a password, when
     * given, then needs the current one, which `matches` compares with the stored hash, and
     * must follow the profile rule; `hash` is what bcrypt makes of it. A caller whose row is
     * gone reaches the hash lookup with no row, which is a server error.
     */
    method UpdateProfile(userId: int, nickname: string, password: string, currentPassword: string,
                         matches: (string, string) -> bool, hash: string, now: int) returns (reply: Reply)
      requires Valid()
      modifies this
      ensures Valid()
      ensures nickname != [] && !AuthRoutes.NicknameLengthOk(nickname) ==> reply == Reply(400, false, AuthRoutes.MsgNicknameLength)
      ensures nickname != [] && AuthRoutes.NicknameLengthOk(nickname) && TakenByOther(old(users), nickname, userId)
        ==> reply == Reply(400, false, AuthRoutes.MsgNicknameTaken)
      ensures !old(NicknameAccepted(nickname, userId)) ==> users == old(users)
      ensures old(NicknameAccepted(nickname, userId)) ==> (
        if password == [] then
          reply == Reply(200, true, MsgProfileUpdated) && users == WithNickname(old(users), userId, nickname, now)
        else if currentPassword == [] then
          reply == Reply(400, false, MsgNoCurrentPassword) && users == WithNickname(old(users), userId, nickname, now)
        else if userId !in old(users) then
          reply == Reply(500, false, MsgServerError) && users == old(users)
        else if !matches(currentPassword, old(users)[userId].passwordHash) then
          reply == Reply(400, false, MsgWrongCurrentPassword) && users == WithNickname(old(users), userId, nickname, now)
        else if !ProfilePasswordOk(password) then
          reply == Reply(400, false, MsgProfilePassword) && users == WithNickname(old(users), userId, nickname, now)
        else
          reply == Reply(200, true, MsgProfileUpdated)
          && users == WithNickname(old(users), userId, nickname, now)[userId := WithNickname(old(users), userId, nickname, now)[userId].(passwordHash := hash, updatedAt := now)])
    {
      if nickname != [] {
        if !AuthRoutes.NicknameLengthOk(nickname) {
          return Reply(400, false, AuthRoutes.MsgNicknameLength);
        }
        if TakenByOther(users, nickname, userId) {
          return Reply(400, false, AuthRoutes.MsgNicknameTaken);
        }
      }
      WithNicknameUnique(users, userId, nickname, now);
      users := WithNickname(users, userId, nickname, now);
      if password != [] {
        if currentPassword == [] {
          return Reply(400, false, MsgNoCurrentPassword);
        }
        if userId !in users {
          return Reply(500, false, MsgServerError);
        }
        if !matches(currentPassword, users[userId].passwordHash) {
          return Reply(400, false, MsgWrongCurrentPassword);
        }
        if !ProfilePasswordOk(password) {
          return Reply(400, false, MsgProfilePassword);
        }
        users := users[userId := users[userId].(passwordHash := hash, updatedAt := now)];
      }
      reply := Reply(200, true, MsgProfileUpdated);
    }

    /** `DELETE /account`: the caller's row goes, whether or not it was there. */
    method DeleteAccount(userId: int) returns (reply: Reply)
      requires Valid()
      modifies this
      ensures Valid()
      ensures reply == Reply(200, true, MsgAccountDeleted)
      ensures users == old(users) - {userId}
    {
      users := users - {userId};
      reply := Reply(200, true, MsgAccountDeleted);
    }
  }
}
