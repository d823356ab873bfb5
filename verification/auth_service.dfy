/**
 * The authentication service: registering a user, logging in (which deactivates every
 * session of the user, keeping the rows, and adds one fresh active session) and logging out. The Users and
 * Sessions tables are sequences in table order; hashing, password checking and token
 * creation are opaque functions passed in by the caller.
 */
module AuthService {
  import opened Wrappers

  /**
   * A row of Users. `password` is `None` when the row has no password column; a row
   * whose password is NULL is treated like one without the column (its check fails).
   */
  datatype User = User(
    id: nat,
    firstName: string,
    lastName: string,
    email: string,
    username: string,
    password: Option<string>,
    isActive: bool)

  /** A row of Sessions. */
  datatype Session = Session(userId: nat, token: string, ip: Option<string>, isActive: bool)

  /** The claims the access token is created from (the expiry is added by the token function). */
  datatype Claims = Claims(userId: nat, firstName: string, lastName: string, username: string)

  /** The ValueErrors `register_user` raises for a taken email or username. */
  datatype RegisterError = EmailTaken | UsernameTaken

  /** The two Users columns the service looks rows up by. */
  datatype Column = Email | Username

  function Field(u: User, col: Column): string
  {
    match col
    case Email => u.email
    case Username => u.username
  }

  /** `.eq(col, v)` on Users: the rows whose `col` is `v`, in table order. */
  function Matching(users: seq<User>, col: Column, v: string): seq<User>
  {
    if users == [] then []
    else (if Field(users[0], col) == v then [users[0]] else []) + Matching(users[1..], col, v)
  }

  /** The row `login_user` settles on: the first email match, else the first username match. */
  function LoginTarget(users: seq<User>, ident: string): Option<User>
  {
    var byEmail := Matching(users, Email, ident);
    var found := if byEmail != [] then byEmail else Matching(users, Username, ident);
    if found == [] then None else Some(found[0])
  }

  /** `.update({"is_active": False}).eq("user_id", uid)` on Sessions. */
  function Deactivate(sessions: seq<Session>, uid: nat): seq<Session>
  {
    seq(|sessions|, i requires 0 <= i < |sessions| =>
      if sessions[i].userId == uid then sessions[i].(isActive := false) else sessions[i])
  }

  /** `.eq("user_id", uid).eq("is_active", True)` on Sessions, in table order. */
  function ActiveSessions(sessions: seq<Session>, uid: nat): seq<Session>
  {
    if sessions == [] then []
    else
      var last := sessions[|sessions| - 1];
      ActiveSessions(sessions[..|sessions| - 1], uid)
        + if last.userId == uid && last.isActive then [last] else []
  }

  /** Ids are unique and below the next id; emails and usernames are unique. */
  predicate UsersValid(users: seq<User>, nextId: nat)
  {
    && (forall i | 0 <= i < |users| :: users[i].id < nextId)
    && (forall i, j | 0 <= i < j < |users| ::
          users[i].id != users[j].id && users[i].email != users[j].email
          && users[i].username != users[j].username)
  }

  /** The Users and Sessions tables. `nextId` is the id the database gives the next row. */
  class AuthStore {
    var users: seq<User>
    var sessions: seq<Session>
    var nextId: nat

    predicate Valid()
      reads this
    {
      UsersValid(users, nextId)
    }

    constructor ()
      ensures users == [] && sessions == [] && nextId == 1 && Valid()
    {
      users, sessions, nextId := [], [], 1;
    }

    /**
     * `register_user`: both lookups run, the email one decides first; a new user is
     * inserted active with the hashed password and returned.
     */
    method RegisterUser(firstName: string, lastName: string, email: string, username: string,
                        password: string, hash: string -> string)
      returns (r: Result<User, RegisterError>)
      requires Valid()
      modifies this
      ensures Valid() && sessions == old(sessions)
      ensures (exists i | 0 <= i < |old(users)| :: old(users)[i].email == email) ==>
                r == Err(EmailTaken) && users == old(users) && nextId == old(nextId)
      ensures (forall i | 0 <= i < |old(users)| :: old(users)[i].email != email)
              && (exists i | 0 <= i < |old(users)| :: old(users)[i].username == username) ==>
                r == Err(UsernameTaken) && users == old(users) && nextId == old(nextId)
      ensures r.Ok? ==>
                && r.value == User(old(nextId), firstName, lastName, email, username, Some(hash(password)), true)
                && users == old(users) + [r.value] && nextId == old(nextId) + 1
      ensures r.Ok? <==> (forall i | 0 <= i < |old(users)| ::
                            old(users)[i].email != email && old(users)[i].username != username)
    {
      var hashed := hash(password);
      var emailCheck := Matching(users, Email, email);
      var usernameCheck := Matching(users, Username, username);
      MatchingMembers(users, Email, email);
      MatchingMembers(users, Username, username);
      if emailCheck != [] {
        assert emailCheck[0] in emailCheck;
        return Err(EmailTaken);
      }
      if usernameCheck != [] {
        assert usernameCheck[0] in usernameCheck;
        return Err(UsernameTaken);
      }
      var u := User(nextId, firstName, lastName, email, username, Some(hashed), true);
      users := users + [u];
      nextId := nextId + 1;
      return Ok(u);
    }

    /**
     * `login_user`: finds the user, checks the password, then deactivates every session
     * of that user and inserts one active session carrying the new token and the IP.
     */
    method LoginUser(ident: string, password: string, ip: Option<string>,
                     verify: (string, string) -> bool, createToken: Claims -> string)
      returns (token: Option<string>)
      requires Valid()
      modifies this
      ensures Valid() && users == old(users) && nextId == old(nextId)
      ensures var target := LoginTarget(old(users), ident);
              if target.None? || target.value.password.None?
                 || !verify(password, target.value.password.value)
              then token.None? && sessions == old(sessions)
              else
                var u := target.value;
                && token == Some(createToken(Claims(u.id, u.firstName, u.lastName, u.username)))
                && sessions == Deactivate(old(sessions), u.id) + [Session(u.id, token.value, ip, true)]
    {
      var userData := Matching(users, Email, ident);
      if userData == [] {
        userData := Matching(users, Username, ident);
      }
      if userData == [] {
        return None;
      }
      var user := userData[0];
      if user.password.None? {
        return None;
      }
      if !verify(password, user.password.value) {
        return None;
      }
      sessions := Deactivate(sessions, user.id);
      var accessToken := createToken(Claims(user.id, user.firstName, user.lastName, user.username));
      sessions := sessions + [Session(user.id, accessToken, ip, true)];
      return Some(accessToken);
    }

    /** `logout_user`: deactivates every session of the user. */
    method LogoutUser(uid: nat)
      requires Valid()
      modifies this
      ensures Valid() && users == old(users) && nextId == old(nextId)
      ensures sessions == Deactivate(old(sessions), uid)
    {
      sessions := Deactivate(sessions, uid);
    }
  }

  /** A select on one column returns exactly the rows whose column has that value. */
  lemma {:induction false} MatchingMembers(users: seq<User>, col: Column, v: string)
    ensures forall u :: u in Matching(users, col, v) <==> u in users && Field(u, col) == v
    ensures Matching(users, col, v) == [] <==> forall i | 0 <= i < |users| :: Field(users[i], col) != v
    decreases |users|
  {
    if users != [] {
      MatchingMembers(users[1..], col, v);
      assert users == [users[0]] + users[1..];
      assert forall i | 1 <= i < |users| :: users[i] == users[1..][i - 1];
    }
  }

  /** The first row of a select is the first row of the table whose column has that value. */
  lemma {:induction false} MatchingFirst(users: seq<User>, col: Column, v: string, i: nat)
    requires i < |users| && Field(users[i], col) == v
    requires forall j | 0 <= j < i :: Field(users[j], col) != v
    ensures Matching(users, col, v) != [] && Matching(users, col, v)[0] == users[i]
    decreases i
  {
    if i > 0 {
      MatchingFirst(users[1..], col, v, i - 1);
    }
  }

  /**
   * Login looks a user up by email first: the first row whose email is `ident` wins;
   * only when no email matches is the first row whose username is `ident` used; with
   * no match at all there is no target.
   */
  lemma LoginTargetChoice(users: seq<User>, ident: string)
    ensures (exists i | 0 <= i < |users| :: users[i].email == ident) ==>
              exists i | 0 <= i < |users| :: users[i].email == ident
                && (forall j | 0 <= j < i :: users[j].email != ident)
                && LoginTarget(users, ident) == Some(users[i])
    ensures (forall i | 0 <= i < |users| :: users[i].email != ident)
            && (exists i | 0 <= i < |users| :: users[i].username == ident) ==>
              exists i | 0 <= i < |users| :: users[i].username == ident
                && (forall j | 0 <= j < i :: users[j].username != ident)
                && LoginTarget(users, ident) == Some(users[i])
    ensures (forall i | 0 <= i < |users| :: users[i].email != ident && users[i].username != ident) <==>
              LoginTarget(users, ident).None?
  {
    MatchingMembers(users, Email, ident);
    MatchingMembers(users, Username, ident);
    if exists i | 0 <= i < |users| :: users[i].email == ident {
      var i := FirstMatch(users, Email, ident);
      MatchingFirst(users, Email, ident, i);
    } else if exists i | 0 <= i < |users| :: users[i].username == ident {
      var i := FirstMatch(users, Username, ident);
      MatchingFirst(users, Username, ident, i);
    }
  }

  /** The least index of a row whose column `col` is `v`. */
  lemma FirstMatch(users: seq<User>, col: Column, v: string) returns (i: nat)
    requires exists i | 0 <= i < |users| :: Field(users[i], col) == v
    ensures i < |users| && Field(users[i], col) == v && forall j | 0 <= j < i :: Field(users[j], col) != v
  {
    i := 0;
    while Field(users[i], col) != v
      invariant i < |users| && forall j | 0 <= j < i :: Field(users[j], col) != v
      decreases |users| - i
    {
      i := i + 1;
    }
  }

  /**
   * Deactivating a user's sessions leaves that user with no active session and every
   * other user with exactly the active sessions it had; no row is removed.
   */
  lemma {:induction false} DeactivateEffect(sessions: seq<Session>, uid: nat)
    ensures |Deactivate(sessions, uid)| == |sessions|
    ensures ActiveSessions(Deactivate(sessions, uid), uid) == []
    ensures forall v | v != uid :: ActiveSessions(Deactivate(sessions, uid), v) == ActiveSessions(sessions, v)
    decreases |sessions|
  {
    if sessions != [] {
      var n := |sessions|;
      var d := Deactivate(sessions, uid);
      assert d[..n - 1] == Deactivate(sessions[..n - 1], uid);
      DeactivateEffect(sessions[..n - 1], uid);
    }
  }

  /** Deactivating twice is deactivating once: `logout_user` is idempotent. */
  lemma DeactivateIdempotent(sessions: seq<Session>, uid: nat)
    ensures Deactivate(Deactivate(sessions, uid), uid) == Deactivate(sessions, uid)
  {
  }

  /**
   * After a successful login the user has exactly one active session, the new one
   * with the new token; every other user's active sessions are as before.
   */
  lemma LoginSessions(sessions: seq<Session>, uid: nat, token: string, ip: Option<string>)
    ensures var after := Deactivate(sessions, uid) + [Session(uid, token, ip, true)];
            && ActiveSessions(after, uid) == [Session(uid, token, ip, true)]
            && forall v | v != uid :: ActiveSessions(after, v) == ActiveSessions(sessions, v)
  {
    var after := Deactivate(sessions, uid) + [Session(uid, token, ip, true)];
    DeactivateEffect(sessions, uid);
    assert after[..|after| - 1] == Deactivate(sessions, uid);
  }

  /** The active sessions of a user are exactly its rows with is_active set. */
  lemma {:induction false} ActiveSessionsMembers(sessions: seq<Session>, uid: nat)
    ensures forall x :: x in ActiveSessions(sessions, uid) <==> x in sessions && x.userId == uid && x.isActive
    decreases |sessions|
  {
    if sessions != [] {
      var n := |sessions|;
      ActiveSessionsMembers(sessions[..n - 1], uid);
      assert sessions == sessions[..n - 1] + [sessions[n - 1]];
    }
  }
}
