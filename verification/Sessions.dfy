/** Refresh sessions (internal/biz/auth.go, internal/data/user.go): rotation as a state machine. */
module Sessions {
  import opened Ids

  /** A stored session. Tokens are fresh random values and their hash is injective, so the token stands
      for its hash. `login` says which login the session descends from; nothing reads it. */
  datatype Session = Session(user: Uuid, token: nat, expires: int, revoked: bool, login: nat)

  type Sessions = map<Uuid, Session>

  /** The stored sessions, and how many logins and tokens there have been. */
  datatype Book = Book(sessions: Sessions, logins: nat, tokens: nat)

  predicate OneToken(ss: Sessions) {
    forall a, b | a in ss && b in ss && ss[a].token == ss[b].token :: a == b
  }

  /** Each login has at most one session that is not revoked. */
  predicate OneOpen(ss: Sessions) {
    forall a, b | a in ss && b in ss && ss[a].login == ss[b].login && !ss[a].revoked && !ss[b].revoked :: a == b
  }

  /** Every session of a login expires when the first one does. */
  predicate OneExpiry(ss: Sessions) {
    forall a, b | a in ss && b in ss && ss[a].login == ss[b].login :: ss[a].expires == ss[b].expires
  }

  predicate Valid(b: Book) {
    && OneToken(b.sessions) && OneOpen(b.sessions)
    && forall x | x in b.sessions :: b.sessions[x].login < b.logins && b.sessions[x].token < b.tokens
  }

  // ---- The steps ------------------------------------------------------------------------------

  /** What the operations write. `checkedAt` is when the presented session was found unexpired, `readAt` when its
      remaining time was computed, `openedAt` when it was added again. */
  datatype Act =
    | Login(id: Uuid, user: Uuid, expires: int)
    | Rotate(from: Uuid, id: Uuid, checkedAt: int, readAt: int, openedAt: int)
    | RevokeOne(id: Uuid)
    | RevokeUser(user: Uuid)

  predicate Can(b: Book, a: Act) {
    match a
    case Login(id, _, _) => id !in b.sessions
    case Rotate(from, id, checkedAt, _, _) =>
      from in b.sessions && !b.sessions[from].revoked && checkedAt < b.sessions[from].expires && id !in b.sessions
    case RevokeOne(id) => id in b.sessions
    case RevokeUser(_) => true
  }

  function Revoked(ss: Sessions, id: Uuid): Sessions
    requires id in ss
  {
    ss[id := ss[id].(revoked := true)]
  }

  function RevokedAll(ss: Sessions, user: Uuid): Sessions {
    map x | x in ss :: if ss[x].user == user then ss[x].(revoked := true) else ss[x]
  }

  function Next(b: Book, a: Act): Book
    requires Can(b, a)
  {
    match a
    case Login(id, user, expires) =>
      Book(b.sessions[id := Session(user, b.tokens, expires, false, b.logins)], b.logins + 1, b.tokens + 1)
    case Rotate(from, id, _, readAt, openedAt) =>
      var s := b.sessions[from];
      Book(Revoked(b.sessions, from)[id := Session(s.user, b.tokens, openedAt + (s.expires - readAt), false, s.login)],
           b.logins, b.tokens + 1)
    case RevokeOne(id) => b.(sessions := Revoked(b.sessions, id))
    case RevokeUser(user) => b.(sessions := RevokedAll(b.sessions, user))
  }

  lemma StepKeepsValid(b: Book, a: Act)
    requires Valid(b) && Can(b, a)
    ensures Valid(Next(b, a))
  {
  }

  /** A rotation keeps the login's expiry exactly when both readings of the clock agree; otherwise it
      moves it by the time between them. */
  lemma RotationKeepsExpiryIff(b: Book, a: Act)
    requires Valid(b) && Can(b, a) && a.Rotate? && OneExpiry(b.sessions)
    ensures OneExpiry(Next(b, a).sessions) <==> a.readAt == a.openedAt
    ensures Next(b, a).sessions[a.id].expires - b.sessions[a.from].expires == a.openedAt - a.readAt
  {
    var ss := Next(b, a).sessions;
    assert ss[a.id].login == ss[a.from].login;
    if a.readAt == a.openedAt {
      forall x, y | x in ss && y in ss && ss[x].login == ss[y].login ensures ss[x].expires == ss[y].expires {
        var x' := if x == a.id then a.from else x;
        var y' := if y == a.id then a.from else y;
        assert b.sessions[x'].login == b.sessions[y'].login;
      }
    }
  }

  /** Nothing that was revoked comes back, and nothing else about a stored session ever changes. */
  predicate OnlyRevokes(before: Sessions, after: Sessions) {
    forall x | x in before :: x in after && (after[x] == before[x] || after[x] == before[x].(revoked := true))
  }

  // ---- Runs -------------------------------------------------------------------------------------

  ghost predicate StepAt(acts: seq<Act>, bs: seq<Book>, i: int)
    requires 0 <= i < |acts| && |bs| == |acts| + 1
  {
    Can(bs[i], acts[i]) && bs[i + 1] == Next(bs[i], acts[i])
  }

  ghost predicate Run(acts: seq<Act>, bs: seq<Book>) {
    |bs| == |acts| + 1 && forall i {:trigger StepAt(acts, bs, i)} | 0 <= i < |acts| :: StepAt(acts, bs, i)
  }

  lemma {:induction false} RunsStayValid(acts: seq<Act>, bs: seq<Book>, m: nat, n: nat)
    requires Run(acts, bs) && m <= n <= |acts| && Valid(bs[m])
    ensures Valid(bs[n]) && OnlyRevokes(bs[m].sessions, bs[n].sessions)
    decreases n
  {
    if m < n {
      RunsStayValid(acts, bs, m, n - 1);
      assert StepAt(acts, bs, n - 1);
      StepKeepsValid(bs[n - 1], acts[n - 1]);
    }
  }

  /** On every run each login has at most one open session. */
  lemma LoginsHaveOneOpenSession(acts: seq<Act>, bs: seq<Book>, n: nat, a: Uuid, b: Uuid)
    requires Run(acts, bs) && Valid(bs[0]) && n <= |acts| && a in bs[n].sessions && b in bs[n].sessions
    requires bs[n].sessions[a].login == bs[n].sessions[b].login && !bs[n].sessions[a].revoked
             && !bs[n].sessions[b].revoked
    ensures a == b
  {
    RunsStayValid(acts, bs, 0, n);
  }

  /** On every run each refresh token is redeemed at most once. */
  lemma TokensAreRedeemedOnce(acts: seq<Act>, bs: seq<Book>, i: nat, j: nat)
    requires Run(acts, bs) && Valid(bs[0]) && i < j < |acts| && acts[i].Rotate? && acts[j].Rotate?
    requires acts[i].from in bs[i].sessions && acts[j].from in bs[j].sessions
    ensures bs[i].sessions[acts[i].from].token != bs[j].sessions[acts[j].from].token
  {
    RunsStayValid(acts, bs, 0, i);
    assert StepAt(acts, bs, i) && StepAt(acts, bs, j);
    StepKeepsValid(bs[i], acts[i]);
    RunsStayValid(acts, bs, i + 1, j);
    assert bs[j].sessions[acts[i].from].revoked;
  }

  /** With one clock reading per rotation, every session of a login expires when the login does. */
  lemma {:induction false} LoginsKeepTheirExpiry(acts: seq<Act>, bs: seq<Book>, n: nat)
    requires Run(acts, bs) && Valid(bs[0]) && OneExpiry(bs[0].sessions) && n <= |acts|
    requires forall i | 0 <= i < n && acts[i].Rotate? :: acts[i].readAt == acts[i].openedAt
    ensures OneExpiry(bs[n].sessions)
  {
    if n > 0 {
      LoginsKeepTheirExpiry(acts, bs, n - 1);
      RunsStayValid(acts, bs, 0, n - 1);
      assert StepAt(acts, bs, n - 1);
      var a := acts[n - 1];
      if a.Rotate? { RotationKeepsExpiryIff(bs[n - 1], a); }
    }
  }

  /** Then no session of a login is rotated at or after the expiry that the login was given, however often it was
      rotated before. */
  lemma NoRotationPastExpiry(acts: seq<Act>, bs: seq<Book>, j: nat, i: nat)
    requires Run(acts, bs) && Valid(bs[0]) && OneExpiry(bs[0].sessions) && j < i < |acts|
    requires forall k | 0 <= k < i && acts[k].Rotate? :: acts[k].readAt == acts[k].openedAt
    requires acts[j].Login? && acts[i].Rotate? && acts[i].from in bs[i].sessions
    requires bs[i].sessions[acts[i].from].login == bs[j].logins
    ensures acts[i].checkedAt < acts[j].expires
  {
    RunsStayValid(acts, bs, 0, j);
    assert StepAt(acts, bs, j) && StepAt(acts, bs, i);
    StepKeepsValid(bs[j], acts[j]);
    RunsStayValid(acts, bs, j + 1, i);
    LoginsKeepTheirExpiry(acts, bs, i);
    var first := acts[j].id;
    assert first in bs[j + 1].sessions && bs[i].sessions[first].login == bs[j].logins;
    assert bs[i].sessions[first].expires == acts[j].expires;
  }

  /** After all sessions of an account are revoked, none that existed then is ever usable again. */
  lemma RevokedStayRevoked(acts: seq<Act>, bs: seq<Book>, i: nat, n: nat, x: Uuid)
    requires Run(acts, bs) && Valid(bs[0]) && i < n <= |acts| && acts[i].RevokeUser?
    requires x in bs[i].sessions && bs[i].sessions[x].user == acts[i].user
    ensures x in bs[n].sessions && bs[n].sessions[x].revoked
  {
    RunsStayValid(acts, bs, 0, i);
    assert StepAt(acts, bs, i);
    StepKeepsValid(bs[i], acts[i]);
    RunsStayValid(acts, bs, i + 1, n);
  }

  /** The step ends this session: it rotates it, revokes it, or revokes all of its account. */
  predicate Ends(a: Act, x: Uuid, user: Uuid) {
    match a
    case Login(_, _, _) => false
    case Rotate(from, _, _, _, _) => from == x
    case RevokeOne(id) => id == x
    case RevokeUser(u) => u == user
  }

  /** A stored session is as it was, open or not, until a step ends it: what happens to other sessions and other
      accounts does not touch it. */
  lemma {:induction false} OpenUntilEnded(acts: seq<Act>, bs: seq<Book>, m: nat, n: nat, x: Uuid)
    requires Run(acts, bs) && Valid(bs[0]) && m <= n <= |acts| && x in bs[m].sessions
    ensures x in bs[n].sessions
    ensures bs[n].sessions[x].revoked <==>
              bs[m].sessions[x].revoked || exists i :: m <= i < n && Ends(acts[i], x, bs[m].sessions[x].user)
    ensures bs[n].sessions[x] == bs[m].sessions[x].(revoked := bs[n].sessions[x].revoked)
    decreases n
  {
    if m < n {
      OpenUntilEnded(acts, bs, m, n - 1, x);
      assert StepAt(acts, bs, n - 1);
      var user := bs[m].sessions[x].user;
      assert bs[n].sessions[x].revoked <==> bs[n - 1].sessions[x].revoked || Ends(acts[n - 1], x, user);
      if bs[n].sessions[x].revoked && !bs[m].sessions[x].revoked {
        var i := if Ends(acts[n - 1], x, user) then n - 1
                 else var k :| m <= k < n - 1 && Ends(acts[k], x, user); k;
        assert m <= i < n && Ends(acts[i], x, user);
      }
    }
  }

  // ---- The operations -----------------------------------------------------------------------------

  class Auth {
    var sessions: Sessions
    var logins: nat
    var tokens: nat

    ghost function Stored(): Book
      reads this
    {
      Book(sessions, logins, tokens)
    }

    constructor ()
      ensures Valid(Stored()) && sessions == map[]
    {
      sessions, logins, tokens := map[], 0, 0;
    }

    /** openSession, less the access token. */
    method OpenSession(user: Uuid, login: nat, expires: int) returns (token: nat, ghost id: Uuid)
      modifies this`sessions, this`tokens
      ensures token == old(tokens) && tokens == old(tokens) + 1 && id !in old(sessions)
      ensures sessions == old(sessions)[id := Session(user, token, expires, false, login)]
    {
      token := tokens;
      tokens := tokens + 1;
      var row := NewID(sessions.Keys);
      sessions := sessions[row := Session(user, token, expires, false, login)];
      id := row;
    }

    /** Login, once the password is verified; `remember` doubles the lifetime. */
    method SignIn(user: Uuid, userActive: bool, ttl: int, remember: bool, now: int)
      returns (r: Result<nat>, ghost act: Act)
      requires Valid(Stored())
      modifies this
      ensures Valid(Stored())
      ensures r.Ok? <==> userActive
      ensures r.Err? ==> Stored() == old(Stored())
      ensures r.Ok? ==> act.Login? && Can(old(Stored()), act) && Stored() == Next(old(Stored()), act)
                        && act.user == user && act.expires == now + (if remember then 2 * ttl else ttl)
                           && sessions[act.id].token == r.value
    {
      act := RevokeUser(user);
      if !userActive { return Err(AccountDisabled), act; }
      var lifetime := ttl;
      if remember { lifetime := ttl * 2; }
      ghost var before, id := Stored(), NIL;
      var token;
      token, id := OpenSession(user, logins, now + lifetime);
      logins := logins + 1;
      act := Login(id, user, now + lifetime);
      StepKeepsValid(before, act);
      r := Ok(token);
    }

    /** FindSessionByHash. */
    method FindByToken(token: nat) returns (found: Option<Uuid>)
      ensures found.Some? ==> found.value in sessions && sessions[found.value].token == token
      ensures found.None? ==> forall x | x in sessions :: sessions[x].token != token
    {
      var left := sessions.Keys;
      while left != {}
        invariant left <= sessions.Keys && forall x | x in sessions && x !in left :: sessions[x].token != token
        decreases left
      {
        var x :| x in left;
        if sessions[x].token == token { return Some(x); }
        left := left - {x};
      }
      found := None;
    }

    /** Refresh: the presented token stops working the moment it is used. `users` answers whether an
        account exists and is active. */
    method Refresh(token: nat, users: Uuid -> Option<bool>, now: int, readAt: int, openedAt: int)
      returns (r: Result<nat>, ghost act: Act)
      requires Valid(Stored())
      modifies this
      ensures Valid(Stored())
      ensures r.Ok? <==> exists x :: x in old(sessions) && old(sessions)[x].token == token && !old(sessions)[x].revoked
                                     && now < old(sessions)[x].expires && users(old(sessions)[x].user) == Some(true)
      ensures r.Err? ==> Stored() == old(Stored())
      ensures r.Ok? ==> act.Rotate? && Can(old(Stored()), act) && Stored() == Next(old(Stored()), act)
                        && act.checkedAt == now && act.readAt == readAt && act.openedAt == openedAt
                        && old(sessions)[act.from].token == token && sessions[act.id].token == r.value
      ensures r.Ok? ==> !old(sessions)[act.from].revoked && now < old(sessions)[act.from].expires
                        && users(old(sessions)[act.from].user) == Some(true)
                        && sessions[act.id].user == old(sessions)[act.from].user && sessions[act.from].revoked
    {
      act := RevokeUser(NIL);
      var found := FindByToken(token);
      if found.None? { return Err(Unauthenticated), act; }
      var s := sessions[found.value];
      if s.revoked || now >= s.expires { return Err(Unauthenticated), act; }
      var target := users(s.user);
      if target.None? { return Err(Unauthenticated), act; }
      if !target.value { return Err(AccountDisabled), act; }
      assert target == Some(true) && sessions[found.value].token == token;
      var next;
      next, act := RotateSession(found.value, now, readAt, openedAt);
      r := Ok(next);
    }

    /** The writes of a rotation. */
    method RotateSession(from: Uuid, now: int, readAt: int, openedAt: int) returns (next: nat, ghost act: Act)
      requires Valid(Stored()) && from in sessions && !sessions[from].revoked && now < sessions[from].expires
      modifies this
      ensures Valid(Stored()) && act.Rotate? && act.from == from && act.checkedAt == now && act.readAt == readAt
              && act.openedAt == openedAt
      ensures Can(old(Stored()), act) && Stored() == Next(old(Stored()), act) && sessions[act.id].token == next
    {
      var s := sessions[from];
      ghost var before, id := Stored(), NIL;
      sessions := Revoked(sessions, from);
      next, id := OpenSession(s.user, s.login, openedAt + (s.expires - readAt));
      act := Rotate(from, id, now, readAt, openedAt);
      StepKeepsValid(before, act);
    }

    /** Logout: one token, or every session of the caller. */
    method Logout(caller: Option<Uuid>, token: Option<nat>, everywhere: bool)
      returns (refusal: Option<Error>, ghost act: Act)
      requires Valid(Stored())
      modifies this`sessions
      ensures Valid(Stored())
      ensures refusal.Some? ==> Stored() == old(Stored())
      ensures refusal.None? ==> Can(old(Stored()), act) && Stored() == Next(old(Stored()), act)
      ensures refusal.None? && (everywhere || token.None?) ==>
                caller.Some? && act == RevokeUser(caller.value) && sessions.Keys == old(sessions).Keys
                && forall x | x in sessions ::
                     if old(sessions)[x].user == caller.value then sessions[x].revoked
                         else sessions[x] == old(sessions)[x]
      ensures refusal.None? && !everywhere && token.Some? ==>
                act.RevokeOne? && old(sessions)[act.id].token == token.value
                    && (caller.Some? ==> old(sessions)[act.id].user == caller.value)
                    && sessions == old(sessions)[act.id := old(sessions)[act.id].(revoked := true)]
    {
      act := RevokeUser(NIL);
      ghost var before := Stored();
      if everywhere || token.None? {
        if caller.None? { return Some(Unauthenticated), act; }
        act := RevokeUser(caller.value);
        sessions := RevokedAll(sessions, caller.value);
      } else {
        var found := FindByToken(token.value);
        if found.None? { return Some(Unauthenticated), act; }
        if caller.Some? && sessions[found.value].user != caller.value { return Some(PermissionDenied), act; }
        act := RevokeOne(found.value);
        sessions := Revoked(sessions, found.value);
      }
      StepKeepsValid(before, act);
      refusal := None;
    }

    /** ChangePassword: no session opened before is usable after. */
    method ChangePassword(caller: Uuid, verified: bool) returns (refusal: Option<Error>)
      requires Valid(Stored())
      modifies this`sessions
      ensures Valid(Stored())
      ensures refusal.None? <==> verified
      ensures Stored() == if verified then Next(old(Stored()), RevokeUser(caller)) else old(Stored())
      ensures forall x | x in old(sessions) ::
                && x in sessions
                && if verified && old(sessions)[x].user == caller then sessions[x].revoked
                   else sessions[x] == old(sessions)[x]
    {
      if !verified { return Some(Unauthenticated); }
      StepKeepsValid(Stored(), RevokeUser(caller));
      sessions := RevokedAll(sessions, caller);
      refusal := None;
    }

    /** RevokeSession: one of the caller's own. */
    method RevokeSession(caller: Uuid, id: Uuid) returns (refusal: Option<Error>)
      requires Valid(Stored())
      modifies this`sessions
      ensures Valid(Stored())
      ensures refusal.None? <==> id in old(sessions) && old(sessions)[id].user == caller
      ensures Stored() == if refusal.None? then Next(old(Stored()), RevokeOne(id)) else old(Stored())
      ensures sessions == if refusal.None? then old(sessions)[id := old(sessions)[id].(revoked := true)]
              else old(sessions)
    {
      if id !in sessions { return Some(NotFound); }
      if sessions[id].user != caller { return Some(PermissionDenied); }
      StepKeepsValid(Stored(), RevokeOne(id));
      sessions := Revoked(sessions, id);
      refusal := None;
    }
  }
}
