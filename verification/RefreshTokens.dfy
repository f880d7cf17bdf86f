/**
 * Refresh-token rotation. A refresh is four statements (revoke the presented token if it
 * is live, look the user up, insert a new token, link the old one to it) that interleave
 * with those of other requests, with logins, logouts and mass revocations. New tokens are
 * always unused, and a hash stands for its token.
 */
module RefreshTokens {
  import opened Common

  type Token = nat
  type Time = int

  datatype Row = Row(user: string, expiresAt: Time, revokedAt: Option<Time>, replacedBy: Option<Token>)

  type Rows = map<Token, Row>

  predicate Live(rows: Rows, t: Token) { t in rows && rows[t].revokedAt.None? }

  // ---------------------------------------------------------------- the statements

  /** UPDATE ... WHERE the hash matches and the row is not revoked. */
  function RevokeIfLive(rows: Rows, t: Token, now: Time): Rows {
    if Live(rows, t) then rows[t := rows[t].(revokedAt := Some(now))] else rows
  }

  function RevokeUser(rows: Rows, user: string, now: Time): Rows {
    map t | t in rows :: if rows[t].user == user && rows[t].revokedAt.None? then rows[t].(revokedAt := Some(now)) else rows[t]
  }

  function InsertRow(rows: Rows, t: Token, user: string, expiresAt: Time): Rows {
    rows[t := Row(user, expiresAt, None, None)]
  }

  function LinkRow(rows: Rows, t: Token, successor: Token): Rows {
    if t in rows then rows[t := rows[t].(replacedBy := Some(successor))] else rows
  }

  // ---------------------------------------------------------------- one request at a time

  datatype UserStatus = ACTIVE | DISABLED

  datatype Outcome = Refreshed(token: Token) | INVALID_REFRESH | USER_NOT_FOUND | USER_DISABLED

  function RefreshOutcome(rows: Rows, users: map<string, UserStatus>, presented: Token, now: Time, newToken: Token): Outcome {
    if !Live(rows, presented) || rows[presented].expiresAt < now then INVALID_REFRESH
    else if rows[presented].user !in users then USER_NOT_FOUND
    else if users[rows[presented].user] != ACTIVE then USER_DISABLED
    else Refreshed(newToken)
  }

  /** A presented token is spent even where the refresh then fails. */
  function RefreshedRows(rows: Rows, users: map<string, UserStatus>, presented: Token, now: Time,
                         newToken: Token, expiresAt: Time): Rows {
    var spent := RevokeIfLive(rows, presented, now);
    if RefreshOutcome(rows, users, presented, now, newToken).Refreshed?
    then LinkRow(InsertRow(spent, newToken, rows[presented].user, expiresAt), presented, newToken)
    else spent
  }

  /** Which tokens are accepted: present, never revoked, and not past their expiry. */
  predicate Accepted(rows: Rows, t: Token, now: Time) {
    t in rows && rows[t].revokedAt == None && now <= rows[t].expiresAt
  }

  /**
   * Each answer has its own condition, tried in the source's order; a success hands out
   * the new token.
   */
  lemma AnswersByCondition(rows: Rows, users: map<string, UserStatus>, presented: Token, now: Time, newToken: Token)
    ensures var answer := RefreshOutcome(rows, users, presented, now, newToken);
            if !Accepted(rows, presented, now) then answer == INVALID_REFRESH
            else if rows[presented].user !in users then answer == USER_NOT_FOUND
            else if users[rows[presented].user] == DISABLED then answer == USER_DISABLED
            else answer == Refreshed(newToken)
  {
  }

  /** No row but the presented one and the new one is touched. */
  ghost predicate OthersKept(before: Rows, after: Rows, presented: Token, newToken: Token) {
    forall t | t != presented && t != newToken :: (t in after <==> t in before) && (t in before ==> after[t] == before[t])
  }

  /**
   * What a refresh leaves behind. A success leaves a new live row for the same user, with
   * the new expiry, and the presented row revoked now and linked to it. A failure adds
   * nothing; it revokes the presented token if that was still live.
   */
  lemma RowsAfterRefresh(rows: Rows, users: map<string, UserStatus>, presented: Token, now: Time,
                         newToken: Token, expiresAt: Time)
    requires newToken !in rows
    ensures var answer := RefreshOutcome(rows, users, presented, now, newToken);
            var after := RefreshedRows(rows, users, presented, now, newToken, expiresAt);
            && OthersKept(rows, after, presented, newToken)
            && (answer.Refreshed? ==>
                  && answer.token !in rows && answer.token in after && presented in rows && presented in after
                  && after[answer.token] == Row(rows[presented].user, expiresAt, None, None)
                  && after[presented] == Row(rows[presented].user, rows[presented].expiresAt, Some(now), Some(answer.token)))
            && (!answer.Refreshed? ==>
                  && after.Keys == rows.Keys
                  && (presented in rows ==>
                        after[presented] == if rows[presented].revokedAt == None then rows[presented].(revokedAt := Some(now))
                                            else rows[presented]))
  {
  }

  /**
   * The token a refresh hands out is good for the next one, up to its expiry, for a user
   * who is still active; the token it was exchanged for is not, whenever it is presented.
   */
  lemma RefreshedTokenRefreshes(rows: Rows, users: map<string, UserStatus>, presented: Token, now: Time, newToken: Token,
                                expiresAt: Time, later: map<string, UserStatus>, at: Time, nextToken: Token)
    requires newToken !in rows && RefreshOutcome(rows, users, presented, now, newToken).Refreshed?
    ensures var t := RefreshOutcome(rows, users, presented, now, newToken).token;
            var after := RefreshedRows(rows, users, presented, now, newToken, expiresAt);
            var user := rows[presented].user;
            && (RefreshOutcome(after, later, t, at, nextToken).Refreshed?
                <==> at <= expiresAt && user in later && later[user] == ACTIVE)
            && RefreshOutcome(after, later, presented, at, nextToken) == INVALID_REFRESH
  {
    RowsAfterRefresh(rows, users, presented, now, newToken, expiresAt);
  }

  class AuthService {
    var rows: Rows
    var users: map<string, UserStatus>

    constructor ()
      ensures rows == map[] && users == map[]
    {
      rows, users := map[], map[];
    }

    method Issue(user: string, newToken: Token, expiresAt: Time)
      modifies this`rows
      ensures rows == InsertRow(old(rows), newToken, user, expiresAt)
      ensures rows.Keys == old(rows).Keys + {newToken} && rows[newToken] == Row(user, expiresAt, None, None)
      ensures forall t | t in old(rows) && t != newToken :: rows[t] == old(rows)[t]
    {
      rows := rows[newToken := Row(user, expiresAt, None, None)];
    }

    method Refresh(presented: Token, now: Time, newToken: Token, expiresAt: Time) returns (result: Outcome)
      requires newToken !in rows
      modifies this`rows
      ensures result == RefreshOutcome(old(rows), users, presented, now, newToken)
      ensures rows == RefreshedRows(old(rows), users, presented, now, newToken, expiresAt)
      ensures result == INVALID_REFRESH <==> !Accepted(old(rows), presented, now)
      ensures result == USER_NOT_FOUND <==> Accepted(old(rows), presented, now) && old(rows)[presented].user !in users
      ensures result == USER_DISABLED
              <==> Accepted(old(rows), presented, now) && old(rows)[presented].user in users
                   && users[old(rows)[presented].user] == DISABLED
      ensures OthersKept(old(rows), rows, presented, newToken)
      ensures result.Refreshed? ==>
                && result.token !in old(rows) && result.token in rows && presented in old(rows) && presented in rows
                && rows[result.token] == Row(old(rows)[presented].user, expiresAt, None, None)
                && rows[presented].revokedAt == Some(now) && rows[presented].replacedBy == Some(result.token)
      ensures !result.Refreshed? ==>
                && rows.Keys == old(rows).Keys
                && (presented in rows ==> rows[presented].revokedAt.Some? && rows[presented].replacedBy == old(rows)[presented].replacedBy)
    {
      AnswersByCondition(rows, users, presented, now, newToken);
      RowsAfterRefresh(rows, users, presented, now, newToken, expiresAt);
      if !(presented in rows && rows[presented].revokedAt.None?) { return INVALID_REFRESH; }
      rows := rows[presented := rows[presented].(revokedAt := Some(now))];
      var record := rows[presented];
      if record.expiresAt < now { return INVALID_REFRESH; }
      if record.user !in users { return USER_NOT_FOUND; }
      if users[record.user] != ACTIVE { return USER_DISABLED; }
      Issue(record.user, newToken, expiresAt);
      rows := rows[presented := rows[presented].(replacedBy := Some(newToken))];
      return Refreshed(newToken);
    }

    method Logout(presented: Token, now: Time)
      modifies this`rows
      ensures rows == RevokeIfLive(old(rows), presented, now)
      ensures rows.Keys == old(rows).Keys && forall t | t in rows ::
                rows[t] == if t == presented && old(rows)[t].revokedAt == None then old(rows)[t].(revokedAt := Some(now))
                           else old(rows)[t]
    {
      if presented in rows && rows[presented].revokedAt.None? {
        rows := rows[presented := rows[presented].(revokedAt := Some(now))];
      }
    }

    method RevokeAllSessions(user: string, now: Time) returns (count: nat)
      modifies this`rows
      ensures rows == RevokeUser(old(rows), user, now)
      ensures rows.Keys == old(rows).Keys && forall t | t in rows ::
                rows[t] == if old(rows)[t].user == user && old(rows)[t].revokedAt == None
                           then old(rows)[t].(revokedAt := Some(now)) else old(rows)[t]
      ensures count == |set t | t in old(rows) && Live(old(rows), t) && old(rows)[t].user == user|
    {
      var mine := set t | t in rows && Live(rows, t) && rows[t].user == user;
      rows := map t | t in rows :: if t in mine then rows[t].(revokedAt := Some(now)) else rows[t];
      count := |mine|;
    }
  }

  // ---------------------------------------------------------------- interleaved requests

  /** How far a refresh request has come with the token it spent. */
  datatype Request =
    | Spent(token: Token)
    | UserChecked(token: Token)
    | Issued(token: Token, successor: Token)

  /**
   * The last three are history: the token issued for a spent one, the login a token's
   * chain starts at, and the newest token of each login's chain.
   */
  datatype State = State(
    rows: Rows, users: map<string, UserStatus>, requests: map<nat, Request>,
    successors: map<Token, Token>, roots: map<Token, Token>, heads: map<Token, Token>)

  const START := State(map[], map[], map[], map[], map[], map[])

  datatype Op =
    | SetUser(user: string, status: UserStatus)
    | DeleteUser(user: string)
    | Login(user: string, newToken: Token, expiresAt: Time)
    | Spend(r: nat, presented: Token, now: Time)
    | CheckUser(r: nat)
    | IssueFor(r: nat, newToken: Token, expiresAt: Time)
    | Link(r: nat)
    | GiveUp(r: nat)
    | Logout(presented: Token, now: Time)
    | RevokeAll(user: string, now: Time)

  predicate Enabled(s: State, op: Op) {
    match op
    case Login(user, newToken, _) => newToken !in s.rows
    case Spend(r, _, _) => r !in s.requests
    case CheckUser(r) => r in s.requests && s.requests[r].Spent? && s.requests[r].token in s.rows
    case IssueFor(r, newToken, _) =>
      r in s.requests && s.requests[r].UserChecked? && s.requests[r].token in s.rows
      && s.requests[r].token in s.roots && newToken !in s.rows
    case Link(r) => r in s.requests && s.requests[r].Issued?
    case GiveUp(r) => r in s.requests
    case _ => true
  }

  function Step(s: State, op: Op): State {
    if !Enabled(s, op) then s
    else
      match op
      case SetUser(user, status) => s.(users := s.users[user := status])
      case DeleteUser(user) => s.(users := s.users - {user})
      case Login(user, newToken, expiresAt) =>
        s.(rows := InsertRow(s.rows, newToken, user, expiresAt),
           roots := s.roots[newToken := newToken], heads := s.heads[newToken := newToken])
      case Spend(r, presented, now) =>
        if !Live(s.rows, presented) then s
        else
          var spent := s.(rows := RevokeIfLive(s.rows, presented, now));
          if s.rows[presented].expiresAt < now then spent
          else spent.(requests := s.requests[r := Spent(presented)])
      case CheckUser(r) =>
        var t := s.requests[r].token;
        var user := s.rows[t].user;
        if user in s.users && s.users[user] == ACTIVE then s.(requests := s.requests[r := UserChecked(t)])
        else s.(requests := s.requests - {r})
      case IssueFor(r, newToken, expiresAt) =>
        var t := s.requests[r].token;
        s.(rows := InsertRow(s.rows, newToken, s.rows[t].user, expiresAt),
           requests := s.requests[r := Issued(t, newToken)],
           successors := s.successors[t := newToken],
           roots := s.roots[newToken := s.roots[t]], heads := s.heads[s.roots[t] := newToken])
      case Link(r) =>
        s.(rows := LinkRow(s.rows, s.requests[r].token, s.requests[r].successor), requests := s.requests - {r})
      case GiveUp(r) => s.(requests := s.requests - {r})
      case Logout(presented, now) => s.(rows := RevokeIfLive(s.rows, presented, now))
      case RevokeAll(user, now) => s.(rows := RevokeUser(s.rows, user, now))
  }

  function Run(s: State, ops: seq<Op>): State {
    if ops == [] then s else Step(Run(s, ops[..|ops| - 1]), ops[|ops| - 1])
  }

  // ---------------------------------------------------------------- the invariant

  /** A row and its place on record. */
  predicate TokenOk(s: State, t: Token)
    requires t in s.rows
  {
    && t in s.roots && s.roots[t] in s.rows && s.roots[t] in s.roots && s.roots[s.roots[t]] == s.roots[t]
    && s.rows[s.roots[t]].user == s.rows[t].user
    && s.roots[t] in s.heads
    && (Live(s.rows, t) ==> s.heads[s.roots[t]] == t)
    && (t in s.successors ==> !Live(s.rows, t) && s.heads[s.roots[t]] != t)
    && (s.rows[t].replacedBy.Some? ==> t in s.successors && s.rows[t].replacedBy.value == s.successors[t])
  }

  /** A request that may still issue a token holds a spent one, the newest of its chain. */
  predicate RequestOk(s: State, r: nat)
    requires r in s.requests
  {
    var t := s.requests[r].token;
    t in s.rows
    && match s.requests[r]
       case Issued(_, successor) => t in s.successors && s.successors[t] == successor
       case _ => !Live(s.rows, t) && t !in s.successors && t in s.roots && s.roots[t] in s.heads && s.heads[s.roots[t]] == t
  }

  predicate Holding(s: State, r: nat) { r in s.requests && !s.requests[r].Issued? }

  ghost predicate OneHolder(s: State) {
    forall r, q | Holding(s, r) && Holding(s, q) && s.requests[r].token == s.requests[q].token :: r == q
  }

  ghost predicate Inv(s: State) {
    && (forall t | t in s.rows :: TokenOk(s, t))
    && (forall r | r in s.requests :: RequestOk(s, r))
    && OneHolder(s)
    && s.successors.Keys <= s.rows.Keys
  }

  // ---------------------------------------------------------------- every step keeps it

  /** Rows change only by being revoked for the first time. */
  ghost predicate MoreRevoked(a: Rows, b: Rows) {
    a.Keys == b.Keys
    && forall t | t in a :: b[t].user == a[t].user && b[t].replacedBy == a[t].replacedBy
                            && (a[t].revokedAt.Some? ==> b[t].revokedAt.Some?)
  }

  lemma StatementsRevoke(rows: Rows, t: Token, user: string, now: Time)
    ensures MoreRevoked(rows, RevokeIfLive(rows, t, now))
    ensures MoreRevoked(rows, RevokeUser(rows, user, now))
  {
  }

  lemma RevokingKeepsInv(s: State, rows: Rows)
    requires Inv(s) && MoreRevoked(s.rows, rows)
    ensures Inv(s.(rows := rows))
  {
    var e := s.(rows := rows);
    forall t | t in e.rows
      ensures TokenOk(e, t)
    {
      assert TokenOk(s, t);
    }
    forall r | r in e.requests
      ensures RequestOk(e, r)
    {
      assert RequestOk(s, r);
    }
    SameHolders(s, e);
  }

  lemma SameHolders(s: State, e: State)
    requires OneHolder(s) && e.requests == s.requests
    ensures OneHolder(e)
  {
    assert forall r :: Holding(e, r) <==> Holding(s, r);
  }

  /** What is on record does not depend on the requests or on the users. */
  lemma TokensStayOk(s: State, e: State)
    requires forall t | t in s.rows :: TokenOk(s, t)
    requires e.rows == s.rows && e.successors == s.successors && e.roots == s.roots && e.heads == s.heads
    ensures forall t | t in e.rows :: TokenOk(e, t)
  {
    forall t | t in e.rows
      ensures TokenOk(e, t)
    {
      assert TokenOk(s, t);
    }
  }

  lemma SpendKeepsInv(s: State, r: nat, t: Token, now: Time)
    requires Inv(s) && r !in s.requests && Live(s.rows, t)
    ensures var spent := s.(rows := RevokeIfLive(s.rows, t, now));
            Inv(spent) && Inv(spent.(requests := s.requests[r := Spent(t)]))
  {
    StatementsRevoke(s.rows, t, "", now);
    var spent := s.(rows := RevokeIfLive(s.rows, t, now));
    RevokingKeepsInv(s, spent.rows);
    assert TokenOk(s, t);
    forall q | Holding(s, q)
      ensures s.requests[q].token != t
    {
      assert RequestOk(s, q);
    }
    HeldAnew(spent, r, t);
  }

  lemma HeldAnew(s: State, r: nat, t: Token)
    requires Inv(s) && r !in s.requests && t in s.rows && !Live(s.rows, t)
    requires t !in s.successors && t in s.roots && s.roots[t] in s.heads && s.heads[s.roots[t]] == t
    requires forall q | Holding(s, q) :: s.requests[q].token != t
    ensures Inv(s.(requests := s.requests[r := Spent(t)]))
  {
    var e := s.(requests := s.requests[r := Spent(t)]);
    TokensStayOk(s, e);
    forall q | q in e.requests
      ensures RequestOk(e, q)
    {
      if q != r { assert RequestOk(s, q); }
    }
    assert forall q | Holding(e, q) :: q == r || Holding(s, q);
  }

  lemma DroppingKeepsInv(s: State, r: nat)
    requires Inv(s)
    ensures Inv(s.(requests := s.requests - {r}))
  {
    var e := s.(requests := s.requests - {r});
    TokensStayOk(s, e);
    forall q | q in e.requests
      ensures RequestOk(e, q)
    {
      assert RequestOk(s, q);
    }
    assert forall q | Holding(e, q) :: Holding(s, q);
  }

  lemma CheckingKeepsInv(s: State, r: nat)
    requires Inv(s) && r in s.requests && s.requests[r].Spent?
    ensures Inv(s.(requests := s.requests[r := UserChecked(s.requests[r].token)]))
  {
    var e := s.(requests := s.requests[r := UserChecked(s.requests[r].token)]);
    TokensStayOk(s, e);
    forall q | q in e.requests
      ensures RequestOk(e, q)
    {
      assert RequestOk(s, q);
    }
    assert forall q | Holding(e, q) :: Holding(s, q) && e.requests[q].token == s.requests[q].token;
  }

  lemma UsersKeepInv(s: State, users: map<string, UserStatus>)
    requires Inv(s)
    ensures Inv(s.(users := users))
  {
    var e := s.(users := users);
    TokensStayOk(s, e);
    forall q | q in e.requests
      ensures RequestOk(e, q)
    {
      assert RequestOk(s, q);
    }
    SameHolders(s, e);
  }

  lemma LoginKeepsInv(s: State, user: string, newToken: Token, expiresAt: Time)
    requires Inv(s) && newToken !in s.rows
    ensures Inv(Step(s, Login(user, newToken, expiresAt)))
  {
    var e := Step(s, Login(user, newToken, expiresAt));
    forall t | t in e.rows
      ensures TokenOk(e, t)
    {
      if t != newToken { assert TokenOk(s, t); }
    }
    forall q | q in e.requests
      ensures RequestOk(e, q)
    {
      assert RequestOk(s, q);
      assert TokenOk(s, s.requests[q].token);
    }
    SameHolders(s, e);
  }

  /** Issuing for a held token moves the head of its chain on, past nothing that works. */
  lemma IssueKeepsToken(s: State, r: nat, newToken: Token, expiresAt: Time, u: Token)
    requires Inv(s) && Enabled(s, IssueFor(r, newToken, expiresAt))
    requires u == newToken || u in s.rows
    ensures var e := Step(s, IssueFor(r, newToken, expiresAt));
            u in e.rows && TokenOk(e, u)
  {
    assert RequestOk(s, r);
    assert TokenOk(s, s.requests[r].token);
    if u != newToken { assert TokenOk(s, u); }
  }

  lemma IssueKeepsRequest(s: State, r: nat, newToken: Token, expiresAt: Time, q: nat)
    requires Inv(s) && Enabled(s, IssueFor(r, newToken, expiresAt)) && q in s.requests
    ensures RequestOk(Step(s, IssueFor(r, newToken, expiresAt)), q)
  {
    assert RequestOk(s, r) && RequestOk(s, q);
    assert Holding(s, r);
    assert TokenOk(s, s.requests[q].token);
    if q != r && Holding(s, q) { assert s.requests[q].token != s.requests[r].token; }
  }

  lemma IssueKeepsInv(s: State, r: nat, newToken: Token, expiresAt: Time)
    requires Inv(s) && Enabled(s, IssueFor(r, newToken, expiresAt))
    ensures Inv(Step(s, IssueFor(r, newToken, expiresAt)))
  {
    var e := Step(s, IssueFor(r, newToken, expiresAt));
    forall t | t in e.rows
      ensures TokenOk(e, t)
    {
      IssueKeepsToken(s, r, newToken, expiresAt, t);
    }
    forall q | q in e.requests
      ensures RequestOk(e, q)
    {
      IssueKeepsRequest(s, r, newToken, expiresAt, q);
    }
    assert forall q | Holding(e, q) :: Holding(s, q) && e.requests[q] == s.requests[q];
  }

  lemma LinkKeepsInv(s: State, r: nat)
    requires Inv(s) && r in s.requests && s.requests[r].Issued?
    ensures Inv(Step(s, Link(r)))
  {
    var linked := s.(rows := LinkRow(s.rows, s.requests[r].token, s.requests[r].successor));
    assert RequestOk(s, r);
    forall t | t in linked.rows
      ensures TokenOk(linked, t)
    {
      assert TokenOk(s, t);
    }
    forall q | q in linked.requests
      ensures RequestOk(linked, q)
    {
      assert RequestOk(s, q);
    }
    SameHolders(s, linked);
    DroppingKeepsInv(linked, r);
  }

  lemma StepKeepsInv(s: State, op: Op)
    requires Inv(s)
    ensures Inv(Step(s, op))
  {
    if Enabled(s, op) {
      match op
      case SetUser(user, status) => UsersKeepInv(s, s.users[user := status]);
      case DeleteUser(user) => UsersKeepInv(s, s.users - {user});
      case Login(user, newToken, expiresAt) => LoginKeepsInv(s, user, newToken, expiresAt);
      case Spend(r, presented, now) =>
        if Live(s.rows, presented) { SpendKeepsInv(s, r, presented, now); }
      case CheckUser(r) =>
        CheckingKeepsInv(s, r);
        DroppingKeepsInv(s, r);
      case IssueFor(r, newToken, expiresAt) => IssueKeepsInv(s, r, newToken, expiresAt);
      case Link(r) => LinkKeepsInv(s, r);
      case GiveUp(r) => DroppingKeepsInv(s, r);
      case Logout(presented, now) =>
        StatementsRevoke(s.rows, presented, "", now);
        RevokingKeepsInv(s, RevokeIfLive(s.rows, presented, now));
      case RevokeAll(user, now) =>
        StatementsRevoke(s.rows, 0, user, now);
        RevokingKeepsInv(s, RevokeUser(s.rows, user, now));
    }
  }

  lemma {:induction false} InvHolds(ops: seq<Op>)
    ensures Inv(Run(START, ops))
  {
    if ops != [] {
      InvHolds(ops[..|ops| - 1]);
      StepKeepsInv(Run(START, ops[..|ops| - 1]), ops[|ops| - 1]);
    }
  }

  // ---------------------------------------------------------------- the guarantees

  /** What was settled about a token in `s` still stands in `e`. */
  predicate Settled(s: State, e: State, t: Token)
    requires t in s.rows
  {
    && t in e.rows && e.rows[t].user == s.rows[t].user
    && (s.rows[t].revokedAt.Some? ==> e.rows[t].revokedAt == s.rows[t].revokedAt)
    && (t in s.successors ==> t in e.successors && e.successors[t] == s.successors[t])
    && (s.rows[t].replacedBy.Some? ==> e.rows[t].replacedBy == s.rows[t].replacedBy)
  }

  lemma IssueSettles(s: State, op: Op, t: Token)
    requires Inv(s) && t in s.rows && Enabled(s, op) && op.IssueFor?
    ensures Settled(s, Step(s, op), t)
  {
    assert TokenOk(s, t) && RequestOk(s, op.r);
  }

  lemma LinkSettles(s: State, op: Op, t: Token)
    requires Inv(s) && t in s.rows && Enabled(s, op) && op.Link?
    ensures Settled(s, Step(s, op), t)
  {
    assert TokenOk(s, t) && RequestOk(s, op.r);
  }

  lemma OthersSettle(s: State, op: Op, t: Token)
    requires t in s.rows && !(Enabled(s, op) && (op.IssueFor? || op.Link?))
    ensures Settled(s, Step(s, op), t)
  {
  }

  lemma StepSettles(s: State, op: Op, t: Token)
    requires Inv(s) && t in s.rows
    ensures Settled(s, Step(s, op), t)
  {
    if Enabled(s, op) && op.IssueFor? { IssueSettles(s, op, t); }
    else if Enabled(s, op) && op.Link? { LinkSettles(s, op, t); }
    else { OthersSettle(s, op, t); }
  }

  /** Over any run a token is revoked at most once, exchanged at most once and linked at most once, for good. */
  lemma {:induction false} SettledForGood(s: State, ops: seq<Op>, t: Token)
    requires Inv(s) && t in s.rows
    ensures Inv(Run(s, ops)) && Settled(s, Run(s, ops), t)
  {
    if ops != [] {
      var before := Run(s, ops[..|ops| - 1]);
      SettledForGood(s, ops[..|ops| - 1], t);
      StepKeepsInv(before, ops[|ops| - 1]);
      StepSettles(before, ops[|ops| - 1], t);
    }
  }

  /** No token is ever issued for a token that already has a successor, or that still works. */
  lemma IssuedAtMostOnce(ops: seq<Op>, r: nat, newToken: Token, expiresAt: Time)
    requires Enabled(Run(START, ops), IssueFor(r, newToken, expiresAt))
    ensures var s := Run(START, ops);
            var t := s.requests[r].token;
            t !in s.successors && !Live(s.rows, t) && Step(s, IssueFor(r, newToken, expiresAt)).successors[t] == newToken
  {
    InvHolds(ops);
    assert RequestOk(Run(START, ops), r);
  }

  /** A link, once written, names the successor that was issued. */
  lemma LinkNamesSuccessor(ops: seq<Op>, t: Token)
    ensures var s := Run(START, ops);
            t in s.rows && s.rows[t].replacedBy.Some?
            ==> t in s.successors && s.rows[t].replacedBy.value == s.successors[t]
  {
    InvHolds(ops);
    assert t in Run(START, ops).rows ==> TokenOk(Run(START, ops), t);
  }

  /** However requests interleave, a login's chain of tokens has at most one that works. */
  lemma OneLivePerChain(ops: seq<Op>, a: Token, b: Token)
    ensures var s := Run(START, ops);
            Live(s.rows, a) && Live(s.rows, b) ==> a in s.roots && b in s.roots && (s.roots[a] == s.roots[b] ==> a == b)
  {
    InvHolds(ops);
    var s := Run(START, ops);
    if Live(s.rows, a) && Live(s.rows, b) { assert TokenOk(s, a) && TokenOk(s, b); }
  }

  function LiveTokens(s: State, user: string): set<Token> {
    set t | t in s.rows && Live(s.rows, t) && s.rows[t].user == user
  }

  /** The tokens that logins of this user were given: the roots of its chains. */
  function LoginTokens(s: State, user: string): set<Token> {
    set t | t in s.rows && t in s.roots && s.roots[t] == t && s.rows[t].user == user
  }

  lemma {:induction false} NoMoreThanRoots(live: set<Token>, logins: set<Token>, roots: map<Token, Token>)
    requires forall t | t in live :: t in roots && roots[t] in logins
    requires forall a, b | a in live && b in live && roots[a] == roots[b] :: a == b
    ensures |live| <= |logins|
  {
    if live != {} {
      var t :| t in live;
      NoMoreThanRoots(live - {t}, logins - {roots[t]}, roots);
    }
  }

  /** A user never has more working tokens than logins. */
  lemma LiveTokensNeverExceedLogins(ops: seq<Op>, user: string)
    ensures var s := Run(START, ops);
            |LiveTokens(s, user)| <= |LoginTokens(s, user)|
  {
    InvHolds(ops);
    var s := Run(START, ops);
    forall t | t in LiveTokens(s, user)
      ensures t in s.roots && s.roots[t] in LoginTokens(s, user)
    {
      assert TokenOk(s, t);
    }
    forall a, b | a in LiveTokens(s, user) && b in LiveTokens(s, user) && s.roots[a] == s.roots[b]
      ensures a == b
    {
      OneLivePerChain(ops, a, b);
    }
    NoMoreThanRoots(LiveTokens(s, user), LoginTokens(s, user), s.roots);
  }

  /** The logins of a user in a run: those given a token of their own. */
  function Logins(ops: seq<Op>, user: string): nat {
    if ops == [] then 0
    else
      var op := ops[|ops| - 1];
      Logins(ops[..|ops| - 1], user)
      + if op.Login? && op.user == user && Enabled(Run(START, ops[..|ops| - 1]), op) then 1 else 0
  }

  /** Chains are started by logins and by nothing else. */
  lemma {:induction false} RootsAreLogins(ops: seq<Op>, user: string)
    ensures |LoginTokens(Run(START, ops), user)| == Logins(ops, user)
  {
    if ops == [] {
      assert LoginTokens(START, user) == {};
    } else {
      var init, op := ops[..|ops| - 1], ops[|ops| - 1];
      RootsAreLogins(init, user);
      InvHolds(init);
      RootsAfter(Run(START, init), op, user);
    }
  }

  lemma RootsAfter(s: State, op: Op, user: string)
    requires Inv(s)
    ensures LoginTokens(Step(s, op), user)
            == if Enabled(s, op) && op.Login? && op.user == user then LoginTokens(s, user) + {op.newToken}
               else LoginTokens(s, user)
    ensures Enabled(s, op) && op.Login? ==> op.newToken !in LoginTokens(s, user)
  {
    if Enabled(s, op) && op.Login? {
      var e := Step(s, op);
      assert LoginTokens(e, user) == if op.user == user then LoginTokens(s, user) + {op.newToken} else LoginTokens(s, user);
    } else if Enabled(s, op) && op.IssueFor? {
      RootsAfterIssue(s, op.r, op.newToken, op.expiresAt, user);
    } else {
      SameChains(s, op);
    }
  }

  lemma RootsAfterIssue(s: State, r: nat, newToken: Token, expiresAt: Time, user: string)
    requires Inv(s) && Enabled(s, IssueFor(r, newToken, expiresAt))
    ensures LoginTokens(Step(s, IssueFor(r, newToken, expiresAt)), user) == LoginTokens(s, user)
  {
    assert TokenOk(s, s.requests[r].token);
    var e := Step(s, IssueFor(r, newToken, expiresAt));
    assert e.roots[newToken] != newToken;
  }

  /** Only logins and refreshes add to the chains. */
  lemma SameChains(s: State, op: Op)
    requires !(Enabled(s, op) && (op.Login? || op.IssueFor?))
    ensures var e := Step(s, op);
            e.roots == s.roots && e.rows.Keys == s.rows.Keys && forall t | t in s.rows :: e.rows[t].user == s.rows[t].user
  {
    match op
    case Spend(_, _, _) =>
    case Link(_) =>
    case RevokeAll(_, _) =>
    case _ =>
  }

  // ---------------------------------------------------------------- what a mass revocation leaves open

  /** A refresh of this user has spent its token and not yet issued the next. */
  predicate InFlight(s: State, user: string) {
    exists r :: r in s.requests && !s.requests[r].Issued? && s.requests[r].token in s.rows
                && s.rows[s.requests[r].token].user == user
  }

  predicate LoggedOut(s: State, user: string) {
    forall t | t in s.rows && s.rows[t].user == user :: !Live(s.rows, t)
  }

  predicate NoLogin(ops: seq<Op>, user: string) {
    forall i | 0 <= i < |ops| :: !(ops[i].Login? && ops[i].user == user)
  }

  lemma RevokeAllLogsOut(s: State, user: string, now: Time)
    ensures LoggedOut(Step(s, RevokeAll(user, now)), user)
    ensures InFlight(Step(s, RevokeAll(user, now)), user) <==> InFlight(s, user)
  {
    var e := Step(s, RevokeAll(user, now));
    if InFlight(s, user) {
      var r :| r in s.requests && !s.requests[r].Issued? && s.requests[r].token in s.rows
               && s.rows[s.requests[r].token].user == user;
      assert e.rows[e.requests[r].token].user == user;
    }
    if InFlight(e, user) {
      var r :| r in e.requests && !e.requests[r].Issued? && e.requests[r].token in e.rows
               && e.rows[e.requests[r].token].user == user;
      assert s.rows[s.requests[r].token].user == user;
    }
  }

  /** No request in flight is of this user. */
  lemma NotOfUser(s: State, r: nat, user: string)
    requires !InFlight(s, user) && Holding(s, r) && s.requests[r].token in s.rows
    ensures s.rows[s.requests[r].token].user != user
  {
  }

  lemma NoTokenBack(s: State, op: Op, user: string, t: Token)
    requires Inv(s) && LoggedOut(s, user) && !InFlight(s, user) && !(op.Login? && op.user == user)
    requires t in Step(s, op).rows && Step(s, op).rows[t].user == user
    ensures !Live(Step(s, op).rows, t)
  {
    if t in s.rows {
      StepSettles(s, op, t);
    } else if op.IssueFor? {
      NotOfUser(s, op.r, user);
    } else {
      SameChains(s, op);
    }
  }

  lemma NoRequestBack(s: State, op: Op, user: string, r: nat)
    requires Inv(s) && LoggedOut(s, user) && !InFlight(s, user)
    requires Holding(Step(s, op), r)
    ensures var t := Step(s, op).requests[r].token;
            t in Step(s, op).rows && Step(s, op).rows[t].user != user
  {
    HeldBefore(s, op, r);
    if Holding(s, r) {
      assert RequestOk(s, r);
      NotOfUser(s, r, user);
    }
    StepSettles(s, op, Step(s, op).requests[r].token);
  }

  /** A request that holds a token after a step held it before, or has just spent it while it was live. */
  lemma HeldBefore(s: State, op: Op, r: nat)
    requires Holding(Step(s, op), r)
    ensures var t := Step(s, op).requests[r].token;
            (Holding(s, r) && s.requests[r].token == t) || Live(s.rows, t)
  {
  }

  lemma StaysOutStep(s: State, op: Op, user: string)
    requires Inv(s) && LoggedOut(s, user) && !InFlight(s, user) && !(op.Login? && op.user == user)
    ensures LoggedOut(Step(s, op), user) && !InFlight(Step(s, op), user)
  {
    forall t | t in Step(s, op).rows && Step(s, op).rows[t].user == user
      ensures !Live(Step(s, op).rows, t)
    {
      NoTokenBack(s, op, user, t);
    }
    forall r | Holding(Step(s, op), r)
      ensures Step(s, op).requests[r].token in Step(s, op).rows
              && Step(s, op).rows[Step(s, op).requests[r].token].user != user
    {
      NoRequestBack(s, op, user, r);
    }
  }

  lemma {:induction false} StaysOut(s: State, ops: seq<Op>, user: string)
    requires Inv(s) && LoggedOut(s, user) && !InFlight(s, user) && NoLogin(ops, user)
    ensures Inv(Run(s, ops)) && LoggedOut(Run(s, ops), user) && !InFlight(Run(s, ops), user)
  {
    if ops != [] {
      var init, op := ops[..|ops| - 1], ops[|ops| - 1];
      StaysOut(s, init, user);
      StaysOutStep(Run(s, init), op, user);
      StepKeepsInv(Run(s, init), op);
    }
  }

  function UnusedToken(rows: Rows): (t: Token)
    ensures t !in rows
  {
    Unused(rows.Keys)
  }

  /** What an in-flight request may still do: the user is let in again, looked up, and given a token. */
  function Comeback(s: State, r: nat): seq<Op>
    requires r in s.requests && s.requests[r].token in s.rows
  {
    [SetUser(s.rows[s.requests[r].token].user, ACTIVE), CheckUser(r), IssueFor(r, UnusedToken(s.rows), 0)]
  }

  lemma ComebackWorks(s: State, r: nat)
    requires Inv(s) && r in s.requests && !s.requests[r].Issued? && s.requests[r].token in s.rows
    ensures var user := s.rows[s.requests[r].token].user;
            NoLogin(Comeback(s, r), user) && !LoggedOut(Run(s, Comeback(s, r)), user)
  {
    var ops, t, newToken := Comeback(s, r), s.requests[r].token, UnusedToken(s.rows);
    RunThree(s, ops[0], ops[1], ops[2]);
    var s1 := Step(s, ops[0]);
    var s2 := Step(s1, ops[1]);
    assert RequestOk(s, r) && TokenOk(s, t);
    CheckPasses(s, r);
    IssueGives(s2, r, newToken, 0);
  }

  lemma CheckPasses(s: State, r: nat)
    requires Holding(s, r) && s.requests[r].token in s.rows
    ensures var t := s.requests[r].token;
            var let := Step(s, SetUser(s.rows[t].user, ACTIVE));
            let == s.(users := s.users[s.rows[t].user := ACTIVE])
            && Step(let, CheckUser(r)) == let.(requests := s.requests[r := UserChecked(t)])
  {
    var t := s.requests[r].token;
    if s.requests[r].UserChecked? { assert s.requests[r := UserChecked(t)] == s.requests; }
  }

  lemma IssueGives(s: State, r: nat, newToken: Token, expiresAt: Time)
    requires Enabled(s, IssueFor(r, newToken, expiresAt))
    ensures var e := Step(s, IssueFor(r, newToken, expiresAt));
            Live(e.rows, newToken) && e.rows[newToken].user == s.rows[s.requests[r].token].user
  {
  }

  /** Left alone, the four statements of a request are the refresh. */
  lemma UndisturbedStepsRefresh(s: State, r: nat, presented: Token, now: Time, newToken: Token, expiresAt: Time)
    requires Inv(s) && r !in s.requests && newToken !in s.rows
    ensures var e := Step(Step(Step(Step(s, Spend(r, presented, now)), CheckUser(r)), IssueFor(r, newToken, expiresAt)), Link(r));
            e.rows == RefreshedRows(s.rows, s.users, presented, now, newToken, expiresAt)
            && e.requests == s.requests
  {
    var s1 := Step(s, Spend(r, presented, now));
    if !Live(s.rows, presented) || s.rows[presented].expiresAt < now {
      NothingMore(s1, r, newToken, expiresAt);
    } else {
      assert TokenOk(s, presented);
      SpentThenRest(s1, r, presented, newToken, expiresAt);
      assert s1.requests - {r} == s.requests;
    }
  }

  /** A request that is gone does nothing more. */
  lemma NothingMore(s: State, r: nat, newToken: Token, expiresAt: Time)
    requires r !in s.requests
    ensures Step(Step(Step(s, CheckUser(r)), IssueFor(r, newToken, expiresAt)), Link(r)) == s
  {
  }

  lemma SpentThenRest(s: State, r: nat, t: Token, newToken: Token, expiresAt: Time)
    requires r in s.requests && s.requests[r] == Spent(t) && t in s.rows && t in s.roots && newToken !in s.rows
    ensures var user := s.rows[t].user;
            var e := Step(Step(Step(s, CheckUser(r)), IssueFor(r, newToken, expiresAt)), Link(r));
            && e.requests == s.requests - {r}
            && e.rows == if user in s.users && s.users[user] == ACTIVE
                         then LinkRow(InsertRow(s.rows, newToken, user, expiresAt), t, newToken) else s.rows
  {
    var checked := Step(s, CheckUser(r));
    if s.rows[t].user in s.users && s.users[s.rows[t].user] == ACTIVE {
      IssueAndLink(checked, r, newToken, expiresAt);
      assert checked.requests - {r} == s.requests - {r};
    } else {
      assert checked == s.(requests := s.requests - {r});
      NothingMore(checked, r, newToken, expiresAt);
    }
  }

  lemma IssueAndLink(s: State, r: nat, newToken: Token, expiresAt: Time)
    requires Enabled(s, IssueFor(r, newToken, expiresAt))
    ensures var t := s.requests[r].token;
            var e := Step(Step(s, IssueFor(r, newToken, expiresAt)), Link(r));
            e.rows == LinkRow(InsertRow(s.rows, newToken, s.rows[t].user, expiresAt), t, newToken)
            && e.requests == s.requests - {r}
  {
    assert s.requests[r := Issued(s.requests[r].token, newToken)] - {r} == s.requests - {r};
  }

  lemma RunThree(s: State, a: Op, b: Op, c: Op)
    ensures Run(s, [a, b, c]) == Step(Step(Step(s, a), b), c)
  {
    assert [a, b, c][..2] == [a, b] && [a, b][..1] == [a] && [a][..0] == [];
    assert Run(s, [a]) == Step(s, a);
    assert Run(s, [a, b]) == Step(Run(s, [a]), b);
  }

  /**
   * After every session of a user is revoked, the user can hold a working token again
   * without logging in exactly when a refresh of theirs was under way at that moment.
   */
  lemma RevocationIsFinalIffNoneInFlight(s: State, user: string, now: Time)
    requires Inv(s)
    ensures (forall ops | NoLogin(ops, user) :: LoggedOut(Run(Step(s, RevokeAll(user, now)), ops), user))
            <==> !InFlight(s, user)
  {
    var e := Step(s, RevokeAll(user, now));
    StepKeepsInv(s, RevokeAll(user, now));
    RevokeAllLogsOut(s, user, now);
    if InFlight(s, user) {
      var r :| r in e.requests && !e.requests[r].Issued? && e.requests[r].token in e.rows
               && e.rows[e.requests[r].token].user == user;
      ComebackWorks(e, r);
      assert NoLogin(Comeback(e, r), user);
    } else {
      forall ops | NoLogin(ops, user)
        ensures LoggedOut(Run(e, ops), user)
      {
        StaysOut(e, ops, user);
      }
    }
  }
}
