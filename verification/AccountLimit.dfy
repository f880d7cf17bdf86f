/**
 * Five active accounts a trader: creating transactions that lock, count, insert and
 * commit, in any interleaving with each other and with steps that free slots. A statement
 * sees what is committed when it runs, and its own transaction's rows.
 */
module AccountLimit {
  import opened Common

  const MAX_ACTIVE_ACCOUNTS: nat := 5

  datatype AccountType = EVALUATION | FUNDED_SIM | OTHER_TYPE
  datatype Status = ACTIVE | PENDING | TERMINAL

  datatype Account = Account(user: string, accountType: AccountType, status: Status, archived: bool)

  predicate ConsumesSlot(a: Account) {
    (a.accountType == EVALUATION || a.accountType == FUNDED_SIM)
    && (a.status == ACTIVE || a.status == PENDING)
    && !a.archived
  }

  type Accounts = map<nat, Account>

  function Slots(accounts: Accounts, user: string): set<nat> {
    set id | id in accounts && accounts[id].user == user && ConsumesSlot(accounts[id])
  }

  /** Written out: a trader's evaluations and funded simulations that are active or pending and not archived. */
  function ActiveAccounts(rows: Accounts, user: string): set<nat> {
    set id | id in rows && rows[id].user == user && rows[id].accountType != OTHER_TYPE
             && rows[id].status != TERMINAL && rows[id].archived == false
  }

  lemma SlotsSpelled(rows: Accounts, user: string)
    ensures Slots(rows, user) == ActiveAccounts(rows, user)
  {
  }

  /** A transaction: whom it creates for, whether its last count left room, what it has inserted. */
  datatype Tx = Tx(user: string, cleared: bool, inserted: Accounts)

  /** `locks` says which transaction holds an advisory lock; users with equal keys share one. */
  datatype State = State(committed: Accounts, txs: map<nat, Tx>, locks: map<int, nat>)

  const START := State(map[], map[], map[])

  datatype Op =
    | Begin(t: nat, user: string)
    | Lock(t: nat)
    | Count(t: nat)
    | Insert(t: nat, id: nat, account: Account)
    | InsertUnchecked(t: nat, id: nat, account: Account)
    | Commit(t: nat)
    | Abort(t: nat)
    | Release(id: nat, account: Account)

  /** The lock key of a user: a truncated hash, so different users may collide. */
  type Keys = string -> int

  predicate Holds(keys: Keys, s: State, t: nat) {
    t in s.txs && keys(s.txs[t].user) in s.locks && s.locks[keys(s.txs[t].user)] == t
  }

  /** What a statement of transaction `t` sees. */
  function Visible(s: State, t: nat): Accounts
    requires t in s.txs
  {
    s.committed + s.txs[t].inserted
  }

  predicate FreshId(s: State, id: nat) {
    id !in s.committed && forall t | t in s.txs :: id !in s.txs[t].inserted
  }

  /** A committed change that takes no slot: the owner stays, and no account starts to count. */
  predicate Frees(s: State, id: nat, account: Account) {
    id in s.committed && account.user == s.committed[id].user
    && (ConsumesSlot(account) ==> ConsumesSlot(s.committed[id]))
  }

  predicate Enabled(keys: Keys, s: State, op: Op) {
    match op
    case Begin(t, user) => t !in s.txs
    case Lock(t) => t in s.txs && (keys(s.txs[t].user) in s.locks ==> s.locks[keys(s.txs[t].user)] == t)
    case Count(t) => Holds(keys, s, t)
    case Insert(t, id, account) => t in s.txs && s.txs[t].cleared && account.user == s.txs[t].user && FreshId(s, id)
    case InsertUnchecked(t, id, account) => t in s.txs && account.user == s.txs[t].user && FreshId(s, id)
    case Commit(t) => t in s.txs
    case Abort(t) => t in s.txs
    case Release(id, account) => Frees(s, id, account)
  }

  /** A transaction that ends lets go of its locks. */
  function Ended(s: State, t: nat): State {
    s.(txs := s.txs - {t}, locks := map k | k in s.locks && s.locks[k] != t :: s.locks[k])
  }

  function Inserted(s: State, t: nat, id: nat, account: Account): State
    requires t in s.txs
  {
    s.(txs := s.txs[t := s.txs[t].(cleared := false, inserted := s.txs[t].inserted[id := account])])
  }

  /** One step; a step that is not enabled has to wait and changes nothing. */
  function Step(keys: Keys, s: State, op: Op): State {
    if !Enabled(keys, s, op) then s
    else
      match op
      case Begin(t, user) => s.(txs := s.txs[t := Tx(user, false, map[])])
      case Lock(t) => s.(locks := s.locks[keys(s.txs[t].user) := t])
      case Count(t) =>
        // At the limit the check throws, and the transaction rolls back.
        if |Slots(Visible(s, t), s.txs[t].user)| >= MAX_ACTIVE_ACCOUNTS then Ended(s, t)
        else s.(txs := s.txs[t := s.txs[t].(cleared := true)])
      case Insert(t, id, account) => Inserted(s, t, id, account)
      case InsertUnchecked(t, id, account) => Inserted(s, t, id, account)
      case Commit(t) => Ended(s.(committed := Visible(s, t)), t)
      case Abort(t) => Ended(s, t)
      case Release(id, account) => s.(committed := s.committed[id := account])
  }

  function Run(keys: Keys, s: State, ops: seq<Op>): State {
    if ops == [] then s else Step(keys, Run(keys, s, ops[..|ops| - 1]), ops[|ops| - 1])
  }

  predicate Checked(ops: seq<Op>) {
    forall i | 0 <= i < |ops| :: !ops[i].InsertUnchecked?
  }

  /** One more row looked at: it counts or it does not. */
  lemma CountOne(rows: Accounts, user: string, left: set<nat>, id: nat)
    requires left <= rows.Keys && id in left
    ensures |Slots(rows, user) - (left - {id})|
            == |Slots(rows, user) - left| + if rows[id].user == user && ConsumesSlot(rows[id]) then 1 else 0
  {
    var slots := Slots(rows, user);
    if id in slots {
      assert slots - (left - {id}) == (slots - left) + {id};
    } else {
      assert slots - (left - {id}) == slots - left;
    }
  }

  /** The guard as a creating transaction calls it, once its lock is granted. */
  class AccountDb {
    var state: State
    const keys: Keys

    constructor (keys: Keys)
      ensures state == START && this.keys == keys
    {
      state := START;
      this.keys := keys;
    }

    method CountActiveAccounts(t: nat, user: string) returns (n: nat)
      requires t in state.txs
      ensures n == |Slots(Visible(state, t), user)|
      ensures n == |ActiveAccounts(state.committed + state.txs[t].inserted, user)|
    {
      var rows := Visible(state, t);
      var left := rows.Keys;
      n := 0;
      while left != {}
        invariant left <= rows.Keys && n == |Slots(rows, user) - left|
        decreases left
      {
        var id :| id in left;
        CountOne(rows, user, left, id);
        var a := rows[id];
        left := left - {id};
        if a.user == user && (a.accountType == EVALUATION || a.accountType == FUNDED_SIM)
           && (a.status == ACTIVE || a.status == PENDING) && !a.archived {
          n := n + 1;
        }
      }
      assert Slots(rows, user) - {} == Slots(rows, user);
      SlotsSpelled(rows, user);
    }

    /** Some(current) is the error thrown at the limit, after which the transaction is gone. */
    method AssertActiveSlotAvailable(t: nat) returns (error: Option<nat>)
      requires Enabled(keys, state, Lock(t))
      modifies this`state
      ensures state == Step(keys, Step(keys, old(state), Lock(t)), Count(t))
      ensures error == var used := |Slots(Visible(old(state), t), old(state).txs[t].user)|;
                       if used >= 5 then Some(used) else None
      ensures error.None? <==> t in state.txs && state.txs[t].cleared
    {
      var user := state.txs[t].user;
      state := state.(locks := state.locks[keys(user) := t]);
      var current := CountActiveAccounts(t, user);
      if current >= MAX_ACTIVE_ACCOUNTS {
        state := Ended(state, t);
        return Some(current);
      }
      state := state.(txs := state.txs[t := state.txs[t].(cleared := true)]);
      return None;
    }
  }

  // ---------------------------------------------------------------- the invariant

  /** A transaction with room left or rows of its own is the one that holds its user's lock. */
  ghost predicate Guarded(keys: Keys, s: State) {
    && (forall t | t in s.txs :: s.txs[t].cleared || s.txs[t].inserted != map[] ==> Holds(keys, s, t))
    && forall t, id | t in s.txs && id in s.txs[t].inserted :: s.txs[t].inserted[id].user == s.txs[t].user
  }

  /** Rows not yet committed have ids of their own. */
  ghost predicate Apart(s: State) {
    && (forall t, id | t in s.txs && id in s.txs[t].inserted :: id !in s.committed)
    && forall t, u, id | t in s.txs && u in s.txs && t != u && id in s.txs[t].inserted :: id !in s.txs[u].inserted
  }

  /** The slots of its trader that a transaction sees taken, and the one it was promised. */
  function Reserved(s: State, t: nat): nat
    requires t in s.txs
  {
    |Slots(Visible(s, t), s.txs[t].user)| + if s.txs[t].cleared then 1 else 0
  }

  /** What a transaction has and may still insert fits in the limit. */
  predicate Fits(s: State, t: nat)
    requires t in s.txs
  {
    Reserved(s, t) <= MAX_ACTIVE_ACCOUNTS
  }

  ghost predicate Limited(s: State) {
    && (forall user :: |Slots(s.committed, user)| <= MAX_ACTIVE_ACCOUNTS)
    && forall t | t in s.txs :: Fits(s, t)
  }

  ghost predicate Inv(keys: Keys, s: State) {
    Guarded(keys, s) && Apart(s) && Limited(s)
  }

  lemma SubsetSize<T>(a: set<T>, b: set<T>)
    requires a <= b
    ensures |a| <= |b|
  {
    var rest := b - a;
    assert b == a + rest;
  }

  lemma OneMoreSlot(accounts: Accounts, id: nat, account: Account, user: string)
    ensures |Slots(accounts[id := account], user)| <= |Slots(accounts, user)| + 1
    ensures account.user != user && (id !in accounts || accounts[id].user != user)
            ==> Slots(accounts[id := account], user) == Slots(accounts, user)
  {
    SubsetSize(Slots(accounts[id := account], user), Slots(accounts, user) + {id});
  }

  lemma FewerSlots(s: State, id: nat, account: Account, user: string)
    requires Frees(s, id, account)
    ensures |Slots(s.committed[id := account], user)| <= |Slots(s.committed, user)|
  {
    SubsetSize(Slots(s.committed[id := account], user), Slots(s.committed, user));
  }

  /** Ending a transaction without commit takes nothing from the others. */
  lemma EndedKeepsInv(keys: Keys, s: State, t: nat)
    requires Inv(keys, s) && t in s.txs
    ensures Inv(keys, Ended(s, t))
  {
    var e := Ended(s, t);
    forall u | u in e.txs
      ensures Fits(e, u)
      ensures s.txs[u].cleared || s.txs[u].inserted != map[] ==> Holds(keys, e, u)
    {
      SameView(s, e, u);
    }
  }

  lemma CountKeepsInv(keys: Keys, s: State, t: nat)
    requires Inv(keys, s) && Enabled(keys, s, Count(t))
    ensures Inv(keys, Step(keys, s, Count(t)))
  {
    if |Slots(Visible(s, t), s.txs[t].user)| >= MAX_ACTIVE_ACCOUNTS {
      EndedKeepsInv(keys, s, t);
    } else {
      var e := Step(keys, s, Count(t));
      forall u | u in e.txs
        ensures Fits(e, u)
      {
        if u != t { SameView(s, e, u); } else { assert Visible(e, t) == Visible(s, t); }
      }
    }
  }

  lemma InsertFits(s: State, t: nat, id: nat, account: Account)
    requires t in s.txs && Fits(s, t) && s.txs[t].cleared
    ensures Fits(Inserted(s, t, id, account), t)
  {
    var e := Inserted(s, t, id, account);
    assert Visible(e, t) == Visible(s, t)[id := account];
    OneMoreSlot(Visible(s, t), id, account, s.txs[t].user);
  }

  /** What a transaction sees depends on the committed rows and its own. */
  lemma SameView(s: State, e: State, u: nat)
    requires u in s.txs && u in e.txs && s.txs[u] == e.txs[u] && s.committed == e.committed && Fits(s, u)
    ensures Fits(e, u)
  {
  }

  lemma InsertKeepsInv(keys: Keys, s: State, t: nat, id: nat, account: Account)
    requires Inv(keys, s) && Enabled(keys, s, Insert(t, id, account))
    ensures Inv(keys, Inserted(s, t, id, account))
  {
    var e := Inserted(s, t, id, account);
    InsertGuarded(keys, s, t, id, account);
    InsertFits(s, t, id, account);
    forall u | u in e.txs
      ensures Fits(e, u)
    {
      if u != t { SameView(s, e, u); }
    }
  }

  lemma InsertGuarded(keys: Keys, s: State, t: nat, id: nat, account: Account)
    requires Guarded(keys, s) && Apart(s) && Enabled(keys, s, Insert(t, id, account))
    ensures Guarded(keys, Inserted(s, t, id, account)) && Apart(Inserted(s, t, id, account))
  {
    var e := Inserted(s, t, id, account);
    assert forall u | u in e.txs && u != t :: e.txs[u] == s.txs[u];
    assert forall k | k in e.txs[t].inserted :: k == id || k in s.txs[t].inserted;
  }

  /** While one transaction holds the lock of a user, no other has anything of that user's in hand. */
  lemma OthersEmpty(keys: Keys, s: State, t: nat, u: nat)
    requires Guarded(keys, s) && Holds(keys, s, t) && u in s.txs && u != t && s.txs[u].user == s.txs[t].user
    ensures !s.txs[u].cleared && s.txs[u].inserted == map[]
  {
  }

  lemma CommitKeepsInv(keys: Keys, s: State, t: nat)
    requires Inv(keys, s) && t in s.txs
    ensures Inv(keys, Step(keys, s, Commit(t)))
  {
    if s.txs[t].inserted == map[] {
      assert Visible(s, t) == s.committed;
      EndedKeepsInv(keys, s, t);
    } else {
      var e := Step(keys, s, Commit(t));
      var owner := s.txs[t].user;
      forall user
        ensures |Slots(e.committed, user)| <= MAX_ACTIVE_ACCOUNTS
      {
        assert Fits(s, t);
        if user != owner { OtherUsersSlots(s, t, s.committed, user); }
      }
      forall u | u in e.txs
        ensures Fits(e, u)
      {
        CommitFits(keys, s, t, u);
      }
      CommitApart(keys, s, t);
    }
  }

  lemma OtherUsersSlots(s: State, t: nat, base: Accounts, user: string)
    requires t in s.txs && user != s.txs[t].user
    requires forall id | id in s.txs[t].inserted :: s.txs[t].inserted[id].user == s.txs[t].user && id !in base
    ensures Slots(base + s.txs[t].inserted, user) == Slots(base, user)
  {
  }

  lemma CommitFits(keys: Keys, s: State, t: nat, u: nat)
    requires Inv(keys, s) && t in s.txs && s.txs[t].inserted != map[] && u in s.txs && u != t
    ensures Fits(Step(keys, s, Commit(t)), u)
  {
    CommitEffect(keys, s, t, u);
    if s.txs[u].user == s.txs[t].user {
      OthersEmpty(keys, s, t, u);
      assert Visible(s, t) + map[] == Visible(s, t);
      assert Fits(s, t);
    } else {
      StrangersSlots(s.committed, s.txs[t].inserted, s.txs[u].inserted, s.txs[u].user);
      assert Fits(s, u);
    }
  }

  lemma CommitEffect(keys: Keys, s: State, t: nat, u: nat)
    requires t in s.txs && u in s.txs && u != t
    ensures var e := Step(keys, s, Commit(t));
            u in e.txs && e.txs[u] == s.txs[u] && Visible(e, u) == Visible(s, t) + s.txs[u].inserted
  {
  }

  /** Rows of another owner do not count. */
  lemma StrangersSlots(base: Accounts, others: Accounts, own: Accounts, user: string)
    requires forall id | id in others :: others[id].user != user
    ensures |Slots(base + others + own, user)| <= |Slots(base + own, user)|
  {
    SubsetSize(Slots(base + others + own, user), Slots(base + own, user));
  }

  lemma CommitApart(keys: Keys, s: State, t: nat)
    requires Inv(keys, s) && t in s.txs
    ensures Apart(Step(keys, s, Commit(t)))
    ensures Guarded(keys, Step(keys, s, Commit(t)))
  {
  }

  lemma ReleaseKeepsInv(keys: Keys, s: State, id: nat, account: Account)
    requires Inv(keys, s) && Frees(s, id, account)
    ensures Inv(keys, Step(keys, s, Release(id, account)))
  {
    var e := Step(keys, s, Release(id, account));
    forall user
      ensures |Slots(e.committed, user)| <= MAX_ACTIVE_ACCOUNTS
    {
      FewerSlots(s, id, account, user);
    }
    forall t | t in e.txs
      ensures Fits(e, t)
    {
      assert Fits(s, t);
      ReleaseView(s, id, account, s.txs[t].inserted, s.txs[t].user);
    }
  }

  lemma ReleaseView(s: State, id: nat, account: Account, own: Accounts, user: string)
    requires Frees(s, id, account)
    ensures |Slots(s.committed[id := account] + own, user)| <= |Slots(s.committed + own, user)|
  {
    SubsetSize(Slots(s.committed[id := account] + own, user), Slots(s.committed + own, user));
  }

  lemma BeginKeepsInv(keys: Keys, s: State, t: nat, user: string)
    requires Inv(keys, s) && t !in s.txs
    ensures Inv(keys, Step(keys, s, Begin(t, user)))
  {
    var e := Step(keys, s, Begin(t, user));
    BeginGuarded(keys, s, t, user);
    BeginFits(keys, s, t, user);
    forall u | u in e.txs
      ensures Fits(e, u)
    {
      if u != t { SameView(s, e, u); }
    }
  }

  lemma BeginGuarded(keys: Keys, s: State, t: nat, user: string)
    requires Guarded(keys, s) && Apart(s) && t !in s.txs
    ensures Guarded(keys, Step(keys, s, Begin(t, user))) && Apart(Step(keys, s, Begin(t, user)))
  {
    var e := Step(keys, s, Begin(t, user));
    assert forall u | u in e.txs :: u == t || e.txs[u] == s.txs[u];
  }

  lemma BeginFits(keys: Keys, s: State, t: nat, user: string)
    requires |Slots(s.committed, user)| <= MAX_ACTIVE_ACCOUNTS && t !in s.txs
    ensures Fits(Step(keys, s, Begin(t, user)), t)
  {
    assert Visible(Step(keys, s, Begin(t, user)), t) == s.committed;
  }

  lemma LockKeepsInv(keys: Keys, s: State, t: nat)
    requires Inv(keys, s) && Enabled(keys, s, Lock(t))
    ensures Inv(keys, Step(keys, s, Lock(t)))
  {
    var e := Step(keys, s, Lock(t));
    forall u | u in e.txs
      ensures Fits(e, u)
    {
      SameView(s, e, u);
    }
  }

  lemma StepKeepsInv(keys: Keys, s: State, op: Op)
    requires Inv(keys, s) && !op.InsertUnchecked?
    ensures Inv(keys, Step(keys, s, op))
  {
    if Enabled(keys, s, op) {
      match op
      case Begin(t, user) => BeginKeepsInv(keys, s, t, user);
      case Lock(t) => LockKeepsInv(keys, s, t);
      case Count(t) => CountKeepsInv(keys, s, t);
      case Insert(t, id, account) => InsertKeepsInv(keys, s, t, id, account);
      case Commit(t) => CommitKeepsInv(keys, s, t);
      case Abort(t) => EndedKeepsInv(keys, s, t);
      case Release(id, account) => ReleaseKeepsInv(keys, s, id, account);
    }
  }

  lemma {:induction false} RunKeepsInv(keys: Keys, s: State, ops: seq<Op>)
    requires Inv(keys, s) && Checked(ops)
    ensures Inv(keys, Run(keys, s, ops))
  {
    if ops != [] {
      RunKeepsInv(keys, s, ops[..|ops| - 1]);
      StepKeepsInv(keys, Run(keys, s, ops[..|ops| - 1]), ops[|ops| - 1]);
    }
  }

  lemma StartIsFine(keys: Keys)
    ensures Inv(keys, START)
  {
    assert forall user :: Slots(START.committed, user) == {};
  }

  /**
   * Never a sixth: after any interleaving of checked creations, rollbacks and
   * slot-freeing changes, each trader's committed active accounts together with what
   * any one transaction is about to commit for them are at most five.
   */
  lemma NeverASixth(keys: Keys, ops: seq<Op>, user: string)
    requires Checked(ops)
    ensures var s := Run(keys, START, ops);
            && |ActiveAccounts(s.committed, user)| <= 5
            && forall t | t in s.txs && s.txs[t].user == user :: |ActiveAccounts(s.committed + s.txs[t].inserted, user)| <= 5
  {
    StartIsFine(keys);
    RunKeepsInv(keys, START, ops);
    var s := Run(keys, START, ops);
    SlotsSpelled(s.committed, user);
    forall t | t in s.txs && s.txs[t].user == user
      ensures |ActiveAccounts(s.committed + s.txs[t].inserted, user)| <= 5
    {
      assert Fits(s, t);
      SlotsSpelled(Visible(s, t), user);
    }
  }

  /** At most one transaction at a time has rows in hand for one trader. */
  lemma OneCreatorAtATime(keys: Keys, ops: seq<Op>, t: nat, u: nat)
    requires Checked(ops)
    ensures var s := Run(keys, START, ops);
            t in s.txs && u in s.txs && s.txs[t].user == s.txs[u].user
            && s.txs[t].inserted != map[] && s.txs[u].inserted != map[]
            ==> t == u
  {
    StartIsFine(keys);
    RunKeepsInv(keys, START, ops);
  }

  // ---------------------------------------------------------------- creations that skip the check

  /** Begin, insert and commit for a trader without the check. */
  function GrantOps(t: nat, id: nat, account: Account): seq<Op> {
    [Begin(t, account.user), InsertUnchecked(t, id, account), Commit(t)]
  }

  lemma RunThree(keys: Keys, s: State, a: Op, b: Op, c: Op)
    ensures Run(keys, s, [a, b, c]) == Step(keys, Step(keys, Step(keys, s, a), b), c)
  {
    assert [a, b, c][..2] == [a, b] && [a, b][..1] == [a] && [a][..0] == [];
    assert Run(keys, s, [a]) == Step(keys, s, a);
    assert Run(keys, s, [a, b]) == Step(keys, Run(keys, s, [a]), b);
  }

  /** A grant adds its account and leaves every open transaction and its lock alone. */
  lemma GrantAdds(keys: Keys, s: State, t: nat, id: nat, account: Account)
    requires t !in s.txs && FreshId(s, id)
    ensures var e := Run(keys, s, GrantOps(t, id, account));
            && e.committed == s.committed[id := account] && e.txs == s.txs
            && forall k | k in s.locks && s.locks[k] != t :: k in e.locks && e.locks[k] == s.locks[k]
  {
    var ops := GrantOps(t, id, account);
    RunThree(keys, s, ops[0], ops[1], ops[2]);
    var s1 := Step(keys, s, ops[0]);
    var s2 := Step(keys, s1, ops[1]);
    assert s2.txs[t].inserted == map[id := account];
    assert s2.txs - {t} == s.txs;
  }

  lemma OneSlotMore(accounts: Accounts, id: nat, account: Account)
    requires id !in accounts && ConsumesSlot(account)
    ensures |Slots(accounts[id := account], account.user)| == |Slots(accounts, account.user)| + 1
    ensures forall user | user != account.user :: Slots(accounts[id := account], user) == Slots(accounts, user)
  {
    assert Slots(accounts[id := account], account.user) == Slots(accounts, account.user) + {id};
    forall user | user != account.user
      ensures Slots(accounts[id := account], user) == Slots(accounts, user)
    {
      OneMoreSlot(accounts, id, account, user);
    }
  }

  /** There is a slot left in the table, and in what every open creation of the trader has reserved. */
  predicate RoomFor(s: State, user: string) {
    && |Slots(s.committed, user)| < MAX_ACTIVE_ACCOUNTS
    && forall t | t in s.txs && s.txs[t].user == user :: Reserved(s, t) < MAX_ACTIVE_ACCOUNTS
  }

  /** Whatever checked creations and slot-freeing steps still follow, nobody gets a sixth account. */
  ghost predicate StaysWithin(keys: Keys, s: State) {
    forall ops, user | Checked(ops) :: |Slots(Run(keys, s, ops).committed, user)| <= MAX_ACTIVE_ACCOUNTS
  }

  /** What an open transaction sees after the grant. */
  lemma GrantSeen(keys: Keys, s: State, t: nat, id: nat, account: Account, u: nat)
    requires t !in s.txs && FreshId(s, id) && ConsumesSlot(account) && u in s.txs
    ensures var e := Run(keys, s, GrantOps(t, id, account));
            && u in e.txs && Visible(e, u) == Visible(s, u)[id := account]
            && Reserved(e, u) == Reserved(s, u) + if s.txs[u].user == account.user then 1 else 0
  {
    GrantAdds(keys, s, t, id, account);
    assert s.committed[id := account] + s.txs[u].inserted == Visible(s, u)[id := account];
    OneSlotMore(Visible(s, u), id, account);
  }

  lemma GrantKeepsInv(keys: Keys, s: State, t: nat, id: nat, account: Account)
    requires Inv(keys, s) && t !in s.txs && FreshId(s, id) && ConsumesSlot(account) && RoomFor(s, account.user)
    ensures Inv(keys, Run(keys, s, GrantOps(t, id, account)))
  {
    var e := Run(keys, s, GrantOps(t, id, account));
    GrantAdds(keys, s, t, id, account);
    OneSlotMore(s.committed, id, account);
    forall user
      ensures |Slots(e.committed, user)| <= MAX_ACTIVE_ACCOUNTS
    {
      if user != account.user { assert Slots(e.committed, user) == Slots(s.committed, user); }
    }
    forall u | u in e.txs
      ensures Fits(e, u)
    {
      GrantSeen(keys, s, t, id, account, u);
      assert Fits(s, u);
    }
    GrantGuarded(keys, s, t, id, account);
  }

  lemma GrantGuarded(keys: Keys, s: State, t: nat, id: nat, account: Account)
    requires Guarded(keys, s) && Apart(s) && t !in s.txs && FreshId(s, id)
    ensures Guarded(keys, Run(keys, s, GrantOps(t, id, account)))
    ensures Apart(Run(keys, s, GrantOps(t, id, account)))
  {
    GrantAdds(keys, s, t, id, account);
    var e := Run(keys, s, GrantOps(t, id, account));
    forall u | u in e.txs && (e.txs[u].cleared || e.txs[u].inserted != map[])
      ensures Holds(keys, e, u)
    {
      assert Holds(keys, s, u);
      var k := keys(s.txs[u].user);
      assert k in s.locks && s.locks[k] != t;
    }
  }

  /** Some id that no row has, committed or not. */
  function UnusedId(s: State): (id: nat)
    ensures FreshId(s, id)
  {
    var ids := s.committed.Keys + set t, id | t in s.txs && id in s.txs[t].inserted :: id;
    Unused(ids)
  }

  /** What an open creation whose reservations are full may still do after the grant. */
  function Finish(e: State, u: nat, account: Account): seq<Op>
    requires u in e.txs
  {
    if e.txs[u].cleared then [Insert(u, UnusedId(e), account), Commit(u)] else [Commit(u)]
  }

  lemma FinishCommits(keys: Keys, e: State, u: nat, account: Account)
    requires u in e.txs && e.txs[u].user == account.user && ConsumesSlot(account)
    ensures Checked(Finish(e, u, account))
    ensures |Slots(Run(keys, e, Finish(e, u, account)).committed, account.user)| == Reserved(e, u)
  {
    var ops := Finish(e, u, account);
    if e.txs[u].cleared {
      RunTwo(keys, e, ops[0], ops[1]);
      InsertedSeen(e, u, UnusedId(e), account);
    } else {
      assert ops[..0] == [];
      assert Run(keys, e, ops) == Step(keys, Run(keys, e, []), Commit(u));
    }
  }

  lemma InsertedSeen(e: State, u: nat, id: nat, account: Account)
    requires u in e.txs && e.txs[u].user == account.user && ConsumesSlot(account) && FreshId(e, id)
    ensures |Slots(Visible(Inserted(e, u, id, account), u), account.user)| == |Slots(Visible(e, u), account.user)| + 1
  {
    assert Visible(Inserted(e, u, id, account), u) == Visible(e, u)[id := account];
    OneSlotMore(Visible(e, u), id, account);
  }

  lemma RunTwo(keys: Keys, s: State, a: Op, b: Op)
    ensures Run(keys, s, [a, b]) == Step(keys, Step(keys, s, a), b)
  {
    assert [a, b][..1] == [a] && [a][..0] == [];
    assert Run(keys, s, [a]) == Step(keys, Run(keys, s, []), a);
  }

  lemma StaysLimited(keys: Keys, s: State, ops: seq<Op>, user: string)
    requires Inv(keys, s) && Checked(ops)
    ensures |Slots(Run(keys, s, ops).committed, user)| <= MAX_ACTIVE_ACCOUNTS
  {
    RunKeepsInv(keys, s, ops);
  }

  /**
   * A creation that skips the check leaves everyone within the limit, whatever follows,
   * exactly when there was room for it in the table and in every open creation of the trader.
   */
  lemma UncheckedCreationFitsIffRoom(keys: Keys, s: State, t: nat, id: nat, account: Account)
    requires Inv(keys, s) && t !in s.txs && FreshId(s, id) && ConsumesSlot(account)
    ensures StaysWithin(keys, Run(keys, s, GrantOps(t, id, account))) <==> RoomFor(s, account.user)
  {
    var e := Run(keys, s, GrantOps(t, id, account));
    if RoomFor(s, account.user) {
      GrantKeepsInv(keys, s, t, id, account);
      forall ops, user | Checked(ops)
        ensures |Slots(Run(keys, e, ops).committed, user)| <= MAX_ACTIVE_ACCOUNTS
      {
        StaysLimited(keys, e, ops, user);
      }
    } else if |Slots(s.committed, account.user)| >= MAX_ACTIVE_ACCOUNTS {
      GrantAdds(keys, s, t, id, account);
      OneSlotMore(s.committed, id, account);
      assert |Slots(Run(keys, e, []).committed, account.user)| > MAX_ACTIVE_ACCOUNTS;
    } else {
      var u :| u in s.txs && s.txs[u].user == account.user && Reserved(s, u) >= MAX_ACTIVE_ACCOUNTS;
      GrantAdds(keys, s, t, id, account);
      GrantSeen(keys, s, t, id, account, u);
      FinishCommits(keys, e, u, account);
      assert |Slots(Run(keys, e, Finish(e, u, account)).committed, account.user)| > MAX_ACTIVE_ACCOUNTS;
    }
  }

  // ---------------------------------------------------------------- how a sixth account comes about

  /** Everything a checked creation does, and the part of it up to the check. */
  function CheckOps(t: nat, user: string): seq<Op> { [Begin(t, user), Lock(t), Count(t)] }

  function CreateOps(t: nat, id: nat, account: Account): seq<Op> {
    CheckOps(t, account.user) + [Insert(t, id, account), Commit(t)]
  }

  lemma {:induction false} RunAppend(keys: Keys, s: State, a: seq<Op>, b: seq<Op>)
    ensures Run(keys, s, a + b) == Run(keys, Run(keys, s, a), b)
    decreases |b|
  {
    if b == [] {
      assert a + b == a;
    } else {
      RunAppend(keys, s, a, b[..|b| - 1]);
      assert (a + b)[..|a + b| - 1] == a + b[..|b| - 1];
    }
  }

  /** On an idle database with room the check clears its transaction. */
  lemma CheckClears(keys: Keys, committed: Accounts, t: nat, user: string)
    requires |Slots(committed, user)| < MAX_ACTIVE_ACCOUNTS
    ensures Run(keys, State(committed, map[], map[]), CheckOps(t, user))
            == State(committed, map[t := Tx(user, true, map[])], map[keys(user) := t])
  {
    var s, ops := State(committed, map[], map[]), CheckOps(t, user);
    RunThree(keys, s, ops[0], ops[1], ops[2]);
    var s2 := Step(keys, Step(keys, s, ops[0]), ops[1]);
    assert s2 == State(committed, map[t := Tx(user, false, map[])], map[keys(user) := t]);
    assert Visible(s2, t) == committed;
  }

  lemma InsertThenCommit(keys: Keys, s: State, t: nat, id: nat, account: Account)
    requires t in s.txs && s.txs[t].cleared && s.txs[t].inserted == map[] && account.user == s.txs[t].user && FreshId(s, id)
    ensures Run(keys, s, [Insert(t, id, account), Commit(t)]) == Ended(s.(committed := s.committed[id := account]), t)
  {
    RunTwo(keys, s, Insert(t, id, account), Commit(t));
    var s1 := Step(keys, s, Insert(t, id, account));
    assert Visible(s1, t) == s.committed[id := account];
    assert s1.txs - {t} == s.txs - {t};
  }

  lemma CreateAdds(keys: Keys, committed: Accounts, t: nat, id: nat, account: Account)
    requires |Slots(committed, account.user)| < MAX_ACTIVE_ACCOUNTS && id !in committed
    ensures Run(keys, State(committed, map[], map[]), CreateOps(t, id, account))
            == State(committed[id := account], map[], map[])
  {
    var s := State(committed, map[], map[]);
    CheckClears(keys, committed, t, account.user);
    RunAppend(keys, s, CheckOps(t, account.user), [Insert(t, id, account), Commit(t)]);
    InsertThenCommit(keys, Run(keys, s, CheckOps(t, account.user)), t, id, account);
  }

  /** Four creations, and a fifth that has come as far as its count. */
  function FourAndAHalf(account: Account): seq<Op> {
    CreateOps(0, 0, account) + CreateOps(0, 1, account) + CreateOps(0, 2, account) + CreateOps(0, 3, account)
    + CheckOps(1, account.user)
  }

  lemma FourAndAHalfRuns(keys: Keys, account: Account)
    requires ConsumesSlot(account)
    ensures var rows := map[0 := account, 1 := account, 2 := account, 3 := account];
            && Run(keys, START, FourAndAHalf(account))
               == State(rows, map[1 := Tx(account.user, true, map[])], map[keys(account.user) := 1])
            && |Slots(rows, account.user)| == 4
  {
    var c0, c1, c2, c3 := CreateOps(0, 0, account), CreateOps(0, 1, account), CreateOps(0, 2, account), CreateOps(0, 3, account);
    var r1: Accounts := map[0 := account];
    var r2: Accounts := r1[1 := account];
    var r3: Accounts := r2[2 := account];
    var r4: Accounts := r3[3 := account];
    assert Slots(map[], account.user) == {};
    OneSlotMore(map[], 0, account);
    OneSlotMore(r1, 1, account);
    OneSlotMore(r2, 2, account);
    OneSlotMore(r3, 3, account);
    CreateAdds(keys, map[], 0, 0, account);
    CreateAdds(keys, r1, 0, 1, account);
    CreateAdds(keys, r2, 0, 2, account);
    CreateAdds(keys, r3, 0, 3, account);
    CheckClears(keys, r4, 1, account.user);
    RunAppend(keys, START, c0, c1);
    RunAppend(keys, START, c0 + c1, c2);
    RunAppend(keys, START, c0 + c1 + c2, c3);
    RunAppend(keys, START, c0 + c1 + c2 + c3, CheckOps(1, account.user));
    assert r4 == map[0 := account, 1 := account, 2 := account, 3 := account];
  }

  /**
   * A free slot in the table is not enough. With four accounts committed and a checked
   * creation past its count, an unchecked one still finds room; both commit, and the
   * trader has six.
   */
  lemma FreeSlotIsNotEnough(keys: Keys, account: Account)
    requires ConsumesSlot(account)
    ensures var user := account.user;
            var s := Run(keys, START, FourAndAHalf(account));
            var granted := Run(keys, s, GrantOps(2, 4, account));
            var both := Run(keys, granted, [Insert(1, 5, account), Commit(1)]);
            && Checked(FourAndAHalf(account)) && Inv(keys, s)
            && |Slots(s.committed, user)| == 4 && !RoomFor(s, user)
            && |Slots(granted.committed, user)| == 5
            && |Slots(both.committed, user)| == 6
  {
    FourAndAHalfRuns(keys, account);
    FourAndAHalfIsFine(keys, account);
    var s := Run(keys, START, FourAndAHalf(account));
    GrantAdds(keys, s, 2, 4, account);
    OneSlotMore(s.committed, 4, account);
    var granted := Run(keys, s, GrantOps(2, 4, account));
    InsertThenCommit(keys, granted, 1, 5, account);
    OneSlotMore(granted.committed, 5, account);
  }

  lemma FourAndAHalfIsFine(keys: Keys, account: Account)
    requires ConsumesSlot(account)
    ensures var s := Run(keys, START, FourAndAHalf(account));
            Checked(FourAndAHalf(account)) && Inv(keys, s) && !RoomFor(s, account.user)
  {
    FourAndAHalfRuns(keys, account);
    StartIsFine(keys);
    RunKeepsInv(keys, START, FourAndAHalf(account));
    var s := Run(keys, START, FourAndAHalf(account));
    assert Visible(s, 1) == s.committed;
    assert Reserved(s, 1) == 5;
  }
}
