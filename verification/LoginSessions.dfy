/**
 Remote login sessions: short-lived grants that hold an account in CONNECTING
 and put its status back when they are cancelled or found expired. Expiry is
 lazy: it is written by whichever later operation looks at the session, and
 only if that operation's transaction commits.
 */
module LoginSessions {
  import opened Options
  import opened Transitions

  type SessionId = nat  // sessions are appended, so a session's id is its index
  type Token = string   // the stored hash is idealised as injective

  /** DEFAULT_LOGIN_TTL in seconds. */
  const MAX_TTL: int := 900

  datatype SessionStatus = LoginPending | LoginActive | LoginCompleted | LoginExpired | LoginCancelled

  datatype CloseReason = ByOperator | ByExpiry

  datatype Session = Session(account: AccountId, status: SessionStatus, prior: AccountStatus, token: Token,
                             expiresAt: int, reason: Option<CloseReason>)

  datatype Account = Account(status: AccountStatus, reason: Option<CloseReason>)

  datatype Rows = Rows(accounts: map<AccountId, Account>, sessions: seq<Session>)

  datatype Op =
    | Create(account: AccountId, ttl: int, profileCheck: bool, issued: Token)
    | Activate(session: SessionId, token: Token)
    | Status(session: SessionId)
    | Cancel(session: SessionId)
    | Complete(session: SessionId)

  /**
   A committed transaction with its reply; a LoginSessionError, which rolls
   back; or an exception from `require_transition` or from an assertion, which
   rolls back too and must never happen.
   */
  datatype Result = Done(rows: Rows, reply: Option<SessionStatus>) | Refused | Broken

  predicate Open(s: Session) {
    s.status.LoginPending? || s.status.LoginActive?
  }

  /******* Transactions *******/

  /** `_restore_account`; None when it raises. */
  function Restore(rows: Rows, s: Session): Option<Rows> {
    if s.account !in rows.accounts then None
    else
      var current := rows.accounts[s.account].status;
      if current != s.prior && !TransitionAllowed(AccountTransitions, current, s.prior) then None
      else Some(rows.(accounts := rows.accounts[s.account := Account(s.prior, s.reason)]))
  }

  /** Closes an open session and restores its account. */
  function Close(rows: Rows, id: SessionId, status: SessionStatus, reason: CloseReason): Option<Rows>
    requires id < |rows.sessions|
  {
    var closed := rows.sessions[id].(status := status, reason := Some(reason));
    Restore(rows.(sessions := rows.sessions[id := closed]), closed)
  }

  /** `_expire_locked`. */
  function Expire(rows: Rows, id: SessionId, now: int): Option<Rows>
    requires id < |rows.sessions|
  {
    var s := rows.sessions[id];
    if Open(s) && s.expiresAt <= now then Close(rows, id, LoginExpired, ByExpiry) else Some(rows)
  }

  /** The expiry loop of `create` over the first n sessions. */
  function ExpireAccount(rows: Rows, account: AccountId, now: int, n: nat): (expired: Option<Rows>)
    requires n <= |rows.sessions|
    ensures expired.Some? ==> |expired.value.sessions| == |rows.sessions|
  {
    if n == 0 then Some(rows)
    else
      match ExpireAccount(rows, account, now, n - 1)
      case None => None
      case Some(mid) => if rows.sessions[n - 1].account == account then Expire(mid, n - 1, now) else Some(mid)
  }

  predicate HasOpen(rows: Rows, account: AccountId) {
    exists s :: s in rows.sessions && s.account == account && Open(s)
  }

  function StatusOf(rows: Rows, account: AccountId): AccountStatus {
    if account in rows.accounts then rows.accounts[account].status else Disconnected
  }

  predicate MayStart(status: AccountStatus, profileCheck: bool) {
    status.Disconnected? || status.ReauthRequired? || (profileCheck && status.Connected?)
  }

  function CreateTx(rows: Rows, op: Op, now: int): Result
    requires op.Create?
  {
    if op.ttl <= 0 || op.ttl > MAX_TTL then Refused
    else
      match ExpireAccount(rows, op.account, now, |rows.sessions|)
      case None => Broken
      case Some(mid) =>
        var prior := StatusOf(mid, op.account);
        if HasOpen(mid, op.account) || !MayStart(prior, op.profileCheck) then Refused
        else if !prior.Connected? && !TransitionAllowed(AccountTransitions, prior, Connecting) then Broken
        else
          var account := if op.account in mid.accounts then mid.accounts[op.account] else Account(Disconnected, None);
          Done(Rows(mid.accounts[op.account := account.(status := if prior.Connected? then prior else Connecting)],
                    mid.sessions + [Session(op.account, LoginPending, prior, op.issued, now + op.ttl, None)]),
               Some(LoginPending))
  }

  function ActivateTx(rows: Rows, op: Op, now: int): Result
    requires op.Activate?
  {
    if op.session >= |rows.sessions| || rows.sessions[op.session].token != op.token then Refused
    else
      match Expire(rows, op.session, now)
      case None => Broken
      case Some(mid) =>
        var s := mid.sessions[op.session];
        if !s.status.LoginPending? then Refused
        else Done(mid.(sessions := mid.sessions[op.session := s.(status := LoginActive)]), Some(LoginActive))
  }

  function StatusTx(rows: Rows, op: Op, now: int): Result
    requires op.Status?
  {
    if op.session >= |rows.sessions| then Done(rows, None)
    else
      match Expire(rows, op.session, now)
      case None => Broken
      case Some(mid) => Done(mid, Some(mid.sessions[op.session].status))
  }

  function CancelTx(rows: Rows, op: Op, now: int): Result
    requires op.Cancel?
  {
    if op.session >= |rows.sessions| then Refused
    else
      match Expire(rows, op.session, now)
      case None => Broken
      case Some(mid) =>
        if !Open(mid.sessions[op.session]) then Done(mid, Some(mid.sessions[op.session].status))
        else
          match Close(mid, op.session, LoginCancelled, ByOperator)
          case None => Broken
          case Some(closed) => Done(closed, Some(LoginCancelled))
  }

  function CompleteTx(rows: Rows, op: Op, now: int): Result
    requires op.Complete?
  {
    if op.session >= |rows.sessions| then Refused
    else
      match Expire(rows, op.session, now)
      case None => Broken
      case Some(mid) =>
        var s := mid.sessions[op.session];
        if !s.status.LoginActive? then Done(mid, Some(s.status))
        else if s.account !in mid.accounts then Broken
        else
          var current := mid.accounts[s.account].status;
          if !current.Connected? && !TransitionAllowed(AccountTransitions, current, Connected) then Broken
          else Done(Rows(mid.accounts[s.account := Account(Connected, None)],
                         mid.sessions[op.session := s.(status := LoginCompleted)]),
                    Some(LoginCompleted))
  }

  function Execute(rows: Rows, op: Op, now: int): Result {
    match op
    case Create(_, _, _, _) => CreateTx(rows, op, now)
    case Activate(_, _) => ActivateTx(rows, op, now)
    case Status(_) => StatusTx(rows, op, now)
    case Cancel(_) => CancelTx(rows, op, now)
    case Complete(_) => CompleteTx(rows, op, now)
  }

  /** The rows after one operation: a raise rolls everything back, expiry included. */
  function Step(rows: Rows, op: Op, now: int): Rows {
    var result := Execute(rows, op, now);
    if result.Done? then result.rows else rows
  }

  /******* The invariant *******/

  /** An open session holds its account: in CONNECTING, or in CONNECTED for a profile check. */
  ghost predicate Holds(rows: Rows, s: Session) {
    && s.account in rows.accounts
    && rows.accounts[s.account].status == (if s.prior.Connected? then Connected else Connecting)
  }

  ghost predicate SessionOk(rows: Rows, i: SessionId)
    requires i < |rows.sessions|
  {
    var s := rows.sessions[i];
    && s.account in rows.accounts
    && (s.prior.Disconnected? || s.prior.ReauthRequired? || s.prior.Connected?)
    && (Open(s) ==> Holds(rows, s))
  }

  ghost predicate OneOpen(rows: Rows, i: SessionId, j: SessionId)
    requires i < |rows.sessions| && j < |rows.sessions|
  {
    Open(rows.sessions[i]) && Open(rows.sessions[j]) ==> rows.sessions[i].account != rows.sessions[j].account
  }

  /** Some open session that is not a profile check holds the account. */
  ghost predicate Held(rows: Rows, account: AccountId) {
    exists s :: s in rows.sessions && s.account == account && Open(s) && !s.prior.Connected?
  }

  ghost predicate Inv(rows: Rows) {
    && (forall i :: 0 <= i < |rows.sessions| ==> SessionOk(rows, i))
    && (forall i, j :: 0 <= i < j < |rows.sessions| ==> OneOpen(rows, i, j))
    && (forall a :: a in rows.accounts && rows.accounts[a].status.Connecting? ==> Held(rows, a))
  }

  /** Accounts as any other component left them, before the first login session. */
  ghost predicate Start(rows: Rows) {
    rows.sessions == [] && forall a :: a in rows.accounts ==> !rows.accounts[a].status.Connecting?
  }

  lemma StartInv(rows: Rows)
    requires Start(rows)
    ensures Inv(rows)
  {
  }

  /** An account is CONNECTING exactly when it has an open session whose prior status was not CONNECTED. */
  lemma ConnectingExactly(rows: Rows, account: AccountId)
    requires Inv(rows)
    ensures StatusOf(rows, account).Connecting? <==> Held(rows, account)
  {
    if Held(rows, account) {
      var s :| s in rows.sessions && s.account == account && Open(s) && !s.prior.Connected?;
      var i :| 0 <= i < |rows.sessions| && rows.sessions[i] == s;
      assert SessionOk(rows, i);
    }
  }

  /******* Closing puts the account back *******/

  /** What closing session `id` leaves behind. */
  ghost predicate Closed(rows: Rows, rows': Rows, id: SessionId, status: SessionStatus, reason: CloseReason)
    requires id < |rows.sessions|
  {
    var s := rows.sessions[id];
    && rows'.sessions == rows.sessions[id := s.(status := status, reason := Some(reason))]
    && rows'.accounts == rows.accounts[s.account := Account(s.prior, Some(reason))]
  }

  lemma CloseWorks(rows: Rows, id: SessionId, status: SessionStatus, reason: CloseReason)
    requires Inv(rows) && id < |rows.sessions| && Open(rows.sessions[id])
    requires status.LoginExpired? || status.LoginCancelled?
    ensures Close(rows, id, status, reason).Some?
    ensures Closed(rows, Close(rows, id, status, reason).value, id, status, reason)
  {
    assert SessionOk(rows, id);
  }

  lemma ClosedKeepsInv(rows: Rows, rows': Rows, id: SessionId, status: SessionStatus, reason: CloseReason)
    requires Inv(rows) && id < |rows.sessions| && Open(rows.sessions[id])
    requires status.LoginExpired? || status.LoginCancelled?
    requires Closed(rows, rows', id, status, reason)
    ensures Inv(rows')
  {
    var s := rows.sessions[id];
    assert SessionOk(rows, id);
    forall i | 0 <= i < |rows'.sessions|
      ensures SessionOk(rows', i)
    {
      assert SessionOk(rows, i);
      if i < id { assert OneOpen(rows, i, id); }
      if i > id { assert OneOpen(rows, id, i); }
    }
    forall i, j | 0 <= i < j < |rows'.sessions|
      ensures OneOpen(rows', i, j)
    {
      assert OneOpen(rows, i, j);
    }
    forall a | a in rows'.accounts && rows'.accounts[a].status.Connecting?
      ensures Held(rows', a)
    {
      assert a != s.account;
      assert Held(rows, a);
      var t :| t in rows.sessions && t.account == a && Open(t) && !t.prior.Connected?;
      var j :| 0 <= j < |rows.sessions| && rows.sessions[j] == t;
      assert rows'.sessions[j] == t;
    }
  }

  lemma ExpireKeepsInv(rows: Rows, id: SessionId, now: int)
    requires Inv(rows) && id < |rows.sessions|
    ensures Expire(rows, id, now).Some? && Inv(Expire(rows, id, now).value)
    ensures var rows' := Expire(rows, id, now).value;
            if Open(rows.sessions[id]) && rows.sessions[id].expiresAt <= now
            then Closed(rows, rows', id, LoginExpired, ByExpiry) else rows' == rows
  {
    if Open(rows.sessions[id]) && rows.sessions[id].expiresAt <= now {
      CloseWorks(rows, id, LoginExpired, ByExpiry);
      ClosedKeepsInv(rows, Expire(rows, id, now).value, id, LoginExpired, ByExpiry);
    }
  }

  /******* How one step may change a session *******/

  /** A session row never changes hands, and once closed never changes again. */
  ghost predicate Follows(s: Session, s': Session) {
    && s' == s.(status := s'.status, reason := s'.reason)
    && (!Open(s) ==> s' == s)
    && (s.status.LoginActive? ==> !s'.status.LoginPending?)
  }

  ghost predicate Extends(rows: Rows, rows': Rows) {
    && |rows.sessions| <= |rows'.sessions|
    && (forall i :: 0 <= i < |rows.sessions| ==> Follows(rows.sessions[i], rows'.sessions[i]))
  }

  /** Closing session `i` by cancellation or expiry puts its account back. */
  ghost predicate PutBack(rows: Rows, rows': Rows, i: SessionId)
    requires i < |rows.sessions| <= |rows'.sessions|
  {
    var s, s' := rows.sessions[i], rows'.sessions[i];
    Open(s) && (s'.status.LoginCancelled? || s'.status.LoginExpired?) ==> StatusOf(rows', s.account) == s.prior
  }

  lemma ClosedPutsBack(rows: Rows, rows': Rows, id: SessionId, status: SessionStatus, reason: CloseReason, i: SessionId)
    requires Inv(rows) && id < |rows.sessions| && Open(rows.sessions[id]) && i < |rows.sessions|
    requires status.LoginExpired? || status.LoginCancelled?
    requires Closed(rows, rows', id, status, reason)
    ensures Extends(rows, rows') && PutBack(rows, rows', i)
    ensures forall a :: a != rows.sessions[id].account ==> StatusOf(rows', a) == StatusOf(rows, a)
  {
    if i == id {
    } else if i < id {
      assert OneOpen(rows, i, id);
    } else {
      assert OneOpen(rows, id, i);
    }
  }

  /** The rows after the expiry loop of `create` has looked at the first n sessions. */
  ghost predicate Swept(rows: Rows, mid: Rows, account: AccountId, now: int, n: nat) {
    && |mid.sessions| == |rows.sessions| && n <= |rows.sessions|
    && (forall i :: 0 <= i < |rows.sessions| ==> SweptSession(rows, mid, account, now, n, i))
    && (forall a :: a != account ==> StatusOf(mid, a) == StatusOf(rows, a))
    && (mid.sessions == rows.sessions ==> mid == rows)
  }

  ghost predicate SweptSession(rows: Rows, mid: Rows, account: AccountId, now: int, n: nat, i: SessionId)
    requires i < |rows.sessions| == |mid.sessions|
  {
    var s, s' := rows.sessions[i], mid.sessions[i];
    && Follows(s, s') && PutBack(rows, mid, i)
    && (s.account != account ==> s' == s)
    && (s' == s || (Open(s) && s.expiresAt <= now && s' == s.(status := LoginExpired, reason := Some(ByExpiry))))
    && (i < n && s.account == account ==> !Open(s') || s'.expiresAt > now)
  }

  lemma SweepOne(rows: Rows, mid: Rows, mid': Rows, account: AccountId, now: int, id: SessionId, i: SessionId)
    requires Inv(rows) && Inv(mid) && i < |rows.sessions|
    requires Swept(rows, mid, account, now, id) && id < |rows.sessions| && rows.sessions[id].account == account
    requires Open(mid.sessions[id]) && mid.sessions[id].expiresAt <= now && Closed(mid, mid', id, LoginExpired, ByExpiry)
    ensures SweptSession(rows, mid', account, now, id + 1, i)
  {
    assert SweptSession(rows, mid, account, now, id, id) && SweptSession(rows, mid, account, now, id, i);
    if i < id { assert OneOpen(rows, i, id); }
    if i > id { assert OneOpen(rows, id, i); }
  }

  lemma {:induction false} ExpireAccountWorks(rows: Rows, account: AccountId, now: int, n: nat)
    requires Inv(rows) && n <= |rows.sessions|
    ensures var expired := ExpireAccount(rows, account, now, n);
            expired.Some? && Inv(expired.value) && Swept(rows, expired.value, account, now, n)
  {
    if n > 0 {
      ExpireAccountWorks(rows, account, now, n - 1);
      var mid := ExpireAccount(rows, account, now, n - 1).value;
      var id := n - 1;
      assert SweptSession(rows, mid, account, now, id, id);
      if rows.sessions[id].account == account {
        ExpireKeepsInv(mid, id, now);
        var mid' := Expire(mid, id, now).value;
        hide Inv;
        if Open(mid.sessions[id]) && mid.sessions[id].expiresAt <= now {
          forall i | 0 <= i < |rows.sessions|
            ensures SweptSession(rows, mid', account, now, n, i)
          {
            SweepOne(rows, mid, mid', account, now, id, i);
          }
        } else {
          SweptFurther(rows, mid, account, now, n);
        }
      } else {
        SweptFurther(rows, mid, account, now, n);
      }
    }
  }

  lemma SweptFurther(rows: Rows, mid: Rows, account: AccountId, now: int, n: nat)
    requires 0 < n && Swept(rows, mid, account, now, n - 1) && n <= |rows.sessions|
    requires rows.sessions[n - 1].account != account || !Open(mid.sessions[n - 1]) || mid.sessions[n - 1].expiresAt > now
    ensures Swept(rows, mid, account, now, n)
  {
    var id := n - 1;
    forall i | 0 <= i < |rows.sessions|
      ensures SweptSession(rows, mid, account, now, n, i)
    {
      assert SweptSession(rows, mid, account, now, id, i);
    }
  }

  /******* Every operation *******/

  /** Appending a session that holds its account keeps the invariant. */
  lemma CreatedKeepsInv(mid: Rows, account: AccountId, created: Session, row: Account)
    requires Inv(mid) && !HasOpen(mid, account) && created.account == account && created.status.LoginPending?
    requires MayStart(created.prior, true) && created.prior == StatusOf(mid, account)
    requires row.status == (if created.prior.Connected? then Connected else Connecting)
    ensures Inv(Rows(mid.accounts[account := row], mid.sessions + [created]))
  {
    var rows' := Rows(mid.accounts[account := row], mid.sessions + [created]);
    var n := |mid.sessions|;
    forall i | 0 <= i < |rows'.sessions|
      ensures SessionOk(rows', i)
    {
      if i < n {
        assert SessionOk(mid, i) && rows'.sessions[i] == mid.sessions[i] && mid.sessions[i] in mid.sessions;
      }
    }
    forall i, j | 0 <= i < j < |rows'.sessions|
      ensures OneOpen(rows', i, j)
    {
      assert rows'.sessions[i] == mid.sessions[i] && mid.sessions[i] in mid.sessions;
      if j < n { assert OneOpen(mid, i, j); }
    }
    forall a | a in rows'.accounts && rows'.accounts[a].status.Connecting?
      ensures Held(rows', a)
    {
      if a == account {
        assert rows'.sessions[n] == created;
      } else {
        assert Held(mid, a);
        var t :| t in mid.sessions && t.account == a && Open(t) && !t.prior.Connected?;
        assert t in rows'.sessions;
      }
    }
  }

  /** No session of the account was added or changed. */
  ghost predicate Untouched(rows: Rows, rows': Rows, account: AccountId) {
    forall i :: 0 <= i < |rows'.sessions| && rows'.sessions[i].account == account ==>
      i < |rows.sessions| && rows'.sessions[i] == rows.sessions[i]
  }

  /** What a step may do to sessions and accounts, and what it keeps. */
  ghost predicate GoodStep(rows: Rows, op: Op, now: int, rows': Rows) {
    && Inv(rows') && Extends(rows, rows')
    && (forall i :: 0 <= i < |rows.sessions| && !op.Create? ==> PutBack(rows, rows', i))
    && (|rows'.sessions| > |rows.sessions| ==>
          && op.Create? && |rows'.sessions| == |rows.sessions| + 1
          && rows'.sessions[|rows.sessions|].account == op.account
          && rows'.sessions[|rows.sessions|].status.LoginPending?
          && (forall i :: 0 <= i < |rows.sessions| && rows.sessions[i].account == op.account && Open(rows.sessions[i]) ==>
                rows'.sessions[|rows.sessions|].prior == rows.sessions[i].prior)
          && ((forall i :: 0 <= i < |rows.sessions| && rows.sessions[i].account == op.account ==> !Open(rows.sessions[i])) ==>
                rows'.sessions[|rows.sessions|].prior == StatusOf(rows, op.account)))
    && (op.Create? ==> forall i :: 0 <= i < |rows.sessions| && rows.sessions[i].account != op.account ==>
                         rows'.sessions[i] == rows.sessions[i])
    && (op.Create? && |rows'.sessions| == |rows.sessions| ==> rows' == rows)
    && (forall a :: Untouched(rows, rows', a) ==> StatusOf(rows', a) == StatusOf(rows, a))
  }

  lemma CreateIsGood(rows: Rows, op: Op, now: int)
    requires Inv(rows) && op.Create?
    ensures !CreateTx(rows, op, now).Broken? && GoodStep(rows, op, now, Step(rows, op, now))
  {
    if 0 < op.ttl <= MAX_TTL {
      ExpireAccountWorks(rows, op.account, now, |rows.sessions|);
      var mid := ExpireAccount(rows, op.account, now, |rows.sessions|).value;
      var result := CreateTx(rows, op, now);
      if result.Done? {
        var n := |rows.sessions|;
        var created := result.rows.sessions[n];
        CreatedKeepsInv(mid, op.account, created, result.rows.accounts[op.account]);
        forall i | 0 <= i < n
          ensures Follows(rows.sessions[i], result.rows.sessions[i])
          ensures rows.sessions[i].account != op.account ==> result.rows.sessions[i] == rows.sessions[i]
          ensures rows.sessions[i].account == op.account && Open(rows.sessions[i]) ==> created.prior == rows.sessions[i].prior
        {
          assert SweptSession(rows, mid, op.account, now, n, i);
          assert mid.sessions[i] in mid.sessions;
        }
        if forall i :: 0 <= i < n && rows.sessions[i].account == op.account ==> !Open(rows.sessions[i]) {
          assert forall i :: 0 <= i < n ==> SweptSession(rows, mid, op.account, now, n, i);
          assert mid.sessions == rows.sessions;
        }
      }
    }
  }

  /** Changing the status of an open session to an open one, in place. */
  lemma ReopenedKeepsInv(rows: Rows, id: SessionId, status: SessionStatus)
    requires Inv(rows) && id < |rows.sessions| && Open(rows.sessions[id]) && status.LoginActive?
    ensures Inv(rows.(sessions := rows.sessions[id := rows.sessions[id].(status := status)]))
  {
    var rows' := rows.(sessions := rows.sessions[id := rows.sessions[id].(status := status)]);
    forall i | 0 <= i < |rows'.sessions|
      ensures SessionOk(rows', i)
    {
      assert SessionOk(rows, i);
    }
    forall i, j | 0 <= i < j < |rows'.sessions|
      ensures OneOpen(rows', i, j)
    {
      assert OneOpen(rows, i, j);
    }
    forall a | a in rows'.accounts && rows'.accounts[a].status.Connecting?
      ensures Held(rows', a)
    {
      assert Held(rows, a);
      var t :| t in rows.sessions && t.account == a && Open(t) && !t.prior.Connected?;
      var j :| 0 <= j < |rows.sessions| && rows.sessions[j] == t;
      assert rows'.sessions[j] in rows'.sessions;
    }
  }

  lemma ActivateIsGood(rows: Rows, op: Op, now: int)
    requires Inv(rows) && op.Activate?
    ensures !ActivateTx(rows, op, now).Broken? && GoodStep(rows, op, now, Step(rows, op, now))
  {
    if op.session < |rows.sessions| {
      ExpireKeepsInv(rows, op.session, now);
      var mid := Expire(rows, op.session, now).value;
      if mid.sessions[op.session].status.LoginPending? {
        assert mid == rows;
        ReopenedKeepsInv(rows, op.session, LoginActive);
      }
    }
  }

  lemma StatusIsGood(rows: Rows, op: Op, now: int)
    requires Inv(rows) && op.Status?
    ensures !StatusTx(rows, op, now).Broken? && GoodStep(rows, op, now, Step(rows, op, now))
  {
    if op.session < |rows.sessions| {
      ExpireIsGood(rows, op, op.session, now);
    }
  }

  lemma ExpireIsGood(rows: Rows, op: Op, id: SessionId, now: int)
    requires Inv(rows) && id < |rows.sessions| && !op.Create?
    ensures Expire(rows, id, now).Some? && GoodStep(rows, op, now, Expire(rows, id, now).value)
  {
    ExpireKeepsInv(rows, id, now);
    var mid := Expire(rows, id, now).value;
    if Open(rows.sessions[id]) && rows.sessions[id].expiresAt <= now {
      forall i | 0 <= i < |rows.sessions|
        ensures PutBack(rows, mid, i)
      {
        ClosedPutsBack(rows, mid, id, LoginExpired, ByExpiry, i);
      }
    }
  }

  lemma CancelIsGood(rows: Rows, op: Op, now: int)
    requires Inv(rows) && op.Cancel?
    ensures !CancelTx(rows, op, now).Broken? && GoodStep(rows, op, now, Step(rows, op, now))
  {
    if op.session < |rows.sessions| {
      ExpireIsGood(rows, op, op.session, now);
      var mid := Expire(rows, op.session, now).value;
      if Open(mid.sessions[op.session]) {
        assert mid == rows;
        CloseWorks(rows, op.session, LoginCancelled, ByOperator);
        var rows' := Close(rows, op.session, LoginCancelled, ByOperator).value;
        ClosedKeepsInv(rows, rows', op.session, LoginCancelled, ByOperator);
        forall i | 0 <= i < |rows.sessions|
          ensures PutBack(rows, rows', i)
        {
          ClosedPutsBack(rows, rows', op.session, LoginCancelled, ByOperator, i);
        }
      }
    }
  }

  lemma CompletedKeepsInv(rows: Rows, id: SessionId)
    requires Inv(rows) && id < |rows.sessions| && rows.sessions[id].status.LoginActive?
    ensures var s := rows.sessions[id];
            Inv(Rows(rows.accounts[s.account := Account(Connected, None)],
                     rows.sessions[id := s.(status := LoginCompleted)]))
  {
    var s := rows.sessions[id];
    var rows' := Rows(rows.accounts[s.account := Account(Connected, None)],
                      rows.sessions[id := s.(status := LoginCompleted)]);
    assert SessionOk(rows, id);
    forall i | 0 <= i < |rows'.sessions|
      ensures SessionOk(rows', i)
    {
      assert SessionOk(rows, i);
      if i < id { assert OneOpen(rows, i, id); }
      if i > id { assert OneOpen(rows, id, i); }
    }
    forall i, j | 0 <= i < j < |rows'.sessions|
      ensures OneOpen(rows', i, j)
    {
      assert OneOpen(rows, i, j);
    }
    forall a | a in rows'.accounts && rows'.accounts[a].status.Connecting?
      ensures Held(rows', a)
    {
      assert Held(rows, a);
      var t :| t in rows.sessions && t.account == a && Open(t) && !t.prior.Connected?;
      var j :| 0 <= j < |rows.sessions| && rows.sessions[j] == t;
      assert rows'.sessions[j] == t;
    }
  }

  lemma CompleteIsGood(rows: Rows, op: Op, now: int)
    requires Inv(rows) && op.Complete?
    ensures !CompleteTx(rows, op, now).Broken? && GoodStep(rows, op, now, Step(rows, op, now))
  {
    if op.session < |rows.sessions| {
      ExpireIsGood(rows, op, op.session, now);
      var mid := Expire(rows, op.session, now).value;
      if mid.sessions[op.session].status.LoginActive? {
        assert mid == rows;
        assert SessionOk(rows, op.session);
        CompletedKeepsInv(rows, op.session);
      }
    }
  }

  /**
   From any rows that satisfy the invariant no operation breaks: no assertion
   fails and `require_transition` never raises. The invariant is kept, closed
   sessions stay closed, and a session that ends cancelled or expired gives its
   account back.
   */
  lemma EveryStepIsGood(rows: Rows, op: Op, now: int)
    requires Inv(rows)
    ensures !Execute(rows, op, now).Broken? && GoodStep(rows, op, now, Step(rows, op, now))
  {
    hide Inv;
    hide GoodStep;
    match op
    case Create(_, _, _, _) => CreateIsGood(rows, op, now);
    case Activate(_, _) => ActivateIsGood(rows, op, now);
    case Status(_) => StatusIsGood(rows, op, now);
    case Cancel(_) => CancelIsGood(rows, op, now);
    case Complete(_) => CompleteIsGood(rows, op, now);
  }

  /******* Whole runs *******/

  datatype Call = Call(op: Op, now: int)

  /** The rows after the first n calls. */
  ghost function After(rows: Rows, run: seq<Call>, n: nat): Rows
    requires n <= |run|
  {
    if n == 0 then rows
    else Step(After(rows, run, n - 1), run[n - 1].op, run[n - 1].now)
  }

  lemma {:induction false} RunKeepsInv(rows: Rows, run: seq<Call>, n: nat)
    requires Start(rows) && n <= |run|
    ensures Inv(After(rows, run, n))
  {
    if n == 0 {
      StartInv(rows);
    } else {
      RunKeepsInv(rows, run, n - 1);
      EveryStepIsGood(After(rows, run, n - 1), run[n - 1].op, run[n - 1].now);
    }
  }

  /** At every moment of every run: one open session per account, CONNECTING exactly when held, and nothing breaks. */
  lemma NoRunBreaks(rows: Rows, run: seq<Call>, n: nat, account: AccountId)
    requires Start(rows) && n < |run|
    ensures var here := After(rows, run, n);
            && !Execute(here, run[n].op, run[n].now).Broken?
            && (StatusOf(here, account).Connecting? <==> Held(here, account))
            && forall i, j :: 0 <= i < j < |here.sessions| ==> OneOpen(here, i, j)
  {
    RunKeepsInv(rows, run, n);
    EveryStepIsGood(After(rows, run, n), run[n].op, run[n].now);
    ConnectingExactly(After(rows, run, n), account);
  }

  /******* The status an account rests at *******/

  /** The status the account has, or will be given back when its open session is cancelled or expires. */
  ghost predicate RestsAt(rows: Rows, account: AccountId, status: AccountStatus) {
    && (forall s :: s in rows.sessions && s.account == account && Open(s) ==> s.prior == status)
    && (!HasOpen(rows, account) ==> StatusOf(rows, account) == status)
  }

  /** No login of the account was completed by this step. */
  ghost predicate NoLogin(rows: Rows, rows': Rows, account: AccountId)
    requires |rows.sessions| <= |rows'.sessions|
  {
    forall i :: 0 <= i < |rows.sessions| && rows'.sessions[i].account == account && rows'.sessions[i].status.LoginCompleted? ==>
      rows'.sessions[i] == rows.sessions[i]
  }

  lemma OpenPriors(rows: Rows, op: Op, now: int, rows': Rows, account: AccountId, status: AccountStatus, i: SessionId)
    requires GoodStep(rows, op, now, rows') && RestsAt(rows, account, status)
    requires i < |rows'.sessions| && rows'.sessions[i].account == account && Open(rows'.sessions[i])
    ensures rows'.sessions[i].prior == status
  {
    if i < |rows.sessions| {
      assert Follows(rows.sessions[i], rows'.sessions[i]) && rows.sessions[i] in rows.sessions;
    } else if HasOpen(rows, account) {
      var s :| s in rows.sessions && s.account == account && Open(s);
      var j :| 0 <= j < |rows.sessions| && rows.sessions[j] == s;
    } else {
      assert forall j :: 0 <= j < |rows.sessions| ==> rows.sessions[j] in rows.sessions;
    }
  }

  /** Nothing but a completed login changes the status an account rests at. */
  lemma RestKept(rows: Rows, op: Op, now: int, account: AccountId, status: AccountStatus)
    requires Inv(rows) && RestsAt(rows, account, status) && GoodStep(rows, op, now, Step(rows, op, now))
    requires NoLogin(rows, Step(rows, op, now), account)
    ensures RestsAt(Step(rows, op, now), account, status)
  {
    var rows' := Step(rows, op, now);
    hide Step;
    forall s | s in rows'.sessions && s.account == account && Open(s)
      ensures s.prior == status
    {
      var i :| 0 <= i < |rows'.sessions| && rows'.sessions[i] == s;
      OpenPriors(rows, op, now, rows', account, status, i);
    }
    if !HasOpen(rows', account) {
      if !Untouched(rows, rows', account) {
        var i :| 0 <= i < |rows'.sessions| && rows'.sessions[i].account == account
                 && !(i < |rows.sessions| && rows'.sessions[i] == rows.sessions[i]);
        assert rows'.sessions[i] in rows'.sessions;
        assert i < |rows.sessions| && Follows(rows.sessions[i], rows'.sessions[i]);
        assert rows.sessions[i] in rows.sessions;
        assert PutBack(rows, rows', i);
      }
    }
  }

  lemma {:induction false} RowsFollow(rows: Rows, run: seq<Call>, n: nat, m: nat, k: SessionId)
    requires Start(rows) && n <= m <= |run| && k < |After(rows, run, n).sessions|
    ensures k < |After(rows, run, m).sessions|
    ensures Follows(After(rows, run, n).sessions[k], After(rows, run, m).sessions[k])
  {
    if n < m {
      RowsFollow(rows, run, n, m - 1, k);
      RunKeepsInv(rows, run, m - 1);
      EveryStepIsGood(After(rows, run, m - 1), run[m - 1].op, run[m - 1].now);
    }
  }

  /** Call c of the run created session k. */
  ghost predicate CreatedAt(rows: Rows, run: seq<Call>, c: nat, k: SessionId)
    requires c < |run|
  {
    |After(rows, run, c).sessions| == k && |After(rows, run, c + 1).sessions| > k
  }

  /** While session k stays open no login of its account completes. */
  lemma OpenMeansNoLogin(rows: Rows, rows': Rows, k: SessionId)
    requires Inv(rows) && Extends(rows, rows') && k < |rows.sessions| && Open(rows.sessions[k])
    requires !rows'.sessions[k].status.LoginCompleted?
    ensures NoLogin(rows, rows', rows.sessions[k].account)
  {
    forall i | 0 <= i < |rows.sessions| && rows'.sessions[i].account == rows.sessions[k].account
               && rows'.sessions[i].status.LoginCompleted?
      ensures rows'.sessions[i] == rows.sessions[i]
    {
      assert Follows(rows.sessions[i], rows'.sessions[i]);
      if i < k { assert OneOpen(rows, i, k); }
      if i > k { assert OneOpen(rows, k, i); }
    }
  }

  lemma {:induction false} RestsThrough(rows: Rows, run: seq<Call>, n: nat, m: nat, k: SessionId, account: AccountId,
                                        status: AccountStatus)
    requires Start(rows) && n <= m <= |run| && k < |After(rows, run, n).sessions|
    requires After(rows, run, n).sessions[k].account == account && RestsAt(After(rows, run, n), account, status)
    requires k < |After(rows, run, m).sessions| && Open(After(rows, run, m).sessions[k])
    ensures RestsAt(After(rows, run, m), account, status)
  {
    if n < m {
      hide Inv;
      hide GoodStep;
      hide RestsAt;
      hide Step;
      var here, op, now := After(rows, run, m - 1), run[m - 1].op, run[m - 1].now;
      RowsFollow(rows, run, n, m - 1, k);
      RowsFollow(rows, run, m - 1, m, k);
      RestsThrough(rows, run, n, m - 1, k, account, status);
      RunKeepsInv(rows, run, m - 1);
      EveryStepIsGood(here, op, now);
      StepExtends(here, op, now);
      OpenMeansNoLogin(here, Step(here, op, now), k);
      RestKept(here, op, now, account, status);
    }
  }

  lemma StepExtends(rows: Rows, op: Op, now: int)
    requires GoodStep(rows, op, now, Step(rows, op, now))
    ensures Extends(rows, Step(rows, op, now))
    ensures forall i :: 0 <= i < |rows.sessions| && !op.Create? ==> PutBack(rows, Step(rows, op, now), i)
  {
  }

  /**
   A session that ends cancelled or expired leaves its account resting where it
   rested before the session was created, for every run of operations in any
   order and at any times; and unless it was the next `create` that found it
   expired, the account's status is that status again.
   */
  lemma SessionPutsBack(rows: Rows, run: seq<Call>, c: nat, m: nat, k: SessionId, status: AccountStatus)
    requires Start(rows) && c < m < |run| && CreatedAt(rows, run, c, k)
    requires RestsAt(After(rows, run, c), After(rows, run, c + 1).sessions[k].account, status)
    requires k < |After(rows, run, m).sessions| && Open(After(rows, run, m).sessions[k])
    requires k < |After(rows, run, m + 1).sessions|
    requires var s := After(rows, run, m + 1).sessions[k]; s.status.LoginCancelled? || s.status.LoginExpired?
    ensures var account := After(rows, run, m).sessions[k].account;
            && RestsAt(After(rows, run, m + 1), account, status)
            && (!run[m].op.Create? ==> StatusOf(After(rows, run, m + 1), account) == status)
  {
    hide After;
    hide Inv;
    hide GoodStep;
    hide Step;
    hide RestsAt;
    hide StatusOf;
    var account := After(rows, run, c + 1).sessions[k].account;
    CreationRests(rows, run, c, k, status);
    RowsFollow(rows, run, c + 1, m, k);
    RestsThrough(rows, run, c + 1, m, k, account, status);
    RunKeepsInv(rows, run, m);
    OneMoreStep(rows, run, m);
    EndsAtRest(After(rows, run, m), run[m].op, run[m].now, k, status);
  }

  lemma OneMoreStep(rows: Rows, run: seq<Call>, m: nat)
    requires m < |run|
    ensures After(rows, run, m + 1) == Step(After(rows, run, m), run[m].op, run[m].now)
  {
  }

  lemma EndsAtRest(here: Rows, op: Op, now: int, k: SessionId, status: AccountStatus)
    requires Inv(here) && k < |here.sessions| && Open(here.sessions[k])
    requires k < |Step(here, op, now).sessions|
    requires var s := Step(here, op, now).sessions[k]; s.status.LoginCancelled? || s.status.LoginExpired?
    requires RestsAt(here, here.sessions[k].account, status)
    ensures var account := here.sessions[k].account;
            && RestsAt(Step(here, op, now), account, status)
            && (!op.Create? ==> StatusOf(Step(here, op, now), account) == status)
  {
    hide GoodStep;
    hide Step;
    EveryStepIsGood(here, op, now);
    StepExtends(here, op, now);
    OpenMeansNoLogin(here, Step(here, op, now), k);
    RestKept(here, op, now, here.sessions[k].account, status);
    assert here.sessions[k] in here.sessions;
    assert !op.Create? ==> PutBack(here, Step(here, op, now), k);
  }

  lemma CreationRests(rows: Rows, run: seq<Call>, c: nat, k: SessionId, status: AccountStatus)
    requires Start(rows) && c < |run| && CreatedAt(rows, run, c, k)
    requires RestsAt(After(rows, run, c), After(rows, run, c + 1).sessions[k].account, status)
    ensures RestsAt(After(rows, run, c + 1), After(rows, run, c + 1).sessions[k].account, status)
  {
    hide Step;
    hide Inv;
    var here, op, now := After(rows, run, c), run[c].op, run[c].now;
    RunKeepsInv(rows, run, c);
    EveryStepIsGood(here, op, now);
    StepExtends(here, op, now);
    CreateLogsNobodyIn(here, op, now);
    RestKept(here, op, now, op.account, status);
  }

  lemma CreateLogsNobodyIn(rows: Rows, op: Op, now: int)
    requires Inv(rows) && op.Create?
    ensures |rows.sessions| <= |Step(rows, op, now).sessions| && NoLogin(rows, Step(rows, op, now), op.account)
  {
    if 0 < op.ttl <= MAX_TTL {
      ExpireAccountWorks(rows, op.account, now, |rows.sessions|);
      hide Inv;
      var mid := ExpireAccount(rows, op.account, now, |rows.sessions|).value;
      var rows' := Step(rows, op, now);
      forall i | 0 <= i < |rows.sessions|
        ensures rows'.sessions[i].status.LoginCompleted? ==> rows'.sessions[i] == rows.sessions[i]
      {
        assert SweptSession(rows, mid, op.account, now, |rows.sessions|, i);
      }
    }
  }

  /** A launch token opens its session at most once. */
  lemma SingleUse(rows: Rows, run: seq<Call>, n: nat, m: nat)
    requires Start(rows) && n < m < |run|
    requires run[n].op.Activate? && Execute(After(rows, run, n), run[n].op, run[n].now).Done?
    requires run[m].op.Activate? && run[m].op.session == run[n].op.session
    ensures Execute(After(rows, run, m), run[m].op, run[m].now).Refused?
  {
    var k := run[n].op.session;
    RunKeepsInv(rows, run, n);
    RunKeepsInv(rows, run, m);
    ExpireKeepsInv(After(rows, run, n), k, run[n].now);
    RowsFollow(rows, run, n + 1, m, k);
    ExpireKeepsInv(After(rows, run, m), k, run[m].now);
  }

  /******* The service, assigning rows in place *******/

  class LoginSessionService {
    var accounts: map<AccountId, Account>
    var sessions: seq<Session>

    function Table(): Rows
      reads this
    {
      Rows(accounts, sessions)
    }

    constructor (existing: map<AccountId, Account>)
      requires forall a :: a in existing ==> !existing[a].status.Connecting?
      ensures Table() == Rows(existing, []) && Inv(Table())
    {
      accounts, sessions := existing, [];
    }

    /** `_restore_account`; false stands for its exception. */
    method RestoreAccount(item: Session) returns (ok: bool)
      modifies this`accounts
      ensures ok <==> Restore(old(Table()), item).Some?
      ensures Table() == if ok then Restore(old(Table()), item).value else old(Table())
    {
      if item.account !in accounts {
        return false;
      }
      var account := accounts[item.account];
      if account.status != item.prior {
        if !TransitionAllowed(AccountTransitions, account.status, item.prior) {
          return false;
        }
        account := account.(status := item.prior);
      }
      accounts := accounts[item.account := account.(reason := item.reason)];
      ok := true;
    }

    /** `_expire_locked`. */
    method ExpireLocked(id: SessionId, now: int) returns (ok: bool)
      requires id < |sessions|
      modifies this
      ensures ok <==> Expire(old(Table()), id, now).Some?
      ensures ok ==> Table() == Expire(old(Table()), id, now).value
    {
      ok := true;
      if Open(sessions[id]) && sessions[id].expiresAt <= now {
        sessions := sessions[id := sessions[id].(status := LoginExpired, reason := Some(ByExpiry))];
        ok := RestoreAccount(sessions[id]);
      }
    }

    /** Undoes an aborted transaction. */
    method Rollback(rows: Rows)
      modifies this
      ensures Table() == rows
    {
      accounts, sessions := rows.accounts, rows.sessions;
    }

    /** The expiry loop of `create`; the exception it could let through cannot occur. */
    method ExpireSessions(account: AccountId, now: int)
      requires Inv(Table())
      modifies this
      ensures ExpireAccount(old(Table()), account, now, |old(sessions)|) == Some(Table())
    {
      ghost var before := Table();
      for i := 0 to |sessions|
        invariant |sessions| == |before.sessions|
        invariant ExpireAccount(before, account, now, i) == Some(Table())
      {
        hide Inv;
        ExpireAccountWorks(before, account, now, i);
        ExpireAccountWorks(before, account, now, i + 1);
        assert SweptSession(before, Table(), account, now, i, i);
        if sessions[i].account == account {
          var expired := ExpireLocked(i, now);
        }
      }
    }

    method CreateSession(account: AccountId, ttl: int, profileCheck: bool, token: Token, now: int) returns (ok: bool)
      requires Inv(Table())
      modifies this
      ensures ok <==> CreateTx(old(Table()), Create(account, ttl, profileCheck, token), now).Done?
      ensures Table() == Step(old(Table()), Create(account, ttl, profileCheck, token), now)
      ensures Inv(Table())
    {
      ghost var op := Create(account, ttl, profileCheck, token);
      var before := Table();
      EveryStepIsGood(before, op, now);
      assert Inv(Step(before, op, now));
      hide Inv;
      hide GoodStep;
      if ttl <= 0 || ttl > MAX_TTL {
        return false;
      }
      ExpireSessions(account, now);
      if HasOpen(Table(), account) {
        Rollback(before);
        return false;
      }
      if account !in accounts {
        accounts := accounts[account := Account(Disconnected, None)];
      }
      var prior := accounts[account].status;
      if !MayStart(prior, profileCheck) {
        Rollback(before);
        return false;
      }
      if !prior.Connected? {
        accounts := accounts[account := accounts[account].(status := Connecting)];
      }
      sessions := sessions + [Session(account, LoginPending, prior, token, now + ttl, None)];
      ok := true;
    }

    method ActivateSession(id: SessionId, token: Token, now: int) returns (ok: bool)
      requires Inv(Table())
      modifies this
      ensures ok <==> ActivateTx(old(Table()), Activate(id, token), now).Done?
      ensures Table() == Step(old(Table()), Activate(id, token), now)
      ensures Inv(Table())
    {
      var before := Table();
      EveryStepIsGood(before, Activate(id, token), now);
      if id >= |sessions| || sessions[id].token != token {
        return false;
      }
      ok := ExpireLocked(id, now);
      if !ok || !sessions[id].status.LoginPending? {
        Rollback(before);
        return false;
      }
      sessions := sessions[id := sessions[id].(status := LoginActive)];
    }

    method SessionStatusOf(id: SessionId, now: int) returns (status: Option<SessionStatus>)
      requires Inv(Table())
      modifies this
      ensures StatusTx(old(Table()), Status(id), now) == Done(Table(), status)
      ensures Inv(Table())
    {
      EveryStepIsGood(Table(), Status(id), now);
      if id >= |sessions| {
        return None;
      }
      var ok := ExpireLocked(id, now);
      status := Some(sessions[id].status);
    }

    method CancelSession(id: SessionId, now: int) returns (status: Option<SessionStatus>)
      requires Inv(Table())
      modifies this
      ensures CancelTx(old(Table()), Cancel(id), now) == if status.None? then Refused else Done(Table(), status)
      ensures status.None? ==> Table() == old(Table())
      ensures Inv(Table())
    {
      EveryStepIsGood(Table(), Cancel(id), now);
      if id >= |sessions| {
        return None;
      }
      var ok := ExpireLocked(id, now);
      if !Open(sessions[id]) {
        return Some(sessions[id].status);
      }
      sessions := sessions[id := sessions[id].(status := LoginCancelled, reason := Some(ByOperator))];
      ok := RestoreAccount(sessions[id]);
      status := Some(LoginCancelled);
    }

    method CompleteSession(id: SessionId, now: int) returns (status: Option<SessionStatus>)
      requires Inv(Table())
      modifies this
      ensures CompleteTx(old(Table()), Complete(id), now) == if status.None? then Refused else Done(Table(), status)
      ensures status.None? ==> Table() == old(Table())
      ensures Inv(Table())
    {
      EveryStepIsGood(Table(), Complete(id), now);
      if id >= |sessions| {
        return None;
      }
      var ok := ExpireLocked(id, now);
      if !sessions[id].status.LoginActive? {
        return Some(sessions[id].status);
      }
      var account := accounts[sessions[id].account];
      if !account.status.Connected? {
        account := account.(status := Connected);
      }
      accounts := accounts[sessions[id].account := account.(reason := None)];
      sessions := sessions[id := sessions[id].(status := LoginCompleted)];
      status := Some(LoginCompleted);
    }
  }
}
