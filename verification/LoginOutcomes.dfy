/**
 When each operation on login sessions succeeds and what it leaves, and that a
 login taken in time connects the account.
 */
module LoginOutcomes {
  import opened Options
  import opened Transitions
  import opened LoginSessions

  /******* Looking at a session *******/

  /** Pending or active, and its time is over. */
  predicate Lapsed(s: Session, now: int) {
    (s.status == LoginPending || s.status == LoginActive) && s.expiresAt <= now
  }

  /** Pending or active, with time left. */
  predicate Live(s: Session, now: int) {
    (s.status == LoginPending || s.status == LoginActive) && s.expiresAt > now
  }

  /** The session is closed so and its account is back at the status it had before, with the reason. */
  ghost predicate ClosedAs(rows: Rows, rows': Rows, id: SessionId, status: SessionStatus, reason: CloseReason)
    requires id < |rows.sessions|
  {
    var s := rows.sessions[id];
    && rows'.sessions == rows.sessions[id := Session(s.account, status, s.prior, s.token, s.expiresAt, Some(reason))]
    && rows'.accounts == rows.accounts[s.account := Account(s.prior, Some(reason))]
  }

  /** What `status` answers and leaves: a lapsed session expires, any other is as it was. */
  lemma StatusEffect(rows: Rows, id: SessionId, now: int)
    requires Inv(rows)
    ensures var result := Execute(rows, Status(id), now);
            && result.Done?
            && if id >= |rows.sessions| then result == Done(rows, None)
               else if Lapsed(rows.sessions[id], now) then
                 result.reply == Some(LoginExpired) && ClosedAs(rows, result.rows, id, LoginExpired, ByExpiry)
               else result == Done(rows, Some(rows.sessions[id].status))
  {
    if id < |rows.sessions| {
      ExpireKeepsInv(rows, id, now);
    }
  }

  /** A pending session with time left is activated by its token, and by nothing else; only its status changes. */
  lemma ActivateEffect(rows: Rows, id: SessionId, token: Token, now: int)
    requires Inv(rows)
    ensures var result := Execute(rows, Activate(id, token), now);
            if id < |rows.sessions| && rows.sessions[id].token == token
               && rows.sessions[id].status == LoginPending && rows.sessions[id].expiresAt > now
            then
              var s := rows.sessions[id];
              result == Done(Rows(rows.accounts,
                                  rows.sessions[id := Session(s.account, LoginActive, s.prior, s.token, s.expiresAt, s.reason)]),
                             Some(LoginActive))
            else result == Refused
  {
    if id < |rows.sessions| {
      ExpireKeepsInv(rows, id, now);
    }
  }

  /** A live session is cancelled and its account put back; a lapsed one expires instead; a closed one stays. */
  lemma CancelEffect(rows: Rows, id: SessionId, now: int)
    requires Inv(rows)
    ensures var result := Execute(rows, Cancel(id), now);
            if id >= |rows.sessions| then result == Refused
            else if Live(rows.sessions[id], now) then
              result.Done? && result.reply == Some(LoginCancelled) && ClosedAs(rows, result.rows, id, LoginCancelled, ByOperator)
            else if Lapsed(rows.sessions[id], now) then
              result.Done? && result.reply == Some(LoginExpired) && ClosedAs(rows, result.rows, id, LoginExpired, ByExpiry)
            else result == Done(rows, Some(rows.sessions[id].status))
  {
    if id < |rows.sessions| {
      ExpireKeepsInv(rows, id, now);
      if Live(rows.sessions[id], now) {
        CloseWorks(rows, id, LoginCancelled, ByOperator);
      }
    }
  }

  /** An active session with time left completes and its account is connected with no reason; a lapsed one expires. */
  lemma CompleteEffect(rows: Rows, id: SessionId, now: int)
    requires Inv(rows)
    ensures var result := Execute(rows, Complete(id), now);
            if id >= |rows.sessions| then result == Refused
            else
              var s := rows.sessions[id];
              if s.status == LoginActive && s.expiresAt > now then
                result == Done(Rows(rows.accounts[s.account := Account(Connected, None)],
                                    rows.sessions[id := Session(s.account, LoginCompleted, s.prior, s.token, s.expiresAt, s.reason)]),
                               Some(LoginCompleted))
              else if Lapsed(s, now) then
                result.Done? && result.reply == Some(LoginExpired) && ClosedAs(rows, result.rows, id, LoginExpired, ByExpiry)
              else result == Done(rows, Some(s.status))
  {
    if id < |rows.sessions| {
      ExpireKeepsInv(rows, id, now);
      assert SessionOk(rows, id);
    }
  }

  /******* Creating a session *******/

  /** A status from which a login may start, or for a profile check also CONNECTED. */
  predicate Startable(status: AccountStatus, profileCheck: bool) {
    status == Disconnected || status == ReauthRequired || (profileCheck && status == Connected)
  }

  /** No session of the account has time left. */
  ghost predicate NoneLive(rows: Rows, account: AccountId, now: int) {
    forall i :: 0 <= i < |rows.sessions| && rows.sessions[i].account == account ==> !Live(rows.sessions[i], now)
  }

  /** The old sessions, those of the account expired if they lapsed, and one new pending session. */
  ghost predicate Created(rows: Rows, rows': Rows, account: AccountId, ttl: int, token: Token, rest: AccountStatus, now: int) {
    var n := |rows.sessions|;
    && |rows'.sessions| == n + 1
    && rows'.sessions[n] == Session(account, LoginPending, rest, token, now + ttl, None)
    && (forall i :: 0 <= i < n ==>
          rows'.sessions[i] == if rows.sessions[i].account == account && Lapsed(rows.sessions[i], now)
                               then rows.sessions[i].(status := LoginExpired, reason := Some(ByExpiry)) else rows.sessions[i])
    && StatusOf(rows', account) == (if rest == Connected then Connected else Connecting)
    && (forall a :: a != account ==> StatusOf(rows', a) == StatusOf(rows, a))
  }

  /**
   A session is created exactly when the lifetime is positive and at most 15
   minutes, no session of the account has time left, and the account rests at a
   status a login may start from.
   */
  lemma CreateEffect(rows: Rows, account: AccountId, ttl: int, profileCheck: bool, token: Token, rest: AccountStatus, now: int)
    requires Inv(rows) && RestsAt(rows, account, rest)
    ensures var result := Execute(rows, Create(account, ttl, profileCheck, token), now);
            if 0 < ttl <= 900 && NoneLive(rows, account, now) && Startable(rest, profileCheck)
            then result.Done? && result.reply == Some(LoginPending) && Created(rows, result.rows, account, ttl, token, rest, now)
            else result == Refused
  {
    if 0 < ttl <= 900 {
      ExpireAccountWorks(rows, account, now, |rows.sessions|);
      var mid := ExpireAccount(rows, account, now, |rows.sessions|).value;
      SweptOpen(rows, mid, account, now);
      hide Inv;
      hide ExpireAccount;
      if NoneLive(rows, account, now) {
        SweptRest(rows, mid, account, now, rest);
        forall i | 0 <= i < |rows.sessions|
          ensures mid.sessions[i] == if rows.sessions[i].account == account && Lapsed(rows.sessions[i], now)
                                     then rows.sessions[i].(status := LoginExpired, reason := Some(ByExpiry)) else rows.sessions[i]
        {
          assert SweptSession(rows, mid, account, now, |rows.sessions|, i);
        }
        hide Swept;
      }
    }
  }

  lemma SweptOpen(rows: Rows, mid: Rows, account: AccountId, now: int)
    requires Swept(rows, mid, account, now, |rows.sessions|)
    ensures HasOpen(mid, account) <==> !NoneLive(rows, account, now)
  {
    if HasOpen(mid, account) {
      var s :| s in mid.sessions && s.account == account && Open(s);
      var i :| 0 <= i < |mid.sessions| && mid.sessions[i] == s;
      assert SweptSession(rows, mid, account, now, |rows.sessions|, i);
      assert Live(rows.sessions[i], now);
    }
    forall i | 0 <= i < |rows.sessions| && rows.sessions[i].account == account && Live(rows.sessions[i], now)
      ensures HasOpen(mid, account)
    {
      assert SweptSession(rows, mid, account, now, |rows.sessions|, i);
      assert mid.sessions[i] in mid.sessions;
    }
  }

  /** After the sweep the account has the status it rested at. */
  lemma SweptRest(rows: Rows, mid: Rows, account: AccountId, now: int, rest: AccountStatus)
    requires Swept(rows, mid, account, now, |rows.sessions|) && RestsAt(rows, account, rest) && NoneLive(rows, account, now)
    ensures StatusOf(mid, account) == rest
  {
    if HasOpen(rows, account) {
      var s :| s in rows.sessions && s.account == account && Open(s);
      var i :| 0 <= i < |rows.sessions| && rows.sessions[i] == s;
      assert SweptSession(rows, mid, account, now, |rows.sessions|, i);
    } else {
      forall i | 0 <= i < |rows.sessions|
        ensures mid.sessions[i] == rows.sessions[i]
      {
        assert SweptSession(rows, mid, account, now, |rows.sessions|, i);
        assert rows.sessions[i] in rows.sessions;
      }
      assert mid.sessions == rows.sessions;
    }
  }

  /** Every account rests at some status. */
  lemma RestExists(rows: Rows, account: AccountId) returns (rest: AccountStatus)
    requires Inv(rows)
    ensures RestsAt(rows, account, rest)
  {
    if HasOpen(rows, account) {
      var s :| s in rows.sessions && s.account == account && Open(s);
      rest := s.prior;
      var i :| 0 <= i < |rows.sessions| && rows.sessions[i] == s;
      forall t | t in rows.sessions && t.account == account && Open(t)
        ensures t.prior == rest
      {
        var j :| 0 <= j < |rows.sessions| && rows.sessions[j] == t;
        assert i < j ==> OneOpen(rows, i, j);
        assert j < i ==> OneOpen(rows, j, i);
      }
    } else {
      rest := StatusOf(rows, account);
    }
  }

  /******* Over runs *******/

  /** At every moment of every run, completing an active session in time connects its account, which then rests there. */
  lemma CompletionConnects(rows: Rows, run: seq<Call>, n: nat, id: SessionId)
    requires Start(rows) && n < |run| && run[n].op == Complete(id)
    requires id < |After(rows, run, n).sessions|
    requires After(rows, run, n).sessions[id].status == LoginActive && After(rows, run, n).sessions[id].expiresAt > run[n].now
    ensures var account, next := After(rows, run, n).sessions[id].account, After(rows, run, n + 1);
            && Execute(After(rows, run, n), run[n].op, run[n].now).Done?
            && Execute(After(rows, run, n), run[n].op, run[n].now).reply == Some(LoginCompleted)
            && next.sessions[id].status == LoginCompleted
            && account in next.accounts && next.accounts[account] == Account(Connected, None)
            && StatusOf(next, account) == Connected && RestsAt(next, account, Connected)
  {
    var here := After(rows, run, n);
    RunKeepsInv(rows, run, n);
    CompleteEffect(here, id, run[n].now);
    NoOtherOpen(here, id);
    hide Inv;
    hide Execute;
    RestAfterLogin(here, After(rows, run, n + 1), id);
  }

  lemma NoOtherOpen(rows: Rows, id: SessionId)
    requires Inv(rows) && id < |rows.sessions| && Open(rows.sessions[id])
    ensures forall i :: 0 <= i < |rows.sessions| && i != id && rows.sessions[i].account == rows.sessions[id].account ==>
              !Open(rows.sessions[i])
  {
    forall i | 0 <= i < |rows.sessions| && i != id && rows.sessions[i].account == rows.sessions[id].account
      ensures !Open(rows.sessions[i])
    {
      assert i < id ==> OneOpen(rows, i, id);
      assert id < i ==> OneOpen(rows, id, i);
    }
  }

  lemma RestAfterLogin(rows: Rows, rows': Rows, id: SessionId)
    requires id < |rows.sessions|
    requires forall i :: 0 <= i < |rows.sessions| && i != id && rows.sessions[i].account == rows.sessions[id].account ==>
               !Open(rows.sessions[i])
    requires rows'.sessions == rows.sessions[id := rows.sessions[id].(status := LoginCompleted)]
    requires rows'.accounts == rows.accounts[rows.sessions[id].account := Account(Connected, None)]
    ensures RestsAt(rows', rows.sessions[id].account, Connected)
  {
    var account := rows.sessions[id].account;
    forall s | s in rows'.sessions && s.account == account
      ensures !Open(s)
    {
      var i :| 0 <= i < |rows'.sessions| && rows'.sessions[i] == s;
      assert i == id || rows'.sessions[i] == rows.sessions[i];
    }
  }

  /**
   From any reachable rows: an account that rests where a login may start, with
   no session still running, is connected by creating a session, activating it
   with its token and completing it, all before it expires.
   */
  lemma LoginConnects(rows: Rows, account: AccountId, ttl: int, profileCheck: bool, token: Token, rest: AccountStatus,
                      created: int, activated: int, completed: int)
    requires Inv(rows) && RestsAt(rows, account, rest) && Startable(rest, profileCheck)
    requires 0 < ttl <= 900 && NoneLive(rows, account, created)
    requires activated < created + ttl && completed < created + ttl
    ensures var id := |rows.sessions|;
            var begun := Execute(rows, Create(account, ttl, profileCheck, token), created);
            && begun.Done? && begun.reply == Some(LoginPending)
            && var active := Execute(begun.rows, Activate(id, token), activated);
               && active.Done? && active.reply == Some(LoginActive)
               && var done := Execute(active.rows, Complete(id), completed);
                  && done.Done? && done.reply == Some(LoginCompleted)
                  && StatusOf(done.rows, account) == Connected
  {
    var id := |rows.sessions|;
    EveryStepIsGood(rows, Create(account, ttl, profileCheck, token), created);
    CreateEffect(rows, account, ttl, profileCheck, token, rest, created);
    var begun := Execute(rows, Create(account, ttl, profileCheck, token), created);
    assert Step(rows, Create(account, ttl, profileCheck, token), created) == begun.rows;
    assert Inv(begun.rows);
    hide Inv;
    hide RestsAt;
    EveryStepIsGood(begun.rows, Activate(id, token), activated);
    ActivateEffect(begun.rows, id, token, activated);
    var active := Execute(begun.rows, Activate(id, token), activated);
    assert Step(begun.rows, Activate(id, token), activated) == active.rows;
    CompleteEffect(active.rows, id, completed);
    hide Execute;
  }
}
