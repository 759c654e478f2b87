/**
 The lock of an account when login requests overlap (app/routers/auth.py). A request reads the account, checks
 the password, and later commits the new counter or lock as absolute values; between the two another request may
 read. The runs are those of wrong passwords, between two successful logins or resets.
 */
module LoginRace {
  import opened Common
  import opened LoginGuard

  /** What a failed check is going to commit: the counter, or the lock and a counter of zero. */
  datatype Update = Counter(failed: int) | Lock(until: Time) | Over

  /** The committed account, the updates of the failed checks in order of their reads, and two records of the
      history nobody reads: when the failed checks were, and how many there were since the last lock, counting
      those the account started with. */
  datatype State = State(account: Account, updates: seq<Update>, failures: seq<Time>, sinceLock: int, clock: Time)

  /** A request reads the account and checks a wrong password, with the clock as read at the lock check and again
      for a lock; or the update of an earlier check is committed. */
  datatype Move = Check(at: Time, failedAt: Time) | Commit(index: nat)

  function UpdateOf(a: Account, failedAt: Time): Update {
    if a.failed + 1 >= MAX_LOGIN_ATTEMPTS then Lock(failedAt + LOCKOUT) else Counter(a.failed + 1)
  }

  function Apply(a: Account, u: Update): Account {
    match u
    case Counter(n) => a.(failed := n)
    case Lock(until) => Account(0, Some(until))
    case Over => a
  }

  /** The check is not refused by a lock, so the password is looked at. */
  predicate Fails(s: State, m: Move) {
    m.Check? && s.clock <= m.at <= m.failedAt && !Refused(s.account, m.at)
  }

  function Step(s: State, m: Move): State {
    match m
    case Check(at, failedAt) =>
      if Fails(s, m) then
        State(s.account, s.updates + [UpdateOf(s.account, failedAt)], s.failures + [at], s.sinceLock + 1, at)
      else s
    case Commit(i) =>
      if i < |s.updates| then
        State(Apply(s.account, s.updates[i]), s.updates[i := Over], s.failures,
              if s.updates[i].Lock? then 0 else s.sinceLock, s.clock)
      else s
  }

  function Exec(s: State, moves: seq<Move>): State {
    if moves == [] then s else Step(Exec(s, moves[..|moves| - 1]), moves[|moves| - 1])
  }

  ghost predicate Initial(s: State) {
    CounterSmall(s.account) && s.updates == [] && s.failures == [] && s.sinceLock == s.account.failed
  }

  /** A failed check that is committed at once is a login of the one-step model. */
  lemma CommittedAtOnceIsLogin(s: State, at: Time, failedAt: Time, active: bool)
    requires Fails(s, Check(at, failedAt))
    ensures var e := Login(false, active, at, failedAt);
      IsFailure(OutcomeOf(s.account, e))
      && Step(Step(s, Check(at, failedAt)), Commit(|s.updates|)).account == Next(s.account, e)
  {
  }

  /** No check stands between its read and its commit. */
  predicate AllOver(s: State) {
    forall i :: 0 <= i < |s.updates| ==> s.updates[i] == Over
  }

  /** Every failed check of the run reads when no other stands between its read and its commit. */
  ghost predicate Careful(s: State, moves: seq<Move>) {
    forall i :: 0 <= i < |moves| && Fails(Exec(s, moves[..i]), moves[i]) ==> AllOver(Exec(s, moves[..i]))
  }

  // ---------------------------------------------------------------- without overlap

  function CountAt(failures: seq<Time>, start: Time, openLeft: bool): nat {
    if failures == [] then 0 else
      CountAt(failures[..|failures| - 1], start, openLeft)
      + if Inside(failures[|failures| - 1], start, LOCKOUT, openLeft) then 1 else 0
  }

  /** The failures in the window are in the counter, or the lock outlasts the window. */
  ghost predicate Fits(a: Account, failures: seq<Time>, start: Time, openLeft: bool) {
    || CountAt(failures, start, openLeft) <= a.failed
    || (a.lockedUntil.Some? && Beyond(a.lockedUntil.value, start, openLeft)
        && CountAt(failures, start, openLeft) <= MAX_LOGIN_ATTEMPTS)
  }

  ghost predicate Counted(a: Account, failures: seq<Time>) {
    CounterSmall(a) && forall start, openLeft :: Fits(a, failures, start, openLeft)
  }

  /** At most one check is uncommitted, and with its update the account counts every failure. */
  ghost predicate Calm(s: State) {
    && CounterSmall(s.account) && (forall i :: 0 <= i < |s.failures| ==> s.failures[i] <= s.clock)
    && (AllOver(s) ==> Counted(s.account, s.failures) && s.sinceLock == s.account.failed)
    && (forall i, j :: 0 <= i < j < |s.updates| ==> s.updates[i] == Over || s.updates[j] == Over)
    && (forall i :: 0 <= i < |s.updates| && s.updates[i] != Over ==> Waiting(s, s.updates[i]))
  }

  ghost predicate Waiting(s: State, u: Update) {
    && Counted(Apply(s.account, u), s.failures) && s.sinceLock == s.account.failed + 1
    && (exists failedAt :: u == UpdateOf(s.account, failedAt))
    && (s.account.lockedUntil.Some? ==> s.account.lockedUntil.value <= s.clock)
  }

  lemma {:induction false} CountPositive(failures: seq<Time>, start: Time, openLeft: bool)
    ensures CountAt(failures, start, openLeft) > 0 ==>
      exists i :: 0 <= i < |failures| && Inside(failures[i], start, LOCKOUT, openLeft)
  {
    if failures != [] {
      var front := failures[..|failures| - 1];
      CountPositive(front, start, openLeft);
      if CountAt(front, start, openLeft) > 0 {
        var i :| 0 <= i < |front| && Inside(front[i], start, LOCKOUT, openLeft);
        assert failures[i] == front[i];
      }
    }
  }

  lemma FitsOneMore(a: Account, failures: seq<Time>, at: Time, failedAt: Time, start: Time, openLeft: bool)
    requires CounterSmall(a) && Fits(a, failures, start, openLeft)
    requires (forall i :: 0 <= i < |failures| ==> failures[i] <= at) && at <= failedAt && !Refused(a, at)
    ensures Fits(Apply(a, UpdateOf(a, failedAt)), failures + [at], start, openLeft)
  {
    assert (failures + [at])[..|failures|] == failures;
    CountPositive(failures, start, openLeft);
  }

  lemma CheckKeepsCalm(s: State, m: Move)
    requires Calm(s) && Fails(s, m) && AllOver(s)
    ensures Calm(Step(s, m))
  {
    var t := Step(s, m);
    var u := UpdateOf(s.account, m.failedAt);
    assert Counted(Apply(s.account, u), t.failures) by {
      forall start, openLeft ensures Fits(Apply(s.account, u), t.failures, start, openLeft) {
        assert Fits(s.account, s.failures, start, openLeft);
        FitsOneMore(s.account, s.failures, m.at, m.failedAt, start, openLeft);
      }
    }
    assert t.updates[|s.updates|] == u;
    hide Fits, Counted;
  }

  lemma CommitKeepsCalm(s: State, i: nat)
    requires Calm(s)
    ensures Calm(Step(s, Commit(i)))
  {
    hide Counted;
    if i < |s.updates| && s.updates[i] != Over {
      assert Waiting(s, s.updates[i]);
    } else if i < |s.updates| {
      assert s.updates[i := Over] == s.updates;
    }
  }

  lemma CalmBounds(s: State, start: Time, openLeft: bool)
    requires Calm(s)
    ensures CountAt(s.failures, start, openLeft) <= MAX_LOGIN_ATTEMPTS && s.sinceLock <= MAX_LOGIN_ATTEMPTS
  {
    if AllOver(s) {
      assert Fits(s.account, s.failures, start, openLeft);
    } else {
      var i :| 0 <= i < |s.updates| && s.updates[i] != Over;
      assert Waiting(s, s.updates[i]);
      assert Fits(Apply(s.account, s.updates[i]), s.failures, start, openLeft);
    }
  }

  lemma InitialIsCalm(s: State)
    requires Initial(s)
    ensures Calm(s)
  {
    forall start, openLeft ensures Fits(s.account, s.failures, start, openLeft) {
    }
  }

  lemma {:induction false} CarefulKeepsCalm(s: State, moves: seq<Move>)
    requires Calm(s) && Careful(s, moves)
    ensures Calm(Exec(s, moves))
  {
    hide Step, Fails, Calm, AllOver;
    if moves != [] {
      var front, last := moves[..|moves| - 1], moves[|moves| - 1];
      assert forall i :: 0 <= i < |front| ==> front[..i] == moves[..i] && front[i] == moves[i];
      CarefulKeepsCalm(s, front);
      var t := Exec(s, front);
      if Fails(t, last) {
        CheckKeepsCalm(t, last);
      } else if last.Commit? {
        CommitKeepsCalm(t, last.index);
      } else {
        RefusedChangesNothing(t, last);
      }
    }
  }

  lemma RefusedChangesNothing(s: State, m: Move)
    requires m.Check? && !Fails(s, m)
    ensures Step(s, m) == s
  {
  }

  /** When no check reads while another is uncommitted, at most three checks fail in any half-open five minutes,
      and never more than three without a lock. */
  lemma CarefulChecksKeepThree(s: State, moves: seq<Move>, start: Time, openLeft: bool)
    requires Initial(s) && Careful(s, moves)
    ensures CountAt(Exec(s, moves).failures, start, openLeft) <= MAX_LOGIN_ATTEMPTS
    ensures Exec(s, moves).sinceLock <= MAX_LOGIN_ATTEMPTS
  {
    hide Exec, Careful, Calm, Initial;
    InitialIsCalm(s);
    CarefulKeepsCalm(s, moves);
    CalmBounds(Exec(s, moves), start, openLeft);
  }

  // ---------------------------------------------------------------- with overlap

  lemma ExecAppend(s: State, moves: seq<Move>, m: Move)
    ensures Exec(s, moves + [m]) == Step(Exec(s, moves), m)
  {
    assert (moves + [m])[..|moves|] == moves;
  }

  lemma CarefulAppend(s: State, moves: seq<Move>, m: Move)
    requires Careful(s, moves) && (Fails(Exec(s, moves), m) ==> AllOver(Exec(s, moves)))
    ensures Careful(s, moves + [m])
  {
    hide Exec, Fails, AllOver;
    var more := moves + [m];
    forall i | 0 <= i < |more| && Fails(Exec(s, more[..i]), more[i]) ensures AllOver(Exec(s, more[..i])) {
      if i < |moves| {
        assert more[..i] == moves[..i] && more[i] == moves[i];
      } else {
        assert more[..i] == moves;
      }
    }
  }

  /** Two uncommitted checks of one reading, both counted in the history. */
  ghost predicate Twice(s: State, i: nat, j: nat) {
    && CounterSmall(s.account) && i < |s.updates| && j < |s.updates| && i != j
    && (forall k :: 0 <= k < |s.updates| && k != i && k != j ==> s.updates[k] == Over)
    && (exists failedAt :: s.updates[i] == UpdateOf(s.account, failedAt))
    && (exists failedAt :: s.updates[j] == UpdateOf(s.account, failedAt))
    && s.sinceLock == s.account.failed + 2
    && (s.account.lockedUntil.Some? ==> s.account.lockedUntil.value <= s.clock)
  }

  lemma OverlapIsTwice(s: State, m: Move) returns (i: nat)
    requires Calm(s) && Fails(s, m) && !AllOver(s)
    ensures Twice(Step(s, m), i, |s.updates|)
  {
    hide Counted;
    i :| i < |s.updates| && s.updates[i] != Over;
    assert Waiting(s, s.updates[i]);
    assert Step(s, m).updates[|s.updates|] == UpdateOf(s.account, m.failedAt);
  }

  /** The counter is one behind the checks, and nothing is uncommitted. */
  ghost predicate Behind(s: State) {
    && AllOver(s) && CounterSmall(s.account) && s.sinceLock >= s.account.failed + 1
    && (s.account.lockedUntil.Some? ==> s.account.lockedUntil.value <= s.clock)
  }

  /** The window holds the last reading and every failure since the last lock. */
  ghost predicate Within(s: State, start: Time, openLeft: bool) {
    Inside(s.clock, start, LOCKOUT, openLeft) && CountAt(s.failures, start, openLeft) >= s.sinceLock
  }

  /** Committing both leaves the counter one behind, unless more than three checks had failed already. */
  lemma BothCommitted(s: State, i: nat, j: nat)
    requires Twice(s, i, j) && s.sinceLock <= MAX_LOGIN_ATTEMPTS
    ensures var t := Step(Step(s, Commit(i)), Commit(j));
      Behind(t) && t.clock == s.clock && t.failures == s.failures && t.sinceLock == s.sinceLock
  {
  }

  lemma CheckWithin(s: State, m: Move, start: Time, openLeft: bool)
    requires Fails(s, m) && Inside(m.at, start, LOCKOUT, openLeft)
    requires CountAt(s.failures, start, openLeft) >= s.sinceLock
    ensures Within(Step(s, m), start, openLeft)
  {
    assert (s.failures + [m.at])[..|s.failures|] == s.failures;
  }

  /** Once the counter is behind, serial checks make more than three before the lock is committed. */
  lemma {:induction false} CatchUp(s: State, moves: seq<Move>, start: Time, openLeft: bool) returns (more: seq<Move>)
    requires Careful(s, moves) && Behind(Exec(s, moves))
    ensures Careful(s, more) && Exec(s, more).sinceLock > MAX_LOGIN_ATTEMPTS
    ensures Within(Exec(s, moves), start, openLeft) ==> Within(Exec(s, more), start, openLeft)
    decreases MAX_LOGIN_ATTEMPTS - Exec(s, moves).account.failed
  {
    hide Exec, Careful, CountAt;
    var t := Exec(s, moves);
    var check := Check(t.clock, t.clock);
    more := moves + [check];
    assert Fails(t, check);
    if Within(t, start, openLeft) {
      CheckWithin(t, check, start, openLeft);
    }
    CarefulAppend(s, moves, check);
    ExecAppend(s, moves, check);
    if t.account.failed + 1 < MAX_LOGIN_ATTEMPTS {
      var commit := Commit(|t.updates|);
      CarefulAppend(s, more, commit);
      ExecAppend(s, more, commit);
      CommittedAgain(t, check);
      more := CatchUp(s, more + [commit], start, openLeft);
    }
  }

  lemma CommittedAgain(t: State, check: Move)
    requires Behind(t) && check == Check(t.clock, t.clock) && t.account.failed + 1 < MAX_LOGIN_ATTEMPTS
    ensures var u := Step(Step(t, check), Commit(|t.updates|));
      Behind(u) && u.account.failed == t.account.failed + 1
      && u.failures == Step(t, check).failures && u.clock == t.clock && u.sinceLock == Step(t, check).sinceLock
  {
  }

  lemma OverlapGoesPastThree(s: State, m: Move, start: Time, openLeft: bool) returns (moves: seq<Move>)
    requires Calm(s) && Fails(s, m) && !AllOver(s)
    ensures Careful(Step(s, m), moves) && Exec(Step(s, m), moves).sinceLock > MAX_LOGIN_ATTEMPTS
    ensures Within(Step(s, m), start, openLeft) ==> Within(Exec(Step(s, m), moves), start, openLeft)
  {
    hide Exec, Careful, Step, Calm, Behind, Twice;
    var t := Step(s, m);
    var i := OverlapIsTwice(s, m);
    var j := |s.updates|;
    NothingMoved(t);
    if t.sinceLock > MAX_LOGIN_ATTEMPTS {
      moves := [];
    } else {
      BothCommitted(t, i, j);
      CarefulAppend(t, [], Commit(i));
      ExecAppend(t, [], Commit(i));
      CarefulAppend(t, [] + [Commit(i)], Commit(j));
      ExecAppend(t, [] + [Commit(i)], Commit(j));
      moves := CatchUp(t, [] + [Commit(i)] + [Commit(j)], start, openLeft);
    }
  }

  lemma NothingMoved(s: State)
    ensures Exec(s, []) == s && Careful(s, [])
  {
  }

  /** When a check is about to fail on an account that was in order so far: never more than three checks fail
      without a lock, in every continuation without another overlap, exactly when no other check stands between
      its read and its commit. */
  lemma OverlapLosesExactly(s: State, m: Move)
    requires Calm(s) && Fails(s, m)
    ensures (forall moves :: Careful(Step(s, m), moves) ==> Exec(Step(s, m), moves).sinceLock <= MAX_LOGIN_ATTEMPTS)
      <==> AllOver(s)
  {
    hide Exec, Careful, Step, Calm, Fails, AllOver;
    if AllOver(s) {
      CheckKeepsCalm(s, m);
      forall moves | Careful(Step(s, m), moves) ensures Exec(Step(s, m), moves).sinceLock <= MAX_LOGIN_ATTEMPTS {
        CarefulKeepsCalm(Step(s, m), moves);
        CalmBounds(Exec(Step(s, m), moves), 0, false);
      }
    } else {
      var moves := OverlapGoesPastThree(s, m, 0, false);
      assert Careful(Step(s, m), moves) && Exec(Step(s, m), moves).sinceLock > MAX_LOGIN_ATTEMPTS;
    }
  }

  /** The same of a window: when it holds every failure since the last lock and the check about to fail, it holds
      at most three in every continuation without another overlap exactly when no other check stands between its
      read and its commit. */
  lemma WindowHoldsThreeExactly(s: State, m: Move, start: Time, openLeft: bool)
    requires Calm(s) && Fails(s, m) && Inside(m.at, start, LOCKOUT, openLeft)
    requires CountAt(s.failures, start, openLeft) >= s.sinceLock
    ensures (forall moves ::
        Careful(Step(s, m), moves) ==> CountAt(Exec(Step(s, m), moves).failures, start, openLeft) <= MAX_LOGIN_ATTEMPTS)
      <==> AllOver(s)
  {
    hide Exec, Careful, Step, Calm, AllOver, CountAt;
    var t := Step(s, m);
    if AllOver(s) {
      CheckKeepsCalm(s, m);
      forall moves | Careful(t, moves) ensures CountAt(Exec(t, moves).failures, start, openLeft) <= MAX_LOGIN_ATTEMPTS {
        CarefulKeepsCalm(t, moves);
        CalmBounds(Exec(t, moves), start, openLeft);
      }
    } else {
      CheckWithin(s, m, start, openLeft);
      var moves := OverlapGoesPastThree(s, m, start, openLeft);
      assert Within(Exec(t, moves), start, openLeft);
      assert Careful(t, moves) && CountAt(Exec(t, moves).failures, start, openLeft) > MAX_LOGIN_ATTEMPTS;
    }
  }

  // ---------------------------------------------------------------- how far it goes

  const FRESH := Account(0, None)

  /** Checks that all read at one instant. */
  function Burst(n: nat, at: Time): seq<Move> {
    if n == 0 then [] else Burst(n - 1, at) + [Check(at, at)]
  }

  function Commits(n: nat): seq<Move> {
    if n == 0 then [] else Commits(n - 1) + [Commit(n - 1)]
  }

  lemma {:induction false} BurstReads(n: nat, at: Time)
    ensures var t := Exec(State(FRESH, [], [], 0, at), Burst(n, at));
      && t.account == FRESH && t.clock == at && |t.updates| == n && |t.failures| == n
      && (forall i :: 0 <= i < n ==> t.updates[i] == Counter(1) && t.failures[i] == at)
  {
    if n > 0 {
      BurstReads(n - 1, at);
      ExecAppend(State(FRESH, [], [], 0, at), Burst(n - 1, at), Check(at, at));
    }
  }

  lemma {:induction false} BurstCommits(t: State, n: nat)
    requires t.account == FRESH && n <= |t.updates|
    requires forall i :: 0 <= i < |t.updates| ==> t.updates[i] == Counter(1)
    ensures var u := Exec(t, Commits(n));
      && u.account == Account(if n == 0 then 0 else 1, None) && u.failures == t.failures && |u.updates| == |t.updates|
      && (forall i :: 0 <= i < |t.updates| ==> u.updates[i] == if i < n then Over else Counter(1))
  {
    if n > 0 {
      BurstCommits(t, n - 1);
      ExecAppend(t, Commits(n - 1), Commit(n - 1));
    }
  }

  lemma {:induction false} ExecJoin(s: State, a: seq<Move>, b: seq<Move>)
    ensures Exec(s, a + b) == Exec(Exec(s, a), b)
    decreases |b|
  {
    hide Step;
    if b == [] {
      assert a + b == a;
    } else {
      ExecJoin(s, a, b[..|b| - 1]);
      ExecAppend(s, a + b[..|b| - 1], b[|b| - 1]);
      assert a + b == a + b[..|b| - 1] + [b[|b| - 1]];
    }
  }

  lemma {:induction false} AllAtOnce(failures: seq<Time>, at: Time)
    requires forall i :: 0 <= i < |failures| ==> failures[i] == at
    ensures CountAt(failures, at, false) == |failures|
  {
    if failures != [] {
      AllAtOnce(failures[..|failures| - 1], at);
    }
  }

  /** There is no bound at all: any number of overlapping checks of a fresh account fail at one instant, and when
      all are committed the counter is one and nothing is locked. */
  lemma AnyNumberCountsAsOne(n: nat, at: Time)
    requires n > 0
    ensures var s := State(FRESH, [], [], 0, at); var t := Exec(s, Burst(n, at) + Commits(n));
      Initial(s) && AllOver(t) && t.account == Account(1, None) && CountAt(t.failures, at, false) == n
  {
    hide Exec, Step, Burst, Commits, CountAt;
    var s := State(FRESH, [], [], 0, at);
    var read := Exec(s, Burst(n, at));
    BurstReads(n, at);
    BurstCommits(read, n);
    ExecJoin(s, Burst(n, at), Commits(n));
    AllAtOnce(read.failures, at);
  }
}
