/**
 The two guards of the login endpoint (app/routers/auth.py): the attempts admitted per IP address, counted in
 a table that is pruned as it goes, and the lock an account gets after three wrong passwords. Times are
 microseconds. One request's transaction is one step.
 */
module LoginGuard {
  import opened Common

  type Time = int

  const MINUTE: Time := 60 * 1_000_000
  const MAX_LOGIN_ATTEMPTS := 3
  const LOCKOUT: Time := 5 * MINUTE
  const IP_RATE_WINDOW: Time := 15 * MINUTE
  const IP_RATE_MAX := 20
  /** Attempts are kept an hour longer than the window needs them. */
  const BUFFER: Time := 60 * MINUTE

  // ---------------------------------------------------------------- the limiter

  datatype Attempt = Attempt(ip: string, at: Time)

  /** The rows left by the delete that precedes the count. */
  function Kept(rows: seq<Attempt>, cut: Time): seq<Attempt> {
    if rows == [] then [] else
      var kept := Kept(rows[..|rows| - 1], cut);
      if rows[|rows| - 1].at < cut then kept else kept + [rows[|rows| - 1]]
  }

  function CountSince(rows: seq<Attempt>, ip: string, start: Time): nat {
    if rows == [] then 0 else
      var last := rows[|rows| - 1];
      CountSince(rows[..|rows| - 1], ip, start) + if last.ip == ip && last.at > start then 1 else 0
  }

  /** The attempts of an address after an instant, by position. */
  function Since(rows: seq<Attempt>, ip: string, start: Time): set<nat> {
    set i: nat | i < |rows| && rows[i].ip == ip && start < rows[i].at
  }

  lemma {:induction false} CountSinceCounts(rows: seq<Attempt>, ip: string, start: Time)
    ensures CountSince(rows, ip, start) == |Since(rows, ip, start)|
  {
    if rows != [] {
      var n := |rows| - 1;
      CountSinceCounts(rows[..n], ip, start);
      assert Since(rows, ip, start) ==
        Since(rows[..n], ip, start) + if rows[n].ip == ip && start < rows[n].at then {n} else {};
    }
  }

  predicate OverLimit(rows: seq<Attempt>, request: Attempt) {
    CountSince(rows, request.ip, request.at - IP_RATE_WINDOW) >= IP_RATE_MAX
  }

  function CutAt(now: Time): Time {
    now - IP_RATE_WINDOW - BUFFER
  }

  /** The table after one request. */
  function Admit(rows: seq<Attempt>, request: Attempt): seq<Attempt> {
    var kept := Kept(rows, CutAt(request.at));
    if OverLimit(kept, request) then kept else kept + [request]
  }

  /** The table after a run of requests that starts from an empty one. */
  function TableAfter(requests: seq<Attempt>): seq<Attempt> {
    if requests == [] then [] else Admit(TableAfter(requests[..|requests| - 1]), requests[|requests| - 1])
  }

  /** The attempts admitted in a run, with nothing ever deleted and each decision made on all of them. */
  function History(requests: seq<Attempt>): seq<Attempt> {
    if requests == [] then [] else
      var before := History(requests[..|requests| - 1]);
      var request := requests[|requests| - 1];
      if OverLimit(before, request) then before else before + [request]
  }

  predicate InOrder(requests: seq<Attempt>) {
    forall i, j :: 0 <= i < j < |requests| ==> requests[i].at <= requests[j].at
  }

  lemma {:induction false} KeptTwice(rows: seq<Attempt>, cut: Time, later: Time)
    requires cut <= later
    ensures Kept(Kept(rows, cut), later) == Kept(rows, later)
  {
    if rows != [] {
      var front, last := rows[..|rows| - 1], rows[|rows| - 1];
      KeptTwice(front, cut, later);
      if last.at >= cut {
        assert (Kept(front, cut) + [last])[..|Kept(front, cut)|] == Kept(front, cut);
      }
    }
  }

  /** Deleting what is older than the window does not change the count. */
  lemma {:induction false} KeptCounts(rows: seq<Attempt>, cut: Time, ip: string, start: Time)
    requires cut <= start
    ensures CountSince(Kept(rows, cut), ip, start) == CountSince(rows, ip, start)
  {
    if rows != [] {
      var front, last := rows[..|rows| - 1], rows[|rows| - 1];
      KeptCounts(front, cut, ip, start);
      if last.at >= cut {
        assert (Kept(front, cut) + [last])[..|Kept(front, cut)|] == Kept(front, cut);
      }
    }
  }

  lemma KeptOneMore(rows: seq<Attempt>, row: Attempt, cut: Time)
    requires row.at >= cut
    ensures Kept(rows + [row], cut) == Kept(rows, cut) + [row]
  {
    assert (rows + [row])[..|rows|] == rows;
  }

  /** One request on the pruned table and on the full history. */
  lemma DecideAlike(table: seq<Attempt>, history: seq<Attempt>, cut: Time, next: Attempt)
    requires table == Kept(history, cut) && cut <= CutAt(next.at)
    ensures OverLimit(Kept(table, CutAt(next.at)), next) <==> OverLimit(history, next)
    ensures Admit(table, next) == Kept(if OverLimit(history, next) then history else history + [next], CutAt(next.at))
  {
    hide Kept, CountSince;
    KeptTwice(history, cut, CutAt(next.at));
    KeptCounts(history, CutAt(next.at), next.ip, next.at - IP_RATE_WINDOW);
    KeptOneMore(history, next, CutAt(next.at));
  }

  lemma EmptyTable(cut: Time)
    ensures TableAfter([]) == Kept(History([]), cut)
  {
  }

  lemma {:induction false} TableIsRecentHistory(requests: seq<Attempt>)
    requires requests != [] && InOrder(requests)
    ensures TableAfter(requests) == Kept(History(requests), CutAt(requests[|requests| - 1].at))
  {
    hide Kept, Admit, OverLimit;
    var front, last := requests[..|requests| - 1], requests[|requests| - 1];
    if front == [] {
      EmptyTable(CutAt(last.at));
      DecideAlike(TableAfter(front), History(front), CutAt(last.at), last);
    } else {
      TableIsRecentHistory(front);
      DecideAlike(TableAfter(front), History(front), CutAt(front[|front| - 1].at), last);
    }
  }

  /** When time does not run backwards, the limiter with the pruned table decides every request as it would
      on the full history. */
  lemma PrunedTableDecidesAlike(requests: seq<Attempt>, next: Attempt)
    requires InOrder(requests + [next])
    ensures OverLimit(Kept(TableAfter(requests), CutAt(next.at)), next) <==> OverLimit(History(requests), next)
  {
    hide Kept, Admit, OverLimit;
    var all := requests + [next];
    assert forall i :: 0 <= i < |requests| ==> all[i] == requests[i];
    if requests == [] {
      EmptyTable(CutAt(next.at));
      DecideAlike(TableAfter(requests), History(requests), CutAt(next.at), next);
    } else {
      assert all[|requests| - 1].at <= all[|requests|].at;
      TableIsRecentHistory(requests);
      DecideAlike(TableAfter(requests), History(requests), CutAt(requests[|requests| - 1].at), next);
    }
  }

  /** A half-open window of a given length: closed on the left, or on the right. */
  predicate Inside(at: Time, start: Time, length: Time, openLeft: bool) {
    if openLeft then start < at <= start + length else start <= at < start + length
  }

  function CountInside(rows: seq<Attempt>, ip: string, start: Time, openLeft: bool): nat {
    if rows == [] then 0 else
      var last := rows[|rows| - 1];
      CountInside(rows[..|rows| - 1], ip, start, openLeft)
      + if last.ip == ip && Inside(last.at, start, IP_RATE_WINDOW, openLeft) then 1 else 0
  }

  lemma {:induction false} WindowCountsLess(rows: seq<Attempt>, ip: string, start: Time, openLeft: bool, now: Time)
    requires Inside(now, start, IP_RATE_WINDOW, openLeft)
    ensures CountInside(rows, ip, start, openLeft) <= CountSince(rows, ip, now - IP_RATE_WINDOW)
  {
    if rows != [] {
      WindowCountsLess(rows[..|rows| - 1], ip, start, openLeft, now);
    }
  }

  /** In every run, whatever its times, no address gets more than twenty attempts admitted in any half-open
      quarter of an hour. */
  lemma {:induction false} AtMostTwentyPerWindow(requests: seq<Attempt>, ip: string, start: Time, openLeft: bool)
    ensures CountInside(History(requests), ip, start, openLeft) <= 20
  {
    if requests != [] {
      var front, last := requests[..|requests| - 1], requests[|requests| - 1];
      AtMostTwentyPerWindow(front, ip, start, openLeft);
      var before := History(front);
      if !OverLimit(before, last) {
        assert (before + [last])[..|before|] == before;
        if Inside(last.at, start, IP_RATE_WINDOW, openLeft) && last.ip == ip {
          WindowCountsLess(before, ip, start, openLeft, last.at);
        }
      }
    }
  }

  /** The attempts the pruning limiter itself admits. */
  function Admitted(requests: seq<Attempt>): seq<Attempt> {
    if requests == [] then [] else
      var front, request := requests[..|requests| - 1], requests[|requests| - 1];
      Admitted(front) + if OverLimit(Kept(TableAfter(front), CutAt(request.at)), request) then [] else [request]
  }

  lemma {:induction false} AdmittedIsHistory(requests: seq<Attempt>)
    requires InOrder(requests)
    ensures Admitted(requests) == History(requests)
  {
    if requests != [] {
      var front, last := requests[..|requests| - 1], requests[|requests| - 1];
      AdmittedIsHistory(front);
      assert front + [last] == requests;
      PrunedTableDecidesAlike(front, last);
    }
  }

  /** What the limiter with the pruned table admits in a run of non-decreasing times keeps the bound. */
  lemma PrunedLimiterKeepsBound(requests: seq<Attempt>, ip: string, start: Time, openLeft: bool)
    requires InOrder(requests)
    ensures CountInside(Admitted(requests), ip, start, openLeft) <= 20
  {
    AdmittedIsHistory(requests);
    AtMostTwentyPerWindow(requests, ip, start, openLeft);
  }

  // ---------------------------------------------------------------- the lock

  datatype Account = Account(failed: int, lockedUntil: Option<Time>)

  /** What happens to one account: a login request with the clock as read at the lock check and again when a
      lock is set, or a reset from one of the account services. */
  datatype Event = Login(passwordOk: bool, active: bool, checkedAt: Time, failedAt: Time) | Reset(at: Time)

  datatype Outcome = Locked | WrongPassword | LockedNow | Disabled | LoggedIn | WasReset

  predicate Refused(a: Account, now: Time) {
    a.lockedUntil.Some? && a.lockedUntil.value > now
  }

  function OutcomeOf(a: Account, e: Event): Outcome {
    match e
    case Reset(_) => WasReset
    case Login(passwordOk, active, checkedAt, _) =>
      if Refused(a, checkedAt) then Locked
      else if !passwordOk then (if a.failed + 1 >= MAX_LOGIN_ATTEMPTS then LockedNow else WrongPassword)
      else if !active then Disabled
      else LoggedIn
  }

  function Next(a: Account, e: Event): Account {
    match OutcomeOf(a, e)
    case Locked => a
    case WrongPassword => a.(failed := a.failed + 1)
    case LockedNow => Account(0, Some(e.failedAt + LOCKOUT))
    case Disabled => a
    case LoggedIn => Account(0, None)
    case WasReset => Account(0, None)
  }

  function After(a: Account, events: seq<Event>): Account {
    if events == [] then a else Next(After(a, events[..|events| - 1]), events[|events| - 1])
  }

  predicate CounterSmall(a: Account) {
    0 <= a.failed < MAX_LOGIN_ATTEMPTS
  }

  /** Between requests the counter is 0, 1 or 2, whatever happens. */
  lemma {:induction false} CounterStaysSmall(a: Account, events: seq<Event>)
    requires CounterSmall(a)
    ensures CounterSmall(After(a, events))
  {
    if events != [] {
      CounterStaysSmall(a, events[..|events| - 1]);
    }
  }

  function StartOf(e: Event): Time {
    if e.Reset? then e.at else e.checkedAt
  }

  function EndOf(e: Event): Time {
    if e.Reset? then e.at else e.failedAt
  }

  /** Clock readings never go backwards. */
  predicate Timed(events: seq<Event>) {
    && (forall i :: 0 <= i < |events| ==> StartOf(events[i]) <= EndOf(events[i]))
    && (forall i, j :: 0 <= i < j < |events| ==> EndOf(events[i]) <= StartOf(events[j]))
  }

  predicate IsFailure(o: Outcome) {
    o == WrongPassword || o == LockedNow
  }

  /** The failed password checks of a run inside a window. */
  function Failures(a: Account, events: seq<Event>, start: Time, openLeft: bool): nat {
    if events == [] then 0 else
      var front, e := events[..|events| - 1], events[|events| - 1];
      Failures(a, front, start, openLeft)
      + if IsFailure(OutcomeOf(After(a, front), e)) && Inside(e.checkedAt, start, LOCKOUT, openLeft) then 1 else 0
  }

  /** Nobody logged in and nothing reset the account during the run. */
  predicate Undisturbed(a: Account, events: seq<Event>) {
    events == [] ||
      (Undisturbed(a, events[..|events| - 1])
       && OutcomeOf(After(a, events[..|events| - 1]), events[|events| - 1]) !in {LoggedIn, WasReset})
  }

  /** Past the whole window. */
  predicate Beyond(at: Time, start: Time, openLeft: bool) {
    if openLeft then at > start + LOCKOUT else at >= start + LOCKOUT
  }

  /** Either the failures in the window are still in the counter, or the lock outlasts the window. */
  lemma {:induction false} CountedOrLocked(a: Account, events: seq<Event>, start: Time, openLeft: bool)
    requires CounterSmall(a) && Timed(events) && Undisturbed(a, events)
    ensures var b := After(a, events); var n := Failures(a, events, start, openLeft);
      && (n <= b.failed || (b.lockedUntil.Some? && Beyond(b.lockedUntil.value, start, openLeft)
                            && n <= MAX_LOGIN_ATTEMPTS))
      && (n > 0 ==> (if openLeft then start < EndOf(events[|events| - 1]) else start <= EndOf(events[|events| - 1])))
  {
    if events != [] {
      var front, e := events[..|events| - 1], events[|events| - 1];
      CountedOrLocked(a, front, start, openLeft);
      CounterStaysSmall(a, front);
      if front != [] {
        assert front[|front| - 1] == events[|front| - 1];
        assert EndOf(front[|front| - 1]) <= StartOf(e);
      }
    }
  }

  /** In any half-open five minutes without a successful login or a reset, at most three password checks of
      an account fail. */
  lemma AtMostThreeFailures(a: Account, events: seq<Event>, start: Time, openLeft: bool)
    requires CounterSmall(a) && Timed(events) && Undisturbed(a, events)
    ensures Failures(a, events, start, openLeft) <= 3
  {
    CountedOrLocked(a, events, start, openLeft);
    CounterStaysSmall(a, events);
  }

  /** The failed checks between two instants, both included. */
  function FailuresBetween(a: Account, events: seq<Event>, first: Time, last: Time): nat {
    if events == [] then 0 else
      var front, e := events[..|events| - 1], events[|events| - 1];
      FailuresBetween(a, front, first, last)
      + if IsFailure(OutcomeOf(After(a, front), e)) && first <= e.checkedAt <= last then 1 else 0
  }

  /** A closed window is a half-open one and its last instant. */
  lemma {:induction false} LastInstantApart(a: Account, events: seq<Event>, start: Time)
    ensures FailuresBetween(a, events, start, start + LOCKOUT)
         == Failures(a, events, start, false) + FailuresBetween(a, events, start + LOCKOUT, start + LOCKOUT)
    ensures FailuresBetween(a, events, start + LOCKOUT, start + LOCKOUT) <= Failures(a, events, start, true)
  {
    hide OutcomeOf, After;
    if events != [] {
      LastInstantApart(a, events[..|events| - 1], start);
    }
  }

  /** Five minutes with both ends hold at most six failures, and more than three only if some fall on the last
      instant, when the lock has just ended. */
  lemma ClosedWindowHoldsSix(a: Account, events: seq<Event>, start: Time)
    requires CounterSmall(a) && Timed(events) && Undisturbed(a, events)
    ensures FailuresBetween(a, events, start, start + LOCKOUT) <= 2 * MAX_LOGIN_ATTEMPTS
    ensures FailuresBetween(a, events, start, start + LOCKOUT) > MAX_LOGIN_ATTEMPTS ==>
      FailuresBetween(a, events, start + LOCKOUT, start + LOCKOUT) > 0
  {
    hide Failures, FailuresBetween;
    LastInstantApart(a, events, start);
    AtMostThreeFailures(a, events, start, false);
    AtMostThreeFailures(a, events, start, true);
  }

  /** Three wrong passwords, and three more when the lock ends. */
  function WrongAt(t: Time, i: nat): Event {
    var at := if i < 3 then t else t + LOCKOUT;
    Login(false, true, at, at)
  }

  function SixWrong(t: Time, n: nat): seq<Event> {
    if n == 0 then [] else SixWrong(t, n - 1) + [WrongAt(t, n - 1)]
  }

  function SixStates(t: Time, n: nat): Account {
    Account(n % 3, if n < 3 then None else if n < 6 then Some(t + LOCKOUT) else Some(t + LOCKOUT + LOCKOUT))
  }

  lemma OneEventMore(a: Account, events: seq<Event>, e: Event, first: Time, last: Time)
    ensures After(a, events + [e]) == Next(After(a, events), e)
    ensures Undisturbed(a, events + [e]) <==>
      Undisturbed(a, events) && OutcomeOf(After(a, events), e) !in {LoggedIn, WasReset}
    ensures FailuresBetween(a, events + [e], first, last) == FailuresBetween(a, events, first, last)
      + if IsFailure(OutcomeOf(After(a, events), e)) && first <= e.checkedAt <= last then 1 else 0
  {
    assert (events + [e])[..|events|] == events;
  }

  lemma WrongAgain(t: Time, i: nat)
    requires i < 6
    ensures IsFailure(OutcomeOf(SixStates(t, i), WrongAt(t, i)))
      && Next(SixStates(t, i), WrongAt(t, i)) == SixStates(t, i + 1)
  {
  }

  lemma {:induction false} SixWrongRun(t: Time, n: nat)
    requires n <= 6
    ensures After(Account(0, None), SixWrong(t, n)) == SixStates(t, n) && Undisturbed(Account(0, None), SixWrong(t, n))
    ensures FailuresBetween(Account(0, None), SixWrong(t, n), t, t + LOCKOUT) == n
  {
    hide Next, OutcomeOf;
    if n > 0 {
      SixWrongRun(t, n - 1);
      OneEventMore(Account(0, None), SixWrong(t, n - 1), WrongAt(t, n - 1), t, t + LOCKOUT);
      WrongAgain(t, n - 1);
    }
  }

  lemma {:induction false} SixWrongTimed(t: Time, n: nat)
    requires n <= 6
    ensures |SixWrong(t, n)| == n && Timed(SixWrong(t, n))
    ensures forall i :: 0 <= i < n ==>
      SixWrong(t, n)[i].Login?
      && SixWrong(t, n)[i].checkedAt == SixWrong(t, n)[i].failedAt == if i < 3 then t else t + LOCKOUT
  {
    if n > 0 {
      SixWrongTimed(t, n - 1);
    }
  }

  /** Six are reached. */
  lemma SixFailuresHappen(t: Time)
    ensures Timed(SixWrong(t, 6)) && Undisturbed(Account(0, None), SixWrong(t, 6))
    ensures FailuresBetween(Account(0, None), SixWrong(t, 6), t, t + LOCKOUT) == 6
  {
    SixWrongRun(t, 6);
    SixWrongTimed(t, 6);
  }

  // ---------------------------------------------------------------- the endpoint

  datatype User = User(password: string, active: bool, account: Account)
  datatype Reply = TooManyRequests | AccountLocked | BadCredentials | LockedFromNow | AccountDisabled | Success

  function ReplyOf(o: Outcome): Reply {
    match o
    case Locked => AccountLocked
    case WrongPassword => BadCredentials
    case LockedNow => LockedFromNow
    case Disabled => AccountDisabled
    case LoggedIn => Success
    case WasReset => Success
  }

  /** What a login does to an account, in numbers: while the lock lasts nothing; the third wrong password locks for five
      minutes and starts the count again; a right one clears both, unless the account is disabled. */
  predicate Answered(before: User, after: User, matches: bool, checkedAt: Time, failedAt: Time, reply: Reply) {
    var was := before.account;
    if was.lockedUntil.Some? && checkedAt < was.lockedUntil.value then reply == AccountLocked && after == before
    else if !matches && was.failed < 2 then
      reply == BadCredentials && after == before.(account := Account(was.failed + 1, was.lockedUntil))
    else if !matches then
      reply == LockedFromNow && after == before.(account := Account(0, Some(failedAt + 300_000_000)))
    else if before.active then reply == Success && after == before.(account := Account(0, None))
    else reply == AccountDisabled && after == before
  }

  class LoginService {
    var attempts: seq<Attempt>
    var users: map<string, User>

    /** _check_ip_rate_limit: twenty attempts in a quarter of an hour, counted as if nothing were ever deleted; what is
        deleted is more than seventy-five minutes old. */
    method CheckIpRateLimit(ip: string, now: Time) returns (limited: bool)
      modifies `attempts
      ensures limited <==> |Since(old(attempts), ip, now - 900_000_000)| >= 20
      ensures attempts == Kept(old(attempts), now - 4_500_000_000) + if limited then [] else [Attempt(ip, now)]
      ensures limited <==> OverLimit(Kept(old(attempts), CutAt(now)), Attempt(ip, now))
      ensures attempts == Admit(old(attempts), Attempt(ip, now))
    {
      var windowStart := now - IP_RATE_WINDOW;
      KeptCounts(attempts, windowStart - BUFFER, ip, windowStart);
      CountSinceCounts(attempts, ip, windowStart);
      attempts := Kept(attempts, windowStart - BUFFER);
      var count := CountSince(attempts, ip, windowStart);
      if count >= IP_RATE_MAX {
        return true;
      }
      attempts := attempts + [Attempt(ip, now)];
      return false;
    }

    /** The counter and lock part of login. The clock is read for the limiter, for the lock and when a lock is
        set; `matches` is what verify_password says. */
    method Login(username: string, ip: string, matches: bool, now: Time, checkedAt: Time, failedAt: Time)
      returns (reply: Reply)
      modifies this
      ensures attempts == Admit(old(attempts), Attempt(ip, now))
      ensures reply == TooManyRequests <==> OverLimit(Kept(old(attempts), CutAt(now)), Attempt(ip, now))
      ensures users.Keys == old(users).Keys
      ensures forall name :: name in users && name != username ==> users[name] == old(users)[name]
      ensures reply == TooManyRequests || username !in old(users) ==> users == old(users)
      ensures reply != TooManyRequests && username !in old(users) ==> reply == BadCredentials
      ensures reply != TooManyRequests && username in old(users) ==>
        var user := old(users)[username]; var e := Event.Login(matches, user.active, checkedAt, failedAt);
        users[username] == user.(account := Next(user.account, e)) && reply == ReplyOf(OutcomeOf(user.account, e))
      ensures reply != TooManyRequests && username in old(users) ==>
        Answered(old(users)[username], users[username], matches, checkedAt, failedAt, reply)
    {
      var limited := CheckIpRateLimit(ip, now);
      if limited {
        return TooManyRequests;
      }
      if username in users {
        var user := users[username];
        var account := user.account;
        if account.lockedUntil.Some? && account.lockedUntil.value > checkedAt {
          return AccountLocked;
        }
        if !matches {
          account := account.(failed := account.failed + 1);
          if account.failed >= MAX_LOGIN_ATTEMPTS {
            account := account.(lockedUntil := Some(failedAt + LOCKOUT), failed := 0);
            users := users[username := user.(account := account)];
            return LockedFromNow;
          }
          users := users[username := user.(account := account)];
          return BadCredentials;
        }
        if !user.active {
          return AccountDisabled;
        }
        account := account.(failed := 0, lockedUntil := None);
        users := users[username := user.(account := account)];
        return Success;
      }
      return BadCredentials;
    }
  }
}
