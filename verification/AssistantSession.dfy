/**
 The turns of one assistant session as they interleave (app/assistant_service.py). Between two database
 statements of one turn any other turn may move. A turn reads whether a call waits for confirmation, reads
 whether a run is active, commits its own run, and works until it stores its outcome: a call that waits, or an
 end. What it does in between stores nothing that waits, and its last act is that outcome
 (AssistantTurn.TurnIsBounded).
 */
module AssistantSession {
  type Time = int

  /** A run counts as active for five minutes, in microseconds. */
  const ACTIVE_RUN: Time := 5 * 60 * 1_000_000

  datatype Run = Run(running: bool, createdAt: Time)

  /** A tool call that waits, or no longer waits, and the turn that stored it. */
  datatype Call = Call(turn: nat, pending: bool)

  /** The statement a turn performs next. A turn that works has committed a run. */
  datatype Turn = CheckPending | CheckActive | InsertRun | Working(run: nat) | Ended

  /** The committed rows of the session, its turns, and the latest clock reading. */
  datatype Session = Session(runs: seq<Run>, calls: seq<Call>, turns: seq<Turn>, clock: Time)

  /** What a working turn does: ask on, store a call that waits, or end without one. */
  datatype Act = Ask | Store | Finish

  /** A turn moves, stops forever where it stands, or a waiting call is settled by approval or rejection. */
  datatype Move = Go(turn: nat, now: Time, act: Act) | Crash(turn: nat) | Settle(call: nat)

  predicate HasPending(s: Session) {
    exists c :: 0 <= c < |s.calls| && s.calls[c].pending
  }

  predicate HasActiveRun(s: Session, now: Time) {
    exists r :: 0 <= r < |s.runs| && s.runs[r].running && s.runs[r].createdAt >= now - ACTIVE_RUN
  }

  function EndRun(s: Session, turn: nat): Session
    requires turn < |s.turns| && s.turns[turn].Working?
  {
    var r := s.turns[turn].run;
    s.(turns := s.turns[turn := Ended],
       runs := if r < |s.runs| then s.runs[r := s.runs[r].(running := false)] else s.runs)
  }

  function Advance(s: Session, turn: nat, now: Time, act: Act): Session
    requires turn < |s.turns|
  {
    var t := s.(clock := now);
    match s.turns[turn]
    case CheckPending => t.(turns := s.turns[turn := if HasPending(s) then Ended else CheckActive])
    case CheckActive => t.(turns := s.turns[turn := if HasActiveRun(s, now) then Ended else InsertRun])
    case InsertRun => t.(runs := s.runs + [Run(true, now)], turns := s.turns[turn := Working(|s.runs|)])
    case Working(_) =>
      if act == Ask then t
      else if act == Finish then EndRun(t, turn)
      else EndRun(t, turn).(calls := s.calls + [Call(turn, true)])
    case Ended => t
  }

  /** Clock readings never go backwards. */
  function Step(s: Session, m: Move): Session {
    match m
    case Go(turn, now, act) => if turn < |s.turns| && s.clock <= now then Advance(s, turn, now, act) else s
    case Crash(turn) => if turn < |s.turns| then s.(turns := s.turns[turn := Ended]) else s
    case Settle(c) => if c < |s.calls| then s.(calls := s.calls[c := s.calls[c].(pending := false)]) else s
  }

  function Exec(s: Session, moves: seq<Move>): Session {
    if moves == [] then s else Step(Exec(s, moves[..|moves| - 1]), moves[|moves| - 1])
  }

  ghost predicate Initial(s: Session) {
    s.runs == [] && s.calls == [] && forall i :: 0 <= i < |s.turns| ==> s.turns[i] == CheckPending
  }

  ghost predicate AtMostOnePending(s: Session) {
    forall i, j :: 0 <= i < j < |s.calls| ==> !s.calls[i].pending || !s.calls[j].pending
  }

  // ---------------------------------------------------------------- what keeps a session to one pending call

  /** The turn has passed both checks and not ended. */
  predicate Admitted(t: Turn) {
    t.InsertRun? || t.Working?
  }

  /** One turn is admitted at a time, and none while a call waits. */
  ghost predicate Calm(s: Session) {
    && AtMostOnePending(s)
    && (forall i, j :: 0 <= i < j < |s.turns| ==> !Admitted(s.turns[i]) || !Admitted(s.turns[j]))
    && (HasPending(s) ==> forall i :: 0 <= i < |s.turns| ==> !Admitted(s.turns[i]))
  }

  /** The move passes the second check. */
  predicate Admits(s: Session, m: Move) {
    m.Go? && m.turn < |s.turns| && s.clock <= m.now && s.turns[m.turn] == CheckActive && !HasActiveRun(s, m.now)
  }

  /** Why the two reads do not see what stands in the way: another turn has passed them and not committed its
      run, or works on one that is older than five minutes, or a call was stored after the first read. */
  predicate Overlaps(s: Session, turn: nat, now: Time) {
    || (exists q :: 0 <= q < |s.turns| && q != turn && s.turns[q].InsertRun?)
    || (exists q :: 0 <= q < |s.turns| && q != turn && WorksOnOldRun(s, q, now))
    || HasPending(s)
  }

  predicate WorksOnOldRun(s: Session, q: nat, now: Time)
    requires q < |s.turns|
  {
    s.turns[q].Working? && s.turns[q].run < |s.runs| && s.runs[s.turns[q].run].createdAt < now - 300_000_000
  }

  /** A working turn's run is committed and running, and belongs to it alone. */
  ghost predicate RunsOk(s: Session) {
    && (forall q :: 0 <= q < |s.turns| && s.turns[q].Working? ==>
        s.turns[q].run < |s.runs| && s.runs[s.turns[q].run].running)
    && (forall p, q :: 0 <= p < q < |s.turns| && s.turns[p].Working? && s.turns[q].Working? ==>
        s.turns[p].run != s.turns[q].run)
  }

  lemma StepKeepsRuns(s: Session, m: Move)
    requires RunsOk(s)
    ensures RunsOk(Step(s, m))
  {
    hide HasPending, HasActiveRun;
  }

  /** At an admission, another admitted turn is one of the first two reasons. */
  lemma AdmittedIsOverlap(s: Session, m: Move, q: nat)
    requires RunsOk(s) && Admits(s, m) && q < |s.turns| && Admitted(s.turns[q])
    ensures q != m.turn && Overlaps(s, m.turn, m.now)
  {
    hide HasPending;
    if s.turns[q].Working? {
      var r := s.turns[q].run;
      assert s.runs[r].running;
      assert WorksOnOldRun(s, q, m.now);
    }
  }

  lemma StepKeepsCalm(s: Session, m: Move)
    requires Calm(s) && RunsOk(s) && (Admits(s, m) ==> !Overlaps(s, m.turn, m.now))
    ensures Calm(Step(s, m))
  {
    if Admits(s, m) {
      forall q: nat | q < |s.turns| ensures !Admitted(s.turns[q]) {
        if Admitted(s.turns[q]) {
          AdmittedIsOverlap(s, m, q);
        }
      }
      assert !HasPending(s);
    } else if m.Go? && m.turn < |s.turns| && s.clock <= m.now {
      OtherMovesKeepCalm(s, m.turn, m.now, m.act);
    }
  }

  lemma OtherMovesKeepCalm(s: Session, turn: nat, now: Time, act: Act)
    requires Calm(s) && turn < |s.turns| && !(s.turns[turn].CheckActive? && !HasActiveRun(s, now))
    ensures Calm(Advance(s, turn, now, act))
  {
    hide HasActiveRun;
  }

  /** Every admission of the run is without overlap. */
  ghost predicate Careful(s: Session, moves: seq<Move>) {
    forall i :: 0 <= i < |moves| ==> Admits(Exec(s, moves[..i]), moves[i]) ==>
      !Overlaps(Exec(s, moves[..i]), moves[i].turn, moves[i].now)
  }

  /** If no turn of the run passes both checks while another is between its checks and its commit, or works past
      its five minutes, or after a call was stored since its first check, then never two calls wait. */
  lemma {:induction false} CarefulRunsKeepOnePending(s: Session, moves: seq<Move>)
    requires Initial(s) && Careful(s, moves)
    ensures AtMostOnePending(Exec(s, moves)) && Calm(Exec(s, moves)) && RunsOk(Exec(s, moves))
  {
    hide Step, Admits, Overlaps, Calm, RunsOk;
    if moves == [] {
      InitialIsCalm(s);
    } else {
      var front := moves[..|moves| - 1];
      assert forall i :: 0 <= i < |front| ==> front[..i] == moves[..i] && front[i] == moves[i];
      CarefulRunsKeepOnePending(s, front);
      StepKeepsCalm(Exec(s, front), moves[|moves| - 1]);
      StepKeepsRuns(Exec(s, front), moves[|moves| - 1]);
      CalmMeansOne(Exec(s, moves));
    }
  }

  lemma InitialIsCalm(s: Session)
    requires Initial(s)
    ensures Calm(s) && RunsOk(s) && AtMostOnePending(s)
  {
  }

  lemma CalmMeansOne(s: Session)
    requires Calm(s)
    ensures AtMostOnePending(s)
  {
  }

  /** A turn that moves twice, nobody moving in between and no turn admitted meanwhile, passes both checks exactly when
      no call waits and every run that has not ended is more than five minutes old. */
  lemma ChecksPassExactly(s: Session, turn: nat, now: Time)
    requires turn < |s.turns| && s.turns[turn] == CheckPending && s.clock <= now
    ensures Exec(s, [Go(turn, now, Ask), Go(turn, now, Ask)]).turns == s.turns[turn := InsertRun] <==>
      (forall c :: 0 <= c < |s.calls| ==> !s.calls[c].pending)
      && forall r :: 0 <= r < |s.runs| && s.runs[r].running ==> s.runs[r].createdAt < now - 300_000_000
  {
    var m := Go(turn, now, Ask);
    ExecAppend(s, [], m);
    ExecAppend(s, [m], m);
    assert [] + [m] == [m] && [m] + [m] == [m, m] && Exec(s, []) == s;
  }

  /** Settling the one call that waits lets the next turn through, unless a run keeps it out. */
  lemma SettledSessionGoesOn(s: Session, c: nat, turn: nat, now: Time)
    requires c < |s.calls| && s.calls[c].pending && AtMostOnePending(s)
    requires turn < |s.turns| && s.turns[turn] == CheckPending && s.clock <= now
    ensures Exec(Step(s, Settle(c)), [Go(turn, now, Ask), Go(turn, now, Ask)]).turns == s.turns[turn := InsertRun] <==>
      forall r :: 0 <= r < |s.runs| && s.runs[r].running ==> s.runs[r].createdAt < now - 300_000_000
  {
    var t := Step(s, Settle(c));
    assert t == s.(calls := s.calls[c := s.calls[c].(pending := false)]);
    ChecksPassExactly(t, turn, now);
    assert forall i :: 0 <= i < |t.calls| ==> !t.calls[i].pending;
  }

  // ---------------------------------------------------------------- each overlap can store two

  lemma ExecAppend(s: Session, moves: seq<Move>, m: Move)
    ensures Exec(s, moves + [m]) == Step(Exec(s, moves), m)
  {
    assert (moves + [m])[..|moves|] == moves;
  }

  lemma {:induction false} ExecJoin(s: Session, a: seq<Move>, b: seq<Move>)
    ensures Exec(s, a + b) == Exec(Exec(s, a), b)
    decreases |b|
  {
    hide Step;
    if b == [] {
      assert a + b == a;
    } else {
      ExecJoin(s, a, b[..|b| - 1]);
      ExecAppend(s, a + b[..|b| - 1], b[|b| - 1]);
      assert a + b == a + b[..|b| - 1] + [b[|b| - 1]];
    }
  }

  /** An admitted turn commits its run, if it has not, and stores a call. */
  function StoreMoves(t: Turn, turn: nat, now: Time): seq<Move> {
    if t.InsertRun? then [Go(turn, now, Ask), Go(turn, now, Store)] else [Go(turn, now, Store)]
  }

  lemma StoresCall(s: Session, turn: nat, now: Time)
    requires turn < |s.turns| && Admitted(s.turns[turn]) && s.clock <= now
    ensures var t := Exec(s, StoreMoves(s.turns[turn], turn, now));
      && t.calls == s.calls + [Call(turn, true)] && t.clock <= now && |t.turns| == |s.turns|
      && forall q :: 0 <= q < |s.turns| && q != turn ==> t.turns[q] == s.turns[q]
  {
    hide HasPending, HasActiveRun;
    var moves := StoreMoves(s.turns[turn], turn, now);
    assert Exec(s, []) == s;
    ExecAppend(s, [], moves[0]);
    assert [] + [moves[0]] == [moves[0]];
    if |moves| == 2 {
      ExecAppend(s, [moves[0]], moves[1]);
      assert [moves[0]] + [moves[1]] == moves;
    } else {
      assert moves == [moves[0]];
    }
  }

  /** No turn passes the second check in the run. */
  ghost predicate AdmitsNobody(s: Session, moves: seq<Move>) {
    forall i :: 0 <= i < |moves| ==> !Admits(Exec(s, moves[..i]), moves[i])
  }

  lemma {:induction false} NobodyIsCareful(s: Session, moves: seq<Move>)
    requires Calm(s) && RunsOk(s) && AdmitsNobody(s, moves)
    ensures Calm(Exec(s, moves)) && RunsOk(Exec(s, moves))
  {
    hide Step, Admits, Calm, RunsOk;
    if moves != [] {
      var front := moves[..|moves| - 1];
      assert forall i :: 0 <= i < |front| ==> front[..i] == moves[..i] && front[i] == moves[i];
      NobodyIsCareful(s, front);
      StepKeepsCalm(Exec(s, front), moves[|moves| - 1]);
      StepKeepsRuns(Exec(s, front), moves[|moves| - 1]);
    }
  }

  /** Moves of turns that are past the checks admit nobody. */
  lemma StoringAdmitsNobody(s: Session, turn: nat, now: Time)
    requires turn < |s.turns| && Admitted(s.turns[turn])
    ensures AdmitsNobody(s, StoreMoves(s.turns[turn], turn, now))
  {
    hide HasPending, HasActiveRun;
    var moves := StoreMoves(s.turns[turn], turn, now);
    assert moves[..0] == [] && Exec(s, []) == s;
    if |moves| == 2 {
      ExecAppend(s, [], moves[0]);
      assert moves[..1] == [] + [moves[0]];
    }
  }

  lemma {:induction false} AdmitsNobodyJoin(s: Session, a: seq<Move>, b: seq<Move>)
    requires AdmitsNobody(s, a) && AdmitsNobody(Exec(s, a), b)
    ensures AdmitsNobody(s, a + b)
  {
    hide Admits;
    forall i | 0 <= i < |a + b| ensures !Admits(Exec(s, (a + b)[..i]), (a + b)[i]) {
      if i < |a| {
        assert (a + b)[..i] == a[..i];
      } else {
        assert (a + b)[..i] == a + b[..i - |a|];
        ExecJoin(s, a, b[..i - |a|]);
      }
    }
  }

  /** An overlapping admission leads to two waiting calls without admitting anybody else. */
  lemma OverlapStoresTwo(s: Session, m: Move) returns (moves: seq<Move>)
    requires Admits(s, m) && Overlaps(s, m.turn, m.now)
    ensures AdmitsNobody(Step(s, m), moves) && !AtMostOnePending(Exec(Step(s, m), moves))
  {
    hide HasActiveRun, Exec, AdmitsNobody, StoreMoves;
    var t := Step(s, m);
    assert t == s.(clock := m.now, turns := s.turns[m.turn := InsertRun]);
    StoringAdmitsNobody(t, m.turn, m.now);
    StoresCall(t, m.turn, m.now);
    var own := StoreMoves(t.turns[m.turn], m.turn, m.now);
    var u := Exec(t, own);
    if HasPending(s) {
      moves := own;
      var c :| 0 <= c < |s.calls| && s.calls[c].pending;
      assert u.calls[c].pending && u.calls[|s.calls|].pending;
    } else {
      var q: nat :| q < |s.turns| && q != m.turn && Admitted(s.turns[q]);
      assert u.turns[q] == s.turns[q];
      StoringAdmitsNobody(u, q, m.now);
      StoresCall(u, q, m.now);
      var other := StoreMoves(u.turns[q], q, m.now);
      moves := own + other;
      ExecJoin(t, own, other);
      AdmitsNobodyJoin(t, own, other);
      var v := Exec(t, moves);
      assert v.calls[|s.calls|].pending && v.calls[|s.calls| + 1].pending;
    }
  }

  /** When a turn is about to pass the second check of a session in which everything was in order so far: two
      calls can come to wait, without anybody being admitted after it, exactly when one of the three overlaps
      holds at that moment. */
  lemma AdmissionIsSafeExactly(s: Session, m: Move)
    requires Calm(s) && RunsOk(s) && Admits(s, m)
    ensures (forall moves :: AdmitsNobody(Step(s, m), moves) ==> AtMostOnePending(Exec(Step(s, m), moves)))
      <==> !Overlaps(s, m.turn, m.now)
  {
    hide Exec, AdmitsNobody, Overlaps, Calm, RunsOk, Step, HasActiveRun;
    if Overlaps(s, m.turn, m.now) {
      var moves := OverlapStoresTwo(s, m);
      assert AdmitsNobody(Step(s, m), moves) && !AtMostOnePending(Exec(Step(s, m), moves));
    } else {
      StepKeepsCalm(s, m);
      StepKeepsRuns(s, m);
      forall moves | AdmitsNobody(Step(s, m), moves) ensures AtMostOnePending(Exec(Step(s, m), moves)) {
        NobodyIsCareful(Step(s, m), moves);
        CalmMeansOne(Exec(Step(s, m), moves));
      }
    }
  }

  // ---------------------------------------------------------------- the three ways it happens

  datatype Cause = BothBeforeCommit | PastFiveMinutes | StoredBetweenChecks

  /** Two turns of one session from the start to the second admission, which overlaps. */
  function Script(cause: Cause): seq<Move> {
    match cause
    case BothBeforeCommit => [Go(0, 0, Ask), Go(1, 0, Ask), Go(0, 0, Ask), Go(1, 0, Ask)]
    case PastFiveMinutes => [Go(0, 0, Ask), Go(0, 0, Ask), Go(0, 0, Ask), Go(1, 0, Ask), Go(1, 300_000_001, Ask)]
    case StoredBetweenChecks =>
      [Go(1, 0, Ask), Go(0, 0, Ask), Go(0, 0, Ask), Go(0, 0, Ask), Go(0, 0, Store), Go(1, 0, Ask)]
  }

  const TWO_TURNS := Session([], [], [CheckPending, CheckPending], 0)

  /** The session after `n` moves of the script, up to the last. */
  function Stage(cause: Cause, n: nat): Session {
    match cause
    case BothBeforeCommit =>
      Session([], [], [if n == 0 then CheckPending else if n <= 2 then CheckActive else InsertRun,
                       if n <= 1 then CheckPending else CheckActive], 0)
    case PastFiveMinutes =>
      Session(if n <= 2 then [] else [Run(true, 0)], [],
              [if n == 0 then CheckPending else if n == 1 then CheckActive
               else if n == 2 then InsertRun else Working(0), if n <= 3 then CheckPending else CheckActive], 0)
    case StoredBetweenChecks =>
      Session(if n <= 3 then [] else [Run(n == 4, 0)], if n <= 4 then [] else [Call(0, true)],
              [if n <= 1 then CheckPending else if n == 2 then CheckActive else if n == 3 then InsertRun
               else if n == 4 then Working(0) else Ended, if n == 0 then CheckPending else CheckActive], 0)
  }

  lemma StageStep(cause: Cause, n: nat)
    requires n + 1 < |Script(cause)|
    ensures Step(Stage(cause, n), Script(cause)[n]) == Stage(cause, n + 1)
  {
    assert Script(cause)[n].Go? && Script(cause)[n].now == 0;
    assert Step(Stage(cause, n), Script(cause)[n])
      == Advance(Stage(cause, n), Script(cause)[n].turn, 0, Script(cause)[n].act);
  }

  lemma ScriptStart(cause: Cause)
    ensures Stage(cause, 0) == TWO_TURNS && Exec(TWO_TURNS, []) == TWO_TURNS
  {
  }

  lemma {:induction false} ScriptReaches(cause: Cause, n: nat)
    requires n < |Script(cause)|
    ensures Exec(TWO_TURNS, Script(cause)[..n]) == Stage(cause, n)
  {
    hide Step, Exec, Stage, Script;
    var script := Script(cause);
    if n == 0 {
      ScriptStart(cause);
      assert script[..0] == [];
    } else {
      ScriptReaches(cause, n - 1);
      StageStep(cause, n - 1);
      ExecAppend(TWO_TURNS, script[..n - 1], script[n - 1]);
      assert script[..n] == script[..n - 1] + [script[n - 1]];
    }
  }

  /** Each overlap is reached from a fresh session by two turns, and two calls then come to wait. */
  lemma TwoCallsCanWait(cause: Cause) returns (moves: seq<Move>)
    ensures Initial(TWO_TURNS) && !AtMostOnePending(Exec(TWO_TURNS, moves))
    ensures Script(cause) <= moves
  {
    hide Exec, Step, Script, Stage;
    var script := Script(cause);
    ScriptOverlaps(cause);
    var n := |script| - 1;
    ScriptReaches(cause, n);
    var rest := OverlapStoresTwo(Stage(cause, n), script[n]);
    moves := script + rest;
    ExecAppend(TWO_TURNS, script[..n], script[n]);
    assert script[..n] + [script[n]] == script;
    ExecJoin(TWO_TURNS, script, rest);
  }

  lemma ScriptOverlaps(cause: Cause)
    ensures var n := |Script(cause)| - 1;
      n > 0 && Admits(Stage(cause, n), Script(cause)[n])
      && Overlaps(Stage(cause, n), Script(cause)[n].turn, Script(cause)[n].now)
  {
    var s := Stage(cause, |Script(cause)| - 1);
    if cause == BothBeforeCommit {
      assert s.turns[0].InsertRun?;
    } else if cause == PastFiveMinutes {
      assert WorksOnOldRun(s, 0, 300_000_001);
    } else {
      assert s.calls[0].pending;
    }
  }
}
