/**
 The approval protocol of the assistant's write tools (app/assistant_service.py).

 Any number of approve and reject requests work on one tool call. Every database statement of a
 request is one step of that request, and between two steps any other request, or any other writer
 of the database, may move. The first half of the file is this step machine and what holds over all
 of its runs; the second half is the request code itself, whose every run is a run of the machine.
 */
module AssistantApproval {
  import opened Common
  import ApprovalToken

  type Time = int

  /** Everything in the database except the tool call row; the number only names a state. */
  type Data = int

  datatype CallStatus = PendingConfirmation | Executing | Executed | Failed | Stale | Expired | Rejected

  datatype Call = Call(operatorId: nat, previewHash: int, expiresAt: Option<Time>, phrase: string, status: CallStatus)

  /** `preview` gives the hash of the previewed state; None is a preview, or an execution, that raises. */
  datatype Tool = Tool(
    destructive: bool,
    requiresBackup: bool,
    preview: Data -> Option<int>,
    execute: Data -> Option<Data>)

  /** `verify` is the check of the approval token: token, operator, preview hash, time. */
  datatype Config = Config(tool: Tool, verify: (string, nat, int, Time) -> bool)

  datatype Request = Approve(operatorId: nat, token: string, phrase: string) | Reject(operatorId: nat)

  datatype Reply = ExecutedNow | AlreadyExecuted | Cancelled | Refused(reason: string)

  /** Where a request stands: the database statement it performs next. A request is `Crashed` when it ended with
      none of the answers: its process died, or a statement outside every handler raised, as the refresh after
      the claim and the handler's own statements can. */
  datatype Pc =
    | Start
    | WriteExpired
    | FirstPreview
    | WriteStaleBeforeClaim
    | Claim
    | LostClaim
    | Recheck
    | Backup
    | FinalCheck
    | Execute
    | Refresh
    | WriteStaleAfterClaim
    | Recover
    | WriteFailed
    | WriteRejected
    | Done(reply: Reply)
    | Crashed

  datatype Proc = Proc(request: Request, pc: Pc, started: Option<Time>)

  /** One committed execution of the tool: who did it, and the state it was applied to. */
  datatype Commit = Commit(pid: nat, before: Data, after: Data)

  /** `commits`, `claimants` and `unread` record the history; no request reads them. `unread` holds the requests
      whose refresh of the row after their commit raised. */
  datatype State = State(
    call: Call, data: Data, procs: seq<Proc>, commits: seq<Commit>, claimants: seq<nat>, unread: set<nat>)

  /** What the world answers during a step: the clock, the backup, the final commit, the refresh after it. */
  datatype Env = Env(now: Time, backupOk: bool, commitOk: bool, refreshOk: bool)

  datatype Label = Run(pid: nat, env: Env) | Crash(pid: nat) | Write(data: Data)

  // ---------------------------------------------------------------- the step machine

  predicate PostClaim(pc: Pc) {
    pc in {Recheck, Backup, FinalCheck, Execute, WriteStaleAfterClaim, Recover, WriteFailed}
  }

  predicate PreClaim(pc: Pc) {
    pc in {Start, WriteExpired, FirstPreview, WriteStaleBeforeClaim, Claim, LostClaim, WriteRejected}
  }

  function Goto(s: State, pid: nat, pc: Pc): State
    requires pid < |s.procs|
  {
    s.(procs := s.procs[pid := s.procs[pid].(pc := pc)])
  }

  function SetStatus(s: State, status: CallStatus): State {
    s.(call := s.call.(status := status))
  }

  /** The first read of the row, with every check made on it before the first preview. */
  function AfterLoad(cfg: Config, call: Call, request: Request, now: Time): Pc {
    if request.operatorId != call.operatorId then Done(Refused("missing"))
    else if request.Reject? then
      if call.status == PendingConfirmation then WriteRejected else Done(Refused("not pending"))
    else if call.status == Executed then Done(AlreadyExecuted)
    else if call.status == Executing then Done(Refused("running"))
    else if call.status != PendingConfirmation then Done(Refused("not pending"))
    else if call.expiresAt.None? || call.expiresAt.value < now then WriteExpired
    else if !cfg.verify(request.token, request.operatorId, call.previewHash, now) then Done(Refused("token"))
    else if cfg.tool.destructive && request.phrase != call.phrase then Done(Refused("phrase"))
    else FirstPreview
  }

  /** A preview compared with the stored hash: where to go when it matches, differs, or raises. */
  function AfterPreview(cfg: Config, s: State, same: Pc, differs: Pc, raises: Pc): Pc {
    var seen := cfg.tool.preview(s.data);
    if seen.None? then raises else if seen.value == s.call.previewHash then same else differs
  }

  function Advance(cfg: Config, s: State, pid: nat, env: Env): State
    requires pid < |s.procs|
  {
    var p := s.procs[pid];
    match p.pc
    case Start =>
      var q := Proc(p.request, AfterLoad(cfg, s.call, p.request, env.now), Some(env.now));
      s.(procs := s.procs[pid := q])
    case WriteExpired => SetStatus(Goto(s, pid, Done(Refused("expired"))), Expired)
    case FirstPreview =>
      Goto(s, pid, AfterPreview(cfg, s, Claim, WriteStaleBeforeClaim, Done(Refused("preview"))))
    case WriteStaleBeforeClaim => SetStatus(Goto(s, pid, Done(Refused("stale"))), Stale)
    case Claim =>
      if s.call.status == PendingConfirmation
      then SetStatus(Goto(s, pid, Recheck), Executing).(claimants := s.claimants + [pid])
      else Goto(s, pid, LostClaim)
    case LostClaim =>
      Goto(s, pid, Done(if s.call.status == Executed then AlreadyExecuted else Refused("taken")))
    case Recheck =>
      Goto(s, pid, AfterPreview(cfg, s, if cfg.tool.requiresBackup then Backup else Execute,
                                WriteStaleAfterClaim, Recover))
    case Backup => Goto(s, pid, if env.backupOk then FinalCheck else Recover)
    case FinalCheck => Goto(s, pid, AfterPreview(cfg, s, Execute, WriteStaleAfterClaim, Recover))
    case Execute =>
      var result := cfg.tool.execute(s.data);
      if result.None? || !env.commitOk then Goto(s, pid, Recover)
      else SetStatus(Goto(s, pid, Refresh), Executed)
           .(data := result.value, commits := s.commits + [Commit(pid, s.data, result.value)])
    case Refresh =>
      if env.refreshOk then Goto(s, pid, Done(ExecutedNow)) else Goto(s, pid, Recover).(unread := s.unread + {pid})
    case WriteStaleAfterClaim => SetStatus(Goto(s, pid, Recover), Stale)
    case Recover => Goto(s, pid, if s.call.status == Executing then WriteFailed else Done(Refused("raised")))
    case WriteFailed => SetStatus(Goto(s, pid, Done(Refused("raised"))), Failed)
    case WriteRejected => SetStatus(Goto(s, pid, Done(Cancelled)), Rejected)
    case Done(_) => s
    case Crashed => s
  }

  /** With `serial`, nobody else moves between a request's last preview check and its commit. */
  predicate Blocked(serial: bool, s: State, pid: int) {
    serial && exists q :: 0 <= q < |s.procs| && q != pid && s.procs[q].pc == Execute
  }

  function Step(cfg: Config, serial: bool, s: State, move: Label): State {
    match move
    case Run(pid, env) => if pid < |s.procs| && !Blocked(serial, s, pid) then Advance(cfg, s, pid, env) else s
    case Crash(pid) => if pid < |s.procs| && !s.procs[pid].pc.Done? then Goto(s, pid, Crashed) else s
    case Write(data) => if Blocked(serial, s, -1) then s else s.(data := data)
  }

  function Exec(cfg: Config, serial: bool, s: State, labels: seq<Label>): State
    decreases |labels|
  {
    if labels == [] then s
    else Step(cfg, serial, Exec(cfg, serial, s, labels[..|labels| - 1]), labels[|labels| - 1])
  }

  ghost predicate Initial(s: State) {
    && s.call.status == PendingConfirmation && s.commits == [] && s.claimants == [] && s.unread == {}
    && forall p :: 0 <= p < |s.procs| ==> s.procs[p].pc == Start
  }

  // ---------------------------------------------------------------- what every step keeps

  /** The request may approve: right operator, token and phrase, and it read the row before expiry. */
  ghost predicate Authorized(cfg: Config, call: Call, p: Proc) {
    && p.request.Approve? && p.request.operatorId == call.operatorId
    && p.started.Some? && call.expiresAt.Some? && p.started.value <= call.expiresAt.value
    && cfg.verify(p.request.token, call.operatorId, call.previewHash, p.started.value)
    && (cfg.tool.destructive ==> p.request.phrase == call.phrase)
  }

  ghost predicate ProcOk(cfg: Config, s: State, p: nat)
    requires p < |s.procs|
  {
    var pc := s.procs[p].pc;
    && (PostClaim(pc) ==> s.claimants == [p] && (s.commits == [] || (pc == Recover && p in s.unread)))
    && (pc == Refresh ==> s.claimants == [p] && s.commits != [] && p !in s.unread)
    && (p in s.unread ==> s.commits != [] && s.commits[0].pid == p)
    && (PreClaim(pc) ==> s.claimants != [p])
    && (pc in {FirstPreview, WriteStaleBeforeClaim, Claim} ==> Authorized(cfg, s.call, s.procs[p]))
  }

  ghost predicate RowOk(cfg: Config, s: State) {
    && |s.claimants| <= 1
    && (s.call.status == PendingConfirmation ==> s.claimants == [])
    && (s.call.status == Executing ==> s.claimants != [])
    && |s.commits| <= |s.claimants|
    && (s.claimants != [] ==>
          var p := s.claimants[0];
          && p < |s.procs| && Authorized(cfg, s.call, s.procs[p])
          && (s.call.status == Executing ==> PostClaim(s.procs[p].pc) || s.procs[p].pc == Crashed))
    && (s.commits != [] ==> s.commits[0].pid == s.claimants[0] && s.call.status !in {PendingConfirmation, Executing})
  }

  ghost predicate Inv(cfg: Config, s: State) {
    RowOk(cfg, s) && forall p :: 0 <= p < |s.procs| ==> ProcOk(cfg, s, p)
  }

  lemma ReadKeepsOwn(cfg: Config, s: State, pid: nat, env: Env)
    requires RowOk(cfg, s) && pid < |s.procs| && ProcOk(cfg, s, pid) && s.procs[pid].pc == Start
    ensures ProcOk(cfg, Advance(cfg, s, pid, env), pid)
  {
  }

  lemma ClaimKeepsOwn(cfg: Config, s: State, pid: nat, env: Env)
    requires RowOk(cfg, s) && pid < |s.procs| && ProcOk(cfg, s, pid) && PreClaim(s.procs[pid].pc)
      && s.procs[pid].pc != Start
    ensures ProcOk(cfg, Advance(cfg, s, pid, env), pid)
  {
    hide AfterLoad;
  }

  lemma ExecutionKeepsOwn(cfg: Config, s: State, pid: nat, env: Env)
    requires RowOk(cfg, s) && pid < |s.procs| && ProcOk(cfg, s, pid) && !PreClaim(s.procs[pid].pc)
    ensures ProcOk(cfg, Advance(cfg, s, pid, env), pid)
  {
    hide AfterLoad, Authorized;
  }

  lemma AdvanceKeepsOwn(cfg: Config, s: State, pid: nat, env: Env)
    requires RowOk(cfg, s) && pid < |s.procs| && ProcOk(cfg, s, pid)
    ensures ProcOk(cfg, Advance(cfg, s, pid, env), pid)
  {
    hide RowOk, ProcOk, Advance, PreClaim;
    if s.procs[pid].pc == Start {
      ReadKeepsOwn(cfg, s, pid, env);
    } else if PreClaim(s.procs[pid].pc) {
      ClaimKeepsOwn(cfg, s, pid, env);
    } else {
      ExecutionKeepsOwn(cfg, s, pid, env);
    }
  }

  lemma AdvanceKeepsRow(cfg: Config, s: State, pid: nat, env: Env)
    requires RowOk(cfg, s) && pid < |s.procs| && ProcOk(cfg, s, pid)
    ensures RowOk(cfg, Advance(cfg, s, pid, env))
  {
    var p := s.procs[pid];
    if p.pc == Start && s.claimants != [] {
      assert s.claimants[0] != pid;
    }
  }

  lemma AuthorizedAnyway(cfg: Config, call: Call, later: Call, p: Proc)
    requires later == call.(status := later.status)
    ensures Authorized(cfg, later, p) <==> Authorized(cfg, call, p)
  {
  }

  lemma AdvanceKeepsOther(cfg: Config, s: State, pid: nat, env: Env, other: nat)
    requires RowOk(cfg, s) && pid < |s.procs| && ProcOk(cfg, s, pid)
    requires other < |s.procs| && other != pid && ProcOk(cfg, s, other)
    ensures ProcOk(cfg, Advance(cfg, s, pid, env), other)
  {
    hide AfterLoad, AfterPreview, Authorized;
    var t := Advance(cfg, s, pid, env);
    assert t.procs[other] == s.procs[other];
    assert t.call == s.call.(status := t.call.status);
    AuthorizedAnyway(cfg, s.call, t.call, s.procs[other]);
    if s.procs[pid].pc == Claim && s.call.status == PendingConfirmation {
      assert t.claimants == [pid] && t.claimants[0] == pid;
    }
  }

  lemma AdvanceKeepsInv(cfg: Config, s: State, pid: nat, env: Env)
    requires Inv(cfg, s) && pid < |s.procs|
    ensures Inv(cfg, Advance(cfg, s, pid, env))
  {
    var t := Advance(cfg, s, pid, env);
    assert |t.procs| == |s.procs|;
    AdvanceKeepsRow(cfg, s, pid, env);
    AdvanceKeepsOwn(cfg, s, pid, env);
    forall p | 0 <= p < |t.procs| && p != pid ensures ProcOk(cfg, t, p) {
      AdvanceKeepsOther(cfg, s, pid, env, p);
    }
  }

  lemma StepKeepsInv(cfg: Config, serial: bool, s: State, move: Label)
    requires Inv(cfg, s)
    ensures Inv(cfg, Step(cfg, serial, s, move))
  {
    match move
    case Run(pid, env) =>
      if pid < |s.procs| && !Blocked(serial, s, pid) {
        AdvanceKeepsInv(cfg, s, pid, env);
      }
    case Crash(pid) =>
      var t := Step(cfg, serial, s, move);
      forall p | 0 <= p < |t.procs| ensures ProcOk(cfg, t, p) {
        assert ProcOk(cfg, s, p);
      }
    case Write(data) =>
      var t := Step(cfg, serial, s, move);
      forall p | 0 <= p < |t.procs| ensures ProcOk(cfg, t, p) {
        assert ProcOk(cfg, s, p);
      }
  }

  lemma {:induction false} RunKeepsInv(cfg: Config, serial: bool, s: State, labels: seq<Label>)
    requires Inv(cfg, s)
    ensures Inv(cfg, Exec(cfg, serial, s, labels))
    decreases |labels|
  {
    hide Step, Inv;
    if labels != [] {
      var front := labels[..|labels| - 1];
      RunKeepsInv(cfg, serial, s, front);
      StepKeepsInv(cfg, serial, Exec(cfg, serial, s, front), labels[|labels| - 1]);
    }
  }

  ghost predicate SameFrame(s: State, t: State) {
    && t.call == s.call.(status := t.call.status) && |t.procs| == |s.procs|
    && forall p :: 0 <= p < |s.procs| ==> t.procs[p].request == s.procs[p].request
  }

  lemma StepFrame(cfg: Config, serial: bool, s: State, move: Label)
    ensures SameFrame(s, Step(cfg, serial, s, move))
  {
  }

  /** Nothing but the status of the row ever changes, and no request changes hands. */
  lemma {:induction false} RunFrame(cfg: Config, serial: bool, s: State, labels: seq<Label>)
    ensures SameFrame(s, Exec(cfg, serial, s, labels))
    decreases |labels|
  {
    hide Step;
    if labels != [] {
      RunFrame(cfg, serial, s, labels[..|labels| - 1]);
      StepFrame(cfg, serial, Exec(cfg, serial, s, labels[..|labels| - 1]), labels[|labels| - 1]);
    }
  }

  // ---------------------------------------------------------------- safety over all runs

  /** However the requests interleave, the effect is committed at most once, and only for a request
      of the call's own operator that held a valid token, in time, with the right phrase. */
  lemma EffectAtMostOnce(cfg: Config, serial: bool, s: State, labels: seq<Label>)
    requires Initial(s)
    ensures var t := Exec(cfg, serial, s, labels);
      && |t.commits| <= 1 && |t.claimants| <= 1
      && forall i :: 0 <= i < |t.commits| ==>
           t.commits[i].pid < |t.procs| && Authorized(cfg, s.call, t.procs[t.commits[i].pid])
  {
    hide Exec;
    RunKeepsInv(cfg, serial, s, labels);
    RunFrame(cfg, serial, s, labels);
  }

  /** No step writes the pending status back, from any state at all. */
  lemma {:induction false} NeverPendingAgain(cfg: Config, serial: bool, s: State, labels: seq<Label>)
    requires s.call.status != PendingConfirmation
    ensures Exec(cfg, serial, s, labels).call.status != PendingConfirmation
    decreases |labels|
  {
    if labels != [] {
      NeverPendingAgain(cfg, serial, s, labels[..|labels| - 1]);
    }
  }

  /** An approval that won the claim and was given one of the answers has left the row in another status. */
  lemma AnsweredClaimIsNotExecuting(cfg: Config, serial: bool, s: State, labels: seq<Label>, p: nat)
    requires Initial(s)
    requires var t := Exec(cfg, serial, s, labels); p in t.claimants && p < |t.procs| && t.procs[p].pc.Done?
    ensures Exec(cfg, serial, s, labels).call.status != Executing
  {
    hide Exec;
    RunKeepsInv(cfg, serial, s, labels);
  }

  ghost predicate CommittedBy(s: State, p: nat) {
    exists i :: 0 <= i < |s.commits| && s.commits[i].pid == p
  }

  /** Who committed, and was told so. */
  ghost predicate AnswerTrue(s: State, p: nat)
    requires p < |s.procs|
  {
    var pc := s.procs[p].pc;
    && (pc == Done(ExecutedNow) ==> CommittedBy(s, p) && p !in s.unread)
    && (pc == Refresh ==> CommittedBy(s, p) && p !in s.unread)
    && (p in s.unread ==> CommittedBy(s, p) && (pc in {Recover, Crashed} || pc == Done(Refused("raised"))))
    && (CommittedBy(s, p) && p !in s.unread ==> pc in {Refresh, Crashed} || pc == Done(ExecutedNow))
    && (pc == Done(AlreadyExecuted) ==> s.commits != [])
  }

  ghost predicate AnswersTrue(s: State) {
    && (s.call.status == Executed ==> s.commits != [])
    && forall p :: 0 <= p < |s.procs| ==> AnswerTrue(s, p)
  }

  /** A step adds at most one commit, by the request that moved. */
  ghost predicate CommitsGrow(s: State, t: State, pid: nat) {
    && |t.procs| == |s.procs| && (forall p :: 0 <= p < |s.procs| && p != pid ==> t.procs[p] == s.procs[p])
    && (t.commits == s.commits
        || (|t.commits| == |s.commits| + 1 && t.commits[..|s.commits|] == s.commits
            && t.commits[|s.commits|].pid == pid))
    && (forall p :: p != pid ==> (p in t.unread <==> p in s.unread))
  }

  lemma StepCommits(cfg: Config, serial: bool, s: State, move: Label, pid: nat)
    requires !move.Write? ==> pid == move.pid
    ensures CommitsGrow(s, Step(cfg, serial, s, move), pid)
  {
    hide AfterLoad, AfterPreview;
  }

  lemma CommittedKept(s: State, t: State, mover: nat, p: nat)
    requires CommitsGrow(s, t, mover)
    ensures CommittedBy(t, p) <==> CommittedBy(s, p) || (p == mover && |t.commits| > |s.commits|)
  {
    assert forall i :: 0 <= i < |s.commits| ==> t.commits[i] == s.commits[i];
    if CommittedBy(s, p) {
      var i :| 0 <= i < |s.commits| && s.commits[i].pid == p;
      assert t.commits[i].pid == p;
    }
    if p == mover && |t.commits| > |s.commits| {
      assert t.commits[|s.commits|].pid == p;
    }
  }

  /** The answer of the request that moved. */
  lemma AdvanceKeepsAnswer(cfg: Config, s: State, pid: nat, env: Env)
    requires Inv(cfg, s) && AnswersTrue(s) && pid < |s.procs|
    requires CommitsGrow(s, Advance(cfg, s, pid, env), pid)
    ensures AnswerTrue(Advance(cfg, s, pid, env), pid)
    ensures Advance(cfg, s, pid, env).call.status == Executed ==> Advance(cfg, s, pid, env).commits != []
  {
    hide CommittedBy, Authorized;
    var t := Advance(cfg, s, pid, env);
    assert ProcOk(cfg, s, pid) && AnswerTrue(s, pid);
    CommittedKept(s, t, pid, pid);
    CommitterClaimed(cfg, s, pid);
  }

  lemma CommitterClaimed(cfg: Config, s: State, p: nat)
    requires Inv(cfg, s)
    ensures CommittedBy(s, p) ==> s.commits != [] && s.claimants == [p]
  {
  }

  lemma StepKeepsAnswers(cfg: Config, serial: bool, s: State, move: Label)
    requires Inv(cfg, s) && AnswersTrue(s)
    ensures AnswersTrue(Step(cfg, serial, s, move))
  {
    hide Inv, Advance, CommittedBy;
    var t := Step(cfg, serial, s, move);
    var mover := if move.Write? then 0 else move.pid;
    StepCommits(cfg, serial, s, move, mover);
    if move.Run? && move.pid < |s.procs| && !Blocked(serial, s, move.pid) {
      AdvanceKeepsAnswer(cfg, s, move.pid, move.env);
    }
    forall p | 0 <= p < |t.procs| ensures AnswerTrue(t, p) {
      assert AnswerTrue(s, p);
      CommittedKept(s, t, mover, p);
    }
  }

  /** In every run: who is answered "executed" committed the effect; "already executed" means that some effect
      was committed; and who committed the effect is answered otherwise, that it was rolled back, exactly when
      the refresh after the commit raised. */
  lemma {:induction false} AnswersAreTrue(cfg: Config, serial: bool, s: State, labels: seq<Label>)
    requires Initial(s)
    ensures AnswersTrue(Exec(cfg, serial, s, labels))
    decreases |labels|
  {
    hide Step, AnswersTrue, Inv;
    if labels == [] {
      NothingAnswered(s);
    } else {
      var front := labels[..|labels| - 1];
      AnswersAreTrue(cfg, serial, s, front);
      InitialInv(cfg, s);
      RunKeepsInv(cfg, serial, s, front);
      StepKeepsAnswers(cfg, serial, Exec(cfg, serial, s, front), labels[|labels| - 1]);
    }
  }

  lemma InitialInv(cfg: Config, s: State)
    requires Initial(s)
    ensures Inv(cfg, s)
  {
  }

  lemma NothingAnswered(s: State)
    requires Initial(s)
    ensures AnswersTrue(s)
  {
  }

  /** The answers as the caller sees them. */
  lemma CommittedAnswer(cfg: Config, serial: bool, s: State, labels: seq<Label>, p: nat)
    requires Initial(s)
    requires var t := Exec(cfg, serial, s, labels); p < |t.procs| && t.procs[p].pc.Done?
    ensures var t := Exec(cfg, serial, s, labels);
      && (t.procs[p].pc == Done(ExecutedNow) <==> CommittedBy(t, p) && p !in t.unread)
      && (CommittedBy(t, p) && p in t.unread ==> t.procs[p].pc == Done(Refused("raised")))
      && (p in t.unread ==> CommittedBy(t, p))
  {
    hide Exec, Initial, CommittedBy;
    AnswersAreTrue(cfg, serial, s, labels);
    assert AnswerTrue(Exec(cfg, serial, s, labels), p);
  }

  ghost predicate Previewed(cfg: Config, s: State) {
    && (forall p :: 0 <= p < |s.procs| && s.procs[p].pc == Execute
          ==> cfg.tool.preview(s.data) == Some(s.call.previewHash))
    && (forall i :: 0 <= i < |s.commits| ==> cfg.tool.preview(s.commits[i].before) == Some(s.call.previewHash))
  }

  lemma StepKeepsPreviewed(cfg: Config, s: State, move: Label)
    requires Previewed(cfg, s)
    ensures Previewed(cfg, Step(cfg, true, s, move))
  {
    var t := Step(cfg, true, s, move);
    forall p | 0 <= p < |t.procs| && t.procs[p].pc == Execute
      ensures cfg.tool.preview(t.data) == Some(t.call.previewHash)
    {
      if move == Run(p, if move.Run? then move.env else Env(0, true, true, true)) {
      } else if s.procs[p].pc == Execute {
        assert move.Run? ==> Blocked(true, s, move.pid);
        assert move.Write? ==> Blocked(true, s, -1);
      }
    }
  }

  /** When the last check and the commit are one step, the effect lands on the state that was shown
      to the operator, whatever other requests and writers do, backup included. */
  lemma {:induction false} EffectMatchesPreview(cfg: Config, s: State, labels: seq<Label>)
    requires Initial(s)
    ensures Previewed(cfg, Exec(cfg, true, s, labels))
    decreases |labels|
  {
    if labels != [] {
      var front := labels[..|labels| - 1];
      EffectMatchesPreview(cfg, s, front);
      StepKeepsPreviewed(cfg, Exec(cfg, true, s, front), labels[|labels| - 1]);
    }
  }

  // ---------------------------------------------------------------- what is not guaranteed

  lemma ExecSnoc(cfg: Config, serial: bool, s: State, labels: seq<Label>, move: Label)
    ensures Exec(cfg, serial, s, labels + [move]) == Step(cfg, serial, Exec(cfg, serial, s, labels), move)
  {
    assert (labels + [move])[..|labels|] == labels;
  }

  /** A tool whose preview hash is the state itself and whose execution adds one to it. */
  function CountingConfig(): Config {
    Config(Tool(false, false, (d: Data) => Some(d), (d: Data) => Some(d + 1)),
           (token: string, operatorId: nat, hash: int, now: Time) => true)
  }

  /** One approval of the counting tool with a writer at its last moment, after `i` moves. */
  function SlipAt(i: nat): State
    requires i <= 6
  {
    State(Call(1, 0, Some(9), "", if i < 3 then PendingConfirmation else if i < 6 then Executing else Executed),
          if i < 5 then 0 else if i == 5 then 5 else 6,
          [Proc(Approve(1, "", ""), [Start, FirstPreview, Claim, Recheck, Execute, Execute, Refresh][i],
                if i == 0 then None else Some(0))],
          if i < 6 then [] else [Commit(0, 5, 6)],
          if i < 3 then [] else [0], {})
  }

  function SlipMove(i: nat): Label {
    if i == 4 then Write(5) else Run(0, Env(0, true, true, true))
  }

  lemma SlipStep(i: nat)
    requires i < 6
    ensures Step(CountingConfig(), false, SlipAt(i), SlipMove(i)) == SlipAt(i + 1)
  {
    if i != 4 {
      assert Advance(CountingConfig(), SlipAt(i), 0, Env(0, true, true, true)) == SlipAt(i + 1);
    }
  }

  lemma SlipRun(n: nat) returns (labels: seq<Label>)
    requires n <= 6
    ensures Exec(CountingConfig(), false, SlipAt(0), labels) == SlipAt(n)
  {
    labels := [];
    for i := 0 to n
      invariant Exec(CountingConfig(), false, SlipAt(0), labels) == SlipAt(i)
    {
      SlipStep(i);
      ExecSnoc(CountingConfig(), false, SlipAt(0), labels, SlipMove(i));
      labels := labels + [SlipMove(i)];
    }
  }

  /** Without that serialisation the effect can land on a state nobody previewed: a writer moves
      between the last check and the commit. */
  lemma UnserialisedEffectCanMissPreview() returns (cfg: Config, s: State, labels: seq<Label>)
    ensures Initial(s) && !Previewed(cfg, Exec(cfg, false, s, labels))
  {
    cfg, s := CountingConfig(), SlipAt(0);
    labels := SlipRun(6);
    assert SlipAt(6).commits[0].before == 5;
  }

  /** A committed effect answered as rolled back: the refresh after the commit raises, the handler finds the call
      executed and refuses. */
  lemma CommittedEffectCanBeDenied() returns (cfg: Config, s: State, labels: seq<Label>)
    ensures Initial(s)
    ensures var t := Exec(cfg, false, s, labels);
      |t.commits| == 1 && t.call.status == Executed && |t.procs| == 1 && t.procs[0].pc == Done(Refused("raised"))
  {
    cfg, s := CountingConfig(), SlipAt(0);
    labels := SlipRun(6);
    var raise := Run(0, Env(0, true, true, false));
    RefreshRaises(raise);
    ExecSnoc(cfg, false, s, labels, raise);
    ExecSnoc(cfg, false, s, labels + [raise], raise);
    labels := labels + [raise] + [raise];
  }

  lemma RefreshRaises(raise: Label)
    requires raise == Run(0, Env(0, true, true, false))
    ensures var t := Step(CountingConfig(), false, Step(CountingConfig(), false, SlipAt(6), raise), raise);
      |t.commits| == 1 && t.call.status == Executed && |t.procs| == 1 && t.procs[0].pc == Done(Refused("raised"))
  {
  }

  /** Some other request has read the row as pending and may still write its status unconditionally. */
  ghost predicate LateWriter(cfg: Config, s: State) {
    exists p :: 0 <= p < |s.procs| && LateWriterAt(cfg, s, p)
  }

  ghost predicate LateWriterAt(cfg: Config, s: State, p: nat)
    requires p < |s.procs|
  {
    || s.procs[p].pc in {WriteExpired, WriteStaleBeforeClaim, WriteRejected}
    || (s.procs[p].pc == FirstPreview
        && exists d :: cfg.tool.preview(d).Some? && cfg.tool.preview(d).value != s.call.previewHash)
  }

  ghost predicate Recorded(s: State) {
    s.commits != [] && s.call.status == Executed
  }

  /** A recorded execution stays recorded, for every continuation, exactly when no other request is
      between reading the row and writing it: rejecting, expiring and staleness write unconditionally. */
  lemma RecordSurvivesExactly(cfg: Config, serial: bool, s: State)
    requires Inv(cfg, s) && Recorded(s)
    ensures (forall labels :: Exec(cfg, serial, s, labels).call.status == Executed) <==> !LateWriter(cfg, s)
  {
    if LateWriter(cfg, s) {
      var labels := OverwritingRun(cfg, serial, s);
      assert Exec(cfg, serial, s, labels).call.status != Executed;
    } else {
      forall labels ensures Exec(cfg, serial, s, labels).call.status == Executed {
        QuietRecordStays(cfg, serial, s, labels);
      }
    }
  }

  /** Once the effect is committed nobody is at the last step before it. */
  lemma NobodyBlocked(cfg: Config, serial: bool, s: State, pid: int)
    requires Inv(cfg, s) && s.commits != []
    ensures !Blocked(serial, s, pid)
  {
    forall q | 0 <= q < |s.procs| ensures s.procs[q].pc != Execute {
      assert ProcOk(cfg, s, q);
    }
  }

  lemma WriterOverwrites(cfg: Config, serial: bool, s: State, p: nat)
    requires Inv(cfg, s) && s.commits != [] && p < |s.procs|
    requires s.procs[p].pc in {WriteExpired, WriteStaleBeforeClaim, WriteRejected}
    ensures Step(cfg, serial, s, Run(p, Env(0, true, true, true))).call.status != Executed
  {
    NobodyBlocked(cfg, serial, s, p);
  }

  lemma OverwritingRun(cfg: Config, serial: bool, s: State) returns (labels: seq<Label>)
    requires Inv(cfg, s) && Recorded(s) && LateWriter(cfg, s)
    ensures Exec(cfg, serial, s, labels).call.status != Executed
  {
    var p: nat :| p < |s.procs| && LateWriterAt(cfg, s, p);
    var run := Run(p, Env(0, true, true, true));
    if s.procs[p].pc == FirstPreview {
      var d :| cfg.tool.preview(d).Some? && cfg.tool.preview(d).value != s.call.previewHash;
      NobodyBlocked(cfg, serial, s, -1);
      var t := Step(cfg, serial, s, Write(d));
      StepKeepsInv(cfg, serial, s, Write(d));
      NobodyBlocked(cfg, serial, t, p);
      var u := Step(cfg, serial, t, run);
      StepKeepsInv(cfg, serial, t, run);
      WriterOverwrites(cfg, serial, u, p);
      labels := [Write(d)] + [run] + [run];
      ExecSnoc(cfg, serial, s, [], Write(d));
      ExecSnoc(cfg, serial, s, [Write(d)], run);
      ExecSnoc(cfg, serial, s, [Write(d)] + [run], run);
    } else {
      WriterOverwrites(cfg, serial, s, p);
      labels := [] + [run];
      ExecSnoc(cfg, serial, s, [], run);
    }
  }

  lemma {:induction false} QuietRecordStays(cfg: Config, serial: bool, s: State, labels: seq<Label>)
    requires Inv(cfg, s) && Recorded(s) && !LateWriter(cfg, s)
    ensures var t := Exec(cfg, serial, s, labels); Recorded(t) && !LateWriter(cfg, t)
    decreases |labels|
  {
    if labels != [] {
      var front := labels[..|labels| - 1];
      QuietRecordStays(cfg, serial, s, front);
      RunKeepsInv(cfg, serial, s, front);
      QuietStep(cfg, serial, Exec(cfg, serial, s, front), labels[|labels| - 1]);
    }
  }

  lemma QuietStep(cfg: Config, serial: bool, s: State, move: Label)
    requires Inv(cfg, s) && Recorded(s) && !LateWriter(cfg, s)
    ensures var t := Step(cfg, serial, s, move); Recorded(t) && !LateWriter(cfg, t)
  {
    var t := Step(cfg, serial, s, move);
    if move.Run? && move.pid < |s.procs| {
      assert ProcOk(cfg, s, move.pid) && !LateWriterAt(cfg, s, move.pid);
      assert !LateWriterAt(cfg, t, move.pid);
    }
    forall p | 0 <= p < |t.procs| ensures !LateWriterAt(cfg, t, p) {
      assert !LateWriterAt(cfg, s, p);
    }
  }

  // ---------------------------------------------------------------- a call that stays executing

  ghost predicate InExecution(s: State) {
    s.call.status == Executing && s.claimants != []
  }

  /** A call stays executing in every continuation exactly when its claimant has crashed and no other request
      that read it as pending may still write its status. Nothing else ever picks it up. */
  lemma StaysExecutingExactly(cfg: Config, serial: bool, s: State)
    requires Inv(cfg, s) && InExecution(s)
    ensures s.claimants[0] < |s.procs|
    ensures (forall labels :: Exec(cfg, serial, s, labels).call.status == Executing) <==>
      s.procs[s.claimants[0]].pc == Crashed && !LateWriter(cfg, s)
  {
    hide Exec, LateWriter, Inv;
    ClaimantIsAlive(cfg, s);
    if s.procs[s.claimants[0]].pc != Crashed {
      var labels := GivingUp(cfg, serial, s, s.claimants[0]);
      assert Exec(cfg, serial, s, labels).call.status != Executing;
    } else if LateWriter(cfg, s) {
      var labels := OverwritingExecution(cfg, serial, s);
      assert Exec(cfg, serial, s, labels).call.status != Executing;
    } else {
      forall labels ensures Exec(cfg, serial, s, labels).call.status == Executing {
        AbandonedStays(cfg, serial, s, labels);
      }
    }
  }

  lemma ClaimantIsAlive(cfg: Config, s: State)
    requires Inv(cfg, s) && InExecution(s)
    ensures var p := s.claimants[0]; p < |s.procs| && (s.procs[p].pc == Crashed || PostClaim(s.procs[p].pc))
    ensures forall q :: 0 <= q < |s.procs| && q != s.claimants[0] ==> !PostClaim(s.procs[q].pc)
  {
    hide Authorized;
    forall q | 0 <= q < |s.procs| && q != s.claimants[0] ensures !PostClaim(s.procs[q].pc) {
      assert ProcOk(cfg, s, q);
    }
  }

  /** The most statements a claimant for whom nothing works performs before the status changes. */
  function StatementsLeft(pc: Pc): nat {
    match pc
    case Recheck => 5
    case FinalCheck => 4
    case Backup => 3
    case Execute => 3
    case Recover => 2
    case _ => 1
  }

  const UNLUCKY := Env(0, false, false, false)

  /** Whatever fails, a claimant that runs on alone takes the call out of execution. */
  lemma {:induction false} GivingUp(cfg: Config, serial: bool, s: State, p: nat) returns (labels: seq<Label>)
    requires Inv(cfg, s) && InExecution(s) && p == s.claimants[0] && p < |s.procs| && PostClaim(s.procs[p].pc)
    ensures Exec(cfg, serial, s, labels).call.status != Executing
    decreases StatementsLeft(s.procs[p].pc)
  {
    hide Exec, Inv, Step, Advance;
    var run := Run(p, UNLUCKY);
    var t := Step(cfg, serial, s, run);
    ClaimantIsAlive(cfg, s);
    OneStatementLess(cfg, serial, s, p);
    StepKeepsInv(cfg, serial, s, run);
    ExecSnoc(cfg, serial, s, [], run);
    assert [] + [run] == [run];
    NoMoves(cfg, serial, s);
    if t.call.status != Executing {
      labels := [run];
    } else {
      var rest := GivingUp(cfg, serial, t, p);
      labels := [run] + rest;
      ExecConcat(cfg, serial, s, [run], rest);
    }
  }

  lemma NoMoves(cfg: Config, serial: bool, s: State)
    ensures Exec(cfg, serial, s, []) == s
  {
  }

  lemma OneStatementLess(cfg: Config, serial: bool, s: State, p: nat)
    requires InExecution(s) && p == s.claimants[0] && p < |s.procs| && PostClaim(s.procs[p].pc)
    requires forall q :: 0 <= q < |s.procs| && q != p ==> !PostClaim(s.procs[q].pc)
    ensures var t := Step(cfg, serial, s, Run(p, UNLUCKY));
      |t.procs| == |s.procs| && t.claimants == s.claimants
      && (t.call.status == Executing ==>
            PostClaim(t.procs[p].pc) && StatementsLeft(t.procs[p].pc) < StatementsLeft(s.procs[p].pc))
  {
    hide AfterLoad;
    assert !Blocked(serial, s, p);
  }

  lemma OverwritingExecution(cfg: Config, serial: bool, s: State) returns (labels: seq<Label>)
    requires Inv(cfg, s) && InExecution(s) && LateWriter(cfg, s)
    requires s.claimants[0] < |s.procs| && s.procs[s.claimants[0]].pc == Crashed
    ensures Exec(cfg, serial, s, labels).call.status != Executing
  {
    hide Exec, Inv;
    ClaimantIsAlive(cfg, s);
    NoMoves(cfg, serial, s);
    var p: nat :| p < |s.procs| && LateWriterAt(cfg, s, p);
    var run := Run(p, UNLUCKY);
    assert !Blocked(serial, s, p) && !Blocked(serial, s, -1);
    if s.procs[p].pc == FirstPreview {
      var d :| cfg.tool.preview(d).Some? && cfg.tool.preview(d).value != s.call.previewHash;
      DifferingPreview(cfg, serial, s, p, d);
      labels := [Write(d)] + [run] + [run];
      ExecSnoc(cfg, serial, s, [], Write(d));
      assert [] + [Write(d)] == [Write(d)];
      ExecSnoc(cfg, serial, s, [Write(d)], run);
      ExecSnoc(cfg, serial, s, [Write(d)] + [run], run);
    } else {
      labels := [run];
      ExecSnoc(cfg, serial, s, [], run);
      assert [] + [run] == [run];
    }
  }

  lemma DifferingPreview(cfg: Config, serial: bool, s: State, p: nat, d: Data)
    requires p < |s.procs| && s.procs[p].pc == FirstPreview
    requires cfg.tool.preview(d).Some? && cfg.tool.preview(d).value != s.call.previewHash
    requires forall q :: 0 <= q < |s.procs| ==> s.procs[q].pc != Execute
    ensures var run := Run(p, UNLUCKY);
      Step(cfg, serial, Step(cfg, serial, Step(cfg, serial, s, Write(d)), run), run).call.status == Stale
  {
    var run := Run(p, UNLUCKY);
    assert !Blocked(serial, s, -1);
    var t := Step(cfg, serial, s, Write(d));
    assert !Blocked(serial, t, p);
    var u := Step(cfg, serial, t, run);
    assert u.procs[p].pc == WriteStaleBeforeClaim;
    assert !Blocked(serial, u, p);
  }

  /** A claimant that raises or dies right after its claim leaves the call executing forever. */
  lemma CallCanStayExecuting() returns (cfg: Config, s: State, labels: seq<Label>)
    ensures Initial(s)
    ensures forall more :: Exec(cfg, false, s, labels + more).call.status == Executing
  {
    cfg, s := CountingConfig(), SlipAt(0);
    labels := SlipRun(3);
    ExecSnoc(cfg, false, s, labels, Crash(0));
    labels := labels + [Crash(0)];
    var t := Exec(cfg, false, s, labels);
    CrashedAfterClaim(t);
    InitialInv(cfg, s);
    hide Exec;
    RunKeepsInv(cfg, false, s, labels);
    forall more ensures Exec(cfg, false, s, labels + more).call.status == Executing {
      ExecConcat(cfg, false, s, labels, more);
      AbandonedStays(cfg, false, t, more);
    }
  }

  lemma CrashedAfterClaim(t: State)
    requires t == Step(CountingConfig(), false, SlipAt(3), Crash(0))
    ensures Abandoned(CountingConfig(), t)
  {
  }

  ghost predicate Abandoned(cfg: Config, s: State) {
    && InExecution(s) && s.claimants[0] < |s.procs| && s.procs[s.claimants[0]].pc == Crashed && !LateWriter(cfg, s)
  }

  lemma {:induction false} AbandonedStays(cfg: Config, serial: bool, s: State, labels: seq<Label>)
    requires Inv(cfg, s) && Abandoned(cfg, s)
    ensures var t := Exec(cfg, serial, s, labels); t.call.status == Executing && Abandoned(cfg, t)
    decreases |labels|
  {
    hide Step, Inv, LateWriter;
    if labels != [] {
      var front := labels[..|labels| - 1];
      AbandonedStays(cfg, serial, s, front);
      RunKeepsInv(cfg, serial, s, front);
      AbandonedStep(cfg, serial, Exec(cfg, serial, s, front), labels[|labels| - 1]);
    }
  }

  lemma AbandonedStep(cfg: Config, serial: bool, s: State, move: Label)
    requires Inv(cfg, s) && Abandoned(cfg, s)
    ensures Abandoned(cfg, Step(cfg, serial, s, move))
  {
    ClaimantIsAlive(cfg, s);
    var t := Step(cfg, serial, s, move);
    if move.Run? && move.pid < |s.procs| {
      assert ProcOk(cfg, s, move.pid) && !LateWriterAt(cfg, s, move.pid);
      assert !LateWriterAt(cfg, t, move.pid);
    }
    forall p | 0 <= p < |t.procs| ensures !LateWriterAt(cfg, t, p) {
      assert !LateWriterAt(cfg, s, p);
    }
  }

  // ---------------------------------------------------------------- a cancellation that comes too late

  /** The counting tool's call with one approval and one rejection, somewhere along a run. */
  function Duel(approval: Pc, rejection: Pc, status: CallStatus, done: bool): State {
    State(Call(1, 0, Some(9), "", status), if done then 1 else 0,
          [Proc(Approve(1, "", ""), approval, if approval == Start then None else Some(0)),
           Proc(Reject(1), rejection, if rejection == Start then None else Some(0))],
          if done then [Commit(0, 0, 1)] else [],
          if PostClaim(approval) || done then [0] else [], {})
  }

  /** The duel after `i` moves: the rejection reads, the approval runs to its end, the rejection writes. */
  function DuelAt(i: nat): State
    requires i <= 7
  {
    match i
    case 0 => Duel(Start, Start, PendingConfirmation, false)
    case 1 => Duel(Start, WriteRejected, PendingConfirmation, false)
    case 2 => Duel(FirstPreview, WriteRejected, PendingConfirmation, false)
    case 3 => Duel(Claim, WriteRejected, PendingConfirmation, false)
    case 4 => Duel(Recheck, WriteRejected, Executing, false)
    case 5 => Duel(Execute, WriteRejected, Executing, false)
    case 6 => Duel(Refresh, WriteRejected, Executed, true)
    case _ => Duel(Refresh, Done(Cancelled), Rejected, true)
  }

  function DuelMove(i: nat): Label {
    Run(if i == 0 || i == 6 then 1 else 0, Env(0, true, true, true))
  }

  lemma DuelApprovalStep(i: nat)
    requires 1 <= i < 6
    ensures Advance(CountingConfig(), DuelAt(i), 0, Env(0, true, true, true)) == DuelAt(i + 1)
  {
  }

  lemma DuelRejectionStep(i: nat)
    requires i == 0 || i == 6
    ensures Advance(CountingConfig(), DuelAt(i), 1, Env(0, true, true, true)) == DuelAt(i + 1)
  {
  }

  lemma DuelStep(i: nat)
    requires i < 7
    ensures Step(CountingConfig(), true, DuelAt(i), DuelMove(i)) == DuelAt(i + 1)
  {
    hide Advance, CountingConfig;
    assert !Blocked(true, DuelAt(i), DuelMove(i).pid);
    if i == 0 || i == 6 {
      DuelRejectionStep(i);
    } else {
      DuelApprovalStep(i);
    }
  }

  /** A request can be told that its call was cancelled and nothing changed although the effect was
      committed: the reject read the row before the approval claimed it, and wrote after it committed. */
  lemma CancelledReplyCanHideEffect() returns (cfg: Config, s: State, labels: seq<Label>)
    ensures Initial(s)
    ensures var t := Exec(cfg, true, s, labels);
      |t.commits| == 1 && t.call.status == Rejected && |t.procs| == 2 && t.procs[1].pc == Done(Cancelled)
  {
    cfg, s, labels := CountingConfig(), DuelAt(0), [];
    for i := 0 to 7
      invariant Exec(cfg, true, s, labels) == DuelAt(i)
    {
      DuelStep(i);
      ExecSnoc(cfg, true, s, labels, DuelMove(i));
      labels := labels + [DuelMove(i)];
    }
  }

  // ---------------------------------------------------------------- the request code

  ghost predicate Foreign(labels: seq<Label>, pid: nat) {
    forall i :: 0 <= i < |labels| ==>
      !(labels[i].Run? && labels[i].pid == pid) && !(labels[i].Crash? && labels[i].pid == pid)
  }

  lemma {:induction false} ExecConcat(cfg: Config, serial: bool, s: State, a: seq<Label>, b: seq<Label>)
    ensures Exec(cfg, serial, s, a + b) == Exec(cfg, serial, Exec(cfg, serial, s, a), b)
    decreases |b|
  {
    hide Step;
    if b == [] {
      assert a + b == a;
    } else {
      var front := b[..|b| - 1];
      ExecConcat(cfg, serial, s, a, front);
      ExecSnoc(cfg, serial, s, a + front, b[|b| - 1]);
      assert a + b == a + front + [b[|b| - 1]];
    }
  }

  lemma {:induction false} ForeignKeepsProc(cfg: Config, serial: bool, s: State, labels: seq<Label>, pid: nat)
    requires pid < |s.procs| && Foreign(labels, pid)
    ensures var t := Exec(cfg, serial, s, labels); |t.procs| == |s.procs| && t.procs[pid] == s.procs[pid]
    decreases |labels|
  {
    hide Step;
    if labels != [] {
      var front, last := labels[..|labels| - 1], labels[|labels| - 1];
      ForeignKeepsProc(cfg, serial, s, front, pid);
      assert labels[|labels| - 1] == last;
      ForeignStep(cfg, serial, Exec(cfg, serial, s, front), last, pid);
    }
  }

  /** The commits of others only were added. */
  ghost predicate NoneBy(before: seq<Commit>, after: seq<Commit>, pid: nat) {
    before <= after && forall i :: |before| <= i < |after| ==> after[i].pid != pid
  }

  /** And one of this request. */
  ghost predicate SomeBy(before: seq<Commit>, after: seq<Commit>, pid: nat) {
    before <= after && exists i :: |before| <= i < |after| && after[i].pid == pid
  }

  lemma NoneByAgain(a: seq<Commit>, b: seq<Commit>, c: seq<Commit>, pid: nat)
    requires NoneBy(b, c, pid)
    ensures NoneBy(a, b, pid) ==> NoneBy(a, c, pid)
    ensures SomeBy(a, b, pid) ==> SomeBy(a, c, pid)
  {
    assert forall i :: 0 <= i < |b| ==> c[i] == b[i];
    if SomeBy(a, b, pid) {
      var i :| |a| <= i < |b| && b[i].pid == pid;
      assert c[i].pid == pid;
    }
  }

  lemma NoneByAgainIf(a: seq<Commit>, b: seq<Commit>, c: seq<Commit>, pid: nat)
    requires NoneBy(a, b, pid)
    ensures NoneBy(b, c, pid) ==> NoneBy(a, c, pid)
    ensures SomeBy(b, c, pid) ==> SomeBy(a, c, pid)
  {
    if SomeBy(b, c, pid) {
      var i :| |b| <= i < |c| && c[i].pid == pid;
      assert |a| <= i;
    }
  }

  lemma OwnCommit(a: seq<Commit>, b: seq<Commit>, commit: Commit, pid: nat)
    requires NoneBy(a, b, pid) && commit.pid == pid
    ensures SomeBy(a, b + [commit], pid)
  {
    assert (b + [commit])[|b|].pid == pid;
  }

  lemma {:induction false} ForeignCommits(cfg: Config, serial: bool, s: State, labels: seq<Label>, pid: nat)
    requires Foreign(labels, pid)
    ensures NoneBy(s.commits, Exec(cfg, serial, s, labels).commits, pid)
    decreases |labels|
  {
    hide Step;
    if labels != [] {
      var front, last := labels[..|labels| - 1], labels[|labels| - 1];
      assert forall i :: 0 <= i < |front| ==> front[i] == labels[i];
      ForeignCommits(cfg, serial, s, front, pid);
      StepCommits(cfg, serial, Exec(cfg, serial, s, front), last, if last.Write? then pid + 1 else last.pid);
    }
  }

  lemma ForeignStep(cfg: Config, serial: bool, s: State, l: Label, pid: nat)
    requires pid < |s.procs| && !(l.Run? && l.pid == pid) && !(l.Crash? && l.pid == pid)
    ensures var t := Step(cfg, serial, s, l); |t.procs| == |s.procs| && t.procs[pid] == s.procs[pid]
  {
    hide AfterLoad;
  }

  // ---------------------------------------------------------------- reaching the commit

  /** The tool refuses by itself to run on a state that was not previewed. */
  ghost predicate SelfChecking(cfg: Config, hash: int) {
    forall d :: cfg.tool.execute(d).Some? ==> cfg.tool.preview(d) == Some(hash)
  }

  ghost predicate Matchable(cfg: Config, hash: int) {
    exists d :: cfg.tool.preview(d) == Some(hash)
  }

  ghost predicate Runnable(cfg: Config) {
    exists d :: cfg.tool.execute(d).Some?
  }

  const LUCKY := Env(0, true, true, true)

  /** How far a claimant is from its execution. */
  function Distance(pc: Pc): nat {
    if pc == Recheck then 3 else if pc == Backup then 2 else if pc == FinalCheck then 1 else 0
  }

  predicate BeforeCommit(pc: Pc) {
    pc in {Recheck, Backup, FinalCheck, Execute}
  }

  /** Nothing but request `p` and the data moved. */
  ghost predicate OnlyMoved(s: State, t: State, p: nat) {
    && t.call == s.call && t.commits == s.commits && t.claimants == s.claimants && |t.procs| == |s.procs|
      && p < |s.procs|
    && forall q :: 0 <= q < |s.procs| && q != p ==> t.procs[q] == s.procs[q]
  }

  lemma ExecTwo(cfg: Config, s: State, a: Label, b: Label)
    ensures Exec(cfg, false, s, [a, b]) == Step(cfg, false, Step(cfg, false, s, a), b)
  {
    ExecSnoc(cfg, false, s, [], a);
    ExecSnoc(cfg, false, s, [a], b);
    assert [a] + [b] == [a, b] && [] + [a] == [a];
    assert Exec(cfg, false, s, []) == s;
  }

  lemma OneStepCloser(cfg: Config, s: State, p: nat, d: Data)
    requires p < |s.procs| && s.procs[p].pc in {Recheck, Backup, FinalCheck}
      && cfg.tool.preview(d) == Some(s.call.previewHash)
    ensures var t := Step(cfg, false, Step(cfg, false, s, Write(d)), Run(p, LUCKY));
      OnlyMoved(s, t, p) && BeforeCommit(t.procs[p].pc) && Distance(t.procs[p].pc) < Distance(s.procs[p].pc)
  {
    hide AfterLoad;
  }

  /** A claimant can be brought to its execution by writers that restore the previewed state for each check. */
  lemma {:induction false} ToExecute(cfg: Config, s: State, p: nat, d: Data) returns (labels: seq<Label>)
    requires p < |s.procs| && BeforeCommit(s.procs[p].pc)
    requires s.procs[p].pc == Execute || cfg.tool.preview(d) == Some(s.call.previewHash)
    ensures var t := Exec(cfg, false, s, labels); OnlyMoved(s, t, p) && t.procs[p].pc == Execute
    decreases Distance(s.procs[p].pc)
  {
    hide Step, Distance;
    if s.procs[p].pc == Execute {
      labels := [];
    } else {
      OneStepCloser(cfg, s, p, d);
      var closer := Step(cfg, false, Step(cfg, false, s, Write(d)), Run(p, LUCKY));
      ExecTwo(cfg, s, Write(d), Run(p, LUCKY));
      var rest := ToExecute(cfg, closer, p, d);
      labels := [Write(d), Run(p, LUCKY)] + rest;
      ExecConcat(cfg, false, s, [Write(d), Run(p, LUCKY)], rest);
    }
  }

  /** And then commits on any state the tool runs on. */
  lemma CommitOn(cfg: Config, s: State, p: nat, d: Data)
    requires p < |s.procs| && s.procs[p].pc == Execute && cfg.tool.execute(d).Some?
    ensures Exec(cfg, false, s, [Write(d), Run(p, LUCKY)]).commits
         == s.commits + [Commit(p, d, cfg.tool.execute(d).value)]
  {
    hide AfterLoad, AfterPreview;
    ExecTwo(cfg, s, Write(d), Run(p, LUCKY));
  }

  lemma ReachesCommit(cfg: Config, s: State, p: nat, matching: Data, d: Data) returns (labels: seq<Label>)
    requires p < |s.procs| && BeforeCommit(s.procs[p].pc) && cfg.tool.execute(d).Some?
    requires s.procs[p].pc == Execute || cfg.tool.preview(matching) == Some(s.call.previewHash)
    ensures Exec(cfg, false, s, labels).commits == s.commits + [Commit(p, d, cfg.tool.execute(d).value)]
  {
    hide Exec;
    var first := ToExecute(cfg, s, p, matching);
    var t := Exec(cfg, false, s, first);
    CommitOn(cfg, t, p, d);
    labels := first + [Write(d), Run(p, LUCKY)];
    ExecConcat(cfg, false, s, first, [Write(d), Run(p, LUCKY)]);
  }

  // ---------------------------------------------------------------- without the one-step assumption

  ghost predicate EffectsPreviewed(cfg: Config, s: State) {
    forall i :: 0 <= i < |s.commits| ==> cfg.tool.preview(s.commits[i].before) == Some(s.call.previewHash)
  }

  lemma StepKeepsEffects(cfg: Config, serial: bool, s: State, move: Label)
    requires EffectsPreviewed(cfg, s) && SelfChecking(cfg, s.call.previewHash)
    ensures EffectsPreviewed(cfg, Step(cfg, serial, s, move))
  {
    hide AfterLoad, AfterPreview;
  }

  lemma {:induction false} SelfCheckingSuffices(cfg: Config, serial: bool, s: State, labels: seq<Label>)
    requires EffectsPreviewed(cfg, s) && SelfChecking(cfg, s.call.previewHash)
    ensures EffectsPreviewed(cfg, Exec(cfg, serial, s, labels))
    decreases |labels|
  {
    hide Step, EffectsPreviewed, SelfChecking;
    if labels != [] {
      var front := labels[..|labels| - 1];
      SelfCheckingSuffices(cfg, serial, s, front);
      RunFrame(cfg, serial, s, front);
      StepKeepsEffects(cfg, serial, Exec(cfg, serial, s, front), labels[|labels| - 1]);
    }
  }

  /** Some request of the call may be approved in time. */
  ghost predicate Approvable(cfg: Config, s: State) {
    exists p, now :: 0 <= p < |s.procs| && MayApprove(cfg, s.call, s.procs[p].request, now)
  }

  ghost predicate MayApprove(cfg: Config, call: Call, request: Request, now: Time) {
    && request.Approve? && request.operatorId == call.operatorId
    && call.expiresAt.Some? && now <= call.expiresAt.value
    && cfg.verify(request.token, call.operatorId, call.previewHash, now)
    && (cfg.tool.destructive ==> request.phrase == call.phrase)
  }

  /** An approval from its first read to its claim, on the previewed state. */
  lemma ApprovalClaims(cfg: Config, s: State, p: nat, now: Time, d: Data) returns (labels: seq<Label>)
    requires Initial(s) && p < |s.procs| && MayApprove(cfg, s.call, s.procs[p].request, now)
    requires cfg.tool.preview(d) == Some(s.call.previewHash)
    ensures var t := Exec(cfg, false, s, labels);
      p < |t.procs| && t.procs[p].pc == Recheck && t.commits == [] && t.call.previewHash == s.call.previewHash
  {
    var read := Run(p, LUCKY.(now := now));
    labels := [Write(d), read] + [Run(p, LUCKY), Run(p, LUCKY)];
    ExecTwo(cfg, s, Write(d), read);
    var t := Exec(cfg, false, s, [Write(d), read]);
    ExecTwo(cfg, t, Run(p, LUCKY), Run(p, LUCKY));
    ExecConcat(cfg, false, s, [Write(d), read], [Run(p, LUCKY), Run(p, LUCKY)]);
    assert t == s.(data := d, procs := s.procs[p := Proc(s.procs[p].request, FirstPreview, Some(now))]);
  }

  lemma StrayEffect(cfg: Config, s: State, d: Data) returns (labels: seq<Label>)
    requires Initial(s) && Approvable(cfg, s) && Matchable(cfg, s.call.previewHash)
    requires cfg.tool.execute(d).Some? && cfg.tool.preview(d) != Some(s.call.previewHash)
    ensures !EffectsPreviewed(cfg, Exec(cfg, false, s, labels))
  {
    hide Exec, Initial, MayApprove;
    var p: nat, now :| p < |s.procs| && MayApprove(cfg, s.call, s.procs[p].request, now);
    var matching :| cfg.tool.preview(matching) == Some(s.call.previewHash);
    var first := ApprovalClaims(cfg, s, p, now, matching);
    var t := Exec(cfg, false, s, first);
    var rest := ReachesCommit(cfg, t, p, matching, d);
    labels := first + rest;
    ExecConcat(cfg, false, s, first, rest);
    RunFrame(cfg, false, s, labels);
    assert Exec(cfg, false, s, labels).commits[0] == Commit(p, d, cfg.tool.execute(d).value);
  }

  /** A claim needs a request that may be approved and a state with the stored hash. */
  ghost predicate ClaimNeeds(cfg: Config, s: State) {
    (s.claimants != [] || exists p :: 0 <= p < |s.procs| && s.procs[p].pc == Claim) ==>
      Matchable(cfg, s.call.previewHash)
  }

  lemma StepKeepsClaimNeeds(cfg: Config, serial: bool, s: State, move: Label)
    requires ClaimNeeds(cfg, s)
    ensures ClaimNeeds(cfg, Step(cfg, serial, s, move))
  {
    hide AfterLoad, Matchable;
    var t := Step(cfg, serial, s, move);
    if move.Run? && move.pid < |s.procs| && s.procs[move.pid].pc == FirstPreview
      && cfg.tool.preview(s.data) == Some(s.call.previewHash) {
      MatchedBy(cfg, s.call.previewHash, s.data);
    }
    if p: nat :| p < |t.procs| && t.procs[p].pc == Claim {
      assert move.Run? && move.pid == p && s.procs[p].pc != Claim ==> s.procs[p].pc in {Start, FirstPreview};
      NotClaimByReading(cfg, s.call, s.procs[p].request, if move.Run? then move.env.now else 0);
    }
  }

  lemma NotClaimByReading(cfg: Config, call: Call, request: Request, now: Time)
    ensures AfterLoad(cfg, call, request, now) != Claim
  {
  }

  lemma MatchedBy(cfg: Config, hash: int, d: Data)
    requires cfg.tool.preview(d) == Some(hash)
    ensures Matchable(cfg, hash)
  {
  }

  lemma {:induction false} RunKeepsClaimNeeds(cfg: Config, serial: bool, s: State, labels: seq<Label>)
    requires Initial(s)
    ensures ClaimNeeds(cfg, Exec(cfg, serial, s, labels))
    decreases |labels|
  {
    hide Step, ClaimNeeds;
    if labels == [] {
      NoClaimYet(cfg, s);
    } else {
      RunKeepsClaimNeeds(cfg, serial, s, labels[..|labels| - 1]);
      StepKeepsClaimNeeds(cfg, serial, Exec(cfg, serial, s, labels[..|labels| - 1]), labels[|labels| - 1]);
    }
  }

  lemma NoClaimYet(cfg: Config, s: State)
    requires Initial(s)
    ensures ClaimNeeds(cfg, s)
  {
  }

  /** A committed effect needed an approvable request and a matchable hash. */
  lemma CommitNeeds(cfg: Config, serial: bool, s: State, labels: seq<Label>)
    requires Initial(s) && Exec(cfg, serial, s, labels).commits != []
    ensures Approvable(cfg, s) && Matchable(cfg, s.call.previewHash)
  {
    hide Exec, Initial, Matchable;
    InitialInv(cfg, s);
    RunKeepsInv(cfg, serial, s, labels);
    RunFrame(cfg, serial, s, labels);
    RunKeepsClaimNeeds(cfg, serial, s, labels);
    var t := Exec(cfg, serial, s, labels);
    var p := t.claimants[0];
    assert Authorized(cfg, t.call, t.procs[p]);
    assert MayApprove(cfg, s.call, s.procs[p].request, t.procs[p].started.value);
  }

  /** Without the one-step assumption, every effect of every run lands on a state with the previewed hash
      exactly when no request may be approved at all, no state has that hash, or the tool itself runs only on
      such states: a writer can otherwise always slip between the last check and the commit. */
  lemma UnserialisedEffectMatchesExactly(cfg: Config, s: State)
    requires Initial(s)
    ensures (forall labels :: EffectsPreviewed(cfg, Exec(cfg, false, s, labels))) <==>
      !Approvable(cfg, s) || !Matchable(cfg, s.call.previewHash) || SelfChecking(cfg, s.call.previewHash)
  {
    hide Exec, Approvable, Matchable, EffectsPreviewed;
    if Approvable(cfg, s) && Matchable(cfg, s.call.previewHash) && !SelfChecking(cfg, s.call.previewHash) {
      var d :| cfg.tool.execute(d).Some? && cfg.tool.preview(d) != Some(s.call.previewHash);
      var labels := StrayEffect(cfg, s, d);
      assert !EffectsPreviewed(cfg, Exec(cfg, false, s, labels));
    } else {
      forall labels ensures EffectsPreviewed(cfg, Exec(cfg, false, s, labels)) {
        NoEffectOrPreviewed(cfg, s, labels);
      }
    }
  }

  lemma NoEffectOrPreviewed(cfg: Config, s: State, labels: seq<Label>)
    requires Initial(s)
    requires !Approvable(cfg, s) || !Matchable(cfg, s.call.previewHash) || SelfChecking(cfg, s.call.previewHash)
    ensures EffectsPreviewed(cfg, Exec(cfg, false, s, labels))
  {
    hide Exec, Approvable, Matchable, SelfChecking;
    if Exec(cfg, false, s, labels).commits != [] {
      CommitNeeds(cfg, false, s, labels);
      SelfCheckingSuffices(cfg, false, s, labels);
    }
  }

  /** The same one step before the effect: the state of the data no longer matters. */
  lemma LastStepMatchesExactly(cfg: Config, s: State, p: nat)
    requires p < |s.procs| && s.procs[p].pc == Execute && s.commits == []
    ensures (forall labels :: EffectsPreviewed(cfg, Exec(cfg, false, s, labels))) <==>
      SelfChecking(cfg, s.call.previewHash)
  {
    hide Exec;
    if SelfChecking(cfg, s.call.previewHash) {
      forall labels ensures EffectsPreviewed(cfg, Exec(cfg, false, s, labels)) {
        SelfCheckingSuffices(cfg, false, s, labels);
      }
    } else {
      var d :| cfg.tool.execute(d).Some? && cfg.tool.preview(d) != Some(s.call.previewHash);
      CommitOn(cfg, s, p, d);
      RunFrame(cfg, false, s, [Write(d), Run(p, LUCKY)]);
      var t := Exec(cfg, false, s, [Write(d), Run(p, LUCKY)]);
      assert t.commits[0] == Commit(p, d, cfg.tool.execute(d).value);
      assert !EffectsPreviewed(cfg, t);
    }
  }

  // ---------------------------------------------------------------- when a cancellation is one

  /** The request has claimed the call and can still commit its effect. */
  ghost predicate CanCommit(cfg: Config, s: State, p: nat)
    requires p < |s.procs|
  {
    BeforeCommit(s.procs[p].pc) && Runnable(cfg) && (s.procs[p].pc == Execute || Matchable(cfg, s.call.previewHash))
  }

  ghost predicate SomeoneCanCommit(cfg: Config, s: State) {
    exists p :: 0 <= p < |s.procs| && CanCommit(cfg, s, p)
  }

  ghost predicate Settled(cfg: Config, s: State) {
    s.call.status != PendingConfirmation && s.commits == [] && !SomeoneCanCommit(cfg, s)
  }

  lemma AdvanceKeepsSettled(cfg: Config, s: State, pid: nat, env: Env)
    requires Settled(cfg, s) && pid < |s.procs|
    ensures var t := Advance(cfg, s, pid, env);
      t.call.status != PendingConfirmation && t.commits == [] && t.call.previewHash == s.call.previewHash
        && !CanCommit(cfg, t, pid)
  {
    hide AfterLoad;
    assert !CanCommit(cfg, s, pid);
    NotPostClaimByReading(cfg, s.call, s.procs[pid].request, env.now);
  }

  lemma NotPostClaimByReading(cfg: Config, call: Call, request: Request, now: Time)
    ensures !BeforeCommit(AfterLoad(cfg, call, request, now))
  {
  }

  lemma StepKeepsSettled(cfg: Config, s: State, move: Label)
    requires Settled(cfg, s)
    ensures Settled(cfg, Step(cfg, false, s, move))
  {
    hide Runnable, Matchable;
    var t := Step(cfg, false, s, move);
    if move.Run? && move.pid < |s.procs| {
      AdvanceKeepsSettled(cfg, s, move.pid, move.env);
    }
    StepFrame(cfg, false, s, move);
    forall p | 0 <= p < |t.procs| ensures !CanCommit(cfg, t, p) {
      assert !CanCommit(cfg, s, p);
    }
  }

  lemma {:induction false} SettledStays(cfg: Config, s: State, labels: seq<Label>)
    requires Settled(cfg, s)
    ensures Settled(cfg, Exec(cfg, false, s, labels))
    decreases |labels|
  {
    hide Step, Settled;
    if labels != [] {
      SettledStays(cfg, s, labels[..|labels| - 1]);
      StepKeepsSettled(cfg, Exec(cfg, false, s, labels[..|labels| - 1]), labels[|labels| - 1]);
    }
  }

  /** A rejection about to write and answer "cancelled": nothing is, or ever will be, executed in any
      continuation exactly when nothing was committed yet and no claimant can still reach its commit. The
      unconditional write does not stop a claimant. */
  lemma CancelledReplyIsTrueExactly(cfg: Config, s: State, r: nat, env: Env)
    requires r < |s.procs| && s.procs[r].pc == WriteRejected
    ensures var t := Step(cfg, false, s, Run(r, env));
      && t.procs[r].pc == Done(Cancelled)
      && ((forall labels :: Exec(cfg, false, t, labels).commits == []) <==>
          s.commits == [] && !SomeoneCanCommit(cfg, s))
  {
    hide Exec, Runnable, Matchable;
    var t := Step(cfg, false, s, Run(r, env));
    assert t == SetStatus(Goto(s, r, Done(Cancelled)), Rejected);
    CancellingKeepsOthers(cfg, s, r);
    if s.commits == [] && !SomeoneCanCommit(cfg, s) {
      forall labels ensures Exec(cfg, false, t, labels).commits == [] {
        SettledStays(cfg, t, labels);
      }
    } else if s.commits != [] {
      NothingDone(cfg, t);
      assert Exec(cfg, false, t, []).commits != [];
    } else {
      var p: nat :| p < |t.procs| && CanCommit(cfg, t, p);
      var labels := StillCommits(cfg, t, p);
      assert Exec(cfg, false, t, labels).commits != [];
    }
  }

  lemma CancellingKeepsOthers(cfg: Config, s: State, r: nat)
    requires r < |s.procs| && s.procs[r].pc == WriteRejected
    ensures SomeoneCanCommit(cfg, SetStatus(Goto(s, r, Done(Cancelled)), Rejected)) <==> SomeoneCanCommit(cfg, s)
  {
    hide Runnable, Matchable;
    var t := SetStatus(Goto(s, r, Done(Cancelled)), Rejected);
    forall p | 0 <= p < |s.procs| ensures CanCommit(cfg, t, p) <==> CanCommit(cfg, s, p) {
    }
  }

  lemma NothingDone(cfg: Config, s: State)
    ensures Exec(cfg, false, s, []) == s
  {
  }

  lemma StillCommits(cfg: Config, s: State, p: nat) returns (labels: seq<Label>)
    requires p < |s.procs| && CanCommit(cfg, s, p)
    ensures Exec(cfg, false, s, labels).commits != []
  {
    hide Exec;
    var d :| cfg.tool.execute(d).Some?;
    if s.procs[p].pc == Execute {
      labels := ReachesCommit(cfg, s, p, d, d);
    } else {
      var matching :| cfg.tool.preview(matching) == Some(s.call.previewHash);
      labels := ReachesCommit(cfg, s, p, matching, d);
    }
  }

  // ---------------------------------------------------------------- the approval token

  /** With the signed tokens of the application as the check, an effect is committed only for a request whose
      token carries the digest of its own text and a payload naming this call, its operator and its preview. */
  lemma CommitCarriesSignedToken(cfg: Config, serial: bool, s: State, labels: seq<Label>,
                                 codec: ApprovalToken.Codec, callId: string, hashText: int -> string)
    requires Initial(s)
    requires forall token, operatorId: nat, hash, now :: cfg.verify(token, operatorId, hash, now) <==>
      ApprovalToken.Verify(codec, token, callId, operatorId, hashText(hash), now)
    ensures var t := Exec(cfg, serial, s, labels);
      t.commits != [] ==>
        var p := t.commits[0].pid;
        p < |t.procs| && t.procs[p].request.Approve?
        && CarriesApproval(codec, t.procs[p].request.token, callId, s.call.operatorId, hashText(s.call.previewHash))
  {
    hide Exec, ApprovalToken.Verify, CarriesApproval;
    EffectAtMostOnce(cfg, serial, s, labels);
    var t := Exec(cfg, serial, s, labels);
    if t.commits != [] {
      var p := t.procs[t.commits[0].pid];
      assert Authorized(cfg, s.call, p);
      TokenCarriesApproval(codec, p.request.token, callId, s.call.operatorId, hashText(s.call.previewHash),
                           p.started.value);
    }
  }

  predicate CarriesApproval(codec: ApprovalToken.Codec, token: string, callId: string, operatorId: int, hash: string) {
    match ApprovalToken.SplitDot(token)
    case None => false
    case Some((encoded, digest)) =>
      && digest == codec.digest(encoded)
      && match ApprovalToken.Decode(ApprovalToken.RestorePadding(encoded))
         case None => false
         case Some(bytes) =>
           match codec.loads(bytes)
           case None => false
           case Some(p) => p.(expiresAt := 0) == ApprovalToken.Payload(1, callId, operatorId, hash, 0)
  }

  lemma TokenCarriesApproval(codec: ApprovalToken.Codec, token: string, callId: string, operatorId: int, hash: string,
                             now: Time)
    requires ApprovalToken.Verify(codec, token, callId, operatorId, hash, now)
    ensures CarriesApproval(codec, token, callId, operatorId, hash)
  {
    hide ApprovalToken.Decode, ApprovalToken.RestorePadding, ApprovalToken.SplitDot;
  }

  /** The database as one request sees it: the tool call row and the rest, changing under its feet. */
  class AssistantDatabase {
    const cfg: Config
    var call: Call
    var data: Data
    ghost var procs: seq<Proc>
    ghost var commits: seq<Commit>
    ghost var claimants: seq<nat>
    ghost var unread: set<nat>
    ghost var run: seq<Label>
    ghost var start: State

    ghost function Now(): State
      reads this
    {
      State(call, data, procs, commits, claimants, unread)
    }

    /** `run` is a run of the step machine from `start` to the present state. */
    ghost predicate Traced()
      reads this
    {
      Now() == Exec(cfg, false, start, run)
    }

    constructor (cfg: Config, call: Call, data: Data, ghost procs: seq<Proc>)
      ensures this.cfg == cfg && Traced() && start == Now() == State(call, data, procs, [], [], {})
    {
      this.cfg, this.call, this.data := cfg, call, data;
      this.procs, this.commits, this.claimants, this.unread, this.run := procs, [], [], {}, [];
      this.start := State(call, data, procs, [], [], {});
    }

    /** Between two statements of request `pid` everybody else may do anything the machine allows. */
    method Others(pid: nat)
      requires Traced() && pid < |procs|
      modifies this
      ensures Traced() && start == old(start)
      ensures pid < |procs| && procs[pid] == old(procs[pid])
      ensures exists labels :: Foreign(labels, pid) && Now() == Exec(cfg, false, old(Now()), labels)
      ensures NoneBy(old(commits), commits, pid)
    {
      assert Foreign([], pid) && Now() == Exec(cfg, false, Now(), []);
    }

    /** Closes one statement of request `pid`: what it did to the fields was one step of the machine. */
    ghost method Record(pid: nat, env: Env, before: State)
      requires before == Exec(cfg, false, start, run)
      requires Now() == Step(cfg, false, before, Run(pid, env))
      modifies this`run
      ensures Traced()
    {
      ExecSnoc(cfg, false, start, run, Run(pid, env));
      run := run + [Run(pid, env)];
    }

    /** Answers request `pid`. */
    ghost predicate Answered(pid: nat, reply: Reply)
      reads this
    {
      Traced() && pid < |procs| && procs[pid].pc == Done(reply)
    }

    /** approve_assistant_tool_call: read and check, preview, claim, preview, back up, preview, execute. */
    method Approve(pid: nat, operatorId: nat, token: string, phrase: string, env: Env) returns (reply: Reply)
      requires Traced() && pid < |procs| && procs[pid] == Proc(Request.Approve(operatorId, token, phrase), Start, None)
      modifies this
      ensures Answered(pid, reply) && start == old(start)
      ensures reply == ExecutedNow ==>
        Entitled(old(call), Request.Approve(operatorId, token, phrase), env.now)
        && (cfg.tool.requiresBackup ==> env.backupOk) && env.commitOk && env.refreshOk
        && SomeBy(old(commits), commits, pid)
      ensures reply !in {ExecutedNow, Refused("raised")} ==> NoneBy(old(commits), commits, pid)
      ensures cfg.tool.requiresBackup && !env.backupOk ==> NoneBy(old(commits), commits, pid)
    {
      hide NoneBy, SomeBy, Entitled, Step, Exec;
      ghost var c0 := commits;
      var next := LoadCall(pid, Request.Approve(operatorId, token, phrase), env);
      if next.Done? {
        return next.reply;
      }
      ghost var c1 := commits;
      next := FirstCheck(pid, env);
      NoneByAgain(c0, c1, commits, pid);
      if next.Done? {
        return next.reply;
      }
      ghost var c2 := commits;
      var claimed := ClaimCall(pid, env);
      Others(pid);
      NoneByAgain(c0, c2, commits, pid);
      if !claimed {
        reply := LoseClaim(pid, env);
        return;
      }
      ghost var c3 := commits;
      reply := ExecuteClaimed(pid, env);
      NoneByAgainIf(c0, c3, commits, pid);
    }

    /** Another request has the claim: the answer says whether it has executed already. */
    method LoseClaim(pid: nat, env: Env) returns (reply: Reply)
      requires Traced() && pid < |procs| && procs[pid].pc == LostClaim
      modifies this
      ensures Answered(pid, reply) && start == old(start) && commits == old(commits) && call == old(call)
      ensures reply == if call.status == Executed then AlreadyExecuted else Refused("taken")
    {
      ghost var before := Now();
      reply := if call.status == Executed then AlreadyExecuted else Refused("taken");
      procs := procs[pid := procs[pid].(pc := Done(reply))];
      Record(pid, env, before);
    }

    /** The row as read allows this approval to go on. */
    predicate Entitled(call: Call, request: Request, now: Time) {
      && request.Approve? && request.operatorId == call.operatorId && call.status == PendingConfirmation
      && call.expiresAt.Some? && now <= call.expiresAt.value
      && cfg.verify(request.token, request.operatorId, call.previewHash, now)
      && (cfg.tool.destructive ==> request.phrase == call.phrase)
    }

    /** The row as read is the operator's own, pending and past its expiry. */
    predicate Overdue(call: Call, request: Request, now: Time) {
      && request.operatorId == call.operatorId && call.status == PendingConfirmation
      && (call.expiresAt.None? || call.expiresAt.value < now)
    }

    /** The first read of the row; an expired call is marked so on the way out. */
    method LoadCall(pid: nat, request: Request, env: Env) returns (next: Pc)
      requires Traced() && pid < |procs| && procs[pid] == Proc(request, Start, None) && request.Approve?
      modifies this
      ensures Traced() && start == old(start) && pid < |procs| && procs[pid].pc == next
      ensures next == FirstPreview || next.Done?
      ensures next == FirstPreview <==> Entitled(old(call), request, env.now)
      ensures Overdue(old(call), request, env.now) ==> next == Done(Refused("expired")) && call.status == Expired
      ensures next == Done(AlreadyExecuted) <==>
        request.operatorId == old(call.operatorId) && old(call.status) == Executed
      ensures next.Done? ==> next.reply !in {ExecutedNow, Refused("raised")}
      ensures NoneBy(old(commits), commits, pid)
    {
      ghost var before := Now();
      next := AfterLoad(cfg, call, request, env.now);
      procs := procs[pid := Proc(request, next, Some(env.now))];
      Record(pid, env, before);
      Others(pid);
      if next == WriteExpired {
        before := Now();
        call := call.(status := Expired);
        next := Done(Refused("expired"));
        procs := procs[pid := procs[pid].(pc := next)];
        Record(pid, env, before);
      }
    }

    /** The preview before the claim; a changed state marks the call stale without looking again. */
    method FirstCheck(pid: nat, env: Env) returns (next: Pc)
      requires Traced() && pid < |procs| && procs[pid].pc == FirstPreview
      modifies this
      ensures Traced() && start == old(start) && pid < |procs| && procs[pid].pc == next
      ensures next == Claim <==> cfg.tool.preview(old(data)) == Some(old(call.previewHash))
      ensures next == Done(Refused("preview")) <==> cfg.tool.preview(old(data)).None?
      ensures next in {Claim, Done(Refused("preview")), Done(Refused("stale"))}
      ensures next == Done(Refused("stale")) ==> call.status == Stale
      ensures NoneBy(old(commits), commits, pid)
    {
      ghost var before := Now();
      var seen := cfg.tool.preview(data);
      next := if seen.None? then Done(Refused("preview"))
              else if seen.value == call.previewHash then Claim else WriteStaleBeforeClaim;
      procs := procs[pid := procs[pid].(pc := next)];
      Record(pid, env, before);
      Others(pid);
      if next == WriteStaleBeforeClaim {
        before := Now();
        call := call.(status := Stale);
        next := Done(Refused("stale"));
        procs := procs[pid := procs[pid].(pc := next)];
        Record(pid, env, before);
      }
    }

    /** The conditional update: it matches the row only while the call is still pending. */
    method ClaimCall(pid: nat, env: Env) returns (claimed: bool)
      requires Traced() && pid < |procs| && procs[pid].pc == Claim
      modifies this
      ensures Traced() && start == old(start) && data == old(data) && commits == old(commits)
      ensures claimed == (old(call.status) == PendingConfirmation)
      ensures procs == old(procs)[pid := old(procs[pid]).(pc := if claimed then Recheck else LostClaim)]
      ensures claimed ==> call == old(call).(status := Executing) && claimants == old(claimants) + [pid]
      ensures !claimed ==> call == old(call) && claimants == old(claimants)
    {
      ghost var before := Now();
      claimed := call.status == PendingConfirmation;
      if claimed {
        call := call.(status := Executing);
        claimants := claimants + [pid];
      }
      procs := procs[pid := procs[pid].(pc := if claimed then Recheck else LostClaim)];
      Record(pid, env, before);
    }

    /** The part after a won claim. */
    method ExecuteClaimed(pid: nat, env: Env) returns (reply: Reply)
      requires Traced() && pid < |procs| && procs[pid].pc == Recheck
      modifies this
      ensures Answered(pid, reply) && start == old(start) && reply in {ExecutedNow, Refused("raised")}
      ensures cfg.tool.requiresBackup && !env.backupOk ==>
        reply == Refused("raised") && NoneBy(old(commits), commits, pid)
      ensures cfg.tool.preview(old(data)) != Some(old(call.previewHash)) ==>
        reply == Refused("raised") && NoneBy(old(commits), commits, pid)
      ensures reply == ExecutedNow ==> env.commitOk && env.refreshOk && SomeBy(old(commits), commits, pid)
    {
      hide NoneBy, SomeBy, Step, Exec;
      ghost var c0 := commits;
      var passed := CheckAgain(pid, env, if cfg.tool.requiresBackup then Backup else Execute);
      if passed && cfg.tool.requiresBackup {
        ghost var c1 := commits;
        passed := BackUp(pid, env);
        NoneByAgain(c0, c1, commits, pid);
        if passed {
          ghost var c2 := commits;
          passed := CheckAgain(pid, env, Execute);
          NoneByAgain(c0, c2, commits, pid);
        }
      }
      if passed {
        ghost var c3 := commits;
        var done := CommitExecution(pid, env);
        if done {
          OwnCommit(c0, c3, commits[|c3|], pid);
        }
        ghost var c4 := commits;
        Others(pid);
        NoneByAgain(c0, c4, commits, pid);
        if done {
          done := RefreshCall(pid, env);
          if done {
            return ExecutedNow;
          }
          Others(pid);
        }
      }
      ghost var c5 := commits;
      reply := HandleFailure(pid, env);
      NoneByAgain(c0, c5, commits, pid);
    }

    /** _required_backup: the tool does not run without it. */
    method BackUp(pid: nat, env: Env) returns (created: bool)
      requires Traced() && pid < |procs| && procs[pid].pc == Backup
      modifies this
      ensures Traced() && start == old(start)
      ensures created == env.backupOk && NoneBy(old(commits), commits, pid)
      ensures pid < |procs| && procs[pid].pc == (if created then FinalCheck else Recover)
    {
      ghost var before := Now();
      created := env.backupOk;
      procs := procs[pid := procs[pid].(pc := if created then FinalCheck else Recover)];
      Record(pid, env, before);
      Others(pid);
    }

    /** The execution and everything written with it, in one transaction. */
    method CommitExecution(pid: nat, env: Env) returns (done: bool)
      requires Traced() && pid < |procs| && procs[pid].pc == Execute
      modifies this
      ensures Traced() && start == old(start) && claimants == old(claimants)
      ensures pid < |procs| && procs[pid].pc == (if done then Refresh else Recover)
      ensures done == (cfg.tool.execute(old(data)).Some? && env.commitOk)
      ensures done ==> call == old(call).(status := Executed) && cfg.tool.execute(old(data)) == Some(data)
      ensures done ==> commits == old(commits) + [Commit(pid, old(data), data)]
      ensures !done ==> call == old(call) && data == old(data) && commits == old(commits)
    {
      ghost var before := Now();
      var result := cfg.tool.execute(data);
      done := result.Some? && env.commitOk;
      if done {
        commits := commits + [Commit(pid, data, result.value)];
        data := result.value;
        call := call.(status := Executed);
      }
      procs := procs[pid := procs[pid].(pc := if done then Refresh else Recover)];
      Record(pid, env, before);
    }

    /** The row is read again for the answer; the effect is already committed. */
    method RefreshCall(pid: nat, env: Env) returns (answered: bool)
      requires Traced() && pid < |procs| && procs[pid].pc == Refresh
      modifies this
      ensures Traced() && start == old(start) && call == old(call) && data == old(data) && commits == old(commits)
      ensures pid < |procs| && procs[pid].pc == (if answered then Done(ExecutedNow) else Recover)
      ensures answered == env.refreshOk
      ensures unread == if answered then old(unread) else old(unread) + {pid}
    {
      ghost var before := Now();
      answered := env.refreshOk;
      if !answered {
        unread := unread + {pid};
      }
      procs := procs[pid := procs[pid].(pc := if answered then Done(ExecutedNow) else Recover)];
      Record(pid, env, before);
    }

    /** The exception handler: only a call still marked executing is marked failed. */
    method HandleFailure(pid: nat, env: Env) returns (reply: Reply)
      requires Traced() && pid < |procs| && procs[pid].pc == Recover
      modifies this
      ensures Answered(pid, reply) && start == old(start) && reply == Refused("raised")
      ensures old(call.status) == Executing ==> call.status == Failed
      ensures old(call.status) != Executing ==> call == old(call)
      ensures NoneBy(old(commits), commits, pid)
    {
      ghost var before := Now();
      reply := Refused("raised");
      if call.status == Executing {
        procs := procs[pid := procs[pid].(pc := WriteFailed)];
        Record(pid, env, before);
        Others(pid);
        before := Now();
        call := call.(status := Failed);
      }
      procs := procs[pid := procs[pid].(pc := Done(reply))];
      Record(pid, env, before);
    }

    /** One preview check after the claim; when the state has moved on, the row is marked stale. */
    method CheckAgain(pid: nat, env: Env, same: Pc) returns (passed: bool)
      requires Traced() && pid < |procs| && procs[pid].pc in {Recheck, FinalCheck}
      requires same == if procs[pid].pc == Recheck && cfg.tool.requiresBackup then Backup else Execute
      modifies this
      ensures Traced() && start == old(start)
      ensures pid < |procs| && procs[pid] == old(procs[pid]).(pc := if passed then same else Recover)
      ensures passed <==> cfg.tool.preview(old(data)) == Some(old(call.previewHash))
      ensures NoneBy(old(commits), commits, pid)
    {
      ghost var before := Now();
      var seen := cfg.tool.preview(data);
      passed := seen.Some? && seen.value == call.previewHash;
      var stale := seen.Some? && !passed;
      procs := procs[pid := procs[pid].(
          pc := if passed then same else if stale then WriteStaleAfterClaim else Recover)];
      Record(pid, env, before);
      Others(pid);
      if stale {
        MarkStale(pid, env);
        Others(pid);
      }
    }

    method MarkStale(pid: nat, env: Env)
      requires Traced() && pid < |procs| && procs[pid].pc == WriteStaleAfterClaim
      modifies this
      ensures Traced() && start == old(start) && call == old(call).(status := Stale) && commits == old(commits)
      ensures |procs| == |old(procs)| && procs[pid] == old(procs[pid]).(pc := Recover)
    {
      ghost var before := Now();
      call := call.(status := Stale);
      procs := procs[pid := procs[pid].(pc := Recover)];
      Record(pid, env, before);
    }

    /** reject_assistant_tool_call: read, then write without looking again. */
    method Reject(pid: nat, operatorId: nat, env: Env) returns (reply: Reply)
      requires Traced() && pid < |procs| && procs[pid] == Proc(Request.Reject(operatorId), Start, None)
      modifies this
      ensures Traced() && start == old(start)
      ensures pid < |procs| && procs[pid].pc == Done(reply)
      ensures reply == Cancelled <==> operatorId == old(call.operatorId) && old(call.status) == PendingConfirmation
      ensures reply == Cancelled ==> call.status == Rejected
    {
      ghost var before := Now();
      var request := Request.Reject(operatorId);
      var next := AfterLoad(cfg, call, request, env.now);
      procs := procs[pid := Proc(request, next, Some(env.now))];
      Record(pid, env, before);
      if next.Done? {
        return next.reply;
      }
      Others(pid);
      before := Now();
      call := call.(status := Rejected);
      reply := Cancelled;
      procs := procs[pid := procs[pid].(pc := Done(reply))];
      Record(pid, env, before);
    }
  }
}
