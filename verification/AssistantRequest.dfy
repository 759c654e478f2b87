/**
 One request of the approval protocol by itself (app/assistant_service.py): what an approval or a rejection comes
 to when nobody interferes, and which of its steps a tool that needs a backup, or whose preview differs, cannot
 avoid in any run.
 */
module AssistantRequest {
  import opened Common
  import opened AssistantApproval

  // ---------------------------------------------------------------- a request that is alone

  /** The answer, the status it leaves, the data it leaves, and whether the tool was executed. */
  datatype Outcome = Outcome(reply: Reply, status: CallStatus, data: Data, executed: bool)

  /** The request as one transaction, on a row and data nobody else touches. */
  function Alone(cfg: Config, call: Call, data: Data, request: Request, env: Env): Outcome {
    if request.operatorId != call.operatorId then Outcome(Refused("missing"), call.status, data, false)
    else if call.status != PendingConfirmation then
      Outcome(if request.Reject? then Refused("not pending") else SettledReply(call.status), call.status, data, false)
    else if request.Reject? then Outcome(Cancelled, Rejected, data, false)
    else if call.expiresAt.None? || env.now > call.expiresAt.value then
      Outcome(Refused("expired"), Expired, data, false)
    else if !cfg.verify(request.token, request.operatorId, call.previewHash, env.now) then
      Outcome(Refused("token"), PendingConfirmation, data, false)
    else if cfg.tool.destructive && request.phrase != call.phrase then
      Outcome(Refused("phrase"), PendingConfirmation, data, false)
    else
      match cfg.tool.preview(data)
      case None => Outcome(Refused("preview"), PendingConfirmation, data, false)
      case Some(hash) =>
        if hash != call.previewHash then Outcome(Refused("stale"), Stale, data, false)
        else if (cfg.tool.requiresBackup && !env.backupOk) || cfg.tool.execute(data).None? || !env.commitOk then
          Outcome(Refused("raised"), Failed, data, false)
        else
          Outcome(if env.refreshOk then ExecutedNow else Refused("raised"), Executed,
                  cfg.tool.execute(data).value, true)
  }

  /** What an approval of a call that does not wait is told. */
  function SettledReply(status: CallStatus): Reply {
    match status
    case Executed => AlreadyExecuted
    case Executing => Refused("running")
    case _ => Refused("not pending")
  }

  /** The request takes some steps in a row. */
  function Walk(cfg: Config, s: State, pid: nat, env: Env, n: nat): State
    requires pid < |s.procs|
    decreases n
  {
    if n == 0 then s else
      Walk(cfg, Advance(cfg, s, pid, env), pid, env, n - 1)
  }

  /** After some steps the request is answered, and nothing differs but what the outcome says. */
  ghost predicate Ends(cfg: Config, s: State, pid: nat, env: Env, n: nat, o: Outcome)
    requires pid < |s.procs|
  {
    var t := Walk(cfg, s, pid, env, n);
    && |t.procs| == |s.procs| && t.procs[pid].pc == Done(o.reply)
    && (forall q :: 0 <= q < |s.procs| && q != pid ==> t.procs[q] == s.procs[q])
    && t.call == s.call.(status := o.status) && t.data == o.data
    && t.commits == s.commits + if o.executed then [Commit(pid, s.data, o.data)] else []
  }

  lemma {:induction false} AnsweredStays(cfg: Config, s: State, pid: nat, env: Env, n: nat)
    requires pid < |s.procs| && s.procs[pid].pc.Done?
    ensures Walk(cfg, s, pid, env, n) == s
    decreases n
  {
    if n > 0 {
      AnsweredStays(cfg, s, pid, env, n - 1);
    }
  }

  /** A step that changes nothing but the request's place and the status of the row. */
  lemma EndsBefore(cfg: Config, s: State, pid: nat, env: Env, n: nat, o: Outcome)
    requires pid < |s.procs|
    requires var t := Advance(cfg, s, pid, env);
      && |t.procs| == |s.procs| && (forall q :: 0 <= q < |s.procs| && q != pid ==> t.procs[q] == s.procs[q])
      && t.call == s.call.(status := t.call.status) && t.data == s.data && t.commits == s.commits
      && Ends(cfg, t, pid, env, n, o)
    ensures Ends(cfg, s, pid, env, n + 1, o)
  {
    hide Advance;
  }

  lemma EndsNow(cfg: Config, s: State, pid: nat, env: Env, n: nat, o: Outcome)
    requires pid < |s.procs|
    requires var t := Advance(cfg, s, pid, env);
      && |t.procs| == |s.procs| && t.procs[pid].pc == Done(o.reply)
      && (forall q :: 0 <= q < |s.procs| && q != pid ==> t.procs[q] == s.procs[q])
      && t.call == s.call.(status := o.status) && t.data == o.data
      && t.commits == s.commits + if o.executed then [Commit(pid, s.data, o.data)] else []
    ensures Ends(cfg, s, pid, env, n + 1, o)
  {
    AnsweredStays(cfg, Advance(cfg, s, pid, env), pid, env, n);
    hide Advance;
  }

  lemma FromWriteFailed(cfg: Config, s: State, pid: nat, env: Env, n: nat)
    requires pid < |s.procs| && s.procs[pid].pc == WriteFailed
    ensures Ends(cfg, s, pid, env, n + 1, Outcome(Refused("raised"), Failed, s.data, false))
  {
    EndsNow(cfg, s, pid, env, n, Outcome(Refused("raised"), Failed, s.data, false));
  }

  lemma FromRecover(cfg: Config, s: State, pid: nat, env: Env, n: nat)
    requires pid < |s.procs| && s.procs[pid].pc == Recover
    ensures Ends(cfg, s, pid, env, n + 2,
                 Outcome(Refused("raised"), if s.call.status == Executing then Failed else s.call.status, s.data,
                          false))
  {
    if s.call.status == Executing {
      var t := Advance(cfg, s, pid, env);
      assert t.procs[pid].pc == WriteFailed && t.call.status == Executing;
      FromWriteFailed(cfg, t, pid, env, n);
      EndsBefore(cfg, s, pid, env, n + 1, Outcome(Refused("raised"), Failed, s.data, false));
    } else {
      EndsNow(cfg, s, pid, env, n + 1, Outcome(Refused("raised"), s.call.status, s.data, false));
    }
  }

  /** How a claimed call ends from its execution on. */
  function ExecutionOf(cfg: Config, data: Data, env: Env): Outcome {
    if cfg.tool.execute(data).None? || !env.commitOk then Outcome(Refused("raised"), Failed, data, false)
    else Outcome(if env.refreshOk then ExecutedNow else Refused("raised"), Executed, cfg.tool.execute(data).value, true)
  }

  lemma FromRefresh(cfg: Config, s: State, pid: nat, env: Env)
    requires pid < |s.procs| && s.procs[pid].pc == Refresh && s.call.status == Executed
    ensures Ends(cfg, s, pid, env, 3,
                 Outcome(if env.refreshOk then ExecutedNow else Refused("raised"), Executed, s.data, false))
  {
    if env.refreshOk {
      EndsNow(cfg, s, pid, env, 2, Outcome(ExecutedNow, Executed, s.data, false));
    } else {
      var t := Advance(cfg, s, pid, env);
      FromRecover(cfg, t, pid, env, 0);
      EndsBefore(cfg, s, pid, env, 2, Outcome(Refused("raised"), Executed, s.data, false));
    }
  }

  /** The step that commits. */
  lemma EndsAfterCommit(cfg: Config, s: State, pid: nat, env: Env, n: nat, reply: Reply, status: CallStatus)
    requires pid < |s.procs|
    requires var t := Advance(cfg, s, pid, env);
      && |t.procs| == |s.procs| && (forall q :: 0 <= q < |s.procs| && q != pid ==> t.procs[q] == s.procs[q])
      && t.call == s.call.(status := t.call.status) && t.commits == s.commits + [Commit(pid, s.data, t.data)]
      && Ends(cfg, t, pid, env, n, Outcome(reply, status, t.data, false))
    ensures Ends(cfg, s, pid, env, n + 1, Outcome(reply, status, Advance(cfg, s, pid, env).data, true))
  {
    hide Advance;
  }

  lemma FromExecute(cfg: Config, s: State, pid: nat, env: Env)
    requires pid < |s.procs| && s.procs[pid].pc == Execute && s.call.status == Executing
    ensures Ends(cfg, s, pid, env, 4, ExecutionOf(cfg, s.data, env))
  {
    hide Ends, Walk;
    var t := Advance(cfg, s, pid, env);
    if cfg.tool.execute(s.data).None? || !env.commitOk {
      FromRecover(cfg, t, pid, env, 1);
      EndsBefore(cfg, s, pid, env, 3, Outcome(Refused("raised"), Failed, s.data, false));
    } else {
      FromRefresh(cfg, t, pid, env);
      EndsAfterCommit(cfg, s, pid, env, 3, if env.refreshOk then ExecutedNow else Refused("raised"), Executed);
    }
  }

  lemma FromFinalCheck(cfg: Config, s: State, pid: nat, env: Env)
    requires pid < |s.procs| && s.procs[pid].pc == FinalCheck && s.call.status == Executing
    requires cfg.tool.preview(s.data) == Some(s.call.previewHash)
    ensures Ends(cfg, s, pid, env, 5, ExecutionOf(cfg, s.data, env))
  {
    hide Ends, Walk;
    FromExecute(cfg, Advance(cfg, s, pid, env), pid, env);
    EndsBefore(cfg, s, pid, env, 4, ExecutionOf(cfg, s.data, env));
  }

  /** How a claimed call ends from its backup on. */
  function BackingUp(cfg: Config, data: Data, env: Env): Outcome {
    if cfg.tool.requiresBackup && !env.backupOk then Outcome(Refused("raised"), Failed, data, false)
    else ExecutionOf(cfg, data, env)
  }

  lemma FromBackup(cfg: Config, s: State, pid: nat, env: Env)
    requires pid < |s.procs| && s.procs[pid].pc == Backup && s.call.status == Executing
    requires cfg.tool.preview(s.data) == Some(s.call.previewHash) && cfg.tool.requiresBackup
    ensures Ends(cfg, s, pid, env, 6, BackingUp(cfg, s.data, env))
  {
    hide Ends, Walk;
    var t := Advance(cfg, s, pid, env);
    if env.backupOk {
      FromFinalCheck(cfg, t, pid, env);
    } else {
      FromRecover(cfg, t, pid, env, 3);
    }
    EndsBefore(cfg, s, pid, env, 5, BackingUp(cfg, s.data, env));
  }

  lemma {:induction false} MoreSteps(cfg: Config, s: State, pid: nat, env: Env, n: nat, o: Outcome)
    requires pid < |s.procs| && Ends(cfg, s, pid, env, n, o)
    ensures Ends(cfg, s, pid, env, n + 1, o)
  {
    LastStep(cfg, s, pid, env, n);
  }

  lemma {:induction false} LastStep(cfg: Config, s: State, pid: nat, env: Env, n: nat)
    requires pid < |s.procs|
    ensures pid < |Walk(cfg, s, pid, env, n).procs|
    ensures Walk(cfg, s, pid, env, n + 1) == Advance(cfg, Walk(cfg, s, pid, env, n), pid, env)
    decreases n
  {
    hide Advance;
    if n > 0 {
      StillThere(cfg, s, pid, env);
      LastStep(cfg, Advance(cfg, s, pid, env), pid, env, n - 1);
    }
  }

  lemma StillThere(cfg: Config, s: State, pid: nat, env: Env)
    requires pid < |s.procs|
    ensures |Advance(cfg, s, pid, env).procs| == |s.procs|
  {
  }

  lemma FromRecheck(cfg: Config, s: State, pid: nat, env: Env)
    requires pid < |s.procs| && s.procs[pid].pc == Recheck && s.call.status == Executing
    requires cfg.tool.preview(s.data) == Some(s.call.previewHash)
    ensures Ends(cfg, s, pid, env, 7, BackingUp(cfg, s.data, env))
  {
    hide Ends, Walk;
    var t := Advance(cfg, s, pid, env);
    if cfg.tool.requiresBackup {
      FromBackup(cfg, t, pid, env);
    } else {
      FromExecute(cfg, t, pid, env);
      MoreSteps(cfg, t, pid, env, 4, BackingUp(cfg, s.data, env));
      MoreSteps(cfg, t, pid, env, 5, BackingUp(cfg, s.data, env));
    }
    EndsBefore(cfg, s, pid, env, 6, BackingUp(cfg, s.data, env));
  }

  lemma FromClaim(cfg: Config, s: State, pid: nat, env: Env)
    requires pid < |s.procs| && s.procs[pid].pc == Claim && s.call.status == PendingConfirmation
    requires cfg.tool.preview(s.data) == Some(s.call.previewHash)
    ensures Ends(cfg, s, pid, env, 8, BackingUp(cfg, s.data, env))
  {
    hide Ends, Walk;
    FromRecheck(cfg, Advance(cfg, s, pid, env), pid, env);
    EndsBefore(cfg, s, pid, env, 7, BackingUp(cfg, s.data, env));
  }

  /** How an approval that passed the checks of the row ends. */
  function Previewing(cfg: Config, call: Call, data: Data, env: Env): Outcome {
    match cfg.tool.preview(data)
    case None => Outcome(Refused("preview"), PendingConfirmation, data, false)
    case Some(hash) =>
      if hash == call.previewHash then BackingUp(cfg, data, env) else Outcome(Refused("stale"), Stale, data, false)
  }

  lemma FromFirstPreview(cfg: Config, s: State, pid: nat, env: Env)
    requires pid < |s.procs| && s.procs[pid].pc == FirstPreview && s.call.status == PendingConfirmation
    ensures Ends(cfg, s, pid, env, 9, Previewing(cfg, s.call, s.data, env))
  {
    hide Ends, Walk;
    var t := Advance(cfg, s, pid, env);
    var o := Previewing(cfg, s.call, s.data, env);
    if cfg.tool.preview(s.data).None? {
      EndsNow(cfg, s, pid, env, 8, o);
    } else if cfg.tool.preview(s.data).value == s.call.previewHash {
      FromClaim(cfg, t, pid, env);
      EndsBefore(cfg, s, pid, env, 8, o);
    } else {
      EndsNow(cfg, t, pid, env, 7, o);
      EndsBefore(cfg, s, pid, env, 8, o);
    }
  }

  /** An approval or a rejection that nobody interferes with ends within ten statements, as the one transaction it
      stands for: with its answer, its status, its effect, and nothing else changed. */
  lemma AloneIsAtomic(cfg: Config, s: State, pid: nat, env: Env)
    requires pid < |s.procs| && s.procs[pid].pc == Start
    ensures Ends(cfg, s, pid, env, 10, Alone(cfg, s.call, s.data, s.procs[pid].request, env))
  {
    hide Ends, Walk, Previewing;
    var t := Advance(cfg, s, pid, env);
    var o := Alone(cfg, s.call, s.data, s.procs[pid].request, env);
    if t.procs[pid].pc.Done? {
      EndsNow(cfg, s, pid, env, 9, o);
    } else if t.procs[pid].pc == FirstPreview {
      FromFirstPreview(cfg, t, pid, env);
      PreviewingIsAlone(cfg, s, pid, env);
      EndsBefore(cfg, s, pid, env, 9, o);
    } else {
      EndsNow(cfg, t, pid, env, 8, o);
      EndsBefore(cfg, s, pid, env, 9, o);
    }
  }

  lemma PreviewingIsAlone(cfg: Config, s: State, pid: nat, env: Env)
    requires pid < |s.procs| && s.procs[pid].pc == Start && Advance(cfg, s, pid, env).procs[pid].pc == FirstPreview
    ensures Previewing(cfg, s.call, s.data, env) == Alone(cfg, s.call, s.data, s.procs[pid].request, env)
  {
  }

  function Steps(pid: nat, env: Env, n: nat): seq<Label> {
    if n == 0 then [] else Steps(pid, env, n - 1) + [Run(pid, env)]
  }

  /** Those statements are a run of the step machine. */
  lemma {:induction false} WalkIsRun(cfg: Config, s: State, pid: nat, env: Env, n: nat)
    requires pid < |s.procs|
    ensures Exec(cfg, false, s, Steps(pid, env, n)) == Walk(cfg, s, pid, env, n)
  {
    hide Advance;
    if n > 0 {
      WalkIsRun(cfg, s, pid, env, n - 1);
      LastStep(cfg, s, pid, env, n - 1);
      ExecSnoc(cfg, false, s, Steps(pid, env, n - 1), Run(pid, env));
    }
  }

  // ---------------------------------------------------------------- what no run can skip

  /** Request `p` takes a step at `i` of the run. */
  ghost predicate Moves(cfg: Config, serial: bool, s: State, labels: seq<Label>, p: nat, i: nat) {
    && i < |labels| && labels[i].Run? && labels[i].pid == p
    && var t := Exec(cfg, serial, s, labels[..i]); p < |t.procs| && !Blocked(serial, t, p)
  }

  /** At `i` it makes its backup, and the backup works. */
  ghost predicate BacksUp(cfg: Config, serial: bool, s: State, labels: seq<Label>, p: nat, i: nat) {
    && Moves(cfg, serial, s, labels, p, i) && labels[i].env.backupOk
    && Exec(cfg, serial, s, labels[..i]).procs[p].pc == Backup
  }

  /** At `i` it finds the previewed state. */
  ghost predicate Matches(cfg: Config, serial: bool, s: State, labels: seq<Label>, p: nat, i: nat) {
    && Moves(cfg, serial, s, labels, p, i)
    && cfg.tool.preview(Exec(cfg, serial, s, labels[..i]).data) == Some(s.call.previewHash)
  }

  ghost predicate BackedUp(cfg: Config, serial: bool, s: State, labels: seq<Label>, p: nat) {
    exists i: nat :: BacksUp(cfg, serial, s, labels, p, i)
  }

  ghost predicate BackedUpAndMatched(cfg: Config, serial: bool, s: State, labels: seq<Label>, p: nat) {
    exists i: nat, j: nat :: i < j && BacksUp(cfg, serial, s, labels, p, i) && Matches(cfg, serial, s, labels, p, j)
  }

  /** Whoever is past the backup made it; whoever may execute, or did, also found the previewed state after it. */
  ghost predicate BackupFirst(cfg: Config, serial: bool, s: State, labels: seq<Label>) {
    var t := Exec(cfg, serial, s, labels);
    && (forall p: nat :: p < |t.procs| && t.procs[p].pc == FinalCheck ==> BackedUp(cfg, serial, s, labels, p))
    && (forall p: nat :: p < |t.procs| && t.procs[p].pc == Execute ==> BackedUpAndMatched(cfg, serial, s, labels, p))
    && (forall c :: c in t.commits ==> BackedUpAndMatched(cfg, serial, s, labels, c.pid))
  }

  lemma PrefixKept(cfg: Config, serial: bool, s: State, labels: seq<Label>, last: Label, p: nat)
    ensures BackedUp(cfg, serial, s, labels, p) ==> BackedUp(cfg, serial, s, labels + [last], p)
    ensures BackedUpAndMatched(cfg, serial, s, labels, p) ==> BackedUpAndMatched(cfg, serial, s, labels + [last], p)
  {
    hide Exec, Blocked;
    var more := labels + [last];
    forall i: nat | i < |labels| ensures more[..i] == labels[..i] && more[i] == labels[i] {
    }
    if BackedUp(cfg, serial, s, labels, p) {
      var i: nat :| BacksUp(cfg, serial, s, labels, p, i);
      assert BacksUp(cfg, serial, s, more, p, i);
    }
    if BackedUpAndMatched(cfg, serial, s, labels, p) {
      var i: nat, j: nat :| i < j && BacksUp(cfg, serial, s, labels, p, i) && Matches(cfg, serial, s, labels, p, j);
      assert BacksUp(cfg, serial, s, more, p, i) && Matches(cfg, serial, s, more, p, j);
    }
  }

  /** Where a step came from. */
  lemma CameFrom(cfg: Config, s: State, p: nat, env: Env)
    requires cfg.tool.requiresBackup && p < |s.procs|
    ensures var t := Advance(cfg, s, p, env);
      && p < |t.procs|
      && (t.procs[p].pc == FinalCheck ==> s.procs[p].pc == Backup && env.backupOk)
      && (t.procs[p].pc == Execute ==>
            s.procs[p].pc == FinalCheck && cfg.tool.preview(s.data) == Some(s.call.previewHash))
      && (t.commits == s.commits
          || (t.commits == s.commits + [Commit(p, s.data, t.data)] && s.procs[p].pc == Execute))
  {
  }

  /** The step by which a request gets past its backup, or past the check after it. */
  lemma OwnStep(cfg: Config, serial: bool, s: State, labels: seq<Label>, last: Label)
    requires cfg.tool.requiresBackup && last.Run?
    requires var t := Exec(cfg, serial, s, labels);
      last.pid < |t.procs| && !Blocked(serial, t, last.pid) && t.call.previewHash == s.call.previewHash
    requires BackupFirst(cfg, serial, s, labels)
    ensures var p := last.pid; var t := Exec(cfg, serial, s, labels); var u := Advance(cfg, t, p, last.env);
      && p < |u.procs|
      && (u.procs[p].pc == FinalCheck ==> BackedUp(cfg, serial, s, labels + [last], p))
      && (u.procs[p].pc == Execute ==> BackedUpAndMatched(cfg, serial, s, labels + [last], p))
      && (u.commits == t.commits
          || (u.commits == t.commits + [Commit(p, t.data, u.data)] && BackedUpAndMatched(cfg, serial, s, labels, p)))
  {
    hide Exec, Blocked, Advance;
    var p := last.pid;
    var t := Exec(cfg, serial, s, labels);
    CameFrom(cfg, t, p, last.env);
    var more := labels + [last];
    assert more[..|labels|] == labels && more[|labels|] == last;
    PrefixKept(cfg, serial, s, labels, last, p);
    assert Moves(cfg, serial, s, more, p, |labels|);
    if t.procs[p].pc == Backup && last.env.backupOk {
      assert BacksUp(cfg, serial, s, more, p, |labels|);
    }
    if t.procs[p].pc == FinalCheck && cfg.tool.preview(t.data) == Some(t.call.previewHash) {
      assert Matches(cfg, serial, s, more, p, |labels|);
      var i: nat :| BacksUp(cfg, serial, s, labels, p, i);
      assert more[..i] == labels[..i] && more[i] == labels[i];
      assert BacksUp(cfg, serial, s, more, p, i);
    }
  }

  lemma BackupFirstStep(cfg: Config, serial: bool, s: State, labels: seq<Label>, last: Label)
    requires cfg.tool.requiresBackup && BackupFirst(cfg, serial, s, labels)
    requires Exec(cfg, serial, s, labels).call.previewHash == s.call.previewHash
    ensures BackupFirst(cfg, serial, s, labels + [last])
  {
    hide Exec, Advance, Step, BackedUp, BackedUpAndMatched, Blocked;
    var t := Exec(cfg, serial, s, labels);
    var u := Step(cfg, serial, t, last);
    ExecSnoc(cfg, serial, s, labels, last);
    StillElsewhere(cfg, serial, t, last);
    if last.Run? && last.pid < |t.procs| && !Blocked(serial, t, last.pid) {
      OwnStep(cfg, serial, s, labels, last);
      RunAdvances(cfg, serial, t, last);
    }
    forall p: nat {
      PrefixKept(cfg, serial, s, labels, last, p);
    }
    forall c | c in u.commits ensures BackedUpAndMatched(cfg, serial, s, labels + [last], c.pid) {
    }
  }

  lemma RunAdvances(cfg: Config, serial: bool, s: State, m: Label)
    requires m.Run? && m.pid < |s.procs| && !Blocked(serial, s, m.pid)
    ensures Step(cfg, serial, s, m) == Advance(cfg, s, m.pid, m.env)
  {
  }

  /** A step that is not a request's own leaves it where it was, or crashes it; only a run commits. */
  lemma StillElsewhere(cfg: Config, serial: bool, s: State, m: Label)
    ensures var t := Step(cfg, serial, s, m);
      && (!m.Run? ==> t.commits == s.commits)
      && (forall p: nat :: p < |t.procs| && !(m.Run? && m.pid == p) ==>
            p < |s.procs| && (t.procs[p] == s.procs[p] || t.procs[p].pc == Crashed))
      && (m.Run? && !(m.pid < |s.procs| && !Blocked(serial, s, m.pid)) ==> t == s)
  {
    hide AfterLoad, AfterPreview;
  }

  lemma {:induction false} BackupFirstRun(cfg: Config, serial: bool, s: State, labels: seq<Label>)
    requires Initial(s) && cfg.tool.requiresBackup
    ensures BackupFirst(cfg, serial, s, labels)
    decreases |labels|
  {
    hide Step, BackupFirst;
    if labels == [] {
      NothingToBackUp(cfg, serial, s);
    } else {
      var front, last := labels[..|labels| - 1], labels[|labels| - 1];
      BackupFirstRun(cfg, serial, s, front);
      RunFrame(cfg, serial, s, front);
      BackupFirstStep(cfg, serial, s, front, last);
      assert front + [last] == labels;
    }
  }

  lemma NothingToBackUp(cfg: Config, serial: bool, s: State)
    requires Initial(s)
    ensures BackupFirst(cfg, serial, s, [])
  {
  }

  /** In every run, a tool that requires a backup is executed only for a request that made one before, and found the
      previewed state after it. */
  lemma NoEffectWithoutBackup(cfg: Config, serial: bool, s: State, labels: seq<Label>, c: nat)
    requires Initial(s) && cfg.tool.requiresBackup && c < |Exec(cfg, serial, s, labels).commits|
    ensures var p := Exec(cfg, serial, s, labels).commits[c].pid;
      exists i: nat, j: nat :: i < j && BacksUp(cfg, serial, s, labels, p, i) && Matches(cfg, serial, s, labels, p, j)
  {
    hide Exec, BacksUp, Matches;
    BackupFirstRun(cfg, serial, s, labels);
    assert Exec(cfg, serial, s, labels).commits[c] in Exec(cfg, serial, s, labels).commits;
  }

  /** A claimant that finds another state than the previewed one writes that the call is stale as its next step,
      whatever others do in between. */
  lemma DifferingPreviewGoesStale(cfg: Config, s: State, p: nat, env: Env, others: seq<Label>, later: Env)
    requires p < |s.procs| && s.procs[p].pc in {Recheck, FinalCheck} && Foreign(others, p)
    requires cfg.tool.preview(s.data).Some? && cfg.tool.preview(s.data).value != s.call.previewHash
    ensures var t := Exec(cfg, false, Step(cfg, false, s, Run(p, env)), others);
      Step(cfg, false, t, Run(p, later)).call.status == Stale
  {
    hide Exec;
    var u := Step(cfg, false, s, Run(p, env));
    assert u.procs[p].pc == WriteStaleAfterClaim;
    ForeignKeepsProc(cfg, false, u, others, p);
  }
}
