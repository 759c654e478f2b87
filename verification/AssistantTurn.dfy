/**
 One turn of the assistant (app/assistant_service.py, run_assistant_turn): a bounded exchange with a provider
 that may answer anything. Texts, prompts and token counts are not modelled; one turn at a time.
 */
module AssistantTurn {
  import opened Common

  const MAX_ASSISTANT_ROUNDS := 6
  const MAX_READ_TOOL_CALLS := 8

  datatype Risk = ReadRisk | WriteRisk

  /** What happens when a call's tool runs: for a read its execution, for a write its preview. */
  datatype Effect = Succeeds | ToolFails | Crashes

  /** A call as the provider sends it, with what the code will find out about it: whether it parses, the tool
      its name stands for, whether its arguments fit, and how the tool fares. */
  datatype Call = Malformed | Call(id: string, risk: Option<Risk>, argumentsValid: bool, effect: Effect)

  /** No calls means an answer. */
  datatype Response = ProviderFails | Response(calls: seq<Call>)

  /** The provider answers each round as it likes. */
  type Provider = nat -> Response

  datatype CallStatus = PendingConfirmation | Executed | Failed | Resolved
  datatype Record = Record(risk: Risk, status: CallStatus)
  datatype RunStatus = Completed | WaitingConfirmation | RunFailed

  datatype Message = Earlier | FromProvider(ids: seq<string>) | ToolResult(id: string)

  /** How a turn ends: the tool calls it stored, how often it asked the provider, the conversation as last
      sent, and the status of its run. */
  datatype Ending = Ending(added: seq<Record>, asked: nat, messages: seq<Message>, status: RunStatus)

  // ---------------------------------------------------------------- the exchange

  predicate AllKnown(calls: seq<Call>) {
    forall i :: 0 <= i < |calls| ==> calls[i].Call? && calls[i].risk.Some?
  }

  function Writes(calls: seq<Call>): (writes: seq<Call>)
    ensures forall i :: 0 <= i < |writes| ==> writes[i].Call?
  {
    if calls == [] then [] else
      (if calls[0].Call? && calls[0].risk == Some(WriteRisk) then [calls[0]] else []) + Writes(calls[1..])
  }

  function IdsOf(calls: seq<Call>): seq<string> {
    seq(|calls|, i requires 0 <= i < |calls| => if calls[i].Call? then calls[i].id else "")
  }

  /** The read loop of one round: the records stored before the first call that raises, if one does. */
  datatype Reads = Reads(added: seq<Record>, messages: seq<Message>, raised: bool)

  function ReadAll(calls: seq<Call>, count: nat): Reads
    requires AllKnown(calls)
  {
    if calls == [] then Reads([], [], false)
    else if count + 1 > MAX_READ_TOOL_CALLS || !calls[0].argumentsValid || calls[0].effect == Crashes then
      Reads([], [], true)
    else
      var rest := ReadAll(calls[1..], count + 1);
      Reads([Record(ReadRisk, if calls[0].effect == Succeeds then Executed else Failed)] + rest.added,
            [ToolResult(calls[0].id)] + rest.messages, rest.raised)
  }

  /** One round: it ends the turn, or its reads are answered and the provider is asked again. */
  datatype Round = Over(added: seq<Record>, status: RunStatus)
    | Again(added: seq<Record>, ids: seq<string>, results: seq<Message>)

  function OneRound(response: Response, made: nat): Round {
    match response
    case ProviderFails => Over([], RunFailed)
    case Response(calls) =>
      if calls == [] then Over([], Completed)
      else if !AllKnown(calls) || |Writes(calls)| > 1 then Over([], RunFailed)
      else if |Writes(calls)| == 1 then
        if Writes(calls)[0].argumentsValid && Writes(calls)[0].effect == Succeeds then
          Over([Record(WriteRisk, PendingConfirmation)], WaitingConfirmation)
        else Over([], RunFailed)
      else
        var step := ReadAll(calls, made);
        if step.raised then Over(step.added, RunFailed) else Again(step.added, IdsOf(calls), step.messages)
  }

  /** The rounds from one on, with the reads made so far and the conversation so far. */
  function Rounds(provider: Provider, round: nat, made: nat, messages: seq<Message>): Ending
    requires round <= MAX_ASSISTANT_ROUNDS
    decreases MAX_ASSISTANT_ROUNDS - round
  {
    if round == MAX_ASSISTANT_ROUNDS then Ending([], 0, messages, RunFailed)
    else
      match OneRound(provider(round), made)
      case Over(added, status) => Ending(added, 1, messages, status)
      case Again(added, ids, results) =>
        var later := Rounds(provider, round + 1, made + |added|, messages + [FromProvider(ids)] + results);
        Ending(added + later.added, 1 + later.asked, later.messages, later.status)
  }

  lemma RoundsStep(provider: Provider, round: nat, made: nat, messages: seq<Message>)
    requires round < MAX_ASSISTANT_ROUNDS
    ensures var r := OneRound(provider(round), made); var e := Rounds(provider, round, made, messages);
      && (r.Over? ==> e == Ending(r.added, 1, messages, r.status))
      && (r.Again? ==>
            var later := Rounds(provider, round + 1, made + |r.added|, messages + [FromProvider(r.ids)] + r.results);
            e == Ending(r.added + later.added, 1 + later.asked, later.messages, later.status))
  {
    hide OneRound;
  }

  lemma RoundsEnd(provider: Provider, made: nat, messages: seq<Message>)
    ensures Rounds(provider, MAX_ASSISTANT_ROUNDS, made, messages) == Ending([], 0, messages, RunFailed)
  {
  }

  // ---------------------------------------------------------------- what a turn can do

  predicate IsRead(r: Record) {
    r.risk == ReadRisk && r.status in {Executed, Failed}
  }

  lemma {:induction false} ReadsAreReads(calls: seq<Call>, count: nat)
    requires AllKnown(calls)
    ensures forall i :: 0 <= i < |ReadAll(calls, count).added| ==> IsRead(ReadAll(calls, count).added[i])
    ensures count <= MAX_READ_TOOL_CALLS ==> |ReadAll(calls, count).added| <= MAX_READ_TOOL_CALLS - count
    ensures !ReadAll(calls, count).raised ==> |ReadAll(calls, count).added| == |calls|
    ensures !ReadAll(calls, count).raised ==> ReadAll(calls, count).messages == Results(IdsOf(calls))
  {
    if calls != [] {
      ReadsAreReads(calls[1..], count + 1);
      assert IdsOf(calls) == [calls[0].id] + IdsOf(calls[1..]);
    }
  }

  function Results(ids: seq<string>): seq<Message> {
    if ids == [] then [] else [ToolResult(ids[0])] + Results(ids[1..])
  }

  /** At most so many requests and finished reads, and a write only as the last act, waiting. */
  ghost predicate Bounded(e: Ending, rounds: int, budget: int) {
    var n := |e.added|;
    && e.asked <= rounds
    && (e.status == WaitingConfirmation ==> n > 0 && e.added[n - 1] == Record(WriteRisk, PendingConfirmation))
    && (forall i :: 0 <= i < n && !(e.status == WaitingConfirmation && i == n - 1) ==> IsRead(e.added[i]))
    && n - (if e.status == WaitingConfirmation then 1 else 0) <= budget
  }

  lemma BoundedAfter(added: seq<Record>, later: Ending, rounds: int, budget: int)
    requires Bounded(later, rounds - 1, budget - |added|) && forall i :: 0 <= i < |added| ==> IsRead(added[i])
    ensures Bounded(Ending(added + later.added, 1 + later.asked, later.messages, later.status), rounds, budget)
  {
    hide IsRead;
    var all := added + later.added;
    assert forall i :: |added| <= i < |all| ==> all[i] == later.added[i - |added|];
  }

  lemma RoundIsBounded(response: Response, made: nat)
    requires made <= MAX_READ_TOOL_CALLS
    ensures match OneRound(response, made)
      case Over(added, status) =>
        forall messages :: Bounded(Ending(added, 1, messages, status), 1, MAX_READ_TOOL_CALLS - made)
      case Again(added, ids, results) =>
        (forall i :: 0 <= i < |added| ==> IsRead(added[i])) && made + |added| <= MAX_READ_TOOL_CALLS
          && results == Results(ids)
  {
    hide ReadAll, IdsOf, Writes, AllKnown;
    if response.Response? && AllKnown(response.calls) {
      ReadsAreReads(response.calls, made);
    }
  }

  /** Whatever the provider does, a turn asks it at most six times, stores at most eight finished reads, and
      stores a write only as its last act, waiting for confirmation: no write is ever executed. */
  lemma {:induction false} TurnIsBounded(provider: Provider, round: nat, made: nat, messages: seq<Message>)
    requires round <= MAX_ASSISTANT_ROUNDS && made <= MAX_READ_TOOL_CALLS
    ensures Bounded(Rounds(provider, round, made, messages), MAX_ASSISTANT_ROUNDS - round, MAX_READ_TOOL_CALLS - made)
    decreases MAX_ASSISTANT_ROUNDS - round
  {
    hide OneRound, IsRead, Rounds, Bounded;
    var rounds, budget := MAX_ASSISTANT_ROUNDS - round, MAX_READ_TOOL_CALLS - made;
    if round == MAX_ASSISTANT_ROUNDS {
      RoundsEnd(provider, made, messages);
      FailingIsBounded(messages, budget);
    } else {
      RoundIsBounded(provider(round), made);
      RoundsStep(provider, round, made, messages);
      var r := OneRound(provider(round), made);
      if r.Again? {
        var conversation := messages + [FromProvider(r.ids)] + r.results;
        TurnIsBounded(provider, round + 1, made + |r.added|, conversation);
        BoundedAfter(r.added, Rounds(provider, round + 1, made + |r.added|, conversation), rounds, budget);
      } else {
        MoreRoundsAllowed(Ending(r.added, 1, messages, r.status), rounds, budget);
      }
    }
  }

  lemma FailingIsBounded(messages: seq<Message>, budget: nat)
    ensures Bounded(Ending([], 0, messages, RunFailed), 0, budget)
  {
  }

  lemma MoreRoundsAllowed(e: Ending, rounds: nat, budget: nat)
    requires Bounded(e, 1, budget) && rounds > 0
    ensures Bounded(e, rounds, budget)
  {
    hide IsRead;
  }

  /** A conversation in which every call of every provider message was answered, in order, before the next. */
  ghost predicate Answered(messages: seq<Message>)
    decreases |messages|
  {
    messages == []
    || (messages[|messages| - 1].Earlier? && Answered(messages[..|messages| - 1]))
    || (exists n: nat, ids: seq<string> ::
          n < |messages| && Answered(messages[..n])
          && messages == messages[..n] + [FromProvider(ids)] + Results(ids))
  }

  lemma AnsweredOneMore(messages: seq<Message>, ids: seq<string>)
    requires Answered(messages)
    ensures Answered(messages + [FromProvider(ids)] + Results(ids))
  {
    var more := messages + [FromProvider(ids)] + Results(ids);
    assert more[..|messages|] == messages;
  }

  /** Every conversation the turn sends to the provider is answered in full. */
  lemma {:induction false} ConversationIsAnswered(provider: Provider, round: nat, made: nat, messages: seq<Message>)
    requires round <= MAX_ASSISTANT_ROUNDS && made <= MAX_READ_TOOL_CALLS && Answered(messages)
    ensures Answered(Rounds(provider, round, made, messages).messages)
    decreases MAX_ASSISTANT_ROUNDS - round
  {
    hide OneRound, Answered;
    if round < MAX_ASSISTANT_ROUNDS {
      RoundIsBounded(provider(round), made);
      var r := OneRound(provider(round), made);
      if r.Again? {
        AnsweredOneMore(messages, r.ids);
        ConversationIsAnswered(provider, round + 1, made + |r.added|, messages + [FromProvider(r.ids)] + r.results);
      }
    }
  }

  // ---------------------------------------------------------------- a session over many turns

  predicate HasPending(calls: seq<Record>) {
    exists i :: 0 <= i < |calls| && calls[i].status == PendingConfirmation
  }

  /** A session's stored calls after a turn: refused while a call waits for confirmation. */
  function AfterTurn(calls: seq<Record>, provider: Provider, history: seq<Message>): seq<Record> {
    if HasPending(calls) then calls else calls + Rounds(provider, 0, 0, history).added
  }

  /** A turn, or an approval or rejection that settles one stored call. */
  datatype Event = Turn(provider: Provider, history: seq<Message>) | Settle(index: nat)

  function After(calls: seq<Record>, e: Event): seq<Record> {
    match e
    case Turn(provider, history) => AfterTurn(calls, provider, history)
    case Settle(index) =>
      if index < |calls| && calls[index].status == PendingConfirmation then
        calls[index := calls[index].(status := Resolved)]
      else calls
  }

  function AfterAll(calls: seq<Record>, events: seq<Event>): seq<Record> {
    if events == [] then calls else After(AfterAll(calls, events[..|events| - 1]), events[|events| - 1])
  }

  ghost predicate AtMostOnePending(calls: seq<Record>) {
    forall i, j :: 0 <= i < j < |calls| ==>
      calls[i].status != PendingConfirmation || calls[j].status != PendingConfirmation
  }

  ghost predicate WritesUnexecuted(calls: seq<Record>) {
    forall i :: 0 <= i < |calls| && calls[i].risk == WriteRisk ==> calls[i].status in {PendingConfirmation, Resolved}
  }

  /** In a session, at most one call waits for confirmation at any time, and no turn ever executes a write. */
  lemma {:induction false} SessionKeepsOnePending(events: seq<Event>)
    ensures AtMostOnePending(AfterAll([], events)) && WritesUnexecuted(AfterAll([], events))
  {
    if events != [] {
      SessionKeepsOnePending(events[..|events| - 1]);
      var before := AfterAll([], events[..|events| - 1]);
      match events[|events| - 1] {
        case Turn(provider, history) => TurnKeepsOnePending(before, provider, history);
        case Settle(index) =>
      }
    }
  }

  lemma TurnKeepsOnePending(calls: seq<Record>, provider: Provider, history: seq<Message>)
    requires AtMostOnePending(calls) && WritesUnexecuted(calls)
    ensures AtMostOnePending(AfterTurn(calls, provider, history))
      && WritesUnexecuted(AfterTurn(calls, provider, history))
  {
    hide Rounds;
    if !HasPending(calls) {
      TurnIsBounded(provider, 0, 0, history);
      var added := Rounds(provider, 0, 0, history).added;
      var after := calls + added;
      assert forall i :: 0 <= i < |calls| ==> after[i] == calls[i] && after[i].status != PendingConfirmation;
      assert forall i :: |calls| <= i < |after| ==> after[i] == added[i - |calls|];
    }
  }

  // ---------------------------------------------------------------- the endpoint

  lemma ReadAllStep(calls: seq<Call>, count: nat)
    requires AllKnown(calls) && calls != []
    ensures calls[0].Call? && AllKnown(calls[1..])
    ensures var rest := ReadAll(calls[1..], count + 1);
      ReadAll(calls, count) ==
        if count + 1 > MAX_READ_TOOL_CALLS || !calls[0].argumentsValid || calls[0].effect == Crashes then
          Reads([], [], true)
        else Reads([Record(ReadRisk, if calls[0].effect == Succeeds then Executed else Failed)] + rest.added,
                   [ToolResult(calls[0].id)] + rest.messages, rest.raised)
  {
  }

  lemma NothingToRead(count: nat)
    ensures AllKnown([]) && ReadAll([], count) == Reads([], [], false)
  {
  }

  class Session {
    var calls: seq<Record>
    var runs: seq<RunStatus>

    /** The loop over the read calls of one round. */
    method ReadRound(requests: seq<Call>, readCount: nat) returns (results: seq<Message>, raised: bool)
      requires AllKnown(requests)
      modifies `calls
      ensures var step := ReadAll(requests, readCount);
        calls == old(calls) + step.added && raised == step.raised && (!raised ==> results == step.messages)
    {
      hide ReadAll, AllKnown;
      results, raised := [], false;
      var count := readCount;
      ghost var stored: seq<Record> := [];
      assert requests[0..] == requests;
      for n := 0 to |requests|
        invariant !raised && count == readCount + n && calls == old(calls) + stored && AllKnown(requests[n..])
        invariant var rest := ReadAll(requests[n..], count);
          ReadAll(requests, readCount) == Reads(stored + rest.added, results + rest.messages, rest.raised)
      {
        var request := requests[n];
        assert requests[n..][0] == request && requests[n..][1..] == requests[n + 1..];
        ReadAllStep(requests[n..], count);
        count := count + 1;
        if count > MAX_READ_TOOL_CALLS || !request.argumentsValid || request.effect == Crashes {
          return results, true;
        }
        var record := Record(ReadRisk, if request.effect == Succeeds then Executed else Failed);
        calls, stored := calls + [record], stored + [record];
        results := results + [ToolResult(request.id)];
      }
      assert requests[|requests|..] == [];
      NothingToRead(count);
    }

    /** The body of the loop over the rounds: what one response of the provider leads to. */
    method PlayRound(response: Response, readCount: nat)
      returns (over: bool, status: RunStatus, results: seq<Message>, count: nat)
      modifies `calls
      ensures var r := OneRound(response, readCount);
        && calls == old(calls) + r.added && (over <==> r.Over?)
        && (over ==> status == r.status)
        && (!over ==> count == readCount + |r.added| && results == [FromProvider(r.ids)] + r.results)
    {
      hide ReadAll, IdsOf;
      over, status, results, count := true, RunFailed, [], readCount;
      if response.ProviderFails? {
      } else if response.calls == [] {
        status := Completed;
      } else if !AllKnown(response.calls) || |Writes(response.calls)| > 1 {
      } else if |Writes(response.calls)| == 1 {
        var write := Writes(response.calls)[0];
        if write.argumentsValid && write.effect == Succeeds {
          calls := calls + [Record(WriteRisk, PendingConfirmation)];
          status := WaitingConfirmation;
        }
      } else {
        var answers, raised := ReadRound(response.calls, readCount);
        ReadsAreReads(response.calls, readCount);
        over := raised;
        results := [FromProvider(IdsOf(response.calls))] + answers;
        count := readCount + |response.calls|;
      }
    }

    /** The loop over the rounds. */
    method Exchange(provider: Provider, history: seq<Message>)
      returns (asked: nat, sent: seq<Message>, status: RunStatus)
      modifies `calls
      ensures var e := Rounds(provider, 0, 0, history);
        calls == old(calls) + e.added && asked == e.asked && sent == e.messages && status == e.status
    {
      hide OneRound, Rounds, Going, Done;
      asked, sent, status := 0, history, RunFailed;
      var over, readCount := false, 0 as nat;
      ghost var stored: seq<Record> := [];
      NothingAskedYet(provider, history);
      while !over && asked < MAX_ASSISTANT_ROUNDS
        invariant asked <= MAX_ASSISTANT_ROUNDS && calls == old(calls) + stored
        invariant !over ==> status == RunFailed && Going(provider, history, stored, asked, readCount, sent)
        invariant over ==> Done(provider, history, stored, asked, sent, status)
        decreases MAX_ASSISTANT_ROUNDS - asked
      {
        ghost var r := OneRound(provider(asked), readCount);
        OneRoundMore(provider, history, stored, asked, readCount, sent);
        var results;
        over, status, results, readCount := PlayRound(provider(asked), readCount);
        stored, asked := stored + r.added, asked + 1;
        if !over {
          assert sent + results == sent + [FromProvider(r.ids)] + r.results;
          sent, status := sent + results, RunFailed;
        }
      }
      if !over {
        OutOfRounds(provider, history, stored, readCount, sent);
      }
      DoneMeans(provider, history, stored, asked, sent, status);
    }

    /** run_assistant_turn, after the checks of the message and the configuration. */
    method RunTurn(provider: Provider, history: seq<Message>) returns (accepted: bool, asked: nat, sent: seq<Message>)
      modifies this
      ensures accepted <==> !HasPending(old(calls))
      ensures calls == AfterTurn(old(calls), provider, history)
      ensures runs == if accepted then old(runs) + [Rounds(provider, 0, 0, history).status] else old(runs)
      ensures accepted ==>
        asked == Rounds(provider, 0, 0, history).asked && sent == Rounds(provider, 0, 0, history).messages
      ensures accepted && Answered(history) ==> Answered(sent)
    {
      hide Rounds, Answered;
      if HasPending(calls) {
        return false, 0, history;
      }
      var status;
      asked, sent, status := Exchange(provider, history);
      runs := runs + [status];
      if Answered(history) {
        ConversationIsAnswered(provider, 0, 0, history);
      }
      accepted := true;
    }
  }

  /** A turn interrupted between two rounds ends as the rest ends, after what it did before. */
  ghost predicate Going(provider: Provider, history: seq<Message>, stored: seq<Record>, asked: nat, made: nat,
                        sent: seq<Message>)
  {
    && asked <= MAX_ASSISTANT_ROUNDS
    && var rest := Rounds(provider, asked, made, sent);
       Rounds(provider, 0, 0, history) == Ending(stored + rest.added, asked + rest.asked, rest.messages, rest.status)
  }

  ghost predicate Done(provider: Provider, history: seq<Message>, stored: seq<Record>, asked: nat, sent: seq<Message>,
                       status: RunStatus)
  {
    Rounds(provider, 0, 0, history) == Ending(stored, asked, sent, status)
  }

  lemma DoneMeans(provider: Provider, history: seq<Message>, stored: seq<Record>, asked: nat, sent: seq<Message>,
                  status: RunStatus)
    requires Done(provider, history, stored, asked, sent, status)
    ensures Rounds(provider, 0, 0, history) == Ending(stored, asked, sent, status)
  {
  }

  lemma NothingAskedYet(provider: Provider, history: seq<Message>)
    ensures Going(provider, history, [], 0, 0, history)
  {
    hide Rounds;
  }

  lemma OneRoundMore(provider: Provider, history: seq<Message>, stored: seq<Record>, asked: nat, made: nat,
                     sent: seq<Message>)
    requires Going(provider, history, stored, asked, made, sent) && asked < MAX_ASSISTANT_ROUNDS
    ensures var r := OneRound(provider(asked), made);
      if r.Over? then Done(provider, history, stored + r.added, asked + 1, sent, r.status)
      else Going(provider, history, stored + r.added, asked + 1, made + |r.added|,
                 sent + [FromProvider(r.ids)] + r.results)
  {
    hide Rounds, OneRound;
    RoundsStep(provider, asked, made, sent);
  }

  lemma OutOfRounds(provider: Provider, history: seq<Message>, stored: seq<Record>, made: nat, sent: seq<Message>)
    requires Going(provider, history, stored, MAX_ASSISTANT_ROUNDS, made, sent)
    ensures Done(provider, history, stored, MAX_ASSISTANT_ROUNDS, sent, RunFailed)
  {
    hide Rounds;
    RoundsEnd(provider, made, sent);
  }

  // ---------------------------------------------------------------- how a turn ends

  /** A read that does not raise. */
  predicate CleanRead(c: Call) {
    c.Call? && c.risk == Some(ReadRisk) && c.argumentsValid && c.effect != Crashes
  }

  predicate CleanReads(r: Response) {
    r.Response? && r.calls != [] && forall i :: 0 <= i < |r.calls| ==> CleanRead(r.calls[i])
  }

  /** One write among calls whose tools are all known, with valid arguments and a preview. */
  predicate ProposesOneWrite(r: Response) {
    && r.Response?
    && (forall i :: 0 <= i < |r.calls| ==> r.calls[i].Call? && r.calls[i].risk.Some?)
    && exists i :: 0 <= i < |r.calls| && r.calls[i].risk == Some(WriteRisk) && r.calls[i].argumentsValid
         && r.calls[i].effect == Succeeds
         && forall j :: 0 <= j < |r.calls| && j != i ==> r.calls[j].risk == Some(ReadRisk)
  }

  /** The reads of the first rounds, while these are clean. */
  function ReadsBefore(provider: Provider, n: nat): seq<Call> {
    if n == 0 then []
    else ReadsBefore(provider, n - 1) + if provider(n - 1).Response? then provider(n - 1).calls else []
  }

  /** What is stored of clean reads: executed, or failed where the tool failed. */
  function Finished(calls: seq<Call>): (records: seq<Record>)
    ensures |records| == |calls|
  {
    seq(|calls|, i requires 0 <= i < |calls| =>
          Record(ReadRisk, if calls[i].Call? && calls[i].effect == ToolFails then Failed else Executed))
  }

  lemma FinishedFirst(calls: seq<Call>, m: nat)
    requires 0 < m <= |calls| && CleanRead(calls[0])
    ensures Finished(calls[..m]) ==
      [Record(ReadRisk, if calls[0].effect == Succeeds then Executed else Failed)] + Finished(calls[1..][..m - 1])
  {
  }

  /** The read loop stores what comes before the first read that raises, or the ninth of the turn. */
  lemma {:induction false} ReadsStopAt(calls: seq<Call>, count: nat) returns (m: nat)
    requires forall i :: 0 <= i < |calls| ==> calls[i].Call? && calls[i].risk == Some(ReadRisk)
    ensures AllKnown(calls) && m <= |calls|
    ensures (forall i :: 0 <= i < m ==> CleanRead(calls[i])) && (m > 0 ==> count + m <= 8)
    ensures m < |calls| ==> !CleanRead(calls[m]) || count + m >= 8
    ensures ReadAll(calls, count).added == Finished(calls[..m]) && (ReadAll(calls, count).raised <==> m < |calls|)
  {
    if calls == [] || !CleanRead(calls[0]) || count >= 8 {
      m := 0;
    } else {
      var n := ReadsStopAt(calls[1..], count + 1);
      m := n + 1;
      forall i | 0 <= i < m ensures CleanRead(calls[i]) {
        if i > 0 {
          assert CleanRead(calls[1..][i - 1]) && calls[i] == calls[1..][i - 1];
        }
      }
      assert m < |calls| ==> calls[m] == calls[1..][n];
      FinishedFirst(calls, m);
    }
  }

  lemma {:induction false} NoWrites(calls: seq<Call>)
    requires forall i :: 0 <= i < |calls| ==> calls[i].Call? && calls[i].risk == Some(ReadRisk)
    ensures Writes(calls) == []
  {
    if calls != [] {
      NoWrites(calls[1..]);
    }
  }

  /** Exactly one write among the calls, and which. */
  lemma {:induction false} OneWrite(calls: seq<Call>) returns (i: nat)
    requires AllKnown(calls) && |Writes(calls)| == 1
    ensures i < |calls| && Writes(calls)[0] == calls[i] && calls[i].Call? && calls[i].risk == Some(WriteRisk)
    ensures forall j :: 0 <= j < |calls| && j != i ==> calls[j].Call? && calls[j].risk == Some(ReadRisk)
  {
    if calls[0].risk == Some(WriteRisk) {
      i := 0;
      NoneElse(calls[1..]);
    } else {
      OtherRisk(calls[0].risk);
      var k := OneWrite(calls[1..]);
      i := k + 1;
    }
    forall j | 0 <= j < |calls| && j != i ensures calls[j].Call? && calls[j].risk == Some(ReadRisk) {
      if j > 0 {
        assert calls[j] == calls[1..][j - 1];
      }
    }
  }

  lemma OtherRisk(risk: Option<Risk>)
    requires risk.Some? && risk != Some(WriteRisk)
    ensures risk == Some(ReadRisk)
  {
    match risk.value {
      case ReadRisk =>
      case WriteRisk =>
    }
  }

  lemma WritesStep(calls: seq<Call>)
    requires calls != []
    ensures |Writes(calls)|
         == |Writes(calls[1..])| + if calls[0].Call? && calls[0].risk == Some(WriteRisk) then 1 else 0
  {
  }

  lemma {:induction false} NoneElse(calls: seq<Call>)
    requires AllKnown(calls) && Writes(calls) == []
    ensures forall j :: 0 <= j < |calls| ==> calls[j].Call? && calls[j].risk == Some(ReadRisk)
  {
    if calls != [] {
      WritesStep(calls);
      OtherRisk(calls[0].risk);
      NoneElse(calls[1..]);
      forall j | 0 <= j < |calls| ensures calls[j].Call? && calls[j].risk == Some(ReadRisk) {
        if j > 0 {
          assert calls[j] == calls[1..][j - 1];
        }
      }
    }
  }

  lemma {:induction false} WritesWithOne(calls: seq<Call>, i: nat)
    requires AllKnown(calls) && i < |calls| && calls[i].risk == Some(WriteRisk)
    requires forall j :: 0 <= j < |calls| && j != i ==> calls[j].risk == Some(ReadRisk)
    ensures Writes(calls) == [calls[i]]
  {
    if i == 0 {
      NoWrites(calls[1..]);
    } else {
      WritesWithOne(calls[1..], i - 1);
    }
  }

  /** What one response leads to, after so many reads of the turn. */
  lemma RoundGoes(response: Response, made: nat)
    ensures OneRound(response, made).Again? <==> CleanReads(response) && made + |response.calls| <= 8
    ensures OneRound(response, made).Again? ==>
      OneRound(response, made).added == Finished(response.calls)
      && |OneRound(response, made).ids| == |response.calls|
      && forall i :: 0 <= i < |response.calls| ==>
        response.calls[i].Call? && OneRound(response, made).ids[i] == response.calls[i].id
    ensures var r := OneRound(response, made);
      r.Over? ==>
        && (r.status == Completed <==> response == Response([]))
        && (r.status == WaitingConfirmation <==> ProposesOneWrite(response))
        && (r.status == Completed ==> r.added == [])
        && (r.status == WaitingConfirmation ==> r.added == [Record(WriteRisk, PendingConfirmation)])
        && (r.status == RunFailed ==>
              r.added == [] || (OnlyReads(response) && BrokenOff(response.calls, made, r.added)))
  {
    if response.Response? && response.calls != [] && AllKnown(response.calls) && Writes(response.calls) == [] {
      NoneElse(response.calls);
    }
    if OnlyReads(response) && response.calls != [] {
      RoundOfReads(response, made);
    } else if response.Response? && AllKnown(response.calls) && |Writes(response.calls)| == 1 {
      var i := OneWrite(response.calls);
      assert !CleanRead(response.calls[i]);
    }
    if ProposesOneWrite(response) {
      var i :|
        0 <= i < |response.calls| && response.calls[i].risk == Some(WriteRisk) && response.calls[i].argumentsValid
        && response.calls[i].effect == Succeeds
        && forall j :: 0 <= j < |response.calls| && j != i ==> response.calls[j].risk == Some(ReadRisk);
      WritesWithOne(response.calls, i);
    }
    hide ReadAll, BrokenOff;
  }

  lemma RoundOfReads(response: Response, made: nat)
    requires OnlyReads(response) && response.calls != []
    ensures OneRound(response, made).Again? <==> CleanReads(response) && made + |response.calls| <= 8
    ensures OneRound(response, made).Again? ==>
      OneRound(response, made).added == Finished(response.calls)
    ensures var r := OneRound(response, made);
      r.Over? ==> r.status == RunFailed && BrokenOff(response.calls, made, r.added)
  {
    NoWrites(response.calls);
    var m := ReadsStopAt(response.calls, made);
    assert response.calls[..|response.calls|] == response.calls;
    hide ReadAll;
    assert Finished(response.calls[..m]) == OneRound(response, made).added;
    assert |Finished(response.calls[..m])| == m;
    if m < |response.calls| {
      assert !CleanRead(response.calls[m]) || made + m >= 8;
    }
  }

  predicate OnlyReads(r: Response) {
    r.Response? && forall i :: 0 <= i < |r.calls| ==> r.calls[i].Call? && r.calls[i].risk == Some(ReadRisk)
  }

  /** The records of the reads before the first that raises or is the ninth of the turn. */
  predicate BrokenOff(calls: seq<Call>, made: nat, added: seq<Record>) {
    && |added| < |calls| && added == Finished(calls[..|added|])
    && (!CleanRead(calls[|added|]) || made + |added| >= 8)
  }

  function Asked(n: nat): nat {
    if n < 6 then n + 1 else 6
  }

  /** The first round that is not one of clean reads, or takes the turn past eight, or the seventh. */
  ghost predicate StopsAt(provider: Provider, n: nat) {
    && n <= 6 && |ReadsBefore(provider, n)| <= 8 && (forall k :: 0 <= k < n ==> CleanReads(provider(k)))
    && (n == 6 || !CleanReads(provider(n)) || |ReadsBefore(provider, n)| + |provider(n).calls| > 8)
  }

  /** An answer completes the turn, one write with a preview waits for confirmation, and anything else fails. The turn
      has then stored its reads: all of the rounds before, and of a round that breaks off those before the break. */
  ghost predicate EndsAt(e: Ending, provider: Provider, n: nat) {
    var finished := Finished(ReadsBefore(provider, n));
    && e.asked == Asked(n)
    && (e.status == Completed <==> n < 6 && provider(n) == Response([]))
    && (e.status == WaitingConfirmation <==> n < 6 && ProposesOneWrite(provider(n)))
    && (e.status == Completed ==> e.added == finished)
    && (e.status == WaitingConfirmation ==> e.added == finished + [Record(WriteRisk, PendingConfirmation)])
    && (e.status == RunFailed ==>
          e.added == finished
          || (n < 6 && OnlyReads(provider(n)) && exists part ::
                BrokenOff(provider(n).calls, |finished|, part) && e.added == finished + part))
  }

  predicate AllClean(calls: seq<Call>) {
    forall i :: 0 <= i < |calls| ==> CleanRead(calls[i])
  }

  lemma NothingRead(provider: Provider)
    ensures ReadsBefore(provider, 0) == [] && Finished([]) == []
  {
  }

  lemma CleanJoin(before: seq<Call>, calls: seq<Call>)
    requires AllClean(before) && AllClean(calls)
    ensures AllClean(before + calls) && Finished(before + calls) == Finished(before) + Finished(calls)
  {
    hide CleanRead;
  }

  lemma OneRoundOfReads(provider: Provider, n: nat)
    requires CleanReads(provider(n))
    ensures provider(n).Response? && AllClean(provider(n).calls)
    ensures ReadsBefore(provider, n + 1) == ReadsBefore(provider, n) + provider(n).calls
  {
  }

  lemma RoundMore(provider: Provider, history: seq<Message>, n: nat, before: seq<Call>, sent: seq<Message>)
    returns (more: seq<Message>)
    requires n < MAX_ASSISTANT_ROUNDS && CleanReads(provider(n)) && |before| + |provider(n).calls| <= 8
    requires Going(provider, history, Finished(before), n, |before|, sent)
    ensures Going(provider, history, Finished(before) + Finished(provider(n).calls), n + 1,
                  |before| + |provider(n).calls|, more)
  {
    hide *;
    OneRoundOfReads(provider, n);
    RoundGoes(provider(n), |before|);
    OneRoundMore(provider, history, Finished(before), n, |before|, sent);
    var r := OneRound(provider(n), |before|);
    more := sent + [FromProvider(r.ids)] + r.results;
  }

  lemma TurnGoesOn(provider: Provider, history: seq<Message>, n: nat, sent: seq<Message>) returns (more: seq<Message>)
    requires n < 6 && CleanReads(provider(n)) && |ReadsBefore(provider, n)| + |provider(n).calls| <= 8
    requires AllClean(ReadsBefore(provider, n))
    requires Going(provider, history, Finished(ReadsBefore(provider, n)), n, |ReadsBefore(provider, n)|, sent)
    ensures |ReadsBefore(provider, n + 1)| <= 8 && AllClean(ReadsBefore(provider, n + 1))
    ensures Going(provider, history, Finished(ReadsBefore(provider, n + 1)), n + 1, |ReadsBefore(provider, n + 1)|,
                  more)
  {
    hide Going, ReadsBefore, AllClean, Finished, CleanReads;
    var before := ReadsBefore(provider, n);
    OneRoundOfReads(provider, n);
    CleanJoin(before, provider(n).calls);
    more := RoundMore(provider, history, n, before, sent);
  }

  lemma TurnStops(provider: Provider, history: seq<Message>, n: nat, sent: seq<Message>)
    requires n <= 6 && Going(provider, history, Finished(ReadsBefore(provider, n)), n, |ReadsBefore(provider, n)|, sent)
    requires n == 6 || !CleanReads(provider(n)) || |ReadsBefore(provider, n)| + |provider(n).calls| > 8
    ensures EndsAt(Rounds(provider, 0, 0, history), provider, n)
  {
    hide CleanRead, OneRound, ReadsBefore, Rounds, BrokenOff, OnlyReads, ProposesOneWrite;
    var finished := Finished(ReadsBefore(provider, n));
    if n == 6 {
      OutOfRounds(provider, history, finished, |finished|, sent);
    } else {
      RoundGoes(provider(n), |finished|);
      OneRoundMore(provider, history, finished, n, |finished|, sent);
    }
  }

  lemma {:induction false} TurnEndsFrom(provider: Provider, history: seq<Message>, from: nat, sent: seq<Message>)
    returns (n: nat)
    requires from <= 6 && |ReadsBefore(provider, from)| <= 8 && AllClean(ReadsBefore(provider, from))
    requires forall k :: 0 <= k < from ==> CleanReads(provider(k))
    requires Going(provider, history, Finished(ReadsBefore(provider, from)), from, |ReadsBefore(provider, from)|, sent)
    ensures StopsAt(provider, n) && EndsAt(Rounds(provider, 0, 0, history), provider, n)
    decreases 6 - from
  {
    hide Going, CleanRead, AllClean, ReadsBefore, EndsAt, Rounds, Finished;
    if from < 6 && CleanReads(provider(from)) && |ReadsBefore(provider, from)| + |provider(from).calls| <= 8 {
      var more := TurnGoesOn(provider, history, from, sent);
      n := TurnEndsFrom(provider, history, from + 1, more);
    } else {
      TurnStops(provider, history, from, sent);
      n := from;
    }
  }

  /** However the provider answers, the turn runs through rounds of clean reads up to the first that is not one, and
      ends there as that round says. */
  lemma TurnEnds(provider: Provider, history: seq<Message>) returns (n: nat)
    ensures StopsAt(provider, n) && EndsAt(Rounds(provider, 0, 0, history), provider, n)
  {
    NothingAskedYet(provider, history);
    NothingRead(provider);
    hide Going, StopsAt, EndsAt, Rounds, Finished;
    n := TurnEndsFrom(provider, history, 0, history);
  }
}
