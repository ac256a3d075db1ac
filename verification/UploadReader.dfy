/**
 The reader that guards a streamed upload of an upstream artifact: it checks the
 declared length and the maximum size on the fly. The source behind it is
 arbitrary: any read may return fewer bytes than asked for, nothing at all, an
 error, or the end together with data.
 */
module UploadReader {
  import opened Store

  datatype Status = Fine | Eof | Excess | Mismatch | SourceError

  /** What one read of the source returns: Fine, Eof or SourceError. */
  datatype Answer = Answer(data: Bytes, status: Status)

  datatype Reply = Reply(data: Bytes, status: Status)

  /** contentLength is negative when none was declared. */
  datatype Guard = Guard(contentLength: int, maxBytes: int) {
    function Limit(): int { if contentLength >= 0 then contentLength else maxBytes }

    /** What newArtifactUploadReader accepts. */
    predicate Accepted() { maxBytes > 0 && contentLength <= maxBytes }
  }

  /** received, delivered and excess are history: what the consumer got, what the source gave, and whether a probe ate a byte. */
  datatype State = State(readBytes: int, received: Bytes, delivered: Bytes, excess: bool)

  const START := State(0, [], [], false)

  predicate SourceAnswer(a: Answer, size: int)
  {
    |a.data| <= size && (a.status == Fine || a.status == Eof || a.status == SourceError)
  }

  /** Answers to io.ReadFull of one byte: empty ones until there is a byte or the source stops. */
  predicate ProbeAnswers(answers: seq<Answer>)
  {
    && |answers| > 0
    && (forall i :: 0 <= i < |answers| - 1 ==> answers[i] == Answer([], Fine))
    && SourceAnswer(answers[|answers| - 1], 1) && answers[|answers| - 1] != Answer([], Fine)
  }

  predicate Probes(g: Guard, s: State, size: int) { size > 0 && s.readBytes == g.Limit() }

  function Asked(g: Guard, s: State, size: int): int
  {
    if size > g.Limit() - s.readBytes then g.Limit() - s.readBytes else size
  }

  /** What the source may answer during one Read with a buffer of this size. */
  predicate Answers(g: Guard, s: State, size: nat, answers: seq<Answer>)
  {
    if size == 0 then answers == []
    else if Probes(g, s, size) then ProbeAnswers(answers)
    else |answers| == 1 && SourceAnswer(answers[0], Asked(g, s, size))
  }

  /* ---------- one Read ---------- */

  function ReplyTo(g: Guard, s: State, size: nat, answers: seq<Answer>): Reply
    requires Answers(g, s, size, answers)
  {
    if size == 0 then Reply([], Fine)
    else
      var last := answers[|answers| - 1];
      if Probes(g, s, size) then Reply([], if last.data != [] then Excess else last.status)
      else if last.status == Eof && g.contentLength >= 0 && s.readBytes + |last.data| != g.contentLength then
        Reply(last.data, Mismatch)
      else Reply(last.data, last.status)
  }

  function After(g: Guard, s: State, size: nat, answers: seq<Answer>): State
    requires Answers(g, s, size, answers)
  {
    if size == 0 then s
    else
      var data := answers[|answers| - 1].data;
      if Probes(g, s, size) then s.(delivered := s.delivered + data, excess := s.excess || data != [])
      else State(s.readBytes + |data|, s.received + data, s.delivered + data, s.excess)
  }

  class UploadReader {
    const guard: Guard
    var readBytes: int
    ghost var history: State

    ghost predicate Valid()
      reads this
    {
      guard.Accepted() && Kept(guard, history) && readBytes == history.readBytes
    }

    constructor (guard: Guard)
      requires guard.Accepted()
      ensures Valid() && this.guard == guard && history == START
    {
      this.guard, readBytes, history := guard, 0, START;
    }

    method Read(size: nat, answers: seq<Answer>) returns (reply: Reply)
      requires Valid() && Answers(guard, history, size, answers)
      modifies this
      ensures Valid() && reply == ReplyTo(guard, old(history), size, answers)
      ensures history == After(guard, old(history), size, answers)
    {
      StepKeeps(guard, history, size, answers);
      history := After(guard, history, size, answers);
      if size == 0 { return Reply([], Fine); }
      var limit := guard.maxBytes;
      if guard.contentLength >= 0 { limit := guard.contentLength; }
      if readBytes == limit {
        var i := 0;
        while answers[i] == Answer([], Fine)   // io.ReadFull
          invariant 0 <= i < |answers|
          decreases |answers| - i
        {
          i := i + 1;
        }
        if answers[i].data != [] { return Reply([], Excess); }
        return Reply([], answers[i].status);
      }
      var answer := answers[0];
      readBytes := readBytes + |answer.data|;
      if answer.status == Eof && guard.contentLength >= 0 && readBytes != guard.contentLength {
        return Reply(answer.data, Mismatch);
      }
      return Reply(answer.data, answer.status);
    }
  }

  /* ---------- any number of Reads ---------- */

  predicate Kept(g: Guard, s: State)
  {
    && s.readBytes == |s.received| <= g.Limit()
    && (if s.excess then |s.received| < |s.delivered| else s.received == s.delivered)
  }

  lemma StepKeeps(g: Guard, s: State, size: nat, answers: seq<Answer>)
    requires g.Accepted() && Kept(g, s) && Answers(g, s, size, answers)
    ensures Kept(g, After(g, s, size, answers))
  {
  }

  datatype Call = Call(size: nat, answers: seq<Answer>)

  ghost predicate Run(g: Guard, states: seq<State>, calls: seq<Call>)
  {
    && |states| == |calls| + 1 && states[0] == START
    && forall i :: 0 <= i < |calls| ==>
         Answers(g, states[i], calls[i].size, calls[i].answers)
         && states[i + 1] == After(g, states[i], calls[i].size, calls[i].answers)
  }

  function ReplyAt(g: Guard, states: seq<State>, calls: seq<Call>, i: nat): Reply
    requires i < |calls| && |states| > i && Answers(g, states[i], calls[i].size, calls[i].answers)
  {
    ReplyTo(g, states[i], calls[i].size, calls[i].answers)
  }

  lemma {:induction false} RunKeeps(g: Guard, states: seq<State>, calls: seq<Call>, i: nat)
    requires g.Accepted() && Run(g, states, calls) && i < |states|
    ensures Kept(g, states[i])
    ensures states[i].excess <==> exists k :: 0 <= k < i && ReplyAt(g, states, calls, k).status == Excess
  {
    if i > 0 {
      RunKeeps(g, states, calls, i - 1);
      StepKeeps(g, states[i - 1], calls[i - 1].size, calls[i - 1].answers);
      assert states[i].excess <==> states[i - 1].excess || ReplyAt(g, states, calls, i - 1).status == Excess;
    }
  }

  /* ---------- what is handed over, and what the source gave ---------- */

  /** The data of the first n replies, one after the other. */
  ghost function Handed(g: Guard, states: seq<State>, calls: seq<Call>, n: nat): Bytes
    requires Run(g, states, calls) && n <= |calls|
  {
    if n == 0 then [] else Handed(g, states, calls, n - 1) + ReplyAt(g, states, calls, n - 1).data
  }

  function Data(answers: seq<Answer>): Bytes
  {
    if answers == [] then [] else Data(answers[..|answers| - 1]) + answers[|answers| - 1].data
  }

  /** The data of all answers of the source in the first n Reads. */
  function Given(calls: seq<Call>, n: nat): Bytes
    requires n <= |calls|
  {
    if n == 0 then [] else Given(calls, n - 1) + Data(calls[n - 1].answers)
  }

  lemma {:induction false} OnlyTheLastHasData(answers: seq<Answer>)
    requires answers != [] && forall i :: 0 <= i < |answers| - 1 ==> answers[i] == Answer([], Fine)
    ensures Data(answers) == answers[|answers| - 1].data
  {
    if |answers| > 1 { OnlyTheLastHasData(answers[..|answers| - 1]); }
  }

  lemma {:induction false} HistoryIsTrue(g: Guard, states: seq<State>, calls: seq<Call>, n: nat)
    requires Run(g, states, calls) && n <= |calls|
    ensures Handed(g, states, calls, n) == states[n].received && Given(calls, n) == states[n].delivered
  {
    if n > 0 {
      HistoryIsTrue(g, states, calls, n - 1);
      if calls[n - 1].size > 0 { OnlyTheLastHasData(calls[n - 1].answers); }
    }
  }

  /** How the source answered last in a Read: Fine when it was not asked. */
  function Last(call: Call): Status { if call.answers == [] then Fine else call.answers[|call.answers| - 1].status }

  /**
   Every status a consumer sees is due: excess exactly when the source gave what was
   not handed over, and that only at the limit; otherwise the source's own status,
   but an end at another length than the declared one is a mismatch.
   */
  lemma StatusIsDue(g: Guard, states: seq<State>, calls: seq<Call>, i: nat)
    requires g.Accepted() && Run(g, states, calls) && i < |calls|
    ensures var status, handed := ReplyAt(g, states, calls, i).status, Handed(g, states, calls, i + 1);
            && (status == Excess <==>
                  Given(calls, i + 1) != Given(calls, i) && handed == Handed(g, states, calls, i))
            && (status == Excess ==> |handed| == if g.contentLength >= 0 then g.contentLength else g.maxBytes)
            && (status != Excess ==>
                  status == if Last(calls[i]) == Eof && g.contentLength >= 0 && |handed| != g.contentLength then Mismatch
                            else Last(calls[i]))
  {
    HistoryIsTrue(g, states, calls, i);
    HistoryIsTrue(g, states, calls, i + 1);
    RunKeeps(g, states, calls, i);
    ReadGrows(g, states[i], calls[i].size, calls[i].answers);
  }

  lemma ReadGrows(g: Guard, s: State, size: nat, answers: seq<Answer>)
    requires Answers(g, s, size, answers)
    ensures var s', reply := After(g, s, size, answers), ReplyTo(g, s, size, answers);
            && (s'.received == s.received <==> reply.data == [])
            && (s'.delivered == s.delivered <==> answers == [] || answers[|answers| - 1].data == [])
  {
    var s' := After(g, s, size, answers);
    if size > 0 {
      assert |s'.delivered| == |s.delivered| + |answers[|answers| - 1].data|;
      assert |s'.received| == |s.received| + |ReplyTo(g, s, size, answers).data|;
    }
  }

  /**
   When a Read reports the end, the source has just ended, and the consumer has been
   handed all that the source gave exactly when no earlier Read reported excess.
   Then the length is the declared one, or within the maximum if none was declared.
   */
  lemma EndMeansComplete(g: Guard, states: seq<State>, calls: seq<Call>, i: nat)
    requires g.Accepted() && Run(g, states, calls) && i < |calls| && ReplyAt(g, states, calls, i).status == Eof
    ensures Last(calls[i]) == Eof
    ensures Handed(g, states, calls, i + 1) == Given(calls, i + 1)
            <==> forall k :: 0 <= k < i ==> ReplyAt(g, states, calls, k).status != Excess
    ensures |Handed(g, states, calls, i + 1)| <= g.maxBytes
    ensures g.contentLength >= 0 ==> |Handed(g, states, calls, i + 1)| == g.contentLength
  {
    RunKeeps(g, states, calls, i);
    RunKeeps(g, states, calls, i + 1);
    HistoryIsTrue(g, states, calls, i + 1);
    assert states[i + 1].excess <==> states[i].excess;
  }

  /**
   A consumer that reads on after an excess error can be told the end without
   having the whole source: the byte that the probe ate is gone.
   */
  lemma EndAfterExcessIsIncomplete() returns (g: Guard, states: seq<State>, calls: seq<Call>)
    ensures g.Accepted() && Run(g, states, calls) && |calls| == 3
    ensures ReplyAt(g, states, calls, 1).status == Excess && ReplyAt(g, states, calls, 2).status == Eof
    ensures Handed(g, states, calls, 3) == [7] && Given(calls, 3) == [7, 8]
  {
    g := Guard(-1, 1);
    calls := [Call(1, [Answer([7], Fine)]), Call(1, [Answer([8], Fine)]), Call(1, [Answer([], Eof)])];
    var s1 := After(g, START, 1, calls[0].answers);
    var s2 := After(g, s1, 1, calls[1].answers);
    var s3 := After(g, s2, 1, calls[2].answers);
    states := [START, s1, s2, s3];
    assert s1 == State(1, [7], [7], false);
    assert s2 == State(1, [7], [7, 8], true);
    assert s3 == State(1, [7], [7, 8], true);
    assert ReplyAt(g, states, calls, 1).status == Excess;
    HistoryIsTrue(g, states, calls, 3);
  }

  /* ---------- conforming sources are delivered unchanged ---------- */

  /** The last answer continues the content and ends it only when all of it is given. */
  predicate Continues(content: Bytes, given: Bytes, a: Answer)
  {
    given + a.data <= content
    && (a.status == Fine || (a.status == Eof && given + a.data == content))
  }

  predicate Conforming(content: Bytes, calls: seq<Call>)
  {
    forall i :: 0 <= i < |calls| && calls[i].answers != [] ==>
      Continues(content, Given(calls, i), calls[i].answers[|calls[i].answers| - 1])
  }

  predicate Fits(g: Guard, content: Bytes)
  {
    |content| <= g.maxBytes && (g.contentLength >= 0 ==> |content| == g.contentLength)
  }

  /** A source that fits is never refused: the consumer is handed a prefix of it, and told the end only with all of it. */
  lemma {:induction false} ConformingIsDelivered(g: Guard, content: Bytes, states: seq<State>, calls: seq<Call>, i: nat)
    requires g.Accepted() && Fits(g, content) && Run(g, states, calls) && Conforming(content, calls) && i < |calls|
    ensures Handed(g, states, calls, i + 1) == Given(calls, i + 1) <= content
    ensures ReplyAt(g, states, calls, i).status == Last(calls[i]) && Last(calls[i]) in {Fine, Eof}
    ensures Last(calls[i]) == Eof ==> Handed(g, states, calls, i + 1) == content
  {
    if i > 0 {
      ConformingIsDelivered(g, content, states, calls, i - 1);
    }
    assert Handed(g, states, calls, i) == Given(calls, i) <= content;
    ConformingGoesOn(g, content, states, calls, i);
  }

  lemma ConformingGoesOn(g: Guard, content: Bytes, states: seq<State>, calls: seq<Call>, i: nat)
    requires g.Accepted() && Fits(g, content) && Run(g, states, calls) && Conforming(content, calls) && i < |calls|
    requires Handed(g, states, calls, i) == Given(calls, i) <= content
    ensures Handed(g, states, calls, i + 1) == Given(calls, i + 1) <= content
    ensures ReplyAt(g, states, calls, i).status == Last(calls[i]) && Last(calls[i]) in {Fine, Eof}
    ensures Last(calls[i]) == Eof ==> Handed(g, states, calls, i + 1) == content
  {
    HistoryIsTrue(g, states, calls, i);
    HistoryIsTrue(g, states, calls, i + 1);
    RunKeeps(g, states, calls, i);
    RunStep(g, states, calls, i);
    OneConformingRead(g, content, states[i], calls[i].size, calls[i].answers);
  }

  lemma RunStep(g: Guard, states: seq<State>, calls: seq<Call>, i: nat)
    requires Run(g, states, calls) && i < |calls|
    ensures Answers(g, states[i], calls[i].size, calls[i].answers)
    ensures states[i + 1] == After(g, states[i], calls[i].size, calls[i].answers)
    ensures ReplyAt(g, states, calls, i) == ReplyTo(g, states[i], calls[i].size, calls[i].answers)
  {
  }

  lemma OneConformingRead(g: Guard, content: Bytes, s: State, size: nat, answers: seq<Answer>)
    requires g.Accepted() && Fits(g, content) && Kept(g, s) && s.received == s.delivered <= content
    requires Answers(g, s, size, answers)
    requires answers != [] ==> Continues(content, s.delivered, answers[|answers| - 1])
    ensures var s', reply := After(g, s, size, answers), ReplyTo(g, s, size, answers);
            && s'.received == s'.delivered <= content
            && reply.status == Last(Call(size, answers)) && reply.status in {Fine, Eof}
            && (reply.status == Eof ==> s'.received == content)
  {
    if size > 0 {
      var a := answers[|answers| - 1];
      assert |s.delivered + a.data| <= |content|;
      if Probes(g, s, size) {
        assert a.data == [] by { assert |s.delivered| == g.Limit(); }
        assert s.delivered + a.data == s.delivered;
      }
    }
  }

  /** If every answer makes progress, the end is reported within one Read more than there are bytes. */
  lemma {:induction false} EndIsReached(g: Guard, content: Bytes, states: seq<State>, calls: seq<Call>, i: nat)
    requires g.Accepted() && Fits(g, content) && Run(g, states, calls) && Conforming(content, calls)
    requires i <= |calls|
    requires forall k :: 0 <= k < i ==>
               && calls[k].size > 0
               && calls[k].answers[|calls[k].answers| - 1] != Answer([], Fine)
               && ReplyAt(g, states, calls, k).status != Eof
    ensures i <= |Handed(g, states, calls, i)| <= |content|
  {
    if i > 0 {
      EndIsReached(g, content, states, calls, i - 1);
      ConformingIsDelivered(g, content, states, calls, i - 1);
      var call := calls[i - 1];
      assert Last(call) == Fine && call.answers[|call.answers| - 1].data != [];
      OnlyTheLastHasData(call.answers);
      HistoryIsTrue(g, states, calls, i - 1);
    }
  }
}
