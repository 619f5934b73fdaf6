/**
 Which sidecars give stable answers: a condition on the messages alone, that they finalize nothing
 new before the watermark they have published (backend/diarization/client.py).
 */
module DiarizationTraces {
  import opened Basics
  import opened Diarization
  import opened DiarizationRuns
  import opened Turns

  // ----- Messages and runs

  /** What these messages alone make of a session; messages behind the end of the loop are not read. */
  ghost function Told(msgs: seq<Payload>): Session {
    if msgs == [] then OPENED.(started := true, listening := true)
    else
      var s := Told(msgs[..|msgs| - 1]);
      if s.listening then Received(s, msgs[|msgs| - 1]) else s
  }

  /** Every message that is read finalizes nothing new that starts before the watermark published so far. */
  ghost predicate HonestTrace(msgs: seq<Payload>) {
    forall n :: 0 <= n < |msgs| ==> Honest(Told(msgs[..n]), Receive(msgs[n]))
  }

  /** The messages that a run's loop has read. */
  ghost function Heard(actions: seq<Action>, timeout: real): seq<Payload> {
    if actions == [] then []
    else
      var before, last := actions[..|actions| - 1], actions[|actions| - 1];
      Heard(before, timeout) + if last.Receive? && Play(before, timeout).listening then [last.payload] else []
  }

  /** The window starts before it ends, as that of every segment does. */
  predicate Forward(a: Answer) { a.startMs < a.endMs }

  /** All live answers of a run for one such window are the same. */
  ghost predicate AnswersEqual(actions: seq<Action>, timeout: real) {
    var answers := Play(actions, timeout).answers;
    forall i, j :: 0 <= i < |answers| && 0 <= j < |answers| && SameWindow(answers[i], answers[j]) && Forward(answers[i]) ==>
      answers[i].turns == answers[j].turns
  }

  /** Whoever asks for segments at any time while these messages come in: answers for one window are the same. */
  ghost predicate StableTrace(msgs: seq<Payload>, timeout: real) {
    forall actions: seq<Action> :: Heard(actions, timeout) <= msgs ==> AnswersEqual(actions, timeout)
  }

  lemma PlayOne(actions: seq<Action>, a: Action, timeout: real)
    ensures Play(actions + [a], timeout) == Do(Play(actions, timeout), a, timeout)
    ensures Heard(actions + [a], timeout)
         == Heard(actions, timeout) + if a.Receive? && Play(actions, timeout).listening then [a.payload] else []
  {
    assert (actions + [a])[..|actions|] == actions;
  }

  // ----- Honest messages give stable answers

  /** Timeline and watermark of a run are those of the messages its loop has read. */
  ghost predicate Follows(s: Session, t: Session, heard: seq<Payload>) {
    && s.turns == t.turns && s.finalizedThroughMs == t.finalizedThroughMs
    && (s.listening ==> t.listening) && (!s.started ==> heard == [] && !s.listening)
  }

  lemma FollowsReceived(s: Session, t: Session, payload: Payload)
    requires s.turns == t.turns && s.finalizedThroughMs == t.finalizedThroughMs && s.listening && t.listening
    ensures
      var s', t' := Received(s, payload), Received(t, payload);
      && s'.turns == t'.turns && s'.finalizedThroughMs == t'.finalizedThroughMs
      && (s'.listening ==> t'.listening) && s'.started == s.started
  {
    hide Record;
  }

  lemma {:induction false} RunFollowsTrace(actions: seq<Action>, timeout: real)
    ensures Follows(Play(actions, timeout), Told(Heard(actions, timeout)), Heard(actions, timeout))
    decreases |actions|
  {
    hide Received, InOrder, Window, Round;
    if actions != [] {
      var before, last := actions[..|actions| - 1], actions[|actions| - 1];
      RunFollowsTrace(before, timeout);
      var s, heard := Play(before, timeout), Heard(before, timeout);
      if last.Receive? && s.listening {
        FollowsReceived(s, Told(heard), last.payload);
        assert (heard + [last.payload])[..|heard|] == heard;
      } else {
        assert heard + [] == heard;
        OtherKeepsTimeline(s, last, timeout);
      }
    }
  }

  lemma OtherKeepsTimeline(s: Session, a: Action, timeout: real)
    requires !(a.Receive? && s.listening)
    ensures
      var s' := Do(s, a, timeout);
      && s'.turns == s.turns && s'.finalizedThroughMs == s.finalizedThroughMs && (s.started ==> s'.started)
      && (s'.listening ==> s.listening || (a.Start? && !s.started))
      && (!s'.started ==> !s.started && (s'.listening ==> s.listening))
  {
    hide InOrder, Window, Round, Received;
  }

  lemma {:induction false} HeardGrows(actions: seq<Action>, n: nat, timeout: real)
    requires n <= |actions|
    ensures Heard(actions[..n], timeout) <= Heard(actions, timeout)
    decreases |actions|
  {
    hide Play;
    if n == |actions| {
      assert actions[..n] == actions;
    } else {
      var last := |actions| - 1;
      assert actions[..last][..n] == actions[..n];
      HeardGrows(actions[..last], n, timeout);
    }
  }

  lemma HonestTraceMakesHonestRuns(msgs: seq<Payload>, actions: seq<Action>, timeout: real)
    requires HonestTrace(msgs) && Heard(actions, timeout) <= msgs
    ensures HonestRun(actions, timeout)
  {
    hide Play, Told;
    forall n | 0 <= n < |actions| ensures Honest(Play(actions[..n], timeout), actions[n]) {
      var s, heard := Play(actions[..n], timeout), Heard(actions[..n], timeout);
      var k := |heard|;
      RunFollowsTrace(actions[..n], timeout);
      if actions[n].Receive? && s.listening {
        HeardGrows(actions, n + 1, timeout);
        assert actions[..n + 1][..n] == actions[..n];
        assert Heard(actions[..n + 1], timeout) == heard + [actions[n].payload];
        assert msgs[..k] == heard && msgs[k] == actions[n].payload;
        assert Honest(Told(msgs[..k]), Receive(msgs[k]));
      }
    }
  }

  lemma HonestTracesAreStable(msgs: seq<Payload>, timeout: real)
    requires HonestTrace(msgs)
    ensures StableTrace(msgs, timeout)
  {
    hide Play, Heard, HonestTrace, HonestRun;
    forall actions: seq<Action> | Heard(actions, timeout) <= msgs ensures AnswersEqual(actions, timeout) {
      HonestTraceMakesHonestRuns(msgs, actions, timeout);
      var answers := Play(actions, timeout).answers;
      forall i, j | 0 <= i < |answers| && 0 <= j < |answers| && SameWindow(answers[i], answers[j]) && Forward(answers[i])
        ensures answers[i].turns == answers[j].turns
      {
        AnswersAreStable(actions, timeout, i, j);
      }
    }
  }

  // ----- A late turn is always noticed by somebody

  function Deliver(msgs: seq<Payload>): seq<Action> {
    if msgs == [] then [Start] else Deliver(msgs[..|msgs| - 1]) + [Receive(msgs[|msgs| - 1])]
  }

  /** A loop that still reads has never degraded the session, and nobody has asked yet. */
  ghost predicate Undisturbed(s: Session) {
    s.started && !s.closed && s.waiters == map[] && s.answers == [] && (s.listening ==> s.degradedReason == "")
  }

  lemma ReceivedUndisturbed(s: Session, payload: Payload)
    requires Undisturbed(s) && s.listening
    ensures Undisturbed(Received(s, payload))
  {
    hide Record;
  }

  lemma JustStarted(timeout: real)
    ensures Play([Start], timeout) == Told([]) && Undisturbed(Told([])) && Heard([Start], timeout) == []
  {
    assert Play([], timeout) == OPENED && Heard([], timeout) == [];
    assert [Start][..0] == [];
  }

  lemma {:induction false} Delivered(msgs: seq<Payload>, timeout: real)
    ensures Play(Deliver(msgs), timeout) == Told(msgs) && Undisturbed(Told(msgs))
    ensures Told(msgs).listening ==> Heard(Deliver(msgs), timeout) == msgs
    decreases |msgs|
  {
    hide Received, Play, Heard, Undisturbed;
    if msgs == [] {
      JustStarted(timeout);
    } else {
      var n := |msgs| - 1;
      Delivered(msgs[..n], timeout);
      PlayOne(Deliver(msgs[..n]), Receive(msgs[n]), timeout);
      if Told(msgs[..n]).listening {
        ReceivedUndisturbed(Told(msgs[..n]), msgs[n]);
      }
      assert msgs == msgs[..n] + [msgs[n]];
    }
  }

  /** Asking for a window that the watermark has passed: two steps and a live answer. */
  lemma AskNow(actions: seq<Action>, startMs: real, endMs: real, timeout: real) returns (longer: seq<Action>)
    requires
      var s := Play(actions, timeout);
      s.Available() && s.finalizedThroughMs >= Round(endMs) && s.waiters == map[]
    ensures
      var s := Play(actions, timeout);
      Play(longer, timeout)
      == s.(answers := s.answers
            + [Answer(startMs, endMs, InOrder(Window(s.turns.Values, startMs, endMs)), true, s.turns.Values)])
    ensures Heard(longer, timeout) == Heard(actions, timeout)
  {
    hide Play, Heard, InOrder, Window, Round;
    var asked := actions + [Ask(0, startMs, endMs, 0.0)];
    PlayOne(actions, Ask(0, startMs, endMs, 0.0), timeout);
    PlayOne(asked, Resume(0, 0.0, false), timeout);
    longer := asked + [Resume(0, 0.0, false)];
    assert Play(asked, timeout).waiters - {0} == map[];
  }

  /** Ask for a window that ends at the watermark, let a turn in that reaches into it, and ask again. */
  lemma AskTwice(actions: seq<Action>, payload: Payload, late: SpeakerTurn, timeout: real) returns (longer: seq<Action>)
    requires
      var s := Play(actions, timeout);
      && s.listening && Undisturbed(s) && payload.TurnsFinalized? && late in payload.turns
      && late !in s.turns.Values && late.startMs < s.finalizedThroughMs
    ensures Heard(longer, timeout) == Heard(actions, timeout) + [payload]
    ensures !AnswersEqual(longer, timeout)
  {
    var s := Play(actions, timeout);
    var start := Min(late.endMs, s.finalizedThroughMs) - 1;
    var startMs, endMs := start as real, s.finalizedThroughMs as real;
    RoundOfInteger(start);
    RoundOfInteger(s.finalizedThroughMs);
    assert InWindow(late, startMs, endMs);
    hide Play, Heard, Round, InOrder, Window, AnswersEqual, InWindow, Received;
    var a := AskNow(actions, startMs, endMs, timeout);
    RunsGrow(a, |a|, timeout);
    PlayOne(a, Receive(payload), timeout);
    var b := a + [Receive(payload)];
    LateIsRecorded(Play(a, timeout), payload, late);
    longer := AskNow(b, startMs, endMs, timeout);
    AnswersDiffer(longer, timeout, late);
  }

  lemma LateTurnIsNoticed(msgs: seq<Payload>, k: nat, timeout: real) returns (actions: seq<Action>)
    requires k < |msgs| && !Honest(Told(msgs[..k]), Receive(msgs[k]))
    ensures Heard(actions, timeout) <= msgs && !AnswersEqual(actions, timeout)
  {
    hide Told, Play, Heard, Deliver, AnswersEqual, Undisturbed;
    var s := Told(msgs[..k]);
    var late :| late in msgs[k].turns && late !in s.turns.Values && late.startMs < s.finalizedThroughMs;
    Delivered(msgs[..k], timeout);
    actions := AskTwice(Deliver(msgs[..k]), msgs[k], late, timeout);
    assert msgs[..k] + [msgs[k]] == msgs[..k + 1];
  }

  lemma LateIsRecorded(s: Session, payload: Payload, late: SpeakerTurn)
    requires payload.TurnsFinalized? && late in payload.turns && Filed(s.turns)
    ensures
      var s' := Received(s, payload);
      && late in s'.turns.Values && s'.finalizedThroughMs >= s.finalizedThroughMs
      && s' == s.(turns := s'.turns, finalizedThroughMs := s'.finalizedThroughMs)
  {
    hide Record;
    RecordAdds(s.turns, payload.turns);
  }

  lemma AnswersDiffer(actions: seq<Action>, timeout: real, late: SpeakerTurn)
    requires
      var answers := Play(actions, timeout).answers;
      && |answers| == 2 && SameWindow(answers[0], answers[1]) && Forward(answers[0])
      && late in answers[1].known && late !in answers[0].known
      && InWindow(late, answers[0].startMs, answers[0].endMs)
    ensures !AnswersEqual(actions, timeout)
  {
    AnswersAgree(actions, timeout, 0, 1);
    hide Play, InWindow;
  }

  /**
   The exact condition on the sidecar: answers are stable, for every caller and every interleaving,
   if and only if no message that is read finalizes a new turn that starts before the watermark.
   */
  lemma StableExactly(msgs: seq<Payload>, timeout: real)
    ensures StableTrace(msgs, timeout) <==> HonestTrace(msgs)
  {
    hide Heard, AnswersEqual, Told, Honest;
    if HonestTrace(msgs) {
      HonestTracesAreStable(msgs, timeout);
    } else {
      var k :| 0 <= k < |msgs| && !Honest(Told(msgs[..k]), Receive(msgs[k]));
      var actions := LateTurnIsNoticed(msgs, k, timeout);
    }
  }
}
