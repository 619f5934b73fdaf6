/**
 What a diarization session guarantees over every run: any sidecar messages, any ending of the
 stream, any interleaving with any number of callers.
 */
module DiarizationRuns {
  import opened Basics
  import opened Diarization
  import opened Turns

  datatype Action =
    | Start
    | Receive(payload: Payload)
    | EndLoop(ending: Ending)
    | Feed(bytes: seq<Byte>, room: bool)
    | Ask(id: nat, startMs: real, endMs: real, now: real)
    | Resume(id: nat, now: real, timedOut: bool)
    | ConnectTimeout
    | Close

  /** One step; an action that cannot happen now changes nothing. */
  ghost function Do(s: Session, a: Action, timeout: real): Session {
    match a
    case Start => if s.started then s else s.(started := true, listening := true)
    case Receive(payload) => if s.listening then Received(s, payload) else s
    case EndLoop(ending) => if s.listening then LoopEnded(s, ending) else s
    case Feed(bytes, room) => Fed(s, bytes, room)
    case Ask(id, startMs, endMs, now) => if id in s.waiters then s else Asked(s, id, startMs, endMs, now, timeout)
    case Resume(id, now, timedOut) => if id in s.waiters then Resumed(s, id, now, timedOut) else s
    case ConnectTimeout => if s.started then Degrade(s, "connect_timeout").(listening := false) else s
    case Close => s.(closed := true, listening := false)
  }

  ghost function Play(actions: seq<Action>, timeout: real): Session {
    if actions == [] then OPENED else Do(Play(actions[..|actions| - 1], timeout), actions[|actions| - 1], timeout)
  }

  // ----- The timeline only grows

  /** Every turn is filed under its own start, end and speaker. */
  ghost predicate Filed(turns: map<TurnKey, SpeakerTurn>) { forall k <- turns :: Key(turns[k]) == k }

  lemma {:induction false} RecordAdds(turns: map<TurnKey, SpeakerTurn>, batch: seq<SpeakerTurn>)
    requires Filed(turns)
    ensures Filed(Record(turns, batch))
    ensures forall t :: t in Record(turns, batch).Values <==> t in turns.Values || t in batch
  {
    if batch != [] {
      var n := |batch| - 1;
      var before := Record(turns, batch[..n]);
      RecordAdds(turns, batch[..n]);
      assert batch == batch[..n] + [batch[n]];
      var after := before[Key(batch[n]) := batch[n]];
      forall t ensures t in after.Values <==> t in before.Values || t == batch[n] {
        if t in before.Values {
          assert before[Key(t)] == t;
          assert after[Key(t)] == t;
        }
        assert after[Key(batch[n])] == batch[n];
      }
    }
  }

  /** What one step may do: timeline and watermark grow, a degradation stays, answers are appended. */
  ghost predicate Grows(s: Session, s': Session) {
    && Filed(s'.turns) && s.turns.Values <= s'.turns.Values
    && s.finalizedThroughMs <= s'.finalizedThroughMs
    && (s.degradedReason != "" ==> s'.degradedReason == s.degradedReason)
    && s.answers <= s'.answers
  }

  lemma ReceivedGrows(s: Session, payload: Payload)
    requires Filed(s.turns)
    ensures Grows(s, Received(s, payload))
  {
    hide Record;
    if payload.TurnsFinalized? {
      RecordAdds(s.turns, payload.turns);
    }
  }

  lemma StepGrows(s: Session, a: Action, timeout: real)
    requires Filed(s.turns)
    ensures Grows(s, Do(s, a, timeout))
  {
    hide InOrder, Received, Filed, Window;
    if a.Receive? {
      ReceivedGrows(s, a.payload);
    }
  }

  /** The watermark never decreases, a degradation is final, no turn and no answer is taken back. */
  lemma {:induction false} RunsGrow(actions: seq<Action>, n: nat, timeout: real)
    requires n <= |actions|
    ensures Filed(Play(actions, timeout).turns)
    ensures Grows(Play(actions[..n], timeout), Play(actions, timeout))
    decreases |actions|, n
  {
    if actions == [] {
    } else if n == |actions| {
      RunsGrow(actions, n - 1, timeout);
      assert actions[..n] == actions;
    } else {
      var last := |actions| - 1;
      RunsGrow(actions[..last], n, timeout);
      assert actions[..last][..n] == actions[..n];
      StepGrows(Play(actions[..last], timeout), actions[last], timeout);
    }
  }

  // ----- Degradation

  /**
   Once degraded, a call is answered with nothing as soon as it is made, and one that was waiting
   is answered with nothing the next time it runs.
   */
  lemma NoWaitingOnceDegraded(s: Session, a: Action, timeout: real)
    requires s.degradedReason != ""
    requires (a.Ask? && a.id !in s.waiters) || (a.Resume? && a.id in s.waiters)
    ensures
      var s' := Do(s, a, timeout);
      && a.id !in s'.waiters && |s'.answers| == |s.answers| + 1
      && s'.answers[|s.answers|].turns == [] && !s'.answers[|s.answers|].live
  {
  }

  /** A call whose deadline has passed is answered the next time it runs, whatever the sidecar did. */
  lemma DeadlineEndsWaiting(s: Session, id: nat, now: real, timedOut: bool, timeout: real)
    requires id in s.waiters && s.waiters[id].deadline <= now
    ensures
      var s' := Do(s, Resume(id, now, timedOut), timeout);
      && s'.waiters == s.waiters - {id} && |s'.answers| == |s.answers| + 1
      && (s'.answers[|s.answers|].live ==> s.finalizedThroughMs >= Round(s.waiters[id].endMs))
      && (!s'.answers[|s.answers|].live ==> s'.degradedReason != "")
  {
  }

  // ----- What an answer is

  /** A live answer lists the window of what was known when the watermark had passed its end. */
  ghost predicate WellAnswered(a: Answer, s: Session) {
    && a.known <= s.turns.Values
    && (a.live ==> a.turns == InOrder(Window(a.known, a.startMs, a.endMs)) && s.finalizedThroughMs >= Round(a.endMs))
    && (!a.live ==> a.turns == [])
  }

  ghost predicate AllWellAnswered(s: Session) { forall i :: 0 <= i < |s.answers| ==> WellAnswered(s.answers[i], s) }

  /** At most one call was answered, and it knows the whole timeline of the moment. */
  ghost predicate AnswersOne(s: Session, s': Session) {
    && |s'.answers| <= |s.answers| + 1
    && (|s'.answers| > |s.answers| ==>
          s'.answers[|s.answers|].known == s'.turns.Values && WellAnswered(s'.answers[|s.answers|], s'))
  }

  lemma ReturnAnswers(s: Session, w: Waiter)
    requires s.finalizedThroughMs >= Round(w.endMs) || s.degradedReason != ""
    ensures AnswersOne(s, Returned(s, w))
  {
    hide InOrder, Window, Round;
  }

  lemma ResumeAnswers(s: Session, id: nat, now: real, timedOut: bool)
    requires id in s.waiters
    ensures AnswersOne(s, Resumed(s, id, now, timedOut))
  {
    hide Round, AnswersOne, Returned;
    var w, t := s.waiters[id], s.(waiters := s.waiters - {id});
    var d := Degrade(t, "result_timeout");
    ReturnAnswers(d, w);
    SameAnswers(s, d, Returned(d, w));
    if s.finalizedThroughMs >= Round(w.endMs) || s.degradedReason != "" {
      ReturnAnswers(t, w);
      SameAnswers(s, t, Returned(t, w));
    }
    SameAnswers(s, s, s.(waiters := s.waiters[id := w.(suspended := true)]));
  }

  lemma SameAnswers(s: Session, t: Session, s': Session)
    requires s.answers == t.answers && (AnswersOne(t, s') || s'.answers == s.answers)
    ensures AnswersOne(s, s')
  {
  }

  lemma NewAnswer(s: Session, a: Action, timeout: real)
    ensures AnswersOne(s, Do(s, a, timeout))
  {
    hide Resumed, Record, AnswersOne, Round;
    if a.Resume? {
      if a.id in s.waiters {
        ResumeAnswers(s, a.id, a.now, a.timedOut);
      } else {
        SameAnswers(s, s, s);
      }
    } else if a.Ask? {
      AskAnswers(s, a.id, a.startMs, a.endMs, a.now, timeout);
      SameAnswers(s, s, s);
    } else {
      SameAnswers(s, s, Do(s, a, timeout));
    }
  }

  lemma AskAnswers(s: Session, id: nat, startMs: real, endMs: real, now: real, timeout: real)
    ensures AnswersOne(s, Asked(s, id, startMs, endMs, now, timeout))
  {
  }

  lemma StepAnswersWell(s: Session, a: Action, timeout: real)
    requires Filed(s.turns) && AllWellAnswered(s)
    ensures AllWellAnswered(Do(s, a, timeout))
  {
    hide Do;
    StepGrows(s, a, timeout);
    NewAnswer(s, a, timeout);
    var s' := Do(s, a, timeout);
    forall i | 0 <= i < |s'.answers| ensures WellAnswered(s'.answers[i], s') {
      if i < |s.answers| {
        assert WellAnswered(s.answers[i], s);
      }
    }
  }

  lemma {:induction false} EveryAnswer(actions: seq<Action>, timeout: real)
    ensures AllWellAnswered(Play(actions, timeout))
    decreases |actions|
  {
    if actions != [] {
      var before := actions[..|actions| - 1];
      EveryAnswer(before, timeout);
      RunsGrow(before, |before|, timeout);
      StepAnswersWell(Play(before, timeout), actions[|actions| - 1], timeout);
    }
  }

  predicate SameWindow(a: Answer, b: Answer) {
    a.live && b.live && Round(a.startMs) == Round(b.startMs) && Round(a.endMs) == Round(b.endMs)
  }

  lemma SameOrderSameSet(w: set<SpeakerTurn>, w': set<SpeakerTurn>)
    ensures InOrder(w) == InOrder(w') <==> w == w'
  {
    if InOrder(w) == InOrder(w') {
      forall t ensures t in w <==> t in w' {
        assert t in InOrder(w) <==> t in w;
      }
    }
  }

  /** Two live answers for the same window differ as soon as one of them knew a turn in it that the other did not. */
  lemma AnswersAgree(actions: seq<Action>, timeout: real, i: nat, j: nat)
    requires i < |Play(actions, timeout).answers| && j < |Play(actions, timeout).answers|
    requires SameWindow(Play(actions, timeout).answers[i], Play(actions, timeout).answers[j])
    ensures
      var a, b := Play(actions, timeout).answers[i], Play(actions, timeout).answers[j];
      a.turns == b.turns
      <==> forall t :: t in (a.known - b.known) + (b.known - a.known) ==> !InWindow(t, a.startMs, a.endMs)
  {
    EveryAnswer(actions, timeout);
    hide InOrder, Play;
    var s := Play(actions, timeout);
    var a, b := s.answers[i], s.answers[j];
    assert WellAnswered(a, s) && WellAnswered(b, s);
    SameOrderSameSet(Window(a.known, a.startMs, a.endMs), Window(b.known, b.startMs, b.endMs));
    if forall t :: t in (a.known - b.known) + (b.known - a.known) ==> !InWindow(t, a.startMs, a.endMs) {
      assert Window(a.known, a.startMs, a.endMs) == Window(b.known, b.startMs, b.endMs);
    } else {
      var t :| t in (a.known - b.known) + (b.known - a.known) && InWindow(t, a.startMs, a.endMs);
      assert t in Window(a.known, a.startMs, a.endMs) <==> t !in Window(b.known, b.startMs, b.endMs);
    }
  }

  // ----- A sidecar that keeps its word

  /** A message finalizes nothing new before the watermark published so far. */
  predicate Honest(s: Session, a: Action) {
    a.Receive? && s.listening && a.payload.TurnsFinalized? ==>
      forall t <- a.payload.turns :: t in s.turns.Values || t.startMs >= s.finalizedThroughMs
  }

  ghost predicate HonestRun(actions: seq<Action>, timeout: real) {
    forall n :: 0 <= n < |actions| ==> Honest(Play(actions[..n], timeout), actions[n])
  }

  /** A live answer is the window of the whole timeline. */
  ghost predicate Final(a: Answer, s: Session) {
    a.live ==> Window(a.known, a.startMs, a.endMs) == Window(s.turns.Values, a.startMs, a.endMs)
  }

  /** Turns that are old or start at the watermark add nothing to a window that lies before it. */
  lemma HonestTurnsMissWindow(s: Session, batch: seq<SpeakerTurn>, a: Answer)
    requires Filed(s.turns) && s.finalizedThroughMs >= Round(a.endMs)
    requires forall t <- batch :: t in s.turns.Values || t.startMs >= s.finalizedThroughMs
    ensures Window(Record(s.turns, batch).Values, a.startMs, a.endMs) == Window(s.turns.Values, a.startMs, a.endMs)
  {
    hide Record, Round;
    RecordAdds(s.turns, batch);
  }

  lemma HonestStepKeepsFinal(s: Session, act: Action, timeout: real, a: Answer)
    requires Filed(s.turns) && Honest(s, act) && WellAnswered(a, s) && Final(a, s)
    ensures Final(a, Do(s, act, timeout))
  {
    hide InOrder, Record, Round;
    if a.live && act.Receive? && s.listening && act.payload.TurnsFinalized? {
      RecordAdds(s.turns, act.payload.turns);
      HonestTurnsMissWindow(s, act.payload.turns, a);
    }
  }

  lemma HonestPrefix(actions: seq<Action>, timeout: real)
    requires HonestRun(actions, timeout) && actions != []
    ensures HonestRun(actions[..|actions| - 1], timeout)
    ensures Honest(Play(actions[..|actions| - 1], timeout), actions[|actions| - 1])
  {
    hide Play, Honest;
    var before := actions[..|actions| - 1];
    forall n | 0 <= n < |before| ensures Honest(Play(before[..n], timeout), before[n]) {
      assert before[..n] == actions[..n];
    }
  }

  lemma {:induction false} HonestAnswersAreFinal(actions: seq<Action>, timeout: real, i: nat)
    requires HonestRun(actions, timeout) && i < |Play(actions, timeout).answers|
    ensures Final(Play(actions, timeout).answers[i], Play(actions, timeout))
    decreases |actions|
  {
    hide Do, HonestRun, Honest, WellAnswered, Window;
    if actions != [] {
      var last := |actions| - 1;
      var before := actions[..last];
      var s := Play(before, timeout);
      HonestPrefix(actions, timeout);
      RunsGrow(before, last, timeout);
      StepGrows(s, actions[last], timeout);
      if i < |s.answers| {
        EveryAnswer(before, timeout);
        HonestAnswersAreFinal(before, timeout, i);
        HonestStepKeepsFinal(s, actions[last], timeout, s.answers[i]);
      } else {
        NewAnswer(s, actions[last], timeout);
      }
    }
  }

  /**
   With a sidecar that never finalizes a turn starting before a published watermark, two live
   answers for the same window are equal, and list in order exactly the turns of the timeline that
   overlap it.
   */
  lemma AnswersAreStable(actions: seq<Action>, timeout: real, i: nat, j: nat)
    requires HonestRun(actions, timeout)
    requires i < |Play(actions, timeout).answers| && j < |Play(actions, timeout).answers|
    requires SameWindow(Play(actions, timeout).answers[i], Play(actions, timeout).answers[j])
    ensures
      var s := Play(actions, timeout);
      var a := s.answers[i];
      && a.turns == s.answers[j].turns && Ascending(a.turns)
      && forall t :: t in a.turns
                     <==> t in s.turns.Values && t.endMs > Round(a.startMs) && t.startMs < Round(a.endMs)
  {
    EveryAnswer(actions, timeout);
    HonestAnswersAreFinal(actions, timeout, i);
    HonestAnswersAreFinal(actions, timeout, j);
    hide Play, HonestRun;
    var s := Play(actions, timeout);
    var a, b := s.answers[i], s.answers[j];
    assert WellAnswered(a, s) && WellAnswered(b, s);
    assert Window(s.turns.Values, a.startMs, a.endMs) == Window(s.turns.Values, b.startMs, b.endMs);
    assert Lists(a.turns, Window(s.turns.Values, a.startMs, a.endMs));
  }
}
