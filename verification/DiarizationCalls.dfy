/**
 What a caller of a diarization session sees (backend/diarization/client.py): how long a call waits, what a
 live answer lists, and what degrades the session.
 */
module DiarizationCalls {
  import opened Basics
  import opened Turns
  import opened Diarization
  import opened DiarizationRuns

  // ----- What degrades a session

  /** The sidecar or the stream fails, audio is lost, the connection takes too long or a call is given up. */
  predicate Fails(s: Session, a: Action) {
    match a
    case Receive(payload) => s.listening && payload.SidecarError?
    case EndLoop(ending) => s.listening
    case Feed(bytes, room) => s.started && !s.closed && bytes != [] && !room
    case ConnectTimeout => s.started
    case Resume(id, now, timedOut) =>
      id in s.waiters
      && ((timedOut && s.waiters[id].suspended)
          || (s.finalizedThroughMs < Round(s.waiters[id].endMs) && s.waiters[id].deadline <= now))
    case _ => false
  }

  /** A session that is not degraded is degraded by exactly these steps. */
  lemma DegradesExactly(s: Session, a: Action, timeout: real)
    requires s.degradedReason == ""
    ensures Do(s, a, timeout).degradedReason != "" <==> Fails(s, a)
  {
    hide Round, InOrder, Window, Record;
  }

  /** The reason it is degraded for tells which of these it was. */
  lemma ReasonTells(s: Session, a: Action, timeout: real)
    requires s.degradedReason == "" && Fails(s, a)
    ensures
      var reason := Do(s, a, timeout).degradedReason;
      match a
      case Receive(payload) =>
        (if payload.code != "" then reason == payload.code
         else if payload.message != "" then reason == payload.message
         else reason == "sidecar_error")
      case EndLoop(ending) =>
        (match ending
         case StreamClosed => reason == "stream_closed"
         case RpcFailure(code) => reason == "grpc_" + code
         case OtherException => reason == "receive_error")
      case Feed(_, _) => reason == "request_queue_full"
      case ConnectTimeout => reason == "connect_timeout"
      case _ => reason == "result_timeout"
  {
    hide Round, InOrder, Window, Record;
  }

  /** The sidecar's end of session has been read while the loop was listening. */
  ghost predicate EndRead(actions: seq<Action>, timeout: real) {
    exists n :: 0 <= n < |actions| && IsEndRead(actions, n, timeout)
  }

  ghost predicate IsEndRead(actions: seq<Action>, n: nat, timeout: real)
    requires n < |actions|
  {
    actions[n] == Receive(SessionEnded) && Play(actions[..n], timeout).listening
  }

  /** In every run a session whose loop has stopped is degraded, unless it was closed or the sidecar had ended it. */
  lemma {:induction false} StoppedIsDegraded(actions: seq<Action>, timeout: real)
    ensures
      var s := Play(actions, timeout);
      s.started && !s.listening ==> s.degradedReason != "" || s.closed || EndRead(actions, timeout)
    decreases |actions|
  {
    if actions != [] {
      var last := |actions| - 1;
      var before := actions[..last];
      StoppedIsDegraded(before, timeout);
      var s, a := Play(before, timeout), actions[last];
      StepStops(s, a, timeout);
      hide Play, Do;
      if EndRead(before, timeout) {
        var n :| 0 <= n < |before| && IsEndRead(before, n, timeout);
        assert before[..n] == actions[..n];
        assert IsEndRead(actions, n, timeout);
      }
      if a == Receive(SessionEnded) && s.listening {
        assert IsEndRead(actions, last, timeout);
      }
    }
  }

  lemma StepStops(s: Session, a: Action, timeout: real)
    ensures
      var s' := Do(s, a, timeout);
      && (s'.started && !s'.listening ==>
            (s.started && !s.listening) || s'.degradedReason != "" || s'.closed || (a == Receive(SessionEnded) && s.listening))
      && (s.degradedReason != "" ==> s'.degradedReason != "") && (s.closed ==> s'.closed)
  {
    hide Round, InOrder, Window, Record;
  }

  // ----- What a live answer lists

  /** By start, then by end, then by speaker. */
  predicate Earlier(a: SpeakerTurn, b: SpeakerTurn) {
    if a.startMs != b.startMs then a.startMs < b.startMs
    else if a.endMs != b.endMs then a.endMs < b.endMs
    else a.speakerIndex < b.speakerIndex
  }

  /** In every run a live answer lists, in order, the known turns that overlap its window, and comes behind the watermark. */
  lemma LiveAnswerLists(actions: seq<Action>, timeout: real, i: nat)
    requires i < |Play(actions, timeout).answers| && Play(actions, timeout).answers[i].live
    ensures
      var s := Play(actions, timeout);
      var a := s.answers[i];
      && s.finalizedThroughMs >= Round(a.endMs) && a.known <= s.turns.Values
      && (forall t :: t in a.turns <==> t in a.known && t.endMs > Round(a.startMs) && t.startMs < Round(a.endMs))
      && forall j, k :: 0 <= j < k < |a.turns| ==> Earlier(a.turns[j], a.turns[k])
  {
    EveryAnswer(actions, timeout);
    hide Play, Round, InOrder;
    var s := Play(actions, timeout);
    var a := s.answers[i];
    assert WellAnswered(a, s);
    assert Lists(a.turns, Window(a.known, a.startMs, a.endMs));
    assert forall x, y :: Before(x, y) ==> Earlier(x, y);
  }

  // ----- How long a call waits

  /** A call on a session that is not started, closed or degraded is answered with nothing at once; any other waits. */
  lemma AskedExactly(s: Session, asked: Action, timeout: real)
    requires asked.Ask? && asked.id !in s.waiters
    ensures
      var s' := Do(s, asked, timeout);
      if !s.started || s.closed || s.degradedReason != "" then
        asked.id !in s'.waiters && |s'.answers| == |s.answers| + 1
        && s'.answers[|s.answers|].turns == [] && !s'.answers[|s.answers|].live
      else asked.id in s'.waiters && s'.answers == s.answers
  {
  }

  lemma WaiterIsKept(s: Session, a: Action, timeout: real, id: nat)
    requires id in s.waiters && id in Do(s, a, timeout).waiters
    ensures
      var w, w' := s.waiters[id], Do(s, a, timeout).waiters[id];
      w'.startMs == w.startMs && w'.endMs == w.endMs && w'.deadline == w.deadline
  {
    hide Round, InOrder, Window, Record;
  }

  /** Step n is a call that has to wait, and it is still waiting after each step up to the k-th. */
  ghost predicate StillWaits(actions: seq<Action>, n: nat, k: nat, timeout: real) {
    && n < k <= |actions| && actions[n].Ask? && actions[n].id !in Play(actions[..n], timeout).waiters
    && forall m :: n < m <= k ==> actions[n].id in Play(actions[..m], timeout).waiters
  }

  lemma PlayStep(actions: seq<Action>, k: nat, timeout: real)
    requires k < |actions|
    ensures Play(actions[..k + 1], timeout) == Do(Play(actions[..k], timeout), actions[k], timeout)
  {
    hide Do;
    assert actions[..k + 1][..k] == actions[..k];
  }

  /** It keeps its window and its deadline. */
  lemma {:induction false} WaitsAsAsked(actions: seq<Action>, n: nat, k: nat, timeout: real)
    requires StillWaits(actions, n, k, timeout)
    ensures
      var asked, s := actions[n], Play(actions[..k], timeout);
      && asked.id in s.waiters && s.waiters[asked.id].startMs == asked.startMs && s.waiters[asked.id].endMs == asked.endMs
      && s.waiters[asked.id].deadline == asked.now + if timeout > 0.0 then timeout else 0.0
    decreases k
  {
    hide Play, Do;
    PlayStep(actions, k - 1, timeout);
    var before := Play(actions[..k - 1], timeout);
    if n == k - 1 {
      AskStarts(before, actions[n], timeout);
    } else {
      WaitsAsAsked(actions, n, k - 1, timeout);
      WaiterIsKept(before, actions[k - 1], timeout, actions[n].id);
    }
  }

  lemma AskStarts(s: Session, asked: Action, timeout: real)
    requires asked.Ask? && asked.id !in s.waiters && asked.id in Do(s, asked, timeout).waiters
    ensures
      var w := Do(s, asked, timeout).waiters[asked.id];
      && w.startMs == asked.startMs && w.endMs == asked.endMs
      && w.deadline == asked.now + if timeout > 0.0 then timeout else 0.0
  {
  }

  /**
   A waiting call that runs again without having timed out is answered exactly if the watermark has reached
   the end it asked for, the session is degraded or its time is over; until then it goes on waiting.
   */
  lemma AnsweredExactly(actions: seq<Action>, n: nat, timeout: real, now: real)
    requires StillWaits(actions, n, |actions|, timeout)
    ensures
      var asked, s := actions[n], Play(actions, timeout);
      var s' := Do(s, Resume(asked.id, now, false), timeout);
      if s.finalizedThroughMs >= Round(asked.endMs) || s.degradedReason != ""
         || now >= asked.now + (if timeout > 0.0 then timeout else 0.0)
      then asked.id !in s'.waiters && |s'.answers| == |s.answers| + 1
      else asked.id in s'.waiters && s'.answers == s.answers && s'.degradedReason == ""
  {
    WaitsAsAsked(actions, n, |actions|, timeout);
    assert actions[..|actions|] == actions;
    hide Play, Round, InOrder, Window, StillWaits;
    ResumesExactly(Play(actions, timeout), actions[n].id, now, timeout);
  }

  lemma ResumesExactly(s: Session, id: nat, now: real, timeout: real)
    requires id in s.waiters
    ensures
      var w, s' := s.waiters[id], Do(s, Resume(id, now, false), timeout);
      if s.finalizedThroughMs >= Round(w.endMs) || s.degradedReason != "" || now >= w.deadline then
        id !in s'.waiters && |s'.answers| == |s.answers| + 1
      else id in s'.waiters && s'.answers == s.answers && s'.degradedReason == ""
  {
    hide Round, InOrder, Window;
  }
}
