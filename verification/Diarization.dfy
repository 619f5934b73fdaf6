/**
 The diarization session (backend/diarization/client.py): one receive loop fills a timeline of
 finalized speaker turns while calls of `turns_for` wait for the watermark to pass their window.
 Each method is one stretch of the original between two suspensions. Times are exact.
 */
module Diarization {
  import opened Basics
  import opened Turns

  type TurnKey = (int, int, int)

  function Key(t: SpeakerTurn): TurnKey { (t.startMs, t.endMs, t.speakerIndex) }

  /** What one message of the sidecar carries. */
  datatype Payload =
    | SessionStarted
    | TurnsFinalized(turns: seq<SpeakerTurn>, finalizedThroughMs: int)
    | SidecarError(code: string, message: string)
    | SessionEnded
    | NoPayload

  /** How the message stream ends when nothing in it ended the loop. */
  datatype Ending = StreamClosed | RpcFailure(code: string) | OtherException

  /** A call of turns_for that has not returned yet. */
  datatype Waiter = Waiter(startMs: real, endMs: real, deadline: real, suspended: bool)

  /** What a call of turns_for returned; `live` unless it returned early, and the turns known then. */
  datatype Answer = Answer(startMs: real, endMs: real, turns: seq<SpeakerTurn>, live: bool, known: set<SpeakerTurn>)

  datatype Session = Session(
    started: bool,
    listening: bool,
    turns: map<TurnKey, SpeakerTurn>,
    finalizedThroughMs: int,
    degradedReason: string,
    closed: bool,
    waiters: map<nat, Waiter>,
    answers: seq<Answer>)
  {
    predicate Available() { started && degradedReason == "" && !closed }
  }

  const OPENED := Session(false, false, map[], 0, "", false, map[], [])

  // ----- The window of an answer, in order

  predicate Before(a: SpeakerTurn, b: SpeakerTurn) {
    || a.startMs < b.startMs
    || (a.startMs == b.startMs && a.endMs < b.endMs)
    || (a.startMs == b.startMs && a.endMs == b.endMs && a.speakerIndex < b.speakerIndex)
  }

  ghost predicate Ascending(s: seq<SpeakerTurn>) {
    forall i, j :: 0 <= i < j < |s| ==> Before(s[i], s[j])
  }

  ghost predicate Lists(s: seq<SpeakerTurn>, w: set<SpeakerTurn>) {
    Ascending(s) && forall t :: t in s <==> t in w
  }

  function Insert(t: SpeakerTurn, s: seq<SpeakerTurn>): seq<SpeakerTurn> {
    if s == [] || Before(t, s[0]) then [t] + s else [s[0]] + Insert(t, s[1..])
  }

  lemma {:induction false} InsertLists(t: SpeakerTurn, s: seq<SpeakerTurn>, w: set<SpeakerTurn>)
    requires Lists(s, w) && t !in w
    ensures Lists(Insert(t, s), w + {t})
  {
    if s == [] || Before(t, s[0]) {
    } else {
      assert s[0] in w;
      forall x ensures x in s[1..] <==> x in w - {s[0]} {
        assert x in s <==> x == s[0] || x in s[1..];
        assert x in s[1..] ==> Before(s[0], x);
      }
      InsertLists(t, s[1..], w - {s[0]});
      var r := Insert(t, s[1..]);
      forall i | 0 <= i < |r| ensures Before(s[0], r[i]) {
        assert r[i] in w - {s[0]} + {t};
        if r[i] != t {
          assert r[i] in s[1..];
        }
      }
    }
  }

  /** The turns of a set by start, then end, then speaker. */
  ghost function InOrder(w: set<SpeakerTurn>): (s: seq<SpeakerTurn>)
    ensures Lists(s, w)
  {
    if w == {} then []
    else
      var t := Element(w);
      InsertLists(t, InOrder(w - {t}), w - {t});
      assert w - {t} + {t} == w;
      Insert(t, InOrder(w - {t}))
  }

  /** There is only one such order. */
  lemma {:induction false} OrderIsUnique(s: seq<SpeakerTurn>, s': seq<SpeakerTurn>, w: set<SpeakerTurn>)
    requires Lists(s, w) && Lists(s', w)
    ensures s == s'
  {
    assert s == [] || s[0] in w;
    assert s' == [] || s'[0] in w;
    if s != [] && s' != [] {
      assert s[0] in s' && s'[0] in s;
      assert s[0] == s'[0];
      forall x ensures (x in s[1..] <==> x in w - {s[0]}) && (x in s'[1..] <==> x in w - {s[0]}) {
        assert x in s <==> x == s[0] || x in s[1..];
        assert x in s' <==> x == s[0] || x in s'[1..];
        assert x in s[1..] ==> Before(s[0], x);
        assert x in s'[1..] ==> Before(s[0], x);
      }
      OrderIsUnique(s[1..], s'[1..], w - {s[0]});
      assert s == [s[0]] + s[1..] && s' == [s'[0]] + s'[1..];
    }
  }

  predicate InWindow(t: SpeakerTurn, startMs: real, endMs: real) {
    t.endMs > Round(startMs) && t.startMs < Round(endMs)
  }

  function Window(turns: set<SpeakerTurn>, startMs: real, endMs: real): set<SpeakerTurn> {
    set t <- turns | InWindow(t, startMs, endMs)
  }

  // ----- The steps

  function Degrade(s: Session, reason: string): Session {
    if s.degradedReason == "" then s.(degradedReason := reason) else s
  }

  function Record(turns: map<TurnKey, SpeakerTurn>, batch: seq<SpeakerTurn>): map<TurnKey, SpeakerTurn> {
    if batch == [] then turns
    else
      var last := batch[|batch| - 1];
      Record(turns, batch[..|batch| - 1])[Key(last) := last]
  }

  function Received(s: Session, payload: Payload): Session {
    match payload
    case SessionStarted => s
    case TurnsFinalized(batch, through) =>
      s.(turns := Record(s.turns, batch), finalizedThroughMs := Max(s.finalizedThroughMs, through))
    case SidecarError(code, message) =>
      Degrade(s, if code != "" then code else if message != "" then message else "sidecar_error").(listening := false)
    case SessionEnded => s.(listening := false)
    case NoPayload => s
  }

  function LoopEnded(s: Session, ending: Ending): Session {
    var reason :=
      match ending
      case StreamClosed => "stream_closed"
      case RpcFailure(code) => "grpc_" + code
      case OtherException => "receive_error";
    Degrade(s, reason).(listening := false)
  }

  /** A call of turns_for returns: nothing once degraded, else the turns in its window. */
  ghost function Returned(s: Session, w: Waiter): Session {
    var known := s.turns.Values;
    var live := s.degradedReason == "";
    var turns := if live then InOrder(Window(known, w.startMs, w.endMs)) else [];
    s.(answers := s.answers + [Answer(w.startMs, w.endMs, turns, live, known)])
  }

  /** The entry of turns_for, up to its lock. */
  function Asked(s: Session, id: nat, startMs: real, endMs: real, now: real, timeout: real): Session {
    if !s.Available() then s.(answers := s.answers + [Answer(startMs, endMs, [], false, s.turns.Values)])
    else s.(waiters := s.waiters[id := Waiter(startMs, endMs, now + if timeout > 0.0 then timeout else 0.0, false)])
  }

  /** One turn of the waiting loop; `timedOut` when wait_for gave up on a suspended call. */
  ghost function Resumed(s: Session, id: nat, now: real, timedOut: bool): Session
    requires id in s.waiters
  {
    var w := s.waiters[id];
    var t := s.(waiters := s.waiters - {id});
    if timedOut && w.suspended then Returned(Degrade(t, "result_timeout"), w)
    else if s.finalizedThroughMs >= Round(w.endMs) || s.degradedReason != "" then Returned(t, w)
    else if w.deadline - now <= 0.0 then Returned(Degrade(t, "result_timeout"), w)
    else s.(waiters := s.waiters[id := w.(suspended := true)])
  }

  function Fed(s: Session, bytes: seq<Byte>, room: bool): Session {
    if bytes == [] || !s.Available() || room then s else Degrade(s, "request_queue_full")
  }

  class DiarizationSession {
    const resultTimeout: real
    var started: bool
    var listening: bool
    var turns: map<TurnKey, SpeakerTurn>
    var finalizedThroughMs: int
    var degradedReason: string
    var closed: bool
    var waiters: map<nat, Waiter>
    ghost var answers: seq<Answer>

    ghost function State(): Session
      reads this
    {
      Session(started, listening, turns, finalizedThroughMs, degradedReason, closed, waiters, answers)
    }

    constructor (resultTimeout: real)
      ensures State() == OPENED && this.resultTimeout == resultTimeout
    {
      this.resultTimeout := resultTimeout;
      started, listening, turns, finalizedThroughMs := false, false, map[], 0;
      degradedReason, closed, waiters, answers := "", false, map[], [];
    }

    /** The receive task is created. */
    method Start()
      modifies this
      ensures State() == old(State()).(started := true, listening := true)
    {
      started, listening := true, true;
    }

    method DegradeLocked(reason: string)
      modifies this`degradedReason
      ensures State() == Degrade(old(State()), reason)
    {
      if degradedReason == "" {
        degradedReason := reason;
      }
    }

    /** One message of the receive loop. */
    method Receive(payload: Payload)
      modifies this
      ensures State() == Received(old(State()), payload)
    {
      match payload {
        case SessionStarted =>
        case TurnsFinalized(batch, through) =>
          for i := 0 to |batch|
            invariant State() == old(State()).(turns := Record(old(turns), batch[..i]))
          {
            assert batch[..i + 1][..i] == batch[..i];
            turns := turns[Key(batch[i]) := batch[i]];
          }
          assert batch[..|batch|] == batch;
          finalizedThroughMs := Max(finalizedThroughMs, through);
        case SidecarError(code, message) =>
          DegradeLocked(if code != "" then code else if message != "" then message else "sidecar_error");
          listening := false;
        case SessionEnded =>
          listening := false;
        case NoPayload =>
      }
    }

    method EndLoop(ending: Ending)
      modifies this
      ensures State() == LoopEnded(old(State()), ending)
    {
      match ending {
        case StreamClosed => DegradeLocked("stream_closed");
        case RpcFailure(code) => DegradeLocked("grpc_" + code);
        case OtherException => DegradeLocked("receive_error");
      }
      listening := false;
    }

    method Feed(bytes: seq<Byte>, room: bool)
      modifies this
      ensures State() == Fed(old(State()), bytes, room)
    {
      if bytes == [] || !(started && degradedReason == "" && !closed) {
        return;
      }
      if !room {
        DegradeLocked("request_queue_full");
      }
    }

    method AskTurns(id: nat, startMs: real, endMs: real, now: real) returns (answer: Option<seq<SpeakerTurn>>)
      modifies this
      ensures State() == Asked(old(State()), id, startMs, endMs, now, resultTimeout)
      ensures answer == if old(State()).Available() then None else Some([])
    {
      if !(started && degradedReason == "" && !closed) {
        answers := answers + [Answer(startMs, endMs, [], false, turns.Values)];
        return Some([]);
      }
      waiters := waiters[id := Waiter(startMs, endMs, now + if resultTimeout > 0.0 then resultTimeout else 0.0, false)];
      return None;
    }

    method ResumeWaiter(id: nat, now: real, timedOut: bool) returns (answer: Option<seq<SpeakerTurn>>)
      requires id in waiters
      modifies this
      ensures State() == Resumed(old(State()), id, now, timedOut)
      ensures answer == if id in waiters then None else Some(answers[|answers| - 1].turns)
    {
      var w := waiters[id];
      if timedOut && w.suspended {
        DegradeLocked("result_timeout");
      } else if finalizedThroughMs < Round(w.endMs) && degradedReason == "" {
        if w.deadline - now <= 0.0 {
          DegradeLocked("result_timeout");
        } else {
          waiters := waiters[id := w.(suspended := true)];
          return None;
        }
      }
      waiters := waiters - {id};
      var found := [];
      if degradedReason == "" {
        found := SortedTurns(w.startMs, w.endMs);
      }
      answers := answers + [Answer(w.startMs, w.endMs, found, degradedReason == "", turns.Values)];
      return Some(found);
    }

    /** The turns of the timeline that overlap the window, sorted. */
    method SortedTurns(startMs: real, endMs: real) returns (found: seq<SpeakerTurn>)
      ensures found == InOrder(Window(turns.Values, startMs, endMs))
    {
      var all := Window(turns.Values, startMs, endMs);
      var rest := all;
      found := [];
      while rest != {}
        invariant rest <= all
        invariant Lists(found, all - rest)
        decreases |rest|
      {
        var t := AnyOf(rest);
        InsertLists(t, found, all - rest);
        assert all - (rest - {t}) == all - rest + {t};
        found := Insert(t, found);
        rest := rest - {t};
      }
      assert all - rest == all;
      OrderIsUnique(found, InOrder(all), all);
    }

    method Close()
      modifies this
      ensures State() == old(State()).(closed := true, listening := false)
    {
      closed, listening := true, false;
    }
  }
}
