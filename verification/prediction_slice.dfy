/** The `prediction` slice of the store: the current prediction, the history
    of every successful prediction, and a loading flag and an error. */
module PredictionSlice {
  import opened Js
  import Seqs

  datatype State = State(
    currentPrediction: Option<Record>,
    predictionHistory: seq<Record>,
    loading: bool,
    error: JsVal)

  const Init: State := State(None, [], false, Null)

  /** `predictionSuccess` stamps the history entry with the current time; the
      ISO text of that time is part of the action here. */
  datatype Action =
    | PredictionStart
    | PredictionSuccess(payload: Record, timestamp: string)
    | PredictionFailure(error: JsVal)
    | ClearPrediction
    | ClearError

  /** `{ ...payload, timestamp }` */
  function Stamp(payload: Record, timestamp: string): Record {
    payload["timestamp" := Str(timestamp)]
  }

  function Reduce(s: State, a: Action): State {
    match a
    case PredictionStart => s.(loading := true, error := Null)
    case PredictionSuccess(p, ts) =>
      s.(loading := false, currentPrediction := Some(p),
         predictionHistory := s.predictionHistory + [Stamp(p, ts)])
    case PredictionFailure(e) => s.(loading := false, error := e)
    case ClearPrediction => s.(currentPrediction := None)
    case ClearError => s.(error := Null)
  }

  function ReduceAll(s: State, actions: seq<Action>): State
    decreases |actions|
  {
    if actions == [] then s else ReduceAll(Reduce(s, actions[0]), actions[1..])
  }

  /** The history entry carries every property of the payload except that
      `timestamp` is the stamp. */
  lemma StampKeepsPayload(payload: Record, timestamp: string)
    ensures Get(Stamp(payload, timestamp), "timestamp") == Str(timestamp)
    ensures forall k :: k != "timestamp" ==> Get(Stamp(payload, timestamp), k) == Get(payload, k)
    ensures Stamp(payload, timestamp).Keys == payload.Keys + {"timestamp"}
  {
  }

  /** What each reducer changes, and that everything else stays. */
  lemma ReducerFrames(s: State, a: Action)
    ensures a.PredictionStart? ==> Reduce(s, a) == s.(loading := true, error := Null)
    ensures a.PredictionSuccess? ==>
      && Reduce(s, a).currentPrediction == Some(a.payload)
      && !Reduce(s, a).loading
      && Reduce(s, a).error == s.error
      && Reduce(s, a).predictionHistory == s.predictionHistory + [Stamp(a.payload, a.timestamp)]
    ensures a.PredictionFailure? ==> Reduce(s, a) == s.(loading := false, error := a.error)
    ensures a.ClearPrediction? ==>
      Reduce(s, a).currentPrediction == None && Reduce(s, a).predictionHistory == s.predictionHistory
      && Reduce(s, a).(currentPrediction := s.currentPrediction) == s
    ensures a.ClearError? ==> Reduce(s, a) == s.(error := Null)
  {
  }

  /** The history is append-only: after any run of actions the old history is
      a prefix, and exactly one stamped entry was added per success, in order. */
  lemma {:induction false} HistoryAppendOnly(s: State, actions: seq<Action>)
    ensures s.predictionHistory <= ReduceAll(s, actions).predictionHistory
    ensures |ReduceAll(s, actions).predictionHistory|
      == |s.predictionHistory| + Seqs.Count((a: Action) => a.PredictionSuccess?, actions)
    ensures ReduceAll(s, actions).predictionHistory[|s.predictionHistory|..] == SuccessEntries(actions)
    decreases |actions|
  {
    if actions != [] {
      var t := Reduce(s, actions[0]);
      HistoryAppendOnly(t, actions[1..]);
      var h := ReduceAll(s, actions).predictionHistory;
      assert t.predictionHistory == s.predictionHistory + SuccessEntries([actions[0]]);
      assert SuccessEntries(actions) == SuccessEntries([actions[0]]) + SuccessEntries(actions[1..]);
      assert h[|s.predictionHistory|..] == h[|s.predictionHistory|..|t.predictionHistory|] + h[|t.predictionHistory|..];
    }
  }

  /** The stamped entries the successes in `actions` contribute, in order. */
  function SuccessEntries(actions: seq<Action>): seq<Record>
    decreases |actions|
  {
    if actions == [] then []
    else
      (if actions[0].PredictionSuccess? then [Stamp(actions[0].payload, actions[0].timestamp)] else [])
      + SuccessEntries(actions[1..])
  }
}
