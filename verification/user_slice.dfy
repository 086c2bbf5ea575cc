/** The `user` slice of the store: consumption data, uploaded files, the
    prediction bundle, reports and devices, with a loading flag and an error. */
module UserSlice {
  import opened Js
  import Seqs

  /** The prediction bundle the API returns: one list per period (`daily`,
      `weekly`, `monthly`, `null` until fetched), a summary and accuracy
      metrics. */
  datatype Predictions = Predictions(
    periods: map<string, Option<seq<Record>>>,
    summary: Option<Summary>,
    accuracy: Option<Record>)

  /** `summary.percentageChange` is a number or absent; the other fields are
      displayed as they are. */
  datatype Summary = Summary(monthlyTotal: JsVal, dailyAvg: JsVal, percentageChange: Option<real>)

  const NoPredictions: Predictions :=
    Predictions(map["daily" := None, "weekly" := None, "monthly" := None], None, None)

  datatype State = State(
    consumptionData: seq<Record>,
    uploadedFiles: seq<Record>,
    predictions: Predictions,
    reports: seq<Record>,
    devices: seq<Record>,
    loading: bool,
    error: JsVal)

  const Init: State := State([], [], NoPredictions, [], [], false, Null)

  datatype Action =
    | UploadDataStart
    | UploadDataSuccess(file: Record)
    | UploadDataFailure(message: JsVal)
    | SetConsumptionData(rows: seq<Record>)
    | SetPredictions(predictions: Predictions)
    | SetDevices(devices: seq<Record>)
    | AddReport(report: Record)
    | ClearError

  function Reduce(s: State, a: Action): State {
    match a
    case UploadDataStart => s.(loading := true, error := Null)
    case UploadDataSuccess(f) => s.(loading := false, uploadedFiles := s.uploadedFiles + [f])
    case UploadDataFailure(m) => s.(loading := false, error := m)
    case SetConsumptionData(rows) => s.(consumptionData := rows)
    case SetPredictions(p) => s.(predictions := p)
    case SetDevices(d) => s.(devices := d)
    case AddReport(r) => s.(reports := s.reports + [r])
    case ClearError => s.(error := Null)
  }

  function ReduceAll(s: State, actions: seq<Action>): State
    decreases |actions|
  {
    if actions == [] then s else ReduceAll(Reduce(s, actions[0]), actions[1..])
  }

  /** Each reducer touches exactly the fields it names. */
  lemma ReducerFrames(s: State, a: Action)
    ensures a.UploadDataStart? ==> Reduce(s, a) == s.(loading := true, error := Null)
    ensures a.UploadDataSuccess? ==>
      && Reduce(s, a).error == s.error && !Reduce(s, a).loading
      && Reduce(s, a).uploadedFiles == s.uploadedFiles + [a.file]
      && Reduce(s, a).(uploadedFiles := s.uploadedFiles, loading := s.loading) == s
    ensures a.UploadDataFailure? ==>
      Reduce(s, a) == s.(loading := false, error := a.message)
    ensures a.SetConsumptionData? ==> Reduce(s, a).(consumptionData := s.consumptionData) == s
    ensures a.SetPredictions? ==> Reduce(s, a).(predictions := s.predictions) == s
    ensures a.SetDevices? ==> Reduce(s, a).(devices := s.devices) == s
    ensures a.AddReport? ==> Reduce(s, a).(reports := s.reports) == s
    ensures a.ClearError? ==> Reduce(s, a) == s.(error := Null)
  {
  }

  /** A reducer either leaves a collection alone or appends to it. */
  lemma ReduceGrows(s: State, a: Action)
    ensures s.uploadedFiles <= Reduce(s, a).uploadedFiles
    ensures s.reports <= Reduce(s, a).reports
    ensures |Reduce(s, a).uploadedFiles| == |s.uploadedFiles| + (if a.UploadDataSuccess? then 1 else 0)
    ensures |Reduce(s, a).reports| == |s.reports| + (if a.AddReport? then 1 else 0)
  {
  }

  /** `uploadedFiles` and `reports` only ever grow: after any sequence of
      actions the earlier contents are a prefix, and the growth is exactly the
      number of success (respectively add-report) actions. */
  lemma {:induction false} HistoriesOnlyGrow(s: State, actions: seq<Action>)
    ensures s.uploadedFiles <= ReduceAll(s, actions).uploadedFiles
    ensures s.reports <= ReduceAll(s, actions).reports
    ensures |ReduceAll(s, actions).uploadedFiles| == |s.uploadedFiles| + Seqs.Count((a: Action) => a.UploadDataSuccess?, actions)
    ensures |ReduceAll(s, actions).reports| == |s.reports| + Seqs.Count((a: Action) => a.AddReport?, actions)
    decreases |actions|
  {
    if actions != [] {
      ReduceGrows(s, actions[0]);
      HistoriesOnlyGrow(Reduce(s, actions[0]), actions[1..]);
    }
  }
}
