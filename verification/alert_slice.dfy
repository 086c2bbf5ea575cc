/** The `alert` slice of the store: the alert list, newest first, and a
    separately maintained `unreadCount`. */
module AlertSlice {
  import opened Js
  import Seqs

  /** An alert: `id`, `read`, `type`, `severity`, `title`, `message`, … */
  type Alert = Record

  datatype State = State(alerts: seq<Alert>, unreadCount: int)

  const Init: State := State([], 0)

  datatype Action =
    | SetAlerts(payload: seq<Alert>)
    | AddAlert(alert: Alert)
    | MarkAsRead(id: JsVal)
    | MarkAllAsRead
    | DeleteAlert(id: JsVal)
    | ClearAllAlerts

  /** `!a.read` */
  predicate Unread(a: Alert) {
    !Truthy(Get(a, "read"))
  }

  /** `a.id === id` */
  predicate HasId(a: Alert, id: JsVal) {
    StrictEq(Get(a, "id"), id)
  }

  /** The number of unread alerts in `alerts`. */
  function CountUnread(alerts: seq<Alert>): nat {
    Seqs.Count(Unread, alerts)
  }

  /** `(a) => a.id === id` */
  function IdIs(id: JsVal): Alert -> bool {
    (a: Alert) => HasId(a, id)
  }

  /** `(a) => a.id !== id` */
  function IdIsNot(id: JsVal): Alert -> bool {
    (a: Alert) => !HasId(a, id)
  }

  /** The index of `alerts.find((a) => a.id === id)`, or `|alerts|`. */
  function FindById(alerts: seq<Alert>, id: JsVal): nat {
    Seqs.FindIndex(IdIs(id), alerts)
  }

  function MarkRead(a: Alert): Alert {
    a["read" := Bool(true)]
  }

  function Reduce(s: State, action: Action): State {
    match action
    case SetAlerts(xs) => State(xs, |Seqs.Filter(Unread, xs)|)
    case AddAlert(a) => State([a] + s.alerts, s.unreadCount + 1)
    case MarkAsRead(id) =>
      var i := FindById(s.alerts, id);
      if i < |s.alerts| && Unread(s.alerts[i]) then
        State(s.alerts[i := MarkRead(s.alerts[i])], s.unreadCount - 1)
      else s
    case MarkAllAsRead =>
      State(seq(|s.alerts|, i requires 0 <= i < |s.alerts| => MarkRead(s.alerts[i])), 0)
    case DeleteAlert(id) =>
      var i := FindById(s.alerts, id);
      var count := if i < |s.alerts| && Unread(s.alerts[i]) then s.unreadCount - 1 else s.unreadCount;
      State(Seqs.Filter(IdIsNot(id), s.alerts), count)
    case ClearAllAlerts => State([], 0)
  }

  function ReduceAll(s: State, actions: seq<Action>): State
    decreases |actions|
  {
    if actions == [] then s else ReduceAll(Reduce(s, actions[0]), actions[1..])
  }

  /** The intended invariant: the counter equals the number of unread alerts. */
  ghost predicate Consistent(s: State) {
    s.unreadCount == CountUnread(s.alerts)
  }

  /** What every reachable state satisfies: the counter never falls below the
      number of unread alerts. */
  ghost predicate CountCovers(s: State) {
    s.unreadCount >= CountUnread(s.alerts)
  }

  /** No two alerts share an id (under `===`). */
  ghost predicate UniqueIds(alerts: seq<Alert>) {
    forall i, j :: 0 <= i < j < |alerts| ==> !StrictEq(Get(alerts[i], "id"), Get(alerts[j], "id"))
  }

  // ---------------------------------------------------------------------------
  // One reducer at a time

  /** `setAlerts` establishes the invariant whatever came before. */
  lemma SetAlertsEstablishes(s: State, xs: seq<Alert>)
    ensures Consistent(Reduce(s, SetAlerts(xs)))
    ensures Reduce(s, SetAlerts(xs)).alerts == xs
  {
    Seqs.FilterLength(Unread, xs);
  }

  /** `addAlert` prepends and always adds one to the counter, so the
      invariant survives exactly when the new alert is unread. */
  lemma AddAlertEffect(s: State, a: Alert)
    requires Consistent(s)
    ensures Reduce(s, AddAlert(a)).alerts == [a] + s.alerts
    ensures Consistent(Reduce(s, AddAlert(a))) <==> Unread(a)
    ensures CountCovers(Reduce(s, AddAlert(a)))
  {
    Seqs.CountAppend(Unread, [a], s.alerts);
  }

  /** `markAsRead` marks only the first alert with the id, and only when it
      is unread, taking exactly one off the counter; otherwise nothing changes.
      No uniqueness of ids is needed for the invariant here. */
  lemma MarkAsReadEffect(s: State, id: JsVal)
    ensures var i := FindById(s.alerts, id);
      var t := Reduce(s, MarkAsRead(id));
      if i < |s.alerts| && Unread(s.alerts[i]) then
        && |t.alerts| == |s.alerts|
        && t.alerts[i] == MarkRead(s.alerts[i]) && !Unread(t.alerts[i])
        && (forall j :: 0 <= j < |s.alerts| && j != i ==> t.alerts[j] == s.alerts[j])
        && t.unreadCount == s.unreadCount - 1
        && CountUnread(t.alerts) == CountUnread(s.alerts) - 1
      else t == s
    ensures Consistent(s) ==> Consistent(Reduce(s, MarkAsRead(id)))
    ensures CountCovers(s) ==> CountCovers(Reduce(s, MarkAsRead(id)))
  {
    var i := FindById(s.alerts, id);
    if i < |s.alerts| && Unread(s.alerts[i]) {
      var t := Reduce(s, MarkAsRead(id));
      Seqs.CountSplit(Unread, s.alerts, i);
      Seqs.CountSplit(Unread, t.alerts, i);
      assert t.alerts[..i] == s.alerts[..i];
      assert t.alerts[i + 1..] == s.alerts[i + 1..];
    }
  }

  /** `markAllAsRead` keeps every alert in place, marks each read, and zeroes
      the counter, which then agrees with the list. */
  lemma MarkAllAsReadEffect(s: State)
    ensures |Reduce(s, MarkAllAsRead).alerts| == |s.alerts|
    ensures forall i :: 0 <= i < |s.alerts| ==> Reduce(s, MarkAllAsRead).alerts[i] == MarkRead(s.alerts[i])
    ensures Consistent(Reduce(s, MarkAllAsRead))
  {
    var t := Reduce(s, MarkAllAsRead);
    Seqs.CountNone(Unread, t.alerts);
  }

  /** The counter loses at most one, for the first match, while every match
      is removed: the unread alerts left never exceed the new counter's
      share. */
  lemma {:induction false} DeleteCountBound(alerts: seq<Alert>, id: JsVal)
    ensures var i := FindById(alerts, id);
      CountUnread(Seqs.Filter(IdIsNot(id), alerts))
        <= CountUnread(alerts) - (if i < |alerts| && Unread(alerts[i]) then 1 else 0)
    decreases |alerts|
  {
    if alerts != [] {
      var keep := IdIsNot(id);
      var rest := alerts[1..];
      DeleteStep(alerts, id);
      if HasId(alerts[0], id) {
        assert FindById(alerts, id) == 0;
        Seqs.CountFilterLe(Unread, keep, rest);
      } else {
        assert FindById(alerts, id) == 1 + FindById(rest, id);
        DeleteCountBound(rest, id);
      }
    }
  }

  /** With unique ids exactly one alert at most is removed, so the counter's
      adjustment from the first match is exact. */
  lemma {:induction false} DeleteCountExact(alerts: seq<Alert>, id: JsVal)
    requires UniqueIds(alerts)
    ensures var i := FindById(alerts, id);
      CountUnread(Seqs.Filter(IdIsNot(id), alerts))
        == CountUnread(alerts) - (if i < |alerts| && Unread(alerts[i]) then 1 else 0)
    decreases |alerts|
  {
    if alerts != [] {
      var keep := IdIsNot(id);
      var rest := alerts[1..];
      DeleteStep(alerts, id);
      if HasId(alerts[0], id) {
        assert FindById(alerts, id) == 0;
        OthersKept(alerts, id);
      } else {
        assert FindById(alerts, id) == 1 + FindById(rest, id);
        UniqueTail(alerts);
        DeleteCountExact(rest, id);
      }
    }
  }

  /** Deleting from a non-empty list: the head's unread mark counts unless
      the head is deleted, and the rest is handled on its own. */
  lemma DeleteStep(alerts: seq<Alert>, id: JsVal)
    requires alerts != []
    ensures CountUnread(Seqs.Filter(IdIsNot(id), alerts))
      == (if !HasId(alerts[0], id) && Unread(alerts[0]) then 1 else 0) + CountUnread(Seqs.Filter(IdIsNot(id), alerts[1..]))
    ensures CountUnread(alerts) == (if Unread(alerts[0]) then 1 else 0) + CountUnread(alerts[1..])
  {
    var keep := IdIsNot(id);
    var head := if keep(alerts[0]) then [alerts[0]] else [];
    assert Seqs.Filter(keep, alerts) == head + Seqs.Filter(keep, alerts[1..]);
    Seqs.CountAppend(Unread, head, Seqs.Filter(keep, alerts[1..]));
  }

  /** With unique ids, once the first alert carries `id` no later one does. */
  lemma OthersKept(alerts: seq<Alert>, id: JsVal)
    requires UniqueIds(alerts) && alerts != [] && HasId(alerts[0], id)
    ensures Seqs.Filter(IdIsNot(id), alerts[1..]) == alerts[1..]
  {
    var rest := alerts[1..];
    forall j | 0 <= j < |rest|
      ensures IdIsNot(id)(rest[j])
    {
      assert rest[j] == alerts[j + 1];
      assert !StrictEq(Get(alerts[0], "id"), Get(alerts[j + 1], "id"));
    }
    Seqs.FilterKeepsAll(IdIsNot(id), rest);
  }

  lemma UniqueTail(alerts: seq<Alert>)
    requires UniqueIds(alerts) && alerts != []
    ensures UniqueIds(alerts[1..])
  {
    var rest := alerts[1..];
    forall i, j | 0 <= i < j < |rest|
      ensures !StrictEq(Get(rest[i], "id"), Get(rest[j], "id"))
    {
      assert rest[i] == alerts[i + 1] && rest[j] == alerts[j + 1];
    }
  }

  /** `deleteAlert` removes every alert with the id and keeps the rest in
      order; the counter stays an upper bound, and with unique ids it stays
      exact. */
  lemma DeleteAlertEffect(s: State, id: JsVal)
    ensures forall a :: a in Reduce(s, DeleteAlert(id)).alerts ==> a in s.alerts && !HasId(a, id)
    ensures forall a :: a in s.alerts && !HasId(a, id) ==> a in Reduce(s, DeleteAlert(id)).alerts
    ensures CountCovers(s) ==> CountCovers(Reduce(s, DeleteAlert(id)))
    ensures Consistent(s) && UniqueIds(s.alerts) ==> Consistent(Reduce(s, DeleteAlert(id)))
  {
    var t := Reduce(s, DeleteAlert(id));
    var i := FindById(s.alerts, id);
    var first := if i < |s.alerts| && Unread(s.alerts[i]) then 1 else 0;
    assert t == State(Seqs.Filter(IdIsNot(id), s.alerts), s.unreadCount - first);
    DeleteKeepsOthers(s.alerts, id);
    DeleteCountBound(s.alerts, id);
    if UniqueIds(s.alerts) {
      DeleteCountExact(s.alerts, id);
    }
  }

  /** The filter keeps exactly the alerts without the id. */
  lemma DeleteKeepsOthers(alerts: seq<Alert>, id: JsVal)
    ensures forall a :: a in Seqs.Filter(IdIsNot(id), alerts) ==> a in alerts && !HasId(a, id)
    ensures forall a :: a in alerts && !HasId(a, id) ==> a in Seqs.Filter(IdIsNot(id), alerts)
  {
    var r := Seqs.Filter(IdIsNot(id), alerts);
    forall a | a in r
      ensures a in alerts && !HasId(a, id)
    {
      var k :| 0 <= k < |r| && r[k] == a;
      assert IdIsNot(id)(r[k]);
    }
    forall a | a in alerts && !HasId(a, id)
      ensures a in r
    {
      var k :| 0 <= k < |alerts| && alerts[k] == a;
      assert IdIsNot(id)(alerts[k]);
    }
  }

  /** With a duplicated id the invariant breaks: two unread alerts with id 1
      and a counter of 2 end with no alerts and a counter of 1. */
  lemma DuplicateIdsBreakDelete()
    ensures var a := map["id" := Num(1.0)];
      var s := State([a, a], 2);
      && Consistent(s)
      && Reduce(s, DeleteAlert(Num(1.0))) == State([], 1)
      && !Consistent(Reduce(s, DeleteAlert(Num(1.0))))
  {
    var a: Alert := map["id" := Num(1.0)];
    var s := State([a, a], 2);
    assert Unread(a) && HasId(a, Num(1.0));
    assert [a, a][1..] == [a];
    assert [a][1..] == [];
    assert Seqs.Count(Unread, [a]) == 1;
    assert Seqs.Count(Unread, [a, a]) == 2;
    assert FindById([a, a], Num(1.0)) == 0;
    var keep := IdIsNot(Num(1.0));
    assert !keep(a);
    assert Seqs.Filter(keep, [a]) == [];
    assert Seqs.Filter(keep, [a, a]) == [];
  }

  /** `clearAllAlerts` empties the list and the counter. */
  lemma ClearAllAlertsEffect(s: State)
    ensures Reduce(s, ClearAllAlerts) == State([], 0)
    ensures Consistent(Reduce(s, ClearAllAlerts))
  {
  }

  // ---------------------------------------------------------------------------
  // Every reachable state

  /** Each reducer keeps the counter an upper bound on the unread alerts. */
  lemma ReduceKeepsCover(s: State, action: Action)
    requires CountCovers(s)
    ensures CountCovers(Reduce(s, action))
  {
    match action
    case SetAlerts(xs) => SetAlertsEstablishes(s, xs);
    case AddAlert(a) => Seqs.CountAppend(Unread, [a], s.alerts);
    case MarkAsRead(id) => MarkAsReadEffect(s, id);
    case MarkAllAsRead => MarkAllAsReadEffect(s);
    case DeleteAlert(id) => DeleteAlertEffect(s, id);
    case ClearAllAlerts =>
  }

  /** From the initial state, whatever is dispatched, the counter is never
      negative and never below the number of unread alerts. */
  lemma {:induction false} CounterNeverNegative(actions: seq<Action>)
    ensures CountCovers(ReduceAll(Init, actions))
    ensures ReduceAll(Init, actions).unreadCount >= 0
  {
    ReachableCovers(Init, actions);
  }

  lemma {:induction false} ReachableCovers(s: State, actions: seq<Action>)
    requires CountCovers(s)
    ensures CountCovers(ReduceAll(s, actions))
    decreases |actions|
  {
    if actions != [] {
      ReduceKeepsCover(s, actions[0]);
      ReachableCovers(Reduce(s, actions[0]), actions[1..]);
    }
  }

  /** The conditions under which the counter stays exact: loaded lists have
      unique ids, and added alerts are unread with an id not already present. */
  ghost predicate Disciplined(s: State, action: Action) {
    match action
    case SetAlerts(xs) => UniqueIds(xs)
    case AddAlert(a) => Unread(a) && forall j :: 0 <= j < |s.alerts| ==> !StrictEq(Get(a, "id"), Get(s.alerts[j], "id"))
    case _ => true
  }

  ghost predicate DisciplinedRun(s: State, actions: seq<Action>)
    decreases |actions|
  {
    actions != [] ==> Disciplined(s, actions[0]) && DisciplinedRun(Reduce(s, actions[0]), actions[1..])
  }

  lemma ReduceKeepsUnique(s: State, action: Action)
    requires UniqueIds(s.alerts) && Disciplined(s, action)
    ensures UniqueIds(Reduce(s, action).alerts)
  {
    var t := Reduce(s, action);
    match action
    case SetAlerts(xs) =>
    case AddAlert(a) =>
      forall i, j | 0 <= i < j < |t.alerts|
        ensures !StrictEq(Get(t.alerts[i], "id"), Get(t.alerts[j], "id"))
      {
        if i == 0 {
          assert t.alerts[j] == s.alerts[j - 1];
        } else {
          assert t.alerts[i] == s.alerts[i - 1] && t.alerts[j] == s.alerts[j - 1];
        }
      }
    case MarkAsRead(id) =>
      forall i | 0 <= i < |t.alerts|
        ensures Get(t.alerts[i], "id") == Get(s.alerts[i], "id")
      {
      }
    case MarkAllAsRead =>
      forall i | 0 <= i < |t.alerts|
        ensures Get(t.alerts[i], "id") == Get(s.alerts[i], "id")
      {
      }
    case DeleteAlert(id) =>
      FilterKeepsUnique(s.alerts, IdIsNot(id));
    case ClearAllAlerts =>
  }

  lemma {:induction false} FilterKeepsUnique(alerts: seq<Alert>, keep: Alert -> bool)
    requires UniqueIds(alerts)
    ensures UniqueIds(Seqs.Filter(keep, alerts))
    decreases |alerts|
  {
    if alerts != [] {
      var rest := alerts[1..];
      UniqueTail(alerts);
      FilterKeepsUnique(rest, keep);
      var tail := Seqs.Filter(keep, rest);
      var head := if keep(alerts[0]) then [alerts[0]] else [];
      assert Seqs.Filter(keep, alerts) == head + tail;
      forall k | 0 <= k < |tail|
        ensures !StrictEq(Get(alerts[0], "id"), Get(tail[k], "id"))
      {
        var m :| 0 <= m < |rest| && rest[m] == tail[k];
        assert rest[m] == alerts[m + 1];
      }
      forall i, j | 0 <= i < j < |head + tail|
        ensures !StrictEq(Get((head + tail)[i], "id"), Get((head + tail)[j], "id"))
      {
        if head != [] && i == 0 {
          assert (head + tail)[j] == tail[j - 1];
        } else {
          assert (head + tail)[i] == tail[i - |head|] && (head + tail)[j] == tail[j - |head|];
        }
      }
    }
  }

  /** A disciplined step from a consistent state with unique ids stays so. */
  lemma ReduceKeepsConsistent(s: State, action: Action)
    requires Consistent(s) && UniqueIds(s.alerts) && Disciplined(s, action)
    ensures Consistent(Reduce(s, action)) && UniqueIds(Reduce(s, action).alerts)
  {
    ReduceKeepsUnique(s, action);
    match action
    case SetAlerts(xs) => SetAlertsEstablishes(s, xs);
    case AddAlert(a) => AddAlertEffect(s, a);
    case MarkAsRead(id) => MarkAsReadEffect(s, id);
    case MarkAllAsRead => MarkAllAsReadEffect(s);
    case DeleteAlert(id) => DeleteAlertEffect(s, id);
    case ClearAllAlerts =>
  }

  /** Under the discipline, the counter equals the number of unread alerts in
      every reachable state, and so lies between 0 and the list's length. */
  lemma {:induction false} DisciplinedRunsStayConsistent(s: State, actions: seq<Action>)
    requires Consistent(s) && UniqueIds(s.alerts)
    requires DisciplinedRun(s, actions)
    ensures Consistent(ReduceAll(s, actions)) && UniqueIds(ReduceAll(s, actions).alerts)
    ensures 0 <= ReduceAll(s, actions).unreadCount <= |ReduceAll(s, actions).alerts|
    decreases |actions|
  {
    if actions != [] {
      ReduceKeepsConsistent(s, actions[0]);
      DisciplinedRunsStayConsistent(Reduce(s, actions[0]), actions[1..]);
    }
  }
}
