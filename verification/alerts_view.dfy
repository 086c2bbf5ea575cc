/** The alerts page: severity colours, type icons, the click-to-read guard,
    the "mark all as read" button, the fetch condition and the title
    fallback. */
module AlertsView {
  import opened Js
  import Seqs
  import AlertSlice

  datatype ChipColor = ErrorColor | WarningColor | InfoColor | DefaultColor

  /** `switch (severity?.toLowerCase())`: `None` when `severity` is present but
      not a string, where the call throws. */
  function SeverityColor(severity: JsVal): (c: Option<ChipColor>)
    ensures c.None? <==> !severity.Str? && severity != Undefined && severity != Null
  {
    match severity
    case Str(s) => Some(ColorOfWord(Lower(s)))
    case Undefined => Some(DefaultColor)
    case Null => Some(DefaultColor)
    case _ => None
  }

  function ColorOfWord(w: string): ChipColor {
    if w == "high" || w == "critical" then ErrorColor
    else if w == "medium" || w == "warning" then WarningColor
    else if w == "low" || w == "info" then InfoColor
    else DefaultColor
  }

  /** The colour depends only on the lower-cased word: high/critical are
      errors, medium/warning warnings, low/info informational, anything else
      (and an absent severity) the default. */
  lemma SeverityColorSpec(s: string)
    ensures SeverityColor(Str(s)) == Some(ErrorColor) <==> Lower(s) == "high" || Lower(s) == "critical"
    ensures SeverityColor(Str(s)) == Some(WarningColor) <==> Lower(s) == "medium" || Lower(s) == "warning"
    ensures SeverityColor(Str(s)) == Some(InfoColor) <==> Lower(s) == "low" || Lower(s) == "info"
    ensures SeverityColor(Str(s)) == Some(DefaultColor) <==>
      !(Lower(s) in {"high", "critical", "medium", "warning", "low", "info"})
    ensures SeverityColor(Undefined) == Some(DefaultColor)
  {
  }

  /** Case does not matter: "HIGH", "High" and "high" get the same colour. */
  lemma SeverityColorIgnoresCase(s: string)
    ensures SeverityColor(Str(Upper(s))) == SeverityColor(Str(s))
    ensures SeverityColor(Str(Lower(s))) == SeverityColor(Str(s))
  {
    assert Lower(Upper(s)) == Lower(s);
    LowerIdempotent(s);
  }

  datatype Icon = Bolt | WarningIcon | Lightbulb | Notifications

  /** `getAlertIcon(type, severity)`: the switch is on `type` only. */
  function AlertIcon(alertType: JsVal, severity: JsVal): Icon {
    if StrictEq(alertType, Str("spike")) then Bolt
    else if StrictEq(alertType, Str("threshold")) then WarningIcon
    else if StrictEq(alertType, Str("suggestion")) then Lightbulb
    else Notifications
  }

  lemma AlertIconSpec(alertType: JsVal, severity: JsVal, other: JsVal)
    ensures AlertIcon(alertType, severity) == AlertIcon(alertType, other)
    ensures AlertIcon(alertType, severity) == Bolt <==> alertType == Str("spike")
    ensures AlertIcon(alertType, severity) == WarningIcon <==> alertType == Str("threshold")
    ensures AlertIcon(alertType, severity) == Lightbulb <==> alertType == Str("suggestion")
  {
  }

  /** `alert.title || "Observation"` */
  function Title(alert: AlertSlice.Alert): (t: JsVal)
    ensures Truthy(t)
    ensures Truthy(Get(alert, "title")) ==> t == Get(alert, "title")
    ensures !Truthy(Get(alert, "title")) ==> t == Str("Observation")
  {
    OrText(Get(alert, "title"), "Observation")
  }

  /** Clicking an alert: an unread alert is marked read by its id; a read one
      dispatches nothing. */
  function OnClick(alert: AlertSlice.Alert): (a: Option<AlertSlice.Action>)
    ensures a.Some? <==> AlertSlice.Unread(alert)
    ensures a.Some? ==> a.value == AlertSlice.MarkAsRead(Get(alert, "id"))
  {
    if AlertSlice.Unread(alert) then Some(AlertSlice.MarkAsRead(Get(alert, "id"))) else None
  }

  /** Clicking an unread alert of a consistent store with unique, non-NaN
      ids marks exactly that alert read and takes one off the counter;
      clicking a read alert dispatches nothing. */
  lemma ClickMarksThatAlert(s: AlertSlice.State, k: nat)
    requires k < |s.alerts|
    requires AlertSlice.Consistent(s) && AlertSlice.UniqueIds(s.alerts)
    requires Get(s.alerts[k], "id") != NaN
    ensures OnClick(s.alerts[k]).Some? ==>
      var t := AlertSlice.Reduce(s, OnClick(s.alerts[k]).value);
      && !AlertSlice.Unread(t.alerts[k])
      && t.unreadCount == s.unreadCount - 1
      && AlertSlice.Consistent(t)
  {
    var id := Get(s.alerts[k], "id");
    if AlertSlice.Unread(s.alerts[k]) {
      forall j | 0 <= j < k
        ensures !AlertSlice.IdIs(id)(s.alerts[j])
      {
        assert !StrictEq(Get(s.alerts[j], "id"), Get(s.alerts[k], "id"));
      }
      Seqs.FindIndexAt(AlertSlice.IdIs(id), s.alerts, k);
      AlertSlice.MarkAsReadEffect(s, id);
    }
  }

  /** "Mark all as read" is disabled when `unreadCount === 0`; in a consistent
      store that is exactly when no alert is unread. */
  function MarkAllDisabled(unreadCount: int): bool {
    unreadCount == 0
  }

  lemma MarkAllDisabledSpec(s: AlertSlice.State)
    requires AlertSlice.Consistent(s)
    ensures MarkAllDisabled(s.unreadCount) <==> forall i :: 0 <= i < |s.alerts| ==> !AlertSlice.Unread(s.alerts[i])
  {
    if MarkAllDisabled(s.unreadCount) {
      forall i | 0 <= i < |s.alerts|
        ensures !AlertSlice.Unread(s.alerts[i])
      {
        Seqs.CountSplit(AlertSlice.Unread, s.alerts, i);
      }
    } else {
      if forall i :: 0 <= i < |s.alerts| ==> !AlertSlice.Unread(s.alerts[i]) {
        Seqs.CountNone(AlertSlice.Unread, s.alerts);
      }
    }
  }

  /** Alerts are fetched only when the list is empty. */
  function ShouldFetch(alerts: seq<AlertSlice.Alert>): (b: bool)
    ensures b <==> alerts == []
  {
    |alerts| == 0
  }
}
