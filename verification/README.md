# Electricity dashboard: a Dafny model of its logic

The system is an electricity-consumption dashboard. A React/Redux front end
lets users upload spreadsheets of meter readings, view charts and predictions,
generate reports and manage alerts. Administrators manage users, device
categories and devices. A Django endpoint stores uploaded readings.

This project models the logic inside that system as pure Dafny functions over
immutable datatypes, and proves what each piece promises:

- **the spreadsheet validator** and the upload screen around it (`data_upload.dfy`);
- **the four Redux slices** as state machines: `alert_slice.dfy`, `admin_slice.dfy`,
  `user_slice.dfy` and `prediction_slice.dfy`. A reducer is a function
  `Reduce(state, action)`, and `ReduceAll` runs a sequence of actions;
- **the shared table component** (`table.dfy`): page slicing, branch choice, cells;
- **the administrator screens**: `user_management.dfy`, `category_management.dfy`
  and `device_management.dfy`, with shared pieces in `admin_crud.dfy`;
- **sign-in, registration and the route guard**: `login.dfy`, `registration.dfy`
  and `routes.dfy`;
- **the user screens' view models**: `alerts_view.dfy`, `admin_dashboard.dfy`,
  `user_dashboard.dfy`, `predictions_view.dfy`, `reports.dfy` and `charts.dfy`;
- **the server's upload handler** (`backend_upload.dfy`).

JavaScript values are modelled in `js.dfy`:

- `JsVal` covers `undefined`, `null`, booleans, finite numbers, NaN and strings.
- `Truthy` is ToBoolean, `Or` is `||`, and `StrictEq` is `===` (NaN equals nothing).
- A plain object is a `Record = map<string, JsVal>`. A missing key reads as
  `undefined`.
- `js.dfy` also gives an explicit model of `parseFloat`'s numeric-prefix rule.

`seqs.dfy` models `slice`, `filter`, `findIndex` and `map` with their lemmas.

Conventions:

- An awaited API call becomes a parameter holding its answer (`ApiResult`,
  `RegisterResult`, `UploadOutcome`).
- `window.confirm` becomes a boolean.
- `Date.parse` becomes a predicate parameter.
- A throwing evaluation becomes an `Option` or `Outcome` result (`None` / `Throws`).

## Model

| member | source | states |
|---|---|---|
| DataUpload.ValidateData | src/containers/user/DataUploadContainer.jsx:101-129 | An empty file yields exactly the one "File is empty" error. A non-empty file never yields it: every error is a column or row error. |
| DataUpload.MissingColumnsSpec | src/containers/user/DataUploadContainer.jsx:103-116 | Exactly the required columns absent from the first row's keys are reported, each once, in the order date, device, consumption. |
| DataUpload.RowErrorsSpec | src/containers/user/DataUploadContainer.jsx:119-126 | A row reports an invalid consumption and/or an invalid date, numbered index + 2, with the consumption error before the date error. |
| DataUpload.RowErrorsFromRanks | src/containers/user/DataUploadContainer.jsx:119-126 | Row errors follow row order, and all of them rank after the column errors. |
| DataUpload.RowErrorsFromConsumption | src/containers/user/DataUploadContainer.jsx:119-122 | Row n has a consumption error iff row n exists and its consumption cell is truthy and does not parse. |
| DataUpload.RowErrorsFromDate | src/containers/user/DataUploadContainer.jsx:119-125 | Row n has a date error iff row n exists and its date cell is truthy and `Date.parse` rejects it. |
| DataUpload.ValidateDataReportsExactly | src/containers/user/DataUploadContainer.jsx:101-129 | On a non-empty file the result contains exactly the expected column and row errors, in strictly increasing rank order. |
| DataUpload.ValidateDataIsTheOrderedListing | src/containers/user/DataUploadContainer.jsx:101-129 | The validator's list is the only ordered list of exactly the expected errors. |
| DataUpload.ValidateDataDependsOnlyOnCheckedCells | src/containers/user/DataUploadContainer.jsx:111-126 | Only the first row's keys and each row's consumption and date cells matter. Files that agree on those validate alike. |
| DataUpload.FalsyCellsPass | src/containers/user/DataUploadContainer.jsx:120-123 | Absent, empty or zero consumption and date cells produce no row error. |
| DataUpload.NumericPrefixPasses | src/containers/user/DataUploadContainer.jsx:120 | A consumption text that starts with a digit, such as "12abc", is accepted. |
| DataUpload.Preview | src/containers/user/DataUploadContainer.jsx:81 | The preview is the first min(5, n) decoded rows, in order. |
| DataUpload.SelectFileGates | src/containers/user/DataUploadContainer.jsx:45-96 | Choosing nothing changes nothing. A file of the wrong MIME type changes only the notice. After a decode failure the new file is selected, but the old errors and preview remain. |
| DataUpload.SelectFileDecoded | src/containers/user/DataUploadContainer.jsx:62-89 | A decoded file replaces the errors with the validator's result and the preview with the first rows, even when there are errors. The success notice appears iff there are no errors. |
| DataUpload.StartUpload | src/containers/user/DataUploadContainer.jsx:131-138 | Without a selected file, or with errors, the upload does nothing. Otherwise it marks the screen and the store as loading and clears the store error. The progress bar is left where it is. |
| DataUpload.ProgressStep | src/containers/user/DataUploadContainer.jsx:144-152 | One tick adds 10 below 90 and pins the bar at 90 from 90 up. |
| DataUpload.TicksFromZero | src/containers/user/DataUploadContainer.jsx:144-152 | From 0, n ticks show min(10n, 90), so the bar never passes 90 during the upload. |
| DataUpload.FailedUploadKeepsClimbing | src/containers/user/DataUploadContainer.jsx:131-185 | After a failure the bar is 0, but the interval is not cleared: n ticks later it shows min(10n, 90). A retry after nine or more ticks opens at 90. |
| DataUpload.FinishUploadEffects | src/containers/user/DataUploadContainer.jsx:154-185 | Success fills the bar to 100 and appends the response to the store's uploaded files. Failure resets the bar and stores the server's message, or "Upload failed". |
| DataUpload.RemoveFile | src/containers/user/DataUploadContainer.jsx:188-256 | After removing the file, uploading is impossible, and the Upload button is disabled only while an upload is running. |
| AlertSlice.SetAlertsEstablishes | src/store/slices/alertSlice.js:12-15 | Loading a list makes the counter equal the number of unread alerts, whatever the previous state. |
| AlertSlice.AddAlertEffect | src/store/slices/alertSlice.js:16-19 | The alert is prepended and the counter always goes up by one. From a consistent state, consistency survives iff the new alert is unread. |
| AlertSlice.MarkAsReadEffect | src/store/slices/alertSlice.js:20-26 | Only the first alert with the id changes, and only if it is unread; the counter then drops by exactly one. Otherwise nothing changes. Consistency is preserved. |
| AlertSlice.MarkAllAsReadEffect | src/store/slices/alertSlice.js:27-32 | Every alert is marked read, with length and order unchanged, and the counter becomes 0. |
| AlertSlice.DeleteCountBound | src/store/slices/alertSlice.js:33-39 | The counter is adjusted only for the first match, while every match is removed. The unread alerts left never exceed the adjusted counter. |
| AlertSlice.DeleteCountExact | src/store/slices/alertSlice.js:33-39 | With unique ids, the first-match adjustment equals the number of unread alerts removed. |
| AlertSlice.DeleteAlertEffect | src/store/slices/alertSlice.js:33-39 | Exactly the alerts without the id remain. The counter stays an upper bound, and with unique ids it stays exact. |
| AlertSlice.DuplicateIdsBreakDelete | src/store/slices/alertSlice.js:33-39 | Two unread alerts with one id and a counter of 2 end as no alerts with a counter of 1: the invariant needs unique ids. |
| AlertSlice.ClearAllAlertsEffect | src/store/slices/alertSlice.js:40-43 | The list is emptied and the counter set to 0. |
| AlertSlice.ReduceKeepsCover | src/store/slices/alertSlice.js:12-43 | Every reducer keeps the counter at or above the number of unread alerts. |
| AlertSlice.CounterNeverNegative | src/store/slices/alertSlice.js:12-43 | From the initial state, any run of actions leaves the counter non-negative and covering the unread alerts. |
| AlertSlice.ReduceKeepsUnique | src/store/slices/alertSlice.js:12-43 | Under the discipline (unique ids loaded, fresh unread alerts added), every reducer keeps ids unique. |
| AlertSlice.DisciplinedRunsStayConsistent | src/store/slices/alertSlice.js:12-43 | Under the discipline, every reachable counter equals the number of unread alerts and lies between 0 and the list length. |
| AdminSlice.ReduceFrames | src/store/slices/adminSlice.js:17-87 | A list action changes only its own list. The analytics, loading and error reducers change only their own field. |
| AdminSlice.SetAndAddEffect | src/store/slices/adminSlice.js:17-60 | `set*` replaces its list. `add*` appends at the end: the length grows by one and the old list is a prefix. |
| AdminSlice.ReplaceEffect | src/store/slices/adminSlice.js:23-68 | `update*` keeps the length, overwrites only the first element whose `_id` is `===` the payload's, and changes nothing when none matches. |
| AdminSlice.ReplaceIdempotent | src/store/slices/adminSlice.js:23-28 | Applying the same update twice equals applying it once. |
| AdminSlice.ReplaceWithoutKey | src/store/slices/adminSlice.js:24 | A payload without `_id` (the mock update returns `id`) overwrites the first element that also lacks `_id`. A NaN `_id` overwrites nothing. |
| AdminSlice.RemoveEffect | src/store/slices/adminSlice.js:29-71 | `delete*` keeps exactly the elements whose `_id` is not the id, in order. The kept and removed counts sum to the length. |
| AdminSlice.RemoveIdempotent | src/store/slices/adminSlice.js:29-31 | Deleting twice equals deleting once. |
| AdminSlice.RemoveUndefined | src/store/slices/adminSlice.js:29-31 | Deleting with an undefined id removes every element without `_id`. |
| UserSlice.ReducerFrames | src/store/slices/userSlice.js:22-57 | Start sets loading and clears the error. Success clears loading and appends the file without touching the error. Failure sets the error. Each setter, `addReport` and `clearError` changes only its own field. |
| UserSlice.HistoriesOnlyGrow | src/store/slices/userSlice.js:26-53 | Over any run of actions, uploaded files and reports keep the old contents as a prefix and grow by exactly the number of success / add-report actions. |
| PredictionSlice.ReducerFrames | src/store/slices/predictionSlice.js:14-35 | Start sets loading and clears the error. Success sets the current prediction and appends one stamped entry. Failure records the error. `clearPrediction` keeps the history. `clearError` clears only the error. |
| PredictionSlice.StampKeepsPayload | src/store/slices/predictionSlice.js:21-24 | The history entry is the payload with `timestamp` added or overwritten, and nothing else changed. |
| PredictionSlice.HistoryAppendOnly | src/store/slices/predictionSlice.js:13-36 | Over any run of actions, the old history is a prefix, and the added suffix is one stamped entry per success, in order. |
| Table.WithDefaults | src/components/common/Table.jsx:26-35 | Absent props default to no columns, no rows, not loading, page 0, 10 rows per page and "No data available". Given props are kept. |
| Table.RenderBranches | src/components/common/Table.jsx:59-93 | Loading shows the spinner even with rows. The empty message shows iff not loading and there are no rows. The footer shows iff rows are shown. Cell (i, j) is `render(row)` or `row[id]` of the i-th visible row. |
| Table.PageWindow | src/components/common/Table.jsx:78-79 | A page holds at most `rowsPerPage` rows: the contiguous rows starting at `page * rowsPerPage`, or none past the end. |
| Table.PagesUpToIsPrefix | src/components/common/Table.jsx:79 | Pages 0 .. k-1 laid end to end are the first min(k * rowsPerPage, n) rows. |
| Table.PagesCoverRows | src/components/common/Table.jsx:79-98 | With a positive page size, the footer's pages laid end to end are exactly the rows. |
| Table.RowOnOnePage | src/components/common/Table.jsx:79 | Row i lies in page q's window iff q = i div rowsPerPage, at offset i mod rowsPerPage, so pages are disjoint. |
| AdminCrud.CopyFields | src/containers/admin/UserManagementContainer.jsx:72-78 | The prefilled form has exactly the listed fields, each copied from the record. |
| AdminCrud.FormChange | src/containers/admin/UserManagementContainer.jsx:97-99 | Only the named field changes. |
| AdminCrud.SaveAction | src/containers/admin/UserManagementContainer.jsx:103-121 | Editing dispatches `update*` with the response; adding dispatches `add*`. |
| AdminCrud.FieldIncludes | src/containers/admin/UserManagementContainer.jsx:154-156 | A field hits iff it is a string containing the query, ignoring case. It throws iff it is not a string and optional chaining does not excuse it. |
| AdminCrud.FilterOrThrowSpec | src/containers/admin/UserManagementContainer.jsx:152-157 | The filter throws iff some record's test throws. Otherwise it is the order-preserving filter of the hits. |
| AdminCrud.DeleteAction | src/containers/admin/UserManagementContainer.jsx:132-136 | `delete*` is dispatched iff the user confirmed and the API call succeeded. |
| UserManagement.UserTestSpec | src/containers/admin/UserManagementContainer.jsx:152-157 | For a user whose searched fields are strings or absent, the test never throws, and it hits iff first name, last name or email contains the query ignoring case. |
| UserManagement.FilteredUsersSpec | src/containers/admin/UserManagementContainer.jsx:152-157 | The filtered list is an order-preserving subsequence holding exactly the matching users. An absent field never matches. |
| UserManagement.EmptyQueryKeepsPresent | src/containers/admin/UserManagementContainer.jsx:152-157 | An empty query keeps exactly the users with at least one searched field present as a string. |
| UserManagement.NonStringFieldThrows | src/containers/admin/UserManagementContainer.jsx:154 | A numeric first name makes the filter throw. |
| UserManagement.OpenUserDialog | src/containers/admin/UserManagementContainer.jsx:69-90 | Adding resets the form to empty names and email, role `user` and status `active`. Editing copies exactly the five fields. The dialog opens and nothing else changes. |
| UserManagement.CloseDialog | src/containers/admin/UserManagementContainer.jsx:92-95 | The dialog closes and forgets the edited user; the form is kept. |
| UserManagement.ChangeField | src/containers/admin/UserManagementContainer.jsx:97-99 | Only the named form field changes. |
| UserManagement.Save | src/containers/admin/UserManagementContainer.jsx:101-130 | Success dispatches update or add by editing state, shows the matching message and closes the dialog. Failure dispatches nothing, leaves the dialog open and shows the server's message or "Failed to save user". |
| UserManagement.SaveUpdatesStore | src/containers/admin/UserManagementContainer.jsx:103-121 | A successful edit replaces the first user with the response's `_id`; a successful add appends the response. |
| UserManagement.Delete | src/containers/admin/UserManagementContainer.jsx:132-150 | Without confirmation nothing happens. Otherwise the store action plus "User deleted successfully", or "Failed to delete user" with no action. |
| UserManagement.RowsPerPageChange | src/containers/admin/UserManagementContainer.jsx:263-267 | Changing the page size returns to page 0 and changes nothing else. |
| UserManagement.PageChange | src/containers/admin/UserManagementContainer.jsx:263 | Only the page changes. |
| CategoryManagement.FilteredCategoriesSpec | src/containers/admin/CategoryManagementContainer.jsx:161-163 | The filter throws iff some category's name is not a string. Otherwise the table shows exactly the categories whose name contains the query ignoring case, in order. |
| CategoryManagement.OpenCategoryDialog | src/containers/admin/CategoryManagementContainer.jsx:55-64 | Editing copies the name, with the description defaulting to "" when falsy. Adding resets both to "". |
| CategoryManagement.Save | src/containers/admin/CategoryManagementContainer.jsx:66-91 | Only success dispatches, closes the dialog and shows "Category saved successfully". Failure shows "Error saving category". |
| CategoryManagement.Delete | src/containers/admin/CategoryManagementContainer.jsx:93-106 | The action is dispatched only after confirmation and API success. "Error deleting category" appears only when a confirmed call fails. |
| CategoryManagement.DeleteStoreEffect | src/containers/admin/CategoryManagementContainer.jsx:93-106 | An unconfirmed or failed delete leaves the store's categories unchanged. A successful one removes every category with the id. |
| DeviceManagement.CategoryName | src/containers/admin/DeviceManagementContainer.jsx:109-110 | The category column is never blank. |
| DeviceManagement.CategoryNameSpec | src/containers/admin/DeviceManagementContainer.jsx:109-110 | The column shows the name of the first category whose `_id` is `===` the row's `categoryId`, or "N/A" when that name is falsy. |
| DeviceManagement.CategoryNameMissing | src/containers/admin/DeviceManagementContainer.jsx:110 | With no matching category the column shows "N/A". |
| DeviceManagement.OpenDeviceDialog | src/containers/admin/DeviceManagementContainer.jsx:60-81 | Adding resets name, category, power and hours to "" with status `active`. Editing copies exactly those five fields. |
| DeviceManagement.Save | src/containers/admin/DeviceManagementContainer.jsx:83-101 | Success dispatches update or add, closes the dialog and shows "Device saved". Failure shows "Error saving device" with no action. |
| DeviceManagement.Delete | src/containers/admin/DeviceManagementContainer.jsx:136-143 | The delete is dispatched iff the user confirmed and the API call succeeded. No notice is shown either way. |
| Registration.Change | src/containers/RegistrationContainer.jsx:48-55 | Only the named field changes, and any validation error is cleared. |
| Registration.Validate | src/containers/RegistrationContainer.jsx:61-69 | Both checks pass iff the passwords match and the password has at least 6 UTF-16 units. A mismatch reports "Passwords do not match"; otherwise a short password reports "Password must be at least 6 characters". |
| Registration.MismatchWins | src/containers/RegistrationContainer.jsx:61-69 | A mismatched password that is also short reports the mismatch. |
| Registration.Payload | src/containers/RegistrationContainer.jsx:74-79 | The request carries exactly first name, last name, email and password, never the confirmation. |
| Registration.Submit | src/containers/RegistrationContainer.jsx:57-96 | A failed check sets the error and sends nothing. Otherwise the payload is sent. Success dispatches the user and token and goes to `/user/dashboard`. Failure dispatches the server's message or "Registration failed. Try again." |
| Registration.RegisterOnlyWhenValid | src/containers/RegistrationContainer.jsx:61-79 | The API is called iff both checks pass, and then with the confirmed password. |
| Registration.DisplayedError | src/containers/RegistrationContainer.jsx:157-159 | The alert shows iff either error is set, and the validation error wins over the store error. |
| Login.RoleChange | src/containers/LoginContainer.jsx:54-58 | A null toggle leaves the form unchanged; any other role replaces the role. |
| Login.MockNameSpec | src/containers/LoginContainer.jsx:70 | The name is the text before the first "@" when that text is non-empty, and "User" otherwise. |
| Login.MockTokenRoundTrip | src/containers/LoginContainer.jsx:78 | The token is "mock_jwt_token_" followed by the role, which reads back from it, so distinct roles give distinct tokens. |
| Login.MockUser | src/containers/LoginContainer.jsx:69-73 | The mock user has the derived name, the email and id "mock_id_123". |
| Login.Submit | src/containers/LoginContainer.jsx:60-88 | Sign-in dispatches start then success with the mock user, token and unchanged role. It navigates to `/admin/dashboard` for `admin` and to `/user/dashboard` otherwise. |
| Login.SubmitLandsOnDashboard | src/containers/LoginContainer.jsx:84-88 | The sign-in target is the router's dashboard for the role, and it renders for `user` and `admin`. |
| Routes.DashboardFor | src/routes/AppRoutes.jsx:38-130 | The dashboard is the admin one iff the role is `===` "admin". |
| Routes.Guard | src/routes/AppRoutes.jsx:28-45 | Unauthenticated visitors go to `/login` whatever the role. When a role is required, any other role goes to its own dashboard. Otherwise, including when no role is required, the children render. |
| Routes.PagesAreGuarded | src/routes/AppRoutes.jsx:28-122 | An area's page renders only for an authenticated visitor with that area's role. The public pages render only when not signed in. |
| Routes.PublicRoutes | src/routes/AppRoutes.jsx:54-137 | Signed in, `/login` and `/` go to the role's dashboard and `/register` always to `/user/dashboard`. Otherwise the public pages show and `/` goes to `/login`. |
| Routes.KnownRolesSettle | src/routes/AppRoutes.jsx:28-140 | For visitors not signed in and for roles `user` and `admin`, every path reaches a page within three redirects. |
| Routes.UnknownRoleLoops | src/routes/AppRoutes.jsx:35-98 | A signed-in role other than `user` or `admin` is redirected from every `/user/*` path to `/user/dashboard`, forever: no page ever renders. |
| AlertsView.SeverityColor | src/containers/user/AlertsContainer.jsx:73-87 | The colour is defined iff the severity is a string, absent or null; any other value makes `toLowerCase` throw. |
| AlertsView.SeverityColorSpec | src/containers/user/AlertsContainer.jsx:73-87 | Ignoring case, high or critical gives error, medium or warning gives warning, and low or info gives info. Anything else, including absent, gives default. |
| AlertsView.SeverityColorIgnoresCase | src/containers/user/AlertsContainer.jsx:74 | Upper- or lower-casing the severity does not change the colour. |
| AlertsView.AlertIconSpec | src/containers/user/AlertsContainer.jsx:60-71 | The icon depends only on the type: bolt for spike, warning for threshold, bulb for suggestion. |
| AlertsView.Title | src/containers/user/AlertsContainer.jsx:201 | A missing or empty title shows as "Observation". |
| AlertsView.OnClick | src/containers/user/AlertsContainer.jsx:172-174 | A click dispatches `markAsRead(id)` iff the alert is unread. |
| AlertsView.ClickMarksThatAlert | src/containers/user/AlertsContainer.jsx:172-174 | With unique ids, clicking an unread alert marks exactly that alert read and lowers the counter by one. |
| AlertsView.MarkAllDisabledSpec | src/containers/user/AlertsContainer.jsx:126 | In a consistent store, "Mark all as read" is disabled iff no alert is unread. |
| AlertsView.ShouldFetch | src/containers/user/AlertsContainer.jsx:55-57 | Alerts are fetched only when the list is empty. |
| Charts.PluckAppend | src/containers/user/UserDashboardContainer.jsx:123-127 | Mapping records to one field keeps their order: it commutes with concatenation. |
| Charts.SlicesArePluckedPairs | src/containers/user/UserDashboardContainer.jsx:115-120 | Pie slices pair the name and value columns one to one. |
| AdminDashboard.Stats | src/containers/admin/AdminDashboardContainer.jsx:54-60 | Each of the five figures is taken from the response when truthy, and is 0 otherwise. |
| AdminDashboard.StatsNeverBlank | src/containers/admin/AdminDashboardContainer.jsx:54-60 | A figure is never undefined, null, NaN or "": it is truthy or 0. |
| AdminDashboard.UserGrowthSpec | src/containers/admin/AdminDashboardContainer.jsx:63-73 | One "New Users" series whose data line up with the months, in order. Both are empty when the growth list is absent. |
| AdminDashboard.CategoryDistribution | src/containers/admin/AdminDashboardContainer.jsx:76-81 | One slice per entry, with categoryName as name and count as value. The result is empty when the list is absent. |
| AdminDashboard.AccuracyBandSpec | src/containers/admin/AdminDashboardContainer.jsx:112-118 | At least 90 is success, 75 up to 90 is warning, below 75 is error. The bands are exhaustive and disjoint, a higher accuracy never gets a worse band, and NaN is error. |
| UserDashboard.DeviceData | src/containers/user/UserDashboardContainer.jsx:115-120 | One slice per device, from deviceName and consumption, in order. An absent list gives []. |
| UserDashboard.TrendData | src/containers/user/UserDashboardContainer.jsx:122-132 | The categories are the dates, and the single "Daily Consumption" series holds the consumptions. |
| UserDashboard.TrendLinesUp | src/containers/user/UserDashboardContainer.jsx:122-132 | Dates and consumptions both have one entry per day and pair up by index. |
| UserDashboard.ComparisonLengths | src/containers/user/UserDashboardContainer.jsx:134-139 | Weeks and actual values have equal length. Predicted values come from another list, and one week with no predictions leaves the lengths unequal. |
| UserDashboard.LoadFailedNotice | src/containers/user/UserDashboardContainer.jsx:103-111 | The error notice shows the server's message, or "Failed to load dashboard data". |
| PredictionsView.PeriodData | src/containers/user/PredictionsContainer.jsx:78 | The period's list is used when present, even if empty; otherwise []. |
| PredictionsView.ChartSpec | src/containers/user/PredictionsContainer.jsx:77-89 | One category and one predicted value per item, in order. The category is the date, or the label when the date is falsy. |
| PredictionsView.PeriodChange | src/containers/user/PredictionsContainer.jsx:91-96 | A null toggle is ignored. Otherwise the period changes and the chart is rebuilt for it. |
| PredictionsView.ModelChange | src/containers/user/PredictionsContainer.jsx:98-102 | A null toggle is ignored. Otherwise the model changes. |
| PredictionsView.Title | src/containers/user/PredictionsContainer.jsx:170-172 | The title is the period with its first letter upper-cased, then " Forecast". |
| PredictionsView.TitleDaily | src/containers/user/PredictionsContainer.jsx:170-172 | "daily" is titled "Daily Forecast". |
| PredictionsView.TitleWeekly | src/containers/user/PredictionsContainer.jsx:170-172 | "weekly" is titled "Weekly Forecast". |
| PredictionsView.TitleMonthly | src/containers/user/PredictionsContainer.jsx:170-172 | "monthly" is titled "Monthly Forecast". |
| PredictionsView.Direction | src/containers/user/PredictionsContainer.jsx:195-197 | "increase" iff the change is positive; "decrease" for zero, negative or absent. |
| PredictionsView.Magnitude | src/containers/user/PredictionsContainer.jsx:198 | The magnitude is the absolute change, or 0 when absent. |
| PredictionsView.SummaryRecoversChange | src/containers/user/PredictionsContainer.jsx:195-198 | Direction and magnitude together give back the signed change. |
| PredictionsView.MonthlyTotal | src/containers/user/PredictionsContainer.jsx:190 | The monthly total falls back to "0.00". |
| PredictionsView.Confidence | src/containers/user/PredictionsContainer.jsx:218 | The confidence falls back to "92". |
| PredictionsView.MeanAbsoluteError | src/containers/user/PredictionsContainer.jsx:224 | The mean absolute error falls back to "1.2". |
| Reports.PdfRow | src/containers/user/ReportsContainer.jsx:152-157 | A PDF row is date or "N/A", device or "N/A", category or "General", and consumption or 0 in kWh. |
| Reports.PdfBodySpec | src/containers/user/ReportsContainer.jsx:152-162 | The body is the first min(20, n) rows, each mapped, in order, and no text cell is blank. |
| Reports.PdfBodyIgnoresTail | src/containers/user/ReportsContainer.jsx:162 | Rows after the twentieth never reach the PDF. |
| Reports.GeneratedFor | src/containers/user/ReportsContainer.jsx:131 | "Generated for" shows the first name, else the name, else "User". |
| Reports.GenerateExcel | src/containers/user/ReportsContainer.jsx:200-212 | The workbook has the consumption sheet, plus a "Predictions" sheet iff the daily predictions are present. |
| Reports.Generate | src/containers/user/ReportsContainer.jsx:214-233 | Format "pdf" gives the PDF and any other format the workbook. The notice reports success unless the writer throws. |
| Reports.GenerateDisabled | src/containers/user/ReportsContainer.jsx:336 | Generate is disabled iff there is no consumption data. |
| Reports.FetchSettles | src/containers/user/ReportsContainer.jsx:59-79 | Data is fetched only while the store has none. Once a non-empty response is stored, the fetch stops and the button is enabled. |
| BackendUpload.Category | backend/apps/consumption/views.py:30 | The category is the row's cell when the sheet has the column, even if blank, and "General" only when it has none. |
| BackendUpload.BuildAllSpec | backend/apps/consumption/views.py:24-34 | Conversion succeeds iff every row converts, and then gives one record per row, in row order. |
| BackendUpload.BuildAllFirstFailure | backend/apps/consumption/views.py:24-41 | A failed conversion reports the exception of the first failing row; all earlier rows converted. |
| BackendUpload.RejectedRequests | backend/apps/consumption/views.py:10-21 | No file gives 400 "No file uploaded". A sheet missing any required column gives one 400 naming all three. Neither saves anything. |
| BackendUpload.AllOrNothing | backend/apps/consumption/views.py:24-41 | A 201 saved one record per row, in order, with the row's device and category and the requesting user, and reports that count. Any other response saved nothing. |
| BackendUpload.BadRowAbortsAll | backend/apps/consumption/views.py:24-41 | One row that fails to convert gives a 500 and saves no rows, not even the earlier ones. |
| BackendUpload.SuccessMessageCount | backend/apps/consumption/views.py:38 | The count in "Successfully uploaded N records" determines N. |

## Left out

- File reading and decoding are not modelled: `FileReader`, `XLSX.read`,
  `sheet_to_json`, `json_to_sheet`, `writeFile`, jsPDF and `pd.read_excel`.
  Decoded rows are inputs. A read that fails is an outcome parameter. The
  PDF and workbook are modelled as the data handed to the writer.
- Conversions are parameters, not models: `Date.parse`, `pd.to_datetime` and
  Python's `float()`. Each is a parameter that accepts a value or raises.
  `parseFloat` alone is modelled, through its numeric-prefix rule.
- Numbers are finite reals or NaN. Infinity is not modelled, and neither are
  `toFixed` or number-to-string formatting. A PDF consumption cell is kept as
  the value shown before " kWh".
- Case mapping covers the ASCII letters only. `toLowerCase` and `toUpperCase`
  on other letters are outside the model.
- Timers and asynchrony are not modelled: `setInterval`, `setTimeout`, awaits
  and the 800 ms mock delay. Each handler is split into its synchronous steps.
  The progress bar is modelled by its step function and the number of ticks.
  The interval keeps running after a failed upload, because the failure branch
  cannot reach it. `DataUpload.FailedUploadKeepsClimbing` states the effect on
  the bar; when the ticks happen relative to other events is not modelled.
- The mock API layer (`src/services/api/*.js`) and `Math.random` ids are not
  modelled. The admin screens' fetch handlers and the dashboards' fetch
  sequences are not modelled either: they only move mock responses into the
  store. The one consequence of the mock shapes that matters is stated as a
  lemma (`AdminSlice.ReplaceWithoutKey`, `AdminSlice.RemoveUndefined`).
- The auth slice is not part of this model. Sign-in and registration are
  modelled up to the actions they dispatch and the path they navigate to.
- Rendering, MUI, Highcharts, theming and layout components are not
  modelled. The chip label upper-casing and the recent-predictions table are
  display only.
- Charts.OrEmpty: an absent chart list is `None`, and `null` is not
  represented. `list?.map(…) || []` (the admin dashboard) shows an empty chart
  for `null`. A default parameter `list = []` (the user dashboard) keeps
  `null`, and `.map` then throws into the "Failed to load dashboard data"
  notice. The model covers only lists and `undefined`.
- PredictionsView.Direction: the percentage change is taken as a number or
  absent. JavaScript's coercion of a string in `> 0` is not modelled, so
  `"5"` counting as an increase is outside the model.
- PredictionsView.Magnitude: likewise, `Math.abs` of a non-numeric string
  (NaN) is not modelled.
- Router path matching is abstracted into the `Path` datatype. The route
  table's decisions are modelled on those paths.
- The ML pipeline, the prediction endpoint, the statistics views,
  authentication views, URL table and the Django model declarations are not
  part of this model. The upload record only reuses the model's field names.
- Database behaviour is reduced to one possible error. `bulk_create` runs its
  insert in one transaction, so it either saves every record or raises; that
  single error is a parameter.
- Login.Submit: the sign-in's `catch` branch is left out. Nothing in the
  `try` block can throw once the mock delay is modelled away.
- AdminDashboard.AccuracyBandSpec: the row's accuracy is taken as already
  converted to a number (`None` for NaN). JavaScript's conversion of strings
  in `>=` is not modelled.
- DataUpload.RowErrorsFromDate: `Date.parse` is an arbitrary predicate, so
  the date check is proved for every possible parser, not for a specific one.
- Table.PagesCoverRows: stated for a positive page size. A page size of 0
  shows no rows on any page and the footer offers no pages.
- Registration.Validate: the minimum length counts UTF-16 code units, as
  JavaScript's `length` does. Characters outside the Basic Multilingual Plane
  count twice.
