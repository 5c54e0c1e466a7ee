# healthcare-client, modelled in Dafny

This project models the rule-bearing core of the healthcare-client booking front end, a React application where patients find doctors, book appointment slots, sign in and manage their profile. Most of that application is markup and HTTP calls. The parts modelled here are the small deterministic rules inside it:

- **Slot and time arithmetic.** The hourly slot list of the time picker and its disabled check (`PickerTime`). The calendar-day rule of the date picker: weekends, booking window and listed days (`PickerDate`). The "+59 minutes" end-time of a booked slot (`StartEndTime`). The 12-hour range label on doctor cards (`TimeRangeLabel`). All of them are built on seconds-of-day (`Clock`) and text helpers (`Text`).
- **The authentication dialog** (`AuthDialog`). This is a class holding the dialog mode, the e-mail awaiting verification, the password toggle, the resend cooldown counter and the form values. Every request it issues is appended to a log. It relies on three lookup tables with a LOGIN fallback (`AuthDialogInfo`, `AuthDialogContent`, `AuthDialogSchemas`) and on the mode-to-request dispatch (`ApiAuth`).
- **Credential stores and the route guard.** Two store variants with their setters and persisted projection: `AuthContext` for `src/context/auth.ts` and `ZustandAuth` for `src/zustand/auth.ts`. The guard is `PrivateRoute`.
- **Page helpers.**
  - The doctors page: the specialty filter, the navigation path and the cards.
  - The hospital map: one geocode query per hospital, the marker selection and the view choice.
  - The cancel-appointment dialog and its ordered effects.
  - The appointments table: status colour and actions, global search, pagination requests and the range label.
  - The profile page: validation, reset from server data, date and insurance conversions, and the create-or-update choice.

Pure code is modelled as functions and lemmas. Code that updates component state step by step is modelled as classes with `modifies` clauses:
- the dialog;
- the two stores;
- the appointments table's pagination, filter and column state;
- the profile page's editing state.

The slot-generating loop is a method with a loop invariant. Effects are recorded as data in logs: requests, mutations and the cancel dialog's calls. Nothing is sent.

Two places in the source behave differently from what the surrounding code evidently intends (see "## Findings"). For each, the model states the as-written behaviour in a lemma. The rest of the model then uses the corrected definition:
- the dialog renders a verification-code input in verify mode;
- the appointments search skips the actions column.

## Model

| member | source | states |
|---|---|---|
| Clock.ParseFormatHms | src/helpers/prettyTimeRange.ts:5-10 | Reading back a zero-padded `HH:mm:ss` string gives the same second of the day. |
| Clock.FormatHmsInjective | src/helpers/formatStartAndEndTime.ts:13-17 | Two times give the same `HH:mm:ss` text exactly when they are the same time. |
| Clock.Read12Format12 | src/helpers/prettyTimeRange.ts:9-10 | Reading back a `hh:mm a` label gives the time with its seconds dropped. |
| Clock.Format12Hours | src/helpers/prettyTimeRange.ts:9-10 | Hours 0–11 show AM and 12–23 show PM. Hours 0 and 12 both show `12`, and hours 13–23 show hour − 12. Minutes are kept. |
| Clock.FormatShort12Unpadded | src/components/PickerTime.tsx:36 | The `h:mm a` slot label is the `hh:mm a` label without its leading zero, and never starts with `0`. |
| StartEndTime.FormatStartAndEndTime | src/helpers/formatStartAndEndTime.ts:1-19 | The start is the input unchanged. The end has the `HH:mm:ss` shape when the three fields are signed decimal numbers and both dates lie in the `Date` range. It is `NaN:NaN:NaN` otherwise. |
| StartEndTime.EndTimeOfWellFormed | src/helpers/formatStartAndEndTime.ts:3-17 | For a well-formed time, the end reads back as the time plus 3540 seconds, modulo one day. |
| StartEndTime.EndTimeFormatted | src/helpers/formatStartAndEndTime.ts:10-17 | The end text is the zero-padded formatting of (time + 59 min) mod 24 h. |
| StartEndTime.EndKeepsSeconds | src/helpers/formatStartAndEndTime.ts:11-16 | The end's seconds field equals the input's seconds field. |
| StartEndTime.SameDayEnd | src/helpers/formatStartAndEndTime.ts:11-17 | Without wrap-around, the end is exactly the time 59 minutes later. |
| StartEndTime.OnTheHour | src/helpers/formatStartAndEndTime.ts:11-17 | `HH:00:00` ends at `HH:59:00` with the same hour. |
| StartEndTime.WrapsPastMidnight | src/helpers/formatStartAndEndTime.ts:10-17 | `23:30:00` ends at `00:29:00`. |
| StartEndTime.NotANumberField | src/helpers/formatStartAndEndTime.ts:3-6 | A non-numeric field makes the end `NaN:NaN:NaN`. |
| StartEndTime.MissingField | src/helpers/formatStartAndEndTime.ts:3-6 | An input with only two fields makes the end `NaN:NaN:NaN`. |
| StartEndTime.EmptyFieldsAreZero | src/helpers/formatStartAndEndTime.ts:3-6 | Empty fields count as zero, as `Number("")` does, so `::` ends at `00:59:00`. |
| StartEndTime.NegativeHourRollsBack | src/helpers/formatStartAndEndTime.ts:4-16 | A negative hour `-h`, for h from 1 to 24, goes back into the previous day. The end is hour 24 - h at `:59:00`. |
| StartEndTime.MinusOneHour | src/helpers/formatStartAndEndTime.ts:4-16 | `-1:00:00` ends at `23:59:00`. |
| StartEndTime.HourBeyondDateRange | src/helpers/formatStartAndEndTime.ts:10-12 | An hour whose time lies past the range of `Date` gives `NaN:NaN:NaN`, whatever the current day. |
| TimeRangeLabel.RangeReadsBack | src/helpers/prettyTimeRange.ts:3-13 | The label is the start as `hh:mm a`, then space–en dash–space, then the end. Each side reads back as its time without seconds. |
| TimeRangeLabel.UnparsableEnd | src/helpers/prettyTimeRange.ts:5-10 | A label exists exactly when both inputs parse as `HH:mm:ss`. |
| TimeRangeLabel.NineToFive | src/helpers/prettyTimeRange.ts:9-12 | `09:00:00`, `17:00:00` gives `09:00 AM – 05:00 PM`. |
| TimeRangeLabel.FiveToNine | src/helpers/prettyTimeRange.ts:3-13 | The two ends are formatted independently: a reversed range is labelled as given. |
| PickerTime.OptionIsFormatted | src/components/PickerTime.tsx:32-36 | A slot's value is the `HH:mm:ss` formatting of its hour on the hour, and its label is the `h:mm a` formatting of the same time. |
| PickerTime.OptionReadsBack | src/components/PickerTime.tsx:32-37 | A slot's value reads back as its hour on the hour. Its label does not start with `0`. |
| PickerTime.HourlyValues | src/components/PickerTime.tsx:30-38 | The i-th slot's value reads back as hour 8 + i on the hour, and its label has no leading zero. |
| PickerTime.HourlyOptions | src/components/PickerTime.tsx:30-38 | There are nine slots, for hours 8 to 16 in order, each the option for its hour. |
| PickerTime.TimeOptions | src/components/PickerTime.tsx:30-38 | The push loop produces exactly the hourly slot list. |
| PickerTime.ValuesIncreasing | src/components/PickerTime.tsx:31-38 | Slot values strictly increase, so they are distinct keys. |
| PickerTime.OptionExamples | src/components/PickerTime.tsx:31-37 | The slots include `08:00:00`/`8:00 AM`, `16:00:00`, `12:00 PM` and `1:00 PM`. |
| PickerTime.NothingDisabledByDefault | src/components/PickerTime.tsx:24-27 | With the default empty list, no slot is disabled. |
| PickerTime.LabelEntriesDisableNothing | src/components/PickerTime.tsx:63-67 | Entries in label form, which contain a space, never disable a slot, because slots are matched by value. |
| PickerTime.BookingPageListDisablesNothing | src/pages/Appointment.tsx:59 | The booking page's `12:00 PM`/`12:30 PM` list disables no slot. |
| PickerDate.EnabledIff | src/components/PickerDate.tsx:42-53 | A day is enabled exactly when it passes all three rules: not a weekend if weekends are off, inside the window if one applies, and not listed. |
| PickerDate.WeekendsDisabled | src/components/PickerDate.tsx:43-44 | With weekends off, Saturdays and Sundays are disabled. |
| PickerDate.WindowBoundsInclusive | src/components/PickerDate.tsx:40-47 | Today and today + N pass the window rule. The day before today and the day after today + N are disabled. |
| PickerDate.NoWindowWithoutAmount | src/components/PickerDate.tsx:40-47 | An absent or zero amount applies no window. The 30-day default is computed but unused. |
| PickerDate.ListedDisabled | src/components/PickerDate.tsx:51 | A listed day is disabled. |
| PickerDate.DefaultsDisableNothing | src/components/PickerDate.tsx:30-53 | With every prop at its default, no day is disabled. |
| PickerDate.FiveDaysAWeek | src/components/PickerDate.tsx:43-44 | With weekends off, any seven consecutive days have exactly five enabled. |
| PickerDate.WindowOffersDays | src/components/PickerDate.tsx:40-47 | A window of N days enables every day from today through today + N. |
| AuthTypes.ValueInjective | src/constants/index.ts:1-7 | Each dialog mode has its own string value. |
| AuthDialogInfo.ResolveAuthDialogInfo | src/helpers/resolveAuthDialogInfo.ts:43-45 | The result is always a table entry, every default value is empty, and it has an e-mail or a code field. |
| AuthDialogInfo.EntryPerMode | src/helpers/resolveAuthDialogInfo.ts:3-45 | Every mode except RESEND_CODE has its own entry. RESEND_CODE falls back to LOGIN's. |
| AuthDialogInfo.ButtonTexts | src/helpers/resolveAuthDialogInfo.ts:3-45 | The button texts are Login, Register, Reset password and Verify. |
| AuthDialogInfo.DefaultFields | src/helpers/resolveAuthDialogInfo.ts:3-45 | The default field sets are: LOGIN {email, password}; REGISTER adds fullName; FORGOT_PASSWORD {email}; VERIFY_ACCOUNT {verificationCode}. |
| AuthDialogContent.ResolveAuthDialogContent | src/helpers/resolveAuthDialogContent.ts:28-30 | One to three distinct fields, each a content name, with the input type fixed by its name. |
| AuthDialogContent.FieldsPerMode | src/helpers/resolveAuthDialogContent.ts:22-26 | The inputs are: LOGIN [email, password]; REGISTER [fullName, email, password]; FORGOT_PASSWORD [email]. |
| AuthDialogContent.MissingModesFallBack | src/helpers/resolveAuthDialogContent.ts:22-30 | VERIFY_ACCOUNT and RESEND_CODE have no entry and get LOGIN's inputs. |
| AuthDialogContent.NoCodeInput | src/helpers/resolveAuthDialogContent.ts:3-30 | No mode renders a verificationCode input. |
| AuthDialogContent.IntendedDialogContent | src/helpers/resolveAuthDialogContent.ts:22-30 | The corrected table gives VERIFY_ACCOUNT a single code input and agrees with the source elsewhere. |
| AuthDialogSchemas.ResolveAuthDialogSchemas | src/helpers/resolveAuthDialogSchemas.ts:39-41 | Every mode's schema requires an e-mail. |
| AuthDialogSchemas.EveryModeHasSchema | src/helpers/resolveAuthDialogSchemas.ts:18-41 | Every mode has an entry, so the fallback is never taken. The code is required only in VERIFY_ACCOUNT, the full name only in REGISTER, and the password only in LOGIN and REGISTER. |
| AuthDialogSchemas.Parse | src/helpers/resolveAuthDialogSchemas.ts:18-41 | Parsing succeeds exactly when the schema accepts the values. It then returns exactly the schema's fields, with their values. |
| AuthDialogSchemas.AcceptedPassword | src/helpers/resolveAuthDialogSchemas.ts:9-16 | An accepted password has 8–50 characters, an upper-case letter, a lower-case letter, and a digit or non-word character. |
| AuthDialogSchemas.AcceptedForm | src/helpers/resolveAuthDialogSchemas.ts:4-37 | An accepted form has a valid e-mail, a 4–50 character full name when registering, an 8–50 character password for login or registration, and a 6-character code when verifying. |
| AuthDialogSchemas.PatternOnOneLine | src/helpers/resolveAuthDialogSchemas.ts:13 | For one line not starting with `.`, the unanchored pattern holds exactly when the three character classes occur. |
| AuthDialogSchemas.LeadingDot | src/helpers/resolveAuthDialogSchemas.ts:13 | Because `.` cannot match a leading dot, `.Abcdefgh` is refused while `Abcdefgh.` is accepted. |
| ApiAuth.AuthQueries | src/api/auth.ts:4-21 | Every mode but forgot-password yields a POST. Register sends the data with `role` = `patient`. Login, verify and resend send the data unchanged. |
| ApiAuth.Endpoints | src/api/auth.ts:5-17 | The paths are `/auth/register`, `/auth/login`, `/auth/verify` and `/auth/resend`. |
| ApiAuth.RoleOverridden | src/api/auth.ts:7-11 | A caller-supplied role is replaced by `patient`. |
| AuthContext.AuthCredentials.constructor | src/context/auth.ts:14-16 | The token and the image preview start empty. |
| AuthContext.AuthCredentials.SetImagePreview | src/context/auth.ts:17-18 | Only the image preview changes. |
| AuthContext.AuthCredentials.SetCredentials | src/context/auth.ts:19 | The token is set and the preview kept. |
| AuthContext.AuthCredentials.ClearCredentials | src/context/auth.ts:20 | The token is cleared and the preview kept. |
| AuthContext.AuthCredentials.Partialize | src/context/auth.ts:26-29 | The persisted part is exactly the token and the preview. |
| AuthContext.AuthCredentials.Rehydrate | src/context/auth.ts:12-31 | Restoring a persisted record gives back that record. |
| AuthContext.AuthDialogStore.constructor | src/context/auth.ts:39-42 | The dialog starts closed. |
| AuthContext.AuthDialogStore.SetAuthDialogOpen | src/context/auth.ts:41 | The open flag becomes the argument. |
| ZustandAuth.AuthCredentials.constructor | src/zustand/auth.ts:13 | The token starts empty. |
| ZustandAuth.AuthCredentials.SetCredentials | src/zustand/auth.ts:14 | The token becomes the argument. |
| ZustandAuth.AuthCredentials.ClearCredentials | src/zustand/auth.ts:15 | The token is cleared, whatever it held. |
| ZustandAuth.AuthCredentials.Partialize | src/zustand/auth.ts:21 | Only the token is persisted. |
| ZustandAuth.AuthCredentials.Rehydrate | src/zustand/auth.ts:10-24 | Restoring a persisted token gives back that token. |
| ZustandAuth.AuthDialogStore.constructor | src/zustand/auth.ts:31-34 | The dialog starts closed. |
| ZustandAuth.AuthDialogStore.SetAuthDialogOpen | src/zustand/auth.ts:33 | The open flag becomes the argument. |
| PrivateRoute.PrivateRoute | src/router/PrivateRoute.tsx:4-10 | The outlet renders exactly when the token is present and non-empty. Otherwise the user is redirected to `/`, replacing the history entry. |
| PrivateRoute.SignInAndOut | src/router/PrivateRoute.tsx:5-9 | The guard redirects before sign-in, renders after it, and redirects again after sign-out. |
| AuthDialog.MutationFor | src/components/AuthDialog.tsx:57-66 | A mutation records its mode and values. It carries a request exactly when the mode is not forgot-password. |
| AuthDialog.FormDefaults | src/components/AuthDialog.tsx:97-100 | A form reset restores LOGIN's fields, e-mail and password. |
| AuthDialog.RenderedNames | src/components/AuthDialog.tsx:152-167 | As written, every rendered input is a content name. |
| AuthDialog.VerifyNeverAccepted | src/helpers/resolveAuthDialogContent.ts:22-30 | As written, no verificationCode input is rendered, so values typed in verify mode never pass the schema. |
| AuthDialog.IntendedRenderedNames | src/components/AuthDialog.tsx:152-167 | With the corrected table, inputs are content names or the verification code. |
| AuthDialog.IntendedVerifyAccepted | src/helpers/resolveAuthDialogSchemas.ts:25-33 | With the code input rendered, a valid e-mail and a 6-character code pass the verify schema. |
| AuthDialog.AuthDialog.constructor | src/components/AuthDialog.tsx:44-55 | The dialog starts in LOGIN with no e-mail to verify, the password hidden, counter 0, default form values and no mutations. |
| AuthDialog.AuthDialog.SetType | src/components/AuthDialog.tsx:317-321 | Changing the mode resets the counter to 0 unless the new mode is VERIFY_ACCOUNT. |
| AuthDialog.AuthDialog.ResetForm | src/components/AuthDialog.tsx:97-100 | Only the form values change, back to the defaults. |
| AuthDialog.AuthDialog.Mutate | src/components/AuthDialog.tsx:57-66 | Exactly one mutation is appended. Nothing else changes. |
| AuthDialog.AuthDialog.EnterValue | src/components/AuthDialog.tsx:164-183 | Typing into a rendered input changes only that form value. |
| AuthDialog.AuthDialog.OnSuccess | src/components/AuthDialog.tsx:67-84 | Register success moves to VERIFY_ACCOUNT and records the returned e-mail. Verify success returns to LOGIN and resets the form. Login success stores the token and keeps the mode. |
| AuthDialog.AuthDialog.OnError | src/components/AuthDialog.tsx:85-91 | An error changes nothing. |
| AuthDialog.AuthDialog.OnSubmit | src/components/AuthDialog.tsx:102-114 | Verify sends `{code, email: emailToVerify}`. Other modes send the values. LOGIN closes the dialog. The mode and form are unchanged. |
| AuthDialog.AuthDialog.Submit | src/components/AuthDialog.tsx:142-143 | Values the schema refuses send nothing. Accepted values send exactly the schema's fields, or in verify mode the code and the stored e-mail. An accepted login closes the dialog. |
| AuthDialog.AuthDialog.HandleOpenChange | src/components/AuthDialog.tsx:116-122 | Closing forces LOGIN, resets the form and zeroes the counter. Opening changes nothing else. |
| AuthDialog.AuthDialog.HandlePLinksClick | src/components/AuthDialog.tsx:124-133 | RESEND_CODE sends a resend for the stored e-mail and keeps the mode. Any other link switches to that mode and resets the form. |
| AuthDialog.AuthDialog.ClickResend | src/components/AuthDialog.tsx:323-326 | While the counter is positive the button does nothing. Otherwise it sends a resend and sets the counter to 60. |
| AuthDialog.AuthDialog.Tick | src/components/AuthDialog.tsx:309-315 | A tick decrements a positive counter and leaves 0 at 0. |
| AuthDialog.AuthDialog.TogglePassword | src/components/AuthDialog.tsx:249-256 | Only the password visibility flips. |
| AuthDialog.RegistrationParses | src/helpers/resolveAuthDialogSchemas.ts:23 | A valid name, e-mail and password pass the register schema unchanged. |
| AuthDialog.RegisterAndVerifyInputs | src/helpers/resolveAuthDialogContent.ts:24 | REGISTER renders name, e-mail and password. The corrected VERIFY_ACCOUNT renders the code. |
| AuthDialog.SubmitRegistration | src/components/AuthDialog.tsx:102-113 | Typing valid registration data and submitting sends exactly that registration. |
| AuthDialog.SubmitCode | src/components/AuthDialog.tsx:102-113 | Typing a valid code and submitting sends the code with the stored e-mail. |
| AuthDialog.RegisterThenVerify | src/components/AuthDialog.tsx:67-109 | Registering, receiving the server's reply and entering the code sends the registration, then a verify for the e-mail the server returned. |
| ConfirmDialog.Message | src/components/ConfirmDialog.tsx:38-40 | The refund wording appears exactly when the appointment is paid. |
| ConfirmDialog.HandleOnClick | src/components/ConfirmDialog.tsx:42-51 | The cancel comes first and the close last. A refund with the same appointment and intent id is issued exactly when the appointment is paid with a non-empty intent id. Otherwise the effects are exactly [cancel, close]. |
| Doctors.SpecialtyParam | src/pages/Doctors.tsx:10 | A missing route parameter means `all`. |
| Doctors.FilterBySpecialty | src/pages/Doctors.tsx:38-40 | The filter never grows the list and keeps only doctors of that specialty route. |
| Doctors.FilterMembership | src/pages/Doctors.tsx:35-40 | A doctor is kept exactly when it is in the list and matches the route. |
| Doctors.AllShowsEveryone | src/pages/Doctors.tsx:35-40 | `all` shows the list unchanged. Any other value shows exactly the matching doctors. |
| Doctors.FilterIsSubsequence | src/pages/Doctors.tsx:38-40 | The filtered list is an order-preserving subsequence. |
| Doctors.NavigationPath | src/pages/Doctors.tsx:30-33 | `all` navigates to `/doctors`. Any other value navigates to a path that starts with `/doctors/` and continues with exactly the value. |
| Doctors.NavigationRoundTrip | src/pages/Doctors.tsx:30-33 | The route parameter read from the path navigated to is the value chosen. |
| Doctors.CardFor | src/pages/Doctors.tsx:87-97 | A card shows the doctor's name and specialty, and the availability label of their working hours. |
| Doctors.Cards | src/pages/Doctors.tsx:85-99 | There is one card per doctor, in order. |
| HospitalMap.Queries | src/components/HospitalMap.tsx:10-25 | There is one geocode query per hospital, in hospital order, keyed by its address. |
| HospitalMap.MarkersAreDataIndices | src/components/HospitalMap.tsx:31-53 | The markers are exactly the hospitals whose query has data, in order. Each pairs the hospital with the name at the same index. |
| HospitalMap.MarkersFollowHospitals | src/components/HospitalMap.tsx:31-53 | From any starting index, the kept candidates are those with data, in order. |
| HospitalMap.ViewChoice | src/components/HospitalMap.tsx:27-60 | The view is loading exactly when some query is loading, and "No locations found." exactly when none has data. Otherwise the map centres on the first query with data. |
| HospitalMap.SameAddressSameResult | src/components/HospitalMap.tsx:11-19 | Hospitals with the same address share one query result. |
| Appointments.StatusColor | src/pages/Appointments.tsx:134-148 | The colour is green exactly for COMPLETED, red exactly for CANCELLED, and yellow otherwise. |
| Appointments.ActionsFor | src/pages/Appointments.tsx:156-159 | The menu is disabled exactly for COMPLETED, and the cancel item exactly for CANCELLED. |
| Appointments.ActionRules | src/pages/Appointments.tsx:156-187 | Never both are disabled, and any other status enables both. |
| Appointments.VisibleColumnsIff | src/pages/Appointments.tsx:236 | A column is searched exactly when it is visible. |
| Appointments.InitialColumns | src/pages/Appointments.tsx:203-205 | Initially every column except `id` is visible. |
| Appointments.TimeText | src/pages/Appointments.tsx:246-251 | The time cell has text exactly when the stored time parses, and that text has 8 characters. |
| Appointments.MatchesIff | src/pages/Appointments.tsx:236-259 | As written, a row matches exactly when some searched cell's text contains the search text. |
| Appointments.SearchIgnoresCase | src/pages/Appointments.tsx:235 | Lower-casing the search text does not change the result. |
| Appointments.AccentedNameFound | src/pages/Appointments.tsx:234-259 | Accented capitals are lower-cased too, so searching `é` finds `JOSÉ`. |
| Appointments.UndefinedMatchesEveryRow | src/pages/Appointments.tsx:234-259 | As written, any search that is part of "undefined" matches every row while the actions column is visible. |
| Appointments.SearchingFMatchesSampleRow | src/pages/Appointments.tsx:234-259 | As written, searching `f` matches a row none of whose data cells contains `f`. |
| Appointments.IntendedMatchesData | src/pages/Appointments.tsx:234-259 | The corrected search matches exactly when some visible data cell contains the lower-cased text. |
| Appointments.IntendedSkipsSampleRow | src/pages/Appointments.tsx:234-259 | The corrected search does not match that row for `f`. |
| Appointments.ShownRows | src/pages/Appointments.tsx:222-234 | An empty search shows all rows. Otherwise every shown row is from the data and matches the corrected search. |
| Appointments.ShownRowsIff | src/pages/Appointments.tsx:234-259 | A row is shown exactly when it is in the data and either the search is empty or a visible data cell contains it. |
| Appointments.SampleRowNotShown | src/pages/Appointments.tsx:234-259 | The sample row is not shown for `f`. |
| Appointments.PageRequestReadsBack | src/pages/Appointments.tsx:213-218 | The request path carries page = pageIndex + 1 and limit = pageSize, and they read back. |
| Appointments.QueryKey | src/pages/Appointments.tsx:208-212 | The query key is `appointments` with a page number of at least 1. |
| Appointments.QueryKeyInjective | src/pages/Appointments.tsx:208-212 | Different pagination states have different query keys. |
| Appointments.ShowingRange | src/pages/Appointments.tsx:369-375 | The range starts at pageIndex·pageSize + 1 and spans exactly the rows on the page. |
| Appointments.FullPagesAreContiguous | src/pages/Appointments.tsx:369-375 | Consecutive full pages have adjacent ranges. |
| Appointments.EmptyPageRange | src/pages/Appointments.tsx:369-375 | An empty page gives a range ending one before its start. |
| Appointments.ShowingLabel | src/pages/Appointments.tsx:369-376 | `Loading...` is shown exactly when the total is unknown. |
| Appointments.ClampPageIndex | src/pages/Appointments.tsx:379-394 | A known page count bounds the index. An index already in range is kept. |
| Appointments.AppointmentsTable.constructor | src/pages/Appointments.tsx:196-205 | The table starts on page 0 with size 10, no search and the `id` column hidden. |
| Appointments.AppointmentsTable.Request | src/pages/Appointments.tsx:213-218 | The request reads back as the current page index and size. |
| Appointments.AppointmentsTable.SetGlobalFilter | src/pages/Appointments.tsx:275-278 | Only the search text changes. |
| Appointments.AppointmentsTable.ToggleVisibility | src/pages/Appointments.tsx:291-302 | Only a hideable column's visibility changes, to the value chosen. |
| Appointments.AppointmentsTable.ClickNext | src/pages/Appointments.tsx:387-394 | "Next" advances one page exactly when not loading and a next page exists. |
| Appointments.AppointmentsTable.ClickPrevious | src/pages/Appointments.tsx:379-386 | "Previous" goes back one page when not loading and not on the first page. |
| Appointments.NextRequestsPageTwo | src/pages/Appointments.tsx:207-218 | After "Next" from the start, the request asks for the second page. |
| Profile.ServerValuesWin | src/pages/Profile.tsx:163-189 | Server fields override the fallbacks. With name, e-mail and id present, the token user does not matter. |
| Profile.EmptyRecordResetsToDefaults | src/pages/Profile.tsx:116-189 | An empty server record resets to the initial defaults, except that the country becomes `''` instead of the initial country. |
| Profile.Validate | src/pages/Profile.tsx:43-72 | Validation succeeds exactly when the schema accepts. The body carries the form's fields, with phones converted to national numbers. |
| Profile.DefaultsNeverValidate | src/pages/Profile.tsx:43-137 | The initial form never validates. |
| Profile.NoAddressNoSubmit | src/pages/Profile.tsx:53-59 | A record without an address resets to a form that cannot be submitted. |
| Profile.LockedEmptyCountryRefused | src/pages/Profile.tsx:646-664 | The country input is read-only, so an empty country stays empty and every edit of the form is refused. |
| Profile.ClearedBirthDateRefused | src/pages/Profile.tsx:60-62 | An empty birth date is refused. |
| Profile.FormatYmd | src/pages/Profile.tsx:397-400 | A picked date is written as `dddd-dd-dd`. |
| Profile.ParseYmd | src/pages/Profile.tsx:385-392 | Only `dddd-dd-dd` text naming a valid date is read as a date. |
| Profile.PickedDateReadsBack | src/pages/Profile.tsx:384-402 | Writing a date and reading it back gives the same date. |
| Profile.BirthDateValue | src/pages/Profile.tsx:394-402 | The stored birth date reads back as the picked date. Clearing it stores `''`, which fails the schema's shape check. |
| Profile.InsuranceShown | src/pages/Profile.tsx:429-435 | The select shows nothing exactly when the id is absent or 0. |
| Profile.InsuranceItemValues | src/pages/Profile.tsx:463-474 | Every option value converts back to its insurance id. |
| Profile.IntToStringReadsBack | src/pages/Profile.tsx:431-438 | `Number(String(n))` is n. |
| Profile.ChosenInsuranceShown | src/pages/Profile.tsx:429-474 | Choosing an option shows that option again, except id 0, which shows as unselected. |
| Profile.SaveRequest | src/pages/Profile.tsx:144-150 | A patient with an id is updated with PUT. Otherwise a POST to `/patient` creates one. The body is passed unchanged. |
| Profile.UpdateNamesPatient | src/pages/Profile.tsx:89 | The update path is `/patient/` plus the id. |
| Profile.ProfilePage.constructor | src/pages/Profile.tsx:114-137 | The page starts not editing, with the defaults as values and no requests. |
| Profile.ProfilePage.PatientDataChanged | src/pages/Profile.tsx:163-190 | No server data leaves the form unchanged. Server data resets the form and becomes its new defaults. |
| Profile.ProfilePage.HandleEdit | src/pages/Profile.tsx:139-142 | Editing toggles and the form returns to its defaults. |
| Profile.ProfilePage.Edit | src/pages/Profile.tsx:239-302 | Typing changes only the values. The read-only fields stay as they are: name, e-mail, user id, both country codes and the country. |
| Profile.ProfilePage.SelectBirthDate | src/pages/Profile.tsx:394-409 | Picking a date changes only the birth date, which reads back as the pick. |
| Profile.ProfilePage.SelectInsurance | src/pages/Profile.tsx:427-440 | Choosing changes only the insurance id, to `Number` of the value. |
| Profile.ProfilePage.Submit | src/pages/Profile.tsx:144-151 | A refused form stays in editing and sends nothing. An accepted one leaves editing and sends one create-or-update request. |
| Profile.CancelRestoresServerValues | src/pages/Profile.tsx:139-190 | Editing and then cancelling shows the server values again and sends nothing. |
| Profile.NoAddressNeverSaved | src/pages/Profile.tsx:139-190 | When the server record has no address, loading it, editing and submitting sends nothing, whatever is typed. |

## Left out

- Toasts and console logging: user-facing notifications with no effect on state.
- HTTP and fetch: requests and mutations are recorded as data, never sent. Server answers are method parameters.
- The e-mail check and the phone-number conversion come from zod and libphonenumber-js, whose behaviour is not part of this model. They are function parameters.
- date-fns formatting of `EEE dd MMM` dates in the appointments table is the `dateLabel` parameter.
- date-fns `parse` leniency beyond one- or two-digit `HH:mm:ss` fields, and shorter fields in `yyyy-MM-dd`, are not modelled.
- Time zones and daylight saving: times are seconds of the day and dates are day numbers, with weekday (d + 4) mod 7. `new Date()` in `formatStartAndEndTime` is the parameter `midnight`, the time value of the start of the current local day, and every local day is taken to last 24 hours.
- Timers and effects: the resend countdown is the explicit `Tick` method, and query results are parameters.
- Persistence to localStorage is modelled only as the partialize projection and its rehydration.
- String lengths are counted in characters, not UTF-16 code units.
- Table sorting and column filters are not modelled.
- The global filter function ignores its column argument, so it is applied once per row. This assumes the table has at least one globally filterable column, as its string data columns make it.
- Only plain decimal `Number` syntax is modelled; other numeric forms are not.
- StartEndTime.FormatStartAndEndTime: fields with surrounding white space, a fractional part, an exponent or a `0x`/`0o`/`0b` prefix are NaN in the model, although `Number` reads them as numbers. Field values past 2^53, which JavaScript rounds, are exact integers in the model.
- Text.LowerChar: case folding covers the capitals of ASCII and Latin-1 only. `toLowerCase` also lower-cases the other cased letters of Unicode, such as Greek and Cyrillic, so `Appointments.GlobalFilterFn` does not find those case-insensitively in the model.
- `NaN` from `Number` on a non-numeric insurance value is modelled as an absent id.
- The sex enum's values are not part of this model; `MALE` is used as the reset fallback.
- The fields of the auth response are assumed to be present.
- `HospitalAddress.country` is typed `null` in the source, so it is dropped from the address and from the geocode key.
- The profile image upload is commented out in the source and left out.
- The route table in `src/App.tsx` depends on react-router's matcher; only reading the specialty back out of the path is modelled.
- Which links each mode shows is markup; `HandlePLinksClick` accepts any mode.
- Appointments.ShowingLabel: only the Loading case is stated. The numeric label is given by `ShowingRange`.
- Appointments.AppointmentsTable.ClickPrevious: clamping when the index is already beyond the page count is not stated.

## Findings

| source | as written | input that shows it | evidently intended | confidence | as-written member | corrected member |
|---|---|---|---|---|---|---|
| src/helpers/resolveAuthDialogContent.ts:22-30 | VERIFY_ACCOUNT has no content entry, so it shows LOGIN's e-mail and password inputs. No input writes `verificationCode`, which the verify schema requires, so a verify submit never validates and no verify request is sent. | Any submit in VERIFY_ACCOUNT mode | A 6-character verification-code input in VERIFY_ACCOUNT, so the code and the stored e-mail are sent | not executed | AuthDialog.VerifyNeverAccepted | AuthDialog.IntendedVerifyAccepted |
| src/pages/Appointments.tsx:234-259 | The global filter also searches the visible `actions` column. That column has no value, and its text is "undefined", so any search inside "undefined" matches every row. | Searching `f` matches a row none of whose cells contains `f` | Search only the data columns | not executed | Appointments.SearchingFMatchesSampleRow | Appointments.IntendedSkipsSampleRow |
