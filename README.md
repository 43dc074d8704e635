# File chooser portal: a verified model

This project models the file chooser portal of xdg-desktop-portal, the
D-Bus service that lets a sandboxed application ask the desktop for a file
to open or a place to save. It models `src/file-chooser.c` in three parts.

- **Option validation** (`validation.dfy`). `handle_open_file` checks the
  `filters` option (type `a(sa(us))`) and then the `choices` option (type
  `a(ssa(ss)s)`). It rejects a bad payload with an InvalidArgument error
  whose message carries the full prefix chain, for example
  `invalid filters: invalid filter: name is empty`.
  - Each validator (`check_value_type`, `check_filter`, `check_filters`,
    `check_choice`, `check_choices`) has a verdict function that states
    its decision and message.
  - Each validator with a loop is a method, proved to compute its verdict.
  - Lemmas tie each verdict to a plain definition of an acceptable filter
    or choice, and show which error is reported first.
- **Response assembly** (`response.dfy`). This is what
  `send_response_in_thread_func` builds once the backend has answered:
  - the `writable` flag;
  - the references `register_document` returns for the URIs, with failures
    skipped and order kept;
  - the `choices` passed through;
  - a results dictionary that always holds `uris`.
- **Request lifecycle** (`request.dfy`, `file_chooser.dfy`). A `Request`
  class holds the request's exported flag, its attached data (`for-save`,
  `response`, `options`) and the Response signals emitted on it. The
  handlers, the `*_done` callbacks and the response task are methods on it.
  The class invariant says a request emits at most one Response, and none
  while it is exported. The response task emits only if the request is
  still exported, and always unexports it. So a second run, or a run after
  the request was closed, emits nothing.

GVariant values are a datatype (`gvariant.dfy`). A value's type is computed
from the value, arrays carry their element type, and `TypeString` renders
type strings. So the message `expected type for key filters is a(sa(us)),
found ...` is modelled exactly. The typed records of `options.dfy`
(`FilterGroup`, `Choice`, ...) are related to GVariant values by encodings
that are proved to round-trip.

The model follows the code on these points:
- `writable` is initialised to TRUE at line 76. But it becomes FALSE
  whenever the lookup with type `b` fails (lines 93-94), whether the key is
  missing or has another type. `Responses.Writable` states exactly this.
- The `choices` of the backend's answer are passed on only when they have
  type `a(ss)` (line 96).
- `handle_save_file` validates nothing (lines 517-521).
- `handle_save_file` finishes the call with
  `xdp_file_chooser_complete_open_file` (line 549). That replies with the
  same `(o)` handle, so the model's reply is the same for both methods.

## Model

| member | source | states |
|---|---|---|
| `GVariant.DecimalString` | src/file-chooser.c:239-242 | the `%u` rendering of a filter type is a non-empty string of decimal digits, with no leading zero unless the number is 0 |
| `GVariant.DecimalStringValue` | src/file-chooser.c:239-242 | the digits of the `%u` rendering spell the number rendered |
| `GVariant.ParseTypeString` | src/file-chooser.c:170-174 | a type string can be read back: parsing the string of type T followed by anything gives T and the remainder |
| `GVariant.TypeStringInjective` | src/file-chooser.c:170-174 | two types have the same type string exactly when they are the same type, so "is %s, found %s" always shows two different strings |
| `Options.TypeStrings` | src/file-chooser.c:383-389 | the declared types render as `a(sa(us))` and `a(ssa(ss)s)`, and the pass-through type of the answer's `choices` renders as `a(ss)` |
| `Options.DecodeFilter` | src/file-chooser.c:187 | what `g_variant_get (filter, "(&s@a(us))")` reads from a `(sa(us))` value is exactly what the value holds: encoding the name and patterns back gives the value |
| `Options.DecodeChoice` | src/file-chooser.c:284 | what `g_variant_get (choice, "(&s&s@a(ss)&s)")` reads is exactly what the value holds: encoding it back gives the value |
| `Options.FiltersRoundTrip` | src/file-chooser.c:259-261 | reading the children of an encoded filter list gives back the filters that were encoded |
| `Options.ChoicesRoundTrip` | src/file-chooser.c:369-371 | reading the children of an encoded choice list gives back the choices that were encoded |
| `Validation.CheckValueType` | src/file-chooser.c:161-177 | passes exactly when the found type string equals the expected one; otherwise fails with "expected type for key K is T, found U", and (by TypeStringInjective) T and U then differ |
| `Validation.FiltersTypeMismatch` | src/file-chooser.c:256 | a `filters` value of any other type is rejected with "expected type for key filters is a(sa(us)), found U", U its type string |
| `Validation.ChoicesTypeMismatch` | src/file-chooser.c:366 | a `choices` value of any other type is rejected with "expected type for key choices is a(ssa(ss)s), found U", U its type string |
| `Validation.UnknownFilterType` | src/file-chooser.c:236-243 | a pattern whose type is neither 0 nor 1 is rejected with "invalid filter type: " followed by digits that spell the type number |
| `Validation.PatternVerdict` | src/file-chooser.c:207-245 | a pattern passes exactly when its type is 0 or 1 and its string is non-empty |
| `Validation.FilterVerdict` | src/file-chooser.c:189-247 | a filter passes exactly when its name is non-empty, it has at least one pattern and every pattern is acceptable |
| `Validation.CheckFilter` | src/file-chooser.c:179-248 | the check_filter loop decides as FilterVerdict does: "name is empty" first, then "no filters", then the first bad pattern's error |
| `Validation.FiltersVerdict` | src/file-chooser.c:250-271 | a value passes exactly when it has type `a(sa(us))` and every filter it holds is acceptable |
| `Validation.CheckFilters` | src/file-chooser.c:250-271 | the check_filters loop decides as FiltersVerdict does: the type check first, then it stops at the first failing filter and adds "invalid filter: " |
| `Validation.FiltersFailureIsFirstFilter` | src/file-chooser.c:259-267 | a well-typed list that fails has a failing filter k with all filters before k acceptable, and the message is "invalid filter: " followed by that filter's error |
| `Validation.FiltersVerdictOfEncoding` | src/file-chooser.c:256-268 | on an encoded filter list, the verdict is the first failing filter's error with "invalid filter: " in front, or a pass |
| `Validation.OptionVerdict` | src/file-chooser.c:327-342 | an option entry passes exactly when its id and label are both non-empty |
| `Validation.ChoiceVerdict` | src/file-chooser.c:286-357 | a choice passes exactly when its id and label are non-empty and either (a) it has no options and current is "", "true" or "false", or (b) every option has an id and a label and current is "" or one of their ids |
| `Validation.CheckChoice` | src/file-chooser.c:273-358 | the check_choice loop, with its seen_option flag, decides as ChoiceVerdict does, message included |
| `Validation.OptionErrorsTakePrecedence` | src/file-chooser.c:319-355 | when some option entry lacks an id or a label, the error is "option id is empty" or "option label is empty", even if the current value is also bad |
| `Validation.ChoicesVerdict` | src/file-chooser.c:360-381 | a value passes exactly when it has type `a(ssa(ss)s)` and every choice it holds is acceptable |
| `Validation.CheckChoices` | src/file-chooser.c:360-381 | the check_choices loop decides as ChoicesVerdict does: the type check first, then it stops at the first failing choice and adds "invalid choice: " |
| `Validation.ChoicesFailureIsFirstChoice` | src/file-chooser.c:369-378 | a well-typed list that fails has a failing choice k with all choices before k acceptable, and the message is "invalid choice: " followed by that choice's error |
| `Validation.ChoicesVerdictOfEncoding` | src/file-chooser.c:366-378 | on an encoded choice list, the verdict is the first failing choice's error with "invalid choice: " in front, or a pass |
| `Validation.OpenOptionsVerdict` | src/file-chooser.c:405-430 | an OpenFile call's options pass exactly when the filters (if present) and the choices (if present) pass; failing filters give "invalid filters: " followed by their error, and otherwise failing choices give "invalid choices: " followed by theirs |
| `Validation.ChoicesCheckedAfterFilters` | src/file-chooser.c:407-430 | once the filters fail, the choices, whatever they are, do not change the outcome |
| `Validation.EmptyFilterNameRejected` | src/file-chooser.c:407-415 | an OpenFile call whose only filter has an empty name is rejected with "invalid filters: invalid filter: name is empty", whatever its patterns |
| `Validation.WellFormedOptionsAccepted` | src/file-chooser.c:405-430 | options whose `filters` and `choices`, each optional, encode acceptable filters and choices pass validation, whatever other keys they hold |
| `Responses.Writable` | src/file-chooser.c:93-94 | `writable` is TRUE exactly when the answer holds `writable` with the boolean value TRUE; a missing or wrongly typed key gives FALSE |
| `Responses.UrisOf` | src/file-chooser.c:100 | the URIs are the strings of the answer's `uris` entry when it has type `as`, and none otherwise |
| `Responses.RegisteredAppend` | src/file-chooser.c:100-118 | registering a concatenation of URI lists gives the references of each part, in order |
| `Responses.FailedUriSkipped` | src/file-chooser.c:109-114 | a URI whose registration fails is dropped, and the references of the URIs around it keep their order |
| `Responses.AllRegistered` | src/file-chooser.c:104-117 | when every registration succeeds, there is one reference per URI, each the reference of the URI at the same position |
| `Responses.RegisteredFromUris` | src/file-chooser.c:104-117 | there are at most as many references as URIs, and each reference is the one register_document returned for some URI |
| `Responses.RegisterUris` | src/file-chooser.c:100-118 | the loop calls register_document once per URI, in order, with (uri, app_id, for_save, writable), and collects the successful references in order |
| `Responses.ResponseResults` | src/file-chooser.c:90-121 | the results always hold `uris`. On a non-zero code they hold only an empty `uris`. On code 0, `uris` holds the registered references, and `choices` appears exactly when the answer has it with type `a(ss)` |
| `Responses.SingleUriAnswer` | src/file-chooser.c:93-121 | an answer (0, {uris: [u], writable: false}) registers u once, not writable, and answers {uris: [ref]} |
| `Requests.Request.BackendResults` | src/file-chooser.c:88 | the stored options as the task reads them; missing options read as an empty, well-formed dictionary |
| `Requests.Request.constructor` | src/file-chooser.c:398 | a new request for the caller's app id is not exported, has no data attached and has emitted nothing |
| `Requests.Request.Export` | src/file-chooser.c:448 | exporting needs an attached backend request and no Response yet, and keeps the at-most-one-Response invariant |
| `Requests.Request.Unexport` | src/file-chooser.c:128 | unexporting leaves the request unexported and valid |
| `FileChooser.HandleOpenFile` | src/file-chooser.c:391-463 | a rejected payload gets InvalidArgument with OpenOptionsVerdict's message, and the request is untouched. A proxy failure is passed on, and the request is untouched. Otherwise the backend request is attached, the request is exported, the backend is called with the open-file key table and the handle is returned |
| `FileChooser.HandleSaveFile` | src/file-chooser.c:504-552 | no validation; on success `for-save` is set, the request is exported, the backend is called with the save-file key table and the handle is returned |
| `FileChooser.StoreAnswer` | src/file-chooser.c:152-154 | stores the response code and, when the backend call succeeded, its results |
| `FileChooser.OpenFileDone` | src/file-chooser.c:132-159 | a failed backend call is stored as response 2 and leaves the options alone; a successful one stores its code and results |
| `FileChooser.SaveFileDoneAsWritten` | src/file-chooser.c:475-502 | as written: a failed backend call stores whatever the uninitialised `response` held |
| `FileChooser.SaveFileDone` | src/file-chooser.c:475-502 | corrected: a failed backend call is stored as response 2, never as success |
| `FileChooser.SendResponse` | src/file-chooser.c:65-130 | emits one Response with ResponseResults only if the request was exported, and leaves it unexported. It registers nothing on a non-zero code, and otherwise makes one register_document call per URI |
| `FileChooser.OpenFileRequest` | src/file-chooser.c:123-129 | a full OpenFile request: rejected exactly when the options are invalid; once accepted, it emits exactly one Response (code 2 if the backend call failed) when run twice, and none if it was closed first |
| `FileChooser.SaveFileRequest` | src/file-chooser.c:504-552 | a full SaveFile request with any options is accepted, registers the URIs for saving, and emits exactly one Response |
| `FileChooser.FailedSaveReportedAsCancelled` | src/file-chooser.c:481 | with save_file_done as written, a failed SaveFile whose uninitialised response holds 1 is answered as a user cancel: response 1 and no URIs |
| `FileChooser.FailedSaveReportedAsFailure` | src/file-chooser.c:475-502 | with the corrected save_file_done, the same failure is answered with response 2 |

## Findings

| source | as written | input that shows it | evidently intended | confidence | as-written member | corrected member |
|---|---|---|---|---|---|---|
| src/file-chooser.c:481 | `guint response;` is left uninitialised. When the backend's SaveFile call fails, the uninitialised value is stored as the response code (and `options` at line 482 is uninitialised too) | the backend's SaveFile call fails, with the stack slot holding 1: the task jumps to `out` (lines 90-91) and the caller receives response 1 (cancelled by the user) with no URIs, instead of 2 (failure); with 0 the task goes on to read the options that were never stored | default to 2, as `open_file_done` does at line 138 | not executed | `FileChooser.FailedSaveReportedAsCancelled` | `FileChooser.SaveFileDone` |

## Left out

- D-Bus transport and the GDBus proxies are not modelled. This covers `xdp_impl_request_proxy_new_sync`, `xdp_impl_file_chooser_call_*`, the `_finish` calls, `g_dbus_method_invocation_return_gerror`, `xdp_file_chooser_complete_open_file` and `file_chooser_create` (lines 571-595). Whether proxy creation failed and what the backend answered are parameters; the backend call is a returned `BackendCall` value.
- Threading is not modelled: `REQUEST_AUTOLOCK`, `GTask` and `g_task_run_in_thread`. Everything runs in sequence. The task that `*_done` schedules is `SendResponse`, which the caller runs afterwards, so a close can be placed before it.
- `xdp_filter_options` (xdp-utils) is not part of this model. The backend call records the caller's raw options and the key table it would be filtered with; the filtering itself is not modelled.
- `register_document` (documents.h) is not part of this model. It is a function parameter, so the same arguments always give the same result, and its effect on the document store is not modelled.
- `src/request.c` is not part of this model. Request creation, `request_export`, `request_unexport` and closing a request are modelled only by their effect on the exported flag.
- Logging (`g_warning`, `g_debug`) is not modelled.
- Option dictionaries are maps. Duplicate keys and the order of entries are not modelled, including the order in which `choices` and `uris` are added to the results.
- GVariant values cover the types b, y, u, s, v, arrays, tuples and dictionary entries. A `filters` or `choices` value of another basic type (such as i, x, d or o) cannot be written down, so the "found ..." message for those is not covered.
- Strings are taken to be NUL-free, as D-Bus strings are. So `s[0] == 0` means the string is empty, and `strcmp`/`g_strv_contains` mean string equality.
- In `save_file_done`, a failed backend call may leave `options` holding a non-NULL garbage pointer. That is undefined behaviour and is not modelled; the model takes it to be NULL.
- A response of 0 with no stored options (only possible through the uninitialised value above) makes `send_response_in_thread_func` call `g_variant_lookup` on a NULL dictionary at line 93, which GLib does not allow. `Request.BackendResults` reads missing options as an empty dictionary instead, so the model answers where the service would fail.
