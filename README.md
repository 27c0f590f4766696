# Data-cleaning virtual sensor

A model of `DataCleanVirtualSensor`, the GSN virtual sensor that cleans a
stream of doubles window by window and can describe each dirty point to a
metadata server as an XML request.

- `initialize` reads the sensor's string parameters. It needs three of them,
  checked in order: `model`, `window_size` and `error_bound`. Each value is
  trimmed, then looked up or parsed, and the field is assigned before the
  next check. When all three are accepted, the optional metadata block runs.
  It always overwrites the server URL field with the `metadata_server_url`
  value, or with nothing. Only when a URL is given does it go on: it turns
  publication on, records the `user` and `password` values and the four
  identity values, and, when all four identity values are given,
  pre-renders the XML template with them; otherwise publication is turned
  off again. Without a URL none of these fields change. Four zeroed buffers
  of the window's size are then allocated.
- `dataAvailable` stores each incoming value and timestamp until the window
  is full. The call after that does four things:
  1. it has the model fitted over the window;
  2. it emits one element per index (stream, processed and dirtiness values
     with the timestamp);
  3. while publishing, it builds the request for every dirty index;
  4. it resets the counter.

  The element that arrives on that call is not stored.
- `outputAsXML` fills the three per-event placeholders (dirtiness, from,
  to) of the pre-rendered request.

## Modules

- `Wrappers`: `Option` and `Result`.
- `Strings`: `String.trim()` and literal `replaceAll`, with their laws.
- `Externals`: the library calls the sensor makes but whose code is not part
  of this model. They are passed in as function values: the model-name
  lookup, integer and double parsing, the model fit, the ISO time format and
  `Double.toString`.
- `Template`: the placeholder constants, the XML template, the pre-render
  and the per-event fill.
- `Config`: the parameter checks of `initialize`, and the fields they leave
  behind on success and on failure.
- `Buffering`: `dataAvailable` as a pure state machine (`Step`, `Run`) over
  the counter and the four buffers.
- `DataClean`: the class `DataCleanVirtualSensor` with the source's fields,
  its arrays and imperative methods. Each method is proved equal to the pure
  functions above.

### Behaviour captured as written

- Substitution is global. An identity value that contains a per-event
  placeholder (say an operator value containing `_to`) has that text
  rewritten by the event's values as well (`Template.OperatorValueRewritten`).
- The template opens `<deployement>` but closes `</deployment>`. The
  constant keeps that mismatch.
- A failed `initialize` leaves the fields assigned before the failing
  check, and the rejected value itself, changed. An unknown model leaves
  `-1`, and a negative window size stays in the field.
- `initialize` never resets the fill counter, and the password flag is
  never cleared.

## Model

| member | source | states |
|---|---|---|
| Strings.Trim | gsn/src/gsn/vsensor/DataCleanVirtualSensor.java:104 | `String.trim()`: the value with every character at or below U+0020 removed from both ends (its shape is stated by the two lemmas below) |
| Strings.TrimStartShape | gsn/src/gsn/vsensor/DataCleanVirtualSensor.java:104 | trimming the front leaves a suffix of the input, after a run of blanks, that starts with a non-blank |
| Strings.TrimEndShape | gsn/src/gsn/vsensor/DataCleanVirtualSensor.java:117 | trimming the back leaves a prefix of the input, before a run of blanks, that ends with a non-blank |
| Strings.TrimIgnoresPadding | gsn/src/gsn/vsensor/DataCleanVirtualSensor.java:134 | blanks added around a value do not change its trimmed form |
| Strings.TrimIdempotent | gsn/src/gsn/vsensor/DataCleanVirtualSensor.java:104 | trimming a trimmed value changes nothing |
| Strings.ReplaceAll | gsn/src/gsn/vsensor/DataCleanVirtualSensor.java:160-163 | `replaceAll` with a pattern free of metacharacters: left to right, every occurrence that does not overlap an earlier one is replaced by the replacement |
| Strings.ReplaceAllAbsent | gsn/src/gsn/vsensor/DataCleanVirtualSensor.java:160-163 | replacing a pattern that does not occur leaves the string unchanged |
| Strings.ReplaceAllExact | gsn/src/gsn/vsensor/DataCleanVirtualSensor.java:160 | a string that is exactly the pattern becomes the replacement |
| Strings.ReplaceAllAppend | gsn/src/gsn/vsensor/DataCleanVirtualSensor.java:160-163 | replacement distributes over a concatenation whose seam no occurrence straddles |
| Strings.PlainText | gsn/src/gsn/vsensor/DataCleanVirtualSensor.java:260-262 | text without the pattern's first character is neither changed nor straddled |
| Strings.Sandwich | gsn/src/gsn/vsensor/DataCleanVirtualSensor.java:260-262 | between pattern-free text, the substitution acts on the middle part alone |
| Template.PlaceholderShape | gsn/src/gsn/vsensor/DataCleanVirtualSensor.java:35-41 | each placeholder starts with its only underscore, and no placeholder is a prefix of another |
| Template.Layout | gsn/src/gsn/vsensor/DataCleanVirtualSensor.java:43-51 | the template text with its seven elements in order (deployment, operator, station, sensor, from, to, dirtiness); `XmlTemplate` is this text holding the seven placeholders, with the opening `<deployement>` tag that does not match its closing tag |
| Template.PrepareRequest | gsn/src/gsn/vsensor/DataCleanVirtualSensor.java:160-163 | the pre-render: the operator, deployment, station and sensor placeholders replaced in that order, each over the whole text |
| Template.FillEvent | gsn/src/gsn/vsensor/DataCleanVirtualSensor.java:260-262 | the per-event fill: the dirtiness, from and to placeholders replaced in that order, each over the whole text |
| Template.OutputAsXml | gsn/src/gsn/vsensor/DataCleanVirtualSensor.java:259-265 | the request for an event, or nothing when no request was prepared or a time cannot be formatted; the dirtiness is written with `Double.toString` |
| Template.PlaceholderReplace | gsn/src/gsn/vsensor/DataCleanVirtualSensor.java:35-41 | a placeholder is replaced only by its own substitution, and no other placeholder straddles it |
| Template.FieldReplace | gsn/src/gsn/vsensor/DataCleanVirtualSensor.java:43-51 | a template field, whether a placeholder or a plain value, is replaced entirely or not at all |
| Template.LayoutReplace | gsn/src/gsn/vsensor/DataCleanVirtualSensor.java:43-51 | a substitution over the template text acts field by field when no field is straddled |
| Template.LayoutSubst | gsn/src/gsn/vsensor/DataCleanVirtualSensor.java:43-51 | a substitution over a template whose fields are placeholders or plain values replaces exactly the matching fields |
| Template.PreparedLayout | gsn/src/gsn/vsensor/DataCleanVirtualSensor.java:159-164 | with plain identity values, the pre-rendered request is the template with those values in their elements and only the three per-event placeholders left |
| Template.EventLayout | gsn/src/gsn/vsensor/DataCleanVirtualSensor.java:259-265 | with plain values, the request for an event is the template with all seven elements filled by those values |
| Template.OperatorValueRewritten | gsn/src/gsn/vsensor/DataCleanVirtualSensor.java:160-163 | an operator value containing `_to` has it replaced by the event's `to` time in the final request |
| Template.PreparedWithEmbeddedTo | gsn/src/gsn/vsensor/DataCleanVirtualSensor.java:160-163 | the pre-render leaves an operator value containing `_to` as given |
| Template.EmbeddedPlaceholder | gsn/src/gsn/vsensor/DataCleanVirtualSensor.java:260-262 | a placeholder inside a plain value is replaced only by its own substitution |
| Config.Validate | gsn/src/gsn/vsensor/DataCleanVirtualSensor.java:98-138 | the outcome of the required checks: the first absent or unusable required value decides the error, otherwise the three parsed settings |
| Config.AssignRequired | gsn/src/gsn/vsensor/DataCleanVirtualSensor.java:98-138 | the model, window-size and error-bound fields after the checks: each assigned as soon as it is looked up or parsed, the later ones untouched after a failure |
| Config.ConfigurePublication | gsn/src/gsn/vsensor/DataCleanVirtualSensor.java:140-166 | the publication fields after the metadata block: the URL always overwritten, the rest only when a URL is given, publication on exactly when the four identity values are also given |
| Config.FirstFailureDecides | gsn/src/gsn/vsensor/DataCleanVirtualSensor.java:98-138 | once a required parameter is rejected, the parameters checked after it cannot change the outcome |
| Config.OnlyRequiredKeysMatter | gsn/src/gsn/vsensor/DataCleanVirtualSensor.java:98-138 | only the trimmed values of `model`, `window_size` and `error_bound` decide success and the settings |
| Config.ValidateAccepts | gsn/src/gsn/vsensor/DataCleanVirtualSensor.java:98-138 | success holds exactly when all three values are present, the model is known, the window size parses and is not negative, and the bound parses; the settings are then the parsed values |
| Config.ZeroWindowAndAnyBoundAccepted | gsn/src/gsn/vsensor/DataCleanVirtualSensor.java:123-138 | a window size of zero and an error bound of any sign are accepted |
| Config.PaddingIgnored | gsn/src/gsn/vsensor/DataCleanVirtualSensor.java:104-134 | blanks around any required value never change the outcome |
| Config.AssignedOnSuccess | gsn/src/gsn/vsensor/DataCleanVirtualSensor.java:104-134 | on success the three fields hold the accepted settings, whatever they held before |
| Config.FailureAssignsEarlierFields | gsn/src/gsn/vsensor/DataCleanVirtualSensor.java:98-138 | on failure, the fields checked before the failing one are assigned and the rejected value is kept; later fields and the error bound are unchanged |
| Config.PublicationFromScratch | gsn/src/gsn/vsensor/DataCleanVirtualSensor.java:140-166 | from a fresh sensor, publication is on exactly when the URL and all four identity values are given, and the request is then the template filled with them; the password flag is raised exactly when URL, user and password are given |
| Config.IncompleteIdentityDisablesPublishing | gsn/src/gsn/vsensor/DataCleanVirtualSensor.java:151-158 | a missing identity value turns publication off, records the URL and keeps the previous prepared request |
| Config.ConfigureKeepsConsistent | gsn/src/gsn/vsensor/DataCleanVirtualSensor.java:140-166 | the metadata block never turns publication on without a prepared request |
| Buffering.Fitted | gsn/src/gsn/vsensor/DataCleanVirtualSensor.java:183 | the buffers after the fit: processed and dirtiness rewritten entry by entry from the fit over the current window, the sizes kept |
| Buffering.Records | gsn/src/gsn/vsensor/DataCleanVirtualSensor.java:185-190 | the elements emitted for the first `n` indices, in index order: stream, processed and dirtiness values with the timestamp |
| Buffering.RequestAt | gsn/src/gsn/vsensor/DataCleanVirtualSensor.java:191-198 | the request for one index: its rendering when it is dirty, publication is on and rendering succeeds; nothing otherwise |
| Buffering.Requests | gsn/src/gsn/vsensor/DataCleanVirtualSensor.java:185-199 | the requests for the first `n` indices, in index order |
| Buffering.WindowedRecords | gsn/src/gsn/vsensor/DataCleanVirtualSensor.java:178-200 | an independent description of the output: each group of window-size-plus-one samples yields the records of its first window-size samples |
| Buffering.Step | gsn/src/gsn/vsensor/DataCleanVirtualSensor.java:176-202 | one call keeps all four buffers at the window's size and keeps the counter within the window |
| Buffering.Run | gsn/src/gsn/vsensor/DataCleanVirtualSensor.java:176-202 | any sequence of calls keeps the buffers sized and the counter within the window |
| Buffering.FillStep | gsn/src/gsn/vsensor/DataCleanVirtualSensor.java:178-181 | below the window size, a call stores the sample at the counter's index, advances the counter, leaves every other entry alone and produces nothing |
| Buffering.EmitStep | gsn/src/gsn/vsensor/DataCleanVirtualSensor.java:182-200 | at the window size, a call emits one record per index in order, each pairing the stored value and time with the fit's outputs; it resets the counter and drops the incoming sample |
| Buffering.RequestsAreDirtyEntries | gsn/src/gsn/vsensor/DataCleanVirtualSensor.java:191-198 | every request is the rendering of a dirty entry while publishing, with from and to equal to its time; the rendering of every dirty entry that renders is among the requests; there are at most as many requests as dirty entries, none without publication, and exactly as many as dirty entries when every rendering succeeds |
| Buffering.RequestsInIndexOrder | gsn/src/gsn/vsensor/DataCleanVirtualSensor.java:185-198 | the requests are exactly the renderings of the entries that yield one, in increasing index order: no such entry is skipped or rendered twice |
| Buffering.DirtyEntryRequest | gsn/src/gsn/vsensor/DataCleanVirtualSensor.java:191-194 | with plain values, the request for a dirty entry is exactly the template holding the identity values, its time twice and its dirtiness |
| Buffering.RunAppend | gsn/src/gsn/vsensor/DataCleanVirtualSensor.java:176-202 | feeding two stretches of samples is feeding the first, then the second from the state it left |
| Buffering.FillFromEmpty | gsn/src/gsn/vsensor/DataCleanVirtualSensor.java:178-181 | from an empty buffer, up to window-size calls store their samples in order and produce nothing |
| Buffering.OneWindow | gsn/src/gsn/vsensor/DataCleanVirtualSensor.java:178-200 | from an empty buffer, window-size-plus-one calls yield exactly the records of the first window-size samples and reset the counter |
| Buffering.RunYieldsWindows | gsn/src/gsn/vsensor/DataCleanVirtualSensor.java:178-200 | any stream fed to an empty buffer yields the records of its complete windows, each followed by a dropped sample; the counter ends at the length modulo window size plus one |
| Buffering.WindowedRecordCount | gsn/src/gsn/vsensor/DataCleanVirtualSensor.java:185-190 | the number of records is window size times the number of complete groups of window size plus one samples |
| Buffering.ZeroWindowSilent | gsn/src/gsn/vsensor/DataCleanVirtualSensor.java:178-185 | with a window size of zero, no call ever produces a record or a request |
| DataClean.DataCleanVirtualSensor.constructor | gsn/src/gsn/vsensor/DataCleanVirtualSensor.java:68-91 | a new sensor has model -1, window 0, bound 0, publication off and an empty counter |
| DataClean.DataCleanVirtualSensor.Initialize | gsn/src/gsn/vsensor/DataCleanVirtualSensor.java:94-174 | returns true exactly when the required parameters validate; the required fields are left as the checks assign them; on success the metadata block is applied and four zeroed buffers of the window's size are allocated; on failure publication and buffers are unchanged |
| DataClean.DataCleanVirtualSensor.ReadRequired | gsn/src/gsn/vsensor/DataCleanVirtualSensor.java:98-138 | the early-return checks accept exactly what validation accepts and assign the fields as they go |
| DataClean.DataCleanVirtualSensor.ConfigureMetadata | gsn/src/gsn/vsensor/DataCleanVirtualSensor.java:140-166 | the publication fields become what the metadata block makes of them |
| DataClean.DataCleanVirtualSensor.ConfigureIdentity | gsn/src/gsn/vsensor/DataCleanVirtualSensor.java:151-164 | records the four identity values; publication stays on and the request is prepared only when all four are given |
| DataClean.DataCleanVirtualSensor.AllocateBuffers | gsn/src/gsn/vsensor/DataCleanVirtualSensor.java:168-171 | four new, distinct, zeroed arrays of the window's size |
| DataClean.DataCleanVirtualSensor.FitAndMarkDirty | gsn/src/gsn/vsensor/DataCleanVirtualSensor.java:183 | the processed and dirtiness buffers are rewritten with the fit over the current window; nothing else changes |
| DataClean.DataCleanVirtualSensor.OutputAsXml | gsn/src/gsn/vsensor/DataCleanVirtualSensor.java:259-265 | fills dirtiness, from and to into the prepared request; no result when there is no prepared request or a time cannot be formatted |
| DataClean.DataCleanVirtualSensor.DataAvailable | gsn/src/gsn/vsensor/DataCleanVirtualSensor.java:176-202 | the buffers, emitted records and requests change exactly as one step of the state machine, and the counter stays within the window |
| DataClean.DataCleanVirtualSensor.EmitWindow | gsn/src/gsn/vsensor/DataCleanVirtualSensor.java:185-199 | the loop emits the records of all indices in order and the requests of the dirty ones |
| DataClean.DataCleanVirtualSensor.PostIfDirty | gsn/src/gsn/vsensor/DataCleanVirtualSensor.java:191-198 | a request is added for the index only when it is dirty, publication is on and rendering succeeds |

## Left out

- `postToWiki` and the HTTP post to the metadata server are not modelled; the
  call to it is commented out in the source. The request that is printed
  instead, after a `?request=` prefix, is appended to the ghost log `posted`
  without the prefix.
- Logging is not modelled.
- `getVirtualSensorConfiguration` becomes the `params` map passed to
  `Initialize`. `dataProduced` becomes the ghost log `produced`.
- `ModelFitting.FitAndMarkDirty`, `getModelIdFromString`, `Integer.parseInt`,
  `Double.parseDouble`, `Helpers.convertTimeFromLongToIso` and
  `Double.toString` are not part of this model. They are opaque functions in
  `Externals.Library`; a parse failure is `None`, and so is a time the
  formatter rejects.
- The opaque fit and model-name lookup are total. An exception thrown by
  `ModelFitting.FitAndMarkDirty` would leave `dataAvailable` before the
  emitting loop and before the counter is reset; the model has no such path.
  Likewise an exception from `getModelIdFromString` inside `initialize` is
  not modelled.
- DataClean.DataCleanVirtualSensor.FitAndMarkDirty: the fit is taken to
  depend only on the settings and on the stream and timestamp buffers. The
  processed and dirtiness arrays it also receives are treated as output
  only.
- Doubles are modelled as `real`, so NaN and the infinities are not modelled.
  `int` and `long` are unbounded: there is no 32-bit or 64-bit wrap-around,
  and the range of `Integer.parseInt` belongs to the opaque parser.
- `replaceAll` is modelled as literal substitution. A regular expression
  would differ only for metacharacters in the pattern, or `$` and `\` in
  the replacement. The patterns are fixed and contain none. A `$` or `\` in
  a configured identity value or a formatted time would be treated
  specially by Java, and that is not modelled.
- DataClean.DataCleanVirtualSensor.DataAvailable: requires a successful
  `Initialize`. Before one, the Java arrays are null and the call throws.
  The model's arrays start empty, and that path is not modelled.
- DataClean.DataCleanVirtualSensor.DataAvailable: the element's first field
  is taken to be a double (a `Sample` carries a `real`). The
  `ClassCastException` of the `(Double)` cast is not modelled.
- DataClean.DataCleanVirtualSensor.DataAvailable: the counter bound is
  stated only when it held before the call. `initialize` does not reset the
  counter, so after re-initialising with a smaller window the counter can
  exceed it; the next call then takes the emitting branch and resets it.
- The `stream` and `processed` arguments of `outputAsXML` are accepted and
  ignored, as in the source.
- `dispose` does nothing and is not modelled.
- The `SerialWrapper` and `RubyWrapperAdapter` wrappers are not part of this
  model.
