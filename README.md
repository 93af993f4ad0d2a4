# Floture detector: the upload-and-detect workflow

This project models the one piece of logic in the floture detector's web page:
the `App` component's state machine for choosing an image, sending it to the
detection service, and showing the answer. The rest of the component is static
layout.

The component holds five state cells: `file`, `preview`, `result`, `loading` and
`error`. Four handlers change them, and a few render rules read them:

- **Select.** The file picker's `handleFileChange` and the drop zone's `onDrop`
  store the first file of the event. They mint an object URL for its preview and
  reset `result` and `error`. An event without a file changes nothing.
- **Detect.** `detect` turns into two atomic steps. `DetectStart` sets `loading`
  and clears `error` and `result`. `DetectFinish` applies the request's outcome
  and then clears `loading`. The outcome is a parsed 2xx body, a non-2xx status
  with its body text, or a thrown exception with its message.
- **Clear.** The Clear handler empties `file`, `preview`, `result` and `error`.
- **Render rules.** These cover the Detect/Clear guards, the error panel, the
  result placeholder, and the result card's heading and percentage.

Modules:

- `Wrappers`: the `Option` type.
- `Payload`: JSON values, JavaScript truthiness, `.key`, `??` and `Math.round`.
- `Decimal`: how a status code is rendered into the error text, and how it is
  read back.
- `Detector`: the cells as a value, the outcomes, the error messages, the
  transitions, and the invariant `Consistent`.
- `View`: the render rules.
- `Component`: the class `App` with the five cells as fields, one method per
  handler, and the object-URL registry as a class.
- `Session`: whole sessions as sequences of events. Each event passes through
  the guards the rendered page imposes. This module holds the invariant over all
  reachable states and concrete scenarios.

## Behaviour that may be unexpected

The model states what the code does. These cases differ from what a reader
might expect of such a page:

- One might expect each preview URL to be revoked when it is replaced. The code
  never calls `URL.revokeObjectURL`, so the registry only grows
  (`Session.MintedNeverReleased`).
- One might expect a new selection to make any pending answer irrelevant. The
  picker and the drop zone stay active while a request is in flight, and
  choosing a second file then does not clear `loading`. The first file's answer
  then arrives and is shown against the second file
  (`Session.LateAnswerShownForNewFile`).
- One might expect a malformed response body to get a generic message. The code
  shows the parse exception's own message. It uses "Something went wrong" only
  when that message is empty.
- The body is stored with `setResult(data)`, and `!result` decides the
  placeholder. A 2xx answer whose JSON is `null`, `false`, `0` or `""` therefore
  leaves neither a card nor an error (`Session.NullBodyShowsNothing`). For a
  body of `0`, React also renders the text "0" from `{result && …}` next to the
  "No result yet" placeholder. "Exactly one of result and error" holds after
  every other completed request (`Detector.FinishedSettles`).

## Model

| member | source | states |
|---|---|---|
| `Payload.Round` | src/App.jsx:143 | `Math.round` returns the integer within half a unit of its argument, with halves going up |
| `Payload.RoundedPercent` | src/App.jsx:143 | the rounded percentage is within half a point of 100 times the confidence, and lies in 0..100 for a confidence in [0, 1] |
| `Decimal.DecimalString` | src/App.jsx:45 | the rendered status is a non-empty string of decimal digits with no leading zero unless the status is 0 |
| `Decimal.DecimalRoundTrip` | src/App.jsx:45 | reading the rendered status back as a decimal number gives the status |
| `Detector.HttpErrorMessage` | src/App.jsx:43-46 | the thrown message is never empty; it is the body text when that is non-empty, otherwise "Request failed: " followed by digits that read back as the status |
| `Detector.CaughtMessage` | src/App.jsx:49-50 | the stored error is never empty: the exception's message, or "Something went wrong" when that is empty |
| `Detector.FailureMessage` | src/App.jsx:43-50 | every failed request leaves a non-empty error text |
| `Detector.InitialConsistent` | src/App.jsx:5-9 | the initial cells satisfy the page invariant |
| `Detector.SelectedEffects` | src/App.jsx:12-31 | selecting sets the file and a new preview, resets result to null and error to empty, and keeps `loading` |
| `Detector.SelectedKeepsConsistent` | src/App.jsx:15-19 | selecting keeps the invariant, and the new preview differs from every URL minted before |
| `Detector.StartedWithoutFile` | src/App.jsx:34 | `detect` without a file changes nothing |
| `Detector.StartedEffects` | src/App.jsx:35-37 | starting sets `loading`, empties error and result, and keeps file and preview |
| `Detector.StartedKeepsConsistent` | src/App.jsx:33-37 | starting keeps the invariant |
| `Detector.FinishedEffects` | src/App.jsx:43-53 | finishing always clears `loading` and keeps file and preview; an Ok body becomes the result; a non-2xx answer shows its body or the status line and never the generic text; an exception shows its message or the generic text; a failure leaves `result` alone |
| `Detector.FinishedKeepsConsistent` | src/App.jsx:38-53 | finishing a request in flight keeps the invariant |
| `Detector.FinishedSettles` | src/App.jsx:36-53 | after a completed request exactly one of "result and no error" and "no result and an error" holds, if and only if the outcome is not a 2xx answer with a falsy body |
| `Detector.ClearedEffects` | src/App.jsx:119 | Clear empties file, preview, result and error, keeps `loading`, and a second Clear changes nothing |
| `Detector.ClearedKeepsConsistent` | src/App.jsx:118-119 | Clear, which is offered only while no request is in flight, keeps the invariant |
| `View.GuardsAgree` | src/App.jsx:113-118 | Detect is enabled exactly when a file is selected and nothing is loading, and Clear is offered under exactly the same condition |
| `View.ErrorPanelShowsError` | src/App.jsx:124-126 | the error panel appears exactly when the error text is non-empty and shows it unchanged |
| `View.ResultColumnShowsOne` | src/App.jsx:131-136 | the result column shows exactly one of the placeholder and the card, and the placeholder reads "Processing image…" exactly while loading |
| `View.CardHeadingFollowsDetected` | src/App.jsx:140 | the card says "Floture detected" exactly when the body's `detected` is truthy and "Floture not detected" otherwise |
| `View.ConfidencePercentBounds` | src/App.jsx:143 | a missing or null confidence shows 0%; a numeric one shows a percentage within half a point of it, in 0..100 for a confidence in [0, 1] |
| `Component.ObjectUrls.CreateObjectUrl` | src/App.jsx:18 | minting registers the file under a new URL whose serial is the number of URLs minted before |
| `Component.App.constructor` | src/App.jsx:5-9 | the first render has every cell at its initial value and satisfies the invariant |
| `Component.App.HandleFileChange` | src/App.jsx:12-20 | with no file in the event, nothing changes; otherwise one URL is minted for the file and the cells become those of a selection with that URL; the invariant is kept |
| `Component.App.OnDrop` | src/App.jsx:22-31 | the same effect as the picker handler |
| `Component.App.DetectStart` | src/App.jsx:33-37 | the cells become those of a started request (unchanged without a file); it returns the file the request carries; the invariant is kept |
| `Component.App.DetectFinish` | src/App.jsx:38-53 | the cells become those of the finished request for the given outcome; the invariant is kept |
| `Component.App.Clear` | src/App.jsx:119 | the cells become the cleared ones; the invariant is kept |
| `Session.StepKeepsConsistent` | src/App.jsx:12-119 | every event, passed through the page's guards, keeps the invariant |
| `Session.RunKeepsConsistent` | src/App.jsx:5-119 | every state reached from a consistent one by any sequence of events is consistent |
| `Session.MintedNeverReleased` | src/App.jsx:18-29 | object URLs are only ever added, and none minted earlier is released later |
| `Session.EmptyEventChangesNothing` | src/App.jsx:13-25 | a picker or drop event without a file changes nothing, and the picker and drop handlers always have the same effect |
| `Session.SelectOrClearDropsOutcome` | src/App.jsx:12-119 | right after a selection (the handlers at lines 12-31) or a Clear (the handler at line 119) that changed the page, neither a result nor an error is held |
| `Session.NoSecondRequest` | src/App.jsx:113 | a click on Detect while a request is in flight changes nothing |
| `Session.ErrorAndCardExclusive` | src/App.jsx:124-136 | in every reachable state, the error panel and the result card are never shown together |
| `Session.WhileLoading` | src/App.jsx:113-133 | in every reachable state with a request in flight: a file is selected, the placeholder reads "Processing image…", no error shows, Detect is disabled and captioned "Analyzing…", and Clear is not offered |
| `Session.FailureShownAfterAnySession` | src/App.jsx:43-50 | after any session with a request in flight, a failed outcome shows exactly its error message, no card, and "No result yet" |
| `Session.RetryPossibleAfterSettled` | src/App.jsx:51-53 | once a request in any session has settled, whatever the outcome, Detect is enabled again and Clear is offered |
| `Session.NothingShownWithoutFile` | src/App.jsx:118-136 | in every reachable state without a file, no card and no error are shown, and the result column reads "No result yet" |
| `Session.PreviewShowsSelectedFile` | src/App.jsx:105-107 | in every reachable state, a preview shows exactly when a file is selected, and it is the URL minted for that file |
| `Session.SuccessScenario` | src/App.jsx:33-161 | a successful answer with detected true, confidence 0.87 and label "floture" shows "Floture detected", 87% and the label, and no error |
| `Session.ServiceErrorScenario` | src/App.jsx:43-46 | a 500 answer with body "model unavailable" shows that text and no card |
| `Session.EmptyServiceErrorScenario` | src/App.jsx:45 | a 502 answer with an empty body shows "Request failed: 502" |
| `Session.TransportFailureScenario` | src/App.jsx:49-50 | a failure without a message shows "Something went wrong" and no card |
| `Session.ClearTwiceScenario` | src/App.jsx:118-119 | after a Clear in any session, a second Clear changes nothing |
| `Session.LateAnswerShownForNewFile` | src/App.jsx:12-53 | a file chosen while a request is in flight gets the earlier file's answer shown against it |
| `Session.NullBodyShowsNothing` | src/App.jsx:47-48 | a 2xx answer whose JSON is `null` leaves no card, no error and the "No result yet" placeholder |

## Left out

- The Spline hero scene, the JSX markup and the Tailwind classes (src/App.jsx:2, 56-175): decorative, with no state logic.
- The "Upload an image" and drop-zone clicks that open the picker through `inputRef` (src/App.jsx:77, 96), and `preventDefault` in `onDrop` and `onDragOver`: browser effects that do not touch the cells.
- `URL.createObjectURL` is a browser call. `Component.ObjectUrls` stands for it, as a registry that hands out serial-numbered URLs. The bytes behind a URL are not modelled.
- `fetch`, `FormData`, `res.text()`, `res.json()` and the `VITE_BACKEND_URL` base URL (src/App.jsx:39-47): network I/O. The `Outcome` passed to `DetectFinish` stands for them. An `HttpError` carries a `FailedStatus`, a subset type of the statuses outside 200..299, as for a response whose `ok` is false.
- An exception value without a `message` property is modelled as a `Thrown` with an empty message, which takes the same fallback.
- Async interleaving and React's batched setters: `detect` is two atomic steps. "No detect while loading" and "Clear only while not loading" are preconditions, taken from the disabled button (src/App.jsx:113) and the conditional Clear button (src/App.jsx:118). A `Settled` event while nothing is in flight cannot happen, and `Session.Step` ignores it.
- `Payload.RoundedPercent`: the product `confidence * 100` is exact real arithmetic, not IEEE doubles. A JSON confidence of `0.285` parses to the double 0.28499999999999998, so the page shows 28% where `RoundedPercent(0.285)` is 29. Number literals too large for a double, such as `1e400`, parse to `Infinity` and show "Infinity%". The model treats them as ordinary reals. `Math.round` itself is exact on doubles and is modelled as `Payload.Round`.
- `View.ConfidencePercentBounds`: JavaScript's numeric coercion of a string, array or object confidence is not modelled. `View.ConfidencePercent` gives no percentage for those. Its half-point bound is computed on exact reals, not doubles. A confidence of 0.285 shows 28% on the page, outside the bound. See the `Payload.RoundedPercent` line.
- The rendering of the metric fields and of the label (src/App.jsx:149-161). React shows a string or a number as its text. It shows `true`, `false`, `null` and a missing field as nothing. An object-valued `label` or metric makes React throw "Objects are not valid as a React child" during rendering. With no error boundary, that removes the whole page. This throw is not modelled: `View.Card` still yields a card for such a body. The card carries `label` as it is, and the metrics are not read.
- `Session.Event.Picked` allows more than the real picker does. The `<input type="file">` (src/App.jsx:98) is never reset, not even by Clear. Choosing the same file again therefore fires no change event, yet `Session.Step` accepts `Picked` at any time. No lemma depends on this, since each quantifies over every sequence of events.
- `Detector.FinishedSettles`: weaker than an unconditional "exactly one of result and error". For a falsy 2xx body the code gives neither, so the lemma states the exact condition.
- `View.ResultColumnShowsOne`: the card and the placeholder are modelled as the two alternatives of the result column. The stray "0" that React renders from `{result && …}` for a body of `0` is not modelled.
- Inherited JavaScript properties (`length` on strings and arrays, `constructor` on every value) are not modelled. `Payload.Member` gives a value only for an object's own keys. This is exact for the keys the page reads: `detected`, `confidence` and `label`.
