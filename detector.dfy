/**
 * The upload-and-detect state machine of the `App` component, on values: the
 * five state cells, the outcomes a detection request can end in, and the state
 * each handler leaves behind.
 */
module Detector {
  import opened Wrappers
  import opened Payload
  import Decimal

  /** A browser `File` the user picked or dropped, reduced to what identifies it. */
  datatype ImageFile = ImageFile(name: string, mediaType: string, size: nat)

  /** An object URL minted by `URL.createObjectURL`; `serial` is its place in the order of minting. */
  datatype ObjectUrl = ObjectUrl(serial: nat)

  /**
   * The five `useState` cells. `result` holds the parsed response body; `JNull`
   * is both its initial value and what `setResult(null)` stores.
   */
  datatype State = State(
    file: Option<ImageFile>,
    preview: Option<ObjectUrl>,
    result: Value,
    loading: bool,
    error: string)

  /** The initial values of the cells. */
  const Initial: State := State(None, None, JNull, false, "")

  /**
   * How the awaited part of `detect` ends: a 2xx response whose body parsed as
   * JSON, a response whose `ok` is false with its status and body text, or an
   * exception (network failure, unparsable body) with its `message`.
   */
  datatype Outcome =
    | Ok(data: Value)
    | HttpError(status: FailedStatus, body: string)
    | Thrown(message: string)

  /** A status for which `res.ok` is false: outside 200..299. */
  type FailedStatus = s: nat | !(200 <= s < 300) witness 0

  const RequestFailedPrefix: string := "Request failed: "
  const GenericFailure: string := "Something went wrong"

  /** `files?.[0]` on the file list of a picker or drop event; `None` is `undefined`. */
  function FirstFile(files: Option<seq<ImageFile>>): Option<ImageFile>
  {
    if files.Some? && |files.value| > 0 then Some(files.value[0]) else None
  }

  /**
   * The message of the `Error` thrown for a non-2xx response: the body text, or
   * a line naming the status when the body is empty. It is never empty, and the
   * status can be read back from it.
   */
  function HttpErrorMessage(status: nat, body: string): (m: string)
    ensures m != ""
    ensures body != "" ==> m == body
    ensures body == "" ==>
      && m == RequestFailedPrefix + Decimal.DecimalString(status)
      && Decimal.IsDigits(m[|RequestFailedPrefix|..])
      && Decimal.DecimalValue(m[|RequestFailedPrefix|..]) == status
  {
    if body != "" then body
    else
      var m := RequestFailedPrefix + Decimal.DecimalString(status);
      assert m[|RequestFailedPrefix|..] == Decimal.DecimalString(status);
      Decimal.DecimalRoundTrip(status);
      m
  }

  /** What the `catch` block stores: the error's message, or the generic text when that is empty. */
  function CaughtMessage(message: string): (m: string)
    ensures m != ""
    ensures message != "" ==> m == message
    ensures message == "" ==> m == GenericFailure
  {
    if message != "" then message else GenericFailure
  }

  /** The error text a failed request leaves in `error`. */
  function FailureMessage(o: Outcome): (m: string)
    requires !o.Ok?
    ensures m != ""
  {
    match o
    case HttpError(status, body) => CaughtMessage(HttpErrorMessage(status, body))
    case Thrown(message) => CaughtMessage(message)
  }

  /** `handleFileChange` and `onDrop` once the event carries a file `f`, whose object URL is `url`. */
  function Selected(s: State, f: ImageFile, url: ObjectUrl): State
  {
    s.(file := Some(f), result := JNull, error := "", preview := Some(url))
  }

  /** The synchronous part of `detect`, up to the `fetch`: nothing happens without a file. */
  function Started(s: State): State
  {
    if s.file.None? then s else s.(loading := true, error := "", result := JNull)
  }

  /** The `try`/`catch`/`finally` tail of `detect` once the request has settled with `o`. */
  function Finished(s: State, o: Outcome): State
  {
    match o
    case Ok(data) => s.(result := data, loading := false)
    case HttpError(_, _) => s.(error := FailureMessage(o), loading := false)
    case Thrown(_) => s.(error := FailureMessage(o), loading := false)
  }

  /** The inline Clear handler. */
  function Cleared(s: State): State
  {
    s.(file := None, preview := None, result := JNull, error := "")
  }

  /**
   * What holds of the cells in every state the page can reach, given the
   * object URLs `minted` so far (in order):
   * a preview exists exactly when a file does, and it is the newest URL, minted
   * for that file; while a request is in flight a file is selected and neither
   * a result nor an error is held; without a file neither is held either; an
   * error is never held beside a result.
   */
  predicate Consistent(s: State, minted: seq<ImageFile>)
  {
    && (s.file.Some? <==> s.preview.Some?)
    && (s.preview.Some? ==>
          && s.preview.value.serial == |minted| - 1
          && s.file == Some(minted[s.preview.value.serial]))
    && (s.loading ==> s.file.Some? && s.result == JNull && s.error == "")
    && (s.file.None? ==> s.result == JNull && s.error == "")
    && (s.error != "" ==> s.result == JNull)
  }

  /** "Exactly one of: a result is shown and no error, or no result and an error." */
  predicate Settled(s: State)
  {
    (Truthy(s.result) && s.error == "") != (!Truthy(s.result) && s.error != "")
  }

  lemma InitialConsistent(minted: seq<ImageFile>)
    ensures Consistent(Initial, minted)
  {
  }

  /** Selecting a file: the file and a new preview are set, result and error are reset, `loading` is kept. */
  lemma SelectedEffects(s: State, f: ImageFile, url: ObjectUrl)
    ensures var r := Selected(s, f, url);
      && r.file == Some(f) && r.preview == Some(url)
      && r.result == JNull && r.error == ""
      && r.loading == s.loading
  {
  }

  /** Selecting the newly minted URL's file keeps the invariant, and the preview is a URL never handed out before. */
  lemma SelectedKeepsConsistent(s: State, minted: seq<ImageFile>, f: ImageFile)
    requires Consistent(s, minted)
    ensures Consistent(Selected(s, f, ObjectUrl(|minted|)), minted + [f])
    ensures forall k :: 0 <= k < |minted| ==> Selected(s, f, ObjectUrl(|minted|)).preview != Some(ObjectUrl(k))
  {
  }

  /** Without a file, `detect` changes nothing. */
  lemma StartedWithoutFile(s: State)
    requires s.file.None?
    ensures Started(s) == s
  {
  }

  /** Starting a request sets `loading`, clears error and result, and keeps file and preview. */
  lemma StartedEffects(s: State)
    requires s.file.Some?
    ensures var r := Started(s);
      && r.loading && r.error == "" && r.result == JNull
      && r.file == s.file && r.preview == s.preview
  {
  }

  lemma StartedKeepsConsistent(s: State, minted: seq<ImageFile>)
    requires Consistent(s, minted)
    ensures Consistent(Started(s), minted)
  {
  }

  /**
   * Finishing a request always clears `loading` and leaves file and preview alone.
   * A non-2xx response shows its body, or the status line when the body is
   * empty (the generic fallback is never reached); an exception shows its
   * message, or the generic text when that is empty; neither touches `result`.
   */
  lemma FinishedEffects(s: State, o: Outcome)
    ensures var r := Finished(s, o);
      && !r.loading && r.file == s.file && r.preview == s.preview
      && (o.Ok? ==> r.result == o.data && r.error == s.error)
      && (o.HttpError? ==>
            && r.result == s.result
            && r.error == if o.body != "" then o.body else RequestFailedPrefix + Decimal.DecimalString(o.status))
      && (o.Thrown? ==>
            && r.result == s.result
            && r.error == if o.message != "" then o.message else GenericFailure)
  {
  }

  lemma FinishedKeepsConsistent(s: State, o: Outcome, minted: seq<ImageFile>)
    requires Consistent(s, minted) && s.loading
    ensures Consistent(Finished(s, o), minted)
  {
  }

  /**
   * After a request started from a consistent state completes, exactly one of
   * "result and no error" and "no result and an error" holds, unless the
   * service answered 2xx with a falsy JSON body (`null`, `false`, `0`, `""`),
   * which leaves neither.
   */
  lemma FinishedSettles(s: State, o: Outcome, minted: seq<ImageFile>)
    requires Consistent(s, minted) && s.loading
    ensures Settled(Finished(s, o)) <==> !(o.Ok? && !Truthy(o.data))
  {
  }

  /** Clear resets file, preview, result and error; a second Clear changes nothing more. */
  lemma ClearedEffects(s: State)
    ensures var r := Cleared(s);
      && r.file.None? && r.preview.None? && r.result == JNull && r.error == ""
      && r.loading == s.loading
      && Cleared(r) == r
  {
  }

  lemma ClearedKeepsConsistent(s: State, minted: seq<ImageFile>)
    requires Consistent(s, minted) && !s.loading
    ensures Consistent(Cleared(s), minted)
  {
  }
}
