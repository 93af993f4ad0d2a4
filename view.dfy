/**
 * The render rules of `App` that depend on its state: the guards on the two
 * buttons, the preview image, the error panel, the result placeholder and the
 * result card.
 */
module View {
  import opened Wrappers
  import opened Payload
  import opened Detector

  /** `disabled={!file || loading}` on the Detect button. */
  predicate DetectDisabled(s: State)
  {
    s.file.None? || s.loading
  }

  /** The Detect button's caption. */
  function DetectCaption(s: State): string
  {
    if s.loading then "Analyzing…" else "Detect floture"
  }

  /** `file && !loading`: whether the Clear button is rendered. */
  predicate ClearOffered(s: State)
  {
    s.file.Some? && !s.loading
  }

  /** `preview && <img src={preview}>`. */
  function PreviewImage(s: State): Option<ObjectUrl>
  {
    s.preview
  }

  /** `error && <div>{error}</div>`. */
  function ErrorPanel(s: State): Option<string>
  {
    if s.error != "" then Some(s.error) else None
  }

  const ProcessingText: string := "Processing image…"
  const NoResultText: string := "No result yet"
  const DetectedText: string := "Floture detected"
  const NotDetectedText: string := "Floture not detected"

  /** `!result && <div>{loading ? 'Processing image…' : 'No result yet'}</div>`. */
  function Placeholder(s: State): Option<string>
  {
    if Truthy(s.result) then None
    else if s.loading then Some(ProcessingText)
    else Some(NoResultText)
  }

  /**
   * The result card: the presence heading, the rounded percentage (`None` where
   * the confidence is a value whose numeric coercion is not modelled) and the
   * label, shown verbatim.
   */
  datatype ResultCard = ResultCard(detected: bool, heading: string, percent: Option<int>, labelValue: Option<Value>)

  /** `Math.round((result.confidence ?? 0) * 100)`. */
  function ConfidencePercent(result: Value): Option<int>
  {
    match ToNumber(Coalesce(Member(result, "confidence"), JNumber(0.0)))
    case None => None
    case Some(c) => Some(RoundedPercent(c))
  }

  /** `result && <div>...</div>`. */
  function Card(s: State): Option<ResultCard>
  {
    if !Truthy(s.result) then None
    else
      var detected := TruthyMember(Member(s.result, "detected"));
      Some(ResultCard(
        detected,
        if detected then DetectedText else NotDetectedText,
        ConfidencePercent(s.result),
        Member(s.result, "label")))
  }

  /** Detect is enabled exactly when a file is selected and no request is in flight, and Clear is offered under the same condition. */
  lemma GuardsAgree(s: State)
    ensures !DetectDisabled(s) <==> s.file.Some? && !s.loading
    ensures ClearOffered(s) <==> !DetectDisabled(s)
  {
  }

  /** The error panel is shown exactly when `error` is non-empty, and shows it unchanged. */
  lemma ErrorPanelShowsError(s: State)
    ensures ErrorPanel(s).Some? <==> s.error != ""
    ensures ErrorPanel(s).Some? ==> ErrorPanel(s).value == s.error
  {
  }

  /**
   * The result column shows exactly one of the placeholder and the card; the
   * placeholder reads "Processing image…" exactly while a request is in flight.
   */
  lemma ResultColumnShowsOne(s: State)
    ensures Placeholder(s).Some? != Card(s).Some?
    ensures Placeholder(s).Some? ==> (Placeholder(s).value == ProcessingText <==> s.loading)
  {
  }

  /** The card's heading says "detected" exactly when the body's `detected` property is truthy. */
  lemma CardHeadingFollowsDetected(s: State)
    requires Card(s).Some?
    ensures Card(s).value.heading == DetectedText <==> TruthyMember(Member(s.result, "detected"))
    ensures Card(s).value.heading == NotDetectedText <==> !TruthyMember(Member(s.result, "detected"))
  {
  }

  /**
   * A missing or `null` confidence shows as 0%; a numeric confidence in [0, 1]
   * shows as a whole percentage in [0, 100] within half a point of it.
   */
  lemma ConfidencePercentBounds(result: Value)
    ensures Member(result, "confidence").None? || Member(result, "confidence") == Some(JNull) ==>
      ConfidencePercent(result) == Some(0)
    ensures Member(result, "confidence").Some? && Member(result, "confidence").value.JNumber? ==>
      var c := Member(result, "confidence").value.n;
      && ConfidencePercent(result).Some?
      && 100.0 * c - 0.5 < ConfidencePercent(result).value as real <= 100.0 * c + 0.5
      && (0.0 <= c <= 1.0 ==> 0 <= ConfidencePercent(result).value <= 100)
  {
  }
}
