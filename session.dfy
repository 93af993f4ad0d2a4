/**
 * A page session as a sequence of user and network events, each applied
 * through the guards the rendered page imposes: a disabled Detect button does
 * nothing, the Clear button exists only when offered, and a request settles
 * only while one is in flight.
 */
module Session {
  import opened Wrappers
  import opened Payload
  import opened Detector
  import opened View
  import Decimal

  datatype Event =
    | Picked(files: Option<seq<ImageFile>>)
    | Dropped(files: Option<seq<ImageFile>>)
    | DetectClicked
    | Settled(outcome: Outcome)
    | ClearClicked

  /** The component's cells together with the object URLs minted so far. */
  datatype Page = Page(app: State, minted: seq<ImageFile>)

  const Fresh: Page := Page(Initial, [])

  /** A picker or drop event: a file is selected and its object URL minted, or nothing happens. */
  function Choose(p: Page, files: Option<seq<ImageFile>>): Page
  {
    match FirstFile(files)
    case None => p
    case Some(f) => Page(Selected(p.app, f, ObjectUrl(|p.minted|)), p.minted + [f])
  }

  function Step(p: Page, e: Event): Page
  {
    match e
    case Picked(files) => Choose(p, files)
    case Dropped(files) => Choose(p, files)
    case DetectClicked => if DetectDisabled(p.app) then p else p.(app := Started(p.app))
    case Settled(o) => if p.app.loading then p.(app := Finished(p.app, o)) else p
    case ClearClicked => if ClearOffered(p.app) then p.(app := Cleared(p.app)) else p
  }

  function Run(p: Page, events: seq<Event>): Page
    decreases |events|
  {
    if events == [] then p else Run(Step(p, events[0]), events[1..])
  }

  /** Every event, passed through the guards of the rendered page, keeps the invariant. */
  lemma StepKeepsConsistent(p: Page, e: Event)
    requires Consistent(p.app, p.minted)
    ensures Consistent(Step(p, e).app, Step(p, e).minted)
  {
  }

  /** Every state reachable from a consistent one is consistent. */
  lemma {:induction false} RunKeepsConsistent(p: Page, events: seq<Event>)
    requires Consistent(p.app, p.minted)
    ensures Consistent(Run(p, events).app, Run(p, events).minted)
    decreases |events|
  {
    if events != [] {
      StepKeepsConsistent(p, events[0]);
      RunKeepsConsistent(Step(p, events[0]), events[1..]);
    }
  }

  /** Object URLs are only ever added: no URL minted earlier is released later. */
  lemma {:induction false} MintedNeverReleased(p: Page, events: seq<Event>)
    ensures p.minted <= Run(p, events).minted
    decreases |events|
  {
    if events != [] {
      MintedNeverReleased(Step(p, events[0]), events[1..]);
    }
  }

  /** A picker or drop event without a file changes nothing, and picker and drop always agree. */
  lemma EmptyEventChangesNothing(p: Page, files: Option<seq<ImageFile>>)
    requires files.None? || files.value == []
    ensures Step(p, Picked(files)) == p && Step(p, Dropped(files)) == p
    ensures forall fs :: Step(p, Picked(fs)) == Step(p, Dropped(fs))
  {
  }

  /** Right after a selection or a Clear, neither a result nor an error is held. */
  lemma SelectOrClearDropsOutcome(p: Page, e: Event)
    requires e.Picked? || e.Dropped? || e.ClearClicked?
    requires Step(p, e) != p
    ensures Step(p, e).app.result == JNull && Step(p, e).app.error == ""
  {
  }

  /** A click on Detect while a request is in flight sends nothing and changes nothing. */
  lemma NoSecondRequest(p: Page)
    requires p.app.loading
    ensures Step(p, DetectClicked) == p
  {
  }

  /** In every reachable state the error panel and the result card are never shown together. */
  lemma ErrorAndCardExclusive(events: seq<Event>)
    ensures var s := Run(Fresh, events).app;
      !(ErrorPanel(s).Some? && Card(s).Some?)
  {
    InitialConsistent([]);
    RunKeepsConsistent(Fresh, events);
  }

  /**
   * In every reachable state where a request is in flight, a file is selected,
   * the placeholder reads "Processing image…", no error is shown, Detect is
   * disabled and captioned "Analyzing…", and Clear is not offered.
   */
  lemma WhileLoading(events: seq<Event>)
    requires Run(Fresh, events).app.loading
    ensures var s := Run(Fresh, events).app;
      && s.file.Some?
      && Placeholder(s) == Some(ProcessingText)
      && ErrorPanel(s).None?
      && DetectDisabled(s) && DetectCaption(s) == "Analyzing…" && !ClearOffered(s)
  {
    InitialConsistent([]);
    RunKeepsConsistent(Fresh, events);
  }

  /**
   * In every reachable state with a request in flight, a failed outcome shows
   * exactly its error message, no card, and the "No result yet" placeholder.
   */
  lemma FailureShownAfterAnySession(events: seq<Event>, o: Outcome)
    requires !o.Ok? && Run(Fresh, events).app.loading
    ensures var s := Step(Run(Fresh, events), Settled(o)).app;
      && ErrorPanel(s) == Some(FailureMessage(o))
      && Card(s).None?
      && Placeholder(s) == Some(NoResultText)
  {
    InitialConsistent([]);
    RunKeepsConsistent(Fresh, events);
  }

  /**
   * Whatever the outcome, a failure is not fatal: once a request started in
   * any session has settled, Detect is enabled again and Clear is offered.
   */
  lemma RetryPossibleAfterSettled(events: seq<Event>, o: Outcome)
    requires Run(Fresh, events).app.loading
    ensures var s := Step(Run(Fresh, events), Settled(o)).app;
      !DetectDisabled(s) && ClearOffered(s)
  {
    InitialConsistent([]);
    RunKeepsConsistent(Fresh, events);
  }

  /**
   * In every reachable state without a file, no card and no error are shown,
   * and the result column reads "No result yet".
   */
  lemma NothingShownWithoutFile(events: seq<Event>)
    ensures var s := Run(Fresh, events).app;
      s.file.None? ==> Card(s).None? && ErrorPanel(s).None? && Placeholder(s) == Some(NoResultText)
  {
    InitialConsistent([]);
    RunKeepsConsistent(Fresh, events);
  }

  /** In every reachable state the preview is the object URL of the selected file. */
  lemma PreviewShowsSelectedFile(events: seq<Event>)
    ensures var p := Run(Fresh, events);
      && (PreviewImage(p.app).Some? <==> p.app.file.Some?)
      && (PreviewImage(p.app).Some? ==>
            PreviewImage(p.app).value.serial < |p.minted| &&
            p.app.file == Some(p.minted[PreviewImage(p.app).value.serial]))
  {
    InitialConsistent([]);
    RunKeepsConsistent(Fresh, events);
  }

  /** Three events in a row. */
  lemma RunThree(p: Page, a: Event, b: Event, c: Event)
    ensures Run(p, [a, b, c]) == Step(Step(Step(p, a), b), c)
  {
    assert [a, b, c][1..] == [b, c];
    assert [b, c][1..] == [c];
    assert [c][1..] == [];
    assert Run(Step(Step(Step(p, a), b), c), []) == Step(Step(Step(p, a), b), c);
    assert Run(Step(Step(p, a), b), [c]) == Step(Step(Step(p, a), b), c);
    assert Run(Step(p, a), [b, c]) == Step(Step(Step(p, a), b), c);
  }

  /** Four events in a row. */
  lemma RunFour(p: Page, a: Event, b: Event, c: Event, d: Event)
    ensures Run(p, [a, b, c, d]) == Step(Step(Step(Step(p, a), b), c), d)
  {
    assert [a, b, c, d][1..] == [b, c, d];
    RunThree(Step(p, a), b, c, d);
  }

  // Scenarios

  const Flower: ImageFile := ImageFile("flower.jpg", "image/jpeg", 1024)

  const FlotureBody: Value := JObject(map[
    "detected" := JBool(true),
    "confidence" := JNumber(0.87),
    "label" := JString("floture"),
    "metrics" := JObject(map[
      "red_ratio" := JNumber(0.41),
      "saturation" := JNumber(0.72),
      "width" := JNumber(800.0),
      "height" := JNumber(600.0)])])

  /** A successful detection shows the card: detected, 87%, labelled "floture", and no error. */
  lemma SuccessScenario()
    ensures var s := Run(Fresh, [Picked(Some([Flower])), DetectClicked, Settled(Ok(FlotureBody))]).app;
      && !s.loading
      && Card(s) == Some(ResultCard(true, DetectedText, Some(87), Some(JString("floture"))))
      && ErrorPanel(s).None?
  {
    RunThree(Fresh, Picked(Some([Flower])), DetectClicked, Settled(Ok(FlotureBody)));
  }

  /** A 500 answer with body "model unavailable" shows that text and no card. */
  lemma ServiceErrorScenario()
    ensures var s := Run(Fresh, [Dropped(Some([Flower])), DetectClicked,
                                Settled(HttpError(500, "model unavailable"))]).app;
      && !s.loading && ErrorPanel(s) == Some("model unavailable") && Card(s).None?
  {
    RunThree(Fresh, Dropped(Some([Flower])), DetectClicked, Settled(HttpError(500, "model unavailable")));
  }

  /** A 502 answer with an empty body shows the status line. */
  lemma EmptyServiceErrorScenario()
    ensures var s := Run(Fresh, [Picked(Some([Flower])), DetectClicked, Settled(HttpError(502, ""))]).app;
      ErrorPanel(s) == Some("Request failed: 502")
  {
    RunThree(Fresh, Picked(Some([Flower])), DetectClicked, Settled(HttpError(502, "")));
    assert Decimal.DecimalString(5) == "5";
    assert Decimal.DecimalString(50) == "50";
    assert Decimal.DecimalString(502) == "502";
    assert RequestFailedPrefix + "502" == "Request failed: 502";
  }

  /** A transport failure without a message shows the generic text. */
  lemma TransportFailureScenario()
    ensures var s := Run(Fresh, [Picked(Some([Flower])), DetectClicked, Settled(Thrown(""))]).app;
      && !s.loading && ErrorPanel(s) == Some(GenericFailure) && Card(s).None?
  {
    RunThree(Fresh, Picked(Some([Flower])), DetectClicked, Settled(Thrown("")));
  }

  /** Clearing twice ends where clearing once does. */
  lemma ClearTwiceScenario(events: seq<Event>)
    ensures var once := Run(Fresh, events + [ClearClicked]);
      Step(once, ClearClicked) == once
  {
    assert Run(Fresh, events + [ClearClicked]) == Step(Run(Fresh, events), ClearClicked) by {
      RunAppend(Fresh, events, ClearClicked);
    }
  }

  lemma {:induction false} RunAppend(p: Page, events: seq<Event>, e: Event)
    ensures Run(p, events + [e]) == Step(Run(p, events), e)
    decreases |events|
  {
    if events == [] {
      assert events + [e] == [e];
    } else {
      assert (events + [e])[1..] == events[1..] + [e];
      RunAppend(Step(p, events[0]), events[1..], e);
    }
  }

  /**
   * The picker and the drop zone stay active while a request is in flight, so a
   * second file can be chosen then; the first file's answer is shown against it.
   */
  lemma LateAnswerShownForNewFile(other: ImageFile)
    requires other != Flower
    ensures var s := Run(Fresh, [Picked(Some([Flower])), DetectClicked, Picked(Some([other])),
                                 Settled(Ok(FlotureBody))]).app;
      s.file == Some(other) && Card(s).Some?
  {
    RunFour(Fresh, Picked(Some([Flower])), DetectClicked, Picked(Some([other])), Settled(Ok(FlotureBody)));
  }

  /** A 2xx answer whose JSON body is `null` leaves neither a card nor an error. */
  lemma NullBodyShowsNothing()
    ensures var s := Run(Fresh, [Picked(Some([Flower])), DetectClicked, Settled(Ok(JNull))]).app;
      && !s.loading && Card(s).None? && ErrorPanel(s).None? && Placeholder(s) == Some(NoResultText)
  {
    RunThree(Fresh, Picked(Some([Flower])), DetectClicked, Settled(Ok(JNull)));
  }
}
