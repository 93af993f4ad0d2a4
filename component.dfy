/**
 * The `App` component as an object: its five state cells as fields the
 * handlers assign one setter at a time, and the browser's object-URL registry
 * that `URL.createObjectURL` adds to.
 */
module Component {
  import opened Wrappers
  import opened Payload
  import opened Detector

  /**
   * The page's object-URL registry, as far as the component uses it: every
   * `URL.createObjectURL(f)` registers `f` under a new URL. The component never
   * calls `URL.revokeObjectURL`, so nothing is ever removed.
   */
  class ObjectUrls {
    var minted: seq<ImageFile>

    constructor ()
      ensures minted == []
    {
      minted := [];
    }

    method CreateObjectUrl(f: ImageFile) returns (url: ObjectUrl)
      modifies this
      ensures minted == old(minted) + [f]
      ensures url == ObjectUrl(|old(minted)|)
    {
      url := ObjectUrl(|minted|);
      minted := minted + [f];
    }
  }

  class App {
    var file: Option<ImageFile>
    var preview: Option<ObjectUrl>
    var result: Value
    var loading: bool
    var error: string
    const urls: ObjectUrls

    /** The values of the five cells. */
    function Snapshot(): State
      reads this
    {
      State(file, preview, result, loading, error)
    }

    ghost predicate Valid()
      reads this, urls
    {
      Consistent(Snapshot(), urls.minted)
    }

    /** The first render: every cell at its initial value. */
    constructor (urls: ObjectUrls)
      ensures Valid()
      ensures Snapshot() == Initial && this.urls == urls
    {
      file := None;
      preview := None;
      result := JNull;
      loading := false;
      error := "";
      this.urls := urls;
    }

    /** `handleFileChange`: the picker's `onChange`. An event without a file changes nothing. */
    method HandleFileChange(files: Option<seq<ImageFile>>)
      requires Valid()
      modifies this, urls
      ensures Valid()
      ensures FirstFile(files).None? ==>
        Snapshot() == old(Snapshot()) && urls.minted == old(urls.minted)
      ensures FirstFile(files).Some? ==>
        && urls.minted == old(urls.minted) + [FirstFile(files).value]
        && Snapshot() == Selected(old(Snapshot()), FirstFile(files).value, ObjectUrl(|old(urls.minted)|))
    {
      var f := FirstFile(files);
      if f.None? {
        return;
      }
      file := f;
      result := JNull;
      error := "";
      var url := urls.CreateObjectUrl(f.value);
      preview := Some(url);
      SelectedKeepsConsistent(old(Snapshot()), old(urls.minted), f.value);
    }

    /** `onDrop`: the drop zone's handler, with the same effect as the picker's. */
    method OnDrop(files: Option<seq<ImageFile>>)
      requires Valid()
      modifies this, urls
      ensures Valid()
      ensures FirstFile(files).None? ==>
        Snapshot() == old(Snapshot()) && urls.minted == old(urls.minted)
      ensures FirstFile(files).Some? ==>
        && urls.minted == old(urls.minted) + [FirstFile(files).value]
        && Snapshot() == Selected(old(Snapshot()), FirstFile(files).value, ObjectUrl(|old(urls.minted)|))
    {
      var f := FirstFile(files);
      if f.None? {
        return;
      }
      file := f;
      result := JNull;
      error := "";
      var url := urls.CreateObjectUrl(f.value);
      preview := Some(url);
      SelectedKeepsConsistent(old(Snapshot()), old(urls.minted), f.value);
    }

    /**
     * `detect` up to its `await`: returns the file the request carries (`None`
     * when no request is sent). It is only reachable through the Detect button,
     * which is disabled while a request is in flight.
     */
    method DetectStart() returns (sent: Option<ImageFile>)
      requires Valid() && !loading
      modifies this
      ensures Valid()
      ensures Snapshot() == Started(old(Snapshot()))
      ensures sent == old(file)
    {
      sent := file;
      if file.None? {
        return;
      }
      loading := true;
      error := "";
      result := JNull;
      StartedKeepsConsistent(old(Snapshot()), urls.minted);
    }

    /** `detect` after its `await`: the request that `DetectStart` sent has settled with `outcome`. */
    method DetectFinish(outcome: Outcome)
      requires Valid() && loading
      modifies this
      ensures Valid()
      ensures Snapshot() == Finished(old(Snapshot()), outcome)
    {
      match outcome {
        case Ok(data) =>
          result := data;
        case HttpError(status, body) =>
          error := CaughtMessage(HttpErrorMessage(status, body));
        case Thrown(message) =>
          error := CaughtMessage(message);
      }
      loading := false;
      FinishedKeepsConsistent(old(Snapshot()), outcome, urls.minted);
    }

    /** The Clear button's handler; the button is only rendered while no request is in flight. */
    method Clear()
      requires Valid() && !loading
      modifies this
      ensures Valid()
      ensures Snapshot() == Cleared(old(Snapshot()))
    {
      file := None;
      preview := None;
      result := JNull;
      error := "";
      ClearedKeepsConsistent(old(Snapshot()), urls.minted);
    }
  }
}
