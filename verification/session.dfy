/**
 * Repeated captures on one capture object.
 *
 * The object's `image` is documented as "the last screenshot taken". A
 * front end issues one `_grab_*` call after another; this module replays such
 * a sequence on the image slot, using the same slot functions the class
 * methods are specified by, and proves what the slot holds at the end: the
 * result of the last capture that was not abandoned by a cancelled selection.
 *
 * Exactly so when no fake cursor is requested. With a fake cursor the
 * `_grab_*` wrappers stamp the slot even after a cancelled selection, so a
 * cancelled capture can add a cursor stamp to the previous screenshot; the
 * equality then holds once cursor stamps are peeled off.
 */
module Session {
  import opened Options
  import opened Images
  import opened Screenshooter

  datatype Mode = Fullscreen | Selection | Window

  /** One `_grab_*` call together with everything the outside world answered during it. */
  datatype Request = Request(
    mode: Mode,
    delay: nat,
    captureCursor: bool,
    useCursor: Option<Glyph>,
    selection: SelectorOutcome,
    outcome: BackendOutcome,
    pointer: PointerQuery)

  /** The image slot after one `_grab_*` call, starting from `prev`. */
  function Dispatch(hasSelector: bool, tempfile: string, prev: Option<Image>, req: Request): Option<Image>
  {
    var grabbed :=
      if req.mode.Fullscreen? then CapturedImage(tempfile, req.outcome)
      else SelectionImage(hasSelector, prev, tempfile, req.selection, req.outcome);
    AfterWrapper(req.useCursor, grabbed, req.pointer)
  }

  /** A selection or window capture that the user cancelled in the selector. */
  predicate Abandoned(hasSelector: bool, req: Request)
  {
    !req.mode.Fullscreen? && hasSelector && req.selection.Cancelled?
  }

  /** The slot after the calls `reqs`, in order, starting from `init`. */
  function Replay(hasSelector: bool, tempfile: string, init: Option<Image>, reqs: seq<Request>): Option<Image>
    decreases |reqs|
  {
    if reqs == [] then init
    else Dispatch(hasSelector, tempfile, Replay(hasSelector, tempfile, init, reqs[..|reqs| - 1]), reqs[|reqs| - 1])
  }

  /** Reference meaning of "the last screenshot taken": what the last capture that was not abandoned produced. */
  function LastShot(hasSelector: bool, tempfile: string, init: Option<Image>, reqs: seq<Request>): Option<Image>
    decreases |reqs|
  {
    if reqs == [] then init
    else if Abandoned(hasSelector, reqs[|reqs| - 1]) then LastShot(hasSelector, tempfile, init, reqs[..|reqs| - 1])
    else Dispatch(hasSelector, tempfile, None, reqs[|reqs| - 1])
  }

  /** An image with its outer cursor stamps peeled off. */
  function Unstamped(img: Image): (r: Image)
    ensures !r.Stamped?
  {
    if img.Stamped? then Unstamped(img.base) else img
  }

  function UnstampedSlot(slot: Option<Image>): Option<Image>
  {
    if slot.Some? then Some(Unstamped(slot.value)) else None
  }

  /** A capture that is not abandoned does not look at the previous image. */
  lemma FreshCapture(hasSelector: bool, tempfile: string, prev: Option<Image>, req: Request)
    requires !Abandoned(hasSelector, req)
    ensures Dispatch(hasSelector, tempfile, prev, req) == Dispatch(hasSelector, tempfile, None, req)
  {
  }

  /**
   * An abandoned capture keeps the previous image up to cursor stamps, and
   * keeps it exactly when no fake cursor was asked for.
   */
  lemma AbandonedKeepsImage(hasSelector: bool, tempfile: string, prev: Option<Image>, req: Request)
    requires Abandoned(hasSelector, req)
    ensures UnstampedSlot(Dispatch(hasSelector, tempfile, prev, req)) == UnstampedSlot(prev)
    ensures req.useCursor.None? ==> Dispatch(hasSelector, tempfile, prev, req) == prev
  {
  }

  /**
   * As written, a selection or window capture cancelled in the selector,
   * with a fake cursor and a known pointer, stamps the previous screenshot
   * once more, whatever the delay, the cursor flag and the backend.
   */
  lemma CancelledSelectionStampsPrevious(tempfile: string, img: Image, req: Request)
    requires Abandoned(true, req) && req.useCursor.Some? && req.pointer.Pointer?
    ensures Dispatch(true, tempfile, Some(img), req)
            == Some(Stamped(img, req.useCursor.value, CursorRatio(Width(img), Height(img)),
                            Point(req.pointer.x, req.pointer.y)))
  {
  }

  /**
   * After any sequence of captures the slot holds the last screenshot taken:
   * exactly, when no call asked for a fake cursor; up to cursor stamps in
   * general.
   */
  lemma {:induction false} ReplayKeepsLastShot(hasSelector: bool, tempfile: string, init: Option<Image>, reqs: seq<Request>)
    ensures UnstampedSlot(Replay(hasSelector, tempfile, init, reqs)) == UnstampedSlot(LastShot(hasSelector, tempfile, init, reqs))
    ensures (forall i :: 0 <= i < |reqs| ==> reqs[i].useCursor.None?) ==>
              Replay(hasSelector, tempfile, init, reqs) == LastShot(hasSelector, tempfile, init, reqs)
    decreases |reqs|
  {
    if reqs != [] {
      var front, last := reqs[..|reqs| - 1], reqs[|reqs| - 1];
      var before := Replay(hasSelector, tempfile, init, front);
      ReplayKeepsLastShot(hasSelector, tempfile, init, front);
      if Abandoned(hasSelector, last) {
        AbandonedKeepsImage(hasSelector, tempfile, before, last);
        if forall i :: 0 <= i < |reqs| ==> reqs[i].useCursor.None? {
          assert forall i :: 0 <= i < |front| ==> front[i] == reqs[i];
        }
      } else {
        FreshCapture(hasSelector, tempfile, before, last);
      }
    }
  }
}
