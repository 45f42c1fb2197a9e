/**
 * The capture object of gscreenshot: one image slot, refilled by full-screen
 * and selection captures and optionally stamped with a fake cursor.
 *
 * The source has an abstract base class whose `grab_fullscreen` only raises,
 * and one concrete backend shown, `Imlib2`, which overrides it. Dafny classes
 * do not inherit, so the class `Imlib2` below carries the base-class members
 * together with the Imlib2 override.
 *
 * Everything outside the process enters as a parameter: what the region
 * selector answered, how the backend program and the image load ended, and
 * what the pointer query returned. A ghost trace records the calls the object
 * makes, in order, so that contracts can say which delegations happen.
 */
module Screenshooter {
  import opened Options
  import opened Images

  /** How a call of the region selector ended. */
  datatype SelectorOutcome =
    | Cancelled            // SelectionCancelled
    | ExecError            // OSError or SelectionExecError
    | ParseError           // SelectionParseError
    | Region(box: Box)     // a crop box

  /**
   * How one backend run ended: the program failed or could not start
   * (CalledProcessError, OSError); it ran but its output file could not be
   * read (IOError); or the file was read, with a size, and then removed or
   * not (`unlinked` false: the removal raised OSError).
   */
  datatype BackendOutcome =
    | ProcessFailed
    | Unreadable
    | Read(width: nat, height: nat, unlinked: bool)

  /** What the pointer query of `get_cursor_position` meets. */
  datatype PointerQuery =
    | NoXlib               // the Xlib bindings are not importable
    | QueryFailed          // the query raised
    | Pointer(x: int, y: int)

  /** Capabilities a backend can declare. */
  datatype Capability = NativeCursor

  /** The calls the object makes, as they appear in its trace. */
  datatype Event =
    | SelectorRan                                  // selector.region_select()
    | FullscreenGrab(delay: nat, captureCursor: bool)  // entry of grab_fullscreen
    | Slept(seconds: nat)
    | Exec(command: seq<string>)                   // subprocess.check_output
    | Open(path: string)                           // PIL.Image.open
    | Unlink(path: string)                         // os.unlink
    | PointerQueried                               // get_cursor_position()

  const Imlib2Program := "imlib2_grab"

  /** The argument vector `_call_screenshooter` runs; absent params mean none. */
  function Command(program: string, params: Option<seq<string>>): (r: seq<string>)
    ensures |r| >= 1 && r[0] == program
    ensures r[1..] == params.GetOr([])
    ensures params.None? ==> r == [program]
  {
    [program] + params.GetOr([])
  }

  /** The command the Imlib2 backend issues: the program and the temp file, nothing else. */
  function Imlib2Command(tempfile: string): (r: seq<string>)
    ensures r == [Imlib2Program, tempfile]
  {
    Command(Imlib2Program, Some([tempfile]))
  }

  /** Whether a backend run leaves an image behind. */
  predicate Succeeded(outcome: BackendOutcome)
  {
    outcome.Read? && outcome.unlinked
  }

  /** The image slot after `_call_screenshooter`. */
  function CapturedImage(tempfile: string, outcome: BackendOutcome): Option<Image>
  {
    if Succeeded(outcome) then Some(Loaded(tempfile, outcome.width, outcome.height)) else None
  }

  /** The calls `_call_screenshooter` makes: the program, then the load, then the removal. */
  function CallEvents(command: seq<string>, tempfile: string, outcome: BackendOutcome): seq<Event>
  {
    [Exec(command)] +
    match outcome
    case ProcessFailed => []
    case Unreadable => [Open(tempfile)]
    case Read(_, _, _) => [Open(tempfile), Unlink(tempfile)]
  }

  /** The calls of one Imlib2 `grab_fullscreen`. */
  function FullscreenEvents(tempfile: string, delay: nat, captureCursor: bool, outcome: BackendOutcome): seq<Event>
  {
    [FullscreenGrab(delay, captureCursor), Slept(delay)] + CallEvents(Imlib2Command(tempfile), tempfile, outcome)
  }

  /** A crop of the captured image, when there is one. */
  function CropIfPresent(img: Option<Image>, box: Box): Option<Image>
  {
    if img.Some? then Some(Cropped(img.value, box)) else None
  }

  /** The image slot after `grab_selection`, starting from `prev`. */
  function SelectionImage(hasSelector: bool, prev: Option<Image>, tempfile: string,
                          selection: SelectorOutcome, outcome: BackendOutcome): Option<Image>
  {
    if !hasSelector then CapturedImage(tempfile, outcome)
    else match selection
      case Cancelled => prev
      case ExecError => CapturedImage(tempfile, outcome)
      case ParseError => CapturedImage(tempfile, outcome)
      case Region(box) => CropIfPresent(CapturedImage(tempfile, outcome), box)
  }

  /** The calls of one `grab_selection`. */
  function SelectionEvents(hasSelector: bool, tempfile: string, delay: nat, captureCursor: bool,
                           selection: SelectorOutcome, outcome: BackendOutcome): seq<Event>
  {
    if !hasSelector then FullscreenEvents(tempfile, delay, captureCursor, outcome)
    else [SelectorRan] + (if selection.Cancelled? then [] else FullscreenEvents(tempfile, delay, captureCursor, outcome))
  }

  /** `get_cursor_position`: the pointer's root coordinates, or nothing when the query is impossible or fails. */
  function CursorPosition(query: PointerQuery): (r: Option<Point>)
    ensures r.Some? <==> query.Pointer?
    ensures query.Pointer? ==> r.value == Point(query.x, query.y)
  {
    match query
    case NoXlib => None
    case QueryFailed => None
    case Pointer(x, y) => Some(Point(x, y))
  }

  /**
   * The image slot after `add_fake_cursor`: nothing to stamp without an image
   * or a pointer position; otherwise a stamped copy whose glyph is the one
   * supplied (the Adwaita resource when none is), recorded with the
   * cursor-size ratio of the screenshot, at the absolute pointer position.
   */
  function WithFakeCursor(img: Option<Image>, pos: Option<Point>, cursorImg: Option<Glyph>): (r: Option<Image>)
    ensures img.None? || pos.None? ==> r == img
    ensures img.Some? && pos.Some? ==>
      && r.Some? && r.value.Stamped?
      && r.value.base == img.value
      && r.value.at == pos.value
      && r.value.glyph == (if cursorImg.Some? then cursorImg.value else Adwaita)
      && r.value.ratio >= MinCursorRatio
      && Width(r.value) == Width(img.value) && Height(r.value) == Height(img.value)
  {
    if img.None? || pos.None? then img
    else
      var shot := img.value;
      Some(Stamped(shot, cursorImg.GetOr(Adwaita), CursorRatio(Width(shot), Height(shot)), pos.value))
  }

  /** The pointer is queried only when there is an image to stamp. */
  function CursorEvents(img: Option<Image>): seq<Event>
  {
    if img.Some? then [PointerQueried] else []
  }

  /** The image slot after a `_grab_*` wrapper, given what the grab itself left. */
  function AfterWrapper(useCursor: Option<Glyph>, grabbed: Option<Image>, pointer: PointerQuery): Option<Image>
  {
    if useCursor.None? then grabbed else WithFakeCursor(grabbed, CursorPosition(pointer), useCursor)
  }

  /**
   * The shape every image in the slot has: a load of this object's temp
   * file, possibly cropped once, under any number of cursor stamps. No crop
   * is ever applied over a stamp.
   */
  ghost predicate Layered(img: Image, tempfile: string)
  {
    match img
    case Loaded(file, _, _) => file == tempfile
    case Cropped(source, _) => source.Loaded? && source.file == tempfile
    case Stamped(base, _, _, _) => Layered(base, tempfile)
  }

  /** Event `i` is in order: a load follows a program run, a removal follows the load of that file. */
  ghost predicate OrderedAt(t: seq<Event>, i: nat)
    requires i < |t|
  {
    && (t[i].Open? ==> 0 < i && t[i - 1].Exec?)
    && (t[i].Unlink? ==> 0 < i && t[i - 1] == Open(t[i].path))
  }

  ghost predicate WellOrdered(t: seq<Event>)
  {
    forall i :: 0 <= i < |t| ==> OrderedAt(t, i)
  }

  /** One event keeps a trace well ordered when it is in order at the end of it. */
  lemma Extend(t: seq<Event>, e: Event)
    requires WellOrdered(t)
    requires e.Open? ==> |t| > 0 && t[|t| - 1].Exec?
    requires e.Unlink? ==> |t| > 0 && t[|t| - 1] == Open(e.path)
    ensures WellOrdered(t + [e])
  {
    var u := t + [e];
    forall i | 0 <= i < |u|
      ensures OrderedAt(u, i)
    {
      if i < |t| {
        assert u[i] == t[i];
        assert OrderedAt(t, i);
        if 0 < i { assert u[i - 1] == t[i - 1]; }
      } else {
        assert u[i] == e;
        if 0 < i { assert u[i - 1] == t[|t| - 1]; }
      }
    }
  }

  class Imlib2 {
    /** The last screenshot taken, if any. */
    var image: Option<Image>
    /** Whether a region selector was found when the object was made. */
    const hasSelector: bool
    /** The per-process file the backend writes to. */
    const tempfile: string
    /** The calls made so far. */
    ghost var trace: seq<Event>

    ghost predicate Valid()
      reads this
    {
      && WellOrdered(trace)
      && (image.Some? ==> Layered(image.value, tempfile) && Unlink(tempfile) in trace)
    }

    constructor (hasSelector: bool, tempfile: string)
      ensures Valid()
      ensures this.hasSelector == hasSelector && this.tempfile == tempfile
      ensures image == None && trace == []
    {
      this.hasSelector := hasSelector;
      this.tempfile := tempfile;
      image := None;
      trace := [];
    }

    /** Imlib2 declares no capability: in particular it cannot capture the cursor itself. */
    function GetCapabilities(): (r: seq<Capability>)
      ensures NativeCursor !in r
      ensures |r| == 0
    {
      []
    }

    /**
     * `_call_screenshooter`: run the program, then load the temp file into
     * the slot and remove the file. Any failure on the way empties the slot;
     * the previous image is not kept.
     */
    method CallScreenshooter(program: string, params: Option<seq<string>>, outcome: BackendOutcome)
      returns (ok: bool)
      requires Valid()
      modifies this
      ensures Valid()
      ensures ok <==> Succeeded(outcome)
      ensures ok ==> image == Some(Loaded(tempfile, outcome.width, outcome.height))
      ensures !ok ==> image == None
      ensures trace == old(trace) + CallEvents(Command(program, params), tempfile, outcome)
    {
      var command := Command(program, params);
      Extend(trace, Exec(command));
      trace := trace + [Exec(command)];
      if outcome.ProcessFailed? {
        image := None;
        return false;
      }
      Extend(trace, Open(tempfile));
      trace := trace + [Open(tempfile)];
      if outcome.Unreadable? {
        image := None;
        return false;
      }
      image := Some(Loaded(tempfile, outcome.width, outcome.height));
      Extend(trace, Unlink(tempfile));
      trace := trace + [Unlink(tempfile)];
      if !outcome.unlinked {
        image := None;
        return false;
      }
      ok := true;
    }

    /**
     * Imlib2's `grab_fullscreen`: sleep for the delay, then run exactly
     * `imlib2_grab <tempfile>`. The cursor flag is accepted and ignored.
     */
    method GrabFullscreen(delay: nat, captureCursor: bool, outcome: BackendOutcome)
      requires Valid()
      modifies this
      ensures Valid()
      ensures image == CapturedImage(tempfile, outcome)
      ensures trace == old(trace) + FullscreenEvents(tempfile, delay, captureCursor, outcome)
      ensures trace[|old(trace)| + 1..] == [Slept(delay)] + CallEvents([Imlib2Program, tempfile], tempfile, outcome)
    {
      Extend(trace, FullscreenGrab(delay, captureCursor));
      trace := trace + [FullscreenGrab(delay, captureCursor)];
      Extend(trace, Slept(delay));
      trace := trace + [Slept(delay)];
      var ok := CallScreenshooter(Imlib2Program, Some([tempfile]), outcome);
      assert Command(Imlib2Program, Some([tempfile])) == Imlib2Command(tempfile) == [Imlib2Program, tempfile];
      ghost var rest := [Slept(delay)] + CallEvents([Imlib2Program, tempfile], tempfile, outcome);
      assert trace == (old(trace) + [FullscreenGrab(delay, captureCursor)]) + rest;
    }

    /** `_grab_selection_fallback`: exactly a full-screen grab with the same arguments. */
    method GrabSelectionFallback(delay: nat, captureCursor: bool, outcome: BackendOutcome)
      requires Valid()
      modifies this
      ensures Valid()
      ensures image == CapturedImage(tempfile, outcome)
      ensures trace == old(trace) + FullscreenEvents(tempfile, delay, captureCursor, outcome)
    {
      GrabFullscreen(delay, captureCursor, outcome);
    }

    /**
     * `grab_selection`: without a selector, the fallback; otherwise ask the
     * selector first. A cancelled selection changes nothing more; a selector
     * that failed to run or gave unreadable output degrades to a full-screen
     * grab with the same arguments; a box crops the full-screen grab, if it
     * produced an image.
     */
    method GrabSelection(delay: nat, captureCursor: bool, selection: SelectorOutcome, outcome: BackendOutcome)
      requires Valid()
      modifies this
      ensures Valid()
      ensures image == SelectionImage(hasSelector, old(image), tempfile, selection, outcome)
      ensures trace == old(trace) + SelectionEvents(hasSelector, tempfile, delay, captureCursor, selection, outcome)
      ensures !hasSelector ==>
        image == CapturedImage(tempfile, outcome) &&
        trace == old(trace) + FullscreenEvents(tempfile, delay, captureCursor, outcome)
      ensures hasSelector && selection.Cancelled? ==>
        image == old(image) && trace == old(trace) + [SelectorRan]
      ensures hasSelector && (selection.ExecError? || selection.ParseError?) ==>
        image == CapturedImage(tempfile, outcome) &&
        trace == old(trace) + [SelectorRan] + FullscreenEvents(tempfile, delay, captureCursor, outcome)
      ensures hasSelector && selection.Region? ==>
        image == (if Succeeded(outcome) then Some(Cropped(Loaded(tempfile, outcome.width, outcome.height), selection.box)) else None) &&
        trace == old(trace) + [SelectorRan] + FullscreenEvents(tempfile, delay, captureCursor, outcome)
    {
      if !hasSelector {
        GrabSelectionFallback(delay, captureCursor, outcome);
        return;
      }
      trace := trace + [SelectorRan];
      assert Unlink(tempfile) in old(trace) ==> Unlink(tempfile) in trace;
      assert WellOrdered(trace) by { Extend(old(trace), SelectorRan); }
      match selection
      case Cancelled =>
        return;
      case ExecError =>
        GrabSelectionFallback(delay, captureCursor, outcome);
        return;
      case ParseError =>
        GrabFullscreen(delay, captureCursor, outcome);
        return;
      case Region(box) =>
        GrabFullscreen(delay, captureCursor, outcome);
        if image.Some? {
          image := Some(Cropped(image.value, box));
        }
    }

    /** `grab_window`: the same as `grab_selection` for every input. */
    method GrabWindow(delay: nat, captureCursor: bool, selection: SelectorOutcome, outcome: BackendOutcome)
      requires Valid()
      modifies this
      ensures Valid()
      ensures image == SelectionImage(hasSelector, old(image), tempfile, selection, outcome)
      ensures trace == old(trace) + SelectionEvents(hasSelector, tempfile, delay, captureCursor, selection, outcome)
    {
      GrabSelection(delay, captureCursor, selection, outcome);
    }

    /**
     * `add_fake_cursor`: with an image and a known pointer position, replace
     * the image by a stamped copy; otherwise leave the slot alone. The
     * pointer is queried only when there is an image.
     */
    method AddFakeCursor(cursorImg: Option<Glyph>, pointer: PointerQuery)
      requires Valid()
      modifies this
      ensures Valid()
      ensures image == WithFakeCursor(old(image), CursorPosition(pointer), cursorImg)
      ensures trace == old(trace) + CursorEvents(old(image))
    {
      if image.None? {
        return;
      }
      Extend(trace, PointerQueried);
      trace := trace + [PointerQueried];
      assert Unlink(tempfile) in old(trace);
      var cursorPos := CursorPosition(pointer);
      if cursorPos.None? {
        return;
      }
      var glyph := if cursorImg.None? then Adwaita else cursorImg.value;
      var shot := image.value;
      var ratio := CursorRatio(Width(shot), Height(shot));
      image := Some(Stamped(shot, glyph, ratio, cursorPos.value));
    }

    /**
     * `_grab_fullscreen`: without a cursor image, a plain full-screen grab
     * with the caller's cursor flag; with one, a grab that does not capture
     * the cursor, followed by a fake cursor.
     */
    method InternalGrabFullscreen(delay: nat, captureCursor: bool, useCursor: Option<Glyph>,
                                  outcome: BackendOutcome, pointer: PointerQuery)
      requires Valid()
      modifies this
      ensures Valid()
      ensures image == AfterWrapper(useCursor, CapturedImage(tempfile, outcome), pointer)
      ensures useCursor.None? ==>
        trace == old(trace) + FullscreenEvents(tempfile, delay, captureCursor, outcome)
      ensures useCursor.Some? ==>
        trace == old(trace) + FullscreenEvents(tempfile, delay, false, outcome)
                 + CursorEvents(CapturedImage(tempfile, outcome))
    {
      if useCursor.None? {
        GrabFullscreen(delay, captureCursor, outcome);
      } else {
        GrabFullscreen(delay, false, outcome);
        AddFakeCursor(useCursor, pointer);
      }
    }

    /** `_grab_selection`: as `_grab_fullscreen`, around `grab_selection`; the stamp comes after any crop. */
    method InternalGrabSelection(delay: nat, captureCursor: bool, useCursor: Option<Glyph>,
                                 selection: SelectorOutcome, outcome: BackendOutcome, pointer: PointerQuery)
      requires Valid()
      modifies this
      ensures Valid()
      ensures image == AfterWrapper(useCursor, SelectionImage(hasSelector, old(image), tempfile, selection, outcome), pointer)
      ensures useCursor.None? ==>
        trace == old(trace) + SelectionEvents(hasSelector, tempfile, delay, captureCursor, selection, outcome)
      ensures useCursor.Some? ==>
        trace == old(trace) + SelectionEvents(hasSelector, tempfile, delay, false, selection, outcome)
                 + CursorEvents(SelectionImage(hasSelector, old(image), tempfile, selection, outcome))
    {
      if useCursor.None? {
        GrabSelection(delay, captureCursor, selection, outcome);
      } else {
        GrabSelection(delay, false, selection, outcome);
        AddFakeCursor(useCursor, pointer);
      }
    }

    /** `_grab_window`: as `_grab_selection`, around `grab_window`. */
    method InternalGrabWindow(delay: nat, captureCursor: bool, useCursor: Option<Glyph>,
                              selection: SelectorOutcome, outcome: BackendOutcome, pointer: PointerQuery)
      requires Valid()
      modifies this
      ensures Valid()
      ensures image == AfterWrapper(useCursor, SelectionImage(hasSelector, old(image), tempfile, selection, outcome), pointer)
      ensures useCursor.None? ==>
        trace == old(trace) + SelectionEvents(hasSelector, tempfile, delay, captureCursor, selection, outcome)
      ensures useCursor.Some? ==>
        trace == old(trace) + SelectionEvents(hasSelector, tempfile, delay, false, selection, outcome)
                 + CursorEvents(SelectionImage(hasSelector, old(image), tempfile, selection, outcome))
    {
      if useCursor.None? {
        GrabWindow(delay, captureCursor, selection, outcome);
      } else {
        GrabWindow(delay, false, selection, outcome);
        AddFakeCursor(useCursor, pointer);
      }
    }
  }
}
