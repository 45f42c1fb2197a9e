# gscreenshot capture dispatch, modelled in Dafny

gscreenshot is a desktop screenshot tool that drives external capture
programs. This project models three parts of it:

- The capture object (`Screenshooter`, here with its `Imlib2` backend) and
  the single image slot it keeps. A full-screen grab runs
  `imlib2_grab <tempfile>`, loads the temp file and removes it. A selection
  grab asks the region selector first. It then either gives up (the user
  cancelled), degrades to a full-screen grab (no selector, or the selector
  failed to run or gave unreadable output), or crops a full-screen grab to
  the chosen box. A window grab is the same as a selection grab. The
  `_grab_*` wrappers can turn off native cursor capture and stamp a fake
  cursor glyph instead. The stamp is sized from the cursor-size ratio and
  placed at the pointer position.
- Repeated captures on one object. The slot holds "the last screenshot
  taken".
- The command-line front end after argument parsing. It picks the kind of
  capture, decides whether to save, open and copy the shot, and picks the
  exit code.

Files:

- `options.dfy`: the `Option` type.
- `images.dfy`: symbolic images and the cursor-size ratio.
  - Loading, cropping and stamping build terms.
  - The imaging library's pixel operations are not modelled.
- `screenshooter.dfy`: the class `Screenshooter.Imlib2`.
  - Its fields: the image slot, whether a selector exists, the temp file path, and a ghost trace of the calls it makes.
  - Its methods.
  - The functions that specify what the slot and the trace hold after each method.
- `session.dfy`: replays sequences of `_grab_*` calls and proves what the slot holds afterwards.
- `cli.dfy`: the front end's `run` as a method that returns its calls and exit code, with the reference function `Script` and lemmas about it.

The world outside the process enters only as parameters:

- what the selector answered: `Cancelled`, `ExecError`, `ParseError` or `Region(box)`;
- how the backend run ended: the program failed, the output file was unreadable, or the file was read and then removed (or the removal failed);
- what the pointer query returned;
- for the front end, what the application object answered.

The class invariant `Valid()` has two parts:

- Every image in the slot is a load of the object's own temp file, cropped at most once, under any number of cursor stamps. So a stamp never sits under a crop.
- The trace is well ordered. A file load always comes right after a program run. A file removal always comes right after the load of that file. An image is present only once its temp file has been handed to the removal call.

Behaviour the model keeps because the code has it:

- A failed capture empties the slot. The previous image is not kept (`_call_screenshooter` sets it to `None`).
- No crop box is clipped to the image.
- The fake cursor is stamped at the absolute pointer position, also on a cropped image.
- When a selection or window capture is cancelled but a fake cursor was asked for, the `_grab_*` wrapper still calls `add_fake_cursor`. This stamps the previous screenshot once more.
  - `Session.CancelledSelectionStampsPrevious` shows this.
  - `Session.ReplayKeepsLastShot` therefore states "the last screenshot taken" exactly only when no fake cursor was asked for. In general it holds only up to cursor stamps.

## Model

| member | source | states |
|---|---|---|
| `Images.CursorRatio` | src/gscreenshot/screenshooter/__init__.py:186-189 | the cursor-size ratio is never below 0.3; it equals the smaller side over 2000, clamped from below at 0.3; it is exactly 0.3 when either side is at most 600 pixels |
| `Screenshooter.Command` | src/gscreenshot/screenshooter/__init__.py:210-216 | the command run is the program followed by exactly the given params; absent params count as none |
| `Screenshooter.Imlib2Command` | src/gscreenshot/screenshooter/imlib_2.py:29 | the Imlib2 backend's command is exactly `imlib2_grab` followed by the temp file |
| `Screenshooter.CursorPosition` | src/gscreenshot/screenshooter/__init__.py:143-161 | a position is known exactly when Xlib is available and the pointer query succeeds, and it is the pointer's root coordinates |
| `Screenshooter.WithFakeCursor` | src/gscreenshot/screenshooter/__init__.py:163-198 | no image or no pointer position leaves the slot unchanged; otherwise the result is a stamp over the old image, at the absolute pointer position, with the supplied glyph (the Adwaita glyph when none is supplied), with a cursor-size ratio of at least 0.3, and with the same size |
| `Screenshooter.Extend` | src/gscreenshot/screenshooter/__init__.py:217-220 | appending a call that is in order at the end of a well-ordered trace keeps it well ordered (a load right after a program run, a removal right after the load of that file) |
| `Screenshooter.Imlib2.constructor` | src/gscreenshot/screenshooter/__init__.py:28-41 | a new object has an empty slot and an empty trace, and keeps whether a selector was found and its temp file path |
| `Screenshooter.Imlib2.GetCapabilities` | src/gscreenshot/screenshooter/imlib_2.py:31-33 | Imlib2 declares no capability; in particular it does not declare native cursor capture |
| `Screenshooter.Imlib2.CallScreenshooter` | src/gscreenshot/screenshooter/__init__.py:210-225 | runs `[program] + params`; returns true exactly when the program succeeded, the temp file was read and then removed, and in that case the slot holds the loaded temp file; on any failure it returns false and the slot is empty; the trace gains the run, then the load, then the removal, each only if the previous step succeeded |
| `Screenshooter.Imlib2.GrabFullscreen` | src/gscreenshot/screenshooter/imlib_2.py:21-29 | sleeps for the delay, then issues exactly `imlib2_grab <tempfile>` whatever the cursor flag; afterwards the slot holds the loaded temp file on success and is empty on failure |
| `Screenshooter.Imlib2.GrabSelectionFallback` | src/gscreenshot/screenshooter/__init__.py:200-208 | the same slot and the same calls as a full-screen grab with the same delay and cursor flag |
| `Screenshooter.Imlib2.GrabSelection` | src/gscreenshot/screenshooter/__init__.py:82-114 | without a selector: exactly the fallback (a full-screen grab with the same arguments), no crop. Cancelled: only the selector ran and the slot is unchanged. Exec or parse error: the selector ran, then a plain full-screen grab with the same arguments, no crop. A box: the selector ran strictly before the full-screen grab, and the slot is the crop of the loaded image to that box, or empty if the grab failed. Valid() is kept |
| `Screenshooter.Imlib2.GrabWindow` | src/gscreenshot/screenshooter/__init__.py:126-134 | leaves the same slot and makes the same calls as `GrabSelection` for every input |
| `Screenshooter.Imlib2.AddFakeCursor` | src/gscreenshot/screenshooter/__init__.py:163-198 | the slot becomes `WithFakeCursor` of the old slot and the queried pointer position; the pointer is queried only when there is an image; Valid() is kept, and the stamp stays outermost |
| `Screenshooter.Imlib2.InternalGrabFullscreen` | src/gscreenshot/screenshooter/__init__.py:53-61 | with no cursor image: a full-screen grab with the caller's cursor flag, and nothing more. With one: a full-screen grab with the cursor flag forced to false, then a fake cursor on its result |
| `Screenshooter.Imlib2.InternalGrabSelection` | src/gscreenshot/screenshooter/__init__.py:72-80 | as `InternalGrabFullscreen`, around `GrabSelection`; the fake cursor is stamped on the result of the whole selection grab, so after any crop |
| `Screenshooter.Imlib2.InternalGrabWindow` | src/gscreenshot/screenshooter/__init__.py:116-124 | as `InternalGrabSelection`, around `GrabWindow` |
| `Session.FreshCapture` | src/gscreenshot/screenshooter/__init__.py:93-114 | a capture that no cancelled selection abandoned leaves a slot that does not depend on the previous image |
| `Session.AbandonedKeepsImage` | src/gscreenshot/screenshooter/__init__.py:72-101 | a capture abandoned by a cancelled selection keeps the previous image up to cursor stamps, and keeps it exactly when no fake cursor was asked for |
| `Session.CancelledSelectionStampsPrevious` | src/gscreenshot/screenshooter/__init__.py:72-101 | every selection or window capture cancelled in the selector, with a fake cursor and a known pointer, stamps the previous screenshot once more, whatever the delay, cursor flag and backend outcome |
| `Session.ReplayKeepsLastShot` | src/gscreenshot/screenshooter/__init__.py:43-51 | after any sequence of `_grab_*` calls the slot holds the result of the last capture not abandoned by a cancelled selection (or the initial slot if every capture was abandoned). This holds exactly when no call asked for a fake cursor, and up to cursor stamps in general |
| `Cli.Capture` | src/gscreenshot/frontend/cli.py:110-113 | the selection flag picks a selection capture, otherwise a full-display capture, and the delay is passed through |
| `Cli.Run` | src/gscreenshot/frontend/cli.py:85-145 | the calls made are `Script`. The exit code is 1 without a backend and 0 for the version flag. Otherwise it is 0 exactly when a shot was taken, no required save failed and no requested copy failed |
| `Cli.ScriptCapturesOnce` | src/gscreenshot/frontend/cli.py:85-113 | a missing backend ends the run with only the no-backend report, even with the version flag; otherwise the version flag ends it with only the version output; neither captures; otherwise the first call is the capture the selection flag picks, and no later call captures |
| `Cli.ScriptWithoutShot` | src/gscreenshot/frontend/cli.py:115-117 | when no image was produced, nothing is saved, opened or copied |
| `Cli.ScriptNotifiesAndOpens` | src/gscreenshot/frontend/cli.py:119-135 | with a shot, the notification and the viewer are called exactly when their flags ask |
| `Cli.ScriptSaves` | src/gscreenshot/frontend/cli.py:121-132 | with a shot, it is saved exactly when a filename was given or copying was not asked for; it is saved to the given filename, else to the default one; a failed save is reported exactly when saving was required |
| `Cli.ScriptClips` | src/gscreenshot/frontend/cli.py:137-144 | with a shot, it is copied exactly when asked, and exactly a failed copy triggers saving to a temporary path |
| `Cli.ScriptInStageOrder` | src/gscreenshot/frontend/cli.py:110-145 | a run makes each kind of call at most once, in the order capture, notification, save, save failure, open, copy, fallback save |

## Left out

- The base class's own `grab_fullscreen`, which only raises "Not implemented", is not modelled. The class models an Imlib2 instance, since Dafny classes do not inherit.
- `can_run` (both versions) is not modelled. It is a constant `False` in the base class and a `find_executable` path lookup in `Imlib2`, with no logic of its own.
- The selector factory is replaced by the constructor's `hasSelector` flag, and the temp path built from the temp directory and the process id by its `tempfile` parameter.
- The selector program, the backend program, image loading, file removal and the Xlib pointer query are not modelled. Their outcomes are parameters.
- `sleep` is recorded in the trace, not timed. Delays are whole seconds, at least 0. A negative delay, which makes `sleep` raise, is not modelled.
- Exceptions the code does not catch are not modelled. Examples: an error from the selector other than the four handled ones, or an imaging-library error while cropping or pasting.
- Pixel contents are not modelled. `Images.Width`/`Images.Height` give a crop the size of its box. A box with right < left (or bottom < top) gets size 0 there, whereas the imaging library raises an error for it.
- The thumbnail step of `add_fake_cursor` is not modelled. That covers the glyph's final size, the swapped width/height in the size it requests, and the fact that it shrinks the caller's glyph object in place. The model records only the glyph and the ratio.
- Loading the default cursor glyph from the package resources is not modelled. The glyph is identified by its resource name.
- The diagnostic messages printed by the capture object are not modelled.
- `Images.CursorRatio`: computed with exact real numbers, not Python floats. It does not claim bit-exact agreement with the source's floating-point result.
- CLI argument parsing, gettext/locale setup and the texts printed are not modelled. The delay is passed on unconverted, as argparse passes it; the model writes it as text, so the integer default 0 of `-d` is written as the text "0".
- The application object (`Gscreenshot`) is not part of this model. Its answers are inputs to `Cli.Run`.
- The GTK front end, packaging and the test suite are not modelled.
