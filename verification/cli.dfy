/**
 * What the command-line front end does once its arguments are parsed:
 * which capture it asks for, whether it saves, opens and copies the shot,
 * and which exit code it ends with.
 *
 * The application object is an oracle: its answers (whether it could be
 * built, whether a shot came out, whether saving and copying worked) are
 * inputs, and the calls made on it are returned, in order, as actions.
 * Ending the process (`sys.exit`) is returning the exit code.
 */
module Cli {
  import opened Options

  /**
   * The parsed flags. The delay is passed on as given, as text; the
   * default value 0 of `-d` is written as the text "0". The filename is
   * absent when `-f` was not used.
   */
  datatype Args = Args(
    delay: string,
    filename: Option<string>,
    clip: bool,
    open: bool,
    selection: bool,
    version: bool,
    notify: bool)

  /** The answers of the application object during one run. */
  datatype Answers = Answers(
    backendAvailable: bool,   // the application object could be built
    shotTaken: bool,          // a last image exists after the capture
    saved: bool,              // result of the save call
    clipped: bool)            // result of the clipboard call

  datatype Action =
    | ReportNoBackend
    | ShowVersion
    | ScreenshotSelected(delay: string)
    | ScreenshotFullDisplay(delay: string)
    | ReportNoShot
    | ShowNotification
    | SaveLastImage(target: Option<string>)   // None: the default file name
    | ReportSaveFailed
    | OpenLastScreenshot
    | CopyToClipboard
    | SaveAndReturnPath
    | ReportClipFailed

  predicate IsCapture(a: Action)
  {
    a.ScreenshotSelected? || a.ScreenshotFullDisplay?
  }

  predicate IsSave(a: Action)
  {
    a.SaveLastImage?
  }

  /** The stage of the run an action belongs to; a run visits the stages in this order. */
  function Stage(a: Action): nat
  {
    match a
    case ReportNoBackend => 0
    case ShowVersion => 1
    case ScreenshotSelected(_) => 2
    case ScreenshotFullDisplay(_) => 2
    case ReportNoShot => 3
    case ShowNotification => 4
    case SaveLastImage(_) => 5
    case ReportSaveFailed => 6
    case OpenLastScreenshot => 7
    case CopyToClipboard => 8
    case SaveAndReturnPath => 9
    case ReportClipFailed => 10
  }

  /** A shot must be saved when a filename was given or when it is not only copied. */
  predicate ShouldSaveShot(args: Args)
  {
    args.filename.Some? || !args.clip
  }

  /** The capture call the selection flag picks. */
  function Capture(args: Args): (r: Action)
    ensures IsCapture(r)
    ensures r.ScreenshotSelected? <==> args.selection
    ensures r.delay == args.delay
  {
    if args.selection then ScreenshotSelected(args.delay) else ScreenshotFullDisplay(args.delay)
  }

  function NotifyStep(args: Args): seq<Action>
  {
    if args.notify then [ShowNotification] else []
  }

  /** Saving: to the given file, else to the default file unless the shot is only copied. */
  function SaveStep(args: Args, answers: Answers): seq<Action>
  {
    if ShouldSaveShot(args) then [SaveLastImage(args.filename)] + (if answers.saved then [] else [ReportSaveFailed])
    else []
  }

  function OpenStep(args: Args): seq<Action>
  {
    if args.open then [OpenLastScreenshot] else []
  }

  /** Copying: a failed copy saves the shot to a temporary path instead. */
  function ClipStep(args: Args, answers: Answers): seq<Action>
  {
    if args.clip then [CopyToClipboard] + (if answers.clipped then [] else [SaveAndReturnPath, ReportClipFailed])
    else []
  }

  /** The calls of a whole run. */
  function Script(args: Args, answers: Answers): seq<Action>
  {
    if !answers.backendAvailable then [ReportNoBackend]
    else if args.version then [ShowVersion]
    else if !answers.shotTaken then [Capture(args), ReportNoShot]
    else [Capture(args)] + NotifyStep(args) + SaveStep(args, answers) + OpenStep(args) + ClipStep(args, answers)
  }

  /** Every stage occurs at most once, and the stages come in order. */
  ghost predicate InStageOrder(s: seq<Action>)
  {
    forall i, j :: 0 <= i < j < |s| ==> Stage(s[i]) < Stage(s[j])
  }

  ghost predicate StagesWithin(s: seq<Action>, lo: nat, hi: nat)
  {
    forall i :: 0 <= i < |s| ==> lo <= Stage(s[i]) < hi
  }

  lemma ConcatInStageOrder(a: seq<Action>, b: seq<Action>, lo: nat, mid: nat, hi: nat)
    requires lo <= mid <= hi
    requires InStageOrder(a) && StagesWithin(a, lo, mid)
    requires InStageOrder(b) && StagesWithin(b, mid, hi)
    ensures InStageOrder(a + b) && StagesWithin(a + b, lo, hi)
  {
    var ab := a + b;
    forall i | 0 <= i < |ab|
      ensures lo <= Stage(ab[i]) < hi
    {
      if i < |a| { assert ab[i] == a[i]; } else { assert ab[i] == b[i - |a|]; }
    }
    forall i, j | 0 <= i < j < |ab|
      ensures Stage(ab[i]) < Stage(ab[j])
    {
      if j < |a| {
        assert ab[i] == a[i] && ab[j] == a[j];
      } else if |a| <= i {
        assert ab[i] == b[i - |a|] && ab[j] == b[j - |a|];
      } else {
        assert ab[i] == a[i] && ab[j] == b[j - |a|];
      }
    }
  }

  /** A run never makes two calls of the same stage, and keeps the order capture, save, open, copy. */
  lemma ScriptInStageOrder(args: Args, answers: Answers)
    ensures InStageOrder(Script(args, answers))
  {
    if answers.backendAvailable && !args.version && answers.shotTaken {
      var c, n, sv, o, cl := [Capture(args)], NotifyStep(args), SaveStep(args, answers), OpenStep(args), ClipStep(args, answers);
      assert InStageOrder(c) && StagesWithin(c, 2, 4);
      assert InStageOrder(n) && StagesWithin(n, 4, 5);
      assert InStageOrder(sv) && StagesWithin(sv, 5, 7);
      assert InStageOrder(o) && StagesWithin(o, 7, 8);
      assert InStageOrder(cl) && StagesWithin(cl, 8, 11);
      ConcatInStageOrder(c, n, 2, 4, 5);
      ConcatInStageOrder(c + n, sv, 2, 5, 7);
      ConcatInStageOrder(c + n + sv, o, 2, 7, 8);
      ConcatInStageOrder(c + n + sv + o, cl, 2, 8, 11);
    }
  }

  /**
   * Nothing is captured when no backend exists or the version is asked for;
   * otherwise exactly one capture happens, first, of the kind the selection
   * flag picks.
   */
  lemma ScriptCapturesOnce(args: Args, answers: Answers)
    ensures var s := Script(args, answers);
      && (!answers.backendAvailable ==> s == [ReportNoBackend])
      && (answers.backendAvailable && args.version ==> s == [ShowVersion])
      && (!answers.backendAvailable || args.version ==> |s| == 1 && !IsCapture(s[0]))
      && (answers.backendAvailable && !args.version ==>
            && |s| >= 1 && s[0] == Capture(args)
            && (forall i :: 1 <= i < |s| ==> !IsCapture(s[i])))
  {
    var s := Script(args, answers);
    if answers.backendAvailable && !args.version {
      ScriptInStageOrder(args, answers);
      forall i | 1 <= i < |s|
        ensures !IsCapture(s[i])
      {
        assert Stage(s[0]) < Stage(s[i]);
      }
    }
  }

  /** Without a shot nothing is saved, opened or copied. */
  lemma ScriptWithoutShot(args: Args, answers: Answers)
    requires answers.backendAvailable && !args.version && !answers.shotTaken
    ensures var s := Script(args, answers);
      forall i :: 0 <= i < |s| ==> !IsSave(s[i]) && s[i] != OpenLastScreenshot && s[i] != CopyToClipboard
  {
  }

  /** With a shot, the notification and the viewer are called exactly when their flags ask. */
  lemma ScriptNotifiesAndOpens(args: Args, answers: Answers)
    requires answers.backendAvailable && !args.version && answers.shotTaken
    ensures ShowNotification in Script(args, answers) <==> args.notify
    ensures OpenLastScreenshot in Script(args, answers) <==> args.open
  {
    ShotMember(args, answers, ShowNotification);
    ShotMember(args, answers, OpenLastScreenshot);
  }

  /**
   * With a shot, it is saved exactly when a filename was given or copying
   * was not asked for, to the given file or else to the default one, and a
   * failed save is reported.
   */
  lemma ScriptSaves(args: Args, answers: Answers)
    requires answers.backendAvailable && !args.version && answers.shotTaken
    ensures SaveLastImage(args.filename) in Script(args, answers) <==> ShouldSaveShot(args)
    ensures forall i :: 0 <= i < |Script(args, answers)| && IsSave(Script(args, answers)[i]) ==>
              Script(args, answers)[i] == SaveLastImage(args.filename)
    ensures ReportSaveFailed in Script(args, answers) <==> ShouldSaveShot(args) && !answers.saved
  {
    var s := Script(args, answers);
    ShotMember(args, answers, SaveLastImage(args.filename));
    ShotMember(args, answers, ReportSaveFailed);
    forall i | 0 <= i < |s| && IsSave(s[i])
      ensures s[i] == SaveLastImage(args.filename)
    {
      ShotMember(args, answers, s[i]);
    }
  }

  /** With a shot, it is copied exactly when asked, and a failed copy falls back to saving it to a temporary path. */
  lemma ScriptClips(args: Args, answers: Answers)
    requires answers.backendAvailable && !args.version && answers.shotTaken
    ensures CopyToClipboard in Script(args, answers) <==> args.clip
    ensures SaveAndReturnPath in Script(args, answers) <==> args.clip && !answers.clipped
  {
    ShotMember(args, answers, CopyToClipboard);
    ShotMember(args, answers, SaveAndReturnPath);
  }

  /** With a shot, a run's calls are the capture and the calls of its steps. */
  lemma ShotMember(args: Args, answers: Answers, x: Action)
    requires answers.backendAvailable && !args.version && answers.shotTaken
    ensures x in Script(args, answers) <==>
      x == Capture(args) || x in NotifyStep(args) || x in SaveStep(args, answers)
      || x in OpenStep(args) || x in ClipStep(args, answers)
  {
    var c, n, sv, o, cl := [Capture(args)], NotifyStep(args), SaveStep(args, answers), OpenStep(args), ClipStep(args, answers);
    assert Script(args, answers) == c + n + sv + o + cl;
  }

  /** The front end's `run` after argument parsing. */
  method Run(args: Args, answers: Answers) returns (actions: seq<Action>, exitCode: int)
    ensures actions == Script(args, answers)
    ensures exitCode == 0 || exitCode == 1
    ensures !answers.backendAvailable ==> exitCode == 1
    ensures answers.backendAvailable && args.version ==> exitCode == 0
    ensures answers.backendAvailable && !args.version ==>
      (exitCode == 0 <==>
         answers.shotTaken && (!ShouldSaveShot(args) || answers.saved) && (!args.clip || answers.clipped))
  {
    if !answers.backendAvailable {
      return [ReportNoBackend], 1;
    }
    if args.version {
      return [ShowVersion], 0;
    }

    if args.selection {
      actions := [ScreenshotSelected(args.delay)];
    } else {
      actions := [ScreenshotFullDisplay(args.delay)];
    }

    if !answers.shotTaken {
      return actions + [ReportNoShot], 1;
    }
    ghost var done := actions;
    if args.notify {
      actions := actions + [ShowNotification];
    }
    assert actions == done + NotifyStep(args);
    done := actions;

    var shotSaved := false;
    var shouldSaveShot := args.filename.Some? || !args.clip;
    exitCode := 0;

    if args.filename.Some? {
      actions := actions + [SaveLastImage(args.filename)];
      shotSaved := answers.saved;
    } else if !args.clip {
      actions := actions + [SaveLastImage(None)];
      shotSaved := answers.saved;
    }

    if shouldSaveShot && !shotSaved {
      exitCode := 1;
      actions := actions + [ReportSaveFailed];
    }
    assert actions == done + SaveStep(args, answers);
    done := actions;

    if args.open {
      actions := actions + [OpenLastScreenshot];
    }
    assert actions == done + OpenStep(args);
    done := actions;

    if args.clip {
      actions := actions + [CopyToClipboard];
      var successfulClip := answers.clipped;
      if !successfulClip {
        actions := actions + [SaveAndReturnPath, ReportClipFailed];
        exitCode := 1;
      }
    }
    assert actions == done + ClipStep(args, answers);
  }
}
