/**
  sip's `main` end to end: the argument check, the file check, the display
  connection, the window title and size hints, then the event loop, with every
  redraw turned into the copy `draw_image` issues. The outcome of the file
  check and of the display connection, the screen size, the image size and the
  events are inputs.
 */
module Viewer {
  import opened Maybe
  import opened Word32
  import opened Geometry
  import opened Events
  import opened Blit
  import opened Hints
  import opened Cli
  import opened CStrings

  /** The status `main` returns when the file cannot be opened or the display is unreachable. */
  const FailureStatus: int := 1

  /** How a run of the program went. */
  datatype Session =
    | UsageError
    | OpenError(filename: string)
    | DisplayError
      /** `strcat` wrote the title past the end of its 100-byte buffer; from here on the behaviour is undefined. */
    | BufferOverflow(filename: string)
      /** The window was created; `status` is None while the loop still waits for events. */
    | Started(title: string, hints: SizeHints, copies: seq<CopyArea>, status: Option<int>)

  /** The process exit status, or None when the program has not exited or its behaviour is undefined. */
  function ExitStatus(s: Session): (r: Option<int>)
    ensures s.UsageError? || s.OpenError? || s.DisplayError? ==> r == Some(1)
    ensures s.BufferOverflow? ==> r.None?
  {
    match s
    case Started(_, _, _, status) => status
    case UsageError => Some(UsageStatus)
    case BufferOverflow(_) => None
    case _ => Some(FailureStatus)
  }

  /** The copy for each redraw, in order. */
  function Copies(frames: seq<Geometry>, img: ImageSize): (r: seq<CopyArea>)
    ensures |r| == |frames|
    ensures forall i :: 0 <= i < |frames| ==> r[i] == DrawImage(frames[i], img)
  {
    seq(|frames|, i requires 0 <= i < |frames| => DrawImage(frames[i], img))
  }

  /**
    `main(argc, argv)`. `openable` is whether `fopen(argv[1], "r+")` succeeds,
    `displayOpened` whether `XOpenDisplay` does; the window starts at the screen
    size; `image` is what the decoder reports on every reload. The arguments are
    C strings, so none of them holds a NUL.
   */
  method Launch(argv: seq<string>, openable: bool, displayOpened: bool,
                screenWidth: U32, screenHeight: U32, image: ImageSize, events: seq<Event>)
    returns (session: Session)
    requires forall i :: 0 <= i < |argv| ==> NoNul(argv[i])
    ensures session.UsageError? <==> |argv| != 2 || argv[1] == HelpFlag
    ensures session.OpenError? <==> |argv| == 2 && argv[1] != HelpFlag && !openable
    ensures session.DisplayError? <==> |argv| == 2 && argv[1] != HelpFlag && openable && !displayOpened
    ensures session.BufferOverflow? <==>
      |argv| == 2 && argv[1] != HelpFlag && openable && displayOpened && MaxTitleName < |argv[1]|
    ensures session.Started? ==>
      && |argv[1]| <= MaxTitleName
      && session.title == Title(argv[1])
      && session.title == SafeTitle(argv[1])
      && session.hints == WindowSizeHints()
      && session.copies == Copies(Run(Initial(screenWidth, screenHeight), events).frames, image)
    ensures ExitStatus(session) == Some(1) <==> !session.Started? && !session.BufferOverflow?
    ensures ExitStatus(session) == Some(0) <==> session.Started? && !NoQuit(events)
    ensures ExitStatus(session) == None <==> session.BufferOverflow? || (session.Started? && NoQuit(events))
  {
    var file := FileArgument(argv);
    if file.None? {
      return UsageError;
    }
    var filename := file.value;
    if !openable {
      return OpenError(filename);
    }
    if !displayOpened {
      return DisplayError;
    }
    var init := FromSize(screenWidth, screenHeight);
    var written := TitleWrite(filename);
    if written.None? {
      return BufferOverflow(filename);
    }
    var title := CString(written.value);
    SafeTitleAgrees(filename);
    var hints := WindowSizeHints();
    var status, frames := EventLoop(init, events);
    ExitsExactlyOnQuit(init, events);
    session := Started(title, hints, Copies(frames, image), status);
  }

  /**
    Every copy a started session issues takes the whole image from the pixmap's
    origin and puts it at the window centre less half the image, as signed coordinates.
   */
  lemma CopiesAreCentred(frames: seq<Geometry>, img: ImageSize, i: nat)
    requires forall j :: 0 <= j < |frames| ==> Centered(frames[j])
    requires i < |frames|
    ensures var c := Copies(frames, img)[i];
            && c.srcX == 0 && c.srcY == 0 && c.width == img.width && c.height == img.height
            && c.destX == frames[i].xcenter - img.width / 2
            && c.destY == frames[i].ycenter - img.height / 2
  {
  }

  /** A session over a screen of any size only ever draws with centered geometries. */
  lemma SessionFramesCentred(screenWidth: U32, screenHeight: U32, events: seq<Event>)
    ensures var f := Run(Initial(screenWidth, screenHeight), events).frames;
            forall j :: 0 <= j < |f| ==> Centered(f[j])
  {
    StaysCentered(FromSize(screenWidth, screenHeight), events);
  }
}
