# sip — a Dafny model of the viewer's own logic

sip is a minimal X11 image viewer: `sip FILE` opens a window as large as the
screen, titles it `sip FILE`, and on every `Expose` event loads the image with
Imlib2, renders it to a pixmap and copies it to the window so that it is centred.
A `ConfigureNotify` event records the new window size, and the `q` key quits.
This project models the parts of `sip.c` that are the program's own logic rather
than calls into Xlib or Imlib2:

- the event-dispatch loop of `main`, as a pure `Step` on an immutable state
  (`Running(geometry)` or `Exited(status)`), a left fold `Run` over a finite event
  stream, and a method `EventLoop` written the way the source's `while (1)` is;
- the geometry record (`width`, `height`, `xcenter`, `ycenter`) and its invariant
  `xcenter == width / 2`, `ycenter == height / 2`;
- the blit placement in `draw_image`, computed in 32-bit `unsigned int`
  (wrapping modulo 2^32) and then passed to `XCopyArea` as signed `int`;
- the argument check, the window title built in a `char[100]` buffer with
  `strcat`, and the size hints;
- `main` end to end (`Viewer.Launch`). The results of `fopen` and `XOpenDisplay`,
  the screen size, the decoded image's size and the event stream are all inputs.

Modules: `Word32` (32-bit arithmetic), `CStrings` (NUL-terminated buffers and
`strcat`), `Geometry`, `Events` (the loop), `Blit` (`draw_image`), `Hints`
(`set_hints`), `Cli` (the argument check), `Viewer` (`main`), and `Maybe`
(an `Option` type).

On every `Expose`, `draw_image` reloads the file (sip.c:207), renders it onto a
new pixmap (sip.c:213-215) and issues one `XCopyArea` (sip.c:217-218). The pixmap
is never freed, and a failed decode is not checked.

## Model

| member | source | states |
|---|---|---|
| Word32.Sub | sip.c:217-218 | unsigned `int` subtraction is the unique 32-bit value congruent to `a - b`; it is the ordinary difference when `b <= a` and wraps to `2^32 - (b - a)` otherwise |
| Word32.ToSigned | sip.c:217-218 | an `unsigned int` passed as an `int` keeps its value modulo 2^32, and reads as negative exactly when it is at least 2^31 |
| Word32.SignedRoundTrip | sip.c:217-218 | the signed and unsigned readings of a 32-bit value are mutually inverse |
| Word32.SignedDifference | sip.c:217-218 | for operands below 2^31, the signed reading of the wrapped difference is the exact mathematical difference |
| CStrings.CString | sip.c:156 | the string in a buffer is its longest NUL-free prefix: it is a prefix, holds no NUL, and is followed by a NUL when shorter than the buffer |
| CStrings.CStringOfTerminated | sip.c:155-156 | a NUL-free text followed by a NUL reads back as itself |
| CStrings.Initialized | sip.c:155 | a `char[n]` initialised from a shorter literal has size n and holds that literal as its string |
| CStrings.StrCat | sip.c:156 | `strcat` is defined exactly when the appended text and its NUL fit after the existing string; the buffer then holds the concatenation, keeps its size, and is unchanged past the new NUL |
| Hints.TitleBuffer | sip.c:155 | `char str[100] = "sip "` is a 100-character buffer holding the string `"sip "` |
| Hints.TitleWrite | sip.c:155-156 | the title write as written stays in bounds exactly when the file name has at most 95 characters, and then the buffer reads `"sip "` + name |
| Hints.TitleOverflow | sip.c:155-156 | a 96-character file name makes `strcat` write past the 100-byte buffer |
| Hints.Title | sip.c:155-156 | for a file name of at most 95 characters the window title is `"sip "` followed by the name, shorter than 100 characters |
| Hints.SafeTitle | sip.c:155-156 | a bounded title always fits the buffer, is a prefix of `"sip "` + name, is the whole of it when the name has at most 95 characters, and is cut at 99 characters otherwise |
| Hints.SafeTitleAgrees | sip.c:155-156 | the bounded title equals the title as written on every name for which the latter is defined |
| Hints.WindowSizeHints | sip.c:172-176 | the flag word holds PSize and PMinSize and no other flag; the minimum size 300x200 is flagged for the window manager; the base size 400x250 is stored but not flagged (`PBaseSize` is missing) |
| Cli.FileArgumentExamples | sip.c:43-47 | `-h` only asks for help when it is the sole argument; `-hx` is a file name; no arguments, or more than one, is a usage error |
| Geometry.FromSize | sip.c:99-102 | a geometry from a window size keeps the size, is centred (floor halves), its centre sits at most one pixel towards the top-left for odd sizes, and its centre is below 2^31 |
| Events.Initial | sip.c:66-70 | the loop starts running with the screen's width and height and centre `screen / 2` in each dimension |
| Events.Step | sip.c:92-115 | an `Expose` draws with exactly the current geometry; `ConfigureNotify(w, h)` sets width `w`, height `h`, centres `w / 2`, `h / 2`; the `q` key and only it exits, with status 0; every other event leaves the state unchanged; after exit nothing happens |
| Events.Run | sip.c:89-116 | a run over n events issues at most n redraws |
| Events.ExitedAbsorbs | sip.c:104-111 | once the program has returned, no later event is processed or drawn |
| Events.QuitEndsLoop | sip.c:104-111 | a `q` key press while running ends with status 0 and exactly the redraws made before it, whatever follows |
| Events.IgnoredEvent | sip.c:104-115 | a key other than `q`, and any event type the loop does not name, changes neither the state nor the redraws |
| Events.ExposeDrawsCurrent | sip.c:94-96 | an `Expose` adds one redraw with the current geometry and changes nothing else |
| Events.ResizeOverwrites | sip.c:98-103 | two consecutive resizes leave only the second in effect |
| Events.ResizeIdempotent | sip.c:98-103 | repeating a resize has the same effect as doing it once |
| Events.ExitsExactlyOnQuit | sip.c:89-116 | over any event sequence the loop has exited exactly when a `q` key press occurred, and then with status 0 |
| Events.CurrentGeometry | sip.c:94-103 | until the `q` key, the geometry is the one set by the most recent `ConfigureNotify`, or the initial one when there was none |
| Events.WithoutResizeGeometryKept | sip.c:94-115 | without a `ConfigureNotify` (and without `q`) the loop keeps its initial geometry |
| Events.ExposeSeesLatestResize | sip.c:94-103 | the geometry an `Expose` draws with is the one set by the latest preceding `ConfigureNotify`, or the initial one; earlier redraws are kept |
| Events.StaysCentered | sip.c:98-103 | from a centred start, every geometry drawn with or held keeps `xcenter == width / 2`, `ycenter == height / 2` |
| Events.EventLoop | sip.c:89-116 | the source's loop over a finite event stream makes exactly the redraws of the fold `Run`, and returns status 0 exactly when `Run` has exited |
| Blit.DestOffset | sip.c:217-218 | the unsigned destination `center - extent / 2` is the ordinary difference when half the extent fits before the centre; otherwise it wraps to at least 2^31 and reads as that negative difference |
| Blit.DrawImage | sip.c:210-218 | the copy takes the whole image, origin (0, 0) and size imagewidth x imageheight, to the signed reading of the unsigned destination offsets |
| Blit.DestinationIsExactDifference | sip.c:217-218 | with the `unsigned int` operands of sip.c:13-14, for a centred geometry the signed destination is exactly `xcenter - imagewidth / 2` (resp. y), negative exactly when half the image exceeds half the window |
| Blit.ImageIsCentred | sip.c:217-218 | the margins left and right of the image (above and below) differ by at most one pixel, whether or not the image fits |
| Blit.FittingImageInsideWindow | sip.c:217-218 | an image no larger than the window is copied entirely inside it |
| Blit.PlacementExamples | sip.c:217-218 | a 100x100 image in a 400x250 window lands at (150, 75); a 1000x600 one at (-300, -175), from the unsigned offset 0xFFFFFED4 |
| Viewer.ExitStatus | sip.c:43-64 | every failure before the window exists ends with status 1; an overflowing title write has no defined status |
| Viewer.Launch | sip.c:28-116 | usage, unopenable file, unreachable display and an overflowing title write are told apart exactly as the checks run, in the source's order; a started session has a file name of at most 95 characters, the title `"sip "` + name, the fixed hints and one copy per `Expose`; it exits 1 exactly on the three early failures, 0 exactly when `q` was pressed, and is still waiting otherwise |
| Viewer.CopiesAreCentred | sip.c:210-218 | each copy of a centred redraw takes the whole image and places it at centre less half the image, as signed coordinates |
| Viewer.SessionFramesCentred | sip.c:67-103 | every redraw of a session is made with a centred geometry, from the initial centring at sip.c:69-70 and the re-centring at sip.c:101-102 |

## Findings

| source | as written | input that shows it | evidently intended | confidence | as-written member | corrected member |
|---|---|---|---|---|---|---|
| sip.c:155-156 | `strcat` appends the file name to `char str[100] = "sip "` with no length check | a file name of 96 bytes, which passes the argument and `fopen` checks | the title `"sip "` + name, bounded to the buffer | high; not executed | Hints.TitleOverflow | Hints.SafeTitle |

`Hints.TitleWrite` models the buffer write as written and `Hints.TitleOverflow`
exhibits the overflowing input. `Viewer.Launch` follows the program as written:
such a name ends in the `BufferOverflow` outcome, whose behaviour is undefined.
`Hints.SafeTitle` is the corrected, bounded title. `Hints.SafeTitleAgrees` shows
that it coincides with the as-written title wherever the latter is defined, so
every session that starts has the same title under both.

## Left out

- Viewer.Launch: the `exit(1)` paths in `set_hints` when `XStringListToTextProperty`, `XAllocSizeHints` or `XAllocWMHints` run out of memory (sip.c:160-163, 168-171, 182-185) are not modelled; these are allocation failures inside Xlib.
- Viewer.Launch: each argument is modelled as its byte sequence, one `char` per C `char`, so `|argv[1]|` is `strlen(argv[1])` in bytes; a file name with multi-byte UTF-8 characters overflows the title buffer at fewer than 96 characters, and character encodings are not modelled.
- Viewer.Launch: after a file name of more than 95 characters overflows the title buffer (sip.c:156) the behaviour is undefined; the model stops there with the `BufferOverflow` outcome and promises nothing about the window, the loop or the exit status.
- Viewer.Launch: the event stream is a finite input; the real loop blocks forever waiting for the next event, and that is modelled as a session whose status is None.
- Viewer.Launch: the image decoder is an oracle that reports one `ImageSize` for every reload (sip.c:207-211). A file that changes between redraws, and a failed decode (a NULL image that is not checked), are not modelled.
- X11 connection, window creation and mapping, GC creation, `XSync`/`XFlush`, WM hints and background colour parsing and allocation (sip.c:59-64, 124-148, 158-171, 177-190, 221-229) are calls into Xlib with no logic of the program's own. Only whether `XOpenDisplay` succeeds is kept, as the boolean `displayOpened`.
- The `fopen(filename, "r+")` check (sip.c:51-56) is filesystem I/O and becomes the boolean `openable`. Note that mode `r+` needs write access as well as read access. The file handle is never closed.
- Imlib2 loading and rendering and the pixels themselves (sip.c:198-215) are not modelled. Only the image's dimensions enter the model.
- Events.Step: the release of the image, GC and display on `q` (sip.c:107-109) is not modelled; the model records only the exit status.
- Events.Event: a `KeyPress` carries the keysym `XLookupKeysym(&event.xkey, 0)` already looked up, so keyboard mapping is not modelled. `ButtonPress`, which the window selects (sip.c:86), falls under `Other`.
- Word32.ToSigned: the conversion of an out-of-range `unsigned int` to `int` is implementation-defined in C. The model assumes the two's-complement reading that common compilers use. Xlib's further truncation of the coordinates to 16-bit protocol fields inside `XCopyArea` is not part of this model.
- The cleanup after the infinite loop (sip.c:118-121) is unreachable and is not modelled.
