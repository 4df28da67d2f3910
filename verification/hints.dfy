/**
  What `set_hints` tells the window manager: the window title built in a
  `char[100]` buffer as `"sip "` followed by the file name, and the size hints.
 */
module Hints {
  import opened Maybe
  import opened CStrings

  /** Size of the title buffer `str`. */
  const TitleBufferSize: nat := 100

  const TitlePrefix: string := "sip "

  /** Longest file name whose title, with its NUL, still fits the buffer. */
  const MaxTitleName: nat := 95

  /** The buffer `char str[100] = "sip "`: the prefix followed by NULs. */
  function TitleBuffer(): (buf: seq<char>)
    ensures |buf| == TitleBufferSize
    ensures CString(buf) == TitlePrefix
  {
    Initialized(TitlePrefix, TitleBufferSize)
  }

  /**
    `strcat(str, filename)` as written: None when the copy runs past the 100-byte
    buffer. A file name is modelled as its byte sequence, one `char` per C `char`,
    so `|filename|` is `strlen(filename)` in bytes; a name with multi-byte UTF-8
    characters overflows at fewer than 96 characters.
   */
  function TitleWrite(filename: string): (r: Option<seq<char>>)
    requires NoNul(filename)
    ensures r.Some? <==> |filename| <= MaxTitleName
    ensures r.Some? ==> |r.value| == TitleBufferSize && CString(r.value) == TitlePrefix + filename
  {
    StrCat(TitleBuffer(), filename)
  }

  /** A 96-character file name, which the program accepts, overflows the title buffer. */
  lemma TitleOverflow()
    ensures var name := seq(MaxTitleName + 1, _ => 'a');
            NoNul(name) && TitleWrite(name) == None
  {
  }

  /** The window title for a file name short enough for the buffer. */
  function Title(filename: string): (r: string)
    requires NoNul(filename) && |filename| <= MaxTitleName
    ensures r == TitlePrefix + filename
    ensures |r| < TitleBufferSize
  {
    CString(TitleWrite(filename).value)
  }

  /**
    The title written with a bounded copy into the same buffer (as `snprintf`
    would): always fits, and is the full `"sip "` + name whenever that fits.
   */
  function SafeTitle(filename: string): (r: string)
    ensures |r| < TitleBufferSize
    ensures r <= TitlePrefix + filename
    ensures |filename| <= MaxTitleName ==> r == TitlePrefix + filename
    ensures MaxTitleName < |filename| ==> |r| == TitleBufferSize - 1
  {
    var full := TitlePrefix + filename;
    if |full| < TitleBufferSize then full else full[..TitleBufferSize - 1]
  }

  /** The bounded title agrees with the title as written wherever the latter is defined. */
  lemma SafeTitleAgrees(filename: string)
    requires NoNul(filename) && |filename| <= MaxTitleName
    ensures SafeTitle(filename) == Title(filename)
    ensures TitleWrite(filename).Some? && CString(TitleWrite(filename).value) == SafeTitle(filename)
  {
  }

  /** Flag bits of `XSizeHints.flags` (X11/Xutil.h). */
  const PSize: bv32 := 0x8
  const PMinSize: bv32 := 0x10
  const PBaseSize: bv32 := 0x100

  /** The fields of `XSizeHints` the program sets; the rest stay as allocated (zero). */
  datatype SizeHints = SizeHints(flags: bv32, minWidth: int, minHeight: int, baseWidth: int, baseHeight: int)

  /** A window manager honours the minimum size only when `PMinSize` is set. */
  function MinSize(h: SizeHints): Option<(int, int)>
  {
    if h.flags & PMinSize != 0 then Some((h.minWidth, h.minHeight)) else None
  }

  /** A window manager honours the base size only when `PBaseSize` is set. */
  function BaseSize(h: SizeHints): Option<(int, int)>
  {
    if h.flags & PBaseSize != 0 then Some((h.baseWidth, h.baseHeight)) else None
  }

  /**
    The hints the program sends: minimum 300x200 is advertised; the base size
    400x250 is written into the record, but `PBaseSize` is not among the flags,
    so it is not advertised.
   */
  function WindowSizeHints(): (h: SizeHints)
    ensures MinSize(h) == Some((300, 200))
    ensures h.baseWidth == 400 && h.baseHeight == 250
    ensures BaseSize(h) == None
    ensures h.flags & PSize != 0
    ensures h.flags & !(PSize | PMinSize) == 0
  {
    SizeHints(PSize | PMinSize, 300, 200, 400, 250)
  }
}
