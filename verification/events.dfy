/**
  The event loop of sip.c's `main`: a pure `Step` from the loop's state and one
  X event to the next state and the geometry handed to `draw_image`, the loop as
  a fold `Run` of `Step` over a finite event stream, and `EventLoop`, the loop
  written as the source writes it. `Expose` draws, `ConfigureNotify` overwrites
  the geometry, the `q` key ends the program with status 0, and every other
  event is ignored.
 */
module Events {
  import opened Maybe
  import opened Word32
  import opened Geometry

  /** The keysym of the Latin lower-case letter q (`XK_q`). */
  const XK_q: nat := 0x71

  /** The status `main` returns when the quit key is pressed. */
  const QuitStatus: int := 0

  /** The X events the loop tells apart; `Other` stands for every remaining event type. */
  datatype Event =
    | Expose
    | ConfigureNotify(width: U32, height: U32)
    | KeyPress(keysym: nat)
    | Other

  /** The loop is running with a geometry, or `main` has returned a status. */
  datatype State = Running(geometry: Geometry) | Exited(status: int)

  /** What one event does: the next state, and the geometry of a redraw if there was one. */
  datatype Reaction = Reaction(next: State, drawn: Option<Geometry>)

  /** The outcome of a sequence of events: the final state and the geometries drawn, in order. */
  datatype Trace = Trace(final: State, frames: seq<Geometry>)

  predicate IsQuit(e: Event)
  {
    e.KeyPress? && e.keysym == XK_q
  }

  predicate NoQuit(evs: seq<Event>)
  {
    forall i :: 0 <= i < |evs| ==> !IsQuit(evs[i])
  }

  predicate NoResize(evs: seq<Event>)
  {
    forall i :: 0 <= i < |evs| ==> !evs[i].ConfigureNotify?
  }

  /** The state before the first event: a window as large as the screen, centred. */
  function Initial(screenWidth: U32, screenHeight: U32): (s: State)
    ensures s.Running?
    ensures s.geometry.width == screenWidth && s.geometry.height == screenHeight
    ensures s.geometry.xcenter == screenWidth / 2 && s.geometry.ycenter == screenHeight / 2
  {
    Running(FromSize(screenWidth, screenHeight))
  }

  /** One pass of the loop's `switch`. */
  function Step(s: State, e: Event): (r: Reaction)
    ensures s.Exited? ==> r == Reaction(s, None)
    ensures r.drawn.Some? <==> s.Running? && e.Expose?
    ensures r.drawn.Some? ==> r.drawn.value == s.geometry
    ensures s.Running? ==> (r.next.Exited? <==> IsQuit(e))
    ensures s.Running? && r.next.Exited? ==> r.next.status == QuitStatus
    ensures s.Running? && e.ConfigureNotify? ==>
      && r.next.Running?
      && r.next.geometry.width == e.width && r.next.geometry.height == e.height
      && r.next.geometry.xcenter == e.width / 2 && r.next.geometry.ycenter == e.height / 2
    ensures s.Running? && !e.ConfigureNotify? && !IsQuit(e) ==> r.next == s
  {
    match s
    case Exited(_) => Reaction(s, None)
    case Running(g) =>
      match e
      case Expose => Reaction(s, Some(g))
      case ConfigureNotify(w, h) => Reaction(Running(FromSize(w, h)), None)
      case KeyPress(k) => if k == XK_q then Reaction(Exited(QuitStatus), None) else Reaction(s, None)
      case Other => Reaction(s, None)
  }

  /** The loop over a finite stream of events, folded from the left. */
  function Run(s: State, evs: seq<Event>): (t: Trace)
    ensures |t.frames| <= |evs|
    decreases |evs|
  {
    if |evs| == 0 then Trace(s, [])
    else
      var t := Run(s, evs[..|evs| - 1]);
      var r := Step(t.final, evs[|evs| - 1]);
      Trace(r.next, t.frames + (if r.drawn.Some? then [r.drawn.value] else []))
  }

  /** One more event extends the trace by exactly one `Step`. */
  lemma RunSnoc(s: State, evs: seq<Event>, e: Event)
    ensures var t := Run(s, evs);
            var r := Step(t.final, e);
            Run(s, evs + [e]) == Trace(r.next, t.frames + (if r.drawn.Some? then [r.drawn.value] else []))
  {
  }

  /** Once `main` has returned, no later event is processed. */
  lemma {:induction false} ExitedAbsorbs(s: State, evs: seq<Event>, rest: seq<Event>)
    requires Run(s, evs).final.Exited?
    ensures Run(s, evs + rest) == Run(s, evs)
    decreases |rest|
  {
    if |rest| == 0 {
      assert evs + rest == evs;
    } else {
      var init := rest[..|rest| - 1];
      var e := rest[|rest| - 1];
      assert evs + rest == (evs + init) + [e];
      ExitedAbsorbs(s, evs, init);
      RunSnoc(s, evs + init, e);
    }
  }

  /** The `q` key ends the loop with status 0; nothing after it is drawn. */
  lemma QuitEndsLoop(s: State, pre: seq<Event>, post: seq<Event>)
    requires Run(s, pre).final.Running?
    ensures Run(s, pre + [KeyPress(XK_q)] + post) == Trace(Exited(QuitStatus), Run(s, pre).frames)
  {
    RunSnoc(s, pre, KeyPress(XK_q));
    ExitedAbsorbs(s, pre + [KeyPress(XK_q)], post);
  }

  /** A key other than `q`, and any event the loop does not name, changes nothing. */
  lemma IgnoredEvent(s: State, evs: seq<Event>, e: Event)
    requires e.Other? || (e.KeyPress? && !IsQuit(e))
    ensures Run(s, evs + [e]) == Run(s, evs)
  {
  }

  /** An `Expose` draws with the current geometry and changes no state. */
  lemma ExposeDrawsCurrent(s: State, evs: seq<Event>)
    ensures var t := Run(s, evs);
            Run(s, evs + [Expose]) == Trace(t.final, t.frames + (if t.final.Running? then [t.final.geometry] else []))
  {
  }

  /** Of two resizes in a row only the second stays in effect. */
  lemma ResizeOverwrites(s: State, evs: seq<Event>, w1: U32, h1: U32, w2: U32, h2: U32)
    ensures Run(s, evs + [ConfigureNotify(w1, h1), ConfigureNotify(w2, h2)])
         == Run(s, evs + [ConfigureNotify(w2, h2)])
  {
    assert evs + [ConfigureNotify(w1, h1), ConfigureNotify(w2, h2)]
        == (evs + [ConfigureNotify(w1, h1)]) + [ConfigureNotify(w2, h2)];
    RunSnoc(s, evs, ConfigureNotify(w1, h1));
    RunSnoc(s, evs + [ConfigureNotify(w1, h1)], ConfigureNotify(w2, h2));
    RunSnoc(s, evs, ConfigureNotify(w2, h2));
  }

  /** Repeating a resize has the effect of one. */
  lemma ResizeIdempotent(s: State, evs: seq<Event>, w: U32, h: U32)
    ensures Run(s, evs + [ConfigureNotify(w, h), ConfigureNotify(w, h)])
         == Run(s, evs + [ConfigureNotify(w, h)])
  {
    ResizeOverwrites(s, evs, w, h, w, h);
  }

  /** The loop leaves the running state exactly when the `q` key arrives, and then with status 0. */
  lemma {:induction false} ExitsExactlyOnQuit(init: Geometry, evs: seq<Event>)
    ensures Run(Running(init), evs).final.Exited? <==> !NoQuit(evs)
    ensures Run(Running(init), evs).final.Exited? ==> Run(Running(init), evs).final.status == QuitStatus
    decreases |evs|
  {
    if |evs| > 0 {
      var pre := evs[..|evs| - 1];
      var e := evs[|evs| - 1];
      assert evs == pre + [e];
      ExitsExactlyOnQuit(init, pre);
      RunSnoc(Running(init), pre, e);
      if !NoQuit(pre) {
        var i :| 0 <= i < |pre| && IsQuit(pre[i]);
        assert evs[i] == pre[i];
      }
      if IsQuit(e) {
        assert IsQuit(evs[|evs| - 1]);
      }
    }
  }

  /**
    `g` is the geometry set by the most recent `ConfigureNotify` in `evs`, or
    `init` when `evs` holds no `ConfigureNotify`.
   */
  ghost predicate SetByLatestResize(g: Geometry, init: Geometry, evs: seq<Event>)
  {
    || (NoResize(evs) && g == init)
    || exists i :: 0 <= i < |evs| && evs[i].ConfigureNotify? && NoResize(evs[i + 1..])
                 && g == FromSize(evs[i].width, evs[i].height)
  }

  /** Until the quit key, the loop's geometry is the one set by the latest resize. */
  lemma {:induction false} CurrentGeometry(init: Geometry, evs: seq<Event>)
    requires NoQuit(evs)
    ensures Run(Running(init), evs).final.Running?
    ensures SetByLatestResize(Run(Running(init), evs).final.geometry, init, evs)
    decreases |evs|
  {
    if |evs| > 0 {
      var pre := evs[..|evs| - 1];
      var e := evs[|evs| - 1];
      assert evs == pre + [e];
      assert NoQuit(pre) by {
        forall i | 0 <= i < |pre| ensures !IsQuit(pre[i]) {
          assert pre[i] == evs[i];
        }
      }
      CurrentGeometry(init, pre);
      RunSnoc(Running(init), pre, e);
      var g := Run(Running(init), evs).final.geometry;
      if e.ConfigureNotify? {
        assert evs[|evs| - 1].ConfigureNotify? && NoResize(evs[|evs|..]);
      } else {
        assert g == Run(Running(init), pre).final.geometry;
        if NoResize(pre) && g == init {
          assert NoResize(evs) by {
            forall i | 0 <= i < |evs| ensures !evs[i].ConfigureNotify? {
              if i < |pre| { assert evs[i] == pre[i]; }
            }
          }
        } else {
          var i :| 0 <= i < |pre| && pre[i].ConfigureNotify? && NoResize(pre[i + 1..])
                   && g == FromSize(pre[i].width, pre[i].height);
          assert evs[i] == pre[i];
          var later, preLater := evs[i + 1..], pre[i + 1..];
          assert NoResize(later) by {
            forall j | 0 <= j < |later| ensures !later[j].ConfigureNotify? {
              assert later[j] == evs[i + 1 + j];
              if j < |preLater| {
                assert evs[i + 1 + j] == pre[i + 1 + j] == preLater[j];
              } else {
                assert i + 1 + j == |evs| - 1;
              }
            }
          }
        }
      }
    }
  }

  /** Without a resize the loop keeps the initial geometry. */
  lemma WithoutResizeGeometryKept(init: Geometry, evs: seq<Event>)
    requires NoQuit(evs) && NoResize(evs)
    ensures Run(Running(init), evs).final == Running(init)
  {
    CurrentGeometry(init, evs);
  }

  /** The geometry an `Expose` draws with is the one set by the latest preceding resize. */
  lemma ExposeSeesLatestResize(init: Geometry, evs: seq<Event>)
    requires NoQuit(evs)
    ensures var f := Run(Running(init), evs + [Expose]).frames;
            && 0 < |f|
            && f[..|f| - 1] == Run(Running(init), evs).frames
            && SetByLatestResize(f[|f| - 1], init, evs)
  {
    CurrentGeometry(init, evs);
    ExposeDrawsCurrent(Running(init), evs);
  }

  /** Starting from a centered geometry, every geometry the loop draws with or holds is centered. */
  lemma {:induction false} StaysCentered(init: Geometry, evs: seq<Event>)
    requires Centered(init)
    ensures var t := Run(Running(init), evs);
            && (forall i :: 0 <= i < |t.frames| ==> Centered(t.frames[i]))
            && (t.final.Running? ==> Centered(t.final.geometry))
    decreases |evs|
  {
    if |evs| > 0 {
      var pre := evs[..|evs| - 1];
      var e := evs[|evs| - 1];
      assert evs == pre + [e];
      StaysCentered(init, pre);
      RunSnoc(Running(init), pre, e);
    }
  }

  /**
    The `while (1)` loop of `main` over a finite prefix of the event stream, with
    the geometry in four variables as in the source. Returns the status `main`
    returned, or None when the stream ended with the loop still waiting.
   */
  method EventLoop(init: Geometry, events: seq<Event>) returns (status: Option<int>, frames: seq<Geometry>)
    ensures frames == Run(Running(init), events).frames
    ensures status.Some? <==> Run(Running(init), events).final.Exited?
    ensures status.Some? ==> status.value == QuitStatus
  {
    var width, height := init.width, init.height;
    var xcenter, ycenter := init.xcenter, init.ycenter;
    frames := [];
    var i := 0;
    while i < |events|
      invariant 0 <= i <= |events|
      invariant Run(Running(init), events[..i]) == Trace(Running(Geometry(width, height, xcenter, ycenter)), frames)
    {
      RunSnoc(Running(init), events[..i], events[i]);
      assert events[..i] + [events[i]] == events[..i + 1];
      match events[i] {
        case Expose =>
          frames := frames + [Geometry(width, height, xcenter, ycenter)];
        case ConfigureNotify(w, h) =>
          width, height := w, h;
          xcenter, ycenter := width / 2, height / 2;
        case KeyPress(k) =>
          if k == XK_q {
            ExitedAbsorbs(Running(init), events[..i + 1], events[i + 1..]);
            assert events[..i + 1] + events[i + 1..] == events;
            return Some(QuitStatus), frames;
          }
        case Other =>
      }
      i := i + 1;
    }
    assert events[..i] == events;
    status := None;
  }
}
