/**
 * A TextTransitioner instance: its state and refs, the inline styles of its parent and
 * target, the effect React runs when `children` change, and the host's timeouts and paints
 * on a virtual clock in milliseconds. The instance runs either the effect as the source
 * writes it or the corrected one (`Version`); the callbacks are the same in both.
 */
module Component {
  import opened Children
  import opened Props
  import opened InlineStyle
  import opened Timers
  import opened Stages
  import opened Steps

  /** A closure of one effect run: the run, which continuation it is, and the `children`
      and configuration it captured. */
  datatype Callback = Callback(run: nat, phase: Phase, children: Content, config: Config)

  /** The cleanup React holds for the latest effect run: none, or that run's `done` with its
      configuration and its `pending` array of timeout ids. */
  datatype Cleanup = NoCleanup | Registered(run: nat, config: Config, pending: seq<nat>)

  /** A timeout that fires at its phase's offset from the start of its run, not before the
      present, with an id already handed out. */
  ghost predicate Scheduled(t: Timer<Callback>, starts: seq<int>, now: int, nextTimerId: nat)
  {
    t.callback.run < |starts| && t.id < nextTimerId && now <= t.due &&
    t.due == starts[t.callback.run] + Offset(t.callback.phase, t.callback.config)
  }

  /** A paint callback queued at its phase's offset from the start of its run. */
  ghost predicate Queued(cb: Callback, starts: seq<int>, now: int)
  {
    cb.run < |starts| && starts[cb.run] + Offset(cb.phase, cb.config) == now
  }

  /** An element's inline style once the registered cleanup has run: the reset attribute
      text, or the style as it was when no cleanup is registered. */
  function AfterCleanup(c: Cleanup, s: Style): Style
  {
    if c.Registered? then Overwrite(Interpolated(CleanupReset, c.config)) else s
  }

  /** The timeouts left once the registered cleanup has run. */
  function TimersAfterCleanup(c: Cleanup, timers: seq<Timer<Callback>>): seq<Timer<Callback>>
  {
    if c.Registered? then Surviving(timers, c.pending) else timers
  }

  class Transitioner {
    /** Whether the effect is the one the source writes or the corrected one. */
    const version: Version
    /** `targetChildren`: the content shown in the target. */
    var targetChildren: Content
    /** `firstRender.current === true` */
    var firstRender: bool
    /** `parent.style` and `target.style` */
    var parentStyle: Style
    var targetStyle: Style
    /** The `children` the effect last ran for; React reruns it only when they change. */
    var rendered: bool
    var lastChildren: Content
    /** The cleanup of the latest effect run. */
    var cleanup: Cleanup
    /** How many times the effect has run; runs are numbered from 0. */
    var runs: nat
    /** The virtual clock. */
    var now: int
    /** The host's timeouts in registration order, and the id the next one gets. */
    var timers: seq<Timer<Callback>>
    var nextTimerId: nat
    /** The callbacks waiting for the next paint (`requestAnimationFrame`), in order. */
    var frames: seq<Callback>
    /** The time each effect run started at. */
    ghost var starts: seq<int>

    /** Every timeout fires, and every queued paint callback runs, at its phase's offset
        from the start of its run; timeouts have distinct ids; a timeout's id is in the
        registered cleanup's `pending` exactly when the timeout belongs to that run. */
    ghost predicate Valid()
      reads this`runs, this`starts, this`timers, this`nextTimerId, this`now, this`frames, this`cleanup
    {
      |starts| == runs &&
      (forall i :: 0 <= i < |timers| ==> Scheduled(timers[i], starts, now, nextTimerId)) &&
      DistinctIds(timers) &&
      (forall i :: 0 <= i < |frames| ==> Queued(frames[i], starts, now)) &&
      (cleanup.Registered? ==>
        cleanup.run < runs &&
        (forall i :: 0 <= i < |cleanup.pending| ==> cleanup.pending[i] < nextTimerId) &&
        (forall i :: 0 <= i < |timers| ==>
           (timers[i].callback.run == cleanup.run <==> timers[i].id in cleanup.pending)))
    }

    /** Mounting: `useState(children)` and empty inline styles, before the first effect run. */
    constructor (children: Content, version: Version)
      ensures Valid() && this.version == version
      ensures targetChildren == children && !firstRender && !rendered && runs == 0
      ensures parentStyle == NoStyle && targetStyle == NoStyle
      ensures cleanup == NoCleanup && timers == [] && frames == [] && now == 0
    {
      this.version := version;
      targetChildren := children;
      firstRender := false;
      parentStyle := NoStyle;
      targetStyle := NoStyle;
      rendered := false;
      lastChildren := children;
      cleanup := NoCleanup;
      runs := 0;
      now := 0;
      timers := [];
      nextTimerId := 1;
      frames := [];
      starts := [];
    }

    /** `wait(duration, fn)`: a timeout that queues `fn` for the paint after it fires; its id
        goes into the `pending` array of the callback's run, which only a cleanup that is
        still registered reads. */
    method Wait(duration: PropValue<int>, cb: Callback)
      requires Valid()
      requires cb.run < runs && now + Delay(duration) == starts[cb.run] + Offset(cb.phase, cb.config)
      modifies this`timers, this`nextTimerId, this`cleanup
      ensures Valid()
      ensures timers == old(timers) + [Timer(old(nextTimerId), now + Delay(duration), cb)]
      ensures nextTimerId == old(nextTimerId) + 1
      ensures cleanup == if old(cleanup).Registered? && old(cleanup).run == cb.run
                         then old(cleanup).(pending := old(cleanup).pending + [old(nextTimerId)])
                         else old(cleanup)
    {
      timers := timers + [Timer(nextTimerId, now + Delay(duration), cb)];
      if cleanup.Registered? && cleanup.run == cb.run {
        cleanup := cleanup.(pending := cleanup.pending + [nextTimerId]);
      }
      nextTimerId := nextTimerId + 1;
    }

    /** `raf(fn)`: queued for the next paint, and never recorded in `pending`. */
    method Raf(cb: Callback)
      requires Valid() && cb.run < runs && starts[cb.run] + Offset(cb.phase, cb.config) == now
      modifies this`frames
      ensures Valid()
      ensures frames == old(frames) + [cb]
    {
      frames := frames + [cb];
    }

    /** Schedules what a step leaves behind for run `run`. */
    method Schedule(run: nat, next: Next, children: Content, config: Config)
      requires Valid() && run < runs
      requires next.After? ==> now + Delay(next.duration) == starts[run] + Offset(next.phase, config)
      requires next.OnPaint? ==> now == starts[run] + Offset(next.phase, config)
      modifies this`timers, this`nextTimerId, this`cleanup, this`frames
      ensures Valid()
      ensures timers == old(timers) +
        (if next.After? then [Timer(old(nextTimerId), now + Delay(next.duration), Callback(run, next.phase, children, config))]
         else [])
      ensures frames == old(frames) + (if next.OnPaint? then [Callback(run, next.phase, children, config)] else [])
      ensures cleanup == if next.After? && old(cleanup).Registered? && old(cleanup).run == run
                         then old(cleanup).(pending := old(cleanup).pending + [old(nextTimerId)])
                         else old(cleanup)
    {
      match next
      case Nothing =>
      case After(duration, phase) => Wait(duration, Callback(run, phase, children, config));
      case OnPaint(phase) => Raf(Callback(run, phase, children, config));
    }

    /** `done`: clears every timeout in `pending` and overwrites the style attribute of
        parent and target with a text that holds no declaration, so that neither keeps an
        inline property. Paint callbacks already queued stay queued. */
    method Done()
      requires Valid()
      modifies this`timers, this`parentStyle, this`targetStyle, this`cleanup
      ensures Valid()
      ensures cleanup == NoCleanup
      ensures old(cleanup).NoCleanup? ==>
        timers == old(timers) && parentStyle == old(parentStyle) && targetStyle == old(targetStyle)
      ensures old(cleanup).Registered? ==>
        timers == Surviving(old(timers), old(cleanup).pending) &&
        (forall t :: t in timers <==> t in old(timers) && t.callback.run != old(cleanup).run) &&
        parentStyle == Overwrite(Interpolated(CleanupReset, old(cleanup).config)) &&
        targetStyle == Overwrite(Interpolated(CleanupReset, old(cleanup).config))
    {
      match cleanup
      case NoCleanup =>
      case Registered(run, config, pending) =>
        var rest := ClearAll(timers, pending);
        SurvivingDistinct(timers, pending);
        assert forall i :: 0 <= i < |rest| ==> rest[i] in timers;
        assert forall t :: t in rest <==> t in timers && t.callback.run != run by {
          forall t | t in timers
            ensures t.id in pending <==> t.callback.run == run
          {
            var i :| 0 <= i < |timers| && timers[i] == t;
          }
        }
        timers := rest;
        parentStyle := Overwrite(Interpolated(CleanupReset, config));
        targetStyle := Overwrite(Interpolated(CleanupReset, config));
        cleanup := NoCleanup;
    }

    /** React rendering the component: when `children` differ from the ones the effect
        last ran for, the registered cleanup runs and then the effect, with the props
        merged over their defaults. */
    method Render(children: Content, props: Config, mounted: bool, gcs: Measure)
      requires Valid()
      modifies this
      ensures Valid()
      ensures rendered && lastChildren == children && now == old(now)
      ensures old(rendered) && children == old(lastChildren) ==>
        targetChildren == old(targetChildren) && firstRender == old(firstRender) &&
        parentStyle == old(parentStyle) && targetStyle == old(targetStyle) &&
        timers == old(timers) && frames == old(frames) && cleanup == old(cleanup) && runs == old(runs)
      ensures !(old(rendered) && children == old(lastChildren)) ==>
        runs == old(runs) + 1 && firstRender == (old(firstRender) || mounted) &&
        old(frames) <= frames &&
        (old(cleanup).Registered? ==> forall t <- timers :: t.callback.run != old(cleanup).run)
    {
      if !rendered || children != lastChildren {
        rendered, lastChildren := true, children;
        var branch := Rerun(children, MergeDefaults(props), mounted, gcs);
      }
    }

    /** A change of `children`: the registered cleanup, then the effect. No timeout of the
        superseded run survives, and paint callbacks already queued stay queued. */
    method Rerun(children: Content, config: Config, mounted: bool, gcs: Measure) returns (branch: Branch)
      requires Valid()
      modifies this`targetChildren, this`firstRender, this`parentStyle, this`targetStyle,
        this`cleanup, this`runs, this`timers, this`nextTimerId, this`frames, this`starts
      ensures Valid()
      ensures runs == old(runs) + 1 && starts == old(starts) + [now]
      ensures firstRender == (old(firstRender) || mounted)
      ensures old(frames) <= frames
      ensures old(cleanup).Registered? ==> forall t <- timers :: t.callback.run != old(cleanup).run
      ensures branch == SelectBranch(mounted, !old(firstRender), children, old(targetChildren))
      ensures var styles := EffectStylesOf(version, branch, AfterCleanup(old(cleanup), old(parentStyle)),
                                           AfterCleanup(old(cleanup), old(targetStyle)), config, gcs);
        parentStyle == styles.parent && targetStyle == styles.target
      ensures var c := EffectControlOf(version, branch, config);
        targetChildren == (if c.commit then children else old(targetChildren)) &&
        timers == TimersAfterCleanup(old(cleanup), old(timers)) +
          (if c.next.After?
           then [Timer(old(nextTimerId), now + Delay(c.next.duration), Callback(old(runs), c.next.phase, children, config))]
           else []) &&
        frames == old(frames) + (if c.next.OnPaint? then [Callback(old(runs), c.next.phase, children, config)] else [])
      ensures cleanup == if Registers(branch)
                         then Registered(old(runs), config, if branch == Exit then [old(nextTimerId)] else [])
                         else NoCleanup
    {
      Done();
      branch := Effect(children, config, mounted, gcs);
    }

    /** The start of an effect run: it is numbered, its start time recorded, `firstRender`
        set when the refs were there, the branch chosen and its inline styles written. */
    method Begin(children: Content, config: Config, mounted: bool, gcs: Measure)
      returns (run: nat, branch: Branch)
      requires Valid()
      modifies this`runs, this`starts, this`firstRender, this`parentStyle, this`targetStyle
      ensures Valid()
      ensures run == old(runs) && runs == run + 1 && starts == old(starts) + [now]
      ensures firstRender == (old(firstRender) || mounted)
      ensures branch == SelectBranch(mounted, !old(firstRender), children, targetChildren)
      ensures var styles := EffectStylesOf(version, branch, old(parentStyle), old(targetStyle), config, gcs);
        parentStyle == styles.parent && targetStyle == styles.target
      ensures forall i :: 0 <= i < |timers| ==> timers[i].callback.run < run
    {
      run, branch := runs, SelectBranch(mounted, !firstRender, children, targetChildren);
      var styles := EffectStylesOf(version, branch, parentStyle, targetStyle, config, gcs);
      runs, starts, firstRender, parentStyle, targetStyle :=
        runs + 1, starts + [now], firstRender || mounted, styles.parent, styles.target;
    }

    /** What a branch of the effect commits, registers as its cleanup and schedules. */
    method Launch(run: nat, branch: Branch, children: Content, config: Config)
      requires Valid() && cleanup == NoCleanup && run + 1 == runs && starts[run] == now
      requires forall i :: 0 <= i < |timers| ==> timers[i].callback.run < run
      modifies this`targetChildren, this`cleanup, this`timers, this`nextTimerId, this`frames
      ensures Valid()
      ensures var c := EffectControlOf(version, branch, config);
        targetChildren == (if c.commit then children else old(targetChildren)) &&
        timers == old(timers) +
          (if c.next.After?
           then [Timer(old(nextTimerId), now + Delay(c.next.duration), Callback(run, c.next.phase, children, config))]
           else []) &&
        frames == old(frames) + (if c.next.OnPaint? then [Callback(run, c.next.phase, children, config)] else [])
      ensures cleanup == if Registers(branch)
                         then Registered(run, config, if branch == Exit then [old(nextTimerId)] else [])
                         else NoCleanup
    {
      var c := EffectControlOf(version, branch, config);
      if c.commit {
        targetChildren := children;
      }
      if Registers(branch) {
        cleanup := Registered(run, config, []);
      }
      Schedule(run, c.next, children, config);
    }

    /** The body of the layout effect for one change of `children`, with `mounted` telling
        whether mirror, target and parent were all there when the component rendered. */
    method Effect(children: Content, config: Config, mounted: bool, gcs: Measure)
      returns (branch: Branch)
      requires Valid() && cleanup == NoCleanup
      modifies this`targetChildren, this`firstRender, this`parentStyle, this`targetStyle,
        this`cleanup, this`runs, this`timers, this`nextTimerId, this`frames, this`starts
      ensures Valid()
      ensures branch == SelectBranch(mounted, !old(firstRender), children, old(targetChildren))
      ensures runs == old(runs) + 1 && starts == old(starts) + [now]
      ensures firstRender == (old(firstRender) || mounted)
      ensures var styles := EffectStylesOf(version, branch, old(parentStyle), old(targetStyle), config, gcs);
        parentStyle == styles.parent && targetStyle == styles.target
      ensures var c := EffectControlOf(version, branch, config);
        targetChildren == (if c.commit then children else old(targetChildren)) &&
        timers == old(timers) +
          (if c.next.After?
           then [Timer(old(nextTimerId), now + Delay(c.next.duration), Callback(old(runs), c.next.phase, children, config))]
           else []) &&
        frames == old(frames) + (if c.next.OnPaint? then [Callback(old(runs), c.next.phase, children, config)] else [])
      ensures cleanup == if Registers(branch)
                         then Registered(old(runs), config, if branch == Exit then [old(nextTimerId)] else [])
                         else NoCleanup
    {
      var run;
      run, branch := Begin(children, config, mounted, gcs);
      Launch(run, branch, children, config);
    }

    /** Time passing with no timeout due and no paint callback queued, up to the moment of
        the next change of `children` or of the next timeout. */
    method AdvanceTo(t: int)
      requires Valid() && frames == [] && now <= t
      requires forall i :: 0 <= i < |timers| ==> t <= timers[i].due
      modifies this`now
      ensures Valid() && now == t
    {
      now := t;
    }

    /** The host firing the earliest timeout (the first registered among those due
        earliest), which advances the clock to its due time and queues its callback for the
        next paint. Paint callbacks run before the clock moves on. */
    method FireTimer(i: nat)
      requires Valid() && frames == [] && i < |timers|
      requires forall j :: 0 <= j < |timers| ==> timers[i].due <= timers[j].due
      requires forall j :: 0 <= j < i ==> timers[j].due != timers[i].due
      modifies this`now, this`timers, this`frames
      ensures Valid()
      ensures old(now) <= now == old(timers[i].due)
      ensures timers == old(timers[..i] + timers[i + 1..])
      ensures frames == [old(timers[i].callback)]
    {
      var fired := timers[i];
      now := fired.due;
      var rest := timers[..i] + timers[i + 1..];
      assert forall j :: 0 <= j < |rest| ==> rest[j] == timers[if j < i then j else j + 1];
      timers := rest;
      frames := [fired.callback];
    }

    /** The next paint running the first queued callback. Only an exit's hide, due at
        `fadeDuration + sizeDuration`, and a swap's resize, due at `fadeDuration`, commit
        `targetChildren`. A callback of a run whose cleanup has already run still runs,
        and a timeout it schedules is recorded in no live `pending`. */
    method RunFrame(gcs: Measure) returns (cb: Callback)
      requires Valid() && frames != []
      modifies this`targetChildren, this`parentStyle, this`targetStyle, this`cleanup,
        this`timers, this`nextTimerId, this`frames
      ensures Valid()
      ensures cb == old(frames[0]) && frames == old(frames[1..])
      ensures now == starts[cb.run] + Offset(cb.phase, cb.config)
      ensures var styles := PhaseStyles(cb.phase, cb.config, old(parentStyle), old(targetStyle), gcs);
        parentStyle == styles.parent && targetStyle == styles.target
      ensures var c := PhaseControl(cb.phase, cb.config);
        targetChildren == (if c.commit then cb.children else old(targetChildren)) &&
        timers == old(timers) +
          (if c.next.After?
           then [Timer(old(nextTimerId), now + Delay(c.next.duration), cb.(phase := c.next.phase))]
           else [])
      ensures targetChildren != old(targetChildren) ==>
        (cb.phase == ExitHide &&
         now == starts[cb.run] + Delay(cb.config.fadeDuration) + Delay(cb.config.sizeDuration)) ||
        (cb.phase == SwapResize && now == starts[cb.run] + Delay(cb.config.fadeDuration))
      ensures var c := PhaseControl(cb.phase, cb.config);
        cleanup == if c.next.After? && old(cleanup).Registered? && old(cleanup).run == cb.run
                   then old(cleanup).(pending := old(cleanup).pending + [old(nextTimerId)])
                   else old(cleanup)
    {
      cb := Paint(gcs);
      Continue(cb);
    }

    /** The next paint taking the first queued callback and writing its inline styles. */
    method Paint(gcs: Measure) returns (cb: Callback)
      requires Valid() && frames != []
      modifies this`frames, this`parentStyle, this`targetStyle
      ensures Valid() && Queued(cb, starts, now)
      ensures cb == old(frames[0]) && frames == old(frames[1..])
      ensures var styles := PhaseStyles(cb.phase, cb.config, old(parentStyle), old(targetStyle), gcs);
        parentStyle == styles.parent && targetStyle == styles.target
    {
      cb := frames[0];
      var styles := PhaseStyles(cb.phase, cb.config, parentStyle, targetStyle, gcs);
      frames, parentStyle, targetStyle := frames[1..], styles.parent, styles.target;
    }

    /** What a callback commits and schedules. */
    method Continue(cb: Callback)
      requires Valid() && Queued(cb, starts, now)
      modifies this`targetChildren, this`cleanup, this`timers, this`nextTimerId, this`frames
      ensures Valid() && frames == old(frames)
      ensures var c := PhaseControl(cb.phase, cb.config);
        targetChildren == (if c.commit then cb.children else old(targetChildren)) &&
        timers == old(timers) +
          (if c.next.After?
           then [Timer(old(nextTimerId), now + Delay(c.next.duration), cb.(phase := c.next.phase))]
           else [])
      ensures targetChildren != old(targetChildren) ==>
        (cb.phase == ExitHide &&
         now == starts[cb.run] + Delay(cb.config.fadeDuration) + Delay(cb.config.sizeDuration)) ||
        (cb.phase == SwapResize && now == starts[cb.run] + Delay(cb.config.fadeDuration))
      ensures var c := PhaseControl(cb.phase, cb.config);
        cleanup == if c.next.After? && old(cleanup).Registered? && old(cleanup).run == cb.run
                   then old(cleanup).(pending := old(cleanup).pending + [old(nextTimerId)])
                   else old(cleanup)
    {
      var c := PhaseControl(cb.phase, cb.config);
      if c.commit {
        targetChildren := cb.children;
      }
      Schedule(cb.run, c.next, cb.children, cb.config);
    }
  }

  /** An instance running the effect as written, mounted with "Short": the run at mount
      bails, the first change to "" hides the parent without committing, so "Short" stays
      shown, and the change back to "Short" is taken for no change: the parent stays
      hidden. */
  method StaysHiddenScenario(config: Config, gcs: Measure) returns (shown: Content, visibility: Value)
    ensures shown == Str("Short") && visibility == Css("hidden")
  {
    var c := new Transitioner(Str("Short"), AsWritten);
    var mount := c.Effect(Str("Short"), config, false, gcs);
    var cleared := c.Effect(Str(""), config, true, gcs);
    var back := c.Effect(Str("Short"), config, true, gcs);
    shown, visibility := c.targetChildren, c.parentStyle.Get(Visibility);
  }

  /** The same changes on an instance running the corrected effect: the hide commits "",
      so the change back is an enter, which reveals the parent at once. */
  method ShownAgainScenario(config: Config, gcs: Measure) returns (shown: Content, visibility: Value)
    ensures shown == Str("Short") && visibility == Unset
  {
    var c := new Transitioner(Str("Short"), Corrected);
    var mount := c.Effect(Str("Short"), config, false, gcs);
    var cleared := c.Effect(Str(""), config, true, gcs);
    assert cleared == HideOnFirstRun && c.targetChildren == Str("");
    var hidden := c.parentStyle;
    assert hidden.Get(Visibility) == Css("hidden");
    var back := c.Effect(Str("Short"), config, true, gcs);
    assert back == Enter;
    var revealed := c.parentStyle;
    assert revealed == ZeroParent(RevealFully(hidden));
    assert revealed.Get(Visibility) == RevealFully(hidden).Get(Visibility) == Unset;
    shown, visibility := c.targetChildren, revealed.Get(Visibility);
  }
}
