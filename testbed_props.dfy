/** What the orchestrator promises: the command sequencer's order and completion, the
    dependency checks, the stop path, the watchdog, the gNB cascade and the terminal registry. */
module TestBedProps {
  import opened Wrappers
  import opened TestBedSpec
  import opened TestBedInvariant

  // ---------------------------------------------------------------------------------------
  // Command sequencer

  /** The payloads are the commands, in order, each followed by a newline. */
  lemma {:induction false} LinesAt(commands: seq<string>)
    ensures |Lines(commands)| == |commands|
    ensures forall i :: 0 <= i < |commands| ==> Lines(commands)[i] == commands[i] + "\n"
  {
    if commands != [] {
      LinesAt(commands[1..]);
    }
  }

  /** Typing the head and then the rest of a queue is typing the queue. */
  lemma AppendLines(output: map<SessionId, seq<string>>, sid: SessionId, queue: seq<string>)
    requires sid in output && queue != []
    ensures var o1 := output[sid := output[sid] + [queue[0] + "\n"]];
      o1[sid := o1[sid] + Lines(queue[1..])] == output[sid := output[sid] + Lines(queue)]
  {
    assert Lines(queue) == [queue[0] + "\n"] + Lines(queue[1..]);
    assert output[sid] + [queue[0] + "\n"] + Lines(queue[1..]) == output[sid] + Lines(queue);
  }

  /** The sequence's session, followed by the lines of `queue`. */
  function Typed(r: Registry, sid: SessionId, queue: seq<string>): Registry
    requires sid in r.output
  {
    r.(output := r.output[sid := r.output[sid] + Lines(queue)])
  }

  /** As many ticks as there are queued commands type each of them, followed by a newline and
      in list order, into the sequence's session, one per tick, and change nothing else: the
      source is still alive with an empty queue, so `on_complete` has not run yet. */
  lemma {:induction false} SequencerTypesInOrder(s: Bed, id: SourceId)
    requires id in s.sched.timers && s.sched.timers[id].session in s.reg.output
    ensures var q := s.sched.timers[id];
      Ticks(s, id, |q.queue|)
        == s.(reg := Typed(s.reg, q.session, q.queue),
              sched := s.sched.(timers := s.sched.timers[id := q.(queue := [])]))
    decreases |s.sched.timers[id].queue|
  {
    var q := s.sched.timers[id];
    if q.queue == [] {
      assert s.sched.timers[id := q.(queue := [])] == s.sched.timers;
      assert s.reg.output[q.session] + Lines(q.queue) == s.reg.output[q.session];
      assert s.reg.output[q.session := s.reg.output[q.session] + Lines(q.queue)] == s.reg.output;
    } else {
      var s1 := SendNext(s, id);
      assert Ticks(s, id, |q.queue|) == Ticks(s1, id, |q.queue[1..]|);
      SequencerTypesInOrder(s1, id);
      AppendLines(s.reg.output, q.session, q.queue);
      assert s1.sched.timers[id := q.(queue := [])] == s.sched.timers[id := q.(queue := [])];
    }
  }

  /** The tick after the queue has drained runs `on_complete` (raising exactly the flag of the
      component it was given), sets the slot to None and lets the source die, so later ticks
      of it never happen: the callback fires exactly once. Nothing is typed. */
  lemma SequencerCompletes(s: Bed, id: SourceId)
    requires id in s.sched.timers && s.sched.timers[id].queue == []
    ensures var q := s.sched.timers[id]; var t := SendNext(s, id);
      && t.sched.timers == s.sched.timers - {id}
      && t.sched.slots == s.sched.slots - {q.slot}
      && t.reg == s.reg
      && (forall c :: Running(t, c) == (Running(s, c) || q.onComplete == Some(c)))
      && (forall n :: Ticks(t, id, n) == t)
  {
    var t := SendNext(s, id);
    forall n ensures Ticks(t, id, n) == t {
      assert id !in t.sched.timers;
    }
  }

  /** A whole sequence of N commands: N + 1 ticks type the N lines in order and then complete. */
  lemma {:induction false} SequencerRunsToCompletion(s: Bed, id: SourceId)
    requires id in s.sched.timers && s.sched.timers[id].session in s.reg.output
    ensures var q := s.sched.timers[id]; var t := Ticks(s, id, |q.queue| + 1);
      && id !in t.sched.timers
      && t.sched.slots == s.sched.slots - {q.slot}
      && t.reg == Typed(s.reg, q.session, q.queue)
      && (forall c :: Running(t, c) == (Running(s, c) || q.onComplete == Some(c)))
    decreases |s.sched.timers[id].queue|
  {
    var q := s.sched.timers[id];
    if q.queue == [] {
      SequencerCompletes(s, id);
      assert s.reg.output[q.session] + Lines(q.queue) == s.reg.output[q.session];
      assert s.reg.output[q.session := s.reg.output[q.session] + Lines(q.queue)] == s.reg.output;
    } else {
      var s1 := SendNext(s, id);
      assert Ticks(s, id, |q.queue| + 1) == Ticks(s1, id, |q.queue[1..]| + 1);
      SequencerRunsToCompletion(s1, id);
      AppendLines(s.reg.output, q.session, q.queue);
    }
  }

  // ---------------------------------------------------------------------------------------
  // Terminal registry

  /** `create_terminal_tab` hands back the session already registered under a key, changing
      nothing, and otherwise registers a fresh, empty session under it with a page. */
  lemma CreateTerminalTabReuses(r: Registry, key: string)
    requires key in r.terminals
    ensures CreateTerminalTab(r, key) == (r, r.terminals[key])
  {
  }

  lemma CreateTerminalTabAdds(r: Registry, key: string)
    requires RegistryValid(r) && key !in r.terminals
    ensures var (r', sid) := CreateTerminalTab(r, key);
      && sid !in r.output && r'.output == r.output[sid := []]
      && r'.terminals == r.terminals[key := sid] && r'.pages == r.pages + {key}
      && r'.termRef == r.termRef
  {
  }

  /** Asking twice for the same key yields the same session, and the second call changes
      nothing. */
  lemma CreateTerminalTabIdempotent(r: Registry, key: string)
    ensures var (r1, sid1) := CreateTerminalTab(r, key);
      CreateTerminalTab(r1, key) == (r1, sid1)
  {
  }

  /** Selecting another menu row unregisters exactly the unprotected keys; the components'
      sessions, flags and sources are kept. */
  lemma MenuSwitchKeepsProtected(s: Bed, row: Option<nat>)
    requires row.Some? && row != s.ui.menu
    ensures var t := OnMenuSelected(s, row);
      && t.reg.terminals.Keys == s.reg.terminals.Keys * ProtectedKeys
      && (forall k :: k in t.reg.terminals ==> t.reg.terminals[k] == s.reg.terminals[k])
      && t.reg.termRef == s.reg.termRef && t.reg.output == s.reg.output
      && t.flags == s.flags && t.sched == s.sched && t.ui.menu == row
  {
  }

  /** Since every component's key is protected, menu switching never drops a component's
      session: the source's special case for an unprotected "tshark" key cannot arise. */
  lemma MenuSwitchKeepsComponents(s: Bed, row: Option<nat>, c: Comp)
    requires Key(c) in s.reg.terminals
    ensures Key(c) in OnMenuSelected(s, row).reg.terminals
    ensures Key(c) in ProtectedKeys
  {
  }

  /** Re-selecting the current row, or a missing row, changes nothing. */
  lemma MenuReselectNoop(s: Bed, row: Option<nat>)
    requires row.None? || row == s.ui.menu
    ensures OnMenuSelected(s, row) == s
  {
  }

  // ---------------------------------------------------------------------------------------
  // Start path

  /** Clicking a stopped component's button schedules a new sequence of its commands, with
      `startup_complete` for that component as completion, into the session registered under
      the component's key (the existing one when there is one), stores the new source in the
      component's slot, keeps a reference to the session, and does not yet raise the flag. */
  lemma StartSchedules(s: Bed, c: Comp, commands: seq<string>)
    requires Valid(s)
    ensures var t := StartSequence(s, c, commands);
      && c in t.reg.termRef && Key(c) in t.reg.terminals && t.reg.termRef[c] == t.reg.terminals[Key(c)]
      && t.reg.termRef[c] in t.reg.output
      && s.sched.nextSource !in s.sched.timers
      && t.sched.timers == s.sched.timers[s.sched.nextSource := Sequence(t.reg.termRef[c], commands, SlotOf(c), Some(c))]
      && t.sched.slots == s.sched.slots[SlotOf(c) := s.sched.nextSource]
      && t.flags == s.flags && t.ui == s.ui
      && (Key(c) in s.reg.terminals ==> t.reg.termRef[c] == s.reg.terminals[Key(c)] && t.reg.output == s.reg.output)
  {
    CreateTerminalTabValid(s.reg, Key(c));
  }

  /** Clicking a stopped component's button and letting its new source tick once per command
      and once more types the component's commands into its session in order, raises its
      flag and clears its slot. */
  lemma StartThenCompletes(s: Bed, c: Comp, commands: seq<string>)
    requires Valid(s)
    ensures c in StartSequence(s, c, commands).reg.termRef
    ensures var t := StartSequence(s, c, commands); var sid := t.reg.termRef[c];
      var u := Ticks(t, s.sched.nextSource, |commands| + 1);
      && Running(u, c)
      && (forall c' :: c' != c ==> Running(u, c') == Running(s, c'))
      && SlotOf(c) !in u.sched.slots
      && s.sched.nextSource !in u.sched.timers
      && sid in t.reg.output
      && u.reg.output == t.reg.output[sid := t.reg.output[sid] + Lines(commands)]
  {
    var t := StartSequence(s, c, commands);
    StartSchedules(s, c, commands);
    SequencerRunsToCompletion(t, s.sched.nextSource);
  }

  /** The gNB cannot be started while the core is not flagged running: the click only raises
      the "Startup Order Error" alert. */
  lemma GnbStartNeedsCore(s: Bed)
    requires !s.flags.gnb && !s.flags.core
    ensures ToggleGnbProcess(s) == s.(ui := s.ui.(alerts := s.ui.alerts + [CoreFirst]))
  {
  }

  /** Starting a stopped gNB schedules a new sequence exactly when the core is flagged
      running. */
  lemma GnbStartsIffCore(s: Bed)
    requires Valid(s) && !s.flags.gnb
    ensures s.sched.nextSource in ToggleGnbProcess(s).sched.timers <==> s.flags.core
  {
    if s.flags.core {
      StartSchedules(s, Gnb, GnbCommands);
    } else {
      assert s.sched.nextSource !in s.sched.timers;
    }
  }

  /** The UE cannot be started while the gNB is not flagged running. */
  lemma UeStartNeedsGnb(s: Bed)
    requires !s.flags.ue && !s.flags.gnb
    ensures ToggleUeProcess(s) == s.(ui := s.ui.(alerts := s.ui.alerts + [GnbFirst]))
  {
  }

  /** Starting a stopped UE schedules a new sequence exactly when the gNB is flagged running. */
  lemma UeStartsIffGnb(s: Bed)
    requires Valid(s) && !s.flags.ue
    ensures s.sched.nextSource in ToggleUeProcess(s).sched.timers <==> s.flags.gnb
  {
    if s.flags.gnb {
      StartSchedules(s, Ue, UeCommands);
    } else {
      assert s.sched.nextSource !in s.sched.timers;
    }
  }

  /** A second click while a start sequence is still pending (the flag is only raised on
      completion) schedules a second sequence into the same session; the slot keeps only the
      newer id, and the older source stays alive and will type the commands again. */
  lemma SecondClickDuringStartup(s: Bed)
    requires Valid(s) && s.flags.core && !s.flags.gnb
    ensures var t1 := ToggleGnbProcess(s); var t2 := ToggleGnbProcess(t1); var id := s.sched.nextSource;
      && !t2.flags.gnb
      && id in t2.sched.timers && id + 1 in t2.sched.timers
      && t2.sched.timers[id].queue == GnbCommands && t2.sched.timers[id + 1].queue == GnbCommands
      && t2.sched.timers[id].session == t2.sched.timers[id + 1].session
      && t2.sched.slots[GnbCommandSlot] == id + 1
  {
    var t1 := ToggleGnbProcess(s);
    StartSchedules(s, Gnb, GnbCommands);
    StartSequenceValid(s, Gnb, GnbCommands);
    StartSchedules(t1, Gnb, GnbCommands);
  }

  // ---------------------------------------------------------------------------------------
  // Stop path

  /** Stopping a component removes the sequence its slot holds (if any) and clears the slot,
      writes one Ctrl-C into its session (if it has one), lowers its flag (and, for the gNB,
      clears the link IP), and touches no other flag, source or session. */
  lemma StopComponentEffect(s: Bed, c: Comp)
    ensures var t := StopComponent(s, c);
      && !Running(t, c)
      && (forall c' :: c' != c ==> Running(t, c') == Running(s, c'))
      && SlotOf(c) !in t.sched.slots
      && t.sched.slots == s.sched.slots - {SlotOf(c)}
      && t.sched.timers == (if SlotOf(c) in s.sched.slots then s.sched.timers - {s.sched.slots[SlotOf(c)]} else s.sched.timers)
      && t.sched.idle == s.sched.idle
      && t.reg.terminals == s.reg.terminals && t.reg.termRef == s.reg.termRef && t.ui.alerts == s.ui.alerts
      && t.reg.output == (if c in s.reg.termRef then Feed(s.reg.output, s.reg.termRef[c], CtrlC) else s.reg.output)
      && t.ui.gnbLinkIp == (if c == Gnb then NoIp else s.ui.gnbLinkIp)
      && t.reg.pages == s.reg.pages && t.reg.nextSession == s.reg.nextSession
      && t.sched.nextSource == s.sched.nextSource
      && t.ui.menu == s.ui.menu && t.ui.quitting == s.ui.quitting
  {
  }

  /** A stopped component's pending sequence never types again: ticks of the source its
      slot held do nothing. */
  lemma StopCancelsSequence(s: Bed, c: Comp, n: nat)
    requires SlotOf(c) in s.sched.slots
    ensures var t := StopComponent(s, c); Ticks(t, s.sched.slots[SlotOf(c)], n) == t
  {
    StopComponentEffect(s, c);
  }

  /** Stopping the core does not look at the gNB or the UE: their flags stay as they are. */
  lemma CoreStopIgnoresDependents(s: Bed)
    requires s.flags.core
    ensures var t := ToggleCoreProcess(s);
      !t.flags.core && t.flags.gnb == s.flags.gnb && t.flags.ue == s.flags.ue
  {
  }

  /** The gNB cannot be stopped while the UE is flagged running: the click only raises the
      "UE is Still Active" alert. */
  lemma GnbStopRefusedWhileUeRuns(s: Bed)
    requires s.flags.gnb && s.flags.ue
    ensures ToggleGnbProcess(s) == s.(ui := s.ui.(alerts := s.ui.alerts + [UeStillActive]))
  {
  }

  /** Clicking a running component's button stops it (the gNB's only when the UE is not
      flagged running). */
  lemma ClickStopsRunning(s: Bed, c: Comp, capturePath: string)
    requires Running(s, c) && !(c == Gnb && s.flags.ue)
    ensures var e := match c case Core => ClickCore case Gnb => ClickGnb case Ue => ClickUe case Tshark => ClickTshark(capturePath);
      Step(s, e) == StopComponent(s, c)
  {
  }

  /** A running flag is raised only by the completion of a start sequence for that
      component: by the tick of a live source whose queue has drained and whose completion
      names it. */
  lemma FlagRisesOnlyOnCompletion(s: Bed, e: Event, c: Comp)
    requires !Running(s, c) && Running(Step(s, e), c)
    ensures e.Tick? && e.source in s.sched.timers
    ensures s.sched.timers[e.source].queue == [] && s.sched.timers[e.source].onComplete == Some(c)
  {
    match e
    case ClickCore => TogglesNeverRaise(s, c, "");
    case ClickGnb => TogglesNeverRaise(s, c, "");
    case ClickUe => TogglesNeverRaise(s, c, "");
    case ClickTshark(p) => TogglesNeverRaise(s, c, p);
    case Tick(id) =>
    case WatchdogTick(present) =>
    case Idle => IdleNeverRaises(s, c);
    case ChildExited(key) =>
    case MenuSelected(row) =>
    case CloseClicked(key) => TogglesNeverRaise(s, c, "");
    case GnbConfig =>
    case UeConfig =>
    case Quit =>
  }

  /** No button click raises a flag. */
  lemma TogglesNeverRaise(s: Bed, c: Comp, capturePath: string)
    requires !Running(s, c)
    ensures !Running(ToggleCoreProcess(s), c)
    ensures !Running(ToggleGnbProcess(s), c)
    ensures !Running(ToggleUeProcess(s), c)
    ensures !Running(ToggleTsharkProcess(s, capturePath), c)
    ensures !Running(StopComponent(s, Tshark), c)
  {
  }

  /** No idle callback raises a flag. */
  lemma IdleNeverRaises(s: Bed, c: Comp)
    requires !Running(s, c)
    ensures !Running(DispatchIdle(s), c)
  {
    if s.sched.idle != [] {
      var s1 := s.(sched := s.sched.(idle := s.sched.idle[1..]));
      match s.sched.idle[0]
      case CallHandleGnbStopped => TogglesNeverRaise(ResetButton(s1, Gnb), c, "");
      case CallResetUe =>
      case CallResetTshark =>
    }
  }

  // ---------------------------------------------------------------------------------------
  // Watchdog

  /** The watchdog posts, in the order gNB, UE, tshark, the handler of every component that is
      flagged running but whose process `pgrep -f` does not find; the core is never watched. */
  lemma WatchdogDue(f: Flags, present: set<string>)
    ensures DueHandlers(f, present, Watched)
      == (if f.gnb && "./gnb" !in present then [CallHandleGnbStopped] else [])
       + (if f.ue && "./ue" !in present then [CallResetUe] else [])
       + (if f.tshark && "tshark" !in present then [CallResetTshark] else [])
  {
    var t2 := Watched[..2];
    var t1 := t2[..1];
    assert t1[..0] == [];
    assert DueHandlers(f, present, t1)
      == (if f.gnb && "./gnb" !in present then [CallHandleGnbStopped] else []);
    assert DueHandlers(f, present, t2)
      == DueHandlers(f, present, t1) + (if f.ue && "./ue" !in present then [CallResetUe] else []);
  }

  /** A watchdog tick only appends the handlers WatchdogDue lists to the idle queue; flags,
      sessions, sources and the window are unchanged. */
  lemma WatchdogOnlyPosts(s: Bed, present: set<string>)
    ensures var t := CheckProcessStatus(s, present);
      && t.flags == s.flags && t.reg == s.reg && t.ui == s.ui
      && t.sched.timers == s.sched.timers && t.sched.slots == s.sched.slots
      && t.sched.idle == s.sched.idle
           + (if s.flags.gnb && "./gnb" !in present then [CallHandleGnbStopped] else [])
           + (if s.flags.ue && "./ue" !in present then [CallResetUe] else [])
           + (if s.flags.tshark && "tshark" !in present then [CallResetTshark] else [])
  {
    WatchdogDue(s.flags, present);
  }

  /** No handler the watchdog posts touches the core's flag or the core's sources. */
  lemma HandlersKeepCore(s: Bed)
    ensures DispatchIdle(s).flags.core == s.flags.core
    ensures CoreSlot in DispatchIdle(s).sched.slots <==> CoreSlot in s.sched.slots
    ensures CoreSlot in s.sched.slots ==> DispatchIdle(s).sched.slots[CoreSlot] == s.sched.slots[CoreSlot]
  {
    if s.sched.idle != [] {
      var s1 := s.(sched := s.sched.(idle := s.sched.idle[1..]));
      match s.sched.idle[0]
      case CallHandleGnbStopped =>
        var s2 := ResetButton(s1, Gnb);
        if s2.flags.ue {
          assert HandleGnbStoppedUnexpectedly(s1) == StopComponent(s2, Ue);
        }
      case CallResetUe =>
      case CallResetTshark =>
    }
  }

  // ---------------------------------------------------------------------------------------
  // Failure handling

  /** When the watchdog finds the gNB gone, the gNB is reset and a UE still flagged running is
      stopped through its toggle (its sequence cancelled, its session interrupted); the core
      and tshark are left alone. */
  lemma CascadeStopsUe(s: Bed)
    requires s.flags.ue
    ensures var t := HandleGnbStoppedUnexpectedly(s);
      && !t.flags.gnb && !t.flags.ue
      && t.flags.core == s.flags.core && t.flags.tshark == s.flags.tshark
      && t.ui.gnbLinkIp == NoIp
      && t.sched.slots == s.sched.slots - {UeCommandSlot}
      && t.sched.timers == (if UeCommandSlot in s.sched.slots then s.sched.timers - {s.sched.slots[UeCommandSlot]}
                            else s.sched.timers)
      && t.reg.output == (if Ue in s.reg.termRef then Feed(s.reg.output, s.reg.termRef[Ue], CtrlC) else s.reg.output)
  {
  }

  /** Without a running UE the handler only resets the gNB. */
  lemma CascadeWithoutUe(s: Bed)
    requires !s.flags.ue
    ensures HandleGnbStoppedUnexpectedly(s) == ResetButton(s, Gnb)
    ensures var t := HandleGnbStoppedUnexpectedly(s);
      && !t.flags.gnb && t.flags.core == s.flags.core && t.flags.tshark == s.flags.tshark
      && t.reg == s.reg && t.sched == s.sched
  {
  }

  /** Running the handler twice (the watchdog may post it on two ticks before it runs) has
      the effect of running it once. */
  lemma CascadeIdempotent(s: Bed)
    ensures HandleGnbStoppedUnexpectedly(HandleGnbStoppedUnexpectedly(s)) == HandleGnbStoppedUnexpectedly(s)
  {
    var t := HandleGnbStoppedUnexpectedly(s);
    assert !t.flags.ue && !t.flags.gnb;
  }

  /** The child-exited handler of the session registered under `key` lowers exactly the flag
      of the component owning that key, if it is raised, and changes nothing else but the gNB
      link IP; in particular a gNB exit does not stop the UE. */
  lemma ProcessExitedLowersOwnFlag(s: Bed, key: string)
    ensures var t := OnProcessExited(s, key);
      && (forall c :: Up(t.flags, c) == (Up(s.flags, c) && key != Key(c)))
      && t.reg == s.reg && t.sched == s.sched && t.ui.alerts == s.ui.alerts
  {
  }

  lemma ProcessExitedIdempotent(s: Bed, key: string)
    ensures OnProcessExited(OnProcessExited(s, key), key) == OnProcessExited(s, key)
  {
  }

  // ---------------------------------------------------------------------------------------
  // Closing tabs

  /** Closing a tab removes its page; the key stays registered (with its session) exactly
      when it is one of the four protected keys. */
  lemma CloseTabRegistry(s: Bed, key: string)
    ensures var t := CloseTab(s, key);
      && key !in t.reg.pages
      && t.reg.pages == s.reg.pages - {key}
      && (key in ProtectedKeys ==> t.reg.terminals == s.reg.terminals)
      && (key !in ProtectedKeys ==> t.reg.terminals == s.reg.terminals - {key})
      && t.reg.termRef == s.reg.termRef
  {
  }

  /** Closing a tab that is not a running gNB, UE or tshark tab stops nothing. */
  lemma CloseTabStopsNothingElse(s: Bed, key: string)
    requires !(key == "gnb" && s.flags.gnb) && !(key == "ue" && s.flags.ue) && !(key == "tshark" && s.flags.tshark)
    ensures var t := CloseTab(s, key);
      t.flags == s.flags && t.sched == s.sched && t.reg.output == s.reg.output && t.ui == s.ui
  {
  }

  /** In particular, closing the core's tab leaves the core running. */
  lemma CloseCoreTabKeepsCore(s: Bed)
    ensures CloseTab(s, "core").flags == s.flags
  {
  }

  /** Closing the running gNB's tab while the UE runs only warns and removes the page: the
      gNB keeps running, nothing is typed and no source changes. */
  lemma CloseGnbTabWhileUeRuns(s: Bed)
    requires s.flags.gnb && s.flags.ue
    ensures CloseTab(s, "gnb")
         == s.(reg := s.reg.(pages := s.reg.pages - {"gnb"}), ui := s.ui.(alerts := s.ui.alerts + [UeStillActive]))
  {
  }

  /** Closing the tab of a running UE or tshark, or of a running gNB while the UE is not
      running, is that component's stop (StopComponentEffect) followed by removing the page. */
  lemma CloseRunningTabStops(s: Bed, c: Comp)
    requires (c == Ue || c == Tshark || (c == Gnb && !s.flags.ue)) && Running(s, c)
    ensures var t := CloseTab(s, Key(c)); var u := StopComponent(s, c);
      t == u.(reg := u.reg.(pages := u.reg.pages - {Key(c)}))
  {
  }

  /** A protected tab that has been closed stays hidden: restarting its component reuses the
      registered session without adding a page back. */
  lemma ClosedProtectedTabStaysHidden(s: Bed, c: Comp)
    requires Key(c) in s.reg.terminals
    ensures var r := CloseTab(s, Key(c)).reg;
      Key(c) in r.terminals && CreateTerminalTab(r, Key(c)) == (r, r.terminals[Key(c)]) && Key(c) !in r.pages
  {
  }

  // ---------------------------------------------------------------------------------------
  // Quitting

  /** Two components' sessions are distinct. */
  lemma DistinctSessions(r: Registry, c: Comp, c': Comp)
    requires RegistryValid(r) && c in r.termRef && c' in r.termRef && c != c'
    ensures r.termRef[c] != r.termRef[c']
  {
    assert Key(c) != Key(c');
  }

  /** The sessions quitting interrupts: those of the running UE, gNB and tshark. */
  function QuitTargets(s: Bed): set<SessionId> {
    set c | c in s.reg.termRef && c != Core && Running(s, c) :: s.reg.termRef[c]
  }

  /** Feeding one session leaves every other session as it was. */
  lemma FeedAt(o: map<SessionId, seq<string>>, a: SessionId, x: string, b: SessionId)
    requires b in o
    ensures b in Feed(o, a, x) && Feed(o, a, x)[b] == o[b] + (if a == b then [x] else [])
  {
  }

  /** Quitting writes one Ctrl-C into the session of each running UE, gNB and tshark and
      nothing into any other session (the core's included); it changes no flag and no source,
      and leaves the main loop. */
  lemma QuitInterruptsRunning(s: Bed)
    requires Valid(s)
    ensures var t := OnAppQuit(s);
      && t.ui.quitting && t.flags == s.flags && t.sched == s.sched
      && t.reg.output.Keys == s.reg.output.Keys
      && (forall sid :: sid in s.reg.output ==>
            t.reg.output[sid] == s.reg.output[sid] + (if sid in QuitTargets(s) then [CtrlC] else []))
  {
    QuitFeeds(s);
    forall sid | sid in s.reg.output
      ensures sid in OnAppQuit(s).reg.output
      ensures OnAppQuit(s).reg.output[sid] == s.reg.output[sid] + (if sid in QuitTargets(s) then [CtrlC] else [])
    {
      QuitAt(s, sid);
    }
  }

  /** QuitInterruptsRunning for one session. */
  lemma QuitAt(s: Bed, sid: SessionId)
    requires Valid(s) && sid in s.reg.output
    ensures sid in OnAppQuit(s).reg.output
    ensures OnAppQuit(s).reg.output[sid] == s.reg.output[sid] + (if sid in QuitTargets(s) then [CtrlC] else [])
  {
    var r := s.reg;
    var o0 := r.output;
    var o1 := if s.flags.ue then Feed(o0, r.termRef[Ue], CtrlC) else o0;
    var o2 := if s.flags.gnb then Feed(o1, r.termRef[Gnb], CtrlC) else o1;
    QuitFeeds(s);
    if s.flags.ue { FeedAt(o0, r.termRef[Ue], CtrlC, sid); }
    if s.flags.gnb { FeedAt(o1, r.termRef[Gnb], CtrlC, sid); }
    if s.flags.tshark { FeedAt(o2, r.termRef[Tshark], CtrlC, sid); }
    QuitTargetsAt(s, sid);
  }

  /** OnAppQuit as three conditional feeds. */
  lemma QuitFeeds(s: Bed)
    requires Valid(s)
    ensures var r := s.reg;
      var o1 := if s.flags.ue then Feed(r.output, r.termRef[Ue], CtrlC) else r.output;
      var o2 := if s.flags.gnb then Feed(o1, r.termRef[Gnb], CtrlC) else o1;
      var o3 := if s.flags.tshark then Feed(o2, r.termRef[Tshark], CtrlC) else o2;
      var t := OnAppQuit(s);
      t.reg.output == o3 && t.ui.quitting && t.flags == s.flags && t.sched == s.sched
  {
    assert Up(s.flags, Ue) == s.flags.ue && Up(s.flags, Gnb) == s.flags.gnb && Up(s.flags, Tshark) == s.flags.tshark;
  }

  /** Which of the three components, if any, owns a session. */
  lemma QuitTargetsAt(s: Bed, sid: SessionId)
    requires Valid(s)
    ensures sid in QuitTargets(s) <==>
      || (s.flags.ue && s.reg.termRef[Ue] == sid)
      || (s.flags.gnb && s.reg.termRef[Gnb] == sid)
      || (s.flags.tshark && s.reg.termRef[Tshark] == sid)
    ensures s.flags.ue && s.flags.gnb ==> s.reg.termRef[Ue] != s.reg.termRef[Gnb]
    ensures s.flags.ue && s.flags.tshark ==> s.reg.termRef[Ue] != s.reg.termRef[Tshark]
    ensures s.flags.gnb && s.flags.tshark ==> s.reg.termRef[Gnb] != s.reg.termRef[Tshark]
  {
    assert Up(s.flags, Ue) == s.flags.ue && Up(s.flags, Gnb) == s.flags.gnb && Up(s.flags, Tshark) == s.flags.tshark;
    if s.flags.ue && s.flags.gnb { DistinctSessions(s.reg, Ue, Gnb); }
    if s.flags.ue && s.flags.tshark { DistinctSessions(s.reg, Ue, Tshark); }
    if s.flags.gnb && s.flags.tshark { DistinctSessions(s.reg, Gnb, Tshark); }
  }
}
