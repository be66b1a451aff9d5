/** The orchestrator's invariant `Valid` holds in the initial state and is preserved by every
    event, hence holds in every state the event loop can reach. */
module TestBedInvariant {
  import opened Wrappers
  import opened TestBedSpec

  lemma InitValid()
    ensures Valid(Init())
  {
  }

  // ---------------------------------------------------------------------------------------
  // The registry

  /** Registering a fresh session under a new key keeps the registry consistent. */
  lemma CreateTerminalTabValid(r: Registry, key: string)
    requires RegistryValid(r)
    ensures var (r', sid) := CreateTerminalTab(r, key);
      && RegistryValid(r')
      && key in r'.terminals && r'.terminals[key] == sid && sid in r'.output
      && r'.termRef == r.termRef && r.output.Keys <= r'.output.Keys
  {
    if key !in r.terminals {
      var (r', sid) := CreateTerminalTab(r, key);
      forall k, k' | k in r'.terminals && k' in r'.terminals && k != k'
        ensures r'.terminals[k] != r'.terminals[k']
      {
        if k != key && k' != key {
          assert r'.terminals[k] == r.terminals[k] && r'.terminals[k'] == r.terminals[k'];
        } else if k == key {
          assert r.terminals[k'] in r.output;
        } else {
          assert r.terminals[k] in r.output;
        }
      }
    }
  }

  /** Keeping a reference to the session registered under a component's key keeps the
      registry consistent. */
  lemma AddReferenceValid(r: Registry, c: Comp)
    requires RegistryValid(r) && Key(c) in r.terminals
    ensures RegistryValid(r.(termRef := r.termRef[c := r.terminals[Key(c)]]))
  {
  }

  /** The registry stays consistent when only the contents of existing sessions change. */
  lemma TypeValid(s: Bed, sid: SessionId, bytes: string)
    requires Valid(s) && sid in s.reg.output
    ensures Valid(Type(s, sid, bytes))
  {
    assert Type(s, sid, bytes).reg.output.Keys == s.reg.output.Keys;
  }

  /** Removing a notebook page, and unregistering an unprotected key, keep the registry consistent. */
  lemma ClosePageValid(r: Registry, key: string)
    requires RegistryValid(r)
    ensures RegistryValid(r.(pages := r.pages - {key}))
    ensures key !in ProtectedKeys ==> RegistryValid(r.(pages := r.pages - {key}, terminals := r.terminals - {key}))
  {
    var r' := r.(pages := r.pages - {key}, terminals := r.terminals - {key});
    if key !in ProtectedKeys {
      forall c | c in r'.termRef
        ensures Key(c) in r'.terminals && r'.terminals[Key(c)] == r'.termRef[c]
      {
        assert Key(c) in ProtectedKeys;
      }
    }
  }

  /** Dropping the unprotected keys keeps every component's session. */
  lemma PruneValid(r: Registry)
    requires RegistryValid(r)
    ensures RegistryValid(PruneTerminals(r))
  {
    var r' := PruneTerminals(r);
    forall c | c in r'.termRef
      ensures Key(c) in r'.terminals && r'.terminals[Key(c)] == r'.termRef[c]
    {
      assert Key(c) in ProtectedKeys;
    }
  }

  // ---------------------------------------------------------------------------------------
  // The sources

  /** Registering a new source under the next id keeps the sources and slots consistent. */
  lemma SendCommandsValid(q: Scheduler, r: Registry, sid: SessionId, commands: seq<string>, slot: Slot, onComplete: Option<Comp>)
    requires SourcesValid(q, r) && SlotsValid(q)
    requires sid in r.output && (onComplete.Some? ==> onComplete.value in r.termRef)
    ensures var q' := SendCommandsSequentially(q, sid, commands, slot, onComplete);
      SourcesValid(q', r) && SlotsValid(q')
  {
    assert q.nextSource !in q.timers;
  }

  /** Removing the source a slot holds, together with the slot, keeps the slots consistent. */
  lemma CancelSlotValid(q: Scheduler, r: Registry, slot: Slot)
    requires SourcesValid(q, r) && SlotsValid(q)
    ensures SourcesValid(CancelSlot(q, slot), r) && SlotsValid(CancelSlot(q, slot))
  {
  }

  /** The sources stay consistent when sessions and references are only ever added. */
  lemma SourcesGrowValid(q: Scheduler, r: Registry, r': Registry)
    requires SourcesValid(q, r)
    requires r.output.Keys <= r'.output.Keys && r.termRef.Keys <= r'.termRef.Keys
    ensures SourcesValid(q, r')
  {
  }

  // ---------------------------------------------------------------------------------------
  // The callbacks

  lemma StartSequenceValid(s: Bed, c: Comp, commands: seq<string>)
    requires Valid(s)
    ensures Valid(StartSequence(s, c, commands))
  {
    CreateTerminalTabValid(s.reg, Key(c));
    var (r, sid) := CreateTerminalTab(s.reg, Key(c));
    AddReferenceValid(r, c);
    var r' := r.(termRef := r.termRef[c := sid]);
    SourcesGrowValid(s.sched, s.reg, r');
    SendCommandsValid(s.sched, r', sid, commands, SlotOf(c), Some(c));
  }

  lemma InterruptValid(s: Bed, c: Comp)
    requires Valid(s)
    ensures Valid(Interrupt(s, c))
  {
    if c in s.reg.termRef {
      TypeValid(s, s.reg.termRef[c], CtrlC);
    }
  }

  lemma ResetButtonValid(s: Bed, c: Comp)
    requires Valid(s)
    ensures Valid(ResetButton(s, c))
  {
  }

  lemma StopComponentValid(s: Bed, c: Comp)
    requires Valid(s)
    ensures Valid(StopComponent(s, c))
  {
    CancelSlotValid(s.sched, s.reg, SlotOf(c));
    var s1 := s.(sched := CancelSlot(s.sched, SlotOf(c)));
    InterruptValid(s1, c);
    ResetButtonValid(Interrupt(s1, c), c);
  }

  lemma SendNextValid(s: Bed, id: SourceId)
    requires Valid(s) && id in s.sched.timers
    ensures Valid(SendNext(s, id))
  {
    var q := s.sched.timers[id];
    if q.queue != [] {
      assert SendNext(s, id).reg.output.Keys == s.reg.output.Keys;
    }
  }

  lemma HandleGnbStoppedValid(s: Bed)
    requires Valid(s)
    ensures Valid(HandleGnbStoppedUnexpectedly(s))
  {
    ResetButtonValid(s, Gnb);
    var s1 := ResetButton(s, Gnb);
    if s1.flags.ue {
      StopComponentValid(s1, Ue);
    }
  }

  lemma DispatchIdleValid(s: Bed)
    requires Valid(s)
    ensures Valid(DispatchIdle(s))
  {
    if s.sched.idle != [] {
      var s1 := s.(sched := s.sched.(idle := s.sched.idle[1..]));
      match s.sched.idle[0]
      case CallHandleGnbStopped => HandleGnbStoppedValid(s1);
      case CallResetUe => ResetButtonValid(s1, Ue);
      case CallResetTshark => ResetButtonValid(s1, Tshark);
    }
  }

  lemma MenuSelectedValid(s: Bed, row: Option<nat>)
    requires Valid(s)
    ensures Valid(OnMenuSelected(s, row))
  {
    PruneValid(s.reg);
  }

  lemma ToggleCoreValid(s: Bed)
    requires Valid(s)
    ensures Valid(ToggleCoreProcess(s))
  {
    if !s.flags.core { StartSequenceValid(s, Core, CoreCommands); } else { StopComponentValid(s, Core); }
  }

  lemma ToggleGnbValid(s: Bed)
    requires Valid(s)
    ensures Valid(ToggleGnbProcess(s))
  {
    if !s.flags.gnb && s.flags.core { StartSequenceValid(s, Gnb, GnbCommands); }
    else if s.flags.gnb && !s.flags.ue { StopComponentValid(s, Gnb); }
  }

  lemma ToggleUeValid(s: Bed)
    requires Valid(s)
    ensures Valid(ToggleUeProcess(s))
  {
    if !s.flags.ue && s.flags.gnb { StartSequenceValid(s, Ue, UeCommands); }
    else if s.flags.ue { StopComponentValid(s, Ue); }
  }

  lemma ToggleTsharkValid(s: Bed, capturePath: string)
    requires Valid(s)
    ensures Valid(ToggleTsharkProcess(s, capturePath))
  {
    if !s.flags.tshark { StartSequenceValid(s, Tshark, TsharkCommands(capturePath)); } else { StopComponentValid(s, Tshark); }
  }

  lemma CloseTabValid(s: Bed, key: string)
    requires Valid(s)
    ensures Valid(CloseTab(s, key))
  {
    var s1 :=
      if key == "gnb" && s.flags.gnb then ToggleGnbProcess(s)
      else if key == "ue" && s.flags.ue then ToggleUeProcess(s)
      else if key == "tshark" && s.flags.tshark then StopComponent(s, Tshark)
      else s;
    if key == "gnb" && s.flags.gnb {
      ToggleGnbValid(s);
    } else if key == "ue" && s.flags.ue {
      ToggleUeValid(s);
    } else if key == "tshark" && s.flags.tshark {
      StopComponentValid(s, Tshark);
    }
    ClosePageValid(s1.reg, key);
  }

  lemma OnAppQuitValid(s: Bed)
    requires Valid(s)
    ensures Valid(OnAppQuit(s))
  {
    var s1 := if s.flags.ue then Interrupt(s, Ue) else s;
    InterruptValid(s, Ue);
    var s2 := if s1.flags.gnb then Interrupt(s1, Gnb) else s1;
    InterruptValid(s1, Gnb);
    InterruptValid(s2, Tshark);
  }

  lemma ShowConfigViewValid(s: Bed, prefix: string, configFile: string, slot: Slot)
    requires Valid(s)
    ensures Valid(ShowConfigView(s, prefix, configFile, slot))
  {
    CreateTerminalTabValid(s.reg, prefix + "_config");
    var (r, sid) := CreateTerminalTab(s.reg, prefix + "_config");
    SourcesGrowValid(s.sched, s.reg, r);
    SendCommandsValid(s.sched, r, sid, ["cd ~/srsRAN_Project/build", "ls", "cat " + configFile], slot, None);
  }

  lemma StepValid(s: Bed, e: Event)
    requires Valid(s)
    ensures Valid(Step(s, e))
  {
    match e
    case ClickCore => ToggleCoreValid(s);
    case ClickGnb => ToggleGnbValid(s);
    case ClickUe => ToggleUeValid(s);
    case ClickTshark(p) => ToggleTsharkValid(s, p);
    case Tick(id) => if id in s.sched.timers { SendNextValid(s, id); }
    case WatchdogTick(present) =>
    case Idle => DispatchIdleValid(s);
    case ChildExited(key) =>
      if key == "gnb" && s.flags.gnb { ResetButtonValid(s, Gnb); }
      else if key == "ue" && s.flags.ue { ResetButtonValid(s, Ue); }
      else if key == "tshark" && s.flags.tshark { ResetButtonValid(s, Tshark); }
      else if key == "core" && s.flags.core { ResetButtonValid(s, Core); }
    case MenuSelected(row) => MenuSelectedValid(s, row);
    case CloseClicked(key) => CloseTabValid(s, key);
    case GnbConfig => ShowConfigViewValid(s, "gnb", "gnb.yaml", GnbConfigSlot);
    case UeConfig => ShowConfigViewValid(s, "ue", "ue.yaml", UeConfigSlot);
    case Quit => OnAppQuitValid(s);
  }

  /** Every state the event loop can reach from a state satisfying Valid (such as Init())
      satisfies Valid. */
  lemma {:induction false} RunValid(s: Bed, events: seq<Event>)
    requires Valid(s)
    ensures Valid(Run(s, events))
    decreases |events|
  {
    if events != [] {
      StepValid(s, events[0]);
      RunValid(Step(s, events[0]), events[1..]);
    }
  }
}
