/**
  The orchestrator as the object it is in code.py: class SrsRanGuiApp, whose callbacks update
  its attributes in place. Every method is proved against the callback of the same name in
  TestBedSpec: the state it leaves, read through `Snapshot()`, is the spec function applied
  to the state it found, so everything proved about the spec functions (TestBedProps,
  TestBedInvariant) holds of the object. The event-loop methods also keep `Valid()`.
*/
module TestBedApp {
  import opened Wrappers
  import S = TestBedSpec
  import TestBedInvariant

  class SrsRanGuiApp {
    var coreRunning: bool
    var gnbRunning: bool
    var ueRunning: bool
    var tsharkRunning: bool
    var termRef: map<S.Comp, S.SessionId>      // core_/gnb_/ue_/tshark_terminal_ref (absent = None)
    var terminals: map<string, S.SessionId>    // self.terminals
    var pages: set<string>                     // keys whose frame is a page of terminal_notebook
    var output: map<S.SessionId, seq<string>>  // what feed_child has written to each session
    var nextSession: S.SessionId
    var timers: map<S.SourceId, S.Sequence>    // the live `send_next` timeouts of the main loop
    var nextSource: S.SourceId
    var slots: map<S.Slot, S.SourceId>         // the *_scheduler_id attributes (absent = None)
    var idle: seq<S.Handler>                   // callbacks posted with GLib.idle_add
    var gnbLinkIp: string
    var currentMenuIndex: Option<nat>
    var alerts: seq<S.Alert>                   // warning dialogs shown
    var quitting: bool                         // Gtk.main_quit has been called

    function Snapshot(): S.Bed
      reads this
    {
      S.Bed(S.Flags(coreRunning, gnbRunning, ueRunning, tsharkRunning),
            S.Registry(terminals, termRef, pages, output, nextSession),
            S.Scheduler(timers, nextSource, slots, idle),
            S.Ui(gnbLinkIp, currentMenuIndex, alerts, quitting))
    }

    ghost predicate Valid()
      reads this
    {
      S.Valid(Snapshot())
    }

    /** The window once built; its `select_row(0)` has selected the overview. */
    constructor()
      ensures Snapshot() == S.Init()
      ensures Valid()
    {
      coreRunning, gnbRunning, ueRunning, tsharkRunning := false, false, false, false;
      termRef, terminals, pages, output, nextSession := map[], map[], {}, map[], 0;
      timers, nextSource, slots, idle := map[], 1, map[], [];
      gnbLinkIp, currentMenuIndex, alerts, quitting := S.NoIp, Some(0), [], false;
      TestBedInvariant.InitValid();
    }

    // -------------------------------------------------------------------------------------
    // Helpers

    /** `terminal.feed_child(bytes)`. */
    method FeedChild(sid: S.SessionId, bytes: string)
      modifies this
      ensures Snapshot() == S.Type(old(Snapshot()), sid, bytes)
    {
      var log := if sid in output then output[sid] else [];
      output := output[sid := log + [bytes]];
    }

    method SetRunning(c: S.Comp, b: bool)
      modifies this
      ensures Snapshot() == S.WithRunning(old(Snapshot()), c, b)
    {
      match c
      case Core => coreRunning := b;
      case Gnb => gnbRunning := b;
      case Ue => ueRunning := b;
      case Tshark => tsharkRunning := b;
    }

    method ShowAlert(a: S.Alert)
      modifies this
      ensures Snapshot() == S.Warn(old(Snapshot()), a)
    {
      alerts := alerts + [a];
    }

    method CreateTerminalTab(key: string) returns (sid: S.SessionId)
      modifies this
      ensures (Snapshot().reg, sid) == S.CreateTerminalTab(old(Snapshot()).reg, key)
      ensures Snapshot() == old(Snapshot()).(reg := Snapshot().reg)
    {
      if key in terminals {
        sid := terminals[key];
      } else {
        sid := nextSession;
        output := output[sid := []];
        nextSession := nextSession + 1;
        pages := pages + {key};
        terminals := terminals[key := sid];
      }
    }

    method SendCommandsSequentially(sid: S.SessionId, commands: seq<string>, slot: S.Slot, onComplete: Option<S.Comp>)
      modifies this
      ensures Snapshot()
        == old(Snapshot()).(sched := S.SendCommandsSequentially(old(Snapshot()).sched, sid, commands, slot, onComplete))
    {
      var sourceId := nextSource;
      timers := timers[sourceId := S.Sequence(sid, commands, slot, onComplete)];
      nextSource := nextSource + 1;
      slots := slots[slot := sourceId];
    }

    /** `reset_core_button`, `reset_gnb_button` (with `reset_gnb_ip_display`),
        `reset_ue_button`, `reset_tshark_button`. */
    method ResetButton(c: S.Comp)
      modifies this
      ensures Snapshot() == S.ResetButton(old(Snapshot()), c)
    {
      SetRunning(c, false);
      if c == S.Gnb {
        gnbLinkIp := S.NoIp;
      }
    }

    method StartSequence(c: S.Comp, commands: seq<string>)
      modifies this
      ensures Snapshot() == S.StartSequence(old(Snapshot()), c, commands)
    {
      var sid := CreateTerminalTab(S.Key(c));
      termRef := termRef[c := sid];
      SendCommandsSequentially(sid, commands, S.SlotOf(c), Some(c));
    }

    method StopComponent(c: S.Comp)
      modifies this
      ensures Snapshot() == S.StopComponent(old(Snapshot()), c)
    {
      var slot := S.SlotOf(c);
      if slot in slots {
        timers := timers - {slots[slot]};
        slots := slots - {slot};
      }
      if c in termRef {
        FeedChild(termRef[c], S.CtrlC);
      }
      ResetButton(c);
    }

    // -------------------------------------------------------------------------------------
    // Event-loop callbacks

    /** One tick of the `send_next` source `id`. */
    method SendNext(id: S.SourceId)
      requires Valid() && id in timers
      modifies this
      ensures Snapshot() == S.SendNext(old(Snapshot()), id)
      ensures Valid()
    {
      var q := timers[id];
      if q.queue == [] {
        if q.onComplete.Some? {
          SetRunning(q.onComplete.value, true);   // startup_complete
        }
        slots := slots - {q.slot};
        timers := timers - {id};
      } else {
        var cmd := q.queue[0];
        timers := timers[id := q.(queue := q.queue[1..])];
        FeedChild(q.session, cmd + "\n");
      }
      TestBedInvariant.SendNextValid(old(Snapshot()), id);
    }

    method ToggleCoreProcess()
      requires Valid()
      modifies this
      ensures Snapshot() == S.ToggleCoreProcess(old(Snapshot()))
      ensures Valid()
    {
      if !coreRunning {
        StartSequence(S.Core, S.CoreCommands);
      } else {
        StopComponent(S.Core);
      }
      TestBedInvariant.ToggleCoreValid(old(Snapshot()));
    }

    method ToggleGnbProcess()
      requires Valid()
      modifies this
      ensures Snapshot() == S.ToggleGnbProcess(old(Snapshot()))
      ensures Valid()
    {
      if !gnbRunning {
        if !coreRunning {
          ShowAlert(S.CoreFirst);
        } else {
          StartSequence(S.Gnb, S.GnbCommands);
        }
      } else if ueRunning {
        ShowAlert(S.UeStillActive);
      } else {
        StopComponent(S.Gnb);
      }
      TestBedInvariant.ToggleGnbValid(old(Snapshot()));
    }

    method ToggleUeProcess()
      requires Valid()
      modifies this
      ensures Snapshot() == S.ToggleUeProcess(old(Snapshot()))
      ensures Valid()
    {
      if !ueRunning {
        if !gnbRunning {
          ShowAlert(S.GnbFirst);
        } else {
          StartSequence(S.Ue, S.UeCommands);
        }
      } else {
        StopComponent(S.Ue);
      }
      TestBedInvariant.ToggleUeValid(old(Snapshot()));
    }

    /** `capturePath` is the file name built from the capture folder and the current time. */
    method ToggleTsharkProcess(capturePath: string)
      requires Valid()
      modifies this
      ensures Snapshot() == S.ToggleTsharkProcess(old(Snapshot()), capturePath)
      ensures Valid()
    {
      if !tsharkRunning {
        StartSequence(S.Tshark, S.TsharkCommands(capturePath));
      } else {
        StopComponent(S.Tshark);
      }
      TestBedInvariant.ToggleTsharkValid(old(Snapshot()), capturePath);
    }

    method ShowConfigView(prefix: string, configFile: string, slot: S.Slot)
      requires Valid()
      modifies this
      ensures Snapshot() == S.ShowConfigView(old(Snapshot()), prefix, configFile, slot)
      ensures Valid()
    {
      var sid := CreateTerminalTab(prefix + "_config");
      SendCommandsSequentially(sid, ["cd ~/srsRAN_Project/build", "ls", "cat " + configFile], slot, None);
      TestBedInvariant.ShowConfigViewValid(old(Snapshot()), prefix, configFile, slot);
    }

    /** The watchdog; `present` is the set of patterns `pgrep -f` finds. */
    method CheckProcessStatus(present: set<string>) returns (keep: bool)
      requires Valid()
      modifies this
      ensures Snapshot() == S.CheckProcessStatus(old(Snapshot()), present)
      ensures keep
      ensures Valid()
    {
      var posted: seq<S.Handler> := [];
      var i := 0;
      while i < |S.Watched|
        invariant 0 <= i <= |S.Watched|
        invariant posted == S.DueHandlers(Snapshot().flags, present, S.Watched[..i])
      {
        var w := S.Watched[i];
        var running := match w.comp
          case Core => coreRunning
          case Gnb => gnbRunning
          case Ue => ueRunning
          case Tshark => tsharkRunning;
        if running && w.pattern !in present {
          posted := posted + [w.handler];
        }
        assert S.Watched[..i + 1][..i] == S.Watched[..i];
        i := i + 1;
      }
      assert S.Watched[..i] == S.Watched;
      idle := idle + posted;
      keep := true;
    }

    method HandleGnbStoppedUnexpectedly()
      requires Valid()
      modifies this
      ensures Snapshot() == S.HandleGnbStoppedUnexpectedly(old(Snapshot()))
      ensures Valid()
    {
      ResetButton(S.Gnb);
      TestBedInvariant.ResetButtonValid(old(Snapshot()), S.Gnb);
      if ueRunning {
        ToggleUeProcess();
      }
    }

    /** The main loop runs the oldest callback posted with `GLib.idle_add`. */
    method DispatchIdle()
      requires Valid()
      modifies this
      ensures Snapshot() == S.DispatchIdle(old(Snapshot()))
      ensures Valid()
    {
      if idle != [] {
        var h := idle[0];
        idle := idle[1..];
        match h
        case CallHandleGnbStopped => HandleGnbStoppedUnexpectedly();
        case CallResetUe =>
          ResetButton(S.Ue);
          TestBedInvariant.ResetButtonValid(old(Snapshot()).(sched := Snapshot().sched.(idle := idle)), S.Ue);
        case CallResetTshark =>
          ResetButton(S.Tshark);
          TestBedInvariant.ResetButtonValid(old(Snapshot()).(sched := Snapshot().sched.(idle := idle)), S.Tshark);
      }
    }

    method OnProcessExited(key: string)
      requires Valid()
      modifies this
      ensures Snapshot() == S.OnProcessExited(old(Snapshot()), key)
      ensures Valid()
    {
      if key == "gnb" && gnbRunning {
        ResetButton(S.Gnb);
      } else if key == "ue" && ueRunning {
        ResetButton(S.Ue);
      } else if key == "tshark" && tsharkRunning {
        ResetButton(S.Tshark);
      } else if key == "core" && coreRunning {
        ResetButton(S.Core);
      }
      TestBedInvariant.StepValid(old(Snapshot()), S.ChildExited(key));
    }

    /** The registry part of `on_menu_selected`: selecting another row pops every
        unprotected key, with its page. */
    method OnMenuSelected(row: Option<nat>)
      requires Valid()
      modifies this
      ensures Snapshot() == S.OnMenuSelected(old(Snapshot()), row)
      ensures Valid()
    {
      if row.None? || row == currentMenuIndex {
        return;
      }
      PruneTerminals();
      currentMenuIndex := row;
      TestBedInvariant.MenuSelectedValid(old(Snapshot()), row);
    }

    /** The loop of `on_menu_selected` over a copy of the registered keys. */
    method PruneTerminals()
      modifies this
      ensures Snapshot() == old(Snapshot()).(reg := S.PruneTerminals(old(Snapshot()).reg))
    {
      var keys := terminals.Keys;
      var kept := terminals;
      var shown := pages;
      while keys != {}
        invariant keys <= terminals.Keys
        invariant kept == map k | k in terminals && (k in S.ProtectedKeys || k in keys) :: terminals[k]
        invariant shown == pages - ((terminals.Keys - keys) - S.ProtectedKeys)
        decreases |keys|
      {
        var key :| key in keys;
        if key !in S.ProtectedKeys {
          kept := kept - {key};
          shown := shown - {key};
        }
        keys := keys - {key};
      }
      assert kept == map k | k in terminals && k in S.ProtectedKeys :: terminals[k];
      terminals, pages := kept, shown;
    }

    /** The close button of the tab registered under `key`. */
    method CloseTab(key: string)
      requires Valid()
      modifies this
      ensures Snapshot() == S.CloseTab(old(Snapshot()), key)
      ensures Valid()
    {
      if key == "gnb" && gnbRunning {
        ToggleGnbProcess();
      } else if key == "ue" && ueRunning {
        ToggleUeProcess();
      } else if key == "tshark" && tsharkRunning {
        StopComponent(S.Tshark);   // toggle_tshark_process, which takes its stop branch
      }
      pages := pages - {key};
      if key !in S.ProtectedKeys {
        terminals := terminals - {key};
      }
      TestBedInvariant.CloseTabValid(old(Snapshot()), key);
    }

    method OnAppQuit()
      requires Valid()
      modifies this
      ensures Snapshot() == S.OnAppQuit(old(Snapshot()))
      ensures Valid()
    {
      if ueRunning && S.Ue in termRef {
        FeedChild(termRef[S.Ue], S.CtrlC);
      }
      if gnbRunning && S.Gnb in termRef {
        FeedChild(termRef[S.Gnb], S.CtrlC);
      }
      if tsharkRunning && S.Tshark in termRef {
        FeedChild(termRef[S.Tshark], S.CtrlC);
      }
      quitting := true;
      TestBedInvariant.OnAppQuitValid(old(Snapshot()));
    }
  }
}
