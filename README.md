# srsRAN test-bed controller and process registry, in Dafny

This project models the two control cores of the srsRAN GUI repository.

**The test-bed orchestrator** (code.py, class `SrsRanGuiApp`) starts and stops four
components of a 5G test bed: the 5G Core, the gNB, the UE and a tshark capture. Each one
runs as commands typed into a terminal session. Its state is:
- four running flags;
- a registry of terminal sessions, keyed by tab name, with pages shown in a notebook and a
  reference from each component to its session;
- the GLib timeout sources that type start commands one per second (the
  `*_scheduler_id` slots);
- the idle callbacks a two-second watchdog posts when `pgrep -f` no longer finds a process;
- the selected menu row, the gNB link-IP label and the warning dialogs shown.

**The process registry** (srsran_gui.py, class `SrsRANGUI`) is a Tk panel. It starts
srsepc, srsenb and srsue as child processes and keeps their handles in a dictionary.
It reads its settings from a JSON configuration and redraws a status row per component.

Each core has three parts:
- a pure specification: a datatype for the whole state and one function per callback or
  method (`TestBedSpec`, `Registry`);
- the properties proved about those functions (`TestBedInvariant` and `TestBedProps`,
  `RegistryProps`);
- the object itself as a Dafny `class`. Its methods update fields in place and loop where
  the source loops (`TestBedApp.SrsRanGuiApp`, `RegistryApp.SrsRANGUI`).

Each class method's postcondition says that the new state, read through `Snapshot()`, is
the specification function applied to the old state. So every property proved of the
functions holds of the object.

The environment is passed in as parameters:
- which processes `pgrep` finds;
- which pids `poll()` reports alive;
- which paths exist;
- what `Popen`, `terminate`, `wait` and `kill` did;
- the parsed configuration file.

Ticks of the GLib main loop and of the Tk `after` queue are explicit events.

The behaviour itself is defined by the specification function of the same name as each
class method (`TestBedSpec.ToggleGnbProcess`, `TestBedSpec.SendNext`, `TestBedSpec.CloseTab`,
`Registry.StartAll`, `Registry.UpdateStatus`, ...). Each class-method row below also stands
for that function. The lemma rows state what those functions guarantee.

## Model

| member | source | states |
|---|---|---|
| TestBedInvariant.InitValid | code.py:60-73 | The state after `__init__` (no sessions, no sources, every scheduler slot None) satisfies the registry and scheduler invariant. |
| TestBedInvariant.CreateTerminalTabValid | code.py:970-1018 | `create_terminal_tab` keeps the registry consistent (distinct keys hold distinct sessions, component references agree with the keys, pages are registered), registers `key` and returns its session. It leaves the component references alone and only adds sessions. |
| TestBedInvariant.PruneValid | code.py:155-166 | Dropping the unprotected keys on a menu switch keeps the registry consistent. |
| TestBedInvariant.SendCommandsValid | code.py:1129-1140 | Scheduling a sequence keeps every slot pointing at a live source of that slot, and every source's session and completion registered. |
| TestBedInvariant.CancelSlotValid | code.py:410-412 | Removing a slot's source (`GLib.source_remove`) and clearing the slot keeps the scheduler invariant. |
| TestBedInvariant.StartSequenceValid | code.py:378-408 | The start branch of a toggle keeps the whole invariant. |
| TestBedInvariant.StopComponentValid | code.py:410-419 | The stop branch of a toggle keeps the whole invariant. |
| TestBedInvariant.SendNextValid | code.py:1131-1138 | One tick of `send_next` keeps the whole invariant. |
| TestBedInvariant.HandleGnbStoppedValid | code.py:716-719 | `handle_gnb_stopped_unexpectedly` keeps the whole invariant. |
| TestBedInvariant.DispatchIdleValid | code.py:701-714 | Running a handler the watchdog posted keeps the whole invariant. |
| TestBedInvariant.MenuSelectedValid | code.py:151-170 | `on_menu_selected` keeps the whole invariant. |
| TestBedInvariant.ToggleCoreValid | code.py:377-419 | `toggle_core_process` keeps the whole invariant. |
| TestBedInvariant.ToggleGnbValid | code.py:447-501 | `toggle_gnb_process` keeps the whole invariant. |
| TestBedInvariant.ToggleUeValid | code.py:503-543 | `toggle_ue_process` keeps the whole invariant. |
| TestBedInvariant.ToggleTsharkValid | code.py:545-583 | `toggle_tshark_process` keeps the whole invariant. |
| TestBedInvariant.CloseTabValid | code.py:989-995 | A tab's close button keeps the whole invariant. |
| TestBedInvariant.OnAppQuitValid | code.py:1142-1146 | `on_app_quit` keeps the whole invariant. |
| TestBedInvariant.ShowConfigViewValid | code.py:931-937 | `_show_config_view` keeps the whole invariant. |
| TestBedInvariant.StepValid | code.py:25-127 | Every event (click, tick, watchdog, idle callback, child exit, menu row, close button, quit) keeps the whole invariant. |
| TestBedInvariant.RunValid | code.py:25-127 | Every state reached from any sequence of events keeps the invariant, given a start state that does. |
| TestBedProps.LinesAt | code.py:1136-1137 | The payloads typed are the commands in order, each followed by a newline. |
| TestBedProps.SequencerTypesInOrder | code.py:1129-1140 | As many ticks as there are queued commands type exactly those commands, in order, into the sequence's session, and change nothing else. The source stays alive. |
| TestBedProps.SequencerCompletes | code.py:1132-1135 | The tick after the queue drains runs `on_complete` (raising exactly its component's flag), sets the slot to None and ends the source, so the callback fires exactly once. |
| TestBedProps.SequencerRunsToCompletion | code.py:1129-1140 | N commands take N + 1 ticks: the N lines are typed in order, then the sequence completes. |
| TestBedProps.CreateTerminalTabReuses | code.py:971-976 | A registered key returns its existing session and changes nothing. |
| TestBedProps.CreateTerminalTabAdds | code.py:977-1016 | An unregistered key gets a fresh, empty session and a page. |
| TestBedProps.CreateTerminalTabIdempotent | code.py:970-1018 | Asking twice for a key yields the same session. The second call changes nothing. |
| TestBedProps.MenuSwitchKeepsProtected | code.py:151-170 | Selecting another row unregisters exactly the keys outside gnb/ue/tshark/core. It keeps the component sessions, flags and sources and records the new row. |
| TestBedProps.MenuSwitchKeepsComponents | code.py:155-159 | A component's key is never dropped, so the tshark special case in the loop is dead code. |
| TestBedProps.MenuReselectNoop | code.py:152-153 | Re-selecting the current row, or no row, changes nothing. |
| TestBedProps.StartSchedules | code.py:378-408 | A start click creates or reuses the component's session, keeps a reference to it and schedules its commands with `startup_complete` into its slot. It does not raise the flag. |
| TestBedProps.StartThenCompletes | code.py:388-408 | A start click followed by N + 1 ticks types the commands, raises only that component's flag and clears its slot. |
| TestBedProps.GnbStartNeedsCore | code.py:448-451 | Starting the gNB while the core is not running only shows the "start the 5G Core first" alert. |
| TestBedProps.GnbStartsIffCore | code.py:447-477 | A stopped gNB's click schedules a sequence if and only if the core is running. |
| TestBedProps.UeStartNeedsGnb | code.py:504-507 | Starting the UE while the gNB is not running only shows the "start the gNB first" alert. |
| TestBedProps.UeStartsIffGnb | code.py:503-533 | A stopped UE's click schedules a sequence if and only if the gNB is running. |
| TestBedProps.SecondClickDuringStartup | code.py:447-477 | A second click before the flag rises schedules a second sequence into the same session. The slot keeps only the newer id, and the older source stays alive. |
| TestBedProps.StopComponentEffect | code.py:410-419 | A stop removes the slot's source and clears the slot, writes one Ctrl-C to the session, lowers the flag and, for the gNB, resets the link IP. No other flag, slot, source, session, page, counter, menu row, alert or quit state changes. |
| TestBedProps.StopCancelsSequence | code.py:410-412 | After a stop, ticks of the cancelled source do nothing. |
| TestBedProps.CoreStopIgnoresDependents | code.py:409-419 | Stopping the core does not look at or change the gNB and UE flags. |
| TestBedProps.GnbStopRefusedWhileUeRuns | code.py:480-494 | Stopping the gNB while the UE runs only shows the "UE is Still Active" dialog. |
| TestBedProps.ClickStopsRunning | code.py:377-583 | Clicking a running component's button is its stop (the gNB's only when the UE is not running). |
| TestBedProps.FlagRisesOnlyOnCompletion | code.py:388-389 | A flag rises only on the tick of a live source whose queue has drained and whose completion names that component. |
| TestBedProps.TogglesNeverRaise | code.py:377-583 | No button click raises a flag. |
| TestBedProps.IdleNeverRaises | code.py:659-689 | No handler the watchdog posts raises a flag. |
| TestBedProps.WatchdogDue | code.py:701-714 | The watchdog posts, in the order gNB, UE, tshark, the handler of each running component that `pgrep` does not find. The core is never watched. |
| TestBedProps.WatchdogOnlyPosts | code.py:701-714 | A watchdog tick only appends those handlers to the idle queue. |
| TestBedProps.HandlersKeepCore | code.py:659-689 | No posted handler touches the core's flag, or adds, removes or changes the core's slot. |
| TestBedProps.CascadeStopsUe | code.py:716-719 | A lost gNB is reset, and a running UE is stopped through its toggle: its sequence is cancelled, its source leaves the pending timers and Ctrl-C is sent to it. Core and tshark are untouched. |
| TestBedProps.CascadeWithoutUe | code.py:716-719 | Without a running UE, the handler only resets the gNB. |
| TestBedProps.CascadeIdempotent | code.py:716-719 | Running the gNB handler twice has the effect of running it once. |
| TestBedProps.ProcessExitedLowersOwnFlag | code.py:691-699 | A session's child-exited handler lowers exactly its own component's flag. In particular, it does not stop the UE when the gNB exits. |
| TestBedProps.ProcessExitedIdempotent | code.py:691-699 | Handling the same exit twice equals handling it once. |
| TestBedProps.CloseTabRegistry | code.py:989-995 | Closing a tab removes its page. The key stays registered exactly when it is protected. |
| TestBedProps.CloseTabStopsNothingElse | code.py:989-992 | Closing a tab that is not a running gNB, UE or tshark stops nothing. |
| TestBedProps.CloseCoreTabKeepsCore | code.py:989-992 | Closing the core's tab leaves the core running. |
| TestBedProps.CloseGnbTabWhileUeRuns | code.py:989-995 | Closing a running gNB's tab while the UE runs only adds the "UE is Still Active" warning and removes the page. The gNB keeps running, nothing is typed and no source changes. |
| TestBedProps.CloseRunningTabStops | code.py:989-995 | Closing the tab of a running UE or tshark, or of a running gNB while the UE is not running, is exactly that component's stop followed by removing the page: its source is cancelled, Ctrl-C is sent and its flag is lowered. |
| TestBedProps.ClosedProtectedTabStaysHidden | code.py:971-976 | A closed protected tab stays hidden: restarting its component reuses the session without a page. |
| TestBedProps.DistinctSessions | code.py:970-1018 | Two components never share a session. |
| TestBedProps.QuitInterruptsRunning | code.py:1142-1146 | Quitting writes one Ctrl-C into the session of each running UE, gNB and tshark, and nothing into any other session, including the core's. It changes no flag or source, and leaves the main loop. |
| TestBedApp.SrsRanGuiApp.constructor | code.py:25-127 | The new object is the initial state and satisfies the invariant. |
| TestBedApp.SrsRanGuiApp.CreateTerminalTab | code.py:970-1018 | Updates the fields as the registry function does and returns its session. |
| TestBedApp.SrsRanGuiApp.SendCommandsSequentially | code.py:1129-1140 | Registers a new source with the queue and stores its id in the slot. |
| TestBedApp.SrsRanGuiApp.ResetButton | code.py:421-433 | Lowers one flag (and resets the gNB link IP for the gNB). |
| TestBedApp.SrsRanGuiApp.StopComponent | code.py:410-419 | The stop branch, as StopComponentEffect describes it. |
| TestBedApp.SrsRanGuiApp.SendNext | code.py:1131-1138 | One tick of a source, keeping the invariant. |
| TestBedApp.SrsRanGuiApp.ToggleCoreProcess | code.py:377-419 | The core's button, keeping the invariant. |
| TestBedApp.SrsRanGuiApp.ToggleGnbProcess | code.py:447-501 | The gNB's button, keeping the invariant. |
| TestBedApp.SrsRanGuiApp.ToggleUeProcess | code.py:503-543 | The UE's button, keeping the invariant. |
| TestBedApp.SrsRanGuiApp.ToggleTsharkProcess | code.py:545-583 | The tshark button, keeping the invariant. |
| TestBedApp.SrsRanGuiApp.ShowConfigView | code.py:931-937 | Schedules `cd`, `ls` and `cat` in the config session, keeping the invariant. |
| TestBedApp.SrsRanGuiApp.CheckProcessStatus | code.py:701-714 | The watchdog loop over gNB, UE and tshark posts what WatchdogDue lists and returns True, so the timeout stays installed. |
| TestBedApp.SrsRanGuiApp.HandleGnbStoppedUnexpectedly | code.py:716-719 | The cascade, keeping the invariant. |
| TestBedApp.SrsRanGuiApp.DispatchIdle | code.py:701-714 | Runs the oldest posted handler, keeping the invariant. |
| TestBedApp.SrsRanGuiApp.OnProcessExited | code.py:691-699 | The child-exited handler, keeping the invariant. |
| TestBedApp.SrsRanGuiApp.OnMenuSelected | code.py:151-170 | The menu handler, keeping the invariant. |
| TestBedApp.SrsRanGuiApp.PruneTerminals | code.py:155-166 | The loop over the registered keys keeps exactly the protected ones and removes the others' pages. |
| TestBedApp.SrsRanGuiApp.CloseTab | code.py:989-995 | The close button, keeping the invariant. |
| TestBedApp.SrsRanGuiApp.OnAppQuit | code.py:1142-1146 | Quitting, keeping the invariant. |
| Registry.LoadConfig | srsran_gui.py:43-64 | The result holds every default key. Keys of the loaded file override the defaults, and the other defaults are kept. When the file is missing or unreadable, the result is exactly the defaults. |
| Registry.SaveConfiguration | srsran_gui.py:318-328 | Exactly the seven keys of the configuration tab get the entered values, and every other key is unchanged. |
| Registry.Command | srsran_gui.py:332-342 | The command is the binary, followed by the configuration file if and only if that path is non-empty and exists. |
| Registry.StartComponent | srsran_gui.py:332-374 | A spawned child overwrites the component's entry whatever the entry held. If starting the reader thread then raises, the new handle stays in the table and the start error is logged. A missing binary, or another error raised by `Popen`, leaves the table unchanged and logs the error. No other entry changes. |
| Registry.StopLog | srsran_gui.py:379-390 | Stopping logs "Stopping", then "Force killing" exactly when `wait` timed out, then "stopped" or the error: three lines after a kill attempt, otherwise two. |
| Registry.StopComponent | srsran_gui.py:376-392 | Only a live entry is stopped. When it is, the entry ends None whatever happened, and no other entry changes. |
| RegistryProps.StopEachEffect | srsran_gui.py:401-405 | Stopping a list of distinct components clears each live one, keeps the others' entries and logs the stops in list order. |
| RegistryProps.StopAllEffect | srsran_gui.py:401-405 | `stop_all` stops UE, then eNB, then EPC. Afterwards nothing is running, and a dead handle stays in the table. |
| RegistryProps.RefreshEachEffect | srsran_gui.py:416-441 | The status loop draws each listed component's row from its own entry. It clears finished entries and keeps live ones. |
| RegistryProps.UpdateStatusReconciles | srsran_gui.py:416-444 | After `update_status`, a component shows Running with its pid exactly when its entry is alive. Start is enabled exactly when it is not running and stop exactly when it is. An entry remains exactly when it is alive. |
| RegistryProps.UpdateStatusIdempotent | srsran_gui.py:416-444 | Two status updates with no exit in between equal one. |
| RegistryProps.StopAllThenStatusAllStopped | srsran_gui.py:401-444 | After `stop_all`, the next status update shows every component Stopped and empties the table. |
| RegistryProps.InitAllStopped | srsran_gui.py:20-41 | The window comes up with every component Stopped, no handles, a complete configuration and the log holding only the startup line that `setup_ui` writes. |
| RegistryProps.StartAllSchedules | srsran_gui.py:394-399 | `start_all` starts the EPC at once and queues the eNB at 2000 ms and the UE at 4000 ms, whatever became of the EPC. The EPC entry holds the new handle when `Popen` returned one, and is unchanged otherwise. |
| RegistryProps.StartAllThenDeferred | srsran_gui.py:394-399 | Running both deferred starts spawns the eNB and then the UE from their own keys, even if the EPC failed. |
| RegistryProps.StartOrphansLiveChild | srsran_gui.py:362 | Starting a running component replaces its live handle, which is never stopped. |
| RegistryProps.SavedFieldsDriveCommand | srsran_gui.py:318-342 | After saving, start_component runs the entered binary and configuration file. |
| RegistryProps.DefaultCommand | srsran_gui.py:47-55 | With no configuration file, the commands are the bare srsepc, srsenb and srsue. |
| RegistryProps.CleanupStopsEverything | srsran_gui.py:478-482 | `cleanup` logs "Shutting down", then stops every live component. |
| RegistryApp.SrsRANGUI.constructor | srsran_gui.py:20-41 | The new object is the initial state (Registry.Init: the loaded configuration, the startup log line, all Stopped), with a complete configuration. |
| RegistryApp.SrsRANGUI.LoadConfig | srsran_gui.py:43-64 | Replaces the configuration with the merged one. |
| RegistryApp.SrsRANGUI.SaveConfiguration | srsran_gui.py:318-330 | Copies the seven fields in place and logs. |
| RegistryApp.SrsRANGUI.StartComponent | srsran_gui.py:332-374 | Updates the handle table and log as Registry.StartComponent says. |
| RegistryApp.SrsRANGUI.StopComponent | srsran_gui.py:376-392 | Updates the handle table and log as Registry.StopComponent says. Leaves the configuration unchanged, so a complete one stays complete. |
| RegistryApp.SrsRANGUI.StartAll | srsran_gui.py:394-399 | Starts the EPC and queues the two deferred starts. |
| RegistryApp.SrsRANGUI.RunDeferred | srsran_gui.py:398-399 | Runs one queued start. |
| RegistryApp.SrsRANGUI.StopAll | srsran_gui.py:401-405 | The loop over ue, enb and epc is `stop_all` as StopAllEffect describes it. The configuration is unchanged. |
| RegistryApp.SrsRANGUI.UpdateStatus | srsran_gui.py:416-444 | The loop over epc, enb and ue is `update_status` as UpdateStatusReconciles describes it. The configuration is unchanged. |
| RegistryApp.SrsRANGUI.Cleanup | srsran_gui.py:478-482 | Logs, then runs `stop_all`. The configuration is unchanged. |

## Left out

- Widgets, CSS, button labels and styles, the `update_ui` idle callbacks that only restyle buttons, and the Tk labels and colours. The running flags, the status rows and the enabled state of the buttons are modelled.
- The IP-fetch threads (`fetch_and_display_gnb_ips`, `fetch_and_display_ue_ips`), which only fill labels. Only the gNB link-IP reset is kept.
- `spawn_async`, which respawns `/bin/bash` in a reused session. A session is modelled only by what is typed into it.
- The `child-exited` connections (`on_process_exited` is modelled as an event), `read_output` and its thread, and file dialogs.
- The submenus (logs, web UIs, pcap lists, `on_ue_binaries`, `on_core_docker_menu`). `_show_config_view` is kept.
- `core_monitor_scheduler_id`, which is never used.
- File I/O: `save_config` and `mkdir` are not modelled, and JSON values other than strings are out of scope. The clock and timestamps are not modelled: the startup line is logged without its date. The widgets `setup_ui` builds are not modelled beyond that line. The tshark capture path is a parameter.
- The delays themselves: timers fire as explicit ticks in any order, and `update_status` rescheduling itself after 1000 ms is not modelled.
- The error and info message boxes of srsran_gui.py. The log records the same events.
- Registry.StartComponent: every FileNotFoundError from `Popen` is `BinaryMissing` and logs "Binary not found", as the source does, even one caused by a working directory that vanished after its existence check. The cause of the error is not modelled.
- Registry.IsRunning: liveness is whether the entry's pid is in the `alive` set, whereas `poll()` asks about one handle. A pid reused by the system after the child is reaped would make a stale entry look alive in the model, which the source cannot see.

## Behaviour as the code has it

Where the documentation of the repository suggests otherwise, the model follows the code:
- A component has no "starting" or "stopping" state. Its flag rises only when the start sequence completes, so a second click during startup schedules a second sequence (SecondClickDuringStartup).
- The watchdog has no grace period after a component enters Running.
- Quitting does not interrupt the core.
- When the gNB is lost, the handler resets the gNB before stopping the UE.
- Stopping the core does not check for running dependents.
- The tshark special case inside `on_menu_selected` can never run.
