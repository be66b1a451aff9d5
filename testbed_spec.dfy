/**
  The component orchestrator of the 5G test-bed window (code.py, class SrsRanGuiApp) with
  the widgets stripped away. `Bed` is the whole state the event-loop callbacks read and
  write; each callback is a pure function from the state before to the state after.

  Abstractions:
  - a terminal session is a number; what is typed into it is an append-only log of the
    payloads passed to `feed_child` (a command followed by "\n", or the byte 0x03);
  - a GLib timeout source is an entry of `timers` keyed by its source id; one tick of it is
    `SendNext`; `GLib.source_remove` deletes the entry;
  - `GLib.idle_add` appends to the `idle` queue, which `DispatchIdle` drains one call at a time;
  - the OS process table is the set of watch patterns `pgrep -f` finds.
*/
module TestBedSpec {
  import opened Wrappers

  /** The four supervised components. */
  datatype Comp = Core | Gnb | Ue | Tshark

  /** The attributes into which `_send_commands_sequentially` stores a source id (by name). */
  datatype Slot = CoreSlot | GnbCommandSlot | UeCommandSlot | TsharkSlot | GnbConfigSlot | UeConfigSlot

  /** The callbacks the watchdog posts onto the idle queue. */
  datatype Handler = CallHandleGnbStopped | CallResetUe | CallResetTshark

  type SessionId = nat
  type SourceId = nat

  /** One pending `send_next` timeout: the terminal it types into, the commands still queued,
      the slot it clears when the queue is empty, and the component its `startup_complete`
      callback marks running (None when the caller passed no `on_complete`). */
  datatype Sequence = Sequence(session: SessionId, queue: seq<string>, slot: Slot, onComplete: Option<Comp>)

  /** A modal warning dialog: title and secondary text. */
  datatype Alert = Alert(title: string, text: string)

  /** The four `*_running` flags. */
  datatype Flags = Flags(core: bool, gnb: bool, ue: bool, tshark: bool)

  /** The terminal sessions and what has been typed into them. */
  datatype Registry = Registry(
    terminals: map<string, SessionId>,     // self.terminals, frames elided
    termRef: map<Comp, SessionId>,         // *_terminal_ref (absent = None)
    pages: set<string>,                    // keys whose frame is still a notebook page
    output: map<SessionId, seq<string>>,   // everything fed to each session, in order
    nextSession: SessionId
  )

  /** The event-loop sources the orchestrator owns. */
  datatype Scheduler = Scheduler(
    timers: map<SourceId, Sequence>,       // live command-sequence timeouts
    nextSource: SourceId,
    slots: map<Slot, SourceId>,            // *_scheduler_id attributes (absent = None)
    idle: seq<Handler>                     // callbacks posted with GLib.idle_add
  )

  /** What the window shows besides the terminals. */
  datatype Ui = Ui(
    gnbLinkIp: string,
    menu: Option<nat>,                     // current_menu_index
    alerts: seq<Alert>,                    // warning dialogs shown, in order
    quitting: bool                         // Gtk.main_quit has been called
  )

  datatype Bed = Bed(flags: Flags, reg: Registry, sched: Scheduler, ui: Ui)

  /** The interrupt byte (Ctrl-C) written by every stop path. */
  const CtrlC: string := [3 as char]
  const NoIp: string := "<N/A>"
  /** Session keys that menu switching and tab closing never unregister. */
  const ProtectedKeys: set<string> := {"gnb", "ue", "tshark", "core"}

  const CoreFirst: Alert := Alert("Startup Order Error", "Please start the 5G Core Network first.")
  const GnbFirst: Alert := Alert("Startup Order Error", "Please start the gNB first.")
  const UeStillActive: Alert := Alert("UE is Still Active", "Please stop the User Equipment (UE) before stopping the gNB.")

  const CoreCommands: seq<string> := [
    "echo 'Starting 5G Core Sequence...'",
    "sleep 1",
    "echo 'Running Step 1 (Placeholder)...'",
    "sleep 1",
    "echo '5G Core Started (Placeholder)'"
  ]
  const GnbCommands: seq<string> := ["echo 'Starting gNB...'", "cd ~/srsRAN_Project/build", "sudo ./gnb -c gnb.yaml"]
  const UeCommands: seq<string> := ["echo 'Starting UE...'", "cd ~/srsRAN_Project/build", "sudo ./ue -c ue.yaml"]

  /** Python's posixpath.join for two parts. */
  function JoinPath(dir: string, name: string): string {
    if |name| > 0 && name[0] == '/' then name
    else if dir == [] || dir[|dir| - 1] == '/' then dir + name
    else dir + "/" + name
  }

  /** The capture file a tshark start writes to, from the capture folder and a timestamp. */
  function CapturePath(folder: string, timestamp: string): string {
    JoinPath(folder, "srs_capture_" + timestamp + ".pcap")
  }

  function TsharkCommands(capturePath: string): seq<string> {
    ["exec sudo tshark -i any -w " + capturePath]
  }

  /** The state right after the window is built: nothing runs, no session exists, and the
      constructor's `select_row(0)` has made the overview the current menu entry. */
  function Init(): Bed {
    Bed(Flags(false, false, false, false),
        Registry(map[], map[], {}, map[], 0),
        Scheduler(map[], 1, map[], []),
        Ui(NoIp, Some(0), [], false))
  }

  function Key(c: Comp): string {
    match c
    case Core => "core"
    case Gnb => "gnb"
    case Ue => "ue"
    case Tshark => "tshark"
  }

  /** The slot each component's start sequence is stored in. */
  function SlotOf(c: Comp): Slot {
    match c
    case Core => CoreSlot
    case Gnb => GnbCommandSlot
    case Ue => UeCommandSlot
    case Tshark => TsharkSlot
  }

  function Up(f: Flags, c: Comp): bool {
    match c
    case Core => f.core
    case Gnb => f.gnb
    case Ue => f.ue
    case Tshark => f.tshark
  }

  function SetFlag(f: Flags, c: Comp, b: bool): Flags {
    match c
    case Core => f.(core := b)
    case Gnb => f.(gnb := b)
    case Ue => f.(ue := b)
    case Tshark => f.(tshark := b)
  }

  function Running(s: Bed, c: Comp): bool {
    Up(s.flags, c)
  }

  function WithRunning(s: Bed, c: Comp, b: bool): Bed {
    s.(flags := SetFlag(s.flags, c, b))
  }

  /** What has been fed to a session so far. */
  function Log(output: map<SessionId, seq<string>>, sid: SessionId): seq<string> {
    if sid in output then output[sid] else []
  }

  /** `feed_child(bytes)`: appends one payload to a session's log. */
  function Feed(output: map<SessionId, seq<string>>, sid: SessionId, bytes: string): map<SessionId, seq<string>> {
    output[sid := Log(output, sid) + [bytes]]
  }

  /** The state with `bytes` fed to session `sid`. */
  function Type(s: Bed, sid: SessionId, bytes: string): Bed {
    s.(reg := s.reg.(output := Feed(s.reg.output, sid, bytes)))
  }

  function Warn(s: Bed, a: Alert): Bed {
    s.(ui := s.ui.(alerts := s.ui.alerts + [a]))
  }

  // ---------------------------------------------------------------------------------------
  // Terminal registry

  /** `create_terminal_tab`: reuses the session registered under `key`, or registers a new
      session (and notebook page) under it. */
  function CreateTerminalTab(r: Registry, key: string): (Registry, SessionId) {
    if key in r.terminals then (r, r.terminals[key])
    else
      var sid := r.nextSession;
      (r.(terminals := r.terminals[key := sid], pages := r.pages + {key},
          output := r.output[sid := []], nextSession := sid + 1), sid)
  }

  /** The unprotected entries menu switching drops from the registry. */
  function PruneTerminals(r: Registry): Registry {
    r.(terminals := map k | k in r.terminals && k in ProtectedKeys :: r.terminals[k],
       pages := r.pages - (r.terminals.Keys - ProtectedKeys))
  }

  /** `on_menu_selected`, reduced to its effect on the registry: selecting another row drops
      every unprotected session. (The source tests `key == "tshark"` for keys outside the
      protected list, which can never hold; see TestBedProps.MenuSwitchKeepsComponents.) */
  function OnMenuSelected(s: Bed, row: Option<nat>): Bed {
    if row.None? || row == s.ui.menu then s
    else s.(reg := PruneTerminals(s.reg), ui := s.ui.(menu := row))
  }

  // ---------------------------------------------------------------------------------------
  // Command sequencer

  /** `_send_commands_sequentially`: registers a new timeout holding a copy of `commands` and
      stores its id in `slot`, without removing a source the slot may already hold. */
  function SendCommandsSequentially(q: Scheduler, sid: SessionId, commands: seq<string>, slot: Slot, onComplete: Option<Comp>): Scheduler {
    var id := q.nextSource;
    q.(timers := q.timers[id := Sequence(sid, commands, slot, onComplete)],
       nextSource := id + 1,
       slots := q.slots[slot := id])
  }

  /** One tick of `send_next`: types the next command followed by a newline, or, once the
      queue is empty, runs `on_complete`, clears the slot and lets the source die. */
  function SendNext(s: Bed, id: SourceId): Bed
    requires id in s.sched.timers
  {
    var q := s.sched.timers[id];
    if q.queue == [] then
      var f := if q.onComplete.Some? then SetFlag(s.flags, q.onComplete.value, true) else s.flags;
      s.(flags := f, sched := s.sched.(slots := s.sched.slots - {q.slot}, timers := s.sched.timers - {id}))
    else
      s.(reg := s.reg.(output := Feed(s.reg.output, q.session, q.queue[0] + "\n")),
         sched := s.sched.(timers := s.sched.timers[id := q.(queue := q.queue[1..])]))
  }

  // ---------------------------------------------------------------------------------------
  // Start and stop paths

  /** The start branch common to the four toggles: acquire the component's session, keep a
      reference to it and schedule its commands, with `startup_complete` as completion. The
      running flag is not touched here. */
  function StartSequence(s: Bed, c: Comp, commands: seq<string>): Bed {
    var (r, sid) := CreateTerminalTab(s.reg, Key(c));
    s.(reg := r.(termRef := r.termRef[c := sid]),
       sched := SendCommandsSequentially(s.sched, sid, commands, SlotOf(c), Some(c)))
  }

  /** `reset_*_button`: clears the flag; the gNB's also clears its link IP. */
  function ResetButton(s: Bed, c: Comp): Bed {
    var s1 := WithRunning(s, c, false);
    if c == Gnb then s1.(ui := s1.ui.(gnbLinkIp := NoIp)) else s1
  }

  /** Writes Ctrl-C into the component's session if it has one. */
  function Interrupt(s: Bed, c: Comp): Bed {
    if c in s.reg.termRef then Type(s, s.reg.termRef[c], CtrlC) else s
  }

  /** `GLib.source_remove` of the source a slot holds, and the slot set to None. */
  function CancelSlot(q: Scheduler, slot: Slot): Scheduler {
    if slot in q.slots then q.(timers := q.timers - {q.slots[slot]}, slots := q.slots - {slot}) else q
  }

  /** The stop branch common to the four toggles: remove the pending sequence, interrupt the
      session, reset the component. */
  function StopComponent(s: Bed, c: Comp): Bed {
    ResetButton(Interrupt(s.(sched := CancelSlot(s.sched, SlotOf(c))), c), c)
  }

  function ToggleCoreProcess(s: Bed): Bed {
    if !s.flags.core then StartSequence(s, Core, CoreCommands)
    else StopComponent(s, Core)
  }

  function ToggleGnbProcess(s: Bed): Bed {
    if !s.flags.gnb then
      if !s.flags.core then Warn(s, CoreFirst)
      else StartSequence(s, Gnb, GnbCommands)
    else if s.flags.ue then Warn(s, UeStillActive)
    else StopComponent(s, Gnb)
  }

  function ToggleUeProcess(s: Bed): Bed {
    if !s.flags.ue then
      if !s.flags.gnb then Warn(s, GnbFirst)
      else StartSequence(s, Ue, UeCommands)
    else StopComponent(s, Ue)
  }

  function ToggleTsharkProcess(s: Bed, capturePath: string): Bed {
    if !s.flags.tshark then StartSequence(s, Tshark, TsharkCommands(capturePath))
    else StopComponent(s, Tshark)
  }

  /** `_show_config_view`: a throwaway "<prefix>_config" session fed three commands, with no
      completion callback. */
  function ShowConfigView(s: Bed, prefix: string, configFile: string, slot: Slot): Bed {
    var (r, sid) := CreateTerminalTab(s.reg, prefix + "_config");
    s.(reg := r,
       sched := SendCommandsSequentially(s.sched, sid, ["cd ~/srsRAN_Project/build", "ls", "cat " + configFile], slot, None))
  }

  // ---------------------------------------------------------------------------------------
  // Watchdog and failure handling

  datatype Watch = Watch(comp: Comp, handler: Handler, pattern: string)

  /** The table `_check_process_status` builds on every tick, in its iteration order. */
  const Watched: seq<Watch> := [
    Watch(Gnb, CallHandleGnbStopped, "./gnb"),
    Watch(Ue, CallResetUe, "./ue"),
    Watch(Tshark, CallResetTshark, "tshark")
  ]

  /** The handlers posted for the entries of `table` whose component is flagged running and
      whose pattern `pgrep -f` does not find. */
  function DueHandlers(f: Flags, present: set<string>, table: seq<Watch>): seq<Handler> {
    if table == [] then []
    else
      var w := table[|table| - 1];
      DueHandlers(f, present, table[..|table| - 1])
        + (if Up(f, w.comp) && w.pattern !in present then [w.handler] else [])
  }

  /** One watchdog tick (it always returns True, so it stays scheduled). */
  function CheckProcessStatus(s: Bed, present: set<string>): Bed {
    s.(sched := s.sched.(idle := s.sched.idle + DueHandlers(s.flags, present, Watched)))
  }

  /** Resets the gNB, then stops the UE through its toggle if it is still flagged running. */
  function HandleGnbStoppedUnexpectedly(s: Bed): Bed {
    var s1 := ResetButton(s, Gnb);
    if s1.flags.ue then ToggleUeProcess(s1) else s1
  }

  /** The event loop runs the oldest posted idle callback. */
  function DispatchIdle(s: Bed): Bed {
    if s.sched.idle == [] then s
    else
      var s1 := s.(sched := s.sched.(idle := s.sched.idle[1..]));
      match s.sched.idle[0]
      case CallHandleGnbStopped => HandleGnbStoppedUnexpectedly(s1)
      case CallResetUe => ResetButton(s1, Ue)
      case CallResetTshark => ResetButton(s1, Tshark)
  }

  /** The "child-exited" handler of the session registered under `key`. */
  function OnProcessExited(s: Bed, key: string): Bed {
    if key == "gnb" && s.flags.gnb then ResetButton(s, Gnb)
    else if key == "ue" && s.flags.ue then ResetButton(s, Ue)
    else if key == "tshark" && s.flags.tshark then ResetButton(s, Tshark)
    else if key == "core" && s.flags.core then ResetButton(s, Core)
    else s
  }

  /** The close button of the tab registered under `key`. For tshark the toggle it calls
      takes its stop branch, since the flag is set. */
  function CloseTab(s: Bed, key: string): Bed {
    var s1 :=
      if key == "gnb" && s.flags.gnb then ToggleGnbProcess(s)
      else if key == "ue" && s.flags.ue then ToggleUeProcess(s)
      else if key == "tshark" && s.flags.tshark then StopComponent(s, Tshark)
      else s;
    var pages := s1.reg.pages - {key};
    var terminals := if key in ProtectedKeys then s1.reg.terminals else s1.reg.terminals - {key};
    s1.(reg := s1.reg.(pages := pages, terminals := terminals))
  }

  /** `on_app_quit`: interrupts the running UE, gNB and tshark sessions (in that order) and
      leaves the main loop. The core is not interrupted and no flag changes. */
  function OnAppQuit(s: Bed): Bed {
    var s1 := if s.flags.ue then Interrupt(s, Ue) else s;
    var s2 := if s1.flags.gnb then Interrupt(s1, Gnb) else s1;
    var s3 := if s2.flags.tshark then Interrupt(s2, Tshark) else s2;
    s3.(ui := s3.ui.(quitting := true))
  }

  // ---------------------------------------------------------------------------------------
  // The event loop as a whole

  /** Everything that can run on the event loop. */
  datatype Event =
    | ClickCore
    | ClickGnb
    | ClickUe
    | ClickTshark(capturePath: string)
    | Tick(source: SourceId)
    | WatchdogTick(present: set<string>)
    | Idle
    | ChildExited(key: string)
    | MenuSelected(row: Option<nat>)
    | CloseClicked(key: string)
    | GnbConfig
    | UeConfig
    | Quit

  function Step(s: Bed, e: Event): Bed {
    match e
    case ClickCore => ToggleCoreProcess(s)
    case ClickGnb => ToggleGnbProcess(s)
    case ClickUe => ToggleUeProcess(s)
    case ClickTshark(p) => ToggleTsharkProcess(s, p)
    case Tick(id) => if id in s.sched.timers then SendNext(s, id) else s   // GLib never runs a removed source
    case WatchdogTick(present) => CheckProcessStatus(s, present)
    case Idle => DispatchIdle(s)
    case ChildExited(key) => OnProcessExited(s, key)
    case MenuSelected(row) => OnMenuSelected(s, row)
    case CloseClicked(key) => CloseTab(s, key)
    case GnbConfig => ShowConfigView(s, "gnb", "gnb.yaml", GnbConfigSlot)
    case UeConfig => ShowConfigView(s, "ue", "ue.yaml", UeConfigSlot)
    case Quit => OnAppQuit(s)
  }

  function Run(s: Bed, events: seq<Event>): Bed
    decreases |events|
  {
    if events == [] then s else Run(Step(s, events[0]), events[1..])
  }

  /** `n` consecutive ticks of the one source `id` (a no-op once it has died). */
  function Ticks(s: Bed, id: SourceId, n: nat): Bed
    decreases n
  {
    if n == 0 || id !in s.sched.timers then s else Ticks(SendNext(s, id), id, n - 1)
  }

  /** The payloads `send_next` types for a command list. */
  function Lines(commands: seq<string>): seq<string> {
    if commands == [] then [] else [commands[0] + "\n"] + Lines(commands[1..])
  }

  // ---------------------------------------------------------------------------------------
  // Invariant

  /** Source ids are handed out from 1 upwards (so a stored id is truthy); every live
      sequence types into an existing session, and a pending start sequence belongs to a
      component that has a session to interrupt. */
  ghost predicate SourcesValid(q: Scheduler, r: Registry) {
    && q.nextSource >= 1
    && forall id :: id in q.timers ==>
         && 1 <= id < q.nextSource
         && q.timers[id].session in r.output
         && (q.timers[id].onComplete.Some? ==> q.timers[id].onComplete.value in r.termRef)
  }

  /** A slot only ever holds the id of a live source that was stored into that slot. */
  ghost predicate SlotsValid(q: Scheduler) {
    forall sl :: sl in q.slots ==> q.slots[sl] in q.timers && q.timers[q.slots[sl]].slot == sl
  }

  /** Session ids are handed out from 0 upwards; every registered key and component reference
      names an existing session, a component's session is the one registered under its key,
      distinct keys hold distinct sessions, and every page is registered. */
  ghost predicate RegistryValid(r: Registry) {
    && (forall sid :: sid in r.output ==> sid < r.nextSession)
    && (forall k :: k in r.terminals ==> r.terminals[k] in r.output)
    && (forall c :: c in r.termRef ==> Key(c) in r.terminals && r.terminals[Key(c)] == r.termRef[c])
    && (forall k, k' :: k in r.terminals && k' in r.terminals && k != k' ==> r.terminals[k] != r.terminals[k'])
    && r.pages <= r.terminals.Keys
  }

  /** A component flagged running has a session a stop can interrupt. */
  ghost predicate FlagsValid(f: Flags, r: Registry) {
    forall c :: Up(f, c) ==> c in r.termRef
  }

  /** What every state reachable from Init satisfies (TestBedInvariant.RunValid). */
  ghost predicate Valid(s: Bed) {
    && SourcesValid(s.sched, s.reg)
    && SlotsValid(s.sched)
    && RegistryValid(s.reg)
    && FlagsValid(s.flags, s.reg)
  }
}
