/** The process registry of the srsRAN control panel (class SrsRANGUI in
  * srsran_gui.py), as values: the configuration dictionary, the table of
  * child-process handles, the log and the status panel. The class in
  * registry_app.dfy is proved against the functions here. */
module Registry {
  import opened Wrappers

  datatype Component = Epc | Enb | Ue

  function Name(c: Component): string
  {
    match c
    case Epc => "epc"
    case Enb => "enb"
    case Ue => "ue"
  }

  /** Configuration keys, built as f'{component}_binary' and f'{component}_config'. */
  function BinaryKey(c: Component): string { Name(c) + "_binary" }
  function ConfigKey(c: Component): string { Name(c) + "_config" }
  const WorkingDirKey: string := "working_dir"

  /** The JSON configuration, restricted to string values. */
  type Config = map<string, string>

  /** The defaults load_config starts from; `home` is the user's home directory. */
  function Defaults(home: string): Config
  {
    map["epc_binary" := "srsepc", "enb_binary" := "srsenb", "ue_binary" := "srsue",
        "epc_config" := "", "enb_config" := "", "ue_config" := "",
        "working_dir" := home]
  }

  /** Every key start_component looks up is present. */
  predicate Complete(cfg: Config)
  {
    WorkingDirKey in cfg &&
    forall c: Component :: BinaryKey(c) in cfg && ConfigKey(c) in cfg
  }

  /** The component keys are among the seven keys of the configuration tab. */
  lemma ComponentKeysSaved(c: Component)
    ensures BinaryKey(c) in SavedKeys && ConfigKey(c) in SavedKeys
  {
    match c
    case Epc => assert BinaryKey(c) == "epc_binary" && ConfigKey(c) == "epc_config";
    case Enb => assert BinaryKey(c) == "enb_binary" && ConfigKey(c) == "enb_config";
    case Ue => assert BinaryKey(c) == "ue_binary" && ConfigKey(c) == "ue_config";
  }

  /** A configuration holding the seven keys is complete. */
  lemma SavedKeysComplete(cfg: Config)
    requires SavedKeys <= cfg.Keys
    ensures Complete(cfg)
  {
    forall c: Component
      ensures BinaryKey(c) in cfg && ConfigKey(c) in cfg
    {
      ComponentKeysSaved(c);
    }
  }

  /** load_config: `loaded` is the parsed file, None when the file is
    * missing or reading it raised; dict.update lets loaded keys win. */
  function LoadConfig(home: string, loaded: Option<Config>): (cfg: Config)
    ensures Complete(cfg)
    ensures loaded.None? ==> cfg == Defaults(home)
    ensures loaded.Some? ==> cfg.Keys == Defaults(home).Keys + loaded.value.Keys
    ensures loaded.Some? ==> forall k :: k in loaded.value ==> cfg[k] == loaded.value[k]
    ensures forall k :: k in Defaults(home) && (loaded.None? || k !in loaded.value) ==>
              cfg[k] == Defaults(home)[k]
  {
    assert Defaults(home).Keys == SavedKeys;
    SavedKeysComplete(Defaults(home));
    SavedKeysComplete(Defaults(home) + (if loaded.Some? then loaded.value else map[]));
    match loaded
    case None => Defaults(home)
    case Some(m) => Defaults(home) + m
  }

  /** The seven entry fields of the configuration tab. */
  datatype Fields = Fields(workingDir: string, epcBinary: string, epcConfig: string,
                           enbBinary: string, enbConfig: string,
                           ueBinary: string, ueConfig: string)

  /** The keys save_configuration writes. */
  const SavedKeys: set<string> :=
    {"working_dir", "epc_binary", "epc_config", "enb_binary", "enb_config", "ue_binary", "ue_config"}

  /** The value save_configuration writes under `key`, for a key of SavedKeys. */
  function FieldFor(f: Fields, key: string): string
  {
    if key == "working_dir" then f.workingDir
    else if key == "epc_binary" then f.epcBinary
    else if key == "epc_config" then f.epcConfig
    else if key == "enb_binary" then f.enbBinary
    else if key == "enb_config" then f.enbConfig
    else if key == "ue_binary" then f.ueBinary
    else f.ueConfig
  }

  /** The seven assignments of save_configuration, in the source's order. */
  function SaveConfiguration(cfg: Config, f: Fields): (r: Config)
    ensures r.Keys == cfg.Keys + SavedKeys
    ensures forall k :: k in SavedKeys ==> r[k] == FieldFor(f, k)
    ensures forall k :: k in cfg && k !in SavedKeys ==> r[k] == cfg[k]
    ensures Complete(r)
  {
    var r := cfg["working_dir" := f.workingDir]["epc_binary" := f.epcBinary]["epc_config" := f.epcConfig]
       ["enb_binary" := f.enbBinary]["enb_config" := f.enbConfig]
       ["ue_binary" := f.ueBinary]["ue_config" := f.ueConfig];
    SavedKeysComplete(r);
    r
  }

  /** The argument vector: the binary, then the configuration file when it
    * is non-empty and `files` (os.path.exists) holds for it. */
  function Command(cfg: Config, c: Component, files: set<string>): (cmd: seq<string>)
    requires Complete(cfg)
    ensures 1 <= |cmd| <= 2 && cmd[0] == cfg[BinaryKey(c)]
    ensures |cmd| == 2 <==> cfg[ConfigKey(c)] != "" && cfg[ConfigKey(c)] in files
    ensures |cmd| == 2 ==> cmd[1] == cfg[ConfigKey(c)]
  {
    var file := cfg[ConfigKey(c)];
    [cfg[BinaryKey(c)]] + (if file != "" && file in files then [file] else [])
  }

  /** The directory the child runs in: working_dir when it exists, else `cwd` (os.getcwd()). */
  function WorkingDir(cfg: Config, files: set<string>, cwd: string): string
    requires Complete(cfg)
  {
    if cfg[WorkingDirKey] in files then cfg[WorkingDirKey] else cwd
  }

  /** A Popen handle: the child's pid, its argument vector and directory. */
  datatype Proc = Proc(pid: nat, argv: seq<string>, cwd: string)

  /** How the spawn went: Popen spawned a child and its reader thread started;
    * Popen spawned a child but starting the reader thread raised; Popen raised
    * FileNotFoundError; Popen raised something else. */
  datatype SpawnOutcome = Spawned(pid: nat) | ReaderThreadError(pid: nat) | BinaryMissing | SpawnError

  /** How stopping went: terminate then wait succeeded; wait timed out and
    * kill succeeded; terminate or wait raised; kill raised. */
  datatype StopOutcome = Terminated | Killed | TerminateError | KillError

  /** The log lines, without their timestamps. */
  datatype LogEntry =
    | GuiStarted
    | StartingComponent(c: Component, cmd: seq<string>)
    | StartedWithPid(c: Component, pid: nat)
    | BinaryNotFound(binary: string)
    | StartError(c: Component)
    | StoppingComponent(c: Component)
    | ForceKilling(c: Component)
    | StoppedComponent(c: Component)
    | StopError(c: Component)
    | StartingAll
    | StoppingAll
    | ConfigurationSaved
    | ShuttingDown

  /** A component's row in the status frame: the indicator text and the
    * state of its start and stop buttons. */
  datatype Indicator = Running(pid: nat) | Stopped
  datatype Panel = Panel(status: Indicator, startEnabled: bool, stopEnabled: bool)

  /** A start_component call handed to root.after. */
  datatype Deferred = Deferred(delayMs: nat, c: Component)

  datatype Gui = Gui(processes: map<Component, Option<Proc>>, config: Config,
                     log: seq<LogEntry>, panels: map<Component, Panel>,
                     pending: seq<Deferred>)

  /** self.processes.get(component). */
  function Entry(g: Gui, c: Component): Option<Proc>
  {
    if c in g.processes then g.processes[c] else None
  }

  /** `process and process.poll() is None`; `alive` is the set of pids that have not exited. */
  predicate IsRunning(g: Gui, c: Component, alive: set<nat>)
  {
    Entry(g, c).Some? && Entry(g, c).value.pid in alive
  }

  function Log(g: Gui, e: LogEntry): Gui
  {
    g.(log := g.log + [e])
  }

  /** start_component: log the command, then record the new handle; a
    * live handle already in the table is overwritten. The handle is stored
    * before the reader thread starts, so it stays even when that start raises. */
  function StartComponent(g: Gui, c: Component, files: set<string>, cwd: string,
                          outcome: SpawnOutcome): (r: Gui)
    requires Complete(g.config)
    ensures r.config == g.config && r.panels == g.panels && r.pending == g.pending
    ensures |r.log| == |g.log| + 2
    ensures r.log[..|g.log| + 1] == g.log + [StartingComponent(c, Command(g.config, c, files))]
    ensures outcome.Spawned? ==>
              Entry(r, c) == Some(Proc(outcome.pid, Command(g.config, c, files), WorkingDir(g.config, files, cwd))) &&
              r.log[|g.log| + 1] == StartedWithPid(c, outcome.pid)
    ensures outcome.ReaderThreadError? ==>
              Entry(r, c) == Some(Proc(outcome.pid, Command(g.config, c, files), WorkingDir(g.config, files, cwd))) &&
              r.log[|g.log| + 1] == StartError(c)
    ensures outcome.BinaryMissing? ==>
              r.processes == g.processes && r.log[|g.log| + 1] == BinaryNotFound(g.config[BinaryKey(c)])
    ensures outcome.SpawnError? ==> r.processes == g.processes && r.log[|g.log| + 1] == StartError(c)
    ensures forall d :: d != c ==> Entry(r, d) == Entry(g, d)
  {
    var cmd := Command(g.config, c, files);
    var g1 := Log(g, StartingComponent(c, cmd));
    match outcome
    case Spawned(pid) =>
      Log(g1.(processes := g1.processes[c := Some(Proc(pid, cmd, WorkingDir(g.config, files, cwd)))]),
          StartedWithPid(c, pid))
    case ReaderThreadError(pid) =>
      Log(g1.(processes := g1.processes[c := Some(Proc(pid, cmd, WorkingDir(g.config, files, cwd)))]),
          StartError(c))
    case BinaryMissing => Log(g1, BinaryNotFound(g.config[BinaryKey(c)]))
    case SpawnError => Log(g1, StartError(c))
  }

  /** The lines stop_component logs for each way stopping can go. */
  function StopLog(c: Component, outcome: StopOutcome): (l: seq<LogEntry>)
    ensures 2 <= |l| <= 3 && l[0] == StoppingComponent(c)
    ensures |l| == (if outcome == Killed || outcome == KillError then 3 else 2)
    ensures l[|l| - 1] == StoppedComponent(c) <==> outcome == Terminated || outcome == Killed
    ensures l[|l| - 1] == StopError(c) <==> outcome == TerminateError || outcome == KillError
    ensures ForceKilling(c) in l <==> outcome == Killed || outcome == KillError
  {
    match outcome
    case Terminated => [StoppingComponent(c), StoppedComponent(c)]
    case Killed => [StoppingComponent(c), ForceKilling(c), StoppedComponent(c)]
    case TerminateError => [StoppingComponent(c), StopError(c)]
    case KillError => [StoppingComponent(c), ForceKilling(c), StopError(c)]
  }

  /** stop_component: only a live entry is stopped, and the `finally`
    * clears it whatever happened. */
  function StopComponent(g: Gui, c: Component, alive: set<nat>, outcome: StopOutcome): (r: Gui)
    ensures IsRunning(g, c, alive) ==> Entry(r, c) == None && r.log == g.log + StopLog(c, outcome)
    ensures !IsRunning(g, c, alive) ==> r == g
    ensures !IsRunning(r, c, alive)
    ensures forall d :: d != c ==> Entry(r, d) == Entry(g, d)
    ensures r.config == g.config && r.panels == g.panels && r.pending == g.pending
  {
    if IsRunning(g, c, alive) then
      g.(processes := g.processes[c := None], log := g.log + StopLog(c, outcome))
    else g
  }

  const StopOrder: seq<Component> := [Ue, Enb, Epc]
  const StatusOrder: seq<Component> := [Epc, Enb, Ue]

  /** stop_component applied to each of `order`, left to right. */
  function StopEach(g: Gui, order: seq<Component>, alive: set<nat>,
                    outcome: Component -> StopOutcome): Gui
    decreases |order|
  {
    if order == [] then g
    else StopEach(StopComponent(g, order[0], alive, outcome(order[0])), order[1..], alive, outcome)
  }

  /** stop_all; `outcome` says how stopping each component goes. */
  function StopAll(g: Gui, alive: set<nat>, outcome: Component -> StopOutcome): Gui
  {
    StopEach(Log(g, StoppingAll), StopOrder, alive, outcome)
  }

  /** start_all: start the EPC now and defer the eNB and the UE. */
  function StartAll(g: Gui, files: set<string>, cwd: string, outcome: SpawnOutcome): Gui
    requires Complete(g.config)
  {
    var g1 := StartComponent(Log(g, StartingAll), Epc, files, cwd, outcome);
    g1.(pending := g1.pending + [Deferred(2000, Enb), Deferred(4000, Ue)])
  }

  /** The Tk loop runs the deferred start at index i. */
  function RunDeferred(g: Gui, i: nat, files: set<string>, cwd: string, outcome: SpawnOutcome): Gui
    requires i < |g.pending| && Complete(g.config)
  {
    StartComponent(g.(pending := g.pending[..i] + g.pending[i + 1..]), g.pending[i].c, files, cwd, outcome)
  }

  /** The panel row update_status draws for one component. */
  function PanelFor(g: Gui, c: Component, alive: set<nat>): Panel
  {
    if IsRunning(g, c, alive) then Panel(Running(Entry(g, c).value.pid), false, true)
    else Panel(Stopped, true, false)
  }

  /** One iteration of the update_status loop. */
  function RefreshOne(g: Gui, c: Component, alive: set<nat>): Gui
  {
    var g1 := g.(panels := g.panels[c := PanelFor(g, c, alive)]);
    if !IsRunning(g, c, alive) && Entry(g, c).Some? then g1.(processes := g1.processes[c := None])
    else g1
  }

  function RefreshEach(g: Gui, order: seq<Component>, alive: set<nat>): Gui
    decreases |order|
  {
    if order == [] then g else RefreshEach(RefreshOne(g, order[0], alive), order[1..], alive)
  }

  /** update_status (the rescheduling after 1000 ms is not modelled). */
  function UpdateStatus(g: Gui, alive: set<nat>): Gui
  {
    RefreshEach(g, StatusOrder, alive)
  }

  /** __init__: an empty table, the loaded configuration, the line setup_ui
    * logs when it builds the logs tab, then update_status. */
  function Init(home: string, loaded: Option<Config>): Gui
  {
    UpdateStatus(Gui(map[Epc := None, Enb := None, Ue := None], LoadConfig(home, loaded), [GuiStarted], map[], []), {})
  }

  /** save_configuration; persisting the file is not modelled. */
  function SaveAndLog(g: Gui, f: Fields): Gui
  {
    Log(g.(config := SaveConfiguration(g.config, f)), ConfigurationSaved)
  }

  /** cleanup: log, then stop_all (destroying the window is not modelled). */
  function Cleanup(g: Gui, alive: set<nat>, outcome: Component -> StopOutcome): Gui
  {
    StopAll(Log(g, ShuttingDown), alive, outcome)
  }
}
