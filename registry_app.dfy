/**
  The process registry as the object it is in srsran_gui.py: class SrsRANGUI, whose
  methods overwrite and clear the entries of `processes` and update `config` in place.
  Every method is proved against the function of the same name in Registry: the state
  it leaves, read through `Snapshot()`, is that function applied to the state it found,
  so what RegistryProps proves of the functions holds of the object.
*/
module RegistryApp {
  import opened Wrappers
  import R = Registry
  import RegistryProps

  class SrsRANGUI {
    var processes: map<R.Component, Option<R.Proc>>  // self.processes
    var config: R.Config                             // self.config
    var log: seq<R.LogEntry>                         // the lines of log_text
    var panels: map<R.Component, R.Panel>            // the status labels and buttons per component
    var pending: seq<R.Deferred>                     // start_component calls passed to root.after

    function Snapshot(): R.Gui
      reads this
    {
      R.Gui(processes, config, log, panels, pending)
    }

    /** Every key start_component reads is in the configuration. */
    ghost predicate Valid()
      reads this
    {
      R.Complete(config)
    }

    /** __init__: the empty table, load_config, setup_ui (of which only its
      * startup log line is state here), then the first update_status. */
    constructor(home: string, loaded: Option<R.Config>)
      ensures Snapshot() == R.Init(home, loaded)
      ensures Valid()
    {
      processes := map[R.Epc := None, R.Enb := None, R.Ue := None];
      config := map[];
      log, panels, pending := [], map[], [];
      new;
      LoadConfig(home, loaded);
      log := log + [R.GuiStarted];
      UpdateStatus({});
    }

    /** load_config: the defaults, then dict.update with the parsed file
      * (`loaded` is None when the file is missing or reading it raised). */
    method LoadConfig(home: string, loaded: Option<R.Config>)
      modifies this
      ensures Snapshot() == old(Snapshot()).(config := R.LoadConfig(home, loaded))
      ensures Valid()
    {
      config := R.Defaults(home);
      if loaded.Some? {
        config := config + loaded.value;
      }
    }

    /** save_configuration: copy the seven fields of the tab, then log. */
    method SaveConfiguration(f: R.Fields)
      modifies this
      ensures Snapshot() == R.SaveAndLog(old(Snapshot()), f)
      ensures Valid()
    {
      config := config["working_dir" := f.workingDir];
      config := config["epc_binary" := f.epcBinary];
      config := config["epc_config" := f.epcConfig];
      config := config["enb_binary" := f.enbBinary];
      config := config["enb_config" := f.enbConfig];
      config := config["ue_binary" := f.ueBinary];
      config := config["ue_config" := f.ueConfig];
      log := log + [R.ConfigurationSaved];
    }

    /** start_component; `outcome` is what Popen did. */
    method StartComponent(c: R.Component, files: set<string>, cwd: string, outcome: R.SpawnOutcome)
      requires Valid()
      modifies this
      ensures Snapshot() == R.StartComponent(old(Snapshot()), c, files, cwd, outcome)
      ensures Valid()
    {
      var cmd := R.Command(config, c, files);
      log := log + [R.StartingComponent(c, cmd)];
      var workingDir := config[R.WorkingDirKey];
      if workingDir !in files {
        workingDir := cwd;
      }
      match outcome
      case Spawned(pid) =>
        processes := processes[c := Some(R.Proc(pid, cmd, workingDir))];
        log := log + [R.StartedWithPid(c, pid)];
      case ReaderThreadError(pid) =>
        processes := processes[c := Some(R.Proc(pid, cmd, workingDir))];
        log := log + [R.StartError(c)];
      case BinaryMissing =>
        log := log + [R.BinaryNotFound(config[R.BinaryKey(c)])];
      case SpawnError =>
        log := log + [R.StartError(c)];
    }

    /** stop_component; `alive` holds the pids poll() reports as running and
      * `outcome` says how terminate, wait and kill went. */
    method StopComponent(c: R.Component, alive: set<nat>, outcome: R.StopOutcome)
      modifies this
      ensures Snapshot() == R.StopComponent(old(Snapshot()), c, alive, outcome)
      ensures config == old(config) && (old(Valid()) ==> Valid())
    {
      var process := if c in processes then processes[c] else None;
      if process.Some? && process.value.pid in alive {
        log := log + [R.StoppingComponent(c)];
        match outcome {
          case Terminated =>
            log := log + [R.StoppedComponent(c)];
          case Killed =>
            log := log + [R.ForceKilling(c)];
            log := log + [R.StoppedComponent(c)];
          case TerminateError =>
            log := log + [R.StopError(c)];
          case KillError =>
            log := log + [R.ForceKilling(c)];
            log := log + [R.StopError(c)];
        }
        processes := processes[c := None];
      }
    }

    /** start_all: the EPC now, the eNB and the UE through root.after. */
    method StartAll(files: set<string>, cwd: string, outcome: R.SpawnOutcome)
      requires Valid()
      modifies this
      ensures Snapshot() == R.StartAll(old(Snapshot()), files, cwd, outcome)
      ensures Valid()
    {
      log := log + [R.StartingAll];
      StartComponent(R.Epc, files, cwd, outcome);
      pending := pending + [R.Deferred(2000, R.Enb), R.Deferred(4000, R.Ue)];
    }

    /** The Tk loop runs the deferred start_component at index i. */
    method RunDeferred(i: nat, files: set<string>, cwd: string, outcome: R.SpawnOutcome)
      requires i < |pending| && Valid()
      modifies this
      ensures Snapshot() == R.RunDeferred(old(Snapshot()), i, files, cwd, outcome)
      ensures Valid()
    {
      var d := pending[i];
      pending := pending[..i] + pending[i + 1..];
      StartComponent(d.c, files, cwd, outcome);
    }

    /** stop_all: stop_component for ue, enb and epc, in that order. */
    method StopAll(alive: set<nat>, outcome: R.Component -> R.StopOutcome)
      modifies this
      ensures Snapshot() == R.StopAll(old(Snapshot()), alive, outcome)
      ensures config == old(config) && (old(Valid()) ==> Valid())
    {
      log := log + [R.StoppingAll];
      ghost var start := Snapshot();
      var order := R.StopOrder;
      var i := 0;
      while i < |order|
        invariant 0 <= i <= |order|
        invariant Snapshot() == R.StopEach(start, order[..i], alive, outcome)
      {
        RegistryProps.StopEachSnoc(start, order[..i], order[i], alive, outcome);
        assert order[..i + 1] == order[..i] + [order[i]];
        StopComponent(order[i], alive, outcome(order[i]));
        i := i + 1;
      }
      assert order[..i] == order;
    }

    /** update_status: redraw each component's row and clear the entries of
      * children that have exited (the next call after 1000 ms is not
      * modelled). */
    method UpdateStatus(alive: set<nat>)
      modifies this
      ensures Snapshot() == R.UpdateStatus(old(Snapshot()), alive)
      ensures config == old(config) && (old(Valid()) ==> Valid())
    {
      ghost var start := Snapshot();
      var order := R.StatusOrder;
      var i := 0;
      while i < |order|
        invariant 0 <= i <= |order|
        invariant Snapshot() == R.RefreshEach(start, order[..i], alive)
      {
        var c := order[i];
        RegistryProps.RefreshEachSnoc(start, order[..i], c, alive);
        assert order[..i + 1] == order[..i] + [c];
        var process := if c in processes then processes[c] else None;
        var isRunning := process.Some? && process.value.pid in alive;
        if isRunning {
          panels := panels[c := R.Panel(R.Running(process.value.pid), false, true)];
        } else {
          panels := panels[c := R.Panel(R.Stopped, true, false)];
          if process.Some? {
            processes := processes[c := None];
          }
        }
        i := i + 1;
      }
      assert order[..i] == order;
    }

    /** cleanup: log, then stop_all. */
    method Cleanup(alive: set<nat>, outcome: R.Component -> R.StopOutcome)
      modifies this
      ensures Snapshot() == R.Cleanup(old(Snapshot()), alive, outcome)
      ensures config == old(config) && (old(Valid()) ==> Valid())
    {
      log := log + [R.ShuttingDown];
      StopAll(alive, outcome);
    }
  }
}
