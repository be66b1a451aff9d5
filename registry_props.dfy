/** Properties of the process registry of srsran_gui.py: how stop_all and
  * update_status act on every component, and what the configuration
  * operations guarantee to start_component. */
module RegistryProps {
  import opened Wrappers
  import opened Registry

  predicate Distinct(order: seq<Component>)
  {
    forall i, j :: 0 <= i < j < |order| ==> order[i] != order[j]
  }

  /** Both loop orders list every component once. */
  lemma OrdersComplete()
    ensures Distinct(StopOrder) && Distinct(StatusOrder)
    ensures forall c :: c in StopOrder && c in StatusOrder
  {
    forall c ensures c in StopOrder && c in StatusOrder {
      match c
      case Epc => assert StopOrder[2] == c && StatusOrder[0] == c;
      case Enb => assert StopOrder[1] == c && StatusOrder[1] == c;
      case Ue => assert StopOrder[0] == c && StatusOrder[2] == c;
    }
  }

  /** Dropping the head of a list without repeats. */
  lemma DistinctTail(order: seq<Component>)
    requires Distinct(order) && order != []
    ensures Distinct(order[1..]) && order[0] !in order[1..]
    ensures forall c :: c in order <==> c == order[0] || c in order[1..]
  {
    var rest := order[1..];
    forall i, j | 0 <= i < j < |rest| ensures rest[i] != rest[j] {
      assert rest[i] == order[i + 1] && rest[j] == order[j + 1];
    }
    forall i | 0 <= i < |rest| ensures rest[i] != order[0] {
      assert rest[i] == order[i + 1];
    }
    assert order == [order[0]] + rest;
  }

  /** The lines stop_component logs for `c` when it acts on `g`. */
  function StopLogIf(g: Gui, c: Component, alive: set<nat>, outcome: Component -> StopOutcome): seq<LogEntry>
  {
    if IsRunning(g, c, alive) then StopLog(c, outcome(c)) else []
  }

  /** The lines a run over `order` logs, judged on the state before the run. */
  function StopLogs(g: Gui, order: seq<Component>, alive: set<nat>, outcome: Component -> StopOutcome): seq<LogEntry>
    decreases |order|
  {
    if order == [] then [] else StopLogIf(g, order[0], alive, outcome) + StopLogs(g, order[1..], alive, outcome)
  }

  /** StopLogs only looks at the components of `order`. */
  lemma {:induction false} StopLogsFrame(g: Gui, h: Gui, order: seq<Component>, alive: set<nat>,
                                         outcome: Component -> StopOutcome)
    requires forall c :: c in order ==> Entry(g, c) == Entry(h, c)
    ensures StopLogs(g, order, alive, outcome) == StopLogs(h, order, alive, outcome)
    decreases |order|
  {
    if order != [] {
      assert order[0] in order;
      assert forall c :: c in order[1..] ==> c in order;
      StopLogsFrame(g, h, order[1..], alive, outcome);
    }
  }

  /** Stopping the components of a list without repeats, one by one: each
    * live one is cleared and logs its lines, the others are left as they
    * were, and nothing else changes. */
  lemma {:induction false} StopEachEffect(g: Gui, order: seq<Component>, alive: set<nat>,
                                          outcome: Component -> StopOutcome)
    requires Distinct(order)
    ensures var r := StopEach(g, order, alive, outcome);
      && (forall c :: c in order ==> Entry(r, c) == (if IsRunning(g, c, alive) then None else Entry(g, c)))
      && (forall c :: c !in order ==> Entry(r, c) == Entry(g, c))
      && r.log == g.log + StopLogs(g, order, alive, outcome)
      && r.config == g.config && r.panels == g.panels && r.pending == g.pending
    decreases |order|
  {
    if order != [] {
      var c0 := order[0];
      var g1 := StopComponent(g, c0, alive, outcome(c0));
      var rest := order[1..];
      DistinctTail(order);
      StopEachEffect(g1, rest, alive, outcome);
      StopLogsFrame(g1, g, rest, alive, outcome);
      assert g1.log == g.log + StopLogIf(g, c0, alive, outcome);
    }
  }

  /** stop_all: every live component is stopped and cleared, in the order
    * UE, eNB, EPC; a component that is not running keeps its entry (a
    * stale handle stays until update_status clears it); afterwards
    * nothing is running. */
  lemma StopAllEffect(g: Gui, alive: set<nat>, outcome: Component -> StopOutcome)
    ensures var r := StopAll(g, alive, outcome);
      && (forall c :: Entry(r, c) == (if IsRunning(g, c, alive) then None else Entry(g, c)))
      && (forall c :: !IsRunning(r, c, alive))
      && r.log == g.log + [StoppingAll] + StopLogIf(g, Ue, alive, outcome)
                  + StopLogIf(g, Enb, alive, outcome) + StopLogIf(g, Epc, alive, outcome)
      && r.config == g.config && r.panels == g.panels && r.pending == g.pending
  {
    var g1 := Log(g, StoppingAll);
    assert forall c :: Entry(g1, c) == Entry(g, c);
    OrdersComplete();
    StopEachEffect(g1, StopOrder, alive, outcome);
    StopLogsFrame(g1, g, StopOrder, alive, outcome);
    StopLogsInOrder(g, alive, outcome);
  }

  lemma StopLogsInOrder(g: Gui, alive: set<nat>, outcome: Component -> StopOutcome)
    ensures StopLogs(g, StopOrder, alive, outcome)
         == StopLogIf(g, Ue, alive, outcome) + StopLogIf(g, Enb, alive, outcome) + StopLogIf(g, Epc, alive, outcome)
  {
    assert StopOrder[1..] == [Enb, Epc] && StopOrder[1..][1..] == [Epc] && StopOrder[1..][1..][1..] == [];
  }

  /** One iteration of update_status leaves the other components alone. */
  lemma RefreshOneFrame(g: Gui, c0: Component, alive: set<nat>)
    ensures var g1 := RefreshOne(g, c0, alive);
      && c0 in g1.panels && g1.panels[c0] == PanelFor(g, c0, alive)
      && Entry(g1, c0) == (if IsRunning(g, c0, alive) then Entry(g, c0) else None)
      && (forall c :: c != c0 ==> Entry(g1, c) == Entry(g, c) && PanelFor(g1, c, alive) == PanelFor(g, c, alive))
      && (forall c :: c in g1.panels <==> c in g.panels || c == c0)
      && (forall c :: c != c0 && c in g.panels ==> g1.panels[c] == g.panels[c])
      && g1.processes.Keys == g.processes.Keys
      && g1.log == g.log && g1.config == g.config && g1.pending == g.pending
  {
  }

  /** update_status over a list without repeats: each listed component gets
    * the panel row its entry calls for, a finished entry is cleared and a
    * live one kept; nothing else changes. */
  lemma {:induction false} RefreshEachEffect(g: Gui, order: seq<Component>, alive: set<nat>)
    requires Distinct(order)
    ensures var r := RefreshEach(g, order, alive);
      && (forall c :: c in order ==> c in r.panels && r.panels[c] == PanelFor(g, c, alive))
      && (forall c :: c in order ==> Entry(r, c) == (if IsRunning(g, c, alive) then Entry(g, c) else None))
      && (forall c :: c !in order ==> Entry(r, c) == Entry(g, c))
      && (forall c :: c in r.panels <==> c in g.panels || c in order)
      && (forall c :: c !in order && c in g.panels ==> r.panels[c] == g.panels[c])
      && r.processes.Keys == g.processes.Keys
      && r.log == g.log && r.config == g.config && r.pending == g.pending
    decreases |order|
  {
    if order != [] {
      var c0 := order[0];
      var g1 := RefreshOne(g, c0, alive);
      var rest := order[1..];
      DistinctTail(order);
      RefreshEachEffect(g1, rest, alive);
      RefreshOneFrame(g, c0, alive);
    }
  }

  /** update_status: each component is shown Running, with its pid, exactly
    * when its entry is a live process; its start button is enabled exactly
    * when it is not running and its stop button exactly when it is; a
    * finished entry is cleared and a live one kept. */
  lemma UpdateStatusReconciles(g: Gui, alive: set<nat>)
    ensures var r := UpdateStatus(g, alive);
      forall c ::
        && c in r.panels
        && (r.panels[c].status.Running? <==> IsRunning(g, c, alive))
        && (r.panels[c].status.Running? ==> r.panels[c].status.pid == Entry(g, c).value.pid)
        && (r.panels[c].startEnabled <==> !IsRunning(g, c, alive))
        && (r.panels[c].stopEnabled <==> IsRunning(g, c, alive))
        && (Entry(r, c).Some? <==> IsRunning(g, c, alive))
        && (IsRunning(g, c, alive) ==> Entry(r, c) == Entry(g, c))
  {
    OrdersComplete();
    RefreshEachEffect(g, StatusOrder, alive);
  }

  /** A component whose panel row already matches its entry, and whose
    * entry is not a finished process, is left alone by update_status. */
  predicate Settled(g: Gui, c: Component, alive: set<nat>)
  {
    c in g.panels && g.panels[c] == PanelFor(g, c, alive) && (Entry(g, c).Some? ==> IsRunning(g, c, alive))
  }

  lemma {:induction false} RefreshSettled(g: Gui, order: seq<Component>, alive: set<nat>)
    requires forall c :: c in order ==> Settled(g, c, alive)
    ensures RefreshEach(g, order, alive) == g
    decreases |order|
  {
    if order != [] {
      var c0 := order[0];
      assert Settled(g, c0, alive);
      assert g.panels[c0 := PanelFor(g, c0, alive)] == g.panels;
      assert RefreshOne(g, c0, alive) == g;
      assert forall c :: c in order[1..] ==> c in order;
      RefreshSettled(g, order[1..], alive);
    }
  }

  /** Running update_status twice with no process exiting in between is the
    * same as running it once. */
  lemma UpdateStatusIdempotent(g: Gui, alive: set<nat>)
    ensures UpdateStatus(UpdateStatus(g, alive), alive) == UpdateStatus(g, alive)
  {
    var r1 := UpdateStatus(g, alive);
    OrdersComplete();
    RefreshEachEffect(g, StatusOrder, alive);
    forall c | c in StatusOrder ensures Settled(r1, c, alive) {
      assert IsRunning(r1, c, alive) == IsRunning(g, c, alive);
    }
    RefreshSettled(r1, StatusOrder, alive);
  }

  /** After stop_all, the next update_status shows every component Stopped
    * with only its start button enabled, and the table holds no handle. */
  lemma StopAllThenStatusAllStopped(g: Gui, alive: set<nat>, outcome: Component -> StopOutcome)
    ensures var r := UpdateStatus(StopAll(g, alive, outcome), alive);
      forall c :: c in r.panels && r.panels[c] == Panel(Stopped, true, false) && Entry(r, c) == None
  {
    StopAllEffect(g, alive, outcome);
    IdleStatusAllStopped(StopAll(g, alive, outcome), alive);
  }

  /** With nothing running, update_status shows every component Stopped
    * and empties the table. */
  lemma IdleStatusAllStopped(s: Gui, alive: set<nat>)
    requires forall c :: !IsRunning(s, c, alive)
    ensures var r := UpdateStatus(s, alive);
      forall c :: c in r.panels && r.panels[c] == Panel(Stopped, true, false) && Entry(r, c) == None
  {
    UpdateStatusReconciles(s, alive);
    var r := UpdateStatus(s, alive);
    forall c ensures c in r.panels && r.panels[c] == Panel(Stopped, true, false) && Entry(r, c) == None {
      assert !IsRunning(s, c, alive);
      assert !r.panels[c].status.Running?;
    }
  }

  /** The window comes up with every component Stopped, no handle in the
    * table, only the startup line in the log
    * and a configuration start_component can use. */
  lemma InitAllStopped(home: string, loaded: Option<Config>)
    ensures var g := Init(home, loaded);
      && Complete(g.config) && g.log == [GuiStarted] && g.pending == []
      && forall c :: c in g.panels && g.panels[c] == Panel(Stopped, true, false) && Entry(g, c) == None
  {
    var g0 := Gui(map[Epc := None, Enb := None, Ue := None], LoadConfig(home, loaded), [GuiStarted], map[], []);
    OrdersComplete();
    RefreshEachEffect(g0, StatusOrder, {});
  }

  /** start_all starts the EPC at once and hands the eNB and the UE to the
    * timer at 2000 ms and 4000 ms whatever became of the EPC: there is no
    * dependency check. The eNB and UE entries are not touched yet. */
  lemma StartAllSchedules(g: Gui, files: set<string>, cwd: string, outcome: SpawnOutcome)
    requires Complete(g.config)
    ensures var r := StartAll(g, files, cwd, outcome);
      && r.pending == g.pending + [Deferred(2000, Enb), Deferred(4000, Ue)]
      && |r.log| == |g.log| + 3
      && r.log[|g.log|] == StartingAll
      && r.log[|g.log| + 1] == StartingComponent(Epc, Command(g.config, Epc, files))
      && Entry(r, Enb) == Entry(g, Enb) && Entry(r, Ue) == Entry(g, Ue)
      && (outcome.Spawned? || outcome.ReaderThreadError? ==> Entry(r, Epc).Some? && Entry(r, Epc).value.pid == outcome.pid)
      && (outcome.BinaryMissing? || outcome.SpawnError? ==> Entry(r, Epc) == Entry(g, Epc))
  {
    var g1 := Log(g, StartingAll);
    var r := StartAll(g, files, cwd, outcome);
    assert r.log[..|g1.log| + 1] == g1.log + [StartingComponent(Epc, Command(g.config, Epc, files))];
    assert r.log[|g.log|] == r.log[..|g1.log| + 1][|g.log|];
    assert r.log[|g.log| + 1] == r.log[..|g1.log| + 1][|g.log| + 1];
  }

  /** When both deferred starts of a start_all from an empty queue run, the
    * eNB and then the UE are spawned from their own configuration keys,
    * whatever happened to the EPC, and the queue is empty again. */
  lemma StartAllThenDeferred(g: Gui, files: set<string>, cwd: string,
                             epc: SpawnOutcome, enb: SpawnOutcome, ue: SpawnOutcome)
    requires Complete(g.config) && g.pending == []
    requires enb.Spawned? && ue.Spawned?
    ensures StartAll(g, files, cwd, epc).pending == [Deferred(2000, Enb), Deferred(4000, Ue)]
    ensures var r := RunDeferred(RunDeferred(StartAll(g, files, cwd, epc), 0, files, cwd, enb), 0, files, cwd, ue);
      && r.pending == []
      && Entry(r, Enb) == Some(Proc(enb.pid, Command(g.config, Enb, files), WorkingDir(g.config, files, cwd)))
      && Entry(r, Ue) == Some(Proc(ue.pid, Command(g.config, Ue, files), WorkingDir(g.config, files, cwd)))
  {
    var s := StartAll(g, files, cwd, epc);
    StartAllSchedules(g, files, cwd, epc);
    var s1 := RunDeferred(s, 0, files, cwd, enb);
    assert s.pending[0].c == Enb && s.pending[1..] == [Deferred(4000, Ue)];
    assert s1.pending == [Deferred(4000, Ue)];
    assert s1.pending[0].c == Ue;
  }

  /** start_component overwrites a live entry: the old child is no longer
    * referenced by the table, though it was never stopped. */
  lemma StartOrphansLiveChild(g: Gui, c: Component, files: set<string>, cwd: string,
                              alive: set<nat>, pid: nat)
    requires Complete(g.config) && IsRunning(g, c, alive) && pid != Entry(g, c).value.pid
    ensures var r := StartComponent(g, c, files, cwd, Spawned(pid));
      IsRunning(r, c, alive) <==> pid in alive
    ensures Entry(StartComponent(g, c, files, cwd, Spawned(pid)), c).value.pid != Entry(g, c).value.pid
  {
  }

  /** After save_configuration, start_component runs the binary and the
    * configuration file entered in the tab. */
  lemma SavedFieldsDriveCommand(g: Gui, f: Fields, c: Component, files: set<string>)
    ensures var cfg := SaveAndLog(g, f).config;
      && Command(cfg, c, files)[0] == FieldFor(f, BinaryKey(c))
      && (|Command(cfg, c, files)| == 2 <==> FieldFor(f, ConfigKey(c)) != "" && FieldFor(f, ConfigKey(c)) in files)
  {
    ComponentKeysSaved(c);
  }

  /** With no configuration file, start_component runs the stock binary
    * srsepc, srsenb or srsue with no argument. */
  lemma DefaultCommand(home: string, c: Component, files: set<string>)
    ensures Command(LoadConfig(home, None), c, files) == ["srs" + Name(c)]
  {
    match c
    case Epc =>
      assert BinaryKey(c) == "epc_binary" && ConfigKey(c) == "epc_config" && "srs" + Name(c) == "srsepc";
    case Enb =>
      assert BinaryKey(c) == "enb_binary" && ConfigKey(c) == "enb_config" && "srs" + Name(c) == "srsenb";
    case Ue =>
      assert BinaryKey(c) == "ue_binary" && ConfigKey(c) == "ue_config" && "srs" + Name(c) == "srsue";
  }

  /** cleanup stops every live component and leaves nothing running. */
  lemma CleanupStopsEverything(g: Gui, alive: set<nat>, outcome: Component -> StopOutcome)
    ensures var r := Cleanup(g, alive, outcome);
      && r.log[|g.log|] == ShuttingDown && r.log[|g.log| + 1] == StoppingAll
      && forall c :: !IsRunning(r, c, alive) && (IsRunning(g, c, alive) ==> Entry(r, c) == None)
  {
    var g1 := Log(g, ShuttingDown);
    assert forall c :: Entry(g1, c) == Entry(g, c);
    StopAllEffect(g1, alive, outcome);
  }

  /** Appending to the list runs one more stop_component at the end: the
    * stop_all loop is proved against StopEach through this. */
  lemma {:induction false} StopEachSnoc(g: Gui, order: seq<Component>, c: Component, alive: set<nat>,
                                        outcome: Component -> StopOutcome)
    ensures StopEach(g, order + [c], alive, outcome)
         == StopComponent(StopEach(g, order, alive, outcome), c, alive, outcome(c))
    decreases |order|
  {
    if order == [] {
      assert [] + [c] == [c] && [c][1..] == [];
    } else {
      assert (order + [c])[0] == order[0] && (order + [c])[1..] == order[1..] + [c];
      StopEachSnoc(StopComponent(g, order[0], alive, outcome(order[0])), order[1..], c, alive, outcome);
    }
  }

  /** Appending to the list runs one more update_status iteration at the end. */
  lemma {:induction false} RefreshEachSnoc(g: Gui, order: seq<Component>, c: Component, alive: set<nat>)
    ensures RefreshEach(g, order + [c], alive) == RefreshOne(RefreshEach(g, order, alive), c, alive)
    decreases |order|
  {
    if order == [] {
      assert [] + [c] == [c] && [c][1..] == [];
    } else {
      assert (order + [c])[0] == order[0] && (order + [c])[1..] == order[1..] + [c];
      RefreshEachSnoc(RefreshOne(g, order[0], alive), order[1..], c, alive);
    }
  }
}
