/** The two periodic tasks of a controller (startTasks and the end of nodeInfoMonitor in
    node/task.go): a changed node may change their intervals, and then they are closed and
    started again, from inside the monitor's own Execute. */
module Schedule {
  import opened Controller
  import opened LimiterRuns
  import M = Task
  import TaskCode

  /** The monitor's interval after a changed node, and whether it is restarted. */
  function NextMonitor(interval: int, node: NodeInfo): (int, bool) {
    if interval != node.pullInterval && node.pullInterval != 0 then (node.pullInterval, true) else (interval, false)
  }

  /** The same for the report task: the code compares the push interval and then stores the
      pull interval. */
  function NextReport(interval: int, node: NodeInfo): (int, bool) {
    if interval != node.pushInterval && node.pushInterval != 0 then (node.pullInterval, true) else (interval, false)
  }

  /** Once restarted, the report task is restarted again by every further change of the node,
      also one that leaves the intervals alone, exactly when the two intervals differ. The
      monitor is not. */
  lemma ReportRestartsAgain(interval: int, node: NodeInfo)
    requires NextReport(interval, node).1
    ensures NextReport(NextReport(interval, node).0, node).1 <==> node.pullInterval != node.pushInterval
    ensures !NextMonitor(NextMonitor(interval, node).0, node).1
  {
  }

  /** A task that is closed and started again. */
  ghost predicate Restarted(s: M.State, t: M.State) {
    && !s.panicked && M.Consistent(s)
    && var closed := M.Step(s, M.Close);
       !closed.panicked && t == M.Step(closed, M.Start(false))
  }

  /** After a restart the task runs, and if a loop was outside its select, as the monitor's is
      when it restarts itself, there is one live loop more. */
  lemma RestartOverlaps(s: M.State, t: M.State, l: nat)
    requires Restarted(s, t) && l < |s.loops| && M.Outside(s.loops[l])
    ensures t.running && M.Live(t) == M.Live(M.Step(s, M.Close)) + 1 >= 2
  {
    var closed := M.Step(s, M.Close);
    M.StepKeepsChannels(s, M.Close);
    assert M.Overlaps(closed, M.Start(false)) by {
      assert M.Outside(closed.loops[l]);
    }
    M.OverlapAdds(closed, M.Start(false));
  }

  class Tasks {
    const monitor: TaskCode.Task
    const report: TaskCode.Task
    var monitorInterval: int
    var reportInterval: int

    constructor ()
      ensures fresh(monitor) && fresh(report) && Valid()
    {
      monitorInterval, reportInterval := 0, 0;
      monitor := new TaskCode.Task();
      report := new TaskCode.Task();
    }

    ghost predicate Valid()
      reads monitor, report
    {
      monitor != report && monitor.Traced() && report.Traced() && !monitor.panicked && !report.panicked
    }

    method Start(node: NodeInfo)
      requires Valid()
      modifies this, monitor, report
      ensures Valid() && monitorInterval == node.pullInterval && reportInterval == node.pushInterval
      ensures monitor.View() == M.Step(old(monitor.View()), M.Start(false))
      ensures report.View() == M.Step(old(report.View()), M.Start(false))
    {
      monitorInterval, reportInterval := node.pullInterval, node.pushInterval;
      monitor.Start(false);
      report.Start(false);
    }

    method Restart(t: TaskCode.Task)
      requires t.Traced() && !t.panicked
      modifies t
      ensures t.Traced() && !t.panicked && Restarted(old(t.View()), t.View())
      ensures t.running && t.stop == |old(t.closed)| && t.stop < |t.closed| && !t.closed[t.stop]
      ensures t.loops == old(t.loops) + [M.Spawned(false)]
      ensures forall c :: 0 <= c < t.stop ==> t.closed[c]
    {
      M.StepKeepsChannels(t.View(), M.Close);
      t.Close();
      t.Start(false);
    }

    /** What a changed node does to the tasks. */
    twostate predicate Renewed(node: NodeInfo)
      reads this, monitor, report
    {
      var (m, r) := (NextMonitor(old(monitorInterval), node), NextReport(old(reportInterval), node));
      && monitorInterval == m.0 && reportInterval == r.0
      && (if m.1 then Restarted(old(monitor.View()), monitor.View()) else monitor.View() == old(monitor.View()))
      && (if r.1 then Restarted(old(report.View()), report.View()) else report.View() == old(report.View()))
    }

    method Renew(node: NodeInfo)
      requires Valid()
      modifies this, monitor, report
      ensures Valid() && Renewed(node)
      ensures monitorInterval == if node.pullInterval == 0 then old(monitorInterval) else node.pullInterval
      ensures reportInterval == if node.pushInterval == 0 || node.pushInterval == old(reportInterval) then
                                  old(reportInterval)
                                else node.pullInterval
    {
      if monitorInterval != node.pullInterval && node.pullInterval != 0 {
        monitorInterval := node.pullInterval;
        Restart(monitor);
      }
      if reportInterval != node.pushInterval && node.pushInterval != 0 {
        reportInterval := node.pullInterval;
        Restart(report);
      }
    }

    method RenewIf(placed: bool, p: Pull)
      requires Valid() && (placed ==> p.node.Some?)
      modifies this, monitor, report
      ensures Valid()
      ensures if placed then Renewed(p.node.value)
              else
                && monitorInterval == old(monitorInterval) && reportInterval == old(reportInterval)
                && unchanged(monitor) && unchanged(report)
    {
      if placed {
        Renew(p.node.value);
      }
    }

    /** The whole tick: what it does to the users, and then to the tasks if a changed node is
        up again. */
    method NodeInfoMonitor(c: Controller, p: Pull, ghost rules: Rules) returns (placed: bool)
      requires Valid() && c.core.Valid() && c.limiter != null
      modifies this, monitor, report, c, c.limiter, c.registry, c.core, c.core.managers.Values
      ensures Valid() && c.core.Valid() && c.limiter != null
      ensures placed ==> !p.failed && p.node.Some?
      ensures !p.failed && p.node.Some? && Accepted(p) ==> placed
      ensures Delivers(p) && old(c.InSync(rules)) && ProperPull(p, rules) ==>
                && c.userList == p.users.value && c.tag in c.core.inbounds
                && c.core.inbounds[c.tag] == Tags(c.tag, p.users.value)
      ensures Accepted(p) && old(c.Up()) ==> c.Up() && c.userList == NextUsers(p, old(c.userList))
      ensures if placed then Renewed(p.node.value)
              else
                && monitorInterval == old(monitorInterval) && reportInterval == old(reportInterval)
                && unchanged(monitor) && unchanged(report)
    {
      ghost var deleted, added;
      placed, deleted, added := c.NodeInfoMonitor(p, rules);
      RenewIf(placed, p);
    }
  }
}
