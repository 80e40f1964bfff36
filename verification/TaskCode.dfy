/** The code of common/task/task.go: Start and Close, and the goroutine of Start with anything
    that callers and other goroutines do between two of its operations. Its runs are runs of
    the machine in module Task. */
module TaskCode {
  import M = Task

  /** One turn of the goroutine's loop: what others do before it enters the select, while it
      waits there and during Execute (which may itself call Close and Start), which branch
      the select takes if both are ready, and whether Execute fails. */
  datatype Turn = Turn(beforeSelect: seq<M.Event>, waiting: seq<M.Event>, timer: bool, during: seq<M.Event>,
                       failed: bool)

  /** A step of the goroutine `me` itself. */
  predicate Own(e: M.Event, me: nat) {
    match e
    case Start(_) => false
    case Close => false
    case Begin(l) => l == me
    case Enter(l) => l == me
    case Timer(l) => l == me
    case Stopped(l) => l == me
    case Return(l, _) => l == me
  }

  ghost predicate Others(es: seq<M.Event>, me: nat) {
    forall i :: 0 <= i < |es| ==> !Own(es[i], me)
  }

  /** The steps of the goroutine `me` in a trace. */
  function Mine(es: seq<M.Event>, me: nat): seq<M.Event> {
    if es == [] then []
    else Mine(es[..|es| - 1], me) + if Own(es[|es| - 1], me) then [es[|es| - 1]] else []
  }

  lemma MineSnoc(es: seq<M.Event>, e: M.Event, me: nat)
    ensures Mine(es + [e], me) == Mine(es, me) + if Own(e, me) then [e] else []
  {
    assert (es + [e])[..|es|] == es;
  }

  /** What the goroutine does in its loop: a select in each turn, and an Execute in each turn
      that the timer wins, up to the first turn that the channel wins or whose Execute fails. */
  function Turns(me: nat, turns: seq<Turn>): seq<M.Event> {
    if turns == [] then []
    else if !turns[0].timer then [M.Enter(me)]
    else
      [M.Enter(me), M.Timer(me), M.Return(me, turns[0].failed)]
      + if turns[0].failed then [] else Turns(me, turns[1..])
  }

  /** All of it, but for the step that leaves by the channel. */
  function Script(me: nat, first: bool, failed: bool, turns: seq<Turn>): seq<M.Event> {
    [M.Begin(me)] + (if first then [M.Return(me, failed)] else [])
    + (if first && failed then [] else Turns(me, turns))
  }

  /** The loop comes to a turn that the timer does not win. */
  predicate Waits(turns: seq<Turn>) {
    turns != [] && (!turns[0].timer || (!turns[0].failed && Waits(turns[1..])))
  }

  /** The turns that the timer wins before the loop ends. */
  function Fired(turns: seq<Turn>): nat {
    if turns == [] || !turns[0].timer then 0 else 1 + if turns[0].failed then 0 else Fired(turns[1..])
  }

  function Returns(es: seq<M.Event>): nat {
    if es == [] then 0 else (if es[0].Return? then 1 else 0) + Returns(es[1..])
  }

  /** Execute runs once for each turn that the timer wins, and once more if it runs first. */
  lemma ExecutesPerTurn(me: nat, first: bool, failed: bool, turns: seq<Turn>)
    ensures Returns(Script(me, first, failed, turns)) ==
            (if first then 1 else 0) + if first && failed then 0 else Fired(turns)
  {
    FiredReturns(me, turns);
    var more := if first && failed then [] else Turns(me, turns);
    var once := if first then [M.Return(me, failed)] else [];
    assert Script(me, first, failed, turns) == ([M.Begin(me)] + once) + more;
    ReturnsJoin([M.Begin(me)] + once, more);
    ReturnsJoin([M.Begin(me)], once);
    ReturnsOf(M.Begin(me));
    ReturnsOf(M.Return(me, failed));
  }

  lemma {:induction false} FiredReturns(me: nat, turns: seq<Turn>)
    ensures Returns(Turns(me, turns)) == Fired(turns)
  {
    if turns != [] && turns[0].timer {
      var head := [M.Enter(me), M.Timer(me), M.Return(me, turns[0].failed)];
      var rest := if turns[0].failed then [] else Turns(me, turns[1..]);
      FiredReturns(me, turns[1..]);
      ReturnsJoin(head, rest);
      assert Turns(me, turns) == head + rest;
      assert head == [M.Enter(me)] + ([M.Timer(me)] + [M.Return(me, turns[0].failed)]);
      ReturnsJoin([M.Enter(me)], [M.Timer(me)] + [M.Return(me, turns[0].failed)]);
      ReturnsJoin([M.Timer(me)], [M.Return(me, turns[0].failed)]);
      ReturnsOf(M.Enter(me));
      ReturnsOf(M.Timer(me));
      ReturnsOf(M.Return(me, turns[0].failed));
    } else if turns != [] {
      ReturnsOf(M.Enter(me));
    }
  }

  lemma ReturnsOf(e: M.Event)
    ensures Returns([e]) == if e.Return? then 1 else 0
  {
    assert [e][1..] == [];
  }

  lemma {:induction false} ReturnsJoin(xs: seq<M.Event>, ys: seq<M.Event>)
    ensures Returns(xs + ys) == Returns(xs) + Returns(ys)
  {
    if xs == [] {
      assert xs + ys == ys;
    } else {
      assert (xs + ys)[1..] == xs[1..] + ys;
      ReturnsJoin(xs[1..], ys);
    }
  }

  class Task {
    var running: bool
    var stop: nat               // the channel in t.stop
    var closed: seq<bool>       // every channel ever made
    var loops: seq<M.Loop>      // where every goroutine ever started is
    var panicked: bool
    ghost var trace: seq<M.Event>

    constructor ()
      ensures Traced() && View() == M.INIT && trace == []
    {
      running, stop, closed, loops, panicked, trace := false, 0, [], [], false, [];
    }

    ghost function View(): M.State
      reads this
    {
      M.State(running, stop, closed, loops, panicked)
    }

    /** The fields are those that the machine reaches by the trace. */
    ghost predicate Traced()
      reads this
    {
      RunsTo(M.INIT, trace, View()) && M.Consistent(View())
    }

    ghost method Happened(before: M.State, e: M.Event)
      requires RunsTo(M.INIT, trace, before) && M.Consistent(before) && M.Enabled(before, e)
      requires View() == M.Step(before, e)
      modifies this`trace
      ensures Traced() && trace == old(trace) + [e]
      ensures forall me :: Mine(trace, me) == Mine(old(trace), me) + if Own(e, me) then [e] else []
    {
      forall me ensures Mine(trace + [e], me) == Mine(trace, me) + if Own(e, me) then [e] else [] {
        MineSnoc(trace, e, me);
      }
      M.StepKeepsChannels(before, e);
      RunSnoc(M.INIT, trace, before, e);
      trace := trace + [e];
    }

    method Start(first: bool)
      requires Traced() && !panicked
      modifies this
      ensures Traced() && View() == M.Step(old(View()), M.Start(first))
      ensures running && !panicked
      ensures if old(running) then stop == old(stop) && closed == old(closed) && loops == old(loops)
              else stop == |old(closed)| && closed == old(closed) + [false] && loops == old(loops) + [M.Spawned(first)]
    {
      ghost var s := View();
      if !running {
        running := true;
        stop := |closed|;
        closed := closed + [false];
        loops := loops + [M.Spawned(first)];
      }
      Happened(s, M.Start(first));
    }

    method Close()
      requires Traced() && !panicked
      modifies this
      ensures Traced() && View() == M.Step(old(View()), M.Close)
      ensures !running && !panicked && stop == old(stop) && loops == old(loops)
      ensures if old(running) then stop < |old(closed)| && !old(closed)[stop] && closed == old(closed)[stop := true]
              else closed == old(closed)
    {
      ghost var s := View();
      if running {
        running := false;
        CloseStop();
      }
      Happened(s, M.Close);
    }

    method CloseStop()
      modifies this`closed, this`panicked
      ensures View() == M.CloseStop(old(View())) && trace == old(trace)
    {
      if stop < |closed| && !closed[stop] {
        closed := closed[stop := true];
      } else {
        panicked := true;
      }
    }

    /** What others do, as far as it can happen: all of it, if it can be run. */
    method Interfere(me: nat, es: seq<M.Event>)
      requires Traced() && me < |loops|
      modifies this
      ensures Traced() && |loops| >= |old(loops)| && loops[me] == old(loops[me])
      ensures Mine(trace, me) == Mine(old(trace), me)
      ensures Others(es, me) && M.CanRun(old(View()), es) ==>
                trace == old(trace) + es && View() == M.Run(old(View()), es)
    {
      ghost var all := Others(es, me) && M.CanRun(View(), es);
      for i := 0 to |es|
        invariant Traced() && |loops| >= |old(loops)| && loops[me] == old(loops[me])
        invariant Mine(trace, me) == Mine(old(trace), me)
        invariant all ==> trace == old(trace) + es[..i] && M.CanRun(View(), es[i..])
        invariant all ==> M.Run(View(), es[i..]) == M.Run(old(View()), es)
      {
        assert es[i..][1..] == es[i + 1..];
        Other(me, es[i]);
      }
      assert es[|es|..] == [];
    }

    method Other(me: nat, e: M.Event)
      requires Traced() && me < |loops|
      modifies this
      ensures Traced() && |loops| >= |old(loops)| && loops[me] == old(loops[me])
      ensures Mine(trace, me) == Mine(old(trace), me)
      ensures !Own(e, me) && M.Enabled(old(View()), e) ==>
                trace == old(trace) + [e] && View() == M.Step(old(View()), e)
    {
      var before := M.State(running, stop, closed, loops, panicked);
      if !Own(e, me) && M.Enabled(before, e) {
        var s := M.Step(before, e);
        running, stop, closed, loops, panicked := s.running, s.stop, s.closed, s.loops, s.panicked;
        Happened(before, e);
      }
    }

    /** The goroutine's first step. */
    method Begin(me: nat) returns (first: bool)
      requires Traced() && !panicked && me < |loops| && loops[me].Spawned?
      modifies this`loops, this`trace
      ensures Traced() && first == old(loops[me]).first
      ensures loops == old(loops)[me := if first then M.Executing else M.Ready]
      ensures Mine(trace, me) == Mine(old(trace), me) + [M.Begin(me)]
    {
      ghost var s := View();
      first := loops[me].first;
      loops := loops[me := if first then M.Executing else M.Ready];
      Happened(s, M.Begin(me));
    }

    /** The goroutine reads the channel and waits. */
    method Enter(me: nat) returns (ch: nat)
      requires Traced() && !panicked && M.Is(View(), me, M.Ready)
      modifies this`loops, this`trace
      ensures Traced() && ch == stop && loops == old(loops)[me := M.Selecting(ch)]
      ensures Mine(trace, me) == Mine(old(trace), me) + [M.Enter(me)]
    {
      ghost var s := View();
      ch := stop;
      loops := loops[me := M.Selecting(ch)];
      Happened(s, M.Enter(me));
    }

    /** The select; without the timer the goroutine leaves exactly when the channel that it has
        read is closed. */
    method Select(me: nat, ch: nat, timer: bool)
      requires Traced() && !panicked && me < |loops| && loops[me] == M.Selecting(ch)
      modifies this`loops, this`trace
      ensures Traced() && ch < |closed|
      ensures loops == if timer then old(loops)[me := M.Executing]
                       else if closed[ch] then old(loops)[me := M.Gone] else old(loops)
      ensures Mine(trace, me) == Mine(old(trace), me)
                                 + if timer then [M.Timer(me)] else if closed[ch] then [M.Stopped(me)] else []
    {
      ghost var s := View();
      if timer {
        loops := loops[me := M.Executing];
        Happened(s, M.Timer(me));
      } else if closed[ch] {
        loops := loops[me := M.Gone];
        Happened(s, M.Stopped(me));
      }
    }

    /** One call of Execute and what follows its return; `again` says that the goroutine goes
        on, as it does unless Execute fails. Then the goroutine has left, the task is stopped
        and its channel is closed. Nothing happens after a panic. */
    method RunExecute(me: nat, during: seq<M.Event>, failed: bool) returns (again: bool)
      requires Traced() && M.Is(View(), me, M.Executing)
      modifies this
      ensures Traced() && |loops| >= |old(loops)| && (again <==> !failed && !panicked)
      ensures again ==> M.Is(View(), me, M.Ready)
      ensures failed && !panicked ==> loops[me].Gone? && !running && stop < |closed| && closed[stop]
      ensures !panicked ==> Mine(trace, me) == Mine(old(trace), me) + [M.Return(me, failed)]
    {
      Interfere(me, during);
      if panicked {
        return false;
      }
      Return(me, failed);
      again := !failed;
    }

    /** A failed Execute stops the task and closes its channel; if the task was stopped before,
        that is a panic. Another one changes nothing but where the goroutine stands. */
    method Return(me: nat, failed: bool)
      requires Traced() && !panicked && M.Is(View(), me, M.Executing)
      modifies this
      ensures Traced() && stop == old(stop) && loops == old(loops)[me := if failed then M.Gone else M.Ready]
      ensures !failed ==> running == old(running) && closed == old(closed) && !panicked
      ensures failed ==> !running && (panicked <==> !old(running))
      ensures failed && old(running) ==> stop < |closed| && closed == old(closed)[stop := true]
      ensures Mine(trace, me) == Mine(old(trace), me) + [M.Return(me, failed)]
    {
      ghost var s := View();
      if failed {
        running := false;
        loops := loops[me := M.Gone];
        CloseStop();
      } else {
        loops := loops[me := M.Ready];
      }
      Happened(s, M.Return(me, failed));
    }

    /** One turn of the loop. */
    method Turn(me: nat, turn: Turn) returns (again: bool)
      requires Traced() && !panicked && M.Is(View(), me, M.Ready)
      modifies this
      ensures Traced() && |loops| >= |old(loops)| && (again <==> turn.timer && !turn.failed && !panicked)
      ensures again ==> M.Is(View(), me, M.Ready)
      ensures panicked || again || loops[me].Gone? || loops[me].Selecting?
      ensures !panicked && turn.timer && turn.failed ==> loops[me].Gone? && !running
      ensures !panicked && turn.timer ==>
                Mine(trace, me) == Mine(old(trace), me) + [M.Enter(me), M.Timer(me), M.Return(me, turn.failed)]
      ensures !panicked && !turn.timer ==> Left(me, Mine(old(trace), me) + [M.Enter(me)])
    {
      Interfere(me, turn.beforeSelect);
      if panicked {
        return false;
      }
      var ch := Enter(me);
      Interfere(me, turn.waiting);
      if panicked {
        return false;
      }
      Select(me, ch, turn.timer);
      again := false;
      if turn.timer {
        again := RunExecute(me, turn.during, turn.failed);
      }
    }

    /** After these steps the goroutine still waits for an open channel, or has left by a closed
        one. */
    ghost predicate Left(me: nat, steps: seq<M.Event>)
      reads this
    {
      && me < |loops|
      && if loops[me].Selecting? then
           loops[me].ch < |closed| && !closed[loops[me].ch] && Mine(trace, me) == steps
         else
           loops[me].Gone? && Mine(trace, me) == steps + [M.Stopped(me)]
    }

    /** The goroutine's loop. */
    method Loop(me: nat, turns: seq<Turn>)
      requires Traced() && !panicked && M.Is(View(), me, M.Ready)
      modifies this
      ensures Traced() && me < |loops|
      ensures panicked || loops[me] in {M.Ready, M.Gone} || loops[me].Selecting?
      ensures !panicked && !Waits(turns) ==> Mine(trace, me) == Mine(old(trace), me) + Turns(me, turns)
      ensures !panicked && Waits(turns) ==> Left(me, Mine(old(trace), me) + Turns(me, turns))
    {
      ghost var mine := Mine(trace, me);
      for i := 0 to |turns|
        invariant Traced() && !panicked && M.Is(View(), me, M.Ready)
        invariant Mine(trace, me) + Turns(me, turns[i..]) == mine + Turns(me, turns)
        invariant Waits(turns[i..]) == Waits(turns)
      {
        TurnsAt(me, turns, i, Mine(trace, me));
        var again := Turn(me, turns[i]);
        if !again {
          return;
        }
      }
      assert turns[|turns|..] == [];
    }

    /** The goroutine that Start makes, up to the end of the script: it is still waiting then,
        has left, or the process has panicked. Without a panic it took just the steps that the
        script asks for. */
    method Goroutine(me: nat, beforeBegin: seq<M.Event>, during: seq<M.Event>, failed: bool, turns: seq<Turn>)
      requires Traced() && me < |loops| && loops[me].Spawned?
      modifies this
      ensures Traced() && me < |loops| && (panicked || loops[me] in {M.Ready, M.Gone} || loops[me].Selecting?)
      ensures var first := old(loops[me]).first;
              var steps := Mine(old(trace), me) + Script(me, first, failed, turns);
              && (!panicked && ((first && failed) || !Waits(turns)) ==> Mine(trace, me) == steps)
              && (!panicked && !(first && failed) && Waits(turns) ==> Left(me, steps))
    {
      Interfere(me, beforeBegin);
      if panicked {
        return;
      }
      ghost var mine, first := Mine(trace, me), loops[me].first;
      var again := Open(me, during, failed);
      ScriptIs(mine, me, first, failed, turns);
      if again {
        Loop(me, turns);
      }
    }

    /** The goroutine's first step, and an Execute if it runs first. */
    method Open(me: nat, during: seq<M.Event>, failed: bool) returns (again: bool)
      requires Traced() && !panicked && me < |loops| && loops[me].Spawned?
      modifies this
      ensures Traced() && |loops| >= |old(loops)|
      ensures again <==> !panicked && !(old(loops[me]).first && failed)
      ensures again ==> M.Is(View(), me, M.Ready)
      ensures !panicked && !again ==> loops[me].Gone?
      ensures !panicked ==>
                Mine(trace, me) ==
                Mine(old(trace), me) + [M.Begin(me)] + if old(loops[me]).first then [M.Return(me, failed)] else []
    {
      again := true;
      var first := Begin(me);
      if first {
        again := RunExecute(me, during, failed);
      }
    }
  }

  lemma TurnsAt(me: nat, turns: seq<Turn>, i: nat, before: seq<M.Event>)
    requires i < |turns|
    ensures var t, steps := turns[i], before + [M.Enter(me), M.Timer(me), M.Return(me, turns[i].failed)];
            && (Waits(turns[i..]) <==> !t.timer || (!t.failed && Waits(turns[i + 1..])))
            && before + Turns(me, turns[i..]) ==
               if !t.timer then before + [M.Enter(me)]
               else if t.failed then steps
               else steps + Turns(me, turns[i + 1..])
  {
    assert turns[i..][1..] == turns[i + 1..];
  }

  lemma ScriptIs(mine: seq<M.Event>, me: nat, first: bool, failed: bool, turns: seq<Turn>)
    ensures mine + Script(me, first, failed, turns) ==
            mine + [M.Begin(me)] + (if first then [M.Return(me, failed)] else [])
            + (if first && failed then [] else Turns(me, turns))
  {
  }

  ghost predicate RunsTo(s: M.State, es: seq<M.Event>, t: M.State) {
    M.CanRun(s, es) && M.Run(s, es) == t
  }

  lemma {:induction false} RunSnoc(s: M.State, es: seq<M.Event>, t: M.State, e: M.Event)
    requires RunsTo(s, es, t) && M.Enabled(t, e)
    ensures RunsTo(s, es + [e], M.Step(t, e))
    decreases |es|
  {
    if es == [] {
      assert ([e])[1..] == [] && es + [e] == [e];
    } else {
      assert (es + [e])[1..] == es[1..] + [e];
      RunSnoc(M.Step(s, es[0]), es[1..], t, e);
    }
  }

  /** So in every state that the code reaches the stop channel is open exactly while the task
      runs, the live loops are bounded, and there has been no panic unless an Execute failed. */
  lemma TracedProperties(es: seq<M.Event>, s: M.State)
    requires RunsTo(M.INIT, es, s)
    ensures s.running <==> s.stop < |s.closed| && !s.closed[s.stop]
    ensures M.Polite(M.INIT, es) ==> M.Live(s) <= 1 + M.Overlapping(M.INIT, es)
    ensures M.Polite(M.INIT, es) ==> (M.StaysSingle(M.INIT, es) <==> M.Overlapping(M.INIT, es) == 0)
    ensures (forall i :: 0 <= i < |es| ==> !(es[i].Return? && es[i].failed)) ==> !s.panicked
  {
    M.ChannelsStayConsistent(es);
    if M.Polite(M.INIT, es) {
      M.LoopsOfRun(es);
      M.SingleUnlessOverlap(M.INIT, es);
    }
    if forall i :: 0 <= i < |es| ==> !(es[i].Return? && es[i].failed) {
      M.NeverFailingNeverPanics(M.INIT, es);
    }
  }
}
