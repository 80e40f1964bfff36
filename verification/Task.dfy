/** The periodic task of common/task/task.go as a state machine: Start, Close and the loop
    goroutines interleave at their critical sections and channel operations. A channel is
    its index; `closed[c]` says whether channel c is closed. */
module Task {
  /** Where a loop goroutine stands. */
  datatype Loop =
    | Spawned(first: bool)   // created by Start, not yet running
    | Ready                  // about to read t.stop and enter the select
    | Selecting(ch: nat)     // waiting for the timer or for channel ch
    | Executing              // inside Execute
    | Gone

  /** `stop` is the channel in t.stop, meaningful once a channel was made. `panicked` is
      set by closing a closed channel; nothing happens afterwards. */
  datatype State = State(running: bool, stop: nat, closed: seq<bool>, loops: seq<Loop>, panicked: bool)

  const INIT := State(false, 0, [], [], false)

  datatype Event =
    | Start(first: bool)
    | Close
    | Begin(l: nat)                 // a spawned loop takes its first step
    | Enter(l: nat)                 // reads t.stop and enters the select
    | Timer(l: nat)                 // the timer wins the select
    | Stopped(l: nat)               // the closed channel wins the select
    | Return(l: nat, failed: bool)  // Execute returns

  predicate Is(s: State, l: nat, p: Loop) {
    l < |s.loops| && s.loops[l] == p
  }

  predicate Enabled(s: State, e: Event) {
    && !s.panicked
    && match e
       case Start(_) => true
       case Close => true
       case Begin(l) => l < |s.loops| && s.loops[l].Spawned?
       case Enter(l) => Is(s, l, Ready) && s.closed != []
       case Timer(l) => l < |s.loops| && s.loops[l].Selecting?
       case Stopped(l) =>
         && l < |s.loops| && s.loops[l].Selecting?
         && s.loops[l].ch < |s.closed| && s.closed[s.loops[l].ch]
       case Return(l, _) => Is(s, l, Executing)
  }

  /** close(t.stop): a second close of one channel is a panic, and so is closing nil. */
  function CloseStop(s: State): State {
    if s.stop < |s.closed| && !s.closed[s.stop] then s.(closed := s.closed[s.stop := true]) else s.(panicked := true)
  }

  function Step(s: State, e: Event): State
    requires Enabled(s, e)
  {
    match e
    case Start(first) =>
      if s.running then s
      else State(true, |s.closed|, s.closed + [false], s.loops + [Spawned(first)], s.panicked)
    case Close => if s.running then CloseStop(s.(running := false)) else s
    case Begin(l) => s.(loops := s.loops[l := if s.loops[l].first then Executing else Ready])
    case Enter(l) => s.(loops := s.loops[l := Selecting(s.stop)])
    case Timer(l) => s.(loops := s.loops[l := Executing])
    case Stopped(l) => s.(loops := s.loops[l := Gone])
    case Return(l, failed) =>
      if failed then CloseStop(s.(running := false, loops := s.loops[l := Gone]))
      else s.(loops := s.loops[l := Ready])
  }

  predicate CanRun(s: State, es: seq<Event>)
    decreases |es|
  {
    es != [] ==> Enabled(s, es[0]) && CanRun(Step(s, es[0]), es[1..])
  }

  function Run(s: State, es: seq<Event>): State
    requires CanRun(s, es)
    decreases |es|
  {
    if es == [] then s else Run(Step(s, es[0]), es[1..])
  }

  // ----- the stop channel

  /** `running` says whether the current channel is open; all others are closed. */
  ghost predicate Consistent(s: State) {
    && (s.closed != [] ==> s.stop == |s.closed| - 1)
    && (s.running <==> s.closed != [] && !s.closed[s.stop])
    && (forall c :: 0 <= c < |s.closed| && c != s.stop ==> s.closed[c])
    && (s.loops != [] ==> s.closed != [])
    && (forall l :: 0 <= l < |s.loops| && s.loops[l].Selecting? ==> s.loops[l].ch < |s.closed|)
  }

  /** One step keeps the channels consistent, and it panics exactly when an Execute fails
      after the task was already stopped. */
  lemma StepKeepsChannels(s: State, e: Event)
    requires Consistent(s) && Enabled(s, e)
    ensures Consistent(Step(s, e))
    ensures Step(s, e).panicked <==> e.Return? && e.failed && !s.running
  {
  }

  lemma {:induction false} RunKeepsChannels(s: State, es: seq<Event>)
    requires Consistent(s) && CanRun(s, es)
    ensures Consistent(Run(s, es))
    decreases |es|
  {
    if es != [] {
      StepKeepsChannels(s, es[0]);
      RunKeepsChannels(Step(s, es[0]), es[1..]);
    }
  }

  /** In every interleaving, `running` is true exactly when the current stop channel is
      open, and every superseded channel is closed. */
  lemma ChannelsStayConsistent(es: seq<Event>)
    requires CanRun(INIT, es)
    ensures var s := Run(INIT, es);
            && (s.running <==> s.stop < |s.closed| && !s.closed[s.stop])
            && (forall c :: 0 <= c < |s.closed| && c != s.stop ==> s.closed[c])
  {
    RunKeepsChannels(INIT, es);
  }

  /** With an Execute that never fails, as all of the node's are, nothing ever panics. */
  lemma {:induction false} NeverFailingNeverPanics(s: State, es: seq<Event>)
    requires Consistent(s) && !s.panicked && CanRun(s, es)
    requires forall k :: 0 <= k < |es| ==> !(es[k].Return? && es[k].failed)
    ensures !Run(s, es).panicked
    decreases |es|
  {
    if es != [] {
      StepKeepsChannels(s, es[0]);
      NeverFailingNeverPanics(Step(s, es[0]), es[1..]);
    }
  }

  // ----- how many loops run

  /** The loop will call Execute again, or is in it. */
  predicate Active(s: State, p: Loop) {
    match p
    case Gone => false
    case Selecting(ch) => ch < |s.closed| && !s.closed[ch]
    case _ => true
  }

  /** The loop is outside its select. */
  predicate Outside(p: Loop) { !p.Gone? && !p.Selecting? }

  function ActiveCount(s: State, n: nat): nat
    requires n <= |s.loops|
  {
    if n == 0 then 0 else ActiveCount(s, n - 1) + if Active(s, s.loops[n - 1]) then 1 else 0
  }

  function Live(s: State): nat { ActiveCount(s, |s.loops|) }

  /** An effective Start while some loop is outside its select. */
  predicate Overlaps(s: State, e: Event) {
    e.Start? && !s.running && exists l :: 0 <= l < |s.loops| && Outside(s.loops[l])
  }

  function Overlapping(s: State, es: seq<Event>): nat
    requires CanRun(s, es)
    decreases |es|
  {
    if es == [] then 0 else (if Overlaps(s, es[0]) then 1 else 0) + Overlapping(Step(s, es[0]), es[1..])
  }

  /** A closed stop channel always wins the select. */
  predicate Polite(s: State, es: seq<Event>)
    requires CanRun(s, es)
    decreases |es|
  {
    es != [] ==>
      && (es[0].Timer? ==> Active(s, s.loops[es[0].l]))
      && Polite(Step(s, es[0]), es[1..])
  }

  lemma {:induction false} CountMonotone(s: State, s': State, n: nat)
    requires n <= |s.loops| && n <= |s'.loops|
    requires forall l :: 0 <= l < n && Active(s', s'.loops[l]) ==> Active(s, s.loops[l])
    ensures ActiveCount(s', n) <= ActiveCount(s, n)
  {
    if n > 0 {
      CountMonotone(s, s', n - 1);
    }
  }

  lemma {:induction false} NoneOutside(s: State, n: nat)
    requires n <= |s.loops| && Consistent(s) && !s.running
    requires forall l :: 0 <= l < n ==> !Outside(s.loops[l])
    ensures ActiveCount(s, n) == 0
  {
    if n > 0 {
      NoneOutside(s, n - 1);
    }
  }

  lemma {:induction false} CountsLoop(s: State, n: nat, l: nat)
    requires l < n <= |s.loops| && Active(s, s.loops[l])
    ensures ActiveCount(s, n) >= 1
  {
    if l < n - 1 {
      CountsLoop(s, n - 1, l);
    }
  }

  /** An overlapping Start adds a live loop beside one that is live. */
  lemma OverlapAdds(s: State, e: Event)
    requires Consistent(s) && Enabled(s, e) && Overlaps(s, e)
    ensures Live(Step(s, e)) == Live(s) + 1 >= 2
  {
    var s' := Step(s, e);
    CountMonotone(s, s', |s.loops|);
    CountMonotone(s', s, |s.loops|);
    var l :| 0 <= l < |s.loops| && Outside(s.loops[l]);
    CountsLoop(s, |s.loops|, l);
  }

  lemma StepCounts(s: State, e: Event)
    requires Consistent(s) && Enabled(s, e) && (e.Timer? ==> Active(s, s.loops[e.l]))
    ensures Overlaps(s, e) ==> Live(Step(s, e)) == Live(s) + 1 >= 2
    ensures !Overlaps(s, e) ==> Live(Step(s, e)) <= if e.Start? && !s.running then 1 else Live(s)
  {
    var s' := Step(s, e);
    StepKeepsChannels(s, e);
    if Overlaps(s, e) {
      OverlapAdds(s, e);
    } else {
      CountMonotone(s, s', |s.loops|);
      if e.Start? && !s.running {
        NoneOutside(s, |s.loops|);
      }
    }
  }

  /** There is never more than one live loop. */
  ghost predicate StaysSingle(s: State, es: seq<Event>)
    requires CanRun(s, es)
    decreases |es|
  {
    Live(s) <= 1 && (es != [] ==> StaysSingle(Step(s, es[0]), es[1..]))
  }

  /** A run keeps to one live loop exactly when no effective Start is made while some loop
      is outside its select. */
  lemma {:induction false} SingleUnlessOverlap(s: State, es: seq<Event>)
    requires Consistent(s) && CanRun(s, es) && Polite(s, es) && Live(s) <= 1
    ensures StaysSingle(s, es) <==> Overlapping(s, es) == 0
    decreases |es|
  {
    if es != [] {
      StepKeepsChannels(s, es[0]);
      StepCounts(s, es[0]);
      if !Overlaps(s, es[0]) {
        SingleUnlessOverlap(Step(s, es[0]), es[1..]);
      }
    }
  }

  /** Loops that execute, are about to, or wait on the open channel never outnumber one plus
      the effective Starts made while some loop was outside its select. */
  lemma {:induction false} LoopsAreBounded(s: State, es: seq<Event>, k: nat)
    requires Consistent(s) && CanRun(s, es) && Polite(s, es) && Live(s) <= 1 + k
    ensures Live(Run(s, es)) <= 1 + k + Overlapping(s, es)
    decreases |es|
  {
    if es != [] {
      StepKeepsChannels(s, es[0]);
      StepCounts(s, es[0]);
      LoopsAreBounded(Step(s, es[0]), es[1..], k + if Overlaps(s, es[0]) then 1 else 0);
    }
  }

  lemma LoopsOfRun(es: seq<Event>)
    requires CanRun(INIT, es) && Polite(INIT, es)
    ensures Live(Run(INIT, es)) <= 1 + Overlapping(INIT, es)
  {
    LoopsAreBounded(INIT, es, 0);
  }

  // ----- the bound is reached

  /** `es` is a run from `s` to `t` in which closed channels win and `k` Starts overlap. */
  ghost predicate Leads(s: State, es: seq<Event>, t: State, k: nat) {
    CanRun(s, es) && Polite(s, es) && Run(s, es) == t && Overlapping(s, es) == k
  }

  lemma {:induction false} Join(s: State, a: seq<Event>, t: State, j: nat, b: seq<Event>, u: State, k: nat)
    requires Leads(s, a, t, j) && Leads(t, b, u, k)
    ensures Leads(s, a + b, u, j + k)
    decreases |a|
  {
    if a == [] {
      assert a + b == b;
    } else {
      assert (a + b)[1..] == a[1..] + b;
      Join(Step(s, a[0]), a[1..], t, j - if Overlaps(s, a[0]) then 1 else 0, b, u, k);
    }
  }

  lemma Single(s: State, e: Event)
    requires Enabled(s, e) && (e.Timer? ==> Active(s, s.loops[e.l]))
    ensures Leads(s, [e], Step(s, e), if Overlaps(s, e) then 1 else 0)
  {
    assert [e][1..] == [];
  }

  /** One event for each loop from `l` to `n`. */
  datatype Sweep = Timers | Returns | Enters {
    function Of(l: nat): Event { if Timers? then Timer(l) else if Returns? then Return(l, false) else Enter(l) }

    function From(stop: nat): Loop { if Timers? then Selecting(stop) else if Returns? then Executing else Ready }

    function To(stop: nat): Loop { if Timers? then Executing else if Returns? then Ready else Selecting(stop) }

    function Events(l: nat, n: nat): seq<Event>
      decreases n - l
    {
      if l >= n then [] else [Of(l)] + Events(l + 1, n)
    }
  }

  lemma {:induction false} SweepLeads(w: Sweep, s: State, l: nat, n: nat, t: State)
    requires !s.panicked && s.stop < |s.closed| && !s.closed[s.stop] && l <= n <= |s.loops| == |t.loops|
    requires forall j :: 0 <= j < |s.loops| && !(l <= j < n) ==> s.loops[j] == t.loops[j]
    requires forall j :: l <= j < n ==> s.loops[j] == w.From(s.stop) && t.loops[j] == w.To(s.stop)
    requires t == s.(loops := t.loops)
    ensures Leads(s, w.Events(l, n), t, 0)
    decreases n - l
  {
    if l < n {
      var s' := Step(s, w.Of(l));
      assert s' == s.(loops := s.loops[l := w.To(s.stop)]);
      SweepLeads(w, s', l + 1, n, t);
    } else {
      assert s.loops == t.loops;
    }
  }

  /** `n` loops, all waiting on the open channel, the last of `c + 1` made. */
  function Waiting(n: nat, c: nat): State {
    State(true, c, seq(c + 1, i => i < c), seq(n, _ => Selecting(c)), false)
  }

  /** The `n` loops in Execute, one of which calls Close and Start; the new loop begins. */
  lemma RestartOpens(n: nat, c: nat) returns (es: seq<Event>)
    requires n > 0
    ensures Leads(Waiting(n, c).(loops := seq(n, _ => Executing)), es,
                  Waiting(n + 1, c + 1).(loops := seq(n, _ => Executing) + [Ready]), 1)
  {
    var s1 := Waiting(n, c).(loops := seq(n, _ => Executing));
    var s2 := Step(s1, Close);
    var s3 := Step(s2, Start(false));
    assert s3.loops == s1.loops + [Spawned(false)] && s3.stop == c + 1;
    assert s3.closed == Waiting(n + 1, c + 1).closed;
    assert Step(s3, Begin(n)).loops == s1.loops + [Ready];
    assert Outside(s2.loops[0]);
    Single(s3, Begin(n));
    Single(s2, Start(false));
    Single(s1, Close);
    Join(s2, [Start(false)], s3, 1, [Begin(n)], Step(s3, Begin(n)), 0);
    Join(s1, [Close], s2, 0, [Start(false)] + [Begin(n)], Step(s3, Begin(n)), 1);
    es := [Close] + ([Start(false)] + [Begin(n)]);
  }

  /** Then every loop goes back to its select, on the new channel. */
  lemma RestartCloses(n: nat, c: nat) returns (es: seq<Event>)
    ensures Leads(Waiting(n + 1, c + 1).(loops := seq(n, _ => Executing) + [Ready]), es, Waiting(n + 1, c + 1), 0)
  {
    var t := Waiting(n + 1, c + 1);
    var s4 := t.(loops := seq(n, _ => Executing) + [Ready]);
    var s5 := t.(loops := seq(n + 1, _ => Ready));
    SweepLeads(Returns, s4, 0, n, s5);
    SweepLeads(Enters, s5, 0, n + 1, t);
    Join(s4, Returns.Events(0, n), s5, 0, Enters.Events(0, n + 1), t, 0);
    es := Returns.Events(0, n) + Enters.Events(0, n + 1);
  }

  /** When all waiting loops run at once and one Execute calls Close and Start, as
      nodeInfoMonitor does on a changed interval, the old loops all go on beside the new one. */
  lemma RestartAddsLoop(n: nat, c: nat) returns (es: seq<Event>)
    requires n > 0
    ensures Leads(Waiting(n, c), es, Waiting(n + 1, c + 1), 1)
  {
    var s1 := Waiting(n, c).(loops := seq(n, _ => Executing));
    var s4 := Waiting(n + 1, c + 1).(loops := seq(n, _ => Executing) + [Ready]);
    SweepLeads(Timers, Waiting(n, c), 0, n, s1);
    var opening := RestartOpens(n, c);
    var closing := RestartCloses(n, c);
    Join(s1, opening, s4, 1, closing, Waiting(n + 1, c + 1), 0);
    Join(Waiting(n, c), Timers.Events(0, n), s1, 0, opening + closing, Waiting(n + 1, c + 1), 1);
    es := Timers.Events(0, n) + (opening + closing);
  }

  lemma {:induction false} WaitingCount(n: nat, c: nat, m: nat)
    requires m <= n
    ensures ActiveCount(Waiting(n, c), m) == m
  {
    if m > 0 {
      WaitingCount(n, c, m - 1);
    }
  }

  /** For every `n` some run with `n` overlapping Starts ends with `n + 1` live loops. */
  lemma {:induction false} BoundIsReached(n: nat) returns (es: seq<Event>)
    ensures CanRun(INIT, es) && Polite(INIT, es) && Overlapping(INIT, es) == n && Live(Run(INIT, es)) == n + 1
    ensures Run(INIT, es) == Waiting(n + 1, n)
  {
    if n == 0 {
      es := [Start(false), Begin(0), Enter(0)];
      var s1 := Step(INIT, Start(false));
      var s2 := Step(s1, Begin(0));
      assert es[1..] == [Begin(0), Enter(0)] && es[1..][1..] == [Enter(0)];
      assert Step(s2, Enter(0)) == Waiting(1, 0);
    } else {
      var first := BoundIsReached(n - 1);
      var second := RestartAddsLoop(n, n - 1);
      Join(INIT, first, Waiting(n, n - 1), n - 1, second, Waiting(n + 1, n), 1);
      es := first + second;
    }
    WaitingCount(n + 1, n, n + 1);
  }
}
