/** CheckLimit of limiter/limiter.go cut at its map operations, for the calls of one user
    between two reports. A refused call that had created the user's entry deletes the whole
    entry, and with it an IP that another call was admitted with meanwhile. The lemmas say
    exactly when an IP that the last report listed stays admitted all the same. */
module LimiterSteps {
  import opened Common

  /** Where a call from `ip` stands; `m` is the inner map it works on, `own` says that it has
      created the user's entry. */
  datatype Call =
    | Fresh(ip: string)
    | Loaded(ip: string, m: nat)                // has found an entry, to store its IP there
    | Stored(ip: string, m: nat, own: bool)     // its IP was new; to look it up in OldUserOnline
    | Matched(ip: string, m: nat)               // found there under this user's uid, to remove it
    | Refused(ip: string, m: nat, own: bool)    // not found, and the user is at the device limit
    | Done(ip: string, admitted: bool)

  /** `entry` is the inner map in UserOnlineIP, `remembered` the IPs in OldUserOnline under this
      user's uid and `foreign` those under another; `full` says that a positive device limit
      is reached. */
  datatype State = State(entry: Option<nat>, inners: seq<set<string>>, remembered: set<string>, foreign: set<string>,
                         full: bool, calls: seq<Call>)

  datatype Event =
    | Call(ip: string)                                             // a new call
    | Step(c: nat)                                                 // one map operation of call c
    | Others(remembered: set<string>, foreign: set<string>)        // calls of other users

  predicate Sane(s: State) {
    && (s.entry.Some? ==> s.entry.value < |s.inners|)
    && forall c :: 0 <= c < |s.calls| ==>
         (s.calls[c].Loaded? || s.calls[c].Stored? || s.calls[c].Matched? || s.calls[c].Refused? ==>
            s.calls[c].m < |s.inners|)
  }

  function Become(s: State, c: nat, call: Call): State
    requires c < |s.calls|
  {
    s.(calls := s.calls[c := call])
  }

  /** One map operation of call `c`. */
  function Advance(s: State, c: nat): State
    requires Sane(s) && c < |s.calls|
  {
    match s.calls[c]
    case Fresh(ip) =>
      if s.entry.None? then
        Become(s.(inners := s.inners + [{ip}], entry := Some(|s.inners|)), c, Stored(ip, |s.inners|, true))
      else Become(s, c, Loaded(ip, s.entry.value))
    case Loaded(ip, m) =>
      if ip in s.inners[m] then Become(s, c, Done(ip, true))
      else Become(s.(inners := s.inners[m := s.inners[m] + {ip}]), c, Stored(ip, m, false))
    case Stored(ip, m, own) =>
      Become(s, c,
             if ip in s.remembered then Matched(ip, m)
             else if ip in s.foreign || !s.full then Done(ip, true)
             else Refused(ip, m, own))
    case Matched(ip, m) => Become(s.(remembered := s.remembered - {ip}), c, Done(ip, true))
    case Refused(ip, m, own) =>
      Become(if own then s.(entry := None) else s.(inners := s.inners[m := s.inners[m] - {ip}]), c, Done(ip, false))
    case Done(_, _) => s
  }

  /** What other users do to the remembered IPs does not concern `b`. */
  predicate Enabled(s: State, e: Event, b: string) {
    match e
    case Call(_) => true
    case Step(c) => c < |s.calls|
    case Others(remembered, foreign) => (b in remembered <==> b in s.remembered) && b !in foreign
  }

  function Next(s: State, e: Event, b: string): State
    requires Sane(s) && Enabled(s, e, b)
  {
    match e
    case Call(ip) => s.(calls := s.calls + [Fresh(ip)])
    case Step(c) => Advance(s, c)
    case Others(remembered, foreign) => s.(remembered := remembered, foreign := foreign)
  }

  lemma NextSane(s: State, e: Event, b: string)
    requires Sane(s) && Enabled(s, e, b)
    ensures Sane(Next(s, e, b))
  {
  }

  ghost predicate CanRun(s: State, es: seq<Event>, b: string)
    decreases |es|
  {
    Sane(s) && (es != [] ==> Enabled(s, es[0], b) && CanRun(Next(s, es[0], b), es[1..], b))
  }

  ghost function Run(s: State, es: seq<Event>, b: string): State
    requires CanRun(s, es, b)
    decreases |es|
  {
    if es == [] then s else Run(Next(s, es[0], b), es[1..], b)
  }

  // ----- when an IP stays admitted

  predicate Taking(call: Call, b: string) {
    (call.Stored? || call.Matched?) && call.ip == b
  }

  predicate UnderWay(call: Call, b: string) {
    (call.Loaded? || call.Stored? || call.Matched?) && call.ip == b
  }

  /** `b` is remembered, or in the user's entry; no call from it works on another map, at most
      one is on its way from the one place to the other, and none is being refused. */
  ghost predicate Kept(s: State, b: string) {
    && Sane(s) && b !in s.foreign
    && (b in s.remembered || (s.entry.Some? && b in s.inners[s.entry.value]))
    && (forall c :: 0 <= c < |s.calls| ==> KeptCall(s, s.calls[c], b))
    && (forall c, d :: 0 <= c < d < |s.calls| ==> !(Taking(s.calls[c], b) && Taking(s.calls[d], b)))
    && (b in s.remembered && s.entry.Some? && b in s.inners[s.entry.value] ==>
          exists c :: 0 <= c < |s.calls| && Taking(s.calls[c], b))
  }

  ghost predicate KeptCall(s: State, call: Call, b: string)
    requires Sane(s)
  {
    && !(call.Refused? && call.ip == b)
    && (UnderWay(call, b) ==> s.entry == Some(call.m))
    && (Taking(call, b) ==> b in s.remembered && s.entry.Some? && b in s.inners[s.entry.value])
  }

  /** Call `c` is about to delete the user's entry. */
  predicate Wipes(s: State, e: Event) {
    e.Step? && e.c < |s.calls| && s.calls[e.c].Refused? && s.calls[e.c].own
  }

  /** The deletion does `b` no harm: it is remembered, and no call from it is under way. */
  ghost predicate Harmless(s: State, b: string) {
    b in s.remembered && forall c :: 0 <= c < |s.calls| ==> !UnderWay(s.calls[c], b)
  }

  lemma CallKeeps(s: State, b: string, ip: string)
    requires Kept(s, b)
    ensures Kept(s.(calls := s.calls + [Fresh(ip)]), b)
  {
    var s' := s.(calls := s.calls + [Fresh(ip)]);
    if c :| 0 <= c < |s.calls| && Taking(s.calls[c], b) {
      assert Taking(s'.calls[c], b);
    }
  }

  lemma OthersKeep(s: State, b: string, remembered: set<string>, foreign: set<string>)
    requires Kept(s, b) && (b in remembered <==> b in s.remembered) && b !in foreign
    ensures Kept(s.(remembered := remembered, foreign := foreign), b)
  {
    var s' := s.(remembered := remembered, foreign := foreign);
    forall c | 0 <= c < |s'.calls| ensures KeptCall(s', s'.calls[c], b) {
      assert KeptCall(s, s.calls[c], b);
    }
  }

  /** A call from another address, other than one that deletes the entry. */
  lemma StrangerKeeps(s: State, c: nat, b: string)
    requires Kept(s, b) && c < |s.calls| && s.calls[c].ip != b && !Wipes(s, Step(c))
    ensures Kept(Advance(s, c), b)
  {
    var s' := Advance(s, c);
    assert Sane(s') by { NextSane(s, Step(c), b); }
    forall d | 0 <= d < |s'.calls| ensures KeptCall(s', s'.calls[d], b) {
      assert KeptCall(s, s.calls[d], b);
    }
    if d :| 0 <= d < |s.calls| && Taking(s.calls[d], b) {
      assert Taking(s'.calls[d], b);
    }
  }

  /** A call from `b` itself. */
  lemma OwnKeeps(s: State, c: nat, b: string)
    requires Kept(s, b) && c < |s.calls| && s.calls[c].ip == b
    ensures Kept(Advance(s, c), b)
    ensures Advance(s, c).calls[c] == Done(b, false) ==> s.calls[c] == Done(b, false)
  {
    var s' := Advance(s, c);
    assert KeptCall(s, s.calls[c], b);
    assert Sane(s') by { NextSane(s, Step(c), b); }
    forall d | 0 <= d < |s'.calls| ensures KeptCall(s', s'.calls[d], b) {
      assert KeptCall(s, s.calls[d], b);
    }
    if d :| 0 <= d < |s.calls| && Taking(s.calls[d], b) {
      assert d != c ==> Taking(s'.calls[d], b);
    }
    assert Taking(s'.calls[c], b) || s.calls[c].Fresh? || s.calls[c].Loaded? || s.calls[c].Matched? || s.calls[c].Done?;
  }

  /** A deletion of the entry keeps `b` exactly when it is harmless. */
  lemma WipeKeeps(s: State, c: nat, b: string)
    requires Kept(s, b) && Wipes(s, Step(c))
    ensures Kept(Advance(s, c), b) <==> Harmless(s, b)
  {
    var s' := Advance(s, c);
    assert KeptCall(s, s.calls[c], b);
    if Harmless(s, b) {
      forall d | 0 <= d < |s'.calls| ensures KeptCall(s', s'.calls[d], b) {
        assert KeptCall(s, s.calls[d], b);
      }
    } else if b in s.remembered {
      var d :| 0 <= d < |s.calls| && UnderWay(s.calls[d], b);
      assert !KeptCall(s', s'.calls[d], b);
    }
  }

  /** No call from `b` has been rejected. */
  ghost predicate NoneRejected(s: State, b: string) {
    forall c :: 0 <= c < |s.calls| ==> s.calls[c] != Done(b, false)
  }

  ghost predicate AllHarmless(s: State, es: seq<Event>, b: string)
    requires CanRun(s, es, b)
    decreases |es|
  {
    es != [] ==> (Wipes(s, es[0]) ==> Harmless(s, b)) && AllHarmless(Next(s, es[0], b), es[1..], b)
  }

  lemma StepKeepsIp(s: State, e: Event, b: string)
    requires Kept(s, b) && NoneRejected(s, b) && Enabled(s, e, b) && (Wipes(s, e) ==> Harmless(s, b))
    ensures Kept(Next(s, e, b), b) && NoneRejected(Next(s, e, b), b)
  {
    match e
    case Call(ip) => CallKeeps(s, b, ip);
    case Others(remembered, foreign) => OthersKeep(s, b, remembered, foreign);
    case Step(c) =>
      assert KeptCall(s, s.calls[c], b);
      if Wipes(s, e) {
        WipeKeeps(s, c, b);
      } else if s.calls[c].ip == b {
        OwnKeeps(s, c, b);
      } else {
        StrangerKeeps(s, c, b);
      }
  }

  /** In every interleaving whose deletions of the entry are harmless, no call from `b` is
      rejected, whatever the device limit. */
  lemma {:induction false} StaysAdmitted(s: State, es: seq<Event>, b: string)
    requires Kept(s, b) && NoneRejected(s, b) && CanRun(s, es, b) && AllHarmless(s, es, b)
    ensures Kept(Run(s, es, b), b) && NoneRejected(Run(s, es, b), b)
    decreases |es|
  {
    if es != [] {
      StepKeepsIp(s, es[0], b);
      StaysAdmitted(Next(s, es[0], b), es[1..], b);
    }
  }

  // ----- a harmful deletion

  ghost predicate Leads(s: State, es: seq<Event>, t: State, b: string) {
    CanRun(s, es, b) && Run(s, es, b) == t
  }

  lemma {:induction false} Join(s: State, xs: seq<Event>, t: State, ys: seq<Event>, u: State, b: string)
    requires Leads(s, xs, t, b) && Leads(t, ys, u, b)
    ensures Leads(s, xs + ys, u, b)
    decreases |xs|
  {
    if xs == [] {
      assert xs + ys == ys;
    } else {
      assert (xs + ys)[1..] == xs[1..] + ys;
      Join(Next(s, xs[0], b), xs[1..], t, ys, u, b);
    }
  }

  lemma One(s: State, e: Event, b: string)
    requires Sane(s) && Enabled(s, e, b)
    ensures Leads(s, [e], Next(s, e, b), b)
  {
    NextSane(s, e, b);
    assert [e][1..] == [];
  }

  /** Nothing knows `b` any more. */
  ghost predicate Forgotten(s: State, b: string) {
    Sane(s) && s.full && s.entry.None? && b !in s.remembered && b !in s.foreign
  }

  /** Then the next call from it is rejected. */
  lemma ForgottenIsRejected(s: State, b: string) returns (es: seq<Event>, t: State)
    requires Forgotten(s, b)
    ensures Leads(s, es, t, b) && !NoneRejected(t, b) && s.calls <= t.calls && Done(b, false) in t.calls
  {
    var c := |s.calls|;
    var s1 := Next(s, Event.Call(b), b);
    NextSane(s, Event.Call(b), b);
    var s2 := Advance(s1, c);
    NextSane(s1, Step(c), b);
    var s3 := Advance(s2, c);
    NextSane(s2, Step(c), b);
    t := Advance(s3, c);
    One(s, Event.Call(b), b);
    One(s1, Step(c), b);
    One(s2, Step(c), b);
    One(s3, Step(c), b);
    Join(s2, [Step(c)], s3, [Step(c)], t, b);
    Join(s1, [Step(c)], s2, [Step(c)] + [Step(c)], t, b);
    Join(s, [Event.Call(b)], s1, [Step(c)] + ([Step(c)] + [Step(c)]), t, b);
    assert t.calls[c] == Done(b, false);
    es := [Event.Call(b)] + ([Step(c)] + ([Step(c)] + [Step(c)]));
  }

  /** After a report that lists `b` for this user alone, before any call. */
  function AfterReport(remembered: set<string>, foreign: set<string>, full: bool): State {
    State(None, [], remembered, foreign, full, [])
  }

  /** From a report on: in every interleaving whose deletions of the entry are harmless no call
      from a listed IP is rejected, whatever the device limit. */
  lemma ReportedStaysAdmitted(remembered: set<string>, foreign: set<string>, full: bool, es: seq<Event>, b: string)
    requires b in remembered && b !in foreign
    requires var s := AfterReport(remembered, foreign, full); CanRun(s, es, b) && AllHarmless(s, es, b)
    ensures NoneRejected(Run(AfterReport(remembered, foreign, full), es, b), b)
  {
    StaysAdmitted(AfterReport(remembered, foreign, full), es, b);
  }

  // ----- exactly the harmful deletions open the way to a rejection

  /** A call from `b` is rejected, or about to be. */
  ghost predicate Rejecting(s: State, b: string) {
    exists c :: 0 <= c < |s.calls| && RejectedCall(s.calls[c], b)
  }

  predicate RejectedCall(call: Call, b: string) {
    call == Done(b, false) || (call.Refused? && call.ip == b)
  }

  /** No step of the run deletes the entry. */
  ghost predicate NoWipe(s: State, es: seq<Event>, b: string)
    requires CanRun(s, es, b)
    decreases |es|
  {
    es != [] ==> !Wipes(s, es[0]) && NoWipe(Next(s, es[0], b), es[1..], b)
  }

  /** Without another deletion a call from `b` can come to be rejected. */
  ghost predicate Opens(s: State, b: string) {
    exists es :: CanRun(s, es, b) && NoWipe(s, es, b) && Rejecting(Run(s, es, b), b)
  }

  ghost predicate NoneOpens(s: State, es: seq<Event>, b: string)
    requires CanRun(s, es, b)
    decreases |es|
  {
    es != [] ==> (Wipes(s, es[0]) ==> !Opens(Next(s, es[0], b), b)) && NoneOpens(Next(s, es[0], b), es[1..], b)
  }

  lemma {:induction false} NoWipeKeeps(s: State, es: seq<Event>, b: string)
    requires Kept(s, b) && NoneRejected(s, b) && CanRun(s, es, b) && NoWipe(s, es, b)
    ensures Kept(Run(s, es, b), b) && !Rejecting(Run(s, es, b), b)
    decreases |es|
  {
    if es != [] {
      StepKeepsIp(s, es[0], b);
      NoWipeKeeps(Next(s, es[0], b), es[1..], b);
    } else {
      forall c | 0 <= c < |s.calls| ensures !RejectedCall(s.calls[c], b) {
        assert KeptCall(s, s.calls[c], b);
      }
    }
  }

  ghost predicate LeadsClean(s: State, es: seq<Event>, t: State, b: string) {
    Leads(s, es, t, b) && NoWipe(s, es, b)
  }

  lemma {:induction false} JoinClean(s: State, xs: seq<Event>, t: State, ys: seq<Event>, u: State, b: string)
    requires LeadsClean(s, xs, t, b) && LeadsClean(t, ys, u, b)
    ensures LeadsClean(s, xs + ys, u, b)
    decreases |xs|
  {
    if xs == [] {
      assert xs + ys == ys;
    } else {
      assert (xs + ys)[1..] == xs[1..] + ys;
      JoinClean(Next(s, xs[0], b), xs[1..], t, ys, u, b);
    }
  }

  lemma OneClean(s: State, e: Event, b: string)
    requires Sane(s) && Enabled(s, e, b) && !Wipes(s, e)
    ensures LeadsClean(s, [e], Next(s, e, b), b)
  {
    One(s, e, b);
    assert [e][1..] == [];
  }

  /** A forgotten IP is refused without any deletion before. */
  lemma ForgottenIsRefused(s: State, b: string) returns (es: seq<Event>, t: State)
    requires Forgotten(s, b)
    ensures LeadsClean(s, es, t, b) && Rejecting(t, b)
  {
    var c := |s.calls|;
    var s1 := Next(s, Event.Call(b), b);
    NextSane(s, Event.Call(b), b);
    var s2 := Advance(s1, c);
    NextSane(s1, Step(c), b);
    t := Advance(s2, c);
    OneClean(s, Event.Call(b), b);
    OneClean(s1, Step(c), b);
    OneClean(s2, Step(c), b);
    JoinClean(s1, [Step(c)], s2, [Step(c)], t, b);
    JoinClean(s, [Event.Call(b)], s1, [Step(c)] + [Step(c)], t, b);
    assert RejectedCall(t.calls[c], b);
    es := [Event.Call(b)] + ([Step(c)] + [Step(c)]);
  }

  /** A call from `b` that goes on with a map no longer in the table makes `b` forgotten. */
  lemma StrayForgets(s: State, d: nat, b: string) returns (es: seq<Event>, t: State)
    requires Sane(s) && s.full && s.entry.None? && b !in s.foreign && b in s.remembered && d < |s.calls|
    requires UnderWay(s.calls[d], b) && (s.calls[d].Loaded? ==> b !in s.inners[s.calls[d].m])
    ensures LeadsClean(s, es, t, b) && Forgotten(t, b)
    decreases if s.calls[d].Loaded? then 2 else if s.calls[d].Stored? then 1 else 0
  {
    var s1 := Advance(s, d);
    NextSane(s, Step(d), b);
    OneClean(s, Step(d), b);
    if s.calls[d].Matched? {
      es, t := [Step(d)], s1;
    } else {
      var rest;
      rest, t := StrayForgets(s1, d, b);
      es := [Step(d)] + rest;
      JoinClean(s, [Step(d)], s1, rest, t, b);
    }
  }

  /** A harmful deletion lets a later call from `b` be rejected, although it was kept before. */
  lemma HarmfulRejects(s: State, c: nat, b: string) returns (es: seq<Event>, t: State)
    requires Kept(s, b) && s.full && Wipes(s, Step(c)) && !Harmless(s, b)
    ensures Leads(Advance(s, c), es, t, b) && !NoneRejected(t, b)
  {
    var s1 := Advance(s, c);
    NextSane(s, Step(c), b);
    if b in s.remembered {
      var d := Straying(s, b);
      assert s1.calls[d] == s.calls[d];
      var first, u := StrayForgets(s1, d, b);
      var second;
      second, t := ForgottenIsRejected(u, b);
      Join(s1, first, u, second, t, b);
      es := first + second;
    } else {
      es, t := ForgottenIsRejected(s1, b);
    }
  }

  lemma Straying(s: State, b: string) returns (d: nat)
    requires Kept(s, b) && b in s.remembered && exists c :: 0 <= c < |s.calls| && UnderWay(s.calls[c], b)
    ensures d < |s.calls| && UnderWay(s.calls[d], b) && (s.calls[d].Loaded? ==> b !in s.inners[s.calls[d].m])
  {
    d :| 0 <= d < |s.calls| && UnderWay(s.calls[d], b);
    assert KeptCall(s, s.calls[d], b);
    if s.calls[d].Loaded? && b in s.inners[s.calls[d].m] {
      d :| 0 <= d < |s.calls| && Taking(s.calls[d], b);
    }
  }

  /** A deletion opens the way to a rejection exactly when it is harmful. */
  lemma WipeOpens(s: State, c: nat, b: string)
    requires Kept(s, b) && NoneRejected(s, b) && s.full && Wipes(s, Step(c))
    ensures Opens(Advance(s, c), b) <==> !Harmless(s, b)
  {
    var s1 := Advance(s, c);
    NextSane(s, Step(c), b);
    if Harmless(s, b) {
      StepKeepsIp(s, Step(c), b);
      forall es | CanRun(s1, es, b) && NoWipe(s1, es, b) ensures !Rejecting(Run(s1, es, b), b) {
        NoWipeKeeps(s1, es, b);
      }
    } else if b in s.remembered {
      var d := Straying(s, b);
      assert s1.calls[d] == s.calls[d];
      var first, u := StrayForgets(s1, d, b);
      var second, t := ForgottenIsRefused(u, b);
      JoinClean(s1, first, u, second, t, b);
    } else {
      var es, t := ForgottenIsRefused(s1, b);
    }
  }

  /** So, at the device limit, a run has only harmless deletions exactly when none of its
      deletions opens the way to a rejection of `b`. */
  lemma {:induction false} HarmlessIsExact(s: State, es: seq<Event>, b: string)
    requires Kept(s, b) && NoneRejected(s, b) && s.full && CanRun(s, es, b)
    ensures AllHarmless(s, es, b) <==> NoneOpens(s, es, b)
    decreases |es|
  {
    if es != [] {
      if Wipes(s, es[0]) {
        WipeOpens(s, es[0].c, b);
      }
      if Wipes(s, es[0]) ==> Harmless(s, b) {
        StepKeepsIp(s, es[0], b);
        HarmlessIsExact(Next(s, es[0], b), es[1..], b);
      }
    }
  }

  /** From a report on: a listed IP is rejected only after a harmful deletion, and the harmful
      ones are just those that open the way to a rejection. */
  lemma ReportedIsExact(remembered: set<string>, foreign: set<string>, es: seq<Event>, b: string)
    requires b in remembered && b !in foreign && CanRun(AfterReport(remembered, foreign, true), es, b)
    ensures var s := AfterReport(remembered, foreign, true);
            && (AllHarmless(s, es, b) <==> NoneOpens(s, es, b))
            && (NoneOpens(s, es, b) ==> NoneRejected(Run(s, es, b), b))
  {
    HarmlessIsExact(AfterReport(remembered, foreign, true), es, b);
    if AllHarmless(AfterReport(remembered, foreign, true), es, b) {
      ReportedStaysAdmitted(remembered, foreign, true, es, b);
    }
  }

  // ----- calls that do not overlap

  predicate AllDone(s: State) {
    forall c :: 0 <= c < |s.calls| ==> s.calls[c].Done?
  }

  /** A call of this user begins only when the earlier ones have ended. */
  ghost predicate Sequential(s: State, es: seq<Event>, b: string)
    requires CanRun(s, es, b)
    decreases |es|
  {
    es != [] ==> (es[0].Call? ==> AllDone(s)) && Sequential(Next(s, es[0], b), es[1..], b)
  }

  /** At most the last call is under way, and what it has stored first is its own. */
  ghost predicate Alone(s: State) {
    && Sane(s)
    && (forall c :: 0 <= c < |s.calls| - 1 ==> s.calls[c].Done?)
    && (s.calls != [] ==> AloneCall(s, s.calls[|s.calls| - 1]))
  }

  ghost predicate AloneCall(s: State, call: Call)
    requires Sane(s)
  {
    (call.Stored? || call.Refused?) && call.own ==> s.entry == Some(call.m) && s.inners[call.m] == {call.ip}
  }

  lemma StepAlone(s: State, e: Event, b: string)
    requires Alone(s) && Enabled(s, e, b) && (e.Call? ==> AllDone(s))
    ensures Alone(Next(s, e, b))
  {
    NextSane(s, e, b);
  }

  lemma AloneIsHarmless(s: State, e: Event, b: string)
    requires Alone(s) && Kept(s, b) && Wipes(s, e)
    ensures Harmless(s, b)
  {
    assert KeptCall(s, s.calls[e.c], b);
  }

  /** Calls of one user that do not overlap never do harm. */
  lemma {:induction false} SequentialIsHarmless(s: State, es: seq<Event>, b: string)
    requires Alone(s) && Kept(s, b) && NoneRejected(s, b) && CanRun(s, es, b) && Sequential(s, es, b)
    ensures AllHarmless(s, es, b)
    decreases |es|
  {
    if es != [] {
      if Wipes(s, es[0]) {
        AloneIsHarmless(s, es[0], b);
      }
      StepKeepsIp(s, es[0], b);
      StepAlone(s, es[0], b);
      SequentialIsHarmless(Next(s, es[0], b), es[1..], b);
    }
  }

  /** From a report on, then, a listed IP is never rejected. */
  lemma SequentialStaysAdmitted(remembered: set<string>, foreign: set<string>, full: bool, es: seq<Event>, b: string)
    requires b in remembered && b !in foreign
    requires var s := AfterReport(remembered, foreign, full); CanRun(s, es, b) && Sequential(s, es, b)
    ensures NoneRejected(Run(AfterReport(remembered, foreign, full), es, b), b)
  {
    SequentialIsHarmless(AfterReport(remembered, foreign, full), es, b);
    ReportedStaysAdmitted(remembered, foreign, full, es, b);
  }

  lemma Then(s: State, es: seq<Event>, t: State, e: Event, u: State, b: string)
    requires Leads(s, es, t, b) && Sane(t) && Enabled(t, e, b) && Next(t, e, b) == u
    ensures Leads(s, es + [e], u, b) && Sane(u)
  {
    NextSane(t, e, b);
    One(t, e, b);
    Join(s, es, t, [e], u, b);
  }

  /** It does happen: an unknown IP opens the entry, the listed one is admitted into it, the
      refusal of the first deletes the entry, and the listed IP is rejected from then on. */
  lemma ListedIpCanBeRejected(a: string, b: string) returns (es: seq<Event>, t: State)
    requires a != b
    ensures Leads(State(None, [], {b}, {}, true, []), es, t, b)
    ensures Done(b, true) in t.calls && Done(b, false) in t.calls
  {
    var none: set<string> := {};
    var s0 := State(None, [], {b}, {}, true, []);
    var s1 := State(None, [], {b}, {}, true, [Fresh(a)]);
    var s2 := State(Some(0), [{a}], {b}, {}, true, [Stored(a, 0, true)]);
    var s3 := s2.(calls := [Stored(a, 0, true), Fresh(b)]);
    var s4 := s2.(calls := [Stored(a, 0, true), Loaded(b, 0)]);
    var s5 := State(Some(0), [{a, b}], {b}, {}, true, [Stored(a, 0, true), Stored(b, 0, false)]);
    var s6 := s5.(calls := [Stored(a, 0, true), Matched(b, 0)]);
    var s7 := State(Some(0), [{a, b}], {}, {}, true, [Stored(a, 0, true), Done(b, true)]);
    var s8 := s7.(calls := [Refused(a, 0, true), Done(b, true)]);
    var s9 := State(None, [{a, b}], {}, {}, true, [Done(a, false), Done(b, true)]);
    assert {a} + {b} == {a, b} && {b} - {b} == none;
    assert [] + [Fresh(a)] == [Fresh(a)] && [] + [{a}] == [{a}] && [Fresh(a)][0 := Stored(a, 0, true)] == s2.calls;
    assert s2.calls + [Fresh(b)] == s3.calls && s3.calls[1 := Loaded(b, 0)] == s4.calls;
    assert s4.inners[0 := {a, b}] == s5.inners && s4.calls[1 := Stored(b, 0, false)] == s5.calls;
    assert s5.calls[1 := Matched(b, 0)] == s6.calls && s6.calls[1 := Done(b, true)] == s7.calls;
    assert s7.calls[0 := Refused(a, 0, true)] == s8.calls && s8.calls[0 := Done(a, false)] == s9.calls;
    Then(s0, [], s0, Event.Call(a), s1, b);
    Then(s0, [Event.Call(a)], s1, Step(0), s2, b);
    var es2 := [Event.Call(a)] + [Step(0)];
    Then(s0, es2, s2, Event.Call(b), s3, b);
    Then(s0, es2 + [Event.Call(b)], s3, Step(1), s4, b);
    var es4 := es2 + [Event.Call(b)] + [Step(1)];
    Then(s0, es4, s4, Step(1), s5, b);
    Then(s0, es4 + [Step(1)], s5, Step(1), s6, b);
    var es6 := es4 + [Step(1)] + [Step(1)];
    Then(s0, es6, s6, Step(1), s7, b);
    Then(s0, es6 + [Step(1)], s7, Step(0), s8, b);
    var es8 := es6 + [Step(1)] + [Step(0)];
    Then(s0, es8, s8, Step(0), s9, b);
    var rest;
    rest, t := ForgottenIsRejected(s9, b);
    assert t.calls[1] == s9.calls[1];
    Join(s0, es8 + [Step(0)], s9, rest, t, b);
    es := es8 + [Step(0)] + rest;
  }
}
