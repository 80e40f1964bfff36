/** The code that counts traffic (common/counter/traffic.go, xraytraffic.go) and harvests it
    (GetUserTrafficSlice in core/xray/user.go), with anything that connections, user deletions
    and other harvests do between two atomic operations of a harvest. Its runs are runs of the
    machine in module Traffic. A storage is named by its number. */
module TrafficCode {
  import M = Traffic
  import R = TrafficRuns
  import T = TrafficTwice

  /** What others do before each atomic operation of a harvest on one storage. */
  datatype Gaps = Gaps(beforeUp: seq<M.Event>, beforeDown: seq<M.Event>, beforeStoreUp: seq<M.Event>,
                       beforeStoreDown: seq<M.Event>, beforeRow: seq<M.Event>)

  /** A step of the harvest `me` itself. */
  predicate Own(e: M.Event, me: nat) {
    match e
    case LoadUp(p, _) => p == me
    case LoadDown(p) => p == me
    case StoreUp(p) => p == me
    case StoreDown(p) => p == me
    case Emit(p) => p == me
    case End(p) => p == me
    case _ => false
  }

  const QUIET := Gaps([], [], [], [], [])

  /** The steps of others, if all of them can happen, lead from `s` to `t`. */
  ghost predicate OthersLead(min: int, me: nat, s: M.State, es: seq<M.Event>, t: M.State)
    decreases |es|
  {
    if es == [] then s == t
    else !Own(es[0], me) && M.Step(min, s, es[0]).0 && OthersLead(min, me, M.Step(min, s, es[0]).1, es[1..], t)
  }

  lemma OthersNext(min: int, me: nat, s: M.State, es: seq<M.Event>, i: nat, t: M.State)
    requires i < |es| && OthersLead(min, me, s, es[i..], t)
    ensures !Own(es[i], me) && M.Step(min, s, es[i]).0
    ensures OthersLead(min, me, M.Step(min, s, es[i]).1, es[i + 1..], t)
    ensures es[..i + 1] == es[..i] + [es[i]]
  {
    assert es[i..][1..] == es[i + 1..];
  }

  /** `es` leads from `s` to `t`; the account is that of one user and direction. */
  ghost predicate Leads(min: int, s: M.State, es: seq<M.Event>, t: M.State) {
    forall email, d, a :: Reaches(min, email, d, s, a, es, t)
  }

  ghost predicate Reaches(min: int, email: string, d: M.Direction, s: M.State, a: M.Account, es: seq<M.Event>,
                          t: M.State) {
    M.Run(min, email, d, s, a, es).0 && M.Run(min, email, d, s, a, es).1 == t
  }

  /** At some time since the trace was `n` long the map had no counter of `email`. */
  ghost predicate WasAbsent(min: int, trace: seq<M.Event>, email: string, n: nat) {
    exists k :: n <= k <= |trace| && AbsentAt(min, trace, email, k)
  }

  ghost predicate AbsentAt(min: int, trace: seq<M.Event>, email: string, k: nat)
    requires k <= |trace|
  {
    email !in M.Run(min, email, M.Up, M.INIT, M.NOTHING, trace[..k]).1.live
  }

  lemma AbsentStays(min: int, trace: seq<M.Event>, more: seq<M.Event>, email: string, n: nat)
    requires WasAbsent(min, trace, email, n) && trace <= more
    ensures WasAbsent(min, more, email, n)
  {
    var k :| n <= k <= |trace| && AbsentAt(min, trace, email, k);
    assert more[..k] == trace[..k];
    assert AbsentAt(min, more, email, k);
  }

  lemma AllAbsentStay(min: int, trace: seq<M.Event>, more: seq<M.Event>, n: nat)
    requires trace <= more
    ensures forall email :: WasAbsent(min, trace, email, n) ==> WasAbsent(min, more, email, n)
  {
    forall email | WasAbsent(min, trace, email, n) ensures WasAbsent(min, more, email, n) {
      AbsentStays(min, trace, more, email, n);
    }
  }

  lemma AbsentNow(min: int, trace: seq<M.Event>, s: M.State, email: string, n: nat)
    requires Leads(min, M.INIT, trace, s) && email !in s.live && n <= |trace|
    ensures WasAbsent(min, trace, email, n)
  {
    assert trace[..|trace|] == trace;
    assert Reaches(min, email, M.Up, M.INIT, M.NOTHING, trace, s);
    assert AbsentAt(min, trace, email, |trace|);
  }

  lemma LeadsNowhere(min: int, s: M.State)
    ensures Leads(min, s, [], s)
  {
  }

  lemma {:induction false} ReachesSnoc(min: int, email: string, d: M.Direction, s: M.State, a: M.Account,
                                       es: seq<M.Event>, t: M.State, e: M.Event)
    requires Reaches(min, email, d, s, a, es, t) && M.Step(min, t, e).0
    ensures Reaches(min, email, d, s, a, es + [e], M.Step(min, t, e).1)
    decreases |es|
  {
    if es == [] {
      assert es + [e] == [e] && [e][1..] == [];
    } else {
      assert (es + [e])[1..] == es[1..] + [e];
      ReachesSnoc(min, email, d, M.Step(min, s, es[0]).1, M.Record(email, d, s, a, es[0]), es[1..], t, e);
    }
  }

  lemma LeadsSnoc(min: int, s: M.State, es: seq<M.Event>, t: M.State, e: M.Event)
    requires Leads(min, s, es, t) && M.Step(min, t, e).0
    ensures Leads(min, s, es + [e], M.Step(min, t, e).1)
  {
    forall email, d, a ensures Reaches(min, email, d, s, a, es + [e], M.Step(min, t, e).1) {
      ReachesSnoc(min, email, d, s, a, es, t, e);
    }
  }

  class Counters {
    const min: int
    var stores: seq<M.Storage>
    var live: map<string, nat>
    var uidMap: map<string, int>
    var passes: seq<M.Pass>              // where every harvest is, and what it has
    ghost var trace: seq<M.Event>        // everything that happened

    constructor (min: int)
      ensures this.min == min && Traced() && View() == M.INIT
    {
      this.min := min;
      stores, live, uidMap, passes, trace := [], map[], map[], [], [];
      LeadsNowhere(min, M.INIT);
    }

    ghost function View(): M.State
      reads this
    {
      M.State(stores, live, uidMap, passes)
    }

    /** The fields are those that the machine reaches by the trace. */
    ghost predicate Traced()
      reads this
    {
      Leads(min, M.INIT, trace, View()) && M.Shape(View())
    }

    ghost method Happened(before: M.State, e: M.Event)
      requires Leads(min, M.INIT, trace, before) && M.Shape(before) && M.Step(min, before, e) == (true, View())
      modifies this`trace
      ensures Traced() && trace == old(trace) + [e]
    {
      M.StepShape(min, before, e);
      LeadsSnoc(min, M.INIT, trace, before, e);
      trace := trace + [e];
    }

    // ----- connections and user changes

    method GetCounter(email: string) returns (id: nat)
      requires Traced()
      modifies this
      ensures Traced()
      ensures if email in old(live) then unchanged(this) && id == live[email]
              else M.Step(min, old(View()), M.Attach(email)) == (true, View()) && id == |old(stores)|
      ensures email !in old(live) ==>
                && stores == old(stores) + [M.Storage(email, 0, 0)] && live == old(live)[email := id]
                && uidMap == old(uidMap) && passes == old(passes)
    {
      if email in live {
        return live[email];
      }
      ghost var s := View();
      id := |stores|;
      stores := stores + [M.Storage(email, 0, 0)];
      live := live[email := id];
      Happened(s, M.Attach(email));
    }

    /** XrayTrafficCounter.Add, through a pointer that may have left the map. */
    method Add(id: nat, d: M.Direction, n: nat)
      requires Traced() && id < |stores|
      modifies this
      ensures Traced() && M.Step(min, old(View()), M.Add(id, d, n)) == (true, View())
      ensures var st := old(stores)[id];
              stores == old(stores)[id := M.Storage(st.owner, st.up + if d == M.Up then n else 0,
                                                    st.down + if d == M.Down then n else 0)]
      ensures live == old(live) && uidMap == old(uidMap) && passes == old(passes)
    {
      ghost var s := View();
      stores := stores[id := stores[id].Set(d, stores[id].Get(d) + n)];
      Happened(s, M.Add(id, d, n));
    }

    method Delete(email: string)
      requires Traced()
      modifies this
      ensures Traced() && M.Step(min, old(View()), M.Detach(email)) == (true, View())
      ensures live == old(live) - {email} && stores == old(stores) && uidMap == old(uidMap) && passes == old(passes)
    {
      ghost var s := View();
      live := live - {email};
      Happened(s, M.Detach(email));
    }

    /** A user that is deleted and comes back counts from zero, in a storage of its own. What is
        added through the old pointer stays apart from it. */
    method DeleteAndReturn(email: string) returns (id: nat)
      requires Traced()
      modifies this
      ensures Traced() && id >= |old(stores)| && id < |stores| && stores[id] == M.Storage(email, 0, 0)
      ensures stores[..|old(stores)|] == old(stores) && live == old(live)[email := id]
    {
      Delete(email);
      id := GetCounter(email);
    }

    method SetUid(email: string, uid: int)
      requires Traced() && M.NoneRunning(passes)
      modifies this
      ensures Traced() && M.Step(min, old(View()), M.SetUid(email, uid)) == (true, View())
      ensures uidMap == old(uidMap)[email := uid] && stores == old(stores) && live == old(live) && passes == old(passes)
    {
      ghost var s := View();
      uidMap := uidMap[email := uid];
      Happened(s, M.SetUid(email, uid));
    }

    method DropUid(email: string)
      requires Traced() && M.NoneRunning(passes)
      modifies this
      ensures Traced() && M.Step(min, old(View()), M.DropUid(email)) == (true, View())
      ensures uidMap == old(uidMap) - {email} && stores == old(stores) && live == old(live) && passes == old(passes)
    {
      ghost var s := View();
      uidMap := uidMap - {email};
      Happened(s, M.DropUid(email));
    }

    /** Nothing that harvest `me` relies on has changed. */
    twostate predicate Undisturbed(me: nat)
      reads this
    {
      && |stores| >= |old(stores)| && (forall i :: 0 <= i < |old(stores)| ==> stores[i].owner == old(stores)[i].owner)
      && uidMap == old(uidMap) && old(trace) <= trace && me < |old(passes)| <= |passes| && passes[me] == old(passes)[me]
    }

    /** The same but for the harvest itself. */
    twostate predicate Kept(me: nat)
      reads this
    {
      && |stores| >= |old(stores)| && (forall i :: 0 <= i < |old(stores)| ==> stores[i].owner == old(stores)[i].owner)
      && old(trace) <= trace && me < |old(passes)| <= |passes|
    }

    /** What others do, as far as it can happen, while harvest `me` is under way: all of it, if
        it can be run. */
    method Interfere(me: nat, es: seq<M.Event>, ghost t: M.State)
      requires Traced() && me < |passes| && !passes[me].at.Finished?
      modifies this
      ensures Traced() && Undisturbed(me)
      ensures OthersLead(min, me, old(View()), es, t) ==> View() == t && trace == old(trace) + es
    {
      ghost var all := OthersLead(min, me, View(), es, t);
      for i := 0 to |es|
        invariant Traced() && Undisturbed(me)
        invariant all ==> OthersLead(min, me, View(), es[i..], t) && trace == old(trace) + es[..i]
      {
        if all {
          OthersNext(min, me, View(), es, i, t);
        }
        Other(me, es[i]);
      }
      assert es[|es|..] == [];
    }

    method Other(me: nat, e: M.Event)
      requires Traced() && me < |passes| && !passes[me].at.Finished?
      modifies this
      ensures Traced() && Undisturbed(me)
      ensures !Own(e, me) && M.Step(min, old(View()), e).0 ==>
                View() == M.Step(min, old(View()), e).1 && trace == old(trace) + [e]
    {
      ghost var before := View();
      var (ok, s) := M.Step(min, M.State(stores, live, uidMap, passes), e);
      if ok && !Own(e, me) {
        OthersLeave(min, before, e, me);
        stores, live, uidMap, passes := s.stores, s.live, s.uidMap, s.passes;
        Happened(before, e);
      }
    }

    // ----- the harvest, one atomic operation at a time

    method LoadUp(me: nat, id: nat) returns (email: string, up: nat)
      requires Traced() && me < |passes| && passes[me].at.Between?
      requires id < |stores| && stores[id].owner !in passes[me].visited
      modifies this`passes, this`trace
      ensures Traced() && old(trace) <= trace && email == stores[id].owner && up == stores[id].up
      ensures var h := old(passes)[me];
              passes == old(passes)[me := M.Pass(h.reset, h.visited + {email}, h.rows, M.LoadedUp(id, email, up))]
    {
      ghost var s := View();
      email, up := stores[id].owner, stores[id].up;
      passes := passes[me := passes[me].(visited := passes[me].visited + {email}, at := M.LoadedUp(id, email, up))];
      Happened(s, M.LoadUp(me, id));
    }

    /** After both loads the harvest goes on with this storage if it is above the threshold. */
    method LoadDown(me: nat) returns (down: nat, heavy: bool)
      requires Traced() && me < |passes| && passes[me].at.LoadedUp?
      modifies this`passes, this`trace
      ensures Traced() && old(trace) <= trace
      ensures var h, at := old(passes)[me], old(passes)[me].at;
              && at.id < |stores| && down == stores[at.id].down && (heavy <==> at.up + down > min)
              && passes == old(passes)[me := M.Pass(h.reset, h.visited, h.rows,
                                                    if heavy then M.LoadedBoth(at.id, at.email, at.up, down)
                                                    else M.Between)]
    {
      ghost var s := View();
      var at := passes[me].at;
      down := stores[at.id].down;
      heavy := at.up + down > min;
      passes :=
        passes[me := passes[me].(at := if heavy then M.LoadedBoth(at.id, at.email, at.up, down) else M.Between)];
      Happened(s, M.LoadDown(me));
    }

    method StoreUp(me: nat)
      requires Traced() && me < |passes| && passes[me].at.LoadedBoth? && passes[me].reset
      modifies this`stores, this`passes, this`trace
      ensures Traced() && old(trace) <= trace
      ensures var h, at := old(passes)[me], old(passes)[me].at;
              && passes ==
                old(passes)[me := M.Pass(true, h.visited, h.rows, M.StoredUp(at.id, at.email, at.up, at.down))]
              && at.id < |old(stores)|
              && stores == old(stores)[at.id := M.Storage(old(stores)[at.id].owner, 0, old(stores)[at.id].down)]
    {
      ghost var s := View();
      var at := passes[me].at;
      stores := stores[at.id := stores[at.id].(up := 0)];
      passes := passes[me := passes[me].(at := M.StoredUp(at.id, at.email, at.up, at.down))];
      Happened(s, M.StoreUp(me));
    }

    method StoreDown(me: nat)
      requires Traced() && me < |passes| && passes[me].at.StoredUp?
      modifies this`stores, this`passes, this`trace
      ensures Traced() && old(trace) <= trace
      ensures var h, at := old(passes)[me], old(passes)[me].at;
              && passes == old(passes)[me := M.Pass(h.reset, h.visited, h.rows,
                                                    M.Stored(at.id, at.email, at.up, at.down))]
              && at.id < |old(stores)|
              && stores == old(stores)[at.id := M.Storage(old(stores)[at.id].owner, old(stores)[at.id].up, 0)]
    {
      ghost var s := View();
      var at := passes[me].at;
      stores := stores[at.id := stores[at.id].(down := 0)];
      passes := passes[me := passes[me].(at := M.Stored(at.id, at.email, at.up, at.down))];
      Happened(s, M.StoreDown(me));
    }

    /** A harvest that does not reset stores nothing. */
    method StoreNothing(me: nat)
      requires Traced() && me < |passes| && passes[me].at.LoadedBoth? && !passes[me].reset
      modifies this`passes, this`trace
      ensures Traced() && old(trace) <= trace
      ensures var h, at := old(passes)[me], old(passes)[me].at;
              passes == old(passes)[me := M.Pass(false, h.visited, h.rows, M.Stored(at.id, at.email, at.up, at.down))]
    {
      ghost var s := View();
      var at := passes[me].at;
      passes := passes[me := passes[me].(at := M.Stored(at.id, at.email, at.up, at.down))];
      Happened(s, M.StoreUp(me));
    }

    /** A user without a uid loses its counter, another gets a row. */
    method Emit(me: nat, slice: seq<M.Row>) returns (slice': seq<M.Row>)
      requires Traced() && me < |passes| && passes[me].at.Stored? && passes[me].rows == slice
      modifies this`live, this`passes, this`trace
      ensures Traced() && old(trace) <= trace
      ensures var h, at := old(passes)[me], old(passes)[me].at;
              var known := at.email in uidMap && uidMap[at.email] != 0;
              && slice' == (if known then slice + [M.Row(at.email, uidMap[at.email], at.up, at.down)] else slice)
              && live == (if known then old(live) else old(live) - {at.email})
              && passes == old(passes)[me := M.Pass(h.reset, h.visited, slice', M.Between)]
    {
      ghost var s := View();
      var at := passes[me].at;
      slice' := slice;
      if at.email !in uidMap || uidMap[at.email] == 0 {
        live := live - {at.email};
      } else {
        slice' := slice + [M.Row(at.email, uidMap[at.email], at.up, at.down)];
      }
      passes := passes[me := passes[me].(rows := slice', at := M.Between)];
      Happened(s, M.Emit(me));
    }

    // ----- and with what others do in between

    /** The two loads for one storage. */
    method LoadBoth(me: nat, id: nat, g: Gaps) returns (up: nat, down: nat, heavy: bool)
      requires Traced() && me < |passes| && passes[me].at.Between?
      requires id < |stores| && stores[id].owner !in passes[me].visited
      modifies this
      ensures Traced() && Kept(me) && uidMap == old(uidMap) && (heavy <==> up + down > min)
      ensures var h, email := old(passes[me]), old(stores[id].owner);
              passes[me] == h.(visited := h.visited + {email},
                             at := if heavy then M.LoadedBoth(id, email, up, down) else M.Between)
      ensures g == QUIET ==>
                stores == old(stores) && live == old(live) && up == stores[id].up && down == stores[id].down
    {
      Interfere(me, g.beforeUp, View());
      var email;
      email, up := LoadUp(me, id);
      Interfere(me, g.beforeDown, View());
      down, heavy := LoadDown(me);
    }

    method StoreZeros(me: nat, g: Gaps)
      requires Traced() && me < |passes| && passes[me].at.LoadedBoth?
      modifies this
      ensures Traced() && Kept(me) && uidMap == old(uidMap)
      ensures var h, at := old(passes[me]), old(passes[me].at);
              passes[me] == h.(at := M.Stored(at.id, at.email, at.up, at.down))
      ensures g == QUIET ==>
                var h, id := old(passes[me]), old(passes[me].at.id);
                && live == old(live) && id < |old(stores)|
                && stores == if h.reset then old(stores)[id := M.Storage(old(stores)[id].owner, 0, 0)] else old(stores)
    {
      Interfere(me, g.beforeStoreUp, View());
      if passes[me].reset {
        StoreUp(me);
        Interfere(me, g.beforeStoreDown, View());
        StoreDown(me);
      } else {
        StoreNothing(me);
      }
    }

    /** A user without a uid is without a counter then. */
    method AddRow(me: nat, email: string, up: nat, down: nat, slice: seq<M.Row>, g: Gaps) returns (slice': seq<M.Row>)
      requires Traced() && me < |passes| && passes[me].at.Stored? && passes[me].rows == slice
      requires passes[me].at.email == email && passes[me].at.up == up && passes[me].at.down == down
      modifies this
      ensures Traced() && Kept(me) && passes[me] == old(passes[me]).(rows := slice', at := M.Between)
      ensures var known := email in old(uidMap) && old(uidMap)[email] != 0;
              && slice' == (if known then slice + [M.Row(email, old(uidMap)[email], up, down)] else slice)
              && (!known ==> email !in live)
              && (g == QUIET ==> stores == old(stores) && live == if known then old(live) else old(live) - {email})
    {
      Interfere(me, g.beforeRow, View());
      slice' := Emit(me, slice);
    }

    /** A row of `email`, above the threshold and under its uid. */
    predicate IsRow(s: M.State, email: string, row: M.Row) {
      row.email == email && row.uid == M.Uid(s, email) && row.uid != 0 && row.up + row.down > min
    }

    /** The body of the Range loop for one storage: it adds one row at most. */
    method HarvestStorage(me: nat, id: nat, g: Gaps, slice: seq<M.Row>) returns (slice': seq<M.Row>)
      requires Traced() && me < |passes| && passes[me].at.Between? && passes[me].rows == slice
      requires id < |stores| && stores[id].owner !in passes[me].visited
      modifies this
      ensures Traced() && Kept(me)
      ensures var h := old(passes[me]);
              passes[me] == M.Pass(h.reset, h.visited + {old(stores[id].owner)}, slice', M.Between)
      ensures || slice' == slice
              || (exists row :: slice' == slice + [row] && IsRow(old(View()), old(stores[id].owner), row))
      ensures g == QUIET ==>
                var st, reset := old(stores[id]), old(passes[me].reset);
                var heavy, known := st.up + st.down > min, st.owner in old(uidMap) && old(uidMap)[st.owner] != 0;
                && slice' == slice + (if heavy && known then [M.Row(st.owner, old(uidMap)[st.owner], st.up, st.down)]
                                      else [])
                && live == (if heavy && !known then old(live) - {st.owner} else old(live))
                && stores == if heavy && reset then old(stores)[id := M.Storage(st.owner, 0, 0)] else old(stores)
    {
      var email := stores[id].owner;
      var up, down, heavy := LoadBoth(me, id, g);
      slice' := slice;
      if heavy {
        StoreZeros(me, g);
        slice' := AddRow(me, email, up, down, slice, g);
        ghost var row := M.Row(email, M.Uid(old(View()), email), up, down);
        assert slice' == slice || (slice' == slice + [row] && IsRow(old(View()), email, row));
      }
    }

    /** What Range hands over first, as far as its keys were not visited yet. */
    method HarvestPicks(me: nat, picks: seq<(nat, Gaps)>) returns (slice: seq<M.Row>)
      requires Traced() && me < |passes| && passes[me].at.Between? && passes[me].rows == []
      modifies this
      ensures Traced() && Kept(me) && passes[me].reset == old(passes[me]).reset
      ensures passes[me].at.Between? && passes[me].rows == slice
    {
      slice := [];
      for i := 0 to |picks|
        invariant Traced() && Kept(me) && passes[me].reset == old(passes[me]).reset
        invariant passes[me].at.Between? && passes[me].rows == slice
      {
        var id := picks[i].0;
        if id < |stores| && stores[id].owner !in passes[me].visited {
          slice := HarvestStorage(me, id, picks[i].1, slice);
        }
      }
    }

    /** One of the keys that were in the map at the start. */
    method HarvestKey(me: nat, k: string, g: Gaps, slice: seq<M.Row>, ghost n: nat) returns (slice': seq<M.Row>)
      requires Traced() && me < |passes| && passes[me].at.Between? && passes[me].rows == slice && n <= |trace|
      modifies this
      ensures Traced() && Kept(me) && passes[me].reset == old(passes[me]).reset
      ensures old(passes[me]).visited <= passes[me].visited
      ensures passes[me].at.Between? && passes[me].rows == slice'
      ensures k in passes[me].visited || WasAbsent(min, trace, k, n)
    {
      slice' := slice;
      if k !in live {
        AbsentNow(min, trace, View(), k, n);
      } else if k !in passes[me].visited {
        slice' := HarvestStorage(me, live[k], g, slice);
      }
    }

    /** The keys of the map at the start, as far as they still are there. */
    method HarvestKeys(me: nat, all: set<string>, gaps: string -> Gaps, slice: seq<M.Row>, ghost n: nat)
        returns (slice': seq<M.Row>)
      requires Traced() && me < |passes| && passes[me].at.Between? && passes[me].rows == slice && n <= |trace|
      modifies this
      ensures Traced() && Kept(me) && passes[me].reset == old(passes[me]).reset
      ensures passes[me].at.Between? && passes[me].rows == slice'
      ensures forall k :: k in all ==> k in passes[me].visited || WasAbsent(min, trace, k, n)
    {
      slice' := slice;
      var keys := all;
      while keys != {}
        invariant Traced() && Kept(me) && passes[me].reset == old(passes[me]).reset && n <= |trace|
        invariant passes[me].at.Between? && passes[me].rows == slice'
        invariant forall k :: k in all ==> k in keys || k in passes[me].visited || WasAbsent(min, trace, k, n)
        decreases keys
      {
        var k :| k in keys;
        keys := keys - {k};
        ghost var before := trace;
        slice' := HarvestKey(me, k, gaps(k), slice', n);
        AllAbsentStay(min, before, trace, n);
      }
    }

    /** A harvest with any interference. Range hands over `picks`, as far as their keys were
        not visited yet, and then the keys that were in the map at the start and still are: so
        a key is only missed if the map was without it at some time. The trace is a run of the
        machine, and the rows are those of this harvest. */
    method GetUserTrafficSlice(reset: bool, picks: seq<(nat, Gaps)>, gaps: string -> Gaps)
        returns (slice: seq<M.Row>, ghost me: nat)
      requires Traced()
      modifies this
      ensures Traced() && old(trace) < trace && me < |passes|
      ensures passes[me].reset == reset && passes[me].rows == slice && passes[me].at.Finished?
      ensures forall k :: k in old(live) ==> k in passes[me].visited || WasAbsent(min, trace, k, |old(trace)|)
    {
      ghost var s := View();
      var keys, mine := live.Keys, |passes|;
      me := mine;
      passes := passes + [M.Pass(reset, {}, [], M.Between)];
      Happened(s, M.Begin(reset));
      slice := HarvestPicks(mine, picks);
      slice := HarvestKeys(mine, keys, gaps, slice, |old(trace)|);
      Finish(mine, |old(trace)|);
    }

    method Finish(me: nat, ghost n: nat)
      requires Traced() && me < |passes| && passes[me].at.Between?
      modifies this
      ensures Traced() && old(trace) < trace && passes == old(passes)[me := old(passes)[me].(at := M.Finished)]
      ensures forall k :: WasAbsent(min, old(trace), k, n) ==> WasAbsent(min, trace, k, n)
    {
      ghost var s, before := View(), trace;
      passes := passes[me := passes[me].(at := M.Finished)];
      Happened(s, M.End(me));
      AllAbsentStay(min, before, trace, n);
    }
  }

  /** A step that is not its own leaves a harvest under way as it is. */
  lemma OthersLeave(min: int, s: M.State, e: M.Event, me: nat)
    requires M.Shape(s) && M.Step(min, s, e).0 && !Own(e, me) && me < |s.passes| && !s.passes[me].at.Finished?
    ensures var s' := M.Step(min, s, e).1;
            && |s'.stores| >= |s.stores|
            && (forall i :: 0 <= i < |s.stores| ==> s'.stores[i].owner == s.stores[i].owner)
            && s'.uidMap == s.uidMap && |s'.passes| >= |s.passes| && s'.passes[me] == s.passes[me]
  {
    if !M.Outside(e) && !e.Begin? {
      M.HarvestStep(min, s, e);
    }
  }

  /** So in every state that the code reaches the bytes of every user are conserved, and with
      one harvest at a time each is reported at most once. */
  lemma TracedConserves(min: int, trace: seq<M.Event>, s: M.State, email: string, d: M.Direction)
    requires Leads(min, M.INIT, trace, s)
    ensures var a := M.Run(min, email, d, M.INIT, M.NOTHING, trace).2;
            && a.added + a.doubled == M.Harvested(email, d, s) + M.InHand(email, d, s) + M.LiveBytes(email, d, s)
                                      + M.DetachedBytes(email, d, s) + M.Lost(a) + a.orphaned
            && (a.doubled == 0 <==> !T.Repeated(min, email, d, M.INIT, trace, T.NO_MARKS))
            && (R.Solo(min, M.INIT, trace) ==> M.Harvested(email, d, s) <= a.added)
            && (R.Solo(min, M.INIT, trace) ==> (M.Lost(a) == 0 <==> !R.Struck(min, email, d, M.INIT, trace, map[])))
  {
    assert Reaches(min, email, d, M.INIT, M.NOTHING, trace, s);
    M.TrafficIsConserved(min, email, d, trace);
    T.TwiceIsExact(min, email, d, trace);
    if R.Solo(min, M.INIT, trace) {
      R.SoloIsExact(min, email, d, trace);
    }
  }
}
