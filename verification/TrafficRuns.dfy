/** Runs of the traffic machine: when nothing is lost, what two harvests at once take twice, and
    what the rows of a harvest are. */
module TrafficRuns {
  import opened Traffic

  // ----- when nothing is lost, and nothing taken twice

  /** How much the cell that a harvest has loaded took in since then. */
  function Since(s: State, e: Event, email: string, d: Direction, since: map<nat, nat>): map<nat, nat> {
    if e.Add? && e.d == d then map p | p in since :: since[p] + if Watches(s, p, d, e.id) then e.n else 0
    else if Loads(s, e, email, d) then since[e.p := 0]
    else since
  }

  predicate Watches(s: State, p: nat, d: Direction, id: nat) {
    p < |s.passes| && Exposed(s.passes[p].at, d) && s.passes[p].at.id == id
  }

  function Gained(since: map<nat, nat>, p: nat): nat {
    if p in since then since[p] else 0
  }

  /** Some zero-store of the run hits a cell that took in bytes since the harvest's load. */
  predicate Struck(min: int, email: string, d: Direction, s: State, es: seq<Event>, since: map<nat, nat>)
    decreases |es|
  {
    && es != [] && Step(min, s, es[0]).0
    && ((Zeroes(s, es[0], email, d) && Gained(since, es[0].p) > 0)
        || Struck(min, email, d, Step(min, s, es[0]).1, es[1..], Since(s, es[0], email, d, since)))
  }

  /** The bytes that cells took in between a load and its zero-store, over the whole run. */
  function Missed(min: int, email: string, d: Direction, s: State, es: seq<Event>, since: map<nat, nat>): nat
    decreases |es|
  {
    if es == [] || !Step(min, s, es[0]).0 then 0
    else
      (if Zeroes(s, es[0], email, d) then Gained(since, es[0].p) else 0)
      + Missed(min, email, d, Step(min, s, es[0]).1, es[1..], Since(s, es[0], email, d, since))
  }

  /** A harvest begins only when no other is under way. */
  predicate Solo(min: int, s: State, es: seq<Event>)
    decreases |es|
  {
    es != [] && Step(min, s, es[0]).0 ==>
      (es[0].Begin? ==> NoneRunning(s.passes)) && Solo(min, Step(min, s, es[0]).1, es[1..])
  }

  predicate OneRunning(passes: seq<Pass>) {
    forall p, q :: 0 <= p < q < |passes| ==> passes[p].at.Finished? || passes[q].at.Finished?
  }

  /** What the cell of an exposed harvest holds. */
  ghost predicate Knows(email: string, d: Direction, s: State, a: Account, since: map<nat, nat>, solo: bool, p: nat)
    requires p < |s.passes|
  {
    var at := s.passes[p].at;
    Exposed(at, d) && at.email == email ==>
      && at.id < |s.stores| && p in a.seen && at.id in a.now
      && var cell := s.stores[at.id].Get(d);
         && p in since
         && (since[p] == 0 ==> if a.seen[p] == a.now[at.id] then cell == Loaded(at, d) else cell == 0)
         && (solo ==> a.seen[p] == a.now[at.id] && cell == Loaded(at, d) + since[p])
  }

  ghost predicate AllKnow(email: string, d: Direction, s: State, a: Account, since: map<nat, nat>, solo: bool) {
    && (solo ==> OneRunning(s.passes))
    && forall p :: 0 <= p < |s.passes| ==> Knows(email, d, s, a, since, solo, p)
  }

  /** Nothing that concerns the cell of harvest `p` has changed. */
  lemma KnowsStill(email: string, d: Direction, s: State, a: Account, since: map<nat, nat>, s': State, a': Account,
                   since': map<nat, nat>, solo: bool, p: nat)
    requires p < |s.passes| && p < |s'.passes| && s'.passes[p].at == s.passes[p].at
    requires Knows(email, d, s, a, since, solo, p)
    requires var at := s.passes[p].at;
             Exposed(at, d) && at.email == email ==>
               && at.id < |s'.stores| && p in since && p in since' && since'[p] == since[p]
               && s'.stores[at.id].Get(d) == s.stores[at.id].Get(d)
               && p in a'.seen && a'.seen[p] == a.seen[p] && at.id in a'.now && a'.now[at.id] == a.now[at.id]
    ensures Knows(email, d, s', a', since', solo, p)
  {
  }

  lemma AttachKnows(min: int, email: string, d: Direction, s: State, a: Account, since: map<nat, nat>, solo: bool)
    requires Sound(email, d, s, a) && AllKnow(email, d, s, a, since, solo) && email !in s.live
    ensures AllKnow(email, d, Step(min, s, Attach(email)).1, Record(email, d, s, a, Attach(email)), since, solo)
  {
    var s', a' := Step(min, s, Attach(email)).1, Record(email, d, s, a, Attach(email));
    forall p | 0 <= p < |s'.passes| ensures Knows(email, d, s', a', since, solo, p) {
      assert Knows(email, d, s, a, since, solo, p);
      KnowsStill(email, d, s, a, since, s', a', since, solo, p);
    }
  }

  lemma AddKnows(min: int, email: string, d: Direction, s: State, a: Account, since: map<nat, nat>, solo: bool, id: nat,
                 n: nat)
    requires Sound(email, d, s, a) && AllKnow(email, d, s, a, since, solo) && id < |s.stores|
    requires s.stores[id].owner == email
    ensures AllKnow(email, d, Step(min, s, Add(id, d, n)).1, Record(email, d, s, a, Add(id, d, n)),
                    Since(s, Add(id, d, n), email, d, since), solo)
  {
    var s', a' := Step(min, s, Add(id, d, n)).1, Record(email, d, s, a, Add(id, d, n));
    AddEffect(min, email, d, s, a, id, n);
    forall p | 0 <= p < |s'.passes| ensures Knows(email, d, s', a', Since(s, Add(id, d, n), email, d, since), solo, p) {
      assert Knows(email, d, s, a, since, solo, p) && Holds(email, d, s, a, p);
    }
  }

  lemma OthersKnow(min: int, email: string, d: Direction, s: State, a: Account, since: map<nat, nat>, solo: bool,
                   e: Event)
    requires Sound(email, d, s, a) && AllKnow(email, d, s, a, since, solo) && Outside(e) && Step(min, s, e).0
    requires !Moves(s, e, email, d)
    ensures AllKnow(email, d, Step(min, s, e).1, a, Since(s, e, email, d, since), solo)
  {
    var s' := Step(min, s, e).1;
    OthersEffect(min, email, d, s, a, e);
    forall p | 0 <= p < |s'.passes| ensures Knows(email, d, s', a, Since(s, e, email, d, since), solo, p) {
      assert Knows(email, d, s, a, since, solo, p);
      KnowsStill(email, d, s, a, since, s', a, Since(s, e, email, d, since), solo, p);
    }
  }

  /** One harvest moves on; in a solo run the others have finished. */
  lemma StaysOne(min: int, s: State, e: Event)
    requires Shape(s) && !Outside(e) && Step(min, s, e).0 && OneRunning(s.passes)
    requires (e.Begin? ==> NoneRunning(s.passes))
    ensures OneRunning(Step(min, s, e).1.passes)
  {
    if !e.Begin? {
      HarvestStep(min, s, e);
      assert !s.passes[e.p].at.Finished?;
    }
  }

  lemma QuietKnows(min: int, email: string, d: Direction, s: State, a: Account, since: map<nat, nat>, solo: bool,
                   e: Event)
    requires Sound(email, d, s, a) && AllKnow(email, d, s, a, since, solo)
    requires !Outside(e) && !e.Begin? && Step(min, s, e).0 && !Zeroes(s, e, email, d)
    ensures AllKnow(email, d, Step(min, s, e).1, Record(email, d, s, a, e), Since(s, e, email, d, since), solo)
  {
    var s', a', since' := Step(min, s, e).1, Record(email, d, s, a, e), Since(s, e, email, d, since);
    HarvestStep(min, s, e);
    QuietFrame(min, email, d, s, a, e);
    QuietPlace(min, email, d, s, e);
    if solo {
      StaysOne(min, s, e);
    }
    forall p | 0 <= p < |s'.passes| ensures Knows(email, d, s', a', since', solo, p) {
      assert Knows(email, d, s, a, since, solo, p);
      if p != e.p {
        KnowsStill(email, d, s, a, since, s', a', since', solo, p);
      }
    }
  }

  lemma BeginKnows(min: int, email: string, d: Direction, s: State, a: Account, since: map<nat, nat>, solo: bool,
                   reset: bool)
    requires Shape(s) && AllKnow(email, d, s, a, since, solo) && (solo ==> NoneRunning(s.passes))
    ensures AllKnow(email, d, Step(min, s, Begin(reset)).1, a, since, solo)
  {
    var s' := Step(min, s, Begin(reset)).1;
    forall p | 0 <= p < |s'.passes| ensures Knows(email, d, s', a, since, solo, p) {
      if p < |s.passes| {
        assert Knows(email, d, s, a, since, solo, p);
        KnowsStill(email, d, s, a, since, s', a, since, solo, p);
      }
    }
  }

  lemma ZeroKnows(min: int, email: string, d: Direction, s: State, a: Account, since: map<nat, nat>, solo: bool,
                  e: Event)
    requires Sound(email, d, s, a) && AllKnow(email, d, s, a, since, solo) && Step(min, s, e).0
    requires Zeroes(s, e, email, d)
    ensures AllKnow(email, d, Step(min, s, e).1, Record(email, d, s, a, e), since, solo)
  {
    var s', a' := Step(min, s, e).1, Record(email, d, s, a, e);
    HarvestStep(min, s, e);
    ZeroEffect(min, email, d, s, a, e);
    if solo {
      StaysOne(min, s, e);
    }
    forall q | 0 <= q < |s'.passes| ensures Knows(email, d, s', a', since, solo, q) {
      if q != e.p && Exposed(s.passes[q].at, d) && s.passes[q].at.email == email {
        assert Knows(email, d, s, a, since, solo, q) && Holds(email, d, s, a, q);
      }
    }
  }

  /** What a zero-store loses and takes twice. */
  lemma ZeroLoses(min: int, email: string, d: Direction, s: State, a: Account, since: map<nat, nat>, solo: bool,
                  e: Event)
    requires Sound(email, d, s, a) && AllKnow(email, d, s, a, since, solo) && Step(min, s, e).0
    requires Zeroes(s, e, email, d)
    ensures var a' := Record(email, d, s, a, e);
            && (Gained(since, e.p) == 0 ==> Lost(a') <= Lost(a))
            && (solo ==> a'.doubled == a.doubled && Lost(a') == Lost(a) + Gained(since, e.p))
  {
    var at := s.passes[e.p].at;
    ZeroEffect(min, email, d, s, a, e);
    ZeroedSums(a, e.p, at.id, Loaded(at, d));
    assert Knows(email, d, s, a, since, solo, e.p);
    assert Min(a.log[a.seen[e.p]].covered, Loaded(at, d)) <= Loaded(at, d);
  }

  lemma KeepsLost(min: int, email: string, d: Direction, s: State, a: Account, e: Event)
    requires Sound(email, d, s, a) && Step(min, s, e).0 && !Zeroes(s, e, email, d)
    ensures Lost(Record(email, d, s, a, e)) == Lost(a) && Record(email, d, s, a, e).doubled == a.doubled
  {
    if e == Attach(email) {
      SumPush(a.log, LostOf(), Stretch(0, 0, false));
    } else if Moves(s, e, email, d) {
      AddEffect(min, email, d, s, a, e.id, e.n);
      SumUpdate(a.log, LostOf(), a.now[e.id], Stretch(s.stores[e.id].Get(d) + e.n, 0, false));
    } else if Outside(e) {
      OthersSound(min, email, d, s, a, e);
    } else if !e.Begin? {
      QuietFrame(min, email, d, s, a, e);
    }
  }

  lemma StepKnows(min: int, email: string, d: Direction, s: State, a: Account, since: map<nat, nat>, solo: bool,
                  e: Event)
    requires Sound(email, d, s, a) && AllKnow(email, d, s, a, since, solo) && Step(min, s, e).0
    requires solo && e.Begin? ==> NoneRunning(s.passes)
    ensures AllKnow(email, d, Step(min, s, e).1, Record(email, d, s, a, e), Since(s, e, email, d, since), solo)
  {
    if Outside(e) {
      if e == Attach(email) {
        AttachKnows(min, email, d, s, a, since, solo);
      } else if Moves(s, e, email, d) {
        AddKnows(min, email, d, s, a, since, solo, e.id, e.n);
      } else {
        OthersSound(min, email, d, s, a, e);
        OthersKnow(min, email, d, s, a, since, solo, e);
      }
    } else if e.Begin? {
      BeginSound(min, email, d, s, a, e.reset);
      BeginKnows(min, email, d, s, a, since, solo, e.reset);
    } else if Zeroes(s, e, email, d) {
      ZeroKnows(min, email, d, s, a, since, solo, e);
    } else {
      QuietKnows(min, email, d, s, a, since, solo, e);
    }
  }

  /** However many harvests there are: without a strike no byte is lost. */
  lemma {:induction false} UnstruckLosesNothing(min: int, email: string, d: Direction, s: State, a: Account,
                                                es: seq<Event>, since: map<nat, nat>)
    requires Sound(email, d, s, a) && AllKnow(email, d, s, a, since, false) && Lost(a) == 0
    requires Run(min, email, d, s, a, es).0 && !Struck(min, email, d, s, es, since)
    ensures Lost(Run(min, email, d, s, a, es).2) == 0
    decreases |es|
  {
    if es != [] {
      var e := es[0];
      StepSound(min, email, d, s, a, e);
      StepKnows(min, email, d, s, a, since, false, e);
      if Zeroes(s, e, email, d) {
        ZeroLoses(min, email, d, s, a, since, false, e);
      } else {
        KeepsLost(min, email, d, s, a, e);
      }
      UnstruckLosesNothing(min, email, d, Step(min, s, e).1, Record(email, d, s, a, e), es[1..],
                           Since(s, e, email, d, since));
    }
  }

  /** With one harvest at a time, just the bytes between a load and its store are lost. */
  lemma {:induction false} SoloLoses(min: int, email: string, d: Direction, s: State, a: Account, es: seq<Event>,
                                     since: map<nat, nat>)
    requires Sound(email, d, s, a) && AllKnow(email, d, s, a, since, true)
    requires Run(min, email, d, s, a, es).0 && Solo(min, s, es)
    ensures var a' := Run(min, email, d, s, a, es).2;
            && a'.doubled == a.doubled && Lost(a') == Lost(a) + Missed(min, email, d, s, es, since)
            && (Lost(a') > Lost(a) <==> Struck(min, email, d, s, es, since))
    decreases |es|
  {
    if es != [] {
      var e := es[0];
      StepSound(min, email, d, s, a, e);
      StepKnows(min, email, d, s, a, since, true, e);
      if Zeroes(s, e, email, d) {
        ZeroLoses(min, email, d, s, a, since, true, e);
      } else {
        KeepsLost(min, email, d, s, a, e);
      }
      SoloLoses(min, email, d, Step(min, s, e).1, Record(email, d, s, a, e), es[1..], Since(s, e, email, d, since));
    }
  }

  /** From the beginning, with one harvest at a time: harvested bytes were added, each once,
      and the bytes lost are those that a cell took in between a load and its zero-store. */
  lemma SoloIsExact(min: int, email: string, d: Direction, es: seq<Event>)
    requires Run(min, email, d, INIT, NOTHING, es).0 && Solo(min, INIT, es)
    ensures var (_, s, a) := Run(min, email, d, INIT, NOTHING, es);
            && Harvested(email, d, s) <= a.added
            && Lost(a) == Missed(min, email, d, INIT, es, map[])
            && (Lost(a) == 0 <==> !Struck(min, email, d, INIT, es, map[]))
            && (Lost(a) == 0 <==> a.added == Harvested(email, d, s) + InHand(email, d, s) + LiveBytes(email, d, s)
                                             + DetachedBytes(email, d, s) + a.orphaned)
  {
    TrafficIsConserved(min, email, d, es);
    SoloLoses(min, email, d, INIT, NOTHING, es, map[]);
  }

  // ----- runs that show it

  lemma RunCons(min: int, email: string, d: Direction, s: State, a: Account, e: Event, es: seq<Event>)
    requires Step(min, s, e).0
    ensures Run(min, email, d, s, a, [e] + es) == Run(min, email, d, Step(min, s, e).1, Record(email, d, s, a, e), es)
  {
    assert ([e] + es)[1..] == es;
  }

  const USER := "u"

  /** Storage 0 is USER's, which has uid 1, and holds `up`. */
  function Counted(up: nat, passes: seq<Pass>): State {
    State([Storage(USER, up, 0)], map[USER := 0], map[USER := 1], passes)
  }

  function At(at: Place): Pass {
    Pass(true, if at.Between? then {} else {USER}, [], at)
  }

  /** One event between two such states. */
  ghost predicate Goes(up: nat, passes: seq<Pass>, a: Account, e: Event, up': nat, passes': seq<Pass>, a': Account) {
    Step(0, Counted(up, passes), e) == (true, Counted(up', passes'))
    && Record(USER, Up, Counted(up, passes), a, e) == a'
  }

  lemma Going(up: nat, passes: seq<Pass>, a: Account, e: Event, up': nat, passes': seq<Pass>, a': Account,
              es: seq<Event>)
    requires Goes(up, passes, a, e, up', passes', a')
    ensures Run(0, USER, Up, Counted(up, passes), a, [e] + es) == Run(0, USER, Up, Counted(up', passes'), a', es)
  {
    RunCons(0, USER, Up, Counted(up, passes), a, e, es);
  }

  lemma GoesAdd(up: nat, passes: seq<Pass>, a: Account, n: nat, k: nat, st: Stretch)
    requires 0 in a.now && a.now[0] == k < |a.log| && a.log[k] == st
    ensures Goes(up, passes, a, Add(0, Up, n), up + n, passes,
                 a.(added := a.added + n, log := a.log[k := st.(len := st.len + n)]))
  {
    assert [Storage(USER, up, 0)][0 := Storage(USER, up + n, 0)] == [Storage(USER, up + n, 0)];
  }

  lemma GoesBegin(up: nat, passes: seq<Pass>, a: Account)
    ensures Goes(up, passes, a, Begin(true), up, passes + [At(Between)], a)
  {
  }

  lemma GoesLoadUp(up: nat, passes: seq<Pass>, a: Account, p: nat)
    requires p < |passes| && passes[p] == At(Between) && 0 in a.now
    ensures Goes(up, passes, a, LoadUp(p, 0), up, passes[p := At(LoadedUp(0, USER, up))],
                 a.(seen := a.seen[p := a.now[0]]))
  {
    assert {} + {USER} == {USER};
  }

  lemma GoesLoadDown(up: nat, passes: seq<Pass>, a: Account, p: nat, v: nat)
    requires p < |passes| && passes[p] == At(LoadedUp(0, USER, v)) && v > 0
    ensures Goes(up, passes, a, LoadDown(p), up, passes[p := At(LoadedBoth(0, USER, v, 0))], a)
  {
  }

  lemma GoesStoreUp(up: nat, passes: seq<Pass>, a: Account, p: nat, v: nat)
    requires p < |passes| && passes[p] == At(LoadedBoth(0, USER, v, 0))
    ensures Goes(up, passes, a, StoreUp(p), 0, passes[p := At(StoredUp(0, USER, v, 0))], Zeroed(a, p, 0, v))
  {
    assert [Storage(USER, up, 0)][0 := Storage(USER, 0, 0)] == [Storage(USER, 0, 0)];
  }

  const FIVE := Account(5, 0, 0, [Stretch(5, 0, false)], map[0 := 0], map[])

  const OPENING: seq<Event> := [SetUid(USER, 1), Attach(USER), Add(0, Up, 5)]

  lemma OpeningRuns(es: seq<Event>)
    ensures Run(0, USER, Up, INIT, NOTHING, OPENING + es) == Run(0, USER, Up, Counted(5, []), FIVE, es)
  {
    var e1, e2, e3 := SetUid(USER, 1), Attach(USER), Add(0, Up, 5);
    var s1 := State([], map[], map[USER := 1], []);
    var a2 := Account(0, 0, 0, [Stretch(0, 0, false)], map[0 := 0], map[]);
    assert OPENING + es == [e1] + ([e2] + ([e3] + es));
    assert s1.stores + [Storage(USER, 0, 0)] == [Storage(USER, 0, 0)] && NOTHING.log + [Stretch(0, 0, false)] == a2.log;
    RunCons(0, USER, Up, INIT, NOTHING, e1, [e2] + ([e3] + es));
    RunCons(0, USER, Up, s1, NOTHING, e2, [e3] + es);
    GoesAdd(0, [], a2, 5, 0, Stretch(0, 0, false));
    assert a2.log[0 := Stretch(5, 0, false)] == FIVE.log;
    Going(0, [], a2, e3, 5, [], FIVE, es);
  }

  lemma GoesStoreDown(up: nat, passes: seq<Pass>, a: Account, p: nat, v: nat)
    requires p < |passes| && passes[p] == At(StoredUp(0, USER, v, 0))
    ensures Goes(up, passes, a, StoreDown(p), up, passes[p := At(Stored(0, USER, v, 0))], a)
  {
    assert [Storage(USER, up, 0)][0 := Storage(USER, up, 0)] == [Storage(USER, up, 0)];
  }

  /** A harvest that has reported `v` bytes. */
  function Done(v: nat): Pass {
    Pass(true, {USER}, [Row(USER, 1, v, 0)], Between)
  }

  lemma GoesEmit(up: nat, passes: seq<Pass>, a: Account, p: nat, v: nat)
    requires p < |passes| && passes[p] == At(Stored(0, USER, v, 0))
    ensures Goes(up, passes, a, Emit(p), up, passes[p := Done(v)], a)
  {
    assert [] + [Row(USER, 1, v, 0)] == [Row(USER, 1, v, 0)];
  }

  /** Three bytes that arrive between a load and its store are lost. */
  lemma BytesCanBeLost() returns (es: seq<Event>)
    ensures Run(0, USER, Up, INIT, NOTHING, es).0
    ensures Lost(Run(0, USER, Up, INIT, NOTHING, es).2) == 3
  {
    var e1, e2, e3, e4, e5 := Begin(true), LoadUp(0, 0), LoadDown(0), Add(0, Up, 3), StoreUp(0);
    var l1, l2, l3 := At(LoadedUp(0, USER, 5)), At(LoadedBoth(0, USER, 5, 0)), At(StoredUp(0, USER, 5, 0));
    var a2 := FIVE.(seen := map[0 := 0]);
    var a4 := a2.(added := 8, log := [Stretch(8, 0, false)]);
    var a5 := a4.(log := [Stretch(8, 5, true), Stretch(0, 0, false)], now := map[0 := 1]);
    var rest := [e1] + ([e2] + ([e3] + ([e4] + ([e5] + []))));
    OpeningRuns(rest);
    GoesBegin(5, [], FIVE);
    GoesLoadUp(5, [At(Between)], FIVE, 0);
    GoesLoadDown(5, [l1], a2, 0, 5);
    GoesAdd(5, [l2], a2, 3, 0, Stretch(5, 0, false));
    GoesStoreUp(8, [l2], a4, 0, 5);
    assert [] + [At(Between)] == [At(Between)] && [At(Between)][0 := l1] == [l1] && [l1][0 := l2] == [l2]
           && [l2][0 := l3] == [l3];
    assert FIVE.log[0 := Stretch(8, 0, false)] == a4.log;
    assert Zeroed(a4, 0, 0, 5).log == a5.log && Zeroed(a4, 0, 0, 5) == a5;
    Going(5, [], FIVE, e1, 5, [At(Between)], FIVE, [e2] + ([e3] + ([e4] + ([e5] + []))));
    Going(5, [At(Between)], FIVE, e2, 5, [l1], a2, [e3] + ([e4] + ([e5] + [])));
    Going(5, [l1], a2, e3, 5, [l2], a2, [e4] + ([e5] + []));
    Going(5, [l2], a2, e4, 8, [l2], a4, [e5] + []);
    Going(8, [l2], a4, e5, 0, [l3], a5, []);
    SumPush([Stretch(8, 5, true)], LostOf(), Stretch(0, 0, false));
    SumPush([], LostOf(), Stretch(8, 5, true));
    assert [Stretch(8, 5, true)] + [Stretch(0, 0, false)] == a5.log
           && [] + [Stretch(8, 5, true)] == [Stretch(8, 5, true)];
    es := OPENING + rest;
  }

  const LOADED := At(LoadedUp(0, USER, 5))
  const BOTH := At(LoadedBoth(0, USER, 5, 0))
  const ZEROED := At(StoredUp(0, USER, 5, 0))
  const TAKEN := At(Stored(0, USER, 5, 0))
  const SEEN := FIVE.(seen := map[0 := 0, 1 := 0])
  const TWICE :=
          Account(5, 5, 0, [Stretch(5, 5, true), Stretch(0, 0, true), Stretch(0, 0, false)], map[0 := 2],
                  map[0 := 0, 1 := 0])

  /** Two harvests begin and load the same five bytes. */
  lemma BothLoad(es: seq<Event>) returns (all: seq<Event>)
    ensures Run(0, USER, Up, Counted(5, []), FIVE, all) == Run(0, USER, Up, Counted(5, [BOTH, BOTH]), SEEN, es)
  {
    var free, one := At(Between), FIVE.(seen := map[0 := 0]);
    var es6 := [LoadDown(1)] + es;
    var es5 := [LoadDown(0)] + es6;
    var es4 := [LoadUp(1, 0)] + es5;
    var es3 := [LoadUp(0, 0)] + es4;
    var es2 := [Begin(true)] + es3;
    GoesBegin(5, [], FIVE);
    GoesBegin(5, [free], FIVE);
    GoesLoadUp(5, [free, free], FIVE, 0);
    GoesLoadUp(5, [LOADED, free], one, 1);
    GoesLoadDown(5, [LOADED, LOADED], SEEN, 0, 5);
    GoesLoadDown(5, [BOTH, LOADED], SEEN, 1, 5);
    assert [] + [free] == [free] && [free] + [free] == [free, free] && [free, free][0 := LOADED] == [LOADED, free];
    assert [LOADED, free][1 := LOADED] == [LOADED, LOADED] && [LOADED, LOADED][0 := BOTH] == [BOTH, LOADED];
    assert [BOTH, LOADED][1 := BOTH] == [BOTH, BOTH];
    Going(5, [], FIVE, Begin(true), 5, [free], FIVE, es2);
    Going(5, [free], FIVE, Begin(true), 5, [free, free], FIVE, es3);
    Going(5, [free, free], FIVE, LoadUp(0, 0), 5, [LOADED, free], one, es4);
    Going(5, [LOADED, free], one, LoadUp(1, 0), 5, [LOADED, LOADED], SEEN, es5);
    Going(5, [LOADED, LOADED], SEEN, LoadDown(0), 5, [BOTH, LOADED], SEEN, es6);
    Going(5, [BOTH, LOADED], SEEN, LoadDown(1), 5, [BOTH, BOTH], SEEN, es);
    all := [Begin(true)] + es2;
  }

  /** Both store zero; the second takes again what the first has taken. */
  lemma BothStore(es: seq<Event>) returns (all: seq<Event>)
    ensures Run(0, USER, Up, Counted(5, [BOTH, BOTH]), SEEN, all) ==
              Run(0, USER, Up, Counted(0, [ZEROED, ZEROED]), TWICE, es)
  {
    var once := Account(5, 0, 0, [Stretch(5, 5, true), Stretch(0, 0, false)], map[0 := 1], map[0 := 0, 1 := 0]);
    GoesStoreUp(5, [BOTH, BOTH], SEEN, 0, 5);
    GoesStoreUp(0, [ZEROED, BOTH], once, 1, 5);
    assert [BOTH, BOTH][0 := ZEROED] == [ZEROED, BOTH] && [ZEROED, BOTH][1 := ZEROED] == [ZEROED, ZEROED];
    assert Zeroed(SEEN, 0, 0, 5).log == once.log && Zeroed(SEEN, 0, 0, 5) == once;
    assert Zeroed(once, 1, 0, 5).log == TWICE.log && Zeroed(once, 1, 0, 5) == TWICE;
    Going(5, [BOTH, BOTH], SEEN, StoreUp(0), 0, [ZEROED, BOTH], once, [StoreUp(1)] + es);
    Going(0, [ZEROED, BOTH], once, StoreUp(1), 0, [ZEROED, ZEROED], TWICE, es);
    all := [StoreUp(0)] + ([StoreUp(1)] + es);
  }

  /** Both make their row. */
  lemma BothReport(es: seq<Event>) returns (all: seq<Event>)
    ensures Run(0, USER, Up, Counted(0, [ZEROED, ZEROED]), TWICE, all) ==
              Run(0, USER, Up, Counted(0, [Done(5), Done(5)]), TWICE, es)
  {
    var done := Done(5);
    GoesStoreDown(0, [ZEROED, ZEROED], TWICE, 0, 5);
    GoesStoreDown(0, [TAKEN, ZEROED], TWICE, 1, 5);
    GoesEmit(0, [TAKEN, TAKEN], TWICE, 0, 5);
    GoesEmit(0, [done, TAKEN], TWICE, 1, 5);
    assert [ZEROED, ZEROED][0 := TAKEN] == [TAKEN, ZEROED] && [TAKEN, ZEROED][1 := TAKEN] == [TAKEN, TAKEN];
    assert [TAKEN, TAKEN][0 := done] == [done, TAKEN] && [done, TAKEN][1 := done] == [done, done];
    var es4 := [Emit(1)] + es;
    var es3 := [Emit(0)] + es4;
    var es2 := [StoreDown(1)] + es3;
    Going(0, [ZEROED, ZEROED], TWICE, StoreDown(0), 0, [TAKEN, ZEROED], TWICE, es2);
    Going(0, [TAKEN, ZEROED], TWICE, StoreDown(1), 0, [TAKEN, TAKEN], TWICE, es3);
    Going(0, [TAKEN, TAKEN], TWICE, Emit(0), 0, [done, TAKEN], TWICE, es4);
    Going(0, [done, TAKEN], TWICE, Emit(1), 0, [done, done], TWICE, es);
    all := [StoreDown(0)] + es2;
  }

  /** Two harvests at once can report ten bytes where five were added. */
  lemma BytesCanBeTakenTwice() returns (es: seq<Event>)
    ensures Run(0, USER, Up, INIT, NOTHING, es).0
    ensures var (_, s, a) := Run(0, USER, Up, INIT, NOTHING, es);
            Harvested(USER, Up, s) == 10 && a.added == 5 && a.doubled == 5
  {
    var report := BothReport([]);
    var store := BothStore(report);
    var load := BothLoad(store);
    OpeningRuns(load);
    es := OPENING + load;
    var done := Done(5);
    SumPush([done], RowsOf(USER, Up), done);
    SumPush([], RowsOf(USER, Up), done);
    SumPush([], RowOf(USER, Up), Row(USER, 1, 5, 0));
    assert [done] + [done] == [done, done] && [] + [done] == [done]
           && [] + [Row(USER, 1, 5, 0)] == [Row(USER, 1, 5, 0)];
  }

  // ----- the rows

  /** The rows of one harvest: one per user at most, above the threshold, and, while it holds
      the read lock, under the uid that the user has. */
  ghost predicate RowsNamed(min: int, s: State, h: Pass) {
    && (!h.at.Between? && !h.at.Finished? ==> h.at.email in h.visited)
    && (h.at.LoadedBoth? || h.at.StoredUp? || h.at.Stored? ==> h.at.up + h.at.down > min)
    && (forall i :: 0 <= i < |h.rows| ==>
          var row := h.rows[i];
          && row.email in h.visited && row.up + row.down > min && row.uid != 0
          && (!h.at.Finished? ==> row.uid == Uid(s, row.email))
          && (!h.at.Between? && !h.at.Finished? ==> row.email != h.at.email))
    && (forall i, j :: 0 <= i < j < |h.rows| ==> h.rows[i].email != h.rows[j].email)
  }

  ghost predicate AllRowsNamed(min: int, s: State) {
    forall p :: 0 <= p < |s.passes| ==> RowsNamed(min, s, s.passes[p])
  }

  lemma RowsStepNamed(min: int, s: State, e: Event)
    requires Shape(s) && AllRowsNamed(min, s) && !Outside(e) && !e.Begin? && Step(min, s, e).0
    ensures e.p < |Step(min, s, e).1.passes| && RowsNamed(min, Step(min, s, e).1, Step(min, s, e).1.passes[e.p])
  {
    assert RowsNamed(min, s, s.passes[e.p]);
  }

  lemma StepKeepsRows(min: int, s: State, e: Event)
    requires Shape(s) && AllRowsNamed(min, s) && Step(min, s, e).0
    ensures AllRowsNamed(min, Step(min, s, e).1)
  {
    if !Outside(e) && !e.Begin? {
      HarvestStep(min, s, e);
      RowsStepNamed(min, s, e);
    } else {
      var s' := Step(min, s, e).1;
      forall p | 0 <= p < |s'.passes| ensures RowsNamed(min, s', s'.passes[p]) {
        assert p < |s.passes| ==> RowsNamed(min, s, s.passes[p]);
      }
    }
  }

  lemma {:induction false} RunKeepsRows(min: int, email: string, d: Direction, s: State, a: Account, es: seq<Event>)
    requires Shape(s) && AllRowsNamed(min, s)
    ensures AllRowsNamed(min, Run(min, email, d, s, a, es).1)
    decreases |es|
  {
    if es != [] && Step(min, s, es[0]).0 {
      StepShape(min, s, es[0]);
      StepKeepsRows(min, s, es[0]);
      RunKeepsRows(min, email, d, Step(min, s, es[0]).1, Record(email, d, s, a, es[0]), es[1..]);
    }
  }
}
