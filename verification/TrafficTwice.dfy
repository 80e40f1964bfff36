/** When bytes are taken twice: exactly when two zero-storing harvests have loaded bytes of one
    cell between the same two zeros of that cell. */
module TrafficTwice {
  import opened Traffic

  /** What a run shows of one user's cells: how often each was zeroed, in which epoch of which
      cell each harvest made its latest load, and the epochs that a zeroing harvest has taken
      bytes of. A cell is named by the number of its storage. */
  datatype Marks = Marks(zeros: map<nat, nat>, loads: map<nat, (nat, nat)>, taken: set<(nat, nat)>)

  const NO_MARKS := Marks(map[], map[], {})

  function Epoch(m: Marks, id: nat): (nat, nat) {
    (id, if id in m.zeros then m.zeros[id] else 0)
  }

  /** Harvest `p`, which has loaded `v`, zeroes the cell `id`. */
  function Zero(m: Marks, p: nat, id: nat, v: nat): Marks {
    m.(zeros := m.zeros[id := Epoch(m, id).1 + 1],
       taken := if v > 0 && p in m.loads then m.taken + {m.loads[p]} else m.taken)
  }

  function Note(email: string, d: Direction, s: State, m: Marks, e: Event): Marks {
    if Loads(s, e, email, d) then m.(loads := m.loads[e.p := Epoch(m, LoadedId(s, e, email, d))])
    else if Zeroes(s, e, email, d) then Zero(m, e.p, s.passes[e.p].at.id, Loaded(s.passes[e.p].at, d))
    else m
  }

  /** A zero-store of a harvest that has loaded bytes of an epoch already taken from. */
  predicate Repeats(email: string, d: Direction, s: State, m: Marks, e: Event) {
    Zeroes(s, e, email, d) && Loaded(s.passes[e.p].at, d) > 0 && e.p in m.loads && m.loads[e.p] in m.taken
  }

  /** Some step of the run repeats. */
  predicate Repeated(min: int, email: string, d: Direction, s: State, es: seq<Event>, m: Marks)
    decreases |es|
  {
    && es != [] && Step(min, s, es[0]).0
    && (|| Repeats(email, d, s, m, es[0])
        || Repeated(min, email, d, Step(min, s, es[0]).1, es[1..], Note(email, d, s, m, es[0])))
  }

  // ----- the marks and the account tell the same

  /** The open stretches are those of the present epochs. */
  ghost predicate Opens(a: Account, m: Marks, at: map<(nat, nat), nat>) {
    forall id :: id in a.now ==> Epoch(m, id) in at && at[Epoch(m, id)] == a.now[id]
  }

  ghost predicate Past(s: State, a: Account, m: Marks, at: map<(nat, nat), nat>) {
    && (forall k :: k in at ==> at[k] < |a.log| && k.0 < |s.stores| && k.1 <= Epoch(m, k.0).1)
    && (forall id :: id in m.zeros ==> id < |s.stores|)
    && (forall k :: k in m.taken ==> k in at)
  }

  ghost predicate Apart(at: map<(nat, nat), nat>) {
    forall j, k :: j in at && k in at && at[j] == at[k] ==> j == k
  }

  /** The epochs taken from are those of covered stretches. */
  ghost predicate Takes(a: Account, m: Marks, at: map<(nat, nat), nat>)
    requires forall k :: k in at ==> at[k] < |a.log|
  {
    forall k :: k in at ==> (k in m.taken <==> a.log[at[k]].covered > 0)
  }

  /** `at` is the stretch of each epoch. */
  ghost predicate Indexed(s: State, a: Account, m: Marks, at: map<(nat, nat), nat>) {
    Past(s, a, m, at) && Opens(a, m, at) && Apart(at) && Takes(a, m, at)
  }

  ghost predicate Marked(email: string, d: Direction, s: State, a: Account, m: Marks, at: map<(nat, nat), nat>, p: nat)
    requires p < |s.passes|
  {
    Exposed(s.passes[p].at, d) && s.passes[p].at.email == email ==>
      p in m.loads && p in a.seen && m.loads[p] in at && at[m.loads[p]] == a.seen[p]
  }

  ghost predicate Linked(email: string, d: Direction, s: State, a: Account, m: Marks, at: map<(nat, nat), nat>) {
    Indexed(s, a, m, at) && forall p :: 0 <= p < |s.passes| ==> Marked(email, d, s, a, m, at, p)
  }

  lemma AttachIndexed(s: State, a: Account, m: Marks, at: map<(nat, nat), nat>, s': State)
    requires Indexed(s, a, m, at) && |s.stores| !in a.now && |s'.stores| == |s.stores| + 1
    ensures Indexed(s', a.(log := a.log + [Stretch(0, 0, false)], now := a.now[|s.stores| := |a.log|]), m,
                    at[Epoch(m, |s.stores|) := |a.log|])
  {
    assert |s.stores| !in m.zeros && Epoch(m, |s.stores|) !in at;
  }

  lemma AttachLinked(min: int, email: string, d: Direction, s: State, a: Account, m: Marks, at: map<(nat, nat), nat>)
    requires Sound(email, d, s, a) && Linked(email, d, s, a, m, at) && email !in s.live
    ensures Linked(email, d, Step(min, s, Attach(email)).1, Record(email, d, s, a, Attach(email)), m,
                   at[Epoch(m, |s.stores|) := |a.log|])
  {
    var s', a', at' :=
          Step(min, s, Attach(email)).1, Record(email, d, s, a, Attach(email)), at[Epoch(m, |s.stores|) := |a.log|];
    AttachEffect(min, email, d, s, a);
    AttachIndexed(s, a, m, at, s');
    assert Epoch(m, |s.stores|) !in at;
    forall p | 0 <= p < |s'.passes| ensures Marked(email, d, s', a', m, at', p) {
      assert Marked(email, d, s, a, m, at, p);
    }
  }

  lemma AddLinked(min: int, email: string, d: Direction, s: State, a: Account, m: Marks, at: map<(nat, nat), nat>,
                  id: nat, n: nat)
    requires Sound(email, d, s, a) && Linked(email, d, s, a, m, at) && id < |s.stores| && s.stores[id].owner == email
    ensures Linked(email, d, Step(min, s, Add(id, d, n)).1, Record(email, d, s, a, Add(id, d, n)), m, at)
  {
    var s', a' := Step(min, s, Add(id, d, n)).1, Record(email, d, s, a, Add(id, d, n));
    AddEffect(min, email, d, s, a, id, n);
    forall p | 0 <= p < |s'.passes| ensures Marked(email, d, s', a', m, at, p) {
      assert Marked(email, d, s, a, m, at, p);
    }
  }

  lemma OthersLinked(min: int, email: string, d: Direction, s: State, a: Account, m: Marks, at: map<(nat, nat), nat>,
                     e: Event)
    requires Sound(email, d, s, a) && Linked(email, d, s, a, m, at) && Outside(e) && Step(min, s, e).0
    requires !Moves(s, e, email, d)
    ensures Linked(email, d, Step(min, s, e).1, a, m, at)
  {
    var s' := Step(min, s, e).1;
    OthersEffect(min, email, d, s, a, e);
    forall p | 0 <= p < |s'.passes| ensures Marked(email, d, s', a, m, at, p) {
      assert Marked(email, d, s, a, m, at, p);
    }
  }

  lemma BeginLinked(min: int, email: string, d: Direction, s: State, a: Account, m: Marks, at: map<(nat, nat), nat>,
                    reset: bool)
    requires Linked(email, d, s, a, m, at)
    ensures Linked(email, d, Step(min, s, Begin(reset)).1, a, m, at)
  {
    var s' := Step(min, s, Begin(reset)).1;
    forall p | 0 <= p < |s'.passes| ensures Marked(email, d, s', a, m, at, p) {
      assert p < |s.passes| ==> Marked(email, d, s, a, m, at, p);
    }
  }

  lemma NoteQuiet(email: string, d: Direction, s: State, m: Marks, e: Event)
    requires !Zeroes(s, e, email, d)
    ensures Note(email, d, s, m, e) ==
            if Loads(s, e, email, d) then m.(loads := m.loads[e.p := Epoch(m, LoadedId(s, e, email, d))]) else m
  {
  }

  lemma QuietMarked(min: int, email: string, d: Direction, s: State, a: Account, m: Marks, at: map<(nat, nat), nat>,
                    e: Event)
    requires Sound(email, d, s, a) && Linked(email, d, s, a, m, at)
    requires !Outside(e) && !e.Begin? && Step(min, s, e).0 && !Zeroes(s, e, email, d)
    ensures e.p < |Step(min, s, e).1.passes|
    ensures Marked(email, d, Step(min, s, e).1, Record(email, d, s, a, e), Note(email, d, s, m, e), at, e.p)
  {
    HarvestStep(min, s, e);
    QuietFrame(min, email, d, s, a, e);
    QuietPlace(min, email, d, s, e);
    NoteQuiet(email, d, s, m, e);
    assert Marked(email, d, s, a, m, at, e.p);
  }

  /** The other harvests' loads are remembered as before. */
  lemma OthersMarked(email: string, d: Direction, s: State, a: Account, m: Marks, at: map<(nat, nat), nat>,
                     s': State, a': Account, m': Marks, r: nat, q: nat)
    requires Linked(email, d, s, a, m, at) && q != r && q < |s.passes| && q < |s'.passes| && s'.passes[q] == s.passes[q]
    requires a'.seen - {r} == a.seen - {r} && m'.loads - {r} == m.loads - {r}
    ensures Marked(email, d, s', a', m', at, q)
  {
    assert Marked(email, d, s, a, m, at, q);
    assert q in a.seen ==> q in a'.seen - {r} && (a'.seen - {r})[q] == (a.seen - {r})[q];
    assert q in m.loads ==> q in m'.loads - {r} && (m'.loads - {r})[q] == (m.loads - {r})[q];
  }

  lemma IndexedStill(s: State, a: Account, m: Marks, at: map<(nat, nat), nat>, s': State, a': Account, m': Marks)
    requires Indexed(s, a, m, at) && |s'.stores| == |s.stores|
    requires a'.log == a.log && a'.now == a.now && m'.zeros == m.zeros && m'.taken == m.taken
    ensures Indexed(s', a', m', at)
  {
    assert forall id :: Epoch(m', id) == Epoch(m, id);
  }

  lemma QuietMaps(min: int, email: string, d: Direction, s: State, a: Account, m: Marks, e: Event)
    requires Shape(s) && !Outside(e) && !e.Begin? && Step(min, s, e).0 && !Zeroes(s, e, email, d)
    ensures var s', a', m' := Step(min, s, e).1, Record(email, d, s, a, e), Note(email, d, s, m, e);
            && a'.seen - {e.p} == a.seen - {e.p} && m'.loads - {e.p} == m.loads - {e.p}
            && a'.log == a.log && a'.now == a.now && m'.zeros == m.zeros && m'.taken == m.taken
            && |s'.stores| == |s.stores| && e.p < |s.passes| && s'.passes == s.passes[e.p := s'.passes[e.p]]
  {
    HarvestStep(min, s, e);
    QuietFrame(min, email, d, s, a, e);
    NoteQuiet(email, d, s, m, e);
  }

  lemma QuietLinked(min: int, email: string, d: Direction, s: State, a: Account, m: Marks, at: map<(nat, nat), nat>,
                    e: Event)
    requires Sound(email, d, s, a) && Linked(email, d, s, a, m, at)
    requires !Outside(e) && !e.Begin? && Step(min, s, e).0 && !Zeroes(s, e, email, d)
    ensures Linked(email, d, Step(min, s, e).1, Record(email, d, s, a, e), Note(email, d, s, m, e), at)
  {
    var s', a', m' := Step(min, s, e).1, Record(email, d, s, a, e), Note(email, d, s, m, e);
    QuietMaps(min, email, d, s, a, m, e);
    IndexedStill(s, a, m, at, s', a', m');
    QuietMarked(min, email, d, s, a, m, at, e);
    forall q | 0 <= q < |s'.passes| ensures Marked(email, d, s', a', m', at, q) {
      if q != e.p {
        OthersMarked(email, d, s, a, m, at, s', a', m', e.p, q);
      }
    }
  }

  lemma ZeroEpoch(s: State, a: Account, m: Marks, at: map<(nat, nat), nat>, p: nat, id: nat, v: nat, j: nat)
    requires Indexed(s, a, m, at)
    ensures var m' := Zero(m, p, id, v);
            && Epoch(m', j) == (if j == id then (id, Epoch(m, id).1 + 1) else Epoch(m, j))
            && Epoch(m', id) !in at && Epoch(m', id) !in m.taken
  {
  }

  /** Which epochs have been taken from. */
  lemma ZeroTaken(s: State, a: Account, m: Marks, at: map<(nat, nat), nat>, p: nat, id: nat, v: nat, k: (nat, nat))
    requires Indexed(s, a, m, at) && id in a.now && a.now[id] < |a.log|
    requires p in a.seen && a.seen[p] < |a.log| && p in m.loads && m.loads[p] in at && at[m.loads[p]] == a.seen[p]
    requires k in at
    ensures at[k] < |Zeroed(a, p, id, v).log|
    ensures k in Zero(m, p, id, v).taken <==> Zeroed(a, p, id, v).log[at[k]].covered > 0
  {
    ZeroedStretch(a, p, id, v, at[k]);
  }

  lemma ZeroPast(s: State, a: Account, m: Marks, at: map<(nat, nat), nat>, s': State, p: nat, id: nat, v: nat)
    requires Indexed(s, a, m, at) && |s'.stores| == |s.stores| && id in a.now && id < |s.stores| && a.now[id] < |a.log|
    requires p in a.seen && a.seen[p] < |a.log| && p in m.loads && m.loads[p] in at
    ensures var m' := Zero(m, p, id, v); Past(s', Zeroed(a, p, id, v), m', at[Epoch(m', id) := |a.log|])
  {
    var a', m' := Zeroed(a, p, id, v), Zero(m, p, id, v);
    var at' := at[Epoch(m', id) := |a.log|];
    ZeroEpoch(s, a, m, at, p, id, v, id);
    ZeroedStretch(a, p, id, v, a.seen[p]);
    forall k | k in at' ensures at'[k] < |a'.log| && k.0 < |s'.stores| && k.1 <= Epoch(m', k.0).1 {
      ZeroEpoch(s, a, m, at, p, id, v, k.0);
    }
  }

  lemma ZeroOpens(s: State, a: Account, m: Marks, at: map<(nat, nat), nat>, p: nat, id: nat, v: nat)
    requires Indexed(s, a, m, at) && id in a.now && a.now[id] < |a.log| && p in a.seen && a.seen[p] < |a.log|
    ensures var m' := Zero(m, p, id, v);
            Opens(Zeroed(a, p, id, v), m', at[Epoch(m', id) := |a.log|]) && Apart(at[Epoch(m', id) := |a.log|])
  {
    var a', m' := Zeroed(a, p, id, v), Zero(m, p, id, v);
    ZeroEpoch(s, a, m, at, p, id, v, id);
    forall j | j in a'.now
      ensures var at' := at[Epoch(m', id) := |a.log|]; Epoch(m', j) in at' && at'[Epoch(m', j)] == a'.now[j]
    {
      ZeroEpoch(s, a, m, at, p, id, v, j);
    }
  }

  lemma ZeroIndexed(s: State, a: Account, m: Marks, at: map<(nat, nat), nat>, s': State, p: nat, id: nat, v: nat)
    requires Indexed(s, a, m, at) && |s'.stores| == |s.stores| && id in a.now && id < |s.stores| && a.now[id] < |a.log|
    requires p in a.seen && a.seen[p] < |a.log| && p in m.loads && m.loads[p] in at && at[m.loads[p]] == a.seen[p]
    ensures var m' := Zero(m, p, id, v); Indexed(s', Zeroed(a, p, id, v), m', at[Epoch(m', id) := |a.log|])
  {
    var a', m' := Zeroed(a, p, id, v), Zero(m, p, id, v);
    var at' := at[Epoch(m', id) := |a.log|];
    ZeroEpoch(s, a, m, at, p, id, v, id);
    ZeroPast(s, a, m, at, s', p, id, v);
    ZeroOpens(s, a, m, at, p, id, v);
    ZeroedStretch(a, p, id, v, a.seen[p]);
    forall k | k in at' ensures k in m'.taken <==> a'.log[at'[k]].covered > 0 {
      if k in at {
        ZeroTaken(s, a, m, at, p, id, v, k);
      }
    }
  }

  lemma ZeroDoubles(email: string, d: Direction, s: State, a: Account, m: Marks, at: map<(nat, nat), nat>, e: Event)
    requires Zeroes(s, e, email, d) && (forall k :: k in at ==> at[k] < |a.log|) && Takes(a, m, at)
    requires Marked(email, d, s, a, m, at, e.p)
    requires s.passes[e.p].at.id in a.now && a.now[s.passes[e.p].at.id] < |a.log|
    ensures var a' := Zeroed(a, e.p, s.passes[e.p].at.id, Loaded(s.passes[e.p].at, d));
            if Repeats(email, d, s, m, e) then a'.doubled > a.doubled else a'.doubled == a.doubled
  {
  }

  lemma LinkedAfterZero(email: string, d: Direction, s: State, a: Account, m: Marks, at: map<(nat, nat), nat>,
                        s': State,
                        p: nat, id: nat, v: nat)
    requires Linked(email, d, s, a, m, at) && p < |s.passes| && Exposed(s.passes[p].at, d)
    requires s.passes[p].at.email == email
    requires |s'.passes| == |s.passes| && s'.passes == s.passes[p := s'.passes[p]] && !Exposed(s'.passes[p].at, d)
    requires |s'.stores| == |s.stores| && id in a.now && id < |s.stores| && a.now[id] < |a.log| && p in a.seen
    requires a.seen[p] < |a.log|
    ensures var m' := Zero(m, p, id, v); Linked(email, d, s', Zeroed(a, p, id, v), m', at[Epoch(m', id) := |a.log|])
  {
    var a', m' := Zeroed(a, p, id, v), Zero(m, p, id, v);
    assert Marked(email, d, s, a, m, at, p);
    ZeroIndexed(s, a, m, at, s', p, id, v);
    var at' := at[Epoch(m', id) := |a.log|];
    forall q | 0 <= q < |s'.passes| ensures Marked(email, d, s', a', m', at', q) {
      ZeroMarked(email, d, s, a, m, at, s', p, id, v, q);
    }
  }

  lemma NoteZero(email: string, d: Direction, s: State, m: Marks, e: Event)
    requires Zeroes(s, e, email, d)
    ensures Note(email, d, s, m, e) == Zero(m, e.p, s.passes[e.p].at.id, Loaded(s.passes[e.p].at, d))
  {
  }

  /** The state and the account after a zero-store. */
  lemma ZeroFrame(min: int, email: string, d: Direction, s: State, a: Account, e: Event)
    requires Sound(email, d, s, a) && Step(min, s, e).0 && Zeroes(s, e, email, d)
    ensures var s', at := Step(min, s, e).1, s.passes[e.p].at;
            && Exposed(at, d) && at.email == email && !Exposed(s'.passes[e.p].at, d)
            && |s'.passes| == |s.passes| && s'.passes == s.passes[e.p := s'.passes[e.p]] && |s'.stores| == |s.stores|
            && at.id in a.now && at.id < |s.stores| && a.now[at.id] < |a.log| && e.p in a.seen && a.seen[e.p] < |a.log|
            && Record(email, d, s, a, e) == Zeroed(a, e.p, at.id, Loaded(at, d))
  {
    HarvestStep(min, s, e);
    ZeroEffect(min, email, d, s, a, e);
  }

  lemma ZeroLinked(min: int, email: string, d: Direction, s: State, a: Account, m: Marks, at: map<(nat, nat), nat>,
                   e: Event)
      returns (at': map<(nat, nat), nat>)
    requires Sound(email, d, s, a) && Linked(email, d, s, a, m, at) && Step(min, s, e).0 && Zeroes(s, e, email, d)
    ensures Linked(email, d, Step(min, s, e).1, Record(email, d, s, a, e), Note(email, d, s, m, e), at')
  {
    ZeroFrame(min, email, d, s, a, e);
    NoteZero(email, d, s, m, e);
    var id, v := s.passes[e.p].at.id, Loaded(s.passes[e.p].at, d);
    LinkedAfterZero(email, d, s, a, m, at, Step(min, s, e).1, e.p, id, v);
    at' := at[Epoch(Zero(m, e.p, id, v), id) := |a.log|];
  }

  lemma ZeroCounts(min: int, email: string, d: Direction, s: State, a: Account, m: Marks, at: map<(nat, nat), nat>,
                   e: Event)
    requires Sound(email, d, s, a) && Linked(email, d, s, a, m, at) && Step(min, s, e).0 && Zeroes(s, e, email, d)
    ensures var a' := Record(email, d, s, a, e);
            if Repeats(email, d, s, m, e) then a'.doubled > a.doubled else a'.doubled == a.doubled
  {
    ZeroFrame(min, email, d, s, a, e);
    assert Marked(email, d, s, a, m, at, e.p);
    ZeroDoubles(email, d, s, a, m, at, e);
  }

  lemma ZeroMarked(email: string, d: Direction, s: State, a: Account, m: Marks, at: map<(nat, nat), nat>, s': State,
                   p: nat, id: nat, v: nat, q: nat)
    requires Linked(email, d, s, a, m, at) && p < |s.passes| && q < |s'.passes| == |s.passes|
    requires s'.passes == s.passes[p := s'.passes[p]]
    requires !Exposed(s'.passes[p].at, d)
    ensures var m' := Zero(m, p, id, v); Marked(email, d, s', Zeroed(a, p, id, v), m', at[Epoch(m', id) := |a.log|], q)
  {
    assert Marked(email, d, s, a, m, at, q);
    ZeroEpoch(s, a, m, at, p, id, v, id);
  }

  lemma StepLinked(min: int, email: string, d: Direction, s: State, a: Account, m: Marks, at: map<(nat, nat), nat>,
                   e: Event)
      returns (at': map<(nat, nat), nat>)
    requires Sound(email, d, s, a) && Linked(email, d, s, a, m, at) && Step(min, s, e).0
    ensures Linked(email, d, Step(min, s, e).1, Record(email, d, s, a, e), Note(email, d, s, m, e), at')
  {
    at' := at;
    if Zeroes(s, e, email, d) {
      at' := ZeroLinked(min, email, d, s, a, m, at, e);
    } else if e == Attach(email) {
      AttachLinked(min, email, d, s, a, m, at);
      at' := at[Epoch(m, |s.stores|) := |a.log|];
    } else if Moves(s, e, email, d) {
      AddLinked(min, email, d, s, a, m, at, e.id, e.n);
    } else if Outside(e) {
      OthersSound(min, email, d, s, a, e);
      OthersLinked(min, email, d, s, a, m, at, e);
    } else if e.Begin? {
      BeginSound(min, email, d, s, a, e.reset);
      BeginLinked(min, email, d, s, a, m, at, e.reset);
    } else {
      QuietFrame(min, email, d, s, a, e);
      QuietLinked(min, email, d, s, a, m, at, e);
    }
  }

  lemma StepCounts(min: int, email: string, d: Direction, s: State, a: Account, m: Marks, at: map<(nat, nat), nat>,
                   e: Event)
    requires Sound(email, d, s, a) && Linked(email, d, s, a, m, at) && Step(min, s, e).0
    ensures var a' := Record(email, d, s, a, e);
            if Repeats(email, d, s, m, e) then a'.doubled > a.doubled else a'.doubled == a.doubled
  {
    if Zeroes(s, e, email, d) {
      ZeroCounts(min, email, d, s, a, m, at, e);
    }
  }

  /** However many harvests there are, bytes are taken twice exactly when a run repeats. */
  lemma {:induction false} RunRepeats(min: int, email: string, d: Direction, s: State, a: Account, es: seq<Event>,
                                      m: Marks,
                                      at: map<(nat, nat), nat>)
    requires Sound(email, d, s, a) && Linked(email, d, s, a, m, at) && Run(min, email, d, s, a, es).0
    ensures Run(min, email, d, s, a, es).2.doubled >= a.doubled
    ensures Run(min, email, d, s, a, es).2.doubled > a.doubled <==> Repeated(min, email, d, s, es, m)
    decreases |es|
  {
    if es != [] {
      var e := es[0];
      StepSound(min, email, d, s, a, e);
      var at' := StepLinked(min, email, d, s, a, m, at, e);
      StepCounts(min, email, d, s, a, m, at, e);
      RunRepeats(min, email, d, Step(min, s, e).1, Record(email, d, s, a, e), es[1..], Note(email, d, s, m, e), at');
    }
  }

  /** An epoch for each stretch: a present one for an open stretch, an earlier one of some
      cell for an ended one. */
  ghost function EpochOf(a: Account, id: nat, k: nat): (nat, nat) {
    if j :| j in a.now && a.now[j] == k then (j, |a.log|) else (id, k)
  }

  lemma EpochsApart(email: string, d: Direction, s: State, a: Account, id: nat)
    requires Open(email, d, s, a)
    ensures forall k :: 0 <= k < |a.log| ==> (EpochOf(a, id, k).0 in a.now || EpochOf(a, id, k).0 == id)
    ensures forall k :: 0 <= k < |a.log| ==> EpochOf(a, id, k).1 <= |a.log|
    ensures forall k, l :: 0 <= k < |a.log| && 0 <= l < |a.log| && EpochOf(a, id, k) == EpochOf(a, id, l) ==> k == l
    ensures forall j :: j in a.now ==> EpochOf(a, id, a.now[j]) == (j, |a.log|)
  {
  }

  ghost function Epochs(email: string, d: Direction, s: State, a: Account, id: nat): (at: map<(nat, nat), nat>)
    requires Open(email, d, s, a)
    ensures forall k :: 0 <= k < |a.log| ==> EpochOf(a, id, k) in at && at[EpochOf(a, id, k)] == k
    ensures forall e :: e in at ==> at[e] < |a.log| && e == EpochOf(a, id, at[e])
  {
    EpochsApart(email, d, s, a, id);
    map k | 0 <= k < |a.log| :: EpochOf(a, id, k) := k
  }

  ghost function MarksOf(a: Account, id: nat, at: map<(nat, nat), nat>): Marks
    requires forall e :: e in at ==> at[e] < |a.log|
  {
    Marks(map j | j in a.now :: |a.log|, map p | p in a.seen :: EpochOf(a, id, a.seen[p]),
          set e | e in at && a.log[at[e]].covered > 0)
  }

  lemma EpochsIndexed(email: string, d: Direction, s: State, a: Account, id: nat)
    requires Open(email, d, s, a) && id in a.now
    ensures var at := Epochs(email, d, s, a, id); Indexed(s, a, MarksOf(a, id, at), at)
  {
    var at := Epochs(email, d, s, a, id);
    var m := MarksOf(a, id, at);
    EpochsApart(email, d, s, a, id);
    forall e | e in at ensures e.0 in a.now && e.1 <= |a.log| {
      assert e == EpochOf(a, id, at[e]);
    }
    assert Past(s, a, m, at);
    assert Opens(a, m, at);
  }

  lemma EpochsMarked(email: string, d: Direction, s: State, a: Account, id: nat, p: nat)
    requires Open(email, d, s, a) && id in a.now && p < |s.passes| && Holds(email, d, s, a, p)
    ensures var at := Epochs(email, d, s, a, id); Marked(email, d, s, a, MarksOf(a, id, at), at, p)
  {
  }

  /** Every sound state has marks that agree with it, and so a run from it repeats or not. */
  lemma MarksFor(email: string, d: Direction, s: State, a: Account) returns (m: Marks, at: map<(nat, nat), nat>)
    requires Sound(email, d, s, a)
    ensures Linked(email, d, s, a, m, at)
  {
    m, at := NO_MARKS, map[];
    if a.now == map[] {
      assert forall p :: 0 <= p < |s.passes| ==> Holds(email, d, s, a, p);
    } else {
      var id :| id in a.now;
      at := Epochs(email, d, s, a, id);
      m := MarksOf(a, id, at);
      EpochsIndexed(email, d, s, a, id);
      forall p | 0 <= p < |s.passes| ensures Marked(email, d, s, a, m, at, p) {
        EpochsMarked(email, d, s, a, id, p);
      }
    }
  }

  /** From the beginning: nothing is taken twice, if and only if no harvest that has loaded
      bytes zeroes a cell after bytes of the same epoch were taken; then harvested bytes were
      added, each once. */
  lemma TwiceIsExact(min: int, email: string, d: Direction, es: seq<Event>)
    requires Run(min, email, d, INIT, NOTHING, es).0
    ensures var (_, s, a) := Run(min, email, d, INIT, NOTHING, es);
            && (a.doubled == 0 <==> !Repeated(min, email, d, INIT, es, NO_MARKS))
            && (!Repeated(min, email, d, INIT, es, NO_MARKS) ==> Harvested(email, d, s) <= a.added)
  {
    TrafficIsConserved(min, email, d, es);
    RunRepeats(min, email, d, INIT, NOTHING, es, NO_MARKS, map[]);
  }
}
