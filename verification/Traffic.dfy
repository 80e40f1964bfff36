/** Traffic accounting: connections add to atomic cells while harvests read, zero and report
    them (core/xray/user.go over common/counter/traffic.go). Every atomic operation is one
    step, steps of all parties interleave freely, and any number of harvests may be under way
    at once, since a harvest takes the lock for reading only. Byte counts are unbounded.
    `Record` keeps, beside a run, an account of the bytes of one user in one direction; the
    theorems relate it to the real state. */
module Traffic {
  datatype Direction = Up | Down

  /** A TrafficStorage: two atomic cells, allocated for one user. */
  datatype Storage = Storage(owner: string, up: nat, down: nat) {
    function Get(d: Direction): nat { if d.Up? then up else down }

    function Set(d: Direction, n: nat): Storage { if d.Up? then this.(up := n) else this.(down := n) }
  }

  /** A harvested row; `email` is the key it was found under and is not sent. */
  datatype Row = Row(email: string, uid: int, up: nat, down: nat) {
    function Get(d: Direction): nat { if d.Up? then up else down }
  }

  /** Where a harvest stands in the body of its Range loop. */
  datatype Place =
    | Between
    | LoadedUp(id: nat, email: string, up: nat)
    | LoadedBoth(id: nat, email: string, up: nat, down: nat)
    | StoredUp(id: nat, email: string, up: nat, down: nat)
    | Stored(id: nat, email: string, up: nat, down: nat)
    | Finished

  /** One harvest, with the keys it has visited and the rows it has made. */
  datatype Pass = Pass(reset: bool, visited: set<string>, rows: seq<Row>, at: Place)

  /** `stores[i]` is the i-th storage ever made; `live` is the concurrent map of counters;
      `passes` are all harvests ever begun. */
  datatype State = State(stores: seq<Storage>, live: map<string, nat>, uidMap: map<string, int>, passes: seq<Pass>) {
    function Move(p: nat, at: Place): State
      requires p < |passes|
    {
      this.(passes := passes[p := passes[p].(at := at)])
    }
  }

  datatype Event =
    | Attach(email: string)                  // GetCounter stores a new storage
    | Add(id: nat, d: Direction, n: nat)     // a connection adds through its storage pointer
    | Detach(email: string)                  // TrafficCounter.Delete
    | SetUid(email: string, uid: int)        // AddUsers, under the write lock
    | DropUid(email: string)                 // DelUsers, under the write lock
    | Begin(reset: bool)
    | LoadUp(p: nat, id: nat)                // Range hands a key and its storage to harvest p
    | LoadDown(p: nat)
    | StoreUp(p: nat)
    | StoreDown(p: nat)
    | Emit(p: nat)
    | End(p: nat)

  predicate NoneRunning(passes: seq<Pass>) {
    forall p :: 0 <= p < |passes| ==> passes[p].at.Finished?
  }

  /** The effect of an event, if it can happen. `min` is the node's report threshold. Range
      visits no key twice, but may hand over a storage that was replaced meanwhile. */
  function Step(min: int, s: State, e: Event): (r: (bool, State)) {
    var no := (false, s);
    match e
    case Attach(email) =>
      if email in s.live then no
      else (true, s.(stores := s.stores + [Storage(email, 0, 0)], live := s.live[email := |s.stores|]))
    case Add(id, d, n) =>
      if id >= |s.stores| then no
      else (true, s.(stores := s.stores[id := s.stores[id].Set(d, s.stores[id].Get(d) + n)]))
    case Detach(email) => (true, s.(live := s.live - {email}))
    case SetUid(email, uid) => if NoneRunning(s.passes) then (true, s.(uidMap := s.uidMap[email := uid])) else no
    case DropUid(email) => if NoneRunning(s.passes) then (true, s.(uidMap := s.uidMap - {email})) else no
    case Begin(reset) => (true, s.(passes := s.passes + [Pass(reset, {}, [], Between)]))
    case LoadUp(p, id) =>
      if p >= |s.passes| || !s.passes[p].at.Between? || id >= |s.stores|
         || s.stores[id].owner in s.passes[p].visited then no
      else
        var st, h := s.stores[id], s.passes[p];
        (true, s.(passes := s.passes[p := h.(visited := h.visited + {st.owner}, at := LoadedUp(id, st.owner, st.up))]))
    case LoadDown(p) =>
      if p >= |s.passes| || !s.passes[p].at.LoadedUp? || s.passes[p].at.id >= |s.stores| then no
      else
        var h := s.passes[p].at;
        var down := s.stores[h.id].down;
        (true, s.Move(p, if h.up + down > min then LoadedBoth(h.id, h.email, h.up, down) else Between))
    case StoreUp(p) =>
      if p >= |s.passes| || !s.passes[p].at.LoadedBoth? || s.passes[p].at.id >= |s.stores| then no
      else
        var h := s.passes[p].at;
        if !s.passes[p].reset then (true, s.Move(p, Stored(h.id, h.email, h.up, h.down)))
        else (true,
              s.(stores := s.stores[h.id := s.stores[h.id].(up := 0)]).Move(p, StoredUp(h.id, h.email, h.up, h.down)))
    case StoreDown(p) =>
      if p >= |s.passes| || !s.passes[p].at.StoredUp? || s.passes[p].at.id >= |s.stores| then no
      else
        var h := s.passes[p].at;
        (true, s.(stores := s.stores[h.id := s.stores[h.id].(down := 0)]).Move(p, Stored(h.id, h.email, h.up, h.down)))
    case Emit(p) =>
      if p >= |s.passes| || !s.passes[p].at.Stored? then no
      else
        var h, pass := s.passes[p].at, s.passes[p];
        if Uid(s, h.email) == 0 then (true, s.(live := s.live - {h.email}).Move(p, Between))
        else
          var row := Row(h.email, Uid(s, h.email), h.up, h.down);
          (true, s.(passes := s.passes[p := pass.(rows := pass.rows + [row], at := Between)]))
    case End(p) =>
      if p >= |s.passes| || !s.passes[p].at.Between? then no else (true, s.Move(p, Finished))
  }

  function Uid(s: State, email: string): int {
    if email in s.uidMap then s.uidMap[email] else 0
  }

  const INIT := State([], map[], map[], [])

  // ----- the account

  /** What a cell took in from one zero to the next. A load sees the front of the stretch that
      is open then; `covered` is the longest front that a zeroing harvest has taken. */
  datatype Stretch = Stretch(len: nat, covered: nat, ended: bool)

  /** The account of one user in one direction: bytes added, bytes that harvests have taken
      although another harvest had, and amounts taken for a user without a uid. `now` is the
      open stretch of each of the user's storages, `seen` the stretch that a harvest loaded. */
  datatype Account = Account(added: nat, doubled: nat, orphaned: nat, log: seq<Stretch>, now: map<nat, nat>,
                             seen: map<nat, nat>)

  const NOTHING := Account(0, 0, 0, [], map[], map[])

  function Max(a: nat, b: nat): nat { if a < b then b else a }

  function Min(a: nat, b: nat): nat { if a < b then a else b }

  /** Harvest `p` stores zero into storage `id` after it has loaded `v`. */
  function Zeroed(a: Account, p: nat, id: nat, v: nat): Account {
    if p !in a.seen || a.seen[p] >= |a.log| || id !in a.now || a.now[id] >= |a.log| then a
    else
      var k := a.seen[p];
      var log := a.log[k := a.log[k].(covered := Max(a.log[k].covered, v))];
      var now := a.now[id];
      a.(doubled := a.doubled + Min(a.log[k].covered, v),
         log := log[now := log[now].(ended := true)] + [Stretch(0, 0, false)],
         now := a.now[id := |a.log|])
  }

  /** The harvest has loaded this cell and not yet stored zero into it. */
  predicate Exposed(at: Place, d: Direction) {
    if d.Up? then at.LoadedUp? || at.LoadedBoth? else at.LoadedBoth? || at.StoredUp?
  }

  function Loaded(at: Place, d: Direction): nat
    requires Exposed(at, d)
  {
    if d.Up? then at.up else at.down
  }

  /** The event is a zero-store of a resetting harvest into a cell of `email`. */
  predicate Zeroes(s: State, e: Event, email: string, d: Direction) {
    && (e.StoreUp? || e.StoreDown?) && (e.StoreUp? <==> d.Up?) && e.p < |s.passes| && s.passes[e.p].reset
    && (if d.Up? then s.passes[e.p].at.LoadedBoth? else s.passes[e.p].at.StoredUp?)
    && s.passes[e.p].at.email == email
  }

  /** The event loads a cell of `email`, in storage `LoadedId`. */
  predicate Loads(s: State, e: Event, email: string, d: Direction) {
    if d.Up? then e.LoadUp? && e.id < |s.stores| && s.stores[e.id].owner == email
    else e.LoadDown? && e.p < |s.passes| && s.passes[e.p].at.LoadedUp? && s.passes[e.p].at.email == email
  }

  function LoadedId(s: State, e: Event, email: string, d: Direction): nat
    requires Loads(s, e, email, d)
  {
    if d.Up? then e.id else s.passes[e.p].at.id
  }

  /** The account after an event that happens in `s`. */
  function Record(email: string, d: Direction, s: State, a: Account, e: Event): Account {
    if e == Attach(email) then
      a.(log := a.log + [Stretch(0, 0, false)], now := a.now[|s.stores| := |a.log|])
    else if e.Add? && e.d == d && e.id in a.now && a.now[e.id] < |a.log| then
      var k := a.now[e.id];
      a.(added := a.added + e.n, log := a.log[k := a.log[k].(len := a.log[k].len + e.n)])
    else if Loads(s, e, email, d) && LoadedId(s, e, email, d) in a.now then
      a.(seen := a.seen[e.p := a.now[LoadedId(s, e, email, d)]])
    else if Zeroes(s, e, email, d) then
      Zeroed(a, e.p, s.passes[e.p].at.id, Loaded(s.passes[e.p].at, d))
    else if e.Emit? && e.p < |s.passes| && s.passes[e.p].at.Stored? && s.passes[e.p].reset
            && s.passes[e.p].at.email == email
            && Uid(s, email) == 0 then
      a.(orphaned := a.orphaned + if d.Up? then s.passes[e.p].at.up else s.passes[e.p].at.down)
    else a
  }

  /** State and account after a run of events, if all of them can happen. */
  function Run(min: int, email: string, d: Direction, s: State, a: Account, es: seq<Event>): (r: (bool, State, Account))
    decreases |es|
  {
    if es == [] then (true, s, a)
    else
      var (ok, s') := Step(min, s, es[0]);
      if !ok then (false, s, a) else Run(min, email, d, s', Record(email, d, s, a, es[0]), es[1..])
  }

  // ----- sums

  function Sum<T>(xs: seq<T>, f: T -> nat): nat {
    if xs == [] then 0 else Sum(xs[..|xs| - 1], f) + f(xs[|xs| - 1])
  }

  lemma {:induction false} SumUpdate<T>(xs: seq<T>, f: T -> nat, i: nat, x: T)
    requires i < |xs|
    ensures Sum(xs[i := x], f) + f(xs[i]) == Sum(xs, f) + f(x)
  {
    var n := |xs| - 1;
    if i < n {
      assert xs[i := x][..n] == xs[..n][i := x];
      SumUpdate(xs[..n], f, i, x);
    } else {
      assert xs[i := x][..n] == xs[..n];
    }
  }

  lemma SumPush<T>(xs: seq<T>, f: T -> nat, x: T)
    ensures Sum(xs + [x], f) == Sum(xs, f) + f(x)
  {
    assert (xs + [x])[..|xs|] == xs;
  }

  // ----- where the bytes are

  function CellOf(email: string, d: Direction): Storage -> nat {
    (st: Storage) => if st.owner == email then st.Get(d) else 0
  }

  function RowOf(email: string, d: Direction): Row -> nat {
    (row: Row) => if row.email == email then row.Get(d) else 0
  }

  /** Bytes in the rows of a resetting harvest. */
  function RowsOf(email: string, d: Direction): Pass -> nat {
    (h: Pass) => if h.reset then Sum(h.rows, RowOf(email, d)) else 0
  }

  /** Bytes that a resetting harvest has taken but not yet put into a row. */
  function HandOf(email: string, d: Direction): Pass -> nat {
    (h: Pass) =>
      if h.reset && (h.at.Stored? || (h.at.StoredUp? && d.Up?)) && h.at.email == email then
        (if d.Up? then h.at.up else h.at.down)
      else 0
  }

  function LostOf(): Stretch -> nat {
    (st: Stretch) => if st.ended && st.covered <= st.len then st.len - st.covered else 0
  }

  function CoveredOf(): Stretch -> nat {
    (st: Stretch) => st.covered
  }

  function Harvested(email: string, d: Direction, s: State): nat {
    Sum(s.passes, RowsOf(email, d))
  }

  function InHand(email: string, d: Direction, s: State): nat {
    Sum(s.passes, HandOf(email, d))
  }

  /** Bytes of ended stretches that no harvest has taken. */
  function Lost(a: Account): nat {
    Sum(a.log, LostOf())
  }

  predicate IsLive(s: State, email: string, id: nat) {
    email in s.live && s.live[email] == id
  }

  function LiveBytes(email: string, d: Direction, s: State): nat {
    if email in s.live && s.live[email] < |s.stores| then s.stores[s.live[email]].Get(d) else 0
  }

  /** Bytes in the first `n` storages of `email` that left the map but may still be held. */
  function Detached(email: string, d: Direction, s: State, n: nat): nat
    requires n <= |s.stores|
  {
    if n == 0 then 0
    else
      Detached(email, d, s, n - 1) +
      if s.stores[n - 1].owner == email && !IsLive(s, email, n - 1) then s.stores[n - 1].Get(d) else 0
  }

  function DetachedBytes(email: string, d: Direction, s: State): nat {
    Detached(email, d, s, |s.stores|)
  }

  // ----- every reachable state is sound

  predicate Placed(s: State, at: Place) {
    !at.Between? && !at.Finished? ==> at.id < |s.stores| && s.stores[at.id].owner == at.email
  }

  ghost predicate Shape(s: State) {
    && (forall k :: k in s.live ==> s.live[k] < |s.stores| && s.stores[s.live[k]].owner == k)
    && (forall p :: 0 <= p < |s.passes| ==>
          Placed(s, s.passes[p].at) && (s.passes[p].at.StoredUp? ==> s.passes[p].reset))
  }

  /** The open stretches are the cells of the user. */
  ghost predicate Open(email: string, d: Direction, s: State, a: Account) {
    && (forall id :: id in a.now <==> 0 <= id < |s.stores| && s.stores[id].owner == email)
    && (forall id :: id in a.now ==> a.now[id] < |a.log| && a.log[a.now[id]] == Stretch(s.stores[id].Get(d), 0, false))
    && (forall i, j :: i in a.now && j in a.now && i != j ==> a.now[i] != a.now[j])
    && (forall k :: 0 <= k < |a.log| ==> a.log[k].covered <= a.log[k].len)
  }

  ghost predicate Holds(email: string, d: Direction, s: State, a: Account, p: nat)
    requires p < |s.passes|
  {
    var at := s.passes[p].at;
    Exposed(at, d) && at.email == email ==>
      && p in a.seen && a.seen[p] < |a.log| && Loaded(at, d) <= a.log[a.seen[p]].len
      && at.id in a.now && (a.log[a.seen[p]].ended || a.seen[p] == a.now[at.id])
  }

  ghost predicate Sound(email: string, d: Direction, s: State, a: Account) {
    Shape(s) && Open(email, d, s, a) && forall p :: 0 <= p < |s.passes| ==> Holds(email, d, s, a, p)
  }

  /** The events of connections and user changes. */
  predicate Outside(e: Event) {
    e.Attach? || e.Add? || e.Detach? || e.SetUid? || e.DropUid?
  }

  /** The storages are the same ones, whatever their cells hold now. */
  ghost predicate SameOwners(s: State, s': State) {
    |s'.stores| == |s.stores| && forall id :: 0 <= id < |s.stores| ==> s'.stores[id].owner == s.stores[id].owner
  }

  lemma OutsideShape(min: int, s: State, e: Event)
    requires Shape(s) && Outside(e) && Step(min, s, e).0
    ensures Shape(Step(min, s, e).1)
  {
  }

  /** What one step of a harvest, other than Begin, changes. */
  lemma HarvestStep(min: int, s: State, e: Event)
    requires Shape(s) && !Outside(e) && !e.Begin? && Step(min, s, e).0
    ensures var s' := Step(min, s, e).1;
            && e.p < |s.passes| && SameOwners(s, s') && s'.uidMap == s.uidMap
            && |s'.passes| == |s.passes| && s'.passes == s.passes[e.p := s'.passes[e.p]]
            && s'.passes[e.p].reset == s.passes[e.p].reset
            && Placed(s', s'.passes[e.p].at) && (s'.passes[e.p].at.StoredUp? ==> s.passes[e.p].reset)
            && (s'.live == s.live || (e.Emit? && s'.live == s.live - {s.passes[e.p].at.email}))
  {
  }

  lemma StepShape(min: int, s: State, e: Event)
    requires Shape(s) && Step(min, s, e).0
    ensures Shape(Step(min, s, e).1)
  {
    if Outside(e) {
      OutsideShape(min, s, e);
    } else if e.Begin? {
    } else {
      HarvestStep(min, s, e);
    }
  }

  /** The events that move a byte, or make or end a stretch, of this user and direction. */
  predicate Moves(s: State, e: Event, email: string, d: Direction) {
    || e == Attach(email)
    || (e.Add? && e.d == d && e.id < |s.stores| && s.stores[e.id].owner == email)
    || Zeroes(s, e, email, d)
  }

  /** The cells of the user are as they were. */
  ghost predicate SameCells(email: string, d: Direction, s: State, s': State) {
    forall id :: 0 <= id < |s.stores| && id < |s'.stores| && s.stores[id].owner == email ==>
      s'.stores[id].Get(d) == s.stores[id].Get(d)
  }

  lemma QuietFrame(min: int, email: string, d: Direction, s: State, a: Account, e: Event)
    requires Shape(s) && !Outside(e) && !e.Begin? && Step(min, s, e).0 && !Zeroes(s, e, email, d)
    ensures var s', a' := Step(min, s, e).1, Record(email, d, s, a, e);
            && SameCells(email, d, s, s')
            && a'.log == a.log && a'.now == a.now && a'.added == a.added && a'.doubled == a.doubled
            && a'.seen == if Loads(s, e, email, d) && LoadedId(s, e, email, d) in a.now then
                            a.seen[e.p := a.now[LoadedId(s, e, email, d)]]
                          else a.seen
  {
  }

  /** A harvest step that does not zero this cell leaves the harvest's place as it was, has it
      load the cell, or ends its exposure. */
  lemma QuietPlace(min: int, email: string, d: Direction, s: State, e: Event)
    requires Shape(s) && !Outside(e) && !e.Begin? && Step(min, s, e).0 && !Zeroes(s, e, email, d)
    ensures var at, at' := s.passes[e.p].at, Step(min, s, e).1.passes[e.p].at;
            Exposed(at', d) && at'.email == email ==>
              if Loads(s, e, email, d) then
                at'.id == LoadedId(s, e, email, d) < |s.stores| && s.stores[at'.id].owner == email
                && Loaded(at', d) == s.stores[at'.id].Get(d)
              else
                Exposed(at, d) && at.email == email && at'.id == at.id && Loaded(at', d) == Loaded(at, d)
  {
  }

  lemma QuietPass(min: int, email: string, d: Direction, s: State, a: Account, e: Event)
    requires Sound(email, d, s, a) && !Outside(e) && !e.Begin? && Step(min, s, e).0 && !Zeroes(s, e, email, d)
    ensures e.p < |Step(min, s, e).1.passes| && Holds(email, d, Step(min, s, e).1, Record(email, d, s, a, e), e.p)
  {
    QuietFrame(min, email, d, s, a, e);
    QuietPlace(min, email, d, s, e);
    HarvestStep(min, s, e);
    assert Holds(email, d, s, a, e.p);
  }

  lemma OtherPasses(email: string, d: Direction, s: State, a: Account, s': State, a': Account, p: nat)
    requires Sound(email, d, s, a) && p < |s.passes| && |s'.passes| == |s.passes|
    requires s'.passes == s.passes[p := s'.passes[p]]
    requires a'.log == a.log && a'.now == a.now && a'.seen - {p} == a.seen - {p}
    ensures forall q :: 0 <= q < |s'.passes| && q != p ==> Holds(email, d, s', a', q)
  {
    forall q | 0 <= q < |s'.passes| && q != p ensures Holds(email, d, s', a', q) {
      assert Holds(email, d, s, a, q) && s'.passes[q] == s.passes[q];
      assert q in a.seen ==> q in a.seen - {p} && q in a'.seen - {p} && (a.seen - {p})[q] == (a'.seen - {p})[q];
    }
  }

  lemma QuietSound(min: int, email: string, d: Direction, s: State, a: Account, e: Event)
    requires Sound(email, d, s, a) && !Outside(e) && !e.Begin? && Step(min, s, e).0 && !Zeroes(s, e, email, d)
    ensures Sound(email, d, Step(min, s, e).1, Record(email, d, s, a, e))
  {
    var s', a' := Step(min, s, e).1, Record(email, d, s, a, e);
    StepShape(min, s, e);
    HarvestStep(min, s, e);
    QuietFrame(min, email, d, s, a, e);
    QuietPass(min, email, d, s, a, e);
    OtherPasses(email, d, s, a, s', a', e.p);
  }

  lemma BeginSound(min: int, email: string, d: Direction, s: State, a: Account, reset: bool)
    requires Sound(email, d, s, a)
    ensures Sound(email, d, Step(min, s, Begin(reset)).1, a) && Record(email, d, s, a, Begin(reset)) == a
  {
    StepShape(min, s, Begin(reset));
    var s' := Step(min, s, Begin(reset)).1;
    forall p | 0 <= p < |s'.passes| ensures Holds(email, d, s', a, p) {
      if p < |s.passes| {
        assert Holds(email, d, s, a, p);
      }
    }
  }

  lemma AttachEffect(min: int, email: string, d: Direction, s: State, a: Account)
    requires email !in s.live
    ensures Step(min, s, Attach(email)) ==
              (true, s.(stores := s.stores + [Storage(email, 0, 0)], live := s.live[email := |s.stores|]))
    ensures Record(email, d, s, a, Attach(email)) ==
              a.(log := a.log + [Stretch(0, 0, false)], now := a.now[|s.stores| := |a.log|])
  {
  }

  lemma AttachOpen(email: string, d: Direction, s: State, a: Account, s': State)
    requires Open(email, d, s, a) && s'.stores == s.stores + [Storage(email, 0, 0)]
    ensures Open(email, d, s', a.(log := a.log + [Stretch(0, 0, false)], now := a.now[|s.stores| := |a.log|]))
  {
  }

  lemma AttachSound(min: int, email: string, d: Direction, s: State, a: Account)
    requires Sound(email, d, s, a) && email !in s.live
    ensures Sound(email, d, Step(min, s, Attach(email)).1, Record(email, d, s, a, Attach(email)))
  {
    var s', a' := Step(min, s, Attach(email)).1, Record(email, d, s, a, Attach(email));
    OutsideShape(min, s, Attach(email));
    AttachEffect(min, email, d, s, a);
    AttachOpen(email, d, s, a, s');
    forall p | 0 <= p < |s'.passes| ensures Holds(email, d, s', a', p) {
      assert Holds(email, d, s, a, p);
    }
  }

  lemma AddSound(min: int, email: string, d: Direction, s: State, a: Account, id: nat, n: nat)
    requires Sound(email, d, s, a) && id < |s.stores| && s.stores[id].owner == email
    ensures Sound(email, d, Step(min, s, Add(id, d, n)).1, Record(email, d, s, a, Add(id, d, n)))
  {
    var s', a' := Step(min, s, Add(id, d, n)).1, Record(email, d, s, a, Add(id, d, n));
    OutsideShape(min, s, Add(id, d, n));
    var k := a.now[id];
    assert a'.log == a.log[k := a.log[k].(len := a.log[k].len + n)] && a'.now == a.now && a'.seen == a.seen;
    forall p | 0 <= p < |s'.passes| ensures Holds(email, d, s', a', p) {
      assert Holds(email, d, s, a, p);
    }
  }

  /** What happens outside and to others. */
  lemma OthersEffect(min: int, email: string, d: Direction, s: State, a: Account, e: Event)
    requires Open(email, d, s, a) && Outside(e) && Step(min, s, e).0 && !Moves(s, e, email, d)
    ensures var s' := Step(min, s, e).1;
            && Record(email, d, s, a, e) == a && s'.passes == s.passes
            && |s'.stores| >= |s.stores|
            && (forall id :: 0 <= id < |s.stores| ==> s'.stores[id].owner == s.stores[id].owner)
            && (forall id :: |s.stores| <= id < |s'.stores| ==> s'.stores[id].owner != email)
            && SameCells(email, d, s, s')
  {
  }

  lemma OthersSound(min: int, email: string, d: Direction, s: State, a: Account, e: Event)
    requires Sound(email, d, s, a) && Outside(e) && Step(min, s, e).0 && !Moves(s, e, email, d)
    ensures Sound(email, d, Step(min, s, e).1, a) && Record(email, d, s, a, e) == a
  {
    var s' := Step(min, s, e).1;
    OutsideShape(min, s, e);
    OthersEffect(min, email, d, s, a, e);
    StillSound(email, d, s, a, s');
  }

  lemma StillSound(email: string, d: Direction, s: State, a: Account, s': State)
    requires Sound(email, d, s, a) && Shape(s') && s'.passes == s.passes && |s'.stores| >= |s.stores|
    requires SameCells(email, d, s, s')
    requires forall id :: 0 <= id < |s.stores| ==> s'.stores[id].owner == s.stores[id].owner
    requires forall id :: |s.stores| <= id < |s'.stores| ==> s'.stores[id].owner != email
    ensures Sound(email, d, s', a)
  {
    forall p | 0 <= p < |s'.passes| ensures Holds(email, d, s', a, p) {
      assert Holds(email, d, s, a, p);
    }
  }

  /** A zero-store, written out. */
  lemma ZeroEffect(min: int, email: string, d: Direction, s: State, a: Account, e: Event)
    requires Sound(email, d, s, a) && Step(min, s, e).0 && Zeroes(s, e, email, d)
    ensures var s', a' := Step(min, s, e).1, Record(email, d, s, a, e);
            var at := s.passes[e.p].at;
            && at.id < |s.stores| && at.id in a.now && a.now[at.id] < |a.log| && s.stores[at.id].owner == email
            && e.p in a.seen && a.seen[e.p] < |a.log|
            && (a.log[a.seen[e.p]].ended || a.seen[e.p] == a.now[at.id]) && Loaded(at, d) <= a.log[a.seen[e.p]].len
            && a' == Zeroed(a, e.p, at.id, Loaded(at, d))
            && s'.stores == s.stores[at.id := s.stores[at.id].Set(d, 0)]
            && !Exposed(s'.passes[e.p].at, d)
  {
    assert Holds(email, d, s, a, e.p);
  }

  /** What becomes of a stretch when harvest `p` zeroes storage `id` after loading `v`. */
  lemma ZeroedStretch(a: Account, p: nat, id: nat, v: nat, k: nat)
    requires p in a.seen && a.seen[p] < |a.log| && id in a.now && a.now[id] < |a.log| && k < |a.log|
    ensures var a' := Zeroed(a, p, id, v);
            && |a'.log| == |a.log| + 1 && a'.log[|a.log|] == Stretch(0, 0, false)
            && a'.log[k] == Stretch(a.log[k].len, if k == a.seen[p] then Max(a.log[k].covered, v) else a.log[k].covered,
                                    a.log[k].ended || k == a.now[id])
  {
  }

  lemma ZeroOpen(email: string, d: Direction, s: State, a: Account, s': State, p: nat, id: nat, v: nat)
    requires Open(email, d, s, a) && id in a.now && p in a.seen && a.seen[p] < |a.log| && v <= a.log[a.seen[p]].len
    requires a.log[a.seen[p]].ended || a.seen[p] == a.now[id]
    requires s'.stores == s.stores[id := s.stores[id].Set(d, 0)]
    ensures Open(email, d, s', Zeroed(a, p, id, v))
  {
    var a' := Zeroed(a, p, id, v);
    forall k | 0 <= k < |a'.log| ensures a'.log[k].covered <= a'.log[k].len {
      if k < |a.log| {
        ZeroedStretch(a, p, id, v, k);
      }
    }
    forall i | i in a'.now ensures a'.now[i] < |a'.log| && a'.log[a'.now[i]] == Stretch(s'.stores[i].Get(d), 0, false) {
      if i != id {
        ZeroedStretch(a, p, id, v, a.now[i]);
      }
    }
  }

  lemma ZeroSound(min: int, email: string, d: Direction, s: State, a: Account, e: Event)
    requires Sound(email, d, s, a) && Step(min, s, e).0 && Zeroes(s, e, email, d)
    ensures Sound(email, d, Step(min, s, e).1, Record(email, d, s, a, e))
  {
    var s', a' := Step(min, s, e).1, Record(email, d, s, a, e);
    var at := s.passes[e.p].at;
    StepShape(min, s, e);
    HarvestStep(min, s, e);
    ZeroEffect(min, email, d, s, a, e);
    ZeroOpen(email, d, s, a, s', e.p, at.id, Loaded(at, d));
    forall p | 0 <= p < |s'.passes| ensures Holds(email, d, s', a', p) {
      ZeroHolds(email, d, s, a, s', a', e.p, p);
    }
  }

  lemma ZeroHolds(email: string, d: Direction, s: State, a: Account, s': State, a': Account, p: nat, q: nat)
    requires Sound(email, d, s, a) && p < |s.passes| && q < |s'.passes| == |s.passes|
    requires s'.passes == s.passes[p := s'.passes[p]]
    requires Exposed(s.passes[p].at, d) && s.passes[p].at.email == email && !Exposed(s'.passes[p].at, d)
    requires a' == Zeroed(a, p, s.passes[p].at.id, Loaded(s.passes[p].at, d))
    ensures Holds(email, d, s', a', q)
  {
    assert Holds(email, d, s, a, p) && Holds(email, d, s, a, q);
    if p != q && Exposed(s.passes[q].at, d) && s.passes[q].at.email == email {
      ZeroedStretch(a, p, s.passes[p].at.id, Loaded(s.passes[p].at, d), a.seen[q]);
    }
  }

  lemma StepSound(min: int, email: string, d: Direction, s: State, a: Account, e: Event)
    requires Sound(email, d, s, a) && Step(min, s, e).0
    ensures Sound(email, d, Step(min, s, e).1, Record(email, d, s, a, e))
  {
    if Outside(e) {
      if e == Attach(email) {
        AttachSound(min, email, d, s, a);
      } else if Moves(s, e, email, d) {
        AddSound(min, email, d, s, a, e.id, e.n);
      } else {
        OthersSound(min, email, d, s, a, e);
      }
    } else if e.Begin? {
      BeginSound(min, email, d, s, a, e.reset);
    } else if Zeroes(s, e, email, d) {
      ZeroSound(min, email, d, s, a, e);
    } else {
      QuietSound(min, email, d, s, a, e);
    }
  }

  // ----- and balanced

  /** Bytes added are in cells, lost or taken; bytes taken, counted once and again, are in
      rows, in hand or without a user. */
  ghost predicate Balanced(email: string, d: Direction, s: State, a: Account) {
    && a.added == Sum(s.stores, CellOf(email, d)) + Lost(a) + Sum(a.log, CoveredOf())
    && Sum(a.log, CoveredOf()) + a.doubled == Harvested(email, d, s) + InHand(email, d, s) + a.orphaned
  }

  lemma AttachBalances(min: int, email: string, d: Direction, s: State, a: Account)
    requires Balanced(email, d, s, a) && email !in s.live
    ensures Balanced(email, d, Step(min, s, Attach(email)).1, Record(email, d, s, a, Attach(email)))
  {
    SumPush(s.stores, CellOf(email, d), Storage(email, 0, 0));
    SumPush(a.log, LostOf(), Stretch(0, 0, false));
    SumPush(a.log, CoveredOf(), Stretch(0, 0, false));
  }

  lemma AddEffect(min: int, email: string, d: Direction, s: State, a: Account, id: nat, n: nat)
    requires Open(email, d, s, a) && id < |s.stores| && s.stores[id].owner == email
    ensures var s', a' := Step(min, s, Add(id, d, n)).1, Record(email, d, s, a, Add(id, d, n));
            var k := a.now[id];
            && s' == s.(stores := s.stores[id := s.stores[id].Set(d, s.stores[id].Get(d) + n)])
            && a' == a.(added := a.added + n, log := a.log[k := Stretch(s.stores[id].Get(d) + n, 0, false)])
  {
  }

  lemma LengthenSums(log: seq<Stretch>, k: nat, n: nat)
    requires k < |log| && log[k] == Stretch(log[k].len, 0, false)
    ensures var log' := log[k := Stretch(n, 0, false)];
            Sum(log', LostOf()) == Sum(log, LostOf()) && Sum(log', CoveredOf()) == Sum(log, CoveredOf())
  {
    SumUpdate(log, LostOf(), k, Stretch(n, 0, false));
    SumUpdate(log, CoveredOf(), k, Stretch(n, 0, false));
  }

  lemma AddSums(email: string, d: Direction, s: State, a: Account, id: nat, n: nat)
    requires Open(email, d, s, a) && Balanced(email, d, s, a) && id < |s.stores| && s.stores[id].owner == email
    ensures var total := s.stores[id].Get(d) + n;
            var log := a.log[a.now[id] := Stretch(total, 0, false)];
            && Sum(s.stores[id := s.stores[id].Set(d, total)], CellOf(email, d)) == Sum(s.stores, CellOf(email, d)) + n
            && Sum(log, LostOf()) == Lost(a) && Sum(log, CoveredOf()) == Sum(a.log, CoveredOf())
  {
    SumUpdate(s.stores, CellOf(email, d), id, s.stores[id].Set(d, s.stores[id].Get(d) + n));
    LengthenSums(a.log, a.now[id], s.stores[id].Get(d) + n);
  }

  lemma AddBalances(min: int, email: string, d: Direction, s: State, a: Account, id: nat, n: nat)
    requires Open(email, d, s, a) && Balanced(email, d, s, a) && id < |s.stores| && s.stores[id].owner == email
    ensures Balanced(email, d, Step(min, s, Add(id, d, n)).1, Record(email, d, s, a, Add(id, d, n)))
  {
    AddEffect(min, email, d, s, a, id, n);
    AddSums(email, d, s, a, id, n);
  }

  lemma OthersCells(min: int, email: string, d: Direction, s: State, e: Event)
    requires Outside(e) && Step(min, s, e).0 && !Moves(s, e, email, d)
    ensures var s' := Step(min, s, e).1;
            s'.passes == s.passes && Sum(s'.stores, CellOf(email, d)) == Sum(s.stores, CellOf(email, d))
  {
    match e
    case Attach(k) => SumPush(s.stores, CellOf(email, d), Storage(k, 0, 0));
    case Add(id, d', n) => SumUpdate(s.stores, CellOf(email, d), id, s.stores[id].Set(d', s.stores[id].Get(d') + n));
    case _ =>
  }

  lemma OthersBalance(min: int, email: string, d: Direction, s: State, a: Account, e: Event)
    requires Balanced(email, d, s, a) && Outside(e) && Step(min, s, e).0 && !Moves(s, e, email, d)
    ensures Balanced(email, d, Step(min, s, e).1, a)
  {
    OthersCells(min, email, d, s, e);
  }

  lemma BeginBalances(min: int, email: string, d: Direction, s: State, a: Account, reset: bool)
    requires Balanced(email, d, s, a)
    ensures Balanced(email, d, Step(min, s, Begin(reset)).1, a)
  {
    SumPush(s.passes, RowsOf(email, d), Pass(reset, {}, [], Between));
    SumPush(s.passes, HandOf(email, d), Pass(reset, {}, [], Between));
  }

  /** The storages after a harvest step. */
  lemma QuietCells(min: int, email: string, d: Direction, s: State, e: Event)
    requires Shape(s) && !Outside(e) && !e.Begin? && Step(min, s, e).0 && !Zeroes(s, e, email, d)
    ensures Sum(Step(min, s, e).1.stores, CellOf(email, d)) == Sum(s.stores, CellOf(email, d))
  {
    if (e.StoreUp? || e.StoreDown?) && s.passes[e.p].reset {
      var id := s.passes[e.p].at.id;
      SumUpdate(s.stores, CellOf(email, d), id, Step(min, s, e).1.stores[id]);
    }
  }

  lemma EmitRows(min: int, email: string, d: Direction, s: State, a: Account, p: nat)
    requires Step(min, s, Emit(p)).0
    ensures var s', a' := Step(min, s, Emit(p)).1, Record(email, d, s, a, Emit(p));
            RowsOf(email, d)(s'.passes[p]) + HandOf(email, d)(s'.passes[p]) + a'.orphaned
            == RowsOf(email, d)(s.passes[p]) + HandOf(email, d)(s.passes[p]) + a.orphaned
  {
    var h := s.passes[p].at;
    SumPush(s.passes[p].rows, RowOf(email, d), Row(h.email, Uid(s, h.email), h.up, h.down));
  }

  /** The rows and the hand of a harvest after one of its steps. */
  lemma QuietRows(min: int, email: string, d: Direction, s: State, a: Account, e: Event)
    requires Shape(s) && !Outside(e) && !e.Begin? && Step(min, s, e).0 && !Zeroes(s, e, email, d)
    ensures var s', a' := Step(min, s, e).1, Record(email, d, s, a, e);
            RowsOf(email, d)(s'.passes[e.p]) + HandOf(email, d)(s'.passes[e.p]) + a'.orphaned
            == RowsOf(email, d)(s.passes[e.p]) + HandOf(email, d)(s.passes[e.p]) + a.orphaned
  {
    if e.Emit? {
      EmitRows(min, email, d, s, a, e.p);
    }
  }

  lemma QuietBalances(min: int, email: string, d: Direction, s: State, a: Account, e: Event)
    requires Sound(email, d, s, a) && Balanced(email, d, s, a)
    requires !Outside(e) && !e.Begin? && Step(min, s, e).0 && !Zeroes(s, e, email, d)
    ensures Balanced(email, d, Step(min, s, e).1, Record(email, d, s, a, e))
  {
    HarvestStep(min, s, e);
    QuietFrame(min, email, d, s, a, e);
    QuietCells(min, email, d, s, e);
    QuietRows(min, email, d, s, a, e);
    SumUpdate(s.passes, RowsOf(email, d), e.p, Step(min, s, e).1.passes[e.p]);
    SumUpdate(s.passes, HandOf(email, d), e.p, Step(min, s, e).1.passes[e.p]);
  }

  /** The sums over the stretches after a zero-store. */
  lemma ZeroedSums(a: Account, p: nat, id: nat, v: nat)
    requires p in a.seen && a.seen[p] < |a.log| && id in a.now && a.now[id] < |a.log|
    requires a.log[a.seen[p]].ended || a.seen[p] == a.now[id]
    requires !a.log[a.now[id]].ended && a.log[a.now[id]].covered == 0
    requires a.log[a.seen[p]].covered <= a.log[a.seen[p]].len && v <= a.log[a.seen[p]].len
    ensures var a' := Zeroed(a, p, id, v);
            && Sum(a'.log, CoveredOf()) + a'.doubled == Sum(a.log, CoveredOf()) + a.doubled + v
            && Lost(a') + Sum(a'.log, CoveredOf()) == Lost(a) + Sum(a.log, CoveredOf()) + a.log[a.now[id]].len
  {
    var k, now := a.seen[p], a.now[id];
    var st := a.log[k].(covered := Max(a.log[k].covered, v));
    var log := a.log[k := st];
    var log' := log[now := log[now].(ended := true)];
    SumUpdate(a.log, CoveredOf(), k, st);
    SumUpdate(a.log, LostOf(), k, st);
    SumUpdate(log, CoveredOf(), now, log'[now]);
    SumUpdate(log, LostOf(), now, log'[now]);
    SumPush(log', CoveredOf(), Stretch(0, 0, false));
    SumPush(log', LostOf(), Stretch(0, 0, false));
  }

  lemma ZeroHand(min: int, email: string, d: Direction, s: State, e: Event)
    requires Step(min, s, e).0 && Zeroes(s, e, email, d)
    ensures var h, h' := s.passes[e.p], Step(min, s, e).1.passes[e.p];
            && RowsOf(email, d)(h') == RowsOf(email, d)(h)
            && HandOf(email, d)(h') == HandOf(email, d)(h) + Loaded(h.at, d)
  {
  }

  lemma ZeroTakes(min: int, email: string, d: Direction, s: State, e: Event)
    requires Shape(s) && Step(min, s, e).0 && Zeroes(s, e, email, d)
    ensures var s' := Step(min, s, e).1;
            && Harvested(email, d, s') == Harvested(email, d, s)
            && InHand(email, d, s') == InHand(email, d, s) + Loaded(s.passes[e.p].at, d)
  {
    var s' := Step(min, s, e).1;
    HarvestStep(min, s, e);
    ZeroHand(min, email, d, s, e);
    SumUpdate(s.passes, RowsOf(email, d), e.p, s'.passes[e.p]);
    SumUpdate(s.passes, HandOf(email, d), e.p, s'.passes[e.p]);
  }

  lemma ZeroBalances(min: int, email: string, d: Direction, s: State, a: Account, e: Event)
    requires Sound(email, d, s, a) && Balanced(email, d, s, a) && Step(min, s, e).0 && Zeroes(s, e, email, d)
    ensures Balanced(email, d, Step(min, s, e).1, Record(email, d, s, a, e))
  {
    var at := s.passes[e.p].at;
    ZeroEffect(min, email, d, s, a, e);
    ZeroTakes(min, email, d, s, e);
    ZeroedSums(a, e.p, at.id, Loaded(at, d));
    SumUpdate(s.stores, CellOf(email, d), at.id, s.stores[at.id].Set(d, 0));
  }

  lemma StepBalances(min: int, email: string, d: Direction, s: State, a: Account, e: Event)
    requires Sound(email, d, s, a) && Balanced(email, d, s, a) && Step(min, s, e).0
    ensures Balanced(email, d, Step(min, s, e).1, Record(email, d, s, a, e))
  {
    if Outside(e) {
      if e == Attach(email) {
        AttachBalances(min, email, d, s, a);
      } else if Moves(s, e, email, d) {
        AddBalances(min, email, d, s, a, e.id, e.n);
      } else {
        OthersSound(min, email, d, s, a, e);
        OthersBalance(min, email, d, s, a, e);
      }
    } else if e.Begin? {
      BeginBalances(min, email, d, s, a, e.reset);
    } else if Zeroes(s, e, email, d) {
      ZeroBalances(min, email, d, s, a, e);
    } else {
      QuietBalances(min, email, d, s, a, e);
    }
  }

  lemma {:induction false} RunBalances(min: int, email: string, d: Direction, s: State, a: Account, es: seq<Event>)
    requires Sound(email, d, s, a) && Balanced(email, d, s, a) && Run(min, email, d, s, a, es).0
    ensures var r := Run(min, email, d, s, a, es); Sound(email, d, r.1, r.2) && Balanced(email, d, r.1, r.2)
    decreases |es|
  {
    if es != [] {
      StepSound(min, email, d, s, a, es[0]);
      StepBalances(min, email, d, s, a, es[0]);
      RunBalances(min, email, d, Step(min, s, es[0]).1, Record(email, d, s, a, es[0]), es[1..]);
    }
  }

  lemma {:induction false} LiveAndDetached(email: string, d: Direction, s: State, n: nat)
    requires n <= |s.stores|
    requires (email in s.live ==> s.live[email] < |s.stores| && s.stores[s.live[email]].owner == email)
    ensures Detached(email, d, s, n) + (if email in s.live && s.live[email] < n then LiveBytes(email, d, s) else 0)
            == Sum(s.stores[..n], CellOf(email, d))
  {
    if n > 0 {
      LiveAndDetached(email, d, s, n - 1);
      assert s.stores[..n][..n - 1] == s.stores[..n - 1];
    }
  }

  /** Conservation, for every user, direction and interleaving of any number of harvests: each
      added byte is in a harvested row, in a harvest's hand, in a live or detached counter,
      lost between a load and its store, or was taken for a user without a uid; and the bytes
      counted as doubled are there once more. */
  lemma TrafficIsConserved(min: int, email: string, d: Direction, es: seq<Event>)
    requires Run(min, email, d, INIT, NOTHING, es).0
    ensures var (_, s, a) := Run(min, email, d, INIT, NOTHING, es);
            && a.added + a.doubled == Harvested(email, d, s) + InHand(email, d, s) + LiveBytes(email, d, s)
                                      + DetachedBytes(email, d, s) + Lost(a) + a.orphaned
            && Harvested(email, d, s) <= a.added + a.doubled
  {
    RunBalances(min, email, d, INIT, NOTHING, es);
    var s := Run(min, email, d, INIT, NOTHING, es).1;
    LiveAndDetached(email, d, s, |s.stores|);
    assert s.stores[..|s.stores|] == s.stores;
  }
}
