/** Properties of the limiter over runs of its operations. */
module LimiterRuns {
  import opened Common
  import opened Iteration
  import opened Panel
  import opened Limiter

  datatype Op =
    | CheckOp(user: string, ip: string, now: int, counted: bool)
    | UpdateOp(tag: string, added: seq<UserInfo>, deleted: seq<UserInfo>, list: seq<UserInfo>)  // to reach `list`
    | AliveOp(alive: map<int, int>)                  // the monitor replaces AliveList
    | ReportOp(pairs: seq<(string, string)>)         // GetOnlineDevice, in this order

  ghost predicate Enabled(s: State, op: Op) {
    op.ReportOp? ==> Enumerates(op.pairs, OnlinePairs(s)) && AllOnline(s, op.pairs)
  }

  ghost function Step(s: State, op: Op): State
    requires Enabled(s, op)
  {
    match op
    case CheckOp(user, ip, now, counted) => Check(s, user, ip, now, counted).0
    case UpdateOp(tag, added, deleted, _) => Update(s, tag, added, deleted)
    case AliveOp(alive) => s.(alive := alive)
    case ReportOp(pairs) => s.(online := map[], recent := RecentOf(s, pairs))
  }

  ghost predicate CanRun(s: State, ops: seq<Op>)
    decreases |ops|
  {
    ops != [] ==> Enabled(s, ops[0]) && CanRun(Step(s, ops[0]), ops[1..])
  }

  ghost function Run(s: State, ops: seq<Op>): State
    requires CanRun(s, ops)
    decreases |ops|
  {
    if ops == [] then s else Run(Step(s, ops[0]), ops[1..])
  }

  // ----- what a user update does to the tables

  function Tags(tag: string, us: seq<UserInfo>): set<string> {
    set i | 0 <= i < |us| :: UserTag(tag, us[i].uuid)
  }

  function Uuids(us: seq<UserInfo>): set<string> {
    set i | 0 <= i < |us| :: us[i].uuid
  }

  ghost predicate UniqueUuids(us: seq<UserInfo>) {
    forall i, j :: 0 <= i < j < |us| ==> us[i].uuid != us[j].uuid
  }

  lemma TagsSnoc(tag: string, us: seq<UserInfo>)
    requires us != []
    ensures var front, u := us[..|us| - 1], us[|us| - 1];
            Tags(tag, us) == Tags(tag, front) + {UserTag(tag, u.uuid)} && Uuids(us) == Uuids(front) + {u.uuid}
  {
    assert forall i :: 0 <= i < |us| - 1 ==> us[i] == us[..|us| - 1][i];
  }

  lemma {:induction false} DropAllEffect(s: State, tag: string, us: seq<UserInfo>)
    ensures var s', t := DropAll(s, tag, us), Tags(tag, us);
            && s'.users == s.users - t && s'.online == s.online - t && s'.buckets == s.buckets - t
            && s'.uids == s.uids - Uuids(us) && s'.recent == s.recent && s'.speedLimit == s.speedLimit
  {
    if us != [] {
      var front, u := us[..|us| - 1], us[|us| - 1];
      DropAllEffect(s, tag, front);
      TagsSnoc(tag, us);
    }
  }

  /** An update changes the alive list only by the ids of the deleted. */
  lemma UpdateAlive(s: State, tag: string, added: seq<UserInfo>, deleted: seq<UserInfo>)
    ensures Update(s, tag, added, deleted).alive == s.alive - (set i | 0 <= i < |deleted| :: deleted[i].id)
  {
    DropAllAlive(s, tag, deleted);
    PutAllEffect(DropAll(s, tag, deleted), tag, added);
  }

  lemma {:induction false} DropAllAlive(s: State, tag: string, us: seq<UserInfo>)
    ensures DropAll(s, tag, us).alive == s.alive - (set i | 0 <= i < |us| :: us[i].id)
  {
    if us != [] {
      var n := |us| - 1;
      DropAllAlive(s, tag, us[..n]);
      assert (set i | 0 <= i < |us| :: us[i].id) == (set i | 0 <= i < n :: us[..n][i].id) + {us[n].id};
    }
  }

  lemma TagIsInjective(tag: string, a: string, b: string)
    ensures UserTag(tag, a) == UserTag(tag, b) <==> a == b
  {
    assert UserTag(tag, a)[|tag| + 1..] == a && UserTag(tag, b)[|tag| + 1..] == b;
  }

  /** The record that a panel user is stored as. */
  function Stored(u: UserInfo): UserLimit {
    UserLimit(u.id, u.speedLimit, u.deviceLimit, 0, 0)
  }

  /** What a call to Put leaves: the record of `u`, and every other record as it was. */
  lemma {:induction false} PutAllEffect(s: State, tag: string, us: seq<UserInfo>)
    ensures var s', t := PutAll(s, tag, us), Tags(tag, us);
            && s' == s.(users := s'.users, uids := s'.uids)
            && s'.users.Keys == s.users.Keys + t && s'.uids.Keys == s.uids.Keys + Uuids(us)
            && (forall k :: k in s.users && k !in t ==> s'.users[k] == s.users[k])
            && (forall k :: k in s.uids && k !in Uuids(us) ==> s'.uids[k] == s.uids[k])
  {
    if us != [] {
      PutAllEffect(s, tag, us[..|us| - 1]);
      TagsSnoc(tag, us);
    }
  }

  lemma {:induction false} PutAllStores(s: State, tag: string, us: seq<UserInfo>, i: nat)
    requires UniqueUuids(us) && i < |us|
    ensures var s', t := PutAll(s, tag, us), UserTag(tag, us[i].uuid);
            && t in s'.users && s'.users[t] == Stored(us[i])
            && us[i].uuid in s'.uids && s'.uids[us[i].uuid] == us[i].id
  {
    var front, u := us[..|us| - 1], us[|us| - 1];
    if i < |front| {
      PutAllStores(s, tag, front, i);
      TagIsInjective(tag, us[i].uuid, u.uuid);
    }
  }

  lemma TagOf(tag: string, us: seq<UserInfo>, t: string) returns (i: nat)
    requires t in Tags(tag, us)
    ensures i < |us| && t == UserTag(tag, us[i].uuid)
  {
    i :| 0 <= i < |us| && t == UserTag(tag, us[i].uuid);
  }

  // ----- the device cap

  /** A rejected call leaves the tables as they were. */
  lemma RejectionChangesNothing(s: State, user: string, ip: string, now: int, counted: bool)
    ensures var (s', v) := Check(s, user, ip, now, counted);
            && (v.Rejected? <==> Refuses(s, user, TrimMapped(ip), counted))
            && (v.Rejected? ==> s' == s.(users := s'.users))
  {
  }

  lemma SeenEffect(s: State, user: string, a: string, uid: int, v: string, b: string)
    ensures var s' := Seen(s, user, a, uid);
            && (IsOnline(s', v, b) <==> IsOnline(s, v, b) || (v == user && b == a))
            && (b in s'.recent <==> b in s.recent && !(b == a && !IsOnline(s, user, a) && s.recent[b] == uid))
            && (b in s'.recent ==> s'.recent[b] == s.recent[b])
            && s' == s.(online := s'.online, recent := s'.recent)
  {
  }

  /** A call seen from any user `v` and IP `b`. */
  lemma CheckEffect(s: State, op: Op, v: string, b: string)
    requires op.CheckOp?
    ensures var (s', r) := Check(s, op.user, op.ip, op.now, op.counted);
            var a := TrimMapped(op.ip);
            && (IsOnline(s', v, b) <==> IsOnline(s, v, b) || (r.Admitted? && op.counted && v == op.user && b == a))
            && (b in s'.recent ==> b in s.recent && s'.recent[b] == s.recent[b])
            && (b in s.recent && b !in s'.recent ==>
                  b == a && op.user in s.users && s.recent[b] == s.users[op.user].uid)
            && (b in s.recent && b !in s'.recent ==> IsOnline(s', op.user, b))
            && s'.alive == s.alive
  {
    if op.user in s.users {
      var settled := s.(users := Settled(s.users, op.user, op.now));
      SeenEffect(settled, op.user, TrimMapped(op.ip), s.users[op.user].uid, v, b);
    }
  }

  /** The tables of a call for a registered user, and its verdict. */
  lemma CheckTables(s: State, user: string, ip: string, now: int, counted: bool)
    requires user in s.users
    ensures var (s', v) := Check(s, user, ip, now, counted);
            && s'.users == Settled(s.users, user, now) && s'.uids == s.uids && s'.speedLimit == s.speedLimit
  {
  }

  lemma CheckBuckets(s: State, user: string, ip: string, now: int, counted: bool)
    requires user in s.users
    ensures var (s', v) := Check(s, user, ip, now, counted);
            var rate := Rate(s.speedLimit, UserRate(s.users[user], now));
            && (s'.buckets == s.buckets || (rate > 0 && s'.buckets == s.buckets[user := rate]))
            && (v.Admitted? ==> (v.bucket.None? <==> rate <= 0))
            && (v.Admitted? && v.bucket.Some? ==> v.bucket.value == if user in s.buckets then s.buckets[user] else rate)
  {
  }

  lemma SettledUsers(users: map<string, UserLimit>, user: string, now: int, v: string)
    requires user in users
    ensures var users' := Settled(users, user, now);
            && users'.Keys <= users.Keys
            && (v in users && users[v].expireTime == 0 ==> v in users' && users'[v] == users[v])
            && (v in users' ==> users'[v].uid == users[v].uid && users'[v].deviceLimit == users[v].deviceLimit)
  {
  }

  lemma CheckUsers(s: State, op: Op, v: string)
    requires op.CheckOp?
    ensures var users := Check(s, op.user, op.ip, op.now, op.counted).0.users;
            && users.Keys <= s.users.Keys
            && (v in s.users && s.users[v].expireTime == 0 ==> v in users && users[v] == s.users[v])
            && (v in users ==> users[v].uid == s.users[v].uid && users[v].deviceLimit == s.users[v].deviceLimit)
  {
    if op.user in s.users {
      CheckTables(s, op.user, op.ip, op.now, op.counted);
      SettledUsers(s.users, op.user, op.now, v);
    }
  }

  /** While a user is at or above a positive device limit, a run of calls by anyone puts no
      IP online for them that was not online, or reported, at the start. */
  lemma {:induction false} DeviceCapHolds(s: State, ops: seq<Op>, user: string, ip: string)
    requires CanRun(s, ops) && forall k :: 0 <= k < |ops| ==> ops[k].CheckOp?
    requires user in s.users ==>
               && s.users[user].deviceLimit > 0 && s.users[user].uid in s.alive
               && s.alive[s.users[user].uid] >= s.users[user].deviceLimit
    ensures IsOnline(Run(s, ops), user, ip) ==> IsOnline(s, user, ip) || ip in s.recent
    decreases |ops|
  {
    if ops != [] {
      CheckEffect(s, ops[0], user, ip);
      CheckUsers(s, ops[0], user);
      DeviceCapHolds(Step(s, ops[0]), ops[1..], user, ip);
    }
  }

  // ----- sticky admission

  /** `user` is registered without a dynamic limit, alone with its uid, and `ip` is either
      online for it or remembered from the last report as its own. */
  ghost predicate Admitted'(s: State, user: string, ip: string) {
    && user in s.users && s.users[user].expireTime == 0
    && (forall v :: v in s.users && v != user ==> s.users[v].uid != s.users[user].uid)
    && (IsOnline(s, user, ip) || (ip in s.recent && s.recent[ip] == s.users[user].uid))
  }

  /** An update that names neither the user nor its uid. */
  ghost predicate Spares(op: Op, user: string, uid: int) {
    op.UpdateOp? ==>
      && UniqueUuids(op.added)
      && user !in Tags(op.tag, op.added) && user !in Tags(op.tag, op.deleted)
      && (forall i :: 0 <= i < |op.added| ==> op.added[i].id != uid)
  }

  lemma CheckKeepsAdmission(s: State, op: Op, user: string, ip: string)
    requires Admitted'(s, user, ip) && op.CheckOp?
    ensures Admitted'(Check(s, op.user, op.ip, op.now, op.counted).0, user, ip)
    ensures Check(s, op.user, op.ip, op.now, op.counted).0.users[user] == s.users[user]
  {
    var s' := Check(s, op.user, op.ip, op.now, op.counted).0;
    CheckEffect(s, op, user, ip);
    CheckUsers(s, op, user);
    forall v | v in s'.users && v != user ensures s'.users[v].uid != s.users[user].uid {
      CheckUsers(s, op, v);
    }
  }

  lemma UpdateKeepsAdmission(s: State, op: Op, user: string, ip: string)
    requires Admitted'(s, user, ip) && op.UpdateOp? && Spares(op, user, s.users[user].uid)
    ensures var s' := Update(s, op.tag, op.added, op.deleted);
            Admitted'(s', user, ip) && s'.users[user] == s.users[user]
  {
    var s1 := DropAll(s, op.tag, op.deleted);
    var s2 := PutAll(s1, op.tag, op.added);
    DropAllEffect(s, op.tag, op.deleted);
    PutAllEffect(s1, op.tag, op.added);
    forall v | v in s2.users && v != user ensures s2.users[v].uid != s.users[user].uid {
      if v in Tags(op.tag, op.added) {
        var i := TagOf(op.tag, op.added, v);
        PutAllStores(s1, op.tag, op.added, i);
      }
    }
  }

  lemma StepKeepsAdmission(s: State, op: Op, user: string, ip: string)
    requires Admitted'(s, user, ip) && Enabled(s, op) && !op.ReportOp? && Spares(op, user, s.users[user].uid)
    ensures Admitted'(Step(s, op), user, ip) && Step(s, op).users[user] == s.users[user]
  {
    match op
    case CheckOp(_, _, _, _) => CheckKeepsAdmission(s, op, user, ip);
    case UpdateOp(_, _, _, _) => UpdateKeepsAdmission(s, op, user, ip);
    case AliveOp(_) =>
  }

  lemma {:induction false} RunKeepsAdmission(s: State, ops: seq<Op>, user: string, ip: string, now: int, counted: bool,
                                             raw: string)
    requires CanRun(s, ops) && Admitted'(s, user, ip) && TrimMapped(raw) == ip
    requires forall k :: 0 <= k < |ops| ==> !ops[k].ReportOp? && Spares(ops[k], user, s.users[user].uid)
    ensures Check(Run(s, ops), user, raw, now, counted).1.Admitted?
    decreases |ops|
  {
    if ops != [] {
      StepKeepsAdmission(s, ops[0], user, ip);
      RunKeepsAdmission(Step(s, ops[0]), ops[1..], user, ip, now, counted, raw);
    }
  }

  /** A report remembers every IP it lists. */
  lemma {:induction false} ReportRemembers(s: State, pairs: seq<(string, string)>, i: nat)
    requires AllOnline(s, pairs) && i < |pairs|
    ensures pairs[i].1 in RecentOf(s, pairs)
  {
    var n := |pairs| - 1;
    if i < n {
      ReportRemembers(s, pairs[..n], i);
    }
  }

  /** And nothing else: a remembered IP carries the uid of a user that had it online. */
  lemma {:induction false} ReportSource(s: State, pairs: seq<(string, string)>, ip: string) returns (i: nat)
    requires AllOnline(s, pairs) && ip in RecentOf(s, pairs)
    ensures i < |pairs| && pairs[i].1 == ip && RecentOf(s, pairs)[ip] == s.online[pairs[i].0][ip]
  {
    var n := |pairs| - 1;
    if ip == pairs[n].1 {
      i := n;
    } else {
      i := ReportSource(s, pairs[..n], ip);
    }
  }

  /** One report: it lists each online (user, IP) pair once, and remembers exactly the listed
      IPs, each under the uid of a user that had it online. */
  lemma ReportConserves(s: State, pairs: seq<(string, string)>)
    requires Enabled(s, ReportOp(pairs))
    ensures forall user, ip :: IsOnline(s, user, ip) <==> (user, ip) in pairs
    ensures var recent' := Step(s, ReportOp(pairs)).recent;
            forall ip ::
              && (ip in recent' <==> exists user :: IsOnline(s, user, ip))
              && (ip in recent' ==> exists user :: IsOnline(s, user, ip) && recent'[ip] == s.online[user][ip])
  {
    assert forall user, ip :: IsOnline(s, user, ip) <==> (user, ip) in OnlinePairs(s);
    forall ip | ip in RecentOf(s, pairs)
      ensures exists user :: IsOnline(s, user, ip) && RecentOf(s, pairs)[ip] == s.online[user][ip]
    {
      var i := ReportSource(s, pairs, ip);
      assert IsOnline(s, pairs[i].0, ip);
    }
    forall user, ip | IsOnline(s, user, ip) ensures ip in RecentOf(s, pairs) {
      assert (user, ip) in pairs;
      var i :| 0 <= i < |pairs| && pairs[i] == (user, ip);
      ReportRemembers(s, pairs, i);
    }
  }

  lemma ReportAdmits(s: State, pairs: seq<(string, string)>, user: string, ip: string)
    requires Enabled(s, ReportOp(pairs)) && user in s.users && s.users[user].expireTime == 0
    requires forall v :: v in s.users && v != user ==> s.users[v].uid != s.users[user].uid
    requires IsOnline(s, user, ip) && s.online[user][ip] == s.users[user].uid
    requires forall v :: v != user ==> !IsOnline(s, v, ip)
    ensures var s' := Step(s, ReportOp(pairs)); Admitted'(s', user, ip) && s'.users == s.users
  {
    ReportConserves(s, pairs);
  }

  /** Sticky admission: an IP that a report listed for one user only, under that user's uid,
      is admitted for that user in every later run of calls by anyone, list replacements and
      updates that name others, up to the next report, whatever the device limit. */
  lemma ReportedIpIsAdmitted(s: State, pairs: seq<(string, string)>, ops: seq<Op>, user: string, ip: string,
                             now: int, counted: bool, raw: string)
    requires Enabled(s, ReportOp(pairs)) && CanRun(Step(s, ReportOp(pairs)), ops) && TrimMapped(raw) == ip
    requires user in s.users && s.users[user].expireTime == 0
    requires forall v :: v in s.users && v != user ==> s.users[v].uid != s.users[user].uid
    requires IsOnline(s, user, ip) && s.online[user][ip] == s.users[user].uid
    requires forall v :: v != user ==> !IsOnline(s, v, ip)
    requires forall k :: 0 <= k < |ops| ==> !ops[k].ReportOp? && Spares(ops[k], user, s.users[user].uid)
    ensures Check(Run(Step(s, ReportOp(pairs)), ops), user, raw, now, counted).1.Admitted?
  {
    ReportAdmits(s, pairs, user, ip);
    RunKeepsAdmission(Step(s, ReportOp(pairs)), ops, user, ip, now, counted, raw);
  }

  // ----- bucket coherence

  ghost predicate NoDynamic(s: State) {
    forall u :: u in s.users ==>
      s.users[u].dynamicLimit == 0 && s.users[u].expireTime == 0 && s.users[u].speedLimit >= 0
  }

  /** Every cached bucket has the rate that the limits ask for now. */
  ghost predicate Coherent(s: State) {
    && NoDynamic(s) && s.speedLimit >= 0
    && forall u :: u in s.buckets ==> u in s.users && s.buckets[u] == Rate(s.speedLimit, s.users[u].speedLimit)
  }

  /** On coherent tables an admitted call gets the bucket a fresh computation would make, and
      none exactly when both limits are zero. */
  lemma CheckKeepsCoherence(s: State, user: string, ip: string, now: int, counted: bool)
    requires Coherent(s)
    ensures var (s', v) := Check(s, user, ip, now, counted);
            && Coherent(s')
            && (v.Admitted? ==>
                  && (v.bucket.None? <==> s.speedLimit == 0 && s.users[user].speedLimit == 0)
                  && (v.bucket.Some? ==> v.bucket.value == Rate(s.speedLimit, s.users[user].speedLimit)))
  {
    if user in s.users {
      CheckTables(s, user, ip, now, counted);
      CheckBuckets(s, user, ip, now, counted);
      assert Settled(s.users, user, now) == s.users;
      assert UserRate(s.users[user], now) == s.users[user].speedLimit;
    }
  }

  lemma UpdateKeepsStatic(s: State, tag: string, added: seq<UserInfo>, deleted: seq<UserInfo>)
    requires NoDynamic(s) && UniqueUuids(added) && forall i :: 0 <= i < |added| ==> added[i].speedLimit >= 0
    ensures NoDynamic(Update(s, tag, added, deleted))
  {
    var s1, s2 := DropAll(s, tag, deleted), Update(s, tag, added, deleted);
    DropAllEffect(s, tag, deleted);
    PutAllEffect(s1, tag, added);
    forall u | u in s2.users
      ensures s2.users[u].dynamicLimit == 0 && s2.users[u].expireTime == 0 && s2.users[u].speedLimit >= 0
    {
      if u in Tags(tag, added) {
        var i := TagOf(tag, added, u);
        PutAllStores(s1, tag, added, i);
      }
    }
  }

  /** What an update leaves of the bucket of an added user. */
  lemma AddedBucket(s: State, tag: string, added: seq<UserInfo>, deleted: seq<UserInfo>, i: nat)
    requires UniqueUuids(added) && i < |added|
    ensures var s', t := Update(s, tag, added, deleted), UserTag(tag, added[i].uuid);
            && (t in s'.buckets <==> t in s.buckets && t !in Tags(tag, deleted))
            && (t in s'.buckets ==> s'.buckets[t] == s.buckets[t])
            && t in s'.users && s'.users[t].speedLimit == added[i].speedLimit && s'.speedLimit == s.speedLimit
  {
    DropAllEffect(s, tag, deleted);
    PutAllEffect(DropAll(s, tag, deleted), tag, added);
    PutAllStores(DropAll(s, tag, deleted), tag, added, i);
  }

  /** An update keeps the cache coherent exactly when each added user whose bucket survives
      the deletions still has the rate of that bucket. */
  lemma UpdateKeepsCoherence(s: State, tag: string, added: seq<UserInfo>, deleted: seq<UserInfo>)
    requires Coherent(s) && UniqueUuids(added) && forall i :: 0 <= i < |added| ==> added[i].speedLimit >= 0
    ensures Coherent(Update(s, tag, added, deleted)) <==>
            forall i :: 0 <= i < |added| ==>
              var t := UserTag(tag, added[i].uuid);
              t in s.buckets && t !in Tags(tag, deleted) ==> s.buckets[t] == Rate(s.speedLimit, added[i].speedLimit)
  {
    var s1, s2 := DropAll(s, tag, deleted), Update(s, tag, added, deleted);
    DropAllEffect(s, tag, deleted);
    PutAllEffect(s1, tag, added);
    UpdateKeepsStatic(s, tag, added, deleted);
    if Coherent(s2) {
      forall i | 0 <= i < |added|
        ensures var t := UserTag(tag, added[i].uuid);
                t in s.buckets && t !in Tags(tag, deleted) ==> s.buckets[t] == Rate(s.speedLimit, added[i].speedLimit)
      {
        AddedBucket(s, tag, added, deleted, i);
      }
    } else {
      var u :| u in s2.buckets && !(u in s2.users && s2.buckets[u] == Rate(s2.speedLimit, s2.users[u].speedLimit));
      var i := TagOf(tag, added, u);
      AddedBucket(s, tag, added, deleted, i);
    }
  }

  // ----- the limiter follows the user list

  /** The limiter's tables are those of the list: its users, their limits and their ids. */
  ghost predicate Synced(s: State, tag: string, list: seq<UserInfo>) {
    && UniqueUuids(list)
    && s.users.Keys == Tags(tag, list) && s.uids.Keys == Uuids(list)
    && forall i :: 0 <= i < |list| ==> Matches(s, tag, list[i])
  }

  ghost predicate Matches(s: State, tag: string, u: UserInfo) {
    var t := UserTag(tag, u.uuid);
    && t in s.users && u.uuid in s.uids
    && s.users[t].speedLimit == u.speedLimit && s.users[t].uid == u.id == s.uids[u.uuid]
  }

  /** A user keeps its id from one list to the next. */
  ghost predicate StableIds(olds: seq<UserInfo>, news: seq<UserInfo>) {
    forall i, j :: 0 <= i < |olds| && 0 <= j < |news| && olds[i].uuid == news[j].uuid ==> olds[i].id == news[j].id
  }

  /** A user that keeps its UUID and speed keeps its id: all that the diff relies on. */
  ghost predicate KeptIds(olds: seq<UserInfo>, news: seq<UserInfo>) {
    forall u, v :: u in olds && v in news && Pair(u) == Pair(v) ==> u.id == v.id
  }

  lemma StableKeepsIds(olds: seq<UserInfo>, news: seq<UserInfo>)
    requires StableIds(olds, news)
    ensures KeptIds(olds, news)
  {
    forall u, v | u in olds && v in news && Pair(u) == Pair(v) ensures u.id == v.id {
      var i :| 0 <= i < |olds| && olds[i] == u;
      var j :| 0 <= j < |news| && news[j] == v;
    }
  }

  lemma SameUuid(us: seq<UserInfo>, u: UserInfo, v: UserInfo)
    requires UniqueUuids(us) && u in us && v in us && u.uuid == v.uuid
    ensures u == v
  {
    var i :| 0 <= i < |us| && us[i] == u;
    var j :| 0 <= j < |us| && us[j] == v;
  }

  lemma OfPair(us: seq<UserInfo>, u: UserInfo) returns (v: UserInfo)
    requires Pair(u) in Keys(us, Pair)
    ensures v in us && Pair(v) == Pair(u)
  {
    var i :| 0 <= i < |us| && Pair(us[i]) == Pair(u);
    v := us[i];
  }

  lemma UuidMember(us: seq<UserInfo>, u: UserInfo)
    requires u in us
    ensures u.uuid in Uuids(us) && Pair(u) in Keys(us, Pair)
  {
    var i :| 0 <= i < |us| && us[i] == u;
  }

  lemma OfUuid(us: seq<UserInfo>, uuid: string) returns (u: UserInfo)
    requires uuid in Uuids(us)
    ensures u in us && u.uuid == uuid
  {
    var i :| 0 <= i < |us| && us[i].uuid == uuid;
    u := us[i];
  }

  /** An old user is deleted exactly when the new list does not have its pair. */
  lemma DeletedByUuid(olds: seq<UserInfo>, news: seq<UserInfo>, deleted: seq<UserInfo>, added: seq<UserInfo>,
                      u: UserInfo)
    requires UniqueUuids(olds) && IsDiff(olds, news, deleted, added, Pair) && u in olds
    ensures u.uuid in Uuids(deleted) <==> Pair(u) !in Keys(news, Pair)
  {
    UuidMember(olds, u);
    if u.uuid in Uuids(deleted) {
      var d := OfUuid(deleted, u.uuid);
      SameUuid(olds, u, d);
      UuidMember(deleted, d);
    }
    if Pair(u) !in Keys(news, Pair) {
      var d := OfPair(deleted, u);
      UuidMember(deleted, d);
    }
  }

  /** A new user is added, as itself, exactly when the old list does not have its pair. */
  lemma AddedByUuid(olds: seq<UserInfo>, news: seq<UserInfo>, deleted: seq<UserInfo>, added: seq<UserInfo>, u: UserInfo)
    requires UniqueUuids(news) && IsDiff(olds, news, deleted, added, Pair) && u in news
    ensures u in added <==> Pair(u) !in Keys(olds, Pair)
    ensures u.uuid in Uuids(added) <==> u in added
  {
    UuidMember(news, u);
    if u in added {
      UuidMember(added, u);
    }
    if u.uuid in Uuids(added) {
      var a := OfUuid(added, u.uuid);
      SameUuid(news, u, a);
    }
    if Pair(u) !in Keys(olds, Pair) {
      var a := OfPair(added, u);
      SameUuid(news, u, a);
    }
  }

  lemma UuidsOfDiff(olds: seq<UserInfo>, news: seq<UserInfo>, deleted: seq<UserInfo>, added: seq<UserInfo>)
    requires UniqueUuids(olds) && UniqueUuids(news) && IsDiff(olds, news, deleted, added, Pair)
    ensures Uuids(news) == (Uuids(olds) - Uuids(deleted)) + Uuids(added)
  {
    forall x | x in Uuids(news) ensures x in (Uuids(olds) - Uuids(deleted)) + Uuids(added) {
      var u := OfUuid(news, x);
      AddedByUuid(olds, news, deleted, added, u);
      UuidMember(news, u);
      if Pair(u) in Keys(olds, Pair) {
        var v := OfPair(olds, u);
        DeletedByUuid(olds, news, deleted, added, v);
        UuidMember(olds, v);
      }
    }
    forall x | x in Uuids(added) ensures x in Uuids(news) {
      var u := OfUuid(added, x);
      UuidMember(news, u);
    }
    forall x | x in Uuids(olds) - Uuids(deleted) ensures x in Uuids(news) {
      var u := OfUuid(olds, x);
      DeletedByUuid(olds, news, deleted, added, u);
      var v := OfPair(news, u);
      UuidMember(news, v);
    }
  }

  lemma TagsAreUuids(tag: string, us: seq<UserInfo>, uuid: string)
    ensures UserTag(tag, uuid) in Tags(tag, us) <==> uuid in Uuids(us)
  {
    forall i | 0 <= i < |us| ensures UserTag(tag, us[i].uuid) == UserTag(tag, uuid) <==> us[i].uuid == uuid {
      TagIsInjective(tag, us[i].uuid, uuid);
    }
  }

  lemma TagsOfDiff(tag: string, olds: seq<UserInfo>, news: seq<UserInfo>, deleted: seq<UserInfo>, added: seq<UserInfo>)
    requires UniqueUuids(olds) && UniqueUuids(news) && IsDiff(olds, news, deleted, added, Pair)
    ensures Tags(tag, news) == (Tags(tag, olds) - Tags(tag, deleted)) + Tags(tag, added)
  {
    UuidsOfDiff(olds, news, deleted, added);
    forall t | t in Tags(tag, news) ensures t in (Tags(tag, olds) - Tags(tag, deleted)) + Tags(tag, added) {
      var i := TagOf(tag, news, t);
      TagsAreUuids(tag, news, news[i].uuid);
      TagsAreUuids(tag, olds, news[i].uuid);
      TagsAreUuids(tag, deleted, news[i].uuid);
      TagsAreUuids(tag, added, news[i].uuid);
    }
    forall t | t in Tags(tag, added) ensures t in Tags(tag, news) {
      var i := TagOf(tag, added, t);
      TagsAreUuids(tag, news, added[i].uuid);
    }
    forall t | t in Tags(tag, olds) - Tags(tag, deleted) ensures t in Tags(tag, news) {
      var i := TagOf(tag, olds, t);
      TagsAreUuids(tag, news, olds[i].uuid);
      TagsAreUuids(tag, deleted, olds[i].uuid);
    }
  }

  lemma MemberStored(s: State, tag: string, us: seq<UserInfo>, u: UserInfo)
    requires UniqueUuids(us) && u in us
    ensures Matches(PutAll(s, tag, us), tag, u)
  {
    var i :| 0 <= i < |us| && us[i] == u;
    PutAllStores(s, tag, us, i);
  }

  lemma KeptMatches(s: State, tag: string, deleted: seq<UserInfo>, added: seq<UserInfo>, u: UserInfo)
    requires Matches(s, tag, u) && u.uuid !in Uuids(deleted) && u.uuid !in Uuids(added)
    ensures Matches(Update(s, tag, added, deleted), tag, u)
  {
    TagsAreUuids(tag, deleted, u.uuid);
    TagsAreUuids(tag, added, u.uuid);
    DropAllEffect(s, tag, deleted);
    PutAllEffect(DropAll(s, tag, deleted), tag, added);
  }

  lemma UpdateMatches(s: State, tag: string, olds: seq<UserInfo>, news: seq<UserInfo>, deleted: seq<UserInfo>,
                      added: seq<UserInfo>, u: UserInfo)
    requires Synced(s, tag, olds) && UniqueUuids(news) && UniqueUuids(added) && KeptIds(olds, news)
    requires IsDiff(olds, news, deleted, added, Pair) && u in news
    ensures Matches(Update(s, tag, added, deleted), tag, u)
  {
    AddedByUuid(olds, news, deleted, added, u);
    if u in added {
      MemberStored(DropAll(s, tag, deleted), tag, added, u);
    } else {
      var v := OfPair(olds, u);
      DeletedByUuid(olds, news, deleted, added, v);
      UuidMember(news, u);
      assert v.id == u.id;
      assert Matches(s, tag, v);
      KeptMatches(s, tag, deleted, added, u);
    }
  }

  lemma AddedUnique(olds: seq<UserInfo>, news: seq<UserInfo>, deleted: seq<UserInfo>, added: seq<UserInfo>)
    requires UniqueUuids(news) && IsDiff(olds, news, deleted, added, Pair)
    ensures UniqueUuids(added)
  {
    forall i, j | 0 <= i < j < |added| ensures added[i].uuid != added[j].uuid {
      assert added[i] in added && added[j] in added;
      if added[i].uuid == added[j].uuid {
        SameUuid(news, added[i], added[j]);
      }
    }
  }

  predicate DeviceMatches(s: State, tag: string, u: UserInfo) {
    var t := UserTag(tag, u.uuid);
    t in s.users && s.users[t].deviceLimit == u.deviceLimit
  }

  /** The record of a user after an update: new if it was added, else the old one. */
  lemma RecordAfterUpdate(s: State, tag: string, olds: seq<UserInfo>, news: seq<UserInfo>, deleted: seq<UserInfo>,
                          added: seq<UserInfo>, u: UserInfo)
    requires Synced(s, tag, olds) && UniqueUuids(news) && IsDiff(olds, news, deleted, added, Pair) && u in news
    ensures var s', t := Update(s, tag, added, deleted), UserTag(tag, u.uuid);
            t in s'.users &&
              if Pair(u) in Keys(olds, Pair) then t in s.users && s'.users[t] == s.users[t]
              else s'.users[t] == Stored(u)
  {
    AddedUnique(olds, news, deleted, added);
    AddedByUuid(olds, news, deleted, added, u);
    DropAllEffect(s, tag, deleted);
    PutAllEffect(DropAll(s, tag, deleted), tag, added);
    if Pair(u) in Keys(olds, Pair) {
      var v := OfPair(olds, u);
      DeletedByUuid(olds, news, deleted, added, v);
      UuidMember(news, u);
      UuidMember(olds, v);
      TagsAreUuids(tag, olds, u.uuid);
      TagsAreUuids(tag, deleted, u.uuid);
      TagsAreUuids(tag, added, u.uuid);
    } else {
      var i :| 0 <= i < |added| && added[i] == u;
      PutAllStores(DropAll(s, tag, deleted), tag, added, i);
    }
  }

  /** The diff does not look at ids: an update takes the limiter's tables from the one list to
      the other exactly when no user that keeps its UUID and speed changes its id. */
  lemma UpdateKeepsSynced(s: State, tag: string, olds: seq<UserInfo>, news: seq<UserInfo>, deleted: seq<UserInfo>,
                          added: seq<UserInfo>)
    requires Synced(s, tag, olds) && UniqueUuids(news) && IsDiff(olds, news, deleted, added, Pair)
    ensures Synced(Update(s, tag, added, deleted), tag, news) <==> KeptIds(olds, news)
  {
    if KeptIds(olds, news) {
      AddedUnique(olds, news, deleted, added);
      DropAllEffect(s, tag, deleted);
      PutAllEffect(DropAll(s, tag, deleted), tag, added);
      UuidsOfDiff(olds, news, deleted, added);
      TagsOfDiff(tag, olds, news, deleted, added);
      forall i | 0 <= i < |news| ensures Matches(Update(s, tag, added, deleted), tag, news[i]) {
        UpdateMatches(s, tag, olds, news, deleted, added, news[i]);
      }
    }
    if Synced(Update(s, tag, added, deleted), tag, news) {
      forall u, v | u in olds && v in news && Pair(u) == Pair(v) ensures u.id == v.id {
        UuidMember(olds, u);
        RecordAfterUpdate(s, tag, olds, news, deleted, added, v);
        MemberMatches(s, tag, olds, u);
        MemberMatches(Update(s, tag, added, deleted), tag, news, v);
      }
    }
  }

  lemma MemberMatches(s: State, tag: string, us: seq<UserInfo>, u: UserInfo)
    requires Synced(s, tag, us) && u in us
    ensures Matches(s, tag, u)
  {
    var i :| 0 <= i < |us| && us[i] == u;
  }

  /** The diff does not look at device limits: after an update they are those of the new list
      exactly when no user that keeps its UUID and speed has changed its device limit. */
  lemma DeviceLimitsFollow(s: State, tag: string, olds: seq<UserInfo>, news: seq<UserInfo>, deleted: seq<UserInfo>,
                           added: seq<UserInfo>)
    requires Synced(s, tag, olds) && UniqueUuids(news) && IsDiff(olds, news, deleted, added, Pair)
    requires forall u :: u in olds ==> DeviceMatches(s, tag, u)
    ensures (forall u :: u in news ==> DeviceMatches(Update(s, tag, added, deleted), tag, u)) <==>
            (forall u, v :: u in olds && v in news && Pair(u) == Pair(v) ==> u.deviceLimit == v.deviceLimit)
  {
    forall v | v in news
      ensures DeviceMatches(Update(s, tag, added, deleted), tag, v) <==>
              (forall u :: u in olds && Pair(u) == Pair(v) ==> u.deviceLimit == v.deviceLimit)
    {
      RecordAfterUpdate(s, tag, olds, news, deleted, added, v);
      forall u | u in olds && Pair(u) == Pair(v) ensures Pair(v) in Keys(olds, Pair) && DeviceMatches(s, tag, u) {
        UuidMember(olds, u);
      }
      if Pair(v) in Keys(olds, Pair) {
        var w := OfPair(olds, v);
      }
    }
  }

  /** A list in which one device limit changes: the limiter keeps the old one. */
  lemma DeviceLimitChangeIsMissed(tag: string)
    ensures var u, v := UserInfo(1, "a", 10, 1), UserInfo(1, "a", 10, 2);
            var s := PutAll(Empty(0, map[]), tag, [u]);
            && Unmatched([v], UserKey, Keys([u], UserKey)) == [] && DeviceMatches(s, tag, u)
            && !DeviceMatches(Update(s, tag, [], []), tag, v)
  {
    var u, v := UserInfo(1, "a", 10, 1), UserInfo(1, "a", 10, 2);
    assert UserKey([u][0]) == UserKey(v) && UserKey(v) in Keys([u], UserKey) && [v][..0] == [];
    PutAllStores(Empty(0, map[]), tag, [u], 0);
    assert DropAll(PutAll(Empty(0, map[]), tag, [u]), tag, []) == PutAll(Empty(0, map[]), tag, [u]);
  }

  /** An added user that the old list knows is deleted first. */
  lemma AddedWasDeleted(tag: string, olds: seq<UserInfo>, news: seq<UserInfo>, deleted: seq<UserInfo>,
                        added: seq<UserInfo>, i: nat)
    requires UniqueUuids(olds) && UniqueUuids(news) && IsDiff(olds, news, deleted, added, Pair) && i < |added|
    ensures UserTag(tag, added[i].uuid) in Tags(tag, olds) ==> UserTag(tag, added[i].uuid) in Tags(tag, deleted)
  {
    var u := added[i];
    assert u in added && u in news;
    if UserTag(tag, u.uuid) in Tags(tag, olds) {
      TagsAreUuids(tag, olds, u.uuid);
      var v := OfUuid(olds, u.uuid);
      AddedByUuid(olds, news, deleted, added, u);
      DeletedByUuid(olds, news, deleted, added, v);
      if Pair(v) in Keys(news, Pair) {
        var w := OfPair(news, v);
        SameUuid(news, u, w);
        UuidMember(olds, v);
      }
      TagsAreUuids(tag, deleted, u.uuid);
    }
  }

  /** And it keeps the bucket cache coherent: a user whose speed changed is deleted first. */
  lemma DiffKeepsCoherence(s: State, tag: string, olds: seq<UserInfo>, news: seq<UserInfo>, deleted: seq<UserInfo>,
                           added: seq<UserInfo>)
    requires Coherent(s) && Synced(s, tag, olds) && UniqueUuids(news)
    requires IsDiff(olds, news, deleted, added, Pair)
    requires forall i :: 0 <= i < |news| ==> news[i].speedLimit >= 0
    ensures Coherent(Update(s, tag, added, deleted))
  {
    AddedUnique(olds, news, deleted, added);
    forall i | 0 <= i < |added| ensures added[i].speedLimit >= 0 {
      assert added[i] in added && added[i] in news;
    }
    forall i | 0 <= i < |added|
      ensures var t := UserTag(tag, added[i].uuid); t in s.buckets ==> t in Tags(tag, deleted)
    {
      AddedWasDeleted(tag, olds, news, deleted, added, i);
    }
    UpdateKeepsCoherence(s, tag, added, deleted);
  }

  lemma FreshMatches(speedLimit: int, alive: map<int, int>, tag: string, list: seq<UserInfo>, i: nat)
    requires UniqueUuids(list) && i < |list|
    ensures Matches(PutAll(Empty(speedLimit, alive), tag, list), tag, list[i])
  {
    PutAllStores(Empty(speedLimit, alive), tag, list, i);
  }

  lemma FreshIsSynced(speedLimit: int, alive: map<int, int>, tag: string, list: seq<UserInfo>)
    requires UniqueUuids(list)
    ensures Synced(PutAll(Empty(speedLimit, alive), tag, list), tag, list)
  {
    var s := PutAll(Empty(speedLimit, alive), tag, list);
    PutAllEffect(Empty(speedLimit, alive), tag, list);
    assert s.users.Keys == Tags(tag, list) && s.uids.Keys == Uuids(list);
    forall i | 0 <= i < |list| ensures Matches(s, tag, list[i]) {
      FreshMatches(speedLimit, alive, tag, list, i);
    }
  }

  lemma FreshIsCoherent(speedLimit: int, alive: map<int, int>, tag: string, list: seq<UserInfo>)
    requires UniqueUuids(list) && speedLimit >= 0 && forall k :: 0 <= k < |list| ==> list[k].speedLimit >= 0
    ensures var s := PutAll(Empty(speedLimit, alive), tag, list); Coherent(s) && s.speedLimit == speedLimit
  {
    var e := Empty(speedLimit, alive);
    var s := PutAll(e, tag, list);
    PutAllEffect(e, tag, list);
    forall u | u in s.users
      ensures s.users[u].dynamicLimit == 0 && s.users[u].expireTime == 0 && s.users[u].speedLimit >= 0
    {
      var k := TagOf(tag, list, u);
      PutAllStores(e, tag, list, k);
    }
  }

  // ----- whole runs

  function NextList(list: seq<UserInfo>, op: Op): seq<UserInfo> {
    if op.UpdateOp? then op.list else list
  }

  function LastList(list: seq<UserInfo>, ops: seq<Op>): seq<UserInfo>
    decreases |ops|
  {
    if ops == [] then list else LastList(NextList(list, ops[0]), ops[1..])
  }

  /** A user update applies the diff from `list` to its own list. */
  ghost predicate FedBy(tag: string, list: seq<UserInfo>, op: Op) {
    op.UpdateOp? ==>
      && op.tag == tag && UniqueUuids(op.list) && StableIds(list, op.list)
      && (forall i :: 0 <= i < |op.list| ==> op.list[i].speedLimit >= 0)
      && IsDiff(list, op.list, op.deleted, op.added, Pair)
  }

  ghost predicate Fed(tag: string, list: seq<UserInfo>, ops: seq<Op>)
    decreases |ops|
  {
    ops != [] ==> FedBy(tag, list, ops[0]) && Fed(tag, NextList(list, ops[0]), ops[1..])
  }

  lemma SameTablesSynced(s: State, s': State, tag: string, list: seq<UserInfo>)
    requires Synced(s, tag, list) && s'.users == s.users && s'.uids == s.uids
    ensures Synced(s', tag, list)
  {
    forall i | 0 <= i < |list| ensures Matches(s', tag, list[i]) {
      assert Matches(s, tag, list[i]);
    }
  }

  lemma StepKeepsAll(s: State, op: Op, tag: string, list: seq<UserInfo>)
    requires Coherent(s) && Synced(s, tag, list) && Enabled(s, op) && FedBy(tag, list, op)
    ensures Coherent(Step(s, op)) && Synced(Step(s, op), tag, NextList(list, op))
  {
    match op
    case CheckOp(user, ip, now, counted) =>
      CheckKeepsCoherence(s, user, ip, now, counted);
      CheckKeepsUsers(s, op);
      SameTablesSynced(s, Step(s, op), tag, list);
    case UpdateOp(_, added, deleted, news) =>
      StableKeepsIds(list, news);
      UpdateKeepsSynced(s, tag, list, news, deleted, added);
      DiffKeepsCoherence(s, tag, list, news, deleted, added);
    case _ =>
      SameTablesSynced(s, Step(s, op), tag, list);
  }

  lemma StepKeepsNodeLimit(s: State, op: Op)
    requires Enabled(s, op)
    ensures Step(s, op).speedLimit == s.speedLimit
  {
    if op.UpdateOp? {
      DropAllEffect(s, op.tag, op.deleted);
      PutAllEffect(DropAll(s, op.tag, op.deleted), op.tag, op.added);
    }
  }

  lemma CheckKeepsUsers(s: State, op: Op)
    requires op.CheckOp? && NoDynamic(s)
    ensures Step(s, op).users == s.users && Step(s, op).uids == s.uids
  {
    if op.user in s.users {
      assert Settled(s.users, op.user, op.now) == s.users;
      CheckTables(s, op.user, op.ip, op.now, op.counted);
    }
  }

  /** Over every run of calls, reports, alive-list replacements and updates fed by the diff,
      the tables follow the list and every cached bucket has the current rate. */
  lemma {:induction false} RunKeepsAll(s: State, ops: seq<Op>, tag: string, list: seq<UserInfo>)
    requires Coherent(s) && Synced(s, tag, list) && CanRun(s, ops) && Fed(tag, list, ops)
    ensures Coherent(Run(s, ops)) && Synced(Run(s, ops), tag, LastList(list, ops))
    ensures Run(s, ops).speedLimit == s.speedLimit
    decreases |ops|
  {
    if ops != [] {
      StepKeepsAll(s, ops[0], tag, list);
      StepKeepsNodeLimit(s, ops[0]);
      RunKeepsAll(Step(s, ops[0]), ops[1..], tag, NextList(list, ops[0]));
    }
  }

  /** From AddLimiter on: whatever was called before, an admitted call gets the rate that
      the node's limit and the user's limit in the latest list ask for. */
  lemma AdmittedRateIsCurrent(nodeLimit: int, alive: map<int, int>, tag: string, list: seq<UserInfo>, ops: seq<Op>,
                              i: nat, ip: string, now: int, counted: bool)
    requires nodeLimit >= 0 && UniqueUuids(list) && forall k :: 0 <= k < |list| ==> list[k].speedLimit >= 0
    requires var s0 := PutAll(Empty(nodeLimit, alive), tag, list); CanRun(s0, ops) && Fed(tag, list, ops)
    requires i < |LastList(list, ops)|
    ensures var s, u := Run(PutAll(Empty(nodeLimit, alive), tag, list), ops), LastList(list, ops)[i];
            var v := Check(s, UserTag(tag, u.uuid), ip, now, counted).1;
            v.Admitted? ==>
              v.bucket == if nodeLimit == 0 && u.speedLimit == 0 then None else Some(Rate(nodeLimit, u.speedLimit))
  {
    var e := Empty(nodeLimit, alive);
    var s0 := PutAll(e, tag, list);
    FreshIsSynced(nodeLimit, alive, tag, list);
    FreshIsCoherent(nodeLimit, alive, tag, list);
    RunKeepsAll(s0, ops, tag, list);
    var s, u := Run(s0, ops), LastList(list, ops)[i];
    assert Matches(s, tag, u);
    CheckKeepsCoherence(s, UserTag(tag, u.uuid), ip, now, counted);
  }

  // ----- online IPs carry the uid of their user

  ghost predicate Owned(s: State) {
    forall user, ip :: IsOnline(s, user, ip) ==> user in s.users && s.online[user][ip] == s.users[user].uid
  }

  lemma SeenKeepsOwned(s: State, user: string, a: string)
    requires Owned(s) && user in s.users
    ensures Owned(Seen(s, user, a, s.users[user].uid))
  {
    var s' := Seen(s, user, a, s.users[user].uid);
    forall v, ip | IsOnline(s', v, ip) ensures v in s'.users && s'.online[v][ip] == s'.users[v].uid {
      assert IsOnline(s, v, ip) ==> s.online[v][ip] == s.users[v].uid;
    }
  }

  lemma CheckOnline(s: State, user: string, ip: string, now: int, counted: bool)
    requires NoDynamic(s)
    ensures var s' := Check(s, user, ip, now, counted).0;
            && s'.users == s.users
            && (|| s'.online == s.online
                || (user in s.users && s'.online == Seen(s, user, TrimMapped(ip), s.users[user].uid).online))
  {
    if user in s.users {
      assert Settled(s.users, user, now) == s.users;
    }
  }

  lemma CheckKeepsOwned(s: State, op: Op)
    requires Owned(s) && NoDynamic(s) && op.CheckOp?
    ensures Owned(Step(s, op))
  {
    CheckOnline(s, op.user, op.ip, op.now, op.counted);
    if op.user in s.users {
      SeenKeepsOwned(s, op.user, TrimMapped(op.ip));
      SameOnlineOwned(Seen(s, op.user, TrimMapped(op.ip), s.users[op.user].uid), Step(s, op));
    }
    SameOnlineOwned(s, Step(s, op));
  }

  lemma SameOnlineOwned(s: State, s': State)
    requires Owned(s) && s'.users == s.users
    ensures s'.online == s.online ==> Owned(s')
  {
    if s'.online == s.online {
      assert forall v, ip :: IsOnline(s', v, ip) ==> IsOnline(s, v, ip);
    }
  }

  lemma UpdateKeepsOwned(s: State, tag: string, olds: seq<UserInfo>, news: seq<UserInfo>, deleted: seq<UserInfo>,
                         added: seq<UserInfo>)
    requires Owned(s) && Synced(s, tag, olds) && UniqueUuids(news) && IsDiff(olds, news, deleted, added, Pair)
    ensures Owned(Update(s, tag, added, deleted))
  {
    var s1, s2 := DropAll(s, tag, deleted), Update(s, tag, added, deleted);
    DropAllEffect(s, tag, deleted);
    PutAllEffect(s1, tag, added);
    forall user, ip | IsOnline(s2, user, ip) ensures user in s2.users && s2.online[user][ip] == s2.users[user].uid {
      assert IsOnline(s, user, ip) && user !in Tags(tag, deleted);
      if user in Tags(tag, added) {
        var i := TagOf(tag, added, user);
        AddedWasDeleted(tag, olds, news, deleted, added, i);
      }
    }
  }

  lemma StepKeepsOwned(s: State, op: Op, tag: string, list: seq<UserInfo>)
    requires Owned(s) && Coherent(s) && Synced(s, tag, list) && Enabled(s, op) && FedBy(tag, list, op)
    ensures Owned(Step(s, op))
  {
    match op
    case CheckOp(_, _, _, _) => CheckKeepsOwned(s, op);
    case UpdateOp(_, added, deleted, news) => UpdateKeepsOwned(s, tag, list, news, deleted, added);
    case AliveOp(alive) =>
      assert forall user, ip :: IsOnline(s.(alive := alive), user, ip) ==> IsOnline(s, user, ip);
    case ReportOp(_) =>
  }

  lemma {:induction false} RunKeepsOwned(s: State, ops: seq<Op>, tag: string, list: seq<UserInfo>)
    requires Owned(s) && Coherent(s) && Synced(s, tag, list) && CanRun(s, ops) && Fed(tag, list, ops)
    ensures Owned(Run(s, ops))
    decreases |ops|
  {
    if ops != [] {
      StepKeepsOwned(s, ops[0], tag, list);
      StepKeepsAll(s, ops[0], tag, list);
      RunKeepsOwned(Step(s, ops[0]), ops[1..], tag, NextList(list, ops[0]));
    }
  }

  /** Users with their own ids are told apart by their uids. */
  lemma UidsApart(s: State, tag: string, list: seq<UserInfo>, i: nat)
    requires Synced(s, tag, list) && i < |list| && forall j, k :: 0 <= j < k < |list| ==> list[j].id != list[k].id
    ensures var user := UserTag(tag, list[i].uuid);
            user in s.users && forall v :: v in s.users && v != user ==> s.users[v].uid != s.users[user].uid
  {
    var user := UserTag(tag, list[i].uuid);
    assert Matches(s, tag, list[i]);
    forall v | v in s.users && v != user ensures s.users[v].uid != s.users[user].uid {
      var j := TagOf(tag, list, v);
      assert Matches(s, tag, list[j]);
    }
  }

  /** Sticky admission from AddLimiter on: after any diff-fed run, an IP that a report lists for
      one user only is admitted for that user up to the next report, whatever the device limit. */
  lemma AdmittedAfterReport(nodeLimit: int, alive: map<int, int>, tag: string, list: seq<UserInfo>, before: seq<Op>,
                            pairs: seq<(string, string)>, ops: seq<Op>, i: nat, ip: string, now: int, counted: bool,
                            raw: string)
    requires nodeLimit >= 0 && UniqueUuids(list) && forall k :: 0 <= k < |list| ==> list[k].speedLimit >= 0
    requires var s0 := PutAll(Empty(nodeLimit, alive), tag, list); CanRun(s0, before) && Fed(tag, list, before)
    requires var s, us := Run(PutAll(Empty(nodeLimit, alive), tag, list), before), LastList(list, before);
             && i < |us| && (forall j, k :: 0 <= j < k < |us| ==> us[j].id != us[k].id)
             && Enabled(s, ReportOp(pairs)) && CanRun(Step(s, ReportOp(pairs)), ops) && TrimMapped(raw) == ip
             && IsOnline(s, UserTag(tag, us[i].uuid), ip)
             && (forall v :: v != UserTag(tag, us[i].uuid) ==> !IsOnline(s, v, ip))
             && forall k :: 0 <= k < |ops| ==> !ops[k].ReportOp? && Spares(ops[k], UserTag(tag, us[i].uuid), us[i].id)
    ensures var s, us := Run(PutAll(Empty(nodeLimit, alive), tag, list), before), LastList(list, before);
            Check(Run(Step(s, ReportOp(pairs)), ops), UserTag(tag, us[i].uuid), raw, now, counted).1.Admitted?
  {
    var s0 := PutAll(Empty(nodeLimit, alive), tag, list);
    FreshIsSynced(nodeLimit, alive, tag, list);
    FreshIsCoherent(nodeLimit, alive, tag, list);
    FreshIsOwned(nodeLimit, alive, tag, list);
    RunKeepsAll(s0, before, tag, list);
    RunKeepsOwned(s0, before, tag, list);
    var s, us := Run(s0, before), LastList(list, before);
    UidsApart(s, tag, us, i);
    assert Matches(s, tag, us[i]);
    ReportedIpIsAdmitted(s, pairs, ops, UserTag(tag, us[i].uuid), ip, now, counted, raw);
  }

  lemma FreshIsOwned(nodeLimit: int, alive: map<int, int>, tag: string, list: seq<UserInfo>)
    ensures Owned(PutAll(Empty(nodeLimit, alive), tag, list))
  {
    PutAllEffect(Empty(nodeLimit, alive), tag, list);
  }
}
