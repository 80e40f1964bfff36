/** The controller of node/controller.go and node/task.go: each monitor tick applies what the
    panel sent to three replicas of the user list, the inbound, the limiter and the uid map.
    The panel, the certificate step and the core's refusals are inputs. */
module Controller {
  import opened Common
  import opened Iteration
  import opened Panel
  import opened Limiter
  import opened LimiterRuns
  import opened Core

  /** The intervals are in seconds, zero when the panel gives none. */
  datatype NodeInfo = NodeInfo(nodeType: string, id: int, tls: bool, pullInterval: int, pushInterval: int)

  predicate Supported(n: NodeInfo) {
    n.nodeType in {"vmess", "vless", "trojan", "shadowsocks"}
  }

  /** One round of answers. `failed` says that some panel request failed. */
  datatype Pull = Pull(
    failed: bool,
    node: Option<NodeInfo>,            // None when the node did not change
    users: Option<seq<UserInfo>>,      // None when the list did not change
    alive: Option<map<int, int>>,
    ruleFails: bool,
    certFails: bool,
    refused: set<string>)              // user tags that the inbound refuses to add or remove

  /** The list that a tick leaves when nothing fails. */
  function NextUsers(p: Pull, list: seq<UserInfo>): seq<UserInfo> {
    if p.failed || p.users.None? || (p.node.None? && p.users.value == []) then list else p.users.value
  }

  /** What the panel keeps to: all UUIDs have one length, and each has its own id. */
  datatype Rules = Rules(length: nat, ids: string -> int)

  ghost predicate Proper(us: seq<UserInfo>, rules: Rules) {
    && UniqueUuids(us) && SameLength(us, rules.length)
    && forall i :: 0 <= i < |us| ==> us[i].speedLimit >= 0 && us[i].id == rules.ids(us[i].uuid)
  }

  ghost predicate ProperPull(p: Pull, rules: Rules) {
    p.users.Some? ==> Proper(p.users.value, rules)
  }

  /** Nothing that the tick asks for is refused. */
  predicate Accepted(p: Pull) {
    p.refused == {} && !p.ruleFails && !p.certFails && (p.node.Some? ==> Supported(p.node.value))
  }

  /** A tick that brings users, with nothing in its way. */
  predicate Delivers(p: Pull) {
    && !p.failed && p.users.Some? && p.users.value != [] && p.refused == {} && !p.ruleFails && !p.certFails
    && (p.node.Some? ==> p.node.value.nodeType in {"vmess", "vless", "trojan", "shadowsocks"})
  }

  lemma DistinctOfUnique(us: seq<UserInfo>)
    requires UniqueUuids(us)
    ensures Distinct(us, Pair)
  {
    forall i, j | 0 <= i < j < |us| ensures Pair(us[i]) != Pair(us[j]) {
      assert us[i].uuid != us[j].uuid;
    }
  }

  /** The tables of the list `olds` are those of `news` exactly when the lists have the same
      (UUID, speed) pairs. */
  lemma SyncedToOther(s: State, tag: string, olds: seq<UserInfo>, news: seq<UserInfo>)
    requires Synced(s, tag, olds) && UniqueUuids(news) && StableIds(olds, news)
    ensures Synced(s, tag, news) <==> Keys(olds, Pair) == Keys(news, Pair)
  {
    if Synced(s, tag, news) {
      forall p | p in Keys(olds, Pair) ensures p in Keys(news, Pair) {
        SharedPair(s, tag, olds, news, p);
      }
      forall p | p in Keys(news, Pair) ensures p in Keys(olds, Pair) {
        SharedPair(s, tag, news, olds, p);
      }
    } else if Keys(olds, Pair) == Keys(news, Pair) {
      SamePairsSynced(s, tag, olds, news);
    }
  }

  lemma SharedPair(s: State, tag: string, olds: seq<UserInfo>, news: seq<UserInfo>, p: (string, int))
    requires Synced(s, tag, olds) && Synced(s, tag, news) && p in Keys(olds, Pair)
    ensures p in Keys(news, Pair)
  {
    var i :| 0 <= i < |olds| && Pair(olds[i]) == p;
    UuidMember(olds, olds[i]);
    var u := OfUuid(news, p.0);
    UuidMember(news, u);
    assert Matches(s, tag, olds[i]) && Matches(s, tag, u);
  }

  lemma SamePairsSynced(s: State, tag: string, olds: seq<UserInfo>, news: seq<UserInfo>)
    requires Synced(s, tag, olds) && UniqueUuids(news) && StableIds(olds, news)
    requires Keys(olds, Pair) == Keys(news, Pair)
    ensures Synced(s, tag, news)
  {
    forall i | 0 <= i < |news| ensures Matches(s, tag, news[i]) {
      UuidMember(news, news[i]);
      var u := OfPair(olds, news[i]);
      assert Matches(s, tag, u) && u.id == news[i].id;
    }
    SamePairsUuids(olds, news);
    SamePairsUuids(news, olds);
    SameUuidsTags(tag, olds, news);
    SameUuidsTags(tag, news, olds);
  }

  lemma SamePairsUuids(olds: seq<UserInfo>, news: seq<UserInfo>)
    requires Keys(olds, Pair) == Keys(news, Pair)
    ensures Uuids(olds) <= Uuids(news)
  {
    forall x | x in Uuids(olds) ensures x in Uuids(news) {
      var u := OfUuid(olds, x);
      UuidMember(olds, u);
      var v := OfPair(news, u);
      UuidMember(news, v);
    }
  }

  lemma SameUuidsTags(tag: string, olds: seq<UserInfo>, news: seq<UserInfo>)
    requires Uuids(olds) <= Uuids(news)
    ensures Tags(tag, olds) <= Tags(tag, news)
  {
    forall t | t in Tags(tag, olds) ensures t in Tags(tag, news) {
      var i := TagOf(tag, olds, t);
      TagsAreUuids(tag, olds, olds[i].uuid);
      TagsAreUuids(tag, news, olds[i].uuid);
    }
  }

  /** The core's tables are those of the list. */
  ghost predicate CoreSynced(t: Tables, tag: string, list: seq<UserInfo>) {
    && tag in t.inbounds && t.inbounds[tag] == Tags(tag, list)
    && forall i :: 0 <= i < |list| ==> HasUid(t, tag, list[i])
  }

  ghost predicate HasUid(t: Tables, tag: string, u: UserInfo) {
    UserTag(tag, u.uuid) in t.uidMap && t.uidMap[UserTag(tag, u.uuid)] == u.id
  }

  /** `t2` is `t1` with the users `added` on one node; a uid of another user is kept. */
  ghost predicate WithAdded(t1: Tables, t2: Tables, tag: string, added: seq<UserInfo>) {
    && tag in t1.inbounds && tag in t2.inbounds
    && t2.inbounds[tag] == t1.inbounds[tag] + Tags(tag, added) && t2.inbounds - {tag} == t1.inbounds - {tag}
    && t2.uidMap.Keys == t1.uidMap.Keys + Tags(tag, added)
    && (forall k :: k in t1.uidMap && k !in Tags(tag, added) ==> t2.uidMap[k] == t1.uidMap[k])
    && (UniqueUuids(added) ==> forall i :: 0 <= i < |added| ==> HasUid(t2, tag, added[i]))
    && t2.counters == t1.counters && t2.managers == t1.managers
  }

  /** Deleting and adding along a diff takes the core from the one list to the other. */
  lemma CoreFollowsDiff(t0: Tables, t2: Tables, tag: string, olds: seq<UserInfo>, news: seq<UserInfo>,
                        deleted: seq<UserInfo>, added: seq<UserInfo>)
    requires CoreSynced(t0, tag, olds) && UniqueUuids(olds) && UniqueUuids(news) && StableIds(olds, news)
    requires IsDiff(olds, news, deleted, added, Pair)
    requires WithAdded(Without(t0, tag, Tags(tag, deleted)), t2, tag, added)
    ensures CoreSynced(t2, tag, news)
  {
    TagsOfDiff(tag, olds, news, deleted, added);
    AddedUnique(olds, news, deleted, added);
    forall i | 0 <= i < |news| ensures HasUid(t2, tag, news[i]) {
      var u := news[i];
      AddedByUuid(olds, news, deleted, added, u);
      if u in added {
        var j :| 0 <= j < |added| && added[j] == u;
        assert HasUid(t2, tag, added[j]);
      } else {
        var v := OfPair(olds, u);
        DeletedByUuid(olds, news, deleted, added, v);
        UuidMember(news, u);
        TagsAreUuids(tag, deleted, u.uuid);
        TagsAreUuids(tag, added, u.uuid);
        assert HasUid(t0, tag, v) && v.id == u.id;
      }
    }
  }

  /** The limiter's tables are those of the list, and no cached bucket is stale. */
  ghost predicate LimiterSynced(s: State, tag: string, list: seq<UserInfo>, nodeLimit: int, rules: Rules) {
    Synced(s, tag, list) && Coherent(s) && s.speedLimit == nodeLimit && Proper(list, rules)
  }

  lemma FreshLimiterSynced(s: State, tag: string, list: seq<UserInfo>, nodeLimit: int, alive: map<int, int>,
                           rules: Rules)
    requires Proper(list, rules) && nodeLimit >= 0 && s == PutAll(Empty(nodeLimit, alive), tag, list)
    ensures LimiterSynced(s, tag, list, nodeLimit, rules)
  {
    FreshIsSynced(nodeLimit, alive, tag, list);
    FreshIsCoherent(nodeLimit, alive, tag, list);
  }

  lemma SameIds(olds: seq<UserInfo>, news: seq<UserInfo>, rules: Rules)
    requires Proper(olds, rules) && Proper(news, rules)
    ensures StableIds(olds, news) && SameLength(olds + news, rules.length) && Distinct(news, Pair)
  {
    DistinctOfUnique(news);
  }

  /** The online IPs, the reported ones and the alive counts have no part in it. */
  lemma SameLimiterSynced(s: State, s': State, tag: string, list: seq<UserInfo>, nodeLimit: int, rules: Rules)
    requires LimiterSynced(s, tag, list, nodeLimit, rules)
    requires s'.users == s.users && s'.uids == s.uids && s'.buckets == s.buckets && s'.speedLimit == s.speedLimit
    ensures LimiterSynced(s', tag, list, nodeLimit, rules)
  {
    SameTablesSynced(s, s', tag, list);
  }

  lemma DiffLimiterSynced(s: State, tag: string, olds: seq<UserInfo>, news: seq<UserInfo>, deleted: seq<UserInfo>,
                          added: seq<UserInfo>, nodeLimit: int, rules: Rules)
    requires LimiterSynced(s, tag, olds, nodeLimit, rules) && Proper(news, rules)
    requires IsDiff(olds, news, deleted, added, Pair)
    ensures LimiterSynced(Update(s, tag, added, deleted), tag, news, nodeLimit, rules)
  {
    SameIds(olds, news, rules);
    StableKeepsIds(olds, news);
    UpdateKeepsSynced(s, tag, olds, news, deleted, added);
    DiffKeepsCoherence(s, tag, olds, news, deleted, added);
    DropAllEffect(s, tag, deleted);
    PutAllEffect(DropAll(s, tag, deleted), tag, added);
  }

  function AliveOf(alive: Option<map<int, int>>): map<int, int> {
    if alive.Some? then alive.value else map[]
  }

  function WithAlive(s: State, alive: Option<map<int, int>>): State {
    if alive.Some? then s.(alive := alive.value) else s
  }

  /** A limiter that is kept when the list changes follows the new list exactly when both
      lists have the same (UUID, speed) pairs. */
  lemma KeptLimiterSynced(s: State, alive: Option<map<int, int>>, tag: string, olds: seq<UserInfo>, news: seq<UserInfo>,
                          nodeLimit: int, rules: Rules)
    requires LimiterSynced(s, tag, olds, nodeLimit, rules) && Proper(news, rules)
    ensures LimiterSynced(WithAlive(s, alive), tag, news, nodeLimit, rules) <==> Keys(olds, Pair) == Keys(news, Pair)
  {
    var s' := WithAlive(s, alive);
    SameIds(olds, news, rules);
    SyncedToOther(s, tag, olds, news);
    SameLimiterSynced(s, s', tag, olds, nodeLimit, rules);
    if Synced(s, tag, news) {
      SameTablesSynced(s, s', tag, news);
    } else if Synced(s', tag, news) {
      SameTablesSynced(s', s, tag, news);
    }
  }

  lemma CallLimiterSynced(s: State, op: Op, tag: string, list: seq<UserInfo>, nodeLimit: int, rules: Rules)
    requires LimiterSynced(s, tag, list, nodeLimit, rules) && !op.UpdateOp? && Enabled(s, op)
    ensures LimiterSynced(Step(s, op), tag, list, nodeLimit, rules)
  {
    StepKeepsAll(s, op, tag, list);
    StepKeepsNodeLimit(s, op);
  }

  /** On such tables only listed users are admitted, at the rate that the list asks for. */
  lemma VerdictFollowsList(s: State, tag: string, list: seq<UserInfo>, nodeLimit: int, rules: Rules, uuid: string,
                           ip: string, now: int, counted: bool)
    requires LimiterSynced(s, tag, list, nodeLimit, rules)
    ensures var v := Check(s, UserTag(tag, uuid), ip, now, counted).1;
            v.Admitted? ==>
              exists i ::
                0 <= i < |list| && list[i].uuid == uuid && v.bucket == FreshBucket(nodeLimit, list[i].speedLimit)
  {
    var t := UserTag(tag, uuid);
    if t in s.users {
      TagsAreUuids(tag, list, uuid);
      var i :| 0 <= i < |list| && list[i].uuid == uuid;
      assert Matches(s, tag, list[i]);
      CheckKeepsCoherence(s, t, ip, now, counted);
    }
  }

  function FreshBucket(nodeLimit: int, userLimit: int): Option<int> {
    if nodeLimit == 0 && userLimit == 0 then None else Some(Rate(nodeLimit, userLimit))
  }

  /** A changed node whose list changes one speed: a named controller's limiter falls behind. */
  lemma NamedNodeFallsBehind(tag: string)
    ensures var rules := Rules(1, _ => 1);
            var u, v := UserInfo(1, "a", 10, 0), UserInfo(1, "a", 20, 0);
            var s := PutAll(Empty(0, map[]), tag, [u]);
            LimiterSynced(s, tag, [u], 0, rules) && Proper([v], rules)
            && !LimiterSynced(WithAlive(s, None), tag, [v], 0, rules)
  {
    var rules := Rules(1, _ => 1);
    var u, v := UserInfo(1, "a", 10, 0), UserInfo(1, "a", 20, 0);
    var s := PutAll(Empty(0, map[]), tag, [u]);
    FreshLimiterSynced(s, tag, [u], 0, map[], rules);
    KeptLimiterSynced(s, None, tag, [u], [v], 0, rules);
    assert Pair([v][0]) in Keys([v], Pair) && Pair(v) !in Keys([u], Pair);
  }

  lemma PutAllAlive(tag: string, us: seq<UserInfo>, nodeLimit: int, alive: map<int, int>)
    ensures PutAll(Empty(nodeLimit, alive), tag, us).alive == alive
  {
    PutAllEffect(Empty(nodeLimit, alive), tag, us);
  }

  lemma DropBoth<T>(a: map<string, T>, b: map<string, T>, c: map<string, T>, x: string, y: string)
    requires a - {y} == b - {y} && b == c - {x}
    ensures a - {x, y} == c - {x, y} && (x != y ==> x !in a)
  {
    assert a - {x, y} == (a - {y}) - {x} && c - {x, y} == (b - {y}) - {x};
    assert x != y && x in a ==> x in a - {y};
  }

  lemma SplitsAtColon(s: string, x: string, t: string, y: string)
    requires ':' !in s && ':' !in t && s + ":" + x == t + ":" + y
    ensures s == t && x == y
  {
    var a, b := s + ":" + x, t + ":" + y;
    assert a[|s|] == ':' && b[|t|] == ':';
    assert |s| == |t|;
    assert a[..|s|] == s && b[..|t|] == t && a[|s| + 1..] == x && b[|t| + 1..] == y;
  }

  /** What happens to a running controller: ticks, connections and device reports. */
  datatype Event =
    | Tick(pull: Pull)
    | Connection(uuid: string, ip: string, now: int, counted: bool)
    | DeviceReport

  /** The ticks keep the panel's rules, and a named controller sees no changed node. */
  ghost predicate Fair(events: seq<Event>, name: string, rules: Rules) {
    forall i :: 0 <= i < |events| && events[i].Tick? ==>
      ProperPull(events[i].pull, rules) && (name == "" || events[i].pull.node.None?)
  }

  ghost predicate AllAccepted(events: seq<Event>) {
    forall i :: 0 <= i < |events| && events[i].Tick? ==> Accepted(events[i].pull)
  }

  /** The list after a run in which nothing is refused. */
  function LatestUsers(events: seq<Event>, list: seq<UserInfo>): seq<UserInfo> {
    if events == [] then list
    else
      var before, e := LatestUsers(events[..|events| - 1], list), events[|events| - 1];
      if e.Tick? then NextUsers(e.pull, before) else before
  }

  /** The tick brings a list: it asks for no diff of an empty one. */
  predicate Brings(e: Event) {
    e.Tick? && !e.pull.failed && e.pull.users.Some? && (e.pull.users.value != [] || e.pull.node.Some?)
  }

  predicate BroughtLast(events: seq<Event>, k: nat) {
    k < |events| && Brings(events[k]) && forall j :: k < j < |events| ==> !Brings(events[j])
  }

  /** It is the list of the last tick that brought one. */
  lemma {:induction false} LatestIsLast(events: seq<Event>, list: seq<UserInfo>)
    ensures forall k: nat :: BroughtLast(events, k) ==>
              LatestUsers(events, list) == events[k].pull.users.value
    ensures (forall k :: 0 <= k < |events| ==> !Brings(events[k])) ==> LatestUsers(events, list) == list
  {
    if events != [] {
      var front := events[..|events| - 1];
      LatestIsLast(front, list);
      assert forall k :: 0 <= k < |front| ==> events[k] == front[k];
      forall k: nat | BroughtLast(events, k) ensures LatestUsers(events, list) == events[k].pull.users.value {
        assert k < |front| ==> BroughtLast(front, k);
      }
    }
  }

  /** What the diff of two lists hands on, whatever the lists are. */
  ghost predicate Changes(olds: seq<UserInfo>, news: seq<UserInfo>, deleted: seq<UserInfo>, added: seq<UserInfo>) {
    added == Unmatched(news, UserKey, Keys(olds, UserKey)) && DeletedByKey(olds, news, deleted, UserKey)
  }

  lemma ChangesAreDiff(olds: seq<UserInfo>, news: seq<UserInfo>, deleted: seq<UserInfo>, added: seq<UserInfo>,
                       rules: Rules)
    requires Changes(olds, news, deleted, added)
    ensures Proper(olds, rules) && Proper(news, rules) ==> IsDiff(olds, news, deleted, added, Pair)
  {
    if Proper(olds, rules) && Proper(news, rules) {
      SameIds(olds, news, rules);
      OneLengthSees(olds, news, rules.length);
      CompareIsDiff(olds, news, deleted, added, UserKey, Pair);
    }
  }

  /** The limiters by node tag, of limiter/limiter.go. */
  class Registry {
    var limiters: map<string, Limiter>

    constructor ()
      ensures limiters == map[]
    {
      limiters := map[];
    }
  }

  /** The uids that a tick may touch: those of the users, before and after, of one node. */
  function Touched(tag: string, olds: seq<UserInfo>, users: Option<seq<UserInfo>>): set<string> {
    Tags(tag, olds) + if users.Some? then Tags(tag, users.value) else {}
  }

  lemma TagsWithin(tag: string, us: seq<UserInfo>, all: seq<UserInfo>)
    requires forall u :: u in us ==> u in all
    ensures Tags(tag, us) <= Tags(tag, all)
  {
    forall t | t in Tags(tag, us) ensures t in Tags(tag, all) {
      var i := TagOf(tag, us, t);
      var j := IndexOf(all, us[i]);
    }
  }

  lemma UnmatchedWithin(us: seq<UserInfo>, ks: set<string>)
    ensures forall u :: u in Unmatched(us, UserKey, ks) ==> u in us
  {
    UnmatchedPlaces(us, UserKey, ks);
    forall u | u in Unmatched(us, UserKey, ks) ensures u in us {
      var a := IndexOf(Unmatched(us, UserKey, ks), u);
    }
  }

  lemma ChangesWithin(tag: string, olds: seq<UserInfo>, news: seq<UserInfo>, deleted: seq<UserInfo>,
                      added: seq<UserInfo>)
    requires Changes(olds, news, deleted, added)
    ensures Tags(tag, deleted) + Tags(tag, added) <= Touched(tag, olds, Some(news))
  {
    UnmatchedWithin(news, Keys(olds, UserKey));
    TagsWithin(tag, deleted, olds);
    TagsWithin(tag, added, news);
  }

  /** What stays when less is left out stays when more is. */
  lemma KeptBeyond<T>(a: map<string, T>, b: map<string, T>, less: set<string>, more: set<string>)
    requires a - less == b - less && less <= more
    ensures a - more == b - more
  {
    assert a - more == (a - less) - more && b - more == (b - less) - more;
  }

  /** A named controller's node changes together with the (UUID, speed) pairs of its list. */
  predicate PairsMove(e: Event, name: string, list: seq<UserInfo>) {
    && e.Tick? && name != "" && !e.pull.failed && e.pull.node.Some? && e.pull.users.Some?
    && Keys(e.pull.users.value, Pair) != Keys(list, Pair)
  }

  predicate PairsStay(events: seq<Event>, name: string, list: seq<UserInfo>) {
    events != [] ==>
      var front := events[..|events| - 1];
      PairsStay(front, name, list) && !PairsMove(events[|events| - 1], name, LatestUsers(front, list))
  }

  /** The ticks keep the panel's rules. */
  ghost predicate Lawful(events: seq<Event>, rules: Rules) {
    forall i :: 0 <= i < |events| && events[i].Tick? ==> ProperPull(events[i].pull, rules)
  }

  lemma EachEvent(events: seq<Event>, i: nat, name: string, rules: Rules)
    requires i < |events|
    ensures Fair(events, name, rules) ==> Fair([events[i]], name, rules)
    ensures Lawful(events, rules) ==> Lawful([events[i]], rules)
    ensures AllAccepted(events) ==> AllAccepted([events[i]])
  {
  }

  lemma EventSnoc(events: seq<Event>, i: nat, name: string, list: seq<UserInfo>)
    requires i < |events|
    ensures var before, e := LatestUsers(events[..i], list), events[i];
            && LatestUsers(events[..i + 1], list) == (if e.Tick? then NextUsers(e.pull, before) else before)
            && (PairsStay(events[..i + 1], name, list) <==>
                  PairsStay(events[..i], name, list) && !PairsMove(e, name, before))
  {
    assert events[..i + 1][..i] == events[..i];
  }

  class Controller {
    const apiHost: string
    const name: string           // Options.Name
    const nodeLimit: int
    const threshold: int         // ReportMinTraffic, in KiB
    const core: Xray
    var tag: string
    var limiter: Limiter?        // null until Start
    var userList: seq<UserInfo>
    var info: NodeInfo
    const registry: Registry

    constructor (apiHost: string, name: string, nodeLimit: int, threshold: int, core: Xray, registry: Registry)
      ensures this.apiHost == apiHost && this.name == name && this.nodeLimit == nodeLimit && this.threshold == threshold
      ensures this.core == core && this.registry == registry && limiter == null && userList == []
    {
      this.apiHost, this.name, this.nodeLimit, this.threshold, this.core := apiHost, name, nodeLimit, threshold, core;
      tag, limiter, userList, info := "", null, [], NodeInfo("", 0, false, 0, 0);
      this.registry := registry;
    }

    function BuildNodeTag(node: NodeInfo): string {
      "[" + apiHost + "]-" + node.nodeType + ":" + Itoa(node.id)
    }

    lemma NodeTagInText(node: NodeInfo)
      requires node.nodeType == "vmess" && node.id == 5 && apiHost == "host"
      ensures BuildNodeTag(node) == "[host]-vmess:5"
    {
      ItoaInDigits(1, 0, 5);
    }

    /** Nodes of one panel have different tags; no node type contains a colon. */
    lemma NodeTagInjective(a: NodeInfo, b: NodeInfo)
      requires ':' !in a.nodeType && ':' !in b.nodeType
      ensures BuildNodeTag(a) == BuildNodeTag(b) <==> a.nodeType == b.nodeType && a.id == b.id
    {
      if BuildNodeTag(a) == BuildNodeTag(b) {
        var host := "[" + apiHost + "]-";
        var x, y := a.nodeType + ":" + Itoa(a.id), b.nodeType + ":" + Itoa(b.id);
        assert BuildNodeTag(a) == host + x && BuildNodeTag(b) == host + y;
        assert (host + x)[|host|..] == x && (host + y)[|host|..] == y;
        SplitsAtColon(a.nodeType, Itoa(a.id), b.nodeType, Itoa(b.id));
        AtoiOfItoa(a.id);
        AtoiOfItoa(b.id);
      }
    }

    ghost predicate LimiterInSync(rules: Rules)
      reads this`tag, this`limiter, this`userList, limiter
    {
      limiter != null && LimiterSynced(limiter.View(), tag, userList, nodeLimit, rules)
    }

    /** The inbound's users, the limiter's users and limits, and the uids agree with the list. */
    ghost predicate InSync(rules: Rules)
      reads this`tag, this`limiter, this`userList, this`info, limiter, core
    {
      core.Valid() && LimiterInSync(rules) && CoreSynced(core.View(), tag, userList) && Supported(info)
    }

    /** The node has an inbound. */
    ghost predicate Up()
      reads this`tag, this`info, core
    {
      tag in core.inbounds && Supported(info)
    }

    /** The limiter in use is the one that connections look up. */
    ghost predicate Registered()
      reads this`tag, this`limiter, registry
    {
      tag in registry.limiters && registry.limiters[tag] == limiter
    }

    method AddLimiter(tag: string, alive: Option<map<int, int>>, ghost rules: Rules) returns (l: Limiter)
      modifies registry
      ensures registry.limiters == old(registry.limiters)[tag := l]
      ensures fresh(l) && l.View() == PutAll(Empty(nodeLimit, AliveOf(alive)), tag, userList)
      ensures Proper(userList, rules) && nodeLimit >= 0 ==> LimiterSynced(l.View(), tag, userList, nodeLimit, rules)
    {
      l := new Limiter(tag, nodeLimit, userList, AliveOf(alive));
      registry.limiters := registry.limiters[tag := l];
      if Proper(userList, rules) && nodeLimit >= 0 {
        FreshLimiterSynced(l.View(), tag, userList, nodeLimit, AliveOf(alive), rules);
      }
    }

    method ReplaceLimiter(node: NodeInfo, alive: Option<map<int, int>>, ghost rules: Rules)
      modifies this`tag, this`limiter, registry
      ensures tag == BuildNodeTag(node) && limiter != null && fresh(limiter)
      ensures registry.limiters == old(registry.limiters)[tag := limiter]
      ensures limiter.View() == PutAll(Empty(nodeLimit, AliveOf(alive)), tag, userList)
      ensures Proper(userList, rules) && nodeLimit >= 0 ==> LimiterInSync(rules)
    {
      tag := BuildNodeTag(node);
      registry.limiters := registry.limiters - {tag};
      limiter := AddLimiter(tag, alive, rules);
    }

    /** A new limiter for an unnamed node; a named one keeps its limiter and its tag. */
    method RenewLimiter(node: NodeInfo, alive: Option<map<int, int>>, ghost rules: Rules)
      requires limiter != null
      modifies this`tag, this`limiter, limiter, registry
      ensures limiter != null && registry.limiters ==
                if name == "" then old(registry.limiters)[tag := limiter] else old(registry.limiters)
      ensures name == "" ==> tag == BuildNodeTag(node) && fresh(limiter)
      ensures name == "" ==> limiter.View() == PutAll(Empty(nodeLimit, AliveOf(alive)), tag, userList)
      ensures name == "" && Proper(userList, rules) && nodeLimit >= 0 ==> LimiterInSync(rules)
      ensures name != "" ==>
                tag == old(tag) && limiter == old(limiter) && limiter.View() == WithAlive(old(limiter.View()), alive)
    {
      if name == "" {
        ReplaceLimiter(node, alive, rules);
      }
      PutAllAlive(tag, userList, nodeLimit, AliveOf(alive));
      SetAlive(alive, rules);
    }

    /** A new inbound with the users of the list. */
    method PlaceNode(node: NodeInfo, refused: set<string>) returns (ok: bool)
      requires core.Valid()
      modifies core`inbounds, core`minTraffic, core`uidMap
      ensures ok <==> Supported(node) && Tags(tag, userList) !! refused
      ensures ok && UniqueUuids(userList) ==> CoreSynced(core.View(), tag, userList)
      ensures tag in core.inbounds && core.inbounds - {tag} == old(core.inbounds) - {tag}
      ensures core.uidMap - Tags(tag, userList) == old(core.uidMap) - Tags(tag, userList)
      ensures core.minTraffic == old(core.minTraffic)[tag := threshold * 1024]
    {
      core.AddNode(tag, threshold);
      ghost var n;
      ok, n := core.AddUsers(tag, userList, Supported(node), refused);
    }

    /** The rules and the certificate come before the inbound. */
    method PlaceChecked(p: Pull) returns (placed: bool)
      requires core.Valid() && p.node.Some?
      modifies core`inbounds, core`minTraffic, core`uidMap
      ensures core.Valid() && (Accepted(p) ==> placed)
      ensures p.ruleFails || (p.node.value.tls && p.certFails) ==>
                !placed && core.inbounds == old(core.inbounds) && core.uidMap == old(core.uidMap)
      ensures placed && UniqueUuids(userList) ==> CoreSynced(core.View(), tag, userList)
      ensures placed ==> tag in core.inbounds && core.minTraffic == old(core.minTraffic)[tag := threshold * 1024]
      ensures core.inbounds - {tag} == old(core.inbounds) - {tag}
      ensures core.uidMap - Tags(tag, userList) == old(core.uidMap) - Tags(tag, userList)
    {
      if p.ruleFails || (p.node.value.tls && p.certFails) {
        return false;
      }
      placed := PlaceNode(p.node.value, p.refused);
    }

    /** What a changed node leaves, step by step. */
    method Rebuild(p: Pull, ghost rules: Rules) returns (placed: bool)
      requires core.Valid() && limiter != null && p.node.Some?
      modifies this`tag, this`limiter, this`userList, this`info, limiter, registry, core`inbounds, core`minTraffic,
               core`uidMap
      ensures core.Valid() && limiter != null
      ensures registry.limiters == if name == "" then old(registry.limiters)[tag := limiter] else old(registry.limiters)
      ensures info == p.node.value && (Accepted(p) ==> placed)
      ensures userList == if p.users.Some? then p.users.value else old(userList)
      ensures name == "" ==> tag == BuildNodeTag(p.node.value) && fresh(limiter)
      ensures name == "" ==> limiter.View() == PutAll(Empty(nodeLimit, AliveOf(p.alive)), tag, userList)
      ensures name == "" && Proper(userList, rules) && nodeLimit >= 0 ==> LimiterInSync(rules)
      ensures name != "" ==>
                tag == old(tag) && limiter == old(limiter) && limiter.View() == WithAlive(old(limiter.View()), p.alive)
      ensures p.ruleFails || (p.node.value.tls && p.certFails) ==>
                core.inbounds == old(core.inbounds) - {old(tag)} && core.uidMap == old(core.uidMap)
      ensures Accepted(p) && UniqueUuids(userList) ==> CoreSynced(core.View(), tag, userList)
      ensures placed ==> tag in core.inbounds && core.minTraffic == old(core.minTraffic)[tag := threshold * 1024]
      ensures core.inbounds - {old(tag), tag} == old(core.inbounds) - {old(tag), tag}
      ensures tag != old(tag) ==> old(tag) !in core.inbounds
      ensures core.uidMap - Tags(tag, userList) == old(core.uidMap) - Tags(tag, userList)
    {
      info := p.node.value;
      if p.users.Some? {
        userList := p.users.value;
      }
      core.DelNode(tag);
      RenewLimiter(p.node.value, p.alive, rules);
      ghost var without := core.inbounds;
      placed := PlaceChecked(p);
      DropBoth(core.inbounds, without, old(core.inbounds), old(tag), tag);
    }

    method AddToCore(added: seq<UserInfo>, refused: set<string>) returns (ok: bool)
      modifies core`inbounds, core`uidMap
      ensures tag in old(core.inbounds) && refused == {} && Supported(info) ==> ok
      ensures ok && tag in old(core.inbounds) ==> WithAdded(old(core.View()), core.View(), tag, added)
      ensures core.inbounds.Keys == old(core.inbounds.Keys) && core.inbounds - {tag} == old(core.inbounds) - {tag}
      ensures core.uidMap - Tags(tag, added) == old(core.uidMap) - Tags(tag, added)
    {
      ok := true;
      if |added| > 0 {
        ghost var n;
        ok, n := core.AddUsers(tag, added, Supported(info), refused);
        assert added[..|added|] == added;
      }
    }

    method DeleteFromCore(deleted: seq<UserInfo>, refused: set<string>) returns (ok: bool)
      requires core.Valid()
      modifies core`inbounds, core`uidMap, core`counters, core`managers, core.managers.Values
      ensures core.Valid() && core.managers.Values <= old(core.managers.Values)
      ensures tag in old(core.inbounds) && refused == {} ==> ok
      ensures ok && tag in old(core.inbounds) ==> core.View() == Without(old(core.View()), tag, Tags(tag, deleted))
      ensures core.inbounds - {tag} == old(core.inbounds) - {tag} && core.counters - {tag} == old(core.counters) - {tag}
      ensures old(tag in core.inbounds) ==> tag in core.inbounds
      ensures core.uidMap - Tags(tag, deleted) == old(core.uidMap) - Tags(tag, deleted)
    {
      ok := true;
      if |deleted| > 0 {
        ghost var gone;
        ok, gone := core.DelUsers(deleted, tag, refused);
        assert deleted[..|deleted|] == deleted;
        TagsWithin(tag, deleted[..gone], deleted);
      } else if tag in core.inbounds {
        WithoutNone(core.View(), tag);
        assert Tags(tag, deleted) == {};
      }
    }

    /** The core's part of a changed list: refusals stop it halfway. */
    method ChangeCoreUsers(deleted: seq<UserInfo>, added: seq<UserInfo>, refused: set<string>) returns (ok: bool)
      requires core.Valid()
      modifies core`inbounds, core`uidMap, core`counters, core`managers, core.managers.Values
      ensures core.Valid() && core.managers.Values <= old(core.managers.Values)
      ensures tag in old(core.inbounds) && refused == {} && Supported(info) ==> ok
      ensures ok && tag in old(core.inbounds) ==>
                WithAdded(Without(old(core.View()), tag, Tags(tag, deleted)), core.View(), tag, added)
      ensures core.inbounds - {tag} == old(core.inbounds) - {tag} && core.counters - {tag} == old(core.counters) - {tag}
      ensures old(tag in core.inbounds) ==> tag in core.inbounds
      ensures core.uidMap - (Tags(tag, deleted) + Tags(tag, added)) ==
                old(core.uidMap) - (Tags(tag, deleted) + Tags(tag, added))
    {
      ghost var before, all := core.uidMap, Tags(tag, deleted) + Tags(tag, added);
      ok := DeleteFromCore(deleted, refused);
      ghost var between := core.uidMap;
      KeptBeyond(between, before, Tags(tag, deleted), all);
      if ok {
        ok := AddToCore(added, refused);
        KeptBeyond(core.uidMap, between, Tags(tag, added), all);
      }
    }

    method Compare(newU: seq<UserInfo>, ghost rules: Rules) returns (deleted: seq<UserInfo>, added: seq<UserInfo>)
      ensures Changes(userList, newU, deleted, added)
      ensures Tags(tag, deleted) + Tags(tag, added) <= Touched(tag, userList, Some(newU))
      ensures Proper(newU, rules) && Proper(userList, rules) ==> IsDiff(userList, newU, deleted, added, Pair)
    {
      deleted, added := CompareUserList(userList, newU);
      ChangesWithin(tag, userList, newU, deleted, added);
      ChangesAreDiff(userList, newU, deleted, added, rules);
    }

    method ChangeUsers(newU: seq<UserInfo>, deleted: seq<UserInfo>, added: seq<UserInfo>, refused: set<string>,
                       ghost rules: Rules, ghost all: set<string>) returns (ok: bool)
      requires core.Valid() && limiter != null && Tags(tag, deleted) + Tags(tag, added) <= all
      modifies this`userList, limiter, core`inbounds, core`uidMap, core`counters, core`managers, core.managers.Values
      ensures core.Valid() && core.managers.Values <= old(core.managers.Values)
      ensures core.inbounds - {tag} == old(core.inbounds) - {tag} && core.counters - {tag} == old(core.counters) - {tag}
      ensures old(tag in core.inbounds) ==> tag in core.inbounds
      ensures core.uidMap - all == old(core.uidMap) - all
      ensures ok <== refused == {} && Supported(info) && tag in old(core.inbounds)
      ensures userList == if ok then newU else old(userList)
      ensures limiter.View() == if ok then Update(old(limiter.View()), tag, added, deleted) else old(limiter.View())
      ensures ok && Proper(newU, rules) && Proper(old(userList), rules)
              && CoreSynced(old(core.View()), tag, old(userList))
              && IsDiff(old(userList), newU, deleted, added, Pair) ==>
                CoreSynced(core.View(), tag, newU)
    {
      if Proper(newU, rules) && Proper(userList, rules) {
        SameIds(userList, newU, rules);
      }
      ghost var t := core.View();
      ok := ChangeCoreUsers(deleted, added, refused);
      KeptBeyond(core.uidMap, old(core.uidMap), Tags(tag, deleted) + Tags(tag, added), all);
      if !ok {
        return;
      }
      if Proper(newU, rules) && Proper(userList, rules) && CoreSynced(t, tag, userList)
         && IsDiff(userList, newU, deleted, added, Pair) {
        CoreFollowsDiff(t, core.View(), tag, userList, newU, deleted, added);
      }
      if |added| > 0 || |deleted| > 0 {
        limiter.UpdateUser(tag, added, deleted);
      }
      userList := newU;
    }

    /** The diff applied to core, limiter and list. */
    method ApplyDiff(newU: seq<UserInfo>, deleted: seq<UserInfo>, added: seq<UserInfo>, refused: set<string>,
                     ghost rules: Rules, ghost all: set<string>) returns (ok: bool)
      requires core.Valid() && limiter != null && Tags(tag, deleted) + Tags(tag, added) <= all
      requires Proper(newU, rules) && Proper(userList, rules) ==> IsDiff(userList, newU, deleted, added, Pair)
      modifies this`userList, limiter, core`inbounds, core`uidMap, core`counters, core`managers, core.managers.Values
      ensures core.Valid() && core.managers.Values <= old(core.managers.Values)
      ensures core.inbounds - {tag} == old(core.inbounds) - {tag} && core.counters - {tag} == old(core.counters) - {tag}
      ensures old(tag in core.inbounds) ==> tag in core.inbounds
      ensures core.uidMap - all == old(core.uidMap) - all
      ensures ok <== refused == {} && Supported(info) && tag in old(core.inbounds)
      ensures userList == if ok then newU else old(userList)
      ensures limiter.View() == if ok then Update(old(limiter.View()), tag, added, deleted) else old(limiter.View())
      ensures Proper(newU, rules) && old(LimiterInSync(rules)) ==> LimiterInSync(rules)
      ensures Proper(newU, rules) && old(InSync(rules)) && refused == {} ==> InSync(rules)
    {
      ghost var olds, s := userList, limiter.View();
      ok := ChangeUsers(newU, deleted, added, refused, rules, all);
      if ok && Proper(newU, rules) && LimiterSynced(s, tag, olds, nodeLimit, rules) {
        DiffLimiterSynced(s, tag, olds, newU, deleted, added, nodeLimit, rules);
      }
    }

    /** A new list for an unchanged node. A refusal leaves the list and the limiter as they
        were; the panel sends the list again only when it changes once more. */
    method ReplaceUsers(newU: seq<UserInfo>, refused: set<string>, ghost rules: Rules)
        returns (ok: bool, deleted: seq<UserInfo>, added: seq<UserInfo>)
      requires core.Valid() && limiter != null
      modifies this`userList, limiter, core`inbounds, core`uidMap, core`counters, core`managers, core.managers.Values
      ensures core.Valid() && core.managers.Values <= old(core.managers.Values)
      ensures core.inbounds - {tag} == old(core.inbounds) - {tag} && core.counters - {tag} == old(core.counters) - {tag}
      ensures old(tag in core.inbounds) ==> tag in core.inbounds
      ensures var all := Touched(tag, old(userList), Some(newU)); core.uidMap - all == old(core.uidMap) - all
      ensures ok <== refused == {} && Supported(info) && tag in old(core.inbounds)
      ensures Changes(old(userList), newU, deleted, added)
      ensures userList == if ok then newU else old(userList)
      ensures limiter.View() == if ok then Update(old(limiter.View()), tag, added, deleted) else old(limiter.View())
      ensures Proper(newU, rules) && old(LimiterInSync(rules)) ==> LimiterInSync(rules)
      ensures Proper(newU, rules) && old(InSync(rules)) && refused == {} ==> InSync(rules)
    {
      ghost var all := Touched(tag, userList, Some(newU));
      deleted, added := Compare(newU, rules);
      assert LimiterInSync(rules) == old(LimiterInSync(rules)) && InSync(rules) == old(InSync(rules));
      ok := ApplyDiff(newU, deleted, added, refused, rules, all);
    }

    method SetAlive(alive: Option<map<int, int>>, ghost rules: Rules)
      requires limiter != null
      modifies limiter`aliveList
      ensures limiter.aliveList == if alive.Some? then alive.value else old(limiter.aliveList)
      ensures limiter.View() == WithAlive(old(limiter.View()), alive)
      ensures old(LimiterInSync(rules)) ==> LimiterInSync(rules)
      ensures old(InSync(rules)) ==> InSync(rules)
    {
      ghost var s := limiter.View();
      if alive.Some? {
        limiter.aliveList := alive.value;
      }
      if LimiterSynced(s, tag, userList, nodeLimit, rules) {
        SameLimiterSynced(s, limiter.View(), tag, userList, nodeLimit, rules);
      }
    }

    /** The tick for an unchanged node. */
    method SyncUsers(p: Pull, ghost rules: Rules) returns (ghost deleted: seq<UserInfo>, ghost added: seq<UserInfo>)
      requires core.Valid() && limiter != null
      modifies this`userList, limiter, core`inbounds, core`uidMap, core`counters, core`managers, core.managers.Values
      ensures core.Valid() && core.managers.Values <= old(core.managers.Values)
      ensures core.inbounds - {tag} == old(core.inbounds) - {tag} && core.counters - {tag} == old(core.counters) - {tag}
      ensures old(tag in core.inbounds) ==> tag in core.inbounds
      ensures var all := Touched(tag, old(userList), p.users); core.uidMap - all == old(core.uidMap) - all
      ensures || (userList == old(userList) && deleted == added == [])
              || (p.users == Some(userList) && Changes(old(userList), userList, deleted, added))
      ensures limiter.View() == Update(WithAlive(old(limiter.View()), p.alive), tag, added, deleted)
      ensures p.users.None? || p.users.value == [] ==> userList == old(userList) && core.View() == old(core.View())
      ensures old(Up()) ==> Up()
      ensures old(Up()) && Accepted(p) && !p.failed && p.node.None? ==> userList == NextUsers(p, old(userList))
      ensures Delivers(p) && p.node.None? && old(InSync(rules)) && ProperPull(p, rules) ==>
                && userList == p.users.value && tag in core.inbounds
                && core.inbounds[tag] == Tags(tag, p.users.value)
                && IsDiff(old(userList), p.users.value, deleted, added, Pair)
      ensures ProperPull(p, rules) && old(LimiterInSync(rules)) ==> LimiterInSync(rules)
      ensures ProperPull(p, rules) && old(InSync(rules)) && Accepted(p) && !p.failed && p.node.None? ==>
                InSync(rules) && userList == NextUsers(p, old(userList))
    {
      deleted, added := [], [];
      SetAlive(p.alive, rules);
      if p.users.None? || p.users.value == [] {
        return;
      }
      var ok, gone, more := ReplaceUsers(p.users.value, p.refused, rules);
      if ok {
        deleted, added := gone, more;
        ChangesAreDiff(old(userList), p.users.value, deleted, added, rules);
      }
    }

    /** The limiter and the tag after a changed node. */
    twostate predicate Renewed(node: NodeInfo, alive: Option<map<int, int>>)
      requires limiter != null && old(limiter) != null
      reads this, limiter, registry
    {
      if name == "" then
        tag == BuildNodeTag(node) && registry.limiters == old(registry.limiters)[tag := limiter]
        && limiter.View() == PutAll(Empty(nodeLimit, AliveOf(alive)), tag, userList)
      else
        tag == old(tag) && limiter == old(limiter) && registry.limiters == old(registry.limiters)
        && limiter.View() == WithAlive(old(limiter.View()), alive)
    }

    /** The tick for a changed node. */
    method Reload(p: Pull, ghost rules: Rules) returns (placed: bool)
      requires core.Valid() && limiter != null && p.node.Some?
      modifies this`tag, this`limiter, this`userList, this`info, limiter, registry, core`inbounds, core`minTraffic,
               core`uidMap
      ensures core.Valid() && limiter != null && (limiter == old(limiter) || fresh(limiter))
      ensures info == p.node.value && userList == if p.users.Some? then p.users.value else old(userList)
      ensures Renewed(p.node.value, p.alive) && (Accepted(p) ==> placed)
      ensures placed ==> tag in core.inbounds && core.minTraffic == old(core.minTraffic)[tag := threshold * 1024]
      ensures Accepted(p) ==> Up()
      ensures Delivers(p) && old(InSync(rules)) && ProperPull(p, rules) ==>
                && userList == p.users.value && tag in core.inbounds
                && core.inbounds[tag] == Tags(tag, p.users.value)
      ensures core.inbounds - {old(tag), tag} == old(core.inbounds) - {old(tag), tag}
      ensures p.ruleFails || (p.node.value.tls && p.certFails) ==>
                core.inbounds == old(core.inbounds) - {old(tag)} && core.uidMap == old(core.uidMap)
      ensures name == "" && ProperPull(p, rules) && old(LimiterInSync(rules)) ==> LimiterInSync(rules)
      ensures var all := Touched(tag, old(userList), p.users); core.uidMap - all == old(core.uidMap) - all
      ensures ProperPull(p, rules) && old(LimiterInSync(rules)) && Accepted(p) && !p.failed ==>
                && userList == NextUsers(p, old(userList))
                && (InSync(rules) <==> !PairsMove(Tick(p), name, old(userList)))
      ensures name != "" && ProperPull(p, rules) && old(LimiterInSync(rules)) ==>
                (LimiterInSync(rules) <==> Keys(old(userList), Pair) == Keys(userList, Pair))
    {
      ghost var s, olds := limiter.View(), userList;
      placed := Rebuild(p, rules);
      KeptBeyond(core.uidMap, old(core.uidMap), Tags(tag, userList), Touched(tag, olds, p.users));
      if name != "" && ProperPull(p, rules) && LimiterSynced(s, tag, olds, nodeLimit, rules) {
        KeptLimiterSynced(s, p.alive, tag, olds, userList, nodeLimit, rules);
      }
    }

    /** One tick. Whatever is refused or fails, the limiter of an unnamed controller follows
        the user list; when nothing is refused, so does the core. A controller named in its
        options keeps its limiter when the node changes, and is then in step exactly when the
        list that came with the node has the (UUID, speed) pairs of the old one. Other nodes
        of the core are left alone. `placed` says that a changed node is up again. */
    method NodeInfoMonitor(p: Pull, ghost rules: Rules)
        returns (placed: bool, ghost deleted: seq<UserInfo>, ghost added: seq<UserInfo>)
      requires core.Valid() && limiter != null
      modifies this`tag, this`limiter, this`userList, this`info, limiter, registry, core, core.managers.Values
      ensures core.Valid() && limiter != null && (limiter == old(limiter) || fresh(limiter))
      ensures old(Registered()) ==> Registered()
      ensures core.managers.Values <= old(core.managers.Values)
      ensures core.inbounds - {old(tag), tag} == old(core.inbounds) - {old(tag), tag}
      ensures core.counters - {tag} == old(core.counters) - {tag}
      ensures var all := Touched(tag, old(userList), p.users); core.uidMap - all == old(core.uidMap) - all
      ensures placed ==> !p.failed && p.node.Some?
      ensures !p.failed && p.node.Some? && Accepted(p) ==> placed
      ensures placed ==> tag in core.minTraffic && core.minTraffic[tag] == threshold * 1024
      ensures Accepted(p) && old(Up()) ==> Up() && userList == NextUsers(p, old(userList))
      ensures Delivers(p) && old(InSync(rules)) && ProperPull(p, rules) ==>
                && userList == p.users.value && tag in core.inbounds
                && core.inbounds[tag] == Tags(tag, p.users.value)
                && (p.node.None? ==> IsDiff(old(userList), p.users.value, deleted, added, Pair))
      ensures p.failed ==> unchanged(this) && unchanged(old(limiter)) && unchanged(core) && unchanged(registry)
      ensures info == if !p.failed && p.node.Some? then p.node.value else old(info)
      ensures !p.failed && p.node.Some? ==>
                Renewed(p.node.value, p.alive) && userList == if p.users.Some? then p.users.value else old(userList)
      ensures !p.failed && p.node.None? ==>
                && tag == old(tag) && limiter == old(limiter) && registry.limiters == old(registry.limiters)
                && limiter.View() == Update(WithAlive(old(limiter.View()), p.alive), tag, added, deleted)
                && (|| (userList == old(userList) && deleted == added == [])
                    || (p.users == Some(userList) && Changes(old(userList), userList, deleted, added)))
      ensures name == "" || p.node.None? ==>
                (ProperPull(p, rules) && old(LimiterInSync(rules)) ==> LimiterInSync(rules))
      ensures name != "" && p.node.Some? && !p.failed && ProperPull(p, rules) && old(LimiterInSync(rules)) ==>
                (LimiterInSync(rules) <==> Keys(old(userList), Pair) == Keys(userList, Pair))
      ensures ProperPull(p, rules) && old(InSync(rules)) && Accepted(p) ==>
                (InSync(rules) <==> !PairsMove(Tick(p), name, old(userList)))
    {
      placed, deleted, added := false, [], [];
      if p.failed {
        return;
      }
      if p.node.Some? {
        placed := Reload(p, rules);
      } else {
        deleted, added := SyncUsers(p, rules);
        assert {old(tag), tag} == {tag};
      }
    }

    /** The part of Start before the core is asked. */
    method Prepare(p: Pull, ghost rules: Rules) returns (ok: bool)
      requires p.node.Some?
      modifies this`tag, this`limiter, this`userList, registry
      ensures ok <==> && !p.failed && p.users.Some? && p.users.value != []
                      && !p.ruleFails && !(p.node.value.tls && p.certFails)
      ensures ok ==> userList == p.users.value && tag == if name == "" then BuildNodeTag(p.node.value) else name
      ensures ok ==> limiter != null && registry.limiters == old(registry.limiters)[tag := limiter]
      ensures ok ==> limiter.View() == PutAll(Empty(nodeLimit, AliveOf(p.alive)), tag, userList)
      ensures ok && ProperPull(p, rules) && nodeLimit >= 0 ==> LimiterInSync(rules)
    {
      if p.failed {
        return false;
      }
      userList := if p.users.Some? then p.users.value else [];
      if userList == [] {
        return false;
      }
      tag := if name == "" then BuildNodeTag(p.node.value) else name;
      var l := AddLimiter(tag, p.alive, rules);
      if p.ruleFails {
        return false;
      }
      limiter := l;
      ok := !(p.node.value.tls && p.certFails);
    }

    /** The first tick. `started` says that no error was returned. */
    method Start(p: Pull, ghost rules: Rules) returns (started: bool)
      requires core.Valid() && p.node.Some?
      modifies this, registry, core`inbounds, core`minTraffic, core`uidMap
      ensures started ==> p.users.Some? && userList == p.users.value && userList != [] && info == p.node.value
      ensures started ==> !p.failed && !p.ruleFails && !(p.node.value.tls && p.certFails)
      ensures Accepted(p) && !p.failed && p.users.Some? && p.users.value != [] ==> started
      ensures started ==> Registered() && Up() && info.nodeType in {"vmess", "vless", "trojan", "shadowsocks"}
      ensures started ==> core.minTraffic == old(core.minTraffic)[tag := threshold * 1024]
      ensures started && ProperPull(p, rules) && nodeLimit >= 0 ==> InSync(rules)
    {
      started := Prepare(p, rules);
      if started {
        started := PlaceNode(p.node.value, p.refused);
      }
      if started {
        ghost var s, t := limiter.View(), core.View();
        info := p.node.value;
        assert limiter.View() == s && core.View() == t;
      }
    }

    /** A connection of a user of this node, as the dispatcher checks it: it looks the limiter
        up by the node's tag. */
    method Connect(uuid: string, ip: string, now: int, counted: bool, ghost rules: Rules) returns (verdict: Verdict)
      requires limiter != null && Registered()
      modifies limiter
      ensures (limiter.View(), verdict) == Check(old(limiter.View()), UserTag(tag, uuid), ip, now, counted)
      ensures old(LimiterInSync(rules)) ==> LimiterInSync(rules)
      ensures old(LimiterInSync(rules)) && verdict.Admitted? ==>
                exists i :: 0 <= i < |userList| && userList[i].uuid == uuid
                            && verdict.bucket == FreshBucket(nodeLimit, userList[i].speedLimit)
    {
      ghost var s := limiter.View();
      verdict := registry.limiters[tag].CheckLimit(UserTag(tag, uuid), ip, now, counted);
      if LimiterSynced(s, tag, userList, nodeLimit, rules) {
        CallLimiterSynced(s, CheckOp(UserTag(tag, uuid), ip, now, counted), tag, userList, nodeLimit, rules);
        VerdictFollowsList(s, tag, userList, nodeLimit, rules, uuid, ip, now, counted);
      }
    }

    method ReportDevices(ghost rules: Rules) returns (entries: seq<OnlineUser>, ghost pairs: seq<(string, string)>)
      requires limiter != null
      modifies limiter
      ensures Enumerates(pairs, OnlinePairs(old(limiter.View()))) && AllOnline(old(limiter.View()), pairs)
      ensures entries == EntriesOf(old(limiter.View()), pairs)
      ensures limiter.View() == old(limiter.View()).(online := map[], recent := RecentOf(old(limiter.View()), pairs))
      ensures old(LimiterInSync(rules)) ==> LimiterInSync(rules)
    {
      ghost var s := limiter.View();
      entries, pairs := limiter.GetOnlineDevice();
      if LimiterSynced(s, tag, userList, nodeLimit, rules) {
        SameLimiterSynced(s, limiter.View(), tag, userList, nodeLimit, rules);
      }
    }

    method Handle(e: Event, ghost rules: Rules)
      requires core.Valid() && limiter != null && Registered()
      modifies this, limiter, registry, core, core.managers.Values
      ensures core.Valid() && limiter != null && (limiter == old(limiter) || fresh(limiter)) && Registered()
      ensures core.managers.Values <= old(core.managers.Values)
      ensures Fair([e], name, rules) && old(LimiterInSync(rules)) ==> LimiterInSync(rules)
      ensures e.Connection? ==>
                limiter.View() == Check(old(limiter.View()), UserTag(tag, e.uuid), e.ip, e.now, e.counted).0
      ensures e.DeviceReport? ==> limiter.userOnlineIP == map[]
      ensures !e.Tick? ==> unchanged(this) && unchanged(core) && unchanged(registry)
      ensures AllAccepted([e]) && old(Up()) ==>
                Up() && userList == if e.Tick? then NextUsers(e.pull, old(userList)) else old(userList)
      ensures Lawful([e], rules) && old(InSync(rules)) && AllAccepted([e]) ==>
                (InSync(rules) <==> !PairsMove(e, name, old(userList)))
    {
      assert [e][0] == e;
      match e
      case Tick(pull) => var placed, deleted, added := NodeInfoMonitor(pull, rules);
      case Connection(uuid, ip, now, counted) => var verdict := Connect(uuid, ip, now, counted, rules);
      case DeviceReport => var entries; ghost var pairs; entries, pairs := ReportDevices(rules);
    }

    /** Every run keeps the replicas in step: the limiter whatever the core refuses, unless a
        named controller's node changes; and all of them, on the latest list, when the core
        refuses nothing, up to exactly the first such change that moves the pairs. */
    method HandleAll(events: seq<Event>, ghost rules: Rules)
      requires core.Valid() && limiter != null && Registered() && Lawful(events, rules)
      modifies this, limiter, registry, core, core.managers.Values
      ensures core.Valid() && limiter != null && Registered()
      ensures old(LimiterInSync(rules)) && Fair(events, name, rules) ==> LimiterInSync(rules)
      ensures old(Up()) && AllAccepted(events) ==> Up() && userList == LatestUsers(events, old(userList))
      ensures old(InSync(rules)) && AllAccepted(events) && PairsStay(events, name, old(userList)) ==> InSync(rules)
      ensures old(InSync(rules)) && AllAccepted(events) && events != []
              && PairsStay(events[..|events| - 1], name, old(userList)) ==>
                (InSync(rules) <==> PairsStay(events, name, old(userList)))
    {
      ghost var list := userList;
      ghost var limited := LimiterInSync(rules) && Fair(events, name, rules);
      ghost var synced := InSync(rules) && AllAccepted(events);
      ghost var up := Up() && AllAccepted(events);
      for i := 0 to |events|
        invariant core.Valid() && limiter != null && (limiter == old(limiter) || fresh(limiter)) && Registered()
        invariant core.managers.Values <= old(core.managers.Values)
        invariant limited ==> LimiterInSync(rules)
        invariant up ==> Up() && userList == LatestUsers(events[..i], list)
        invariant synced ==> up
        invariant synced && PairsStay(events[..i], name, list) ==> InSync(rules)
        invariant synced && i > 0 && PairsStay(events[..i - 1], name, list) ==>
                    (InSync(rules) <==> PairsStay(events[..i], name, list))
      {
        EachEvent(events, i, name, rules);
        EventSnoc(events, i, name, list);
        Handle(events[i], rules);
      }
      assert events[..|events|] == events;
    }
  }

  /** An unnamed controller's pairs always stay. */
  lemma {:induction false} UnnamedPairsStay(events: seq<Event>, list: seq<UserInfo>)
    ensures PairsStay(events, "", list)
  {
    if events != [] {
      UnnamedPairsStay(events[..|events| - 1], list);
    }
  }
}
