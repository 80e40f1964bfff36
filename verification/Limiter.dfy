/** The limiter of limiter/limiter.go and limiter/dynamic.go: who may connect, from which
    IPs, and at which rate. The functions say what each operation does to the linked maps,
    the class is the code proved against them, and the lemmas are about runs. Concurrent
    maps are maps, and each call is one atomic step. */
module Limiter {
  import opened Common
  import opened Iteration
  import opened Panel

  datatype UserLimit = UserLimit(uid: int, speedLimit: int, deviceLimit: int, dynamicLimit: int, expireTime: int)

  /** The fields of a Limiter. Users are keyed by their user tag, IPs by their text, and a
      bucket is its rate in bytes per second. */
  datatype State = State(
    speedLimit: int,
    online: map<string, map<string, int>>,
    recent: map<string, int>,
    uids: map<string, int>,
    users: map<string, UserLimit>,
    buckets: map<string, int>,
    alive: map<int, int>)

  datatype Verdict = Rejected | Admitted(bucket: Option<int>)

  /** The smallest non-zero limit. */
  function DetermineSpeedLimit(a: int, b: int): (r: int)
    ensures a >= 0 && b >= 0 ==> (r == 0 <==> a == 0 && b == 0)
    ensures a >= 0 && b >= 0 && r != 0 ==> (r == a || r == b) && (a != 0 ==> r <= a) && (b != 0 ==> r <= b)
  {
    if a == 0 || b == 0 then
      if a > b then a else if a < b then b else 0
    else
      if a > b then b else if a < b then a else a
  }

  function Rate(nodeLimit: int, userLimit: int): int {
    DetermineSpeedLimit(nodeLimit, userLimit) * 1000000 / 8
  }

  const MAPPED := "::ffff:"

  function TrimMapped(ip: string): string {
    if MAPPED <= ip then ip[|MAPPED|..] else ip
  }

  // ----- CheckLimit

  predicate Expired(u: UserLimit, now: int) {
    u.expireTime != 0 && u.expireTime < now
  }

  /** The registered users after the expiry of a dynamic limit is noticed. */
  function Settled(users: map<string, UserLimit>, user: string, now: int): map<string, UserLimit>
    requires user in users
  {
    var u := users[user];
    if !Expired(u, now) then users
    else if u.speedLimit != 0 then users[user := u.(dynamicLimit := 0, expireTime := 0)]
    else users - {user}
  }

  function UserRate(u: UserLimit, now: int): int {
    if Expired(u, now) then u.speedLimit else DetermineSpeedLimit(u.speedLimit, u.dynamicLimit)
  }

  predicate IsOnline(s: State, user: string, ip: string) {
    user in s.online && ip in s.online[user]
  }

  function Alive(s: State, uid: int): int {
    if uid in s.alive then s.alive[uid] else 0
  }

  /** A call is refused for an unknown user, and for a new IP, not online at the last report,
      of a user at or above a positive device limit. */
  predicate Refuses(s: State, user: string, ip: string, counted: bool) {
    user in s.users ==>
      && counted && !IsOnline(s, user, ip) && ip !in s.recent
      && 0 < s.users[user].deviceLimit <= Alive(s, s.users[user].uid)
  }

  /** The tables after an admitted call from `ip`, already trimmed. */
  function Seen(s: State, user: string, ip: string, uid: int): State {
    if IsOnline(s, user, ip) then s
    else
      s.(online := s.online[user := (if user in s.online then s.online[user] else map[])[ip := uid]],
         recent := if ip in s.recent && s.recent[ip] == uid then s.recent - {ip} else s.recent)
  }

  function Check(s: State, user: string, ip: string, now: int, counted: bool): (State, Verdict) {
    if user !in s.users then (s, Rejected)
    else
      var u := s.users[user];
      var settled := s.(users := Settled(s.users, user, now));
      var a := TrimMapped(ip);
      if Refuses(s, user, a, counted) then (settled, Rejected)
      else
        var seen := if counted then Seen(settled, user, a, u.uid) else settled;
        var rate := Rate(s.speedLimit, UserRate(u, now));
        if rate <= 0 then (seen, Admitted(None))
        else if user in s.buckets then (seen, Admitted(Some(s.buckets[user])))
        else (seen.(buckets := seen.buckets[user := rate]), Admitted(Some(rate)))
  }

  // ----- UpdateUser and AddLimiter

  function Drop(s: State, tag: string, u: UserInfo): State {
    var t := {UserTag(tag, u.uuid)};
    s.(users := s.users - t, online := s.online - t, buckets := s.buckets - t, uids := s.uids - {u.uuid},
       alive := s.alive - {u.id})
  }

  function Put(s: State, tag: string, u: UserInfo): State {
    s.(users := s.users[UserTag(tag, u.uuid) := UserLimit(u.id, u.speedLimit, u.deviceLimit, 0, 0)],
       uids := s.uids[u.uuid := u.id])
  }

  function DropAll(s: State, tag: string, us: seq<UserInfo>): State {
    if us == [] then s else Drop(DropAll(s, tag, us[..|us| - 1]), tag, us[|us| - 1])
  }

  function PutAll(s: State, tag: string, us: seq<UserInfo>): State {
    if us == [] then s else Put(PutAll(s, tag, us[..|us| - 1]), tag, us[|us| - 1])
  }

  function Update(s: State, tag: string, added: seq<UserInfo>, deleted: seq<UserInfo>): State {
    PutAll(DropAll(s, tag, deleted), tag, added)
  }

  function Empty(speedLimit: int, alive: map<int, int>): State {
    State(speedLimit, map[], map[], map[], map[], map[], alive)
  }

  // ----- GetOnlineDevice

  ghost predicate AllOnline(s: State, pairs: seq<(string, string)>) {
    forall i :: 0 <= i < |pairs| ==> IsOnline(s, pairs[i].0, pairs[i].1)
  }

  /** The report entry of each pair. */
  function EntriesOf(s: State, pairs: seq<(string, string)>): seq<OnlineUser>
    requires AllOnline(s, pairs)
  {
    seq(|pairs|, i requires 0 <= i < |pairs| => OnlineUser(s.online[pairs[i].0][pairs[i].1], pairs[i].1))
  }

  /** The table of recent IPs after the pairs are visited in order. */
  function RecentOf(s: State, pairs: seq<(string, string)>): map<string, int>
    requires AllOnline(s, pairs)
  {
    if pairs == [] then map[]
    else
      var n := |pairs| - 1;
      RecentOf(s, pairs[..n])[pairs[n].1 := s.online[pairs[n].0][pairs[n].1]]
  }

  /** The pairs of the online table that belong to `users`. */
  ghost function PairsOf(s: State, users: set<string>): set<(string, string)> {
    set user, ip | user in s.online && user in users && ip in s.online[user] :: (user, ip)
  }

  ghost function OnlinePairs(s: State): set<(string, string)> {
    PairsOf(s, s.online.Keys)
  }

  class Limiter {
    var speedLimit: int
    var userOnlineIP: map<string, map<string, int>>
    var oldUserOnline: map<string, int>
    var uuidToUid: map<string, int>
    var userLimitInfo: map<string, UserLimit>
    var speedLimiter: map<string, int>
    var aliveList: map<int, int>

    ghost function View(): State
      reads this
    {
      State(speedLimit, userOnlineIP, oldUserOnline, uuidToUid, userLimitInfo, speedLimiter, aliveList)
    }

    /** AddLimiter. */
    constructor (tag: string, nodeLimit: int, users: seq<UserInfo>, alive: map<int, int>)
      ensures View() == PutAll(Empty(nodeLimit, alive), tag, users)
      ensures speedLimit == nodeLimit && aliveList == alive
      ensures userOnlineIP == map[] && oldUserOnline == map[] && speedLimiter == map[]
    {
      speedLimit := nodeLimit;
      userOnlineIP := map[];
      oldUserOnline := map[];
      uuidToUid := map[];
      userLimitInfo := map[];
      speedLimiter := map[];
      aliveList := alive;
      new;
      StoreUsers(tag, users);
    }

    method StoreUsers(tag: string, users: seq<UserInfo>)
      modifies this`userLimitInfo, this`uuidToUid
      ensures View() == PutAll(old(View()), tag, users)
    {
      for i := 0 to |users|
        invariant View() == PutAll(old(View()), tag, users[..i])
      {
        assert users[..i + 1][..i] == users[..i];
        var limit := UserLimit(users[i].id, 0, 0, 0, 0);
        if users[i].speedLimit != 0 {
          limit := limit.(speedLimit := users[i].speedLimit);
        }
        if users[i].deviceLimit != 0 {
          limit := limit.(deviceLimit := users[i].deviceLimit);
        }
        userLimitInfo := userLimitInfo[UserTag(tag, users[i].uuid) := limit];
        uuidToUid := uuidToUid[users[i].uuid := users[i].id];
      }
      assert users[..|users|] == users;
    }

    method UpdateUser(tag: string, added: seq<UserInfo>, deleted: seq<UserInfo>)
      modifies this
      ensures View() == Update(old(View()), tag, added, deleted)
    {
      for i := 0 to |deleted|
        invariant View() == DropAll(old(View()), tag, deleted[..i])
      {
        assert deleted[..i + 1][..i] == deleted[..i];
        var taguuid := UserTag(tag, deleted[i].uuid);
        userLimitInfo := userLimitInfo - {taguuid};
        userOnlineIP := userOnlineIP - {taguuid};
        speedLimiter := speedLimiter - {taguuid};
        uuidToUid := uuidToUid - {deleted[i].uuid};
        aliveList := aliveList - {deleted[i].id};
      }
      assert deleted[..|deleted|] == deleted;
      StoreUsers(tag, added);
    }

    /** `counted` is the code's flag for sources that count as devices. */
    method CheckLimit(taguuid: string, ip: string, now: int, counted: bool) returns (verdict: Verdict)
      modifies this
      ensures (View(), verdict) == Check(old(View()), taguuid, ip, now, counted)
    {
      var address := TrimMapped(ip);
      if taguuid !in userLimitInfo {
        return Rejected;
      }
      var u := userLimitInfo[taguuid];
      var userLimit := 0;
      if u.expireTime < now && u.expireTime != 0 {
        if u.speedLimit != 0 {
          userLimit := u.speedLimit;
          userLimitInfo := userLimitInfo[taguuid := u.(dynamicLimit := 0, expireTime := 0)];
        } else {
          userLimitInfo := userLimitInfo - {taguuid};
        }
      } else {
        userLimit := DetermineSpeedLimit(u.speedLimit, u.dynamicLimit);
      }
      if counted {
        var refused := CountDevice(taguuid, address, u.uid, u.deviceLimit);
        if refused {
          return Rejected;
        }
      }
      var limit := DetermineSpeedLimit(speedLimit, userLimit) * 1000000 / 8;
      if limit > 0 {
        if taguuid !in speedLimiter {
          speedLimiter := speedLimiter[taguuid := limit];
        }
        return Admitted(Some(speedLimiter[taguuid]));
      } else {
        return Admitted(None);
      }
    }

    /** The device part of CheckLimit: store first, take back on refusal. */
    method CountDevice(taguuid: string, ip: string, uid: int, deviceLimit: int) returns (refused: bool)
      modifies this`userOnlineIP, this`oldUserOnline
      ensures refused <==>
                && !(taguuid in old(userOnlineIP) && ip in old(userOnlineIP)[taguuid]) && ip !in old(oldUserOnline)
                && deviceLimit > 0 && uid in aliveList && aliveList[uid] >= deviceLimit
      ensures View() == if refused then old(View()) else Seen(old(View()), taguuid, ip, uid)
    {
      var aliveIp := if uid in aliveList then aliveList[uid] else 0;
      if taguuid in userOnlineIP {
        var ips := userOnlineIP[taguuid];
        if ip !in ips {
          userOnlineIP := userOnlineIP[taguuid := ips[ip := uid]];
          if ip in oldUserOnline {
            if oldUserOnline[ip] == uid {
              oldUserOnline := oldUserOnline - {ip};
            }
          } else if deviceLimit > 0 && deviceLimit <= aliveIp {
            userOnlineIP := userOnlineIP[taguuid := userOnlineIP[taguuid] - {ip}];
            assert userOnlineIP[taguuid] == ips;
            assert userOnlineIP == old(userOnlineIP);
            return true;
          }
        }
      } else {
        userOnlineIP := userOnlineIP[taguuid := map[ip := uid]];
        if ip in oldUserOnline {
          if oldUserOnline[ip] == uid {
            oldUserOnline := oldUserOnline - {ip};
          }
        } else if deviceLimit > 0 && deviceLimit <= aliveIp {
          userOnlineIP := userOnlineIP - {taguuid};
          assert userOnlineIP == old(userOnlineIP);
          return true;
        }
      }
      return false;
    }

    /** The inner loop of GetOnlineDevice, over the IPs of one user. */
    method ReportIps(user: string, entries: seq<OnlineUser>, ghost s: State, ghost gone: set<string>,
                     ghost pairs: seq<(string, string)>)
        returns (entries': seq<OnlineUser>, ghost pairs': seq<(string, string)>)
      requires user in s.online && user in userOnlineIP && userOnlineIP[user] == s.online[user]
      requires AllOnline(s, pairs) && entries == EntriesOf(s, pairs) && oldUserOnline == RecentOf(s, pairs)
      requires user !in gone && Enumerates(pairs, PairsOf(s, gone))
      modifies this`oldUserOnline
      ensures AllOnline(s, pairs') && entries' == EntriesOf(s, pairs') && oldUserOnline == RecentOf(s, pairs')
      ensures Enumerates(pairs', PairsOf(s, gone + {user}))
    {
      var ipMap := userOnlineIP[user];
      var ips := AnyOrder(ipMap.Keys);
      entries', pairs' := entries, pairs;
      for j := 0 to |ips|
        invariant pairs' == pairs + Tagged(user, ips[..j])
        invariant AllOnline(s, pairs') && entries' == EntriesOf(s, pairs') && oldUserOnline == RecentOf(s, pairs')
      {
        oldUserOnline := oldUserOnline[ips[j] := ipMap[ips[j]]];
        entries' := entries' + [OnlineUser(ipMap[ips[j]], ips[j])];
        PairsSnoc(s, pairs', (user, ips[j]));
        TaggedSnoc(user, ips, j);
        pairs' := pairs' + [(user, ips[j])];
      }
      assert ips[..|ips|] == ips;
      EnumeratesMore(s, gone, pairs, user, ips);
    }

    /** One entry per online (user, IP) pair, in whatever order the maps hand them over. */
    method GetOnlineDevice() returns (entries: seq<OnlineUser>, ghost pairs: seq<(string, string)>)
      modifies this`userOnlineIP, this`oldUserOnline
      ensures Enumerates(pairs, OnlinePairs(old(View()))) && AllOnline(old(View()), pairs)
      ensures entries == EntriesOf(old(View()), pairs)
      ensures View() == old(View()).(online := map[], recent := RecentOf(old(View()), pairs))
    {
      entries, pairs := [], [];
      oldUserOnline := map[];
      ghost var s := old(View());
      while userOnlineIP != map[]
        invariant userOnlineIP.Keys <= s.online.Keys
        invariant forall k :: k in userOnlineIP ==> userOnlineIP[k] == s.online[k]
        invariant AllOnline(s, pairs) && entries == EntriesOf(s, pairs) && oldUserOnline == RecentOf(s, pairs)
        invariant Enumerates(pairs, PairsOf(s, s.online.Keys - userOnlineIP.Keys))
        decreases userOnlineIP.Keys
      {
        var user :| user in userOnlineIP;
        ghost var gone := s.online.Keys - userOnlineIP.Keys;
        entries, pairs := ReportIps(user, entries, s, gone, pairs);
        userOnlineIP := userOnlineIP - {user};
        assert s.online.Keys - userOnlineIP.Keys == gone + {user};
      }
    }
  }

  function Tagged(user: string, ips: seq<string>): seq<(string, string)> {
    seq(|ips|, i requires 0 <= i < |ips| => (user, ips[i]))
  }

  lemma TaggedSnoc(user: string, ips: seq<string>, j: nat)
    requires j < |ips|
    ensures Tagged(user, ips[..j + 1]) == Tagged(user, ips[..j]) + [(user, ips[j])]
  {
  }

  lemma PairsSnoc(s: State, pairs: seq<(string, string)>, p: (string, string))
    requires AllOnline(s, pairs) && IsOnline(s, p.0, p.1)
    ensures AllOnline(s, pairs + [p])
    ensures EntriesOf(s, pairs + [p]) == EntriesOf(s, pairs) + [OnlineUser(s.online[p.0][p.1], p.1)]
    ensures RecentOf(s, pairs + [p]) == RecentOf(s, pairs)[p.1 := s.online[p.0][p.1]]
  {
    assert (pairs + [p])[..|pairs|] == pairs;
  }

  lemma EnumeratesMore(s: State, users: set<string>, pairs: seq<(string, string)>, user: string, ips: seq<string>)
    requires user in s.online && user !in users
    requires Enumerates(pairs, PairsOf(s, users)) && Enumerates(ips, s.online[user].Keys)
    ensures Enumerates(pairs + Tagged(user, ips), PairsOf(s, users + {user}))
  {
    var more := Tagged(user, ips);
    assert forall p :: p in more <==> p.0 == user && p.1 in s.online[user] by {
      forall p: (string, string) | p.0 == user && p.1 in s.online[user] ensures p in more {
        assert p.1 in ips;
        var i :| 0 <= i < |ips| && ips[i] == p.1;
        assert more[i] == p;
      }
    }
    forall p ensures p in pairs + more <==> p in PairsOf(s, users + {user}) {
      assert p in PairsOf(s, users + {user}) <==> p in PairsOf(s, users) || (p.0 == user && p.1 in s.online[user]);
    }
    forall i, j | 0 <= i < j < |pairs + more| ensures (pairs + more)[i] != (pairs + more)[j] {
      if i < |pairs| {
        assert pairs[i] in pairs && pairs[i].0 != user;
      }
    }
  }
}
