/** What each operation of the limiter does, field by field and in numbers. */
module LimiterFields {
  import opened Common
  import opened Panel
  import opened Limiter
  import opened LimiterRuns

  /** An IPv4 address mapped into IPv6 counts as the IPv4 address. */
  lemma MappedIsTrimmed(ip: string)
    ensures TrimMapped("::ffff:" + ip) == ip
    ensures (|ip| < 7 || ip[..7] != "::ffff:") ==> TrimMapped(ip) == ip
  {
  }

  /** Who is refused: an unknown user; and a user with a positive device limit, from an IP that
      is neither online for them nor remembered, when the panel has counted that many devices. */
  lemma RefusedExactly(s: State, user: string, ip: string, now: int, counted: bool)
    ensures var a := TrimMapped(ip);
            Check(s, user, ip, now, counted).1.Rejected? <==>
              || user !in s.users
              || (&& counted && !(user in s.online && a in s.online[user]) && a !in s.recent
                  && s.users[user].deviceLimit > 0
                  && s.users[user].uid in s.alive && s.alive[s.users[user].uid] >= s.users[user].deviceLimit)
  {
  }

  lemma CheckSeen(s: State, user: string, ip: string, now: int, counted: bool)
    ensures var (s', v) := Check(s, user, ip, now, counted);
            if v.Rejected? || !counted then s'.online == s.online && s'.recent == s.recent
            else
              var seen := Seen(s.(users := Settled(s.users, user, now)), user, TrimMapped(ip), s.users[user].uid);
              s'.online == seen.online && s'.recent == seen.recent
  {
  }

  lemma SeenAgain(s: State, user: string, a: string, uid: int)
    requires user in s.online && a in s.online[user]
    ensures Seen(s, user, a, uid) == s
  {
  }

  lemma SeenFirst(s: State, user: string, a: string, uid: int)
    requires !(user in s.online && a in s.online[user])
    ensures var s' := Seen(s, user, a, uid);
            && s'.recent == (if a in s.recent && s.recent[a] == uid then s.recent - {a} else s.recent)
            && (user in s.online ==> s'.online == s.online[user := s.online[user][a := uid]])
            && (user !in s.online ==> s'.online == s.online[user := map[a := uid]])
  {
  }

  /** What is counted: an admitted, counted IP that is new to the user is online under the uid,
      and no longer remembered if it was remembered under that uid. */
  lemma OnlineExactly(s: State, user: string, ip: string, now: int, counted: bool)
    ensures var (s', v) := Check(s, user, ip, now, counted);
            if v.Rejected? || !counted then s'.online == s.online && s'.recent == s.recent
            else
              var a, uid := TrimMapped(ip), s.users[user].uid;
              if user in s.online && a in s.online[user] then s'.online == s.online && s'.recent == s.recent
              else
                && (user in s.online ==> s'.online == s.online[user := s.online[user][a := uid]])
                && (user !in s.online ==> s'.online == s.online[user := map[a := uid]])
                && s'.recent == (if a in s.recent && s.recent[a] == uid then s.recent - {a} else s.recent)
  {
    CheckSeen(s, user, ip, now, counted);
    if user in s.users {
      var settled, a := s.(users := Settled(s.users, user, now)), TrimMapped(ip);
      if user in s.online && a in s.online[user] {
        SeenAgain(settled, user, a, s.users[user].uid);
      } else {
        SeenFirst(settled, user, a, s.users[user].uid);
      }
    }
  }

  /** A dynamic limit that has run out is dropped, and with it a user without another limit. */
  lemma ExpiryExactly(s: State, user: string, ip: string, now: int, counted: bool)
    ensures var s' := Check(s, user, ip, now, counted).0;
            && s'.users - {user} == s.users - {user}
            && (user in s.users ==>
                  var u := s.users[user];
                  if u.expireTime == 0 || u.expireTime >= now then s'.users == s.users
                  else if u.speedLimit == 0 then user !in s'.users
                  else user in s'.users && s'.users[user] == UserLimit(u.uid, u.speedLimit, u.deviceLimit, 0, 0))
            && s'.uids == s.uids && s'.alive == s.alive && s'.speedLimit == s.speedLimit
  {
    CheckRest(s, user, ip, now, counted);
    if user in s.users {
      CheckTables(s, user, ip, now, counted);
      SettledExactly(s.users, user, now);
    }
  }

  lemma CheckRest(s: State, user: string, ip: string, now: int, counted: bool)
    ensures var s' := Check(s, user, ip, now, counted).0;
            && s'.uids == s.uids && s'.alive == s.alive && s'.speedLimit == s.speedLimit
            && (user !in s.users ==> s' == s)
  {
  }

  lemma SettledExactly(users: map<string, UserLimit>, user: string, now: int)
    requires user in users
    ensures var u, users' := users[user], Settled(users, user, now);
            && users' - {user} == users - {user}
            && if u.expireTime == 0 || u.expireTime >= now then users' == users
               else if u.speedLimit == 0 then user !in users'
               else user in users' && users'[user] == UserLimit(u.uid, u.speedLimit, u.deviceLimit, 0, 0)
  {
  }

  /** `m` is the smallest of the limits that are not zero, and zero when there is none. */
  predicate Smallest(m: int, limits: seq<int>) {
    if m == 0 then forall i :: 0 <= i < |limits| ==> limits[i] == 0
    else m in limits && forall i :: 0 <= i < |limits| && limits[i] != 0 ==> m <= limits[i]
  }

  /** The rate in bytes per second: 125000 for each megabit of the smallest limit in force, a
      cached bucket first. The dynamic limit is in force until it has run out. */
  lemma RateExactly(s: State, user: string, ip: string, now: int, counted: bool, m: int)
    requires user in s.users && s.speedLimit >= 0 && s.users[user].speedLimit >= 0 && s.users[user].dynamicLimit >= 0
    requires var u := s.users[user];
             var dynamic := if u.expireTime == 0 || u.expireTime >= now then u.dynamicLimit else 0;
             Smallest(m, [s.speedLimit, u.speedLimit, dynamic])
    ensures var (s', v) := Check(s, user, ip, now, counted);
            && s'.buckets - {user} == s.buckets - {user}
            && (v.Admitted? && m == 0 ==> v.bucket == None && s'.buckets == s.buckets)
            && (v.Admitted? && m != 0 ==>
                  && v.bucket == Some(if user in s.buckets then s.buckets[user] else 125000 * m)
                  && user in s'.buckets && v.bucket == Some(s'.buckets[user]))
            && (v.Rejected? ==> s'.buckets == s.buckets)
  {
    var u := s.users[user];
    var dynamic := if u.expireTime == 0 || u.expireTime >= now then u.dynamicLimit else 0;
    SmallestIs(s.speedLimit, u.speedLimit, dynamic, m);
    CheckBuckets(s, user, ip, now, counted);
    assert UserRate(u, now) == DetermineSpeedLimit(u.speedLimit, dynamic);
    assert Rate(s.speedLimit, UserRate(u, now)) == 125000 * m;
  }

  lemma SmallestIs(a: int, b: int, c: int, m: int)
    requires a >= 0 && b >= 0 && c >= 0 && Smallest(m, [a, b, c])
    ensures DetermineSpeedLimit(a, DetermineSpeedLimit(b, c)) == m >= 0
  {
    var limits := [a, b, c];
    assert limits[0] == a && limits[1] == b && limits[2] == c;
  }

  /** An update, table by table: deleted users leave all of them, added ones enter two, with
      their limits and no dynamic one. Remembered IPs and the node's limit stay. */
  lemma UpdateExactly(s: State, tag: string, added: seq<UserInfo>, deleted: seq<UserInfo>)
    requires UniqueUuids(added)
    ensures var s', gone := Update(s, tag, added, deleted), Tags(tag, deleted);
            && s'.online == s.online - gone && s'.buckets == s.buckets - gone
            && s'.recent == s.recent && s'.speedLimit == s.speedLimit
            && s'.alive == s.alive - (set i | 0 <= i < |deleted| :: deleted[i].id)
            && s'.users.Keys == s.users.Keys - gone + Tags(tag, added)
            && s'.uids.Keys == s.uids.Keys - Uuids(deleted) + Uuids(added)
            && (forall k :: k in s'.users && k !in Tags(tag, added) ==> s'.users[k] == s.users[k])
            && (forall k :: k in s'.uids && k !in Uuids(added) ==> s'.uids[k] == s.uids[k])
            && (forall i :: 0 <= i < |added| ==>
                  var u := added[i];
                  && s'.users[UserTag(tag, u.uuid)] == UserLimit(u.id, u.speedLimit, u.deviceLimit, 0, 0)
                  && s'.uids[u.uuid] == u.id)
  {
    DropAllEffect(s, tag, deleted);
    PutAllEffect(DropAll(s, tag, deleted), tag, added);
    UpdateAlive(s, tag, added, deleted);
    forall i | 0 <= i < |added|
      ensures var u, s' := added[i], Update(s, tag, added, deleted);
              && UserTag(tag, u.uuid) in s'.users && u.uuid in s'.uids
              && s'.users[UserTag(tag, u.uuid)] == UserLimit(u.id, u.speedLimit, u.deviceLimit, 0, 0)
              && s'.uids[u.uuid] == u.id
    {
      PutAllStores(DropAll(s, tag, deleted), tag, added, i);
    }
  }
}
