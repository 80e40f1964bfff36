/** The online-device half of reportUserTrafficTask in node/user.go: what one reporting cycle
    sends to the panel and leaves in the limiter. */
module Report {
  import opened Iteration
  import opened Panel
  import opened Limiter

  /** Users with a traffic row below the threshold, in thousands of bytes. */
  function Below(traffic: seq<UserTraffic>, minTraffic: int): set<int> {
    set i | 0 <= i < |traffic| && traffic[i].upload + traffic[i].download < minTraffic * 1000 :: traffic[i].uid
  }

  /** How often the grouped map lists `ip` for `uid`. */
  function Listed(data: map<int, seq<string>>, uid: int, ip: string): nat {
    if uid in data then multiset(data[uid])[ip] else 0
  }

  method CountBelow(traffic: seq<UserTraffic>, minTraffic: int) returns (nocount: set<int>)
    ensures nocount == Below(traffic, minTraffic)
  {
    nocount := {};
    for i := 0 to |traffic|
      invariant nocount == Below(traffic[..i], minTraffic)
    {
      assert forall j :: 0 <= j < i ==> traffic[..i + 1][j] == traffic[..i][j];
      if traffic[i].upload + traffic[i].download < minTraffic * 1000 {
        nocount := nocount + {traffic[i].uid};
      }
    }
    assert traffic[..|traffic|] == traffic;
  }

  method Filter(online: seq<OnlineUser>, nocount: set<int>) returns (result: seq<OnlineUser>)
    ensures forall uid, ip :: multiset(result)[OnlineUser(uid, ip)] ==
              if uid in nocount then 0 else multiset(online)[OnlineUser(uid, ip)]
  {
    result := [];
    for i := 0 to |online|
      invariant forall uid, ip :: multiset(result)[OnlineUser(uid, ip)] ==
                  if uid in nocount then 0 else multiset(online[..i])[OnlineUser(uid, ip)]
    {
      assert online[..i + 1] == online[..i] + [online[i]];
      if online[i].uid !in nocount {
        result := result + [online[i]];
      }
    }
    assert online[..|online|] == online;
  }

  method Group(result: seq<OnlineUser>) returns (data: map<int, seq<string>>)
    ensures forall uid, ip :: Listed(data, uid, ip) == multiset(result)[OnlineUser(uid, ip)]
    ensures forall uid :: uid in data ==> data[uid] != []
  {
    data := map[];
    for i := 0 to |result|
      invariant forall uid, ip :: Listed(data, uid, ip) == multiset(result[..i])[OnlineUser(uid, ip)]
      invariant forall uid :: uid in data ==> data[uid] != []
    {
      assert result[..i + 1] == result[..i] + [result[i]];
      var user := result[i];
      var ips := if user.uid in data then data[user.uid] else [];
      data := data[user.uid := ips + [user.ip]];
    }
    assert result[..|result|] == result;
  }

  /** The grouped map keeps every entry of a user that is not below the threshold. */
  method GroupOnline(traffic: seq<UserTraffic>, online: seq<OnlineUser>, minTraffic: int)
      returns (data: map<int, seq<string>>)
    ensures forall uid, ip ::
              Listed(data, uid, ip) ==
                if exists i :: 0 <= i < |traffic| && traffic[i].uid == uid
                               && traffic[i].upload + traffic[i].download < minTraffic * 1000 then 0
                else multiset(online)[OnlineUser(uid, ip)]
    ensures forall uid :: uid in data ==> data[uid] != []
  {
    var nocount := CountBelow(traffic, minTraffic);
    var result := Filter(online, nocount);
    data := Group(result);
  }

  /** The users that have `ip` online under `uid`. */
  ghost function Holders(s: State, uid: int, ip: string): set<string> {
    set user | user in s.online && ip in s.online[user] && s.online[user][ip] == uid
  }

  ghost function HoldersIn(s: State, pairs: seq<(string, string)>, uid: int, ip: string): set<string> {
    set user | user in s.online && (user, ip) in pairs && ip in s.online[user] && s.online[user][ip] == uid
  }

  lemma HoldersMore(s: State, front: seq<(string, string)>, p: (string, string), uid: int, ip: string)
    requires p !in front && IsOnline(s, p.0, p.1)
    ensures |HoldersIn(s, front + [p], uid, ip)| ==
            |HoldersIn(s, front, uid, ip)| + if s.online[p.0][p.1] == uid && p.1 == ip then 1 else 0
  {
    var more: set<string> := if s.online[p.0][p.1] == uid && p.1 == ip then {p.0} else {};
    assert HoldersIn(s, front + [p], uid, ip) == HoldersIn(s, front, uid, ip) + more;
    assert more !! HoldersIn(s, front, uid, ip);
  }

  lemma {:induction false} EntriesCount(s: State, pairs: seq<(string, string)>, uid: int, ip: string)
    requires AllOnline(s, pairs) && forall i, j :: 0 <= i < j < |pairs| ==> pairs[i] != pairs[j]
    ensures multiset(EntriesOf(s, pairs))[OnlineUser(uid, ip)] == |HoldersIn(s, pairs, uid, ip)|
  {
    if pairs == [] {
      assert HoldersIn(s, pairs, uid, ip) == {};
    } else {
      var n := |pairs| - 1;
      var front, p := pairs[..n], pairs[n];
      EntriesCount(s, front, uid, ip);
      HoldersMore(s, front, p, uid, ip);
      assert pairs == front + [p];
      assert EntriesOf(s, pairs) == EntriesOf(s, front) + [OnlineUser(s.online[p.0][p.1], p.1)];
    }
  }

  /** One cycle: the panel hears of each (uid, IP) once for every user that has it online,
      unless the uid has a traffic row below the threshold; the online table is emptied and
      its IPs are remembered. Nothing is sent when nobody is online. */
  method ReportOnline(l: Limiter, traffic: seq<UserTraffic>, minTraffic: int)
      returns (data: map<int, seq<string>>, sent: bool)
    modifies l
    ensures forall uid, ip ::
              Listed(data, uid, ip) ==
                if exists i :: 0 <= i < |traffic| && traffic[i].uid == uid
                               && traffic[i].upload + traffic[i].download < minTraffic * 1000 then 0
                else |Holders(old(l.View()), uid, ip)|
    ensures sent <==> exists user, ip :: IsOnline(old(l.View()), user, ip)
    ensures l.userOnlineIP == map[]
    ensures exists pairs :: Enumerates(pairs, OnlinePairs(old(l.View()))) && AllOnline(old(l.View()), pairs)
              && l.View() == old(l.View()).(online := map[], recent := RecentOf(old(l.View()), pairs))
  {
    ghost var s := l.View();
    var entries, pairs := l.GetOnlineDevice();
    forall uid, ip ensures multiset(entries)[OnlineUser(uid, ip)] == |Holders(s, uid, ip)| {
      EntriesCount(s, pairs, uid, ip);
      assert HoldersIn(s, pairs, uid, ip) == Holders(s, uid, ip) by {
        assert forall user :: (user, ip) in pairs <==> (user, ip) in OnlinePairs(s);
      }
    }
    data := map[];
    sent := |entries| > 0;
    if sent {
      assert IsOnline(s, pairs[0].0, pairs[0].1);
      data := GroupOnline(traffic, entries, minTraffic);
    } else {
      assert forall user, ip :: IsOnline(s, user, ip) ==> (user, ip) in OnlinePairs(s);
    }
  }
}
