/** The Xray core's user tables (core/xray/user.go) and the links of each user
    (core/xray/app/dispatcher/linkmanager.go). */
module Core {
  import opened Iteration
  import opened Panel
  import opened LimiterRuns

  /** Writers and readers are named by numbers; the two logs list the closed writers and the
      interrupted readers in order. */
  class LinkManager {
    var links: map<nat, nat>
    var closed: seq<nat>
    var interrupted: seq<nat>

    constructor ()
      ensures links == map[] && closed == [] && interrupted == []
    {
      links, closed, interrupted := map[], [], [];
    }

    method AddLink(writer: nat, reader: nat)
      modifies this`links
      ensures links == old(links)[writer := reader]
    {
      links := links[writer := reader];
    }

    /** ManagedWriter.Close: the writer leaves the table, then the connection is closed. */
    method CloseWriter(writer: nat)
      modifies this`links, this`closed
      ensures links == old(links) - {writer} && closed == old(closed) + [writer]
    {
      links := links - {writer};
      closed := closed + [writer];
    }

    /** Every link was closed once and its reader interrupted, in some order. */
    twostate predicate ClosedOnce()
      reads this
    {
      && links == map[]
      && exists order :: ClosedIn(old(links), order)
                         && closed == old(closed) + order
                         && interrupted == old(interrupted) + Readers(old(links), order)
    }

    /** CloseAll ends and closes each link once, although each close removes an entry from
        the map being iterated. */
    method CloseAll()
      modifies this
      ensures ClosedOnce()
    {
      ghost var order: seq<nat> := [];
      ghost var before := links;
      while links != map[]
        invariant links.Keys <= before.Keys && forall w :: w in links ==> links[w] == before[w]
        invariant Enumerates(order, before.Keys - links.Keys)
        invariant closed == old(closed) + order
        invariant interrupted == old(interrupted) + Readers(before, order)
        decreases links.Keys
      {
        var w :| w in links;
        var r := links[w];
        CloseWriter(w);
        interrupted := interrupted + [r];
        ReadersSnoc(before, order, w);
        order := order + [w];
      }
    }
  }

  ghost predicate ClosedIn(links: map<nat, nat>, order: seq<nat>) {
    Enumerates(order, links.Keys)
  }

  function Readers(links: map<nat, nat>, order: seq<nat>): seq<nat>
    requires forall w :: w in order ==> w in links
  {
    seq(|order|, i requires 0 <= i < |order| => links[order[i]])
  }

  lemma ReadersSnoc(links: map<nat, nat>, order: seq<nat>, w: nat)
    requires w in links && forall v :: v in order ==> v in links
    ensures Readers(links, order + [w]) == Readers(links, order) + [links[w]]
  {
  }

  /** The two counters of a user. */
  datatype Traffic = Traffic(up: nat, down: nat)

  /** The core's tables, by node tag or by user tag. */
  datatype Tables = Tables(
    inbounds: map<string, set<string>>,
    uidMap: map<string, int>,
    counters: map<string, map<string, Traffic>>,
    managers: map<string, LinkManager>)

  /** The tables without the users `gone` of one node. */
  function Without(t: Tables, tag: string, gone: set<string>): Tables
    requires tag in t.inbounds
  {
    t.(inbounds := t.inbounds[tag := t.inbounds[tag] - gone],
       uidMap := t.uidMap - gone,
       counters := if tag in t.counters then t.counters[tag := t.counters[tag] - gone] else t.counters,
       managers := t.managers - gone)
  }

  lemma WithoutNone(t: Tables, tag: string)
    requires tag in t.inbounds
    ensures Without(t, tag, {}) == t
  {
    assert t.inbounds[tag] - {} == t.inbounds[tag];
    assert tag in t.counters ==> t.counters[tag] - {} == t.counters[tag];
  }

  lemma WithoutMore(t: Tables, tag: string, gone: set<string>, more: set<string>)
    requires tag in t.inbounds
    ensures Without(Without(t, tag, gone), tag, more) == Without(t, tag, gone + more)
  {
    var t1 := Without(t, tag, gone);
    assert t1.inbounds[tag] - more == t.inbounds[tag] - (gone + more);
    assert tag in t.counters ==> t1.counters[tag] - more == t.counters[tag] - (gone + more);
    assert t1.managers - more == t.managers - (gone + more);
    assert t1.uidMap - more == t.uidMap - (gone + more);
  }

  class Xray {
    var inbounds: map<string, set<string>>              // users of each node's inbound
    var uidMap: map<string, int>
    var counters: map<string, map<string, Traffic>>     // per node, per user
    var managers: map<string, LinkManager>              // per user
    var minTraffic: map<string, int>                    // per node, in bytes

    ghost predicate Valid()
      reads this
    {
      forall k, l :: k in managers && l in managers && k != l ==> managers[k] != managers[l]
    }

    function View(): Tables
      reads this`inbounds, this`uidMap, this`counters, this`managers
    {
      Tables(inbounds, uidMap, counters, managers)
    }

    /** The part of DispatchLink that enters a new link of a user. */
    method OpenLink(user: string, writer: nat, reader: nat)
      requires Valid()
      modifies this`managers, managers.Values
      ensures Valid() && managers.Keys == old(managers).Keys + {user}
      ensures forall k :: k in old(managers) ==>
                managers[k] == old(managers)[k] && (k != user ==> unchanged(managers[k]))
      ensures user in old(managers) ==> managers[user].links == old(managers[user].links)[writer := reader]
      ensures user !in old(managers) ==> fresh(managers[user]) && managers[user].links == map[writer := reader]
    {
      if user !in managers {
        var lm := new LinkManager();
        managers := managers[user := lm];
      }
      managers[user].AddLink(writer, reader);
    }

    /** One round of DelUsers, for a user that the inbound has let go. */
    method DelUser(user: string, tag: string)
      requires Valid() && tag in inbounds
      modifies this`inbounds, this`uidMap, this`counters, this`managers, managers.Values
      ensures View() == Without(old(View()), tag, {user})
      ensures user in old(managers) ==> old(managers)[user].ClosedOnce()
      ensures forall k :: k in managers ==> unchanged(managers[k])
    {
      inbounds := inbounds[tag := inbounds[tag] - {user}];
      uidMap := uidMap - {user};
      if tag in counters {
        counters := counters[tag := counters[tag] - {user}];
      }
      if user in managers {
        managers[user].CloseAll();
        managers := managers - {user};
      }
      assert managers == old(managers) - {user};
    }

    /** Removes users until the inbound refuses one; `n` users are removed. Nothing of the
        removed users is left, their links are closed, and nothing else is touched. */
    method DelUsers(users: seq<UserInfo>, tag: string, refused: set<string>) returns (ok: bool, ghost n: nat)
      requires Valid()
      modifies this`inbounds, this`uidMap, this`counters, this`managers, managers.Values
      ensures n <= |users| && (tag !in old(inbounds) ==> !ok && n == 0 && unchanged(this))
      ensures ok ==> n == |users|
      ensures !ok && tag in old(inbounds) ==> n < |users| && UserTag(tag, users[n].uuid) in refused
      ensures forall i :: 0 <= i < n ==> UserTag(tag, users[i].uuid) !in refused
      ensures tag in old(inbounds) ==> View() == Without(old(View()), tag, Tags(tag, users[..n]))
      ensures tag in old(inbounds) ==>
                var gone := Tags(tag, users[..n]);
                && inbounds == old(inbounds)[tag := old(inbounds)[tag] - gone] && uidMap == old(uidMap) - gone
                && managers == old(managers) - gone && counters.Keys == old(counters.Keys)
                && (forall t :: t in counters ==>
                      counters[t] == if t == tag then old(counters)[t] - gone else old(counters)[t])
      ensures forall k :: k in old(managers) && k !in managers ==> old(managers)[k].ClosedOnce()
      ensures forall k :: k in managers ==> unchanged(managers[k])
    {
      n := 0;
      if tag !in inbounds {
        return false, 0;
      }
      ghost var gone: set<string> := {};
      WithoutNone(View(), tag);
      for i := 0 to |users|
        invariant n == i && tag in inbounds && gone == Tags(tag, users[..i])
        invariant View() == Without(old(View()), tag, gone)
        invariant forall j :: 0 <= j < i ==> UserTag(tag, users[j].uuid) !in refused
        invariant forall k :: k in old(managers) && k !in managers ==> old(managers)[k].ClosedOnce()
        invariant forall k :: k in managers ==> unchanged(managers[k])
      {
        var user := UserTag(tag, users[i].uuid);
        if user in refused {
          return false, i;
        }
        DelUser(user, tag);
        WithoutMore(old(View()), tag, gone, {user});
        gone := gone + {user};
        TagsPrefix(tag, users, i);
        n := i + 1;
      }
      assert users[..|users|] == users;
      ok := true;
    }

    function Uid(email: string): int
      reads this`uidMap
    {
      if email in uidMap then uidMap[email] else 0
    }

    function MinTraffic(tag: string): int
      reads this`minTraffic
    {
      if tag in minTraffic then minTraffic[tag] else 0
    }

    /** A counter above the node's report threshold. */
    predicate Heavy(tag: string, t: Traffic)
      reads this`minTraffic
    {
      t.up + t.down > MinTraffic(tag)
    }

    /** The counters of a node after a harvest of the users `done`. */
    ghost predicate HarvestedFrom(before: map<string, Traffic>, after: map<string, Traffic>, tag: string, reset: bool,
                                  done: set<string>)
      reads this`uidMap, this`minTraffic
    {
      && (forall k :: k in after <==> k in before && !(k in done && Heavy(tag, before[k]) && Uid(k) == 0))
      && (forall k :: k in after ==>
            after[k] == if k in done && reset && Heavy(tag, before[k]) then Traffic(0, 0) else before[k])
    }

    /** `rows` has one row for each known user above the threshold, named by `emails`. */
    ghost predicate RowsOf(rows: seq<UserTraffic>, emails: seq<string>, before: map<string, Traffic>, tag: string,
                           done: set<string>)
      reads this`uidMap, this`minTraffic
    {
      && |rows| == |emails|
      && (forall i, j :: 0 <= i < j < |emails| ==> emails[i] != emails[j])
      && (forall i :: 0 <= i < |emails| ==> emails[i] in done && Reported(before, tag, emails[i]))
      && (forall k :: k in done && Reported(before, tag, k) ==> k in emails)
      && (forall i :: 0 <= i < |rows| ==>
            rows[i] == UserTraffic(Uid(emails[i]), before[emails[i]].up, before[emails[i]].down))
    }

    predicate Reported(before: map<string, Traffic>, tag: string, email: string)
      reads this`uidMap, this`minTraffic
    {
      email in before && Heavy(tag, before[email]) && Uid(email) != 0
    }

    lemma RowsMore(rows: seq<UserTraffic>, emails: seq<string>, before: map<string, Traffic>, tag: string,
                   done: set<string>, email: string)
      requires RowsOf(rows, emails, before, tag, done) && email !in done && email in before
      ensures if Reported(before, tag, email) then
                RowsOf(rows + [UserTraffic(Uid(email), before[email].up, before[email].down)], emails + [email],
                       before, tag, done + {email})
              else
                RowsOf(rows, emails, before, tag, done + {email})
    {
    }

    /** The Range loop of the harvest, over the counters `before`. */
    method Harvest(before: map<string, Traffic>, tag: string, reset: bool)
        returns (after: map<string, Traffic>, slice: seq<UserTraffic>, ghost emails: seq<string>)
      ensures HarvestedFrom(before, after, tag, reset, before.Keys)
      ensures RowsOf(slice, emails, before, tag, before.Keys)
    {
      after, slice, emails := before, [], [];
      ghost var done: set<string> := {};
      var rest := before.Keys;
      while rest != {}
        invariant rest == before.Keys - done && done <= before.Keys
        invariant HarvestedFrom(before, after, tag, reset, done)
        invariant RowsOf(slice, emails, before, tag, done)
        decreases rest
      {
        var email :| email in rest;
        RowsMore(slice, emails, before, tag, done, email);
        var t := after[email];
        if t.up + t.down > MinTraffic(tag) {
          if reset {
            after := after[email := Traffic(0, 0)];
          }
          if Uid(email) == 0 {
            after := after - {email};
          } else {
            slice := slice + [UserTraffic(Uid(email), t.up, t.down)];
            emails := emails + [email];
          }
        }
        done, rest := done + {email}, rest - {email};
      }
      assert done == before.Keys;
    }

    /** Without interference a harvest reports exactly the known users above the threshold,
        each once and with its whole counters; a resetting one leaves zero in their place;
        counters of unknown users above the threshold are dropped; no other is touched. */
    method GetUserTrafficSlice(tag: string, reset: bool) returns (slice: seq<UserTraffic>, ghost emails: seq<string>)
      modifies this`counters
      ensures counters.Keys == old(counters).Keys
      ensures forall t :: t in counters && t != tag ==> counters[t] == old(counters)[t]
      ensures tag !in old(counters) ==> slice == []
      ensures tag in old(counters) ==>
                && HarvestedFrom(old(counters)[tag], counters[tag], tag, reset, old(counters)[tag].Keys)
                && RowsOf(slice, emails, old(counters)[tag], tag, old(counters)[tag].Keys)
      ensures forall i :: 0 <= i < |slice| ==>
                && |emails| == |slice| && tag in old(counters) && emails[i] in old(counters)[tag]
                && var t := old(counters)[tag][emails[i]];
                   emails[i] in uidMap && slice[i] == UserTraffic(uidMap[emails[i]], t.up, t.down)
      ensures tag in old(counters) ==> forall k ::
                k in old(counters)[tag] ==>
                  var t, min := old(counters)[tag][k], if tag in minTraffic then minTraffic[tag] else 0;
                  var heavy, known := t.up + t.down > min, k in uidMap && uidMap[k] != 0;
                  && (k in counters[tag] <==> !heavy || known) && (k in emails <==> heavy && known)
                  && (k in counters[tag] ==> counters[tag][k] == if heavy && reset then Traffic(0, 0) else t)
    {
      slice, emails := [], [];
      if tag in counters {
        var c;
        c, slice, emails := Harvest(counters[tag], tag, reset);
        counters := counters[tag := c];
      }
    }

    /** Adds users until the inbound refuses one; `n` users are added. The uids are entered
        for all users in any case. */
    method AddUsers(tag: string, users: seq<UserInfo>, supported: bool, refused: set<string>)
        returns (ok: bool, ghost n: nat)
      modifies this`inbounds, this`uidMap
      ensures uidMap.Keys == old(uidMap).Keys + Tags(tag, users)
      ensures forall k :: k in old(uidMap) && k !in Tags(tag, users) ==> uidMap[k] == old(uidMap)[k]
      ensures UniqueUuids(users) ==>
                forall i :: 0 <= i < |users| ==>
                  UserTag(tag, users[i].uuid) in uidMap && uidMap[UserTag(tag, users[i].uuid)] == users[i].id
      ensures ok <==> supported && tag in old(inbounds) && Tags(tag, users) !! refused
      ensures n <= |users| && (ok ==> n == |users|)
      ensures !ok && supported && tag in old(inbounds) ==> n < |users| && UserTag(tag, users[n].uuid) in refused
      ensures Tags(tag, users[..n]) !! refused
      ensures inbounds.Keys == old(inbounds).Keys
      ensures forall t :: t in inbounds && t != tag ==> inbounds[t] == old(inbounds)[t]
      ensures tag in inbounds ==> inbounds[tag] == old(inbounds)[tag] + Tags(tag, users[..n])
    {
      for i := 0 to |users|
        invariant inbounds == old(inbounds)
        invariant uidMap.Keys == old(uidMap).Keys + Tags(tag, users[..i])
        invariant forall k :: k in old(uidMap) && k !in Tags(tag, users[..i]) ==> uidMap[k] == old(uidMap)[k]
        invariant UniqueUuids(users) ==> forall j :: 0 <= j < i ==>
                    UserTag(tag, users[j].uuid) in uidMap && uidMap[UserTag(tag, users[j].uuid)] == users[j].id
      {
        TagsPrefix(tag, users, i);
        forall j | 0 <= j < i
          ensures UserTag(tag, users[j].uuid) == UserTag(tag, users[i].uuid) ==> users[j].uuid == users[i].uuid
        {
          TagIsInjective(tag, users[j].uuid, users[i].uuid);
        }
        uidMap := uidMap[UserTag(tag, users[i].uuid) := users[i].id];
      }
      assert users[..|users|] == users;
      if !supported || tag !in inbounds {
        return false, 0;
      }
      ok, n := AdmitUsers(tag, users, refused);
    }

    method AdmitUsers(tag: string, users: seq<UserInfo>, refused: set<string>) returns (ok: bool, ghost n: nat)
      requires tag in inbounds
      modifies this`inbounds
      ensures ok <==> Tags(tag, users) !! refused
      ensures n <= |users| && (ok ==> n == |users|) && (!ok ==> n < |users| && UserTag(tag, users[n].uuid) in refused)
      ensures Tags(tag, users[..n]) !! refused
      ensures inbounds.Keys == old(inbounds).Keys
      ensures forall t :: t in inbounds && t != tag ==> inbounds[t] == old(inbounds)[t]
      ensures inbounds[tag] == old(inbounds)[tag] + Tags(tag, users[..n])
    {
      n := 0;
      for i := 0 to |users|
        invariant n == i && inbounds.Keys == old(inbounds).Keys
        invariant forall t :: t in inbounds && t != tag ==> inbounds[t] == old(inbounds)[t]
        invariant inbounds[tag] == old(inbounds)[tag] + Tags(tag, users[..i])
        invariant Tags(tag, users[..i]) !! refused
      {
        TagsPrefix(tag, users, i);
        var user := UserTag(tag, users[i].uuid);
        if user in refused {
          assert user in Tags(tag, users);
          return false, i;
        }
        inbounds := inbounds[tag := inbounds[tag] + {user}];
        n := i + 1;
      }
      assert users[..|users|] == users;
      ok := true;
    }

    /** Removing a node drops its inbound with all its users, and nothing else. */
    method DelNode(tag: string)
      modifies this`inbounds
      ensures inbounds == old(inbounds) - {tag}
    {
      inbounds := inbounds - {tag};
    }

    method AddNode(tag: string, threshold: int)
      modifies this`inbounds, this`minTraffic
      ensures inbounds == old(inbounds)[tag := {}] && minTraffic == old(minTraffic)[tag := threshold * 1024]
    {
      minTraffic := minTraffic[tag := threshold * 1024];
      inbounds := inbounds[tag := {}];
    }
  }

  lemma TagsPrefix(tag: string, us: seq<UserInfo>, i: nat)
    requires i < |us|
    ensures Tags(tag, us[..i + 1]) == Tags(tag, us[..i]) + {UserTag(tag, us[i].uuid)}
  {
    assert us[..i + 1][..i] == us[..i];
    TagsSnoc(tag, us[..i + 1]);
  }

  /** With UUIDs free of the separator, deleting users of one node leaves the tags of every
      other user, on this node or another, alone. */
  lemma OtherUsersKept(tag: string, users: seq<UserInfo>, tag': string, uuid': string)
    requires '|' !in uuid' && forall i :: 0 <= i < |users| ==> '|' !in users[i].uuid
    ensures UserTag(tag', uuid') in Tags(tag, users) <==> tag' == tag && uuid' in Uuids(users)
  {
    forall i | 0 <= i < |users|
      ensures UserTag(tag', uuid') == UserTag(tag, users[i].uuid) <==> tag' == tag && uuid' == users[i].uuid
    {
      UserTagInjective(tag', uuid', tag, users[i].uuid);
    }
  }
}
