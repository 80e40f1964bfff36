/** One admission call by itself: the map operations of module LimiterSteps, taken one after
    another, come to what CheckLimit does in module Limiter. */
module LimiterSolo {
  import opened Common
  import opened LimiterSteps
  import L = Limiter
  import F = LimiterFields

  /** The tables of one user in `t`, as the steps see them. */
  ghost predicate Shows(t: L.State, s: State, user: string, uid: int) {
    && Sane(s) && (s.entry.Some? <==> user in t.online)
    && (s.entry.Some? ==> s.inners[s.entry.value] == t.online[user].Keys)
    && s.remembered == (set ip | ip in t.recent && t.recent[ip] == uid)
    && s.foreign == (set ip | ip in t.recent && t.recent[ip] != uid)
  }

  ghost predicate Full(t: L.State, user: string)
    requires user in t.users
  {
    t.users[user].deviceLimit > 0 && t.users[user].uid in t.alive
    && t.alive[t.users[user].uid] >= t.users[user].deviceLimit
  }

  function Advances(s: State, c: nat, n: nat): (s': State)
    requires Sane(s) && c < |s.calls|
    ensures Sane(s') && |s'.calls| == |s.calls|
    decreases n
  {
    if n == 0 then s
    else
      NextSane(s, Step(c), "");
      Advances(Advance(s, c), c, n - 1)
  }

  lemma FourSteps(s: State, c: nat)
    requires Sane(s) && c < |s.calls|
    ensures Sane(Advance(s, c)) && Sane(Advance(Advance(s, c), c)) && Sane(Advance(Advance(Advance(s, c), c), c))
    ensures Advances(s, c, 4) == Advance(Advance(Advance(Advance(s, c), c), c), c)
  {
    NextSane(s, Step(c), "");
    NextSane(Advance(s, c), Step(c), "");
    NextSane(Advance(Advance(s, c), c), Step(c), "");
    var s1, s2 := Advance(s, c), Advance(Advance(s, c), c);
    var s3 := Advance(s2, c);
    assert Advances(s, c, 4) == Advances(s1, c, 3) == Advances(s2, c, 2) == Advances(s3, c, 1);
    assert Advances(s3, c, 1) == Advances(Advance(s3, c), c, 0);
  }

  /** A counted call with no other in between: the same verdict and the same tables. */
  lemma SoloCallIsCheck(t: L.State, s: State, user: string, ip: string, now: int, c: nat)
    requires user in t.users && Shows(t, s, user, t.users[user].uid) && (s.full <==> Full(t, user))
    requires c < |s.calls| && s.calls[c] == Fresh(L.TrimMapped(ip))
    ensures var (t', v) := L.Check(t, user, ip, now, true);
            var s' := Advances(s, c, 4);
            s'.calls[c] == Done(L.TrimMapped(ip), v.Admitted?) && Shows(t', s', user, t.users[user].uid)
  {
    F.RefusedExactly(t, user, ip, now, true);
    F.OnlineExactly(t, user, ip, now, true);
    FourSteps(s, c);
    var a := L.TrimMapped(ip);
    if user !in t.online {
      NewEntry(t, s, user, a, c);
    } else {
      OldEntry(t, s, user, a, c);
    }
  }

  lemma NewEntry(t: L.State, s: State, user: string, a: string, c: nat)
    requires user in t.users && Shows(t, s, user, t.users[user].uid) && (s.full <==> Full(t, user))
    requires c < |s.calls| && s.calls[c] == Fresh(a) && user !in t.online
    ensures var uid := t.users[user].uid;
            var refused := a !in t.recent && Full(t, user);
            var s' := Advances(s, c, 4);
            && s'.calls[c] == Done(a, !refused)
            && s'.entry == (if refused then None else Some(|s.inners|))
            && (!refused ==> s'.entry.value < |s'.inners| && s'.inners[s'.entry.value] == {a})
            && s'.remembered == s.remembered - {a} && s'.foreign == s.foreign
  {
    FourSteps(s, c);
  }

  lemma OldEntry(t: L.State, s: State, user: string, a: string, c: nat)
    requires user in t.users && Shows(t, s, user, t.users[user].uid) && (s.full <==> Full(t, user))
    requires c < |s.calls| && s.calls[c] == Fresh(a) && user in t.online
    ensures var online := a in t.online[user];
            var refused := !online && a !in t.recent && Full(t, user);
            var s' := Advances(s, c, 4);
            && s'.calls[c] == Done(a, !refused) && s'.entry == s.entry && s'.entry.value < |s'.inners|
            && s'.inners[s'.entry.value] == t.online[user].Keys + (if refused then {} else {a})
            && s'.remembered == (if online then s.remembered else s.remembered - {a}) && s'.foreign == s.foreign
  {
    FourSteps(s, c);
  }
}
