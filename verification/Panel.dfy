/** The panel's records, the user tag of common/format/user.go, and the user-list diff of
    node/user.go. */
module Panel {
  import opened Iteration

  datatype UserInfo = UserInfo(id: int, uuid: string, speedLimit: int, deviceLimit: int)

  datatype OnlineUser = OnlineUser(uid: int, ip: string)

  datatype UserTraffic = UserTraffic(uid: int, upload: int, download: int)

  function UserTag(tag: string, uuid: string): string {
    tag + "|" + uuid
  }

  /** The node tag, the separator 124 and the UUID. */
  lemma UserTagInText(tag: string, uuid: string)
    ensures var t := UserTag(tag, uuid);
            && |t| == |tag| + 1 + |uuid| && t[..|tag|] == tag && t[|tag|] as int == 124 && t[|tag| + 1..] == uuid
  {
  }

  /** The part of a user tag after its last separator. */
  function UuidOf(s: string): string {
    if s == "" || s[|s| - 1] == '|' then "" else UuidOf(s[..|s| - 1]) + [s[|s| - 1]]
  }

  /** The UUID can be read back from a tag, provided it does not contain the separator. */
  lemma {:induction false} UuidOfUserTag(tag: string, uuid: string)
    requires '|' !in uuid
    ensures UuidOf(UserTag(tag, uuid)) == uuid
  {
    var s := UserTag(tag, uuid);
    if uuid == "" {
      assert s[|s| - 1] == '|';
    } else {
      var front := uuid[..|uuid| - 1];
      assert s[..|s| - 1] == UserTag(tag, front);
      UuidOfUserTag(tag, front);
    }
  }

  /** So tags of different users or nodes differ. */
  lemma UserTagInjective(tag: string, uuid: string, tag': string, uuid': string)
    requires '|' !in uuid && '|' !in uuid'
    ensures UserTag(tag, uuid) == UserTag(tag', uuid') <==> tag == tag' && uuid == uuid'
  {
    UuidOfUserTag(tag, uuid);
    UuidOfUserTag(tag', uuid');
    assert UserTag(tag, uuid)[..|tag|] == tag && UserTag(tag', uuid')[..|tag'|] == tag';
  }

  // ----- strconv.Itoa

  function Digits(n: nat): (s: string)
    ensures s != []
  {
    if n < 10 then ['0' + n as char] else Digits(n / 10) + ['0' + (n % 10) as char]
  }

  function Itoa(n: int): string {
    if n < 0 then "-" + Digits(-n) else Digits(n)
  }

  function Value(s: string): int {
    if s == "" then 0 else Value(s[..|s| - 1]) * 10 + (s[|s| - 1] as int - '0' as int)
  }

  function Atoi(s: string): int {
    if s != "" && s[0] == '-' then -Value(s[1..]) else Value(s)
  }

  lemma {:induction false} ValueOfDigits(n: nat)
    ensures Value(Digits(n)) == n && Digits(n)[0] != '-'
  {
    var s := Digits(n);
    if n >= 10 {
      ValueOfDigits(n / 10);
      assert s[..|s| - 1] == Digits(n / 10) && s[0] == Digits(n / 10)[0];
    } else {
      assert s[..|s| - 1] == "";
    }
  }

  lemma AtoiOfItoa(n: int)
    ensures Atoi(Itoa(n)) == n
  {
    ValueOfDigits(if n < 0 then -n else n);
    assert n < 0 ==> Itoa(n)[1..] == Digits(-n);
  }

  /** The decimal form in characters: a sign, and digits without a leading zero. */
  lemma ItoaInDigits(a: nat, b: nat, c: nat)
    requires 1 <= a < 10 && b < 10 && c < 10
    ensures Itoa(c) == [(48 + c) as char]
    ensures Itoa(100 * a + 10 * b + c) == [(48 + a) as char, (48 + b) as char, (48 + c) as char]
    ensures Itoa(-(10 * a + b)) == [45 as char, (48 + a) as char, (48 + b) as char]
  {
    assert (100 * a + 10 * b + c) / 10 == 10 * a + b && (10 * a + b) / 10 == a;
    assert Digits(10 * a + b) == Digits(a) + [(48 + b) as char];
    assert Digits(100 * a + 10 * b + c) == Digits(10 * a + b) + [(48 + c) as char];
  }

  // ----- the diff of two lists, for any key

  function Keys<T, K(!new)>(us: seq<T>, key: T -> K): set<K> {
    set i | 0 <= i < |us| :: key(us[i])
  }

  /** Members of `us` whose key is not in `ks`, or is there but was met before. */
  function Unmatched<T>(us: seq<T>, key: T -> string, ks: set<string>): seq<T> {
    if us == [] then []
    else
      var n := |us| - 1;
      Unmatched(us[..n], key, ks) + if key(us[n]) in ks - Keys(us[..n], key) then [] else [us[n]]
  }

  lemma KeysSnoc<T>(us: seq<T>, key: T -> string, i: nat)
    requires i < |us|
    ensures Keys(us[..i + 1], key) == Keys(us[..i], key) + {key(us[i])}
  {
    assert forall j :: 0 <= j < i ==> us[..i + 1][j] == us[..i][j];
  }

  lemma UnmatchedSnoc<T>(us: seq<T>, key: T -> string, i: nat, ks: set<string>)
    requires i < |us|
    ensures Unmatched(us[..i + 1], key, ks) ==
            Unmatched(us[..i], key, ks) + if key(us[i]) in ks - Keys(us[..i], key) then [] else [us[i]]
  {
    assert us[..i + 1][..i] == us[..i];
  }

  /** The map from keys to positions; the last member with a key wins. */
  ghost predicate Indexes<T>(m: map<string, nat>, us: seq<T>, key: T -> string) {
    forall k :: k in m ==> m[k] < |us| && key(us[m[k]]) == k
  }

  method IndexByKey<T>(us: seq<T>, key: T -> string) returns (m: map<string, nat>)
    ensures m.Keys == Keys(us, key) && Indexes(m, us, key)
  {
    m := map[];
    for i := 0 to |us|
      invariant m.Keys == Keys(us[..i], key) && Indexes(m, us, key)
    {
      KeysSnoc(us, key, i);
      m := m[key(us[i]) := i];
    }
    assert us[..|us|] == us;
  }

  method TakeIndexed<T>(us: seq<T>, key: T -> string, index: map<string, nat>) returns (taken: seq<T>)
    requires Indexes(index, us, key)
    ensures Keys(taken, key) == index.Keys && |taken| == |index.Keys|
    ensures forall u :: u in taken ==> u in us
  {
    var order := AnyOrder(index.Keys);
    taken := [];
    for i := 0 to |order|
      invariant |taken| == i
      invariant forall j :: 0 <= j < i ==> taken[j] == us[index[order[j]]] && key(taken[j]) == order[j]
    {
      taken := taken + [us[index[order[i]]]];
    }
  }

  /** `added` are the new members that match no old key; `deleted` holds one old member for
      each key that only the old list has, in whatever order the map hands them over. */
  method CompareByKey<T(!new)>(olds: seq<T>, news: seq<T>, key: T -> string) returns (deleted: seq<T>, added: seq<T>)
    ensures added == Unmatched(news, key, Keys(olds, key))
    ensures DeletedByKey(olds, news, deleted, key)
  {
    var oldMap := IndexByKey(olds, key);
    added := [];
    for i := 0 to |news|
      invariant oldMap.Keys == Keys(olds, key) - Keys(news[..i], key) && Indexes(oldMap, olds, key)
      invariant added == Unmatched(news[..i], key, Keys(olds, key))
    {
      KeysSnoc(news, key, i);
      UnmatchedSnoc(news, key, i, Keys(olds, key));
      if key(news[i]) !in oldMap {
        added := added + [news[i]];
      } else {
        oldMap := oldMap - {key(news[i])};
      }
    }
    assert news[..|news|] == news;
    deleted := TakeIndexed(olds, key, oldMap);
  }

  ghost predicate Distinct<T, P(!new)>(us: seq<T>, pair: T -> P) {
    forall i, j :: 0 <= i < j < |us| ==> pair(us[i]) != pair(us[j])
  }

  /** `deleted` are members of the old list only, `added` of the new list only, and the old
      list without the one and with the other has exactly the pairs of the new list. */
  ghost predicate IsDiff<T(!new), P(!new)>(olds: seq<T>, news: seq<T>, deleted: seq<T>, added: seq<T>, pair: T -> P) {
    && (forall u :: u in deleted ==> u in olds) && (forall u :: u in added ==> u in news)
    && Keys(deleted, pair) == Keys(olds, pair) - Keys(news, pair)
    && Keys(added, pair) == Keys(news, pair) - Keys(olds, pair)
    && (Keys(olds, pair) - Keys(deleted, pair)) + Keys(added, pair) == Keys(news, pair)
    && Distinct(deleted, pair) && Distinct(added, pair)
  }

  /** No earlier member has the key of `us[i]`. */
  ghost predicate First<T>(us: seq<T>, key: T -> string, i: nat)
    requires i < |us|
  {
    forall j :: 0 <= j < i ==> key(us[j]) != key(us[i])
  }

  /** The diff tells a change by the keys: old members with one key have one pair, and so
      have an old member and the first new member with its key. */
  ghost predicate Sees<T, P(!new)>(olds: seq<T>, news: seq<T>, key: T -> string, pair: T -> P) {
    && (forall i, j :: 0 <= i < |olds| && 0 <= j < |olds| && key(olds[i]) == key(olds[j]) ==>
          pair(olds[i]) == pair(olds[j]))
    && (forall i, j :: 0 <= i < |olds| && 0 <= j < |news| && key(olds[i]) == key(news[j]) && First(news, key, j) ==>
                         pair(olds[i]) == pair(news[j]))
  }

  /** The key is made of the pair. */
  ghost predicate Made<T(!new), P(!new)>(key: T -> string, pair: T -> P) {
    forall u, v :: pair(u) == pair(v) ==> key(u) == key(v)
  }

  /** Where the members of `Unmatched` stand. */
  ghost function UnmatchedAt<T>(us: seq<T>, key: T -> string, ks: set<string>): seq<nat> {
    if us == [] then []
    else
      var n := |us| - 1;
      UnmatchedAt(us[..n], key, ks) + if key(us[n]) in ks - Keys(us[..n], key) then [] else [n]
  }

  lemma {:induction false} UnmatchedPlaces<T>(us: seq<T>, key: T -> string, ks: set<string>)
    ensures var at, r := UnmatchedAt(us, key, ks), Unmatched(us, key, ks);
            && |at| == |r| && (forall a :: 0 <= a < |at| ==> at[a] < |us| && r[a] == us[at[a]])
            && (forall a, b :: 0 <= a < b < |at| ==> at[a] < at[b])
            && (forall i :: 0 <= i < |us| ==> (i in at <==> !(key(us[i]) in ks && First(us, key, i))))
  {
    if us != [] {
      var n := |us| - 1;
      var front := us[..n];
      UnmatchedPlaces(front, key, ks);
      assert forall i :: 0 <= i < n ==> us[i] == front[i];
      assert forall i :: 0 <= i < n ==> (First(us, key, i) <==> First(front, key, i));
      assert key(us[n]) in Keys(front, key) <==> !First(us, key, n);
    }
  }

  lemma {:induction false} CountOfKeys<T>(us: seq<T>, key: T -> string)
    ensures |Keys(us, key)| <= |us|
    ensures |Keys(us, key)| == |us| ==> Distinct(us, key)
  {
    if us != [] {
      var front := us[..|us| - 1];
      CountOfKeys(front, key);
      KeysSnoc(us, key, |us| - 1);
      assert us[..|us|] == us;
      if |Keys(us, key)| == |us| {
        assert key(us[|us| - 1]) !in Keys(front, key);
        forall i, j | 0 <= i < j < |us| ensures key(us[i]) != key(us[j]) {
          assert us[i] == front[i];
          if j < |front| { assert us[j] == front[j]; }
        }
      }
    }
  }

  lemma IndexOf<T>(us: seq<T>, u: T) returns (i: nat)
    requires u in us
    ensures i < |us| && us[i] == u
  {
    i :| 0 <= i < |us| && us[i] == u;
  }

  lemma WithKey<T, K(!new)>(us: seq<T>, key: T -> K, k: K) returns (i: nat)
    requires k in Keys(us, key)
    ensures i < |us| && key(us[i]) == k
  {
    i :| 0 <= i < |us| && key(us[i]) == k;
  }

  lemma MemberKeys<T, K(!new)>(us: seq<T>, key: T -> K)
    ensures forall i :: 0 <= i < |us| ==> key(us[i]) in Keys(us, key)
  {
  }

  lemma InKeys<T, K(!new)>(us: seq<T>, key: T -> K, i: nat)
    requires i < |us|
    ensures key(us[i]) in Keys(us, key)
  {
  }

  lemma {:induction false} FirstWithKey<T>(us: seq<T>, key: T -> string, i: nat) returns (f: nat)
    requires i < |us|
    ensures f <= i && key(us[f]) == key(us[i]) && First(us, key, f)
  {
    f := i;
    if j :| 0 <= j < i && key(us[j]) == key(us[i]) {
      f := FirstWithKey(us, key, j);
    }
  }

  /** What the deleted members are, by key: the outcome of CompareByKey. */
  ghost predicate DeletedByKey<T(!new)>(olds: seq<T>, news: seq<T>, deleted: seq<T>, key: T -> string) {
    && Keys(deleted, key) == Keys(olds, key) - Keys(news, key) && |deleted| == |Keys(deleted, key)|
    && forall u :: u in deleted ==> u in olds
  }

  lemma DeletedRight<T(!new), P(!new)>(olds: seq<T>, news: seq<T>, deleted: seq<T>, key: T -> string, pair: T -> P)
    requires Made(key, pair) && Sees(olds, news, key, pair) && DeletedByKey(olds, news, deleted, key)
    ensures Keys(deleted, pair) == Keys(olds, pair) - Keys(news, pair) && Distinct(deleted, pair)
  {
    CountOfKeys(deleted, key);
    MemberKeys(deleted, key);
    MemberKeys(news, key);
    MemberKeys(news, pair);
    forall p | p in Keys(deleted, pair) ensures p in Keys(olds, pair) && p !in Keys(news, pair) {
      var a := WithKey(deleted, pair, p);
      var i := IndexOf(olds, deleted[a]);
    }
    forall p | p in Keys(olds, pair) - Keys(news, pair) ensures p in Keys(deleted, pair) {
      var i := WithKey(olds, pair, p);
      if key(olds[i]) in Keys(news, key) {
        var j := WithKey(news, key, key(olds[i]));
        var f := FirstWithKey(news, key, j);
      } else {
        assert key(olds[i]) in Keys(deleted, key);
        var a := WithKey(deleted, key, key(olds[i]));
        var k := IndexOf(olds, deleted[a]);
        assert pair(olds[k]) == p;
      }
    }
  }

  lemma AddedRight<T(!new), P(!new)>(olds: seq<T>, news: seq<T>, key: T -> string, pair: T -> P)
    requires Made(key, pair) && Sees(olds, news, key, pair) && Distinct(news, pair)
    ensures var added := Unmatched(news, key, Keys(olds, key));
            Keys(added, pair) == Keys(news, pair) - Keys(olds, pair) && Distinct(added, pair)
            && forall u :: u in added ==> u in news
  {
    var ks := Keys(olds, key);
    var added, at := Unmatched(news, key, ks), UnmatchedAt(news, key, ks);
    UnmatchedPlaces(news, key, ks);
    MemberKeys(olds, key);
    MemberKeys(olds, pair);
    forall p | p in Keys(added, pair) ensures p in Keys(news, pair) && p !in Keys(olds, pair) {
      var a := WithKey(added, pair, p);
      var i := at[a];
      assert i in at;
      var f := FirstWithKey(news, key, i);
    }
    forall p | p in Keys(news, pair) - Keys(olds, pair) ensures p in Keys(added, pair) {
      var i := WithKey(news, pair, p);
      if key(news[i]) in ks && First(news, key, i) {
        var j := WithKey(olds, key, key(news[i]));
      } else {
        var a := IndexOf(at, i);
        assert pair(added[a]) == p;
      }
    }
    forall u | u in added ensures u in news {
      var a := IndexOf(added, u);
    }
  }

  lemma KeptNotDeleted<T(!new), P(!new)>(olds: seq<T>, news: seq<T>, deleted: seq<T>, key: T -> string, pair: T -> P,
                                         i: nat)
    requires Made(key, pair) && DeletedByKey(olds, news, deleted, key)
    requires i < |olds| && key(olds[i]) in Keys(news, key)
    ensures pair(olds[i]) !in Keys(deleted, pair)
  {
    if pair(olds[i]) in Keys(deleted, pair) {
      var a := WithKey(deleted, pair, pair(olds[i]));
      InKeys(deleted, key, a);
    }
  }

  /** A diff that is right leaves no old member hidden behind the first new one with its key. */
  lemma NewSeen<T(!new), P(!new)>(olds: seq<T>, news: seq<T>, deleted: seq<T>, key: T -> string, pair: T -> P, i: nat,
                                  w: nat)
    requires Made(key, pair) && Distinct(news, pair) && DeletedByKey(olds, news, deleted, key)
    requires Keys(deleted, pair) == Keys(olds, pair) - Keys(news, pair)
    requires Keys(Unmatched(news, key, Keys(olds, key)), pair) == Keys(news, pair) - Keys(olds, pair)
    requires i < |olds| && w < |news| && key(olds[i]) == key(news[w]) && First(news, key, w)
    ensures pair(olds[i]) == pair(news[w])
  {
    var ks := Keys(olds, key);
    var added, at := Unmatched(news, key, ks), UnmatchedAt(news, key, ks);
    UnmatchedPlaces(news, key, ks);
    InKeys(olds, key, i);
    InKeys(olds, pair, i);
    InKeys(news, key, w);
    KeptNotDeleted(olds, news, deleted, key, pair, i);
    var v := WithKey(news, pair, pair(olds[i]));
    if v in at {
      var a := IndexOf(at, v);
      InKeys(added, pair, a);
    } else {
      assert First(news, key, v);
    }
  }

  lemma OldSeen<T(!new), P(!new)>(olds: seq<T>, news: seq<T>, deleted: seq<T>, key: T -> string, pair: T -> P, i: nat,
                                  j: nat)
    requires Made(key, pair) && Distinct(news, pair) && DeletedByKey(olds, news, deleted, key)
    requires Keys(deleted, pair) == Keys(olds, pair) - Keys(news, pair)
    requires Keys(Unmatched(news, key, Keys(olds, key)), pair) == Keys(news, pair) - Keys(olds, pair)
    requires i < |olds| && j < |olds| && key(olds[i]) == key(olds[j])
    ensures pair(olds[i]) == pair(olds[j])
  {
    if key(olds[i]) in Keys(news, key) {
      var v := WithKey(news, key, key(olds[i]));
      var w := FirstWithKey(news, key, v);
      NewSeen(olds, news, deleted, key, pair, i, w);
      NewSeen(olds, news, deleted, key, pair, j, w);
    } else {
      CountOfKeys(deleted, key);
      OnlyOld(olds, news, deleted, key, pair, i);
      OnlyOld(olds, news, deleted, key, pair, j);
      var a := WithKey(deleted, pair, pair(olds[i]));
      var b := WithKey(deleted, pair, pair(olds[j]));
      assert key(deleted[a]) == key(deleted[b]);
    }
  }

  lemma OnlyOld<T(!new), P(!new)>(olds: seq<T>, news: seq<T>, deleted: seq<T>, key: T -> string, pair: T -> P, i: nat)
    requires Made(key, pair) && Keys(deleted, pair) == Keys(olds, pair) - Keys(news, pair)
    requires i < |olds| && key(olds[i]) !in Keys(news, key)
    ensures pair(olds[i]) in Keys(deleted, pair)
  {
    InKeys(olds, pair, i);
  }

  /** The output of `CompareByKey` is a diff exactly when the keys tell every change. */
  lemma CompareIsDiff<T(!new), P(!new)>(
      olds: seq<T>, news: seq<T>, deleted: seq<T>, added: seq<T>, key: T -> string, pair: T -> P)
    requires Made(key, pair) && Distinct(news, pair)
    requires added == Unmatched(news, key, Keys(olds, key)) && DeletedByKey(olds, news, deleted, key)
    ensures IsDiff(olds, news, deleted, added, pair) <==> Sees(olds, news, key, pair)
  {
    if Sees(olds, news, key, pair) {
      DeletedRight(olds, news, deleted, key, pair);
      AddedRight(olds, news, key, pair);
      OldToNew(Keys(olds, pair), Keys(news, pair));
    } else if IsDiff(olds, news, deleted, added, pair) {
      DiffSees(olds, news, deleted, key, pair);
    }
  }

  lemma OldToNew<P(!new)>(olds: set<P>, news: set<P>)
    ensures (olds - (olds - news)) + (news - olds) == news
  {
  }

  lemma DiffSees<T(!new), P(!new)>(olds: seq<T>, news: seq<T>, deleted: seq<T>, key: T -> string, pair: T -> P)
    requires Made(key, pair) && Distinct(news, pair) && DeletedByKey(olds, news, deleted, key)
    requires Keys(deleted, pair) == Keys(olds, pair) - Keys(news, pair)
    requires Keys(Unmatched(news, key, Keys(olds, key)), pair) == Keys(news, pair) - Keys(olds, pair)
    ensures Sees(olds, news, key, pair)
  {
    forall i, j | 0 <= i < |olds| && 0 <= j < |olds| && key(olds[i]) == key(olds[j])
      ensures pair(olds[i]) == pair(olds[j])
    {
      OldSeen(olds, news, deleted, key, pair, i, j);
    }
    forall i, j | 0 <= i < |olds| && 0 <= j < |news| && key(olds[i]) == key(news[j]) && First(news, key, j)
      ensures pair(olds[i]) == pair(news[j])
    {
      NewSeen(olds, news, deleted, key, pair, i, j);
    }
  }

  // ----- compareUserList

  /** What the panel can change about a user it keeps: the diff looks at nothing else. */
  function Pair(u: UserInfo): (string, int) {
    (u.uuid, u.speedLimit)
  }

  function UserKey(u: UserInfo): string {
    u.uuid + Itoa(u.speedLimit)
  }

  predicate SameLength(us: seq<UserInfo>, n: nat) {
    forall i :: 0 <= i < |us| ==> |us[i].uuid| == n
  }

  lemma KeyOfPair(u: UserInfo, v: UserInfo)
    requires |u.uuid| == |v.uuid|
    ensures UserKey(u) == UserKey(v) <==> Pair(u) == Pair(v)
  {
    if UserKey(u) == UserKey(v) {
      var k := UserKey(u);
      assert k[..|u.uuid|] == u.uuid && k[..|v.uuid|] == v.uuid;
      assert k[|u.uuid|..] == Itoa(u.speedLimit) == Itoa(v.speedLimit);
      AtoiOfItoa(u.speedLimit);
      AtoiOfItoa(v.speedLimit);
    }
  }

  /** With UUIDs of one length every change is told by the keys. */
  lemma OneLengthSees(olds: seq<UserInfo>, news: seq<UserInfo>, n: nat)
    requires SameLength(olds + news, n)
    ensures Sees(olds, news, UserKey, Pair)
  {
    forall i | 0 <= i < |olds| ensures |olds[i].uuid| == n {
      assert (olds + news)[i] == olds[i];
    }
    forall j | 0 <= j < |news| ensures |news[j].uuid| == n {
      assert (olds + news)[|olds| + j] == news[j];
    }
    forall u: UserInfo, v: UserInfo | |u.uuid| == n && |v.uuid| == n
      ensures UserKey(u) == UserKey(v) <==> Pair(u) == Pair(v)
    {
      KeyOfPair(u, v);
    }
  }

  /** For a new list without repeated pairs, the result is a diff exactly when no old member
      shares its key with an old member, or a first new one, of another pair. */
  method CompareUserList(olds: seq<UserInfo>, news: seq<UserInfo>)
      returns (deleted: seq<UserInfo>, added: seq<UserInfo>)
    ensures Distinct(news, Pair) ==> (IsDiff(olds, news, deleted, added, Pair) <==> Sees(olds, news, UserKey, Pair))
    ensures added == Unmatched(news, UserKey, Keys(olds, UserKey))
    ensures DeletedByKey(olds, news, deleted, UserKey)
  {
    deleted, added := CompareByKey(olds, news, UserKey);
    if Distinct(news, Pair) {
      CompareIsDiff(olds, news, deleted, added, UserKey, Pair);
    }
  }

  /** UUIDs of different lengths can share a key, and then a change goes unseen. */
  lemma KeysCanCollide()
    ensures var u, v := UserInfo(1, "a1", 1, 0), UserInfo(2, "a", 11, 0);
            && Pair(u) != Pair(v) && Unmatched([v], UserKey, Keys([u], UserKey)) == []
            && !Sees([u], [v], UserKey, Pair)
  {
    var u, v := UserInfo(1, "a1", 1, 0), UserInfo(2, "a", 11, 0);
    assert Digits(1) == "1" && Digits(11) == Digits(1) + "1";
    assert UserKey(u) == "a1" + "1" && UserKey(v) == "a" + "11";
    assert UserKey(u) == UserKey(v) && [u][0] == u;
    assert UserKey(v) in Keys([u], UserKey) && [v][..0] == [];
    assert First([v], UserKey, 0) && UserKey([u][0]) == UserKey([v][0]);
  }
}
