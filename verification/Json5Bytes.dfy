/** The cleaner in bytes: what becomes of the front of a text, and that the rest is cleaned as
    a text of its own. Tab, newlines and space are 9, 10, 13 and 32, the quote is 34, the star
    42, the comma 44, the slash 47, the backslash 92, the closers 93 and 125. */
module Json5Bytes {
  import opened Common
  import opened Json5

  predicate Spaces(t: seq<byte>) {
    forall k :: 0 <= k < |t| ==> t[k] == 32
  }

  predicate Without(x: seq<byte>, bytes: set<byte>) {
    forall k :: 0 <= k < |x| ==> x[k] !in bytes
  }

  predicate AllBlank(x: seq<byte>) {
    forall k :: 0 <= k < |x| ==> x[k] in {9, 10, 13, 32}
  }

  // ----- the machine looks ahead only

  /** `t` is what `s` has from `p` on. */
  ghost predicate Tail(s: seq<byte>, p: nat, t: seq<byte>) {
    |s| == p + |t| && forall k :: 0 <= k < |t| ==> s[p + k] == t[k]
  }

  lemma NextInRest(m: Mode, s: seq<byte>, p: nat, t: seq<byte>, i: nat)
    requires Tail(s, p, t) && i < |t|
    ensures s[p + i] == t[i] && Next(m, s, p + i) == Next(m, t, i)
  {
    assert i + 1 < |t| ==> s[p + (i + 1)] == t[i + 1];
  }

  lemma {:induction false} ClosesInRest(m: Mode, s: seq<byte>, p: nat, t: seq<byte>, i: nat)
    requires Tail(s, p, t) && i <= |t|
    ensures Closes(m, s, p + i) == Closes(m, t, i)
    decreases |t| - i
  {
    if i < |t| {
      NextInRest(m, s, p, t, i);
      ClosesInRest(Next(m, t, i), s, p, t, i + 1);
    }
  }

  lemma {:induction false} ModeInRest(s: seq<byte>, p: nat, t: seq<byte>, i: nat)
    requires Tail(s, p, t) && i <= |t| && ModeAt(s, p) == Code(false)
    ensures ModeAt(s, p + i) == ModeAt(t, i)
  {
    if i > 0 {
      ModeInRest(s, p, t, i - 1);
      NextInRest(ModeAt(t, i - 1), s, p, t, i - 1);
    }
  }

  lemma EmitInRest(m: Mode, s: seq<byte>, p: nat, t: seq<byte>, i: nat)
    requires Tail(s, p, t) && i < |t| && Closes(Code(true), s, p + i + 1) == Closes(Code(true), t, i + 1)
    ensures Emit(m, s, p + i) == Emit(m, t, i)
  {
    assert s[p + i] == t[i] && (i + 1 < |t| ==> s[p + (i + 1)] == t[i + 1]);
  }

  lemma OutInRest(s: seq<byte>, p: nat, t: seq<byte>, i: nat)
    requires Tail(s, p, t) && i < |t| && ModeAt(s, p) == Code(false)
    ensures Out(s, p + i) == Out(t, i)
  {
    ModeInRest(s, p, t, i);
    ClosesInRest(Code(true), s, p, t, i + 1);
    EmitInRest(ModeAt(t, i), s, p, t, i);
  }

  lemma ScanAt(s: seq<byte>, k: nat)
    requires k < |s|
    ensures Scan(s)[k] == Out(s, k)
  {
  }

  lemma ScanAtRest(s: seq<byte>, p: nat, t: seq<byte>, k: nat, i: nat)
    requires Tail(s, p, t) && ModeAt(s, p) == Code(false) && i < |t| && k == p + i && k < |s|
    ensures Scan(s)[k] == Scan(t)[i]
  {
    var x, y := Out(s, k), Out(t, i);
    assert x == y by {
      OutInRest(s, p, t, i);
    }
    assert Scan(s)[k] == x by {
      ScanAt(s, k);
    }
    assert Scan(t)[i] == y by {
      ScanAt(t, i);
    }
  }

  /** Where the machine is back in plain code, the rest is cleaned as a text of its own. */
  lemma Composed(s: seq<byte>, front: seq<byte>, rest: seq<byte>, front': seq<byte>)
    requires s == front + rest && |front'| == |front| && ModeAt(s, |front|) == Code(false)
    requires forall k :: 0 <= k < |front| ==> Out(s, k) == front'[k]
    ensures Scan(s) == front' + Scan(rest)
  {
    ScanInFront(s, front');
    assert Tail(s, |front|, rest);
    Continued(s, front', rest);
  }

  lemma RestScanned(s: seq<byte>, p: nat, rest: seq<byte>)
    requires Tail(s, p, rest) && ModeAt(s, p) == Code(false) && |s| == p + |rest|
    ensures forall k :: 0 <= k < |rest| ==> Scan(rest)[k] == Scan(s)[p + k]
  {
    forall k | 0 <= k < |rest| ensures Scan(rest)[k] == Scan(s)[p + k] {
      ScanAtRest(s, p, rest, p + k, k);
    }
  }

  lemma Continued(s: seq<byte>, front': seq<byte>, rest: seq<byte>)
    requires Tail(s, |front'|, rest) && ModeAt(s, |front'|) == Code(false) && |s| == |front'| + |rest|
    requires forall k :: 0 <= k < |front'| ==> Scan(s)[k] == front'[k]
    ensures Scan(s) == front' + Scan(rest)
  {
    var x, y := Scan(s), Scan(rest);
    assert forall k :: 0 <= k < |y| ==> y[k] == x[|front'| + k] by {
      RestScanned(s, |front'|, rest);
    }
    assert x == front' + y by {
      Joined(x, front', y);
    }
  }

  lemma Joined(x: seq<byte>, front: seq<byte>, rest: seq<byte>)
    requires |x| == |front| + |rest|
    requires forall k :: 0 <= k < |front| ==> x[k] == front[k]
    requires forall k :: 0 <= k < |rest| ==> rest[k] == x[|front| + k]
    ensures x == front + rest
  {
    forall k | 0 <= k < |x| ensures x[k] == (front + rest)[k] {
      assert k >= |front| ==> rest[k - |front|] == x[|front| + (k - |front|)];
    }
  }

  lemma ScanInFront(s: seq<byte>, front: seq<byte>)
    requires |front| <= |s| && forall k :: 0 <= k < |front| ==> Out(s, k) == front[k]
    ensures forall k :: 0 <= k < |front| ==> Scan(s)[k] == front[k]
  {
    forall k | 0 <= k < |front| ensures Scan(s)[k] == front[k] {
      ScanAt(s, k);
    }
  }

  lemma Untouched(x: seq<byte>, rest: seq<byte>)
    requires ModeAt(x + rest, |x|) == Code(false)
    requires forall k :: 0 <= k < |x| ==> Out(x + rest, k) == (x + rest)[k]
    ensures Scan(x + rest) == x + Scan(rest)
  {
    Composed(x + rest, x, rest, x);
  }

  // ----- the parts of a text

  lemma {:induction false} PlainMode(s: seq<byte>, n: nat)
    requires n <= |s| && forall k :: 0 <= k < n ==> s[k] !in {34, 44, 47}
    ensures ModeAt(s, n) == Code(false)
  {
    if n > 0 {
      PlainMode(s, n - 1);
    }
  }

  /** Bytes before the first quote, comma or slash stay. */
  lemma PlainStays(pre: seq<byte>, rest: seq<byte>)
    requires Without(pre, {34, 44, 47})
    ensures Scan(pre + rest) == pre + Scan(rest)
  {
    var s := pre + rest;
    PlainMode(s, |pre|);
    forall k | 0 <= k < |pre| ensures Out(s, k) == pre[k] {
      PlainMode(s, k);
    }
    Composed(s, pre, rest, pre);
  }

  lemma {:induction false} SearchWalk(s: seq<byte>, p: nat, q: nat)
    requires p <= q <= |s| && forall k :: p <= k < q ==> s[k] in {9, 10, 13, 32}
    ensures Closes(Code(true), s, p) == Closes(Code(true), s, q)
    ensures ModeAt(s, p) == Code(true) ==> ModeAt(s, q) == Code(true)
    ensures ModeAt(s, p) == Code(true) ==> forall k :: p <= k < q ==> Out(s, k) == s[k]
    decreases q - p
  {
    if p < q {
      SearchWalk(s, p + 1, q);
    }
  }

  lemma CommaWalk(ws: seq<byte>, tail: seq<byte>)
    requires AllBlank(ws)
    ensures CommaAt([44] + ws + tail, 1 + |ws|)
  {
    var s := [44] + ws + tail;
    forall k | 1 <= k < 1 + |ws| ensures s[k] in {9, 10, 13, 32} {
      assert s[k] == ws[k - 1];
    }
    CommaSearch(s, 1 + |ws|);
  }

  /** A text begins with a comma, and its search is still going on at `q`. */
  ghost predicate CommaAt(s: seq<byte>, q: nat) {
    && 1 <= q <= |s| && ModeAt(s, q) == Code(true)
    && Out(s, 0) == (if Closes(Code(true), s, q) then 32 else 44)
    && forall k :: 1 <= k < q ==> Out(s, k) == s[k]
  }

  lemma CommaSearch(s: seq<byte>, q: nat)
    requires 1 <= q <= |s| && s[0] == 44 && forall k :: 1 <= k < q ==> s[k] in {9, 10, 13, 32}
    ensures CommaAt(s, q)
  {
    assert ModeAt(s, 0) == Code(false) && ModeAt(s, 1) == Code(true);
    SearchWalk(s, 1, q);
  }

  /** A comma becomes a space when the next byte that is not white space closes. */
  lemma TrailingCommaGoes(ws: seq<byte>, c: byte, rest: seq<byte>)
    requires AllBlank(ws) && c in {93, 125}
    ensures Scan([44] + ws + [c] + rest) == [32] + ws + [c] + Scan(rest)
  {
    var s, front, q := [44] + ws + [c] + rest, [44] + ws + [c], 1 + |ws|;
    assert CommaAt(s, q) by {
      CommaWalk(ws, [c] + rest);
      assert s == [44] + ws + ([c] + rest);
    }
    assert s[q] == c;
    CommaGone(s, q);
    FrontIs(s, front, rest, [32] + ws + [c]);
  }

  /** Only the first byte of the front changes. */
  lemma FrontIs(s: seq<byte>, front: seq<byte>, rest: seq<byte>, front': seq<byte>)
    requires s == front + rest && |front'| == |front| > 0 && ModeAt(s, |front|) == Code(false)
    requires Out(s, 0) == front'[0] && forall k :: 1 <= k < |front| ==> Out(s, k) == s[k]
    requires forall k :: 1 <= k < |front| ==> front[k] == front'[k]
    ensures Scan(s) == front' + Scan(rest)
  {
    forall k | 0 <= k < |front| ensures Out(s, k) == front'[k] {
      if k > 0 {
        assert s[k] == front[k];
      }
    }
    Composed(s, front, rest, front');
  }

  lemma CommaPassed(s: seq<byte>, q: nat)
    requires CommaAt(s, q) && s[0] == 44 && q < |s| && s[q] !in {9, 10, 13, 32, 34, 44, 47, 93, 125}
    ensures Out(s, 0) == 44 && ModeAt(s, q + 1) == Code(false) && forall k :: 1 <= k < q + 1 ==> Out(s, k) == s[k]
  {
  }

  lemma CommaGone(s: seq<byte>, q: nat)
    requires CommaAt(s, q) && s[0] == 44 && q < |s| && s[q] in {93, 125}
    ensures Out(s, 0) == 32 && ModeAt(s, q + 1) == Code(false) && forall k :: 1 <= k < q + 1 ==> Out(s, k) == s[k]
  {
  }

  /** It stays before anything else that starts no comment, and at the end of the text. */
  lemma OtherCommaStays(ws: seq<byte>, tail: seq<byte>)
    requires AllBlank(ws) && (tail == [] || tail[0] !in {9, 10, 13, 32, 47, 93, 125})
    ensures Scan([44] + ws + tail)[..1 + |ws|] == [44] + ws
    ensures tail != [] && tail[0] !in {34, 44} ==> Scan([44] + ws + tail) == [44] + ws + [tail[0]] + Scan(tail[1..])
  {
    var s := [44] + ws + tail;
    assert Scan(s)[..1 + |ws|] == [44] + ws by {
      CommaWalk(ws, tail);
      assert tail != [] ==> s[1 + |ws|] == tail[0];
      assert s[..1 + |ws|] == [44] + ws;
      CommaKept(s, 1 + |ws|);
    }
    if tail != [] && tail[0] !in {34, 44} {
      var c, rest := tail[0], tail[1..];
      assert s == [44] + ws + [c] + rest by {
        assert tail == [c] + rest;
      }
      OtherCommaPasses(ws, c, rest);
    }
  }

  lemma CommaKept(s: seq<byte>, q: nat)
    requires CommaAt(s, q) && s[0] == 44 && (q < |s| ==> s[q] !in {9, 10, 13, 32, 47, 93, 125})
    ensures Scan(s)[..q] == s[..q]
  {
    assert !Closes(Code(true), s, q);
    forall k | 0 <= k < q ensures Scan(s)[k] == s[k] {
      assert Scan(s)[k] == Out(s, k);
    }
  }

  lemma OtherCommaPasses(ws: seq<byte>, c: byte, rest: seq<byte>)
    requires AllBlank(ws) && c !in {9, 10, 13, 32, 34, 44, 47, 93, 125}
    ensures Scan([44] + ws + [c] + rest) == [44] + ws + [c] + Scan(rest)
  {
    var s, front, q := [44] + ws + [c] + rest, [44] + ws + [c], 1 + |ws|;
    assert CommaAt(s, q) by {
      CommaWalk(ws, [c] + rest);
      assert s == [44] + ws + ([c] + rest);
    }
    assert s[q] == c;
    CommaPassed(s, q);
    FrontIs(s, front, rest, [44] + ws + [c]);
  }

  /** The same for a comma anywhere behind plain bytes. */
  lemma CommaInText(pre: seq<byte>, ws: seq<byte>, c: byte, rest: seq<byte>)
    requires Without(pre, {34, 44, 47}) && AllBlank(ws)
    ensures c in {93, 125} ==> Scan(pre + [44] + ws + [c] + rest)[|pre|] == 32
    ensures c !in {9, 10, 13, 32, 47, 93, 125} ==> Scan(pre + [44] + ws + [c] + rest)[|pre|] == 44
    ensures Scan(pre + [44] + ws)[|pre|] == 44
  {
    var x := [44] + ws + [c] + rest;
    assert pre + [44] + ws + [c] + rest == pre + x && x == [44] + ws + ([c] + rest);
    PlainStays(pre, x);
    if c in {93, 125} {
      TrailingCommaGoes(ws, c, rest);
    } else if c !in {9, 10, 13, 32, 47} {
      OtherCommaStays(ws, [c] + rest);
      assert Scan(x)[..1 + |ws|][0] == Scan(x)[0];
    }
    assert pre + [44] + ws == pre + ([44] + ws) && [44] + ws + [] == [44] + ws;
    PlainStays(pre, [44] + ws);
    OtherCommaStays(ws, []);
  }

  lemma {:induction false} LineMode(s: seq<byte>, p: nat)
    requires 2 <= p <= |s| && s[0] == 47 && s[1] == 47 && forall k :: 2 <= k < p ==> s[k] !in {10, 13}
    ensures ModeAt(s, p) == InLine(false) && forall k :: 0 <= k < p ==> Out(s, k) == 32
  {
    if p == 2 {
      assert ModeAt(s, 0) == Code(false) && ModeAt(s, 1) == InLine(false);
    } else {
      LineMode(s, p - 1);
    }
  }

  /** A line comment becomes spaces up to its newline, which stays, or to the end. */
  lemma LineCommentGoes(body: seq<byte>, nl: byte, rest: seq<byte>, blank: seq<byte>)
    requires Without(body, {10, 13}) && nl in {10, 13} && Spaces(blank) && |blank| == 2 + |body|
    ensures Scan([47, 47] + body + [nl] + rest) == blank + [nl] + Scan(rest)
    ensures Scan([47, 47] + body) == blank
  {
    var s, n := [47, 47] + body + [nl] + rest, 2 + |body|;
    assert forall k :: 2 <= k < n ==> s[k] == body[k - 2];
    assert s[n] == nl;
    LineMode(s, n);
    Composed(s, [47, 47] + body + [nl], rest, blank + [nl]);
    LineMode([47, 47] + body, n);
  }

  lemma {:induction false} BlockMode(s: seq<byte>, p: nat)
    requires 2 <= p <= |s| && s[0] == 47 && s[1] == 42 && forall k :: 2 <= k < p ==> s[k] != 42
    ensures ModeAt(s, p) == InBlock(false) && forall k :: 0 <= k < p ==> Out(s, k) == 32
  {
    if p == 2 {
      assert ModeAt(s, 0) == Code(false) && ModeAt(s, 1) == OpensBlock(false);
    } else {
      BlockMode(s, p - 1);
    }
  }

  /** A block comment without stars inside becomes spaces. */
  lemma BlockCommentGoes(body: seq<byte>, rest: seq<byte>, blank: seq<byte>)
    requires Without(body, {42}) && Spaces(blank) && |blank| == 4 + |body|
    ensures Scan([47, 42] + body + [42, 47] + rest) == blank + Scan(rest)
  {
    var s, n := [47, 42] + body + [42, 47] + rest, 2 + |body|;
    assert forall k :: 2 <= k < n ==> s[k] == body[k - 2];
    assert s[n] == 42 && s[n + 1] == 47;
    BlockMode(s, n);
    assert ModeAt(s, n + 1) == ClosesBlock(false) && ModeAt(s, n + 2) == Code(false);
    Composed(s, [47, 42] + body + [42, 47], rest, blank);
  }

  /** A slash that opens no comment stays. */
  lemma OtherSlashStays(c: byte, rest: seq<byte>)
    requires c !in {42, 47}
    ensures Scan([47, c] + rest) == [47] + Scan([c] + rest)
    ensures Scan([47]) == [47]
  {
    assert [47, c] + rest == [47] + ([c] + rest);
    Composed([47, c] + rest, [47], [c] + rest, [47]);
  }

  lemma {:induction false} StringMode(s: seq<byte>, p: nat, q: nat)
    requires p <= q <= |s| && ModeAt(s, p) == InString && forall k :: p <= k < q ==> s[k] !in {34, 92}
    ensures ModeAt(s, q) == InString && forall k :: p <= k < q ==> Out(s, k) == s[k]
    decreases q - p
  {
    if p < q {
      StringMode(s, p + 1, q);
    }
  }

  /** A string stays, whatever it holds. */
  lemma StringStays(body: seq<byte>, rest: seq<byte>)
    requires Without(body, {34, 92})
    ensures Scan([34] + body + [34] + rest) == [34] + body + [34] + Scan(rest)
  {
    var x, n := [34] + body + [34], 1 + |body|;
    var s := x + rest;
    assert forall k :: 1 <= k < n ==> s[k] == body[k - 1];
    assert s[n] == 34 && ModeAt(s, 0) == Code(false) && ModeAt(s, 1) == InString;
    StringMode(s, 1, n);
    Untouched(x, rest);
  }

  /** A backslash in it hides the byte behind it, a quote too. */
  lemma EscapeStays(x: seq<byte>, m: nat, rest: seq<byte>)
    requires 1 <= m && m + 3 <= |x| && x[0] == 34 && x[m] == 92 && x[|x| - 1] == 34
    requires forall k :: 1 <= k < m || m + 2 <= k < |x| - 1 ==> x[k] !in {34, 92}
    ensures Scan(x + rest) == x + Scan(rest)
  {
    EscapeWalk(x + rest, m, |x| - 1);
    Untouched(x, rest);
  }

  lemma EscapeWalk(s: seq<byte>, m: nat, n: nat)
    requires 1 <= m && m + 2 <= n < |s| && s[0] == 34 && s[m] == 92 && s[n] == 34
    requires forall k :: 1 <= k < m || m + 2 <= k < n ==> s[k] !in {34, 92}
    ensures ModeAt(s, n + 1) == Code(false) && forall k :: 0 <= k < n + 1 ==> Out(s, k) == s[k]
  {
    assert ModeAt(s, 0) == Code(false) && ModeAt(s, 1) == InString;
    StringMode(s, 1, m);
    assert ModeAt(s, m + 1) == Escaped && ModeAt(s, m + 2) == InString;
    StringMode(s, m + 2, n);
    forall k | 0 <= k < n + 1 ensures Out(s, k) == s[k] {
      if k in {0, m, m + 1, n} {
        QuotedStays(s, k);
      }
    }
  }

  lemma QuotedStays(s: seq<byte>, k: nat)
    requires k < |s| && (ModeAt(s, k) in {InString, Escaped} || (ModeAt(s, k) == Code(false) && s[k] == 34))
    ensures Out(s, k) == s[k]
  {
  }
}
