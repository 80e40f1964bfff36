/** What the cleaner does to JSON5 text, stated on token streams. */
module Json5Tokens {
  import opened Common
  import opened Json5

  datatype Token =
    | Blank(b: byte)                    // a white-space byte
    | Str(body: seq<byte>)              // a closed string literal
    | LineComment(body: seq<byte>)      // two slashes, up to but not including the newline
    | BlockComment(body: seq<byte>)     // with its opening and closing marks
    | Comma
    | Closer(b: byte)                   // a closing brace or bracket
    | Other(b: byte)                    // any other byte of code

  function Show(t: Token): (x: seq<byte>)
    ensures x != []
  {
    match t
    case Blank(b) => [b]
    case Str(body) => [QUOTE] + body + [QUOTE]
    case LineComment(body) => [SLASH, SLASH] + body
    case BlockComment(body) => [SLASH, STAR] + body + [STAR, SLASH]
    case Comma => [COMMA]
    case Closer(b) => [b]
    case Other(b) => [b]
  }

  function Len(t: Token): nat {
    match t
    case Str(body) => |body| + 2
    case LineComment(body) => |body| + 2
    case BlockComment(body) => |body| + 4
    case _ => 1
  }

  function Render(ts: seq<Token>): seq<byte> {
    if ts == [] then [] else Show(ts[0]) + Render(ts[1..])
  }

  /** No quote ends the body early, and its last backslash has a byte to escape. */
  predicate StringBody(body: seq<byte>) {
    || body == []
    || (body[0] == BACKSLASH && |body| >= 2 && StringBody(body[2..]))
    || (body[0] != BACKSLASH && body[0] != QUOTE && StringBody(body[1..]))
  }

  predicate WfToken(t: Token) {
    match t
    case Blank(b) => IsWS(b)
    case Str(body) => StringBody(body)
    case LineComment(body) => forall k :: 0 <= k < |body| ==> !IsNL(body[k])
    case BlockComment(body) => forall k :: 0 <= k < |body| - 1 ==> body[k] == STAR ==> body[k + 1] != SLASH
    case Comma => true
    case Closer(b) => IsCloser(b)
    case Other(b) => !IsWS(b) && !IsCloser(b) && b != QUOTE && b != SLASH && b != COMMA
  }

  predicate StartsWithNewline(ts: seq<Token>) {
    ts != [] && ts[0].Blank? && IsNL(ts[0].b)
  }

  predicate WellFormed(ts: seq<Token>) {
    ts != [] ==>
      && WfToken(ts[0])
      && (ts[0].LineComment? && |ts| > 1 ==> StartsWithNewline(ts[1..]))
      && WellFormed(ts[1..])
  }

  predicate IsGap(t: Token) { t.Blank? || t.LineComment? || t.BlockComment? }

  /** Past white space and comments, the next token is a closing bracket. */
  predicate NextCloses(ts: seq<Token>) {
    ts != [] && (ts[0].Closer? || (IsGap(ts[0]) && NextCloses(ts[1..])))
  }

  /** Past white space and comments, the next token is a comma, and a trailing one. */
  predicate NextIsTrailingComma(ts: seq<Token>) {
    ts != [] && ((ts[0].Comma? && NextCloses(ts[1..])) || (IsGap(ts[0]) && NextIsTrailingComma(ts[1..])))
  }

  function Blanks(n: nat): seq<Token> {
    if n == 0 then [] else [Blank(SPACE)] + Blanks(n - 1)
  }

  /** The wanted result: comments and trailing commas become white space, nothing else changes. */
  function Clean(ts: seq<Token>): seq<Token> {
    if ts == [] then [] else CleanToken(ts[0], NextCloses(ts[1..])) + Clean(ts[1..])
  }

  function CleanToken(t: Token, closes: bool): seq<Token> {
    if t.LineComment? || t.BlockComment? then Blanks(Len(t))
    else if t.Comma? && closes then [Blank(SPACE)]
    else [t]
  }

  /** Every star in the body of a block comment is followed, in the body, by a space. */
  predicate StarsPadded(body: seq<byte>) {
    forall k :: 0 <= k < |body| && body[k] == STAR ==> k + 1 < |body| && body[k + 1] == SPACE
  }

  predicate AllPadded(ts: seq<Token>) {
    forall k :: 0 <= k < |ts| && ts[k].BlockComment? ==> StarsPadded(ts[k].body)
  }

  /** Some comma is followed, past white space and comments, by a trailing comma. */
  predicate HasDoubledComma(ts: seq<Token>) {
    ts != [] && ((ts[0].Comma? && NextIsTrailingComma(ts[1..])) || HasDoubledComma(ts[1..]))
  }

  // ----- walking through one token

  /** `x` stands at position `p` of `s`. */
  ghost predicate At(s: seq<byte>, p: nat, x: seq<byte>) {
    p + |x| <= |s| && forall k :: p <= k < p + |x| ==> s[k] == x[k - p]
  }

  lemma {:induction false} StringWalk(s: seq<byte>, p: nat, body: seq<byte>)
    requires StringBody(body) && At(s, p, body) && Has(s, p + |body|, QUOTE)
    requires ModeAt(s, p) == InString
    ensures ModeAt(s, p + |body| + 1) == Code(false)
    ensures forall k :: p <= k < p + |body| + 1 ==> Out(s, k) == s[k]
    decreases |body|
  {
    if body == [] {
    } else if body[0] == BACKSLASH {
      assert s[p] == body[0] && ModeAt(s, p + 1) == Escaped && ModeAt(s, p + 2) == InString;
      StringWalk(s, p + 2, body[2..]);
    } else {
      assert s[p] == body[0] && ModeAt(s, p + 1) == InString;
      StringWalk(s, p + 1, body[1..]);
    }
  }

  lemma {:induction false} LineWalk(s: seq<byte>, p: nat, q: nat, search: bool)
    requires p <= q <= |s| && ModeAt(s, p) == InLine(search)
    requires forall k :: p <= k < q ==> !IsNL(s[k])
    ensures ModeAt(s, q) == InLine(search)
    ensures forall k :: p <= k < q ==> Out(s, k) == SPACE
    ensures Closes(InLine(search), s, p) == Closes(InLine(search), s, q)
    decreases q - p
  {
    if p < q {
      LineWalk(s, p + 1, q, search);
    }
  }

  lemma PaddedTail(body: seq<byte>, n: nat)
    requires n <= |body|
    requires forall k :: 0 <= k < n && body[k] == STAR ==> k + 1 < n && body[k + 1] == SPACE
    ensures StarsPadded(body) <==> StarsPadded(body[n..])
  {
    if StarsPadded(body) {
      forall k | 0 <= k < |body[n..]| && body[n..][k] == STAR ensures k + 1 < |body[n..]| && body[n..][k + 1] == SPACE {
        assert body[k + n] == STAR;
      }
    } else {
      assert StarsPadded(body[n..]) ==> StarsPadded(body) by { PaddedBack(body, n); }
    }
  }

  lemma PaddedBack(body: seq<byte>, n: nat)
    requires n <= |body|
    requires forall k :: 0 <= k < n && body[k] == STAR ==> k + 1 < n && body[k + 1] == SPACE
    ensures StarsPadded(body[n..]) ==> StarsPadded(body)
  {
    if StarsPadded(body[n..]) {
      forall k | 0 <= k < |body| && body[k] == STAR ensures k + 1 < |body| && body[k + 1] == SPACE {
        if k >= n {
          assert body[n..][k - n] == STAR;
        }
      }
    }
  }

  /** The cleaner is inside a block comment, with `body` and the closing mark ahead. */
  ghost predicate InBody(s: seq<byte>, p: nat, body: seq<byte>, search: bool) {
    && WfToken(BlockComment(body)) && At(s, p, body)
    && Has(s, p + |body|, STAR) && Has(s, p + |body| + 1, SLASH) && ModeAt(s, p) == InBlock(search)
  }

  lemma BodyTail(s: seq<byte>, p: nat, body: seq<byte>, n: nat)
    requires n <= |body| && At(s, p, body) && WfToken(BlockComment(body))
    requires (n == 1 && body[0] != STAR) || (n == 2 && body[0] == STAR && body[1] == SPACE)
    ensures At(s, p + n, body[n..]) && WfToken(BlockComment(body[n..]))
    ensures StarsPadded(body) <==> StarsPadded(body[n..])
  {
    PaddedTail(body, n);
    assert forall k :: 0 <= k < |body| - n ==> body[n..][k] == body[k + n];
  }

  /** A byte that is no star is blanked, and so is a star with the space behind it. */
  lemma BodyStep(s: seq<byte>, p: nat, body: seq<byte>, n: nat, search: bool)
    requires InBody(s, p, body, search) && n <= |body|
    requires (n == 1 && body[0] != STAR) || (n == 2 && body[0] == STAR && body[1] == SPACE)
    ensures InBody(s, p + n, body[n..], search) && (StarsPadded(body) <==> StarsPadded(body[n..]))
    ensures forall k :: p <= k < p + n ==> Out(s, k) == SPACE
    ensures Closes(InBlock(search), s, p) == Closes(InBlock(search), s, p + n)
  {
    assert s[p] == body[0] && (n == 2 ==> s[p + 1] == body[1]);
    BlockSteps(s, p, search);
    BodyTail(s, p, body, n);
  }

  /** A block comment whose stars are padded is blanked. */
  lemma {:induction false} BlockBlanked(s: seq<byte>, p: nat, body: seq<byte>, search: bool)
    requires InBody(s, p, body, search) && StarsPadded(body)
    ensures ModeAt(s, p + |body| + 2) == Code(search)
    ensures forall k :: p <= k < p + |body| + 2 ==> Out(s, k) == SPACE
    ensures Closes(InBlock(search), s, p) == Closes(Code(search), s, p + |body| + 2)
    decreases |body|
  {
    if body == [] {
      BlockSteps(s, p, search);
    } else {
      var n := if body[0] != STAR then 1 else 2;
      BodyStep(s, p, body, n, search);
      BlockBlanked(s, p + n, body[n..], search);
    }
  }

  /** Otherwise some byte of it stays. */
  lemma {:induction false} BlockKept(s: seq<byte>, p: nat, body: seq<byte>, search: bool)
    requires InBody(s, p, body, search) && !StarsPadded(body)
    ensures exists k :: p <= k < p + |body| + 2 && Out(s, k) != SPACE
    decreases |body|
  {
    if body[0] == STAR && (|body| == 1 || body[1] != SPACE) {
      StarKept(s, p, body, search);
    } else {
      var n := if body[0] != STAR then 1 else 2;
      BodyStep(s, p, body, n, search);
      BlockKept(s, p + n, body[n..], search);
    }
  }

  lemma StarKept(s: seq<byte>, p: nat, body: seq<byte>, search: bool)
    requires InBody(s, p, body, search) && body != [] && body[0] == STAR && (|body| == 1 || body[1] != SPACE)
    ensures Out(s, p + 1) != SPACE
  {
    BlockSteps(s, p, search);
    assert s[p + 1] == if |body| == 1 then STAR else body[1];
  }

  // ----- token by token

  /** `t` is written at position `p` of `s`. */
  ghost predicate TokenAt(s: seq<byte>, p: nat, t: Token) {
    && p + Len(t) <= |s|
    && match t
       case Str(body) => s[p] == QUOTE && At(s, p + 1, body) && s[p + 1 + |body|] == QUOTE
       case LineComment(body) => s[p] == SLASH && s[p + 1] == SLASH && At(s, p + 2, body)
       case BlockComment(body) =>
         && s[p] == SLASH && s[p + 1] == STAR && At(s, p + 2, body)
         && s[p + 2 + |body|] == STAR && s[p + 3 + |body|] == SLASH
       case Comma => s[p] == COMMA
       case Blank(b) => s[p] == b
       case Closer(b) => s[p] == b
       case Other(b) => s[p] == b
  }

  /** From `p` on, `s` is the text of `ts`. */
  ghost predicate TextAt(s: seq<byte>, p: nat, ts: seq<Token>)
    decreases |ts|
  {
    && p <= |s|
    && if ts == [] then p == |s| else TokenAt(s, p, ts[0]) && TextAt(s, p + Len(ts[0]), ts[1..])
  }

  lemma ShowsAt(s: seq<byte>, p: nat, t: Token)
    ensures |Show(t)| == Len(t)
    ensures TokenAt(s, p, t) <==> p + Len(t) <= |s| && s[p..p + Len(t)] == Show(t)
  {
    var x := Show(t);
    if p + Len(t) <= |s| {
      var y := s[p..p + Len(t)];
      assert forall k :: p <= k < p + Len(t) ==> s[k] == y[k - p];
      if TokenAt(s, p, t) {
        assert forall k :: 0 <= k < Len(t) ==> y[k] == x[k];
      }
      if y == x {
        assert forall k :: p <= k < p + Len(t) ==> s[k] == x[k - p];
        assert TokenAt(s, p, t);
      }
    }
  }

  lemma {:induction false} RendersAt(s: seq<byte>, p: nat, ts: seq<Token>)
    requires p <= |s|
    ensures TextAt(s, p, ts) <==> s[p..] == Render(ts)
    decreases |ts|
  {
    if ts != [] {
      var q := p + Len(ts[0]);
      ShowsAt(s, p, ts[0]);
      var x, y := Show(ts[0]), Render(ts[1..]);
      if q <= |s| {
        RendersAt(s, q, ts[1..]);
        assert s[p..] == s[p..q] + s[q..];
        assert s[p..][..Len(ts[0])] == s[p..q] && s[p..][Len(ts[0])..] == s[q..];
        assert s[p..] == x + y <==> s[p..q] == x && s[q..] == y by {
          if s[p..] == x + y {
            assert s[p..q] == (x + y)[..|x|] == x && s[q..] == (x + y)[|x|..] == y;
          }
        }
      } else {
        assert |x + y| > |s[p..]|;
      }
    }
  }

  /** The cleaner reaches the text of `ts` at `p`, between two tokens. */
  ghost predicate Reaches(s: seq<byte>, p: nat, ts: seq<Token>) {
    && WellFormed(ts) && TextAt(s, p, ts)
    && (ModeAt(s, p).Code? || (ModeAt(s, p).InLine? && (ts == [] || StartsWithNewline(ts))))
  }

  predicate IsComment(t: Token) { t.LineComment? || t.BlockComment? }

  /** The effect of one token between `p` and `q`, whatever follows it. */
  ghost predicate Passes(s: seq<byte>, p: nat, t: Token, q: nat)
    requires p <= q <= |s|
  {
    var m, m' := ModeAt(s, p), ModeAt(s, q);
    && (m'.Code? || (t.LineComment? && m'.InLine?))
    && (m.Code? || m.InLine? ==>
          && (IsGap(t) ==> m'.search == m.search)
          && (t.Comma? ==> m' == Code(true))
          && (m.search ==> Closes(m, s, p) == (t.Closer? || (IsGap(t) && Closes(m', s, q)))))
    && forall k :: p <= k < q ==>
         Out(s, k) == if IsComment(t) || (t.Comma? && Closes(Code(true), s, q)) then SPACE else s[k]
  }

  lemma StringPasses(s: seq<byte>, p: nat, t: Token)
    requires t.Str? && WfToken(t) && TokenAt(s, p, t) && ModeAt(s, p).Code?
    ensures Passes(s, p, t, p + Len(t))
  {
    assert ModeAt(s, p + 1) == InString;
    StringWalk(s, p + 1, t.body);
  }

  lemma LinePasses(s: seq<byte>, p: nat, t: Token)
    requires t.LineComment? && WfToken(t) && TokenAt(s, p, t) && ModeAt(s, p).Code?
    ensures Passes(s, p, t, p + Len(t))
  {
    assert ModeAt(s, p + 1) == InLine(ModeAt(s, p).search);
    LineWalk(s, p + 1, p + Len(t), ModeAt(s, p).search);
  }

  lemma OpensComment(s: seq<byte>, p: nat, t: Token)
    requires t.BlockComment? && TokenAt(s, p, t) && ModeAt(s, p).Code?
    ensures var m := ModeAt(s, p);
            && ModeAt(s, p + 2) == InBlock(m.search)
            && Out(s, p) == SPACE && Out(s, p + 1) == SPACE
            && Closes(m, s, p) == Closes(InBlock(m.search), s, p + 2)
  {
    assert ModeAt(s, p + 1) == OpensBlock(ModeAt(s, p).search);
  }

  lemma BlockPasses(s: seq<byte>, p: nat, t: Token)
    requires t.BlockComment? && WfToken(t) && StarsPadded(t.body) && TokenAt(s, p, t) && ModeAt(s, p).Code?
    ensures Passes(s, p, t, p + Len(t))
  {
    OpensComment(s, p, t);
    BlockBlanked(s, p + 2, t.body, ModeAt(s, p).search);
  }

  lemma BytePasses(s: seq<byte>, p: nat, t: Token)
    requires Len(t) == 1 && WfToken(t) && TokenAt(s, p, t)
    requires ModeAt(s, p).Code? || (ModeAt(s, p).InLine? && t.Blank? && IsNL(t.b))
    ensures Passes(s, p, t, p + 1)
  {
  }

  /** One token is passed. */
  lemma TokenWalk(s: seq<byte>, p: nat, ts: seq<Token>)
    requires ts != [] && Reaches(s, p, ts) && (ts[0].BlockComment? ==> StarsPadded(ts[0].body))
    ensures var q := p + Len(ts[0]);
            q <= |s| && Reaches(s, q, ts[1..]) && Passes(s, p, ts[0], q)
  {
    var t := ts[0];
    match t
    case Str(_) => StringPasses(s, p, t);
    case LineComment(_) => LinePasses(s, p, t);
    case BlockComment(_) => BlockPasses(s, p, t);
    case _ => BytePasses(s, p, t);
  }

  /** The search after a comma answers the question of the token stream. */
  lemma {:induction false} SearchMeetsTokens(s: seq<byte>, p: nat, ts: seq<Token>)
    requires Reaches(s, p, ts) && ModeAt(s, p).search && AllPadded(ts)
    ensures Closes(ModeAt(s, p), s, p) == NextCloses(ts)
    decreases |ts|
  {
    if ts != [] {
      TokenWalk(s, p, ts);
      if IsGap(ts[0]) {
        SearchMeetsTokens(s, p + Len(ts[0]), ts[1..]);
      }
    }
  }

  /** `c` holds, at the place of `t`, the bytes the cleaned stream asks for. */
  ghost predicate CleanAt(c: seq<byte>, p: nat, t: Token, closes: bool) {
    && p + Len(t) <= |c|
    && if IsComment(t) || (t.Comma? && closes) then forall k :: p <= k < p + Len(t) ==> c[k] == SPACE
       else TokenAt(c, p, t)
  }

  lemma BlankAhead(c: seq<byte>, p: nat, n: nat, ts: seq<Token>)
    requires n > 0
    ensures TextAt(c, p, Blanks(n) + ts) <==> p < |c| && c[p] == SPACE && TextAt(c, p + 1, Blanks(n - 1) + ts)
  {
    assert (Blanks(n) + ts)[1..] == Blanks(n - 1) + ts;
  }

  lemma {:induction false} BlanksAt(c: seq<byte>, p: nat, n: nat, ts: seq<Token>)
    ensures TextAt(c, p, Blanks(n) + ts) <==>
            p + n <= |c| && (forall k :: p <= k < p + n ==> c[k] == SPACE) && TextAt(c, p + n, ts)
    decreases n
  {
    if n == 0 {
      assert Blanks(0) + ts == ts;
    } else {
      BlanksAt(c, p + 1, n - 1, ts);
      BlankAhead(c, p, n, ts);
    }
  }

  lemma HeadAt(c: seq<byte>, p: nat, t: Token, ts: seq<Token>)
    ensures TextAt(c, p, [t] + ts) <==> TokenAt(c, p, t) && TextAt(c, p + Len(t), ts)
  {
    assert ([t] + ts)[1..] == ts;
  }

  lemma CleanHead(c: seq<byte>, p: nat, ts: seq<Token>)
    requires ts != []
    ensures TextAt(c, p, Clean(ts)) <==>
            CleanAt(c, p, ts[0], NextCloses(ts[1..])) && TextAt(c, p + Len(ts[0]), Clean(ts[1..]))
  {
    var t, closes, rest := ts[0], NextCloses(ts[1..]), Clean(ts[1..]);
    if IsComment(t) {
      BlanksAt(c, p, Len(t), rest);
    } else {
      var u := if t.Comma? && closes then Blank(SPACE) else t;
      assert Clean(ts) == [u] + rest;
      HeadAt(c, p, u, rest);
    }
  }

  /** From `p` on, `c` is the text of the cleaned stream. */
  ghost predicate CleanTextAt(c: seq<byte>, p: nat, ts: seq<Token>)
    decreases |ts|
  {
    && p <= |c|
    && if ts == [] then p == |c|
       else CleanAt(c, p, ts[0], NextCloses(ts[1..])) && CleanTextAt(c, p + Len(ts[0]), ts[1..])
  }

  lemma {:induction false} CleanTextIsText(c: seq<byte>, p: nat, ts: seq<Token>)
    ensures CleanTextAt(c, p, ts) <==> TextAt(c, p, Clean(ts))
    decreases |ts|
  {
    if ts != [] {
      CleanTextIsText(c, p + Len(ts[0]), ts[1..]);
      CleanHead(c, p, ts);
    }
  }

  lemma PassedIsClean(s: seq<byte>, p: nat, t: Token, closes: bool)
    requires TokenAt(s, p, t) && Passes(s, p, t, p + Len(t))
    requires t.Comma? ==> Closes(Code(true), s, p + 1) == closes
    ensures CleanAt(Scan(s), p, t, closes)
  {
    var c, q := Scan(s), p + Len(t);
    assert forall k :: p <= k < q ==> c[k] == Out(s, k);
    if !IsComment(t) && !(t.Comma? && closes) {
      assert forall k :: p <= k < q ==> c[k] == s[k];
    }
  }

  lemma CleansToken(s: seq<byte>, p: nat, ts: seq<Token>)
    requires ts != [] && Reaches(s, p, ts) && AllPadded(ts)
    ensures CleanAt(Scan(s), p, ts[0], NextCloses(ts[1..])) && Reaches(s, p + Len(ts[0]), ts[1..])
  {
    var q := p + Len(ts[0]);
    TokenWalk(s, p, ts);
    if ts[0].Comma? {
      SearchMeetsTokens(s, q, ts[1..]);
    }
    PassedIsClean(s, p, ts[0], NextCloses(ts[1..]));
  }

  lemma {:induction false} CleansFrom(s: seq<byte>, p: nat, ts: seq<Token>)
    requires Reaches(s, p, ts) && AllPadded(ts)
    ensures CleanTextAt(Scan(s), p, ts)
    decreases |ts|
  {
    if ts != [] {
      CleansToken(s, p, ts);
      CleansFrom(s, p + Len(ts[0]), ts[1..]);
    }
  }

  lemma KeepsThisComment(s: seq<byte>, p: nat, t: Token)
    requires t.BlockComment? && WfToken(t) && !StarsPadded(t.body) && TokenAt(s, p, t) && ModeAt(s, p).Code?
    ensures !CleanAt(Scan(s), p, t, false) && !CleanAt(Scan(s), p, t, true)
  {
    OpensComment(s, p, t);
    BlockKept(s, p + 2, t.body, ModeAt(s, p).search);
    var k :| p + 2 <= k < p + 2 + |t.body| + 2 && Out(s, k) != SPACE;
    assert Scan(s)[k] == Out(s, k);
  }

  lemma {:induction false} KeepsSomeComment(s: seq<byte>, p: nat, ts: seq<Token>)
    requires Reaches(s, p, ts) && !AllPadded(ts)
    ensures !CleanTextAt(Scan(s), p, ts)
    decreases |ts|
  {
    var t := ts[0];
    if t.BlockComment? && !StarsPadded(t.body) {
      KeepsThisComment(s, p, t);
    } else {
      TokenWalk(s, p, ts);
      var k :| 0 <= k < |ts| && ts[k].BlockComment? && !StarsPadded(ts[k].body);
      assert ts[1..][k - 1] == ts[k];
      KeepsSomeComment(s, p + Len(t), ts[1..]);
    }
  }

  // ----- the theorems

  /** The cleaner turns the text of a well-formed token stream into the text of the cleaned
      stream exactly when every star inside a block comment is followed by a space. */
  lemma ScanCleansTokens(ts: seq<Token>)
    requires WellFormed(ts)
    ensures Scan(Render(ts)) == Render(Clean(ts)) <==> AllPadded(ts)
  {
    var s := Render(ts);
    assert s[0..] == s && Scan(s)[0..] == Scan(s);
    RendersAt(s, 0, ts);
    RendersAt(Scan(s), 0, Clean(ts));
    CleanTextIsText(Scan(s), 0, ts);
    if AllPadded(ts) {
      CleansFrom(s, 0, ts);
    } else {
      KeepsSomeComment(s, 0, ts);
    }
  }

  /** A star that neither closes the comment nor stands before a space saves the next byte. */
  lemma DocumentationCommentIsKept()
    ensures var ts := [BlockComment([STAR, SPACE, STAR])];
            WellFormed(ts) && Scan(Render(ts)) != Render(Clean(ts))
  {
    var body: seq<byte> := [STAR, SPACE, STAR];
    var ts := [BlockComment(body)];
    assert ts[0].BlockComment? && ts[0].body[2] == STAR;
    ScanCleansTokens(ts);
  }

  predicate HasComment(ts: seq<Token>) {
    exists k :: 0 <= k < |ts| && IsComment(ts[k])
  }

  predicate HasTrailingComma(ts: seq<Token>) {
    ts != [] && ((ts[0].Comma? && NextCloses(ts[1..])) || HasTrailingComma(ts[1..]))
  }

  lemma {:induction false} BlanksAreGaps(n: nat, ts: seq<Token>)
    ensures NextCloses(Blanks(n) + ts) == NextCloses(ts)
    ensures HasTrailingComma(Blanks(n) + ts) == HasTrailingComma(ts)
    ensures HasComment(Blanks(n) + ts) == HasComment(ts)
    ensures WellFormed(ts) ==> WellFormed(Blanks(n) + ts)
  {
    var all := Blanks(n) + ts;
    if n == 0 {
      assert all == ts;
    } else {
      BlanksAreGaps(n - 1, ts);
      var tail := Blanks(n - 1) + ts;
      assert all[1..] == tail;
      HasCommentTail(all);
    }
  }

  lemma HasCommentTail(ts: seq<Token>)
    requires ts != []
    ensures HasComment(ts) == (IsComment(ts[0]) || HasComment(ts[1..]))
  {
    assert forall k :: 0 < k < |ts| ==> ts[k] == ts[1..][k - 1];
    assert forall k :: 0 <= k < |ts[1..]| ==> ts[1..][k] == ts[k + 1];
  }

  lemma {:induction false} ClosesOrTrails(ts: seq<Token>)
    ensures !(NextCloses(ts) && NextIsTrailingComma(ts))
  {
    if ts != [] {
      ClosesOrTrails(ts[1..]);
    }
  }

  /** Cleaning leaves no comment, keeps the stream well formed, and leaves a trailing comma
      exactly where a comma stood before a trailing one. */
  lemma {:induction false} CleanStream(ts: seq<Token>)
    requires WellFormed(ts)
    ensures WellFormed(Clean(ts)) && !HasComment(Clean(ts))
    ensures NextCloses(Clean(ts)) == (NextCloses(ts) || NextIsTrailingComma(ts))
    ensures HasTrailingComma(Clean(ts)) == HasDoubledComma(ts)
    decreases |ts|
  {
    if ts != [] {
      var t, rest := ts[0], Clean(ts[1..]);
      CleanStream(ts[1..]);
      ClosesOrTrails(ts[1..]);
      if IsComment(t) {
        BlanksAreGaps(Len(t), rest);
      } else {
        var u := if t.Comma? && NextCloses(ts[1..]) then Blank(SPACE) else t;
        assert Clean(ts) == [u] + rest && ([u] + rest)[1..] == rest;
        HasCommentTail([u] + rest);
      }
    }
  }

  lemma {:induction false} RenderCleanSame(ts: seq<Token>)
    requires !HasComment(ts)
    ensures Render(Clean(ts)) == Render(ts) <==> !HasTrailingComma(ts)
    decreases |ts|
  {
    if ts != [] {
      var t, rest, kept := ts[0], ts[1..], Clean(ts[1..]);
      HasCommentTail(ts);
      RenderCleanSame(rest);
      var u := if t.Comma? && NextCloses(rest) then Blank(SPACE) else t;
      assert Clean(ts) == [u] + kept && ([u] + kept)[1..] == kept;
      var x, y, c, d := Show(u), Show(t), Render(kept), Render(rest);
      assert Render(Clean(ts)) == x + c && Render(ts) == y + d;
      assert |x| == |y|;
      if x + c == y + d {
        assert x == (x + c)[..|x|] == (y + d)[..|y|] == y;
        assert c == (x + c)[|x|..] == (y + d)[|y|..] == d;
      }
    }
  }

  /** Cleaning twice is cleaning once exactly when no comma stands before a trailing comma;
      then the result has no comment and no trailing comma. */
  lemma ScanIsIdempotent(ts: seq<Token>)
    requires WellFormed(ts) && AllPadded(ts)
    ensures Scan(Scan(Render(ts))) == Scan(Render(ts)) <==> !HasDoubledComma(ts)
    ensures !HasComment(Clean(ts))
    ensures HasTrailingComma(Clean(ts)) <==> HasDoubledComma(ts)
  {
    var us := Clean(ts);
    ScanCleansTokens(ts);
    CleanStream(ts);
    assert forall k :: 0 <= k < |us| ==> !IsComment(us[k]);
    ScanCleansTokens(us);
    RenderCleanSame(us);
  }

  /** The second cleaning removes the comma before a trailing comma. */
  lemma DoubledCommaIsCleanedLater()
    ensures var ts := [Comma, Comma, Closer(RBRACE)];
            WellFormed(ts) && Scan(Scan(Render(ts))) != Scan(Render(ts))
  {
    var ts := [Comma, Comma, Closer(RBRACE)];
    var last := [Closer(RBRACE)];
    assert ts[1..] == [Comma, Closer(RBRACE)] && ts[1..][1..] == last && last[1..] == [];
    assert WellFormed(last) && NextCloses(last) && WellFormed(ts[1..]) && NextIsTrailingComma(ts[1..]);
    ScanIsIdempotent(ts);
  }
}
