/** The in-place cleaner of common/json5/json5.go: it blanks comments and trailing
    commas inside one byte buffer. `Scan` is the meaning of the cleaner on every byte
    sequence, as a machine that reads one byte at a time; the methods are the in-place
    loops proved against it. Module Json5Tokens says what `Scan` does to JSON5 text. */
module Json5 {
  import opened Common

  const TAB: byte := 9
  const LF: byte := 10
  const CR: byte := 13
  const SPACE: byte := 32
  const QUOTE: byte := 34
  const STAR: byte := 42
  const COMMA: byte := 44
  const SLASH: byte := 47
  const BACKSLASH: byte := 92
  const RBRACKET: byte := 93
  const RBRACE: byte := 125

  predicate IsNL(c: byte) { c == LF || c == CR }

  predicate IsWS(c: byte) { c == SPACE || c == TAB || IsNL(c) }

  predicate IsCloser(c: byte) { c == RBRACE || c == RBRACKET }

  /** Where the cleaner stands. `search` is true between a comma and the first byte that
      is neither white space nor in a comment. */
  datatype Mode =
    | Code(search: bool)
    | InString
    | Escaped                      // after a backslash in a string
    | InLine(search: bool)
    | OpensBlock(search: bool)     // on the star that opens a block comment
    | InBlock(search: bool)
    | SteppedOver(search: bool)    // after a star that does not close: the byte is kept
    | ClosesBlock(search: bool)    // on the slash that closes a block comment
    | SlashPassed                  // in a search, after a slash that opens no comment

  predicate Has(s: seq<byte>, i: nat, c: byte) {
    i < |s| && s[i] == c
  }

  function Next(m: Mode, s: seq<byte>, i: nat): Mode
    requires i < |s|
  {
    var c := s[i];
    match m
    case Code(search) =>
      if c == SLASH then
        if Has(s, i + 1, SLASH) then InLine(search)
        else if Has(s, i + 1, STAR) then OpensBlock(search)
        else if search then SlashPassed
        else Code(false)
      else if c == QUOTE then InString
      else Code(c == COMMA || (search && IsWS(c)))
    case InString => if c == QUOTE then Code(false) else if c == BACKSLASH then Escaped else InString
    case Escaped => InString
    case InLine(search) => if IsNL(c) then Code(search) else m
    case OpensBlock(search) => InBlock(search)
    case InBlock(search) =>
      if c != STAR then m else if Has(s, i + 1, SLASH) then ClosesBlock(search) else SteppedOver(search)
    case SteppedOver(search) => InBlock(search)
    case ClosesBlock(search) => Code(search)
    case SlashPassed => Code(true)
  }

  /** Whether a search that stands at `i` in mode `m` ends on a closing bracket. */
  predicate Closes(m: Mode, s: seq<byte>, i: nat)
    decreases |s| - i
  {
    && i < |s|
    && if m == Code(true) && !IsWS(s[i]) && s[i] != SLASH then IsCloser(s[i])
       else Closes(Next(m, s, i), s, i + 1)
  }

  /** What the byte at `i` becomes. */
  function Emit(m: Mode, s: seq<byte>, i: nat): byte
    requires i < |s|
  {
    match m
    case Code(_) =>
      if s[i] == SLASH && (Has(s, i + 1, SLASH) || Has(s, i + 1, STAR)) then SPACE
      else if s[i] == COMMA && Closes(Code(true), s, i + 1) then SPACE
      else s[i]
    case InLine(_) => if IsNL(s[i]) then s[i] else SPACE
    case OpensBlock(_) => SPACE
    case InBlock(_) => SPACE
    case ClosesBlock(_) => SPACE
    case _ => s[i]
  }

  function ModeAt(s: seq<byte>, i: nat): Mode
    requires i <= |s|
  {
    if i == 0 then Code(false) else Next(ModeAt(s, i - 1), s, i - 1)
  }

  function Out(s: seq<byte>, i: nat): byte
    requires i < |s|
  {
    Emit(ModeAt(s, i), s, i)
  }

  /** The cleaned text, for every byte sequence. */
  function Scan(s: seq<byte>): (t: seq<byte>)
    ensures |t| == |s|
    ensures forall k :: 0 <= k < |s| ==> t[k] == s[k] || t[k] == SPACE
  {
    seq(|s|, k requires 0 <= k < |s| => Out(s, k))
  }

  // ----- the in-place loops; their cursor may pass the end of the buffer by one

  /** The bytes of `cur` in `[lo, hi)` are final, the later ones still those of `s`. */
  ghost predicate Final(s: seq<byte>, cur: seq<byte>, lo: nat, hi: nat) {
    && |cur| == |s|
    && (forall k {:trigger Out(s, k)} :: lo <= k < hi && k < |s| ==> cur[k] == Out(s, k))
    && (forall k :: hi <= k < |s| ==> cur[k] == s[k])
  }

  /** Where `ConsumeComment`, called for the slash at `at - 1`, leaves its caller. A slash
      that opens no comment leaves the caller on the next byte. A comment leaves it on its
      last byte, the newline or the blanked closing slash, or at or past the end. */
  ghost predicate AfterSlash(s: seq<byte>, cur: seq<byte>, at: nat, search: bool, i: nat)
    requires 1 <= at <= |s|
  {
    if i < |s| && i == at && ModeAt(s, i) in {Code(false), SlashPassed} then
      Final(s, cur, at - 1, i) && (search ==> ModeAt(s, i) == SlashPassed)
    else
      && at <= i <= |s| + 1
      && Final(s, cur, at - 1, i + 1)
      && (i < |s| ==> IsWS(cur[i]) && ModeAt(s, i + 1) == Code(search))
      && (search ==> Closes(Code(true), s, at - 1) == (i < |s| && Closes(Code(true), s, i + 1)))
  }

  /** The byte after a slash in code decides what follows. */
  lemma SlashMeets(s: seq<byte>, at: nat, search: bool)
    requires 1 <= at <= |s| && s[at - 1] == SLASH && ModeAt(s, at - 1) == Code(search)
    ensures ModeAt(s, at) == if Has(s, at, SLASH) then InLine(search)
                             else if Has(s, at, STAR) then OpensBlock(search)
                             else if search then SlashPassed else Code(false)
    ensures Out(s, at - 1) == if Has(s, at, SLASH) || Has(s, at, STAR) then SPACE else SLASH
    ensures search ==> Closes(Code(true), s, at - 1) == Closes(ModeAt(s, at), s, at)
  {
  }

  /** One step inside a block comment, or two at a star. */
  lemma BlockSteps(s: seq<byte>, p: nat, search: bool)
    requires p < |s| && ModeAt(s, p) == InBlock(search)
    ensures Out(s, p) == SPACE
    ensures s[p] != STAR ==>
              ModeAt(s, p + 1) == InBlock(search) && Closes(InBlock(search), s, p) == Closes(InBlock(search), s, p + 1)
    ensures s[p] == STAR && p + 1 < |s| ==>
              var closing := s[p + 1] == SLASH;
              var m := if closing then Code(search) else InBlock(search);
              && ModeAt(s, p + 1) == (if closing then ClosesBlock(search) else SteppedOver(search))
              && ModeAt(s, p + 2) == m
              && Out(s, p + 1) == (if closing then SPACE else s[p + 1])
              && Closes(InBlock(search), s, p) == Closes(m, s, p + 2)
    ensures s[p] == STAR && p + 1 == |s| ==> !Closes(InBlock(search), s, p)
  {
  }

  method BlankLine(s: array<byte>, at: nat, ghost orig: seq<byte>, ghost search: bool) returns (i: nat)
    requires at <= s.Length == |orig| && ModeAt(orig, at) == InLine(search)
    requires Final(orig, s[..], at, at)
    modifies s
    ensures forall k :: 0 <= k < at ==> s[k] == old(s[k])
    ensures at <= i <= s.Length && ModeAt(orig, i) == InLine(search)
    ensures Final(orig, s[..], at, i) && (i < s.Length ==> IsNL(s[i]))
    ensures Closes(InLine(search), orig, i) == Closes(InLine(search), orig, at)
  {
    i := at;
    while i < s.Length && !IsNL(s[i])
      invariant at <= i <= s.Length && ModeAt(orig, i) == InLine(search)
      invariant forall k :: 0 <= k < at ==> s[k] == old(s[k])
      invariant Final(orig, s[..], at, i)
      invariant Closes(InLine(search), orig, i) == Closes(InLine(search), orig, at)
    {
      s[i] := SPACE;
      i := i + 1;
    }
  }

  method BlankBlock(s: array<byte>, at: nat, ghost orig: seq<byte>, ghost search: bool) returns (i: nat)
    requires at < s.Length == |orig| && ModeAt(orig, at) == OpensBlock(search)
    requires s[at] == SPACE && Final(orig, s[..], at, at + 1)
    modifies s
    ensures forall k :: 0 <= k < at ==> s[k] == old(s[k])
    ensures at < i <= s.Length + 1 && Final(orig, s[..], at, i + 1)
    ensures i < s.Length ==> s[i] == SPACE && ModeAt(orig, i + 1) == Code(search)
    ensures Closes(OpensBlock(search), orig, at) == (i < s.Length && Closes(Code(search), orig, i + 1))
  {
    i := at;
    ghost var closes := Closes(OpensBlock(search), orig, at);
    while i < s.Length
      invariant at <= i <= s.Length + 1
      invariant at < i <= s.Length ==> ModeAt(orig, i) == InBlock(search)
      invariant forall k :: 0 <= k < at ==> s[k] == old(s[k])
      invariant Final(orig, s[..], at, if i == at then i + 1 else i)
      invariant i == at ==> s[i] == SPACE
      invariant i > at ==> closes == (i <= s.Length && Closes(InBlock(search), orig, i))
    {
      if i > at {
        BlockSteps(orig, i, search);
      }
      if s[i] != STAR {
        s[i] := SPACE;
      } else {
        s[i] := SPACE;
        i := i + 1;
        if i < s.Length {
          if s[i] == SLASH {
            s[i] := SPACE;
            break;
          }
        }
      }
      i := i + 1;
    }
  }

  method ConsumeComment(s: array<byte>, at: nat, ghost orig: seq<byte>, ghost search: bool) returns (i: nat)
    requires 1 <= at <= s.Length == |orig|
    requires orig[at - 1] == SLASH && ModeAt(orig, at - 1) == Code(search)
    requires Final(orig, s[..], at - 1, at - 1)
    modifies s
    ensures forall k :: 0 <= k < at - 1 ==> s[k] == old(s[k])
    ensures AfterSlash(orig, s[..], at, search, i)
  {
    i := at;
    SlashMeets(orig, at, search);
    if i < s.Length && s[i] == SLASH {
      s[i - 1] := SPACE;
      i := BlankLine(s, i, orig, search);
    }
    if i < s.Length && s[i] == STAR {
      s[i - 1] := SPACE;
      s[i] := SPACE;
      i := BlankBlock(s, i, orig, search);
    }
  }

  method SkipString(s: array<byte>, at: nat, ghost orig: seq<byte>) returns (i: nat)
    requires at <= s.Length == |orig| && ModeAt(orig, at) == InString
    requires Final(orig, s[..], 0, at)
    ensures at <= i <= s.Length + 1
    ensures Final(orig, s[..], 0, i) && (i < s.Length ==> ModeAt(orig, i) == Code(false))
  {
    i := at;
    while i < s.Length
      invariant at <= i <= s.Length + 1
      invariant i <= s.Length ==> ModeAt(orig, i) == InString
      invariant Final(orig, s[..], 0, i)
    {
      if s[i] == QUOTE {
        i := i + 1;
        break;
      } else if s[i] == BACKSLASH {
        i := i + 1;
        assert i < s.Length ==> ModeAt(orig, i) == Escaped && Out(orig, i) == s[i];
      }
      i := i + 1;
    }
  }

  /** The search after the comma at `j`, which also blanks that comma. */
  method SearchAfterComma(s: array<byte>, j: nat, ghost orig: seq<byte>) returns (i: nat)
    requires j < s.Length == |orig| && s[j] == COMMA && ModeAt(orig, j) in {Code(false), Code(true)}
    requires Final(orig, s[..], 0, j)
    modifies s
    ensures j < i <= s.Length + 2
    ensures Final(orig, s[..], 0, i) && (i < s.Length ==> ModeAt(orig, i) == Code(true) && !IsWS(s[i]) && s[i] != SLASH)
  {
    i := j;
    ghost var closes := Closes(Code(true), orig, j + 1);
    while true
      invariant j <= i <= s.Length + 1
      invariant Final(orig, s[..], j + 1, i + 1) && s[j] == COMMA
      invariant forall k :: 0 <= k < j ==> s[k] == Out(orig, k)
      invariant i < s.Length ==> ModeAt(orig, i + 1) == Code(true)
      invariant closes == (i < s.Length && Closes(Code(true), orig, i + 1))
      decreases s.Length + 2 - i
    {
      i := i + 1;
      if i >= s.Length {
        break;
      } else if s[i] == RBRACE || s[i] == RBRACKET {
        s[j] := SPACE;
        break;
      } else if s[i] == SLASH {
        i := ConsumeComment(s, i + 1, orig, true);
      } else if !IsWS(s[i]) {
        break;
      }
    }
  }

  /** The top of the main loop: the byte at the cursor is code, or the last byte of a comment. */
  ghost predicate AtTop(s: seq<byte>, cur: seq<byte>, i: nat) {
    if i >= |s| then Final(s, cur, 0, i)
    else if ModeAt(s, i) == Code(false) then Final(s, cur, 0, i)
    else if ModeAt(s, i) == Code(true) then Final(s, cur, 0, i) && !IsWS(s[i]) && s[i] != SLASH
    else Final(s, cur, 0, i + 1) && IsWS(cur[i]) && ModeAt(s, i + 1) == Code(false)
  }

  lemma TopSteps(s: seq<byte>, cur: seq<byte>, i: nat)
    requires |cur| == |s| && i < |s| && AtTop(s, cur, i)
    ensures cur[i] == QUOTE ==> ModeAt(s, i + 1) == InString && Final(s, cur, 0, i + 1)
    ensures cur[i] == SLASH ==> s[i] == SLASH && ModeAt(s, i) == Code(false) && Final(s, cur, 0, i)
    ensures cur[i] == COMMA ==> ModeAt(s, i) in {Code(false), Code(true)} && Final(s, cur, 0, i)
    ensures cur[i] != QUOTE && cur[i] != SLASH && cur[i] != COMMA ==> AtTop(s, cur, i + 1)
  {
  }

  lemma SlashToTop(s: seq<byte>, cur: seq<byte>, at: nat, i: nat)
    requires 1 <= at <= |s| == |cur| && s[at - 1] == SLASH && ModeAt(s, at - 1) == Code(false)
    requires AfterSlash(s, cur, at, false, i)
    requires forall k :: 0 <= k < at - 1 ==> cur[k] == Out(s, k)
    ensures AtTop(s, cur, i)
  {
    assert at <= i < |s| ==> Out(s, i) == Emit(ModeAt(s, i), s, i);
  }

  /** The cleaner: on every byte sequence it ends, stays inside the buffer and computes `Scan`. */
  method Prep(s: array<byte>)
    modifies s
    ensures s[..] == Scan(old(s[..]))
  {
    ghost var orig := s[..];
    var i := 0;
    while i < s.Length
      invariant 0 <= i <= s.Length + 2
      invariant AtTop(orig, s[..], i)
      decreases s.Length - i
    {
      TopSteps(orig, s[..], i);
      if s[i] == QUOTE {
        i := SkipString(s, i + 1, orig);
      } else if s[i] == SLASH {
        ghost var at := i + 1;
        i := ConsumeComment(s, i + 1, orig, false);
        SlashToTop(orig, s[..], at, i);
      } else if s[i] == COMMA {
        i := SearchAfterComma(s, i, orig);
      } else {
        i := i + 1;
      }
    }
  }
}
