/** The reader of common/json5/json5.go: it cleans the whole source at the first read and
    then hands the result out in pieces. */
module Json5Reader {
  import opened Common
  import opened Json5

  method CleanCopy(source: seq<byte>) returns (s: array<byte>)
    ensures fresh(s) && s[..] == Scan(source)
  {
    s := new byte[|source|](i requires 0 <= i < |source| => source[i]);
    assert s[..] == source;
    Prep(s);
  }

  /** `br` is null until the source was copied; then its bytes from `pos` on are still to be
      handed out. */
  class TrimNodeReader {
    var br: array?<byte>
    var pos: nat

    ghost predicate Valid()
      reads this
    {
      br != null ==> pos <= br.Length
    }

    ghost function Left(): seq<byte>
      requires br != null && Valid()
      reads this, br
    {
      br[pos..]
    }

    constructor ()
      ensures Valid() && br == null
    {
      br, pos := null, 0;
    }

    /** The front of what is left moves into `p`. */
    method CopyFrom(p: array<byte>) returns (n: nat)
      requires Valid() && br != null && p != br
      modifies this`pos, p
      ensures Valid() && n <= p.Length && (n == p.Length || Left() == [])
      ensures p[..n] + Left() == old(Left()) && p[n..] == old(p[n..])
    {
      ghost var before := p[..];
      n := if p.Length < br.Length - pos then p.Length else br.Length - pos;
      forall k | 0 <= k < n {
        p[k] := br[pos + k];
      }
      assert p[..n] == br[pos..pos + n] && p[n..] == before[n..];
      assert br[pos..] == br[pos..pos + n] + br[pos + n..];
      pos := pos + n;
    }

    /** `source` and `fails` say what copying the underlying reader yields, if it comes to
        that. A failed copy leaves nothing behind, so the next read copies what is left. */
    method Read(p: array<byte>, source: seq<byte>, fails: bool) returns (n: nat, ok: bool, eof: bool)
      requires Valid() && p != br
      modifies this, p
      ensures Valid() && (old(br) != null ==> br == old(br)) && (old(br) == null && br != null ==> fresh(br))
      ensures !ok <==> old(br) == null && fails
      ensures !ok ==> br == null && n == 0 && p[..] == old(p[..])
      ensures ok ==> br != null && n <= p.Length
      ensures ok ==> p[..n] + Left() == if old(br) == null then Scan(source) else old(br[pos..])
      ensures ok ==> p[n..] == old(p[n..]) && (n == p.Length || Left() == [])
      ensures ok ==> (eof <==> n == 0 && Left() == [])
    {
      if br == null {
        if fails {
          return 0, false, false;
        }
        br := CleanCopy(source);
        pos := 0;
        assert br[pos..] == br[..];
      }
      if pos >= br.Length {
        return 0, true, true;
      }
      n := CopyFrom(p);
      return n, true, false;
    }

    /** Reading to the end with any buffer yields the cleaned text, each byte once. */
    method ReadAll(size: nat, source: seq<byte>) returns (text: seq<byte>)
      requires Valid() && br == null && size > 0
      modifies this
      ensures text == Scan(source)
    {
      text := [];
      var p := new byte[size];
      while true
        invariant Valid() && p != br && fresh(p)
        invariant br == null ==> text == []
        invariant br != null ==> fresh(br) && text + Left() == Scan(source)
        decreases br == null, if br == null then |source| + 1 else br.Length - pos
      {
        var n, ok, eof := Read(p, source, false);
        assert text + (p[..n] + Left()) == (text + p[..n]) + Left();
        text := text + p[..n];
        assert text + Left() == Scan(source);
        if eof {
          return;
        }
      }
    }
  }
}
