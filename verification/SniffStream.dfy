/** Sniffing a stream without disturbing it (cachedReader and sniffer in
    core/xray/app/dispatcher/default.go, CounterReader in countreader.go). Buffers are byte
    sequences; how much the peer has sent, how long a read takes and whether it fails are
    inputs of each read. */
module SniffStream {
  import opened Common
  import opened Sniff

  /** What a read meets: how much there is to read, and whether it comes with an error. */
  datatype Arrival = Arrival(chunk: nat, fails: bool)

  function Min(a: nat, b: nat): nat {
    if a < b then a else b
  }

  function Front(s: seq<byte>, capacity: nat): seq<byte> {
    s[..Min(|s|, capacity)]
  }

  /** Counts the bytes that are pulled from the client. */
  class CounterReader {
    var unread: seq<byte>
    var counter: nat
    ghost var dropped: nat      // bytes that came with an error

    constructor (unread: seq<byte>, counter: nat)
      ensures this.unread == unread && this.counter == counter && dropped == 0
    {
      this.unread, this.counter, dropped := unread, counter, 0;
    }

    /** Bytes that come with an error are neither counted nor handed on. */
    method ReadMultiBuffer(a: Arrival) returns (mb: Option<seq<byte>>)
      modifies this
      ensures mb.None? <==> a.fails
      ensures var n := if a.chunk <= |old(unread)| then a.chunk else |old(unread)|;
              && unread == old(unread)[n..]
              && (a.fails ==> counter == old(counter) && dropped == old(dropped) + n)
              && (!a.fails ==> mb.value == old(unread)[..n] && counter == old(counter) + n && dropped == old(dropped))
    {
      var n := Min(a.chunk, |unread|);
      var read := unread[..n];
      unread := unread[n..];
      if a.fails {
        dropped := dropped + n;
        return None;
      }
      if |read| > 0 {
        counter := counter + |read|;
      }
      return Some(read);
    }
  }

  /** Reads ahead for the sniffer. `delivered` is what the outbound has been given. */
  class CachedReader {
    const reader: CounterReader
    var cache: seq<byte>
    ghost var delivered: seq<byte>
    ghost var looks: nat          // calls of Cache

    constructor (reader: CounterReader)
      ensures this.reader == reader && cache == [] && delivered == [] && looks == 0
    {
      this.reader, cache, delivered, looks := reader, [], [], 0;
    }

    /** The stream as the client sent it. */
    ghost function Stream(): seq<byte>
      reads this, reader
    {
      delivered + cache + reader.unread
    }

    /** Bytes counted beyond those that were handed out or are cached. */
    ghost function Excess(): int
      reads this, reader
    {
      reader.counter - |delivered| - |cache|
    }

    /** The stream is as it was, but for the bytes that came with an error, and each byte
        handed out or cached was counted once. */
    twostate predicate Keeps()
      reads this, reader
    {
      && reader.dropped >= old(reader.dropped) && |Stream()| + reader.dropped == |old(Stream())| + old(reader.dropped)
      && (reader.dropped == old(reader.dropped) ==> Stream() == old(Stream()))
      && Excess() == old(Excess())
    }

    /** The payload is the front of the cache, as far as the buffer goes. */
    method Cache(capacity: nat, a: Arrival) returns (payload: Option<seq<byte>>)
      modifies this`cache, this`looks, reader
      ensures Keeps() && looks == old(looks) + 1
      ensures reader.dropped == old(reader.dropped) + if a.fails then Min(a.chunk, |old(reader.unread)|) else 0
      ensures payload.None? <==> a.fails
      ensures payload.None? ==> cache == old(cache)
      ensures payload.Some? ==> cache == old(cache) + old(reader.unread)[..Min(a.chunk, |old(reader.unread)|)]
      ensures payload.Some? ==> reader.unread == old(reader.unread)[Min(a.chunk, |old(reader.unread)|)..]
      ensures payload.Some? ==>
                payload.value <= cache && |payload.value| == if |cache| <= capacity then |cache| else capacity
      ensures payload.Some? ==> payload.value == Front(cache, capacity)
    {
      looks := looks + 1;
      var mb := reader.ReadMultiBuffer(a);
      if mb.None? {
        return None;
      }
      assert mb.value == old(reader.unread)[..|mb.value|] && reader.unread == old(reader.unread)[|mb.value|..];
      assert mb.value + reader.unread == old(reader.unread);
      if |mb.value| > 0 {
        cache := cache + mb.value;
      }
      payload := Some(Front(cache, capacity));
    }

    /** A read takes the whole cache, or goes to the client when there is none; with and
        without a timeout alike. */
    method ReadMultiBuffer(a: Arrival) returns (mb: Option<seq<byte>>)
      modifies this, reader
      ensures Keeps()
      ensures reader.dropped == old(reader.dropped) +
                if a.fails && old(cache) == [] then Min(a.chunk, |old(reader.unread)|) else 0
      ensures delivered == old(delivered) + if mb.Some? then mb.value else []
      ensures cache == []
      ensures old(cache) != [] ==> mb == Some(old(cache)) && unchanged(reader)
      ensures old(cache) == [] ==> (mb.None? <==> a.fails)
    {
      ghost var before := reader.unread;
      if |cache| > 0 {
        mb := Some(cache);
        cache := [];
      } else {
        mb := reader.ReadMultiBuffer(a);
        assert mb.Some? ==> mb.value + reader.unread == before;
      }
      if mb.Some? {
        delivered := delivered + mb.value;
      }
    }

    /** Any run of reads and look-aheads: the outbound gets the stream in order, without loss
        exactly when no byte came with an error, and every byte handed out or cached is counted
        once. */
    method Run(ops: seq<ReadOp>)
      modifies this, reader
      ensures Keeps() && (Stream() == old(Stream()) <==> reader.dropped == old(reader.dropped))
      ensures old(delivered) <= delivered <= Stream()
      ensures delivered + cache <= Stream()
    {
      for i := 0 to |ops|
        invariant Keeps()
        invariant old(delivered) <= delivered
      {
        match ops[i]
        case Peek(capacity, a) => var payload := Cache(capacity, a);
        case Read(a) => var mb := ReadMultiBuffer(a);
      }
    }
  }

  datatype ReadOp = Peek(capacity: nat, arrival: Arrival) | Read(arrival: Arrival)

  // ----- the sniffing loop

  /** What one round of the loop meets; `elapsed` is the time its read took. */
  datatype Round = Round(cancelled: bool, arrival: Arrival, elapsed: int)

  const BUFFER_SIZE: nat := 32767
  const DEADLINE: int := 200    // milliseconds

  function Cached(cache: seq<byte>, unread: seq<byte>, a: Arrival): seq<byte> {
    cache + unread[..Min(a.chunk, |unread|)]
  }

  /** What one round finds with the whole list asked; an empty payload is no clue. */
  function Ask(es: seq<Entry>, network: nat, cache: seq<byte>, unread: seq<byte>, r: Round): Answer {
    if r.cancelled then Failure(Cancelled)
    else if r.arrival.fails then Failure(ReadFailed)
    else
      var payload := Front(Cached(cache, unread, r.arrival), BUFFER_SIZE);
      if payload == [] then Failure(NoClue) else Match(es, network, payload)
  }

  /** The loop from its round `i` on, as it would be with the whole list asked every time. */
  function Unpruned(es: seq<Entry>, network: nat, cache: seq<byte>, unread: seq<byte>, rounds: nat -> Round, i: nat,
                    deadline: int): Answer
    requires i < 2
    decreases 2 - i
  {
    var r := rounds(i);
    var answer := Ask(es, network, cache, unread, r);
    if answer != Failure(NoClue) then answer
    else if i == 1 || deadline - r.elapsed <= 0 then Failure(Timeout)
    else Unpruned(es, network, Cached(cache, unread, r.arrival), unread[Min(r.arrival.chunk, |unread|)..], rounds,
                  i + 1, deadline - r.elapsed)
  }

  ghost predicate Looked(cache: seq<byte>, unread: seq<byte>, chunk: nat, payload: seq<byte>, cache': seq<byte>,
                         unread': seq<byte>) {
    && cache' + unread' == cache + unread
    && |cache'| == |cache| + (if chunk <= |unread| then chunk else |unread|)
    && payload <= cache' && |payload| == if |cache'| <= 32767 then |cache'| else 32767
  }

  lemma AskLooks(es: seq<Entry>, network: nat, cache: seq<byte>, unread: seq<byte>, r: Round, payload: seq<byte>,
                 cache': seq<byte>, unread': seq<byte>)
    requires Looked(cache, unread, r.arrival.chunk, payload, cache', unread')
    ensures cache' == Cached(cache, unread, r.arrival) && unread' == unread[Min(r.arrival.chunk, |unread|)..]
    ensures payload == Front(cache', BUFFER_SIZE)
    ensures Ask(es, network, cache, unread, r) ==
            if r.cancelled then Failure(Cancelled)
            else if r.arrival.fails then Failure(ReadFailed)
            else if payload == [] then Failure(NoClue)
            else Match(es, network, payload)
  {
    var n := |cache'| - |cache|;
    assert (cache' + unread')[..|cache'|] == cache' && (cache' + unread')[|cache'|..] == unread';
    assert (cache + unread)[..|cache| + n] == cache + unread[..n] && (cache + unread)[|cache| + n..] == unread[n..];
  }

  /** The loop looks twice at most: at what is cached then, up to 32767 bytes. The second look
      is for when the first gives no clue within 200 milliseconds. */
  lemma TwoLooks(es: seq<Entry>, network: nat, cache: seq<byte>, unread: seq<byte>, rounds: nat -> Round,
                 p0: seq<byte>, cache0: seq<byte>, unread0: seq<byte>, p1: seq<byte>, cache1: seq<byte>,
                 unread1: seq<byte>)
    requires Looked(cache, unread, rounds(0).arrival.chunk, p0, cache0, unread0)
    requires Looked(cache0, unread0, rounds(1).arrival.chunk, p1, cache1, unread1)
    ensures Unpruned(es, network, cache, unread, rounds, 0, DEADLINE) ==
            if rounds(0).cancelled then Failure(Cancelled)
            else if rounds(0).arrival.fails then Failure(ReadFailed)
            else if p0 != [] && Match(es, network, p0) != Failure(NoClue) then Match(es, network, p0)
            else if rounds(0).elapsed >= 200 then Failure(Timeout)
            else if rounds(1).cancelled then Failure(Cancelled)
            else if rounds(1).arrival.fails then Failure(ReadFailed)
            else if p1 != [] && Match(es, network, p1) != Failure(NoClue) then Match(es, network, p1)
            else Failure(Timeout)
  {
    AskLooks(es, network, cache, unread, rounds(0), p0, cache0, unread0);
    AskLooks(es, network, cache0, unread0, rounds(1), p1, cache1, unread1);
    FirstLook(es, network, cache, unread, rounds, cache0, unread0);
    LastLook(es, network, cache0, unread0, rounds, DEADLINE - rounds(0).elapsed);
  }

  lemma FirstLook(es: seq<Entry>, network: nat, cache: seq<byte>, unread: seq<byte>, rounds: nat -> Round,
                  cache0: seq<byte>, unread0: seq<byte>)
    requires cache0 == Cached(cache, unread, rounds(0).arrival)
    requires unread0 == unread[Min(rounds(0).arrival.chunk, |unread|)..]
    ensures var answer := Ask(es, network, cache, unread, rounds(0));
            Unpruned(es, network, cache, unread, rounds, 0, DEADLINE) ==
            if answer != Failure(NoClue) then answer
            else if rounds(0).elapsed >= 200 then Failure(Timeout)
            else Unpruned(es, network, cache0, unread0, rounds, 1, DEADLINE - rounds(0).elapsed)
  {
  }

  lemma LastLook(es: seq<Entry>, network: nat, cache: seq<byte>, unread: seq<byte>, rounds: nat -> Round, deadline: int)
    ensures var answer := Ask(es, network, cache, unread, rounds(1));
            Unpruned(es, network, cache, unread, rounds, 1, deadline) ==
            if answer != Failure(NoClue) then answer else Failure(Timeout)
  {
  }

  /** The payloads of earlier rounds are fronts of the cache, in the order of their length. */
  ghost predicate GrewInto(ps: seq<seq<byte>>, cache: seq<byte>) {
    Growing(ps) && forall i :: 0 <= i < |ps| ==> ps[i] <= Front(cache, BUFFER_SIZE)
  }

  lemma GrewMore(ps: seq<seq<byte>>, cache: seq<byte>, more: seq<byte>)
    requires GrewInto(ps, cache)
    ensures GrewInto(ps, cache + more) && GrewInto(ps + [Front(cache + more, BUFFER_SIZE)], cache + more)
  {
    var next := Front(cache + more, BUFFER_SIZE);
    assert Front(cache, BUFFER_SIZE) <= next;
    forall i | 0 <= i < |ps| ensures ps[i] <= next {
      assert ps[i] <= Front(cache, BUFFER_SIZE);
    }
  }

  /** One round of the loop, after rounds with the payloads `ps`; pruning does not show. */
  method SniffRound(cReader: CachedReader, sniffer: Sniffer, network: nat, r: Round, ghost es: seq<Entry>,
                    ghost ps: seq<seq<byte>>)
      returns (answer: Answer, ghost ps': seq<seq<byte>>)
    requires sniffer.sniffer == Rounds(es, network, ps) && GrewInto(ps, cReader.cache)
    modifies cReader`cache, cReader`looks, cReader.reader, sniffer
    ensures cReader.Keeps()
    ensures sniffer.sniffer == Rounds(es, network, ps') && GrewInto(ps', cReader.cache)
    ensures answer != Failure(NeedMoreData) && (r.cancelled ==> answer == Failure(Cancelled))
    ensures cReader.looks == old(cReader.looks) + if r.cancelled then 0 else 1
    ensures answer == Failure(NoClue) ==>
              && cReader.cache == Cached(old(cReader.cache), old(cReader.reader.unread), r.arrival)
              && cReader.reader.unread ==
                old(cReader.reader.unread)[Min(r.arrival.chunk, |old(cReader.reader.unread)|)..]
    ensures AllStable(es) ==> answer == Ask(es, network, old(cReader.cache), old(cReader.reader.unread), r)
  {
    ps' := ps;
    if r.cancelled {
      return Failure(Cancelled), ps';
    }
    ghost var cache, unread := cReader.cache, cReader.reader.unread;
    var payload := cReader.Cache(BUFFER_SIZE, r.arrival);
    if payload.None? {
      return Failure(ReadFailed), ps';
    }
    GrewMore(ps, cache, unread[..Min(r.arrival.chunk, |unread|)]);
    if payload.value == [] {
      return Failure(NoClue), ps';
    }
    if AllStable(es) {
      PrunedRoundsAgree(es, network, ps, payload.value);
    }
    ps' := ps + [payload.value];
    assert ps'[..|ps|] == ps;
    answer := sniffer.Sniff(payload.value, network);
  }

  /** The content part of sniffing: at most two look-aheads whatever the probes say, the
      stream untouched, and the answer that a loop without pruning would give. */
  method SniffContent(cReader: CachedReader, sniffer: Sniffer, network: nat, rounds: nat -> Round)
      returns (answer: Answer)
    modifies cReader`cache, cReader`looks, cReader.reader, sniffer
    ensures cReader.Keeps()
    ensures cReader.looks <= old(cReader.looks) + 2
    ensures answer != Failure(NoClue) && answer != Failure(NeedMoreData)
    ensures AllStable(old(sniffer.sniffer)) ==>
              answer == Unpruned(old(sniffer.sniffer), network, old(cReader.cache), old(cReader.reader.unread),
                                 rounds, 0, DEADLINE)
  {
    var cacheDeadline, totalAttempt := DEADLINE, 0;
    ghost var es, ps: seq<seq<byte>> := sniffer.sniffer, [];
    ghost var all := Unpruned(es, network, cReader.cache, cReader.reader.unread, rounds, 0, DEADLINE);
    while true
      invariant cReader.Keeps()
      invariant totalAttempt < 2 && cReader.looks == old(cReader.looks) + totalAttempt
      invariant sniffer.sniffer == Rounds(es, network, ps) && GrewInto(ps, cReader.cache)
      invariant AllStable(es) ==>
                  all == Unpruned(es, network, cReader.cache, cReader.reader.unread, rounds, totalAttempt,
                                  cacheDeadline)
      decreases 2 - totalAttempt
    {
      var r := rounds(totalAttempt);
      answer, ps := SniffRound(cReader, sniffer, network, r, es, ps);
      cacheDeadline := cacheDeadline - r.elapsed;
      if answer == Failure(NoClue) {
        totalAttempt := totalAttempt + 1;
      } else if answer != Failure(NeedMoreData) {
        return;
      }
      if totalAttempt >= 2 || cacheDeadline <= 0 {
        return Failure(Timeout);
      }
    }
  }

  lemma {:induction false} UnprunedWithoutMetadata(es: seq<Entry>, network: nat, cache: seq<byte>, unread: seq<byte>,
                                                   rounds: nat -> Round, i: nat, deadline: int)
    requires i < 2
    ensures Unpruned(MetaPruned(es), network, cache, unread, rounds, i, deadline) ==
              Unpruned(es, network, cache, unread, rounds, i, deadline)
    decreases 2 - i
  {
    var r := rounds(i);
    MetadataIsSeparate(es, network, Front(Cached(cache, unread, r.arrival), BUFFER_SIZE));
    if i == 0 {
      UnprunedWithoutMetadata(es, network, Cached(cache, unread, r.arrival), unread[Min(r.arrival.chunk, |unread|)..],
                              rounds, 1, deadline - r.elapsed);
    }
  }

  /** The content's protocol and the metadata's domain, as far as there are any. */
  function Combine(meta: Answer, content: Answer): Answer {
    if content.Failure? && meta.Success? then meta
    else if content.Success? && meta.Success? then Success(Composite(meta.result, content.result))
    else content
  }

  /** All of sniffing. Metadata alone never looks at the stream; otherwise both answers are
      those of the full list, each kind of probe asked for itself. */
  method SniffLink(cReader: CachedReader, entries: seq<Entry>, metadataOnly: bool, network: nat, rounds: nat -> Round)
      returns (answer: Answer)
    modifies cReader`cache, cReader`looks, cReader.reader
    ensures cReader.Keeps()
    ensures cReader.looks <= old(cReader.looks) + if metadataOnly then 0 else 2
    ensures metadataOnly ==>
              answer == MetaMatch(entries) && cReader.cache == old(cReader.cache) && unchanged(cReader.reader)
    ensures !metadataOnly && AllStable(entries) ==>
              answer == Combine(MetaMatch(entries),
                                Unpruned(entries, network, old(cReader.cache), old(cReader.reader.unread),
                                         rounds, 0, DEADLINE))
    ensures !metadataOnly && AllStable(entries) ==>
              var meta := MetaMatch(entries);
              var all :=
                Unpruned(entries, network, old(cReader.cache), old(cReader.reader.unread), rounds, 0, DEADLINE);
              && (meta.Failure? ==> answer == all)
              && (meta.Success? && all.Failure? ==> answer == meta)
              && (meta.Success? && all.Success? ==> answer == Success(Composite(meta.result, all.result)))
  {
    var sniffer := new Sniffer(entries);
    var meta := sniffer.SniffMetadata();
    if metadataOnly {
      return meta;
    }
    if AllStable(entries) {
      MetaPendingStable(entries);
    }
    UnprunedWithoutMetadata(entries, network, cReader.cache, cReader.reader.unread, rounds, 0, DEADLINE);
    var content := SniffContent(cReader, sniffer, network, rounds);
    answer := Combine(meta, content);
  }
}
