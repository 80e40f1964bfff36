/** Protocol sniffing (core/xray/app/dispatcher/sniffer.go): probes are asked in order about
    the bytes read so far, and those that cannot match any more are dropped between rounds.
    A probe is a function of the bytes; contexts are left out. */
module Sniff {
  import opened Common

  datatype SniffError = NoClue | NeedMoreData | UnknownContent | Timeout | ReadFailed | Cancelled | OtherError

  datatype SniffResult =
    | Plain(protocol: string, domain: string)
    | Composite(domainResult: SniffResult, protocolResult: SniffResult)

  /** What a probe returns: a result, an error, or neither. */
  datatype Outcome = Yes(result: SniffResult) | Nil | Error(error: SniffError)

  datatype Answer = Success(result: SniffResult) | Failure(error: SniffError)

  datatype Entry = Entry(probe: seq<byte> -> Outcome, metadata: bool, network: nat)

  predicate Asked(e: Entry, network: nat) {
    !e.metadata && e.network == network
  }

  predicate Unsure(o: Outcome) {
    o == Error(NoClue)
  }

  /** A probe that gives up: it neither finds a protocol nor asks to be tried again. */
  predicate GivesUp(o: Outcome) {
    !o.Yes? && !Unsure(o)
  }

  /** The entries to ask again after a round. */
  function Pending(es: seq<Entry>, network: nat, payload: seq<byte>): seq<Entry> {
    if es == [] then []
    else
      var n := |es| - 1;
      Pending(es[..n], network, payload) + if Asked(es[n], network) && Unsure(es[n].probe(payload)) then [es[n]] else []
  }

  /** The first result among the entries asked. */
  function FirstYes(es: seq<Entry>, network: nat, payload: seq<byte>): Option<SniffResult> {
    if es == [] then None
    else
      var n := |es| - 1;
      var before := FirstYes(es[..n], network, payload);
      if before.None? && Asked(es[n], network) && es[n].probe(payload).Yes? then Some(es[n].probe(payload).result)
      else before
  }

  function Verdict(found: Option<SniffResult>, pending: seq<Entry>): (r: Answer)
    ensures r.Success? || r.error == NoClue || r.error == UnknownContent
    ensures r == Failure(NoClue) <==> found.None? && pending != []
  {
    if found.Some? then Success(found.value) else if pending != [] then Failure(NoClue) else Failure(UnknownContent)
  }

  /** The answer of a whole list to one payload. */
  function Match(es: seq<Entry>, network: nat, payload: seq<byte>): Answer {
    Verdict(FirstYes(es, network, payload), Pending(es, network, payload))
  }

  /** The list after a round. */
  function Pruned(es: seq<Entry>, network: nat, payload: seq<byte>): seq<Entry> {
    if Match(es, network, payload) == Failure(NoClue) then Pending(es, network, payload) else es
  }

  // ----- metadata probes, asked once with no bytes

  function MetaPending(es: seq<Entry>): seq<Entry> {
    if es == [] then []
    else
      var n := |es| - 1;
      MetaPending(es[..n]) + if !es[n].metadata || Unsure(es[n].probe([])) then [es[n]] else []
  }

  function MetaFirstYes(es: seq<Entry>): Option<SniffResult> {
    if es == [] then None
    else
      var n := |es| - 1;
      var before := MetaFirstYes(es[..n]);
      if before.None? && es[n].metadata && es[n].probe([]).Yes? then Some(es[n].probe([]).result) else before
  }

  function MetaMatch(es: seq<Entry>): Answer {
    Verdict(MetaFirstYes(es), MetaPending(es))
  }

  function MetaPruned(es: seq<Entry>): seq<Entry> {
    if MetaMatch(es) == Failure(NoClue) then MetaPending(es) else es
  }

  // ----- the same by position

  /** `xs` is what `es` has at the positions `at`, in order. */
  ghost predicate Picks(xs: seq<Entry>, es: seq<Entry>, at: set<nat>) {
    exists order: seq<nat> :: PickedIn(xs, es, at, order)
  }

  ghost predicate PickedIn(xs: seq<Entry>, es: seq<Entry>, at: set<nat>, order: seq<nat>) {
    && |order| == |xs| && (forall i, j :: 0 <= i < j < |order| ==> order[i] < order[j])
    && (forall k :: 0 <= k < |order| ==> order[k] < |es| && xs[k] == es[order[k]])
    && (forall k :: 0 <= k < |order| ==> order[k] in at) && (forall i :: i in at ==> i in order)
  }

  /** The first of the positions `ask` whose probe finds something finds `r`. */
  ghost predicate FirstAt(es: seq<Entry>, ask: set<nat>, payload: seq<byte>, i: nat, r: SniffResult) {
    && i < |es| && i in ask && es[i].probe(payload) == Yes(r)
    && forall j :: 0 <= j < i && j in ask ==> !es[j].probe(payload).Yes?
  }

  /** A round that asks at `ask` and has to keep what is at `keep`. */
  ghost predicate Answered(es: seq<Entry>, ask: set<nat>, keep: set<nat>, payload: seq<byte>, answer: Answer,
                           after: seq<Entry>) {
    && (forall r :: answer == Success(r) <==> exists i :: FirstAt(es, ask, payload, i, r))
    && (answer.Failure? ==> answer.error == if keep != {} then NoClue else UnknownContent)
    && (if answer == Failure(NoClue) then Picks(after, es, keep) else after == es)
  }

  lemma PickMore(xs: seq<Entry>, es: seq<Entry>, at: set<nat>, order: seq<nat>, e: Entry)
    requires PickedIn(xs, es, at, order)
    ensures PickedIn(xs, es + [e], at, order)
    ensures PickedIn(xs + [e], es + [e], at + {|es|}, order + [|es|])
  {
    var more := order + [|es|];
    forall i | i in at + {|es|} ensures i in more {
      assert i in at ==> i in order;
      assert more[|order|] == |es|;
    }
  }

  /** What is found first, and what is to be kept, whichever positions are asked. */
  lemma FoundFirst(es: seq<Entry>, ask: set<nat>, payload: seq<byte>, found: Option<SniffResult>)
    requires Finds(es, ask, payload, found)
    ensures forall r :: found == Some(r) <==> exists i :: FirstAt(es, ask, payload, i, r)
  {
    forall r, i | FirstAt(es, ask, payload, i, r) ensures found == Some(r) {
      var j :| FirstAt(es, ask, payload, j, found.value);
      assert i == j;
    }
  }

  /** The positions whose entry is of a kind. */
  ghost function At(es: seq<Entry>, kind: Entry -> bool): set<nat> {
    set i | 0 <= i < |es| && kind(es[i])
  }

  lemma AtMore(es: seq<Entry>, kind: Entry -> bool)
    requires es != []
    ensures var n := |es| - 1; At(es, kind) == At(es[..n], kind) + if kind(es[n]) then {n} else {}
  {
  }

  lemma {:induction false} PendingByPosition(es: seq<Entry>, network: nat, payload: seq<byte>, kept: Entry -> bool)
      returns (order: seq<nat>)
    requires forall e :: kept(e) <==> !e.metadata && e.network == network && e.probe(payload) == Error(NoClue)
    ensures PickedIn(Pending(es, network, payload), es, At(es, kept), order)
  {
    order := [];
    if es != [] {
      var n := |es| - 1;
      var front := es[..n];
      order := PendingByPosition(front, network, payload, kept);
      assert front + [es[n]] == es;
      AtMore(es, kept);
      PickMore(Pending(front, network, payload), front, At(front, kept), order, es[n]);
      order := if kept(es[n]) then order + [n] else order;
    }
  }

  lemma {:induction false} MetaPendingByPosition(es: seq<Entry>, kept: Entry -> bool) returns (order: seq<nat>)
    requires forall e :: kept(e) <==> !e.metadata || e.probe([]) == Error(NoClue)
    ensures PickedIn(MetaPending(es), es, At(es, kept), order)
  {
    order := [];
    if es != [] {
      var n := |es| - 1;
      var front := es[..n];
      order := MetaPendingByPosition(front, kept);
      assert front + [es[n]] == es;
      AtMore(es, kept);
      PickMore(MetaPending(front), front, At(front, kept), order, es[n]);
      order := if kept(es[n]) then order + [n] else order;
    }
  }

  /** `found` is what the first of these positions with a result finds. */
  ghost predicate Finds(es: seq<Entry>, ask: set<nat>, payload: seq<byte>, found: Option<SniffResult>) {
    && (found.None? ==> forall i :: 0 <= i < |es| && i in ask ==> !es[i].probe(payload).Yes?)
    && (found.Some? ==> exists i :: FirstAt(es, ask, payload, i, found.value))
  }

  lemma FindsMore(es: seq<Entry>, asked: Entry -> bool, payload: seq<byte>, before: Option<SniffResult>)
    requires es != [] && Finds(es[..|es| - 1], At(es[..|es| - 1], asked), payload, before)
    ensures var o := es[|es| - 1].probe(payload);
            Finds(es, At(es, asked), payload,
                  if before.None? && asked(es[|es| - 1]) && o.Yes? then Some(o.result) else before)
  {
    var n := |es| - 1;
    var front, ask := es[..n], At(es, asked);
    AtMore(es, asked);
    if before.Some? {
      var i :| FirstAt(front, At(front, asked), payload, i, before.value);
      assert FirstAt(es, ask, payload, i, before.value);
    } else if asked(es[n]) && es[n].probe(payload).Yes? {
      assert FirstAt(es, ask, payload, n, es[n].probe(payload).result);
    }
  }

  lemma {:induction false} FirstByPosition(es: seq<Entry>, network: nat, payload: seq<byte>, asked: Entry -> bool)
    requires forall e :: asked(e) <==> !e.metadata && e.network == network
    ensures Finds(es, At(es, asked), payload, FirstYes(es, network, payload))
  {
    if es != [] {
      FirstByPosition(es[..|es| - 1], network, payload, asked);
      FindsMore(es, asked, payload, FirstYes(es[..|es| - 1], network, payload));
    }
  }

  lemma {:induction false} MetaFirstByPosition(es: seq<Entry>, asked: Entry -> bool)
    requires forall e :: asked(e) <==> e.metadata
    ensures Finds(es, At(es, asked), [], MetaFirstYes(es))
  {
    if es != [] {
      MetaFirstByPosition(es[..|es| - 1], asked);
      FindsMore(es, asked, [], MetaFirstYes(es[..|es| - 1]));
    }
  }

  lemma RoundAnswers(es: seq<Entry>, ask: set<nat>, keep: set<nat>, payload: seq<byte>, found: Option<SniffResult>,
                     pending: seq<Entry>, order: seq<nat>)
    requires Finds(es, ask, payload, found) && PickedIn(pending, es, keep, order)
    ensures var answer := Verdict(found, pending);
            Answered(es, ask, keep, payload, answer, if answer == Failure(NoClue) then pending else es)
  {
    FoundFirst(es, ask, payload, found);
    assert keep != {} <==> order != [] by {
      if order != [] {
        assert order[0] in keep;
      }
    }
  }

  /** A round on content asks the probes that are for content and for this network; it keeps
      those of them that are unsure. */
  lemma RoundByPosition(es: seq<Entry>, network: nat, payload: seq<byte>)
    ensures var ask := set i | 0 <= i < |es| && !es[i].metadata && es[i].network == network;
            var keep := set i | 0 <= i < |es| && i in ask && es[i].probe(payload) == Error(NoClue);
            Answered(es, ask, keep, payload, Match(es, network, payload), Pruned(es, network, payload))
  {
    var asked := (e: Entry) => !e.metadata && e.network == network;
    var kept := (e: Entry) => !e.metadata && e.network == network && e.probe(payload) == Error(NoClue);
    var order := PendingByPosition(es, network, payload, kept);
    FirstByPosition(es, network, payload, asked);
    RoundAnswers(es, At(es, asked), At(es, kept), payload, FirstYes(es, network, payload),
                 Pending(es, network, payload), order);
    var ask := set i | 0 <= i < |es| && !es[i].metadata && es[i].network == network;
    var keep := set i | 0 <= i < |es| && i in ask && es[i].probe(payload) == Error(NoClue);
    assert ask == At(es, asked) && keep == At(es, kept);
  }

  /** The round on metadata asks the metadata probes about nothing; it keeps the unsure ones and
      every probe for content. */
  lemma MetaRoundByPosition(es: seq<Entry>)
    ensures var ask := set i | 0 <= i < |es| && es[i].metadata;
            var keep := set i | 0 <= i < |es| && (!es[i].metadata || es[i].probe([]) == Error(NoClue));
            Answered(es, ask, keep, [], MetaMatch(es), MetaPruned(es))
  {
    var asked := (e: Entry) => e.metadata;
    var kept := (e: Entry) => !e.metadata || e.probe([]) == Error(NoClue);
    var order := MetaPendingByPosition(es, kept);
    MetaFirstByPosition(es, asked);
    RoundAnswers(es, At(es, asked), At(es, kept), [], MetaFirstYes(es), MetaPending(es), order);
    var ask := set i | 0 <= i < |es| && es[i].metadata;
    var keep := set i | 0 <= i < |es| && (!es[i].metadata || es[i].probe([]) == Error(NoClue));
    assert ask == At(es, asked) && keep == At(es, kept);
  }

  class Sniffer {
    var sniffer: seq<Entry>

    constructor (entries: seq<Entry>)
      ensures sniffer == entries
    {
      sniffer := entries;
    }

    method Sniff(payload: seq<byte>, network: nat) returns (answer: Answer)
      modifies this
      ensures answer == Match(old(sniffer), network, payload)
      ensures sniffer == Pruned(old(sniffer), network, payload)
      ensures var es := old(sniffer);
              var ask := set i | 0 <= i < |es| && !es[i].metadata && es[i].network == network;
              var keep := set i | 0 <= i < |es| && i in ask && es[i].probe(payload) == Error(NoClue);
              Answered(es, ask, keep, payload, answer, sniffer)
    {
      RoundByPosition(sniffer, network, payload);
      var pending: seq<Entry> := [];
      for i := 0 to |sniffer|
        invariant unchanged(this)
        invariant FirstYes(sniffer[..i], network, payload).None?
        invariant pending == Pending(sniffer[..i], network, payload)
      {
        assert sniffer[..i + 1][..i] == sniffer[..i];
        var si := sniffer[i];
        if si.metadata || si.network != network {
          continue;
        }
        var outcome := si.probe(payload);
        if outcome == Error(NoClue) {
          pending := pending + [si];
          continue;
        }
        if outcome.Yes? {
          YesStays(sniffer, network, payload, i + 1);
          return Success(outcome.result);
        }
      }
      assert sniffer[..|sniffer|] == sniffer;
      if |pending| > 0 {
        sniffer := pending;
        return Failure(NoClue);
      }
      return Failure(UnknownContent);
    }

    method SniffMetadata() returns (answer: Answer)
      modifies this
      ensures answer == MetaMatch(old(sniffer))
      ensures sniffer == MetaPruned(old(sniffer))
      ensures var es := old(sniffer);
              var ask := set i | 0 <= i < |es| && es[i].metadata;
              var keep := set i | 0 <= i < |es| && (!es[i].metadata || es[i].probe([]) == Error(NoClue));
              Answered(es, ask, keep, [], answer, sniffer)
    {
      MetaRoundByPosition(sniffer);
      var pending: seq<Entry> := [];
      for i := 0 to |sniffer|
        invariant unchanged(this)
        invariant MetaFirstYes(sniffer[..i]).None?
        invariant pending == MetaPending(sniffer[..i])
      {
        assert sniffer[..i + 1][..i] == sniffer[..i];
        var si := sniffer[i];
        if !si.metadata {
          pending := pending + [si];
          continue;
        }
        var outcome := si.probe([]);
        if outcome == Error(NoClue) {
          pending := pending + [si];
          continue;
        }
        if outcome.Yes? {
          MetaYesStays(sniffer, i + 1);
          return Success(outcome.result);
        }
      }
      assert sniffer[..|sniffer|] == sniffer;
      if |pending| > 0 {
        sniffer := pending;
        return Failure(NoClue);
      }
      return Failure(UnknownContent);
    }
  }

  lemma {:induction false} YesStays(es: seq<Entry>, network: nat, payload: seq<byte>, i: nat)
    requires i <= |es| && FirstYes(es[..i], network, payload).Some?
    ensures FirstYes(es, network, payload) == FirstYes(es[..i], network, payload)
  {
    if i < |es| {
      assert es[..|es| - 1][..i] == es[..i];
      YesStays(es[..|es| - 1], network, payload, i);
    } else {
      assert es[..i] == es;
    }
  }

  lemma {:induction false} MetaYesStays(es: seq<Entry>, i: nat)
    requires i <= |es| && MetaFirstYes(es[..i]).Some?
    ensures MetaFirstYes(es) == MetaFirstYes(es[..i])
  {
    if i < |es| {
      assert es[..|es| - 1][..i] == es[..i];
      MetaYesStays(es[..|es| - 1], i);
    } else {
      assert es[..i] == es;
    }
  }

  // ----- pruning changes no answer

  /** Once the probe gives up it gives up on every longer payload. */
  ghost predicate Stable(e: Entry) {
    forall p: seq<byte>, q: seq<byte> :: p <= q && GivesUp(e.probe(p)) ==> GivesUp(e.probe(q))
  }

  ghost predicate AllStable(es: seq<Entry>) {
    forall i :: 0 <= i < |es| ==> Stable(es[i])
  }

  lemma {:induction false} PendingStable(es: seq<Entry>, network: nat, payload: seq<byte>)
    requires AllStable(es)
    ensures AllStable(Pending(es, network, payload))
  {
    if es != [] {
      PendingStable(es[..|es| - 1], network, payload);
    }
  }

  lemma PendingSnoc(es: seq<Entry>, e: Entry, network: nat, q: seq<byte>)
    ensures Pending(es + [e], network, q) ==
            Pending(es, network, q) + if Asked(e, network) && Unsure(e.probe(q)) then [e] else []
    ensures FirstYes(es + [e], network, q) ==
            if FirstYes(es, network, q).None? && Asked(e, network) && e.probe(q).Yes? then Some(e.probe(q).result)
            else FirstYes(es, network, q)
  {
    assert (es + [e])[..|es|] == es;
  }

  /** Without a result on `p`, the entries that `p` leaves pending answer every longer
      payload as the whole list does. */
  lemma {:induction false} PruningIsInvisible(es: seq<Entry>, network: nat, p: seq<byte>, q: seq<byte>)
    requires AllStable(es) && p <= q && FirstYes(es, network, p).None?
    ensures FirstYes(Pending(es, network, p), network, q) == FirstYes(es, network, q)
    ensures Pending(Pending(es, network, p), network, q) == Pending(es, network, q)
    ensures Match(Pending(es, network, p), network, q) == Match(es, network, q)
  {
    if es != [] {
      var front, last := es[..|es| - 1], es[|es| - 1];
      PruningIsInvisible(front, network, p, q);
      if Asked(last, network) && Unsure(last.probe(p)) {
        PendingSnoc(Pending(front, network, p), last, network, q);
      } else {
        assert Pending(es, network, p) == Pending(front, network, p);
        assert Asked(last, network) ==> Stable(last) && GivesUp(last.probe(p));
      }
    }
  }

  ghost predicate Growing(ps: seq<seq<byte>>) {
    forall i, j :: 0 <= i <= j < |ps| ==> ps[i] <= ps[j]
  }

  /** The list after the rounds `ps`. */
  function Rounds(es: seq<Entry>, network: nat, ps: seq<seq<byte>>): seq<Entry> {
    if ps == [] then es else Pruned(Rounds(es, network, ps[..|ps| - 1]), network, ps[|ps| - 1])
  }

  /** However many rounds came before, the pruned list answers the next payload as the whole
      list would, and leaves the same entries pending. */
  lemma {:induction false} PrunedRoundsAgree(es: seq<Entry>, network: nat, ps: seq<seq<byte>>, q: seq<byte>)
    requires AllStable(es) && Growing(ps + [q])
    ensures AllStable(Rounds(es, network, ps))
    ensures Match(Rounds(es, network, ps), network, q) == Match(es, network, q)
    ensures Pending(Rounds(es, network, ps), network, q) == Pending(es, network, q)
  {
    if ps != [] {
      var front, last := ps[..|ps| - 1], ps[|ps| - 1];
      assert Growing(front + [q]) by {
        forall i, j | 0 <= i <= j < |front + [q]| ensures (front + [q])[i] <= (front + [q])[j] {
          var k := if j < |front| then j else |ps|;
          assert (ps + [q])[i] <= (ps + [q])[k] || i == |front|;
        }
      }
      PrunedRoundsAgree(es, network, front, q);
      var before := Rounds(es, network, front);
      assert last == (ps + [q])[|ps| - 1] <= (ps + [q])[|ps|] == q;
      if Match(before, network, last) == Failure(NoClue) {
        PendingStable(before, network, last);
        PruningIsInvisible(before, network, last, q);
      }
    }
  }

  /** Beside any stable probe, pruning the list after a round that leaves it pending changes
      no later answer. */
  ghost predicate PrunesWell(e: Entry) {
    forall c: Entry, p: seq<byte>, q: seq<byte> ::
      Stable(c) && p <= q && Match([e, c], e.network, p) == Failure(NoClue) ==>
      Match(Pending([e, c], e.network, p), e.network, q) == Match([e, c], e.network, q)
  }

  /** A probe that is unsure up to the length of `p` and then gives up. */
  function Companion(network: nat, p: seq<byte>): Entry {
    Entry((x: seq<byte>) => if |x| <= |p| then Error(NoClue) else Nil, false, network)
  }

  /** A probe that recovers from a failure is missed beside a stable one. */
  lemma UnstableProbeIsMissed(e: Entry, p: seq<byte>, q: seq<byte>) returns (c: Entry)
    requires !e.metadata && p <= q && GivesUp(e.probe(p)) && !GivesUp(e.probe(q))
    ensures Stable(c) && Match([e, c], e.network, p) == Failure(NoClue)
    ensures Match(Pending([e, c], e.network, p), e.network, q) != Match([e, c], e.network, q)
  {
    var n := e.network;
    c := Companion(n, p);
    assert |p| < |q| by {
      assert |p| == |q| ==> p == q;
    }
    assert [e, c] == [e] + [c] && [e] == [] + [e] && [c] == [] + [c];
    PendingSnoc([], e, n, p);
    PendingSnoc([e], c, n, p);
    PendingSnoc([], e, n, q);
    PendingSnoc([e], c, n, q);
    PendingSnoc([], c, n, q);
  }

  /** So stability is exactly what pruning needs of a content probe. */
  lemma StableIsExact(e: Entry)
    requires !e.metadata
    ensures Stable(e) <==> PrunesWell(e)
  {
    if Stable(e) {
      forall c: Entry, p: seq<byte>, q: seq<byte> |
        Stable(c) && p <= q && Match([e, c], e.network, p) == Failure(NoClue)
        ensures Match(Pending([e, c], e.network, p), e.network, q) == Match([e, c], e.network, q)
      {
        PruningIsInvisible([e, c], e.network, p, q);
      }
    } else {
      var p: seq<byte>, q: seq<byte> :| p <= q && GivesUp(e.probe(p)) && !GivesUp(e.probe(q));
      var c := UnstableProbeIsMissed(e, p, q);
    }
  }

  /** Metadata sniffing does not affect what is found in the content. */
  lemma {:induction false} MetadataIsSeparate(es: seq<Entry>, network: nat, q: seq<byte>)
    ensures FirstYes(MetaPending(es), network, q) == FirstYes(es, network, q)
    ensures Pending(MetaPending(es), network, q) == Pending(es, network, q)
    ensures Match(MetaPruned(es), network, q) == Match(es, network, q)
  {
    if es != [] {
      var front, last := es[..|es| - 1], es[|es| - 1];
      MetadataIsSeparate(front, network, q);
      if !last.metadata || Unsure(last.probe([])) {
        PendingSnoc(MetaPending(front), last, network, q);
      } else {
        assert MetaPending(es) == MetaPending(front);
      }
    }
  }

  lemma {:induction false} MetaPendingStable(es: seq<Entry>)
    requires AllStable(es)
    ensures AllStable(MetaPending(es))
  {
    if es != [] {
      MetaPendingStable(es[..|es| - 1]);
    }
  }
}
