/**
 * Stream identifiers and the two connection roles. The parity of an
 * identifier tells which endpoint opened the stream: a client opens the odd
 * ones, a server the even ones.
 */
module StreamIds {

  type StreamId = nat

  datatype Role = Client | Server

  /** The stream was opened by this endpoint (even for a server, odd for a client). */
  predicate IsOwn(role: Role, id: StreamId) {
    if role == Server then id % 2 == 0 else id % 2 == 1
  }

  /** The stream was opened by the other endpoint. */
  predicate IsPeer(role: Role, id: StreamId) {
    !IsOwn(role, id)
  }

  /** The first identifier this endpoint hands out: 2 for a server, 1 for a client. */
  function FirstOwn(role: Role): StreamId {
    if role == Server then 2 else 1
  }

  /** The first identifier the peer is expected to open. */
  function FirstPeer(role: Role): StreamId {
    if role == Server then 1 else 2
  }

  /**
   * The identifiers a peer request for `upTo` brings into existence when
   * `from` is the next one expected: from, from + 2, ... up to upTo.
   */
  function Sweep(from: StreamId, upTo: StreamId): (ids: seq<StreamId>)
    ensures forall k :: k in ids <==> from <= k <= upTo && k % 2 == from % 2
    decreases upTo + 1 - from
  {
    if from > upTo then [] else [from] + Sweep(from + 2, upTo)
  }

  /** A sweep lists its identifiers in increasing order. */
  lemma {:induction false} SweepAscending(from: StreamId, upTo: StreamId)
    ensures forall i, j :: 0 <= i < j < |Sweep(from, upTo)| ==> Sweep(from, upTo)[i] < Sweep(from, upTo)[j]
    decreases upTo + 1 - from
  {
    if from <= upTo {
      var rest := Sweep(from + 2, upTo);
      SweepAscending(from + 2, upTo);
      forall j | 0 <= j < |rest| ensures from < rest[j] {
        assert rest[j] in rest;
      }
      assert Sweep(from, upTo) == [from] + rest;
    }
  }

  /** A sweep from `from` to `upTo` of the same parity has (upTo - from) / 2 + 1 entries. */
  lemma {:induction false} SweepLength(from: StreamId, upTo: StreamId)
    ensures |Sweep(from, upTo)| == if from > upTo then 0 else (upTo - from) / 2 + 1
    decreases upTo + 1 - from
  {
    if from <= upTo {
      SweepLength(from + 2, upTo);
    }
  }

  /** How many identifiers of `s` have parity `p` (1: odd, 0: even). */
  function CountParity(s: seq<StreamId>, p: nat): (n: nat)
    ensures n <= |s|
  {
    if s == [] then 0 else (if s[0] % 2 == p then 1 else 0) + CountParity(s[1..], p)
  }

  lemma {:induction false} CountParityAppend(a: seq<StreamId>, b: seq<StreamId>, p: nat)
    ensures CountParity(a + b, p) == CountParity(a, p) + CountParity(b, p)
  {
    if a != [] {
      assert (a + b)[1..] == a[1..] + b;
      CountParityAppend(a[1..], b, p);
    } else {
      assert a + b == b;
    }
  }

  /** Appending one identifier adds one to the count of its parity only. */
  lemma CountParitySnoc(s: seq<StreamId>, x: StreamId)
    ensures CountParity(s + [x], 1) == CountParity(s, 1) + (if x % 2 == 1 then 1 else 0)
    ensures CountParity(s + [x], 0) == CountParity(s, 0) + (if x % 2 == 0 then 1 else 0)
  {
    CountParityAppend(s, [x], 0);
    CountParityAppend(s, [x], 1);
    assert [x][1..] == [];
  }

  /** Taking the first identifier off a sweep that is not yet exhausted. */
  lemma SweepNext(done: seq<StreamId>, sid: StreamId, upTo: StreamId, ids: seq<StreamId>)
    requires sid <= upTo && done + Sweep(sid, upTo) == ids
    ensures (done + [sid]) + Sweep(sid + 2, upTo) == ids
  {
    assert Sweep(sid, upTo) == [sid] + Sweep(sid + 2, upTo);
    assert (done + [sid]) + Sweep(sid + 2, upTo) == done + ([sid] + Sweep(sid + 2, upTo));
  }

  /** A sweep that is not yet exhausted starts at `from`, and what follows it avoids `from`. */
  lemma SweepShrinks(from: StreamId, upTo: StreamId)
    requires from <= upTo
    ensures from in Sweep(from, upTo)
    ensures forall k :: k in Sweep(from + 2, upTo) ==> k in Sweep(from, upTo) && k != from
  {
  }

  /** Identifiers that all share one parity are all counted under it and none under the other. */
  lemma {:induction false} CountParityUniform(s: seq<StreamId>, p: nat)
    requires p < 2
    requires forall k :: k in s ==> k % 2 == p
    ensures CountParity(s, p) == |s|
    ensures CountParity(s, 1 - p) == 0
  {
    if s != [] {
      assert s[0] in s;
      assert forall k :: k in s[1..] ==> k in s;
      CountParityUniform(s[1..], p);
    }
  }
}
