/**
 * What the stream table promises its callers: how frames naming a stream are
 * validated, how skipped peer streams come into existence, how the stream
 * limits bite, and that retired identifiers stay retired.
 */
module TableProperties {
  import opened StreamIds
  import opened Seqs
  import opened StreamTable
  import opened TableInvariant

  // ---------------------------------------------------------------------------
  // Sizes

  /** The open list and the map always hold the same number of streams. */
  lemma OpenListMatchesMap(t: Table)
    requires Valid(t)
    ensures |t.openStreams| == |t.streams|
  {
    DistinctCard(t.openStreams);
    assert Elems(t.openStreams) == t.streams.Keys;
  }

  // ---------------------------------------------------------------------------
  // Looking up and opening peer streams

  /**
   * A frame is refused as naming an invalid stream exactly when the table has
   * never seen the identifier and it is one the peer may not open: one of this
   * endpoint's own parity, or 0. A refused frame changes nothing.
   */
  lemma GetOrOpenInvalid(t: Table, id: StreamId)
    requires Valid(t)
    ensures GetOrOpen(t, id).1 == Err(InvalidStreamID(id)) <==> !Known(t, id) && (IsOwn(t.role, id) || id == 0)
    ensures GetOrOpen(t, id).1.Err? ==> GetOrOpen(t, id).0 == t
  {
    if !Known(t, id) && IsPeer(t.role, id) && id < t.nextPeerStream {
      assert !Allocated(t, id);
    }
  }

  /** An identifier that was deleted comes back as no stream and no error, whichever side opened it. */
  lemma GetOrOpenRetired(t: Table, id: StreamId)
    requires Valid(t) && id in t.retired
    ensures GetOrOpen(t, id) == (t, Ok(None))
  {
    assert id !in t.streams.Keys;
  }

  /**
   * Asking again for a stream that was just returned returns the same stream
   * and leaves the table, its counters included, as it is.
   */
  lemma GetOrOpenIdempotent(t: Table, id: StreamId)
    requires Valid(t)
    ensures var (t1, r) := GetOrOpen(t, id);
      r.Ok? && r.value.Some? ==> GetOrOpen(t1, id) == (t1, r)
  {
    var (t1, r) := GetOrOpen(t, id);
    if r.Ok? && r.value.Some? && id !in t.streams {
      assert id in Sweep(t.nextPeerStream, id);
    }
  }

  /**
   * A new peer identifier within the limit opens it and every peer
   * identifier of the same parity the peer skipped before it, queues them all
   * for accepting, lowest first, and books them on the peer's counter.
   */
  lemma GetOrOpenSweeps(t: Table, id: StreamId)
    requires Valid(t) && !Known(t, id) && IsPeer(t.role, id) && id >= 1
    requires PeerCount(t) + (id - t.nextPeerStream) / 2 + 1 <= t.maxIncomingStreams
    ensures id >= t.nextPeerStream
    ensures var (t1, r) := GetOrOpen(t, id);
      && r == Ok(Some(Stream(id, false)))
      && (forall k :: k in t1.streams <==> k in t.streams || (t.nextPeerStream <= k <= id && k % 2 == id % 2))
      && t1.openStreams == t.openStreams + Sweep(t.nextPeerStream, id)
      && t1.pendingAccept == t.pendingAccept + Sweep(t.nextPeerStream, id)
      && Ascending(t1.pendingAccept)
      && PeerCount(t1) == PeerCount(t) + (id - t.nextPeerStream) / 2 + 1
      && OwnCount(t1) == OwnCount(t)
  {
    assert !Allocated(t, id);
    var ids := Sweep(t.nextPeerStream, id);
    SweepLength(t.nextPeerStream, id);
    assert GetOrOpen(t, id) == (Swept(t, id, ids), Ok(Some(Stream(id, false))));
    SweptFacts(t, id, ids);
  }

  lemma SweptFacts(t: Table, id: StreamId, ids: seq<StreamId>)
    requires SweepAllowed(t, id, ids) && PeerCount(t) + |ids| <= t.maxIncomingStreams
    ensures var t1 := Swept(t, id, ids);
      && (forall k :: k in t1.streams <==> k in t.streams || (t.nextPeerStream <= k <= id && k % 2 == id % 2))
      && Ascending(t1.pendingAccept)
      && PeerCount(t1) == PeerCount(t) + |ids|
      && OwnCount(t1) == OwnCount(t)
  {
    ValidSweep(t, id, ids);
    SweepCounted(t, id, ids);
    SweepFresh(t, id, ids);
    CountParityUniform(ids, id % 2);
  }

  /**
   * A new peer identifier is refused for too many open streams exactly when
   * opening it and the identifiers it skips would take the peer's counter past
   * the limit; the refusal opens none of them.
   */
  lemma GetOrOpenTooMany(t: Table, id: StreamId)
    requires Valid(t)
    ensures GetOrOpen(t, id).1 == Err(TooManyOpenStreams) <==>
      && !Known(t, id) && IsPeer(t.role, id) && id >= t.nextPeerStream
      && PeerCount(t) + (id - t.nextPeerStream) / 2 + 1 > t.maxIncomingStreams
  {
    if !Known(t, id) && IsPeer(t.role, id) && id >= t.nextPeerStream {
      SweepLength(t.nextPeerStream, id);
    }
  }

  // ---------------------------------------------------------------------------
  // Retired identifiers

  /** No operation brings a retired identifier back: it stays retired and out of the map. */
  lemma RetiredStaysRetired(t: Table, k: StreamId, id: StreamId, e: Error, maxStreams: nat)
    requires Valid(t) && k in t.retired
    ensures var t1 := GetOrOpen(t, id).0; k in t1.retired && k !in t1.streams
    ensures var t1 := Open(t).0; k in t1.retired && k !in t1.streams
    ensures var t1 := Accept(t).0; k in t1.retired && k !in t1.streams
    ensures var t1 := DeleteClosed(t); k in t1.retired && k !in t1.streams
    ensures var t1 := UpdateTransportParameters(t, maxStreams); k in t1.retired && k !in t1.streams
    ensures var t1 := CloseWithError(t, e); k in t1.retired && k !in t1.streams
    ensures id in t.streams ==> var t1 := MarkFinished(t, id); k in t1.retired && k !in t1.streams
  {
    assert k !in t.streams;
    ValidGetOrOpen(t, id);
    ValidOpen(t);
    ValidDeleteClosed(t);
  }

  // ---------------------------------------------------------------------------
  // Opening own streams

  /**
   * Opening fails exactly when the table is closed, with the error it was
   * closed with, or when the own counter has reached its limit; a failed open
   * changes nothing.
   */
  lemma OpenFails(t: Table)
    ensures Open(t).1.Err? <==> t.closeErr.Some? || OwnCount(t) >= OwnLimit(t)
    ensures t.closeErr.Some? ==> Open(t).1 == Err(t.closeErr.value)
    ensures t.closeErr.None? && OwnCount(t) >= OwnLimit(t) ==> Open(t).1 == Err(TooManyOpenStreams)
    ensures Open(t).1.Err? ==> Open(t).0 == t
  {
  }

  /**
   * A successful open hands out the next identifier of the table's own parity,
   * moves on to the one two above it and books the stream on the own counter
   * only.
   */
  lemma OpenNumbering(t: Table)
    requires Valid(t) && Open(t).1.Ok?
    ensures var (t1, r) := Open(t);
      && r.value == Stream(t.nextStream, false)
      && IsOwn(t.role, r.value.id) && r.value.id !in t.streams && r.value.id !in t.retired
      && t1.nextStream == r.value.id + 2
      && OwnCount(t1) == OwnCount(t) + 1 && PeerCount(t1) == PeerCount(t)
      && r.value.id in t1.streams && t1.openStreams == t.openStreams + [r.value.id]
      && OwnLimit(t1) == OwnLimit(t) && t1.closeErr == t.closeErr
  {
    assert !Allocated(t, t.nextStream);
    CountParitySnoc([], t.nextStream);
  }

  /** A server opens nothing before the peer's transport parameters arrive. */
  lemma ServerWaitsForParameters(maxIncoming: nat)
    ensures Open(Initial(Server, maxIncoming)).1 == Err(TooManyOpenStreams)
  {
  }

  /** The first own stream is 2 for a server once streams are allowed, and 1 for a client. */
  lemma FirstOwnStream(role: Role, maxIncoming: nat, maxStreams: nat)
    requires role == Server ==> maxStreams >= 1
    requires role == Client ==> maxIncoming >= 1
    ensures var t := UpdateTransportParameters(Initial(role, maxIncoming), maxStreams);
      Open(t).1 == Ok(Stream(if role == Server then 2 else 1, false))
  {
  }

  /**
   * With a limit of two own streams, a server opens 2 and then 4, and the
   * third open fails; the limit counts open streams, so deleting a finished
   * one makes room again.
   */
  lemma ServerOpenLimit(maxIncoming: nat)
    ensures var t0 := UpdateTransportParameters(Initial(Server, maxIncoming), 2);
      var t1 := Open(t0).0; var t2 := Open(t1).0;
      && Open(t0).1 == Ok(Stream(2, false))
      && Open(t1).1 == Ok(Stream(4, false))
      && Open(t2) == (t2, Err(TooManyOpenStreams))
      && Open(DeleteClosed(MarkFinished(t2, 2))).1 == Ok(Stream(6, false))
  {
    var t0 := UpdateTransportParameters(Initial(Server, maxIncoming), 2);
    var t1 := Open(t0).0;
    assert t1.openStreams == [2] && t1.numOutgoingStreams == 1;
    var t2 := Open(t1).0;
    assert t2.openStreams == [2, 4] && t2.numOutgoingStreams == 2;
    var t3 := MarkFinished(t2, 2);
    assert Finished(t3.streams, 2) && !Finished(t3.streams, 4);
    assert [2, 4][1..] == [4] && [4][1..] == [];
    assert Survivors([4], t3.streams) == [4] + Survivors([], t3.streams);
    assert Survivors(t3.openStreams, t3.streams) == Survivors([4], t3.streams);
    assert DeleteClosed(t3).numOutgoingStreams == 1;
  }

  // ---------------------------------------------------------------------------
  // Closing the table

  /** After the table is closed, opening and accepting return the first error it was closed with. */
  lemma ClosedTableErrors(t: Table, e: Error, e2: Error)
    requires t.closeErr.None?
    ensures Open(CloseWithError(t, e)).1 == Err(e)
    ensures Accept(CloseWithError(t, e)).1 == Err(e)
    ensures CloseWithError(CloseWithError(t, e), e2) == CloseWithError(t, e)
  {
  }

  // ---------------------------------------------------------------------------
  // Accepting peer streams

  /**
   * Accepting hands out the lowest identifier waiting to be accepted, an open
   * stream, and takes it off the queue.
   */
  lemma AcceptLowest(t: Table)
    requires Valid(t) && Accept(t).1.Ok? && Accept(t).1.value.Some?
    ensures var s := Accept(t).1.value.value;
      && s.id in t.pendingAccept && s.id in t.streams && s == t.streams[s.id]
      && (forall k :: k in t.pendingAccept && k in t.streams ==> s.id <= k)
      && (forall k :: k in Accept(t).0.pendingAccept <==> k in t.pendingAccept && s.id < k)
  {
    var q := t.pendingAccept;
    var w := Waiting(q, t.streams);
    WaitingSuffix(q, t.streams);
    var d := |q| - |w|;
    assert w[0] == q[d];
    forall k | k in q ensures (k in t.streams ==> q[d] <= k) && (k in w[1..] <==> q[d] < k) {
      var j :| 0 <= j < |q| && q[j] == k;
      assert j < d ==> k !in t.streams;
      assert j > d ==> q[d] < q[j] && w[j - d] == k;
      assert j < d ==> q[j] < q[d];
    }
    assert forall k :: k in w[1..] ==> k in q;
  }

  /**
   * While the table is open, Accept hands out a stream whenever some open
   * stream is waiting, and never one above it.
   */
  lemma AcceptSome(t: Table, k: StreamId)
    requires Valid(t) && t.closeErr.None? && k in t.pendingAccept && k in t.streams
    ensures Accept(t).1.Ok? && Accept(t).1.value.Some?
    ensures Accept(t).1.value.value.id <= k
  {
    WaitingSuffix(t.pendingAccept, t.streams);
    assert Waiting(t.pendingAccept, t.streams) != [];
    AcceptLowest(t);
  }


  /**
   * After a frame for peer stream `id` arrives on a table with nothing
   * waiting, the first accept hands out the lowest stream the frame opened.
   */
  lemma AcceptAfterSweep(t: Table, id: StreamId)
    requires Valid(t) && t.closeErr.None? && t.pendingAccept == []
    requires !Known(t, id) && IsPeer(t.role, id) && id >= 1
    requires PeerCount(t) + (id - t.nextPeerStream) / 2 + 1 <= t.maxIncomingStreams
    ensures Accept(GetOrOpen(t, id).0).1 == Ok(Some(Stream(t.nextPeerStream, false)))
  {
    assert !Allocated(t, id);
    var ids := Sweep(t.nextPeerStream, id);
    SweepLength(t.nextPeerStream, id);
    assert GetOrOpen(t, id).0 == Swept(t, id, ids);
    assert ids[0] == t.nextPeerStream && ids[0] in ids;
    assert [] + ids == ids;
  }

  // ---------------------------------------------------------------------------
  // Deleting finished streams

  /**
   * Deletion removes exactly the finished streams, retires exactly their
   * identifiers, leaves every other stream as it was, and keeps the open list
   * and the map in step.
   */
  lemma DeleteRemovesFinished(t: Table)
    requires Valid(t)
    ensures var t1 := DeleteClosed(t);
      && (forall k :: k in t1.streams <==> k in t.streams && !t.streams[k].finished)
      && (forall k :: k in t1.streams ==> t1.streams[k] == t.streams[k])
      && (forall k :: k in t1.retired <==> k in t.retired || (k in t.streams && t.streams[k].finished))
      && (forall k :: k in t1.openStreams <==> k in t1.streams)
      && |t1.openStreams| == |t1.streams|
  {
    ValidDeleteClosed(t);
    OpenListMatchesMap(DeleteClosed(t));
  }

  /**
   * The cursor stays on the stream it pointed at, when that stream survives:
   * it moves back by the number of streams removed before it.
   */
  lemma CursorFollowsStream(t: Table)
    requires t.roundRobinIndex < |t.openStreams| && !Finished(t.streams, t.openStreams[t.roundRobinIndex])
    ensures var t1 := DeleteClosed(t);
      t1.roundRobinIndex < |t1.openStreams| && t1.openStreams[t1.roundRobinIndex] == t.openStreams[t.roundRobinIndex]
  {
    var idx, open, m := t.roundRobinIndex, t.openStreams, t.streams;
    var p, q := open[..idx], open[idx..];
    assert open == p + q;
    SurvivorsAppend(p, q, m);
    assert q[0] == open[idx] && Survivors(q, m) == [open[idx]] + Survivors(q[1..], m);
    assert Min(idx, |open|) == idx;
  }

  /** Removing streams at or after the cursor leaves the cursor where it is. */
  lemma CursorKeptWhenNothingBefore(t: Table)
    requires forall j :: 0 <= j < t.roundRobinIndex && j < |t.openStreams| ==> !Finished(t.streams, t.openStreams[j])
    ensures DeleteClosed(t).roundRobinIndex == t.roundRobinIndex
  {
    var s := t.openStreams[..Min(t.roundRobinIndex, |t.openStreams|)];
    NoneFinished(s, t.streams);
  }

  lemma {:induction false} NoneFinished(s: seq<StreamId>, m: map<StreamId, Stream>)
    requires forall j :: 0 <= j < |s| ==> !Finished(m, s[j])
    ensures NumFinished(s, m) == 0
  {
    if s != [] {
      assert forall j :: 0 <= j < |s[1..]| ==> s[1..][j] == s[j + 1];
      NoneFinished(s[1..], m);
    }
  }

  // ---------------------------------------------------------------------------
  // Open and delete, over and over

  /** A list none of whose entries has finished survives deletion whole. */
  lemma {:induction false} NoneFinishedSurvivors(s: seq<StreamId>, m: map<StreamId, Stream>)
    requires forall j :: 0 <= j < |s| ==> !Finished(m, s[j])
    ensures Survivors(s, m) == s
  {
    if s != [] {
      assert forall j :: 0 <= j < |s[1..]| ==> s[1..][j] == s[j + 1];
      NoneFinishedSurvivors(s[1..], m);
    }
  }

  /**
   * While no other stream has finished, a peer stream opened and then deleted
   * leaves a valid table with the same streams open and the same count on the
   * peer's counter, so the peer can go on doing this forever without meeting
   * the limit.
   */
  lemma PeerOpenDeleteCycle(t: Table)
    requires Valid(t) && PeerCount(t) < t.maxIncomingStreams
    requires forall k :: k in t.streams ==> !t.streams[k].finished
    ensures var id := t.nextPeerStream;
      && GetOrOpen(t, id).1 == Ok(Some(Stream(id, false)))
      && var t2 := DeleteClosed(MarkFinished(GetOrOpen(t, id).0, id));
      && Valid(t2) && t2.openStreams == t.openStreams && t2.streams == t.streams
      && PeerCount(t2) == PeerCount(t) && t2.nextPeerStream == id + 2
      && t2.maxIncomingStreams == t.maxIncomingStreams && id in t2.retired
  {
    var id := t.nextPeerStream;
    assert !Allocated(t, id);
    assert Sweep(id, id) == [id];
    var t1 := Swept(t, id, [id]);
    assert GetOrOpen(t, id) == (t1, Ok(Some(Stream(id, false))));
    ValidSweep(t, id, [id]);
    assert t1.streams == t.streams[id := Stream(id, false)];
    ValidMarkFinished(t1, id);
    ValidDeleteClosed(MarkFinished(t1, id));
    Deleted(t, t1, id);
  }

  /**
   * The same for the table's own streams: while no other stream has finished,
   * open one and delete it, and the same streams are open again under the same
   * limit.
   */
  lemma OwnOpenDeleteCycle(t: Table)
    requires Valid(t) && t.closeErr.None? && OwnCount(t) < OwnLimit(t)
    requires forall k :: k in t.streams ==> !t.streams[k].finished
    ensures var id := t.nextStream;
      && Open(t).1 == Ok(Stream(id, false))
      && var t2 := DeleteClosed(MarkFinished(Open(t).0, id));
      && Valid(t2) && t2.openStreams == t.openStreams && t2.streams == t.streams
      && OwnCount(t2) == OwnCount(t) && t2.nextStream == id + 2
      && OwnLimit(t2) == OwnLimit(t) && t2.closeErr.None? && id in t2.retired
  {
    var id := t.nextStream;
    assert !Allocated(t, id);
    var t1 := Book(t, [id]).(nextStream := id + 2);
    assert Open(t) == (t1, Ok(Stream(id, false)));
    ValidOpen(t);
    assert t1.streams == t.streams[id := Stream(id, false)];
    ValidMarkFinished(t1, id);
    ValidDeleteClosed(MarkFinished(t1, id));
    Deleted(t, t1, id);
  }

  /** Deleting the one stream `id` that was just added to a table where nothing had finished. */
  lemma Deleted(t: Table, t1: Table, id: StreamId)
    requires forall k :: k in t.streams ==> !t.streams[k].finished
    requires forall k :: k in t.openStreams ==> k in t.streams
    requires id !in t.streams && t1.openStreams == t.openStreams + [id]
    requires t1.streams == t.streams[id := Stream(id, false)]
    ensures var t2 := DeleteClosed(MarkFinished(t1, id));
      t2.openStreams == t.openStreams && t2.streams == t.streams && id in t2.retired
  {
    var m := t.streams[id := Stream(id, true)];
    assert MarkFinished(t1, id).streams == m;
    forall j | 0 <= j < |t.openStreams| ensures !Finished(m, t.openStreams[j]) {
      assert t.openStreams[j] in t.openStreams;
    }
    LastSurvivors(t.openStreams, m, id);
    LastUnfinished(t.streams, t.openStreams, id);
    assert id in t1.openStreams;
  }

  /** A finished last entry behind entries none of which has finished: only it goes. */
  lemma LastSurvivors(s: seq<StreamId>, m: map<StreamId, Stream>, id: StreamId)
    requires forall j :: 0 <= j < |s| ==> !Finished(m, s[j])
    requires Finished(m, id)
    ensures Survivors(s + [id], m) == s
  {
    NoneFinishedSurvivors(s, m);
    SurvivorsSnoc(s, id, m);
  }

  /** Finishing and deleting a stream just added to a map where nothing had finished gives back the map. */
  lemma LastUnfinished(m: map<StreamId, Stream>, s: seq<StreamId>, id: StreamId)
    requires forall k :: k in m ==> !m[k].finished
    requires id !in m
    ensures Unfinished(m[id := Stream(id, true)], s + [id]) == m
  {
    var u := Unfinished(m[id := Stream(id, true)], s + [id]);
    assert id in s + [id];
    forall k ensures k in u <==> k in m {
    }
  }
}
