/**
 * The stream table as the object a connection holds: its fields are updated
 * in place by each call. Every method is proved to leave the object in the
 * state, and to return the result, that the corresponding function of
 * StreamTable (or RoundRobin) gives for the state it started from.
 */
module Multiplexer {
  import opened StreamIds
  import opened Seqs
  import opened StreamTable
  import opened TableInvariant
  import opened RoundRobin

  /** A pass result extended in front by what has already been offered. */
  function Extend(visited: seq<StreamId>, steps: nat, p: Pass): Pass {
    Pass(visited + p.visited, steps + p.steps, p.halted, p.err)
  }

  /**
   * The first pass of the deletion: every finished stream among `open` leaves
   * the map, its identifier is retired and its parity's counter goes down.
   */
  method RemoveFinished(open: seq<StreamId>, orig: map<StreamId, Stream>, retired: set<StreamId>,
                        incoming0: nat, outgoing0: nat)
      returns (m: map<StreamId, Stream>, ret: set<StreamId>, incoming: nat, outgoing: nat)
    requires forall k :: k in open ==> k in orig
    requires incoming0 == CountParity(open, 1) && outgoing0 == CountParity(open, 0)
    ensures m == Unfinished(orig, open) && ret == retired + FinishedIn(orig, open)
    ensures incoming == CountParity(Survivors(open, orig), 1) && outgoing == CountParity(Survivors(open, orig), 0)
  {
    m, ret, incoming, outgoing := orig, retired, incoming0, outgoing0;
    ghost var kept: seq<StreamId> := [];
    var i := 0;
    assert open[..0] == [] && open[0..] == open;
    while i < |open|
      invariant 0 <= i <= |open|
      invariant m == Unfinished(orig, open[..i]) && ret == retired + FinishedIn(orig, open[..i])
      invariant kept == Survivors(open[..i], orig)
      invariant incoming == CountParity(kept, 1) + CountParity(open[i..], 1)
      invariant outgoing == CountParity(kept, 0) + CountParity(open[i..], 0)
    {
      var id := open[i];
      assert id in open;
      assert open[..i + 1] == open[..i] + [id];
      UnfinishedSnoc(orig, open[..i], id);
      FinishedInSnoc(orig, open[..i], id);
      SurvivorsSnoc(open[..i], id, orig);
      CountParityFrom(open, i);
      CountParitySnoc(kept, id);
      if !orig[id].finished {
        kept := kept + [id];
      }
      if orig[id].finished {
        m := m - {id};
        ret := ret + {id};
        if id % 2 == 1 {
          incoming := incoming - 1;
        } else {
          outgoing := outgoing - 1;
        }
      }
      i := i + 1;
    }
    assert open[..i] == open && open[i..] == [];
  }

  /**
   * The second pass of the deletion: the streams that stay are moved up in
   * order, and the cursor moves back by one for each stream removed before it.
   */
  method Compact(open: seq<StreamId>, orig: map<StreamId, Stream>, idx: nat) returns (kept: seq<StreamId>, cursor: nat)
    ensures kept == Survivors(open, orig)
    ensures cursor == idx - NumFinished(open[..Min(idx, |open|)], orig)
  {
    kept, cursor := [], idx;
    var i := 0;
    while i < |open|
      invariant 0 <= i <= |open|
      invariant kept == Survivors(open[..i], orig)
      invariant CursorTracks(open, orig, idx, i, kept, cursor)
    {
      var id := open[i];
      CursorStep(open, orig, idx, i, kept, cursor);
      assert open[..i + 1] == open[..i] + [id];
      SurvivorsSnoc(open[..i], id, orig);
      if Finished(orig, id) {
        if |kept| < cursor {
          cursor := cursor - 1;
        }
      } else {
        kept := kept + [id];
      }
      i := i + 1;
    }
    assert open[..i] == open;
    CursorDone(open, orig, idx, kept, cursor);
  }

  /**
   * The streams map of one connection: the stream table held in fields that
   * the operations update in place. `State()` reads the fields back as a
   * table, and each method's effect is the matching table operation.
   */
  class StreamsMap {
    const role: Role
    var streams: map<StreamId, Stream>
    var openStreams: seq<StreamId>
    var numIncomingStreams: nat
    var numOutgoingStreams: nat
    const maxIncomingStreams: nat
    var maxOutgoingStreams: nat
    var roundRobinIndex: nat
    var nextStream: StreamId
    var nextPeerStream: StreamId
    var retired: set<StreamId>
    var closeErr: Option<Error>
    var pendingAccept: seq<StreamId>

    /** The table this object currently holds. */
    function State(): Table
      reads this
    {
      Table(role, streams, openStreams, numIncomingStreams, numOutgoingStreams,
            maxIncomingStreams, maxOutgoingStreams, roundRobinIndex, nextStream,
            nextPeerStream, retired, closeErr, pendingAccept)
    }

    ghost predicate Valid()
      reads this
    {
      StreamTable.Valid(State())
    }

    constructor (role: Role, maxIncomingStreams: nat)
      ensures State() == Initial(role, maxIncomingStreams)
      ensures Valid()
    {
      this.role := role;
      this.maxIncomingStreams := maxIncomingStreams;
      streams := map[];
      openStreams := [];
      numIncomingStreams, numOutgoingStreams := 0, 0;
      maxOutgoingStreams := 0;
      roundRobinIndex := 0;
      nextStream := if role == Server then 2 else 1;
      nextPeerStream := if role == Server then 1 else 2;
      retired := {};
      closeErr := None;
      pendingAccept := [];
    }

    /** Returns the stream `id` names, opening it (and the peer streams it skips) when needed. */
    method GetOrOpenStream(id: StreamId) returns (r: Result<Option<Stream>>)
      requires Valid()
      modifies this
      ensures Valid()
      ensures (State(), r) == GetOrOpen(old(State()), id)
    {
      if id in streams {
        return Ok(Some(streams[id]));
      }
      if id in retired {
        return Ok(None);
      }
      if IsOwn(role, id) || id < nextPeerStream {
        return Err(InvalidStreamID(id));
      }
      ghost var t := State();
      ghost var ids := Sweep(nextPeerStream, id);
      // all or nothing: the sweep opens (id - nextPeerStream) / 2 + 1 streams
      SweepLength(nextPeerStream, id);
      var count := (id - nextPeerStream) / 2 + 1;
      var booked := if role == Server then numIncomingStreams else numOutgoingStreams;
      if booked + count > maxIncomingStreams {
        return Err(TooManyOpenStreams);
      }
      ValidSweep(t, id, ids);
      SweepFresh(t, id, ids);
      OpenPeerStreams(id);
      assert id in ids;
      r := Ok(Some(streams[id]));
    }

    /** Opens every peer stream from `nextPeerStream` up to `id` and queues it for accepting. */
    method OpenPeerStreams(id: StreamId)
      requires forall k :: k in Sweep(nextPeerStream, id) ==> k !in streams
      modifies this
      ensures State() == Swept(old(State()), id, Sweep(old(nextPeerStream), id))
    {
      ghost var t := State();
      ghost var ids := Sweep(nextPeerStream, id);
      ghost var done: seq<StreamId> := [];
      var sid := nextPeerStream;
      while sid <= id
        invariant done + Sweep(sid, id) == ids
        invariant State() == Book(t, done).(pendingAccept := t.pendingAccept + done)
        invariant forall k :: k in Sweep(sid, id) ==> k !in streams
        decreases id + 2 - sid
      {
        SweepNext(done, sid, id, ids);
        BookSnoc(t, done, sid);
        SnocAssoc(t.pendingAccept, done, sid);
        SweepShrinks(sid, id);
        PutStream(sid);
        pendingAccept := pendingAccept + [sid];
        done := done + [sid];
        sid := sid + 2;
      }
      assert Sweep(sid, id) == [];
      assert done + [] == done;
      nextPeerStream := id + 2;
    }

    /** Stores a fresh stream for `id`, appends it to the open list and books it on its parity's counter. */
    method PutStream(id: StreamId)
      requires id !in streams
      modifies this
      ensures State() == Book(old(State()), [id])
      ensures streams == old(streams)[id := Stream(id, false)]
    {
      BookOne(State(), id);
      if id % 2 == 1 {
        numIncomingStreams := numIncomingStreams + 1;
      } else {
        numOutgoingStreams := numOutgoingStreams + 1;
      }
      streams := streams[id := Stream(id, false)];
      openStreams := openStreams + [id];
    }

    /** Opens the next self-initiated stream. */
    method OpenStream() returns (r: Result<Stream>)
      requires Valid()
      modifies this
      ensures Valid()
      ensures (State(), r) == Open(old(State()))
    {
      if closeErr.Some? {
        return Err(closeErr.value);
      }
      var count, limit := numOutgoingStreams, maxOutgoingStreams;
      if role == Client {
        count, limit := numIncomingStreams, maxIncomingStreams;
      }
      if count >= limit {
        return Err(TooManyOpenStreams);
      }
      ValidOpen(State());
      assert !Allocated(State(), nextStream);
      var id := nextStream;
      PutStream(id);
      nextStream := nextStream + 2;
      r := Ok(Stream(id, false));
    }

    /** Takes the limit on self-opened streams from the peer's transport parameters. */
    method UpdateTransportParameters(maxStreams: nat)
      requires Valid()
      modifies this
      ensures Valid()
      ensures State() == StreamTable.UpdateTransportParameters(old(State()), maxStreams)
    {
      ValidUpdateTransportParameters(State(), maxStreams);
      maxOutgoingStreams := maxStreams;
    }

    /** Registers the error every later open and accept returns. */
    method CloseWithError(e: Error)
      requires Valid()
      modifies this
      ensures Valid()
      ensures State() == StreamTable.CloseWithError(old(State()), e)
    {
      ValidCloseWithError(State(), e);
      if closeErr.None? {
        closeErr := Some(e);
      }
    }

    /** Hands out the lowest pending peer stream that is still open, without waiting, dropping the deleted ones before it. */
    method AcceptStream() returns (r: Result<Option<Stream>>)
      requires Valid()
      modifies this
      ensures Valid()
      ensures (State(), r) == Accept(old(State()))
    {
      if closeErr.Some? {
        return Err(closeErr.value);
      }
      ValidAccept(State());
      var q := pendingAccept;
      while q != [] && q[0] !in streams
        invariant Waiting(q, streams) == Waiting(pendingAccept, streams)
        decreases |q|
      {
        q := q[1..];
      }
      if q == [] {
        pendingAccept := [];
        return Ok(None);
      }
      pendingAccept := q[1..];
      r := Ok(Some(streams[q[0]]));
    }

    /** The owner of stream `id` has closed it on both sides. */
    method MarkFinished(id: StreamId)
      requires Valid() && id in streams
      modifies this
      ensures Valid()
      ensures State() == StreamTable.MarkFinished(old(State()), id)
    {
      ValidMarkFinished(State(), id);
      streams := streams[id := streams[id].(finished := true)];
    }

    /** Removes the finished streams, retires their identifiers and adjusts the round-robin cursor. */
    method DeleteClosedStreams()
      requires Valid()
      modifies this
      ensures Valid()
      ensures State() == DeleteClosed(old(State()))
    {
      ghost var t := State();
      var open, orig := openStreams, streams;
      var m, ret, incoming, outgoing := RemoveFinished(open, orig, retired, numIncomingStreams, numOutgoingStreams);
      var kept, cursor := Compact(open, orig, roundRobinIndex);
      assert t.(streams := m, openStreams := kept, retired := ret, numIncomingStreams := incoming,
                numOutgoingStreams := outgoing, roundRobinIndex := cursor) == DeleteClosed(t);
      streams, openStreams, retired := m, kept, ret;
      numIncomingStreams, numOutgoingStreams, roundRobinIndex := incoming, outgoing, cursor;
      ValidDeleteClosed(t);
    }

    /**
     * Offers the streams named by `ids` to the callback in order, stepping over
     * the identifiers in `skip` and those without a stream; `count` streams
     * have already been offered in this pass.
     */
    method Offer(ids: seq<StreamId>, skip: set<StreamId>, visit: (Stream, nat) -> Reply, count: nat) returns (p: Pass)
      ensures p == Run(ids, streams, skip, visit, count)
    {
      var m := streams;
      var visited: seq<StreamId> := [];
      var i := 0;
      while i < |ids|
        invariant 0 <= i <= |ids|
        invariant Extend(visited, i, RunFrom(ids, i, m, skip, visit, count + |visited|)) == RunFrom(ids, 0, m, skip, visit, count)
      {
        var id := ids[i];
        if id !in skip && id in m {
          var reply := visit(m[id], count + |visited|);
          match reply {
            case Continue =>
            case Stop => p := Pass(visited + [id], i + 1, true, None); break;
            case Fail(e) => p := Pass(visited + [id], i, true, Some(e)); break;
          }
          ghost var rest := RunFrom(ids, i + 1, m, skip, visit, count + |visited| + 1);
          assert (visited + [id]) + rest.visited == visited + ([id] + rest.visited);
          visited := visited + [id];
        }
        i := i + 1;
      }
      if i == |ids| {
        p := Pass(visited, i, false, None);
      }
      RunFromSuffix(ids, 0, m, skip, visit, count);
      assert ids[0..] == ids;
    }

    /**
     * One lap over `openStreams` from position `start`, wrapping around at the
     * end; streams 1 and 3 are stepped over.
     */
    method OfferLap(start: nat, visit: (Stream, nat) -> Reply, count: nat) returns (p: Pass)
      requires start < |openStreams|
      ensures p == Run(Rotate(openStreams, start), streams, {1, 3}, visit, count)
    {
      var open, m := openStreams, streams;
      ghost var rot := Rotate(open, start);
      var n := |open|;
      var visited: seq<StreamId> := [];
      var pos := start;
      var i := 0;
      while i < n
        invariant 0 <= i <= n && pos < n && pos == Wrap(start + i, n)
        invariant Extend(visited, i, RunFrom(rot, i, m, {1, 3}, visit, count + |visited|)) == RunFrom(rot, 0, m, {1, 3}, visit, count)
      {
        var id := open[pos];
        RotateAt(open, start, i);
        if id != 1 && id != 3 && id in m {
          var reply := visit(m[id], count + |visited|);
          match reply {
            case Continue =>
            case Stop => p := Pass(visited + [id], i + 1, true, None); break;
            case Fail(e) => p := Pass(visited + [id], i, true, Some(e)); break;
          }
          ghost var rest := RunFrom(rot, i + 1, m, {1, 3}, visit, count + |visited| + 1);
          assert (visited + [id]) + rest.visited == visited + ([id] + rest.visited);
          visited := visited + [id];
        }
        pos := if pos + 1 == n then 0 else pos + 1;
        i := i + 1;
      }
      if i == n {
        p := Pass(visited, i, false, None);
      }
      RunFromSuffix(rot, 0, m, {1, 3}, visit, count);
      assert rot[0..] == rot;
    }

    /**
     * Offers streams to the scheduler's callback: 1 and 3 first, then one lap
     * from the cursor. Returns the streams offered and the error that ended the
     * pass; the cursor moves past every position the lap stepped over.
     */
    method RoundRobinIterate(visit: (Stream, nat) -> Reply) returns (visited: seq<StreamId>, err: Option<Error>)
      requires Valid()
      modifies this`roundRobinIndex
      ensures Valid()
      ensures Schedule(roundRobinIndex, visited, err) == Iterate(old(State()), visit)
    {
      ghost var t := State();
      var prio := Offer(Priority, {}, visit, 0);
      var n := |openStreams|;
      if prio.halted || n == 0 {
        return prio.visited, prio.err;
      }
      var lap := OfferLap(roundRobinIndex % n, visit, |prio.visited|);
      if lap.steps > 0 {
        var cursor := Wrap(roundRobinIndex % n + lap.steps, n);
        WrapBefore(roundRobinIndex % n, lap.steps, n);
        ValidCursor(t, cursor);
        roundRobinIndex := cursor;
      }
      visited, err := prio.visited + lap.visited, lap.err;
    }
  }
}
