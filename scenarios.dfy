/**
 * Concrete runs of the stream table, one per situation the streams map is
 * expected to handle, worked out on the table functions.
 */
module Scenarios {
  import opened StreamIds
  import opened StreamTable
  import opened RoundRobin
  import opened TableInvariant
  import opened TableProperties

  /**
   * A server table holding streams 4 to 8, put in directly in that order,
   * those in `done` finished, with the cursor on position `idx`.
   */
  function FiveStreams(idx: nat, done: set<StreamId>): (t: Table)
    ensures t.openStreams == [4, 5, 6, 7, 8]
    ensures forall k :: k in t.streams <==> 4 <= k <= 8
  {
    var m := map k | 4 <= k <= 8 :: Stream(k, k in done);
    Table(Server, m, [4, 5, 6, 7, 8], 2, 3, 100, 0, idx, 10, 1, {}, None, [])
  }

  /** Finishing streams 5, 6 and 8 with the cursor on stream 7 moves the cursor to 1, still on stream 7. */
  lemma DeleteBeforeAndAfterCursor()
    ensures var t1 := DeleteClosed(FiveStreams(3, {5, 6, 8}));
      t1.openStreams == [4, 7] && t1.roundRobinIndex == 1
  {
    var t := FiveStreams(3, {5, 6, 8});
    var m := t.streams;
    assert !Finished(m, 4) && Finished(m, 5) && Finished(m, 6) && !Finished(m, 7) && Finished(m, 8);
    var s := [4, 5, 6, 7, 8];
    assert s[1..] == [5, 6, 7, 8] && s[2..] == [6, 7, 8] && s[3..] == [7, 8] && s[4..] == [8] && s[5..] == [];
    assert Survivors([8], m) == [] + Survivors([], m);
    assert Survivors([7, 8], m) == [7] + Survivors([8], m);
    assert Survivors([6, 7, 8], m) == [] + Survivors([7, 8], m);
    assert Survivors([5, 6, 7, 8], m) == [] + Survivors([6, 7, 8], m);
    assert Survivors(s, m) == [4] + Survivors([5, 6, 7, 8], m);
    CursorFollowsStream(t);
  }

  /** A callback that stops the pass at stream 5. */
  function StopAtFive(st: Stream, count: nat): Reply {
    if st.id == 5 then Stop else Continue
  }

  /** A pass from position 0 that stream 5 stops offers 4 and 5 and leaves the cursor on 2, the position after 5. */
  lemma StopAtFiveResumesAtSix()
    ensures Iterate(FiveStreams(0, {}), StopAtFive) == Schedule(2, [4, 5], None)
  {
    var t := FiveStreams(0, {});
    var m := t.streams;
    var open := t.openStreams;
    assert Rotate(open, 0) == open;
    assert open[1..] == [5, 6, 7, 8];
    assert Run([5, 6, 7, 8], m, {1, 3}, StopAtFive, 1) == Pass([5], 1, true, None);
    assert Run(open, m, {1, 3}, StopAtFive, 0) == Pass([4, 5], 2, true, None);
    assert Priority[1..] == [3] && [3][1..] == [];
    assert PriorityPass(t, StopAtFive) == Pass([], 2, false, None);
  }

  /**
   * A server gets a frame for stream 3, which opens 1 and 3. Stream 1 finishes
   * and is deleted before anyone accepts it, so Accept hands out 3.
   */
  lemma AcceptSkipsDeleted(maxIncoming: nat)
    requires maxIncoming >= 2
    ensures var t1 := GetOrOpen(Initial(Server, maxIncoming), 3).0;
      1 in t1.streams && Accept(DeleteClosed(MarkFinished(t1, 1))).1 == Ok(Some(Stream(3, false)))
  {
    FrameForThree(maxIncoming);
    HeadDeletedBeforeAccept(GetOrOpen(Initial(Server, maxIncoming), 3).0, 1, 3);
  }

  /** A frame for stream 3 on a new server opens 1 and 3 and queues both. */
  lemma FrameForThree(maxIncoming: nat)
    requires maxIncoming >= 2
    ensures var t1 := GetOrOpen(Initial(Server, maxIncoming), 3).0;
      && Valid(t1) && t1.closeErr.None? && t1.pendingAccept == [1, 3]
      && 1 in t1.streams && t1.streams[3] == Stream(3, false)
  {
    var t0 := Initial(Server, maxIncoming);
    assert Sweep(1, 3) == [1, 3] by {
      assert Sweep(5, 3) == [];
      assert Sweep(3, 3) == [3];
    }
    ValidGetOrOpen(t0, 3);
  }

  /** The first of two waiting streams is finished and deleted before it is accepted: Accept hands out the second. */
  lemma HeadDeletedBeforeAccept(t: Table, a: StreamId, b: StreamId)
    requires Valid(t) && t.closeErr.None? && t.pendingAccept == [a, b]
    requires a in t.streams && b in t.streams && a != b && !t.streams[b].finished
    ensures Accept(DeleteClosed(MarkFinished(t, a))).1 == Ok(Some(t.streams[b]))
  {
    ValidMarkFinished(t, a);
    var t2 := MarkFinished(t, a);
    assert t2.streams[a].finished && t2.streams[b] == t.streams[b];
    ValidDeleteClosed(t2);
    DeleteRemovesFinished(t2);
    var t3 := DeleteClosed(t2);
    assert a !in t3.streams;
    assert b in t3.streams;
    AcceptSome(t3, b);
    AcceptLowest(t3);
  }
}
