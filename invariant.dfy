/** Every operation of the stream table keeps its invariant. */
module TableInvariant {
  import opened StreamIds
  import opened Seqs
  import opened StreamTable

  lemma {:induction false} SurvivorsAppend(a: seq<StreamId>, b: seq<StreamId>, m: map<StreamId, Stream>)
    ensures Survivors(a + b, m) == Survivors(a, m) + Survivors(b, m)
  {
    if a == [] {
      assert a + b == b;
    } else {
      var head := if Finished(m, a[0]) then [] else [a[0]];
      assert (a + b)[0] == a[0] && (a + b)[1..] == a[1..] + b;
      assert Survivors(a + b, m) == head + Survivors(a[1..] + b, m);
      SurvivorsAppend(a[1..], b, m);
      assert head + (Survivors(a[1..], m) + Survivors(b, m)) == (head + Survivors(a[1..], m)) + Survivors(b, m);
    }
  }

  lemma {:induction false} SurvivorsNoDup(s: seq<StreamId>, m: map<StreamId, Stream>)
    requires NoDup(s)
    ensures NoDup(Survivors(s, m))
  {
    if s != [] {
      assert NoDup(s[1..]) by {
        forall i, j | 0 <= i < j < |s[1..]| ensures s[1..][i] != s[1..][j] {
          assert s[1..][i] == s[i + 1] && s[1..][j] == s[j + 1];
        }
      }
      SurvivorsNoDup(s[1..], m);
      var head := if Finished(m, s[0]) then [] else [s[0]];
      assert s[0] !in s[1..] by {
        forall j | 0 <= j < |s[1..]| ensures s[1..][j] != s[0] {
          assert s[1..][j] == s[j + 1];
        }
      }
      SurvivorsElems(s[1..], m);
      NoDupAppend(head, Survivors(s[1..], m));
    }
  }

  /** Removing entries never raises the number of open streams of a parity. */
  lemma {:induction false} CountParitySurvivors(s: seq<StreamId>, m: map<StreamId, Stream>, p: nat)
    ensures CountParity(Survivors(s, m), p) <= CountParity(s, p)
  {
    if s != [] {
      CountParitySurvivors(s[1..], m, p);
      var head := if Finished(m, s[0]) then [] else [s[0]];
      CountParityAppend(head, Survivors(s[1..], m), p);
    }
  }

  lemma AscendingNoDup(s: seq<StreamId>)
    requires Ascending(s)
    ensures NoDup(s)
  {
  }

  /** Opening the peer streams up to `id` keeps the invariant. */
  lemma ValidGetOrOpen(t: Table, id: StreamId)
    requires Valid(t)
    ensures Valid(GetOrOpen(t, id).0)
  {
    if id !in t.streams && id !in t.retired && !IsOwn(t.role, id) && id >= t.nextPeerStream {
      var ids := Sweep(t.nextPeerStream, id);
      if PeerCount(t) + |ids| <= t.maxIncomingStreams {
        ValidSweep(t, id, ids);
      }
    }
  }

  /** The conditions under which GetOrOpen sweeps `ids` into the table. */
  ghost predicate SweepAllowed(t: Table, id: StreamId, ids: seq<StreamId>) {
    Valid(t) && IsPeer(t.role, id) && id >= t.nextPeerStream && ids == Sweep(t.nextPeerStream, id)
  }

  function Swept(t: Table, id: StreamId, ids: seq<StreamId>): Table {
    Book(t, ids).(nextPeerStream := id + 2, pendingAccept := t.pendingAccept + ids)
  }

  lemma SweepFresh(t: Table, id: StreamId, ids: seq<StreamId>)
    requires SweepAllowed(t, id, ids)
    ensures forall k :: k in ids ==> IsPeer(t.role, k) && !Known(t, k) && k % 2 == id % 2
  {
    forall k | k in ids ensures IsPeer(t.role, k) && !Known(t, k) && k % 2 == id % 2 {
      assert !Allocated(t, k);
    }
  }

  lemma SweepMirrored(t: Table, id: StreamId, ids: seq<StreamId>)
    requires SweepAllowed(t, id, ids)
    ensures Keyed(Swept(t, id, ids)) && Mirrored(Swept(t, id, ids))
  {
    SweepFresh(t, id, ids);
    assert forall k :: k in t.openStreams ==> k !in ids;
    SweepAscending(t.nextPeerStream, id);
    AscendingNoDup(ids);
    NoDupAppend(t.openStreams, ids);
  }

  lemma SweepCounted(t: Table, id: StreamId, ids: seq<StreamId>)
    requires SweepAllowed(t, id, ids)
    ensures Counted(Swept(t, id, ids))
    ensures PeerCount(Swept(t, id, ids)) == PeerCount(t) + |ids|
  {
    SweepFresh(t, id, ids);
    CountParityUniform(ids, id % 2);
    CountParityAppend(t.openStreams, ids, 0);
    CountParityAppend(t.openStreams, ids, 1);
  }

  lemma SweepNumbered(t: Table, id: StreamId, ids: seq<StreamId>)
    requires Numbered(t) && IsPeer(t.role, id) && id >= t.nextPeerStream
    requires ids == Sweep(t.nextPeerStream, id)
    ensures Numbered(Swept(t, id, ids))
  {
    var t' := Swept(t, id, ids);
    forall k: StreamId ensures Known(t', k) <==> Allocated(t', k) {
      SweepNumberedAt(t, id, ids, k);
    }
    assert t'.streams.Keys !! t'.retired by {
      forall k | k in ids ensures k !in t.retired {
        SweepNumberedAt(t, id, ids, k);
      }
    }
  }

  lemma SweepNumberedAt(t: Table, id: StreamId, ids: seq<StreamId>, k: StreamId)
    requires IsPeer(t.role, t.nextPeerStream) && t.nextPeerStream >= 1 && IsPeer(t.role, id) && id >= t.nextPeerStream
    requires Known(t, k) <==> Allocated(t, k)
    requires ids == Sweep(t.nextPeerStream, id)
    ensures Known(Swept(t, id, ids), k) <==> Allocated(Swept(t, id, ids), k)
    ensures k in ids ==> k !in t.retired
  {
    var t' := Swept(t, id, ids);
    var a := t.nextPeerStream;
    assert Known(t', k) <==> Known(t, k) || k in ids;
    assert k in ids <==> a <= k <= id && k % 2 == a % 2;
    if IsOwn(t.role, k) {
      assert k % 2 != a % 2;
    } else {
      assert k % 2 == a % 2;
    }
  }

  lemma SweepQueued(t: Table, id: StreamId, ids: seq<StreamId>)
    requires Queued(t) && IsPeer(t.role, id) && id >= t.nextPeerStream
    requires IsPeer(t.role, t.nextPeerStream) && t.nextPeerStream >= 1
    requires ids == Sweep(t.nextPeerStream, id)
    ensures Queued(Swept(t, id, ids))
  {
    var t' := Swept(t, id, ids);
    var q := t.pendingAccept;
    var a := t.nextPeerStream;
    SweepAscending(a, id);
    assert forall k :: k in q ==> k < a;
    assert forall k :: k in ids ==> a <= k;
    forall i, j | 0 <= i < j < |t'.pendingAccept| ensures t'.pendingAccept[i] < t'.pendingAccept[j] {
      if j < |q| {
      } else if i < |q| {
        assert q[i] in q && ids[j - |q|] in ids;
      } else {
        assert t'.pendingAccept[i] == ids[i - |q|] && t'.pendingAccept[j] == ids[j - |q|];
      }
    }
    forall k | k in t'.pendingAccept ensures IsPeer(t'.role, k) && Allocated(t', k) {
      if k in ids {
        assert k % 2 == a % 2;
      } else {
        assert k in q;
      }
    }
  }

  lemma ValidSweep(t: Table, id: StreamId, ids: seq<StreamId>)
    requires SweepAllowed(t, id, ids)
    requires PeerCount(t) + |ids| <= t.maxIncomingStreams
    ensures Valid(Swept(t, id, ids))
  {
    SweepMirrored(t, id, ids);
    SweepCounted(t, id, ids);
    SweepNumbered(t, id, ids);
    SweepQueued(t, id, ids);
  }

  /** Opening the next self-initiated stream keeps the invariant. */
  lemma ValidOpen(t: Table)
    requires Valid(t)
    ensures Valid(Open(t).0)
  {
    if t.closeErr.None? && OwnCount(t) < OwnLimit(t) {
      var t' := Open(t).0;
      var x := t.nextStream;
      assert !Known(t, x);
      NoDupAppend(t.openStreams, [x]);
      CountParityAppend(t.openStreams, [x], 0);
      CountParityAppend(t.openStreams, [x], 1);
      assert t'.openStreams == t.openStreams + [x];
      forall k: StreamId ensures Known(t', k) <==> Allocated(t', k) {
        assert Known(t', k) <==> Known(t, k) || k == x;
      }
    }
  }

  /** Handing out a pending stream keeps the invariant. */
  lemma ValidAccept(t: Table)
    requires Valid(t)
    ensures Valid(Accept(t).0)
  {
    var t' := Accept(t).0;
    WaitingSuffix(t.pendingAccept, t.streams);
    assert forall k :: k in t'.pendingAccept ==> k in t.pendingAccept;
    forall k: StreamId ensures Known(t', k) <==> Allocated(t', k) {
      assert Known(t', k) <==> Known(t, k);
    }
  }

  /**
   * What Waiting drops is a prefix of the queue, and every entry it drops is
   * no longer open.
   */
  lemma {:induction false} WaitingSuffix(q: seq<StreamId>, m: map<StreamId, Stream>)
    ensures Waiting(q, m) == q[|q| - |Waiting(q, m)|..]
    ensures forall i :: 0 <= i < |q| - |Waiting(q, m)| ==> q[i] !in m
  {
    if q != [] && q[0] !in m {
      WaitingSuffix(q[1..], m);
    }
  }


  /**
   * A cursor within the open list stays within it when the finished streams
   * are removed: it moves back by at least as many entries as the list loses
   * before it.
   */
  lemma CursorAfterDeleteBound(t: Table)
    requires Cursored(t)
    ensures CursorAfterDelete(t) <= |Survivors(t.openStreams, t.streams)|
  {
    var idx, open := t.roundRobinIndex, t.openStreams;
    assert open == open[..idx] + open[idx..];
    SurvivorsAppend(open[..idx], open[idx..], t.streams);
  }

  /** Sweeping out the finished streams keeps the invariant. */
  lemma ValidDeleteClosed(t: Table)
    requires Valid(t)
    ensures Valid(DeleteClosed(t))
  {
    var t' := DeleteClosed(t);
    CursorAfterDeleteBound(t);
    SurvivorsNoDup(t.openStreams, t.streams);
    SurvivorsElems(t.openStreams, t.streams);
    CountParitySurvivors(t.openStreams, t.streams, 0);
    CountParitySurvivors(t.openStreams, t.streams, 1);
    forall k: StreamId ensures Known(t', k) <==> Allocated(t', k) {
      assert Known(t', k) <==> Known(t, k);
    }
  }

  /** Marking a stream finished keeps the invariant. */
  lemma ValidMarkFinished(t: Table, id: StreamId)
    requires Valid(t) && id in t.streams
    ensures Valid(MarkFinished(t, id))
  {
    var t' := MarkFinished(t, id);
    assert t'.streams.Keys == t.streams.Keys;
    forall k: StreamId ensures Known(t', k) <==> Allocated(t', k) {
      assert Known(t', k) <==> Known(t, k);
    }
  }

  /** Taking the peer's limit on self-opened streams keeps the invariant. */
  lemma ValidUpdateTransportParameters(t: Table, maxStreams: nat)
    requires Valid(t)
    ensures Valid(UpdateTransportParameters(t, maxStreams))
  {
    var t' := UpdateTransportParameters(t, maxStreams);
    forall k: StreamId ensures Known(t', k) <==> Allocated(t', k) {
      assert Known(t', k) <==> Known(t, k);
    }
  }

  /** Registering the terminal error keeps the invariant. */
  lemma ValidCloseWithError(t: Table, e: Error)
    requires Valid(t)
    ensures Valid(CloseWithError(t, e))
  {
    var t' := CloseWithError(t, e);
    forall k: StreamId ensures Known(t', k) <==> Allocated(t', k) {
      assert Known(t', k) <==> Known(t, k);
    }
  }

  /** Moving the round-robin cursor within the open list keeps the invariant. */
  lemma ValidCursor(t: Table, cursor: nat)
    requires Valid(t) && cursor <= |t.openStreams|
    ensures Valid(t.(roundRobinIndex := cursor))
  {
    var t' := t.(roundRobinIndex := cursor);
    forall k: StreamId ensures Known(t', k) <==> Allocated(t', k) {
      assert Known(t', k) <==> Known(t, k);
    }
  }

  /** Adding one more fresh stream after `ids`. */
  lemma AddStreamsSnoc(m: map<StreamId, Stream>, ids: seq<StreamId>, x: StreamId)
    ensures AddStreams(m, ids + [x]) == AddStreams(m, ids)[x := Stream(x, false)]
  {
    var l, r := AddStreams(m, ids + [x]), AddStreams(m, ids)[x := Stream(x, false)];
    assert forall k :: k in ids + [x] <==> k in ids || k == x;
    assert forall k :: k in l <==> k in r;
    forall k | k in l ensures l[k] == r[k] {
      if k !in ids + [x] {
        assert k !in ids;
      }
    }
  }

  /** Booking one identifier stores one fresh stream and adds one to its parity's counter. */
  lemma BookOne(t: Table, x: StreamId)
    ensures Book(t, [x]) == t.(streams := t.streams[x := Stream(x, false)], openStreams := t.openStreams + [x],
                               numIncomingStreams := t.numIncomingStreams + (if x % 2 == 1 then 1 else 0),
                               numOutgoingStreams := t.numOutgoingStreams + (if x % 2 == 0 then 1 else 0))
  {
    assert [x][1..] == [];
  }

  /** Booking identifiers one at a time books them all. */
  lemma BookSnoc(t: Table, done: seq<StreamId>, x: StreamId)
    ensures Book(t, done + [x]) == Book(Book(t, done), [x])
  {
    AddStreamsSnoc(t.streams, done, x);
    SnocAssoc(t.openStreams, done, x);
    CountParitySnoc(done, x);
    BookOne(Book(t, done), x);
  }

  /** Scanning one more open stream removes it when it has finished. */
  lemma UnfinishedSnoc(m: map<StreamId, Stream>, s: seq<StreamId>, x: StreamId)
    ensures Unfinished(m, s + [x]) == if Finished(m, x) then Unfinished(m, s) - {x} else Unfinished(m, s)
  {
    assert forall k :: k in s + [x] <==> k in s || k == x;
  }

  /** Scanning one more open stream retires it when it has finished. */
  lemma FinishedInSnoc(m: map<StreamId, Stream>, s: seq<StreamId>, x: StreamId)
    ensures FinishedIn(m, s + [x]) == FinishedIn(m, s) + if Finished(m, x) then {x} else {}
  {
    assert forall k :: k in s + [x] <==> k in s || k == x;
  }

  /** Scanning one more open stream keeps it when it has not finished. */
  lemma SurvivorsSnoc(s: seq<StreamId>, x: StreamId, m: map<StreamId, Stream>)
    ensures Survivors(s + [x], m) == Survivors(s, m) + if Finished(m, x) then [] else [x]
  {
    SurvivorsAppend(s, [x], m);
    assert [x][1..] == [];
  }

  /** The parity count of a suffix, one entry at a time. */
  lemma CountParityFrom(s: seq<StreamId>, i: nat)
    requires i < |s|
    ensures CountParity(s[i..], 1) == (if s[i] % 2 == 1 then 1 else 0) + CountParity(s[i + 1..], 1)
    ensures CountParity(s[i..], 0) == (if s[i] % 2 == 0 then 1 else 0) + CountParity(s[i + 1..], 0)
  {
    assert s[i..][0] == s[i] && s[i..][1..] == s[i + 1..];
  }

  /**
   * Where a cursor at `idx` stands after the first `i` open streams were
   * scanned and the finished ones among them removed: moved back by one for
   * each removal before it.
   */
  ghost predicate CursorTracks(open: seq<StreamId>, m: map<StreamId, Stream>, idx: nat, i: nat, kept: seq<StreamId>, cursor: nat)
    requires i <= |open|
  {
    && (i <= idx ==> cursor + i == idx + |kept|)
    && (i >= idx ==> cursor == idx - NumFinished(open[..idx], m) <= |kept|)
  }

  /** Scanning one more stream: the cursor moves back when that stream is removed and lay before it. */
  lemma CursorStep(open: seq<StreamId>, m: map<StreamId, Stream>, idx: nat, i: nat, kept: seq<StreamId>, cursor: nat)
    requires i < |open| && kept == Survivors(open[..i], m) && CursorTracks(open, m, idx, i, kept, cursor)
    ensures var fin := Finished(m, open[i]);
      CursorTracks(open, m, idx, i + 1, kept + (if fin then [] else [open[i]]), if fin && |kept| < cursor then cursor - 1 else cursor)
  {
    if i + 1 == idx {
      assert open[..idx] == open[..i] + [open[i]];
      SurvivorsSnoc(open[..i], open[i], m);
    }
  }

  /** After the whole scan the cursor is where the table's deletion puts it. */
  lemma CursorDone(open: seq<StreamId>, m: map<StreamId, Stream>, idx: nat, kept: seq<StreamId>, cursor: nat)
    requires kept == Survivors(open, m) && CursorTracks(open, m, idx, |open|, kept, cursor)
    ensures cursor == idx - NumFinished(open[..Min(idx, |open|)], m)
  {
    assert open[..|open|] == open;
  }
}
