/**
 * The scheduling pass over the stream table: the crypto stream (1) and the
 * header stream (3) are offered first, then every other open stream once, in
 * insertion order with wrap-around, starting at the round-robin cursor. The
 * scheduler's callback is modelled as a function of the stream and of how many
 * streams it has already been offered in this pass.
 */
module RoundRobin {
  import opened StreamIds
  import opened Seqs
  import opened StreamTable

  /** The callback's answer for one stream: go on, stop the pass, or abort it with an error. */
  datatype Reply = Continue | Stop | Fail(err: Error)

  /**
   * The outcome of offering a list of candidates: the streams offered, how
   * many positions the cursor moves past, whether the pass ended early, and
   * the error that aborted it.
   */
  datatype Pass = Pass(visited: seq<StreamId>, steps: nat, halted: bool, err: Option<Error>)

  /** The outcome of a whole scheduling pass: the new cursor, the streams offered and the error. */
  datatype Schedule = Schedule(cursor: nat, visited: seq<StreamId>, err: Option<Error>)

  /** The crypto and the header stream, offered before the rotation on every pass. */
  const Priority: seq<StreamId> := [1, 3]

  /**
   * Offers the streams named by `ids` in order. Entries in `skip` and entries
   * without a stream in `m` are stepped over; a Stop ends the pass after its
   * stream, a Fail ends it without moving the cursor past its stream.
   */
  function Run(ids: seq<StreamId>, m: map<StreamId, Stream>, skip: set<StreamId>,
               visit: (Stream, nat) -> Reply, count: nat): (p: Pass)
    ensures p.steps <= |ids| && |p.visited| <= |ids|
    ensures p.err.Some? ==> p.halted
    ensures p.halted ==> |p.visited| >= 1
    decreases |ids|
  {
    if ids == [] then Pass([], 0, false, None)
    else if ids[0] in skip || ids[0] !in m then
      var rest := Run(ids[1..], m, skip, visit, count);
      rest.(steps := rest.steps + 1)
    else match visit(m[ids[0]], count)
      case Continue =>
        var rest := Run(ids[1..], m, skip, visit, count + 1);
        rest.(visited := [ids[0]] + rest.visited, steps := rest.steps + 1)
      case Stop => Pass([ids[0]], 1, true, None)
      case Fail(e) => Pass([ids[0]], 0, true, Some(e))
  }

  /** The entries of `ids` that a pass would offer if the callback never stopped it. */
  function Eligible(ids: seq<StreamId>, m: map<StreamId, Stream>, skip: set<StreamId>): (r: seq<StreamId>)
    ensures forall k :: k in r <==> k in ids && k !in skip && k in m
  {
    if ids == [] then []
    else (if ids[0] in skip || ids[0] !in m then [] else [ids[0]]) + Eligible(ids[1..], m, skip)
  }

  /**
   * The same walk as Run, over `ids` from index `i` on: the form the
   * scheduling loops follow, position by position.
   */
  function RunFrom(ids: seq<StreamId>, i: nat, m: map<StreamId, Stream>, skip: set<StreamId>,
                   visit: (Stream, nat) -> Reply, count: nat): (p: Pass)
    requires i <= |ids|
    decreases |ids| - i
  {
    if i == |ids| then Pass([], 0, false, None)
    else if ids[i] in skip || ids[i] !in m then
      var rest := RunFrom(ids, i + 1, m, skip, visit, count);
      rest.(steps := rest.steps + 1)
    else match visit(m[ids[i]], count)
      case Continue =>
        var rest := RunFrom(ids, i + 1, m, skip, visit, count + 1);
        rest.(visited := [ids[i]] + rest.visited, steps := rest.steps + 1)
      case Stop => Pass([ids[i]], 1, true, None)
      case Fail(e) => Pass([ids[i]], 0, true, Some(e))
  }

  /** `s` read from position `start` on, wrapping around to its beginning. */
  function Rotate(s: seq<StreamId>, start: nat): (r: seq<StreamId>)
    requires start <= |s|
  {
    s[start..] + s[..start]
  }

  /** `k` reduced by `n` once, for 0 <= k < 2 * n. */
  function Wrap(k: nat, n: nat): nat {
    if k < n then k else k - n
  }

  function PriorityPass(t: Table, visit: (Stream, nat) -> Reply): Pass {
    Run(Priority, t.streams, {}, visit, 0)
  }

  /** The rotation part of a pass; meaningful when the table has open streams. */
  function LapPass(t: Table, visit: (Stream, nat) -> Reply): Pass {
    var n := |t.openStreams|;
    if n == 0 then Pass([], 0, false, None)
    else Run(Rotate(t.openStreams, t.roundRobinIndex % n), t.streams, {1, 3}, visit,
             |PriorityPass(t, visit).visited|)
  }

  /** One scheduling pass: the priority streams, then one lap of the rotation unless stopped. */
  function Iterate(t: Table, visit: (Stream, nat) -> Reply): Schedule {
    var prio := PriorityPass(t, visit);
    var n := |t.openStreams|;
    if prio.halted || n == 0 then Schedule(t.roundRobinIndex, prio.visited, prio.err)
    else
      var lap := LapPass(t, visit);
      var cursor := if lap.steps == 0 then t.roundRobinIndex
                    else Wrap(t.roundRobinIndex % n + lap.steps, n);
      Schedule(cursor, prio.visited + lap.visited, lap.err)
  }

  // ---------------------------------------------------------------------------
  // Walking a list of candidates

  /** Walking from index `i` is walking the suffix that starts there. */
  lemma {:induction false} RunFromSuffix(ids: seq<StreamId>, i: nat, m: map<StreamId, Stream>, skip: set<StreamId>,
                                         visit: (Stream, nat) -> Reply, count: nat)
    requires i <= |ids|
    ensures RunFrom(ids, i, m, skip, visit, count) == Run(ids[i..], m, skip, visit, count)
    decreases |ids| - i
  {
    if i < |ids| {
      assert ids[i..][1..] == ids[i + 1..];
      RunFromSuffix(ids, i + 1, m, skip, visit, count);
      RunFromSuffix(ids, i + 1, m, skip, visit, count + 1);
    }
  }

  /** When the callback never stops the pass, every eligible candidate is offered and the cursor moves past all positions. */
  lemma {:induction false} RunAllContinue(ids: seq<StreamId>, m: map<StreamId, Stream>, skip: set<StreamId>,
                                          visit: (Stream, nat) -> Reply, count: nat)
    requires forall st, c :: visit(st, c) == Continue
    ensures Run(ids, m, skip, visit, count) == Pass(Eligible(ids, m, skip), |ids|, false, None)
    decreases |ids|
  {
    if ids != [] {
      if ids[0] in skip || ids[0] !in m {
        RunAllContinue(ids[1..], m, skip, visit, count);
      } else {
        assert visit(m[ids[0]], count) == Continue;
        RunAllContinue(ids[1..], m, skip, visit, count + 1);
      }
    }
  }

  /** Whatever the callback answers, the streams offered are a prefix of the eligible candidates. */
  lemma {:induction false} RunPrefix(ids: seq<StreamId>, m: map<StreamId, Stream>, skip: set<StreamId>,
                                     visit: (Stream, nat) -> Reply, count: nat)
    ensures Run(ids, m, skip, visit, count).visited <= Eligible(ids, m, skip)
    decreases |ids|
  {
    if ids != [] {
      if ids[0] in skip || ids[0] !in m {
        RunPrefix(ids[1..], m, skip, visit, count);
      } else if visit(m[ids[0]], count).Continue? {
        RunPrefix(ids[1..], m, skip, visit, count + 1);
      }
    }
  }

  /**
   * A pass that a Stop ended moved the cursor just past the stream that
   * stopped it; one that a Fail ended left the cursor on the failing stream.
   */
  lemma {:induction false} RunEndsAt(ids: seq<StreamId>, m: map<StreamId, Stream>, skip: set<StreamId>,
                                     visit: (Stream, nat) -> Reply, count: nat)
    ensures var p := Run(ids, m, skip, visit, count);
      p.halted && p.err.None? ==> 1 <= p.steps && ids[p.steps - 1] == p.visited[|p.visited| - 1]
    ensures var p := Run(ids, m, skip, visit, count);
      p.err.Some? ==> p.steps < |ids| && ids[p.steps] == p.visited[|p.visited| - 1]
    decreases |ids|
  {
    if ids != [] {
      if ids[0] in skip || ids[0] !in m {
        RunEndsAt(ids[1..], m, skip, visit, count);
      } else if visit(m[ids[0]], count).Continue? {
        RunEndsAt(ids[1..], m, skip, visit, count + 1);
      }
    }
  }

  lemma {:induction false} EligibleNoDup(ids: seq<StreamId>, m: map<StreamId, Stream>, skip: set<StreamId>)
    requires NoDup(ids)
    ensures NoDup(Eligible(ids, m, skip))
  {
    if ids != [] {
      assert NoDup(ids[1..]) by {
        forall i, j | 0 <= i < j < |ids[1..]| ensures ids[1..][i] != ids[1..][j] {
          assert ids[1..][i] == ids[i + 1] && ids[1..][j] == ids[j + 1];
        }
      }
      assert ids[0] !in ids[1..] by {
        forall j | 0 <= j < |ids[1..]| ensures ids[1..][j] != ids[0] {
          assert ids[1..][j] == ids[j + 1];
        }
      }
      EligibleNoDup(ids[1..], m, skip);
      NoDupAppend(if ids[0] in skip || ids[0] !in m then [] else [ids[0]], Eligible(ids[1..], m, skip));
    }
  }

  /** A rotation holds the same identifiers, each once, and reads the original with wrap-around. */
  lemma RotateFacts(s: seq<StreamId>, start: nat)
    requires start <= |s| && NoDup(s)
    ensures |Rotate(s, start)| == |s|
    ensures forall k :: k in Rotate(s, start) <==> k in s
    ensures forall i :: 0 <= i < |s| ==> Rotate(s, start)[i] == s[Wrap(start + i, |s|)]
    ensures NoDup(Rotate(s, start))
  {
    var r := Rotate(s, start);
    assert forall k :: k in s ==> k in r by {
      forall k | k in s ensures k in r {
        var i :| 0 <= i < |s| && s[i] == k;
        if i < start { assert r[|s| - start + i] == k; } else { assert r[i - start] == k; }
      }
    }
    forall i, j | 0 <= i < j < |r| ensures r[i] != r[j] {
      assert r[i] == s[Wrap(start + i, |s|)] && r[j] == s[Wrap(start + j, |s|)];
    }
  }

  // ---------------------------------------------------------------------------
  // Properties of a whole pass

  /** The order a pass follows when nothing stops it. */
  function FullOrder(t: Table): seq<StreamId> {
    var n := |t.openStreams|;
    Eligible(Priority, t.streams, {})
      + (if n == 0 then [] else Eligible(Rotate(t.openStreams, t.roundRobinIndex % n), t.streams, {1, 3}))
  }

  /** FullOrder starts with the priority streams 1 and 3 that are open, in that order. */
  lemma FullOrderPriorityFirst(t: Table)
    ensures FullOrder(t)[..|Eligible(Priority, t.streams, {})|] == Eligible(Priority, t.streams, {})
    ensures forall k :: k in Eligible(Priority, t.streams, {}) <==> k in t.streams && (k == 1 || k == 3)
  {
    var n := |t.openStreams|;
    var head := Eligible(Priority, t.streams, {});
    var tail := if n == 0 then [] else Eligible(Rotate(t.openStreams, t.roundRobinIndex % n), t.streams, {1, 3});
    assert FullOrder(t) == head + tail;
    assert (head + tail)[..|head|] == head;
  }

  /** FullOrder offers every open stream exactly once. */
  lemma FullOrderExactlyOnce(t: Table)
    requires Mirrored(t)
    ensures NoDup(FullOrder(t))
    ensures forall k :: k in FullOrder(t) <==> k in t.streams
  {
    var n := |t.openStreams|;
    var head := Eligible(Priority, t.streams, {});
    assert NoDup(Priority);
    EligibleNoDup(Priority, t.streams, {});
    if n == 0 {
      assert FullOrder(t) == head;
      assert forall k :: k !in t.streams by {
        forall k ensures k !in t.streams { assert k !in t.openStreams; }
      }
    } else {
      var rot := Rotate(t.openStreams, t.roundRobinIndex % n);
      RotateFacts(t.openStreams, t.roundRobinIndex % n);
      EligibleNoDup(rot, t.streams, {1, 3});
      NoDupAppend(head, Eligible(rot, t.streams, {1, 3}));
    }
  }

  /**
   * A pass the callback never stops offers streams 1 and 3 first and then
   * every other open stream once, in wrap-around order from the cursor; it
   * leaves the cursor where it was (reduced modulo the number of streams).
   */
  lemma FullLap(t: Table, visit: (Stream, nat) -> Reply)
    requires forall st, c :: visit(st, c) == Continue
    ensures Iterate(t, visit).visited == FullOrder(t)
    ensures Iterate(t, visit).err == None
    ensures |t.openStreams| > 0 ==> Iterate(t, visit).cursor == t.roundRobinIndex % |t.openStreams|
    ensures t.roundRobinIndex < |t.openStreams| ==> Iterate(t, visit).cursor == t.roundRobinIndex
  {
    RunAllContinue(Priority, t.streams, {}, visit, 0);
    var n := |t.openStreams|;
    if n > 0 {
      var s := t.roundRobinIndex % n;
      assert t.roundRobinIndex < n ==> s == t.roundRobinIndex;
      var rot := Rotate(t.openStreams, s);
      RunAllContinue(rot, t.streams, {1, 3}, visit, |PriorityPass(t, visit).visited|);
      assert |rot| == n;
    }
  }

  /** Every pass, however the callback answers, offers a prefix of FullOrder: no stream twice. */
  lemma PassIsPrefix(t: Table, visit: (Stream, nat) -> Reply)
    requires Mirrored(t)
    ensures Iterate(t, visit).visited <= FullOrder(t)
    ensures NoDup(Iterate(t, visit).visited)
  {
    var n := |t.openStreams|;
    var prio := PriorityPass(t, visit);
    var head := Eligible(Priority, t.streams, {});
    var v := Iterate(t, visit).visited;
    RunPrefix(Priority, t.streams, {}, visit, 0);
    if prio.halted || n == 0 {
      assert v == prio.visited;
      PrefixOfJoin(prio.visited, head, FullOrder(t)[|head|..]);
    } else {
      RunAllContinuePrefix(t, visit);
      var rot := Rotate(t.openStreams, t.roundRobinIndex % n);
      var lap := LapPass(t, visit);
      RunPrefix(rot, t.streams, {1, 3}, visit, |prio.visited|);
      assert v == head + lap.visited;
      assert FullOrder(t) == head + Eligible(rot, t.streams, {1, 3});
    }
    FullOrderExactlyOnce(t);
    PrefixNoDup(v, FullOrder(t));
  }

  lemma PrefixOfJoin(a: seq<StreamId>, b: seq<StreamId>, c: seq<StreamId>)
    requires a <= b
    ensures a <= b + c
  {
    assert (b + c)[..|a|] == b[..|a|];
  }

  lemma PrefixNoDup(a: seq<StreamId>, b: seq<StreamId>)
    requires a <= b && NoDup(b)
    ensures NoDup(a)
  {
    forall i, j | 0 <= i < j < |a| ensures a[i] != a[j] {
      assert a[i] == b[i] && a[j] == b[j];
    }
  }

  /** A priority pass that ran to its end offered all of the priority streams present. */
  lemma RunAllContinuePrefix(t: Table, visit: (Stream, nat) -> Reply)
    requires !PriorityPass(t, visit).halted
    ensures PriorityPass(t, visit).visited == Eligible(Priority, t.streams, {})
  {
    RunUnhalted(Priority, t.streams, {}, visit, 0);
  }

  lemma {:induction false} RunUnhalted(ids: seq<StreamId>, m: map<StreamId, Stream>, skip: set<StreamId>,
                                       visit: (Stream, nat) -> Reply, count: nat)
    requires !Run(ids, m, skip, visit, count).halted
    ensures Run(ids, m, skip, visit, count).visited == Eligible(ids, m, skip)
    ensures Run(ids, m, skip, visit, count).steps == |ids|
    decreases |ids|
  {
    if ids != [] {
      if ids[0] in skip || ids[0] !in m {
        RunUnhalted(ids[1..], m, skip, visit, count);
      } else {
        RunUnhalted(ids[1..], m, skip, visit, count + 1);
      }
    }
  }

  /**
   * When the callback stops the rotation, the cursor is left one past the
   * position of the last stream offered, so the next pass starts after it.
   */
  lemma StopResumesAfter(t: Table, visit: (Stream, nat) -> Reply)
    requires Mirrored(t) && |t.openStreams| > 0
    requires !PriorityPass(t, visit).halted
    requires LapPass(t, visit).halted && LapPass(t, visit).err.None?
    ensures var r := Iterate(t, visit); var n := |t.openStreams|;
      r.cursor < n && t.openStreams[if r.cursor == 0 then n - 1 else r.cursor - 1] == r.visited[|r.visited| - 1]
  {
    var n := |t.openStreams|;
    var s := t.roundRobinIndex % n;
    var rot := Rotate(t.openStreams, s);
    var prio := PriorityPass(t, visit);
    var lap := LapPass(t, visit);
    assert lap == Run(rot, t.streams, {1, 3}, visit, |prio.visited|);
    RunEndsAt(rot, t.streams, {1, 3}, visit, |prio.visited|);
    var last := lap.visited[|lap.visited| - 1];
    assert rot[lap.steps - 1] == last;
    RotateAt(t.openStreams, s, lap.steps - 1);
    WrapBefore(s, lap.steps, n);
    var r := Iterate(t, visit);
    assert r == Schedule(Wrap(s + lap.steps, n), prio.visited + lap.visited, lap.err);
  }

  /**
   * A pass keeps the cursor within the open list, and a lap that stepped over
   * at least one position leaves it on an entry of the list.
   */
  lemma IterateCursorBound(t: Table, visit: (Stream, nat) -> Reply)
    requires Cursored(t)
    ensures Iterate(t, visit).cursor <= |t.openStreams|
    ensures |t.openStreams| > 0 && !PriorityPass(t, visit).halted && LapPass(t, visit).steps > 0 ==>
      Iterate(t, visit).cursor < |t.openStreams|
  {
    var n := |t.openStreams|;
    if n > 0 && !PriorityPass(t, visit).halted && LapPass(t, visit).steps > 0 {
      var s := t.roundRobinIndex % n;
      assert |Rotate(t.openStreams, s)| == n;
      WrapBefore(s, LapPass(t, visit).steps, n);
    }
  }

  lemma RotateAt(s: seq<StreamId>, start: nat, i: nat)
    requires start < |s| && i < |s|
    ensures Rotate(s, start)[i] == s[Wrap(start + i, |s|)]
  {
  }

  lemma WrapBefore(s: nat, steps: nat, n: nat)
    requires s < n && 1 <= steps <= n
    ensures Wrap(s + steps, n) < n
    ensures (if Wrap(s + steps, n) == 0 then n - 1 else Wrap(s + steps, n) - 1) == Wrap(s + steps - 1, n)
  {
  }
}
