/**
 * The stream table of one connection, as a value: which streams exist, in
 * which order they were opened, how many of each parity are open, which
 * identifiers are retired, the round-robin cursor, the terminal error and the
 * queue of peer streams waiting to be accepted. Each operation of the table is
 * a function from the old table to the new one and the caller's result; the
 * class in streams_map.dfy implements them in place.
 */
module StreamTable {
  import opened StreamIds
  import opened Seqs

  datatype Option<T> = None | Some(value: T)

  datatype Error =
    | InvalidStreamID(id: StreamId)   // the peer used an identifier it may not open
    | TooManyOpenStreams              // opening would exceed the stream limit
    | Application(message: string)    // any error the connection closes the table with

  datatype Result<T> = Ok(value: T) | Err(error: Error)

  /** A stream reduced to what the table looks at: its identifier and whether it has finished. */
  datatype Stream = Stream(id: StreamId, finished: bool)

  datatype Table = Table(
    role: Role,
    streams: map<StreamId, Stream>,
    openStreams: seq<StreamId>,         // identifiers of the streams in `streams`, in the order they were put in
    numIncomingStreams: nat,            // open streams with an odd identifier
    numOutgoingStreams: nat,            // open streams with an even identifier
    maxIncomingStreams: nat,
    maxOutgoingStreams: nat,            // from the peer's transport parameters; 0 until they arrive
    roundRobinIndex: nat,
    nextStream: StreamId,               // the identifier the next own open hands out
    nextPeerStream: StreamId,           // the lowest peer identifier not yet seen
    retired: set<StreamId>,             // deleted identifiers, never opened again
    closeErr: Option<Error>,
    pendingAccept: seq<StreamId>)       // peer streams opened but not yet accepted

  // ---------------------------------------------------------------------------
  // Derived quantities

  /** The counter a peer-opened stream is booked on: its parity's counter. */
  function PeerCount(t: Table): nat {
    if t.role == Server then t.numIncomingStreams else t.numOutgoingStreams
  }

  /** The counter a self-opened stream is booked on. */
  function OwnCount(t: Table): nat {
    if t.role == Server then t.numOutgoingStreams else t.numIncomingStreams
  }

  /**
   * The limit on self-opened streams: for a server the peer's transport
   * parameter, for a client the same bound as for incoming streams.
   */
  function OwnLimit(t: Table): nat {
    if t.role == Server then t.maxOutgoingStreams else t.maxIncomingStreams
  }

  /** The table has seen `k`: it is open or retired. */
  ghost predicate Known(t: Table, k: StreamId) {
    k in t.streams || k in t.retired
  }

  /** `k` lies below the next identifier of its side, so it has been handed out already. */
  ghost predicate Allocated(t: Table, k: StreamId) {
    1 <= k < (if IsOwn(t.role, k) then t.nextStream else t.nextPeerStream)
  }

  predicate Finished(m: map<StreamId, Stream>, k: StreamId) {
    k in m && m[k].finished
  }

  /** The entries of `s` whose stream has not finished, in their original order. */
  function Survivors(s: seq<StreamId>, m: map<StreamId, Stream>): seq<StreamId> {
    if s == [] then []
    else (if Finished(m, s[0]) then [] else [s[0]]) + Survivors(s[1..], m)
  }

  /** The survivors are exactly the entries whose stream has not finished. */
  lemma {:induction false} SurvivorsElems(s: seq<StreamId>, m: map<StreamId, Stream>)
    ensures forall k :: k in Survivors(s, m) <==> k in s && !Finished(m, k)
  {
    if s != [] {
      SurvivorsElems(s[1..], m);
      assert forall k :: k in s <==> k == s[0] || k in s[1..];
    }
  }

  /** How many entries of `s` belong to finished streams. */
  function NumFinished(s: seq<StreamId>, m: map<StreamId, Stream>): (n: nat)
    ensures n + |Survivors(s, m)| == |s|
  {
    if s == [] then 0
    else (if Finished(m, s[0]) then 1 else 0) + NumFinished(s[1..], m)
  }

  /** `m` without the finished streams that `s` lists. */
  function Unfinished(m: map<StreamId, Stream>, s: seq<StreamId>): map<StreamId, Stream> {
    map k | k in m && !(k in s && m[k].finished) :: m[k]
  }

  /** The identifiers of the finished streams that `s` lists. */
  function FinishedIn(m: map<StreamId, Stream>, s: seq<StreamId>): set<StreamId> {
    set k | k in m && k in s && m[k].finished
  }

  /** `m` with a fresh, unfinished stream for every identifier of `ids`. */
  function AddStreams(m: map<StreamId, Stream>, ids: seq<StreamId>): (r: map<StreamId, Stream>)
    ensures forall k :: k in r <==> k in m || k in ids
    ensures forall k :: k in ids ==> r[k] == Stream(k, false)
    ensures forall k :: k in m && k !in ids ==> r[k] == m[k]
    decreases |ids|
  {
    if ids == [] then m
    else AddStreams(m[ids[0] := Stream(ids[0], false)], ids[1..])
  }

  function Min(a: nat, b: nat): nat {
    if a < b then a else b
  }

  // ---------------------------------------------------------------------------
  // The invariant

  /** Every stream is stored under its own identifier. */
  ghost predicate Keyed(t: Table) {
    forall k :: k in t.streams ==> t.streams[k].id == k
  }

  /** `openStreams` lists each stored stream exactly once. */
  ghost predicate Mirrored(t: Table) {
    NoDup(t.openStreams) && forall k :: k in t.openStreams <==> k in t.streams
  }

  /** The two counters count the open streams of each parity. */
  ghost predicate Counted(t: Table) {
    t.numIncomingStreams == CountParity(t.openStreams, 1)
    && t.numOutgoingStreams == CountParity(t.openStreams, 0)
  }

  /**
   * The next identifiers have the right parity, and exactly the identifiers
   * below them are open or retired (never both).
   */
  ghost predicate Numbered(t: Table) {
    && IsOwn(t.role, t.nextStream) && t.nextStream >= FirstOwn(t.role)
    && IsPeer(t.role, t.nextPeerStream) && t.nextPeerStream >= FirstPeer(t.role)
    && t.streams.Keys !! t.retired
    && forall k :: Known(t, k) <==> Allocated(t, k)
  }

  /** The pending-accept queue holds allocated peer identifiers, lowest first. */
  ghost predicate Queued(t: Table) {
    Ascending(t.pendingAccept)
    && forall k :: k in t.pendingAccept ==> IsPeer(t.role, k) && Allocated(t, k)
  }

  /** The round-robin cursor points into the open list, or just past its end after a deletion. */
  ghost predicate Cursored(t: Table) {
    t.roundRobinIndex <= |t.openStreams|
  }

  ghost predicate Valid(t: Table) {
    Keyed(t) && Mirrored(t) && Counted(t) && Numbered(t) && Queued(t) && Cursored(t)
    && PeerCount(t) <= t.maxIncomingStreams
  }

  // ---------------------------------------------------------------------------
  // The operations

  /** A new table: nothing open, no transport parameters yet. */
  function Initial(role: Role, maxIncoming: nat): (t: Table)
    ensures Valid(t)
  {
    Table(role, map[], [], 0, 0, maxIncoming, 0, 0, FirstOwn(role), FirstPeer(role), {}, None, [])
  }

  /** Puts fresh streams for `ids` into the table, appended in order, each booked on its parity's counter. */
  function Book(t: Table, ids: seq<StreamId>): Table {
    t.(streams := AddStreams(t.streams, ids),
       openStreams := t.openStreams + ids,
       numIncomingStreams := t.numIncomingStreams + CountParity(ids, 1),
       numOutgoingStreams := t.numOutgoingStreams + CountParity(ids, 0))
  }

  /**
   * A frame names stream `id`: return the open stream, nothing for a retired
   * one, fail for an identifier the peer may not open, or open the peer
   * streams up to `id` (all of them or none).
   */
  function GetOrOpen(t: Table, id: StreamId): (Table, Result<Option<Stream>>) {
    if id in t.streams then (t, Ok(Some(t.streams[id])))
    else if id in t.retired then (t, Ok(None))
    else if IsOwn(t.role, id) || id < t.nextPeerStream then (t, Err(InvalidStreamID(id)))
    else
      var ids := Sweep(t.nextPeerStream, id);
      if PeerCount(t) + |ids| > t.maxIncomingStreams then (t, Err(TooManyOpenStreams))
      else
        var t' := Book(t, ids);
        (t'.(nextPeerStream := id + 2, pendingAccept := t.pendingAccept + ids), Ok(Some(Stream(id, false))))
  }

  /** Opens the next self-initiated stream, unless the table is closed or the limit is reached. */
  function Open(t: Table): (Table, Result<Stream>) {
    if t.closeErr.Some? then (t, Err(t.closeErr.value))
    else if OwnCount(t) >= OwnLimit(t) then (t, Err(TooManyOpenStreams))
    else (Book(t, [t.nextStream]).(nextStream := t.nextStream + 2), Ok(Stream(t.nextStream, false)))
  }

  /** The peer's transport parameters set a server's limit on self-opened streams. */
  function UpdateTransportParameters(t: Table, maxStreams: nat): Table {
    t.(maxOutgoingStreams := maxStreams)
  }

  /** Registers the terminal error; the first one registered stays. */
  function CloseWithError(t: Table, e: Error): Table {
    if t.closeErr.None? then t.(closeErr := Some(e)) else t
  }

  /**
   * The pending-accept queue with its leading entries dropped that are no
   * longer open: streams deleted before anyone accepted them.
   */
  function Waiting(q: seq<StreamId>, m: map<StreamId, Stream>): (r: seq<StreamId>)
    ensures |r| <= |q|
    ensures r != [] ==> r[0] in m
  {
    if q == [] || q[0] in m then q else Waiting(q[1..], m)
  }

  /**
   * Hands out the lowest pending peer stream that is still open, Ok(None) when
   * there is none to hand out now (the blocking call would wait), or the
   * terminal error. Pending streams deleted before being accepted are dropped.
   */
  function Accept(t: Table): (Table, Result<Option<Stream>>) {
    if t.closeErr.Some? then (t, Err(t.closeErr.value))
    else
      var q := Waiting(t.pendingAccept, t.streams);
      if q == [] then (t.(pendingAccept := q), Ok(None))
      else (t.(pendingAccept := q[1..]), Ok(Some(t.streams[q[0]])))
  }

  /** The owner of stream `id` closes both of its sides: the stream has finished. */
  function MarkFinished(t: Table, id: StreamId): Table
    requires id in t.streams
  {
    t.(streams := t.streams[id := t.streams[id].(finished := true)])
  }

  /** Where the cursor goes when the finished streams are removed: back by those removed before it. */
  function CursorAfterDelete(t: Table): nat {
    t.roundRobinIndex - NumFinished(t.openStreams[..Min(t.roundRobinIndex, |t.openStreams|)], t.streams)
  }

  /** Removes every finished stream, retires its identifier and moves the cursor with the survivors. */
  function DeleteClosed(t: Table): Table {
    var open := Survivors(t.openStreams, t.streams);
    t.(streams := Unfinished(t.streams, t.openStreams),
       openStreams := open,
       numIncomingStreams := CountParity(open, 1),
       numOutgoingStreams := CountParity(open, 0),
       retired := t.retired + FinishedIn(t.streams, t.openStreams),
       roundRobinIndex := CursorAfterDelete(t))
  }
}
