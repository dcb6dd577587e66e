/**
 * The subscription that feeds incoming payments to the wallet: batches are fetched from event
 * streams, handed to a queue, and the position is saved to a progress file after each round.
 */
module PubSub {
  import opened Wrappers
  import opened Transfers

  type Progress = map<string, nat>

  /** The node: immutable event streams by key, and how much of each is visible at the moment. */
  type Streams = map<string, seq<Event>>

  const FETCH_BATCH_SIZE := 10

  /** How much of a stream the node shows. */
  function Height(streams: Streams, heights: map<string, nat>, key: string): (height: nat)
    requires key in streams
    ensures height <= |streams[key]|
  {
    if key in heights && heights[key] <= |streams[key]| then heights[key] else 0
  }

  function BatchSize(height: nat, start: nat): nat
  {
    if height <= start then 0 else if height - start < FETCH_BATCH_SIZE then height - start else FETCH_BATCH_SIZE
  }

  function GetEvents(streams: Streams, heights: map<string, nat>, key: string, start: nat): (events: seq<Event>)
    requires key in streams
    ensures |events| == BatchSize(Height(streams, heights, key), start)
    ensures events != [] ==> start + |events| <= |streams[key]| && events == streams[key][start..start + |events|]
  {
    var height := Height(streams, heights, key);
    if start >= height then []
    else streams[key][start..if start + FETCH_BATCH_SIZE < height then start + FETCH_BATCH_SIZE else height]
  }

  predicate Carries(streams: Streams, e: Event)
  {
    exists key, i :: key in streams && 0 <= i < |streams[key]| && streams[key][i] == e
  }

  predicate InRange(streams: Streams, state: Progress)
  {
    forall key :: key in state && key in streams ==> state[key] <= |streams[key]|
  }

  /**
   * What one round leaves behind: the queue only grew by stream events, and a position moved only
   * past events that are all in the queue.
   */
  ghost predicate RoundEffect(streams: Streams, state: Progress, after: Progress, queue: seq<Event>, queue': seq<Event>)
  {
    && after.Keys == state.Keys
    && queue <= queue'
    && (forall e :: e in queue' ==> e in queue || Carries(streams, e))
    && (forall key :: key in state ==> KeyEffect(streams, key, state[key], after[key], queue'))
  }

  predicate KeyEffect(streams: Streams, key: string, from: nat, to: nat, queue: seq<Event>)
  {
    && from <= to
    && (key in streams && from <= |streams[key]| ==> to <= |streams[key]|)
    && (from < to ==> key in streams && (forall i :: from <= i < to && i < |streams[key]| ==> streams[key][i] in queue))
  }

  // ---- One round, exactly ----

  /** Keys the node does not know, and keys an exception strikes. */
  predicate Fails(streams: Streams, faults: map<string, nat>, key: string) { key !in streams || key in faults }

  /** A failing key stays; any other moves by a full batch, or to what is visible. */
  function Position(streams: Streams, heights: map<string, nat>, faults: map<string, nat>, key: string, start: nat): nat
  {
    if Fails(streams, faults, key) then start else start + BatchSize(Height(streams, heights, key), start)
  }

  function Positions(streams: Streams, heights: map<string, nat>, faults: map<string, nat>, state: Progress): Progress
  {
    map key | key in state :: Position(streams, heights, faults, key, state[key])
  }

  /** The batch of one key, up to the exception if one strikes within it. */
  function HandedOver(streams: Streams, heights: map<string, nat>, faults: map<string, nat>, key: string, start: nat): seq<Event>
  {
    if key !in streams then []
    else
      var events := GetEvents(streams, heights, key, start);
      if key in faults && faults[key] < |events| then events[..faults[key]] else events
  }

  /** The order of a dictionary: its keys, each once. */
  predicate IsOrder<K(==)>(order: seq<K>, keys: set<K>)
  {
    && (forall i :: 0 <= i < |order| ==> order[i] in keys) && (forall key :: key in keys ==> key in order)
    && (forall i, j :: 0 <= i < j < |order| ==> order[i] != order[j])
  }

  // The first n keys of a round, in their order.

  /** The queue they leave. */
  function Queued(streams: Streams, heights: map<string, nat>, faults: map<string, nat>, state: Progress, order: seq<string>, n: nat,
                  queue: seq<Event>): seq<Event>
    requires IsOrder(order, state.Keys) && n <= |order|
  {
    if n == 0 then queue
    else
      Queued(streams, heights, faults, state, order, n - 1, queue)
      + HandedOver(streams, heights, faults, order[n - 1], state[order[n - 1]])
  }

  predicate NoneFails(streams: Streams, faults: map<string, nat>, order: seq<string>, n: nat)
    requires n <= |order|
  {
    n == 0 || (NoneFails(streams, faults, order, n - 1) && !Fails(streams, faults, order[n - 1]))
  }

  /** The positions they leave. */
  function Moved(streams: Streams, heights: map<string, nat>, faults: map<string, nat>, state: Progress, order: seq<string>, n: nat): Progress
    requires IsOrder(order, state.Keys) && n <= |order|
  {
    if n == 0 then state
    else
      var before, key := Moved(streams, heights, faults, state, order, n - 1), order[n - 1];
      if Fails(streams, faults, key) then before else before[key := Position(streams, heights, faults, key, state[key])]
  }

  /** State after a restart: the saved positions, and 0 for accounts never seen before. */
  function InitialProgress(saved: Progress, accountKeys: seq<Option<string>>): (state: Progress)
    ensures forall key :: key in state <==> key in saved || Some(key) in accountKeys
    ensures forall key :: key in state ==> state[key] == if key in saved then saved[key] else 0
  {
    if |accountKeys| == 0 then saved
    else
      var n := |accountKeys| - 1;
      var before := InitialProgress(saved, accountKeys[..n]);
      assert accountKeys == accountKeys[..n] + [accountKeys[n]];
      if accountKeys[n].Some? && accountKeys[n].value !in before then before[accountKeys[n].value := 0] else before
  }

  class LRWPubSubClient {
    const streams: Streams
    /** Contents of the progress file; None when it is missing or not readable as JSON. */
    var progressFile: Option<Progress>
    /** Messages handed to the background worker, oldest first. */
    var queue: seq<Event>

    constructor (streams: Streams)
      ensures this.streams == streams && progressFile == None && queue == []
    {
      this.streams := streams;
      progressFile, queue := None, [];
    }

    method FetchState() returns (state: Progress)
      ensures state == if progressFile.Some? then progressFile.value else map[]
    {
      match progressFile
      case Some(saved) => state := saved;
      case None => state := map[];
    }

    /** `accountKeys` is the received-events key of each configured account, None when unknown. */
    method InitProgressState(accountKeys: seq<Option<string>>) returns (state: Progress)
      ensures state == InitialProgress(if progressFile.Some? then progressFile.value else map[], accountKeys)
    {
      state := FetchState();
      ghost var saved := state;
      for i := 0 to |accountKeys|
        invariant state == InitialProgress(saved, accountKeys[..i])
      {
        assert accountKeys[..i + 1][..i] == accountKeys[..i];
        if accountKeys[i].Some? && accountKeys[i].value !in state {
          state := state[accountKeys[i].value := 0];
        }
      }
      assert accountKeys[..|accountKeys|] == accountKeys;
    }

    /** Fetches one batch and hands it over, unless the node does not know the key or an exception strikes. */
    method HandOver(key: string, sequenceNum: nat, heights: map<string, nat>, faults: map<string, nat>)
      returns (failed: bool, count: nat)
      modifies this`queue
      ensures failed == Fails(streams, faults, key)
      ensures sequenceNum + count == Position(streams, heights, faults, key, sequenceNum)
      ensures queue == old(queue) + HandedOver(streams, heights, faults, key, sequenceNum)
    {
      if key !in streams {
        return true, 0;
      }
      var events := GetEvents(streams, heights, key, sequenceNum);
      var i := 0;
      while i < |events| && !(key in faults && faults[key] == i)
        invariant 0 <= i <= |events| && (key in faults ==> i <= faults[key])
        invariant queue == old(queue) + events[..i]
      {
        queue := queue + [events[i]];
        i := i + 1;
      }
      assert events[..i] == HandedOver(streams, heights, faults, key, sequenceNum);
      failed := key in faults;
      count := if failed then 0 else |events|;
    }

    /** The turn of one key. */
    method SyncKey(state: Progress, order: seq<string>, turn: nat, after: Progress, heights: map<string, nat>, faults: map<string, nat>,
                   ghost before: seq<Event>)
      returns (failed: bool, after': Progress)
      requires IsOrder(order, state.Keys) && turn < |order|
      requires after == Moved(streams, heights, faults, state, order, turn)
      requires queue == Queued(streams, heights, faults, state, order, turn, before)
      modifies this`queue
      ensures failed == Fails(streams, faults, order[turn])
      ensures after' == Moved(streams, heights, faults, state, order, turn + 1)
      ensures queue == Queued(streams, heights, faults, state, order, turn + 1, before)
    {
      var count;
      failed, count := HandOver(order[turn], state[order[turn]], heights, faults);
      after' := if failed then after else after[order[turn] := state[order[turn]] + count];
    }

    /**
     * One round over all keys, in the order of the dictionary. `faults[key]` is the number of events of
     * that key handed over before an exception; unless errors are caught the round stops there without
     * saving, after `visited` keys.
     */
    method Sync(state: Progress, order: seq<string>, catchError: bool, heights: map<string, nat>, faults: map<string, nat>)
      returns (result: Result<Progress, ()>, ghost visited: nat)
      requires IsOrder(order, state.Keys)
      modifies this
      ensures result.Err? <==> !catchError && exists key :: key in state && Fails(streams, faults, key)
      ensures result.Ok? ==> result.value == Positions(streams, heights, faults, state) && progressFile == Some(result.value)
      ensures result.Err? ==> progressFile == old(progressFile)
      ensures visited <= |order| && (result.Ok? ==> visited == |order|)
      ensures result.Err? ==> visited > 0 && Fails(streams, faults, order[visited - 1]) && NoneFails(streams, faults, order, visited - 1)
      ensures queue == Queued(streams, heights, faults, state, order, visited, old(queue))
    {
      var afterSyncState: Progress := state;
      for i := 0 to |order|
        invariant afterSyncState == Moved(streams, heights, faults, state, order, i)
        invariant !catchError ==> NoneFails(streams, faults, order, i)
        invariant queue == Queued(streams, heights, faults, state, order, i, old(queue)) && progressFile == old(progressFile)
      {
        var failed;
        failed, afterSyncState := SyncKey(state, order, i, afterSyncState, heights, faults, old(queue));
        if failed && !catchError {
          assert order[i] in state;
          return Err(()), i + 1;
        }
      }
      AllMoved(streams, heights, faults, state, order);
      progressFile := Some(afterSyncState);
      return Ok(afterSyncState), |order|;
    }
  }

  // ---- Within a round ----

  lemma {:induction false} MovedKeys(streams: Streams, heights: map<string, nat>, faults: map<string, nat>, state: Progress, order: seq<string>, n: nat)
    requires IsOrder(order, state.Keys) && n <= |order|
    ensures var moved := Moved(streams, heights, faults, state, order, n);
      && moved.Keys == state.Keys
      && (forall i :: 0 <= i < |order| ==>
            moved[order[i]] == if i < n then Position(streams, heights, faults, order[i], state[order[i]]) else state[order[i]])
  {
    if n > 0 {
      MovedKeys(streams, heights, faults, state, order, n - 1);
    }
  }

  lemma {:induction false} NoneFailsUpTo(streams: Streams, faults: map<string, nat>, order: seq<string>, n: nat)
    requires n <= |order|
    ensures NoneFails(streams, faults, order, n) <==> forall i :: 0 <= i < n ==> !Fails(streams, faults, order[i])
  {
    if n > 0 {
      NoneFailsUpTo(streams, faults, order, n - 1);
    }
  }

  lemma {:induction false} AllMoved(streams: Streams, heights: map<string, nat>, faults: map<string, nat>, state: Progress, order: seq<string>)
    requires IsOrder(order, state.Keys)
    ensures Moved(streams, heights, faults, state, order, |order|) == Positions(streams, heights, faults, state)
    ensures NoneFails(streams, faults, order, |order|) ==> forall key :: key in state ==> !Fails(streams, faults, key)
  {
    MovedKeys(streams, heights, faults, state, order, |order|);
    NoneFailsUpTo(streams, faults, order, |order|);
    forall key | key in state
      ensures Moved(streams, heights, faults, state, order, |order|)[key] == Position(streams, heights, faults, key, state[key])
      ensures NoneFails(streams, faults, order, |order|) ==> !Fails(streams, faults, key)
    {
      var i :| 0 <= i < |order| && order[i] == key;
    }
  }

  // ---- What a round means ----

  lemma {:induction false} HandedOverIsCarried(streams: Streams, heights: map<string, nat>, faults: map<string, nat>, key: string, start: nat)
    ensures forall e :: e in HandedOver(streams, heights, faults, key, start) ==> Carries(streams, e)
  {
    var events := HandedOver(streams, heights, faults, key, start);
    forall e | e in events ensures Carries(streams, e) {
      var i :| 0 <= i < |events| && events[i] == e;
      assert e == GetEvents(streams, heights, key, start)[i] == streams[key][start + i];
    }
  }

  lemma {:induction false} QueuedIsCarried(streams: Streams, heights: map<string, nat>, faults: map<string, nat>, state: Progress,
      order: seq<string>, n: nat, queue: seq<Event>)
    requires IsOrder(order, state.Keys) && n <= |order|
    ensures queue <= Queued(streams, heights, faults, state, order, n, queue)
    ensures forall e :: e in Queued(streams, heights, faults, state, order, n, queue) ==> e in queue || Carries(streams, e)
  {
    if n > 0 {
      QueuedIsCarried(streams, heights, faults, state, order, n - 1, queue);
      HandedOverIsCarried(streams, heights, faults, order[n - 1], state[order[n - 1]]);
    }
  }

  lemma {:induction false} HandedOverIsQueued(streams: Streams, heights: map<string, nat>, faults: map<string, nat>, state: Progress,
      order: seq<string>, n: nat, queue: seq<Event>, i: nat, handed: seq<Event>)
    requires IsOrder(order, state.Keys) && i < n <= |order|
    requires handed == HandedOver(streams, heights, faults, order[i], state[order[i]])
    ensures Within(handed, Queued(streams, heights, faults, state, order, n, queue))
  {
    var before := Queued(streams, heights, faults, state, order, n - 1, queue);
    if i < n - 1 {
      HandedOverIsQueued(streams, heights, faults, state, order, n - 1, queue, i, handed);
      WithinLonger(handed, before, HandedOver(streams, heights, faults, order[n - 1], state[order[n - 1]]));
    } else {
      WithinLonger([], before, handed);
    }
  }

  predicate Within<E(==)>(some: seq<E>, all: seq<E>) { forall e :: e in some ==> e in all }

  lemma {:induction false} WithinLonger<E>(some: seq<E>, before: seq<E>, last: seq<E>)
    requires Within(some, before)
    ensures Within(some, before + last) && Within(last, before + last)
  {
  }

  lemma {:induction false} HandedOverCovers(streams: Streams, heights: map<string, nat>, faults: map<string, nat>, key: string, start: nat)
    ensures var to := Position(streams, heights, faults, key, start);
      start < to ==> key in streams && to <= |streams[key]|
                     && HandedOver(streams, heights, faults, key, start) == streams[key][start..to]
  {
  }

  lemma {:induction false} KeyMovesPastHandedOver(streams: Streams, heights: map<string, nat>, faults: map<string, nat>, key: string, start: nat,
      queue: seq<Event>)
    requires Within(HandedOver(streams, heights, faults, key, start), queue)
    ensures KeyEffect(streams, key, start, Position(streams, heights, faults, key, start), queue)
  {
    var to := Position(streams, heights, faults, key, start);
    HandedOverCovers(streams, heights, faults, key, start);
    forall i | start <= i < to ensures streams[key][i] in queue {
      assert streams[key][i] == streams[key][start..to][i - start];
    }
  }

  /** A round that is saved moves positions only past events that are all in the queue. */
  lemma {:induction false} RoundMovesPastHandedOver(streams: Streams, heights: map<string, nat>, faults: map<string, nat>, state: Progress,
      order: seq<string>, queue: seq<Event>)
    requires IsOrder(order, state.Keys)
    ensures RoundEffect(streams, state, Positions(streams, heights, faults, state), queue,
                        Queued(streams, heights, faults, state, order, |order|, queue))
  {
    var after := Queued(streams, heights, faults, state, order, |order|, queue);
    QueuedIsCarried(streams, heights, faults, state, order, |order|, queue);
    forall key | key in state ensures KeyEffect(streams, key, state[key], Position(streams, heights, faults, key, state[key]), after) {
      var i :| 0 <= i < |order| && order[i] == key;
      HandedOverIsQueued(streams, heights, faults, state, order, |order|, queue, i, HandedOver(streams, heights, faults, key, state[key]));
      KeyMovesPastHandedOver(streams, heights, faults, key, state[key], after);
    }
  }

  /** A failing key stays; of its batch only what came before the exception was handed over. */
  lemma {:induction false} FailingKeyStays(streams: Streams, heights: map<string, nat>, faults: map<string, nat>, state: Progress, key: string)
    requires key in state && Fails(streams, faults, key)
    ensures var from, handed := state[key], HandedOver(streams, heights, faults, key, state[key]);
      && key in Positions(streams, heights, faults, state) && Positions(streams, heights, faults, state)[key] == from
      && (key !in streams ==> handed == [])
      && (key in streams && key in heights && from + 10 <= heights[key] <= |streams[key]| ==>
            handed == streams[key][from..from + if faults[key] < 10 then faults[key] else 10])
  {
  }

  /** Positions after so many rounds without a fault, while the streams stand still. */
  function AfterRounds(streams: Streams, heights: map<string, nat>, state: Progress, rounds: nat): Progress
  {
    if rounds == 0 then state else Positions(streams, heights, map[], AfterRounds(streams, heights, state, rounds - 1))
  }

  /** What one key handed over in those rounds. */
  function OverRounds(streams: Streams, heights: map<string, nat>, state: Progress, key: string, rounds: nat): seq<Event>
  {
    if rounds == 0 then []
    else
      var before := AfterRounds(streams, heights, state, rounds - 1);
      OverRounds(streams, heights, state, key, rounds - 1)
      + if key in before then HandedOver(streams, heights, map[], key, before[key]) else []
  }

  /** One undisturbed round reads the next batch. */
  lemma {:induction false} RoundReadsBatch(streams: Streams, heights: map<string, nat>, state: Progress, key: string)
    requires key in state && key in streams && key in heights && state[key] <= heights[key] <= |streams[key]|
    ensures var next := if state[key] + 10 < heights[key] then state[key] + 10 else heights[key];
      && key in Positions(streams, heights, map[], state)
      && Positions(streams, heights, map[], state)[key] == next
      && HandedOver(streams, heights, map[], key, state[key]) == streams[key][state[key]..next]
  {
    HandedOverCovers(streams, heights, map[], key, state[key]);
  }

  /**
   * Undisturbed rounds read a stream to its end: after n of them the position is 10 n further, or at
   * the height, and exactly the events in between were handed over, each once and in order.
   */
  lemma {:induction false} RoundsReachHeight(streams: Streams, heights: map<string, nat>, state: Progress, key: string, rounds: nat)
    requires key in state && key in streams && key in heights && state[key] <= heights[key] <= |streams[key]|
    ensures var reached := state[key] + 10 * rounds;
      var end := if reached < heights[key] then reached else heights[key];
      && key in AfterRounds(streams, heights, state, rounds)
      && AfterRounds(streams, heights, state, rounds)[key] == end
      && OverRounds(streams, heights, state, key, rounds) == streams[key][state[key]..end]
  {
    if rounds > 0 {
      RoundsReachHeight(streams, heights, state, key, rounds - 1);
      var before := AfterRounds(streams, heights, state, rounds - 1);
      RoundReadsBatch(streams, heights, before, key);
      var next := if before[key] + 10 < heights[key] then before[key] + 10 else heights[key];
      Extended(streams[key], state[key], before[key], next);
    }
  }

  lemma {:induction false} Extended<E>(events: seq<E>, from: nat, mid: nat, to: nat)
    requires from <= mid <= to <= |events|
    ensures events[from..mid] + events[mid..to] == events[from..to]
  {
  }
}
