/** The queue listener (`ArduinoQueueListener`): for each connection, one task relays its
    data queue and one its error queue, until a `None` sentinel arrives. */
module Listener {
  import opened Wrappers
  import opened Text

  /** Which queue a listener task relays. */
  datatype Relay = DataRelay | ErrorRelay

  /** A running relay task: the connection it serves and its queue. */
  datatype Task = Task(smId: string, relay: Relay)

  /** The key the error relay of `smId` is stored under: `f"{sm_id}_err"`. */
  function ErrKey(smId: string): (k: string)
    ensures k != smId
  {
    smId + "_err"
  }

  /** The `tasks` map after `listen(sm_id, ...)`: both relays stored, whatever was there before
      under those two keys replaced, every other entry kept. */
  function ListenTasks(tasks: map<string, Task>, smId: string): (t: map<string, Task>)
    ensures t.Keys == tasks.Keys + {smId, ErrKey(smId)}
    ensures t[smId] == Task(smId, DataRelay) && t[ErrKey(smId)] == Task(smId, ErrorRelay)
    ensures forall k :: k in tasks && k != smId && k != ErrKey(smId) ==> t[k] == tasks[k]
  {
    tasks[smId := Task(smId, DataRelay)][ErrKey(smId) := Task(smId, ErrorRelay)]
  }

  /** The `tasks` map after `stop(sm_id)`: both keys of `sm_id` gone, every other entry kept. */
  function StopTasks(tasks: map<string, Task>, smId: string): (t: map<string, Task>)
    ensures t.Keys == tasks.Keys - {smId, ErrKey(smId)}
    ensures forall k :: k in t ==> t[k] == tasks[k]
  {
    tasks - {smId, ErrKey(smId)}
  }

  /** Stopping twice is stopping once. */
  lemma StopIdempotent(tasks: map<string, Task>, smId: string)
    ensures StopTasks(StopTasks(tasks, smId), smId) == StopTasks(tasks, smId)
  {
    var once := StopTasks(tasks, smId);
    assert StopTasks(once, smId).Keys == once.Keys;
  }

  /** Stopping a connection that has no tasks changes nothing. */
  lemma StopUnknown(tasks: map<string, Task>, smId: string)
    requires smId !in tasks && ErrKey(smId) !in tasks
    ensures StopTasks(tasks, smId) == tasks
  {
    assert StopTasks(tasks, smId).Keys == tasks.Keys;
  }

  /** Stopping right after listening leaves the map as stopping alone would. */
  lemma StopUndoesListen(tasks: map<string, Task>, smId: string)
    ensures StopTasks(ListenTasks(tasks, smId), smId) == StopTasks(tasks, smId)
  {
    var l := StopTasks(ListenTasks(tasks, smId), smId);
    var r := StopTasks(tasks, smId);
    assert l.Keys == r.Keys;
  }

  /** Connection ids cut from `uuid4().hex` hold no `_`, so no id is another id's error key. */
  lemma GeneratedIdIsNoErrKey(a: string, b: string)
    requires IsGeneratedKey(a) && IsGeneratedKey(b)
    ensures ErrKey(a) != b
  {
    assert |ErrKey(a)| == 10;
  }

  /** For two different generated ids, stopping one leaves the tasks the other's `listen` stored. */
  lemma StopKeepsOtherConnection(tasks: map<string, Task>, a: string, b: string)
    requires IsGeneratedKey(a) && IsGeneratedKey(b) && a != b
    ensures var t := StopTasks(ListenTasks(tasks, b), a);
            b in t && ErrKey(b) in t && t[b] == Task(b, DataRelay) && t[ErrKey(b)] == Task(b, ErrorRelay)
  {
    GeneratedIdIsNoErrKey(a, b);
    GeneratedIdIsNoErrKey(b, a);
    assert |ErrKey(a)| == |ErrKey(b)| && ErrKey(a)[..6] == a && ErrKey(b)[..6] == b;
  }

  class QueueListener {
    /** The running relay tasks, by key. */
    var tasks: map<string, Task>
    /** The tasks `stop` has cancelled, in order. */
    var cancelled: seq<Task>

    constructor()
      ensures tasks == map[] && cancelled == []
    {
      tasks := map[];
      cancelled := [];
    }

    /** `listen(sm_id, ...)`. A task replaced under an existing key is not cancelled. */
    method Listen(smId: string)
      modifies this
      ensures tasks == ListenTasks(old(tasks), smId)
      ensures cancelled == old(cancelled)
    {
      tasks := tasks[smId := Task(smId, DataRelay)];
      tasks := tasks[ErrKey(smId) := Task(smId, ErrorRelay)];
    }

    /** `stop(sm_id)`: the data relay, then the error relay, is cancelled and removed if present. */
    method Stop(smId: string)
      modifies this
      ensures tasks == StopTasks(old(tasks), smId)
      ensures cancelled == old(cancelled)
                           + (if smId in old(tasks) then [old(tasks)[smId]] else [])
                           + (if ErrKey(smId) in old(tasks) then [old(tasks)[ErrKey(smId)]] else [])
    {
      if smId in tasks {
        cancelled := cancelled + [tasks[smId]];
        tasks := tasks - {smId};
      }
      if ErrKey(smId) in tasks {
        cancelled := cancelled + [tasks[ErrKey(smId)]];
        tasks := tasks - {ErrKey(smId)};
      }
    }
  }

  // ---------------------------------------------------------------------------------------
  // The relay loops

  /** Why a relay loop stopped: it took the sentinel, its handler raised (nothing catches the
      exception, so the task ends), or the queue has nothing more for now. */
  datatype LoopEnd = Sentinel | HandlerRaised | Waiting

  /** What a relay loop did with a queue: the items it passed to its handler, in order, how many
      items it took off the queue, and why it stopped. */
  datatype DrainResult<T> = DrainResult(forwarded: seq<T>, consumed: nat, end: LoopEnd)

  /** The relay loop over the queue's current contents, `None` being the sentinel;
      `raises(item)` says whether the handler raises on that item. */
  function Drained<T>(queue: seq<Option<T>>, raises: T -> bool): DrainResult<T> {
    if queue == [] then DrainResult([], 0, Waiting)
    else if queue[0].None? then DrainResult([], 1, Sentinel)
    else if raises(queue[0].value) then DrainResult([queue[0].value], 1, HandlerRaised)
    else
      var rest := Drained(queue[1..], raises);
      DrainResult([queue[0].value] + rest.forwarded, rest.consumed + 1, rest.end)
  }

  /** What the relay loop promises: it passes items on in queue order, each as it was queued;
      it stops at the first sentinel, which it takes but does not pass on, or right after the
      first item the handler raises on; otherwise it takes the whole queue. Whatever it did not
      take stays on the queue. */
  lemma {:induction false} DrainedFacts<T>(queue: seq<Option<T>>, raises: T -> bool)
    ensures var r := Drained(queue, raises);
            && r.consumed <= |queue|
            && |r.forwarded| == (if r.end == Sentinel then r.consumed - 1 else r.consumed)
            && (forall k :: 0 <= k < |r.forwarded| ==> queue[k] == Some(r.forwarded[k]))
            && (r.end == Sentinel <==> r.consumed >= 1 && queue[r.consumed - 1].None?)
            && (r.end == HandlerRaised ==> r.forwarded != [] && raises(r.forwarded[|r.forwarded| - 1]))
            && (forall k :: 0 <= k < |r.forwarded| - 1 ==> !raises(r.forwarded[k]))
            && (r.end != HandlerRaised ==> forall k :: 0 <= k < |r.forwarded| ==> !raises(r.forwarded[k]))
            && (r.end == Waiting ==> r.consumed == |queue|)
  {
    if queue != [] && queue[0].Some? && !raises(queue[0].value) {
      DrainedFacts(queue[1..], raises);
      var rest := Drained(queue[1..], raises);
      var r := Drained(queue, raises);
      assert r.forwarded == [queue[0].value] + rest.forwarded;
      forall k | 1 <= k < |r.forwarded| ensures queue[k] == Some(r.forwarded[k]) {
        assert r.forwarded[k] == rest.forwarded[k - 1];
        assert queue[k] == queue[1..][k - 1];
      }
      if r.end == Sentinel {
        assert queue[r.consumed - 1] == queue[1..][rest.consumed - 1];
      }
    }
  }

  /** Nothing at or after the first sentinel is ever passed on. */
  lemma {:induction false} DrainedStopsAtSentinel<T>(queue: seq<Option<T>>, raises: T -> bool, i: nat)
    requires i < |queue| && queue[i].None?
    ensures Drained(queue, raises).consumed <= i + 1
    decreases i
  {
    if i > 0 && queue[0].Some? && !raises(queue[0].value) {
      assert queue[1..][i - 1] == queue[i];
      DrainedStopsAtSentinel(queue[1..], raises, i - 1);
    }
  }

  /** A loop that has already passed on `done` and taken `n` items, then continues as `r`. */
  function After<T>(done: seq<T>, n: nat, r: DrainResult<T>): DrainResult<T> {
    DrainResult(done + r.forwarded, n + r.consumed, r.end)
  }

  /** One item of the relay loop: the sentinel or a raise ends it, any other item is passed on
      and the loop continues with the rest. */
  lemma DrainedStep<T>(done: seq<T>, n: nat, queue: seq<Option<T>>, raises: T -> bool)
    requires queue != []
    ensures After(done, n, Drained(queue, raises)) ==
              if queue[0].None? then DrainResult(done, n + 1, Sentinel)
              else if raises(queue[0].value) then DrainResult(done + [queue[0].value], n + 1, HandlerRaised)
              else After(done + [queue[0].value], n + 1, Drained(queue[1..], raises))
  {
    if queue[0].Some? && !raises(queue[0].value) {
      var rest := Drained(queue[1..], raises);
      assert done + ([queue[0].value] + rest.forwarded) == (done + [queue[0].value]) + rest.forwarded;
    }
  }

  /** `_data_loop` and `_error_loop`: take items off the queue and pass each to the handler
      until the sentinel arrives or the handler raises. */
  method Drain<T>(queue: seq<Option<T>>, raises: T -> bool) returns (forwarded: seq<T>, consumed: nat, end: LoopEnd)
    ensures DrainResult(forwarded, consumed, end) == Drained(queue, raises)
  {
    forwarded := [];
    consumed := 0;
    assert queue[0..] == queue;
    while consumed < |queue|
      invariant consumed <= |queue|
      invariant Drained(queue, raises) == After(forwarded, consumed, Drained(queue[consumed..], raises))
      decreases |queue| - consumed
    {
      var item := queue[consumed];
      DrainedStep(forwarded, consumed, queue[consumed..], raises);
      assert queue[consumed..][1..] == queue[consumed + 1..];
      consumed := consumed + 1;
      match item {
        case None =>
          end := Sentinel;
          return;
        case Some(msg) =>
          forwarded := forwarded + [msg];
          if raises(msg) {
            end := HandlerRaised;
            return;
          }
      }
    }
    assert queue[consumed..] == [];
    end := Waiting;
  }
}
