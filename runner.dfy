/** The extension runner (`ArduinoExtensionRunner`): opening connections, numbering them,
    publishing each connection's signal keys under unique names, and delivering decoded
    samples to the handlers subscribed to them. */
module Runner {
  import opened Wrappers
  import opened Text
  import opened FormInputs
  import opened Forms
  import opened Serial
  import opened Listener
  import opened Registry

  /** One `add_variable` request to the host: the published name and its description, which
      is the connection id. */
  datatype Announcement = Announcement(name: string, desc: string)

  /** One handler call made by `data_handler`, and whether the handler raised. */
  datatype HandlerCall = HandlerCall(handler: HandlerId, smId: string, key: string, raised: bool)

  /** Connection ordinals: each is below the next one to be given out, and no two connections
      share one. */
  predicate OrdinalsValid(indexSm: map<string, nat>, lastIndex: nat) {
    && (forall s :: s in indexSm ==> indexSm[s] < lastIndex)
    && (forall s, t :: s in indexSm && t in indexSm && s != t ==> indexSm[s] != indexSm[t])
  }

  /** Giving a connection the next ordinal keeps the ordinals valid. */
  lemma NextOrdinalKeepsValid(indexSm: map<string, nat>, lastIndex: nat, smId: string)
    requires OrdinalsValid(indexSm, lastIndex)
    ensures OrdinalsValid(indexSm[smId := lastIndex], lastIndex + 1)
  {
  }

  /** The calls made for one sample: every handler of the list, in order, whether or not an
      earlier one raised. */
  function CallsFor(handlers: seq<HandlerId>, smId: string, key: string, failing: set<HandlerId>): (calls: seq<HandlerCall>)
    ensures |calls| == |handlers|
    ensures forall i :: 0 <= i < |handlers| ==> calls[i] == HandlerCall(handlers[i], smId, key, handlers[i] in failing)
  {
    seq(|handlers|, i requires 0 <= i < |handlers| => HandlerCall(handlers[i], smId, key, handlers[i] in failing))
  }

  class ExtensionRunner {
    var subscribers: Subscribers
    var signals: Signals
    /** `index_sm`: connection id to its ordinal. */
    var indexSm: map<string, nat>
    /** `_last_index`: the ordinal the next connection gets. */
    var lastIndex: nat
    var serialManagers: map<string, SerialManager>
    /** `data_queues` and `error_queues`: each holds a connection's manager, whose queue it refers to. */
    var dataQueues: map<string, SerialManager>
    var errorQueues: map<string, SerialManager>
    const listener: QueueListener
    /** The `add_variable` requests made so far. */
    var announced: seq<Announcement>
    /** The handler calls made so far. */
    var calls: seq<HandlerCall>

    /** What the runner keeps true of its state. */
    predicate Valid()
      reads this
    {
      NoEmptyLists(subscribers) && OrdinalsValid(indexSm, lastIndex)
    }

    constructor()
      ensures Valid()
      ensures subscribers == map[] && signals == map[] && indexSm == map[] && lastIndex == 0
      ensures serialManagers == map[] && dataQueues == map[] && errorQueues == map[]
      ensures fresh(listener) && listener.tasks == map[] && listener.cancelled == []
      ensures announced == [] && calls == []
    {
      subscribers := map[];
      signals := map[];
      indexSm := map[];
      lastIndex := 0;
      serialManagers := map[];
      dataQueues := map[];
      errorQueues := map[];
      listener := new QueueListener();
      announced := [];
      calls := [];
    }

    /** `subscribe(key, handler)`. */
    method Subscribe(key: string, h: HandlerId)
      modifies this`subscribers
      requires Valid()
      ensures subscribers == Registry.Subscribe(old(subscribers), key, h)
      ensures Valid()
    {
      SubscriptionsKeepNoEmptyLists(subscribers, key, h);
      subscribers := subscribers[key := HandlersOf(subscribers, key) + [h]];
    }

    /** `unsubscribe(key, handler)`. */
    method Unsubscribe(key: string, h: HandlerId)
      modifies this`subscribers
      requires Valid()
      ensures subscribers == Registry.Unsubscribe(old(subscribers), key, h)
      ensures Valid()
    {
      SubscriptionsKeepNoEmptyLists(subscribers, key, h);
      if key !in subscribers || subscribers[key] == [] {
        return;
      }
      var lst := RemoveFirst(subscribers[key], h);
      if lst == [] {
        subscribers := subscribers - {key};
      } else {
        subscribers := subscribers[key := lst];
      }
    }

    /** `unique_naming(sm_id, key)`; the connection must have its ordinal already. */
    function UniqueNaming(smId: string, key: string): string
      reads this
      requires smId in indexSm
    {
      UniqueName(key, indexSm[smId])
    }

    /** `check_signal(sm_id, msg)` for a sample whose key is `key`: the name the key is
        published under, registered and announced the first time the connection sends it. */
    method CheckSignal(smId: string, key: string) returns (unique: string)
      requires smId in indexSm
      modifies this`signals, this`announced
      ensures signals == RegisterSignal(old(signals), smId, key, indexSm[smId])
      ensures unique == signals[smId][key]
      // Exactly one announcement per new (connection, key) pair, with the connection as description.
      ensures announced == old(announced) +
                (if smId in old(signals) && key in old(signals)[smId] then [] else [Announcement(unique, smId)])
    {
      if smId !in signals {
        signals := signals[smId := map[]];
      }
      var smSignals := signals[smId];
      if key !in smSignals {
        unique := UniqueNaming(smId, key);
        signals := signals[smId := smSignals[key := unique]];
        announced := announced + [Announcement(unique, smId)];
      } else {
        unique := smSignals[key];
      }
    }

    /** `data_handler(sm_id, msg)` for a message whose `"key"` is `msgKey`; `failing` is the
        set of handlers that raise on this message. */
    method DataHandler(smId: string, msgKey: Option<string>, failing: set<HandlerId>)
      requires msgKey.Some? ==> smId in indexSm
      modifies this`signals, this`announced, this`calls
      // A message without a key is ignored: nothing registered, nothing delivered.
      ensures msgKey.None? ==> signals == old(signals) && announced == old(announced) && calls == old(calls)
      ensures msgKey.Some? ==>
                var key := msgKey.value;
                && signals == RegisterSignal(old(signals), smId, key, indexSm[smId])
                && announced == old(announced) +
                     (if smId in old(signals) && key in old(signals)[smId] then []
                      else [Announcement(signals[smId][key], smId)])
                && calls == old(calls) + CallsFor(DeliveryList(subscribers, key, signals[smId][key]), smId, key, failing)
    {
      if msgKey.None? {
        return;
      }
      var base := msgKey.value;
      var unique := CheckSignal(smId, base);
      var handlers := HandlersOf(subscribers, base);
      if unique != "" && unique != base {
        handlers := handlers + HandlersOf(subscribers, unique);
      }
      assert handlers == DeliveryList(subscribers, base, unique);
      if handlers == [] {
        assert CallsFor(handlers, smId, base, failing) == [];
        return;
      }
      Deliver(handlers, smId, base, failing);
    }

    /** The loop of `data_handler`: each handler is called in turn, and one that raises is
        reported and passed over. */
    method Deliver(handlers: seq<HandlerId>, smId: string, key: string, failing: set<HandlerId>)
      modifies this`calls
      ensures calls == old(calls) + CallsFor(handlers, smId, key, failing)
    {
      var i := 0;
      while i < |handlers|
        invariant 0 <= i <= |handlers|
        invariant calls == old(calls) + CallsFor(handlers[..i], smId, key, failing)
      {
        assert handlers[..i + 1] == handlers[..i] + [handlers[i]];
        calls := calls + [HandlerCall(handlers[i], smId, key, handlers[i] in failing)];
        i := i + 1;
      }
      assert handlers[..i] == handlers;
    }

    /** `_new_connection(data)`: `smId` stands for the connection id cut from `uuid4().hex`,
        `lineKeyFallback` for the one `form_dict_to_input` cuts, `ports` for the devices the
        system reports, and `startFails` for `start` raising `SerialException`. The manager
        and its queues are recorded before `start`; only a connection that starts is
        listened to and numbered. */
    method NewConnection(data: FormDict, smId: string, lineKeyFallback: string, ports: seq<string>, startFails: bool)
      returns (ok: bool)
      requires Valid()
      requires IsGeneratedKey(smId) && IsGeneratedKey(lineKeyFallback) && TextFieldsTyped(data)
      modifies this`serialManagers, this`dataQueues, this`errorQueues, this`indexSm, this`lastIndex, listener
      ensures ok == !startFails
      ensures smId in serialManagers && fresh(serialManagers[smId])
      ensures var sm := serialManagers[smId];
              && sm.id == smId
              && sm.form == FormDictToInput(data, lineKeyFallback)
              && sm.port == SerialManager.ResolvePort(sm.form.serialPort, ports)
              && sm.queue == [] && sm.errorQueue == []
              && serialManagers == old(serialManagers)[smId := sm]
              && dataQueues == old(dataQueues)[smId := sm]
              && errorQueues == old(errorQueues)[smId := sm]
      // A connection that starts takes the next ordinal and gets its two relay tasks.
      ensures ok ==> indexSm == old(indexSm)[smId := old(lastIndex)] && lastIndex == old(lastIndex) + 1
      ensures ok ==> listener.tasks == ListenTasks(old(listener.tasks), smId)
      // One that fails to start leaves the numbering and the listener as they were.
      ensures !ok ==> indexSm == old(indexSm) && lastIndex == old(lastIndex) && listener.tasks == old(listener.tasks)
      ensures listener.cancelled == old(listener.cancelled)
      ensures Valid()
    {
      var form := FormDictToInput(data, lineKeyFallback);
      var sm := OpenManager(smId, form, ports);
      if startFails {
        return false;
      }
      ListenAndNumber(smId);
      return true;
    }

    /** The part of `_new_connection` before `start`: the manager is built and recorded, with
        its two queues. */
    method OpenManager(smId: string, form: FormInput, ports: seq<string>) returns (sm: SerialManager)
      requires smId != ""
      modifies this`serialManagers, this`dataQueues, this`errorQueues
      ensures fresh(sm)
      ensures sm.id == smId && sm.form == form && sm.port == SerialManager.ResolvePort(form.serialPort, ports)
      ensures sm.queue == [] && sm.errorQueue == []
      ensures serialManagers == old(serialManagers)[smId := sm]
      ensures dataQueues == old(dataQueues)[smId := sm]
      ensures errorQueues == old(errorQueues)[smId := sm]
    {
      sm := new SerialManager(Some(smId), smId, Some(form), ports);
      serialManagers := serialManagers[smId := sm];
      dataQueues := dataQueues[smId := sm];
      errorQueues := errorQueues[smId := sm];
    }

        /** The part of `_new_connection` after a successful `start`: the relay tasks are started
        and the connection takes the next ordinal. */
    method ListenAndNumber(smId: string)
      requires Valid()
      modifies this`indexSm, this`lastIndex, listener
      ensures indexSm == old(indexSm)[smId := old(lastIndex)] && lastIndex == old(lastIndex) + 1
      ensures listener.tasks == ListenTasks(old(listener.tasks), smId)
      ensures listener.cancelled == old(listener.cancelled)
      ensures Valid()
    {
      listener.Listen(smId);
      NextOrdinalKeepsValid(indexSm, lastIndex, smId);
      indexSm := indexSm[smId := lastIndex];
      lastIndex := lastIndex + 1;
    }
  }
}
