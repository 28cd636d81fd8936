/** The runner's bookkeeping as values: who is subscribed to which signal key, the name each
    connection's keys are published under, and the handlers a sample is delivered to.
    `Runner.ExtensionRunner` keeps this state in its fields and is proved against these
    definitions. */
module Registry {
  import opened Wrappers
  import opened Text

  /** A subscribed handler, known only by identity. */
  type HandlerId = nat

  /** `subscribers`: signal key to the handlers subscribed to it, in subscription order. */
  type Subscribers = map<string, seq<HandlerId>>

  /** `signals`: connection id to (key as the device sends it to the name it is published under). */
  type Signals = map<string, map<string, string>>

  /** `subscribers.get(key, [])`. */
  function HandlersOf(subs: Subscribers, key: string): seq<HandlerId> {
    if key in subs then subs[key] else []
  }

  /** The invariant `unsubscribe` keeps: no key is left with an empty list. */
  predicate NoEmptyLists(subs: Subscribers) {
    forall k :: k in subs ==> subs[k] != []
  }

  // ---------------------------------------------------------------------------------------
  // Subscriptions

  /** `subscribe(key, handler)`: the handler goes at the end of the key's list, which is
      created when missing; a handler already there is added again. */
  function Subscribe(subs: Subscribers, key: string, h: HandlerId): (r: Subscribers)
    ensures r.Keys == subs.Keys + {key}
    ensures r[key] == HandlersOf(subs, key) + [h]
    ensures forall k :: k in subs && k != key ==> r[k] == subs[k]
  {
    subs[key := HandlersOf(subs, key) + [h]]
  }

  /** The position of the first occurrence of `h`. */
  function FirstIndex(s: seq<HandlerId>, h: HandlerId): (i: nat)
    requires h in s
    ensures i < |s| && s[i] == h && h !in s[..i]
  {
    if s[0] == h then 0
    else
      var i := FirstIndex(s[1..], h) + 1;
      assert s[..i] == [s[0]] + s[1..][..i - 1];
      i
  }

  /** `lst.remove(h)`: one occurrence of `h` is taken out; `ValueError` (no occurrence) is
      ignored, leaving the list as it was. */
  function RemoveFirst(s: seq<HandlerId>, h: HandlerId): (r: seq<HandlerId>)
    ensures h !in s ==> r == s
  {
    if s == [] then []
    else
      assert s == [s[0]] + s[1..];
      if s[0] == h then s[1..]
      else [s[0]] + RemoveFirst(s[1..], h)
  }

  /** `remove` takes out exactly one occurrence of `h` when there is one, and nothing else. */
  lemma {:induction false} RemoveFirstCount(s: seq<HandlerId>, h: HandlerId)
    ensures multiset(RemoveFirst(s, h)) == if h in s then multiset(s) - multiset{h} else multiset(s)
  {
    if s != [] {
      assert s == [s[0]] + s[1..];
      if s[0] != h {
        RemoveFirstCount(s[1..], h);
        assert h in s <==> h in s[1..];
      }
    }
  }

  /** The occurrence `remove` takes out is the first one; the order of the rest is kept. */
  lemma {:induction false} RemoveFirstAt(s: seq<HandlerId>, h: HandlerId)
    requires h in s
    ensures RemoveFirst(s, h) == s[..FirstIndex(s, h)] + s[FirstIndex(s, h) + 1..]
  {
    if s[0] != h {
      assert s == [s[0]] + s[1..];
      assert h in s[1..];
      RemoveFirstAt(s[1..], h);
      var i := FirstIndex(s[1..], h);
      assert FirstIndex(s, h) == i + 1;
      assert RemoveFirst(s, h) == [s[0]] + (s[1..][..i] + s[1..][i + 1..]);
      assert s[..i + 1] == [s[0]] + s[1..][..i];
      assert s[i + 2..] == s[1..][i + 1..];
    }
  }

  /** Removing `h` from a list that ends in a new `h` takes out the earlier occurrence if there
      is one, and otherwise the new one. */
  lemma {:induction false} RemoveFirstAppend(s: seq<HandlerId>, h: HandlerId)
    ensures RemoveFirst(s + [h], h) == if h in s then RemoveFirst(s, h) + [h] else s
  {
    var t := s + [h];
    if s == [] {
      assert t == [h];
    } else {
      assert t[0] == s[0];
      assert t[1..] == s[1..] + [h];
      if s[0] == h {
        assert RemoveFirst(t, h) == s[1..] + [h];
      } else {
        RemoveFirstAppend(s[1..], h);
        assert RemoveFirst(t, h) == [s[0]] + RemoveFirst(s[1..] + [h], h);
        assert RemoveFirst(s, h) == [s[0]] + RemoveFirst(s[1..], h);
        if h in s[1..] {
          assert h in s;
          assert [s[0]] + (RemoveFirst(s[1..], h) + [h]) == ([s[0]] + RemoveFirst(s[1..], h)) + [h];
        } else {
          assert h !in s;
          assert [s[0]] + s[1..] == s;
        }
      }
    }
  }

  /** `unsubscribe(key, handler)`: nothing happens for a missing or empty list; otherwise the
      first occurrence of the handler is removed and a list left empty is dropped with its key. */
  function Unsubscribe(subs: Subscribers, key: string, h: HandlerId): (r: Subscribers)
    ensures forall k :: k != key ==> (k in r <==> k in subs) && (k in r ==> r[k] == subs[k])
    ensures key !in subs || subs[key] == [] ==> r == subs
    ensures key in subs && subs[key] != [] ==>
              if RemoveFirst(subs[key], h) == [] then key !in r
              else key in r && r[key] == RemoveFirst(subs[key], h)
  {
    if key !in subs || subs[key] == [] then subs
    else
      var rest := RemoveFirst(subs[key], h);
      if rest == [] then subs - {key} else subs[key := rest]
  }

  /** Neither operation ever leaves a key with an empty list. */
  lemma SubscriptionsKeepNoEmptyLists(subs: Subscribers, key: string, h: HandlerId)
    requires NoEmptyLists(subs)
    ensures NoEmptyLists(Subscribe(subs, key, h))
    ensures NoEmptyLists(Unsubscribe(subs, key, h))
  {
  }

  /** Unsubscribing a handler that is not subscribed to `key` changes nothing. */
  lemma UnsubscribeAbsent(subs: Subscribers, key: string, h: HandlerId)
    requires NoEmptyLists(subs)
    requires h !in HandlersOf(subs, key)
    ensures Unsubscribe(subs, key, h) == subs
  {
  }

  /** Subscribing a handler that was not subscribed to `key`, then unsubscribing it, gives
      the subscriptions back exactly. */
  lemma SubscribeThenUnsubscribeRestores(subs: Subscribers, key: string, h: HandlerId)
    requires NoEmptyLists(subs)
    requires h !in HandlersOf(subs, key)
    ensures Unsubscribe(Subscribe(subs, key, h), key, h) == subs
  {
    var before := HandlersOf(subs, key);
    RemoveFirstAppend(before, h);
    var r := Unsubscribe(Subscribe(subs, key, h), key, h);
    assert r.Keys == subs.Keys;
  }

  /** When it was already subscribed, the earlier occurrence is the one removed: the key keeps
      the same handlers, each as often, with this one moved to the end. */
  lemma SubscribeThenUnsubscribeMoves(subs: Subscribers, key: string, h: HandlerId)
    requires NoEmptyLists(subs)
    requires h in HandlersOf(subs, key)
    ensures var r := Unsubscribe(Subscribe(subs, key, h), key, h);
            && r.Keys == subs.Keys
            && (forall k :: k in subs && k != key ==> r[k] == subs[k])
            && r[key] == RemoveFirst(subs[key], h) + [h]
            && multiset(r[key]) == multiset(subs[key])
  {
    var before := subs[key];
    RemoveFirstAppend(before, h);
    RemoveFirstCount(before, h);
    var s1 := Subscribe(subs, key, h);
    assert s1[key] == before + [h];
    var r := Unsubscribe(s1, key, h);
    assert r[key] == RemoveFirst(before, h) + [h];
    assert r.Keys == subs.Keys;
    calc {
      multiset(r[key]);
      multiset(RemoveFirst(before, h)) + multiset{h};
      (multiset(before) - multiset{h}) + multiset{h};
      multiset(before);
    }
  }

  // ---------------------------------------------------------------------------------------
  // Names

  /** `unique_naming`: connection 0 publishes a key under its own name, connection `i > 0`
      under `key[i]`. */
  function UniqueName(key: string, ordinal: nat): (name: string)
    ensures ordinal == 0 ==> name == key
    ensures ordinal > 0 ==> name == key + "[" + IntToString(ordinal) + "]"
  {
    if ordinal == 0 then key else key + "[" + IntToString(ordinal) + "]"
  }

  /** Within one connection, different keys get different names. */
  lemma UniqueNameInjective(k1: string, k2: string, ordinal: nat)
    requires UniqueName(k1, ordinal) == UniqueName(k2, ordinal)
    ensures k1 == k2
  {
    if ordinal > 0 {
      var t := "[" + IntToString(ordinal) + "]";
      assert UniqueName(k1, ordinal) == k1 + t && UniqueName(k2, ordinal) == k2 + t;
      assert |k1| == |k2|;
      assert k1 == (k1 + t)[..|k1|];
      assert k2 == (k2 + t)[..|k2|];
    }
  }

  /** The same key from two different connections gets two different names. */
  lemma UniqueNameSeparatesConnections(key: string, i: nat, j: nat)
    requires i != j
    ensures UniqueName(key, i) != UniqueName(key, j)
  {
    if i > 0 && j > 0 && UniqueName(key, i) == UniqueName(key, j) {
      var a := key + "[" + IntToString(i) + "]";
      var b := key + "[" + IntToString(j) + "]";
      assert |IntToString(i)| == |IntToString(j)|;
      assert IntToString(i) == a[|key| + 1..|a| - 1];
      assert IntToString(j) == b[|key| + 1..|b| - 1];
      IntToStringInjective(i, j);
    }
  }

  /** Names are not unique across connections and keys: key "t[1]" on connection 0 and key
      "t" on connection 1 are both published as "t[1]". */
  lemma NamesCanCollide()
    ensures UniqueName("t[1]", 0) == UniqueName("t", 1)
  {
    assert IntToString(1) == "1" by { assert DigitChar(1) == '1'; }
  }

  // ---------------------------------------------------------------------------------------
  // Signal registration

  /** The signals after `check_signal(sm_id, key)` on a connection with the given ordinal:
      a key seen for the first time on that connection is stored with its unique name;
      one already stored is left alone. */
  function RegisterSignal(signals: Signals, smId: string, key: string, ordinal: nat): (r: Signals)
    ensures r.Keys == signals.Keys + {smId}
    ensures key in r[smId]
    // A stored name is never reassigned, and nothing else changes.
    ensures forall s, k :: s in signals && k in signals[s] ==> k in r[s] && r[s][k] == signals[s][k]
    ensures forall s :: s in signals && s != smId ==> r[s] == signals[s]
    ensures smId in signals ==> r[smId].Keys == signals[smId].Keys + {key}
    ensures smId !in signals ==> r[smId].Keys == {key}
    // A new key gets its connection's unique name.
    ensures (smId !in signals || key !in signals[smId]) ==> r[smId][key] == UniqueName(key, ordinal)
  {
    var known := if smId in signals then signals[smId] else map[];
    if key in known then signals[smId := known]
    else signals[smId := known[key := UniqueName(key, ordinal)]]
  }

  /** Registering a key that is already registered changes nothing. */
  lemma RegisterSignalAgain(signals: Signals, smId: string, key: string, ordinal: nat, otherOrdinal: nat)
    ensures var once := RegisterSignal(signals, smId, key, ordinal);
            RegisterSignal(once, smId, key, otherOrdinal) == once
  {
    var once := RegisterSignal(signals, smId, key, ordinal);
    var twice := RegisterSignal(once, smId, key, otherOrdinal);
    assert twice.Keys == once.Keys;
    assert twice[smId].Keys == once[smId].Keys;
  }

  /** Every stored name is its key's unique name for the connection's ordinal. */
  predicate NamesFollowOrdinals(signals: Signals, indexSm: map<string, nat>) {
    forall s, k :: s in signals && k in signals[s] ==> s in indexSm && signals[s][k] == UniqueName(k, indexSm[s])
  }

  /** Registration with the connection's own ordinal keeps every stored name its key's unique
      name; a connection's names are then pairwise different. */
  lemma RegisterKeepsNames(signals: Signals, indexSm: map<string, nat>, smId: string, key: string)
    requires NamesFollowOrdinals(signals, indexSm) && smId in indexSm
    ensures NamesFollowOrdinals(RegisterSignal(signals, smId, key, indexSm[smId]), indexSm)
    ensures var r := RegisterSignal(signals, smId, key, indexSm[smId]);
            forall k1, k2 :: k1 in r[smId] && k2 in r[smId] && k1 != k2 ==> r[smId][k1] != r[smId][k2]
  {
    var r := RegisterSignal(signals, smId, key, indexSm[smId]);
    forall k1, k2 | k1 in r[smId] && k2 in r[smId] && k1 != k2 ensures r[smId][k1] != r[smId][k2] {
      if r[smId][k1] == r[smId][k2] {
        UniqueNameInjective(k1, k2, indexSm[smId]);
      }
    }
  }

  // ---------------------------------------------------------------------------------------
  // Delivery

  /** The handlers one sample is delivered to, in calling order: those of its base key, then,
      when the unique name is non-empty and differs from the base key, those of the unique name. */
  function DeliveryList(subs: Subscribers, base: string, unique: string): seq<HandlerId> {
    HandlersOf(subs, base) + (if unique != "" && unique != base then HandlersOf(subs, unique) else [])
  }

  /** A handler is called once per subscription to the base key plus, for a distinct unique
      name, once per subscription to that name. */
  lemma DeliveryCount(subs: Subscribers, base: string, unique: string, h: HandlerId)
    ensures multiset(DeliveryList(subs, base, unique))[h] ==
            multiset(HandlersOf(subs, base))[h]
            + (if unique != "" && unique != base then multiset(HandlersOf(subs, unique))[h] else 0)
  {
  }

  /** The first connection's samples go only to the base key's subscribers. */
  lemma FirstConnectionDeliversToBase(subs: Subscribers, key: string)
    ensures DeliveryList(subs, key, UniqueName(key, 0)) == HandlersOf(subs, key)
  {
    assert HandlersOf(subs, key) + [] == HandlersOf(subs, key);
  }
}
