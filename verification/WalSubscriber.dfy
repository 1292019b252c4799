/** `wal_subscriber` and its manager (include/distributed_system/wal_subscriber.h): a map of
    subscriber objects and a list of timer entries that point back at them. A list iterator is a node
    identity; `None` is the end iterator. */
module WalSubscriber {
  import opened Wrappers
  import opened WalRoster

  class Subscriber {
    const key: int
    var owner: Manager?
    var last: int
    var timeout: int
    var timer: Option<nat>

    constructor (owner: Manager, key: int, now: int, timeout: int)
      ensures this.owner == owner && this.key == key && last == now && this.timeout == timeout && timer == None
    {
      this.owner, this.key, this.last, this.timeout, this.timer := owner, key, now, timeout, None;
    }

    predicate IsOffline(now: int)
      reads this
    {
      last + timeout <= now
    }
  }

  /** A node of the timer list. */
  datatype Node = Node(id: nat, due: int, subscriber: Subscriber)

  function Erase(timers: seq<Node>, id: nat): (r: seq<Node>) {
    if timers == [] then []
    else (if timers[0].id == id then [] else [timers[0]]) + Erase(timers[1..], id)
  }

  function EntriesOf(timers: seq<Node>): seq<Entry> {
    if timers == [] then [] else [Entry(timers[0].subscriber.key, timers[0].due)] + EntriesOf(timers[1..])
  }

  lemma {:induction false} EraseIsWithout(timers: seq<Node>, id: nat, key: int)
    requires forall n :: n in timers ==> (n.id == id <==> n.subscriber.key == key)
    ensures EntriesOf(Erase(timers, id)) == Without(EntriesOf(timers), key)
  {
    if timers != [] {
      EraseIsWithout(timers[1..], id, key);
      var rest := Erase(timers[1..], id);
      if timers[0].id == id {
        assert Erase(timers, id) == rest;
      } else {
        assert Erase(timers, id)[0] == timers[0] && Erase(timers, id)[1..] == rest;
      }
    }
  }

  lemma {:induction false} EraseMembers(timers: seq<Node>, id: nat)
    ensures forall n :: n in Erase(timers, id) ==> n in timers && n.id != id
  {
    if timers != [] { EraseMembers(timers[1..], id); }
  }

  lemma {:induction false} EntriesAppend(timers: seq<Node>, n: Node)
    ensures EntriesOf(timers + [n]) == EntriesOf(timers) + [Entry(n.subscriber.key, n.due)]
  {
    if timers != [] {
      assert (timers + [n])[1..] == timers[1..] + [n];
      EntriesAppend(timers[1..], n);
    }
  }

  /** Every timer entry belongs to a mapped subscriber, whose handle it carries. */
  ghost predicate NodesLinked(timers: seq<Node>, subscribers: map<int, Subscriber>, handles: map<int, nat>) {
    forall n :: n in timers ==>
      && n.subscriber.key in subscribers && subscribers[n.subscriber.key] == n.subscriber
      && n.subscriber.key in handles && handles[n.subscriber.key] == n.id
  }

  /** No two subscribers share a handle, and handles to come are new. */
  ghost predicate HandlesUnique(handles: map<int, nat>, nextId: nat) {
    && (forall k :: k in handles ==> handles[k] < nextId)
    && (forall j, k :: j in handles && k in handles && handles[j] == handles[k] ==> j == k)
  }

  /** Erasing a subscriber's node by its handle takes out that subscriber's entry and no other. */
  lemma EraseByHandle(timers: seq<Node>, subscribers: map<int, Subscriber>,
                      handles: map<int, nat>, nextId: nat, key: int)
    requires NodesLinked(timers, subscribers, handles) && HandlesUnique(handles, nextId) && key in handles
    ensures var rest := Erase(timers, handles[key]);
            && EntriesOf(rest) == Without(EntriesOf(timers), key)
            && (forall n :: n in rest ==> n in timers && n.subscriber.key != key)
            && NodesLinked(rest, subscribers - {key}, handles - {key})
  {
    EraseIsWithout(timers, handles[key], key);
    EraseMembers(timers, handles[key]);
  }

  /** The map, the timer list, the handles and what they stand for agree. */
  ghost predicate Coherent(timers: seq<Node>, subscribers: map<int, Subscriber>,
                           handles: map<int, nat>, nextId: nat, roster: Roster)
  {
    && roster.beats.Keys == subscribers.Keys == handles.Keys && roster.queue == EntriesOf(timers)
    && Paired(roster)
    && NodesLinked(timers, subscribers, handles) && HandlesUnique(handles, nextId)
  }

  lemma ResetCoherent(timers: seq<Node>, subscribers: map<int, Subscriber>,
                      handles: map<int, nat>, nextId: nat, roster: Roster, s: Subscriber, now: int)
    requires Coherent(timers, subscribers, handles, nextId, roster)
    requires s.key in subscribers && subscribers[s.key] == s
    ensures var node := Node(nextId, now + roster.beats[s.key].timeout, s);
            Coherent(Erase(timers, handles[s.key]) + [node], subscribers, handles[s.key := nextId], nextId + 1,
                     ResetTimer(roster, s.key, now))
  {
    var due := now + roster.beats[s.key].timeout;
    EraseByHandle(timers, subscribers, handles, nextId, s.key);
    RequeueDistinct(roster.queue, s.key, due);
    EntriesAppend(Erase(timers, handles[s.key]), Node(nextId, due, s));
  }

  lemma DetachCoherent(timers: seq<Node>, subscribers: map<int, Subscriber>,
                       handles: map<int, nat>, nextId: nat, roster: Roster, key: int)
    requires Coherent(timers, subscribers, handles, nextId, roster) && key in subscribers
    ensures Coherent(Erase(timers, handles[key]), subscribers - {key}, handles - {key}, nextId,
                     Unsubscribe(roster, key))
  {
    EraseByHandle(timers, subscribers, handles, nextId, key);
    WithoutDistinct(roster.queue, key);
  }

  lemma AttachCoherent(timers: seq<Node>, subscribers: map<int, Subscriber>,
                       handles: map<int, nat>, nextId: nat, roster: Roster, s: Subscriber, now: int, timeout: int)
    requires Coherent(timers, subscribers, handles, nextId, roster) && s.key !in subscribers
    ensures Coherent(timers + [Node(nextId, now + timeout, s)], subscribers[s.key := s], handles[s.key := nextId],
                     nextId + 1, Allocate(roster, s.key, now, timeout))
  {
    AppendDistinct(roster.queue, Entry(s.key, now + timeout));
    EntriesAppend(timers, Node(nextId, now + timeout, s));
  }

  class Manager {
    var timers: seq<Node>
    var subscribers: map<int, Subscriber>
    var nextId: nat

    // What the objects and the list stand for, and the timer handles.
    ghost var roster: Roster
    ghost var handles: map<int, nat>

    /** A mapped subscriber and its timer entry point at each other. */
    ghost predicate Valid()
      reads this, subscribers.Values
    {
      Coherent(timers, subscribers, handles, nextId, roster) && Bound()
    }

    /** Every mapped object is this manager's, under its own key, and its fields are as recorded. */
    ghost predicate Bound()
      reads this, subscribers.Values
    {
      forall k :: k in subscribers ==>
        && k in handles && k in roster.beats
        && subscribers[k].key == k && subscribers[k].owner == this
        && subscribers[k].timer == Some(handles[k])
        && roster.beats[k] == Beat(subscribers[k].last, subscribers[k].timeout)
    }

    ghost predicate Mapped(s: Subscriber)
      reads this
    {
      s.key in subscribers && subscribers[s.key] == s
    }

    /** A subscriber that names this manager as its owner is in the map: only `Allocate` makes
        subscribers, and leaving the map clears the owner. */
    ghost predicate Knows(s: Subscriber)
      reads this, s
    {
      s.owner == this ==> Mapped(s)
    }

    constructor ()
      ensures Valid() && roster == Roster(map[], []) && subscribers == map[]
    {
      timers, subscribers, nextId := [], map[], 0;
      roster, handles := Roster(map[], []), map[];
    }

    /** Erase the timer entry of a subscriber, if it has one, and forget the handle. */
    method RemoveTimer(s: Subscriber)
      modifies this`timers, s`timer
      ensures s.timer == None
      ensures timers == if old(s.timer).Some? then Erase(old(timers), old(s.timer).value) else old(timers)
    {
      if s.timer == None { return; }
      timers := Erase(timers, s.timer.value);
      s.timer := None;
    }

    /** Append a timer entry for a subscriber that has none. */
    method InsertTimer(now: int, s: Subscriber)
      requires s.owner == this && s.timer == None
      modifies this`timers, this`nextId, s`timer
      ensures timers == old(timers) + [Node(old(nextId), now + s.timeout, s)]
      ensures nextId == old(nextId) + 1 && s.timer == Some(old(nextId))
    {
      timers := timers + [Node(nextId, now + s.timeout, s)];
      s.timer := Some(nextId);
      nextId := nextId + 1;
    }

    method ResetTimer(s: Subscriber, now: int)
      requires Valid() && Knows(s)
      modifies this`timers, this`nextId, this`roster, this`handles, s`timer
      ensures Valid()
      ensures roster == if s.owner == this then WalRoster.ResetTimer(old(roster), s.key, now) else old(roster)
    {
      if s.owner != this { return; }
      ResetCoherent(timers, subscribers, handles, nextId, roster, s, now);
      Rebind(s, now);
    }

    method Rebind(s: Subscriber, now: int)
      requires Bound() && Mapped(s)
      modifies this`timers, this`nextId, this`roster, this`handles, s`timer
      ensures Bound() && nextId == old(nextId) + 1 && handles == old(handles)[s.key := old(nextId)]
      ensures timers == Erase(old(timers), old(handles)[s.key]) + [Node(old(nextId), now + s.timeout, s)]
      ensures roster == WalRoster.ResetTimer(old(roster), s.key, now)
    {
      handles, roster := handles[s.key := nextId], WalRoster.ResetTimer(roster, s.key, now);
      RemoveTimer(s);
      InsertTimer(now, s);
    }

    method Subscribe(s: Subscriber, now: int)
      requires Valid() && Knows(s)
      modifies this`timers, this`nextId, this`roster, this`handles, s`timer, s`last
      ensures Valid()
      ensures roster == if s.owner == this then WalRoster.Subscribe(old(roster), s.key, now) else old(roster)
    {
      if s.owner != this { return; }
      NoteHeartbeat(s, now);
      ResetTimer(s, now);
    }

    /** update_heartbeat_time_point on a subscriber of this manager. */
    method NoteHeartbeat(s: Subscriber, now: int)
      requires Valid() && Knows(s)
      modifies this`roster, s`last
      ensures Valid() && s.last == now
      ensures roster == if s.owner == this then WalRoster.NoteHeartbeat(old(roster), s.key, now) else old(roster)
    {
      s.last := now;
      if s.owner == this { roster := WalRoster.NoteHeartbeat(roster, s.key, now); }
    }

    /** set_heartbeat_timeout on a subscriber of this manager. */
    method SetTimeout(s: Subscriber, timeout: int)
      requires Valid() && Knows(s)
      modifies this`roster, s`timeout
      ensures Valid() && s.timeout == timeout
      ensures roster == if s.owner == this then WalRoster.SetTimeout(old(roster), s.key, timeout) else old(roster)
    {
      s.timeout := timeout;
      if s.owner == this { roster := WalRoster.SetTimeout(roster, s.key, timeout); }
    }

    method UnsubscribeKey(key: int) returns (gone: Subscriber?)
      requires Valid()
      modifies this, if key in subscribers then {subscribers[key]} else {}
      ensures Valid() && subscribers == old(subscribers) - {key}
      ensures roster == WalRoster.Unsubscribe(old(roster), key)
      ensures if key in old(subscribers)
              then gone == old(subscribers)[key] && gone.owner == null && gone.timer == None
              else gone == null
    {
      if key !in subscribers {
        WithoutNothing(roster.queue, key);
        assert roster.beats - {key} == roster.beats && subscribers - {key} == subscribers;
        return null;
      }
      gone := subscribers[key];
      Detach(gone);
    }

    /** Take a mapped subscriber out of the map, then unbind it. */
    method Detach(s: Subscriber)
      requires Valid() && Mapped(s)
      modifies this, s
      ensures Valid() && subscribers == old(subscribers) - {s.key}
      ensures roster == WalRoster.Unsubscribe(old(roster), s.key)
      ensures s.owner == null && s.timer == None
    {
      DetachCoherent(timers, subscribers, handles, nextId, roster, s.key);
      Unbind(s);
    }

    method Unbind(s: Subscriber)
      requires Bound() && Mapped(s)
      modifies this`timers, this`subscribers, this`roster, this`handles, s`timer, s`owner
      ensures Bound() && subscribers == old(subscribers) - {s.key} && handles == old(handles) - {s.key}
      ensures timers == Erase(old(timers), old(handles)[s.key])
      ensures roster == WalRoster.Unsubscribe(old(roster), s.key)
      ensures s.owner == null && s.timer == None
    {
      subscribers, roster, handles :=
        subscribers - {s.key}, WalRoster.Unsubscribe(roster, s.key), handles - {s.key};
      RemoveTimer(s);
      s.owner := null;
    }

    /** Unsubscribe a given object: only if it is the one mapped under its key. */
    method Unsubscribe(s: Subscriber) returns (gone: Subscriber?)
      requires Valid()
      modifies this, s
      ensures Valid()
      ensures if old(Mapped(s))
              then gone == s && s.owner == null && subscribers == old(subscribers) - {s.key}
                && roster == WalRoster.Unsubscribe(old(roster), s.key)
              else gone == null && subscribers == old(subscribers) && roster == old(roster)
    {
      if s.key !in subscribers || subscribers[s.key] != s { return null; }
      gone := UnsubscribeKey(s.key);
    }

    /** Make a subscriber with a timer entry, or note a heartbeat of the one already known. */
    method Allocate(key: int, now: int, timeout: int) returns (s: Subscriber)
      requires Valid()
      modifies this, if key in subscribers then {subscribers[key]} else {}
      ensures Valid() && Mapped(s) && s.key == key && s.owner == this
      ensures roster == WalRoster.Allocate(old(roster), key, now, timeout)
      ensures if key in old(subscribers) then subscribers == old(subscribers)
              else fresh(s) && subscribers == old(subscribers)[key := s]
    {
      if key in subscribers {
        s := subscribers[key];
        Update(s, now, timeout);
      } else {
        s := new Subscriber(this, key, now, timeout);
        Attach(s);
      }
    }

    /** A known subscriber gets a heartbeat and a timeout; its timer entry stays. */
    method Update(s: Subscriber, now: int, timeout: int)
      requires Valid() && Mapped(s)
      modifies this`roster, s`last, s`timeout
      ensures Valid() && roster == WalRoster.Allocate(old(roster), s.key, now, timeout)
    {
      hide Valid;
      assert s.owner == this && s.key in roster.beats by { OfflineAgrees(s, now); }
      NoteHeartbeat(s, now);
      SetTimeout(s, timeout);
    }

    /** Put a new subscriber into the map and give it a timer entry. */
    method Attach(s: Subscriber)
      requires Valid() && s.key !in subscribers && s.owner == this && s.timer == None
      modifies this, s`timer
      ensures Valid() && subscribers == old(subscribers)[s.key := s]
      ensures roster == WalRoster.Allocate(old(roster), s.key, s.last, s.timeout)
    {
      assert s.key !in roster.beats;
      AttachCoherent(timers, subscribers, handles, nextId, roster, s, s.last, s.timeout);
      hide Coherent, Bound;
      Bind(s);
    }

    method Bind(s: Subscriber)
      requires Bound() && s.key !in subscribers && s.owner == this && s.timer == None && s.key !in roster.beats
      modifies this`timers, this`nextId, this`subscribers, this`roster, this`handles, s`timer
      ensures Bound() && subscribers == old(subscribers)[s.key := s] && nextId == old(nextId) + 1
      ensures timers == old(timers) + [Node(old(nextId), s.last + s.timeout, s)]
      ensures handles == old(handles)[s.key := old(nextId)]
      ensures roster == WalRoster.Allocate(old(roster), s.key, s.last, s.timeout)
    {
      subscribers, roster, handles := subscribers[s.key := s],
        WalRoster.Allocate(roster, s.key, s.last, s.timeout), handles[s.key := nextId];
      InsertTimer(s.last, s);
    }

    method Find(key: int) returns (s: Subscriber?)
      requires Valid()
      ensures s == if key in subscribers then subscribers[key] else null
      ensures s != null ==> s.key == key && s.owner == this
      ensures s != null <==> key in roster.beats
    {
      s := if key in subscribers then subscribers[key] else null;
    }

    /** What a mapped subscriber says of itself is what the roster says of it. */
    lemma OfflineAgrees(s: Subscriber, now: int)
      requires Valid() && Mapped(s)
      ensures s.owner == this && s.key in roster.beats
      ensures s.IsOffline(now) <==> WalRoster.IsOffline(roster.beats[s.key], now)
    {}

    /** The subscriber of the first timer entry if it is overdue. Entries whose subscriber is gone or
        has another entry would be dropped on the way; a valid manager has none. */
    method GetFirstExpired(now: int) returns (s: Subscriber?)
      requires Valid()
      ensures if FirstExpired(roster, now).Some?
              then s != null && Mapped(s) && s.key == FirstExpired(roster, now).value
              else s == null
    {
      if timers == [] || timers[0].due >= now { return null; }
      assert timers[0] in timers && timers[0].subscriber.timer == Some(timers[0].id);
      return timers[0].subscriber;
    }
  }
}
