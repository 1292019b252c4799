/** What the subscriber manager keeps, as values: the heartbeat of every subscriber and the queue of
    timer entries, and the laws of the two together. */
module WalRoster {
  import opened Wrappers

  /** A subscriber's last heartbeat and how long it may stay silent. */
  datatype Beat = Beat(last: int, timeout: int)

  /** A timer entry: the subscriber it points to, by key, and when it fires. */
  datatype Entry = Entry(key: int, due: int)

  datatype Roster = Roster(beats: map<int, Beat>, queue: seq<Entry>)

  /** The queue without the entries of one subscriber. */
  function Without(queue: seq<Entry>, key: int): seq<Entry> {
    if queue == [] then []
    else (if queue[0].key == key then [] else [queue[0]]) + Without(queue[1..], key)
  }

  function KeysOf(queue: seq<Entry>): set<int> {
    if queue == [] then {} else {queue[0].key} + KeysOf(queue[1..])
  }

  ghost predicate Distinct(queue: seq<Entry>) {
    queue != [] ==> queue[0].key !in KeysOf(queue[1..]) && Distinct(queue[1..])
  }

  ghost predicate InOrder(queue: seq<Entry>) {
    forall i, j :: 0 <= i < j < |queue| ==> queue[i].due <= queue[j].due
  }

  /** Every subscriber has exactly one timer entry and every entry belongs to a subscriber. */
  ghost predicate Paired(r: Roster) {
    KeysOf(r.queue) == r.beats.Keys && Distinct(r.queue)
  }

  /** Take a subscriber's entry out and put a new one at the end. */
  function Requeue(queue: seq<Entry>, key: int, due: int): seq<Entry> {
    Without(queue, key) + [Entry(key, due)]
  }

  function ResetTimer(r: Roster, key: int, now: int): Roster {
    if key in r.beats then r.(queue := Requeue(r.queue, key, now + r.beats[key].timeout)) else r
  }

  /** A sign of life: note the heartbeat and restart the timer. */
  function Subscribe(r: Roster, key: int, now: int): Roster {
    if key in r.beats
    then ResetTimer(r.(beats := r.beats[key := r.beats[key].(last := now)]), key, now) else r
  }

  function SetTimeout(r: Roster, key: int, timeout: int): Roster {
    if key in r.beats then r.(beats := r.beats[key := r.beats[key].(timeout := timeout)]) else r
  }

  function NoteHeartbeat(r: Roster, key: int, now: int): Roster {
    if key in r.beats then r.(beats := r.beats[key := r.beats[key].(last := now)]) else r
  }

  /** A known key only gets its heartbeat and timeout updated; its timer entry stays. */
  function Allocate(r: Roster, key: int, now: int, timeout: int): Roster {
    if key in r.beats then r.(beats := r.beats[key := Beat(now, timeout)])
    else Roster(r.beats[key := Beat(now, timeout)], r.queue + [Entry(key, now + timeout)])
  }

  function Unsubscribe(r: Roster, key: int): Roster {
    Roster(r.beats - {key}, Without(r.queue, key))
  }

  function FirstExpired(r: Roster, now: int): Option<int> {
    if r.queue != [] && r.queue[0].due < now then Some(r.queue[0].key) else None
  }

  /** Remove the first expired subscriber until there is none. */
  function ExpireAll(r: Roster, now: int): Roster
    decreases |r.queue|
  {
    if FirstExpired(r, now).None? then r
    else
      WithoutShorter(r.queue, r.queue[0].key);
      ExpireAll(Unsubscribe(r, r.queue[0].key), now)
  }

  lemma NothingExpired(r: Roster, now: int)
    requires FirstExpired(r, now).None?
    ensures ExpireAll(r, now) == r
  {}

  lemma {:induction false} WithoutMembers(queue: seq<Entry>, key: int)
    ensures forall e :: e in Without(queue, key) <==> e in queue && e.key != key
  {
    if queue != [] { WithoutMembers(queue[1..], key); }
  }

  lemma {:induction false} WithoutLength(queue: seq<Entry>, key: int)
    ensures |Without(queue, key)| <= |queue|
  {
    if queue != [] { WithoutLength(queue[1..], key); }
  }

  lemma WithoutShorter(queue: seq<Entry>, key: int)
    requires queue != [] && queue[0].key == key
    ensures |Without(queue, key)| < |queue|
  {
    WithoutLength(queue[1..], key);
  }

  // ---------------------------------------------------------------- under the publisher's discipline

  /** All subscribers share one timeout, every timer entry is due exactly that long after its
      subscriber's last heartbeat, no heartbeat is later than the clock, and the queue is in order. */
  ghost predicate Punctual(r: Roster, timeout: int, clock: int) {
    && (forall e :: e in r.queue ==> e.key in r.beats && e.due == r.beats[e.key].last + timeout)
    && (forall k :: k in r.beats ==> r.beats[k].timeout == timeout && r.beats[k].last <= clock)
    && InOrder(r.queue)
  }

  lemma {:induction false} WithoutInOrder(queue: seq<Entry>, key: int)
    requires InOrder(queue)
    ensures InOrder(Without(queue, key))
  {
    if queue != [] {
      WithoutInOrder(queue[1..], key);
      WithoutMembers(queue[1..], key);
      var rest := Without(queue[1..], key);
      forall i | 0 <= i < |rest| ensures queue[0].due <= rest[i].due {
        assert rest[i] in queue[1..];
      }
    }
  }

  lemma {:induction false} WithoutDistinct(queue: seq<Entry>, key: int)
    requires Distinct(queue)
    ensures Distinct(Without(queue, key))
    ensures KeysOf(Without(queue, key)) == KeysOf(queue) - {key}
  {
    if queue != [] {
      WithoutDistinct(queue[1..], key);
      var rest := Without(queue[1..], key);
      if queue[0].key != key {
        assert Without(queue, key)[0] == queue[0] && Without(queue, key)[1..] == rest;
      } else {
        assert Without(queue, key) == rest;
      }
    }
  }

  lemma {:induction false} WithoutNothing(queue: seq<Entry>, key: int)
    requires key !in KeysOf(queue)
    ensures Without(queue, key) == queue
  {
    if queue != [] { WithoutNothing(queue[1..], key); }
  }

  lemma WithoutNothingIfUnknown(r: Roster, key: int)
    requires Paired(r)
    ensures key !in r.beats ==> Unsubscribe(r, key) == r
  {
    if key !in r.beats {
      WithoutNothing(r.queue, key);
      assert r.beats - {key} == r.beats;
    }
  }

  lemma {:induction false} AppendDistinct(queue: seq<Entry>, e: Entry)
    requires Distinct(queue) && e.key !in KeysOf(queue)
    ensures Distinct(queue + [e]) && KeysOf(queue + [e]) == KeysOf(queue) + {e.key}
  {
    if queue != [] {
      assert (queue + [e])[1..] == queue[1..] + [e];
      AppendDistinct(queue[1..], e);
    }
  }

  lemma {:induction false} KeysOfMember(queue: seq<Entry>, key: int)
    ensures key in KeysOf(queue) <==> exists e :: e in queue && e.key == key
  {
    if queue != [] {
      KeysOfMember(queue[1..], key);
      if key in KeysOf(queue) && queue[0].key != key {
        var e :| e in queue[1..] && e.key == key;
        assert e in queue;
      }
      if e :| e in queue && e.key == key && queue[0].key != key {
        assert e in queue[1..];
      }
    }
  }

  lemma RequeueDistinct(queue: seq<Entry>, key: int, due: int)
    requires Distinct(queue) && key in KeysOf(queue)
    ensures Distinct(Requeue(queue, key, due)) && KeysOf(Requeue(queue, key, due)) == KeysOf(queue)
  {
    WithoutDistinct(queue, key);
    AppendDistinct(Without(queue, key), Entry(key, due));
  }

  /** Each manager operation keeps subscribers and timer entries paired one to one. */
  lemma RestartPaired(r: Roster, key: int, now: int)
    requires Paired(r)
    ensures Paired(ResetTimer(r, key, now)) && Paired(Subscribe(r, key, now))
  {
    if key in r.beats {
      RequeueDistinct(r.queue, key, now + r.beats[key].timeout);
    }
  }

  lemma AllocatePaired(r: Roster, key: int, now: int, timeout: int)
    requires Paired(r)
    ensures Paired(Allocate(r, key, now, timeout))
  {
    if key !in r.beats {
      AppendDistinct(r.queue, Entry(key, now + timeout));
    }
  }

  lemma UnsubscribePaired(r: Roster, key: int)
    requires Paired(r)
    ensures Paired(Unsubscribe(r, key))
  {
    WithoutDistinct(r.queue, key);
  }

  /** Restarting one timer at a clock reading no earlier than any heartbeat. */
  lemma RestartPunctual(r: Roster, key: int, timeout: int, clock: int, now: int)
    requires Punctual(r, timeout, clock) && clock <= now && key in r.beats
    ensures Punctual(Subscribe(r, key, now), timeout, now)
  {
    WithoutInOrder(r.queue, key);
    WithoutMembers(r.queue, key);
    var w := Without(r.queue, key);
    assert forall i :: 0 <= i < |w| ==> w[i] in r.queue;
  }

  /** A sign of life no earlier than any before keeps the timers punctual, in both forms the
      publisher uses. */
  lemma SubscribePunctual(r: Roster, key: int, timeout: int, clock: int, now: int)
    requires Punctual(r, timeout, clock) && clock <= now
    ensures Punctual(Subscribe(SetTimeout(r, key, timeout), key, now), timeout, now)
    ensures Punctual(NoteHeartbeat(ResetTimer(r, key, now), key, now), timeout, now)
  {
    if key in r.beats {
      RestartPunctual(r, key, timeout, clock, now);
      assert SetTimeout(r, key, timeout) == r;
      assert NoteHeartbeat(ResetTimer(r, key, now), key, now) == Subscribe(r, key, now);
    }
  }

  /** Creating a subscriber the publisher did not know, or removing one, keeps the timers punctual. */
  lemma AllocatePunctual(r: Roster, key: int, timeout: int, clock: int, now: int)
    requires Punctual(r, timeout, clock) && clock <= now && key !in r.beats
    ensures Punctual(NoteHeartbeat(Allocate(r, key, now, timeout), key, now), timeout, now)
  {
    assert forall i :: 0 <= i < |r.queue| ==> r.queue[i] in r.queue;
  }

  /** Allocating a key that is already known notes a heartbeat but leaves the timer entry where it is,
      so the timers stay punctual exactly when the heartbeat does not move. */
  lemma AllocateKnownPunctual(r: Roster, key: int, timeout: int, clock: int, now: int)
    requires Paired(r) && Punctual(r, timeout, clock) && clock <= now && key in r.beats
    ensures Punctual(Allocate(r, key, now, timeout), timeout, now) <==> r.beats[key].last == now
  {
    KeysOfMember(r.queue, key);
    var e :| e in r.queue && e.key == key;
    var a := Allocate(r, key, now, timeout);
    assert e in a.queue;
    if r.beats[key].last == now {
      assert a == r;
    }
  }

  lemma UnsubscribePunctual(r: Roster, key: int, timeout: int, clock: int)
    requires Punctual(r, timeout, clock)
    ensures Punctual(Unsubscribe(r, key), timeout, clock)
  {
    WithoutInOrder(r.queue, key);
    WithoutMembers(r.queue, key);
  }

  /** Expiring until no entry is overdue removes exactly the subscribers that have been silent for
      longer than the timeout; the others keep their heartbeats. */
  lemma {:induction false} ExpireAllExact(r: Roster, timeout: int, clock: int, now: int)
    requires Paired(r) && Punctual(r, timeout, clock)
    ensures var e := ExpireAll(r, now);
            && Paired(e) && Punctual(e, timeout, clock)
            && (forall k :: k in e.beats <==> k in r.beats && now <= r.beats[k].last + timeout)
            && (forall k :: k in e.beats ==> e.beats[k] == r.beats[k])
    decreases |r.queue|
  {
    if FirstExpired(r, now).Some? {
      var key := r.queue[0].key;
      WithoutShorter(r.queue, key);
      UnsubscribePaired(r, key);
      UnsubscribePunctual(r, key, timeout, clock);
      ExpireAllExact(Unsubscribe(r, key), timeout, clock, now);
      assert r.queue[0] in r.queue;
    } else {
      forall k | k in r.beats ensures now <= r.beats[k].last + timeout {
        NothingOverdue(r, timeout, clock, now, k);
      }
    }
  }

  /** An ordered queue whose head is not due holds nothing that is due. */
  lemma NothingOverdue(r: Roster, timeout: int, clock: int, now: int, key: int)
    requires Paired(r) && Punctual(r, timeout, clock) && key in r.beats && FirstExpired(r, now).None?
    ensures now <= r.beats[key].last + timeout
  {
    KeysOfMember(r.queue, key);
    var e :| e in r.queue && e.key == key;
    assert r.queue[0].due <= e.due;
  }

  // ---------------------------------------------------------------- two notions of being gone

  /** is_offline: the timeout has passed since the last heartbeat. */
  predicate IsOffline(b: Beat, now: int) { b.last + b.timeout <= now }

  /** The subscriber's timer entry has expired. */
  ghost predicate Overdue(r: Roster, key: int, now: int) { exists e :: e in r.queue && e.key == key && e.due < now }

  /** An overdue subscriber is offline, and the two notions differ exactly at the instant the timeout ends. */
  lemma OfflineOrOverdue(r: Roster, timeout: int, clock: int, now: int, key: int)
    requires Paired(r) && Punctual(r, timeout, clock) && key in r.beats
    ensures Overdue(r, key, now) ==> IsOffline(r.beats[key], now)
    ensures IsOffline(r.beats[key], now) != Overdue(r, key, now) <==> now == r.beats[key].last + r.beats[key].timeout
  {
    KeysOfMember(r.queue, key);
    var e :| e in r.queue && e.key == key;
  }

  // ---------------------------------------------------------------- runs of the publisher's interface

  /** A call on the publisher that touches its subscribers. `valid` is the verdict of the user's check
      on the subscriber found, `validNew` the one on a subscriber just created. */
  datatype Call =
    | Create(key: int, now: int, valid: bool, validNew: bool)
    | Request(key: int, now: int, valid: bool)
    | Remove(key: int)
    | Sweep(now: int)

  function OnRequest(r: Roster, key: int, now: int, valid: bool, reset: bool): Roster {
    if key !in r.beats then r
    else
      var t := if reset then ResetTimer(r, key, now) else r;
      if valid then NoteHeartbeat(t, key, now) else Unsubscribe(t, key)
  }

  function OnCreate(r: Roster, key: int, now: int, timeout: int, valid: bool, validNew: bool): Roster {
    if key in r.beats && valid then Subscribe(SetTimeout(r, key, timeout), key, now)
    else OnRequest(Allocate(Unsubscribe(r, key), key, now, timeout), key, now, validNew, false)
  }

  function OnCall(r: Roster, timeout: int, call: Call): Roster {
    match call
    case Create(key, now, valid, validNew) => OnCreate(r, key, now, timeout, valid, validNew)
    case Request(key, now, valid) => OnRequest(r, key, now, valid, true)
    case Remove(key) => Unsubscribe(r, key)
    case Sweep(now) => ExpireAll(r, now)
  }

  function OnCalls(timeout: int, calls: seq<Call>): Roster {
    if calls == [] then Roster(map[], [])
    else OnCall(OnCalls(timeout, calls[..|calls| - 1]), timeout, calls[|calls| - 1])
  }

  /** The latest clock reading among calls, `start` if none reads the clock. */
  function LatestClock(start: int, calls: seq<Call>): int {
    if calls == [] then start
    else
      var call := calls[|calls| - 1];
      if call.Create? || call.Request? then call.now else LatestClock(start, calls[..|calls| - 1])
  }

  /** The clock never runs backwards. */
  ghost predicate ClockForward(start: int, calls: seq<Call>) {
    forall i :: 0 <= i < |calls| && (calls[i].Create? || calls[i].Request?) ==>
      LatestClock(start, calls[..i]) <= calls[i].now
  }

  lemma {:induction false} WithoutTwice(queue: seq<Entry>, key: int, due: int)
    ensures Without(Requeue(queue, key, due), key) == Without(queue, key)
  {
    if queue == [] {
      assert Requeue(queue, key, due) == [Entry(key, due)];
    } else {
      WithoutTwice(queue[1..], key, due);
      if queue[0].key == key {
        assert Requeue(queue, key, due) == Requeue(queue[1..], key, due);
      } else {
        assert Requeue(queue, key, due) == [queue[0]] + Requeue(queue[1..], key, due);
      }
    }
  }

  /** The entries of the others stay as they are, in order. */
  ghost predicate OthersStay(a: Roster, b: Roster, key: int) {
    && (forall k :: k != key ==> (k in b.beats <==> k in a.beats) && (k in a.beats ==> b.beats[k] == a.beats[k]))
    && Without(b.queue, key) == Without(a.queue, key)
  }

  /** A subscriber that is there with exactly one timer entry, the last of the queue. */
  ghost predicate Last(r: Roster, key: int, beat: Beat, due: int) {
    && key in r.beats && r.beats[key] == beat
    && r.queue != [] && r.queue[|r.queue| - 1] == Entry(key, due)
    && forall e :: e in r.queue[..|r.queue| - 1] ==> e.key != key
  }

  lemma {:induction false} WithoutAppend(queue: seq<Entry>, e: Entry, key: int)
    ensures Without(queue + [e], key) == Without(queue, key) + if e.key == key then [] else [e]
  {
    if queue == [] {
      assert queue + [e] == [e];
    } else {
      assert (queue + [e])[1..] == queue[1..] + [e];
      WithoutAppend(queue[1..], e, key);
      var tail := if e.key == key then [] else [e];
      assert [queue[0]] + (Without(queue[1..], key) + tail) == ([queue[0]] + Without(queue[1..], key)) + tail;
    }
  }

  lemma WithoutAgain(queue: seq<Entry>, key: int)
    ensures Without(Without(queue, key), key) == Without(queue, key)
  {
    WithoutMembers(queue, key);
    KeysOfMember(Without(queue, key), key);
    WithoutNothing(Without(queue, key), key);
  }

  lemma RequeueLast(queue: seq<Entry>, key: int, due: int)
    ensures var q := Requeue(queue, key, due);
            && q != [] && q[|q| - 1] == Entry(key, due) && (forall e :: e in q[..|q| - 1] ==> e.key != key)
            && Without(q, key) == Without(queue, key)
  {
    WithoutMembers(queue, key);
    WithoutTwice(queue, key, due);
    var q := Requeue(queue, key, due);
    assert q[..|q| - 1] == Without(queue, key);
  }

  /** A request of an unknown subscriber changes nothing. One of a valid subscriber sets its heartbeat to now and,
      if the timer is reset, makes its timer entry the last, due one timeout from now. An invalid subscriber
      leaves. */
  lemma RequestExactly(r: Roster, key: int, now: int, valid: bool, reset: bool)
    ensures var q := OnRequest(r, key, now, valid, reset);
            && OthersStay(r, q, key)
            && (key !in r.beats ==> q == r)
            && (key in r.beats && valid ==>
                  if reset then Last(q, key, Beat(now, r.beats[key].timeout), now + r.beats[key].timeout)
                  else key in q.beats && q.beats[key] == Beat(now, r.beats[key].timeout) && q.queue == r.queue)
            && (key in r.beats && !valid ==> key !in q.beats && forall e :: e in q.queue ==> e.key != key)
  {
    hide Without, Requeue;
    if key in r.beats {
      var due := now + r.beats[key].timeout;
      RequeueLast(r.queue, key, due);
      WithoutMembers(r.queue, key);
      WithoutMembers(Requeue(r.queue, key, due), key);
      WithoutAgain(r.queue, key);
      WithoutAgain(Requeue(r.queue, key, due), key);
    }
  }

  /** Creating a subscriber renews the one that is there and valid: heartbeat, timeout and timer. Else whoever holds
      the key leaves, and a new subscriber comes last, unless it is invalid. */
  lemma CreateExactly(r: Roster, key: int, now: int, timeout: int, valid: bool, validNew: bool)
    ensures var q := OnCreate(r, key, now, timeout, valid, validNew);
            && OthersStay(r, q, key)
            && (if (key in r.beats && valid) || validNew then Last(q, key, Beat(now, timeout), now + timeout)
                else key !in q.beats && forall e :: e in q.queue ==> e.key != key)
  {
    if key in r.beats && valid {
      RequeueLast(r.queue, key, now + timeout);
    } else {
      var u := Unsubscribe(r, key);
      WithoutMembers(r.queue, key);
      WithoutAgain(r.queue, key);
      WithoutAppend(u.queue, Entry(key, now + timeout), key);
      var a := Allocate(u, key, now, timeout);
      assert a.queue[..|a.queue| - 1] == u.queue;
      RequestExactly(a, key, now, validNew, false);
    }
  }

  /** Allocating a known key sets heartbeat and timeout and leaves its timer entry; a new one comes last. */
  lemma AllocateExactly(r: Roster, key: int, now: int, timeout: int)
    requires Paired(r)
    ensures var q := Allocate(r, key, now, timeout);
            && OthersStay(r, q, key)
            && (if key in r.beats then key in q.beats && q.beats[key] == Beat(now, timeout) && q.queue == r.queue
                else Last(q, key, Beat(now, timeout), now + timeout))
  {
    var q := Allocate(r, key, now, timeout);
    if key !in r.beats {
      WithoutAppend(r.queue, Entry(key, now + timeout), key);
      KeysOfMember(r.queue, key);
      assert q.queue[..|q.queue| - 1] == r.queue;
    }
  }

  /** Removing a subscriber takes it and its timer entry out and leaves the others. */
  lemma RemoveExactly(r: Roster, key: int)
    ensures var q := Unsubscribe(r, key);
            OthersStay(r, q, key) && key !in q.beats && forall e :: e in q.queue ==> e.key != key
  {
    WithoutMembers(r.queue, key);
    WithoutAgain(r.queue, key);
  }

  lemma RequestSound(r: Roster, key: int, timeout: int, clock: int, now: int, valid: bool)
    requires Paired(r) && Punctual(r, timeout, clock) && clock <= now
    ensures var q := OnRequest(r, key, now, valid, true); Paired(q) && Punctual(q, timeout, now)
  {
    if key in r.beats {
      if valid {
        RestartPaired(r, key, now);
        SubscribePunctual(r, key, timeout, clock, now);
      } else {
        WithoutTwice(r.queue, key, now + r.beats[key].timeout);
        assert OnRequest(r, key, now, valid, true) == Unsubscribe(r, key);
        UnsubscribePaired(r, key);
        UnsubscribePunctual(r, key, timeout, now);
      }
    }
  }

  lemma CreateSound(r: Roster, key: int, timeout: int, clock: int, now: int, valid: bool, validNew: bool)
    requires Paired(r) && Punctual(r, timeout, clock) && clock <= now
    ensures var q := OnCreate(r, key, now, timeout, valid, validNew); Paired(q) && Punctual(q, timeout, now)
  {
    if key in r.beats && valid {
      RestartPaired(r, key, now);
      SubscribePunctual(r, key, timeout, clock, now);
      assert SetTimeout(r, key, timeout) == r;
    } else {
      AllocateAnewSound(r, key, timeout, clock, now);
      var a := Allocate(Unsubscribe(r, key), key, now, timeout);
      UnsubscribePaired(a, key);
      UnsubscribePunctual(a, key, timeout, now);
    }
  }

  /** Whoever held the key leaves, a new subscriber comes. */
  lemma AllocateAnewSound(r: Roster, key: int, timeout: int, clock: int, now: int)
    requires Paired(r) && Punctual(r, timeout, clock) && clock <= now
    ensures var a := Allocate(Unsubscribe(r, key), key, now, timeout);
            Paired(a) && Punctual(a, timeout, now) && NoteHeartbeat(a, key, now) == a
  {
    var u := Unsubscribe(r, key);
    UnsubscribePaired(r, key);
    UnsubscribePunctual(r, key, timeout, clock);
    AllocatePaired(u, key, now, timeout);
    AllocatePunctual(u, key, timeout, clock, now);
  }

  /** Over every run of the publisher's interface with a clock that never runs backwards, subscribers
      and timer entries stay paired and punctual. */
  lemma {:induction false} CallsSound(timeout: int, start: int, calls: seq<Call>)
    requires ClockForward(start, calls)
    ensures var r := OnCalls(timeout, calls); Paired(r) && Punctual(r, timeout, LatestClock(start, calls))
  {
    if calls != [] {
      var before := calls[..|calls| - 1];
      assert forall i :: 0 <= i < |before| ==> before[..i] == calls[..i];
      CallsSound(timeout, start, before);
      var r := OnCalls(timeout, before);
      var clock := LatestClock(start, before);
      match calls[|calls| - 1]
      case Create(key, now, valid, validNew) => CreateSound(r, key, timeout, clock, now, valid, validNew);
      case Request(key, now, valid) => RequestSound(r, key, timeout, clock, now, valid);
      case Remove(key) =>
        UnsubscribePaired(r, key);
        UnsubscribePunctual(r, key, timeout, clock);
      case Sweep(now) => ExpireAllExact(r, timeout, clock, now);
    }
  }

  /** After any such run a sweep removes exactly the subscribers that have been silent for longer than
      the timeout. */
  lemma SweepExact(timeout: int, start: int, calls: seq<Call>, now: int)
    requires ClockForward(start, calls)
    ensures var r := OnCalls(timeout, calls);
            var swept := OnCalls(timeout, calls + [Sweep(now)]);
            forall k :: k in swept.beats <==> k in r.beats && now <= r.beats[k].last + timeout
  {
    var all := calls + [Sweep(now)];
    assert all[..|all| - 1] == calls;
    CallsSound(timeout, start, calls);
    ExpireAllExact(OnCalls(timeout, calls), timeout, LatestClock(start, calls), now);
  }
}
