/** `wal_publisher` (include/distributed_system/wal_publisher.h): pushes with hole logs, broadcasts,
    subscription requests and the tick, over a `Wal` and a subscriber `Manager`. */
module WalPublisher {
  import opened Wrappers
  import opened WalCommon
  import opened WalChain
  import opened WalSpec
  import opened WalObject
  import opened WalRoster
  import opened WalSubscriber
  import opened WalPublication

  /** One call of `send_logs` for subscribers that have been removed. */
  datatype Farewell = Farewell(logs: seq<Log>, to: set<int>)

  /** The sends of one farewell round. */
  function Round(batch: seq<Log>, holes: seq<Log>, pool: set<int>): seq<Farewell> {
    (if batch != [] then [Farewell(batch, pool)] else []) + (if holes != [] then [Farewell(holes, pool)] else [])
  }

  /** What a round hands to the removed subscribers, in order. */
  function Handed(sends: seq<Farewell>): seq<Log> {
    if sends == [] then [] else sends[0].logs + Handed(sends[1..])
  }

  /** A round sends the logs and then the hole logs, all to the whole pool, and never nothing. */
  lemma RoundSends(batch: seq<Log>, holes: seq<Log>, pool: set<int>)
    ensures var round := Round(batch, holes, pool);
            && Handed(round) == batch + holes && |round| <= 2
            && forall f :: f in round ==> f.to == pool && f.logs != [] && (f.logs == batch || f.logs == holes)
  {
    assert batch + [] == batch && [] + holes == holes && holes + [] == holes;
    var round := Round(batch, holes, pool);
    if |round| == 2 {
      assert round[1..] == [Farewell(holes, pool)] && [Farewell(holes, pool)][1..] == [];
      assert Handed([Farewell(holes, pool)]) == holes;
    } else if |round| == 1 {
      assert round[1..] == [];
    }
  }

  function Repeat(round: seq<Farewell>, n: nat): seq<Farewell> {
    if n == 0 then [] else Repeat(round, n - 1) + round
  }

  lemma OneFewer<T>(m: map<int, T>, key: int)
    requires key in m
    ensures (m - {key}).Keys == m.Keys - {key} && |(m - {key}).Keys| == |m.Keys| - 1
  {}

  /** A push moves the log on, and only what is accepted below the bound joins the hole list. */
  lemma PushFollows(vt: VTable, conf: Configure, enableHole: bool, p: Pub, log: Log)
    requires vt.Settles() && Consistent(vt, p.core)
    ensures var q, core := Step(vt, conf, enableHole, p, Push(log)), Emplace(vt, conf, p.core, log).0;
            && q.core == core && p.core.added <= core.added && q.bound == p.bound && q.sent == p.sent
            && q.holes == p.holes + if enableHole then HolesIn(core.added[|p.core.added|..], p.bound) else []
  {
    hide Emplace;
    EmplaceConsistent(vt, conf, p.core, log);
  }

  // ---------------------------------------------------------------- what ticking does

  /** What a tick works on: the log, the broadcast bound, the hole list, what the live subscribers were sent, the
      recorded run, the subscribers' keys, and all logs ever accepted and lost. */
  datatype View = View(logs: seq<Log>, bound: Option<Key>, holes: seq<Log>, outbox: seq<Log>, ops: seq<Op>,
                       keys: set<int>, added: seq<Log>, lost: seq<Log>)

  /** The logs above the broadcast bound. */
  function Above(v: View): seq<Log> { v.logs[FirstUnsent(v.logs, v.bound)..] }

  /** The run was extended, by broadcasts and by collections at this time that hold at the bound only. */
  ghost predicate Tended(a: View, b: View, now: int) {
    a.ops <= b.ops && forall i :: |a.ops| <= i < |b.ops| ==>
      b.ops[i].Broadcast? || (b.ops[i].Collect? && b.ops[i].now == now && b.ops[i].hold == b.bound)
  }

  /** From `a` to `b` whatever there was to send was sent: to the live subscribers, if there were any, the logs above
      the bound and then the hole logs, once. The bound moved to the last log, logs were removed from the front
      only, no log was accepted or lost, subscribers only left, and `count` is what was sent, removed and
      expired. */
  ghost predicate Ticked(a: View, b: View, now: int, count: int) {
    && Tended(a, b, now) && b.added == a.added && b.lost == a.lost
    && |b.logs| <= |a.logs| && b.logs == a.logs[|a.logs| - |b.logs|..]
    && Above(b) == [] && b.holes == []
    && b.outbox == a.outbox + (if a.keys != {} then Above(a) + a.holes else [])
    && b.bound == (if Above(a) == [] then a.bound else Some(Above(a)[|Above(a)| - 1].key))
    && b.keys <= a.keys
    && count == |Above(a)| + |a.holes| + (|a.logs| - |b.logs|) + (|a.keys| - |b.keys|)
  }

  /** A broadcast is such a turn, and leaves nothing to send. */
  lemma BroadcastTicked(p: Pub, a: View, now: int)
    requires Sorted(a.logs) && p.core.logs == a.logs && p.bound == a.bound && p.holes == a.holes && p.sent == a.outbox
    ensures var q := Sent(p, a.keys != {});
            var b := a.(bound := q.bound, holes := [], outbox := q.sent, ops := a.ops + [Op.Broadcast(a.keys != {})]);
            && Ticked(a, b, now, |Above(a)| + |a.holes|)
            && FirstUnsent(a.logs, q.bound) == |a.logs| && q.holes == [] && q.lost == p.lost && q.core == p.core
  {
    hide FirstUnsent, Sorted;
    SentReaches(p, a.keys != {});
    AllReached(a.logs, Sent(p, a.keys != {}).bound);
    SentAbove(p, a);
    hide Sent, Above;
    assert a.logs[0..] == a.logs;
  }

  lemma SentAbove(p: Pub, a: View)
    requires p.core.logs == a.logs && p.bound == a.bound && p.holes == a.holes && p.sent == a.outbox
    ensures var q := Sent(p, a.keys != {});
            && q.holes == [] && q.lost == p.lost && q.core == p.core
            && q.sent == a.outbox + (if a.keys != {} then Above(a) + a.holes else [])
            && q.bound == (if Above(a) == [] then a.bound else Some(Above(a)[|Above(a)| - 1].key))
            && (FirstUnsent(a.logs, q.bound) == |a.logs| ==> Above(a.(bound := q.bound)) == [])
  {
    hide FirstUnsent;
    assert a.outbox + [] == a.outbox;
  }

  /** A collection from a fully broadcast log goes on with it. */
  lemma CollectTicked(a: View, b: View, now: int, m: int, n: nat, limit: nat)
    requires Ticked(a, b, now, m) && n <= |b.logs|
    requires FirstUnsent(b.logs[n..], b.bound) == |b.logs| - n
    ensures Ticked(a, b.(logs := b.logs[n..], ops := b.ops + [Collect(now, b.bound, limit)]), now, m + n)
  {
    hide FirstUnsent;
    assert a.logs[|a.logs| - |b.logs|..][n..] == a.logs[|a.logs| - |b.logs| + n..];
  }

  /** A collection from a fully broadcast log removes a prefix and changes nothing else of the publisher; one that
      removes nothing within a positive limit had nothing to remove. */
  lemma CollectOnly(vt: VTable, conf: Configure, enableHole: bool, p: Pub, now: int, hold: Option<Key>, limit: nat)
    requires vt.Settles() && Consistent(vt, p.core)
    requires forall l :: l in p.core.logs ==> !Unreached(p.bound, l.key)
    ensures var q := Step(vt, conf, enableHole, p, Collect(now, hold, limit));
            var r := Gc(vt, conf, p.core, now, hold, limit);
            && q == p.(core := r) && r.added == p.core.added && |r.logs| <= |p.core.logs|
            && r.logs == p.core.logs[|p.core.logs| - |r.logs|..]
            && (forall l :: l in r.logs ==> !Unreached(p.bound, l.key))
            && (|r.logs| == |p.core.logs| && 0 < limit ==> GcCount(vt, conf, now, hold, r.logs, 1) == 0)
  {
    CollectReached(vt, conf, enableHole, p, now, hold, limit);
    CollectConsistent(vt, conf, enableHole, p, now, hold, limit);
    var r := Gc(vt, conf, p.core, now, hold, limit);
    assert PopMany(p.core, 0).logs == p.core.logs[0..];
    assert r.added[|p.core.added|..] == [] && HolesIn([], p.bound) == [];
    assert p.holes + [] == p.holes;
  }

  /** One turn after another: what the first sent the second does not send again. */
  lemma TickedTwice(a: View, b: View, c: View, now: int, m: int, n: int)
    requires Ticked(a, b, now, m) && Ticked(b, c, now, n)
    ensures Ticked(a, c, now, m + n)
  {
    assert b.outbox + [] == b.outbox && b.outbox + ([] + []) == b.outbox;
    assert c.logs == a.logs[|a.logs| - |c.logs|..];
  }

  /** A turn whose subscribers then leave. */
  lemma TickedThenLeft(a: View, b: View, keys: set<int>, now: int, m: int)
    requires Ticked(a, b, now, m) && keys <= b.keys
    ensures Ticked(a, b.(keys := keys), now, m + |b.keys| - |keys|)
  {}

  class Publisher {
    const wal: Wal
    const manager: Manager
    const enableHole: bool
    const enableFarewell: bool
    const timeout: int
    // Whether the n-th farewell send succeeds.
    const sendOk: nat -> bool
    // What the subscribe_response callback makes of a code, if it is set.
    const respond: Option<Code -> Code>

    var bound: Option<Key>
    var holes: seq<Log>
    // Removed subscribers still owed the last logs.
    var gone: set<int>
    var sends: nat
    // Everything handed to send_logs for the live subscribers.
    var outbox: seq<Log>

    // The run so far and what it leads to.
    ghost var ops: seq<Op>
    ghost var pub: Pub
    ghost var farewells: seq<Farewell>

    ghost predicate Valid()
      reads this, wal, manager, manager.subscribers.Values
    {
      wal.Idle() && InStep() && manager.Valid()
    }

    /** The fields are those the recorded run leads to. */
    ghost predicate InStep()
      reads this`pub, this`ops, this`bound, this`holes, this`outbox, wal
    {
      && wal.vt.Settles() && pub == Run(wal.vt, wal.conf, enableHole, ops)
      && pub.core == wal.State() && pub.bound == bound && pub.holes == holes && pub.sent == outbox
    }

    constructor (vt: VTable, conf: Configure, enableHole: bool, enableFarewell: bool, timeout: int,
                 sendOk: nat -> bool, respond: Option<Code -> Code>)
      requires vt.Settles()
      ensures Valid() && fresh(wal) && fresh(manager) && ops == [] && gone == {} && manager.roster == Roster(map[], [])
      ensures wal.vt == vt && wal.conf == conf && this.enableHole == enableHole && this.timeout == timeout
      ensures this.enableFarewell == enableFarewell && this.sendOk == sendOk && this.respond == respond
    {
      wal := new Wal(vt, conf);
      manager := new Manager();
      this.enableHole, this.enableFarewell, this.timeout := enableHole, enableFarewell, timeout;
      this.sendOk, this.respond := sendOk, respond;
      bound, holes, gone, sends, outbox := None, [], {}, 0, [];
      ops, pub, farewells := [], FRESH, [];
    }

    // -------------------------------------------------------------- pushing

    method EmplaceBackLog(log: Option<Log>) returns (code: Code)
      requires wal.Idle() && InStep()
      requires log.Some? ==> Returns(wal.vt, wal.conf, wal.State(), log.value)
      modifies this`holes, this`ops, this`pub, wal
      ensures wal.Idle() && InStep()
      ensures log.None? ==> code == InvalidParam && ops == old(ops)
      ensures log.Some? ==>
                ops == old(ops) + [Push(log.value)] && code == Emplace(wal.vt, wal.conf, old(wal.State()), log.value).1
    {
      hide Step, Emplace, Run, HolesIn, Consistent, PushOne, Drain;
      var n := |wal.added|;
      if log.Some? { PushFollows(wal.vt, wal.conf, enableHole, pub, log.value); }
      code := wal.EmplaceBack(log);
      if log.None? { return; }
      Advance(Push(log.value));
      OnLogsAdded(wal.added[n..]);
    }

    /** Deliver the add-log events of one push, in order. */
    method OnLogsAdded(logs: seq<Log>)
      modifies this`holes
      ensures holes == old(holes) + if enableHole then HolesIn(logs, bound) else []
    {
      for i := 0 to |logs|
        invariant holes == old(holes) + if enableHole then HolesIn(logs[..i], bound) else []
      {
        HolesInSnoc(logs[..i], bound, logs[i]);
        assert logs[..i + 1] == logs[..i] + [logs[i]];
        OnLogAdded(logs[i]);
      }
      assert logs[..|logs|] == logs;
    }

    /** The internal add-log event: a log below the broadcast bound is a hole log. */
    method OnLogAdded(log: Log)
      modifies this`holes
      ensures holes == old(holes) + if enableHole && bound.Some? && log.key < bound.value then [log] else []
    {
      if bound.Some? && enableHole && log.key < bound.value {
        holes := holes + [log];
      }
    }

    /** Extend the recorded run by one operation. */
    ghost method Advance(op: Op)
      requires wal.vt.Settles() && pub == Run(wal.vt, wal.conf, enableHole, ops)
      modifies this`ops, this`pub
      ensures ops == old(ops) + [op] && pub == Step(wal.vt, wal.conf, enableHole, old(pub), op)
      ensures pub == Run(wal.vt, wal.conf, enableHole, ops)
    {
      var all := ops + [op];
      assert all[..|all| - 1] == ops;
      ops, pub := all, Step(wal.vt, wal.conf, enableHole, pub, op);
    }

    // -------------------------------------------------------------- broadcasting

    /** Broadcast and record it in the run. */
    method Broadcast() returns (count: nat, ghost rounds: nat)
      requires Sorted(wal.logs) && InStep()
      modifies this`bound, this`holes, this`gone, this`sends, this`outbox, this`ops, this`pub, this`farewells
      ensures InStep() && gone == {} && pub == Sent(old(pub), manager.subscribers != map[])
      ensures ops == old(ops) + [Op.Broadcast(manager.subscribers != map[])]
      ensures var batch := wal.logs[FirstUnsent(wal.logs, old(bound))..];
              && count == |batch| + |old(holes)|
              && farewells == old(farewells) + Repeat(Round(batch, old(holes), old(gone)), rounds)
      ensures rounds <= 3 && (rounds == 0 <==> old(gone) == {})
      ensures var round := Round(wal.logs[FirstUnsent(wal.logs, old(bound))..], old(holes), old(gone));
              old(gone) != {} ==> rounds == Rounds(old(sends), |round|, 3)
    {
      count, rounds := HandOut();
      AdvanceBroadcast(manager.subscribers != map[]);
    }

    ghost method AdvanceBroadcast(live: bool)
      requires wal.vt.Settles() && pub == Run(wal.vt, wal.conf, enableHole, ops)
      modifies this`ops, this`pub
      ensures ops == old(ops) + [Op.Broadcast(live)] && pub == Sent(old(pub), live)
      ensures pub == Run(wal.vt, wal.conf, enableHole, ops)
    {
      hide Run, Sent, Consistent;
      Advance(Op.Broadcast(live));
    }

    /** Hand every log above the bound and every hole log to the live subscribers, then to the removed
        ones, and move the bound. */
    method HandOut() returns (count: nat, ghost rounds: nat)
      requires Sorted(wal.logs)
      requires pub.core.logs == wal.logs && pub.bound == bound && pub.holes == holes && pub.sent == outbox
      modifies this`bound, this`holes, this`gone, this`sends, this`outbox, this`farewells
      ensures gone == {}
      ensures var after := Sent(pub, manager.subscribers != map[]);
              holes == after.holes && outbox == after.sent && bound == after.bound
      ensures var batch := wal.logs[FirstUnsent(wal.logs, old(bound))..];
              && count == |batch| + |old(holes)|
              && farewells == old(farewells) + Repeat(Round(batch, old(holes), old(gone)), rounds)
      ensures rounds <= 3 && (rounds == 0 <==> old(gone) == {})
      ensures var round := Round(wal.logs[FirstUnsent(wal.logs, old(bound))..], old(holes), old(gone));
              old(gone) != {} ==> rounds == Rounds(old(sends), |round|, 3)
    {
      var first := FirstToSend();
      var batch := wal.logs[first..];
      var live := manager.subscribers != map[];
      if live { SendLive(batch); }
      rounds := SayFarewell(batch);
      count := Walk(first, live);
    }

    /** Where the logs above the bound start. */
    method FirstToSend() returns (first: nat)
      requires Sorted(wal.logs)
      ensures first == FirstUnsent(wal.logs, bound)
    {
      first := 0;
      if bound.Some? { first := wal.LogUpperBound(bound.value); }
    }

    /** After everything is sent: count and forget the hole logs, walk to the last log and move the bound
        there. `live` says whether the live subscribers were sent the logs. */
    method Walk(first: nat, ghost live: bool) returns (count: nat)
      requires first == FirstUnsent(wal.logs, bound) && first <= |wal.logs|
      requires pub.core.logs == wal.logs && pub.bound == bound && pub.holes == holes
      requires outbox == if live then pub.sent + (wal.logs[first..] + holes) else pub.sent
      modifies this`bound, this`holes
      ensures count == |wal.logs| - first + |old(holes)|
      ensures holes == Sent(pub, live).holes && outbox == Sent(pub, live).sent && bound == Sent(pub, live).bound
    {
      count := |holes|;
      holes := [];
      var walked := MoveBound(first);
      count := count + walked;
      assert first < |wal.logs| ==> wal.logs[first..][|wal.logs| - first - 1] == wal.logs[|wal.logs| - 1];
    }

    /** Two sends to the live subscribers: the logs above the bound, then the hole logs. */
    method SendLive(batch: seq<Log>)
      modifies this`outbox
      ensures outbox == old(outbox) + (batch + holes)
    {
      if batch != [] { outbox := outbox + batch; }
      if holes != [] { outbox := outbox + holes; }
    }

    /** Move the bound to the last log from index `first` on, if there is one. */
    method MoveBound(first: nat) returns (count: nat)
      requires first <= |wal.logs|
      modifies this`bound
      ensures count == |wal.logs| - first
      ensures bound == if first == |wal.logs| then old(bound) else Some(wal.logs[|wal.logs| - 1].key)
    {
      count := 0;
      var last := None;
      while first + count < |wal.logs|
        invariant first + count <= |wal.logs|
        invariant last == if count == 0 then None else Some(wal.logs[first + count - 1].key)
      {
        last := Some(wal.logs[first + count].key);
        count := count + 1;
      }
      if last.Some? { bound := last; }
    }

    /** All of `count` sends from the n-th on succeed. */
    ghost predicate SendsOk(n: nat, count: nat) { forall i: nat :: n <= i < n + count ==> sendOk(i) }

    /** How many rounds of `size` sends it takes from the n-th send on: up to and including the first round in
        which every send succeeds, and no more than `most`. */
    ghost function Rounds(n: nat, size: nat, most: nat): nat
      decreases most
    {
      if most == 0 then 0 else if SendsOk(n, size) then 1 else 1 + Rounds(n + size, size, most - 1)
    }

    /** Send the last logs to removed subscribers, at most three times, until a round succeeds. */
    method SayFarewell(batch: seq<Log>) returns (ghost rounds: nat)
      modifies this`gone, this`sends, this`farewells
      ensures gone == {} && rounds <= 3 && (rounds == 0 <==> old(gone) == {})
      ensures farewells == old(farewells) + Repeat(Round(batch, holes, old(gone)), rounds)
      ensures old(gone) != {} ==> rounds == Rounds(old(sends), |Round(batch, holes, old(gone))|, 3)
    {
      var retry := 3;
      rounds := 0;
      ghost var round := Round(batch, holes, gone);
      while gone != {} && retry > 0
        invariant (gone == {} || gone == old(gone)) && rounds <= 3
        invariant gone != {} ==> retry + rounds == 3
        invariant rounds == 0 ==> retry == 3 && gone == old(gone)
        invariant old(gone) == {} ==> rounds == 0
        invariant farewells == old(farewells) + Repeat(round, rounds)
        invariant old(gone) != {} ==>
                    rounds + (if gone == {} then 0 else Rounds(sends, |round|, retry)) == Rounds(old(sends), |round|, 3)
      {
        hide Round;
        retry := retry - 1;
        var cache := gone;
        gone := {};
        var ok := SendRound(batch, cache);
        if ok { retry := 0; } else { gone := cache; }
        rounds := rounds + 1;
      }
      gone := {};
    }

    /** One round: the logs and then the hole logs, if there are any. */
    method SendRound(batch: seq<Log>, to: set<int>) returns (ok: bool)
      modifies this`sends, this`farewells
      ensures farewells == old(farewells) + Round(batch, holes, to)
      ensures sends == old(sends) + |Round(batch, holes, to)| && ok == SendsOk(old(sends), |Round(batch, holes, to)|)
    {
      var logsSent, holesSent := true, true;
      if batch != [] { logsSent := SendFarewell(batch, to); }
      if holes != [] { holesSent := SendFarewell(holes, to); }
      ok := logsSent && holesSent;
    }

    method SendFarewell(logs: seq<Log>, to: set<int>) returns (ok: bool)
      modifies this`sends, this`farewells
      ensures ok == sendOk(old(sends)) && sends == old(sends) + 1
      ensures farewells == old(farewells) + [Farewell(logs, to)]
    {
      ok := sendOk(sends);
      sends := sends + 1;
      farewells := farewells + [Farewell(logs, to)];
    }

    // -------------------------------------------------------------- subscribers

    /** The pool once a subscriber has left, if it did. */
    function Owed(pool: set<int>, key: int, left: bool): set<int> {
      if enableFarewell && left then pool + {key} else pool
    }

    /** The pool once the subscribers of `before` that are not in `after` have left. */
    function OwedAll(pool: set<int>, before: set<int>, after: set<int>): set<int> {
      if enableFarewell then pool + (before - after) else pool
    }

    lemma OwedOneMore(pool: set<int>, before: set<int>, after: set<int>, key: int)
      requires key in after && after <= before
      ensures Owed(OwedAll(pool, before, after), key, true) == OwedAll(pool, before, after - {key})
    {}

    /** Remove a subscriber; it may be owed the logs of the next broadcast. */
    method RemoveSubscriber(key: int)
      requires manager.Valid()
      modifies this`gone, manager, manager.subscribers.Values
      ensures manager.Valid() && manager.roster == Unsubscribe(old(manager.roster), key)
      ensures manager.subscribers == old(manager.subscribers) - {key}
      ensures gone == if enableFarewell && key in old(manager.subscribers) then old(gone) + {key} else old(gone)
    {
      hide Manager.Valid;
      var s := manager.UnsubscribeKey(key);
      if s != null && enableFarewell { gone := gone + {key}; }
    }

    /** Look up the subscriber a request is for and let it live on; an invalid one is removed. */
    method Attend(key: int, now: int, valid: bool, reset: bool) returns (ok: bool)
      requires manager.Valid()
      modifies this`gone, manager, manager.subscribers.Values
      ensures manager.Valid() && manager.roster == OnRequest(old(manager.roster), key, now, valid, reset)
      ensures manager.subscribers == if valid then old(manager.subscribers) else old(manager.subscribers) - {key}
      ensures gone == Owed(old(gone), key, key in old(manager.subscribers) && !valid)
      ensures ok == (key in old(manager.subscribers) && valid)
    {
      hide Coherent, Manager.Bound;
      var s := manager.Find(key);
      if s == null {
        assert manager.subscribers - {key} == manager.subscribers;
        return false;
      }
      if reset { manager.ResetTimer(s, now); }
      if !valid {
        RemoveSubscriber(key);
        return false;
      }
      manager.NoteHeartbeat(s, now);
      return true;
    }

    /** Answer a subscription request: the code is that of sending the answer, or Ok if there was nothing to send, as
        the subscribe_response callback passes it on. `valid` is the verdict of the user's check on the subscriber,
        `force` that of the user's snapshot rule, and `sent` what sending the answer returns; no answer means that
        nobody valid is subscribed. */
    method ReceiveSubscribeRequest(key: int, checkpoint: Key, hash: Option<Hash>, now: int,
                                   valid: bool, force: bool, reset: bool, sent: Code)
      returns (reply: Option<Reply>, code: Code)
      requires Sorted(wal.logs) && manager.Valid()
      modifies this`gone, manager, manager.subscribers.Values
      ensures manager.Valid() && manager.roster == OnRequest(old(manager.roster), key, now, valid, reset)
      ensures manager.subscribers == if valid then old(manager.subscribers) else old(manager.subscribers) - {key}
      ensures gone == Owed(old(gone), key, key in old(manager.subscribers) && !valid)
      ensures reply == if key in old(manager.subscribers) && valid
                       then Some(Answer(wal.vt, wal.State(), checkpoint, hash, force)) else None
      ensures reply.None? ==> code == SubscriberNotFound
      ensures reply.Some? ==>
                var notified := if reply.value == Logs([]) then Ok else sent;
                code == if respond.Some? then respond.value(notified) else notified
    {
      hide Manager.Valid, Answer;
      var ok := Attend(key, now, valid, reset);
      if !ok { return None, SubscriberNotFound; }
      var answer := AnswerRequest(checkpoint, hash, force);
      code := if answer == Logs([]) then Ok else sent;
      if respond.Some? { code := respond.value(code); }
      return Some(answer), code;
    }

    /** Choose between a snapshot and the logs after the checkpoint. */
    method AnswerRequest(checkpoint: Key, hash: Option<Hash>, force: bool) returns (reply: Reply)
      requires Sorted(wal.logs)
      ensures reply == Answer(wal.vt, wal.State(), checkpoint, hash, force)
    {
      hide Sorted, FirstAtLeast;
      if force { return Snapshot; }
      if wal.removed.Some? && checkpoint < wal.removed.value { return Snapshot; }
      var i := wal.LogLowerBound(checkpoint);
      if i != |wal.logs| && !(checkpoint < wal.logs[i].key) && !(wal.logs[i].key < checkpoint) {
        if hash.Some? && wal.vt.setHash && wal.vt.getHash && wal.vt.calcHash && hash.value != wal.logs[i].hash {
          return Snapshot;
        }
        i := i + 1;
      }
      return Logs(wal.logs[i..]);
    }

    /** Make a subscriber, removing an invalid one with the same key first. */
    method AdmitSubscriber(key: int, now: int) returns (s: Subscriber)
      requires manager.Valid()
      modifies this`gone, manager, manager.subscribers.Values
      ensures manager.Valid() && key in manager.subscribers && manager.subscribers[key] == s && fresh(s) && s.key == key
      ensures manager.roster == Allocate(Unsubscribe(old(manager.roster), key), key, now, timeout)
      ensures manager.subscribers == (old(manager.subscribers) - {key})[key := s]
      ensures gone == Owed(old(gone), key, key in old(manager.subscribers))
    {
      Vacate(key);
      s := manager.Allocate(key, now, timeout);
    }

    /** Whoever holds the key leaves. */
    method Vacate(key: int)
      requires manager.Valid()
      modifies this`gone, manager, manager.subscribers.Values
      ensures manager.Valid() && manager.roster == Unsubscribe(old(manager.roster), key)
      ensures manager.subscribers == old(manager.subscribers) - {key}
      ensures gone == Owed(old(gone), key, key in old(manager.subscribers))
    {
      WithoutNothingIfUnknown(manager.roster, key);
      var known := manager.Find(key);
      if known != null { RemoveSubscriber(key); } else { assert manager.subscribers - {key} == manager.subscribers; }
    }

    /** A known valid subscriber asks again: its timeout and its timer are renewed. */
    method Renew(known: Subscriber, now: int)
      requires manager.Valid() && manager.Mapped(known) && known.owner == manager
      modifies manager, known
      ensures manager.Valid() && manager.subscribers == old(manager.subscribers)
      ensures manager.roster
           == WalRoster.Subscribe(WalRoster.SetTimeout(old(manager.roster), known.key, timeout), known.key, now)
    {
      hide Coherent, Manager.Bound;
      manager.SetTimeout(known, timeout);
      manager.Subscribe(known, now);
    }

    /** Subscribe: renew a known valid subscriber, or create one and answer it from its checkpoint. */
    method CreateSubscriber(key: int, checkpoint: Key, hash: Option<Hash>, now: int,
                            valid: bool, validNew: bool, force: bool, sent: Code)
      returns (s: Subscriber, reply: Option<Reply>)
      requires Sorted(wal.logs) && manager.Valid()
      modifies this`gone, manager, manager.subscribers.Values
      ensures manager.Valid() && s.key == key
      ensures manager.roster == OnCreate(old(manager.roster), key, now, timeout, valid, validNew)
      ensures reply == if !(key in old(manager.subscribers) && valid) && validNew
                       then Some(Answer(wal.vt, wal.State(), checkpoint, hash, force)) else None
      ensures if key in old(manager.subscribers) && valid
              then s == old(manager.subscribers)[key] && manager.subscribers == old(manager.subscribers)
              else fresh(s) && manager.subscribers == if validNew then (old(manager.subscribers) - {key})[key := s]
                                                      else old(manager.subscribers) - {key}
      ensures gone == Owed(old(gone), key, if key in old(manager.subscribers) then !valid else !validNew)
    {
      hide Coherent, Manager.Bound, Answer;
      var known := manager.Find(key);
      if known != null && valid {
        Renew(known, now);
        return known, None;
      }
      s, reply := Replace(key, checkpoint, hash, now, validNew, force, sent);
    }

    /** Make a subscriber in place of whoever holds the key, and answer it. */
    method Replace(key: int, checkpoint: Key, hash: Option<Hash>, now: int, validNew: bool, force: bool, sent: Code)
      returns (s: Subscriber, reply: Option<Reply>)
      requires Sorted(wal.logs) && manager.Valid()
      modifies this`gone, manager, manager.subscribers.Values
      ensures manager.Valid() && s.key == key && fresh(s)
      ensures manager.roster == OnRequest(Allocate(Unsubscribe(old(manager.roster), key), key, now, timeout),
                                          key, now, validNew, false)
      ensures reply == if validNew then Some(Answer(wal.vt, wal.State(), checkpoint, hash, force)) else None
      ensures manager.subscribers == if validNew then (old(manager.subscribers) - {key})[key := s]
                                     else old(manager.subscribers) - {key}
      ensures gone == Owed(old(gone), key, key in old(manager.subscribers) || !validNew)
    {
      hide Manager.Valid, Answer, OnRequest, Allocate, Unsubscribe;
      s := AdmitSubscriber(key, now);
      var answer, code := ReceiveSubscribeRequest(key, checkpoint, hash, now, validNew, force, false, sent);
      reply := answer;
    }

    // -------------------------------------------------------------- ticking

    /** What is left for ticks to do, counted: logs to collect, logs and hole logs to broadcast,
        subscribers to expire. */
    ghost function Work(): nat
      reads this, wal, manager
    {
      |wal.logs| + (|wal.logs| - FirstUnsent(wal.logs, bound)) + |holes| + |manager.roster.queue|
    }

    ghost function Seen(): View
      reads this, wal, manager
    {
      View(wal.logs, bound, holes, outbox, ops, manager.subscribers.Keys, wal.added, pub.lost)
    }

    /** Nothing to broadcast, to collect or to expire at this time. */
    ghost predicate Settled(now: int)
      reads this, wal, manager
    {
      && FirstUnsent(wal.logs, bound) == |wal.logs| && holes == []
      && GcCount(wal.vt, wal.conf, now, bound, wal.logs, 1) == 0
      && FirstExpired(manager.roster, now).None?
    }

    /** Broadcast, collect expired logs and expire subscribers until nothing is left to do or the event
        budget is spent. A tick always ends, never loses a log, sends whatever there is to send, and counts
        what it sent, removed and expired. */
    method Tick(now: int, maxEvent: nat) returns (count: nat)
      requires Valid()
      modifies this, wal, manager, manager.subscribers.Values
      ensures Valid() && Ticked(old(Seen()), Seen(), now, count)
      ensures ExpireAll(manager.roster, now) == ExpireAll(old(manager.roster), now)
      ensures count < (if maxEvent == 0 then SIZE_MAX else maxEvent) ==>
                Settled(now) && manager.roster == ExpireAll(old(manager.roster), now) && gone == {}
    {
      hide InStep, Manager.Valid, Wal.Valid, ExpireAll, FirstUnsent, Ticked, GcCount;
      var budget := if maxEvent == 0 then SIZE_MAX else maxEvent;
      var hasEvent := true;
      count := 0;
      ghost var first := true;
      while count < budget && hasEvent
        invariant Valid() && manager.subscribers.Values <= old(manager.subscribers.Values)
        invariant if first then count == 0 && hasEvent && Seen() == old(Seen())
                  else Ticked(old(Seen()), Seen(), now, count)
        invariant ExpireAll(manager.roster, now) == ExpireAll(old(manager.roster), now)
        invariant !hasEvent ==> Settled(now) && gone == {}
        decreases Work(), hasEvent
      {
        ghost var before := Seen();
        var round := if budget > 16 then budget / 16 else budget;
        var done := TickRound(now, round);
        if !first { TickedTwice(old(Seen()), before, Seen(), now, count, done); }
        hasEvent := done > 0;
        count := count + done;
        first := false;
      }
      if !hasEvent { NothingExpired(manager.roster, now); }
    }

    /** One turn of a tick. */
    method TickRound(now: int, round: nat) returns (count: nat)
      requires Valid() && round > 0
      modifies this, wal, manager, manager.subscribers.Values
      ensures Valid() && manager.subscribers.Values <= old(manager.subscribers.Values)
      ensures Ticked(old(Seen()), Seen(), now, count)
      ensures Work() + count <= old(Work())
      ensures ExpireAll(manager.roster, now) == ExpireAll(old(manager.roster), now)
      ensures count == 0 ==> Settled(now) && gone == {}
    {
      hide InStep, Manager.Valid, Wal.Valid, ExpireAll, FirstUnsent, Ticked, GcCount, FirstExpired;
      var flushed := Flush(now, round);
      ghost var between := Seen();
      var expired := ExpireSubscribers(now, round);
      count := flushed + expired;
      TickedThenLeft(old(Seen()), between, Seen().keys, now, flushed);
    }

    /** One broadcast followed by one collection that holds at the bound. */
    method Flush(now: int, round: nat) returns (count: nat)
      requires wal.Idle() && InStep() && round > 0
      modifies this, wal
      ensures wal.Idle() && InStep() && gone == {} && Ticked(old(Seen()), Seen(), now, count)
      ensures |wal.logs| + count
           <= |old(wal.logs)| + (|old(wal.logs)| - FirstUnsent(old(wal.logs), old(bound))) + |old(holes)|
      ensures FirstUnsent(wal.logs, bound) == |wal.logs| && holes == []
      ensures count == 0 ==> GcCount(wal.vt, wal.conf, now, bound, wal.logs, 1) == 0
    {
      hide InStep, Wal.Idle, FirstUnsent, Ticked, Above;
      var sent := SendAll(now);
      ghost var between := Seen();
      var collected := CollectLogs(now, round);
      count := sent + collected;
      CollectTicked(old(Seen()), between, now, sent, collected, round);
    }

    /** Broadcast; afterwards nothing is left to send. */
    method SendAll(ghost now: int) returns (count: nat)
      requires wal.Idle() && InStep()
      modifies this
      ensures wal.Idle() && InStep() && gone == {} && Ticked(old(Seen()), Seen(), now, count)
      ensures count == |wal.logs| - FirstUnsent(wal.logs, old(bound)) + |old(holes)|
      ensures FirstUnsent(wal.logs, bound) == |wal.logs| && holes == []
    {
      hide FirstUnsent, Ticked, Sent, Run;
      BroadcastTicked(pub, Seen(), now);
      assert manager.subscribers != map[] <==> manager.subscribers.Keys != {};
      var sent, rounds := Broadcast();
      count := sent;
    }

    /** Collect expired logs from a fully broadcast log. */
    method CollectLogs(now: int, limit: nat) returns (count: nat)
      requires wal.Idle() && InStep()
      requires FirstUnsent(wal.logs, bound) == |wal.logs|
      modifies this`ops, this`pub, wal
      ensures wal.Idle() && InStep() && pub.lost == old(pub.lost)
      ensures ops == old(ops) + [Collect(now, bound, limit)] && wal.added == old(wal.added)
      ensures |wal.logs| + count == |old(wal.logs)| && FirstUnsent(wal.logs, bound) == |wal.logs|
      ensures wal.logs == old(wal.logs)[count..]
      ensures count == 0 && 0 < limit ==> GcCount(wal.vt, wal.conf, now, bound, wal.logs, 1) == 0
    {
      hide Gc, FirstUnsent, Consistent, Run, Step, GcCount;
      AllReached(wal.logs, bound);
      CollectOnly(wal.vt, wal.conf, enableHole, pub, now, bound, limit);
      count := wal.CollectExpired(now, bound, limit);
      Advance(Collect(now, bound, limit));
      AllReached(wal.logs, bound);
    }

    /** Remove overdue subscribers, at most `limit`. */
    method ExpireSubscribers(now: int, limit: nat) returns (count: nat)
      requires manager.Valid()
      modifies this`gone, manager, manager.subscribers.Values
      ensures manager.Valid() && manager.subscribers.Values <= old(manager.subscribers.Values)
      ensures ExpireAll(manager.roster, now) == ExpireAll(old(manager.roster), now)
      ensures |manager.roster.queue| + count <= |old(manager.roster.queue)|
      ensures |manager.subscribers.Keys| + count == |old(manager.subscribers).Keys|
      ensures count < limit ==> FirstExpired(manager.roster, now).None?
      ensures count == 0 ==> manager.roster == old(manager.roster) && gone == old(gone)
      ensures manager.subscribers.Keys <= old(manager.subscribers).Keys
      ensures gone == OwedAll(old(gone), old(manager.subscribers).Keys, manager.subscribers.Keys)
      ensures forall k :: k in gone <==>
                k in old(gone) || (enableFarewell && k in old(manager.subscribers) && k !in manager.subscribers)
    {
      hide Coherent, Manager.Bound;
      count := 0;
      while count < limit
        invariant manager.subscribers.Keys <= old(manager.subscribers).Keys
        invariant gone == OwedAll(old(gone), old(manager.subscribers).Keys, manager.subscribers.Keys)
        invariant manager.Valid() && manager.subscribers.Values <= old(manager.subscribers.Values)
        invariant ExpireAll(manager.roster, now) == ExpireAll(old(manager.roster), now)
        invariant |manager.roster.queue| + count <= |old(manager.roster.queue)|
        invariant |manager.subscribers.Keys| + count == |old(manager.subscribers).Keys|
        invariant count == 0 ==> manager.roster == old(manager.roster) && gone == old(gone)
      {
        var s := manager.GetFirstExpired(now);
        if s == null { return; }
        WithoutShorter(manager.roster.queue, s.key);
        OwedOneMore(old(gone), old(manager.subscribers).Keys, manager.subscribers.Keys, s.key);
        OneFewer(manager.subscribers, s.key);
        RemoveSubscriber(s.key);
        count := count + 1;
      }
    }
  }
}
