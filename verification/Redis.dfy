/** The four Redis keys of the pipeline and the code that changes them call by call. */
module Redis {
  import opened Times
  import opened Tables

  /** "schedule:<event>:<unix second>". */
  datatype Key = Key(event: EventId, second: int)

  /** models.Schedule: the planned occurrence as it travels through Redis. */
  datatype Item = Item(id: OccurrenceId, event: EventId, at: Instant, attempt: nat)

  function KeyFor(event: EventId, at: Instant): Key {
    Key(event, Unix(at))
  }

  function KeyOf(it: Item): Key {
    KeyFor(it.event, it.at)
  }

  /** Sorted set "schedules", hash "schedule:data", list "dispatch:queue" (right end last) and
      sorted set "retry:queue", whose members are the marshalled items themselves. */
  datatype Store = Store(
    schedules: map<Key, int>,
    data: map<Key, Item>,
    queue: seq<Item>,
    retry: map<Item, int>)

  // ---------- single-item effects ----------

  /** ZADD and HSET: an entry that is there already is overwritten. */
  function Written(s: Store, it: Item): Store {
    var k := KeyOf(it);
    s.(schedules := s.schedules[k := k.second], data := s.data[k := it])
  }

  /** ScheduleEvent undisturbed: HEXISTS, then ZADD and HSET. */
  function Scheduled(s: Store, it: Item): Store {
    if KeyOf(it) in s.data then s else Written(s, it)
  }

  /** One turn of the due-mover's Lua loop. */
  function Moved(s: Store, k: Key): Store {
    if k in s.data then
      s.(queue := s.queue + [s.data[k]], schedules := s.schedules - {k}, data := s.data - {k})
    else s
  }

  /** One turn of the retry poller's Lua loop. */
  function Polled(s: Store, it: Item): Store {
    s.(queue := s.queue + [it], retry := s.retry - {it})
  }

  /** ZREM and HDEL of one key. */
  function Removed(s: Store, k: Key): Store {
    s.(schedules := s.schedules - {k}, data := s.data - {k})
  }

  /** One turn of the loop of RemoveEventOccurrencesFromRedis. */
  function RemovedIfOf(s: Store, event: EventId, k: Key): Store {
    if k in s.data && s.data[k].event == event then Removed(s, k) else s
  }

  // ---------- whole scripts and loops ----------

  function MovedAll(s: Store, keys: seq<Key>): Store {
    if keys == [] then s else Moved(MovedAll(s, keys[..|keys| - 1]), keys[|keys| - 1])
  }

  function PolledAll(s: Store, items: seq<Item>): Store {
    if items == [] then s else Polled(PolledAll(s, items[..|items| - 1]), items[|items| - 1])
  }

  function RemovedAll(s: Store, event: EventId, keys: seq<Key>): Store {
    if keys == [] then s else RemovedIfOf(RemovedAll(s, event, keys[..|keys| - 1]), event, keys[|keys| - 1])
  }

  ghost predicate Distinct<T>(xs: seq<T>) {
    forall i, j :: 0 <= i < j < |xs| ==> xs[i] != xs[j]
  }

  /** The answer of ZRANGEBYSCORE lo hi: each member in range once, by ascending score. */
  ghost predicate IsRange<T(!new)>(zset: map<T, int>, lo: Option<int>, hi: int, members: seq<T>) {
    && Distinct(members)
    && (forall m :: m in members <==> m in zset && (lo.Some? ==> lo.value <= zset[m]) && zset[m] <= hi)
    && (forall i, j :: 0 <= i < j < |members| ==>
          members[i] in zset && members[j] in zset && zset[members[i]] <= zset[members[j]])
  }

  class Client {
    var schedules: map<Key, int>
    var data: map<Key, Item>
    var queue: seq<Item>
    var retry: map<Item, int>

    function View(): Store
      reads this
    {
      Store(schedules, data, queue, retry)
    }

    method ScheduleEvent(it: Item)
      modifies this
      ensures View() == Scheduled(old(View()), it)
      ensures queue == old(queue) && retry == old(retry)
      ensures var k := Key(it.event, it.at / 1_000_000_000);
              if k in old(data) then schedules == old(schedules) && data == old(data)
              else schedules == old(schedules)[k := it.at / 1_000_000_000] && data == old(data)[k := it]
    {
      var k := KeyOf(it);
      var exists_ := k in data;
      if exists_ {
        return;
      }
      schedules := schedules[k := Unix(it.at)];
      data := data[k := it];
    }

    /** The due-mover script, given what ZRANGEBYSCORE answers: exactly the entries with a score from 0 to now
        leave the hash, their data is appended to the queue by ascending score, and a due key without data
        stays in the sorted set. */
    method GetDueSchedules(now: int, keys: seq<Key>) returns (count: nat)
      requires IsRange(schedules, Some(0), now, keys)
      modifies this
      ensures View() == MovedAll(old(View()), keys)
      ensures count == |queue| - |old(queue)| && retry == old(retry)
      ensures forall k :: k in data <==>
                k in old(data) && !(k in old(schedules) && 0 <= old(schedules)[k] <= now)
      ensures forall k :: k in schedules <==>
                k in old(schedules) && !(k in old(data) && 0 <= old(schedules)[k] <= now)
      ensures forall k :: k in data ==> data[k] == old(data)[k]
      ensures forall k :: k in schedules ==> schedules[k] == old(schedules)[k]
      ensures queue == old(queue) + Taken(old(data), keys)
    {
      MoverEffect(View(), keys);
      count := 0;
      ghost var before := View();
      for i := 0 to |keys|
        invariant View() == MovedAll(before, keys[..i])
        invariant count == |queue| - |before.queue|
      {
        assert keys[..i + 1][..i] == keys[..i];
        var key := keys[i];
        if key in data {
          queue := queue + [data[key]];
          schedules := schedules - {key};
          data := data - {key};
          count := count + 1;
        }
      }
      assert keys[..|keys|] == keys;
    }

    /** The retry poller's script: exactly the members with a score up to now leave, by ascending score. */
    method PollRetryQueue(now: int, due: seq<Item>)
      requires IsRange(retry, None, now, due)
      modifies this
      ensures View() == PolledAll(old(View()), due)
      ensures queue == old(queue) + due && schedules == old(schedules) && data == old(data)
      ensures forall it :: it in retry <==> it in old(retry) && old(retry)[it] > now
      ensures forall it :: it in retry ==> retry[it] == old(retry)[it]
    {
      PollerEffect(View(), due);
      ghost var before := View();
      for i := 0 to |due|
        invariant View() == PolledAll(before, due[..i])
      {
        assert due[..i + 1][..i] == due[..i];
        queue := queue + [due[i]];
        retry := retry - {due[i]};
      }
      assert due[..|due|] == due;
    }

    /** BRPOP: the element pushed last. */
    method PopForWorker() returns (it: Option<Item>)
      modifies this
      ensures old(queue) == [] ==> it == None && View() == old(View())
      ensures old(queue) != [] ==>
                it == Some(old(queue)[|old(queue)| - 1]) &&
                View() == old(View()).(queue := old(queue)[..|old(queue)| - 1])
    {
      if queue == [] {
        return None;
      }
      it := Some(queue[|queue| - 1]);
      queue := queue[..|queue| - 1];
    }

    /** ZRANGE 0 -1, then HGET, ZREM and HDEL key by key. */
    method RemoveEventOccurrences(event: EventId, keys: seq<Key>)
      modifies this
      ensures View() == RemovedAll(old(View()), event, keys)
      ensures queue == old(queue) && retry == old(retry)
      ensures forall k :: k in data <==> k in old(data) && !(k in keys && old(data)[k].event == event)
      ensures forall k :: k in schedules <==>
                k in old(schedules) && !(k in keys && k in old(data) && old(data)[k].event == event)
      ensures forall k :: k in data ==> data[k] == old(data)[k]
      ensures forall k :: k in schedules ==> schedules[k] == old(schedules)[k]
    {
      RemovalEffect(View(), event, keys);
      ghost var before := View();
      for i := 0 to |keys|
        invariant View() == RemovedAll(before, event, keys[..i])
      {
        assert keys[..i + 1][..i] == keys[..i];
        if keys[i] in data && data[keys[i]].event == event {
          schedules := schedules - {keys[i]};
          data := data - {keys[i]};
        }
      }
      assert keys[..|keys|] == keys;
    }
  }

  // ---------- what the loops amount to ----------

  /** Items the mover takes, in the order of its answer; keys without data yield nothing. */
  function Taken(data: map<Key, Item>, keys: seq<Key>): seq<Item> {
    if keys == [] then []
    else
      var k := keys[|keys| - 1];
      Taken(data, keys[..|keys| - 1]) + if k in data then [data[k]] else []
  }

  /** The items taken are the data of the answered keys that have any, each once and in the answer's order. */
  lemma {:induction false} TakenInOrder(data: map<Key, Item>, keys: seq<Key>) returns (at: seq<nat>)
    ensures |at| == |Taken(data, keys)|
    ensures forall a, b :: 0 <= a < b < |at| ==> at[a] < at[b]
    ensures forall a :: 0 <= a < |at| ==>
              at[a] < |keys| && keys[at[a]] in data && Taken(data, keys)[a] == data[keys[at[a]]]
    ensures forall i: nat :: i < |keys| ==> (i in at <==> keys[i] in data)
  {
    at := [];
    if keys != [] {
      var n := |keys| - 1;
      at := TakenInOrder(data, keys[..n]);
      var front := Taken(data, keys[..n]);
      assert Taken(data, keys) == front + if keys[n] in data then [data[keys[n]]] else [];
      hide Taken;
      assert forall i: nat :: i < n ==> keys[..n][i] == keys[i];
      if keys[n] in data {
        at := at + [n];
      }
    }
  }

  /** The mover empties exactly the due part of the hash, leaves due keys without data in the
      sorted set, and appends the items by score. */
  lemma {:induction false} MoverEffect(s: Store, keys: seq<Key>)
    requires Distinct(keys)
    ensures var after := MovedAll(s, keys);
            && after.queue == s.queue + Taken(s.data, keys)
            && after.retry == s.retry
            && after.data == s.data - (set k | k in keys)
            && after.schedules == s.schedules - (set k | k in keys && k in s.data)
  {
    if keys != [] {
      var front, last := keys[..|keys| - 1], keys[|keys| - 1];
      assert keys == front + [last];
      MoverEffect(s, front);
      assert last !in front;
    }
  }

  /** The poller moves exactly the due items, each once. */
  lemma {:induction false} PollerEffect(s: Store, due: seq<Item>)
    ensures PolledAll(s, due) == s.(queue := s.queue + due, retry := s.retry - (set it | it in due))
  {
    if due != [] {
      var front, last := due[..|due| - 1], due[|due| - 1];
      assert due == front + [last];
      PollerEffect(s, front);
      assert s.queue + front + [last] == s.queue + due;
    } else {
      assert s.queue + due == s.queue;
    }
  }

  /** The listed keys whose data is of the event. */
  function Gone(s: Store, event: EventId, keys: seq<Key>): set<Key> {
    set k | k in keys && k in s.data && s.data[k].event == event
  }

  lemma RemovalStep(s: Store, event: EventId, gone: set<Key>, k: Key)
    requires k !in gone || (k in s.data && s.data[k].event == event)
    ensures var before := s.(schedules := s.schedules - gone, data := s.data - gone);
            var more := if k in s.data && s.data[k].event == event then gone + {k} else gone;
            RemovedIfOf(before, event, k) == s.(schedules := s.schedules - more, data := s.data - more)
  {
    assert s.data - gone - {k} == s.data - (gone + {k});
    assert s.schedules - gone - {k} == s.schedules - (gone + {k});
    assert k in gone ==> gone + {k} == gone;
  }

  /** Removal drops the event's entries from hash and sorted set and touches nothing else. */
  lemma {:induction false} RemovalEffect(s: Store, event: EventId, keys: seq<Key>)
    ensures var gone := Gone(s, event, keys);
            RemovedAll(s, event, keys) == s.(schedules := s.schedules - gone, data := s.data - gone)
  {
    if keys != [] {
      var front, last := keys[..|keys| - 1], keys[|keys| - 1];
      assert keys == front + [last];
      RemovalEffect(s, event, front);
      RemovalStep(s, event, Gone(s, event, front), last);
      assert Gone(s, event, keys) ==
             if last in s.data && s.data[last].event == event then Gone(s, event, front) + {last}
             else Gone(s, event, front);
      hide Gone, RemovedIfOf;
    } else {
      assert Gone(s, event, keys) == {};
      assert s.schedules - {} == s.schedules && s.data - {} == s.data;
    }
  }
}
