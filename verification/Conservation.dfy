/** Conservation: no step of mover, poller, worker or removal duplicates or forgets an occurrence. */
module Conservation {
  import opened Times
  import opened Tables
  import opened Redis
  import opened Pipeline

  /** Where a live occurrence can be. */
  datatype Place = InHash(k: Key) | InQueue(i: int) | InHand(w: nat) | InRetry(it: Item)

  predicate Live(s: State, p: Place) {
    match p
    case InHash(k) => k in s.redis.data
    case InQueue(i) => 0 <= i < |s.redis.queue|
    case InHand(w) => w in s.hands
    case InRetry(it) => it in s.redis.retry
  }

  function ItemAt(s: State, p: Place): Item
    requires Live(s, p)
  {
    match p
    case InHash(k) => s.redis.data[k]
    case InQueue(i) => s.redis.queue[i]
    case InHand(w) => s.hands[w].item
    case InRetry(it) => it
  }

  predicate At(s: State, id: OccurrenceId, p: Place) {
    Live(s, p) && ItemAt(s, p).id == id
  }

  ghost predicate Somewhere(s: State, id: OccurrenceId) {
    exists p :: At(s, id, p)
  }

  /** Every issued occurrence is in exactly one place or has met exactly one fate; nothing else is
      anywhere. */
  ghost predicate Conserved(s: State) {
    && (forall id :: id in s.issued && id !in s.fate ==> Somewhere(s, id))
    && (forall id, p :: At(s, id, p) ==> id in s.issued && id !in s.fate)
    && (forall id, p, q :: At(s, id, p) && At(s, id, q) ==> p == q)
    && s.fate.Keys <= s.issued
  }

  // ---------- the four ways a step can act on places ----------

  /** The places other than p and q hold what they held. */
  ghost predicate SameBut(s: State, s': State, p: Place, q: Place) {
    forall x :: x != p && x != q ==>
      (Live(s, x) <==> Live(s', x)) && (Live(s, x) ==> ItemAt(s, x).id == ItemAt(s', x).id)
  }

  lemma OneMoves(s: State, s': State, p: Place, q: Place)
    requires Conserved(s)
    requires Live(s, p) && !Live(s', p) && !Live(s, q) && Live(s', q)
    requires ItemAt(s, p).id == ItemAt(s', q).id
    requires SameBut(s, s', p, q)
    requires s'.issued == s.issued && s'.fate == s.fate
    ensures Conserved(s')
  {
    hide Live, ItemAt;
    forall id | id in s'.issued && id !in s'.fate
      ensures Somewhere(s', id)
    {
      var x :| At(s, id, x);
      assert At(s', id, if x == p then q else x);
    }
    assert forall id, x :: At(s', id, x) ==> At(s, id, if x == q then p else x);
  }

  lemma NoneMoves(s: State, s': State)
    requires Conserved(s)
    requires forall x :: (Live(s, x) <==> Live(s', x)) && (Live(s, x) ==> ItemAt(s, x).id == ItemAt(s', x).id)
    requires s'.issued == s.issued && s'.fate == s.fate
    ensures Conserved(s')
  {
    hide Live, ItemAt;
    assert forall id, x :: At(s', id, x) <==> At(s, id, x);
    forall id | id in s'.issued && id !in s'.fate
      ensures Somewhere(s', id)
    {
      var x :| At(s, id, x);
      assert At(s', id, x);
    }
  }

  lemma OneEnds(s: State, s': State, p: Place, f: Fate)
    requires Conserved(s)
    requires Live(s, p) && !Live(s', p) && SameBut(s, s', p, p)
    requires s'.issued == s.issued && s'.fate == s.fate[ItemAt(s, p).id := f]
    ensures Conserved(s')
  {
    hide Live, ItemAt;
    assert At(s, ItemAt(s, p).id, p);
    assert forall id, x :: At(s', id, x) ==> x != p && At(s, id, x);
    forall id | id in s'.issued && id !in s'.fate
      ensures Somewhere(s', id)
    {
      var x :| At(s, id, x);
      assert At(s', id, x);
    }
  }

  lemma OneAppears(s: State, s': State, q: Place)
    requires Conserved(s)
    requires !Live(s, q) && Live(s', q) && SameBut(s, s', q, q)
    requires ItemAt(s', q).id !in s.issued
    requires s'.issued == s.issued + {ItemAt(s', q).id} && s'.fate == s.fate
    ensures Conserved(s')
  {
    hide Live, ItemAt;
    assert forall id, x :: x != q ==> (At(s', id, x) <==> At(s, id, x));
    forall id | id in s'.issued && id !in s'.fate
      ensures Somewhere(s', id)
    {
      if id == ItemAt(s', q).id {
        assert At(s', id, q);
      } else {
        var x :| At(s, id, x);
        assert At(s', id, x);
      }
    }
  }

  // ---------- the same, by fields ----------

  predicate SameHands(s: State, s': State) {
    s'.hands.Keys == s.hands.Keys && forall w :: w in s.hands ==> s'.hands[w].item == s.hands[w].item
  }

  lemma KeptByFields(s: State, s': State)
    requires Conserved(s) && s'.redis.data == s.redis.data && s'.redis.queue == s.redis.queue
    requires s'.redis.retry == s.redis.retry && SameHands(s, s')
    requires s'.issued == s.issued && s'.fate == s.fate
    ensures Conserved(s')
  {
    hide Conserved;
    NoneMoves(s, s');
  }

  lemma HandGone(s: State, s': State, w: nat, f: Fate)
    requires Conserved(s) && w in s.hands && s'.redis == s.redis && s'.hands == s.hands - {w}
    requires s'.issued == s.issued && s'.fate == s.fate[s.hands[w].item.id := f]
    ensures Conserved(s')
  {
    hide Conserved;
    OneEnds(s, s', InHand(w), f);
  }

  lemma EntryGone(s: State, s': State, k: Key, f: Fate)
    requires Conserved(s) && k in s.redis.data && s'.redis == Removed(s.redis, k) && SameHands(s, s')
    requires s'.issued == s.issued && s'.fate == s.fate[s.redis.data[k].id := f]
    ensures Conserved(s')
  {
    hide Conserved;
    OneEnds(s, s', InHash(k), f);
  }

  lemma EntryAdded(s: State, s': State, it: Item)
    requires Conserved(s) && KeyOf(it) !in s.redis.data && it.id !in s.issued
    requires s'.redis == Written(s.redis, it) && s'.hands == s.hands
    requires s'.issued == s.issued + {it.id} && s'.fate == s.fate
    ensures Conserved(s')
  {
    hide Conserved;
    OneAppears(s, s', InHash(KeyOf(it)));
  }

  // ---------- every step ----------

  predicate OnlyHandChanged(s: State, s': State, w: nat)
    requires w in s.hands
  {
    && w in s'.hands && s'.hands[w].item == s.hands[w].item
    && s'.hands == s.hands[w := s'.hands[w]] && s'.redis == s.redis
    && s'.issued == s.issued && s'.fate == s.fate
  }

  /** A worker step that keeps its item. */
  lemma HandChanged(s: State, s': State, w: nat)
    requires Conserved(s) && w in s.hands && OnlyHandChanged(s, s', w)
    ensures Conserved(s')
  {
    hide Conserved;
    KeptByFields(s, s');
  }

  lemma DiagnosedConserves(s: State, it: Item, diagnosed: bool)
    requires Conserved(s)
    ensures Conserved(Diagnosed(s, it, diagnosed))
  {
    hide Conserved;
    KeptByFields(s, Diagnosed(s, it, diagnosed));
  }

  lemma CleanedConserves(s: State, it: Item, cleaned: bool)
    requires Conserved(s)
    ensures Conserved(Cleaned(s, it, cleaned))
  {
    hide Conserved, KeyOf;
    if cleaned && KeyOf(it) in s.redis.data {
      EntryGone(s, Cleaned(s, it, cleaned), KeyOf(it), Cancelled);
    } else {
      KeptByFields(s, Cleaned(s, it, cleaned));
    }
  }

  lemma WithHandConserves(s: State, w: nat, h: Hand)
    requires Conserved(s) && w in s.hands && h.item == s.hands[w].item
    ensures Conserved(WithHand(s, w, h))
  {
    hide Conserved;
    HandChanged(s, WithHand(s, w, h), w);
  }

  /** Logging a diagnostic row and cleaning a key leave the hands alone. */
  lemma PreparationKeepsHands(s: State, it: Item, diagnosed: bool, cleaned: bool)
    ensures Diagnosed(s, it, diagnosed).hands == s.hands
    ensures Cleaned(Diagnosed(s, it, diagnosed), it, cleaned).hands == s.hands
  {
    hide KeyOf;
  }

  lemma FetchConserves(s: State, w: nat, read: Read)
    requires Conserved(s) && w in s.hands && s.hands[w].Popped?
    ensures Conserved(AfterFetch(s, w, read))
  {
    hide Conserved, Diagnosed, Cleaned, WithHand;
    var it := s.hands[w].item;
    var s1 := Diagnosed(s, it, read.diagnosed);
    DiagnosedConserves(s, it, read.diagnosed);
    match read
    case Error(diagnosed, cleaned) =>
      PreparationKeepsHands(s, it, diagnosed, cleaned);
      CleanedConserves(s1, it, cleaned);
      WithHandConserves(Cleaned(s1, it, cleaned), w, Returned(it, false));
    case Answer(diagnosed) =>
      PreparationKeepsHands(s, it, diagnosed, false);
      WithHandConserves(s1, w, Returned(it, false));
      if it.event in s.events {
        WithHandConserves(s, w, Fetched(it, s.events[it.event]));
      }
  }

  /** A requeued item is a new member of the retry set: its old hand was its only place. */
  lemma RequeueConserves(c: Config, s: State, w: nat)
    requires Conserved(s) && w in s.hands && s.hands[w].Returned?
    requires !s.hands[w].ok && s.hands[w].item.attempt + 1 < c.maxRetries
    ensures Conserved(AfterSettle(c, s, w, true))
  {
    var s' := AfterSettle(c, s, w, true);
    var it := s.hands[w].item;
    var again := it.(attempt := it.attempt + 1);
    assert At(s, it.id, InHand(w));
    assert !At(s, it.id, InRetry(again));
    hide Conserved;
    OneMoves(s, s', InHand(w), InRetry(again));
  }

  lemma SettleConserves(c: Config, s: State, w: nat, requeued: bool)
    requires Conserved(s) && w in s.hands && s.hands[w].Returned?
    ensures Conserved(AfterSettle(c, s, w, requeued))
  {
    hide Conserved, ScoresFrom, SameTables, Unix;
    var it := s.hands[w].item;
    if !s.hands[w].ok && it.attempt + 1 < c.maxRetries && requeued {
      RequeueConserves(c, s, w);
    } else {
      var s' := AfterSettle(c, s, w, requeued);
      HandGone(s, s', w, s'.fate[it.id]);
    }
  }

  /** An entry that is overwritten ends there, and the new one appears in its place. */
  lemma OverwriteConserves(s: State, it: Item)
    requires Conserved(s) && KeyOf(it) in s.redis.data && it.id !in s.issued
    ensures Conserved(Entered(s, it, Stored))
  {
    var k := KeyOf(it);
    var s1 := s.(redis := Removed(s.redis, k), fate := s.fate[s.redis.data[k].id := Overwritten]);
    var s' := Entered(s, it, Stored);
    EntryGone(s, s1, k, Overwritten);
    assert s'.redis == Written(s1.redis, it);
    hide Conserved, Entered, KeyOf;
    EntryAdded(s1, s', it);
  }

  lemma EnteredConserves(s: State, it: Item, planned: Planned)
    requires Conserved(s) && it.id !in s.issued
    ensures Conserved(Entered(s, it, planned))
  {
    hide Conserved, KeyOf;
    var s' := Entered(s, it, planned);
    if !planned.Stored? {
      KeptByFields(s, s');
    } else if KeyOf(it) in s.redis.data {
      OverwriteConserves(s, it);
    } else {
      EntryAdded(s, s', it);
    }
  }

  lemma PlanConserves(s: State, j: nat, id: OccurrenceId, planned: Planned)
    requires Conserved(s) && HasHead(s, j) && id !in s.issued
    ensures Conserved(AfterPlan(s, j, id, planned))
  {
    EnteredConserves(s, HeadItem(s, j, id), planned);
    hide Conserved, Entered, Planning, SameTables;
    KeptAside(Entered(s, HeadItem(s, j, id), planned), AfterPlan(s, j, id, planned));
  }

  lemma MoveConserves(c: Config, s: State, k: Key)
    requires Conserved(s) && Enabled(c, s, Move(k))
    ensures Conserved(Apply(c, s, Move(k)))
  {
    hide Conserved;
    OneMoves(s, Apply(c, s, Move(k)), InHash(k), InQueue(|s.redis.queue|));
  }

  lemma PollConserves(c: Config, s: State, it: Item)
    requires Conserved(s) && Enabled(c, s, Poll(it))
    ensures Conserved(Apply(c, s, Poll(it)))
  {
    hide Conserved;
    OneMoves(s, Apply(c, s, Poll(it)), InRetry(it), InQueue(|s.redis.queue|));
  }

  lemma PopConserves(c: Config, s: State, w: nat)
    requires Conserved(s) && Enabled(c, s, Pop(w))
    ensures Conserved(Apply(c, s, Pop(w)))
  {
    hide Conserved, Tries;
    OneMoves(s, Apply(c, s, Pop(w)), InQueue(|s.redis.queue| - 1), InHand(w));
  }

  /** Worker steps that keep the item in hand. */
  lemma WorkerConserves(c: Config, s: State, step: Step)
    requires Conserved(s) && Enabled(c, s, step)
    requires step.Execute? || step.Log? || step.Decide? || step.Deactivate?
    ensures Conserved(Apply(c, s, step))
  {
    hide Conserved, ShouldDeactivate;
    HandChanged(s, Apply(c, s, step), step.w);
  }

  /** Steps that touch neither Redis nor a worker. */
  predicate Aside(step: Step) {
    || step.Advance? || step.Begin? || step.BeginOnce? || step.Look? || step.Ask? || step.Finish?
    || step.Put? || step.Delete? || step.Archive?
  }

  predicate SameCore(s: State, s': State) {
    s'.redis == s.redis && s'.hands == s.hands && s'.issued == s.issued && s'.fate == s.fate
  }

  lemma KeptAside(s: State, s': State)
    requires Conserved(s) && SameCore(s, s')
    ensures Conserved(s')
  {
    hide Conserved;
    KeptByFields(s, s');
  }

  lemma PutIsAside(c: Config, s: State, e: EventId, event: Event)
    requires Conserved(s)
    ensures Conserved(AfterPut(c, s, e, event))
  {
    hide Conserved;
    KeptAside(s, AfterPut(c, s, e, event));
  }

  lemma AsideConserves(c: Config, s: State, step: Step)
    requires Conserved(s) && Enabled(c, s, step) && Aside(step)
    ensures Conserved(Apply(c, s, step))
  {
    hide Conserved, PlanOf, Extended, AfterPut, KeptEvents, RecentRows, Filter, ExistsAtTime;
    var s' := Apply(c, s, step);
    match step
    case Put(e, event) => PutIsAside(c, s, e, event);
    case _ => KeptAside(s, s');
  }

  lemma StepConserves(c: Config, s: State, step: Step)
    requires Conserved(s) && Enabled(c, s, step)
    ensures Conserved(Apply(c, s, step))
  {
    hide Conserved;
    if Aside(step) {
      AsideConserves(c, s, step);
    } else if step.Execute? || step.Log? || step.Decide? || step.Deactivate? {
      WorkerConserves(c, s, step);
    } else if step.Move? {
      MoveConserves(c, s, step.k);
    } else if step.Poll? {
      PollConserves(c, s, step.it);
    } else if step.Pop? {
      PopConserves(c, s, step.w);
    } else {
      var s' := Apply(c, s, step);
      match step
      case Plan(j, id, planned) => PlanConserves(s, j, id, planned);
      case Fetch(w, read) => FetchConserves(s, w, read);
      case Settle(w, requeued) => SettleConserves(c, s, w, requeued);
      case Crash(w) => HandGone(s, s', w, Lost);
      case Unplan(k) => EntryGone(s, s', k, Cancelled);
    }
  }

  /** In every run each issued occurrence is in exactly one place or has exactly one fate. */
  lemma {:induction false} RunConserves(c: Config, s: State, steps: seq<Step>)
    requires Conserved(s) && Run(c, s, steps)
    ensures Conserved(Final(c, s, steps))
    decreases |steps|
  {
    hide Enabled, Apply, Conserved;
    if steps != [] {
      StepConserves(c, s, steps[0]);
      RunConserves(c, Apply(c, s, steps[0]), steps[1..]);
    }
  }

  lemma InitiallyConserved(s: State)
    requires Initial(s)
    ensures Conserved(s)
  {
  }
}
