/** archive_old_data: four statements over shared tables. */
module Archive {
  import opened Times
  import opened Recurrence
  import opened Tables
  import Pipeline

  /** The columns of archived_events that the INSERT lists. */
  datatype ArchivedEvent = ArchivedEvent(id: EventId, start: Instant, schedule: Option<Schedule>, status: Status)

  function Listed(id: EventId, e: Event): ArchivedEvent {
    ArchivedEvent(id, e.start, e.schedule, e.status)
  }

  function EventRecords(events: map<EventId, Event>): multiset<ArchivedEvent> {
    multiset(set e | e in events :: Listed(e, events[e]))
  }

  datatype Db = Db(
    events: map<EventId, Event>,
    rows: seq<Row>,
    archivedEvents: multiset<ArchivedEvent>,
    archivedRows: multiset<Row>)

  function StaleEvents(events: map<EventId, Event>, rows: seq<Row>, cutoff: Instant): map<EventId, Event> {
    map e | e in events && !HasRecentRow(rows, e, cutoff) :: events[e]
  }

  /** The state after one run at a cutoff. */
  function ArchivedAt(db: Db, cutoff: Instant): Db {
    var events := KeptEvents(db.events, db.rows, cutoff);
    Db(events,
       RecentRows(db.rows, cutoff),
       db.archivedEvents + EventRecords(StaleEvents(db.events, db.rows, cutoff)),
       db.archivedRows + multiset(OldRows(db.rows, cutoff)))
  }

  class Database {
    var events: map<EventId, Event>
    var rows: seq<Row>
    var archivedEvents: multiset<ArchivedEvent>
    var archivedRows: multiset<Row>

    function View(): Db
      reads this
    {
      Db(events, rows, archivedEvents, archivedRows)
    }

    /** The statements in order; the last one cascades. With the foreign key in place, the cascade
        finds nothing left to delete. Rows scheduled before the cutoff leave for the archive, the others stay;
        events without a row that stays leave with their listed columns. */
    method ArchiveOldData(now: Instant, retention: int)
      requires ForeignKey(events, rows)
      modifies this
      ensures View() == ArchivedAt(old(View()), now - retention)
      ensures IsArchived(old(View()), View(), now - retention)
    {
      ghost var before := View();
      hide RecentRows, OldRows, KeptEvents, StaleEvents, EventRecords, Cascade, IsArchived;
      var cutoff := now - retention;
      archivedRows := archivedRows + multiset(OldRows(rows, cutoff));
      archivedEvents := archivedEvents + EventRecords(StaleEvents(events, rows, cutoff));
      StatementsInOrder(events, rows, cutoff);
      rows := RecentRows(rows, cutoff);
      events := KeptEvents(events, rows, cutoff);
      rows := Cascade(rows, events);
      ArchivedExact(before, cutoff);
    }
  }

  /** a is the record of an event none of whose rows stays: its id, start, schedule and status. */
  ghost predicate Leaves(events: map<EventId, Event>, rows: seq<Row>, cutoff: Instant, a: ArchivedEvent) {
    && a.id in events && a.start == events[a.id].start && a.schedule == events[a.id].schedule
    && a.status == events[a.id].status
    && forall r :: r in rows && r.event == a.id ==> r.at < cutoff
  }

  lemma RecordsExact(events: map<EventId, Event>, rows: seq<Row>, cutoff: Instant)
    ensures forall a :: EventRecords(StaleEvents(events, rows, cutoff))[a] ==
                        if Leaves(events, rows, cutoff, a) then 1 else 0
  {
    forall a
      ensures EventRecords(StaleEvents(events, rows, cutoff))[a] == if Leaves(events, rows, cutoff, a) then 1 else 0
    {
      RecordCount(StaleEvents(events, rows, cutoff), a);
      hide EventRecords;
    }
  }

  /** What a run leaves and archives, in terms of the rows' instants: rows with their multiplicity, the events
      of rows that stay as they were, and once each the listed columns of the others. */
  ghost predicate IsArchived(db: Db, after: Db, cutoff: Instant) {
    && (forall r :: multiset(after.rows)[r] == if r.at >= cutoff then multiset(db.rows)[r] else 0)
    && (forall r :: after.archivedRows[r] == db.archivedRows[r] + if r.at < cutoff then multiset(db.rows)[r] else 0)
    && (forall e :: e in after.events <==>
          e in db.events && exists r :: r in db.rows && r.event == e && r.at >= cutoff)
    && (forall e :: e in after.events ==> after.events[e] == db.events[e])
    && (forall a :: after.archivedEvents[a] ==
          db.archivedEvents[a] + if Leaves(db.events, db.rows, cutoff, a) then 1 else 0)
  }

  lemma ArchivedExact(db: Db, cutoff: Instant)
    ensures IsArchived(db, ArchivedAt(db, cutoff), cutoff)
  {
    RetentionExact(db.events, db.rows, cutoff);
    RecordsExact(db.events, db.rows, cutoff);
    hide RecentRows, OldRows, KeptEvents, StaleEvents, EventRecords, Leaves;
  }

  /** The archiver as a step of the pipeline: it leaves exactly the rows scheduled inside the retention period
      before its clock reading, and the events that have one. */
  lemma ArchiveStepExact(c: Pipeline.Config, s: Pipeline.State)
    ensures var s', cutoff := Pipeline.Apply(c, s, Pipeline.Archive), s.clock - c.retention;
            && (forall r :: multiset(s'.rows)[r] == if r.at >= cutoff then multiset(s.rows)[r] else 0)
            && (forall e :: e in s'.events <==>
                  e in s.events && exists r :: r in s.rows && r.event == e && r.at >= cutoff)
            && (forall e :: e in s'.events ==> s'.events[e] == s.events[e])
            && s' == s.(events := s'.events, rows := s'.rows)
  {
    RetentionExact(s.events, s.rows, s.clock - c.retention);
    hide RecentRows, KeptEvents;
  }

  lemma FetchKeepsForeignKey(s: Pipeline.State, w: nat, read: Pipeline.Read)
    requires ForeignKey(s.events, s.rows) && w in s.hands && s.hands[w].Popped?
    ensures var s' := Pipeline.AfterFetch(s, w, read); ForeignKey(s'.events, s'.rows)
  {
    Pipeline.FetchShape(s, w, read);
    hide Pipeline.AfterFetch;
  }

  lemma TablesKeepForeignKey(c: Pipeline.Config, s: Pipeline.State, step: Pipeline.Step)
    requires ForeignKey(s.events, s.rows) && Pipeline.Enabled(c, s, step)
    requires step.Put? || step.Delete? || step.Archive?
    ensures var s' := Pipeline.Apply(c, s, step); ForeignKey(s'.events, s'.rows)
  {
    hide Pipeline.ScoresFrom;
  }

  lemma StepKeepsForeignKey(c: Pipeline.Config, s: Pipeline.State, step: Pipeline.Step)
    requires ForeignKey(s.events, s.rows) && Pipeline.Enabled(c, s, step)
    ensures var s' := Pipeline.Apply(c, s, step); ForeignKey(s'.events, s'.rows)
  {
    if step.Fetch? {
      FetchKeepsForeignKey(s, step.w, step.read);
    } else if step.Put? || step.Delete? || step.Archive? {
      TablesKeepForeignKey(c, s, step);
    } else {
      hide Pipeline.PlanOf, Pipeline.Extended, Pipeline.AfterLook, Pipeline.AfterAsk, Pipeline.AfterPlan;
      hide Pipeline.Forgotten, Pipeline.AfterSettle, Pipeline.ScoresFrom, Pipeline.ShouldDeactivate;
    }
  }

  /** In every run every row has its event, which is what archive_old_data starts from: rows are inserted only
      for events that exist, and deleting or archiving an event leaves no row of it behind. */
  lemma {:induction false} RunKeepsForeignKey(c: Pipeline.Config, s: Pipeline.State, steps: seq<Pipeline.Step>)
    requires ForeignKey(s.events, s.rows) && Pipeline.Run(c, s, steps)
    ensures var s' := Pipeline.Final(c, s, steps); ForeignKey(s'.events, s'.rows)
    decreases |steps|
  {
    hide Pipeline.Enabled, Pipeline.Apply, ForeignKey;
    if steps != [] {
      StepKeepsForeignKey(c, s, steps[0]);
      RunKeepsForeignKey(c, Pipeline.Apply(c, s, steps[0]), steps[1..]);
    }
  }

  /** Deleting old rows first does not change which events go, and leaves the cascade nothing. */
  lemma StatementsInOrder(events: map<EventId, Event>, rows: seq<Row>, cutoff: Instant)
    requires ForeignKey(events, rows)
    ensures var recent := RecentRows(rows, cutoff);
            var kept := KeptEvents(events, recent, cutoff);
            kept == KeptEvents(events, rows, cutoff) && Cascade(recent, kept) == recent
  {
    var recent := RecentRows(rows, cutoff);
    assert forall e :: HasRecentRow(recent, e, cutoff) <==> HasRecentRow(rows, e, cutoff);
    CascadeFindsNothing(recent, KeptEvents(events, recent, cutoff));
  }

  // ---------- nothing is lost, nothing is copied twice ----------

  lemma RecordCount(events: map<EventId, Event>, a: ArchivedEvent)
    ensures EventRecords(events)[a] == if a.id in events && Listed(a.id, events[a.id]) == a then 1 else 0
  {
  }

  lemma EventsPartition(events: map<EventId, Event>, rows: seq<Row>, cutoff: Instant)
    ensures EventRecords(KeptEvents(events, rows, cutoff)) + EventRecords(StaleEvents(events, rows, cutoff)) ==
            EventRecords(events)
  {
    forall a
      ensures (EventRecords(KeptEvents(events, rows, cutoff)) +
               EventRecords(StaleEvents(events, rows, cutoff)))[a] == EventRecords(events)[a]
    {
      RecordCount(KeptEvents(events, rows, cutoff), a);
      RecordCount(StaleEvents(events, rows, cutoff), a);
      RecordCount(events, a);
    }
  }

  /** Live plus archived rows and events are the same multisets before and after a run. */
  lemma ArchivingConserves(db: Db, cutoff: Instant)
    ensures var after := ArchivedAt(db, cutoff);
            && multiset(after.rows) + after.archivedRows == multiset(db.rows) + db.archivedRows
            && EventRecords(after.events) + after.archivedEvents == EventRecords(db.events) + db.archivedEvents
  {
    EventsPartition(db.events, db.rows, cutoff);
    FilterPartitions(db.rows, r => IsRecent(cutoff, r), r => !IsRecent(cutoff, r));
  }

  /** Every row left behind still has its event. */
  lemma ArchivingKeepsForeignKey(db: Db, cutoff: Instant)
    requires ForeignKey(db.events, db.rows)
    ensures ForeignKey(ArchivedAt(db, cutoff).events, ArchivedAt(db, cutoff).rows)
  {
  }

  lemma RowsCompose(rows: seq<Row>, c1: Instant, c2: Instant)
    requires c1 <= c2
    ensures RecentRows(RecentRows(rows, c1), c2) == RecentRows(rows, c2)
  {
    FilterTwice(rows, r => IsRecent(c1, r), r => IsRecent(c2, r));
  }

  lemma EventsCompose(events: map<EventId, Event>, rows: seq<Row>, c1: Instant, c2: Instant)
    requires c1 <= c2
    ensures KeptEvents(KeptEvents(events, rows, c1), RecentRows(rows, c1), c2) == KeptEvents(events, rows, c2)
  {
  }

  /** A run at c1 and a later one at c2 leave what one run at c2 leaves, live and archived. */
  lemma ArchivingComposes(db: Db, c1: Instant, c2: Instant)
    requires c1 <= c2
    ensures ArchivedAt(ArchivedAt(db, c1), c2) == ArchivedAt(db, c2)
  {
    RowsCompose(db.rows, c1, c2);
    EventsCompose(db.events, db.rows, c1, c2);
    var one := ArchivedAt(db, c1);
    ArchivingConserves(db, c1);
    ArchivingConserves(one, c2);
    ArchivingConserves(db, c2);
    hide ArchivedAt, EventRecords;
    var two := ArchivedAt(one, c2);
    var direct := ArchivedAt(db, c2);
    CancelLeft(multiset(two.rows), two.archivedRows, direct.archivedRows);
    CancelLeft(EventRecords(two.events), two.archivedEvents, direct.archivedEvents);
  }

  lemma CancelLeft<T>(a: multiset<T>, b: multiset<T>, c: multiset<T>)
    requires a + b == a + c
    ensures b == c
  {
    assert b == (a + b) - a == (a + c) - a == c;
  }

  /** An event survives exactly when it has a logged row inside the retention period. */
  lemma SurvivesIff(db: Db, cutoff: Instant, e: EventId)
    requires e in db.events
    ensures e in ArchivedAt(db, cutoff).events <==> HasRecentRow(db.rows, e, cutoff)
  {
  }

  /** So an active event that has not been dispatched yet is archived and deleted by the next run,
      however far in the future it starts. */
  lemma UndispatchedEventIsRemoved(db: Db, cutoff: Instant, e: EventId)
    requires e in db.events && forall r :: r in db.rows ==> r.event != e
    ensures e !in ArchivedAt(db, cutoff).events
    ensures Listed(e, db.events[e]) in ArchivedAt(db, cutoff).archivedEvents
  {
    RecordCount(StaleEvents(db.events, db.rows, cutoff), Listed(e, db.events[e]));
  }

  // ---------- statement by statement ----------

  /** What others insert between two statements: rows, and events with new ids. */
  datatype Gap = Gap(rows: seq<Row>, events: map<EventId, Event>)

  function Inserted(db: Db, g: Gap): Db {
    db.(rows := db.rows + g.rows, events := db.events + g.events)
  }

  /** archive_old_data when each statement sees what was committed before it. */
  function Interleaved(db: Db, cutoff: Instant, g1: Gap, g2: Gap, g3: Gap): Db {
    var d1 := Inserted(db.(archivedRows := db.archivedRows + multiset(OldRows(db.rows, cutoff))), g1);
    var d2 := Inserted(
      d1.(archivedEvents := d1.archivedEvents + EventRecords(StaleEvents(d1.events, d1.rows, cutoff))), g2);
    var d3 := Inserted(d2.(rows := RecentRows(d2.rows, cutoff)), g3);
    var events := KeptEvents(d3.events, d3.rows, cutoff);
    d3.(events := events, rows := Cascade(d3.rows, events))
  }

  // ---------- rows ----------

  lemma KeptAll(rows: seq<Row>, cutoff: Instant, events: map<EventId, Event>)
    requires forall r :: r in rows && IsRecent(cutoff, r) ==> r.event in events
    ensures Cascade(RecentRows(rows, cutoff), events) == RecentRows(rows, cutoff)
  {
    FilterAll(RecentRows(rows, cutoff), (r: Row) => r.event in events);
  }

  /** Rows inserted late: the recent ones and those of kept events stay, the others are lost. */
  function Cut(rows: seq<Row>, events: map<EventId, Event>): seq<Row> {
    Filter(rows, (r: Row) => r.event !in events)
  }

  /** What rows are left, copied and lost when early (seen by the first statement), middle (inserted before
      the DELETE of rows) and late rows are told apart. */
  lemma RowsSplit(early: seq<Row>, middle: seq<Row>, late: seq<Row>, cutoff: Instant, events: map<EventId, Event>)
    requires forall r :: r in early + middle && IsRecent(cutoff, r) ==> r.event in events
    ensures multiset(Cascade(RecentRows(early + middle, cutoff) + late, events)) + multiset(OldRows(early, cutoff)) +
            multiset(OldRows(middle, cutoff)) + multiset(Cut(late, events)) ==
            multiset(early + middle + late)
  {
    KeptAll(early + middle, cutoff, events);
    FilterAppend(RecentRows(early + middle, cutoff), late, (r: Row) => r.event in events);
    FilterAppend(early, middle, r => !IsRecent(cutoff, r));
    FilterPartitions(early + middle, r => IsRecent(cutoff, r), r => !IsRecent(cutoff, r));
    FilterPartitions(late, (r: Row) => r.event in events, (r: Row) => r.event !in events);
    assert Cascade(RecentRows(early + middle, cutoff) + late, events) ==
           RecentRows(early + middle, cutoff) + Cascade(late, events);
    hide Filter;
  }

  lemma FilterNothing(rows: seq<Row>, p: Row -> bool)
    ensures Filter(rows, p) == [] <==> forall r :: r in rows ==> !p(r)
  {
    if Filter(rows, p) == [] {
      forall r | r in rows
        ensures !p(r)
      {
        assert r !in Filter(rows, p);
      }
    } else {
      assert Filter(rows, p)[0] in Filter(rows, p);
    }
  }

  /** What is kept and copied makes up the whole exactly when nothing is lost. */
  lemma LossIff<T>(kept: multiset<T>, copied: multiset<T>, a: multiset<T>, b: multiset<T>, all: multiset<T>,
                   archived: multiset<T>)
    requires kept + copied + a + b == all
    ensures kept + (archived + copied) == all + archived <==> a == multiset{} && b == multiset{}
  {
    if kept + (archived + copied) == all + archived {
      assert |all| == |kept| + |copied| + |a| + |b|;
      assert |kept + (archived + copied)| == |all + archived|;
    }
  }

  // ---------- events ----------

  predicate IsPart(part: map<EventId, Event>, all: map<EventId, Event>) {
    forall e :: e in part ==> e in all && part[e] == all[e]
  }

  /** Two parts make up the whole, record by record, exactly when each event is in one of them. */
  lemma PartsConserveIff(a: map<EventId, Event>, b: map<EventId, Event>, all: map<EventId, Event>)
    requires IsPart(a, all) && IsPart(b, all)
    ensures EventRecords(a) + EventRecords(b) == EventRecords(all) <==> forall e :: e in all ==> (e in a <==> e !in b)
  {
    if EventRecords(a) + EventRecords(b) == EventRecords(all) {
      forall e | e in all
        ensures e in a <==> e !in b
      {
        var x := Listed(e, all[e]);
        RecordCount(a, x);
        RecordCount(b, x);
        RecordCount(all, x);
        assert (EventRecords(a) + EventRecords(b))[x] == EventRecords(all)[x];
      }
    } else if forall e :: e in all ==> (e in a <==> e !in b) {
      forall x
        ensures (EventRecords(a) + EventRecords(b))[x] == EventRecords(all)[x]
      {
        RecordCount(a, x);
        RecordCount(b, x);
        RecordCount(all, x);
      }
    }
  }

  // ---------- the exact conditions ----------

  function AllRows(db: Db, g1: Gap, g2: Gap, g3: Gap): seq<Row> {
    db.rows + g1.rows + g2.rows + g3.rows
  }

  function AllEvents(db: Db, g1: Gap, g2: Gap, g3: Gap): map<EventId, Event> {
    db.events + g1.events + g2.events + g3.events
  }

  /** Events are created with new ids, and rows are of events that exist. */
  ghost predicate Proper(db: Db, g1: Gap, g2: Gap, g3: Gap) {
    && db.events.Keys !! g1.events.Keys !! g2.events.Keys !! g3.events.Keys
    && ForeignKey(AllEvents(db, g1, g2, g3), AllRows(db, g1, g2, g3))
  }

  /** Deleting old rows does not change which events have a recent one. */
  lemma SameRecent(early: seq<Row>, late: seq<Row>, cutoff: Instant, e: EventId)
    ensures HasRecentRow(RecentRows(early, cutoff) + late, e, cutoff) <==> HasRecentRow(early + late, e, cutoff)
  {
    hide Filter;
  }

  lemma LateEvents(db: Db, cutoff: Instant, g1: Gap, g2: Gap, g3: Gap)
    ensures Interleaved(db, cutoff, g1, g2, g3).events ==
            KeptEvents(AllEvents(db, g1, g2, g3), AllRows(db, g1, g2, g3), cutoff)
    ensures Interleaved(db, cutoff, g1, g2, g3).rows ==
            Cascade(RecentRows(db.rows + g1.rows + g2.rows, cutoff) + g3.rows,
                    Interleaved(db, cutoff, g1, g2, g3).events)
    ensures Interleaved(db, cutoff, g1, g2, g3).archivedRows == db.archivedRows + multiset(OldRows(db.rows, cutoff))
    ensures Interleaved(db, cutoff, g1, g2, g3).archivedEvents ==
            db.archivedEvents + EventRecords(StaleEvents(db.events + g1.events, db.rows + g1.rows, cutoff))
  {
    hide Filter, HasRecentRow, Cascade, EventRecords, RecentRows, OldRows, StaleEvents;
    forall e
      ensures HasRecentRow(RecentRows(db.rows + g1.rows + g2.rows, cutoff) + g3.rows, e, cutoff) <==>
              HasRecentRow(AllRows(db, g1, g2, g3), e, cutoff)
    {
      SameRecent(db.rows + g1.rows + g2.rows, g3.rows, cutoff, e);
    }
  }

  lemma AllInOrder(db: Db, g1: Gap, g2: Gap, g3: Gap)
    requires Proper(db, g1, g2, g3)
    ensures AllRows(db, g1, g2, g3) == db.rows + (g1.rows + g2.rows) + g3.rows
    ensures db.rows + g1.rows + g2.rows == db.rows + (g1.rows + g2.rows)
    ensures ForeignKey(AllEvents(db, g1, g2, g3), AllRows(db, g1, g2, g3))
  {
    hide ForeignKey, AllEvents;
  }

  lemma RecentAreKept(db: Db, cutoff: Instant, g1: Gap, g2: Gap, g3: Gap, early: seq<Row>)
    requires Proper(db, g1, g2, g3) && early == db.rows + (g1.rows + g2.rows)
    ensures AllRows(db, g1, g2, g3) == early + g3.rows
    ensures Interleaved(db, cutoff, g1, g2, g3).rows ==
            Cascade(RecentRows(early, cutoff) + g3.rows, Interleaved(db, cutoff, g1, g2, g3).events)
    ensures forall r :: r in early && IsRecent(cutoff, r) ==> r.event in Interleaved(db, cutoff, g1, g2, g3).events
  {
    hide *;
    LateEvents(db, cutoff, g1, g2, g3);
    AllInOrder(db, g1, g2, g3);
    RowsKeepEvents(AllEvents(db, g1, g2, g3), early, g3.rows, cutoff);
  }

  lemma RowsKeepEvents(events: map<EventId, Event>, early: seq<Row>, late: seq<Row>, cutoff: Instant)
    requires ForeignKey(events, early + late)
    ensures forall r :: r in early && IsRecent(cutoff, r) ==> r.event in KeptEvents(events, early + late, cutoff)
  {
    forall r | r in early && IsRecent(cutoff, r)
      ensures r.event in KeptEvents(events, early + late, cutoff)
    {
      assert r in early + late;
    }
  }

  lemma RowsLost(db: Db, cutoff: Instant, g1: Gap, g2: Gap, g3: Gap)
    requires Proper(db, g1, g2, g3)
    ensures var after := Interleaved(db, cutoff, g1, g2, g3);
            multiset(after.rows) + multiset(OldRows(db.rows, cutoff)) + multiset(OldRows(g1.rows + g2.rows, cutoff)) +
            multiset(Cut(g3.rows, after.events)) == multiset(AllRows(db, g1, g2, g3))
  {
    hide *;
    RecentAreKept(db, cutoff, g1, g2, g3, db.rows + (g1.rows + g2.rows));
    RowsSplit(db.rows, g1.rows + g2.rows, g3.rows, cutoff, Interleaved(db, cutoff, g1, g2, g3).events);
  }

  lemma NothingOld(db: Db, cutoff: Instant, g1: Gap, g2: Gap, g3: Gap)
    requires Proper(db, g1, g2, g3)
    ensures OldRows(g1.rows + g2.rows, cutoff) == [] <==> forall r :: r in g1.rows + g2.rows ==> IsRecent(cutoff, r)
    ensures Cut(g3.rows, Interleaved(db, cutoff, g1, g2, g3).events) == [] <==>
            forall r :: r in g3.rows ==> HasRecentRow(AllRows(db, g1, g2, g3), r.event, cutoff)
  {
    var events := Interleaved(db, cutoff, g1, g2, g3).events;
    LateEvents(db, cutoff, g1, g2, g3);
    FilterNothing(g1.rows + g2.rows, r => !IsRecent(cutoff, r));
    FilterNothing(g3.rows, (r: Row) => r.event !in events);
    hide Filter, Interleaved, HasRecentRow;
    assert forall r :: r in g3.rows ==> r in AllRows(db, g1, g2, g3);
  }

  /** No row is lost or copied twice if and only if every row inserted before the DELETE of rows is recent,
      and every row inserted after it is of an event with a recent row. */
  lemma InterleavedRowsIff(db: Db, cutoff: Instant, g1: Gap, g2: Gap, g3: Gap)
    requires Proper(db, g1, g2, g3)
    ensures var after, all := Interleaved(db, cutoff, g1, g2, g3), AllRows(db, g1, g2, g3);
            multiset(after.rows) + after.archivedRows == multiset(all) + db.archivedRows <==>
              (forall r :: r in g1.rows + g2.rows ==> IsRecent(cutoff, r)) &&
              (forall r :: r in g3.rows ==> HasRecentRow(all, r.event, cutoff))
  {
    var after, all := Interleaved(db, cutoff, g1, g2, g3), AllRows(db, g1, g2, g3);
    LateEvents(db, cutoff, g1, g2, g3);
    RowsLost(db, cutoff, g1, g2, g3);
    NothingOld(db, cutoff, g1, g2, g3);
    hide *;
    var lost, cut := OldRows(g1.rows + g2.rows, cutoff), Cut(g3.rows, after.events);
    LossIff(multiset(after.rows), multiset(OldRows(db.rows, cutoff)), multiset(lost), multiset(cut), multiset(all),
            db.archivedRows);
    EmptyMultiset(lost);
    EmptyMultiset(cut);
  }

  lemma EmptyMultiset(rows: seq<Row>)
    ensures multiset(rows) == multiset{} <==> rows == []
  {
    if rows != [] {
      assert rows[0] in multiset(rows);
    }
  }

  lemma AddedAlike<T>(a: multiset<T>, b: multiset<T>, c: multiset<T>)
    ensures a + c == b + c <==> a == b
  {
    if a + c == b + c {
      assert a == (a + c) - c && b == (b + c) - c;
    }
  }

  lemma EventPartsIff(db: Db, cutoff: Instant, g1: Gap, g2: Gap, g3: Gap)
    requires Proper(db, g1, g2, g3)
    ensures var events, all := AllEvents(db, g1, g2, g3), AllRows(db, g1, g2, g3);
            var kept := KeptEvents(events, all, cutoff);
            var stale := StaleEvents(db.events + g1.events, db.rows + g1.rows, cutoff);
            && IsPart(kept, events) && IsPart(stale, events)
            && ((forall e :: e in events ==> (e in kept <==> e !in stale)) <==>
                  (forall e :: e in db.events + g1.events && HasRecentRow(all, e, cutoff) ==>
                     HasRecentRow(db.rows + g1.rows, e, cutoff)) &&
                  (forall e :: e in g2.events + g3.events ==> HasRecentRow(all, e, cutoff)))
  {
    var all := AllRows(db, g1, g2, g3);
    forall e | HasRecentRow(db.rows + g1.rows, e, cutoff)
      ensures HasRecentRow(all, e, cutoff)
    {
      var r :| r in db.rows + g1.rows && r.event == e && IsRecent(cutoff, r);
      assert r in all;
    }
    hide HasRecentRow, AllRows, ForeignKey;
  }

  /** No event is lost or copied twice if and only if no event archived by the second statement gets a
      recent row before the fourth, and every event created in between has one by then. */
  lemma InterleavedEventsIff(db: Db, cutoff: Instant, g1: Gap, g2: Gap, g3: Gap)
    requires Proper(db, g1, g2, g3)
    ensures var after := Interleaved(db, cutoff, g1, g2, g3);
            var events, all := AllEvents(db, g1, g2, g3), AllRows(db, g1, g2, g3);
            EventRecords(after.events) + after.archivedEvents == EventRecords(events) + db.archivedEvents <==>
              (forall e :: e in db.events + g1.events && HasRecentRow(all, e, cutoff) ==>
                 HasRecentRow(db.rows + g1.rows, e, cutoff)) &&
              (forall e :: e in g2.events + g3.events ==> HasRecentRow(all, e, cutoff))
  {
    var after := Interleaved(db, cutoff, g1, g2, g3);
    var events := AllEvents(db, g1, g2, g3);
    var stale := StaleEvents(db.events + g1.events, db.rows + g1.rows, cutoff);
    LateEvents(db, cutoff, g1, g2, g3);
    EventPartsIff(db, cutoff, g1, g2, g3);
    hide *;
    PartsConserveIff(after.events, stale, events);
    assert EventRecords(after.events) + after.archivedEvents ==
           (EventRecords(after.events) + EventRecords(stale)) + db.archivedEvents;
    AddedAlike(EventRecords(after.events) + EventRecords(stale), EventRecords(events), db.archivedEvents);
  }
}
