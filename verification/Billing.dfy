/**
 * Entitlement snapshots (internal/store/subscriptions.go): every snapshot of a
 * subscription is written to two tables, each guarded by the time at which the
 * provider produced it, and webhook events are recorded once by their ID.
 */
module Billing {
  import opened Prelude

  type Key = (int, string)  // user and entitlement

  datatype Status = Inactive | Active | Canceled | BillingIssue | Expired

  /** A snapshot fetched from the provider; `source` is `None` for Go's zero time. */
  datatype Snapshot = Snapshot(
    user: int, entitlement: string, product: string, store: string, environment: string,
    status: Status, active: bool, willRenew: bool,
    periodStart: Option<int>, periodEnd: Option<int>, managementUrl: string, source: Option<int>)

  datatype SubscriptionRow = SubscriptionRow(
    product: string, store: string, environment: string,
    status: Status, active: bool, willRenew: bool,
    periodStart: Option<int>, periodEnd: Option<int>, managementUrl: string, source: int)

  datatype EntitlementRow = EntitlementRow(
    product: string, active: bool, validFrom: Option<int>, validUntil: Option<int>, source: int)

  datatype Tables = Tables(
    subscriptions: map<Key, SubscriptionRow>,
    entitlements: map<Key, EntitlementRow>,
    events: set<string>)

  function KeyOf(s: Snapshot): Key { (s.user, s.entitlement) }

  /** A snapshot without a source time counts as produced when it is applied. */
  function Stamp(s: Snapshot, clock: int): Snapshot {
    if s.source.None? then s.(source := Some(clock)) else s
  }

  function SubscriptionOf(s: Snapshot): SubscriptionRow
    requires s.source.Some?
  {
    SubscriptionRow(s.product, s.store, s.environment, s.status, s.active, s.willRenew,
                    s.periodStart, s.periodEnd, s.managementUrl, s.source.value)
  }

  function EntitlementOf(s: Snapshot): EntitlementRow
    requires s.source.Some?
  {
    EntitlementRow(s.product, s.active, s.periodStart, s.periodEnd, s.source.value)
  }

  /** Each table accepts the stamped snapshot unless its own row is newer. */
  function Upsert(t: Tables, s: Snapshot): Tables
    requires s.source.Some?
  {
    var k := KeyOf(s);
    t.(subscriptions :=
         if k in t.subscriptions && s.source.value < t.subscriptions[k].source then t.subscriptions
         else t.subscriptions[k := SubscriptionOf(s)],
       entitlements :=
         if k in t.entitlements && s.source.value < t.entitlements[k].source then t.entitlements
         else t.entitlements[k := EntitlementOf(s)])
  }

  lemma UpsertOne(t: Tables, r: Reading)
    ensures UpsertAll(t, StampAll([r])) == Upsert(t, Stamp(r.snapshot, r.clock))
  {
    var one := StampAll([r]);
    assert one[..0] == [];
    assert UpsertAll(t, one[..0]) == t;
  }

  predicate Stamped(snapshots: seq<Snapshot>) {
    forall i :: 0 <= i < |snapshots| ==> snapshots[i].source.Some?
  }

  /** The snapshots written one after the other. */
  function UpsertAll(t: Tables, snapshots: seq<Snapshot>): Tables
    requires Stamped(snapshots)
  {
    if snapshots == [] then t
    else Upsert(UpsertAll(t, snapshots[..|snapshots| - 1]), snapshots[|snapshots| - 1])
  }

  /** A snapshot, and what the clock shows when it is its turn to be written. */
  datatype Reading = Reading(snapshot: Snapshot, clock: int)

  function StampAll(readings: seq<Reading>): (r: seq<Snapshot>)
    ensures Stamped(r) && |r| == |readings|
  {
    seq(|readings|, i requires 0 <= i < |readings| => Stamp(readings[i].snapshot, readings[i].clock))
  }

  // ----- the store -----

  /** The three billing tables, updated in place by the store's transactions. */
  class Store {
    var subscriptions: map<Key, SubscriptionRow>
    var entitlements: map<Key, EntitlementRow>
    var events: set<string>

    function Contents(): Tables
      reads this
    {
      Tables(subscriptions, entitlements, events)
    }

    constructor ()
      ensures Contents() == Tables(map[], map[], {})
    {
      subscriptions, entitlements, events := map[], map[], {};
    }

    method UpsertSubscription(snapshot: Snapshot, clock: int)
      modifies this`subscriptions, this`entitlements
      ensures Contents() == Upsert(old(Contents()), Stamp(snapshot, clock))
    {
      var s := snapshot;
      if s.source.None? {
        s := s.(source := Some(clock));
      }
      var k := KeyOf(s);
      if k !in subscriptions || s.source.value >= subscriptions[k].source {
        subscriptions := subscriptions[k := SubscriptionOf(s)];
      }
      if k !in entitlements || s.source.value >= entitlements[k].source {
        entitlements := entitlements[k := EntitlementOf(s)];
      }
    }

    method SyncSubscription(snapshot: Snapshot, clock: int)
      modifies this
      ensures Contents() == Apply(old(Contents()), Sync(Reading(snapshot, clock)))
    {
      UpsertSubscription(snapshot, clock);
      UpsertOne(old(Contents()), Reading(snapshot, clock));
    }

    /** A recorded event ID makes the delivery a no-op; otherwise every snapshot is written. */
    method ApplyRevenueCatEvent(eventId: string, readings: seq<Reading>)
      modifies this
      ensures Contents() == Apply(old(Contents()), Event(eventId, readings))
    {
      if eventId in events {
        return;
      }
      events := events + {eventId};
      ghost var recorded := Contents();
      ghost var stamped := StampAll(readings);
      var i := 0;
      while i < |readings|
        invariant 0 <= i <= |readings|
        invariant Contents() == UpsertAll(recorded, stamped[..i])
      {
        UpsertSubscription(readings[i].snapshot, readings[i].clock);
        assert stamped[..i + 1][..i] == stamped[..i];
        i := i + 1;
      }
      assert stamped[..|readings|] == stamped;
    }
  }

  // ----- runs -----

  datatype Operation =
    | Sync(reading: Reading)
    | Event(id: string, readings: seq<Reading>)

  /** The stamped snapshots that an operation writes. */
  function Written(t: Tables, op: Operation): (r: seq<Snapshot>)
    ensures Stamped(r)
  {
    match op
    case Sync(reading) => StampAll([reading])
    case Event(id, readings) => if id in t.events then [] else StampAll(readings)
  }

  function Apply(t: Tables, op: Operation): Tables {
    UpsertAll(if op.Event? then t.(events := t.events + {op.id}) else t, Written(t, op))
  }

  function Run(t: Tables, ops: seq<Operation>): Tables {
    if ops == [] then t else Apply(Run(t, ops[..|ops| - 1]), ops[|ops| - 1])
  }

  /** Every snapshot written during a run, in order. */
  function History(t: Tables, ops: seq<Operation>): (r: seq<Snapshot>)
    ensures Stamped(r)
  {
    if ops == [] then []
    else History(t, ops[..|ops| - 1]) + Written(Run(t, ops[..|ops| - 1]), ops[|ops| - 1])
  }

  lemma {:induction false} UpsertAllConcat(t: Tables, a: seq<Snapshot>, b: seq<Snapshot>)
    requires Stamped(a) && Stamped(b)
    ensures UpsertAll(t, a + b) == UpsertAll(UpsertAll(t, a), b)
    decreases |b|
  {
    if b == [] {
      assert a + b == a;
    } else {
      UpsertAllConcat(t, a, b[..|b| - 1]);
      assert (a + b)[..|a + b| - 1] == a + b[..|b| - 1];
    }
  }

  lemma {:induction false} UpsertAllIgnoresEvents(t: Tables, events: set<string>, ss: seq<Snapshot>)
    requires Stamped(ss)
    ensures UpsertAll(t.(events := events), ss) == UpsertAll(t, ss).(events := events)
  {
    if ss != [] {
      UpsertAllIgnoresEvents(t, events, ss[..|ss| - 1]);
    }
  }

  /** A run writes both tables exactly as its history does, in one go. */
  lemma {:induction false} RunIsHistory(t: Tables, ops: seq<Operation>)
    ensures Run(t, ops) == UpsertAll(t, History(t, ops)).(events := Run(t, ops).events)
  {
    if ops != [] {
      var front, op := ops[..|ops| - 1], ops[|ops| - 1];
      RunIsHistory(t, front);
      var mid := Run(t, front);
      var w := Written(mid, op);
      UpsertAllConcat(t, History(t, front), w);
      UpsertAllIgnoresEvents(UpsertAll(t, History(t, front)), mid.events, w);
      if op.Event? {
        UpsertAllIgnoresEvents(mid, mid.events + {op.id}, w);
      }
    }
  }

  // ----- the two tables agree -----

  function Project(row: SubscriptionRow): EntitlementRow {
    EntitlementRow(row.product, row.active, row.periodStart, row.periodEnd, row.source)
  }

  ghost predicate Agree(t: Tables) {
    && t.subscriptions.Keys == t.entitlements.Keys
    && forall k :: k in t.subscriptions ==> t.entitlements[k] == Project(t.subscriptions[k])
  }

  lemma {:induction false} UpsertAllAgree(t: Tables, ss: seq<Snapshot>)
    requires Agree(t) && Stamped(ss)
    ensures Agree(UpsertAll(t, ss))
  {
    if ss != [] {
      UpsertAllAgree(t, ss[..|ss| - 1]);
    }
  }

  /** In every reachable state, ties included, the entitlement row is the subscription row's projection. */
  lemma TablesAgree(t: Tables, ops: seq<Operation>)
    requires Agree(t)
    ensures Agree(Run(t, ops))
  {
    RunIsHistory(t, ops);
    UpsertAllAgree(t, History(t, ops));
  }

  lemma ApplyKeepsAgreement(t: Tables, op: Operation)
    requires Agree(t)
    ensures Agree(Apply(t, op))
  {
    assert [op][..0] == [];
    assert Run(t, [op][..0]) == t;
    TablesAgree(t, [op]);
  }

  // ----- last writer wins -----

  /** Position `i` holds the newest snapshot for `k`: the last one with the largest source time. */
  ghost predicate Newest(ss: seq<Snapshot>, k: Key, i: int)
    requires Stamped(ss)
  {
    && 0 <= i < |ss| && KeyOf(ss[i]) == k
    && (forall j :: 0 <= j < |ss| && KeyOf(ss[j]) == k ==> ss[j].source.value <= ss[i].source.value)
    && (forall j :: i < j < |ss| && KeyOf(ss[j]) == k ==> ss[j].source.value < ss[i].source.value)
  }

  /** Both rows of a key hold what the snapshot says, as produced at `source`. */
  ghost predicate Shows(t: Tables, k: Key, s: Snapshot, source: int) {
    && k in t.subscriptions && k in t.entitlements
    && t.subscriptions[k] == SubscriptionRow(
         s.product, s.store, s.environment, s.status, s.active, s.willRenew,
         s.periodStart, s.periodEnd, s.managementUrl, source)
    && t.entitlements[k] == EntitlementRow(s.product, s.active, s.periodStart, s.periodEnd, source)
  }

  /** Both rows of a key hold its newest snapshot. */
  ghost predicate Holds(t: Tables, s: Snapshot)
    requires s.source.Some?
  {
    Shows(t, (s.user, s.entitlement), s, s.source.value)
  }

  ghost predicate Lacks(t: Tables, k: Key) {
    k !in t.subscriptions && k !in t.entitlements
  }

  /** The position of the newest snapshot for `k`, or -1 if there is none. */
  ghost function NewestIndex(ss: seq<Snapshot>, k: Key): (i: int)
    requires Stamped(ss)
    ensures i == -1 ==> forall j :: 0 <= j < |ss| ==> KeyOf(ss[j]) != k
    ensures i != -1 ==> Newest(ss, k, i)
  {
    if ss == [] then -1
    else
      var n := |ss| - 1;
      var p := NewestIndex(ss[..n], k);
      if KeyOf(ss[n]) == k && (p == -1 || ss[p].source.value <= ss[n].source.value) then n else p
  }

  lemma {:induction false} NewestWins(t: Tables, ss: seq<Snapshot>, k: Key)
    requires Stamped(ss) && Lacks(t, k)
    ensures var i := NewestIndex(ss, k);
            if i == -1 then Lacks(UpsertAll(t, ss), k) else Holds(UpsertAll(t, ss), ss[i])
  {
    if ss != [] {
      NewestWins(t, ss[..|ss| - 1], k);
    }
  }

  /**
   * Last writer wins over every run: if the run writes any snapshot for `k`, both
   * rows end up as the newest of them, and otherwise neither row exists.
   */
  lemma LastWriterWins(t: Tables, ops: seq<Operation>, k: Key)
    requires Lacks(t, k)
    ensures var h := History(t, ops);
            if exists i :: 0 <= i < |h| && KeyOf(h[i]) == k
            then exists i :: Newest(h, k, i) && Holds(Run(t, ops), h[i])
            else Lacks(Run(t, ops), k)
  {
    RunIsHistory(t, ops);
    var h := History(t, ops);
    NewestWins(t, h, k);
    var i := NewestIndex(h, k);
    if i != -1 {
      assert Newest(h, k, i) && Holds(Run(t, ops), h[i]);
    }
  }

  // ----- what is delivered is written -----

  /** When the snapshot was produced; one without a source time counts as produced when its turn comes. */
  function ProducedAt(r: Reading): int {
    if r.snapshot.source.Some? then r.snapshot.source.value else r.clock
  }

  /** The event `ops[i]` is not recorded yet. */
  predicate FirstDelivery(t: Tables, ops: seq<Operation>, i: int)
    requires 0 <= i < |ops| && ops[i].Event?
  {
    ops[i].id !in t.events && forall j :: 0 <= j < i && ops[j].Event? ==> ops[j].id != ops[i].id
  }

  /** Every reading that the syncs and the first delivery of each event bring. */
  function Delivered(t: Tables, ops: seq<Operation>): seq<Reading> {
    if ops == [] then [] else Delivered(t, ops[..|ops| - 1]) + Brought(t, ops)
  }

  /** What the last of the operations brings. */
  function Brought(t: Tables, ops: seq<Operation>): seq<Reading>
    requires ops != []
  {
    match ops[|ops| - 1]
    case Sync(reading) => [reading]
    case Event(_, readings) => if FirstDelivery(t, ops, |ops| - 1) then readings else []
  }

  lemma {:induction false} EventsRecorded(t: Tables, ops: seq<Operation>, id: string)
    ensures id in Run(t, ops).events <==> id in t.events || exists i :: 0 <= i < |ops| && RecordedBy(ops[i], id)
  {
    if ops != [] {
      var front, op := ops[..|ops| - 1], ops[|ops| - 1];
      var mid := Run(t, front);
      EventsRecorded(t, front, id);
      UpsertAllIgnoresEvents(mid, if op.Event? then mid.events + {op.id} else mid.events, Written(mid, op));
      assert forall i :: 0 <= i < |front| ==> ops[i] == front[i];
      assert Run(t, ops).events == if op.Event? then mid.events + {op.id} else mid.events;
    }
  }

  predicate RecordedBy(op: Operation, id: string) { op.Event? && op.id == id }

  lemma {:induction false} HistoryIsDelivered(t: Tables, ops: seq<Operation>)
    ensures History(t, ops) == StampAll(Delivered(t, ops))
  {
    if ops != [] {
      var n := |ops| - 1;
      var front, op := ops[..n], ops[n];
      HistoryIsDelivered(t, front);
      StampAllConcat(Delivered(t, front), Brought(t, ops));
      if op.Event? {
        NotRecorded(t, ops);
      }
    }
  }

  lemma NotRecorded(t: Tables, ops: seq<Operation>)
    requires ops != [] && ops[|ops| - 1].Event?
    ensures FirstDelivery(t, ops, |ops| - 1) <==> ops[|ops| - 1].id !in Run(t, ops[..|ops| - 1]).events
  {
    var n := |ops| - 1;
    EventsRecorded(t, ops[..n], ops[n].id);
    assert forall j :: 0 <= j < n ==> ops[..n][j] == ops[j];
    assert forall j :: 0 <= j < n ==> (RecordedBy(ops[j], ops[n].id) <==> ops[j].Event? && ops[j].id == ops[n].id);
  }

  lemma StampAllConcat(a: seq<Reading>, b: seq<Reading>)
    ensures StampAll(a + b) == StampAll(a) + StampAll(b)
  {
  }

  /** The last one among the readings for `k` that were produced last. */
  ghost predicate NewestReading(rs: seq<Reading>, k: Key, i: int) {
    && 0 <= i < |rs| && (rs[i].snapshot.user, rs[i].snapshot.entitlement) == k
    && (forall j :: 0 <= j < |rs| && KeyOf(rs[j].snapshot) == k ==> ProducedAt(rs[j]) <= ProducedAt(rs[i]))
    && (forall j :: i < j < |rs| && KeyOf(rs[j].snapshot) == k ==> ProducedAt(rs[j]) < ProducedAt(rs[i]))
  }

  lemma NewestIsNewestReading(rs: seq<Reading>, k: Key, i: int)
    requires Newest(StampAll(rs), k, i)
    ensures NewestReading(rs, k, i)
  {
    var h := StampAll(rs);
    forall j | 0 <= j < |rs|
      ensures KeyOf(h[j]) == KeyOf(rs[j].snapshot) && h[j].source.value == ProducedAt(rs[j])
    {
      assert h[j] == Stamp(rs[j].snapshot, rs[j].clock);
    }
  }

  lemma HoldsReading(t: Tables, rs: seq<Reading>, k: Key, i: int)
    requires 0 <= i < |rs| && KeyOf(StampAll(rs)[i]) == k && Holds(t, StampAll(rs)[i])
    ensures Shows(t, k, rs[i].snapshot, ProducedAt(rs[i]))
  {
    assert StampAll(rs)[i] == Stamp(rs[i].snapshot, rs[i].clock);
  }

  /**
   * Nothing delivered is lost, whatever else is delivered: after any run both rows of a
   * key show its newest reading, be it from a sync or from an event delivered for the
   * first time, and without a reading there are none.
   */
  lemma NewestReadingWins(t: Tables, ops: seq<Operation>, k: Key)
    requires Lacks(t, k)
    ensures var (rs, end) := (Delivered(t, ops), Run(t, ops));
            if exists i :: 0 <= i < |rs| && KeyOf(rs[i].snapshot) == k
            then exists i :: NewestReading(rs, k, i) && Shows(end, k, rs[i].snapshot, ProducedAt(rs[i]))
            else Lacks(end, k)
  {
    var rs, end := Delivered(t, ops), Run(t, ops);
    RunIsHistory(t, ops);
    HistoryIsDelivered(t, ops);
    NewestWins(t, StampAll(rs), k);
    var i := NewestIndex(StampAll(rs), k);
    if i != -1 {
      NewestIsNewestReading(rs, k, i);
      HoldsReading(end, rs, k, i);
    } else {
      forall j | 0 <= j < |rs| ensures KeyOf(rs[j].snapshot) != k {
        assert StampAll(rs)[j] == Stamp(rs[j].snapshot, rs[j].clock);
      }
    }
  }

  function SyncEach(rs: seq<Reading>): seq<Operation> {
    seq(|rs|, i requires 0 <= i < |rs| => Sync(rs[i]))
  }

  lemma {:induction false} SyncEachWrites(t: Tables, rs: seq<Reading>)
    ensures Run(t, SyncEach(rs)) == UpsertAll(t, StampAll(rs))
  {
    if rs != [] {
      var n := |rs| - 1;
      assert SyncEach(rs)[..n] == SyncEach(rs[..n]);
      assert StampAll(rs)[..n] == StampAll(rs[..n]);
      SyncEachWrites(t, rs[..n]);
      UpsertOne(Run(t, SyncEach(rs[..n])), rs[n]);
    }
  }

  /** Delivering an event that is not recorded does what syncing its readings one by one does. */
  lemma EventIsSyncs(t: Tables, id: string, rs: seq<Reading>)
    ensures Apply(t, Event(id, rs)) ==
            if id in t.events then t else Run(t, SyncEach(rs)).(events := t.events + {id})
  {
    if id in t.events {
      assert t.events + {id} == t.events;
    } else {
      SyncEachWrites(t, rs);
      UpsertAllIgnoresEvents(t, t.events + {id}, StampAll(rs));
    }
  }

  // ----- convergence -----

  ghost function SnapshotsFor(ss: seq<Snapshot>, k: Key): set<Snapshot> {
    set i | 0 <= i < |ss| && KeyOf(ss[i]) == k :: ss[i]
  }

  /** `a` carries the largest source time of the set. */
  ghost predicate Top(s: set<Snapshot>, a: Snapshot) {
    a in s && forall b :: b in s ==> b.source.Some? && a.source.Some? && b.source.value <= a.source.value
  }

  /** The snapshots with the largest source time would write the same row. */
  ghost predicate AgreeAtTop(s: set<Snapshot>) {
    forall a, b :: Top(s, a) && Top(s, b) ==> SubscriptionOf(a) == SubscriptionOf(b)
  }

  /** Both tables hold the same row for `k`, or neither has one. */
  ghost predicate SameRows(t: Tables, t': Tables, k: Key) {
    && (k in t.subscriptions <==> k in t'.subscriptions) && (k in t.entitlements <==> k in t'.entitlements)
    && (k in t.subscriptions && k in t'.subscriptions ==> t.subscriptions[k] == t'.subscriptions[k])
    && (k in t.entitlements && k in t'.entitlements ==> t.entitlements[k] == t'.entitlements[k])
  }

  /**
   * Convergence: two runs that write the same snapshots for `k`, in any order, any
   * number of times, through any mix of syncs and events, leave the same two rows,
   * provided that snapshots tied at the largest source time say the same.
   */
  lemma {:induction false} Convergence(t: Tables, ops: seq<Operation>, t': Tables, ops': seq<Operation>, k: Key)
    requires Lacks(t, k) && Lacks(t', k)
    requires SnapshotsFor(History(t, ops), k) == SnapshotsFor(History(t', ops'), k)
    requires AgreeAtTop(SnapshotsFor(History(t, ops), k))
    ensures SameRows(Run(t, ops), Run(t', ops'), k)
  {
    RunHoldsTop(t, ops, k);
    RunHoldsTop(t', ops', k);
    var s := SnapshotsFor(History(t, ops), k);
    if s != {} {
      var a :| Top(s, a) && KeyOf(a) == k && Holds(Run(t, ops), a);
      var b :| Top(s, b) && KeyOf(b) == k && Holds(Run(t', ops'), b);
      AgreeingRows(Run(t, ops), a, Run(t', ops'), b, k);
    }
  }

  lemma AgreeingRows(t: Tables, a: Snapshot, t': Tables, b: Snapshot, k: Key)
    requires a.source.Some? && b.source.Some? && SubscriptionOf(a) == SubscriptionOf(b)
    requires KeyOf(a) == k == KeyOf(b) && Holds(t, a) && Holds(t', b)
    ensures SameRows(t, t', k)
  {
  }

  /** After a run the rows hold a snapshot with the largest source time, if any was written. */
  lemma RunHoldsTop(t: Tables, ops: seq<Operation>, k: Key)
    requires Lacks(t, k)
    ensures var s := SnapshotsFor(History(t, ops), k);
            if s == {} then Lacks(Run(t, ops), k) else exists a :: Top(s, a) && KeyOf(a) == k && Holds(Run(t, ops), a)
  {
    var h := History(t, ops);
    RunIsHistory(t, ops);
    NewestWins(t, h, k);
    NewestInSet(h, k);
    var i := NewestIndex(h, k);
    if i != -1 {
      assert Top(SnapshotsFor(h, k), h[i]);
    }
  }

  /** The newest snapshot is the one of the set with the largest source time. */
  lemma NewestInSet(ss: seq<Snapshot>, k: Key)
    requires Stamped(ss)
    ensures var i := NewestIndex(ss, k);
            if i == -1 then SnapshotsFor(ss, k) == {}
            else && ss[i] in SnapshotsFor(ss, k)
                 && forall s :: s in SnapshotsFor(ss, k) ==> s.source.Some? && s.source.value <= ss[i].source.value
  {}

  // ----- exactly when order does not matter -----

  function SyncOf(s: Snapshot): Operation { Sync(Reading(s, 0)) }

  /** Snapshots delivered one by one. */
  function SyncAll(ss: seq<Snapshot>): seq<Operation> {
    seq(|ss|, i requires 0 <= i < |ss| => SyncOf(ss[i]))
  }

  lemma {:induction false} SyncAllHistory(t: Tables, ss: seq<Snapshot>)
    requires Stamped(ss)
    ensures History(t, SyncAll(ss)) == ss
  {
    var ops := SyncAll(ss);
    if ss != [] {
      var front, last := ss[..|ss| - 1], ss[|ss| - 1];
      assert ops[..|ops| - 1] == SyncAll(front);
      SyncAllHistory(t, front);
      assert StampAll([Reading(last, 0)]) == [last];
      assert ss == front + [last];
    } else {
      assert ops == [];
    }
  }

  lemma {:induction false} Listing(s: set<Snapshot>) returns (ss: seq<Snapshot>)
    ensures forall x :: x in s <==> x in ss
    decreases s
  {
    if s == {} {
      ss := [];
    } else {
      var x := Pick(s);
      var rest := Listing(s - {x});
      ss := rest + [x];
      assert forall y :: y in s <==> y in s - {x} || y == x;
    }
  }

  ghost predicate AllFor(s: set<Snapshot>, k: Key) {
    forall x :: x in s ==> KeyOf(x) == k && x.source.Some?
  }

  /** A run that writes exactly the set and ends with one of the largest source time holds that one. */
  lemma EndingWith(t: Tables, k: Key, s: set<Snapshot>, a: Snapshot) returns (ops: seq<Operation>)
    requires Lacks(t, k) && AllFor(s, k) && Top(s, a)
    ensures SnapshotsFor(History(t, ops), k) == s && Holds(Run(t, ops), a)
  {
    var list := Listing(s);
    var ss := list + [a];
    assert forall x :: x in ss <==> x in s;
    ops := SyncAll(ss);
    SyncAllHistory(t, ss);
    RunIsHistory(t, ops);
    NewestWins(t, ss, k);
    assert ss[..|ss| - 1] == list;
    LastTopIsNewest(ss, k, s);
    SetOfList(ss, k, s);
  }

  lemma LastTopIsNewest(ss: seq<Snapshot>, k: Key, s: set<Snapshot>)
    requires Stamped(ss) && ss != [] && (forall x :: x in ss <==> x in s) && AllFor(s, k) && Top(s, ss[|ss| - 1])
    ensures NewestIndex(ss, k) == |ss| - 1
  {
    var n := |ss| - 1;
    var p := NewestIndex(ss[..n], k);
    if p != -1 {
      assert ss[p] in ss;
    }
  }

  lemma SetOfList(ss: seq<Snapshot>, k: Key, s: set<Snapshot>)
    requires (forall x :: x in ss <==> x in s) && AllFor(s, k)
    ensures SnapshotsFor(ss, k) == s
  {
    forall x
      ensures x in s <==> x in SnapshotsFor(ss, k)
    {
      if x in s {
        var i :| 0 <= i < |ss| && ss[i] == x;
      }
    }
  }

  /** Every way to write exactly these snapshots leaves the same rows. */
  ghost predicate Converges(t: Tables, k: Key, s: set<Snapshot>) {
    forall ops, ops' ::
      SnapshotsFor(History(t, ops), k) == s && SnapshotsFor(History(t, ops'), k) == s ==>
        SameRows(Run(t, ops), Run(t, ops'), k)
  }

  /**
   * The order in which a set of snapshots arrives does not matter if and only if those
   * tied at the largest source time would write the same row.
   */
  lemma {:induction false} ConvergesExactly(t: Tables, k: Key, s: set<Snapshot>)
    requires Lacks(t, k) && AllFor(s, k)
    ensures Converges(t, k, s) <==> AgreeAtTop(s)
  {
    if AgreeAtTop(s) {
      forall ops, ops' | SnapshotsFor(History(t, ops), k) == s && SnapshotsFor(History(t, ops'), k) == s
        ensures SameRows(Run(t, ops), Run(t, ops'), k)
      {
        Convergence(t, ops, t, ops', k);
      }
    }
    if Converges(t, k, s) {
      forall a, b | Top(s, a) && Top(s, b)
        ensures SubscriptionOf(a) == SubscriptionOf(b)
      {
        var ops := EndingWith(t, k, s, a);
        var ops' := EndingWith(t, k, s, b);
        assert SameRows(Run(t, ops), Run(t, ops'), k);
      }
    }
  }

  /** The source guard is needed: with one source time for two snapshots, order decides. */
  lemma TiesDependOnOrder()
    ensures exists a, b: Snapshot ::
              && KeyOf(a) == KeyOf(b) && a.source == b.source == Some(0)
              && var t := Tables(map[], map[], {});
                 Run(t, [SyncOf(a), SyncOf(b)]) != Run(t, [SyncOf(b), SyncOf(a)])
  {
    var a := Snapshot(1, "pro", "p", "s", "production", Active, true, true, None, None, "", Some(0));
    var b := a.(active := false);
    var t := Tables(map[], map[], {});
    OneSync(t, a);
    OneSync(t, b);
    assert [SyncOf(a), SyncOf(b)][..1] == [SyncOf(a)];
    assert [SyncOf(b), SyncOf(a)][..1] == [SyncOf(b)];
    SyncIsUpsert(Run(t, [SyncOf(a)]), b);
    SyncIsUpsert(Run(t, [SyncOf(b)]), a);
    assert Run(t, [SyncOf(a), SyncOf(b)]).subscriptions[(1, "pro")] == SubscriptionOf(b);
    assert Run(t, [SyncOf(b), SyncOf(a)]).subscriptions[(1, "pro")] == SubscriptionOf(a);
  }

  lemma SyncIsUpsert(t: Tables, s: Snapshot)
    requires s.source.Some?
    ensures Apply(t, SyncOf(s)) == Upsert(t, s)
  {
    UpsertOne(t, Reading(s, 0));
  }

  lemma OneSync(t: Tables, s: Snapshot)
    requires s.source.Some?
    ensures Run(t, [SyncOf(s)]) == Upsert(t, s)
  {
    assert [SyncOf(s)][..0] == [];
    SyncIsUpsert(t, s);
  }

  // ----- event deduplication -----

  lemma {:induction false} EventsRemembered(t: Tables, ops: seq<Operation>, i: int)
    requires 0 <= i < |ops| && ops[i].Event?
    ensures ops[i].id in Run(t, ops).events
  {
    var front, op := ops[..|ops| - 1], ops[|ops| - 1];
    var mid := Run(t, front);
    if op.Event? {
      UpsertAllIgnoresEvents(mid, mid.events + {op.id}, Written(mid, op));
    } else {
      UpsertAllIgnoresEvents(mid, mid.events, Written(mid, op));
    }
    if i < |ops| - 1 {
      EventsRemembered(t, front, i);
    }
  }

  /** Redelivering a recorded event, with whatever snapshots, changes nothing, however much later. */
  lemma RedeliveryIsNoOp(t: Tables, ops: seq<Operation>, i: int, readings: seq<Reading>)
    requires 0 <= i < |ops| && ops[i].Event?
    ensures Run(t, ops + [Event(ops[i].id, readings)]) == Run(t, ops)
  {
    EventsRemembered(t, ops, i);
    var more := ops + [Event(ops[i].id, readings)];
    assert more[..|more| - 1] == ops;
    assert Run(t, ops).events + {ops[i].id} == Run(t, ops).events;
  }
}
