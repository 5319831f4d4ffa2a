/**
 * The bounded request ledger, the endpoint session that owns it, and what a
 * session of plain requests observes.
 */
module RequestLedger {
  import opened Wrappers

  datatype LedgerOutcome<+S> = Definite(text: S) | Ambiguous(text: S)

  datatype Disposition<+S> = Fresh | Duplicate(outcome: LedgerOutcome<S>) | Conflict

  datatype RecordOutcome<+S> = Inserted | Evicted(evicted: S) | AlreadyPresent | RejectedLedgerFull

  datatype Entry<+S> = Entry(canonical: S, outcome: LedgerOutcome<S>, backed: bool)

  datatype Ledger<S(==)> = Ledger(capacity: nat, order: seq<S>, entries: map<S, Entry<S>>)

  predicate Evictable<S>(e: Entry<S>)
  {
    !e.outcome.Ambiguous? || e.backed
  }

  function Classify<S(==)>(l: Ledger<S>, id: S, canonical: S): Disposition<S>
  {
    if id !in l.entries then Fresh
    else if l.entries[id].canonical == canonical then Duplicate(l.entries[id].outcome)
    else Conflict
  }

  /** The position of the oldest entry that may be evicted; stale ids count as evictable. */
  function OldestEvictable<S(==)>(order: seq<S>, entries: map<S, Entry<S>>): (index: Option<nat>)
    ensures index.Some? ==> index.value < |order|
  {
    if order == [] then None
    else if order[0] !in entries || Evictable(entries[order[0]]) then Some(0)
    else
      match OldestEvictable(order[1..], entries)
      case None => None
      case Some(i) => Some(i + 1)
  }

  function Removed<S>(order: seq<S>, index: nat): (rest: seq<S>)
    requires index < |order|
    ensures |rest| == |order| - 1
  {
    order[..index] + order[index + 1..]
  }

  function Record<S(==)>(l: Ledger<S>, id: S, canonical: S, outcome: LedgerOutcome<S>, backed: bool)
    : (Ledger<S>, RecordOutcome<S>)
  {
    var entry := Entry(canonical, outcome, backed);
    if id in l.entries then (l, AlreadyPresent)
    else if |l.order| < l.capacity then
      (l.(order := l.order + [id], entries := l.entries[id := entry]), Inserted)
    else
      match OldestEvictable(l.order, l.entries)
      case None => (l, RejectedLedgerFull)
      case Some(index) =>
        var oldest := l.order[index];
        (l.(order := Removed(l.order, index) + [id], entries := (l.entries - {oldest})[id := entry]), Evicted(oldest))
  }

  function EmptyLedger<S(==)>(capacity: nat): Ledger<S>
  {
    Ledger(capacity, [], map[])
  }

  // ---------------------------------------------------------------------
  // The ledger object
  // ---------------------------------------------------------------------

  class BoundedRequestLedger<S(==)> {
    var capacity: nat
    var order: seq<S>
    var entries: map<S, Entry<S>>

    function State(): Ledger<S>
      reads this
    {
      Ledger(capacity, order, entries)
    }

    constructor (capacity: nat)
      requires 0 < capacity
      ensures State() == EmptyLedger(capacity)
    {
      this.capacity, order, entries := capacity, [], map[];
    }

    method RecordInner(id: S, canonical: S, outcome: LedgerOutcome<S>, backed: bool) returns (result: RecordOutcome<S>)
      modifies this
      ensures (State(), result) == Record(old(State()), id, canonical, outcome, backed)
    {
      if id in entries {
        return AlreadyPresent;
      }
      var evicted: Option<S> := None;
      if |order| >= capacity {
        var evictable := OldestEvictable(order, entries);
        if evictable.None? {
          return RejectedLedgerFull;
        }
        var oldest := order[evictable.value];
        order := Removed(order, evictable.value);
        entries := entries - {oldest};
        evicted := Some(oldest);
      }
      order := order + [id];
      entries := entries[id := Entry(canonical, outcome, backed)];
      match evicted {
        case Some(oldest) => result := Evicted(oldest);
        case None => result := Inserted;
      }
    }

    method InvalidateAll()
      modifies this
      ensures State() == EmptyLedger(old(capacity))
    {
      order, entries := [], map[];
    }
  }

  // ---------------------------------------------------------------------
  // The invariant, over every run
  // ---------------------------------------------------------------------

  predicate NoRepeats<S(==)>(order: seq<S>)
  {
    forall i, j :: 0 <= i < j < |order| ==> order[i] != order[j]
  }

  /** Deque and map hold the same ids, each once, within capacity. */
  predicate LedgerInv<S(==)>(l: Ledger<S>)
  {
    && 0 < l.capacity && |l.order| <= l.capacity
    && NoRepeats(l.order)
    && (forall i :: 0 <= i < |l.order| ==> l.order[i] in l.entries)
    && (forall id :: id in l.entries ==> id in l.order)
  }

  predicate Pinned<S(==)>(l: Ledger<S>, id: S)
  {
    id in l.entries && l.entries[id].outcome.Ambiguous? && !l.entries[id].backed
  }

  lemma {:induction false} OldestEvictableSpec<S>(order: seq<S>, entries: map<S, Entry<S>>)
    requires forall i :: 0 <= i < |order| ==> order[i] in entries
    ensures match OldestEvictable(order, entries)
      case None => forall i :: 0 <= i < |order| ==> !Evictable(entries[order[i]])
      case Some(k) => Evictable(entries[order[k]]) && forall i :: 0 <= i < k ==> !Evictable(entries[order[i]])
  {
    if order != [] && !Evictable(entries[order[0]]) {
      assert forall i :: 0 <= i < |order| - 1 ==> order[1..][i] == order[i + 1];
      OldestEvictableSpec(order[1..], entries);
      assert forall i :: 1 <= i < |order| ==> order[i] == order[1..][i - 1];
    }
  }

  /** What recording does, entry by entry: an exact account of all four answers. */
  lemma RecordSpec<S>(l: Ledger<S>, id: S, canonical: S, outcome: LedgerOutcome<S>, backed: bool)
    requires LedgerInv(l)
    ensures var (next, result) := Record(l, id, canonical, outcome, backed);
      && LedgerInv(next) && next.capacity == l.capacity
      && (result.AlreadyPresent? <==> id in l.entries)
      && (result.RejectedLedgerFull?
          <==> id !in l.entries && |l.order| == l.capacity && forall other :: other in l.entries ==> Pinned(l, other))
      && (result.AlreadyPresent? || result.RejectedLedgerFull? ==> next == l)
      && (result.Inserted? ==>
            next.order == l.order + [id] && next.entries == l.entries[id := Entry(canonical, outcome, backed)])
      && (result.Evicted? ==>
            var gone := result.evicted;
            && gone in l.entries && !Pinned(l, gone) && |l.order| == l.capacity
            && next.entries == (l.entries - {gone})[id := Entry(canonical, outcome, backed)]
            && (forall i :: 0 <= i < |l.order| && l.order[i] == gone ==>
                  next.order == Removed(l.order, i) + [id] && forall j :: 0 <= j < i ==> Pinned(l, l.order[j])))
  {
    hide Removed, NoRepeats, OldestEvictable;
    OldestEvictableSpec(l.order, l.entries);
    var (next, result) := Record(l, id, canonical, outcome, backed);
    match result {
      case Inserted =>
        AppendedInv(l, id, Entry(canonical, outcome, backed));
      case Evicted(gone) =>
        var index := OldestEvictable(l.order, l.entries).value;
        EvictedInv(l, index);
        OnlyPlace(l, index);
        var middle := l.(order := Removed(l.order, index), entries := l.entries - {gone});
        AppendedInv(middle, id, Entry(canonical, outcome, backed));
      case AlreadyPresent =>
      case RejectedLedgerFull =>
    }
  }

  lemma OnlyPlace<S>(l: Ledger<S>, index: nat)
    requires LedgerInv(l) && index < |l.order|
    ensures forall i :: 0 <= i < |l.order| && l.order[i] == l.order[index] ==> i == index
  {
  }

  lemma AppendedInv<S>(l: Ledger<S>, id: S, entry: Entry<S>)
    requires LedgerInv(l) && id !in l.entries && |l.order| < l.capacity
    ensures LedgerInv(l.(order := l.order + [id], entries := l.entries[id := entry]))
  {
  }

  lemma RemovedAt<S>(order: seq<S>, index: nat, i: nat)
    requires index < |order| && i < |order| - 1
    ensures Removed(order, index)[i] == order[if i < index then i else i + 1]
  {
  }

  lemma RemovedKeepsDistinct<S>(order: seq<S>, index: nat)
    requires index < |order| && NoRepeats(order)
    ensures NoRepeats(Removed(order, index))
    ensures order[index] !in Removed(order, index)
  {
    hide Removed;
    forall i, j | 0 <= i < j < |order| - 1
      ensures Removed(order, index)[i] != Removed(order, index)[j]
    {
      RemovedAt(order, index, i);
      RemovedAt(order, index, j);
    }
    forall i | 0 <= i < |order| - 1
      ensures Removed(order, index)[i] != order[index]
    {
      RemovedAt(order, index, i);
    }
  }

  lemma RemovedMembers<S>(order: seq<S>, index: nat, id: S)
    requires index < |order| && id != order[index]
    ensures id in Removed(order, index) <==> id in order
  {
    assert order == order[..index] + [order[index]] + order[index + 1..];
  }

  lemma EvictedInv<S>(l: Ledger<S>, index: nat)
    requires LedgerInv(l) && index < |l.order|
    ensures LedgerInv(l.(order := Removed(l.order, index), entries := l.entries - {l.order[index]}))
  {
    hide Removed;
    var gone, rest := l.order[index], Removed(l.order, index);
    RemovedKeepsDistinct(l.order, index);
    forall i | 0 <= i < |rest|
      ensures rest[i] in l.entries && rest[i] != gone
    {
      RemovedAt(l.order, index, i);
    }
    forall id | id in l.entries && id != gone
      ensures id in rest
    {
      RemovedMembers(l.order, index, id);
    }
  }

  datatype LedgerEvent<S> =
    | Recording(id: S, canonical: S, outcome: LedgerOutcome<S>, backed: bool)
    | Invalidating

  function LedgerStep<S(==)>(l: Ledger<S>, e: LedgerEvent<S>): Ledger<S>
  {
    match e
    case Recording(id, canonical, outcome, backed) => Record(l, id, canonical, outcome, backed).0
    case Invalidating => EmptyLedger(l.capacity)
  }

  function LedgerRun<S(==)>(l: Ledger<S>, events: seq<LedgerEvent<S>>): Ledger<S>
    decreases |events|
  {
    if events == [] then l else LedgerRun(LedgerStep(l, events[0]), events[1..])
  }

  lemma {:induction false} RunKeepsLedgerInv<S>(l: Ledger<S>, events: seq<LedgerEvent<S>>)
    requires LedgerInv(l)
    ensures LedgerInv(LedgerRun(l, events)) && LedgerRun(l, events).capacity == l.capacity
    ensures |LedgerRun(l, events).entries| <= l.capacity
    decreases |events|
  {
    if events == [] {
      EntriesFit(l);
    } else {
      if events[0].Recording? {
        RecordSpec(l, events[0].id, events[0].canonical, events[0].outcome, events[0].backed);
      }
      EmptyInv<S>(l.capacity);
      hide Record, LedgerInv;
      RunKeepsLedgerInv(LedgerStep(l, events[0]), events[1..]);
    }
  }

  lemma EmptyInv<S>(capacity: nat)
    requires 0 < capacity
    ensures LedgerInv(EmptyLedger<S>(capacity))
  {
  }

  lemma {:induction false} DistinctCount<S>(order: seq<S>, ids: set<S>)
    requires forall id :: id in ids ==> id in order
    ensures |ids| <= |order|
  {
    if order == [] {
      assert ids == {};
    } else {
      DistinctCount(order[1..], ids - {order[0]});
    }
  }

  lemma EntriesFit<S>(l: Ledger<S>)
    requires LedgerInv(l)
    ensures |l.entries| <= l.capacity
  {
    DistinctCount(l.order, l.entries.Keys);
    assert |l.entries.Keys| == |l.entries|;
  }

  lemma PinnedSurvives<S>(l: Ledger<S>, e: LedgerEvent<S>, id: S)
    requires LedgerInv(l) && Pinned(l, id) && e.Recording?
    ensures LedgerInv(LedgerStep(l, e)) && Pinned(LedgerStep(l, e), id)
    ensures LedgerStep(l, e).entries[id] == l.entries[id]
  {
    RecordSpec(l, e.id, e.canonical, e.outcome, e.backed);
    hide Record, LedgerInv;
  }

  /** An unbacked ambiguous outcome leaves the ledger only when everything is invalidated. */
  lemma {:induction false} PinnedStays<S>(l: Ledger<S>, events: seq<LedgerEvent<S>>, id: S)
    requires LedgerInv(l) && Pinned(l, id)
    requires forall e :: e in events ==> e.Recording?
    ensures Pinned(LedgerRun(l, events), id)
    ensures LedgerRun(l, events).entries[id] == l.entries[id]
    decreases |events|
  {
    if events != [] {
      hide LedgerStep, LedgerInv;
      assert events[0] in events;
      PinnedSurvives(l, events[0], id);
      PinnedStays(LedgerStep(l, events[0]), events[1..], id);
    }
  }

  // ---------------------------------------------------------------------
  // A session of plain and descriptor-carrying requests
  // ---------------------------------------------------------------------

  /** A plain request, a recovery-backed one, or one turned away before the handler, of which nothing is recorded. */
  datatype Route = Unbacked | Backed | TurnedAway

  /** One request, and what it would be answered if it is fresh. */
  datatype Request<+S> = Request(id: S, canonical: S, answer: LedgerOutcome<S>, route: Route)

  datatype Served<+S> = Served(reply: LedgerOutcome<S>, executed: bool)

  function Serve<S(==)>(l: Ledger<S>, r: Request<S>, reuse: S): (Ledger<S>, Served<S>)
  {
    match Classify(l, r.id, r.canonical)
    case Duplicate(outcome) => (l, Served(outcome, false))
    case Conflict => (l, Served(Definite(reuse), false))
    case Fresh =>
      if r.route.TurnedAway? then (l, Served(r.answer, false))
      else (Record(l, r.id, r.canonical, r.answer, r.route.Backed?).0, Served(r.answer, true))
  }

  /** The ledger after the first `n` requests of a session. */
  function SessionLedger<S(==)>(capacity: nat, requests: seq<Request<S>>, n: nat, reuse: S): Ledger<S>
    requires n <= |requests|
  {
    if n == 0 then EmptyLedger(capacity)
    else Serve(SessionLedger(capacity, requests, n - 1, reuse), requests[n - 1], reuse).0
  }

  function Ids<S(==)>(requests: seq<Request<S>>, n: nat): set<S>
    requires n <= |requests|
  {
    set i | 0 <= i < n :: requests[i].id
  }

  function FirstWith<S(==)>(requests: seq<Request<S>>, id: S, from: nat, bound: nat): (first: nat)
    requires from <= bound < |requests| && requests[bound].id == id
    ensures from <= first <= bound && requests[first].id == id
    ensures forall j :: from <= j < first ==> requests[j].id != id
    decreases bound - from
  {
    if requests[from].id == id then from else FirstWith(requests, id, from + 1, bound)
  }

  /** The first request of the session with the id of request `i`. */
  function FirstUse<S(==)>(requests: seq<Request<S>>, i: nat): (first: nat)
    requires i < |requests|
    ensures first <= i && requests[first].id == requests[i].id
    ensures forall j :: 0 <= j < first ==> requests[j].id != requests[i].id
  {
    FirstWith(requests, requests[i].id, 0, i)
  }

  function EntryOf<S>(r: Request<S>): Entry<S>
  {
    Entry(r.canonical, r.answer, r.route.Backed?)
  }

  /** For each id of the first `n` requests, the entry of its first use. */
  function FirstEntries<S(==)>(requests: seq<Request<S>>, n: nat): map<S, Entry<S>>
    requires n <= |requests|
  {
    if n == 0 then map[] else
    var before, r := FirstEntries(requests, n - 1), requests[n - 1];
    if r.id in before then before else before[r.id := EntryOf(r)]
  }

  lemma IdsStep<S>(requests: seq<Request<S>>, n: nat)
    requires n < |requests|
    ensures Ids(requests, n + 1) == Ids(requests, n) + {requests[n].id}
  {
    forall id | id in Ids(requests, n + 1)
      ensures id in Ids(requests, n) || id == requests[n].id
    {
      var i :| 0 <= i < n + 1 && requests[i].id == id;
    }
    forall id | id in Ids(requests, n)
      ensures id in Ids(requests, n + 1)
    {
      var i :| 0 <= i < n && requests[i].id == id;
      assert requests[i].id in Ids(requests, n + 1);
    }
    assert requests[n].id in Ids(requests, n + 1);
  }

  lemma SeenIffEarlier<S>(requests: seq<Request<S>>, n: nat)
    requires n < |requests|
    ensures requests[n].id in Ids(requests, n) <==> FirstUse(requests, n) < n
  {
    hide FirstWith;
    var first := FirstUse(requests, n);
    if requests[n].id in Ids(requests, n) {
      var i :| 0 <= i < n && requests[i].id == requests[n].id;
      assert first <= i;
    }
    if first < n {
      assert requests[first].id in Ids(requests, n);
    }
  }

  lemma SameIdSameFirstUse<S>(requests: seq<Request<S>>, i: nat, j: nat)
    requires i < |requests| && j < |requests| && requests[i].id == requests[j].id
    ensures FirstUse(requests, i) == FirstUse(requests, j)
  {
    hide FirstWith;
    var a, b := FirstUse(requests, i), FirstUse(requests, j);
    assert requests[a].id == requests[b].id == requests[i].id == requests[j].id;
  }

  lemma {:induction false} IdsGrow<S>(requests: seq<Request<S>>, m: nat, n: nat)
    requires m <= n <= |requests|
    ensures |Ids(requests, m)| <= |Ids(requests, n)|
    decreases n
  {
    if m < n {
      IdsGrow(requests, m, n - 1);
      IdsStep(requests, n - 1);
      hide Ids;
      var before := Ids(requests, n - 1);
      if requests[n - 1].id in before {
        assert before + {requests[n - 1].id} == before;
      }
    }
  }

  lemma {:induction false} OrderIsAsLongAsEntries<S>(order: seq<S>, ids: set<S>)
    requires NoRepeats(order) && (forall id :: id in order <==> id in ids)
    ensures |order| == |ids|
  {
    if order == [] {
      assert ids == {};
    } else {
      var rest := order[1..];
      forall i, j | 0 <= i < j < |rest|
        ensures rest[i] != rest[j]
      {
        assert order[i + 1] != order[j + 1];
      }
      assert order[0] !in rest;
      OrderIsAsLongAsEntries(rest, ids - {order[0]});
    }
  }

  lemma {:induction false} FirstEntryKeys<S>(requests: seq<Request<S>>, n: nat)
    requires n <= |requests|
    ensures FirstEntries(requests, n).Keys == Ids(requests, n)
  {
    if n > 0 {
      FirstEntryKeys(requests, n - 1);
      IdsStep(requests, n - 1);
      hide Ids;
    }
  }

  lemma {:induction false} FirstEntryOf<S>(requests: seq<Request<S>>, n: nat, i: nat)
    requires i < n <= |requests|
    ensures requests[i].id in FirstEntries(requests, n)
    ensures FirstEntries(requests, n)[requests[i].id] == EntryOf(requests[FirstUse(requests, i)])
    decreases n
  {
    FirstEntryKeys(requests, n - 1);
    SeenIffEarlier(requests, n - 1);
    hide Ids, FirstUse;
    if i < n - 1 {
      FirstEntryOf(requests, n - 1, i);
    } else {
      var first := FirstUse(requests, i);
      if first < i {
        FirstEntryOf(requests, n - 1, first);
        SameIdSameFirstUse(requests, first, i);
      }
    }
  }

  /** While the distinct ids fit, nothing is evicted and nothing is refused. */
  lemma {:induction false} SessionRemembers<S>(capacity: nat, requests: seq<Request<S>>, n: nat, reuse: S)
    requires 0 < capacity && n <= |requests| && |Ids(requests, |requests|)| <= capacity
    requires forall r :: r in requests ==> !r.route.TurnedAway?
    ensures LedgerInv(SessionLedger(capacity, requests, n, reuse))
    ensures SessionLedger(capacity, requests, n, reuse).capacity == capacity
    ensures SessionLedger(capacity, requests, n, reuse).entries == FirstEntries(requests, n)
    decreases n
  {
    if n == 0 {
      EmptyInv<S>(capacity);
    } else {
      SessionRemembers(capacity, requests, n - 1, reuse);
      var before, r := SessionLedger(capacity, requests, n - 1, reuse), requests[n - 1];
      hide Ids, SessionLedger;
      FirstEntryKeys(requests, n);
      FirstEntryKeys(requests, n - 1);
      IdsGrow(requests, n, |requests|);
      LedgerOrderLength(before);
      hide FirstEntries;
      ServeWithRoom(before, r, reuse);
    }
    hide LedgerInv, Serve, Ids;
  }

  /** With room left serving keeps known entries and adds a fresh one. */
  lemma ServeWithRoom<S>(l: Ledger<S>, r: Request<S>, reuse: S)
    requires LedgerInv(l) && !r.route.TurnedAway? && (r.id in l.entries || |l.order| < l.capacity)
    ensures var next := Serve(l, r, reuse).0;
      && LedgerInv(next) && next.capacity == l.capacity
      && next.entries == (if r.id in l.entries then l.entries else l.entries[r.id := EntryOf(r)])
  {
    RecordSpec(l, r.id, r.canonical, r.answer, r.route.Backed?);
    hide LedgerInv, Record;
  }

  lemma LedgerOrderLength<S>(l: Ledger<S>)
    requires LedgerInv(l)
    ensures |l.order| == |l.entries.Keys|
  {
    OrderIsAsLongAsEntries(l.order, l.entries.Keys);
  }

  /**
   * With at most `capacity` distinct ids in a session the handler runs exactly
   * for the first use of each id; an identical retry gets the first answer and
   * a different request under a known id is refused.
   */
  lemma HandlerRunsOncePerId<S>(capacity: nat, requests: seq<Request<S>>, i: nat, reuse: S)
    requires 0 < capacity && i < |requests| && |Ids(requests, |requests|)| <= capacity
    requires forall r :: r in requests ==> !r.route.TurnedAway?
    ensures var first := FirstUse(requests, i);
      Serve(SessionLedger(capacity, requests, i, reuse), requests[i], reuse).1
      == (if first == i then Served(requests[i].answer, true)
          else if requests[first].canonical == requests[i].canonical then Served(requests[first].answer, false)
          else Served(Definite(reuse), false))
  {
    SessionRemembers(capacity, requests, i, reuse);
    SeenIffEarlier(requests, i);
    FirstEntryKeys(requests, i);
    var first := FirstUse(requests, i);
    hide LedgerInv, SessionLedger, FirstUse, Record, Ids, FirstEntries;
    if first < i {
      FirstEntryOf(requests, i, first);
      SameIdSameFirstUse(requests, first, i);
    }
  }
}
