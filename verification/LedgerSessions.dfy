/**
 * An exact account of what the request ledger remembers, over every session:
 * pinned outcomes from the front, evictable ones from the back.
 */
module LedgerSessions {
  import opened Wrappers
  import opened RequestLedger

  /** The requests of the first `n` whose handler ran, in order. */
  function Executed<S(==)>(capacity: nat, requests: seq<Request<S>>, n: nat, reuse: S): seq<Request<S>>
    requires n <= |requests|
  {
    if n == 0 then [] else
    var before, r := Executed(capacity, requests, n - 1, reuse), requests[n - 1];
    if Serve(SessionLedger(capacity, requests, n - 1, reuse), r, reuse).1.executed then before + [r] else before
  }

  /** Those of one kind: evictable, or pinned. */
  function OfKind<S>(executed: seq<Request<S>>, evictable: bool): seq<Request<S>>
  {
    if executed == [] then [] else
    var before, r := OfKind(executed[..|executed| - 1], evictable), executed[|executed| - 1];
    if Evictable(EntryOf(r)) == evictable then before + [r] else before
  }

  function Earliest<T>(s: seq<T>, n: nat): seq<T>
  {
    if |s| <= n then s else s[..n]
  }

  function Latest<T>(s: seq<T>, n: nat): seq<T>
  {
    if |s| <= n then s else s[|s| - n..]
  }

  /** Pinned requests keep their places, earliest first. */
  function PinnedRequests<S>(capacity: nat, executed: seq<Request<S>>): seq<Request<S>>
  {
    Earliest(OfKind(executed, false), capacity)
  }

  /** The latest evictable requests share the places that are left. */
  function RecentRequests<S>(capacity: nat, executed: seq<Request<S>>): seq<Request<S>>
  {
    Latest(OfKind(executed, true), capacity - |PinnedRequests(capacity, executed)|)
  }

  function IdsOf<S>(requests: seq<Request<S>>): (ids: seq<S>)
    ensures |ids| == |requests|
    ensures forall i :: 0 <= i < |requests| ==> ids[i] == requests[i].id
  {
    seq(|requests|, i requires 0 <= i < |requests| => requests[i].id)
  }

  // ---------------------------------------------------------------------
  // The queue, by kind of entry
  // ---------------------------------------------------------------------

  /** The ids of the queue whose entries are of one kind, in order. */
  function Queued<S(==)>(order: seq<S>, entries: map<S, Entry<S>>, evictable: bool): seq<S>
  {
    if order == [] then [] else
    var rest := Queued(order[1..], entries, evictable);
    if order[0] in entries && Evictable(entries[order[0]]) == evictable then [order[0]] + rest else rest
  }

  lemma {:induction false} QueuedAppend<S>(order: seq<S>, entries: map<S, Entry<S>>, evictable: bool, id: S)
    requires id in entries
    ensures Queued(order + [id], entries, evictable)
         == Queued(order, entries, evictable) + (if Evictable(entries[id]) == evictable then [id] else [])
  {
    if order == [] {
      assert [] + [id] == [id] && [id][1..] == [];
    } else {
      assert (order + [id])[1..] == order[1..] + [id];
      QueuedAppend(order[1..], entries, evictable, id);
    }
  }

  lemma {:induction false} QueuedSame<S>(order: seq<S>, a: map<S, Entry<S>>, b: map<S, Entry<S>>, evictable: bool)
    requires forall id :: id in order ==> id in a && id in b && a[id] == b[id]
    ensures Queued(order, a, evictable) == Queued(order, b, evictable)
  {
    if order != [] {
      assert order[0] in order;
      QueuedSame(order[1..], a, b, evictable);
    }
  }

  lemma {:induction false} QueuedLengths<S>(order: seq<S>, entries: map<S, Entry<S>>)
    requires forall id :: id in order ==> id in entries
    ensures |Queued(order, entries, true)| + |Queued(order, entries, false)| == |order|
  {
    if order != [] {
      assert order[0] in order;
      QueuedLengths(order[1..], entries);
    }
  }

  /** Eviction takes the first evictable id and leaves the pinned ones. */
  lemma {:induction false} QueuedRemoved<S>(order: seq<S>, entries: map<S, Entry<S>>)
    requires forall id :: id in order ==> id in entries
    ensures match OldestEvictable(order, entries)
      case None => Queued(order, entries, true) == []
      case Some(i) =>
        && Queued(order, entries, true) == [order[i]] + Queued(Removed(order, i), entries, true)
        && Queued(Removed(order, i), entries, false) == Queued(order, entries, false)
  {
    if order != [] {
      assert order[0] in order;
      if Evictable(entries[order[0]]) {
        assert Removed(order, 0) == order[1..];
      } else {
        QueuedRemoved(order[1..], entries);
        var rest := OldestEvictable(order[1..], entries);
        if rest.Some? {
          assert Removed(order, rest.value + 1) == [order[0]] + Removed(order[1..], rest.value);
          assert Removed(order, rest.value + 1)[1..] == Removed(order[1..], rest.value);
        }
      }
    }
  }

  lemma {:induction false} QueuedMembers<S>(order: seq<S>, entries: map<S, Entry<S>>, evictable: bool, id: S)
    ensures id in Queued(order, entries, evictable)
      <==> id in order && id in entries && Evictable(entries[id]) == evictable
  {
    if order != [] {
      QueuedMembers(order[1..], entries, evictable, id);
    }
  }

  // ---------------------------------------------------------------------
  // What one more executed request changes
  // ---------------------------------------------------------------------

  lemma OneMore<S>(executed: seq<Request<S>>, r: Request<S>, evictable: bool)
    ensures OfKind(executed + [r], evictable)
         == OfKind(executed, evictable) + (if Evictable(EntryOf(r)) == evictable then [r] else [])
  {
    assert (executed + [r])[..|executed|] == executed;
  }

  lemma RememberedFit<S>(capacity: nat, executed: seq<Request<S>>)
    ensures |PinnedRequests(capacity, executed)| + |RecentRequests(capacity, executed)| <= capacity
  {
    hide OfKind;
  }

  /** With room left the request joins those of its kind and none leaves. */
  lemma RoomLeft<S>(capacity: nat, executed: seq<Request<S>>, r: Request<S>)
    requires |PinnedRequests(capacity, executed)| + |RecentRequests(capacity, executed)| < capacity
    ensures var more := executed + [r];
      if Evictable(EntryOf(r))
      then PinnedRequests(capacity, more) == PinnedRequests(capacity, executed)
           && RecentRequests(capacity, more) == RecentRequests(capacity, executed) + [r]
      else PinnedRequests(capacity, more) == PinnedRequests(capacity, executed) + [r]
           && RecentRequests(capacity, more) == RecentRequests(capacity, executed)
  {
    OneMore(executed, r, true);
    OneMore(executed, r, false);
    hide OfKind;
  }

  /** In a full ledger the oldest recent request makes room, if there is one. */
  lemma NoRoomLeft<S>(capacity: nat, executed: seq<Request<S>>, r: Request<S>)
    requires |PinnedRequests(capacity, executed)| + |RecentRequests(capacity, executed)| == capacity
    ensures var more, recent := executed + [r], RecentRequests(capacity, executed);
      if recent == []
      then PinnedRequests(capacity, more) == PinnedRequests(capacity, executed) && RecentRequests(capacity, more) == []
      else if Evictable(EntryOf(r))
      then PinnedRequests(capacity, more) == PinnedRequests(capacity, executed)
           && RecentRequests(capacity, more) == recent[1..] + [r]
      else PinnedRequests(capacity, more) == PinnedRequests(capacity, executed) + [r]
           && RecentRequests(capacity, more) == recent[1..]
  {
    OneMore(executed, r, true);
    OneMore(executed, r, false);
    hide OfKind;
  }

  // ---------------------------------------------------------------------
  // The account
  // ---------------------------------------------------------------------

  /** The queue holds the pinned and the recent requests, each kind in order, with their entries. */
  predicate Remembers<S(==)>(l: Ledger<S>, pinned: seq<Request<S>>, recent: seq<Request<S>>)
  {
    && LedgerInv(l)
    && Queued(l.order, l.entries, false) == IdsOf(pinned) && Queued(l.order, l.entries, true) == IdsOf(recent)
    && (forall i :: 0 <= i < |pinned| ==> pinned[i].id in l.entries && l.entries[pinned[i].id] == EntryOf(pinned[i]))
    && (forall i :: 0 <= i < |recent| ==> recent[i].id in l.entries && l.entries[recent[i].id] == EntryOf(recent[i]))
  }

  lemma RememberedLength<S>(l: Ledger<S>, pinned: seq<Request<S>>, recent: seq<Request<S>>)
    requires Remembers(l, pinned, recent)
    ensures |l.order| == |pinned| + |recent|
  {
    QueuedLengths(l.order, l.entries);
  }

  lemma QueueKnown<S>(l: Ledger<S>)
    requires LedgerInv(l)
    ensures forall id :: id in l.order <==> id in l.entries
  {
    forall id | id in l.order
      ensures id in l.entries
    {
      var i :| 0 <= i < |l.order| && l.order[i] == id;
    }
  }

  /** Appending a new id to queue and map. */
  lemma Appended<S>(l: Ledger<S>, pinned: seq<Request<S>>, recent: seq<Request<S>>, r: Request<S>)
    requires Remembers(l, pinned, recent) && r.id !in l.entries && |l.order| < l.capacity
    ensures var next := l.(order := l.order + [r.id], entries := l.entries[r.id := EntryOf(r)]);
      if Evictable(EntryOf(r)) then Remembers(next, pinned, recent + [r]) else Remembers(next, pinned + [r], recent)
  {
    hide Evictable, Queued, EntryOf;
    var entries := l.entries[r.id := EntryOf(r)];
    AppendedInv(l, r.id, EntryOf(r));
    QueueKnown(l);
    hide LedgerInv;
    QueuedSame(l.order, l.entries, entries, true);
    QueuedSame(l.order, l.entries, entries, false);
    QueuedAppend(l.order, entries, true, r.id);
    QueuedAppend(l.order, entries, false, r.id);
  }

  /** Evicting takes the oldest recent request, if there is one. */
  lemma Dropped<S>(l: Ledger<S>, pinned: seq<Request<S>>, recent: seq<Request<S>>)
    requires Remembers(l, pinned, recent)
    ensures match OldestEvictable(l.order, l.entries)
      case None => recent == []
      case Some(i) =>
        && recent != [] && l.order[i] == recent[0].id
        && Remembers(l.(order := Removed(l.order, i), entries := l.entries - {l.order[i]}), pinned, recent[1..])
  {
    QueueKnown(l);
    hide Queued, EntryOf, Evictable, OldestEvictable, Removed;
    QueuedRemoved(l.order, l.entries);
    var index := OldestEvictable(l.order, l.entries);
    if index.Some? {
      var gone, rest := l.order[index.value], Removed(l.order, index.value);
      var entries := l.entries - {gone};
      EvictedInv(l, index.value);
      var next := l.(order := rest, entries := entries);
      QueueKnown(next);
      hide LedgerInv;
      QueuedSame(rest, l.entries, entries, true);
      QueuedSame(rest, l.entries, entries, false);
      assert IdsOf(recent) == [gone] + Queued(rest, entries, true);
      assert IdsOf(recent[1..]) == Queued(rest, entries, true);
      StillKnown(next, recent[1..], true);
      StillKnown(next, pinned, false);
    }
  }

  lemma StillKnown<S>(l: Ledger<S>, requests: seq<Request<S>>, evictable: bool)
    requires IdsOf(requests) == Queued(l.order, l.entries, evictable)
    ensures forall i :: 0 <= i < |requests| ==> requests[i].id in l.entries
  {
    hide Queued, Evictable;
    forall i | 0 <= i < |requests|
      ensures requests[i].id in l.entries
    {
      assert IdsOf(requests)[i] == requests[i].id;
      QueuedMembers(l.order, l.entries, evictable, requests[i].id);
    }
  }

  lemma RecordRemembers<S>(capacity: nat, l: Ledger<S>, executed: seq<Request<S>>, r: Request<S>)
    requires Remembers(l, PinnedRequests(capacity, executed), RecentRequests(capacity, executed))
    requires l.capacity == capacity && r.id !in l.entries
    ensures var next := Record(l, r.id, r.canonical, r.answer, r.route.Backed?).0;
      && next.capacity == capacity
      && Remembers(next, PinnedRequests(capacity, executed + [r]), RecentRequests(capacity, executed + [r]))
  {
    var pinned, recent := PinnedRequests(capacity, executed), RecentRequests(capacity, executed);
    RememberedLength(l, pinned, recent);
    RememberedFit(capacity, executed);
    hide PinnedRequests, RecentRequests, Remembers, Evictable, Removed, OldestEvictable;
    if |l.order| < capacity {
      RoomLeft(capacity, executed, r);
      Appended(l, pinned, recent, r);
    } else {
      NoRoomLeft(capacity, executed, r);
      Dropped(l, pinned, recent);
      var index := OldestEvictable(l.order, l.entries);
      if index.Some? {
        var middle := l.(order := Removed(l.order, index.value), entries := l.entries - {l.order[index.value]});
        Appended(middle, pinned, recent[1..], r);
      }
    }
  }

  lemma ServeRemembers<S>(capacity: nat, l: Ledger<S>, executed: seq<Request<S>>, r: Request<S>, reuse: S)
    requires l.capacity == capacity
    requires Remembers(l, PinnedRequests(capacity, executed), RecentRequests(capacity, executed))
    ensures var (next, served) := Serve(l, r, reuse);
      var more := executed + (if served.executed then [r] else []);
      && next.capacity == capacity
      && Remembers(next, PinnedRequests(capacity, more), RecentRequests(capacity, more))
  {
    hide Remembers, PinnedRequests, RecentRequests, Record;
    if Serve(l, r, reuse).1.executed {
      RecordRemembers(capacity, l, executed, r);
    } else {
      assert executed + [] == executed;
    }
  }

  lemma BeginsEmpty<S>(capacity: nat, requests: seq<Request<S>>, reuse: S)
    requires 0 < capacity
    ensures var l, executed := SessionLedger(capacity, requests, 0, reuse), Executed(capacity, requests, 0, reuse);
      l.capacity == capacity
      && Remembers(l, PinnedRequests(capacity, executed), RecentRequests(capacity, executed))
  {
    EmptyInv<S>(capacity);
    hide LedgerInv;
    assert PinnedRequests<S>(capacity, []) == [] && RecentRequests<S>(capacity, []) == [];
    hide PinnedRequests, RecentRequests;
  }

  lemma ExecutedNext<S>(capacity: nat, requests: seq<Request<S>>, n: nat, reuse: S)
    requires n < |requests|
    ensures var l := SessionLedger(capacity, requests, n, reuse);
      && SessionLedger(capacity, requests, n + 1, reuse) == Serve(l, requests[n], reuse).0
      && Executed(capacity, requests, n + 1, reuse)
         == Executed(capacity, requests, n, reuse)
            + (if Serve(l, requests[n], reuse).1.executed then [requests[n]] else [])
  {
    hide Serve;
  }

  /**
   * Over every session, of any length and with any answers, the ledger holds
   * exactly the first pinned executed requests and, in the places they leave,
   * the last evictable ones.
   */
  lemma {:induction false} LedgerHolds<S>(capacity: nat, requests: seq<Request<S>>, n: nat, reuse: S)
    requires 0 < capacity && n <= |requests|
    ensures var l, executed := SessionLedger(capacity, requests, n, reuse), Executed(capacity, requests, n, reuse);
      l.capacity == capacity
      && Remembers(l, PinnedRequests(capacity, executed), RecentRequests(capacity, executed))
    decreases n
  {
    hide *;
    if n == 0 {
      BeginsEmpty(capacity, requests, reuse);
    } else {
      ExecutedNext(capacity, requests, n - 1, reuse);
      LedgerHolds(capacity, requests, n - 1, reuse);
      ServeRemembers(capacity, SessionLedger(capacity, requests, n - 1, reuse),
                     Executed(capacity, requests, n - 1, reuse), requests[n - 1], reuse);
    }
  }

  /** The executed requests the ledger remembers. */
  function Remembered<S>(capacity: nat, executed: seq<Request<S>>): seq<Request<S>>
  {
    PinnedRequests(capacity, executed) + RecentRequests(capacity, executed)
  }

  predicate Known<S(==)>(requests: seq<Request<S>>, id: S)
  {
    exists i :: 0 <= i < |requests| && requests[i].id == id
  }

  lemma RememberedIds<S>(l: Ledger<S>, pinned: seq<Request<S>>, recent: seq<Request<S>>, id: S)
    requires Remembers(l, pinned, recent)
    ensures id in l.entries <==> Known(pinned + recent, id)
    ensures forall i :: 0 <= i < |pinned + recent| && (pinned + recent)[i].id == id ==>
              id in l.entries && l.entries[id] == EntryOf((pinned + recent)[i])
  {
    QueueKnown(l);
    hide Queued, Evictable, EntryOf, LedgerInv;
    var all := pinned + recent;
    forall i | 0 <= i < |all| && all[i].id == id
      ensures id in l.entries && l.entries[id] == EntryOf(all[i])
    {
      assert all[i] == if i < |pinned| then pinned[i] else recent[i - |pinned|];
    }
    if id in l.entries {
      var evictable := Evictable(l.entries[id]);
      QueuedMembers(l.order, l.entries, evictable, id);
      var requests := if evictable then recent else pinned;
      var i :| 0 <= i < |requests| && IdsOf(requests)[i] == id;
      assert all[if evictable then |pinned| + i else i].id == id;
    }
  }

  /**
   * The exact account of every request of every session: the handler runs
   * exactly for a request that is not turned away and whose id none of the
   * remembered requests carries; an identical retry of a remembered request
   * gets its answer, and a different one under its id the reuse answer.
   */
  lemma HandlerRunsIffForgotten<S>(capacity: nat, requests: seq<Request<S>>, i: nat, reuse: S)
    requires 0 < capacity && i < |requests|
    ensures var remembered := Remembered(capacity, Executed(capacity, requests, i, reuse));
      var served, r := Serve(SessionLedger(capacity, requests, i, reuse), requests[i], reuse).1, requests[i];
      && (!Known(remembered, r.id) ==> served == Served(r.answer, !r.route.TurnedAway?))
      && (Known(remembered, r.id) ==> !served.executed)
      && (forall k :: 0 <= k < |remembered| && remembered[k].id == r.id ==>
            served == Served(if remembered[k].canonical == r.canonical then remembered[k].answer
                             else Definite(reuse), false))
  {
    LedgerHolds(capacity, requests, i, reuse);
    var executed := Executed(capacity, requests, i, reuse);
    var l, r := SessionLedger(capacity, requests, i, reuse), requests[i];
    hide Remembers, PinnedRequests, RecentRequests, Record, SessionLedger, Executed;
    RememberedIds(l, PinnedRequests(capacity, executed), RecentRequests(capacity, executed), r.id);
  }

  // ---------------------------------------------------------------------
  // Sessions without pinned answers
  // ---------------------------------------------------------------------

  /** No answer of the session would be pinned. */
  predicate NothingPinned<S>(requests: seq<Request<S>>)
  {
    forall i :: 0 <= i < |requests| ==> Evictable(EntryOf(requests[i]))
  }

  lemma {:induction false} AllOfKind<S>(executed: seq<Request<S>>)
    requires NothingPinned(executed)
    ensures OfKind(executed, true) == executed && OfKind(executed, false) == []
  {
    if executed != [] {
      var before := executed[..|executed| - 1];
      AllOfKind(before);
      assert executed == before + [executed[|executed| - 1]];
    }
  }

  lemma {:induction false} ExecutedNotPinned<S>(capacity: nat, requests: seq<Request<S>>, n: nat, reuse: S)
    requires n <= |requests| && NothingPinned(requests)
    ensures NothingPinned(Executed(capacity, requests, n, reuse))
    decreases n
  {
    hide Evictable, EntryOf, SessionLedger, Serve;
    if n > 0 {
      ExecutedNotPinned(capacity, requests, n - 1, reuse);
    }
  }

  /**
   * Without pinned answers the ledger remembers exactly the last `capacity`
   * executed requests.
   */
  lemma RemembersLatest<S>(capacity: nat, requests: seq<Request<S>>, i: nat, reuse: S)
    requires i <= |requests| && NothingPinned(requests)
    ensures Remembered(capacity, Executed(capacity, requests, i, reuse))
         == Latest(Executed(capacity, requests, i, reuse), capacity)
  {
    ExecutedNotPinned(capacity, requests, i, reuse);
    AllOfKind(Executed(capacity, requests, i, reuse));
    hide OfKind, Executed, NothingPinned;
  }

  /** The first `n` requests use different ids and none is turned away. */
  predicate DistinctIds<S(==)>(requests: seq<Request<S>>, n: nat)
    requires n <= |requests|
  {
    && (forall i, j :: 0 <= i < j < n ==> requests[i].id != requests[j].id)
    && (forall i :: 0 <= i < n ==> !requests[i].route.TurnedAway?)
  }

  lemma LatestUnknown<S>(capacity: nat, requests: seq<Request<S>>, n: nat)
    requires n < |requests| && DistinctIds(requests, n + 1)
    ensures !Known(Latest(requests[..n], capacity), requests[n].id)
  {
    var latest := Latest(requests[..n], capacity);
    assert forall k :: 0 <= k < |latest| ==> latest[k] == requests[n - |latest| + k];
  }

  /** Requests with different ids all run. */
  lemma {:induction false} DistinctIdsRun<S>(capacity: nat, requests: seq<Request<S>>, n: nat, reuse: S)
    requires 0 < capacity && n <= |requests| && NothingPinned(requests) && DistinctIds(requests, n)
    ensures Executed(capacity, requests, n, reuse) == requests[..n]
    decreases n
  {
    if n > 0 {
      assert !requests[n - 1].route.TurnedAway?;
      LatestUnknown(capacity, requests, n - 1);
      DistinctIdsRun(capacity, requests, n - 1, reuse);
      ExecutedNext(capacity, requests, n - 1, reuse);
      hide *;
      RemembersLatest(capacity, requests, n - 1, reuse);
      HandlerRunsIffForgotten(capacity, requests, n - 1, reuse);
      assert requests[..n] == requests[..n - 1] + [requests[n - 1]];
    }
  }

  /** One id more than the ledger has places: the first is forgotten. */
  lemma DistinctIdsForget<S>(capacity: nat, requests: seq<Request<S>>, reuse: S)
    requires 0 < capacity < |requests| && NothingPinned(requests) && DistinctIds(requests, capacity + 1)
    ensures requests[0].id !in SessionLedger(capacity, requests, capacity + 1, reuse).entries
  {
    FirstNotLatest(capacity, requests);
    hide *;
    DistinctIdsRun(capacity, requests, capacity + 1, reuse);
    RemembersLatest(capacity, requests, capacity + 1, reuse);
    LedgerKnows(capacity, requests, capacity + 1, reuse, requests[0].id);
  }

  lemma LedgerKnows<S>(capacity: nat, requests: seq<Request<S>>, n: nat, reuse: S, id: S)
    requires 0 < capacity && n <= |requests|
    ensures id in SessionLedger(capacity, requests, n, reuse).entries
      <==> Known(Remembered(capacity, Executed(capacity, requests, n, reuse)), id)
  {
    hide Remembers, PinnedRequests, RecentRequests, SessionLedger, Executed, Known;
    var executed := Executed(capacity, requests, n, reuse);
    LedgerHolds(capacity, requests, n, reuse);
    RememberedIds(SessionLedger(capacity, requests, n, reuse), PinnedRequests(capacity, executed),
                  RecentRequests(capacity, executed), id);
  }

  lemma FirstNotLatest<S>(capacity: nat, requests: seq<Request<S>>)
    requires 0 < capacity < |requests| && DistinctIds(requests, capacity + 1)
    ensures !Known(Latest(requests[..capacity + 1], capacity), requests[0].id)
  {
    var latest := Latest(requests[..capacity + 1], capacity);
    assert forall k :: 0 <= k < |latest| ==> latest[k] == requests[k + 1];
  }

  /** One more id than the ledger has places, and then the first request again. */
  function Round(capacity: nat): (requests: seq<Request<nat>>)
    ensures |requests| == capacity + 2
    ensures forall k :: 0 <= k <= capacity ==> requests[k] == Request(k, 0, Definite(0), Unbacked)
    ensures requests[capacity + 1] == requests[0]
  {
    seq(capacity + 2, k => Request(if k <= capacity then k else 0, 0, Definite(0), Unbacked))
  }

  /** The retry of an evicted request runs its handler again, at every capacity. */
  lemma EvictedIdRunsAgain(capacity: nat)
    requires 0 < capacity
    ensures var requests := Round(capacity);
      && requests[capacity + 1] == requests[0]
      && Serve(SessionLedger(capacity, requests, 0, 0), requests[0], 0).1.executed
      && Serve(SessionLedger(capacity, requests, capacity + 1, 0), requests[capacity + 1], 0).1.executed
  {
    var requests := Round(capacity);
    DistinctIdsForget(capacity, requests, 0);
    FirstLedger(capacity, requests);
    hide SessionLedger, Round;
  }

  lemma FirstLedger(capacity: nat, requests: seq<Request<nat>>)
    ensures SessionLedger(capacity, requests, 0, 0) == EmptyLedger(capacity)
  {
  }
}
