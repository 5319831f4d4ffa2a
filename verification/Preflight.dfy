/**
 * The durable preflight of descriptor-carrying requests: persist the intent,
 * run the handler, deliver the answer, resolve the intent. A crash may come
 * between any two steps and inside any durable write.
 */
module Preflight {
  import opened Wrappers
  import opened Bytes
  import opened Sha256
  import opened RecoveryCodec
  import opened RecoveryRegistry
  import opened RecoveryStore
  import opened StoreInvariant
  import opened StoreRuns
  import opened StoreHolders
  import opened StoreLimits
  import opened RequestLedger
  import opened LedgerSessions

  type Outcome = LedgerOutcome<Text>

  // ---------------------------------------------------------------------
  // Answers
  // ---------------------------------------------------------------------

  /** "rejected:" */
  const REJECTED: seq<byte> := [0x72, 0x65, 0x6A, 0x65, 0x63, 0x74, 0x65, 0x64, 0x3A]

  predicate IsRejection(o: Outcome)
  {
    o.Definite? && REJECTED <= o.text
  }

  function Rejection(reason: seq<byte>): (o: Outcome)
    requires forall i :: 0 <= i < |reason| ==> reason[i] <= 0x7F
    ensures IsRejection(o)
  {
    AsciiIsValid(REJECTED + reason);
    Definite(REJECTED + reason)
  }

  /** "TargetBlocked" */
  const TARGET_BLOCKED: seq<byte> := [0x54, 0x61, 0x72, 0x67, 0x65, 0x74, 0x42, 0x6C, 0x6F, 0x63, 0x6B, 0x65, 0x64]

  /** "RecoveryPreflightFailed" */
  const PREFLIGHT_FAILED: seq<byte> := [
    0x52, 0x65, 0x63, 0x6F, 0x76, 0x65, 0x72, 0x79, 0x50, 0x72, 0x65, 0x66,
    0x6C, 0x69, 0x67, 0x68, 0x74, 0x46, 0x61, 0x69, 0x6C, 0x65, 0x64
  ]

  function BlockedAnswer(): (o: Outcome)
    ensures IsRejection(o)
  {
    Rejection(TARGET_BLOCKED)
  }

  function PreflightFailedAnswer(): (o: Outcome)
    ensures IsRejection(o)
  {
    Rejection(PREFLIGHT_FAILED)
  }

  // ---------------------------------------------------------------------
  // The protocol as a state machine
  // ---------------------------------------------------------------------

  /** Where the server is inside one request. */
  datatype Phase =
    | Idle
    | Intended(descriptor: Descriptor, session: Text, canonical: Text)
    | Answered(descriptor: Descriptor, session: Text, outcome: Outcome, ran: bool)
    | Sent(descriptor: Descriptor, session: Text, outcome: Outcome, ran: bool)
    | Unsent(descriptor: Descriptor, session: Text, ran: bool)

  /** A durable write fails, succeeds, or is cut by a crash before or after the file is replaced. */
  datatype Write = Fails | Succeeds | CrashesBefore | CrashesAfter

  datatype Process = Down | Up(store: Store, ledger: Ledger<Text>, phase: Phase)

  /**
   * `owed` is history: the requests whose handler ran while their target was
   * on record, and whose target no durable operation has dropped since.
   */
  datatype Server = Server(process: Process, disk: Disk, capacity: nat, ledgerCapacity: nat, owed: set<Descriptor>)

  /**
   * Plain requests share the ledger; a new listener on the same store begins
   * with an empty one, while the store keeps its intents.
   */
  datatype Event =
    | Receive(descriptor: Descriptor, session: Text, canonical: Text, write: Write)
    | RunHandler(outcome: Outcome)
    | Deliver(delivered: bool)
    | Resolve(write: Write)
    | Operate(op: Operation, write: Write)
    | ServePlain(id: Text, canonical: Text, answer: Outcome, reuse: Text)
    | NewListener
    | Crash
    | Start

  /** One write-through mutation under a given fate of its write. */
  function Through(process: Process, disk: Disk, op: Operation, write: Write, phase: Phase): (Process, Disk)
    requires process.Up?
  {
    match Prepare(process.store, op)
    case Failure(_) => (process.(phase := phase), disk)
    case Success((next, bytes, _)) =>
      match write
      case Fails => (process.(phase := phase), disk)
      case Succeeds => (process.(store := next, phase := phase), Some(bytes))
      case CrashesBefore => (Down, disk)
      case CrashesAfter => (Down, Some(bytes))
  }

  predicate Durable(store: Store, op: Operation, write: Write)
  {
    Prepare(store, op).Success? && (write.Succeeds? || write.CrashesAfter?)
  }

  /** The requests whose target the operation does not drop. */
  function Kept(owed: set<Descriptor>, store: Store, op: Operation): set<Descriptor>
  {
    set d | d in owed && !Drops(store, op, DescriptorId(store.salt, d))
  }

  function ReceiveStep(s: Server, d: Descriptor, session: Text, canonical: Text, write: Write): Server
    requires s.process.Up? && s.process.phase.Idle?
  {
    var p := s.process;
    if !Classify(p.ledger, d.requestId, canonical).Fresh? then s
    else if TargetBlocked(p.store, d.uri, d.expected) then
      s.(process := p.(phase := Answered(d, session, BlockedAnswer(), false)))
    else
      var begun := Prepare(p.store, BeginPending(d)).Success? && !write.Fails?;
      var phase := if begun then Intended(d, session, canonical)
                   else Answered(d, session, PreflightFailedAnswer(), false);
      var (process, disk) := Through(p, s.disk, BeginPending(d), write, phase);
      s.(process := process, disk := disk)
  }

  /** Only a delivered rejection clears the intent; everything else promotes it. */
  function Resolution(phase: Phase): Operation
    requires phase.Sent? || phase.Unsent?
  {
    if phase.Sent? && IsRejection(phase.outcome) then ClearPending(phase.descriptor.requestId)
    else PromotePending(phase.session, phase.descriptor.requestId)
  }

  /** One operation of the store, after which the server is idle. */
  function Commit(s: Server, op: Operation, write: Write): Server
    requires s.process.Up?
  {
    var (process, disk) := Through(s.process, s.disk, op, write, Idle);
    s.(process := process, disk := disk,
       owed := if Durable(s.process.store, op, write) then Kept(s.owed, s.process.store, op) else s.owed)
  }

  function Step(s: Server, e: Event): Server
  {
    match s.process
    case Down =>
      if e.Start? then s.(process := Up(Reopen(s.disk, s.capacity), EmptyLedger(s.ledgerCapacity), Idle)) else s
    case Up(store, ledger, phase) =>
      match e
      case Receive(d, session, canonical, write) =>
        if phase.Idle? then ReceiveStep(s, d, session, canonical, write) else s
      case RunHandler(outcome) =>
        if !phase.Intended? then s else
        var d := phase.descriptor;
        s.(process := Up(store, Record(ledger, d.requestId, phase.canonical, outcome, true).0,
                         Answered(d, phase.session, outcome, true)),
           owed := if Holds(store, DescriptorId(store.salt, d)) then s.owed + {d} else s.owed)
      case Deliver(delivered) =>
        if !phase.Answered? then s
        else s.(process := s.process.(phase :=
                  if delivered then Sent(phase.descriptor, phase.session, phase.outcome, phase.ran)
                  else Unsent(phase.descriptor, phase.session, phase.ran)))
      case Resolve(write) =>
        if !phase.Sent? && !phase.Unsent? then s else Commit(s, Resolution(phase), write)
      case Operate(op, write) =>
        if !phase.Idle? || op.BeginPending? || op.ClearPending? || op.PromotePending? then s
        else Commit(s, op, write)
      case ServePlain(id, canonical, answer, reuse) =>
        if !phase.Idle? then s else
        s.(process := Up(store, Serve(ledger, Request(id, canonical, answer, Unbacked), reuse).0, Idle))
      case NewListener =>
        if phase.Idle? then s.(process := Up(store, EmptyLedger(ledger.capacity), Idle)) else s
      case Crash => s.(process := Down)
      case Start => s
  }

  function Run(s: Server, events: seq<Event>): Server
    decreases |events|
  {
    if events == [] then s else Run(Step(s, events[0]), events[1..])
  }

  // ---------------------------------------------------------------------
  // The invariant
  // ---------------------------------------------------------------------

  /** From the preflight to the resolution an intent under the request's id is pending. */
  predicate PhaseInv(store: Store, phase: Phase)
  {
    match phase
    case Idle => true
    case Intended(d, _, _) => HasPending(store.pending, d.requestId)
    case Answered(d, _, _, ran) => ran ==> HasPending(store.pending, d.requestId)
    case Sent(d, _, _, ran) => ran ==> HasPending(store.pending, d.requestId)
    case Unsent(d, _, ran) => ran ==> HasPending(store.pending, d.requestId)
  }

  ghost predicate ServerInv(s: Server)
  {
    && MAX_ENTRIES <= s.capacity
    && (match s.process
        case Down =>
          FileSound(s.disk)
          && forall d :: d in s.owed ==> Recorded(RecordsOn(s.disk), DescriptorId(SaltOn(s.disk), d))
        case Up(store, _, phase) =>
          && Sound(store, s.disk) && store.registry.capacity == s.capacity
          && PhaseInv(store, phase)
          && forall d :: d in s.owed ==> Holds(store, DescriptorId(store.salt, d)))
  }

  /** In memory and on disk the same targets are held. */
  lemma HeldIffRecorded(store: Store, disk: Disk, id: Id)
    requires Sound(store, disk)
    ensures Readable(disk) && SaltOn(disk) == store.salt
    ensures Holds(store, id) <==> Recorded(RecordsOn(disk), id)
  {
    SoundParts(store, disk);
    ReadableFile(disk);
    hide Sound, RegistrySound, UniqueRequestIds, FileSound, Readable, RecordsOn, SaltOn;
    DiskIds(store, disk, id);
  }

  // ---------------------------------------------------------------------
  // Every step keeps it
  // ---------------------------------------------------------------------

  /** A crash leaves the file to answer for everything owed. */
  lemma CrashKeeps(store: Store, disk: Disk, owed: set<Descriptor>)
    requires Sound(store, disk) && forall d :: d in owed ==> Holds(store, DescriptorId(store.salt, d))
    ensures FileSound(disk)
    ensures forall d :: d in owed ==> Recorded(RecordsOn(disk), DescriptorId(SaltOn(disk), d))
  {
    SoundParts(store, disk);
    hide Holds, Recorded, Sound, Readable, RecordsOn, SaltOn, Encodable;
    forall d | d in owed
      ensures Recorded(RecordsOn(disk), DescriptorId(SaltOn(disk), d))
    {
      HeldIffRecorded(store, disk, DescriptorId(store.salt, d));
    }
  }

  /** What is owed and not dropped is held afterwards. */
  lemma KeptIsHeld(store: Store, disk: Disk, op: Operation, owed: set<Descriptor>)
    requires Sound(store, disk) && Prepare(store, op).Success?
    requires forall d :: d in owed ==> Holds(store, DescriptorId(store.salt, d))
    ensures var next := Prepare(store, op).value.0;
      forall d :: d in Kept(owed, store, op) ==> Holds(next, DescriptorId(next.salt, d))
  {
    SoundParts(store, disk);
    PrepareKeepsSound(store, disk, op);
    hide Sound, Prepare, Holds, Drops, RegistrySound, UniqueRequestIds, Adds, EntryRemains, IntentRemains, FileSound;
    forall d | d in Kept(owed, store, op)
      ensures Holds(Prepare(store, op).value.0, DescriptorId(store.salt, d))
    {
      DropsLeavesNone(store, op, DescriptorId(store.salt, d));
      HoldersAfter(store, op, DescriptorId(store.salt, d));
    }
  }

  /** Every fate of a write leaves what is owed and not dropped held or on disk. */
  lemma ThroughKeeps(s: Server, op: Operation, write: Write, phase: Phase)
    requires ServerInv(s) && s.process.Up?
    requires var store := s.process.store;
      if Durable(store, op, write) then PhaseInv(Prepare(store, op).value.0, phase)
      else (Prepare(store, op).Success? && write.CrashesBefore?) || PhaseInv(store, phase)
    ensures var (process, disk) := Through(s.process, s.disk, op, write, phase);
      var owed := if Durable(s.process.store, op, write) then Kept(s.owed, s.process.store, op) else s.owed;
      ServerInv(s.(process := process, disk := disk, owed := owed))
  {
    hide Prepare, Sound, Holds, Kept, PhaseInv, FileSound, RecordsOn, Recorded, DescriptorId;
    var store, disk := s.process.store, s.disk;
    CrashKeeps(store, disk, s.owed);
    if Prepare(store, op).Success? {
      PrepareKeepsSound(store, disk, op);
      KeptIsHeld(store, disk, op, s.owed);
      var (next, bytes, _) := Prepare(store, op).value;
      CrashKeeps(next, Some(bytes), Kept(s.owed, store, op));
    }
  }

  function BegunPhase(store: Store, d: Descriptor, session: Text, canonical: Text, write: Write): Phase
  {
    if Prepare(store, BeginPending(d)).Success? && !write.Fails? then Intended(d, session, canonical)
    else Answered(d, session, PreflightFailedAnswer(), false)
  }

  lemma BegunIsPending(store: Store, d: Descriptor)
    requires Prepare(store, BeginPending(d)).Success?
    ensures HasPending(Prepare(store, BeginPending(d)).value.0.pending, d.requestId)
  {
    hide Snapshot, Encode, List;
    if !HasPending(store.pending, d.requestId) {
      assert d in store.pending + [d];
    }
  }

  lemma BeginDropsNothing(owed: set<Descriptor>, store: Store, d: Descriptor)
    ensures Kept(owed, store, BeginPending(d)) == owed
  {
    hide Adds;
  }

  lemma BeginKeeps(s: Server, d: Descriptor, session: Text, canonical: Text, write: Write)
    requires ServerInv(s) && s.process.Up?
    ensures var phase := BegunPhase(s.process.store, d, session, canonical, write);
      var (process, disk) := Through(s.process, s.disk, BeginPending(d), write, phase);
      ServerInv(s.(process := process, disk := disk))
  {
    var store, op, phase := s.process.store, BeginPending(d), BegunPhase(s.process.store, d, session, canonical, write);
    BeginDropsNothing(s.owed, store, d);
    if Prepare(store, op).Success? {
      BegunIsPending(store, d);
    }
    hide Prepare, Kept, PreflightFailedAnswer, HasPending, Through, ServerInv;
    ThroughKeeps(s, op, write, phase);
  }

  lemma ReceiveKeeps(s: Server, d: Descriptor, session: Text, canonical: Text, write: Write)
    requires ServerInv(s) && s.process.Up? && s.process.phase.Idle?
    ensures ServerInv(ReceiveStep(s, d, session, canonical, write))
  {
    BeginKeeps(s, d, session, canonical, write);
    hide Prepare, Sound, Holds, TargetBlocked, PreflightFailedAnswer, BlockedAnswer, Through, Classify;
  }

  lemma CommitKeeps(s: Server, op: Operation, write: Write)
    requires ServerInv(s) && s.process.Up?
    ensures ServerInv(Commit(s, op, write))
  {
    IdleInv(s.process.store);
    hide ServerInv, Prepare, Kept, PhaseInv, Through;
    if Prepare(s.process.store, op).Success? {
      IdleInv(Prepare(s.process.store, op).value.0);
    }
    ThroughKeeps(s, op, write, Idle);
  }

  lemma IdleInv(store: Store)
    ensures PhaseInv(store, Idle)
  {
  }

  lemma StartKeeps(s: Server)
    requires ServerInv(s) && s.process.Down?
    ensures ServerInv(Step(s, Start))
  {
    hide Sound, Holds, FileSound, Reopen, Recorded, RecordsOn, DescriptorId;
    AtMostAllRecords(s.disk);
    ReadableFile(s.disk);
    ReopenIsSound(s.disk, s.capacity);
    forall d | d in s.owed
      ensures Holds(Reopen(s.disk, s.capacity), DescriptorId(SaltOn(s.disk), d))
    {
      HeldIffRecorded(Reopen(s.disk, s.capacity), s.disk, DescriptorId(SaltOn(s.disk), d));
    }
  }

  lemma AtMostAllRecords(disk: Disk)
    requires FileSound(disk)
    ensures |RecordsOn(disk)| <= MAX_ENTRIES
  {
    hide Decode;
  }

  lemma HandlerKeeps(s: Server, outcome: Outcome)
    requires ServerInv(s) && s.process.Up? && s.process.phase.Intended?
    ensures ServerInv(Step(s, RunHandler(outcome)))
  {
    hide Sound, Holds, HasPending, Record, DescriptorId;
  }

  /** Steps that leave store and file alone. */
  lemma QuietKeeps(s: Server, e: Event)
    requires ServerInv(s) && s.process.Up? && (e.Deliver? || e.ServePlain? || e.NewListener?)
    ensures ServerInv(Step(s, e))
  {
    hide Sound, Holds, HasPending, Serve, DescriptorId;
  }

  lemma CrashStepKeeps(s: Server)
    requires ServerInv(s) && s.process.Up?
    ensures ServerInv(Step(s, Crash))
  {
    hide Sound, Holds, FileSound, Recorded, RecordsOn, DescriptorId;
    CrashKeeps(s.process.store, s.disk, s.owed);
  }

  /** Events that are not enabled where the server is change nothing. */
  predicate Enabled(s: Server, e: Event)
  {
    match s.process
    case Down => e.Start?
    case Up(_, _, phase) =>
      match e
      case Receive(_, _, _, _) => phase.Idle?
      case RunHandler(_) => phase.Intended?
      case Deliver(_) => phase.Answered?
      case Resolve(_) => phase.Sent? || phase.Unsent?
      case Operate(op, _) => phase.Idle? && (op.BlockTarget? || op.ReconcileTarget? || op.AcknowledgeTarget?)
      case ServePlain(_, _, _, _) => phase.Idle?
      case NewListener => phase.Idle?
      case Crash => true
      case Start => false
  }

  lemma DisabledChangesNothing(s: Server, e: Event)
    requires !Enabled(s, e)
    ensures Step(s, e) == s
  {
    hide Commit, Reopen, TargetBlocked, Classify, Record, Serve, Holds;
  }

  lemma StepKeepsServer(s: Server, e: Event)
    requires ServerInv(s)
    ensures ServerInv(Step(s, e))
  {
    if !Enabled(s, e) {
      DisabledChangesNothing(s, e);
    } else {
      hide ServerInv;
      match e {
        case Receive(d, session, canonical, write) => ReceiveEventKeeps(s, d, session, canonical, write);
        case RunHandler(outcome) => HandlerKeeps(s, outcome);
        case Resolve(write) => ResolveKeeps(s, write);
        case Operate(op, write) => OperateKeeps(s, op, write);
        case Crash => CrashStepKeeps(s);
        case Start => StartKeeps(s);
        case _ => QuietKeeps(s, e);
      }
    }
  }

  lemma ReceiveEventKeeps(s: Server, d: Descriptor, session: Text, canonical: Text, write: Write)
    requires ServerInv(s) && s.process.Up? && s.process.phase.Idle?
    ensures ServerInv(Step(s, Receive(d, session, canonical, write)))
  {
    ReceiveKeeps(s, d, session, canonical, write);
    hide ServerInv, ReceiveStep;
  }

  lemma ResolveIsCommit(s: Server, write: Write)
    requires s.process.Up? && (s.process.phase.Sent? || s.process.phase.Unsent?)
    ensures Step(s, Resolve(write)) == Commit(s, Resolution(s.process.phase), write)
  {
    hide Commit, Resolution, ReceiveStep, Record, Serve, Holds, Reopen;
  }

  lemma ResolveKeeps(s: Server, write: Write)
    requires ServerInv(s) && s.process.Up? && (s.process.phase.Sent? || s.process.phase.Unsent?)
    ensures ServerInv(Step(s, Resolve(write)))
  {
    CommitKeeps(s, Resolution(s.process.phase), write);
    ResolveIsCommit(s, write);
    hide ServerInv, Commit, Resolution, Step;
  }

  lemma OperateIsCommit(s: Server, op: Operation, write: Write)
    requires s.process.Up? && s.process.phase.Idle?
    requires op.BlockTarget? || op.ReconcileTarget? || op.AcknowledgeTarget?
    ensures Step(s, Operate(op, write)) == Commit(s, op, write)
  {
    hide Commit, Resolution, ReceiveStep, Record, Serve, Holds, Reopen;
  }

  lemma OperateKeeps(s: Server, op: Operation, write: Write)
    requires ServerInv(s) && s.process.Up? && s.process.phase.Idle?
    requires op.BlockTarget? || op.ReconcileTarget? || op.AcknowledgeTarget?
    ensures ServerInv(Step(s, Operate(op, write)))
  {
    CommitKeeps(s, op, write);
    OperateIsCommit(s, op, write);
    hide ServerInv, Commit, Step;
  }

  lemma {:induction false} RunKeepsServer(s: Server, events: seq<Event>)
    requires ServerInv(s)
    ensures ServerInv(Run(s, events))
    decreases |events|
  {
    hide ServerInv, Step;
    if events != [] {
      StepKeepsServer(s, events[0]);
      RunKeepsServer(Step(s, events[0]), events[1..]);
    }
  }

  // ---------------------------------------------------------------------
  // The guarantees
  // ---------------------------------------------------------------------

  /** The handler runs only while a record of an intent under its request id is in the file. */
  lemma IntentIsDurableBeforeHandler(s: Server, events: seq<Event>)
    requires ServerInv(s)
    ensures var after := Run(s, events);
      after.process.Up? && after.process.phase.Intended? ==>
        Readable(after.disk)
        && exists p :: p in after.process.store.pending && p.requestId == after.process.phase.descriptor.requestId
                       && PendingRecord(p, after.process.store.salt) in RecordsOn(after.disk)
  {
    RunKeepsServer(s, events);
    var after := Run(s, events);
    hide Run, Sound, Readable, RecordsOn, PendingRecord;
    if after.process.Up? && after.process.phase.Intended? {
      var store, d := after.process.store, after.process.phase.descriptor;
      var p :| p in store.pending && p.requestId == d.requestId;
      PendingIsOnDisk(store, after.disk, p);
    }
  }

  lemma PendingIsOnDisk(store: Store, disk: Disk, d: Descriptor)
    requires Sound(store, disk) && d in store.pending
    ensures Readable(disk) && PendingRecord(d, store.salt) in RecordsOn(disk)
  {
    hide RegistrySound, UniqueRequestIds, Encodable, Snapshot, Decode, Restore, PendingRecord;
    SnapshotRecord(store.registry, store.pending, store.salt, PendingRecord(d, store.salt));
  }

  /**
   * Exactly when a request about to run has its own intent on record: its id
   * was not pending when it was received. Otherwise nothing was written for
   * it, and reopening blocks its target only if it did so before.
   */
  lemma OwnIntentIff(s: Server, before: seq<Event>, d: Descriptor, session: Text, canonical: Text, write: Write)
    requires ServerInv(s) && Run(s, before).process.Up? && Run(s, before).process.phase.Idle?
    requires var began := Step(Run(s, before), Receive(d, session, canonical, write));
      began.process.Up? && began.process.phase.Intended?
    ensures var ready, began := Run(s, before), Step(Run(s, before), Receive(d, session, canonical, write));
      var reused, id := HasPending(ready.process.store.pending, d.requestId), DescriptorId(ready.process.store.salt, d);
      && Readable(began.disk) && began.process.phase.descriptor == d
      && (if reused then began.process.store == ready.process.store
          else began.process.store == ready.process.store.(pending := ready.process.store.pending + [d])
               && PendingRecord(d, ready.process.store.salt) in RecordsOn(began.disk))
      && (Holds(began.process.store, id) <==> !reused || Holds(ready.process.store, id))
      && (TargetBlocked(Reopen(began.disk, s.capacity), d.uri, d.expected)
          <==> !reused || TargetBlocked(Reopen(ready.disk, s.capacity), d.uri, d.expected))
  {
    RunKeepsServer(s, before);
    RunKeepsCapacity(s, before);
    var ready := Run(s, before);
    BeganBy(ready, d, session, canonical, write);
    hide Run, Step, Sound, TargetBlocked, Reopen, Prepare, HasPending, Readable, RecordsOn, Holds, PendingRecord;
    IntentWrittenIff(ready.process.store, ready.disk, d);
  }

  /** A request about to run was begun in a store where its target was free. */
  lemma BeganBy(s: Server, d: Descriptor, session: Text, canonical: Text, write: Write)
    requires s.process.Up? && s.process.phase.Idle?
    requires var began := Step(s, Receive(d, session, canonical, write));
      began.process.Up? && began.process.phase.Intended?
    ensures var began := Step(s, Receive(d, session, canonical, write));
      && Prepare(s.process.store, BeginPending(d)).Success?
      && began.process.store == Prepare(s.process.store, BeginPending(d)).value.0
      && began.disk == Some(Prepare(s.process.store, BeginPending(d)).value.1)
      && began.process.phase == Intended(d, session, canonical) && began.owed == s.owed
  {
    hide Prepare, TargetBlocked, Classify, BlockedAnswer, PreflightFailedAnswer;
  }

  /**
   * Wherever a run stops, reopening the file reports the target of every
   * request that is still owed as blocked.
   */
  lemma OwedStaysBlocked(s: Server, events: seq<Event>, d: Descriptor)
    requires ServerInv(s)
    requires d in Run(s, events).owed
    ensures var reopened := Reopen(Run(s, events).disk, s.capacity);
      reopened.poison.None? && TargetBlocked(reopened, d.uri, d.expected)
  {
    RunKeepsServer(s, events);
    RunKeepsCapacity(s, events);
    var after := Run(s, events);
    hide Sound, Holds, Run, Reopen, TargetBlocked, RecordsOn, FileSound, Recorded, KeyRecorded;
    if after.process.Up? {
      CrashKeeps(after.process.store, after.disk, after.owed);
    }
    AtMostAllRecords(after.disk);
    ReopenIsSound(after.disk, s.capacity);
    SoundParts(Reopen(after.disk, s.capacity), after.disk);
    ReopenBlocksIff(after.disk, s.capacity, d.uri, d.expected);
  }

  lemma {:induction false} RunKeepsCapacity(s: Server, events: seq<Event>)
    ensures Run(s, events).capacity == s.capacity
    decreases |events|
  {
    if events != [] {
      StepKeepsCapacity(s, events[0]);
      hide Step;
      RunKeepsCapacity(Step(s, events[0]), events[1..]);
    }
  }

  lemma StepKeepsCapacity(s: Server, e: Event)
    ensures Step(s, e).capacity == s.capacity
  {
    hide Through, Prepare, Reopen, TargetBlocked, Classify, Holds, Kept, Durable;
  }

  /** The store operation that becomes durable in this event, apart from a preflight. */
  function Effect(s: Server, e: Event): Option<Operation>
  {
    if s.process.Down? then None else
    match e
    case Resolve(write) =>
      if (s.process.phase.Sent? || s.process.phase.Unsent?)
         && Durable(s.process.store, Resolution(s.process.phase), write) then Some(Resolution(s.process.phase))
      else None
    case Operate(op, write) =>
      if s.process.phase.Idle? && (op.BlockTarget? || op.ReconcileTarget? || op.AcknowledgeTarget?)
         && Durable(s.process.store, op, write) then Some(op)
      else None
    case _ => None
  }

  /** A durable operation takes a holder from the target and gives it nothing back. */
  predicate Discharges(s: Server, e: Event, d: Descriptor)
  {
    && s.process.Up? && Effect(s, e).Some?
    && Drops(s.process.store, Effect(s, e).value, DescriptorId(s.process.store.salt, d))
  }

  predicate NeverDischarged(s: Server, events: seq<Event>, d: Descriptor)
    decreases |events|
  {
    events == [] || (!Discharges(s, events[0], d) && NeverDischarged(Step(s, events[0]), events[1..], d))
  }

  lemma {:induction false} UndischargedIsOwed(s: Server, events: seq<Event>, d: Descriptor)
    requires d in s.owed && NeverDischarged(s, events, d)
    ensures d in Run(s, events).owed
    decreases |events|
  {
    if events != [] {
      StaysOwed(s, events[0], d);
      hide Step, Discharges;
      UndischargedIsOwed(Step(s, events[0]), events[1..], d);
    }
  }

  lemma StaysOwed(s: Server, e: Event, d: Descriptor)
    requires d in s.owed && !Discharges(s, e, d)
    ensures d in Step(s, e).owed
  {
    hide Through, Prepare, Reopen, TargetBlocked, Classify, IsRejection, Record, Drops, Holds, DescriptorId, Serve;
  }

  /**
   * Crash-safe preflight, for all names and request ids: once the handler of a
   * request has run, every later reopening blocks its target until a durable
   * operation drops it, provided the id of the request was not pending when it
   * was received (or its target was on record already).
   */
  lemma ExecutedIsBlockedEverAfter(s: Server, before: seq<Event>, d: Descriptor, session: Text, canonical: Text,
                                   write: Write, outcome: Outcome, later: seq<Event>)
    requires ServerInv(s) && Run(s, before).process.Up? && Run(s, before).process.phase.Idle?
    requires var ready, began := Run(s, before), Step(Run(s, before), Receive(d, session, canonical, write));
      && began.process.Up? && began.process.phase.Intended?
      && (HasPending(ready.process.store.pending, d.requestId)
          ==> Holds(ready.process.store, DescriptorId(ready.process.store.salt, d)))
      && NeverDischarged(Step(began, RunHandler(outcome)), later, d)
    ensures var began := Step(Run(s, before), Receive(d, session, canonical, write));
      var reopened := Reopen(Run(Step(began, RunHandler(outcome)), later).disk, s.capacity);
      reopened.poison.None? && TargetBlocked(reopened, d.uri, d.expected)
  {
    OwnIntentIff(s, before, d, session, canonical, write);
    hide ServerInv, Reopen, TargetBlocked, HasPending, Readable, RecordsOn;
    RunKeepsServer(s, before);
    RunKeepsCapacity(s, before);
    var ready := Run(s, before);
    var began := Step(ready, Receive(d, session, canonical, write));
    StepKeepsServer(ready, Receive(d, session, canonical, write));
    StepKeepsCapacity(ready, Receive(d, session, canonical, write));
    hide Run, Holds;
    RunsHandler(began, outcome);
    StepKeepsServer(began, RunHandler(outcome));
    StepKeepsCapacity(began, RunHandler(outcome));
    hide Step;
    UndischargedIsOwed(Step(began, RunHandler(outcome)), later, d);
    OwedStaysBlocked(Step(began, RunHandler(outcome)), later, d);
  }

  lemma RunsHandler(s: Server, outcome: Outcome)
    requires s.process.Up? && s.process.phase.Intended?
    requires Holds(s.process.store, DescriptorId(s.process.store.salt, s.process.phase.descriptor))
    ensures s.process.phase.descriptor in Step(s, RunHandler(outcome)).owed
  {
    hide Holds, Record, DescriptorId;
  }

  /**
   * What can drop a target: a cleared rejection of the request id its intent
   * is pending under, an acknowledgement resolving to its entry, or a block or
   * promotion of another identity under the key of its entry; nothing else.
   */
  lemma DischargeCauses(store: Store, disk: Disk, op: Operation, id: Id)
    requires Sound(store, disk) && MAX_ENTRIES <= store.registry.capacity
    requires !op.BeginPending? && !op.ReconcileTarget?
    ensures Drops(store, op, id) <==>
      match op
      case ClearPending(requestId) =>
        exists p :: p in store.pending && DescriptorId(store.salt, p) == id && p.requestId == requestId
      case AcknowledgeTarget(_, uri, token, _) => ResolvesTo(store, uri, token, id)
      case BlockTarget(_, uri, token, _, _, _) =>
        ResolvesTo(store, uri, token, id) && IdOf(store.salt, uri, token) != id
      case PromotePending(_, requestId) =>
        exists p :: p in store.pending && p.requestId == requestId
                    && ResolvesTo(store, p.uri, p.expected, id) && DescriptorId(store.salt, p) != id
      case _ => false
  {
    hide *;
    SoundParts(store, disk);
    SharedBound(store, disk);
    if op.PromotePending? {
      PromotionDrops(store, op, id);
    } else {
      OtherDrops(store, op, id);
    }
  }

  lemma OtherDrops(store: Store, op: Operation, id: Id)
    requires !op.BeginPending? && !op.ReconcileTarget? && !op.PromotePending?
    ensures Drops(store, op, id) <==>
      match op
      case ClearPending(requestId) =>
        exists p :: p in store.pending && DescriptorId(store.salt, p) == id && p.requestId == requestId
      case AcknowledgeTarget(_, uri, token, _) => ResolvesTo(store, uri, token, id)
      case BlockTarget(_, uri, token, _, _, _) =>
        ResolvesTo(store, uri, token, id) && IdOf(store.salt, uri, token) != id
      case _ => false
  {
    hide SaltedHash, ResolveKey, HashOf;
  }

  /** The pair resolves to a stored entry of this identity. */
  predicate ResolvesTo(store: Store, uri: Text, token: Text, id: Id)
  {
    var key := ResolveKey(store.registry, uri, token);
    key in store.registry.entries && TargetId(store.registry.entries[key], store.salt) == id
  }

  lemma PromotionDrops(store: Store, op: Operation, id: Id)
    requires UniqueRequestIds(store.pending) && op.PromotePending?
    requires |store.registry.order| + |store.pending| <= store.registry.capacity
    ensures Drops(store, op, id) <==>
      exists p :: p in store.pending && p.requestId == op.requestId
                  && ResolvesTo(store, p.uri, p.expected, id) && DescriptorId(store.salt, p) != id
  {
    hide SaltedHash, ResolveKey, HashOf, UniqueRequestIds, IsBlocked;
    forall p | p in store.pending && p.requestId == op.requestId
      ensures Promoted(store, op.requestId) == Some(p)
    {
      assert HasPending(store.pending, op.requestId);
      SameIdSameIntent(store.pending, p, store.pending[FirstPending(store.pending, op.requestId)]);
    }
  }

  /** A server over a store just created with the default capacity or more. */
  lemma FreshServerIsInv(capacity: nat, ledgerCapacity: nat, salt: Salt)
    requires MAX_ENTRIES <= capacity
    ensures ServerInv(FreshServer(capacity, ledgerCapacity, salt))
  {
    FreshStoreIsSound(capacity, salt);
    hide Sound, Open;
  }

  function FreshServer(capacity: nat, ledgerCapacity: nat, salt: Salt): Server
  {
    var (store, disk) := Open(None, capacity, true, Some(salt), true);
    Server(Up(store, EmptyLedger(ledgerCapacity), Idle), disk, capacity, ledgerCapacity, {})
  }

  // ---------------------------------------------------------------------
  // Where the guarantee ends
  // ---------------------------------------------------------------------

  /**
   * Beginning under a request id that is still pending succeeds without
   * writing the new intent: afterwards the target is on record, and blocked on
   * reopening, exactly when the id was not pending or it was so before.
   */
  lemma IntentWrittenIff(store: Store, disk: Disk, d: Descriptor)
    requires Sound(store, disk) && store.registry.capacity >= MAX_ENTRIES
    requires Prepare(store, BeginPending(d)).Success?
    ensures var (next, bytes, _) := Prepare(store, BeginPending(d)).value;
      var reused, id := HasPending(store.pending, d.requestId), DescriptorId(store.salt, d);
      && Readable(Some(bytes)) && Readable(disk)
      && next == (if reused then store else store.(pending := store.pending + [d]))
      && (!reused ==> PendingRecord(d, store.salt) in RecordsOn(Some(bytes)))
      && (Holds(next, id) <==> !reused || Holds(store, id))
      && (Recorded(RecordsOn(Some(bytes)), id) <==> !reused || Recorded(RecordsOn(disk), id))
      && (TargetBlocked(Reopen(Some(bytes), store.registry.capacity), d.uri, d.expected)
          <==> !reused || TargetBlocked(Reopen(disk, store.registry.capacity), d.uri, d.expected))
  {
    var op, id, reused := BeginPending(d), DescriptorId(store.salt, d), HasPending(store.pending, d.requestId);
    BegunStore(store, disk, d);
    hide Sound, Prepare, RecordsOn, Recorded, Reopen, TargetBlocked, Readable, PendingRecord, Holds, HasPending;
    hide KeyRecorded, FileSound, KeyOf;
    var (next, bytes, _) := Prepare(store, op).value;
    PrepareKeepsSound(store, disk, op);
    HeldIffRecorded(store, disk, id);
    HeldIffRecorded(next, Some(bytes), id);
    SoundParts(store, disk);
    SoundParts(next, Some(bytes));
    ReopenBlocksIff(disk, store.registry.capacity, d.uri, d.expected);
    ReopenBlocksIff(Some(bytes), store.registry.capacity, d.uri, d.expected);
    AtMostAllRecords(Some(bytes));
    AtMostAllRecords(disk);
    if reused {
      WrittenByMemory(store, disk, d);
    } else {
      PendingIsOnDisk(next, Some(bytes), d);
      PendingIsHeld(next, d);
    }
  }

  /** With an intent pending the file was written from memory. */
  lemma WrittenByMemory(store: Store, disk: Disk, d: Descriptor)
    requires Sound(store, disk) && HasPending(store.pending, d.requestId)
    ensures Readable(disk) && RecordsOn(disk) == Snapshot(store.registry, store.pending, store.salt)
  {
    hide RegistrySound, UniqueRequestIds, Encodable, Snapshot, Decode, Restore;
  }

  lemma BegunStore(store: Store, disk: Disk, d: Descriptor)
    requires Sound(store, disk) && Prepare(store, BeginPending(d)).Success?
    ensures Prepare(store, BeginPending(d)).value.0
      == (if HasPending(store.pending, d.requestId) then store else store.(pending := store.pending + [d]))
  {
    BeginSucceedsIff(store, disk, d);
    if HasPending(store.pending, d.requestId) {
      BeginReused(store, d);
    }
    hide Sound, Prepare;
  }

  lemma PendingIsHeld(store: Store, d: Descriptor)
    requires d in store.pending
    ensures Holds(store, DescriptorId(store.salt, d))
  {
    hide SaltedHash;
    assert IdOf(store.salt, d.uri, d.expected) == DescriptorId(store.salt, d);
  }

  lemma BeginReused(store: Store, d: Descriptor)
    requires Prepare(store, BeginPending(d)).Success? && HasPending(store.pending, d.requestId)
    ensures Prepare(store, BeginPending(d)).value.0 == store
  {
    hide Snapshot, Encode;
  }

  /**
   * Inside the running process an unresolved request blocks its target exactly
   * when the promotion was written; after a failed write another request for
   * the same target is still admitted.
   */
  lemma BlockedInProcessIffWritten(store: Store, disk: Disk, session: Text, d: Descriptor, writes: bool)
    requires Sound(store, disk) && store.registry.capacity >= MAX_ENTRIES
    requires d in store.pending && !IsBlocked(store.registry, d.uri, d.expected)
    ensures var (next, file, _) := Mutate(store, disk, PromotePending(session, d.requestId), writes);
      && (TargetBlocked(next, d.uri, d.expected) <==> writes)
      && TargetBlocked(Reopen(file, store.registry.capacity), d.uri, d.expected)
  {
    hide Sound, Reopen, IsBlocked, HasPending, Prepare;
    PendingById(store, disk, d);
    IntentIsNeverLost(store, disk, session, d.requestId, writes);
    PromotionReopensBlocked(store, disk, session, d, writes);
  }

  lemma PendingById(store: Store, disk: Disk, d: Descriptor)
    requires Sound(store, disk) && d in store.pending
    ensures HasPending(store.pending, d.requestId) && store.pending[FirstPending(store.pending, d.requestId)] == d
    ensures store.poison.None?
  {
    SoundParts(store, disk);
    hide Sound, UniqueRequestIds;
    assert HasPending(store.pending, d.requestId);
    SameIdSameIntent(store.pending, d, store.pending[FirstPending(store.pending, d.requestId)]);
  }

  lemma PromotionReopensBlocked(store: Store, disk: Disk, session: Text, d: Descriptor, writes: bool)
    requires Sound(store, disk) && store.registry.capacity >= MAX_ENTRIES && d in store.pending
    ensures var file := Mutate(store, disk, PromotePending(session, d.requestId), writes).1;
      TargetBlocked(Reopen(file, store.registry.capacity), d.uri, d.expected)
  {
    hide Sound, Reopen, TargetBlocked, HasPending, Prepare, Holds, EntryRemains, IntentRemains, KeyRecorded;
    hide Readable, RecordsOn, IdOf, IsBlocked, Recorded, FileSound, SaltOn;
    var op := PromotePending(session, d.requestId);
    PendingById(store, disk, d);
    SharedBound(store, disk);
    if writes && Prepare(store, op).Success? {
      BlockedAfterRestartIff(store, disk, op, store.registry.capacity, d.uri, d.expected);
    } else {
      PendingIsHeld(store, d);
      HeldIffRecorded(store, disk, DescriptorId(store.salt, d));
      SoundParts(store, disk);
      ReopenBlocksIff(disk, store.registry.capacity, d.uri, d.expected);
    }
  }

  // ---------------------------------------------------------------------
  // A rejected request erases the intent of an earlier one
  // ---------------------------------------------------------------------

  /** The request runs, but the write that promotes its intent fails. */
  function Abandoned(d: Descriptor, session: Text, canonical: Text, outcome: Outcome): seq<Event>
  {
    [Receive(d, session, canonical, Succeeds), RunHandler(outcome), Deliver(true), Resolve(Fails)]
  }

  /** A request whose preflight write fails; the rejection is delivered and cleared. */
  function Refused(d: Descriptor, session: Text, canonical: Text): seq<Event>
  {
    [Receive(d, session, canonical, Fails), Deliver(true), Resolve(Succeeds)]
  }

  lemma AbandonedServer(capacity: nat, ledgerCapacity: nat, salt: Salt,
                        d: Descriptor, session: Text, canonical: Text, outcome: Outcome)
    requires MAX_ENTRIES <= capacity && DescriptorEncodable(d) && !IsRejection(outcome)
    ensures var ran := Run(FreshServer(capacity, ledgerCapacity, salt), Abandoned(d, session, canonical, outcome));
      && ran.process == Up(Store(Empty(capacity, None), [d], salt, None),
                           Record(EmptyLedger(ledgerCapacity), d.requestId, canonical, outcome, true).0, Idle)
      && ran.owed == {d} && Sound(ran.process.store, ran.disk) && ran.capacity == capacity
  {
    var s0 := FreshServer(capacity, ledgerCapacity, salt);
    var e1: Event := Receive(d, session, canonical, Succeeds);
    FirstRequest(capacity, ledgerCapacity, salt, d, session, canonical);
    hide FreshServer, Sound, Holds, DescriptorId, Step, Record;
    RunFour(s0, e1, RunHandler(outcome), Deliver(true), Resolve(Fails));
    hide Run;
    FailedWriteChangesNothing(Step(s0, e1), d, session, canonical, outcome);
  }

  lemma FirstRequest(capacity: nat, ledgerCapacity: nat, salt: Salt, d: Descriptor, session: Text, canonical: Text)
    requires MAX_ENTRIES <= capacity && DescriptorEncodable(d)
    ensures var s := Step(FreshServer(capacity, ledgerCapacity, salt), Receive(d, session, canonical, Succeeds));
      && s.process == Up(Store(Empty(capacity, None), [d], salt, None), EmptyLedger(ledgerCapacity),
                         Intended(d, session, canonical))
      && s.owed == {} && s.capacity == capacity && Sound(s.process.store, s.disk)
      && Holds(s.process.store, DescriptorId(salt, d))
  {
    var s0 := FreshServer(capacity, ledgerCapacity, salt);
    FreshFree(capacity, ledgerCapacity, salt, d);
    hide FreshServer, Sound, DescriptorEncodable, TargetBlocked, Prepare;
    FirstIntent(s0.process.store, s0.disk, d);
    BegunServer(s0, d, session, canonical);
    hide Step, Holds;
    PendingIsHeld(Store(Empty(capacity, None), [d], salt, None), d);
  }

  lemma FirstIntent(store: Store, disk: Disk, d: Descriptor)
    requires Sound(store, disk) && store.registry == Empty(store.registry.capacity, None) && store.pending == []
    requires MAX_ENTRIES <= store.registry.capacity && DescriptorEncodable(d)
    ensures Prepare(store, BeginPending(d)).Success?
    ensures var (next, bytes, _) := Prepare(store, BeginPending(d)).value;
      next == store.(pending := [d]) && Sound(next, Some(bytes))
  {
    BeginSucceedsIff(store, disk, d);
    hide Prepare, Sound, DescriptorEncodable;
    PrepareKeepsSound(store, disk, BeginPending(d));
    hide RecordsOn, Snapshot;
    assert [] + [d] == [d];
  }

  lemma BegunServer(s: Server, d: Descriptor, session: Text, canonical: Text)
    requires s.process.Up? && s.process.phase.Idle? && s.process.ledger.entries == map[]
    requires !TargetBlocked(s.process.store, d.uri, d.expected) && Prepare(s.process.store, BeginPending(d)).Success?
    ensures Step(s, Receive(d, session, canonical, Succeeds))
         == s.(process := Up(Prepare(s.process.store, BeginPending(d)).value.0, s.process.ledger,
                             Intended(d, session, canonical)),
               disk := Some(Prepare(s.process.store, BeginPending(d)).value.1))
  {
    hide Prepare, TargetBlocked, PreflightFailedAnswer, BlockedAnswer;
  }

  lemma FreshFree(capacity: nat, ledgerCapacity: nat, salt: Salt, d: Descriptor)
    requires MAX_ENTRIES <= capacity
    ensures var s := FreshServer(capacity, ledgerCapacity, salt);
      && s.process == Up(Store(Empty(capacity, None), [], salt, None), EmptyLedger(ledgerCapacity), Idle)
      && s.owed == {} && s.capacity == capacity && Sound(s.process.store, s.disk)
      && !TargetBlocked(s.process.store, d.uri, d.expected)
  {
    FreshStoreIsSound(capacity, salt);
    hide Sound, FileBytes;
    EncodeSucceedsIff(salt, []);
  }

  /** Running, delivering and a resolution that is not written: only the request is owed afterwards. */
  lemma FailedWriteChangesNothing(s: Server, d: Descriptor, session: Text, canonical: Text, outcome: Outcome)
    requires s.process.Up? && s.process.phase == Intended(d, session, canonical) && s.owed == {}
    requires Holds(s.process.store, DescriptorId(s.process.store.salt, d))
    ensures var end := Step(Step(Step(s, RunHandler(outcome)), Deliver(true)), Resolve(Fails));
      && end.process == Up(s.process.store, Record(s.process.ledger, d.requestId, canonical, outcome, true).0, Idle)
      && end.disk == s.disk && end.owed == {d} && end.capacity == s.capacity
  {
    hide Holds, DescriptorId, Prepare, Resolution, Kept, Record;
  }

  lemma RunThree(s: Server, e1: Event, e2: Event, e3: Event)
    ensures Run(s, [e1, e2, e3]) == Step(Step(Step(s, e1), e2), e3)
  {
    hide Step;
    assert [e1, e2, e3][1..] == [e2, e3] && [e2, e3][1..] == [e3] && [e3][1..] == [];
    var s1 := Step(s, e1);
    assert Run(s1, [e2, e3]) == Run(Step(s1, e2), [e3]);
    assert Run(Step(s1, e2), [e3]) == Run(Step(Step(s1, e2), e3), []);
  }

  lemma RunFour(s: Server, e1: Event, e2: Event, e3: Event, e4: Event)
    ensures Run(s, [e1, e2, e3, e4]) == Step(Step(Step(Step(s, e1), e2), e3), e4)
  {
    hide Step;
    assert [e1, e2, e3, e4][1..] == [e2, e3, e4];
    RunThree(Step(s, e1), e2, e3, e4);
  }

  /** Events that serve plain requests or replace the listener. */
  predicate LedgerOnly(events: seq<Event>)
  {
    forall e :: e in events ==> e.ServePlain? || e.NewListener?
  }

  lemma {:induction false} LedgerOnlyRun(s: Server, events: seq<Event>)
    requires s.process.Up? && s.process.phase.Idle? && LedgerOnly(events)
    ensures var end := Run(s, events);
      && end.process.Up? && end.process.phase.Idle? && end.process.store == s.process.store
      && end.disk == s.disk && end.owed == s.owed && end.capacity == s.capacity
    decreases |events|
  {
    if events != [] {
      assert events[0] in events;
      hide ReceiveStep, Commit, Serve, Record, Reopen, Holds, Classify;
      LedgerOnlyRun(Step(s, events[0]), events[1..]);
    }
  }

  /**
   * From a fresh server: a request runs and its promotion is not written, so
   * its intent stays pending and every reopening blocks its target. Plain
   * requests evict its ledger entry, or the listener is replaced. Any later
   * request under the same id, even the same one, is then fresh; if it is
   * refused for a failed write, clearing its rejection takes the intent of the
   * executed request off the file.
   */
  lemma RejectionErasesExecutedIntent(capacity: nat, ledgerCapacity: nat, salt: Salt, outcome: Outcome,
                                      d: Descriptor, session: Text, canonical: Text, between: seq<Event>,
                                      e: Descriptor, session2: Text, canonical2: Text)
    requires MAX_ENTRIES <= capacity && DescriptorEncodable(d) && !IsRejection(outcome) && e.requestId == d.requestId
    requires LedgerOnly(between)
    requires var ran := Run(FreshServer(capacity, ledgerCapacity, salt), Abandoned(d, session, canonical, outcome));
      var ready := Run(ran, between).process;
      ready.Up? && d.requestId !in ready.ledger.entries
    ensures var ran := Run(FreshServer(capacity, ledgerCapacity, salt), Abandoned(d, session, canonical, outcome));
      var ready := Run(ran, between);
      var end := Run(ready, Refused(e, session2, canonical2));
      && d in ready.owed && TargetBlocked(Reopen(ready.disk, capacity), d.uri, d.expected)
      && end.process.Up? && end.process.phase.Idle?
      && !TargetBlocked(Reopen(end.disk, capacity), d.uri, d.expected)
  {
    AbandonedServer(capacity, ledgerCapacity, salt, d, session, canonical, outcome);
    AbandonedReopensBlocked(capacity, ledgerCapacity, salt, d, session, canonical, outcome);
    var ran := Run(FreshServer(capacity, ledgerCapacity, salt), Abandoned(d, session, canonical, outcome));
    hide FreshServer, Sound, Reopen, IsRejection, DescriptorEncodable, Abandoned, Run, Refused, Prepare, TargetBlocked;
    hide Record, LedgerOnly;
    LedgerOnlyRun(ran, between);
    ClearingForgets(ran.process.store, ran.disk, d);
    RefusedClears(Run(ran, between), e, session2, canonical2);
  }

  lemma AbandonedReopensBlocked(capacity: nat, ledgerCapacity: nat, salt: Salt,
                                d: Descriptor, session: Text, canonical: Text, outcome: Outcome)
    requires MAX_ENTRIES <= capacity
    requires d in Run(FreshServer(capacity, ledgerCapacity, salt), Abandoned(d, session, canonical, outcome)).owed
    ensures var ran := Run(FreshServer(capacity, ledgerCapacity, salt), Abandoned(d, session, canonical, outcome));
      TargetBlocked(Reopen(ran.disk, capacity), d.uri, d.expected)
  {
    FreshServerIsInv(capacity, ledgerCapacity, salt);
    hide ServerInv, Run, Reopen, TargetBlocked, Abandoned, Open;
    OwedStaysBlocked(FreshServer(capacity, ledgerCapacity, salt), Abandoned(d, session, canonical, outcome), d);
  }

  /** The refused request leaves the store without its intent. */
  lemma RefusedClears(s: Server, d: Descriptor, session: Text, canonical: Text)
    requires s.process.Up? && s.process.phase.Idle? && d.requestId !in s.process.ledger.entries
    requires s.process.store.poison.None? && s.process.store.registry.entries == map[]
    requires Prepare(s.process.store, ClearPending(d.requestId)).Success?
    ensures var end := Run(s, Refused(d, session, canonical));
      && end.process.Up? && end.process.phase.Idle?
      && end.disk == Some(Prepare(s.process.store, ClearPending(d.requestId)).value.1)
  {
    var e1: Event := Receive(d, session, canonical, Fails);
    RefusedReceive(s, d, session, canonical);
    hide Prepare, PreflightFailedAnswer;
    RunThree(s, e1, Deliver(true), Resolve(Succeeds));
    hide Run, Kept, IsRejection, Step;
    var s1 := s.(process := s.process.(phase := Answered(d, session, PreflightFailedAnswer(), false)));
    var s2 := s.(process := s.process.(phase := Sent(d, session, PreflightFailedAnswer(), false)));
    DeliveredAnswer(s1);
    ResolveIsCommit(s2, Succeeds);
  }

  lemma DeliveredAnswer(s: Server)
    requires s.process.Up? && s.process.phase.Answered?
    ensures var Answered(d, session, outcome, ran) := s.process.phase;
      Step(s, Deliver(true)) == s.(process := s.process.(phase := Sent(d, session, outcome, ran)))
  {
    hide Commit, ReceiveStep, Record, Serve, Holds, Reopen;
  }

  lemma RefusedReceive(s: Server, d: Descriptor, session: Text, canonical: Text)
    requires s.process.Up? && s.process.phase.Idle? && d.requestId !in s.process.ledger.entries
    requires s.process.store.poison.None? && s.process.store.registry.entries == map[]
    ensures Step(s, Receive(d, session, canonical, Fails))
         == s.(process := s.process.(phase := Answered(d, session, PreflightFailedAnswer(), false)))
  {
    NothingBlocked(s.process.store, d);
    hide Prepare, TargetBlocked, PreflightFailedAnswer;
  }

  lemma NothingBlocked(store: Store, d: Descriptor)
    requires store.poison.None? && store.registry.entries == map[]
    ensures !TargetBlocked(store, d.uri, d.expected)
  {
    hide ResolveKey;
  }

  lemma ClearingForgets(store: Store, disk: Disk, d: Descriptor)
    requires Sound(store, disk) && store.registry == Empty(store.registry.capacity, None) && store.pending == [d]
    ensures Prepare(store, ClearPending(d.requestId)).Success?
    ensures !TargetBlocked(Reopen(Some(Prepare(store, ClearPending(d.requestId)).value.1), store.registry.capacity),
                           d.uri, d.expected)
  {
    var op := ClearPending(d.requestId);
    ClearedStore(store, disk, d);
    hide Prepare, TargetBlocked, Reopen, RecordsOn, Sound, IdOf, Readable;
    BlockedAfterRestartIff(store, disk, op, store.registry.capacity, d.uri, d.expected);
    hide KeyOf, RecordKey;
  }

  lemma ClearedStore(store: Store, disk: Disk, d: Descriptor)
    requires Sound(store, disk) && store.registry == Empty(store.registry.capacity, None) && store.pending == [d]
    ensures Prepare(store, ClearPending(d.requestId)).Success?
    ensures var file := Some(Prepare(store, ClearPending(d.requestId)).value.1);
      Readable(file) && RecordsOn(file) == [] && 0 < store.registry.capacity
  {
    PrepareSnapshot(store, disk, d);
    hide Prepare, Sound, Readable, RecordsOn;
    PrepareKeepsSound(store, disk, ClearPending(d.requestId));
    HeldIffRecorded(Prepare(store, ClearPending(d.requestId)).value.0,
                    Some(Prepare(store, ClearPending(d.requestId)).value.1), DescriptorId(store.salt, d));
  }

  lemma PrepareSnapshot(store: Store, disk: Disk, d: Descriptor)
    requires Sound(store, disk) && store.registry == Empty(store.registry.capacity, None) && store.pending == [d]
    ensures Prepare(store, ClearPending(d.requestId)).Success? && 0 < store.registry.capacity
    ensures var next := Prepare(store, ClearPending(d.requestId)).value.0;
      Snapshot(next.registry, next.pending, next.salt) == []
  {
    hide Decode, Mirrors, Encodable, FileBytes, Encode;
    assert RetainOthers([d], d.requestId) == RetainOthers([d][1..], d.requestId);
    assert Snapshot(store.registry, [], store.salt) == [];
    EncodeSucceedsIff(store.salt, []);
    assert Encodable([]) by { NoRecordsFit(); }
  }

  lemma NoRecordsFit()
    ensures Encodable([])
  {
  }

  // ---------------------------------------------------------------------
  // How the ledger forgets the executed request
  // ---------------------------------------------------------------------

  function Letters(n: nat): (t: Text)
    ensures |t| == n
  {
    hide ValidUtf8;
    var text := seq(n, _ => 0x61);
    AsciiIsValid(text);
    text
  }

  function Follower(d: Descriptor, canonical: Text, k: nat): (r: Request<Text>)
    ensures |r.id| == |d.requestId| + k && r.route.Unbacked? && r.answer.Definite?
  {
    Request(Letters(|d.requestId| + k), canonical, Definite(canonical), Unbacked)
  }

  /** The executed request, and as many plain ones under longer ids as the ledger has places. */
  function Crowd(d: Descriptor, canonical: Text, outcome: Outcome, places: nat): (requests: seq<Request<Text>>)
    ensures |requests| == places + 1 && requests[0] == Request(d.requestId, canonical, outcome, Backed)
    ensures forall k :: 1 <= k <= places ==> requests[k] == Follower(d, canonical, k)
  {
    [Request(d.requestId, canonical, outcome, Backed)]
    + seq(places, k requires 0 <= k < places => Follower(d, canonical, k + 1))
  }

  function PlainEvents(requests: seq<Request<Text>>, from: nat, reuse: Text): seq<Event>
    requires from <= |requests|
    decreases |requests| - from
  {
    if from == |requests| then [] else
    [ServePlain(requests[from].id, requests[from].canonical, requests[from].answer, reuse)]
    + PlainEvents(requests, from + 1, reuse)
  }

  lemma PlainStep(s: Server, r: Request<Text>, reuse: Text)
    requires s.process.Up? && s.process.phase.Idle? && r.route.Unbacked?
    ensures Step(s, ServePlain(r.id, r.canonical, r.answer, reuse))
         == s.(process := Up(s.process.store, Serve(s.process.ledger, r, reuse).0, Idle))
  {
    hide ReceiveStep, Commit, Serve, Reopen, Holds, Record;
    assert r == Request(r.id, r.canonical, r.answer, Unbacked);
  }

  lemma {:induction false} PlainRun(s: Server, ledgerCapacity: nat, requests: seq<Request<Text>>, from: nat,
                                    reuse: Text)
    requires from <= |requests| && s.process.Up? && s.process.phase.Idle?
    requires s.process.ledger == SessionLedger(ledgerCapacity, requests, from, reuse)
    requires forall k :: from <= k < |requests| ==> requests[k].route.Unbacked?
    ensures LedgerOnly(PlainEvents(requests, from, reuse))
    ensures var end := Run(s, PlainEvents(requests, from, reuse));
      end.process.Up? && end.process.ledger == SessionLedger(ledgerCapacity, requests, |requests|, reuse)
    decreases |requests| - from
  {
    if from < |requests| {
      var r, rest := requests[from], PlainEvents(requests, from + 1, reuse);
      var e: Event := ServePlain(r.id, r.canonical, r.answer, reuse);
      PlainStep(s, r, reuse);
      assert ([e] + rest)[1..] == rest;
      hide Step, Serve;
      PlainRun(Step(s, e), ledgerCapacity, requests, from + 1, reuse);
    }
  }

  lemma CrowdIsDistinct(d: Descriptor, canonical: Text, outcome: Outcome, places: nat)
    ensures var requests := Crowd(d, canonical, outcome, places);
      && NothingPinned(requests) && DistinctIds(requests, places + 1)
      && forall k :: 1 <= k < |requests| ==> requests[k].route.Unbacked?
  {
    hide Crowd, Follower;
    var requests := Crowd(d, canonical, outcome, places);
    assert forall k :: 1 <= k <= places ==> |requests[k].id| == |d.requestId| + k;
  }

  lemma FirstRecorded(ledgerCapacity: nat, requests: seq<Request<Text>>, reuse: Text)
    requires requests != [] && requests[0].route.Backed?
    ensures var r := requests[0];
      SessionLedger(ledgerCapacity, requests, 1, reuse)
      == Record(EmptyLedger(ledgerCapacity), r.id, r.canonical, r.answer, true).0
  {
    hide Record;
    assert SessionLedger(ledgerCapacity, requests, 0, reuse) == EmptyLedger(ledgerCapacity);
  }

  /** Within one listener of any ledger capacity, that many plain requests make the ledger forget it. */
  lemma PlainRequestsForget(s: Server, ledgerCapacity: nat, d: Descriptor, canonical: Text, outcome: Outcome,
                            reuse: Text)
    requires 0 < ledgerCapacity && s.process.Up? && s.process.phase.Idle?
    requires s.process.ledger == Record(EmptyLedger(ledgerCapacity), d.requestId, canonical, outcome, true).0
    ensures var between := PlainEvents(Crowd(d, canonical, outcome, ledgerCapacity), 1, reuse);
      && LedgerOnly(between) && Run(s, between).process.Up?
      && d.requestId !in Run(s, between).process.ledger.entries
  {
    var requests := Crowd(d, canonical, outcome, ledgerCapacity);
    CrowdIsDistinct(d, canonical, outcome, ledgerCapacity);
    FirstRecorded(ledgerCapacity, requests, reuse);
    hide *;
    PlainRun(s, ledgerCapacity, requests, 1, reuse);
    DistinctIdsForget(ledgerCapacity, requests, reuse);
  }

  /** The erasure, within one listener and at every ledger capacity. */
  lemma ErasedWithinOneListener(capacity: nat, ledgerCapacity: nat, salt: Salt, outcome: Outcome,
                                d: Descriptor, session: Text, canonical: Text, reuse: Text)
    requires MAX_ENTRIES <= capacity && 0 < ledgerCapacity && DescriptorEncodable(d) && !IsRejection(outcome)
    ensures var ran := Run(FreshServer(capacity, ledgerCapacity, salt), Abandoned(d, session, canonical, outcome));
      var ready := Run(ran, PlainEvents(Crowd(d, canonical, outcome, ledgerCapacity), 1, reuse));
      var end := Run(ready, Refused(d, session, canonical));
      && d in ready.owed && TargetBlocked(Reopen(ready.disk, capacity), d.uri, d.expected)
      && !TargetBlocked(Reopen(end.disk, capacity), d.uri, d.expected)
  {
    AbandonedServer(capacity, ledgerCapacity, salt, d, session, canonical, outcome);
    var ran := Run(FreshServer(capacity, ledgerCapacity, salt), Abandoned(d, session, canonical, outcome));
    hide *;
    PlainRequestsForget(ran, ledgerCapacity, d, canonical, outcome, reuse);
    RejectionErasesExecutedIntent(capacity, ledgerCapacity, salt, outcome, d, session, canonical,
                                  PlainEvents(Crowd(d, canonical, outcome, ledgerCapacity), 1, reuse),
                                  d, session, canonical);
  }
}
