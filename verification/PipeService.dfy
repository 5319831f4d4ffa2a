/**
 * The endpoint session and the service of one descriptor-carrying request, in
 * the order of the implementation.
 */
module PipeService {
  import opened Wrappers
  import opened Bytes
  import opened RecoveryStore
  import opened RequestLedger
  import opened StoreHolders
  import opened Preflight

  datatype TransportError = NotEstablished | ProtocolMismatch | InvalidHello | SessionMismatch

  class HostTransportEndpoint {
    const protocolId: Text
    var sessionId: Option<Text>
    const ledger: BoundedRequestLedger<Text>

    constructor (protocolId: Text, ledgerCapacity: nat)
      requires 0 < ledgerCapacity
      ensures this.protocolId == protocolId && sessionId == None
      ensures fresh(ledger) && ledger.State() == EmptyLedger(ledgerCapacity)
    {
      this.protocolId, sessionId := protocolId, None;
      ledger := new BoundedRequestLedger<Text>(ledgerCapacity);
    }

    /** A different session on a later hello is a restart: all history is invalidated. */
    method AcceptHello(protocol: Text, session: Text) returns (result: Result<bool, TransportError>)
      modifies this, ledger
      ensures protocol == [] || session == [] ==> result == Failure(InvalidHello)
      ensures protocol != [] && session != [] && protocol != protocolId ==> result == Failure(ProtocolMismatch)
      ensures result.Failure? ==> sessionId == old(sessionId) && ledger.State() == old(ledger.State())
      ensures result.Success? <==> protocol == protocolId && protocol != [] && session != []
      ensures result.Success? ==> sessionId == Some(session)
      ensures result.Success? ==> (result.value <==> old(sessionId).Some? && old(sessionId) != Some(session))
      ensures result == Success(true) ==> ledger.State() == EmptyLedger(old(ledger.capacity))
      ensures result == Success(false) ==> ledger.State() == old(ledger.State())
    {
      if protocol == [] || session == [] {
        return Failure(InvalidHello);
      }
      if protocol != protocolId {
        return Failure(ProtocolMismatch);
      }
      var restart := sessionId.Some? && sessionId.value != session;
      if restart {
        ledger.InvalidateAll();
      }
      sessionId := Some(session);
      result := Success(restart);
    }

    method CheckSession(session: Text) returns (result: Result<(), TransportError>)
      ensures result == (if sessionId.None? then Failure(NotEstablished)
                         else if sessionId.value == session then Success(()) else Failure(SessionMismatch))
    {
      match sessionId {
        case None => result := Failure(NotEstablished);
        case Some(current) => result := if current == session then Success(()) else Failure(SessionMismatch);
      }
    }
  }

  /** "request_id_reuse" */
  const REQUEST_ID_REUSE: seq<byte> := [
    0x72, 0x65, 0x71, 0x75, 0x65, 0x73, 0x74, 0x5F, 0x69, 0x64, 0x5F, 0x72, 0x65, 0x75, 0x73, 0x65
  ]

  function ReuseAnswer(): Text
  {
    hide ValidUtf8;
    AsciiIsValid(REQUEST_ID_REUSE);
    REQUEST_ID_REUSE
  }

  class PipeServer {
    const endpoint: HostTransportEndpoint
    const store: DurableRecoveryStore
    const disk: StateDisk

    constructor (endpoint: HostTransportEndpoint, store: DurableRecoveryStore, disk: StateDisk)
      ensures this.endpoint == endpoint && this.store == store && this.disk == disk
    {
      this.endpoint, this.store, this.disk := endpoint, store, disk;
    }

    /**
     * Serves one plain request of a session: a recorded reply, the reuse
     * answer, or the handler's answer, which is recorded before delivery.
     */
    method ServePlainRequest(id: Text, canonical: Text, answer: Outcome, session: Text)
      returns (reply: Option<Outcome>, executed: bool)
      modifies endpoint.ledger
      ensures endpoint.sessionId != Some(session) ==>
                reply.None? && !executed && endpoint.ledger.State() == old(endpoint.ledger.State())
      ensures endpoint.sessionId == Some(session) ==>
                && reply.Some?
                && (endpoint.ledger.State(), Served(reply.value, executed))
                   == Serve(old(endpoint.ledger.State()), Request(id, canonical, answer, Unbacked), ReuseAnswer())
    {
      hide Record;
      var checked := endpoint.CheckSession(session);
      if checked.Failure? {
        return None, false;
      }
      match Classify(endpoint.ledger.State(), id, canonical) {
        case Duplicate(recorded) => return Some(recorded), false;
        case Conflict => return Some(Definite(ReuseAnswer())), false;
        case Fresh =>
          var _ := endpoint.ledger.RecordInner(id, canonical, answer, false);
          return Some(answer), true;
      }
    }

    /** The server as a state of the protocol, between two requests. */
    function View(capacity: nat, owed: set<Descriptor>): Server
      reads this, endpoint, endpoint.ledger, store, store.registry, disk
    {
      Server(Up(store.State(), endpoint.ledger.State(), Idle), disk.contents, capacity, endpoint.ledger.capacity, owed)
    }

    /**
     * Serves one request whose write and delivery outcomes and whose handler's
     * answer are given. Without a crash its effect is that of the protocol
     * steps in order; a request of another session changes nothing.
     */
    method ServeDescriptorRequest(d: Descriptor, session: Text, canonical: Text, answer: Outcome,
                                  beginWrites: bool, delivered: bool, resolveWrites: bool,
                                  ghost capacity: nat, ghost owed: set<Descriptor>)
      returns (reply: Option<Outcome>, keep: bool)
      modifies store, disk, endpoint.ledger
      ensures endpoint.sessionId != Some(session) ==>
                reply.None? && View(capacity, owed) == old(View(capacity, owed))
      ensures endpoint.sessionId == Some(session) ==>
                reply == Some(match Classify(old(endpoint.ledger.State()), d.requestId, canonical)
                              case Duplicate(recorded) => recorded
                              case Conflict => Definite(ReuseAnswer())
                              case Fresh => AnswerOf(old(View(capacity, owed)), d, answer, beginWrites))
      ensures endpoint.sessionId == Some(session) ==>
                var after := Run(old(View(capacity, owed)),
                                 [Receive(d, session, canonical, Fate(beginWrites)), RunHandler(answer),
                                  Deliver(delivered), Resolve(Fate(resolveWrites))]);
                after.process == View(capacity, owed).process && after.disk == disk.contents
      ensures keep == delivered
    {
      hide Mutate, Record, TargetBlocked, IsRejection, Run;
      var checked := endpoint.CheckSession(session);
      if checked.Failure? {
        return None, delivered;
      }
      ServedIsRun(View(capacity, owed), d, session, canonical, answer, beginWrites, delivered, resolveWrites);
      match Classify(endpoint.ledger.State(), d.requestId, canonical) {
        case Duplicate(recorded) => return Some(recorded), delivered;
        case Conflict => return Some(Definite(ReuseAnswer())), delivered;
        case Fresh =>
      }
      var outcome: Outcome;
      var blocked := store.IsTargetBlocked(d.uri, d.expected);
      if blocked {
        outcome := BlockedAnswer();
      } else {
        var begun := store.MutateState(disk, BeginPending(d), beginWrites);
        if begun.Failure? {
          outcome := PreflightFailedAnswer();
        } else {
          outcome := answer;
          var recorded := endpoint.ledger.RecordInner(d.requestId, canonical, outcome, true);
        }
      }
      if delivered && IsRejection(outcome) {
        var cleared := store.MutateState(disk, ClearPending(d.requestId), resolveWrites);
      } else {
        var promoted := store.MutateState(disk, PromotePending(session, d.requestId), resolveWrites);
      }
      return Some(outcome), delivered;
    }
  }

  /** The answer to a fresh request: a blocked target or a failed preflight keeps the handler from running. */
  function AnswerOf(s: Server, d: Descriptor, answer: Outcome, beginWrites: bool): Outcome
    requires s.process.Up?
  {
    if TargetBlocked(s.process.store, d.uri, d.expected) then BlockedAnswer()
    else if Mutate(s.process.store, s.disk, BeginPending(d), beginWrites).2.Failure? then PreflightFailedAnswer()
    else answer
  }

  /** It is the answer of the protocol, where the handler has run exactly when its intent was written. */
  lemma AnswerIsProtocols(s: Server, d: Descriptor, session: Text, canonical: Text, answer: Outcome, beginWrites: bool)
    requires s.process.Up? && s.process.phase.Idle? && Classify(s.process.ledger, d.requestId, canonical).Fresh?
    ensures var mid := Run(s, [Receive(d, session, canonical, Fate(beginWrites)), RunHandler(answer)]);
      var ran := !TargetBlocked(s.process.store, d.uri, d.expected)
                 && Mutate(s.process.store, s.disk, BeginPending(d), beginWrites).2.Success?;
      && mid.process.Up?
      && mid.process.phase == Answered(d, session, AnswerOf(s, d, answer, beginWrites), ran)
      && mid.owed == (if ran && Holds(mid.process.store, DescriptorId(mid.process.store.salt, d)) then s.owed + {d}
                      else s.owed)
  {
    hide Prepare, Record, TargetBlocked, Classify, Holds, DescriptorId;
    var e1: Event := Receive(d, session, canonical, Fate(beginWrites));
    var e2: Event := RunHandler(answer);
    RunTwo(s, e1, e2);
    hide Run;
  }

  /** The four steps of one request, put together. */
  function ServedBy(s: Server, d: Descriptor, session: Text, canonical: Text, answer: Outcome,
                    beginWrites: bool, delivered: bool, resolveWrites: bool): (Process, Disk)
    requires s.process.Up?
  {
    var Up(store, ledger, _) := s.process;
    if !Classify(ledger, d.requestId, canonical).Fresh? then (s.process, s.disk) else
    var (begun, file, ledger', outcome) :=
      if TargetBlocked(store, d.uri, d.expected) then (store, s.disk, ledger, BlockedAnswer()) else
      var (next, file, result) := Mutate(store, s.disk, BeginPending(d), beginWrites);
      if result.Failure? then (next, file, ledger, PreflightFailedAnswer())
      else (next, file, Record(ledger, d.requestId, canonical, answer, true).0, answer);
    var op := if delivered && IsRejection(outcome) then ClearPending(d.requestId)
              else PromotePending(session, d.requestId);
    var (resolved, file', _) := Mutate(begun, file, op, resolveWrites);
    (Up(resolved, ledger', Idle), file')
  }

  /**
   * For the ledger one descriptor request is one step of a session, backed
   * when its handler runs and turned away otherwise; so the account of
   * sessions covers both kinds of request.
   */
  lemma DescriptorIsLedgerStep(s: Server, d: Descriptor, session: Text, canonical: Text, answer: Outcome,
                               beginWrites: bool, delivered: bool, resolveWrites: bool)
    requires s.process.Up? && s.process.phase.Idle?
    ensures var ran := !TargetBlocked(s.process.store, d.uri, d.expected)
                       && Mutate(s.process.store, s.disk, BeginPending(d), beginWrites).2.Success?;
      var request := Request(d.requestId, canonical, AnswerOf(s, d, answer, beginWrites),
                             if ran then Backed else TurnedAway);
      var after := Run(s, [Receive(d, session, canonical, Fate(beginWrites)), RunHandler(answer),
                           Deliver(delivered), Resolve(Fate(resolveWrites))]);
      after.process.Up? && after.process.ledger == Serve(s.process.ledger, request, ReuseAnswer()).0
  {
    hide Run, Mutate, Record, TargetBlocked, IsRejection, Classify, BlockedAnswer, PreflightFailedAnswer;
    ServedIsRun(s, d, session, canonical, answer, beginWrites, delivered, resolveWrites);
  }

  function Fate(writes: bool): Write
  {
    if writes then Succeeds else Fails
  }

  lemma ThroughIsMutate(p: Process, disk: Disk, op: Operation, writes: bool, phase: Phase)
    requires p.Up?
    ensures var (next, file, result) := Mutate(p.store, disk, op, writes);
      && Through(p, disk, op, Fate(writes), phase) == (Up(next, p.ledger, phase), file)
      && (result.Success? <==> Prepare(p.store, op).Success? && writes)
  {
    hide Prepare;
  }

  lemma ServedIsRun(s: Server, d: Descriptor, session: Text, canonical: Text, answer: Outcome,
                    beginWrites: bool, delivered: bool, resolveWrites: bool)
    requires s.process.Up? && s.process.phase.Idle?
    ensures var after := Run(s, [Receive(d, session, canonical, Fate(beginWrites)), RunHandler(answer),
                                 Deliver(delivered), Resolve(Fate(resolveWrites))]);
      (after.process, after.disk)
      == ServedBy(s, d, session, canonical, answer, beginWrites, delivered, resolveWrites)
  {
    hide Prepare, Mutate, Record, TargetBlocked, IsRejection, Through, Classify, Kept, Holds, Serve, DescriptorId;
    var e1: Event := Receive(d, session, canonical, Fate(beginWrites));
    var e2: Event := RunHandler(answer);
    var e3: Event := Deliver(delivered);
    var e4: Event := Resolve(Fate(resolveWrites));
    RunFour(s, e1, e2, e3, e4);
    hide Run, Fate;
    var begun := Prepare(s.process.store, BeginPending(d)).Success? && beginWrites;
    var phase := if begun then Intended(d, session, canonical)
                 else Answered(d, session, PreflightFailedAnswer(), false);
    ThroughIsMutate(s.process, s.disk, BeginPending(d), beginWrites, phase);
    FateFails(beginWrites);
    var s3 := Step(Step(Step(s, e1), e2), e3);
    if Classify(s.process.ledger, d.requestId, canonical).Fresh? {
      ThroughIsMutate(s3.process, s3.disk, Resolution(s3.process.phase), resolveWrites, Idle);
      if !TargetBlocked(s.process.store, d.uri, d.expected) {
        var (next, file, _) := Mutate(s.process.store, s.disk, BeginPending(d), beginWrites);
        var outcome := if begun then answer else PreflightFailedAnswer();
        var op := if delivered && IsRejection(outcome) then ClearPending(d.requestId)
                  else PromotePending(session, d.requestId);
        assert s3.process.store == next && s3.disk == file;
        assert Resolution(s3.process.phase) == op;
        assert Step(s3, e4).process == Up(Mutate(next, file, op, resolveWrites).0, s3.process.ledger, Idle);
      }
    }
  }

  lemma FateFails(writes: bool)
    ensures Fate(writes).Fails? <==> !writes
  {
  }

  lemma RunTwo(s: Server, e1: Event, e2: Event)
    ensures Run(s, [e1, e2]) == Step(Step(s, e1), e2)
  {
    hide Step;
    assert [e1, e2][1..] == [e2];
    assert [e2][1..] == [];
    assert Run(Step(s, e1), [e2]) == Run(Step(Step(s, e1), e2), []);
  }
}
