/**
 * The diagnostic decision processor: observed keys to restore plans, plan
 * generations, captured handoffs, the internal gate and the host request.
 */
module Decisions {
  import opened Wrappers
  import opened Bytes
  import opened Utf16
  import opened Printing
  import opened Telex
  import opened TokenEdits
  import opened TelexEngine

  // ---------------------------------------------------------------------
  // Observed events
  // ---------------------------------------------------------------------

  type AsciiLetter = c: char | 'a' <= c <= 'z' || 'A' <= c <= 'Z' witness 'a'
  type Digit = n: nat | n <= 9
  type AsciiPunctuation = c: char | IsPunctuation(c) witness '!'

  datatype Modifier = Shift | Control | Alt | Meta

  datatype ObservedKey =
    | Letter(letter: AsciiLetter)
    | DigitKey(digit: Digit)
    | SpaceKey
    | EnterKey
    | TabKey
    | BackspaceKey
    | EscapeKey
    | PunctuationKey(mark: AsciiPunctuation)
    | ModifierKey(modifier: Modifier)
    | OtherKey

  datatype KeyEventKind = KeyDown | KeyUp | SystemKeyDown | SystemKeyUp

  datatype Modifiers = Modifiers(shift: bool, control: bool, alt: bool, meta: bool)

  datatype Origin = UnknownOrigin | PhysicalOrUnmarked | MarkedInjected | LowerIntegrityInjected

  datatype ObservedEvent = ObservedEvent(key: ObservedKey, kind: KeyEventKind, modifiers: Modifiers, origin: Origin)

  datatype Classification = Ignored | Observed | BoundaryObserved | UnsupportedEvent

  // ---------------------------------------------------------------------
  // Evidence and policy
  // ---------------------------------------------------------------------

  datatype WordClass = English | Technical | Product | User

  /** Segmentation and the lexical lookups, which are not part of this model. */
  datatype Environment = Environment(
    graphemes: Segmenter,
    neverTransform: string -> bool,
    dictionary: string -> Option<WordClass>,
    vietnamese: string -> bool)

  datatype Evidence =
    | Candidate(text: string, confidence: nat, class_: WordClass)
    | NeverTransform
    | VietnameseCandidate
    | NotSupported
    | NotKnown

  /** Confidence in hundredths. */
  function ExactConfidence(class_: WordClass): nat
  {
    match class_
    case English => 98
    case Technical | Product => 99
    case User => 100
  }

  const AUTO_RECOVERY_THRESHOLD := 98

  function Classify(env: Environment, raw: string, rendered: string, boundary: Boundary): Evidence
  {
    if raw == "" || !AllAscii(raw) || boundary.UnknownBoundary? then NotSupported
    else if env.neverTransform(raw) then NeverTransform
    else if raw != rendered && env.dictionary(raw).Some? then
      var class_ := env.dictionary(raw).value;
      Candidate(raw, ExactConfidence(class_), class_)
    else if env.vietnamese(rendered) then VietnameseCandidate
    else NotKnown
  }

  datatype RecoveryDecision = KeepVietnamese | RestoreEnglish(text: string, reason: WordClass) | Uncertain

  /** The policy in the writing context, the only one the processor uses. */
  function Decide(evidence: Evidence): RecoveryDecision
  {
    match evidence
    case Candidate(text, confidence, class_) =>
      if confidence >= AUTO_RECOVERY_THRESHOLD then RestoreEnglish(text, class_) else Uncertain
    case NeverTransform | VietnameseCandidate | NotSupported => KeepVietnamese
    case NotKnown => Uncertain
  }

  // ---------------------------------------------------------------------
  // Plans and handoffs
  // ---------------------------------------------------------------------

  datatype Decision = Keep | RestoreCandidate | Ambiguous | UnsupportedToken

  datatype RestorePlan = RestorePlan(
    originalToken: string,
    renderedToken: string,
    replacementToken: string,
    renderedUnits: nat,
    replacementUnits: nat,
    reason: WordClass,
    executionAllowed: bool,
    generation: u64)

  datatype Handoff = Handoff(
    renderedToken: string,
    replacementToken: string,
    renderedUnits: nat,
    replacementUnits: nat,
    reason: WordClass,
    generation: u64,
    simulationOnly: bool)

  datatype Processor = Processor(
    token: Token,
    completedTokens: u64,
    resets: u64,
    injectedEvents: u64,
    controlDown: bool,
    altDown: bool,
    metaDown: bool,
    lastTokenLengths: Option<(nat, nat)>,
    lastDecision: Option<Decision>,
    plan: Option<RestorePlan>,
    nextGeneration: Option<u64>)

  function FreshProcessor(): Processor
  {
    Processor(EMPTY_TOKEN, 0, 0, 0, false, false, false, None, None, None, Some(1))
  }

  /** The length of the UTF-8 encoding. */
  function ByteLength(text: string): nat
  {
    if text == "" then 0 else
    var code := text[0] as int;
    (if code < 0x80 then 1 else if code < 0x800 then 2 else if code < 0x1_0000 then 3 else 4) + ByteLength(text[1..])
  }

  datatype Ineligibility = NoPlan | SpanInconsistent | ExecutionCapabilityPresent

  /** Why a plan is not eligible, if it is not. */
  function PlanFault(plan: Option<RestorePlan>): Option<Ineligibility>
  {
    if plan.None? then Some(NoPlan) else
    var p := plan.value;
    if p.executionAllowed then Some(ExecutionCapabilityPresent)
    else if p.originalToken == "" || p.replacementToken == "" || p.renderedUnits != |p.renderedToken|
         || p.replacementUnits != |p.replacementToken| then Some(SpanInconsistent)
    else None
  }

  function HandoffOf(plan: RestorePlan): Handoff
  {
    Handoff(plan.renderedToken, plan.replacementToken, plan.renderedUnits, plan.replacementUnits, plan.reason,
            plan.generation, true)
  }

  function CurrentHandoff(p: Processor): Option<Handoff>
  {
    if PlanFault(p.plan).Some? then None else Some(HandoffOf(p.plan.value))
  }

  datatype Revalidation = Current | StaleNoPlan | StaleGeneration | StaleMalformed

  predicate MalformedHandoff(h: Handoff)
  {
    h.renderedToken == "" || h.replacementToken == "" || h.renderedUnits != |h.renderedToken|
    || h.replacementUnits != |h.replacementToken|
  }

  function Revalidate(p: Processor, h: Handoff): Revalidation
  {
    if p.plan.None? then StaleNoPlan
    else if !h.simulationOnly || MalformedHandoff(h) then StaleMalformed
    else if PlanFault(p.plan).Some? then StaleNoPlan
    else if h.generation != p.plan.value.generation || h.renderedToken != p.plan.value.renderedToken
         || h.replacementToken != p.plan.value.replacementToken || h.renderedUnits != p.plan.value.renderedUnits
         || h.replacementUnits != p.plan.value.replacementUnits || h.reason != p.plan.value.reason then StaleGeneration
    else Current
  }

  datatype GateRejection =
    | GateNoCurrentPlan
    | PlanIneligible
    | NoCurrentHandoff
    | HandoffMalformed
    | GateGenerationMismatch
    | SimulationInvariantBroken

  /** `None` is a pass. */
  function Gate(p: Processor, h: Handoff): Option<GateRejection>
  {
    if PlanFault(p.plan).Some? then Some(PlanIneligible)
    else if CurrentHandoff(p).None? then Some(NoCurrentHandoff)
    else if !h.simulationOnly then Some(SimulationInvariantBroken)
    else
      match Revalidate(p, h)
      case Current =>
        if CurrentHandoff(p).value.generation == h.generation then None else Some(GateGenerationMismatch)
      case StaleNoPlan => Some(GateNoCurrentPlan)
      case StaleGeneration => Some(GateGenerationMismatch)
      case StaleMalformed => Some(HandoffMalformed)
  }

  datatype HandoffRequest = HandoffRequest(
    requestId: seq<Unit>,
    renderedToken: string,
    replacementToken: string,
    renderedUnits: nat,
    replacementUnits: nat,
    generation: u64)

  datatype HandoffRequestError = NoCurrentPlan | StaleHandoff | GenerationMismatch | MalformedSpan | InternalGateFailed

  function RequestId(generation: u64): seq<Unit>
  {
    Ascii("handoff-") + Decimal(generation)
  }

  function GateError(rejection: GateRejection): HandoffRequestError
  {
    match rejection
    case GateNoCurrentPlan | PlanIneligible => NoCurrentPlan
    case NoCurrentHandoff => StaleHandoff
    case GateGenerationMismatch => GenerationMismatch
    case HandoffMalformed => MalformedSpan
    case SimulationInvariantBroken => InternalGateFailed
  }

  function BuildHostRequest(p: Processor, h: Handoff): Result<HandoffRequest, HandoffRequestError>
  {
    if CurrentHandoff(p).None? then Failure(NoCurrentPlan)
    else if Gate(p, h).Some? then Failure(GateError(Gate(p, h).value))
    else if MalformedHandoff(h) then Failure(MalformedSpan)
    else Success(HandoffRequest(RequestId(h.generation), h.renderedToken, h.replacementToken, h.renderedUnits,
                                h.replacementUnits, h.generation))
  }

  // ---------------------------------------------------------------------
  // One event
  // ---------------------------------------------------------------------

  function Allocated(next: Option<u64>): Option<u64>
  {
    match next
    case None => None
    case Some(n) => if n == MAX_U64 then None else Some(n + 1)
  }

  function Feed(env: Environment, p: Processor, event: EngineEvent): Processor
    requires TokenInv(p.token)
  {
    p.(token := Process(env.graphemes, p.token, event).0)
  }

  function EvaluateBoundary(env: Environment, p: Processor, boundary: Boundary): Processor
    requires TokenInv(p.token)
  {
    var raw, rendered := p.token.raw, p.token.rendered;
    var cleared := Feed(env, p.(plan := None), AtBoundary(boundary));
    if raw == "" && rendered == "" then cleared else
    var measured := cleared.(lastTokenLengths := Some((ByteLength(raw), ByteLength(rendered))));
    AfterEvidence(measured, raw, rendered, Classify(env, raw, rendered, boundary))
  }

  /** Without a generation left a restore candidate counts as ambiguous and is not counted as completed. */
  function AfterEvidence(p: Processor, raw: string, rendered: string, evidence: Evidence): Processor
  {
    match Decide(evidence)
    case RestoreEnglish(text, reason) =>
      (match p.nextGeneration
       case None => p.(lastDecision := Some(Ambiguous))
       case Some(generation) =>
         p.(plan := Some(RestorePlan(raw, rendered, text, |rendered|, |text|, reason, false, generation)),
            nextGeneration := Allocated(p.nextGeneration),
            lastDecision := Some(RestoreCandidate),
            completedTokens := Bumped(p.completedTokens)))
    case Uncertain => p.(lastDecision := Some(Ambiguous), completedTokens := Bumped(p.completedTokens))
    case KeepVietnamese =>
      p.(lastDecision := Some(if evidence.NotSupported? then UnsupportedToken else Keep),
         completedTokens := Bumped(p.completedTokens))
  }

  lemma EvidenceLeavesToken(p: Processor, raw: string, rendered: string, evidence: Evidence)
    ensures AfterEvidence(p, raw, rendered, evidence).token == p.token
    ensures AfterEvidence(p.(token := EMPTY_TOKEN), raw, rendered, evidence)
            == AfterEvidence(p, raw, rendered, evidence).(token := EMPTY_TOKEN)
  {
  }

  lemma BoundaryClears(env: Environment, token: Token, boundary: Boundary)
    requires TokenInv(token)
    ensures Process(env.graphemes, token, AtBoundary(boundary)).0 == EMPTY_TOKEN
  {
  }

  function BoundaryFor(key: ObservedKey): Option<Boundary>
  {
    match key
    case SpaceKey => Some(Space)
    case EnterKey => Some(Enter)
    case TabKey => Some(Tab)
    case PunctuationKey(mark) => Some(Punctuation(mark))
    case _ => None
  }

  function Lowercase(c: char): char
  {
    if 'A' <= c <= 'Z' then (c as int + 32) as char else c
  }

  function CharacterFor(e: ObservedEvent): Option<char>
  {
    match e.key
    case Letter(letter) => Some(if e.modifiers.shift then letter else Lowercase(letter))
    case DigitKey(digit) => Some((digit + 0x30) as char)
    case _ => None
  }

  function Dropped(p: Processor): Processor
  {
    p.(token := EMPTY_TOKEN, plan := None)
  }

  predicate IsUp(kind: KeyEventKind)
  {
    kind.KeyUp? || kind.SystemKeyUp?
  }

  function WithModifier(p: Processor, modifier: Modifier, active: bool): Processor
  {
    match modifier
    case Control => p.(controlDown := active)
    case Alt => p.(altDown := active)
    case Meta => p.(metaDown := active)
    case Shift => p
  }

  /** A control, alt or meta key is down, by the event or by what was seen before. */
  predicate Shortcut(p: Processor, e: ObservedEvent)
  {
    e.modifiers.control || e.modifiers.alt || e.modifiers.meta || p.controlDown || p.altDown || p.metaDown
  }

  function ProcessObserved(env: Environment, p: Processor, e: ObservedEvent): (Processor, Classification)
    requires TokenInv(p.token)
  {
    if e.origin.MarkedInjected? || e.origin.LowerIntegrityInjected? then
      (p.(injectedEvents := Bumped(p.injectedEvents)), Ignored)
    else if e.key.ModifierKey? then (WithModifier(p, e.key.modifier, !IsUp(e.kind)), Ignored)
    else if IsUp(e.kind) || Shortcut(p, e) then (p, Ignored)
    else if e.key.EscapeKey? then (Dropped(p), Ignored)
    else if e.key.BackspaceKey? then (Feed(env, p.(plan := None), Backspace), Observed)
    else if BoundaryFor(e.key).Some? then (EvaluateBoundary(env, p, BoundaryFor(e.key).value), BoundaryObserved)
    else
      match CharacterFor(e)
      case None => (Dropped(p), UnsupportedEvent)
      case Some(c) =>
        if Process(env.graphemes, p.token, Character(c)).1.Success?
        then (Feed(env, p.(plan := None), Character(c)), Observed)
        else (Dropped(p), UnsupportedEvent)
  }

  function ResetAfterDiscontinuity(p: Processor): Processor
  {
    Dropped(p).(controlDown := false, altDown := false, metaDown := false, resets := Bumped(p.resets))
  }

  datatype Step = Observing(event: ObservedEvent) | Discontinuity

  function After(env: Environment, p: Processor, step: Step): Processor
    requires TokenInv(p.token)
  {
    match step
    case Observing(event) => ProcessObserved(env, p, event).0
    case Discontinuity => ResetAfterDiscontinuity(p)
  }

  // ---------------------------------------------------------------------
  // The processor object
  // ---------------------------------------------------------------------

  class DiagnosticDecisionProcessor {
    const env: Environment
    var telex: Engine
    var completedTokens: u64
    var resets: u64
    var injectedEvents: u64
    var controlDown: bool
    var altDown: bool
    var metaDown: bool
    var lastTokenLengths: Option<(nat, nat)>
    var lastDecision: Option<Decision>
    var plan: Option<RestorePlan>
    var nextGeneration: Option<u64>

    constructor (env: Environment)
      ensures this.env == env && State() == FreshProcessor() && fresh(telex) && fresh(telex.token)
    {
      this.env := env;
      telex := new Engine();
      completedTokens, resets, injectedEvents := 0, 0, 0;
      controlDown, altDown, metaDown := false, false, false;
      lastTokenLengths, lastDecision, plan, nextGeneration := None, None, None, Some(1);
    }

    function State(): Processor
      reads this, telex.token
    {
      Processor(telex.State(), completedTokens, resets, injectedEvents, controlDown, altDown, metaDown,
                lastTokenLengths, lastDecision, plan, nextGeneration)
    }

    method ResetToken()
      modifies `telex
      ensures fresh(telex) && fresh(telex.token)
      ensures State() == old(State()).(token := EMPTY_TOKEN)
    {
      telex := new Engine();
    }

    method AllocatePlanGeneration() returns (generation: Option<u64>)
      modifies `nextGeneration
      ensures generation == old(nextGeneration) && nextGeneration == Allocated(old(nextGeneration))
    {
      generation := nextGeneration;
      if generation.Some? {
        nextGeneration := if generation.value == MAX_U64 then None else Some(generation.value + 1);
      }
    }

    method Settle(raw: string, rendered: string, evidence: Evidence)
      modifies `plan, `nextGeneration, `lastDecision, `completedTokens
      ensures State() == AfterEvidence(old(State()), raw, rendered, evidence)
    {
      var decision;
      match Decide(evidence) {
        case RestoreEnglish(text, reason) =>
          var generation := AllocatePlanGeneration();
          if generation.None? {
            lastDecision := Some(Ambiguous);
            return;
          }
          plan := Some(RestorePlan(raw, rendered, text, |rendered|, |text|, reason, false, generation.value));
          decision := RestoreCandidate;
        case Uncertain => decision := Ambiguous;
        case KeepVietnamese => decision := if evidence.NotSupported? then UnsupportedToken else Keep;
      }
      completedTokens := Bumped(completedTokens);
      lastDecision := Some(decision);
    }

    method Evaluate(boundary: Boundary)
      requires TokenInv(telex.State())
      modifies this, telex.token
      ensures telex == old(telex) && State() == EvaluateBoundary(env, old(State()), boundary)
    {
      hide TokenInv, PlanBetween, BoundaryAction, ByteLength, Classify, Process, AfterEvidence;
      BoundaryClears(env, telex.State(), boundary);
      var raw, rendered := telex.token.rawAscii, telex.token.rendered;
      plan := None;
      if raw != "" || rendered != "" {
        lastTokenLengths := Some((ByteLength(raw), ByteLength(rendered)));
        var evidence := Classify(env, raw, rendered, boundary);
        EvidenceLeavesToken(State(), raw, rendered, evidence);
        Settle(raw, rendered, evidence);
      }
      var _ := telex.ProcessEvent(env.graphemes, AtBoundary(boundary));
    }

    method ProcessEvent(e: ObservedEvent) returns (classification: Classification)
      requires TokenInv(telex.State())
      modifies this, telex.token
      ensures telex == old(telex) || (fresh(telex) && fresh(telex.token))
      ensures (State(), classification) == ProcessObserved(env, old(State()), e)
    {
      hide TokenInv, Compose, PlanBetween, EvaluateBoundary, ByteLength, BoundaryAction;
      if e.origin.MarkedInjected? || e.origin.LowerIntegrityInjected? {
        injectedEvents := Bumped(injectedEvents);
        return Ignored;
      }
      if e.key.ModifierKey? {
        var active := !IsUp(e.kind);
        match e.key.modifier {
          case Control => controlDown := active;
          case Alt => altDown := active;
          case Meta => metaDown := active;
          case Shift =>
        }
        return Ignored;
      }
      if IsUp(e.kind) {
        return Ignored;
      }
      if Shortcut(State(), e) {
        return Ignored;
      }
      if e.key.EscapeKey? {
        ResetToken();
        plan := None;
        return Ignored;
      }
      if e.key.BackspaceKey? {
        plan := None;
        var _ := telex.ProcessEvent(env.graphemes, Backspace);
        return Observed;
      }
      var boundary := BoundaryFor(e.key);
      if boundary.Some? {
        Evaluate(boundary.value);
        return BoundaryObserved;
      }
      var character := CharacterFor(e);
      if character.None? {
        ResetToken();
        plan := None;
        return UnsupportedEvent;
      }
      plan := None;
      var result := telex.ProcessEvent(env.graphemes, Character(character.value));
      if result.Success? {
        return Observed;
      }
      ResetToken();
      plan := None;
      return UnsupportedEvent;
    }

    method DiscontinuityReset()
      modifies this
      ensures fresh(telex) && fresh(telex.token)
      ensures State() == ResetAfterDiscontinuity(old(State()))
    {
      ResetToken();
      plan := None;
      controlDown, altDown, metaDown := false, false, false;
      resets := Bumped(resets);
    }
  }

  // ---------------------------------------------------------------------
  // What every step keeps
  // ---------------------------------------------------------------------

  /** A number no generation handed out so far reaches; the counter stops at the largest one. */
  function NextValue(p: Processor): nat
  {
    match p.nextGeneration
    case Some(n) => n
    case None => MAX_U64 + 1
  }

  /** The plan is the restore of one token and older than the counter. */
  predicate PlanInv(p: Processor)
  {
    p.plan.Some? ==>
      var plan := p.plan.value;
      && plan.generation < NextValue(p) && !plan.executionAllowed
      && plan.originalToken != "" && plan.replacementToken == plan.originalToken && plan.renderedToken != ""
      && Compose(plan.originalToken) == Success(plan.renderedToken) && plan.renderedToken != plan.originalToken
      && plan.renderedUnits == |plan.renderedToken| && plan.replacementUnits == |plan.replacementToken|
  }

  predicate ProcessorInv(p: Processor)
  {
    TokenInv(p.token) && PlanInv(p)
  }

  /** How one step may change the plan and the counter. */
  predicate PlanStep(before: Processor, after: Processor)
  {
    || (after.plan == before.plan && NextValue(after) == NextValue(before))
    || (after.plan == None && NextValue(after) == NextValue(before))
    || (after.plan.Some? && after.plan.value.generation == NextValue(before)
        && NextValue(after) == NextValue(before) + 1)
  }

  lemma EvidenceKeeps(env: Environment, p: Processor, token: Token, boundary: Boundary)
    requires TokenInv(token) && p.plan.None?
    ensures var next := AfterEvidence(p, token.raw, token.rendered, Classify(env, token.raw, token.rendered, boundary));
      PlanInv(next) && PlanStep(p, next) && next.token == p.token
  {
    hide PressAll, FirstNonAscii, Compose;
    if token.raw != "" {
      RenderedIsNotEmpty(token);
    }
  }

  lemma EvaluateKeeps(env: Environment, p: Processor, boundary: Boundary)
    requires ProcessorInv(p)
    ensures ProcessorInv(EvaluateBoundary(env, p, boundary)) && PlanStep(p, EvaluateBoundary(env, p, boundary))
  {
    hide TokenInv, Process, ByteLength, AfterEvidence, Classify;
    EmptyToken();
    BoundaryClears(env, p.token, boundary);
    var lengths := Some((ByteLength(p.token.raw), ByteLength(p.token.rendered)));
    EvidenceKeeps(env, p.(plan := None, token := EMPTY_TOKEN, lastTokenLengths := lengths), p.token, boundary);
  }

  lemma RenderedIsNotEmpty(token: Token)
    requires TokenInv(token) && token.raw != ""
    ensures token.rendered != ""
  {
    hide PressAll;
    ComposedIsAscii(token.raw);
    assert token.raw + "" == token.raw;
    ComposeLength(token.raw, "");
  }

  lemma StepKeeps(env: Environment, p: Processor, step: Step)
    requires ProcessorInv(p)
    ensures ProcessorInv(After(env, p, step)) && PlanStep(p, After(env, p, step))
  {
    hide PressAll, PlanBetween, FirstNonAscii, Compose, EvaluateBoundary, Process, TokenInv;
    EmptyToken();
    if step.Observing? {
      var e := step.event;
      if BoundaryFor(e.key).Some? {
        EvaluateKeeps(env, p, BoundaryFor(e.key).value);
      } else if e.key.BackspaceKey? {
        ProcessKeepsInv(env.graphemes, p.token, Backspace);
      } else if CharacterFor(e).Some? {
        ProcessKeepsInv(env.graphemes, p.token, Character(CharacterFor(e).value));
      }
    }
  }

  /** The processor after the first `n` steps from a fresh one. */
  ghost function StateAt(env: Environment, steps: seq<Step>, n: nat): (p: Processor)
    requires n <= |steps|
    ensures ProcessorInv(p)
  {
    if n == 0 then EmptyToken(); FreshProcessor() else
    var before := StateAt(env, steps, n - 1);
    StepKeeps(env, before, steps[n - 1]);
    After(env, before, steps[n - 1])
  }

  lemma StateSteps(env: Environment, steps: seq<Step>, n: nat)
    requires n < |steps|
    ensures PlanStep(StateAt(env, steps, n), StateAt(env, steps, n + 1))
  {
    hide ProcessorInv, PlanStep, After;
    StepKeeps(env, StateAt(env, steps, n), steps[n]);
  }

  // ---------------------------------------------------------------------
  // Generations are never reused
  // ---------------------------------------------------------------------

  lemma {:induction false} CounterGrows(env: Environment, steps: seq<Step>, i: nat, j: nat)
    requires i <= j <= |steps|
    ensures NextValue(StateAt(env, steps, i)) <= NextValue(StateAt(env, steps, j))
    decreases j
  {
    hide StateAt, NextValue, ProcessorInv, TokenInv;
    if i < j {
      CounterGrows(env, steps, i, j - 1);
      StateSteps(env, steps, j - 1);
    }
  }

  /** Once the plan of a generation is gone it stays gone. */
  predicate Gone(p: Processor, generation: nat)
  {
    generation < NextValue(p) && (p.plan.Some? ==> p.plan.value.generation != generation)
  }

  lemma {:induction false} GoneStaysGone(env: Environment, steps: seq<Step>, i: nat, j: nat, generation: nat)
    requires i <= j <= |steps| && Gone(StateAt(env, steps, i), generation)
    ensures Gone(StateAt(env, steps, j), generation)
    decreases j
  {
    hide StateAt, Gone, PlanStep, ProcessorInv, TokenInv;
    if i < j {
      GoneStaysGone(env, steps, i, j - 1, generation);
      StateSteps(env, steps, j - 1);
      GoneStep(StateAt(env, steps, j - 1), StateAt(env, steps, j), generation);
    }
  }

  lemma GoneStep(before: Processor, after: Processor, generation: nat)
    requires Gone(before, generation) && PlanStep(before, after)
    ensures Gone(after, generation)
  {
    hide NextValue;
  }

  lemma GoneAfterChange(before: Processor, after: Processor)
    requires ProcessorInv(before) && PlanStep(before, after) && before.plan.Some? && after.plan != before.plan
    ensures Gone(after, before.plan.value.generation)
  {
    OlderThanCounter(before);
    hide NextValue, ProcessorInv;
  }

  lemma {:induction false} PlanUntil(env: Environment, steps: seq<Step>, i: nat, k: nat, j: nat)
    requires i <= k <= j <= |steps| && StateAt(env, steps, i).plan.Some?
    requires !Gone(StateAt(env, steps, j), StateAt(env, steps, i).plan.value.generation)
    ensures StateAt(env, steps, k).plan == StateAt(env, steps, i).plan
    decreases k
  {
    hide StateAt, Gone, PlanStep, ProcessorInv, TokenInv;
    if i < k {
      PlanUntil(env, steps, i, k - 1, j);
      var before, after := StateAt(env, steps, k - 1), StateAt(env, steps, k);
      StateSteps(env, steps, k - 1);
      if after.plan != before.plan {
        GoneAfterChange(before, after);
        GoneStaysGone(env, steps, k, j, before.plan.value.generation);
      }
    }
  }

  /**
   * Two moments of a run at which plans of one generation are current have the
   * same plan, and it was current at every moment between.
   */
  lemma GenerationNamesPlan(env: Environment, steps: seq<Step>, i: nat, j: nat)
    requires i <= j <= |steps| && StateAt(env, steps, i).plan.Some? && StateAt(env, steps, j).plan.Some?
    requires StateAt(env, steps, i).plan.value.generation == StateAt(env, steps, j).plan.value.generation
    ensures forall k :: i <= k <= j ==> StateAt(env, steps, k).plan == StateAt(env, steps, i).plan
  {
    hide StateAt, NextValue, ProcessorInv, TokenInv;
    forall k | i <= k <= j
      ensures StateAt(env, steps, k).plan == StateAt(env, steps, i).plan
    {
      PlanUntil(env, steps, i, k, j);
    }
  }

  lemma OlderThanCounter(p: Processor)
    requires ProcessorInv(p) && p.plan.Some?
    ensures p.plan.value.generation < NextValue(p)
  {
  }

  /** The plan of a later moment has a larger generation, unless it is the same plan. */
  lemma {:induction false} GenerationsIncrease(env: Environment, steps: seq<Step>, i: nat, j: nat)
    requires i <= j <= |steps| && StateAt(env, steps, i).plan.Some? && StateAt(env, steps, j).plan.Some?
    ensures StateAt(env, steps, j).plan == StateAt(env, steps, i).plan
            || StateAt(env, steps, i).plan.value.generation < StateAt(env, steps, j).plan.value.generation
    decreases j
  {
    hide StateAt, NextValue, ProcessorInv, TokenInv;
    if i < j {
      OlderThanCounter(StateAt(env, steps, i));
      CounterGrows(env, steps, i, j - 1);
      StateSteps(env, steps, j - 1);
      if StateAt(env, steps, j).plan == StateAt(env, steps, j - 1).plan {
        GenerationsIncrease(env, steps, i, j - 1);
      }
    }
  }

  // ---------------------------------------------------------------------
  // Handoffs
  // ---------------------------------------------------------------------

  lemma CurrentPlanIsEligible(p: Processor)
    requires ProcessorInv(p)
    ensures CurrentHandoff(p) == match p.plan case None => None case Some(plan) => Some(HandoffOf(plan))
  {
    hide Compose;
  }

  lemma RevalidatesIff(p: Processor, h: Handoff)
    requires ProcessorInv(p)
    ensures Revalidate(p, h).Current? <==> p.plan.Some? && h == HandoffOf(p.plan.value)
  {
    hide Compose;
  }

  /**
   * Any submitted handoff reaches a host request exactly when it is the one a
   * capture of the current state would give.
   */
  lemma BuildsRequestIff(p: Processor, h: Handoff)
    requires ProcessorInv(p)
    ensures BuildHostRequest(p, h).Success? <==> CurrentHandoff(p) == Some(h)
    ensures CurrentHandoff(p) == Some(h) ==>
              Gate(p, h).None? && BuildHostRequest(p, h).value.requestId == RequestId(p.plan.value.generation)
  {
    hide Compose, RequestId;
    RevalidatesIff(p, h);
    CurrentPlanIsEligible(p);
  }

  /**
   * A handoff captured at one moment revalidates at a later one exactly when
   * its plan has been the current plan all the time between; so once stale it
   * stays stale.
   */
  lemma HandoffFreshness(env: Environment, steps: seq<Step>, i: nat, j: nat, h: Handoff)
    requires i <= j <= |steps| && CurrentHandoff(StateAt(env, steps, i)) == Some(h)
    ensures Revalidate(StateAt(env, steps, j), h).Current?
            <==> forall k :: i <= k <= j ==> StateAt(env, steps, k).plan == StateAt(env, steps, i).plan
  {
    var first, last := StateAt(env, steps, i), StateAt(env, steps, j);
    hide StateAt, ProcessorInv, Revalidate, CurrentHandoff;
    CurrentPlanIsEligible(first);
    RevalidatesIff(last, h);
    if Revalidate(last, h).Current? {
      GenerationNamesPlan(env, steps, i, j);
    }
  }

  lemma RequestIdsTellApart(g: u64, h: u64)
    ensures RequestId(g) == RequestId(h) ==> g == h
  {
    hide Decimal;
    var prefix := Ascii("handoff-");
    assert (prefix + Decimal(g))[|prefix|..] == Decimal(g) && (prefix + Decimal(h))[|prefix|..] == Decimal(h);
    if RequestId(g) == RequestId(h) {
      DecimalInjective(g, h);
    }
  }

  /** Over a whole run one request id never names two different requests. */
  lemma RequestIdNamesRequest(env: Environment, steps: seq<Step>, i: nat, j: nat, g: Handoff, h: Handoff)
    requires i <= j <= |steps|
    requires BuildHostRequest(StateAt(env, steps, i), g).Success?
    requires BuildHostRequest(StateAt(env, steps, j), h).Success?
    ensures var q, r := BuildHostRequest(StateAt(env, steps, i), g).value,
                        BuildHostRequest(StateAt(env, steps, j), h).value;
      q.requestId == r.requestId ==> q == r
  {
    var first, last := StateAt(env, steps, i), StateAt(env, steps, j);
    hide StateAt, ProcessorInv, Gate, CurrentHandoff, RequestId;
    BuildsRequestIff(first, g);
    BuildsRequestIff(last, h);
    CurrentPlanIsEligible(first);
    CurrentPlanIsEligible(last);
    RequestIdsTellApart(g.generation, h.generation);
    if g.generation == h.generation {
      GenerationNamesPlan(env, steps, i, j);
      assert StateAt(env, steps, j).plan == first.plan;
    }
  }

  /** The replacement of every current plan is the raw token it would restore, and composing it gives what is shown. */
  lemma PlanRestoresRaw(env: Environment, steps: seq<Step>, n: nat)
    requires n <= |steps| && Segments(env.graphemes) && StateAt(env, steps, n).plan.Some?
    ensures var plan := StateAt(env, steps, n).plan.value;
      && Compose(plan.replacementToken) == Success(plan.renderedToken)
      && plan.renderedToken != plan.replacementToken && plan.renderedToken != ""
      && Applied(env.graphemes, plan.renderedToken,
                 PlanBetween(env.graphemes, plan.renderedToken, plan.replacementToken))
         == plan.originalToken
  {
    var p := StateAt(env, steps, n);
    hide StateAt, Compose, Applied, PlanBetween;
    PlanReplays(env.graphemes, p.plan.value.renderedToken, p.plan.value.replacementToken);
  }

  // ---------------------------------------------------------------------
  // Which input keeps, drops or issues a plan
  // ---------------------------------------------------------------------

  /** Injected input, modifier keys, key releases and shortcuts are not text. */
  predicate Disregarded(p: Processor, e: ObservedEvent)
  {
    e.origin.MarkedInjected? || e.origin.LowerIntegrityInjected? || e.key.ModifierKey? || IsUp(e.kind) || Shortcut(p, e)
  }

  /** Disregarded input leaves token and plan alone; any other key but a boundary drops the plan. */
  lemma PlanFate(env: Environment, p: Processor, e: ObservedEvent)
    requires ProcessorInv(p)
    ensures var (after, classification) := ProcessObserved(env, p, e);
      && (Disregarded(p, e) ==>
            classification.Ignored? && after.token == p.token && after.plan == p.plan
            && after.nextGeneration == p.nextGeneration)
      && (!Disregarded(p, e) && BoundaryFor(e.key).None? ==>
            after.plan.None? && after.nextGeneration == p.nextGeneration)
  {
    hide Compose, Process, EvaluateBoundary, TokenInv;
  }

  /** A token that composition changed, that a dictionary knows and no pattern protects. */
  predicate IsRestorable(env: Environment, token: Token)
  {
    token.raw != "" && token.rendered != token.raw && !env.neverTransform(token.raw) && env.dictionary(token.raw).Some?
  }

  /** A boundary issues a plan exactly for a restorable token while generations last, with the next generation. */
  lemma PlanIssuedIff(env: Environment, p: Processor, boundary: Boundary)
    requires ProcessorInv(p) && !boundary.UnknownBoundary?
    ensures var after := EvaluateBoundary(env, p, boundary);
      && after.token == EMPTY_TOKEN
      && (after.plan.Some? <==> IsRestorable(env, p.token) && p.nextGeneration.Some?)
      && (after.plan.Some? ==>
            && after.plan.value.generation == p.nextGeneration.value
            && after.plan.value.originalToken == p.token.raw && after.plan.value.renderedToken == p.token.rendered)
  {
    hide Compose, Process, ByteLength, TokenInv;
    ComposedIsAscii(p.token.raw);
    BoundaryClears(env, p.token, boundary);
    assert TokenInv(p.token) ==> AllAscii(p.token.raw) by {
      RawIsAscii(p.token);
    }
  }

  lemma RawIsAscii(token: Token)
    ensures TokenInv(token) ==> AllAscii(token.raw)
  {
    ComposedIsAscii(token.raw);
    hide Compose;
  }

  function LetterEvent(letter: AsciiLetter): ObservedEvent
  {
    ObservedEvent(Letter(letter), KeyDown, Modifiers(false, false, false, false), PhysicalOrUnmarked)
  }

  function Lowered(word: seq<AsciiLetter>): string
  {
    if word == [] then "" else Lowered(word[..|word| - 1]) + [Lowercase(word[|word| - 1])]
  }

  /** Typing the letters of a word one by one. */
  ghost function Typed(env: Environment, p: Processor, word: seq<AsciiLetter>): (after: Processor)
    requires ProcessorInv(p)
    ensures ProcessorInv(after)
  {
    if word == [] then p else
    var before := Typed(env, p, word[..|word| - 1]);
    StepKeeps(env, before, Observing(LetterEvent(word[|word| - 1])));
    ProcessObserved(env, before, LetterEvent(word[|word| - 1])).0
  }

  lemma TypedLetter(env: Environment, p: Processor, letter: AsciiLetter)
    requires ProcessorInv(p) && !p.controlDown && !p.altDown && !p.metaDown
    ensures var after := ProcessObserved(env, p, LetterEvent(letter)).0;
      && after == p.(token := after.token, plan := None)
      && TokenInv(after.token) && after.token.raw == p.token.raw + [Lowercase(letter)]
  {
    hide Compose, PlanBetween, Rendering, TokenInv;
    LetterIsNoBoundary(Lowercase(letter));
    ProcessKeepsInv(env.graphemes, p.token, Character(Lowercase(letter)));
  }

  lemma LetterIsNoBoundary(c: char)
    ensures 'a' <= c <= 'z' ==> BoundaryOf(c).None? && IsAscii(c)
  {
  }

  lemma {:induction false} TypedWord(env: Environment, p: Processor, word: seq<AsciiLetter>)
    requires ProcessorInv(p) && p.token == EMPTY_TOKEN && !p.controlDown && !p.altDown && !p.metaDown
    ensures var after := Typed(env, p, word);
      && after == p.(token := after.token, plan := after.plan)
      && after.token.raw == Lowered(word) && TokenInv(after.token)
  {
    hide ProcessorInv, TokenInv, ProcessObserved;
    InvParts(p);
    if word != [] {
      var before := word[..|word| - 1];
      TypedWord(env, p, before);
      TypedLetter(env, Typed(env, p, before), word[|word| - 1]);
    }
  }

  lemma InvParts(p: Processor)
    requires ProcessorInv(p)
    ensures TokenInv(p.token)
  {
  }

  /**
   * End to end: typing a word of letters and a space makes a host request
   * available exactly when composing the lowercased word changes it, a
   * dictionary knows it and no pattern protects it; the request then carries
   * the composed text, the word, and the id of the next generation.
   */
  lemma TypedWordRequests(env: Environment, p: Processor, word: seq<AsciiLetter>)
    requires ProcessorInv(p) && p.token == EMPTY_TOKEN && !p.controlDown && !p.altDown && !p.metaDown
    requires p.nextGeneration.Some?
    ensures AllAscii(Lowered(word))
    ensures var after := EvaluateBoundary(env, Typed(env, p, word), Space);
      var lowered := Lowered(word);
      var rendered := Compose(lowered).value;
      CurrentHandoff(after).Some?
      <==> lowered != "" && rendered != lowered && !env.neverTransform(lowered) && env.dictionary(lowered).Some?
    ensures var after := EvaluateBoundary(env, Typed(env, p, word), Space);
      CurrentHandoff(after).Some? ==>
        var built := BuildHostRequest(after, CurrentHandoff(after).value);
        && built.Success? && built.value.requestId == RequestId(p.nextGeneration.value)
        && built.value.replacementToken == Lowered(word) && Success(built.value.renderedToken) == Compose(Lowered(word))
  {
    hide ProcessorInv, EvaluateBoundary, Typed, CurrentHandoff, BuildHostRequest, Gate, RequestId, FirstNonAscii;
    hide PressAll;
    var typed := Typed(env, p, word);
    TypedWord(env, p, word);
    ComposedIsAscii(typed.token.raw);
    EvaluateKeeps(env, typed, Space);
    var after := EvaluateBoundary(env, typed, Space);
    PlanIssuedIff(env, typed, Space);
    CurrentPlanIsEligible(after);
    if CurrentHandoff(after).Some? {
      BuildsRequestIff(after, CurrentHandoff(after).value);
      BuiltFields(after, CurrentHandoff(after).value);
      PlanReplacesOriginal(after);
    }
  }

  lemma BuiltFields(p: Processor, h: Handoff)
    requires BuildHostRequest(p, h).Success?
    ensures BuildHostRequest(p, h).value.renderedToken == h.renderedToken
    ensures BuildHostRequest(p, h).value.replacementToken == h.replacementToken
  {
    hide Gate, CurrentHandoff, RequestId;
  }

  lemma PlanReplacesOriginal(p: Processor)
    requires ProcessorInv(p) && p.plan.Some?
    ensures p.plan.value.replacementToken == p.plan.value.originalToken
  {
    hide Compose;
  }
}
