/**
 * What a run of observed keys amounts to, told from the events alone: which
 * keys reach the token, what the raw token is, and which plan is current.
 */
module KeyRuns {
  import opened Wrappers
  import opened Bytes
  import opened Printing
  import opened Telex
  import opened TokenEdits
  import opened TelexEngine
  import opened Decisions

  // ---------------------------------------------------------------------
  // Modifier keys over a run
  // ---------------------------------------------------------------------

  predicate Injected(e: ObservedEvent)
  {
    e.origin == MarkedInjected || e.origin == LowerIntegrityInjected
  }

  predicate IsDown(kind: KeyEventKind)
  {
    kind == KeyDown || kind == SystemKeyDown
  }

  /** The user presses or releases the modifier. */
  predicate Moves(step: Step, modifier: Modifier)
  {
    step.Observing? && !Injected(step.event) && step.event.key == ModifierKey(modifier)
  }

  /** Step `j` pressed the modifier, and since then it was neither moved nor was continuity lost. */
  predicate HeldSince(steps: seq<Step>, n: nat, modifier: Modifier, j: nat)
    requires n <= |steps|
  {
    && j < n && Moves(steps[j], modifier) && IsDown(steps[j].event.kind)
    && forall k :: j < k < n ==> !Moves(steps[k], modifier) && !steps[k].Discontinuity?
  }

  predicate Held(steps: seq<Step>, n: nat, modifier: Modifier)
    requires n <= |steps|
  {
    exists j: nat :: j < n && HeldSince(steps, n, modifier, j)
  }

  lemma HeldNext(steps: seq<Step>, n: nat, modifier: Modifier)
    requires n < |steps|
    ensures Held(steps, n + 1, modifier)
         == if steps[n].Discontinuity? then false
            else if Moves(steps[n], modifier) then IsDown(steps[n].event.kind)
            else Held(steps, n, modifier)
  {
    if j: nat :| HeldSince(steps, n, modifier, j) && !steps[n].Discontinuity? && !Moves(steps[n], modifier) {
      assert HeldSince(steps, n + 1, modifier, j);
    }
    var next := n + 1;
    if j: nat :| HeldSince(steps, next, modifier, j) && j < n {
      assert HeldSince(steps, n, modifier, j);
    }
    if Moves(steps[n], modifier) && IsDown(steps[n].event.kind) {
      assert HeldSince(steps, n + 1, modifier, n);
    }
  }

  lemma ModifierStep(env: Environment, p: Processor, step: Step)
    requires TokenInv(p.token)
    ensures var after := Decisions.After(env, p, step);
      && after.controlDown == Moved(step, Control, p.controlDown)
      && after.altDown == Moved(step, Alt, p.altDown)
      && after.metaDown == Moved(step, Meta, p.metaDown)
  {
    hide TokenInv, Process, Classify, ByteLength, Decide;
  }

  function Moved(step: Step, modifier: Modifier, before: bool): bool
  {
    if step.Discontinuity? then false else if Moves(step, modifier) then IsDown(step.event.kind) else before
  }

  /** A modifier counts as down exactly while it is held; so one that is released stops nothing. */
  lemma {:induction false} ModifiersAreHeld(env: Environment, steps: seq<Step>, n: nat)
    requires n <= |steps|
    ensures StateAt(env, steps, n).controlDown <==> Held(steps, n, Control)
    ensures StateAt(env, steps, n).altDown <==> Held(steps, n, Alt)
    ensures StateAt(env, steps, n).metaDown <==> Held(steps, n, Meta)
  {
    hide Held, Moves, Decisions.After, ProcessorInv, IsDown;
    if n == 0 {
      NothingHeld(steps);
    } else {
      ModifiersAreHeld(env, steps, n - 1);
      var before := StateAt(env, steps, n - 1);
      InvParts(before);
      ModifierStep(env, before, steps[n - 1]);
      HeldNext(steps, n - 1, Control);
      HeldNext(steps, n - 1, Alt);
      HeldNext(steps, n - 1, Meta);
    }
  }

  /** A modifier last moved by a release is not held, whatever was pressed before. */
  lemma ReleasedIsNotHeld(steps: seq<Step>, n: nat, modifier: Modifier, j: nat)
    requires j < n <= |steps| && Moves(steps[j], modifier) && !IsDown(steps[j].event.kind)
    requires forall k :: j < k < n ==> !Moves(steps[k], modifier)
    ensures !Held(steps, n, modifier)
  {
    if Held(steps, n, modifier) {
      var i: nat :| i < n && HeldSince(steps, n, modifier, i);
      assert false;
    }
  }

  lemma NothingHeld(steps: seq<Step>)
    ensures !Held(steps, 0, Control) && !Held(steps, 0, Alt) && !Held(steps, 0, Meta)
  {
  }

  // ---------------------------------------------------------------------
  // What reaches the token, and what is fed to it
  // ---------------------------------------------------------------------

  /** A key pressed by the user that is no modifier, with no shortcut key down. */
  predicate Reaches(steps: seq<Step>, n: nat)
    requires n < |steps|
  {
    steps[n].Observing? &&
    var e := steps[n].event;
    && !Injected(e) && IsDown(e.kind) && !e.key.ModifierKey?
    && !e.modifiers.control && !e.modifiers.alt && !e.modifiers.meta
    && !Held(steps, n, Control) && !Held(steps, n, Alt) && !Held(steps, n, Meta)
  }

  lemma ReachesUnlessDisregarded(env: Environment, steps: seq<Step>, n: nat)
    requires n < |steps| && steps[n].Observing?
    ensures Reaches(steps, n) <==> !Disregarded(StateAt(env, steps, n), steps[n].event)
  {
    hide StateAt, Held, ProcessorInv;
    ModifiersAreHeld(env, steps, n);
  }

  const SMALL := "abcdefghijklmnopqrstuvwxyz"
  const CAPITAL := "ABCDEFGHIJKLMNOPQRSTUVWXYZ"

  /** Letters are typed small unless the event says shift; digits are typed as they are. */
  lemma CharactersTyped(e: ObservedEvent, i: nat)
    ensures |SMALL| == |CAPITAL| == 26
    ensures i < 26 && (e.key == Letter(CAPITAL[i]) || e.key == Letter(SMALL[i]))
      ==> CharacterFor(e) == Some(if e.modifiers.shift then e.key.letter else SMALL[i])
    ensures i < 10 && e.key == DigitKey(i) ==> CharacterFor(e) == Some("0123456789"[i])
    ensures CharacterFor(e).Some? <==> e.key.Letter? || e.key.DigitKey?
  {
    hide SMALL, CAPITAL;
    AlphabetAt(i);
    if i < 10 {
      DigitAt(i);
    }
  }

  lemma AlphabetAt(i: nat)
    ensures |SMALL| == |CAPITAL| == 26
    ensures i < 26 ==> SMALL[i] == ('a' as int + i) as char && CAPITAL[i] == ('A' as int + i) as char
  {
  }

  lemma DigitAt(i: nat)
    requires i < 10
    ensures "0123456789"[i] == ('0' as int + i) as char
  {
  }

  /** The raw token after `n` steps, told from the events. */
  function RawAfter(steps: seq<Step>, n: nat): string
    requires n <= |steps|
  {
    if n == 0 || steps[n - 1].Discontinuity? then ""
    else if !Reaches(steps, n - 1) then RawAfter(steps, n - 1)
    else RawAfterKey(RawAfter(steps, n - 1), steps[n - 1].event)
  }

  function RawAfterKey(raw: string, e: ObservedEvent): string
  {
    match e.key
    case Letter(_) | DigitKey(_) => raw + (match CharacterFor(e) case Some(c) => [c] case None => "")
    case BackspaceKey => if raw == "" then "" else raw[..|raw| - 1]
    case _ => ""
  }

  function ReportedFor(key: ObservedKey): Classification
  {
    match key
    case Letter(_) | DigitKey(_) | BackspaceKey => Observed
    case SpaceKey | EnterKey | TabKey | PunctuationKey(_) => BoundaryObserved
    case EscapeKey => Ignored
    case OtherKey | ModifierKey(_) => UnsupportedEvent
  }

  /** A key that reaches the token changes its raw keys, and is reported, by the key alone. */
  lemma KeyStep(env: Environment, p: Processor, e: ObservedEvent)
    requires ProcessorInv(p) && !Disregarded(p, e)
    ensures var (after, classification) := ProcessObserved(env, p, e);
      after.token.raw == RawAfterKey(p.token.raw, e) && classification == ReportedFor(e.key)
  {
    hide Compose, PlanBetween, EvaluateBoundary, AllAscii, FirstNonAscii, Disregarded;
    InvParts(p);
    hide ProcessorInv, TokenInv;
    if CharacterFor(e).Some? {
      CharacterIsPlain(e);
    }
    ReachingKey(p, e);
    if BoundaryFor(e.key).Some? {
      BoundaryEmpties(env, p, BoundaryFor(e.key).value);
    }
  }

  lemma ReachingKey(p: Processor, e: ObservedEvent)
    requires !Disregarded(p, e)
    ensures !e.origin.MarkedInjected? && !e.origin.LowerIntegrityInjected? && !e.key.ModifierKey?
    ensures !IsUp(e.kind) && !Shortcut(p, e)
  {
  }

  lemma CharacterIsPlain(e: ObservedEvent)
    requires CharacterFor(e).Some?
    ensures BoundaryOf(CharacterFor(e).value).None? && IsAscii(CharacterFor(e).value)
  {
  }

  lemma BoundaryEmpties(env: Environment, p: Processor, boundary: Boundary)
    requires TokenInv(p.token)
    ensures EvaluateBoundary(env, p, boundary).token == EMPTY_TOKEN
  {
    hide TokenInv, Process, ByteLength, AfterEvidence, Classify;
    BoundaryClears(env, p.token, boundary);
    EvidenceAnyToken(env, p, boundary);
  }

  lemma EvidenceAnyToken(env: Environment, p: Processor, boundary: Boundary)
    requires TokenInv(p.token)
    ensures var after := EvaluateBoundary(env, p, boundary);
      after.token == Process(env.graphemes, p.token, AtBoundary(boundary)).0
  {
    hide TokenInv, Process, ByteLength, Classify, Decide;
  }

  /** The raw token, and with it the text shown, depends on the events alone. */
  lemma {:induction false} RawOfRun(env: Environment, steps: seq<Step>, n: nat)
    requires n <= |steps|
    ensures StateAt(env, steps, n).token.raw == RawAfter(steps, n)
    ensures Compose(RawAfter(steps, n)) == Success(StateAt(env, steps, n).token.rendered)
  {
    hide Compose, RawAfterKey, Reaches, Disregarded, ProcessObserved;
    if n > 0 {
      RawOfRun(env, steps, n - 1);
      var before := StateAt(env, steps, n - 1);
      if steps[n - 1].Observing? {
        ReachesUnlessDisregarded(env, steps, n - 1);
        if Reaches(steps, n - 1) {
          KeyStep(env, before, steps[n - 1].event);
        } else {
          PlanFate(env, before, steps[n - 1].event);
        }
      }
    }
    InvParts(StateAt(env, steps, n));
  }

  /** What is reported for an event of a run. */
  lemma ReportOfRun(env: Environment, steps: seq<Step>, n: nat)
    requires n < |steps| && steps[n].Observing?
    ensures TokenInv(StateAt(env, steps, n).token)
    ensures ProcessObserved(env, StateAt(env, steps, n), steps[n].event).1
         == if Reaches(steps, n) then ReportedFor(steps[n].event.key) else Ignored
  {
    var p := StateAt(env, steps, n);
    hide StateAt, Compose, Reaches, Disregarded, ProcessObserved, ReportedFor;
    ReachesUnlessDisregarded(env, steps, n);
    InvParts(p);
    if Reaches(steps, n) {
      KeyStep(env, p, steps[n].event);
    } else {
      PlanFate(env, p, steps[n].event);
    }
  }

  // ---------------------------------------------------------------------
  // The current plan of a run
  // ---------------------------------------------------------------------

  /** Composing changes the word, a dictionary knows it and no pattern protects it. */
  predicate Restorable(env: Environment, raw: string)
  {
    raw != "" && Compose(raw) != Success(raw) && !env.neverTransform(raw) && env.dictionary(raw).Some?
  }

  /** The step ends a restorable word. */
  predicate Completes(env: Environment, steps: seq<Step>, n: nat)
    requires n < |steps|
  {
    Reaches(steps, n) && ReportedFor(steps[n].event.key) == BoundaryObserved && Restorable(env, RawAfter(steps, n))
  }

  /** How many restorable words the first `n` steps end. */
  function Completed(env: Environment, steps: seq<Step>, n: nat): nat
    requires n <= |steps|
  {
    if n == 0 then 0 else Completed(env, steps, n - 1) + if Completes(env, steps, n - 1) then 1 else 0
  }

  /** Step `j` ended a restorable word while a generation was left, and nothing has reached the token since. */
  predicate IssuedAt(env: Environment, steps: seq<Step>, n: nat, j: nat)
    requires n <= |steps|
  {
    && j < n && Completes(env, steps, j) && Completed(env, steps, j) < MAX_U64
    && forall k :: j < k < n ==> steps[k].Observing? && !Reaches(steps, k)
  }

  /** The plan that gives the word back in place of what is shown. */
  function PlanFor(env: Environment, raw: string, generation: u64): RestorePlan
    requires Restorable(env, raw) && AllAscii(raw)
  {
    ComposedIsAscii(raw);
    var rendered := Compose(raw).value;
    RestorePlan(raw, rendered, raw, |rendered|, |raw|, env.dictionary(raw).value, false, generation)
  }

  lemma BoundaryStep(env: Environment, p: Processor, boundary: Boundary)
    requires ProcessorInv(p) && !boundary.UnknownBoundary?
    ensures AllAscii(p.token.raw)
    ensures var after := EvaluateBoundary(env, p, boundary);
      if Restorable(env, p.token.raw) && p.nextGeneration.Some?
      then after.plan == Some(PlanFor(env, p.token.raw, p.nextGeneration.value))
           && after.nextGeneration == Allocated(p.nextGeneration)
      else after.plan.None? && after.nextGeneration == p.nextGeneration
  {
    hide Compose, Process, ByteLength, TokenInv;
    InvParts(p);
    TokenParts(p.token);
  }

  lemma TokenParts(token: Token)
    requires TokenInv(token)
    ensures AllAscii(token.raw) && Compose(token.raw) == Success(token.rendered)
  {
    RawIsAscii(token);
    hide AllAscii;
  }

  /** One step: only a key that reaches the token touches the plan. */
  lemma PlanOfStep(env: Environment, steps: seq<Step>, n: nat)
    requires n < |steps|
    ensures AllAscii(RawAfter(steps, n))
    ensures var p, after := StateAt(env, steps, n), StateAt(env, steps, n + 1);
      if steps[n].Observing? && !Reaches(steps, n)
      then after.plan == p.plan && after.nextGeneration == p.nextGeneration
      else if Completes(env, steps, n) && p.nextGeneration.Some?
      then after.plan == Some(PlanFor(env, RawAfter(steps, n), p.nextGeneration.value))
           && after.nextGeneration == Allocated(p.nextGeneration)
      else after.plan.None? && after.nextGeneration == p.nextGeneration
  {
    hide *;
    var p := StateAt(env, steps, n);
    RawOfRun(env, steps, n);
    NextState(env, steps, n);
    CompletesIff(env, steps, n);
    InvParts(p);
    TokenParts(p.token);
    if steps[n].Discontinuity? {
      DiscontinuityStep(env, p);
    } else {
      var e := steps[n].event;
      ReachesUnlessDisregarded(env, steps, n);
      PlanFate(env, p, e);
      if Reaches(steps, n) && BoundaryFor(e.key).Some? {
        BoundaryIsKnown(e.key);
        BoundaryStep(env, p, BoundaryFor(e.key).value);
        ReachingKey(p, e);
        BoundaryEvent(env, p, e);
      }
    }
  }

  lemma NextState(env: Environment, steps: seq<Step>, n: nat)
    requires n < |steps|
    ensures TokenInv(StateAt(env, steps, n).token)
    ensures StateAt(env, steps, n + 1) == Decisions.After(env, StateAt(env, steps, n), steps[n])
    ensures steps[n].Observing?
      ==> StateAt(env, steps, n + 1) == ProcessObserved(env, StateAt(env, steps, n), steps[n].event).0
  {
    hide ProcessObserved, TokenInv, PlanInv;
  }

  lemma CompletesIff(env: Environment, steps: seq<Step>, n: nat)
    requires n < |steps|
    ensures Completes(env, steps, n) <==>
      && Reaches(steps, n) && steps[n].Observing? && BoundaryFor(steps[n].event.key).Some?
      && Restorable(env, RawAfter(steps, n))
  {
    hide Restorable, RawAfter;
  }

  lemma BoundaryIsKnown(key: ObservedKey)
    requires BoundaryFor(key).Some?
    ensures !BoundaryFor(key).value.UnknownBoundary?
  {
  }

  lemma DiscontinuityStep(env: Environment, p: Processor)
    requires TokenInv(p.token)
    ensures var after := Decisions.After(env, p, Discontinuity);
      after.plan.None? && after.nextGeneration == p.nextGeneration
  {
  }

  lemma BoundaryEvent(env: Environment, p: Processor, e: ObservedEvent)
    requires TokenInv(p.token) && !Disregarded(p, e) && BoundaryFor(e.key).Some?
    ensures ProcessObserved(env, p, e).0 == EvaluateBoundary(env, p, BoundaryFor(e.key).value)
  {
    hide TokenInv, EvaluateBoundary, Process;
  }

  /** The counter is one more than the words completed, until it stops. */
  lemma {:induction false} GenerationsOfRun(env: Environment, steps: seq<Step>, n: nat)
    requires n <= |steps|
    ensures NextValue(StateAt(env, steps, n))
         == if Completed(env, steps, n) < MAX_U64 then Completed(env, steps, n) + 1 else MAX_U64 + 1
  {
    hide *;
    CompletedNext(env, steps, n);
    NextGenerationIs(StateAt(env, steps, n));
    if n == 0 {
      NoPlanAtFirst(env, steps);
    } else {
      GenerationsOfRun(env, steps, n - 1);
      PlanOfStep(env, steps, n - 1);
      CompletesReaches(env, steps, n - 1);
      var before := StateAt(env, steps, n - 1);
      NextGenerationIs(before);
      AllocatedNext(before.nextGeneration);
    }
  }

  lemma CompletedNext(env: Environment, steps: seq<Step>, n: nat)
    requires n <= |steps|
    ensures Completed(env, steps, n)
         == if n == 0 then 0 else Completed(env, steps, n - 1) + if Completes(env, steps, n - 1) then 1 else 0
  {
    hide Completes;
  }

  lemma AllocatedNext(next: Option<u64>)
    ensures match next
      case None => Allocated(next) == None
      case Some(n) => Allocated(next) == if n == MAX_U64 then None else Some(n + 1)
  {
  }

  lemma CompletesReaches(env: Environment, steps: seq<Step>, n: nat)
    requires n < |steps|
    ensures Completes(env, steps, n) ==> Reaches(steps, n) && steps[n].Observing? && Restorable(env, RawAfter(steps, n))
  {
    hide Restorable, RawAfter;
  }

  /**
   * A plan is current exactly when some step ended a restorable word while a
   * generation was left and nothing has reached the token since; it restores
   * that word, and its generation counts the words completed before.
   */
  lemma {:induction false} PlanOfRun(env: Environment, steps: seq<Step>, n: nat)
    requires n <= |steps|
    ensures StateAt(env, steps, n).plan.Some? <==> exists j: nat :: j < n && IssuedAt(env, steps, n, j)
    ensures forall j: nat | j < n && IssuedAt(env, steps, n, j) ::
      && Restorable(env, RawAfter(steps, j)) && AllAscii(RawAfter(steps, j))
      && StateAt(env, steps, n).plan == Some(PlanFor(env, RawAfter(steps, j), Completed(env, steps, j) + 1))
  {
    hide *;
    if n == 0 {
      NoPlanAtFirst(env, steps);
    } else {
      var last := n - 1;
      PlanOfRun(env, steps, last);
      PlanOfStep(env, steps, last);
      GenerationsOfRun(env, steps, last);
      CompletesReaches(env, steps, last);
      NextGenerationIs(StateAt(env, steps, last));
      forall j: nat | j < n
        ensures IssuedAt(env, steps, n, j) <==>
          if j == last then Completes(env, steps, last) && Completed(env, steps, last) < MAX_U64
          else IssuedAt(env, steps, last, j) && steps[last].Observing? && !Reaches(steps, last)
      {
        IssuedNext(env, steps, last, j);
      }
      if j: nat :| j < last && IssuedAt(env, steps, last, j) && steps[last].Observing? && !Reaches(steps, last) {
        assert IssuedAt(env, steps, n, j);
      }
      if Completes(env, steps, last) && Completed(env, steps, last) < MAX_U64 {
        assert IssuedAt(env, steps, n, last);
      }
    }
  }

  lemma NextGenerationIs(p: Processor)
    ensures p.nextGeneration.Some? <==> NextValue(p) <= MAX_U64
    ensures p.nextGeneration.None? ==> NextValue(p) == MAX_U64 + 1
    ensures p.nextGeneration.Some? ==> p.nextGeneration.value == NextValue(p)
  {
  }

  lemma NoPlanAtFirst(env: Environment, steps: seq<Step>)
    ensures StateAt(env, steps, 0).plan.None? && StateAt(env, steps, 0).nextGeneration == Some(1)
  {
  }

  lemma IssuedNext(env: Environment, steps: seq<Step>, n: nat, j: nat)
    requires n < |steps| && j <= n
    ensures IssuedAt(env, steps, n + 1, j) <==>
      if j == n then Completes(env, steps, n) && Completed(env, steps, n) < MAX_U64
      else IssuedAt(env, steps, n, j) && steps[n].Observing? && !Reaches(steps, n)
  {
    hide Completes, Completed, Reaches;
  }

  // ---------------------------------------------------------------------
  // Counters
  // ---------------------------------------------------------------------

  /** A count as a saturating 64-bit counter shows it. */
  function Capped(n: nat): u64
  {
    if n < MAX_U64 then n else MAX_U64
  }

  /** What each step counts as: injected input, a loss of continuity, a token judged at a boundary. */
  predicate CountsAsInjected(step: Step)
  {
    step.Observing? && Injected(step.event)
  }

  predicate CountsAsToken(env: Environment, steps: seq<Step>, n: nat)
    requires n < |steps|
  {
    && Reaches(steps, n) && ReportedFor(steps[n].event.key) == BoundaryObserved && RawAfter(steps, n) != ""
    && !(Restorable(env, RawAfter(steps, n)) && Completed(env, steps, n) >= MAX_U64)
  }

  function InjectedAmong(steps: seq<Step>, n: nat): nat
    requires n <= |steps|
  {
    if n == 0 then 0 else InjectedAmong(steps, n - 1) + if CountsAsInjected(steps[n - 1]) then 1 else 0
  }

  function LossesAmong(steps: seq<Step>, n: nat): nat
    requires n <= |steps|
  {
    if n == 0 then 0 else LossesAmong(steps, n - 1) + if steps[n - 1].Discontinuity? then 1 else 0
  }

  function TokensAmong(env: Environment, steps: seq<Step>, n: nat): nat
    requires n <= |steps|
  {
    if n == 0 then 0 else TokensAmong(env, steps, n - 1) + if CountsAsToken(env, steps, n - 1) then 1 else 0
  }

  /** The three counters count injected events, losses of continuity and judged tokens. */
  lemma {:induction false} CountersOfRun(env: Environment, steps: seq<Step>, n: nat)
    requires n <= |steps|
    ensures var p := StateAt(env, steps, n);
      && p.injectedEvents == Capped(InjectedAmong(steps, n))
      && p.resets == Capped(LossesAmong(steps, n))
      && p.completedTokens == Capped(TokensAmong(env, steps, n))
  {
    hide *;
    CountsUnfold(env, steps, n);
    if n == 0 {
      NothingCounted(env, steps);
    } else {
      CountersOfRun(env, steps, n - 1);
      CountersStep(env, steps, n - 1);
      CappedNext(InjectedAmong(steps, n - 1));
      CappedNext(LossesAmong(steps, n - 1));
      CappedNext(TokensAmong(env, steps, n - 1));
    }
  }

  lemma CountsUnfold(env: Environment, steps: seq<Step>, n: nat)
    requires n <= |steps|
    ensures InjectedAmong(steps, n)
         == if n == 0 then 0 else InjectedAmong(steps, n - 1) + if CountsAsInjected(steps[n - 1]) then 1 else 0
    ensures LossesAmong(steps, n)
         == if n == 0 then 0 else LossesAmong(steps, n - 1) + if steps[n - 1].Discontinuity? then 1 else 0
    ensures TokensAmong(env, steps, n)
         == if n == 0 then 0 else TokensAmong(env, steps, n - 1) + if CountsAsToken(env, steps, n - 1) then 1 else 0
  {
    hide CountsAsInjected, CountsAsToken;
  }

  lemma NothingCounted(env: Environment, steps: seq<Step>)
    ensures var p := StateAt(env, steps, 0);
      p.injectedEvents == p.resets == p.completedTokens == Capped(0) == 0
  {
  }

  lemma CappedNext(n: nat)
    ensures Bumped(Capped(n)) == Capped(n + 1)
  {
  }

  lemma CountersStep(env: Environment, steps: seq<Step>, n: nat)
    requires n < |steps|
    ensures var p, after := StateAt(env, steps, n), StateAt(env, steps, n + 1);
      && after.injectedEvents == (if CountsAsInjected(steps[n]) then Bumped(p.injectedEvents) else p.injectedEvents)
      && after.resets == (if steps[n].Discontinuity? then Bumped(p.resets) else p.resets)
      && after.completedTokens
         == (if CountsAsToken(env, steps, n) then Bumped(p.completedTokens) else p.completedTokens)
  {
    hide *;
    var p := StateAt(env, steps, n);
    NextState(env, steps, n);
    RawOfRun(env, steps, n);
    GenerationsOfRun(env, steps, n);
    NextGenerationIs(p);
    CountsAsTokenIff(env, steps, n);
    if steps[n].Discontinuity? {
      LossCounted(env, p);
      InjectedIsObserved(steps[n]);
    } else {
      var e := steps[n].event;
      ReachesUnlessDisregarded(env, steps, n);
      EventCounted(env, p, e);
      if Reaches(steps, n) && BoundaryFor(e.key).Some? {
        BoundaryIsKnown(e.key);
        BoundaryEvent(env, p, e);
        DecisionOfBoundary(env, p, BoundaryFor(e.key).value);
      }
    }
  }

  lemma CountsAsTokenIff(env: Environment, steps: seq<Step>, n: nat)
    requires n < |steps|
    ensures CountsAsToken(env, steps, n) <==>
      && Reaches(steps, n) && steps[n].Observing? && BoundaryFor(steps[n].event.key).Some? && RawAfter(steps, n) != ""
      && !(Restorable(env, RawAfter(steps, n)) && Completed(env, steps, n) >= MAX_U64)
  {
    hide Restorable, RawAfter, Completed;
  }

  lemma InjectedIsObserved(step: Step)
    ensures CountsAsInjected(step) ==> step.Observing?
  {
  }

  lemma LossCounted(env: Environment, p: Processor)
    requires TokenInv(p.token)
    ensures var after := Decisions.After(env, p, Discontinuity);
      && after.resets == Bumped(p.resets) && after.injectedEvents == p.injectedEvents
      && after.completedTokens == p.completedTokens
  {
    hide Bumped;
  }

  /** Of all events only injected ones, and boundaries that reach the token, are counted. */
  lemma EventCounted(env: Environment, p: Processor, e: ObservedEvent)
    requires TokenInv(p.token)
    ensures var after := ProcessObserved(env, p, e).0;
      && after.resets == p.resets
      && after.injectedEvents == (if CountsAsInjected(Observing(e)) then Bumped(p.injectedEvents) else p.injectedEvents)
      && (Disregarded(p, e) || BoundaryFor(e.key).None? ==> after.completedTokens == p.completedTokens)
  {
    hide TokenInv, Process, Classify, ByteLength, Decide, Bumped;
  }

  // ---------------------------------------------------------------------
  // Decisions and refused requests
  // ---------------------------------------------------------------------

  lemma {:induction false} AsciiByteLength(text: string)
    requires AllAscii(text)
    ensures ByteLength(text) == |text|
  {
    if text != "" {
      AsciiByteLength(text[1..]);
    }
  }

  /** The width of each character in UTF-8 (section 3 of RFC 3629). */
  lemma {:induction false} ByteLengthSnoc(text: string, c: char)
    ensures ByteLength(text + [c])
         == ByteLength(text)
            + if c <= '\U{7F}' then 1 else if c <= '\U{7FF}' then 2 else if c <= '\U{FFFF}' then 3 else 4
  {
    if text == "" {
      assert text + [c] == [c] && [c][1..] == "";
    } else {
      ByteLengthSnoc(text[1..], c);
      assert (text + [c])[1..] == text[1..] + [c];
    }
  }

  /** The decision a boundary records, and whether it counts the token as completed. */
  lemma DecisionOfBoundary(env: Environment, p: Processor, boundary: Boundary)
    requires ProcessorInv(p) && !boundary.UnknownBoundary?
    ensures var after := EvaluateBoundary(env, p, boundary);
      var raw, rendered := p.token.raw, p.token.rendered;
      var restores := Restorable(env, raw);
      if raw == "" then
        && after.lastDecision == p.lastDecision && after.completedTokens == p.completedTokens
        && after.lastTokenLengths == p.lastTokenLengths
      else
        && after.lastTokenLengths == Some((|raw|, ByteLength(rendered)))
        && after.completedTokens == (if restores && p.nextGeneration.None? then p.completedTokens
                                     else Bumped(p.completedTokens))
        && (after.lastDecision == Some(RestoreCandidate) <==> restores && p.nextGeneration.Some?)
        && (after.lastDecision == Some(Keep) <==> !restores && (env.neverTransform(raw) || env.vietnamese(rendered)))
        && (after.lastDecision == Some(Ambiguous)
            <==> if restores then p.nextGeneration.None? else !env.neverTransform(raw) && !env.vietnamese(rendered))
  {
    hide *;
    InvParts(p);
    TokenParts(p.token);
    EmptyRendering(p.token);
    AsciiByteLength(p.token.raw);
    BoundaryEvidence(env, p, boundary);
    if p.token.raw != "" {
      DecisionOfEvidence(env, Measured(env, p, boundary), p.token.raw, p.token.rendered, boundary);
    }
  }

  /** The processor with the token cleared and its lengths measured. */
  function Measured(env: Environment, p: Processor, boundary: Boundary): Processor
    requires TokenInv(p.token)
  {
    var cleared := Feed(env, p.(plan := None), AtBoundary(boundary));
    cleared.(lastTokenLengths := Some((ByteLength(p.token.raw), ByteLength(p.token.rendered))))
  }

  lemma BoundaryEvidence(env: Environment, p: Processor, boundary: Boundary)
    requires TokenInv(p.token)
    ensures var after, raw, rendered := EvaluateBoundary(env, p, boundary), p.token.raw, p.token.rendered;
      if raw == "" && rendered == "" then
        && after.lastDecision == p.lastDecision && after.completedTokens == p.completedTokens
        && after.lastTokenLengths == p.lastTokenLengths
      else
        after == AfterEvidence(Measured(env, p, boundary), raw, rendered, Classify(env, raw, rendered, boundary))
    ensures var measured := Measured(env, p, boundary);
      && measured.completedTokens == p.completedTokens && measured.nextGeneration == p.nextGeneration
      && measured.lastTokenLengths == Some((ByteLength(p.token.raw), ByteLength(p.token.rendered)))
  {
    hide TokenInv, Process, ByteLength, AfterEvidence, Classify;
  }

  lemma DecisionOfEvidence(env: Environment, p: Processor, raw: string, rendered: string, boundary: Boundary)
    requires raw != "" && AllAscii(raw) && Compose(raw) == Success(rendered) && !boundary.UnknownBoundary?
    ensures var after := AfterEvidence(p, raw, rendered, Classify(env, raw, rendered, boundary));
      var restores := Restorable(env, raw);
      && after.lastTokenLengths == p.lastTokenLengths
      && after.completedTokens == (if restores && p.nextGeneration.None? then p.completedTokens
                                   else Bumped(p.completedTokens))
      && (after.lastDecision == Some(RestoreCandidate) <==> restores && p.nextGeneration.Some?)
      && (after.lastDecision == Some(Keep) <==> !restores && (env.neverTransform(raw) || env.vietnamese(rendered)))
      && (after.lastDecision == Some(Ambiguous)
          <==> if restores then p.nextGeneration.None? else !env.neverTransform(raw) && !env.vietnamese(rendered))
  {
    hide Compose, AllAscii, ByteLength;
  }

  lemma EmptyRendering(token: Token)
    requires TokenInv(token)
    ensures token.raw == "" ==> token.rendered == ""
  {
  }

  /** A request id is "handoff-" and the generation in decimal. */
  lemma RequestIdText(generation: u64)
    ensures |RequestId(generation)| > 8 && RequestId(generation)[..8] == Ascii("handoff-")
    ensures Digits(RequestId(generation)[8..]) == Some(generation)
  {
    DecimalRoundTrip(generation);
    hide Decimal, Digits, Ascii;
    assert |Ascii("handoff-")| == 8;
  }

  /** The checks on a handoff, in the order they are answered. */
  function RequestChecks(p: Processor, h: Handoff): seq<Check<HandoffRequestError>>
  {
    [
      Check(p.plan.Some?, NoCurrentPlan),
      Check(h.simulationOnly, InternalGateFailed),
      Check(h.renderedToken != "" && h.replacementToken != ""
            && h.renderedUnits == |h.renderedToken| && h.replacementUnits == |h.replacementToken|, MalformedSpan),
      Check(p.plan.Some? && h == HandoffOf(p.plan.value), GenerationMismatch)
    ]
  }

  /** The first check that fails names the error, so none is ever a stale handoff; past them the request is the plan. */
  lemma RequestErrorIsFirstFailure(p: Processor, h: Handoff)
    requires ProcessorInv(p)
    ensures match FirstFailure(RequestChecks(p, h))
      case Some(error) => BuildHostRequest(p, h) == Failure(error)
      case None =>
        && p.plan.Some?
        && var plan := p.plan.value;
           BuildHostRequest(p, h)
           == Success(HandoffRequest(RequestId(plan.generation), plan.renderedToken, plan.replacementToken,
                                     |plan.renderedToken|, |plan.replacementToken|, plan.generation))
  {
    hide Compose, FirstFailure, RequestId;
    var place := FirstFailurePlace(RequestChecks(p, h));
  }
}
