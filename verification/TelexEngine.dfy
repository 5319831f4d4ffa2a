/** The engine that owns one token, and what every run of events keeps. */
module TelexEngine {
  import opened Wrappers
  import opened Telex
  import opened TokenEdits

  datatype Boundary = Space | Enter | Tab | Punctuation(mark: char) | CursorMove | FocusLoss | UnknownBoundary

  datatype EngineEvent = Character(character: char) | Backspace | AtBoundary(boundary: Boundary)

  datatype EngineAction = Noop | Apply(plan: EditPlan) | Commit(boundary: Boundary) | Reset

  /** Raw keys and rendered text of the current token. */
  datatype Token = Token(raw: string, rendered: string)

  const EMPTY_TOKEN := Token("", "")

  predicate IsPunctuation(c: char)
  {
    '!' <= c <= '/' || ':' <= c <= '@' || '[' <= c <= '`' || '{' <= c <= '~'
  }

  function BoundaryOf(c: char): Option<Boundary>
  {
    if c == ' ' then Some(Space)
    else if c == '\n' || c == '\r' then Some(Enter)
    else if c == '\t' then Some(Tab)
    else if IsPunctuation(c) then Some(Punctuation(c))
    else None
  }

  /** The raw keys are ASCII and the rendered text is what they compose to. */
  predicate TokenInv(token: Token)
  {
    Compose(token.raw) == Success(token.rendered)
  }

  lemma ComposedIsAscii(raw: string)
    ensures Compose(raw).Success? <==> AllAscii(raw)
  {
  }

  function BoundaryAction(boundary: Boundary): EngineAction
  {
    match boundary
    case CursorMove | FocusLoss | UnknownBoundary => Reset
    case _ => Commit(boundary)
  }

  /** The composed text of ASCII keys; the failure cannot happen for them. */
  function Rendering(raw: string): string
    requires AllAscii(raw)
  {
    Compose(raw).value
  }

  lemma AsciiPrefix(raw: string, c: char)
    ensures AllAscii(raw + [c]) <==> AllAscii(raw) && IsAscii(c)
    ensures raw != [] && AllAscii(raw) ==> AllAscii(raw[..|raw| - 1])
  {
    assert AllAscii(raw + [c]) ==> (raw + [c])[|raw|] == c && forall i :: 0 <= i < |raw| ==> (raw + [c])[i] == raw[i];
  }

  /** Without the boundary and the character that is not ASCII only the raw keys decide. */
  function Process(graphemes: Segmenter, token: Token, event: EngineEvent): (Token, Result<EngineAction, char>)
    requires TokenInv(token)
  {
    ComposedIsAscii(token.raw);
    match event
    case AtBoundary(boundary) => (EMPTY_TOKEN, Success(BoundaryAction(boundary)))
    case Backspace =>
      if token.raw == "" then (token, Success(Noop)) else
      AsciiPrefix(token.raw, 'a');
      var raw := token.raw[..|token.raw| - 1];
      (Token(raw, Rendering(raw)), Success(Apply(PlanBetween(graphemes, token.rendered, Rendering(raw)))))
    case Character(c) =>
      match BoundaryOf(c)
      case Some(boundary) => (EMPTY_TOKEN, Success(BoundaryAction(boundary)))
      case None =>
        if !IsAscii(c) then (token, Failure(c)) else
        AsciiPrefix(token.raw, c);
        var raw := token.raw + [c];
        (Token(raw, Rendering(raw)), Success(Apply(PlanBetween(graphemes, token.rendered, Rendering(raw)))))
  }

  // ---------------------------------------------------------------------
  // The engine object
  // ---------------------------------------------------------------------

  class Engine {
    const token: TokenState

    constructor ()
      ensures fresh(token) && State() == EMPTY_TOKEN
    {
      token := new TokenState();
    }

    function State(): Token
      reads token
    {
      Token(token.rawAscii, token.rendered)
    }

    method ProcessBoundary(boundary: Boundary) returns (action: EngineAction)
      modifies token
      ensures State() == EMPTY_TOKEN && action == BoundaryAction(boundary)
    {
      token.Clear();
      match boundary {
        case Space | Enter | Tab | Punctuation(_) => action := Commit(boundary);
        case CursorMove | FocusLoss | UnknownBoundary => action := Reset;
      }
    }

    method ProcessBackspace(graphemes: Segmenter) returns (action: EngineAction)
      requires TokenInv(State())
      modifies token
      ensures TokenInv(State())
      ensures (State(), Success(action)) == Process(graphemes, old(State()), Backspace)
    {
      hide PressAll, FirstNonAscii, PlanBetween;
      ComposedIsAscii(token.rawAscii);
      AsciiPrefix(token.rawAscii, 'a');
      var popped := token.PopRaw();
      if !popped {
        return Noop;
      }
      ComposedIsAscii(token.rawAscii);
      var rendered := ComposeKeys(token.rawAscii);
      assert rendered.Success?;
      var plan := token.ReplaceRendered(graphemes, rendered.value);
      action := Apply(plan);
    }

    method ProcessEvent(graphemes: Segmenter, event: EngineEvent) returns (result: Result<EngineAction, char>)
      requires TokenInv(State())
      modifies token
      ensures TokenInv(State())
      ensures (State(), result) == Process(graphemes, old(State()), event)
    {
      hide PressAll, PlanBetween;
      EmptyToken();
      var action;
      match event {
        case AtBoundary(boundary) =>
          action := ProcessBoundary(boundary);
          return Success(action);
        case Backspace =>
          action := ProcessBackspace(graphemes);
          return Success(action);
        case Character(c) =>
          var boundary := BoundaryOf(c);
          if boundary.Some? {
            action := ProcessBoundary(boundary.value);
            return Success(action);
          }
          if !IsAscii(c) {
            return Failure(c);
          }
          ComposedIsAscii(token.rawAscii);
          AsciiPrefix(token.rawAscii, c);
          var pushed := token.PushRaw(c);
          if !pushed {
            return Failure(c);
          }
          ComposedIsAscii(token.rawAscii);
          var rendered := ComposeKeys(token.rawAscii);
          assert rendered.Success?;
          var plan := token.ReplaceRendered(graphemes, rendered.value);
          return Success(Apply(plan));
      }
    }
  }

  // ---------------------------------------------------------------------
  // Every run of events
  // ---------------------------------------------------------------------

  lemma EmptyToken()
    ensures TokenInv(EMPTY_TOKEN)
  {
    assert FirstNonAscii([]).None?;
  }

  lemma ProcessKeepsInv(graphemes: Segmenter, token: Token, event: EngineEvent)
    requires TokenInv(token)
    ensures TokenInv(Process(graphemes, token, event).0)
  {
    hide PressAll, PlanBetween;
    EmptyToken();
  }

  predicate IsAlphanumeric(c: char)
  {
    'a' <= c <= 'z' || 'A' <= c <= 'Z' || '0' <= c <= '9'
  }

  /**
   * What each event does to a token: white space and every printable ASCII
   * character but letters and digits commit it, focus loss and cursor moves
   * drop it, and any other ASCII character is appended to the raw keys.
   */
  lemma OutcomeOfEvent(graphemes: Segmenter, token: Token, c: char, boundary: Boundary)
    requires TokenInv(token)
    ensures var (after, action) := Process(graphemes, token, Character(c));
      if c == ' ' then after == EMPTY_TOKEN && action == Success(Commit(Space))
      else if c == '\t' then after == EMPTY_TOKEN && action == Success(Commit(Tab))
      else if c == '\n' || c == '\r' then after == EMPTY_TOKEN && action == Success(Commit(Enter))
      else if '!' <= c <= '~' && !IsAlphanumeric(c) then
        after == EMPTY_TOKEN && action == Success(Commit(Punctuation(c)))
      else if c as int >= 128 then after == token && action == Failure(c)
      else
        after.raw == token.raw + [c]
        && action == Success(Apply(PlanBetween(graphemes, token.rendered, after.rendered)))
    ensures Process(graphemes, token, AtBoundary(boundary))
         == (EMPTY_TOKEN, Success(if boundary in {CursorMove, FocusLoss, UnknownBoundary} then Reset
                                  else Commit(boundary)))
    ensures var (after, action) := Process(graphemes, token, Backspace);
      if token.raw == "" then after == token && action == Success(Noop)
      else after.raw == token.raw[..|token.raw| - 1]
           && action == Success(Apply(PlanBetween(graphemes, token.rendered, after.rendered)))
  {
    hide Compose, PlanBetween, Rendering, AllAscii;
  }

  /** The token after a run of events from an empty engine. */
  ghost function After(graphemes: Segmenter, events: seq<EngineEvent>): (token: Token)
    ensures TokenInv(token)
  {
    if events == [] then EmptyToken(); EMPTY_TOKEN else
    var before := After(graphemes, events[..|events| - 1]);
    ProcessKeepsInv(graphemes, before, events[|events| - 1]);
    Process(graphemes, before, events[|events| - 1]).0
  }

  /** What the visible text of the current token is after an action. */
  function Shown(graphemes: Segmenter, visible: string, result: Result<EngineAction, char>): string
  {
    match result
    case Success(Apply(plan)) => Applied(graphemes, visible, plan)
    case Success(Commit(_)) => ""
    case Success(Reset) => ""
    case _ => visible
  }

  /** The emitted plans replayed on an empty text, starting anew at every boundary. */
  ghost function Visible(graphemes: Segmenter, events: seq<EngineEvent>): string
  {
    if events == [] then "" else
    var before := events[..|events| - 1];
    Shown(graphemes, Visible(graphemes, before), Process(graphemes, After(graphemes, before), events[|events| - 1]).1)
  }

  /**
   * After every run of events the raw keys are ASCII, the rendered text is
   * what they compose to, and the emitted plans have produced exactly it.
   */
  lemma {:induction false} EngineRun(graphemes: Segmenter, events: seq<EngineEvent>)
    requires Segments(graphemes)
    ensures var token := After(graphemes, events);
      && AllAscii(token.raw) && Compose(token.raw) == Success(token.rendered)
      && Visible(graphemes, events) == token.rendered
  {
    hide PressAll, PlanBetween, Applied, Segments, FirstNonAscii;
    ComposedIsAscii(After(graphemes, events).raw);
    if events != [] {
      var before := events[..|events| - 1];
      EngineRun(graphemes, before);
      var token := After(graphemes, before);
      PlanReplays(graphemes, token.rendered, Process(graphemes, token, events[|events| - 1]).0.rendered);
    }
  }

  /** A restore plan from rendered to raw turns what is visible into exactly the raw keys. */
  lemma RestoreGivesRaw(graphemes: Segmenter, events: seq<EngineEvent>)
    requires Segments(graphemes)
    ensures var token := After(graphemes, events);
      Applied(graphemes, Visible(graphemes, events), PlanBetween(graphemes, token.rendered, token.raw)) == token.raw
  {
    hide Applied, PlanBetween, Visible, After;
    EngineRun(graphemes, events);
    var token := After(graphemes, events);
    PlanReplays(graphemes, token.rendered, token.raw);
  }

  /** Typing a key and erasing it brings back the token, whatever the key did to it. */
  lemma BackspaceUndoesKey(graphemes: Segmenter, token: Token, c: char)
    requires TokenInv(token) && IsAscii(c) && BoundaryOf(c).None?
    ensures var typed := Process(graphemes, token, Character(c)).0;
      TokenInv(typed) && Process(graphemes, typed, Backspace).0 == token
  {
    hide PressAll, PlanBetween, FirstNonAscii;
    ProcessKeepsInv(graphemes, token, Character(c));
    assert (token.raw + [c])[..|token.raw + [c]| - 1] == token.raw;
  }
}
