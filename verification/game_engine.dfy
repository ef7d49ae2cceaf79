/**
 * `GameEngine`: the map from context name to running game, and the start,
 * turn and end transitions. The engine reads contexts from the manager but
 * never changes it. The prompt text the source builds for each step is never
 * handed to the client (`_generate_response` ignores its `prompt`), so the
 * model has no prompt at all: the client sees the context as it stands.
 */
module GameEngine {
  import opened Wrappers
  import opened Settings
  import opened ConversationContext
  import opened BaseClient
  import opened JsonRecovery
  import CM = ConversationManager
  import GS = GameState
  import PyDict

  datatype Engine = Engine(states: PyDict.Dict<GS.State<Json>>)

  /** Every game is valid and filed under its own context name. */
  ghost predicate Valid(e: Engine) {
    && PyDict.Valid(e.states)
    && forall k :: k in e.states.items ==> GS.Valid(e.states.items[k]) && e.states.items[k].contextName == k
  }

  /** Resolving a service name to a client, or the text of the exception that raises. */
  datatype Lookup = Found(client: CM.Client) | LookupFailed(message: string)

  /**
   * What `self.conversation_manager.get_service_client` evaluates to: an
   * attribute error when the manager has no such method, or a lookup.
   */
  datatype Resolver = MethodMissing(message: string) | Resolves(lookup: string -> Lookup)

  /**
   * The shipped engine is built over a `ConversationManager`, which has no
   * `get_service_client`.
   */
  const Shipped := MethodMissing(MissingAttribute("ConversationManager", "get_service_client"))

  /** A turn result, or the `{"error": ...}` reply. */
  datatype Turn = Turn(state: Json) | TurnError(message: string)

  datatype Step = Step(next: Engine, reply: Turn)

  const NotJsonText := "the JSON object must be str, bytes or bytearray, not NoneType"

  /** The error `context.service` raises when `get_context` gave `None`. */
  const NoContextService := MissingAttribute("NoneType", "service")

  /**
   * `_generate_response`: the method is looked up first, then the context's
   * service is read, then the client generates and a JSON value is
   * recovered from its text.
   */
  function GenerateTurn(c: Option<Context>, resolver: Resolver, decode: string -> Option<Json>): (r: Result<Json>)
    ensures resolver.MethodMissing? ==> r == Failure(resolver.message)
    ensures resolver.Resolves? && c.None? ==> r == Failure(NoContextService)
    ensures resolver.Resolves? && c.Some? && resolver.lookup(c.value.service).LookupFailed? ==>
      r == Failure(resolver.lookup(c.value.service).message)
    ensures resolver.Resolves? && c.Some? && resolver.lookup(c.value.service).Found? ==>
      match resolver.lookup(c.value.service).client(c.value)
      case Raised(_, e) => r == Failure(e)
      case Returned(None) => r == Failure(NotJsonText)
      case Returned(Some(text)) => r == Recover(text, decode)
  {
    match resolver
    case MethodMissing(e) => Failure(e)
    case Resolves(lookup) =>
      match c
      case None => Failure(NoContextService)
      case Some(ctx) =>
        match lookup(ctx.service)
        case LookupFailed(e) => Failure(e)
        case Found(client) =>
          match client(ctx)
          case Raised(_, e) => Failure(e)
          case Returned(None) => Failure(NotJsonText)
          case Returned(Some(text)) => Recover(text, decode)
  }

  /**
   * `start_game`: an unknown context is an error with no change; otherwise a
   * successful generation replaces any game of that context by a fresh one
   * seeded with the result, and a failed one changes nothing.
   */
  function StartGame(e: Engine, m: CM.Manager, name: string, resolver: Resolver,
                     decode: string -> Option<Json>): (r: Step)
    ensures name !in m.contexts.items ==> r == Step(e, TurnError(CM.DoesNotExist(name)))
    ensures name in m.contexts.items ==>
      match GenerateTurn(Some(m.contexts.items[name]), resolver, decode)
      case Failure(msg) => r == Step(e, TurnError(msg))
      case Success(j) =>
        && r.reply == Turn(j)
        && r.next.states.items.Keys == e.states.items.Keys + {name}
        && r.next.states.items[name] == GS.New(name, j)
        && (forall k :: k in e.states.items && k != name ==> r.next.states.items[k] == e.states.items[k])
    ensures Valid(e) ==> Valid(r.next)
  {
    match CM.GetContext(m, name)
    case None => Step(e, TurnError(CM.DoesNotExist(name)))
    case Some(c) =>
      match GenerateTurn(Some(c), resolver, decode)
      case Failure(msg) => Step(e, TurnError(msg))
      case Success(j) => Step(Engine(PyDict.Put(e.states, name, GS.New(name, j))), Turn(j))
  }

  function NoActiveGame(name: string): string { "No active game for context: " + name }

  /**
   * `process_turn`: without a game it is an error and no game is created;
   * otherwise the context is looked up (it may have been deleted since the
   * game started), a successful generation is appended to that game and
   * returned, and a failed one leaves the game as it was. `action` only
   * feeds the unused prompt, so it cannot influence the result.
   */
  function ProcessTurn(e: Engine, m: CM.Manager, name: string, action: string, resolver: Resolver,
                       decode: string -> Option<Json>): (r: Step)
    ensures name !in e.states.items ==> r == Step(e, TurnError(NoActiveGame(name)))
    ensures name in e.states.items ==>
      match GenerateTurn(CM.GetContext(m, name), resolver, decode)
      case Failure(msg) => r == Step(e, TurnError(msg))
      case Success(j) =>
        && r.reply == Turn(j)
        && r.next.states.order == e.states.order
        && r.next.states.items.Keys == e.states.items.Keys
        && r.next.states.items[name] == GS.Update(e.states.items[name], j)
        && (forall k :: k in e.states.items && k != name ==> r.next.states.items[k] == e.states.items[k])
    ensures Valid(e) ==> Valid(r.next)
  {
    if name !in e.states.items then Step(e, TurnError(NoActiveGame(name)))
    else
      match GenerateTurn(CM.GetContext(m, name), resolver, decode)
      case Failure(msg) => Step(e, TurnError(msg))
      case Success(j) =>
        Step(Engine(PyDict.Put(e.states, name, GS.Update(e.states.items[name], j))), Turn(j))
  }

  /** `end_game`: drops the game if there is one, and is a no-op otherwise. */
  function EndGame(e: Engine, name: string): (r: Engine)
    ensures name !in e.states.items ==> r == e
    ensures r.states.items.Keys == e.states.items.Keys - {name}
    ensures name in e.states.items ==> r.states.order == PyDict.Without(e.states.order, name)
    ensures forall k :: k in r.states.items ==> r.states.items[k] == e.states.items[k]
    ensures Valid(e) ==> Valid(r)
  {
    if name in e.states.items then Engine(PyDict.Remove(e.states, name)) else e
  }

  const NoGameForContext := "No active game for this context"

  /** `get_game_state`: the current state of an active game, else an error. */
  function GetGameState(e: Engine, name: string): (r: Turn)
    ensures name in e.states.items <==> r.Turn?
    ensures r.Turn? ==> r.state == e.states.items[name].current
    ensures r.TurnError? ==> r.message == NoGameForContext
  {
    if name in e.states.items then Turn(GS.GetCurrentState(e.states.items[name])) else TurnError(NoGameForContext)
  }

  /** `list_active_games`: exactly the names with a game, in the order their games were first started. */
  function ListActiveGames(e: Engine): (r: seq<string>)
    requires Valid(e)
    ensures forall k :: k in r <==> k in e.states.items
    ensures PyDict.Distinct(r)
  {
    e.states.order
  }

  /** The action text never changes what a turn does. */
  lemma TurnIgnoresAction(e: Engine, m: CM.Manager, name: string, a: string, b: string,
                          resolver: Resolver, decode: string -> Option<Json>)
    ensures ProcessTurn(e, m, name, a, resolver, decode) == ProcessTurn(e, m, name, b, resolver, decode)
  {
  }

  /**
   * As shipped, no game can start and no turn can change a game: past the
   * checks for a context and for a game, both report the missing
   * `get_service_client`, even when the context has been deleted.
   */
  lemma ShippedEngineIsInert(e: Engine, m: CM.Manager, name: string, action: string, decode: string -> Option<Json>)
    ensures StartGame(e, m, name, Shipped, decode).next == e
    ensures ProcessTurn(e, m, name, action, Shipped, decode).next == e
    ensures name in m.contexts.items ==>
      StartGame(e, m, name, Shipped, decode).reply == TurnError(Shipped.message)
    ensures name in e.states.items ==>
      ProcessTurn(e, m, name, action, Shipped, decode).reply == TurnError(Shipped.message)
  {
  }

  /** A game whose context was deleted reports `None.service` under any working lookup. */
  lemma DeletedContextTurn(e: Engine, m: CM.Manager, name: string, action: string,
                           lookup: string -> Lookup, decode: string -> Option<Json>)
    requires name in e.states.items && name !in m.contexts.items
    ensures ProcessTurn(e, m, name, action, Resolves(lookup), decode) == Step(e, TurnError(NoContextService))
  {
  }

  /**
   * Starting a game for a new context lists it after the others; restarting
   * one keeps its place.
   */
  lemma StartListsGame(e: Engine, m: CM.Manager, name: string, resolver: Resolver, decode: string -> Option<Json>)
    requires Valid(e) && name in m.contexts.items
    requires GenerateTurn(Some(m.contexts.items[name]), resolver, decode).Success?
    ensures Valid(StartGame(e, m, name, resolver, decode).next)
    ensures ListActiveGames(StartGame(e, m, name, resolver, decode).next) ==
            if name in e.states.items then ListActiveGames(e) else ListActiveGames(e) + [name]
  {
  }

  /** A started game is reported by `get_game_state`, and `end_game` removes only it. */
  lemma StartThenEnd(e: Engine, m: CM.Manager, name: string, resolver: Resolver, decode: string -> Option<Json>)
    requires name in m.contexts.items
    requires GenerateTurn(Some(m.contexts.items[name]), resolver, decode).Success?
    ensures var started := StartGame(e, m, name, resolver, decode).next;
      && GetGameState(started, name) == Turn(GenerateTurn(Some(m.contexts.items[name]), resolver, decode).value)
      && EndGame(started, name).states.items == e.states.items - {name}
  {
    var started := StartGame(e, m, name, resolver, decode).next;
    assert EndGame(started, name).states.items == e.states.items - {name};
  }

  /** A turn that succeeds can be undone by rolling its game back one step. */
  lemma TurnThenRollback(e: Engine, m: CM.Manager, name: string, action: string,
                         resolver: Resolver, decode: string -> Option<Json>)
    requires Valid(e)
    requires name in e.states.items && name in m.contexts.items
    requires GenerateTurn(Some(m.contexts.items[name]), resolver, decode).Success?
    ensures var after := ProcessTurn(e, m, name, action, resolver, decode).next;
      GS.Rollback(after.states.items[name], 1) == GS.Rolled(e.states.items[name], None)
  {
    var j := GenerateTurn(Some(m.contexts.items[name]), resolver, decode).value;
    GS.RollbackUndoesUpdate(e.states.items[name], j);
  }
}
