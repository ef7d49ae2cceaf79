/**
 * `ConversationContext`: one named conversation, its provider binding, its
 * settings and its message history, and the record shape it is persisted as.
 */
module ConversationContext {
  import opened Wrappers
  import opened Settings

  /**
   * One history entry. Entries written by the manager carry exactly `role`
   * and `content`; entries reloaded from storage may carry further keys.
   */
  datatype Entry = Entry(role: string, content: string, extra: map<string, string>)

  datatype Context = Context(
    name: string,
    service: string,
    model: string,
    systemPrompt: string,
    settings: Settings,
    history: seq<Entry>)

  /** `{"role": role, "content": content}` */
  function Message(role: string, content: string): Entry {
    Entry(role, content, map[])
  }

  /** `add_message`: appends one message and changes nothing else. */
  function AddMessage(c: Context, role: string, content: string): (r: Context)
    ensures |r.history| == |c.history| + 1
    ensures r.history[..|c.history|] == c.history
    ensures r.history[|c.history|] == Message(role, content)
    ensures r.name == c.name && r.service == c.service && r.model == c.model
    ensures r.systemPrompt == c.systemPrompt && r.settings == c.settings
  {
    c.(history := c.history + [Message(role, content)])
  }

  /** The persisted record; `history` is `None` when the stored record has no such key. */
  datatype Record = Record(
    name: string,
    service: string,
    model: string,
    systemPrompt: string,
    settings: map<string, Param>,
    history: Option<seq<Entry>>)

  /** `to_dict` */
  function ToRecord(c: Context): (r: Record)
    ensures r.name == c.name && r.service == c.service && r.model == c.model
    ensures r.systemPrompt == c.systemPrompt
    ensures r.settings == Stored(c.settings)
    ensures r.history == Some(c.history)
  {
    Record(c.name, c.service, c.model, c.systemPrompt, Stored(c.settings), Some(c.history))
  }

  /**
   * `from_dict`: the service's default settings overlaid key by key with the
   * stored map, and an absent history read as empty. `None` when the overlay
   * raises (the defaults are a dict and the stored map is not empty).
   */
  function FromRecord(r: Record, defaults: string -> Settings): (c: Option<Context>)
    ensures c.Some? <==> Overlay(defaults(r.service), r.settings).Some?
    ensures c.Some? ==> c.value.name == r.name && c.value.service == r.service
    ensures c.Some? ==> c.value.model == r.model && c.value.systemPrompt == r.systemPrompt
    ensures c.Some? ==> c.value.settings == Overlay(defaults(r.service), r.settings).value
    ensures c.Some? ==> c.value.history == r.history.GetOr([])
  {
    match Overlay(defaults(r.service), r.settings)
    case None => None
    case Some(s) => Some(Context(r.name, r.service, r.model, r.systemPrompt, s, r.history.GetOr([])))
  }

  /**
   * Saving and reloading a context keeps its identity, prompt and history
   * exactly; its settings become the service defaults overlaid with what was
   * stored, so every stored setting survives with its value.
   */
  lemma RoundTrip(c: Context, defaults: string -> Settings)
    requires defaults(c.service).Attrs?
    ensures FromRecord(ToRecord(c), defaults).Some?
    ensures var c' := FromRecord(ToRecord(c), defaults).value;
      && c'.name == c.name && c'.service == c.service && c'.model == c.model
      && c'.systemPrompt == c.systemPrompt && c'.history == c.history
      && c'.settings.Attrs?
      && c'.settings.fields.Keys == defaults(c.service).fields.Keys + Stored(c.settings).Keys
      && (forall k :: k in Stored(c.settings) ==> c'.settings.fields[k] == Stored(c.settings)[k])
  {
  }

  /**
   * A context whose settings object already has every default attribute (as
   * every reloaded context does) comes back from storage unchanged.
   */
  lemma RoundTripExact(c: Context, defaults: string -> Settings)
    requires c.settings.Attrs?
    requires defaults(c.service).Attrs? && defaults(c.service).className == c.settings.className
    requires defaults(c.service).fields.Keys <= c.settings.fields.Keys
    ensures FromRecord(ToRecord(c), defaults) == Some(c)
  {
    var d := defaults(c.service).fields;
    var f := c.settings.fields;
    assert d + f == f;
  }

  /** Reloading is idempotent: a reloaded context saves and reloads to itself. */
  lemma ReloadIdempotent(r: Record, defaults: string -> Settings)
    requires defaults(r.service).Attrs?
    ensures FromRecord(r, defaults).Some?
    ensures FromRecord(ToRecord(FromRecord(r, defaults).value), defaults) == FromRecord(r, defaults)
  {
    RoundTripExact(FromRecord(r, defaults).value, defaults);
  }
}
