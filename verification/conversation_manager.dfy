/**
 * `ConversationManager`: the in-memory map from name to context (in
 * insertion order) and the write-through persistence of every change.
 * Persistence is the key-to-record map the backend holds (`None` when the
 * manager has no storage backend); the generator is a client function.
 */
module ConversationManager {
  import opened Wrappers
  import opened Settings
  import opened ConversationContext
  import opened BaseClient
  import PyDict
  import PySlice

  datatype Manager = Manager(contexts: PyDict.Dict<Context>, store: Option<map<string, Record>>)

  /** Every context is filed under its own name. */
  ghost predicate Valid(m: Manager) {
    && PyDict.Valid(m.contexts)
    && forall k :: k in m.contexts.items ==> m.contexts.items[k].name == k
  }

  /** The dicts the manager returns: success, refusal, or `ErrorHandler.handle_error`'s report. */
  datatype Status =
    | Done(message: string)
    | Refused(message: string)
    | Faulted(errorType: string, message: string, during: string)

  /** `send_prompt`'s dicts; `Unanswered` carries `"response": None`. */
  datatype PromptStatus =
    | Answered(response: string)
    | Unanswered(message: string)
    | PromptFaulted(errorType: string, message: string, during: string)

  datatype Outcome<S> = Outcome(next: Manager, status: S)

  /** A function from the context (as it is when the call starts) to what awaiting `generate_response` gives. */
  type Client = Context -> Generated

  function Quoted(s: string): string { "'" + s + "'" }
  function AlreadyExists(name: string): string { "Context " + Quoted(name) + " already exists." }
  function DoesNotExist(name: string): string { "Context " + Quoted(name) + " does not exist." }
  const NoResponse := "Failed to get a response."

  /** `save_context`: one durable write of `to_dict`, keyed by name. */
  function Save(m: Manager, c: Context): (r: Manager)
    ensures r.contexts == m.contexts
    ensures m.store.None? ==> r.store.None?
    ensures m.store.Some? ==> r.store.Some? && r.store.value.Keys == m.store.value.Keys + {c.name}
    ensures m.store.Some? ==> r.store.value[c.name] == ToRecord(c)
    ensures m.store.Some? ==> forall k :: k in m.store.value && k != c.name ==> r.store.value[k] == m.store.value[k]
  {
    match m.store
    case None => m
    case Some(s) => m.(store := Some(s[c.name := ToRecord(c)]))
  }

  /** `from_dict` applied to each listed record in turn; the first record that raises ends the load. */
  function LoadRecords(d: PyDict.Dict<Context>, records: seq<Record>, defaults: string -> Settings): PyDict.Dict<Context>
    decreases |records|
  {
    if records == [] then d
    else match FromRecord(records[0], defaults)
      case None => d
      case Some(c) => LoadRecords(PyDict.Put(d, c.name, c), records[1..], defaults)
  }

  ghost predicate AllLoad(records: seq<Record>, defaults: string -> Settings) {
    forall i :: 0 <= i < |records| ==> FromRecord(records[i], defaults).Some?
  }

  /**
   * `__init__` with `load_all_contexts`: without a backend the manager starts
   * empty; with one, `listing` is what `load_all()` returned (`None` when it
   * raised, which leaves the manager empty).
   */
  function Open(backend: Option<map<string, Record>>, listing: Option<seq<Record>>, defaults: string -> Settings): (m: Manager)
    ensures Valid(m)
    ensures m.store == backend
    ensures backend.None? || listing.None? ==> m.contexts == PyDict.Empty()
    ensures backend.Some? && listing.Some? ==> m.contexts == LoadRecords(PyDict.Empty(), listing.value, defaults)
  {
    var contexts := if backend.Some? && listing.Some? then LoadRecords(PyDict.Empty(), listing.value, defaults) else PyDict.Empty();
    assert Valid(Manager(contexts, backend)) by {
      if backend.Some? && listing.Some? { LoadValid(PyDict.Empty(), listing.value, defaults); }
    }
    Manager(contexts, backend)
  }

  lemma {:induction false} LoadValid(d: PyDict.Dict<Context>, records: seq<Record>, defaults: string -> Settings)
    requires PyDict.Valid(d) && forall k :: k in d.items ==> d.items[k].name == k
    ensures var r := LoadRecords(d, records, defaults);
      PyDict.Valid(r) && forall k :: k in r.items ==> r.items[k].name == k
    decreases |records|
  {
    if records != [] {
      match FromRecord(records[0], defaults)
      case None =>
      case Some(c) => LoadValid(PyDict.Put(d, c.name, c), records[1..], defaults);
    }
  }

  /** When every record loads, the loaded names are the existing ones plus every listed name. */
  lemma {:induction false} LoadedNames(d: PyDict.Dict<Context>, records: seq<Record>, defaults: string -> Settings)
    requires AllLoad(records, defaults)
    ensures LoadRecords(d, records, defaults).items.Keys ==
            d.items.Keys + set i | 0 <= i < |records| :: records[i].name
    decreases |records|
  {
    if records != [] {
      assert FromRecord(records[0], defaults).Some?;
      var c := FromRecord(records[0], defaults).value;
      var rest := records[1..];
      var next := PyDict.Put(d, c.name, c);
      assert LoadRecords(d, records, defaults) == LoadRecords(next, rest, defaults);
      assert next.items.Keys == d.items.Keys + {c.name};
      assert c.name == records[0].name;
      assert AllLoad(rest, defaults) by {
        forall i | 0 <= i < |rest| ensures FromRecord(rest[i], defaults).Some? {
          assert rest[i] == records[i + 1];
        }
      }
      LoadedNames(next, rest, defaults);
      NamesSplit(records);
    }
  }

  /** The names of a listing are its first record's name and the names of the rest. */
  lemma NamesSplit(records: seq<Record>)
    requires records != []
    ensures (set i | 0 <= i < |records| :: records[i].name) ==
            {records[0].name} + set i | 0 <= i < |records[1..]| :: records[1..][i].name
  {
    var rest := records[1..];
    var all := set i | 0 <= i < |records| :: records[i].name;
    var tail := set i | 0 <= i < |rest| :: rest[i].name;
    forall x | x in all ensures x in {records[0].name} + tail {
      var i :| 0 <= i < |records| && records[i].name == x;
      if i > 0 { assert rest[i - 1] == records[i]; }
    }
    forall x | x in tail ensures x in all {
      var i :| 0 <= i < |rest| && rest[i].name == x;
      assert records[i + 1] == rest[i];
    }
  }

  /** A listing whose records all load opens a manager holding exactly the listed names. */
  lemma OpenHoldsListed(backend: map<string, Record>, listing: seq<Record>, defaults: string -> Settings)
    requires AllLoad(listing, defaults)
    ensures Open(Some(backend), Some(listing), defaults).contexts.items.Keys ==
            set i | 0 <= i < |listing| :: listing[i].name
  {
    LoadedNames(PyDict.Empty(), listing, defaults);
  }

  /** Of several records sharing a name, the last one listed is the one kept. */
  lemma {:induction false} LaterRecordWins(d: PyDict.Dict<Context>, records: seq<Record>, defaults: string -> Settings, i: nat)
    requires AllLoad(records, defaults)
    requires i < |records|
    requires forall j :: i < j < |records| ==> records[j].name != records[i].name
    ensures records[i].name in LoadRecords(d, records, defaults).items
    ensures LoadRecords(d, records, defaults).items[records[i].name] == FromRecord(records[i], defaults).value
    decreases |records|
  {
    var c := FromRecord(records[0], defaults).value;
    var rest := records[1..];
    assert AllLoad(rest, defaults) by {
      forall k | 0 <= k < |rest| ensures FromRecord(rest[k], defaults).Some? {
        assert rest[k] == records[k + 1];
      }
    }
    if i == 0 {
      KeptAfter(PyDict.Put(d, c.name, c), rest, defaults, c.name);
    } else {
      assert rest[i - 1] == records[i];
      forall j | i - 1 < j < |rest| ensures rest[j].name != rest[i - 1].name {
        assert rest[j] == records[j + 1];
      }
      LaterRecordWins(PyDict.Put(d, c.name, c), rest, defaults, i - 1);
    }
  }

  /** A loaded name that no later record mentions keeps its context. */
  lemma {:induction false} KeptAfter(d: PyDict.Dict<Context>, records: seq<Record>, defaults: string -> Settings, k: string)
    requires k in d.items
    requires forall j :: 0 <= j < |records| ==> records[j].name != k
    ensures k in LoadRecords(d, records, defaults).items
    ensures LoadRecords(d, records, defaults).items[k] == d.items[k]
    decreases |records|
  {
    if records != [] {
      match FromRecord(records[0], defaults)
      case None =>
      case Some(c) =>
        forall j | 0 <= j < |records[1..]| ensures records[1..][j].name != k {
          assert records[1..][j] == records[j + 1];
        }
        KeptAfter(PyDict.Put(d, c.name, c), records[1..], defaults, k);
    }
  }

  /** A record that fails to load ends the load: nothing listed after it is loaded. */
  lemma {:induction false} LoadStopsAtFailure(d: PyDict.Dict<Context>, records: seq<Record>, defaults: string -> Settings, i: nat)
    requires i < |records|
    requires AllLoad(records[..i], defaults)
    requires FromRecord(records[i], defaults).None?
    ensures LoadRecords(d, records, defaults) == LoadRecords(d, records[..i], defaults)
    decreases |records|
  {
    if i > 0 {
      assert records[..i][0] == records[0];
      var c := FromRecord(records[0], defaults).value;
      var pre := records[1..][..i - 1];
      assert pre == records[..i][1..];
      assert AllLoad(pre, defaults) by {
        forall k | 0 <= k < |pre| ensures FromRecord(pre[k], defaults).Some? {
          assert pre[k] == records[..i][k + 1];
        }
      }
      LoadStopsAtFailure(PyDict.Put(d, c.name, c), records[1..], defaults, i - 1);
    }
  }

  /**
   * `create_context`: a fresh name gets a context whose history is the
   * system prompt alone, with the caller's settings or the service defaults,
   * stored and saved; a taken name is refused and nothing changes.
   */
  function CreateContext(m: Manager, name: string, service: string, model: string, systemPrompt: string,
                         settings: Option<Settings>, defaults: string -> Settings): (r: Outcome<Status>)
    ensures name in m.contexts.items ==> r == Outcome(m, Refused(AlreadyExists(name)))
    ensures name !in m.contexts.items ==>
      && r.status == Done("Context " + Quoted(name) + " created successfully.")
      && r.next.contexts.items.Keys == m.contexts.items.Keys + {name}
      && r.next.contexts.order == m.contexts.order + [name]
      && (forall k :: k in m.contexts.items ==> r.next.contexts.items[k] == m.contexts.items[k])
      && var c := r.next.contexts.items[name];
      && c.name == name && c.service == service && c.model == model && c.systemPrompt == systemPrompt
      && c.history == [Message("system", systemPrompt)]
      && (settings.Some? ==> c.settings == settings.value)
      && (settings.None? ==> c.settings == defaults(service))
      && r.next == Save(m.(contexts := r.next.contexts), c)
    ensures Valid(m) ==> Valid(r.next)
  {
    if name in m.contexts.items then Outcome(m, Refused(AlreadyExists(name)))
    else
      var s := if settings.None? then defaults(service) else settings.value;
      var c := AddMessage(Context(name, service, model, systemPrompt, s, []), "system", systemPrompt);
      var contexts := PyDict.Put(m.contexts, name, c);
      Outcome(Save(m.(contexts := contexts), c), Done("Context " + Quoted(name) + " created successfully."))
  }

  /** One line of `list_contexts`. */
  datatype Summary = Summary(name: string, service: string, model: string, systemPrompt: string)

  const PreviewLength := 50

  /** The listed system prompt: itself when short enough, else its first 50 characters and `...`. */
  function Preview(p: string): (r: string)
    ensures |p| <= PreviewLength ==> r == p
    ensures |p| > PreviewLength ==> |r| == PreviewLength + 3
    ensures |p| > PreviewLength ==> r[..PreviewLength] == p[..PreviewLength] && r[PreviewLength..] == "..."
  {
    if |p| > PreviewLength then PySlice.Upto(p, PreviewLength) + "..." else p
  }

  /**
   * The preview shows the prompt unchanged exactly when it is at most 50
   * characters, or when it is 53 characters already ending in `...`.
   */
  lemma PreviewIsPrompt(p: string)
    ensures Preview(p) == p <==> |p| <= PreviewLength || (|p| == PreviewLength + 3 && p[PreviewLength..] == "...")
  {
    if |p| > PreviewLength && |p| == PreviewLength + 3 && p[PreviewLength..] == "..." {
      assert p == p[..PreviewLength] + p[PreviewLength..];
    }
  }

  function Summarize(c: Context): Summary {
    Summary(c.name, c.service, c.model, Preview(c.systemPrompt))
  }

  /** `list_contexts`: one summary per context, in insertion order; nothing is modified. */
  function ListContexts(m: Manager): (r: seq<Summary>)
    requires Valid(m)
    ensures |r| == |m.contexts.order|
    ensures forall i :: 0 <= i < |r| ==>
      var c := m.contexts.items[m.contexts.order[i]];
      r[i] == Summary(m.contexts.order[i], c.service, c.model, Preview(c.systemPrompt))
  {
    var cs := PyDict.Values(m.contexts);
    seq(|cs|, i requires 0 <= i < |cs| => Summarize(cs[i]))
  }

  /** `delete_context`: a present name is dropped from memory and storage; an absent one is refused. */
  function DeleteContext(m: Manager, name: string): (r: Outcome<Status>)
    ensures name !in m.contexts.items ==> r == Outcome(m, Refused(DoesNotExist(name)))
    ensures name in m.contexts.items ==>
      && r.status == Done("Context " + Quoted(name) + " deleted.")
      && r.next.contexts.items.Keys == m.contexts.items.Keys - {name}
      && r.next.contexts.order == PyDict.Without(m.contexts.order, name)
      && (forall k :: k in r.next.contexts.items ==> r.next.contexts.items[k] == m.contexts.items[k])
      && (m.store.None? ==> r.next.store.None?)
      && (m.store.Some? ==> r.next.store == Some(m.store.value - {name}))
    ensures Valid(m) ==> Valid(r.next)
  {
    if name in m.contexts.items then
      var store := match m.store case None => None case Some(s) => Some(s - {name});
      Outcome(Manager(PyDict.Remove(m.contexts, name), store), Done("Context " + Quoted(name) + " deleted."))
    else Outcome(m, Refused(DoesNotExist(name)))
  }

  /** `get_context` */
  function GetContext(m: Manager, name: string): (r: Option<Context>)
    ensures r.Some? <==> name in m.contexts.items
    ensures r.Some? ==> r.value == m.contexts.items[name]
  {
    PyDict.Get(m.contexts, name)
  }

  /**
   * `send_prompt`: the user message is appended before the client runs (the
   * client sees it); a non-empty reply is appended after it and the context
   * saved; an empty or missing reply, or a raising client, leaves the user
   * message appended but unsaved.
   */
  function SendPrompt(m: Manager, name: string, prompt: string, client: Client): (r: Outcome<PromptStatus>)
    ensures name !in m.contexts.items ==> r == Outcome(m, Unanswered(DoesNotExist(name)))
    ensures name in m.contexts.items ==>
      var c := m.contexts.items[name];
      var asked := AddMessage(c, "user", prompt);
      && r.next.contexts.order == m.contexts.order
      && r.next.contexts.items.Keys == m.contexts.items.Keys
      && (forall k :: k in m.contexts.items && k != name ==> r.next.contexts.items[k] == m.contexts.items[k])
      && match client(asked)
         case Returned(Some(s)) =>
           if s != "" then
             && r.status == Answered(s)
             && r.next.contexts.items[name] == AddMessage(asked, "assistant", s)
             && r.next == Save(m.(contexts := r.next.contexts), AddMessage(asked, "assistant", s))
           else r == Outcome(m.(contexts := PyDict.Put(m.contexts, name, asked)), Unanswered(NoResponse))
         case Returned(None) =>
           r == Outcome(m.(contexts := PyDict.Put(m.contexts, name, asked)), Unanswered(NoResponse))
         case Raised(t, e) =>
           r == Outcome(m.(contexts := PyDict.Put(m.contexts, name, asked)),
                        PromptFaulted(t, e, "Error sending prompt for context " + Quoted(name)))
    ensures Valid(m) ==> Valid(r.next)
  {
    if name !in m.contexts.items then Outcome(m, Unanswered(DoesNotExist(name)))
    else
      var asked := AddMessage(m.contexts.items[name], "user", prompt);
      var m1 := m.(contexts := PyDict.Put(m.contexts, name, asked));
      match client(asked)
      case Raised(t, e) => Outcome(m1, PromptFaulted(t, e, "Error sending prompt for context " + Quoted(name)))
      case Returned(reply) =>
        if reply.Some? && reply.value != "" then
          var answered := AddMessage(asked, "assistant", reply.value);
          Outcome(Save(m.(contexts := PyDict.Put(m.contexts, name, answered)), answered), Answered(reply.value))
        else Outcome(m1, Unanswered(NoResponse))
  }

  /**
   * The history `copy_context` gives the copy: the whole history, or
   * `[h[0]] + h[-n:]` with Python's slice rules; `None` for the `IndexError`
   * of `h[0]` on an empty history.
   */
  function CopyHistory(h: seq<Entry>, numMessages: Option<int>): (r: Option<seq<Entry>>)
    ensures numMessages.None? ==> r == Some(h)
    ensures numMessages.Some? ==> (r.None? <==> h == [])
  {
    match numMessages
    case None => Some(h)
    case Some(n) => if h == [] then None else Some([h[0]] + PySlice.From(h, -n))
  }

  /**
   * With `n >= 1` the copy starts with the source's first entry followed by
   * its last `min(n, len)` entries; the first entry can therefore appear twice.
   */
  lemma CopyKeepsFirstAndLast(h: seq<Entry>, n: int)
    requires n >= 1 && h != []
    ensures CopyHistory(h, Some(n)).Some?
    ensures var r := CopyHistory(h, Some(n)).value;
      && r[0] == h[0]
      && |r| == 1 + (if n <= |h| then n else |h|)
      && r[1..] == h[(if |h| >= n then |h| - n else 0)..]
  {
    PySlice.LastN(h, n);
  }

  /** `num_messages=0` keeps everything, behind a second copy of the first entry (`h[-0:]` is `h`). */
  lemma CopyZeroKeepsAll(h: seq<Entry>)
    requires h != []
    ensures CopyHistory(h, Some(0)) == Some([h[0]] + h)
    ensures |CopyHistory(h, Some(0)).value| == |h| + 1
  {
    PySlice.MinusZero(h);
  }

  /**
   * `copy_context`: refused when the source is absent or the destination
   * taken; otherwise a new context under `dst` with the source's service,
   * model, prompt and settings and the copied history, saved. The source is
   * untouched. An empty source history with a message limit faults before
   * anything is stored.
   */
  function CopyContext(m: Manager, src: string, dst: string, numMessages: Option<int>): (r: Outcome<Status>)
    ensures src !in m.contexts.items ==>
      r == Outcome(m, Refused("Source context " + Quoted(src) + " does not exist."))
    ensures src in m.contexts.items && dst in m.contexts.items ==> r == Outcome(m, Refused(AlreadyExists(dst)))
    ensures src in m.contexts.items && dst !in m.contexts.items ==>
      var s := m.contexts.items[src];
      match CopyHistory(s.history, numMessages)
      case None =>
        r == Outcome(m, Faulted("IndexError", "list index out of range",
                                "Error copying context from " + Quoted(src) + " to " + Quoted(dst)))
      case Some(h) =>
        && r.status == Done("Context " + Quoted(dst) + " copied from " + Quoted(src) + ".")
        && r.next.contexts.items.Keys == m.contexts.items.Keys + {dst}
        && r.next.contexts.order == m.contexts.order + [dst]
        && (forall k :: k in m.contexts.items ==> r.next.contexts.items[k] == m.contexts.items[k])
        && r.next.contexts.items[dst] == Context(dst, s.service, s.model, s.systemPrompt, s.settings, h)
        && r.next == Save(m.(contexts := r.next.contexts), r.next.contexts.items[dst])
    ensures Valid(m) ==> Valid(r.next)
  {
    if src !in m.contexts.items then Outcome(m, Refused("Source context " + Quoted(src) + " does not exist."))
    else if dst in m.contexts.items then Outcome(m, Refused(AlreadyExists(dst)))
    else
      var s := m.contexts.items[src];
      match CopyHistory(s.history, numMessages)
      case None =>
        Outcome(m, Faulted("IndexError", "list index out of range",
                           "Error copying context from " + Quoted(src) + " to " + Quoted(dst)))
      case Some(h) =>
        var c := Context(dst, s.service, s.model, s.systemPrompt, s.settings, h);
        Outcome(Save(m.(contexts := PyDict.Put(m.contexts, dst, c)), c),
                Done("Context " + Quoted(dst) + " copied from " + Quoted(src) + "."))
  }

  /** Creating a fresh context and deleting it restores the context map exactly (order included). */
  lemma CreateThenDelete(m: Manager, name: string, service: string, model: string, systemPrompt: string,
                         settings: Option<Settings>, defaults: string -> Settings)
    requires Valid(m)
    requires name !in m.contexts.items
    ensures var created := CreateContext(m, name, service, model, systemPrompt, settings, defaults).next;
      var deleted := DeleteContext(created, name);
      deleted.status.Done? && deleted.next.contexts == m.contexts
  {
    var c := CreateContext(m, name, service, model, systemPrompt, settings, defaults).next.contexts.items[name];
    PyDict.PutRemoveFresh(m.contexts, name, c);
  }

  /** After a delete the name is gone, and deleting it again is refused without change. */
  lemma DeleteTwice(m: Manager, name: string)
    requires name in m.contexts.items
    ensures var once := DeleteContext(m, name).next;
      && GetContext(once, name).None?
      && DeleteContext(once, name) == Outcome(once, Refused(DoesNotExist(name)))
  {
  }

  /**
   * Create `name`, then send `prompt` through a client that answers
   * `reply`: the history is system, user, assistant, and the stored record
   * matches the context.
   */
  lemma CreateThenSend(m: Manager, name: string, service: string, model: string, systemPrompt: string,
                       defaults: string -> Settings, prompt: string, reply: string, client: Client)
    requires name !in m.contexts.items && m.store.Some?
    requires reply != ""
    requires forall c: Context :: client(c) == Returned(Some(reply))
    ensures var created := CreateContext(m, name, service, model, systemPrompt, None, defaults).next;
      var sent := SendPrompt(created, name, prompt, client);
      && sent.status == Answered(reply)
      && sent.next.contexts.items[name].history ==
           [Message("system", systemPrompt), Message("user", prompt), Message("assistant", reply)]
      && sent.next.store.Some?
      && sent.next.store.value[name] == ToRecord(sent.next.contexts.items[name])
  {
    var created := CreateContext(m, name, service, model, systemPrompt, None, defaults).next;
    var c := created.contexts.items[name];
    var asked := AddMessage(c, "user", prompt);
    assert client(asked) == Returned(Some(reply));
  }
}
