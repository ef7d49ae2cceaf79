/**
 * `PluginManager`: the registry of plugins found in the plugin directory.
 * The directory listing and the import of each module are inputs; the
 * filename filter, the name derivation, the registration rule and the
 * lookup and execution outcomes are modelled.
 */
module PluginManager {
  import opened Wrappers
  import PyDict
  import PySlice

  /** `filename.endswith('.py') and not filename.startswith('__')` */
  predicate IsCandidate(f: string) {
    && |f| >= 3 && f[|f| - 3..] == ".py"
    && !(|f| >= 2 && f[..2] == "__")
  }

  /** `filename[:-3]`: the name without its extension. */
  function PluginName(f: string): (r: string)
    requires IsCandidate(f)
    ensures f == r + ".py"
  {
    var r := PySlice.Upto(f, -3);
    assert r == f[..|f| - 3];
    assert f == f[..|f| - 3] + f[|f| - 3..];
    r
  }

  /** Every module name not starting `__` has a candidate file, whose name gives it back. */
  lemma CandidateFile(n: string)
    requires !(|n| >= 2 && n[..2] == "__")
    ensures IsCandidate(n + ".py") && PluginName(n + ".py") == n
  {
    var f := n + ".py";
    assert f[|f| - 3..] == ".py";
    if |n| >= 2 {
      assert f[..2] == n[..2];
    } else if |n| == 1 {
      assert f[1] == '.';
    } else {
      assert f[0] == '.';
    }
  }

  /** The filter refuses exactly the files without `.py` and the dunder files. */
  lemma NonCandidates(f: string)
    ensures !IsCandidate(f) <==> |f| < 3 || f[|f| - 3..] != ".py" || (|f| >= 2 && f[..2] == "__")
  {
  }

  /** What importing a candidate module and calling its hook gave. */
  datatype Module<P> =
    | ImportFailed(error: string)              // import_module raised
    | NoRegisterHook                           // no `register_plugin` attribute
    | Registers(hook: Result<Option<P>>)       // `register_plugin()` returned (None allowed) or raised

  /** The module registers something (possibly `None`) under its name. */
  predicate Loads<P>(m: Module<P>) {
    m.Registers? && m.hook.Success?
  }

  /** One iteration of the loading loop; failures are logged and skipped. */
  function LoadStep<P>(plugins: PyDict.Dict<Option<P>>, f: string, importer: string -> Module<P>): (r: PyDict.Dict<Option<P>>)
    ensures IsCandidate(f) && Loads(importer(PluginName(f))) ==>
      r == PyDict.Put(plugins, PluginName(f), importer(PluginName(f)).hook.value)
    ensures !(IsCandidate(f) && Loads(importer(PluginName(f)))) ==> r == plugins
  {
    if IsCandidate(f) && Loads(importer(PluginName(f))) then
      PyDict.Put(plugins, PluginName(f), importer(PluginName(f)).hook.value)
    else plugins
  }

  /** The registry after the loop has seen the files `fs`, in listing order. */
  function Loaded<P>(fs: seq<string>, importer: string -> Module<P>): PyDict.Dict<Option<P>> {
    if fs == [] then PyDict.Empty()
    else LoadStep(Loaded(fs[..|fs| - 1], importer), fs[|fs| - 1], importer)
  }

  /** Among `fs`, some candidate file names the plugin `k` and its module loads. */
  predicate Registrable<P>(fs: seq<string>, importer: string -> Module<P>, k: string) {
    exists i :: 0 <= i < |fs| && IsCandidate(fs[i]) && PluginName(fs[i]) == k && Loads(importer(k))
  }

  /**
   * A plugin is registered exactly when some candidate file names it and its
   * module loads: a file that fails does not keep the others out.
   */
  lemma {:induction false} LoadedKeys<P>(fs: seq<string>, importer: string -> Module<P>)
    ensures PyDict.Valid(Loaded(fs, importer))
    ensures forall k :: k in Loaded(fs, importer).items <==> Registrable(fs, importer, k)
  {
    if fs != [] {
      var init := fs[..|fs| - 1];
      LoadedKeys(init, importer);
      forall k ensures Registrable(fs, importer, k) <==>
        (Registrable(init, importer, k)
         || (IsCandidate(fs[|fs| - 1]) && PluginName(fs[|fs| - 1]) == k && Loads(importer(k))))
      {
        if Registrable(fs, importer, k) {
          var i :| 0 <= i < |fs| && IsCandidate(fs[i]) && PluginName(fs[i]) == k && Loads(importer(k));
          if i < |fs| - 1 {
            assert init[i] == fs[i];
          }
        }
        if Registrable(init, importer, k) {
          var i :| 0 <= i < |init| && IsCandidate(init[i]) && PluginName(init[i]) == k && Loads(importer(k));
          assert fs[i] == init[i];
        }
      }
    }
  }

  /** The value registered under a name comes from the last file that loaded it. */
  lemma {:induction false} LoadedValue<P>(fs: seq<string>, importer: string -> Module<P>, k: string)
    requires k in Loaded(fs, importer).items
    ensures Loads(importer(k)) && Loaded(fs, importer).items[k] == importer(k).hook.value
  {
    var init := fs[..|fs| - 1];
    var f := fs[|fs| - 1];
    if !(IsCandidate(f) && Loads(importer(PluginName(f))) && PluginName(f) == k) {
      LoadedValue(init, importer, k);
    }
  }

  /** `load_plugins`, run on the directory listing `files`. */
  method LoadPlugins<P>(files: seq<string>, importer: string -> Module<P>) returns (plugins: PyDict.Dict<Option<P>>)
    ensures plugins == Loaded(files, importer)
    ensures PyDict.Valid(plugins)
    ensures forall k :: k in plugins.items <==> Registrable(files, importer, k)
  {
    plugins := PyDict.Empty();
    var i := 0;
    while i < |files|
      invariant 0 <= i <= |files|
      invariant plugins == Loaded(files[..i], importer)
    {
      assert files[..i + 1][..i] == files[..i];
      plugins := LoadStep(plugins, files[i], importer);
      i := i + 1;
    }
    assert files[..|files|] == files;
    LoadedKeys(files, importer);
  }

  /** `get_plugin`: `None` for an unregistered name and for a hook that returned `None`. */
  function GetPlugin<P>(plugins: PyDict.Dict<Option<P>>, name: string): (r: Option<P>)
    ensures name !in plugins.items ==> r.None?
    ensures name in plugins.items ==> r == plugins.items[name]
  {
    match PyDict.Get(plugins, name)
    case None => None
    case Some(p) => p
  }

  /**
   * `execute_plugin`: the plugin's result, or `None` when no plugin is
   * registered under the name or its `execute` raises. `run` is the
   * plugin's `execute` applied to the call's arguments.
   */
  function ExecutePlugin<P, A, R>(plugins: PyDict.Dict<Option<P>>, name: string, args: A, run: (P, A) -> Result<R>): (r: Option<R>)
    ensures GetPlugin(plugins, name).None? ==> r.None?
    ensures GetPlugin(plugins, name).Some? ==>
      match run(GetPlugin(plugins, name).value, args)
      case Success(v) => r == Some(v)
      case Failure(_) => r.None?
  {
    match GetPlugin(plugins, name)
    case None => None
    case Some(p) =>
      match run(p, args)
      case Success(v) => Some(v)
      case Failure(_) => None
  }

  /** `list_plugins`: every registered name once, in registration order. */
  function ListPlugins<P>(plugins: PyDict.Dict<Option<P>>): (r: seq<string>)
    requires PyDict.Valid(plugins)
    ensures PyDict.Distinct(r)
    ensures forall k :: k in r <==> k in plugins.items
  {
    plugins.order
  }

  /**
   * A file that registers a new plugin puts its name last in the listing; a
   * plugin registered again keeps its place.
   */
  lemma RegistrationOrder<P>(fs: seq<string>, f: string, importer: string -> Module<P>)
    requires IsCandidate(f) && Loads(importer(PluginName(f)))
    ensures PyDict.Valid(Loaded(fs, importer)) && PyDict.Valid(Loaded(fs + [f], importer))
    ensures ListPlugins(Loaded(fs + [f], importer)) ==
            if PluginName(f) in Loaded(fs, importer).items then ListPlugins(Loaded(fs, importer))
            else ListPlugins(Loaded(fs, importer)) + [PluginName(f)]
  {
    LoadedKeys(fs, importer);
    LoadedKeys(fs + [f], importer);
    assert (fs + [f])[..|fs|] == fs;
  }

  /**
   * A listing whose only plugin file fails to import next to one that
   * registers: the good one is listed, the failure skipped.
   */
  lemma FailureDoesNotStopOthers<P>(importer: string -> Module<P>, p: P)
    requires importer("broken").ImportFailed?
    requires importer("example_plugin") == Registers(Success(Some(p)))
    ensures Loaded(["broken.py", "__init__.py", "example_plugin.py", "README.md"], importer).order == ["example_plugin"]
  {
    var fs := ["broken.py", "__init__.py", "example_plugin.py", "README.md"];
    assert IsCandidate("broken.py") && PluginName("broken.py") == "broken" by {
      assert "broken.py"[..2] == "br" && "broken.py"[6..] == ".py";
      assert "broken.py" == "broken" + ".py";
    }
    assert !IsCandidate("__init__.py") by { assert "__init__.py"[..2] == "__"; }
    assert IsCandidate("example_plugin.py") && PluginName("example_plugin.py") == "example_plugin" by {
      assert "example_plugin.py"[..2] == "ex" && "example_plugin.py"[14..] == ".py";
      assert "example_plugin.py" == "example_plugin" + ".py";
    }
    assert !IsCandidate("README.md") by { assert "README.md"[6..] == ".md"; }
    var f1, f2, f3 := ["broken.py"], ["broken.py", "__init__.py"], ["broken.py", "__init__.py", "example_plugin.py"];
    assert f1[..0] == [] && f2[..1] == f1 && f3[..2] == f2 && fs[..3] == f3;
    assert Loaded(f1, importer) == PyDict.Empty();
    assert Loaded(f2, importer) == PyDict.Empty();
    assert Loaded(f3, importer).order == ["example_plugin"];
  }
}
