/**
 * Generation settings. The defaults come from an object built by
 * `game_settings.get_default_settings` (attribute access), but a caller may
 * also hand `create_context` a plain dict (the HTTP route passes `{}`), on
 * which attribute access fails. Numeric parameters that are floats in the
 * source are carried as their literal text and never computed with.
 */
module Settings {
  import opened Wrappers

  datatype Param =
    | PBool(b: bool)
    | PInt(i: int)
    | PFloat(literal: string)
    | PText(s: string)
    | PNone
    | POpaque(tag: string)   // tool definitions and other values passed through untouched

  /** Python truthiness. A float flag is read as set (see README, Left out). */
  predicate Truthy(p: Param) {
    match p
    case PBool(b) => b
    case PInt(i) => i != 0
    case PFloat(_) => true
    case PText(s) => s != ""
    case PNone => false
    case POpaque(_) => true
  }

  datatype Settings =
    | Attrs(className: string, fields: map<string, Param>)   // a settings object
    | PlainDict(entries: map<string, Param>)                 // a dict passed in by a caller

  /** What `to_dict` stores: the object's `__dict__`, or the dict itself. */
  function Stored(s: Settings): (r: map<string, Param>)
    ensures s.Attrs? ==> r == s.fields
    ensures s.PlainDict? ==> r == s.entries
  {
    match s
    case Attrs(_, f) => f
    case PlainDict(e) => e
  }

  /** `settings.key`: only an object has attributes. */
  function Attr(s: Settings, key: string): (r: Result<Param>)
    ensures r.Success? <==> s.Attrs? && key in s.fields
    ensures r.Success? ==> r.value == s.fields[key]
    ensures s.PlainDict? ==> r == Failure(MissingAttribute("dict", key))
  {
    match s
    case Attrs(c, f) => if key in f then Success(f[key]) else Failure(MissingAttribute(c, key))
    case PlainDict(_) => Failure(MissingAttribute("dict", key))
  }

  /**
   * The attributes `keys`, read left to right as the keyword arguments of a
   * request are evaluated; the first missing one raises.
   */
  function ReadAll(s: Settings, keys: seq<string>): (r: Result<seq<Param>>)
    ensures r.Success? <==> forall i :: 0 <= i < |keys| ==> Attr(s, keys[i]).Success?
    ensures r.Success? ==> |r.value| == |keys|
    ensures r.Success? ==> forall i :: 0 <= i < |keys| ==> Attr(s, keys[i]) == Success(r.value[i])
    ensures r.Failure? ==>
      exists i :: (0 <= i < |keys| && Attr(s, keys[i]) == Failure(r.error) &&
                   forall j :: 0 <= j < i ==> Attr(s, keys[j]).Success?)
  {
    if keys == [] then Success([])
    else match Attr(s, keys[0])
      case Failure(e) => Failure(e)
      case Success(p) =>
        match ReadAll(s, keys[1..])
        case Failure(e) =>
          assert exists i :: (0 <= i < |keys| && Attr(s, keys[i]) == Failure(e) &&
                              forall j :: 0 <= j < i ==> Attr(s, keys[j]).Success?) by {
            var i :| 0 <= i < |keys[1..]| && Attr(s, keys[1..][i]) == Failure(e) &&
              forall j :: 0 <= j < i ==> Attr(s, keys[1..][j]).Success?;
            assert Attr(s, keys[i + 1]) == Failure(e);
            forall j | 0 <= j < i + 1 ensures Attr(s, keys[j]).Success? {
              if j > 0 { assert keys[j] == keys[1..][j - 1]; }
            }
          }
          Failure(e)
        case Success(ps) => Success([p] + ps)
  }

  /**
   * `from_dict`'s loop `setattr(settings, key, value)` over the stored map:
   * on an object every stored key overrides or adds an attribute; a dict
   * accepts no `setattr`, so a non-empty stored map makes the load fail.
   */
  function Overlay(base: Settings, stored: map<string, Param>): (r: Option<Settings>)
    ensures r.None? <==> base.PlainDict? && stored != map[]
    ensures base.Attrs? ==> r.Some? && r.value.Attrs? && r.value.className == base.className
    ensures base.Attrs? ==> r.value.fields.Keys == base.fields.Keys + stored.Keys
    ensures base.Attrs? ==> forall k :: k in stored ==> r.value.fields[k] == stored[k]
    ensures base.Attrs? ==> forall k :: k in base.fields && k !in stored ==> r.value.fields[k] == base.fields[k]
    ensures base.PlainDict? && stored == map[] ==> r == Some(base)
  {
    match base
    case Attrs(c, f) => Some(Attrs(c, f + stored))
    case PlainDict(_) => if stored == map[] then Some(base) else None
  }
}
