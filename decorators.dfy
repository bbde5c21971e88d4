/**
 * The `lambda_handler` decorator (`utils/decorators.py`): whatever the
 * wrapped handler returns becomes a dict stamped with the request's
 * correlation id, and whatever it raises becomes an error dict. What the
 * handler did is given as its outcome; the correlation id (`str(uuid4())`)
 * is a parameter.
 */
module Decorators {
  import opened Py

  /** `{"result": v}` for a list or a string, `{"data": v}` for any other value that is not a dict. */
  function AsDict(v: Value): (e: seq<(string, Value)>)
    ensures v.Dict? ==> e == v.entries
    ensures !v.Dict? ==> |e| == 1 && e[0].1 == v && (e[0].0 == "result" <==> v.List? || v.Str?)
  {
    if v.Dict? then v.entries
    else if v.List? || v.Str? then [("result", v)]
    else [("data", v)]
  }

  /** The TypeError of `m["correlation_id"] = ...` when `m` is not a dict (CPython 3.11 wording). */
  function AssignmentError(m: Value): (e: Exc)
    requires !m.Dict?
    ensures e.cls == TypeError
  {
    if m.List? then Exc(TypeError, "list indices must be integers or slices, not str")
    else Exc(TypeError, "'" + TypeName(m) + "' object does not support item assignment")
  }

  /**
   * `if "metadata" not in result: result["metadata"] = {}` followed by
   * `result["metadata"]["correlation_id"] = correlation_id`.
   */
  function Stamp(result: seq<(string, Value)>, correlationId: string): (r: Result<seq<(string, Value)>>)
    ensures r.Err? <==> Lookup(result, "metadata").Some? && !Lookup(result, "metadata").value.Dict?
    ensures r.Err? ==> r.exc.cls == TypeError
  {
    match Lookup(result, "metadata")
    case None => Ok(Store(result, "metadata", Dict([("correlation_id", Str(correlationId))])))
    case Some(m) =>
      if m.Dict? then Ok(Store(result, "metadata", Dict(Store(m.entries, "correlation_id", Str(correlationId)))))
      else Err(AssignmentError(m))
  }

  /** The error dict built in both `except` branches. */
  function ErrorResponse(handler: string, correlationId: string, e: Exc): (r: Value)
    ensures r.Dict? && Keys(r.entries) == ["error", "metadata"]
  {
    var kind := if IsValueError(e.cls) then "ValidationError" else ClassName(e.cls);
    Dict([
      ("error", Dict([("type", Str(kind)), ("message", Str(e.message)), ("correlation_id", Str(correlationId))])),
      ("metadata", Dict([("correlation_id", Str(correlationId)), ("handler", Str(handler))]))])
  }

  /**
   * The decorated handler `handler` on a request with correlation id
   * `correlationId`, given what the undecorated handler did. The stamping
   * runs inside the `try`, so its own TypeError is turned into an error dict
   * as well. Only the model's own `OutOfModel` outcome passes through.
   */
  function Wrap(handler: string, correlationId: string, outcome: Result<Value>): (r: Result<Value>)
    ensures r.Err? <==> outcome.Err? && outcome.exc.cls == OutOfModel
    ensures r.Err? ==> r == outcome
    ensures r.Ok? ==> r.value.Dict?
  {
    match outcome
    case Err(e) => if e.cls == OutOfModel then Err(e) else Ok(ErrorResponse(handler, correlationId, e))
    case Ok(v) =>
      match Stamp(AsDict(v), correlationId)
      case Ok(entries) => Ok(Dict(entries))
      case Err(e) => Ok(ErrorResponse(handler, correlationId, e))
  }

  // ---------------------------------------------------------------------------
  // Properties

  /** Every response, successful or not, carries the correlation id under `metadata`. */
  lemma StampedEverywhere(handler: string, correlationId: string, outcome: Result<Value>)
    requires outcome.Ok? || outcome.exc.cls != OutOfModel
    ensures var r := Wrap(handler, correlationId, outcome);
      r.Ok? && Lookup(r.value.entries, "metadata").Some?
      && Lookup(r.value.entries, "metadata").value.Dict?
      && Lookup(Lookup(r.value.entries, "metadata").value.entries, "correlation_id") == Some(Str(correlationId))
  {
    if outcome.Ok? {
      var e := AsDict(outcome.value);
      match Lookup(e, "metadata")
      case None =>
        LookupStore(e, "metadata", Dict([("correlation_id", Str(correlationId))]), "metadata");
      case Some(m) =>
        if m.Dict? {
          LookupStore(e, "metadata", Dict(Store(m.entries, "correlation_id", Str(correlationId))), "metadata");
          LookupStore(m.entries, "correlation_id", Str(correlationId), "correlation_id");
        }
    }
  }

  /** A dict result is returned with its own entries: every key other than `metadata` keeps its value and its place. */
  lemma DictResultKept(handler: string, correlationId: string, d: seq<(string, Value)>, k: string)
    requires Lookup(d, "metadata").None? || Lookup(d, "metadata").value.Dict?
    ensures var r := Wrap(handler, correlationId, Ok(Dict(d)));
      && r.Ok? && r.value.Dict?
      && Keys(r.value.entries) == (if "metadata" in Keys(d) then Keys(d) else Keys(d) + ["metadata"])
      && (k != "metadata" ==> Lookup(r.value.entries, k) == Lookup(d, k))
  {
    var cid := Str(correlationId);
    var meta := match Lookup(d, "metadata")
      case None => Dict([("correlation_id", cid)])
      case Some(m) => Dict(Store(m.entries, "correlation_id", cid));
    assert Stamp(d, correlationId) == Ok(Store(d, "metadata", meta));
    LookupStore(d, "metadata", meta, k);
    KeysStore(d, "metadata", meta);
  }

  /** An existing metadata dict keeps every key other than `correlation_id`, which it gains or has overwritten. */
  lemma MetadataKept(handler: string, correlationId: string, d: seq<(string, Value)>, m: seq<(string, Value)>, k: string)
    requires Lookup(d, "metadata") == Some(Dict(m))
    ensures var r := Wrap(handler, correlationId, Ok(Dict(d)));
      && r.Ok? && r.value.Dict?
      && var meta := Lookup(r.value.entries, "metadata");
      && meta.Some? && meta.value.Dict?
      && Lookup(meta.value.entries, k) == (if k == "correlation_id" then Some(Str(correlationId)) else Lookup(m, k))
  {
    var cid := Str(correlationId);
    var meta := Dict(Store(m, "correlation_id", cid));
    assert Stamp(d, correlationId) == Ok(Store(d, "metadata", meta));
    LookupStore(d, "metadata", meta, "metadata");
    LookupStore(m, "correlation_id", cid, k);
  }

  /** A list or a string is wrapped under `result`, any other value that is not a dict under `data`. */
  lemma NonDictWrapped(handler: string, correlationId: string, v: Value)
    requires !v.Dict?
    ensures Wrap(handler, correlationId, Ok(v)) ==
      Ok(Dict([(if v.List? || v.Str? then "result" else "data", v), ("metadata", Dict([("correlation_id", Str(correlationId))]))]))
  {
    var key := if v.List? || v.Str? then "result" else "data";
    assert AsDict(v) == [(key, v)];
    SingleEntryStamped(handler, correlationId, key, v);
  }

  /** A one-entry dict result gains the metadata entry after its own. */
  lemma SingleEntryStamped(handler: string, correlationId: string, k: string, v: Value)
    requires k != "metadata"
    ensures Wrap(handler, correlationId, Ok(Dict([(k, v)]))) ==
      Ok(Dict([(k, v), ("metadata", Dict([("correlation_id", Str(correlationId))]))]))
  {
    var meta := Dict([("correlation_id", Str(correlationId))]);
    assert Lookup([(k, v)], "metadata") == None;
    assert [(k, v)][1..] == [];
    assert Store([(k, v)], "metadata", meta) == [(k, v), ("metadata", meta)];
  }

  /** A metadata entry that is not a dict makes the stamping itself fail, and that TypeError is reported. */
  lemma BadMetadataReported(handler: string, correlationId: string, d: seq<(string, Value)>, m: Value)
    requires Lookup(d, "metadata") == Some(m) && !m.Dict?
    ensures var r := Wrap(handler, correlationId, Ok(Dict(d)));
      r.Ok? && Lookup(r.value.entries, "error").Some?
      && Lookup(Lookup(r.value.entries, "error").value.entries, "type") == Some(Str("TypeError"))
  {
    var e := AssignmentError(m);
    assert e.cls == TypeError && !IsValueError(e.cls) && ClassName(e.cls) == "TypeError";
    assert Stamp(d, correlationId) == Err(e);
    assert Wrap(handler, correlationId, Ok(Dict(d))) == Ok(ErrorResponse(handler, correlationId, e));
    ErrorResponseFields(handler, correlationId, e);
  }

  /**
   * A raised exception becomes `{"error": {type, message, correlation_id},
   * "metadata": {correlation_id, handler}}`; its type is `ValidationError`
   * exactly for ValueError and its subclasses.
   */
  lemma ErrorShape(handler: string, correlationId: string, e: Exc)
    requires e.cls != OutOfModel
    ensures var r := Wrap(handler, correlationId, Err(e));
      && r.Ok? && Keys(r.value.entries) == ["error", "metadata"]
      && var err := Lookup(r.value.entries, "error").value;
      && err.Dict? && Keys(err.entries) == ["type", "message", "correlation_id"]
      && Lookup(err.entries, "message") == Some(Str(e.message))
      && Lookup(err.entries, "correlation_id") == Some(Str(correlationId))
      && (Lookup(err.entries, "type") == Some(Str("ValidationError")) <==> IsValueError(e.cls))
      && Lookup(Lookup(r.value.entries, "metadata").value.entries, "handler") == Some(Str(handler))
  {
    NoClassNamedValidation(e.cls);
    ErrorResponseFields(handler, correlationId, e);
  }

  /** The entries of the error dict, one by one. */
  lemma ErrorResponseFields(handler: string, correlationId: string, e: Exc)
    ensures var r := ErrorResponse(handler, correlationId, e);
      && r.Dict? && Keys(r.entries) == ["error", "metadata"]
      && var err := Lookup(r.entries, "error");
      && err.Some? && err.value.Dict? && Keys(err.value.entries) == ["type", "message", "correlation_id"]
      && Lookup(err.value.entries, "type") == Some(Str(if IsValueError(e.cls) then "ValidationError" else ClassName(e.cls)))
      && Lookup(err.value.entries, "message") == Some(Str(e.message))
      && Lookup(err.value.entries, "correlation_id") == Some(Str(correlationId))
      && var meta := Lookup(r.entries, "metadata");
      && meta.Some? && meta.value.Dict?
      && Lookup(meta.value.entries, "handler") == Some(Str(handler))
  {
  }

  /** No exception class is itself called `ValidationError`. */
  lemma NoClassNamedValidation(c: ExcClass)
    ensures ClassName(c) != "ValidationError"
  {
  }
}
