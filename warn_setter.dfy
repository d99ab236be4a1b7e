/**
  The `warn` property installed on every object by scripts/ecmarkup.js,
  lines 29-51. Until an object is first assigned a `warn` value, reading
  `warn` yields undefined. The first assignment decides, once, whether the
  handler is wrapped by the warning filter: it is wrapped exactly when the
  object carries, as its own properties, the four fields of the build
  tool's options object. The assignment then leaves an ordinary writable
  `warn` property on the object, so every later assignment is a plain
  overwrite.
 */
module WarnSetter {
  import opened Wrappers
  import opened WarningFilter

  /** The own fields that identify the build tool's options object. */
  const OptionsFields: set<string> := {"multipage", "outfile", "extraBiblios", "lintSpec"}

  /** The options-object test of the setter: every field is an own property
      (`Object.hasOwn`); inherited properties are not consulted. */
  predicate IsOptionsObject(ownFields: set<string>)
  {
    OptionsFields <= ownFields
  }

  /** A value held by an object's own `warn` property: the assigned handler,
      either as assigned or as returned by `wrapWarnFunction`. */
  datatype Handler = Plain(target: Sink) | Wrapped(target: Sink)

  /** Whether calling the held handler with a message reaches its target. */
  predicate Delivers(h: Handler, msg: string)
  {
    match h
    case Plain(_) => true
    case Wrapped(_) => !Suppressed(msg)
  }

  /** The own `warn` property after assigning `h` to an object whose own
      `warn` property was `current` (None: not yet defined). */
  function Assign(current: Option<Handler>, ownFields: set<string>, h: Sink): (r: Handler)
  {
    if current.Some? then Plain(h)
    else if IsOptionsObject(ownFields) then Wrapped(h)
    else Plain(h)
  }

  /** The own `warn` property after the assignments `hs`, in order, to an
      object that had none. */
  function AssignAll(ownFields: set<string>, hs: seq<Sink>): (r: Option<Handler>)
  {
    if hs == [] then None
    else Some(Assign(AssignAll(ownFields, hs[..|hs| - 1]), ownFields, hs[|hs| - 1]))
  }

  /** After any non-empty run of assignments, `warn` holds the last handler
      assigned, and it is wrapped exactly when that handler was the first and
      only one and the object is the options object. */
  lemma FirstAssignmentDecides(ownFields: set<string>, hs: seq<Sink>)
    requires |hs| > 0
    ensures AssignAll(ownFields, hs).Some?
    ensures AssignAll(ownFields, hs).value.target == hs[|hs| - 1]
    ensures AssignAll(ownFields, hs).value.Wrapped? <==> |hs| == 1 && IsOptionsObject(ownFields)
  {
  }

  /** Wrapping happens at most once per object: however many assignments are
      made, at most the first of them is stored wrapped. */
  lemma WrappedAtMostOnce(ownFields: set<string>, hs: seq<Sink>, i: nat, j: nat)
    requires i < j <= |hs|
    requires AssignAll(ownFields, hs[..i]).Some? && AssignAll(ownFields, hs[..i]).value.Wrapped?
    ensures AssignAll(ownFields, hs[..j]).Some? && AssignAll(ownFields, hs[..j]).value.Plain?
  {
    FirstAssignmentDecides(ownFields, hs[..i]);
    FirstAssignmentDecides(ownFields, hs[..j]);
  }

  /** An object whose lookup of `warn` reaches the accessor defined on
      `Object.prototype`, as far as its `warn` property goes. */
  class Target {
    /** The object's own properties other than `warn`. */
    const ownFields: set<string>
    /** The properties it inherits from its prototype chain. No operation
        reads them: they are kept only to show that the options-object test
        (`Object.hasOwn`) ignores inherited fields. */
    const inheritedFields: set<string>
    /** Its own `warn` data property; None until the first assignment. */
    var warn: Option<Handler>
    /** The handlers assigned to `warn` so far, in order. */
    ghost var history: seq<Sink>

    ghost predicate Valid()
      reads this
    {
      warn == AssignAll(ownFields, history)
    }

    constructor (ownFields: set<string>, inheritedFields: set<string>)
      ensures Valid()
      ensures this.ownFields == ownFields && this.inheritedFields == inheritedFields
      ensures history == [] && warn == None
    {
      this.ownFields := ownFields;
      this.inheritedFields := inheritedFields;
      warn := None;
      history := [];
    }

    /** Reading `warn`: the prototype getter yields undefined until the first
        assignment; afterwards the own property answers. */
    method Get() returns (v: Option<Handler>)
      requires Valid()
      ensures v.None? <==> history == []
      ensures v.Some? ==> v.value.target == history[|history| - 1]
      ensures v.Some? ==> (v.value.Wrapped? <==> |history| == 1 && IsOptionsObject(ownFields))
    {
      if |history| > 0 {
        FirstAssignmentDecides(ownFields, history);
      }
      v := warn;
    }

    /** Assigning `h` to `warn`: on the first assignment the prototype setter
        runs the options-object test and defines the own property; later
        assignments overwrite that property. */
    method Set(h: Sink)
      requires Valid()
      modifies this
      ensures Valid()
      ensures history == old(history) + [h]
      ensures old(warn).None? ==> warn == Some(if IsOptionsObject(ownFields) then Wrapped(h) else Plain(h))
      ensures old(warn).Some? ==> warn == Some(Plain(h))
    {
      var value := Plain(h);
      if warn.None? && IsOptionsObject(ownFields) {
        value := Wrapped(h);
      }
      warn := Some(value);
      history := history + [h];
      assert history[..|history| - 1] == old(history);
    }

    /** The build tool calling `warn(err)`: nothing is called while `warn` is
        undefined; a plain handler receives `err` itself, a wrapped one
        receives it only when the filter lets it through. */
    method Warn(err: Warning) returns (called: bool)
      modifies if warn.Some? then {warn.value.target} else {}
      ensures called <==> warn.Some?
      ensures warn == old(warn)
      ensures warn.Some? ==> warn.value.target.received
                             == old(warn.value.target.received)
                                + (if Delivers(warn.value, err.message) then [err] else [])
    {
      match warn
      case None =>
        called := false;
      case Some(Plain(h)) =>
        h.received := h.received + [err];
        called := true;
      case Some(Wrapped(h)) =>
        FilteredWarn(h, err);
        called := true;
    }
  }

  /** The build tool's run as the setter sees it: the options object is
      created with its four own fields, its handler is assigned to `warn`,
      and one warning is reported through `warn`. The handler receives the
      warning itself, unless the filter suppresses it. */
  method ReportThroughOptionsObject(msg: string) returns (received: seq<Warning>, err: Warning)
    ensures err.message == msg
    ensures received == if Suppressed(msg) then [] else [err]
  {
    var options := new Target(OptionsFields, {});
    var handler := new Sink();
    options.Set(handler);
    err := new Warning(msg);
    var _ := options.Warn(err);
    received := handler.received;
  }

  /** Any other object reaching the accessor, even one that inherits all
      four fields (which the test ignores), stores its handler unwrapped:
      every warning reaches the handler. */
  method ReportThroughOtherObject(msg: string, ownFields: set<string>, inheritedFields: set<string>)
    returns (received: seq<Warning>, err: Warning)
    requires !IsOptionsObject(ownFields)
    ensures err.message == msg
    ensures received == [err]
  {
    var other := new Target(ownFields, inheritedFields);
    var handler := new Sink();
    other.Set(handler);
    err := new Warning(msg);
    var _ := other.Warn(err);
    received := handler.received;
  }

  /** A second assignment to the options object's `warn` replaces the wrapped
      handler by the new one, unwrapped: the new handler receives every
      warning and the first one receives nothing more. */
  method ReportAfterReassignment(msg: string) returns (first: seq<Warning>, second: seq<Warning>, err: Warning)
    ensures err.message == msg
    ensures first == [] && second == [err]
  {
    var options := new Target(OptionsFields, {});
    var h1 := new Sink();
    var h2 := new Sink();
    options.Set(h1);
    options.Set(h2);
    err := new Warning(msg);
    var _ := options.Warn(err);
    first, second := h1.received, h2.received;
  }
}
