# ecmarkup warning filter — a verified model

The repository builds its specification with the external `ecmarkup` tool.
It does so through one script, `scripts/ecmarkup.js`, which sits in front of
that tool and silences warnings known to be spurious. The script does two
things, and this project models both:

* **The warning filter** (`wrapWarnFunction`, module `WarningFilter`). It
  takes a warning handler and returns a handler that drops a warning when its
  message contains `Completion Record` or `an abrupt completion`, or when the
  whole message is `could not find definition for module_decode` or
  `could not find definition for HTTP`. The last two are matched with the
  anchored pattern `^could not find definition for (\w+)$` and a switch on the
  captured word. Every other warning goes, unchanged and once, to the original
  handler.
* **The `warn` setter** (module `WarnSetter`). The script gives every object a
  `warn` property. Reading it yields `undefined` until it is first assigned.
  The first assignment wraps the handler only if the object has all four own
  fields `multipage`, `outfile`, `extraBiblios` and `lintSpec`, which marks
  ecmarkup's options object. The value is then stored as an ordinary own,
  writable property, so later assignments simply overwrite it.

Files:

* `wrappers.dfy`: the `Option` datatype.
* `warning_filter.dfy`: the filter. It has warning events (a class, so that a
  forwarded event is the very same object), the original handler as a `Sink`
  that records what it receives, and the substring test (`Contains`, proved
  against the specification `Occurs`). It also has the word-character class,
  the anchored pattern (`MatchDefinition`, proved against the pattern's
  language `DefinitionPattern`), the decision `Suppressed` and the handler
  itself (`FilteredWarn`).
* `warn_setter.dfy`: the setter. `Target` is an object whose lookup of `warn`
  reaches the accessor on `Object.prototype`. It holds its own
  fields, its inherited fields and its own `warn` property: `None` before the
  first assignment, otherwise `Plain(h)` or `Wrapped(h)`. A ghost history of
  the assigned handlers is tied to that property by the specification function
  `AssignAll`.

One consequence is proved beyond what the code states directly. A message of
the form `could not find definition for <tail>`, where the tail has no space,
can never contain either completion phrase. Both phrases contain a space, and
their first letters do not occur in the prefix. So for such messages the
filter's verdict depends only on whether the tail is `module_decode` or
`HTTP` (`DefinitionMessageVerdict`).

## Model

| member | source | states |
|---|---|---|
| `WarningFilter.Contains` | scripts/ecmarkup.js:4-5 | `String.prototype.includes`: the result is true exactly when the substring occurs at some position of the message (`Occurs`) |
| `WarningFilter.MatchDefinition` | scripts/ecmarkup.js:12 | the anchored regular expression: a capture is returned only when the message is the literal prefix followed by a non-empty run of ASCII word characters, and the capture is that run; when nothing is returned, no such split of the message exists |
| `WarningFilter.Suppressed` | scripts/ecmarkup.js:3-23 | a warning is dropped exactly when its message contains `Completion Record`, contains `an abrupt completion`, or equals `could not find definition for module_decode` or `could not find definition for HTTP` |
| `WarningFilter.FilteredWarn` | scripts/ecmarkup.js:2-26 | the wrapped handler: the original handler's log grows by exactly the event object itself when the message is not suppressed, and is unchanged otherwise |
| `WarningFilter.ForwardedCount` | scripts/ecmarkup.js:25 | over any run of reported events, each event that is not suppressed reaches the original handler exactly as many times as it was reported; suppressed events never reach it |
| `WarningFilter.ForwardedInOrder` | scripts/ecmarkup.js:25 | the filter never reorders: two forwarded events reach the original handler in the order in which they were reported |
| `WarningFilter.ForwardedIndex` | scripts/ecmarkup.js:25 | every event that is not suppressed appears among the forwarded events |
| `WarningFilter.ReportAll` | scripts/ecmarkup.js:2-26 | calling the filtering handler once per event, in order, leaves the original handler having received exactly `Forwarded(events)` after what it had before; this ties the lemmas on `Forwarded` to the handler itself |
| `WarningFilter.DefinitionMessageVerdict` | scripts/ecmarkup.js:3-21 | for `could not find definition for <tail>` with no space in the tail, the message is suppressed if and only if the tail is `module_decode` or `HTTP`, so `HTTPS`, `FooBar` and `HTTP(S)` are forwarded |
| `WarningFilter.SuppressedExamples` | scripts/ecmarkup.js:3-21 | messages containing either completion phrase, and the two exact definition messages, are suppressed |
| `WarningFilter.ForwardedDefinitionExamples` | scripts/ecmarkup.js:12-25 | `could not find definition for` followed by `FooBar`, `HTTPS`, `HTTP(S)` or `HTTP.` is forwarded |
| `WarningFilter.ForwardedPrefixedExample` | scripts/ecmarkup.js:12 | text before the prefix defeats the `^` anchor: `note: could not find definition for HTTP` is forwarded |
| `WarningFilter.ForwardedUnrelatedExample` | scripts/ecmarkup.js:25 | a message matching no rule (`some unrelated message`) is forwarded |
| `WarningFilter.NoPhraseInDefinitionMessage` | scripts/ecmarkup.js:3-12 | a completion phrase cannot occur in a definition message whose tail has no space |
| `WarnSetter.FirstAssignmentDecides` | scripts/ecmarkup.js:33-49 | after any non-empty run of assignments, `warn` holds the last handler assigned, and it is wrapped exactly when there was only one assignment and the object has the four own fields |
| `WarnSetter.WrappedAtMostOnce` | scripts/ecmarkup.js:44-49 | once `warn` has been stored wrapped, every later assignment stores its handler unwrapped: no re-detection, no re-wrapping |
| `WarnSetter.Target.Get` | scripts/ecmarkup.js:32-48 | reading `warn` yields undefined exactly when nothing has been assigned yet; otherwise it yields the last handler assigned, wrapped only when it was the first assignment on an options object |
| `WarnSetter.Target.Set` | scripts/ecmarkup.js:33-50 | the first assignment stores the handler wrapped if and only if all four fields are own fields (inherited ones are not consulted); any later assignment stores it plain; the history grows by the handler |
| `WarnSetter.Target.Warn` | scripts/ecmarkup.js:42-48 | calling the stored `warn`: a plain handler receives the event itself, a wrapped one receives it only when the filter does not suppress it; with `warn` still undefined nothing is called |
| `WarnSetter.ReportThroughOptionsObject` | scripts/ecmarkup.js:36-48 | on the options object, a reported warning reaches the assigned handler exactly when it is not suppressed |
| `WarnSetter.ReportThroughOtherObject` | scripts/ecmarkup.js:36-43 | on an object lacking any of the four own fields, even one that inherits them all, the handler receives every warning unfiltered |
| `WarnSetter.ReportAfterReassignment` | scripts/ecmarkup.js:44-49 | after a second assignment on the options object, the new handler receives every warning unfiltered and the first handler receives none |

## Left out

- `require("ecmarkup/bin/ecmarkup.js")` (line 53) hands control to the external tool, whose code is not part of this model. The tool's part is played by the callers of `Target.Set` and `Target.Warn`.
- Redefining `warn` on `Object.prototype` (lines 29-31) is modelled as per-object state: each `Target` starts without an own `warn`, and its `Get` and `Set` stand for the prototype accessor until the first assignment.
- The property attributes `enumerable` and `configurable` have no effect on filtering and are not modelled. Only `writable` is kept: later assignments overwrite the stored handler.
- Only the one anchored pattern is modelled, as a string predicate. No general regular-expression engine is modelled.
- Warning events without a `message` string make line 4 throw a `TypeError`. Here every `Warning` carries a message. Other properties of the event object are not modelled; the forwarded event is the same object.
- Only handlers (a `Sink`) can be assigned to `warn`. Assigning a non-function value, or `undefined`, is not modelled.
- The original handler's own behaviour is not modelled. It is a sink that records the events it receives, in order.
- Objects whose lookup of `warn` never reaches the accessor on `Object.prototype` are not modelled. Examples: an instance of a class with a `warn` method, an object whose prototype already has a `warn` data property, and an `Object.create(null)` object. For these, reading `warn` yields the inherited value (or nothing), and the first assignment makes a plain own property. No `Object.hasOwn` test runs, so the handler is never wrapped, even with all four own fields.
- The wrapper calls `originalWarn(err)` with no receiver and returns undefined (line 25). A plain handler is called as `obj.warn(err)`, with `this` bound to the object and its return value passed back. `Sink` records only the events it receives, so it captures neither difference.
- Own fields added to an object after its first `warn` assignment are not modelled. The options-object test reads the own fields as they are at that first assignment, and `Target.ownFields` is fixed.
- Target.Warn: calling `warn` while it is still undefined is a `TypeError` in JavaScript; here it is reported as `called == false` with no effect.
