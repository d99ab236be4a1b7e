/**
  The warning filter of scripts/ecmarkup.js, lines 1-27: `wrapWarnFunction`
  takes the build tool's warning handler and returns a handler that drops
  three families of known-spurious warnings and forwards every other warning,
  unchanged, to the original handler.
 */
module WarningFilter {
  import opened Wrappers

  /** A warning event raised by the build tool. Only its `message` is
      inspected; forwarding passes the very same object on. */
  class Warning {
    const message: string

    constructor (message: string)
      ensures this.message == message
    {
      this.message := message;
    }
  }

  /** The build tool's own warning handler: an opaque sink that records,
      in order, every event it is called with. */
  class Sink {
    var received: seq<Warning>

    constructor ()
      ensures received == []
    {
      received := [];
    }
  }

  const CompletionRecord: string := "Completion Record"
  const AbruptCompletion: string := "an abrupt completion"

  /** The literal part of `/^could not find definition for (\w+)$/`. */
  const DefinitionPrefix: string := "could not find definition for "

  /** `sub` occurs in `s` at some position (JavaScript `String.prototype.includes`). */
  ghost predicate Occurs(s: string, sub: string)
  {
    exists i :: OccursAt(s, sub, i)
  }

  ghost predicate OccursAt(s: string, sub: string, i: int)
  {
    0 <= i <= |s| - |sub| && s[i..i + |sub|] == sub
  }

  lemma OccursInTail(s: string, sub: string)
    requires |s| > 0
    ensures Occurs(s[1..], sub) ==> Occurs(s, sub)
    ensures Occurs(s, sub) && !(sub <= s) ==> Occurs(s[1..], sub)
  {
    if Occurs(s[1..], sub) {
      var i :| OccursAt(s[1..], sub, i);
      assert OccursAt(s, sub, i + 1);
    }
    if Occurs(s, sub) && !(sub <= s) {
      var i :| OccursAt(s, sub, i);
      assert i != 0 by {
        assert s[..|sub|] != sub;
      }
      assert OccursAt(s[1..], sub, i - 1);
    }
  }

  /** Substring search, scanning the start positions from left to right. */
  function Contains(s: string, sub: string): (r: bool)
    ensures r <==> Occurs(s, sub)
    decreases |s|
  {
    if sub <= s then
      assert OccursAt(s, sub, 0);
      true
    else if |s| == 0 then
      false
    else
      OccursInTail(s, sub);
      Contains(s[1..], sub)
  }

  /** A character of the class `\w` of a regular expression without the
      `u` flag: an ASCII letter, an ASCII digit or the underscore. */
  predicate IsWordChar(c: char)
  {
    ('a' <= c <= 'z') || ('A' <= c <= 'Z') || ('0' <= c <= '9') || c == '_'
  }

  predicate AllWordChars(s: string)
  {
    forall i :: 0 <= i < |s| ==> IsWordChar(s[i])
  }

  /** The language of `/^could not find definition for (\w+)$/`, with `name`
      the text of its capture group. */
  ghost predicate DefinitionPattern(msg: string, name: string)
  {
    msg == DefinitionPrefix + name && |name| > 0 && AllWordChars(name)
  }

  /** The capture group of the anchored definition pattern, if `msg` matches. */
  function MatchDefinition(msg: string): (r: Option<string>)
    ensures r.Some? ==> DefinitionPattern(msg, r.value)
    ensures r.None? ==> forall name :: !DefinitionPattern(msg, name)
  {
    var n := |DefinitionPrefix|;
    if DefinitionPrefix <= msg && |msg| > n && AllWordChars(msg[n..]) then
      assert msg == DefinitionPrefix + msg[n..];
      Some(msg[n..])
    else
      assert forall name :: DefinitionPattern(msg, name) ==> msg[n..] == name;
      None
  }

  /** The decision of the filtering handler: true when the warning is dropped. */
  function Suppressed(msg: string): (r: bool)
    ensures r <==> Occurs(msg, CompletionRecord) || Occurs(msg, AbruptCompletion)
                   || msg == DefinitionPrefix + "module_decode"
                   || msg == DefinitionPrefix + "HTTP"
  {
    if Contains(msg, CompletionRecord) || Contains(msg, AbruptCompletion) then
      true
    else
      assert DefinitionPattern(DefinitionPrefix + "module_decode", "module_decode");
      assert DefinitionPattern(DefinitionPrefix + "HTTP", "HTTP");
      match MatchDefinition(msg)
      case Some(name) => name == "module_decode" || name == "HTTP"
      case None => false
  }

  /** The handler returned by `wrapWarnFunction(original)`, applied to `err`. */
  method FilteredWarn(original: Sink, err: Warning)
    modifies original
    ensures original.received == old(original.received) + (if Suppressed(err.message) then [] else [err])
  {
    if Contains(err.message, CompletionRecord) || Contains(err.message, AbruptCompletion) {
      return;
    }
    var m := MatchDefinition(err.message);
    if m.Some? {
      if m.value == "module_decode" || m.value == "HTTP" {
        return;
      }
    }
    original.received := original.received + [err];
  }

  /** What the original handler has received after the filtering handler has
      been called once with each event of `events`, in order. */
  function Forwarded(events: seq<Warning>): (r: seq<Warning>)
  {
    if events == [] then []
    else Forwarded(events[..|events| - 1])
         + (if Suppressed(events[|events| - 1].message) then [] else [events[|events| - 1]])
  }

  /** The build tool reporting `events`, in order, through the filtering
      handler: the original handler receives exactly `Forwarded(events)`. */
  method ReportAll(original: Sink, events: seq<Warning>)
    modifies original
    ensures original.received == old(original.received) + Forwarded(events)
  {
    var i := 0;
    while i < |events|
      invariant 0 <= i <= |events|
      invariant original.received == old(original.received) + Forwarded(events[..i])
    {
      FilteredWarn(original, events[i]);
      assert events[..i + 1][..i] == events[..i];
      i := i + 1;
    }
    assert events[..i] == events;
  }

  /** A run of calls to the filtering handler forwards every event that is not
      suppressed exactly as many times as it was reported, and none other. */
  lemma {:induction false} ForwardedCount(events: seq<Warning>, e: Warning)
    ensures multiset(Forwarded(events))[e] == if Suppressed(e.message) then 0 else multiset(events)[e]
  {
    if events != [] {
      var init := events[..|events| - 1];
      ForwardedCount(init, e);
      assert events == init + [events[|events| - 1]];
    }
  }

  /** The filtering handler never reorders: what it forwards keeps the order in
      which the events were reported. */
  lemma {:induction false} ForwardedInOrder(events: seq<Warning>, i: nat, j: nat)
    requires i < j < |events|
    requires !Suppressed(events[i].message) && !Suppressed(events[j].message)
    ensures exists p, q :: 0 <= p < q < |Forwarded(events)|
                           && Forwarded(events)[p] == events[i] && Forwarded(events)[q] == events[j]
  {
    var init := events[..|events| - 1];
    if j < |events| - 1 {
      ForwardedInOrder(init, i, j);
      var p, q :| 0 <= p < q < |Forwarded(init)| && Forwarded(init)[p] == init[i] && Forwarded(init)[q] == init[j];
      assert Forwarded(events)[p] == events[i] && Forwarded(events)[q] == events[j];
    } else {
      var p := ForwardedIndex(init, i);
      assert Forwarded(events)[p] == events[i];
      assert Forwarded(events)[|Forwarded(init)|] == events[j];
    }
  }

  lemma {:induction false} ForwardedIndex(events: seq<Warning>, i: nat) returns (p: nat)
    requires i < |events| && !Suppressed(events[i].message)
    ensures p < |Forwarded(events)| && Forwarded(events)[p] == events[i]
  {
    var init := events[..|events| - 1];
    if i < |events| - 1 {
      p := ForwardedIndex(init, i);
    } else {
      p := |Forwarded(init)|;
    }
  }

  /** A `could not find definition for <tail>` message with no space in its
      tail never contains either completion phrase: both phrases hold a space,
      and their first letters ('C', 'a') do not appear in the prefix. */
  lemma NoPhraseInDefinitionMessage(tail: string, phrase: string, k: nat)
    requires forall j :: 0 <= j < |tail| ==> tail[j] != ' '
    requires k < |phrase| && phrase[k] == ' ' && phrase[0] !in DefinitionPrefix
    ensures !Occurs(DefinitionPrefix + tail, phrase)
  {
    var msg := DefinitionPrefix + tail;
    var n := |DefinitionPrefix|;
    forall i | 0 <= i <= |msg| - |phrase|
      ensures !OccursAt(msg, phrase, i)
    {
      if i < n {
        assert msg[i..i + |phrase|][0] == DefinitionPrefix[i] != phrase[0];
      } else {
        assert msg[i..i + |phrase|][k] == tail[i + k - n] != phrase[k];
      }
    }
  }

  /** For every message made of the definition prefix and a tail without a
      space (a word, `HTTPS`, `HTTP(S)`, a trailing full stop), the filter
      drops it exactly when the tail is `module_decode` or `HTTP`. */
  lemma DefinitionMessageVerdict(tail: string)
    requires forall j :: 0 <= j < |tail| ==> tail[j] != ' '
    ensures Suppressed(DefinitionPrefix + tail) <==> tail == "module_decode" || tail == "HTTP"
  {
    NoPhraseInDefinitionMessage(tail, CompletionRecord, 10);
    NoPhraseInDefinitionMessage(tail, AbruptCompletion, 2);
    if DefinitionPrefix + tail == DefinitionPrefix + "module_decode" {
      assert tail == (DefinitionPrefix + tail)[|DefinitionPrefix|..];
    }
    if DefinitionPrefix + tail == DefinitionPrefix + "HTTP" {
      assert tail == (DefinitionPrefix + tail)[|DefinitionPrefix|..];
    }
  }

  /** A message in which one character of `phrase` never appears cannot contain `phrase`. */
  lemma NoPhraseWithoutChar(msg: string, phrase: string, k: nat)
    requires k < |phrase| && phrase[k] !in msg
    ensures !Occurs(msg, phrase)
  {
    forall i | 0 <= i <= |msg| - |phrase|
      ensures !OccursAt(msg, phrase, i)
    {
      assert msg[i..i + |phrase|][k] == msg[i + k];
      assert msg[i + k] in msg;
    }
  }

  /** Worked examples of the suppression rules. */
  lemma SuppressedExamples()
    ensures Suppressed("Completion Record value may be abrupt")
    ensures Suppressed("this call may return an abrupt completion")
    ensures Suppressed(DefinitionPrefix + "module_decode")
    ensures Suppressed(DefinitionPrefix + "HTTP")
  {
    assert OccursAt("Completion Record value may be abrupt", CompletionRecord, 0);
    assert OccursAt("this call may return an abrupt completion", AbruptCompletion, 21);
  }

  /** Worked examples of definition messages the filter forwards: another
      word, a longer word, a non-word character in the tail, text after the
      word. */
  lemma ForwardedDefinitionExamples()
    ensures !Suppressed(DefinitionPrefix + "FooBar")
    ensures !Suppressed(DefinitionPrefix + "HTTPS")
    ensures !Suppressed(DefinitionPrefix + "HTTP(S)")
    ensures !Suppressed(DefinitionPrefix + "HTTP.")
  {
    DefinitionMessageVerdict("FooBar");
    DefinitionMessageVerdict("HTTPS");
    DefinitionMessageVerdict("HTTP(S)");
    DefinitionMessageVerdict("HTTP.");
  }

  /** Text before the pattern defeats the `^` anchor: the message is forwarded. */
  lemma ForwardedPrefixedExample()
    ensures !Suppressed("note: " + DefinitionPrefix + "HTTP")
  {
    NoPhraseWithoutChar("note: " + DefinitionPrefix + "HTTP", CompletionRecord, 0);
    NoPhraseWithoutChar("note: " + DefinitionPrefix + "HTTP", AbruptCompletion, 4);
  }

  /** A message matching no rule is forwarded. */
  lemma ForwardedUnrelatedExample()
    ensures !Suppressed("some unrelated message")
  {
    NoPhraseWithoutChar("some unrelated message", CompletionRecord, 0);
    NoPhraseWithoutChar("some unrelated message", AbruptCompletion, 4);
  }
}
