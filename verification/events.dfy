/** The agent runner's event stream and how the orchestrator accumulates the
    reply text from it. The runtime's events are duck-typed; here they are a
    tagged union with one case per shape the accumulation loop distinguishes. */
module Events {
  import opened Base

  /** A part of a message: it has a `text` attribute (possibly `None`) or not. */
  datatype Part = TextPart(text: Option<string>) | OtherPart

  /** An event's `content`: a plain string, a message with parts, or neither. */
  datatype Content = StrContent(s: string) | PartsContent(parts: seq<Part>) | OtherContent

  /** An event with a `content` attribute, one with only a `text` attribute,
      or one with neither. */
  datatype Event = ContentEvent(content: Content) | TextEvent(text: Option<string>) | OtherEvent

  /** Python's `t or ""`. */
  function OrEmpty(t: Option<string>): string {
    match t
    case None => ""
    case Some(s) => s
  }

  function PartsText(parts: seq<Part>): string
    decreases |parts|
  {
    if |parts| == 0 then ""
    else
      var head := match parts[0] case TextPart(t) => OrEmpty(t) case OtherPart => "";
      head + PartsText(parts[1..])
  }

  /** The text one event contributes; `content` takes precedence over `text`. */
  function EventText(e: Event): string {
    match e
    case ContentEvent(StrContent(s)) => s
    case ContentEvent(PartsContent(parts)) => PartsText(parts)
    case ContentEvent(OtherContent) => ""
    case TextEvent(t) => OrEmpty(t)
    case OtherEvent => ""
  }

  /** The accumulated `response_text` after the loop over `events`. */
  function ResponseText(events: seq<Event>): string
    decreases |events|
  {
    if |events| == 0 then ""
    else ResponseText(events[..|events| - 1]) + EventText(events[|events| - 1])
  }

  /** Accumulation distributes over concatenated streams: the text of a
      stream is the text of its first half followed by that of its second. */
  lemma {:induction false} ResponseTextAppend(a: seq<Event>, b: seq<Event>)
    ensures ResponseText(a + b) == ResponseText(a) + ResponseText(b)
    decreases |b|
  {
    if |b| == 0 {
      assert a + b == a;
    } else {
      var b' := b[..|b| - 1];
      assert (a + b)[..|a + b| - 1] == a + b';
      assert (a + b)[|a + b| - 1] == b[|b| - 1];
      ResponseTextAppend(a, b');
    }
  }

  /** Events that carry no text (tool calls, tool results, empty parts) add
      nothing: the reply is the text events' contributions, in order. */
  lemma {:induction false} SilentEventsIgnored(a: seq<Event>, silent: seq<Event>, b: seq<Event>)
    requires forall i :: 0 <= i < |silent| ==> EventText(silent[i]) == ""
    ensures ResponseText(a + silent + b) == ResponseText(a) + ResponseText(b)
  {
    SilentText(silent);
    ResponseTextAppend(a, silent);
    ResponseTextAppend(a + silent, b);
  }

  lemma {:induction false} SilentText(silent: seq<Event>)
    requires forall i :: 0 <= i < |silent| ==> EventText(silent[i]) == ""
    ensures ResponseText(silent) == ""
    decreases |silent|
  {
    if |silent| > 0 {
      SilentText(silent[..|silent| - 1]);
    }
  }
}
