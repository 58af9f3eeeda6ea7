/** The event stream: the relay prints frames (packages/relay/src/routes/events.ts),
    the network cuts the text anywhere, and the monitor parses it back
    (packages/monitor/src/sse.ts). Compare section 9.2.6 of the WHATWG HTML
    Standard. Text is modelled after UTF-8 decoding. */
module Sse {
  import opened Basics
  import opened Strings

  /** What JSON.parse and the check on `kind` make of a data line. */
  datatype Decoded<+E> = Known(event: E) | Unknown | BadJson

  /** What is written to the response: an event, or a comment (the connect line
      and the heartbeats). */
  datatype Item<+E> = EventItem(event: E) | CommentItem(text: string)

  /** How events are turned into text and back. */
  datatype Codec<!E> = Codec(kind: E -> string, encode: E -> string, decode: string -> Decoded<E>)

  /** JSON text has no raw line breaks and parses back. */
  ghost predicate Faithful<E(!new)>(codec: Codec<E>) {
    forall e: E ::
      '\n' !in codec.kind(e) && '\n' !in codec.encode(e) && codec.decode(codec.encode(e)) == Known(e)
  }

  predicate WellFormed<E>(items: seq<Item<E>>) {
    forall i :: 0 <= i < |items| && items[i].CommentItem? ==> '\n' !in items[i].text
  }

  // ---- Printer ----

  /** A frame without the blank line that ends it. */
  function Body<E>(codec: Codec<E>, item: Item<E>): string {
    match item
    case EventItem(e) => "event: " + codec.kind(e) + "\n" + ("data: " + codec.encode(e))
    case CommentItem(text) => ": " + text
  }

  function Print<E>(codec: Codec<E>, items: seq<Item<E>>): string {
    if |items| == 0 then ""
    else Body(codec, items[0]) + "\n\n" + Print(codec, items[1..])
  }

  lemma {:induction false} PrintAppend<E>(codec: Codec<E>, items: seq<Item<E>>, item: Item<E>)
    ensures Print(codec, items + [item]) == Print(codec, items) + (Body(codec, item) + "\n\n")
  {
    if |items| == 0 {
      assert items + [item] == [item];
      assert Print(codec, [item][1..]) == "";
    } else {
      assert (items + [item])[1..] == items[1..] + [item];
      PrintAppend(codec, items[1..], item);
    }
  }

  /** The response stream of one subscriber. */
  class EventResponse<E> {
    const codec: Codec<E>
    var written: string
    ghost var items: seq<Item<E>>

    ghost predicate Valid()
      reads this
    {
      written == Print(codec, items)
    }

    constructor (codec: Codec<E>, connectedAt: string)
      ensures Valid() && this.codec == codec && items == [CommentItem("connected at " + connectedAt)]
    {
      this.codec := codec;
      written := ": " + ("connected at " + connectedAt) + "\n\n";
      items := [CommentItem("connected at " + connectedAt)];
      new;
      assert items[1..] == [];
    }

    method WriteEvent(event: E)
      requires Valid()
      modifies this
      ensures Valid() && items == old(items) + [EventItem(event)]
    {
      PrintAppend(codec, items, EventItem(event));
      items := items + [EventItem(event)];
      var head, line := "event: " + codec.kind(event) + "\n", "data: " + codec.encode(event);
      Associative(written, head, line + "\n\n");
      Associative(head, line, "\n\n");
      written := written + head;
      written := written + (line + "\n\n");
    }

    method Heartbeat(now: string)
      requires Valid()
      modifies this
      ensures Valid() && items == old(items) + [CommentItem("heartbeat " + now)]
    {
      PrintAppend(codec, items, CommentItem("heartbeat " + now));
      items := items + [CommentItem("heartbeat " + now)];
      written := written + (": " + ("heartbeat " + now) + "\n\n");
    }
  }

  // ---- Parser ----

  predicate IsBreak(s: string, k: int) {
    0 <= k && k + 1 < |s| && s[k] == '\n' && s[k + 1] == '\n'
  }

  /** buffer.indexOf of a blank line; |s| when there is none. */
  function BreakAt(s: string): (k: nat)
    ensures k <= |s|
    ensures k < |s| ==> IsBreak(s, k)
    ensures forall i :: 0 <= i < k ==> !IsBreak(s, i)
  {
    if |s| < 2 then |s|
    else if IsBreak(s, 0) then 0
    else
      assert forall i :: 0 < i < |s| ==> IsBreak(s, i) == IsBreak(s[1..], i - 1);
      1 + BreakAt(s[1..])
  }

  /** The complete frames of a text, and what is left after the last one. */
  function Frames(s: string): seq<string>
    decreases |s|
  {
    var k := BreakAt(s);
    if k == |s| then [] else [s[..k]] + Frames(s[k + 2..])
  }

  function Tail(s: string): string
    decreases |s|
  {
    var k := BreakAt(s);
    if k == |s| then s else Tail(s[k + 2..])
  }

  predicate IsData(line: string) {
    StartsWith(line, "data: ")
  }

  /** The first line that starts with "data: " and is no comment. */
  function DataLine(lines: seq<string>): (r: Option<string>)
    ensures r.Some? ==> StartsWith(r.value, "data: ")
  {
    if |lines| == 0 then None
    else if !StartsWith(lines[0], ":") && StartsWith(lines[0], "data: ") then Some(lines[0])
    else DataLine(lines[1..])
  }

  /** Where that line is: behind lines that carry no data, comments among them. */
  lemma {:induction false} FirstData(lines: seq<string>) returns (k: nat)
    ensures k <= |lines| && forall i :: 0 <= i < k ==> !IsData(lines[i])
    ensures if k == |lines| then DataLine(lines) == None else IsData(lines[k]) && DataLine(lines) == Some(lines[k])
  {
    if |lines| == 0 {
      k := 0;
    } else {
      assert StartsWith(lines[0], ":") ==> lines[0][..1][0] == lines[0][0] == ':';
      assert IsData(lines[0]) ==> lines[0][..6][0] == lines[0][0] == 'd';
      if IsData(lines[0]) {
        k := 0;
      } else {
        var n := FirstData(lines[1..]);
        k := n + 1;
      }
    }
  }

  function EventIn<E>(codec: Codec<E>): string -> seq<E> {
    (frame: string) =>
      var data := DataLine(Split(frame, '\n'));
      if data.None? then []
      else
        var parsed := codec.decode(data.value[6..]);
        if parsed.Known? then [parsed.event] else []
  }

  /** The events that the frames of a text carry. */
  function EventsIn<E>(codec: Codec<E>, text: string): seq<E> {
    FlatMap(Frames(text), EventIn(codec))
  }

  /** More text behind it does not move the first frame. */
  lemma FirstFrameStays(a: string, b: string)
    requires BreakAt(a) < |a|
    ensures var k := BreakAt(a);
            BreakAt(a + b) == k && (a + b)[..k] == a[..k] && (a + b)[k + 2..] == a[k + 2..] + b
  {
    var k := BreakAt(a);
    assert forall i :: 0 <= i <= k ==> IsBreak(a + b, i) == IsBreak(a, i);
    BreakIs(a + b, k);
  }

  /** Cutting a text in two changes nothing: parse the first part, keep its
      tail, and go on with the second. */
  lemma {:induction false} CutAnywhere(a: string, b: string)
    ensures Frames(a + b) == Frames(a) + Frames(Tail(a) + b)
    ensures Tail(a + b) == Tail(Tail(a) + b)
    decreases |a|
  {
    var k := BreakAt(a);
    if k < |a| {
      var head, rest := a[..k], a[k + 2..];
      FirstFrameStays(a, b);
      assert Frames(a + b) == [head] + Frames(rest + b);
      CutAnywhere(rest, b);
      Associative([head], Frames(rest), Frames(Tail(rest) + b));
    } else {
      assert [] + Frames(a + b) == Frames(a + b);
    }
  }

  /** The first frame of a text, and the rest. */
  lemma FirstFrame<E>(s: string, f: string -> seq<E>)
    requires BreakAt(s) < |s|
    ensures FlatMap(Frames(s), f) == f(s[..BreakAt(s)]) + FlatMap(Frames(s[BreakAt(s) + 2..]), f)
  {
    FlatMapCons(s[..BreakAt(s)], Frames(s[BreakAt(s) + 2..]), f);
  }

  lemma BreakIs(s: string, k: nat)
    requires IsBreak(s, k) && forall i :: 0 <= i < k ==> !IsBreak(s, i)
    ensures BreakAt(s) == k
  {
  }

  lemma EventsCut<E>(codec: Codec<E>, a: string, b: string)
    ensures EventsIn(codec, a + b) == EventsIn(codec, a) + EventsIn(codec, Tail(a) + b)
    ensures Tail(a + b) == Tail(Tail(a) + b)
  {
    CutAnywhere(a, b);
    FlatMapConcat(Frames(a), Frames(Tail(a) + b), EventIn(codec));
  }

  lemma {:induction false} TailIsOpen(s: string)
    ensures BreakAt(Tail(s)) == |Tail(s)|
    decreases |s|
  {
    var k := BreakAt(s);
    if k < |s| {
      TailIsOpen(s[k + 2..]);
    }
  }

  /** subscribeToEvents: `delivered` is what onEvent has been called with. */
  class SseReader<E> {
    const codec: Codec<E>
    var buffer: string
    var delivered: seq<E>

    /** Between reads the buffer holds no complete frame. */
    predicate Valid()
      reads this
    {
      BreakAt(buffer) == |buffer|
    }

    constructor (codec: Codec<E>)
      ensures Valid() && this.codec == codec && buffer == "" && delivered == []
    {
      this.codec, buffer, delivered := codec, "", [];
    }

    /** What the loop body does with one frame. */
    method OnFrame(frame: string)
      modifies this`delivered
      ensures delivered == old(delivered) + EventIn(codec)(frame)
    {
      var data := DataLine(Split(frame, '\n'));
      if data.None? {
        return;
      }
      var parsed := codec.decode(data.value[6..]);
      if parsed.Known? {
        delivered := delivered + [parsed.event];
      }
    }

    /** One chunk off the network. */
    method Feed(chunk: string)
      requires Valid()
      modifies this
      ensures Valid()
      ensures buffer == Tail(old(buffer) + chunk)
      ensures delivered == old(delivered) + EventsIn(codec, old(buffer) + chunk)
    {
      buffer := buffer + chunk;
      ghost var whole := buffer;
      var idx := BreakAt(buffer);
      while idx < |buffer|
        invariant idx == BreakAt(buffer)
        invariant Tail(buffer) == Tail(whole)
        invariant delivered + EventsIn(codec, buffer) == old(delivered) + EventsIn(codec, whole)
        decreases |buffer|
      {
        FirstFrame(buffer, EventIn(codec));
        var frame := buffer[..idx];
        buffer := buffer[idx + 2..];
        Associative(delivered, EventIn(codec)(frame), EventsIn(codec, buffer));
        OnFrame(frame);
        idx := BreakAt(buffer);
      }
      assert delivered + [] == delivered;
    }

    /** The whole stream, chunk by chunk: only the text matters. */
    method Read(chunks: seq<string>)
      requires Valid()
      modifies this
      ensures Valid()
      ensures buffer == Tail(old(buffer) + Flatten(chunks))
      ensures delivered == old(delivered) + EventsIn(codec, old(buffer) + Flatten(chunks))
    {
      ghost var before := buffer;
      ghost var text := buffer;
      assert before + "" == before;
      for i := 0 to |chunks|
        invariant Valid()
        invariant text == before + Flatten(chunks[..i])
        invariant buffer == Tail(text)
        invariant delivered == old(delivered) + EventsIn(codec, text)
      {
        var chunk := chunks[i];
        EventsCut(codec, text, chunk);
        Associative(old(delivered), EventsIn(codec, text), EventsIn(codec, Tail(text) + chunk));
        FlattenNext(chunks, i);
        Associative(before, Flatten(chunks[..i]), chunk);
        Feed(chunk);
        text := text + chunk;
      }
      assert chunks[..|chunks|] == chunks;
    }
  }

  lemma FlattenNext(chunks: seq<string>, i: nat)
    requires i < |chunks|
    ensures Flatten(chunks[..i + 1]) == Flatten(chunks[..i]) + chunks[i]
  {
    assert chunks[..i + 1][..i] == chunks[..i];
  }

  function Flatten(chunks: seq<string>): string {
    if |chunks| == 0 then "" else Flatten(chunks[..|chunks| - 1]) + chunks[|chunks| - 1]
  }

  // ---- Round trip ----

  function EventOfItem<E>(): Item<E> -> seq<E> {
    (item: Item<E>) => if item.EventItem? then [item.event] else []
  }

  function EventsOfItems<E>(items: seq<Item<E>>): seq<E> {
    FlatMap(items, EventOfItem())
  }

  lemma BodyShape<E(!new)>(codec: Codec<E>, item: Item<E>)
    requires Faithful(codec) && (item.CommentItem? ==> '\n' !in item.text)
    ensures var body := Body(codec, item);
            && BreakAt(body) == |body| > 0
            && body[|body| - 1] != '\n'
  {
  }

  lemma BodyParses<E(!new)>(codec: Codec<E>, item: Item<E>)
    requires Faithful(codec) && (item.CommentItem? ==> '\n' !in item.text)
    ensures EventIn(codec)(Body(codec, item)) == EventOfItem()(item)
  {
    match item
    case EventItem(e) =>
      var head, line := "event: " + codec.kind(e), "data: " + codec.encode(e);
      SplitAfter(head, '\n', line);
      SplitWhole(line, '\n');
      assert Body(codec, item) == head + ['\n'] + line;
      var lines := [head] + [line];
      assert head[0] == 'e' && !StartsWith(head, "data: ") && !StartsWith(line, ":");
      assert lines[1..] == [line];
      assert DataLine(lines) == DataLine([line]) == Some(line);
      assert line[6..] == codec.encode(e);
    case CommentItem(text) =>
      var line := ": " + text;
      SplitWhole(line, '\n');
      assert line[..1] == ":";
      assert DataLine([line]) == DataLine([line][1..]) == None;
  }

  /** A frame has one line with the kind and one with the event; a comment has one
      line. */
  lemma FrameLines<E(!new)>(codec: Codec<E>, e: E, text: string)
    requires Faithful(codec) && '\n' !in text
    ensures Split(Body(codec, EventItem(e)), '\n') == ["event: " + codec.kind(e), "data: " + codec.encode(e)]
    ensures Split(Body(codec, CommentItem(text)), '\n') == [": " + text]
  {
    var head, line := "event: " + codec.kind(e), "data: " + codec.encode(e);
    SplitAfter(head, '\n', line);
    SplitWhole(line, '\n');
    assert Body(codec, EventItem(e)) == head + ['\n'] + line;
    assert [head] + [line] == [head, line];
    SplitWhole(": " + text, '\n');
  }

  /** A frame is cut off exactly where its blank line is. */
  lemma FrameSplitsOff(body: string, rest: string)
    requires BreakAt(body) == |body| > 0 && body[|body| - 1] != '\n'
    ensures Frames(body + "\n\n" + rest) == [body] + Frames(rest)
    ensures Tail(body + "\n\n" + rest) == Tail(rest)
  {
    var s := body + "\n\n" + rest;
    assert s[|body|] == '\n' && s[|body| + 1] == '\n';
    forall i | 0 <= i < |body|
      ensures !IsBreak(s, i)
    {
      assert !IsBreak(body, i) && s[i] == body[i];
    }
    BreakIs(s, |body|);
    assert s[..|body|] == body && s[|body| + 2..] == rest;
  }

  /** Text that has only part of the next frame in it: no frame is complete. */
  lemma PartOfFrame(body: string, part: string)
    requires BreakAt(body) == |body| > 0 && body[|body| - 1] != '\n'
    requires part < body + "\n\n"
    ensures Frames(part) == [] && Tail(part) == part
  {
    var whole := body + "\n\n";
    forall i | 0 <= i < |part|
      ensures !IsBreak(part, i)
    {
      if i + 1 < |part| {
        assert part[i] == whole[i] == body[i] && part[i + 1] == whole[i + 1];
        assert !IsBreak(body, i);
      }
    }
  }

  lemma ItemThenRest<E(!new)>(codec: Codec<E>, item: Item<E>, rest: string)
    requires Faithful(codec) && (item.CommentItem? ==> '\n' !in item.text)
    ensures EventsIn(codec, Body(codec, item) + "\n\n" + rest) == EventOfItem()(item) + EventsIn(codec, rest)
    ensures Tail(Body(codec, item) + "\n\n" + rest) == Tail(rest)
  {
    var body := Body(codec, item);
    BodyShape(codec, item);
    BodyParses(codec, item);
    FrameSplitsOff(body, rest);
    FlatMapCons(body, Frames(rest), EventIn(codec));
  }

  lemma EventsOfCons<E>(items: seq<Item<E>>)
    requires |items| > 0
    ensures EventsOfItems(items) == EventOfItem()(items[0]) + EventsOfItems(items[1..])
  {
    FlatMapCons(items[0], items[1..], EventOfItem<E>());
    assert [items[0]] + items[1..] == items;
  }

  /** Whatever the cuts, after all of `items` and part of one more the reader
      has delivered exactly their events, in order, and its buffer is the
      unfinished part. */
  lemma {:induction false} StreamRoundTrip<E(!new)>(codec: Codec<E>, items: seq<Item<E>>, next: Item<E>, part: string)
    requires Faithful(codec) && WellFormed(items) && WellFormed([next])
    requires part < Body(codec, next) + "\n\n"
    ensures EventsIn(codec, Print(codec, items) + part) == EventsOfItems(items)
    ensures Tail(Print(codec, items) + part) == part
  {
    if |items| == 0 {
      assert [next][0] == next;
      BodyShape(codec, next);
      PartOfFrame(Body(codec, next), part);
      assert "" + part == part;
    } else {
      StreamRoundTrip(codec, items[1..], next, part);
      var frame, more := Body(codec, items[0]) + "\n\n", Print(codec, items[1..]);
      ItemThenRest(codec, items[0], more + part);
      Associative(frame, more, part);
      EventsOfCons(items);
    }
  }
}
