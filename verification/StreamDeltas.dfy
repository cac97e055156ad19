/**
 The text an agent loop streams to its client.  Some providers send the whole text so far with
 every chunk, others only what is new; the loop tells them apart by looking at prefixes.
 */
module StreamDeltas {
  import opened Common

  datatype Usage = Usage(input: int, output: int, total: int)

  /** A streamed message; an empty `id` stands for a message without one. */
  datatype Message = Message(id: string, content: string, isTool: bool, callsTools: bool, usage: Option<Usage>)

  datatype Event = Assistant(content: string) | UsageReport(usage: Usage)

  /** A piece of text together with the message it belongs to. */
  datatype Delta = Delta(id: string, text: string)

  function Key(m: Message): string {
    if m.id == "" then "default" else m.id
  }

  predicate Shown(m: Message) {
    !m.isTool && !m.callsTools
  }

  // ------------------------------------------------------------ one message

  /** What a chunk adds to the text accumulated so far. */
  function Fresh(previous: string, content: string): string {
    if previous <= content then content[|previous|..] else content
  }

  /** The text accumulated from the chunks of one message. */
  ghost function Text(chunks: seq<string>): string {
    if chunks == [] then ""
    else
      var previous := Text(chunks[..|chunks| - 1]);
      previous + Fresh(previous, chunks[|chunks| - 1])
  }

  /** The pieces emitted for the chunks of one message. */
  ghost function Pieces(chunks: seq<string>): seq<string> {
    if chunks == [] then []
    else
      var before := chunks[..|chunks| - 1];
      var added := Fresh(Text(before), chunks[|chunks| - 1]);
      if added == "" then Pieces(before) else Pieces(before) + [added]
  }

  ghost function Concat(pieces: seq<string>): string {
    if pieces == [] then "" else Concat(pieces[..|pieces| - 1]) + pieces[|pieces| - 1]
  }

  /** Chunk `i` starts with the text accumulated before it, and there is such text. */
  ghost predicate Extends(chunks: seq<string>, i: nat)
    requires i < |chunks|
  {
    Text(chunks[..i]) != "" && Text(chunks[..i]) <= chunks[i]
  }

  /** The accumulated lengths cut off at the chunks that extend the text. */
  ghost function CutOff(chunks: seq<string>): nat {
    if chunks == [] then 0
    else
      var n := |chunks| - 1;
      CutOff(chunks[..n]) + if Extends(chunks, n) then |Text(chunks[..n])| else 0
  }

  /** Every chunk repeats the one before it. */
  ghost predicate Cumulative(chunks: seq<string>) {
    forall i :: 0 < i < |chunks| ==> chunks[i - 1] <= chunks[i]
  }

  lemma Last<T>(s: seq<T>, x: T)
    ensures (s + [x])[..|s|] == s && (s + [x])[|s|] == x && |s + [x]| == |s| + 1
  {
  }

  lemma ConcatLast(pieces: seq<string>, piece: string)
    ensures Concat(pieces + [piece]) == Concat(pieces) + piece
  {
    Last(pieces, piece);
  }

  /** The client that glues the pieces together holds the accumulated text. */
  lemma {:induction false} PiecesMakeText(chunks: seq<string>)
    ensures Concat(Pieces(chunks)) == Text(chunks)
  {
    if chunks != [] {
      var before := chunks[..|chunks| - 1];
      PiecesMakeText(before);
      ConcatLast(Pieces(before), Fresh(Text(before), chunks[|chunks| - 1]));
    }
  }

  lemma Completed(previous: string, content: string)
    requires previous <= content
    ensures previous + Fresh(previous, content) == content
  {
  }

  /** A provider that always sends the whole text: exactly its last chunk arrives. */
  lemma {:induction false} CumulativeArrives(chunks: seq<string>)
    requires Cumulative(chunks) && chunks != []
    ensures Concat(Pieces(chunks)) == Text(chunks) == chunks[|chunks| - 1]
  {
    PiecesMakeText(chunks);
    var n := |chunks| - 1;
    if n > 0 {
      CumulativeArrives(chunks[..n]);
      assert Text(chunks[..n]) == chunks[n - 1];
    } else {
      assert Text(chunks[..n]) == "";
    }
    Completed(Text(chunks[..n]), chunks[n]);
  }

  /** Nothing is invented or lost but the prefixes that are taken for repetitions. */
  lemma {:induction false} LengthIsConserved(chunks: seq<string>)
    ensures |Concat(Pieces(chunks))| + CutOff(chunks) == |Concat(chunks)|
  {
    PiecesMakeText(chunks);
    if chunks != [] {
      LengthIsConserved(chunks[..|chunks| - 1]);
      PiecesMakeText(chunks[..|chunks| - 1]);
    }
  }

  lemma ExtendsInPrefix(chunks: seq<string>, n: nat, i: nat)
    requires i < n <= |chunks|
    ensures Extends(chunks[..n], i) == Extends(chunks, i)
  {
    assert chunks[..n][..i] == chunks[..i];
  }

  lemma CutOffStep(chunks: seq<string>)
    ensures var n := |chunks| - 1;
            CutOff(chunks) == 0 <==> chunks == [] || (CutOff(chunks[..n]) == 0 && !Extends(chunks, n))
  {
  }

  lemma {:induction false} NothingCutIff(chunks: seq<string>)
    ensures CutOff(chunks) == 0 <==> forall i {:trigger Extends(chunks, i)} :: 0 <= i < |chunks| ==> !Extends(chunks, i)
  {
    hide *;
    CutOffStep(chunks);
    if chunks != [] {
      var n := |chunks| - 1;
      NothingCutIff(chunks[..n]);
      forall i | 0 <= i < n ensures Extends(chunks[..n], i) == Extends(chunks, i) {
        ExtendsInPrefix(chunks, n, i);
      }
    }
  }

  /** Deltas arrive intact iff none of them happens to start with everything before it. */
  lemma DeltasArriveIff(chunks: seq<string>)
    ensures Concat(Pieces(chunks)) == Concat(chunks)
       <==> forall i {:trigger Extends(chunks, i)} :: 0 <= i < |chunks| ==> !Extends(chunks, i)
  {
    PiecesMakeText(chunks);
    LengthIsConserved(chunks);
    NothingCutIff(chunks);
    if CutOff(chunks) == 0 {
      SameLength(chunks);
    }
  }

  lemma {:induction false} SameLength(chunks: seq<string>)
    requires CutOff(chunks) == 0
    ensures Text(chunks) == Concat(chunks)
  {
    if chunks != [] {
      SameLength(chunks[..|chunks| - 1]);
    }
  }

  /** A chunk that carries text is swallowed iff it equals the whole accumulated text. */
  lemma SwallowedIff(previous: string, content: string)
    ensures Fresh(previous, content) == "" <==> content == "" || content == previous
  {
    if previous <= content {
      assert content == previous + content[|previous|..];
    }
  }

  /**
   Sending the same delta twice in a row: the second is sliced to nothing iff the first already
   started with everything before it.  The remark in the code says that never happens.
   */
  lemma RepeatIsLostIff(chunks: seq<string>, content: string)
    requires content != ""
    ensures Fresh(Text(chunks + [content]), content) == "" <==> Text(chunks) <= content
  {
    Last(chunks, content);
    SwallowedIff(Text(chunks + [content]), content);
    if Text(chunks) <= content {
      assert Text(chunks + [content]) == content;
    } else {
      assert |Text(chunks + [content])| == |Text(chunks)| + |content|;
    }
  }

  /** The deltas "7" and "7" arrive as "7". */
  lemma RepeatedDigitIsLost()
    ensures Concat(Pieces(["7", "7"])) == "7" && Concat(["7", "7"]) == "77"
  {
    assert ["7", "7"][..1] == ["7"] && ["7"][..0] == [];
    assert Text(["7"]) == "7";
    assert Pieces(["7"]) == ["7"];
    assert Concat(["7"]) == "7";
    RepeatIsLostIff([], "7");
    assert [] + ["7"] == ["7"];
  }

  // ------------------------------------------------------------ a stream of interleaved messages

  /** The chunks of message `id`, in order. */
  ghost function Chunks(stream: seq<Message>, id: string): seq<string> {
    if stream == [] then []
    else
      var before, m := Chunks(stream[..|stream| - 1], id), stream[|stream| - 1];
      if Shown(m) && Key(m) == id then before + [m.content] else before
  }

  /** Everything the loop emits for a stream, each piece with its message. */
  ghost function Deltas(stream: seq<Message>): seq<Delta> {
    if stream == [] then []
    else
      var before, m := stream[..|stream| - 1], stream[|stream| - 1];
      var added := Fresh(Text(Chunks(before, Key(m))), m.content);
      if Shown(m) && added != "" then Deltas(before) + [Delta(Key(m), added)] else Deltas(before)
  }

  ghost function PiecesOf(deltas: seq<Delta>, id: string): seq<string> {
    if deltas == [] then []
    else
      var before, d := PiecesOf(deltas[..|deltas| - 1], id), deltas[|deltas| - 1];
      if d.id == id then before + [d.text] else before
  }

  ghost function Events(deltas: seq<Delta>): seq<Event> {
    seq(|deltas|, i requires 0 <= i < |deltas| => Assistant(deltas[i].text))
  }

  function AddUsage(a: Usage, b: Usage): Usage {
    Usage(a.input + b.input, a.output + b.output, a.total + b.total)
  }

  ghost function TotalUsage(stream: seq<Message>): Usage {
    if stream == [] then Usage(0, 0, 0)
    else
      var before, m := TotalUsage(stream[..|stream| - 1]), stream[|stream| - 1];
      if m.usage.Some? then AddUsage(before, m.usage.value) else before
  }

  /** Usage adds up over parts of a stream, number by number, and a message without any counts nothing. */
  lemma {:induction false} UsageAddsUp(first: seq<Message>, second: seq<Message>)
    ensures var whole, one, other := TotalUsage(first + second), TotalUsage(first), TotalUsage(second);
            && whole.input == one.input + other.input && whole.output == one.output + other.output
            && whole.total == one.total + other.total
    ensures |second| == 1 ==>
              TotalUsage(second) == if second[0].usage == None then Usage(0, 0, 0) else second[0].usage.value
  {
    if second == [] {
      assert first + second == first;
    } else {
      var before := second[..|second| - 1];
      UsageAddsUp(first, before);
      assert (first + second)[..|first + second| - 1] == first + before;
    }
  }

  /** However messages are interleaved, each one is streamed as if it were alone. */
  lemma {:induction false} MessagesDoNotMix(stream: seq<Message>, id: string)
    ensures PiecesOf(Deltas(stream), id) == Pieces(Chunks(stream, id))
  {
    if stream != [] {
      var before, m := stream[..|stream| - 1], stream[|stream| - 1];
      MessagesDoNotMix(before, id);
      var added := Fresh(Text(Chunks(before, Key(m))), m.content);
      Last(Deltas(before), Delta(Key(m), added));
      Last(Chunks(before, id), m.content);
    }
  }

  lemma DeltaStep(before: seq<Message>, m: Message)
    ensures forall id :: Chunks(before + [m], id)
                         == if Shown(m) && Key(m) == id then Chunks(before, id) + [m.content] else Chunks(before, id)
    ensures var added := Fresh(Text(Chunks(before, Key(m))), m.content);
            Deltas(before + [m])
            == if Shown(m) && added != "" then Deltas(before) + [Delta(Key(m), added)] else Deltas(before)
  {
    Last(before, m);
  }

  /** What a tool says, or is told, changes nothing of any text, wherever in the stream it comes. */
  lemma {:induction false} ToolsAreSilent(before: seq<Message>, m: Message, after: seq<Message>)
    requires m.isTool || m.callsTools
    ensures Deltas(before + [m] + after) == Deltas(before + after)
    ensures forall id :: Chunks(before + [m] + after, id) == Chunks(before + after, id)
  {
    hide Deltas, Chunks;
    if after == [] {
      DeltaStep(before, m);
      assert before + [m] + after == before + [m] && before + after == before;
    } else {
      var start, last := after[..|after| - 1], after[|after| - 1];
      ToolsAreSilent(before, m, start);
      assert before + [m] + after == before + [m] + start + [last] && before + after == before + start + [last];
      DeltaStep(before + [m] + start, last);
      DeltaStep(before + start, last);
    }
  }

  ghost predicate SaidUnder(id: string, m: Message) {
    !m.isTool && !m.callsTools && (m.id == id || (m.id == "" && id == "default"))
  }

  /** Whatever is said under one id, or under none at all, is one text. */
  lemma {:induction false} SoleMessage(stream: seq<Message>, id: string)
    requires id != "" && forall i :: 0 <= i < |stream| ==> SaidUnder(id, stream[i])
    ensures Chunks(stream, id) == seq(|stream|, i requires 0 <= i < |stream| => stream[i].content)
  {
    if stream != [] {
      var n := |stream| - 1;
      SoleMessage(stream[..n], id);
      ChunksLast(stream, id);
      assert SaidUnder(id, stream[n]);
      hide Chunks, Shown;
    }
  }

  lemma ChunksLast(stream: seq<Message>, id: string)
    requires stream != [] && id != "" && SaidUnder(id, stream[|stream| - 1])
    ensures Chunks(stream, id) == Chunks(stream[..|stream| - 1], id) + [stream[|stream| - 1].content]
  {
  }

  /** Two streams that agree on the chunks of one message show the same text for it. */
  lemma OwnChunksDecide(first: seq<Message>, second: seq<Message>, id: string)
    requires Chunks(first, id) == Chunks(second, id)
    ensures PiecesOf(Deltas(first), id) == PiecesOf(Deltas(second), id)
    ensures Concat(PiecesOf(Deltas(first), id)) == Text(Chunks(second, id))
  {
    MessagesDoNotMix(first, id);
    MessagesDoNotMix(second, id);
    PiecesMakeText(Chunks(second, id));
  }

  lemma StreamStep(before: seq<Message>, m: Message)
    ensures TotalUsage(before + [m])
            == if m.usage.Some? then AddUsage(TotalUsage(before), m.usage.value) else TotalUsage(before)
    ensures forall id :: Chunks(before + [m], id)
                         == if Shown(m) && Key(m) == id then Chunks(before, id) + [m.content] else Chunks(before, id)
    ensures var added := Fresh(Text(Chunks(before, Key(m))), m.content);
            Events(Deltas(before + [m]))
            == Events(Deltas(before)) + if Shown(m) && added != "" then [Assistant(added)] else []
  {
    Last(before, m);
  }

  lemma TextStep(chunks: seq<string>, content: string)
    ensures Text(chunks + [content]) == Text(chunks) + Fresh(Text(chunks), content)
  {
    Last(chunks, content);
  }

  /** The loop of `astream` over message chunks; updates of graph nodes do not touch this state. */
  method Stream(stream: seq<Message>) returns (events: seq<Event>, previousContent: map<string, string>)
    ensures events == Events(Deltas(stream))
                      + if TotalUsage(stream).total != 0 then [UsageReport(TotalUsage(stream))] else []
    ensures forall id :: id in previousContent <==> Chunks(stream, id) != []
    ensures forall id :: id in previousContent ==>
                           previousContent[id] == Concat(PiecesOf(Deltas(stream), id))
  {
    hide Text, Chunks, Deltas, TotalUsage, Events;
    events, previousContent := [], map[];
    var totals := Usage(0, 0, 0);
    EmptyStream();
    for n := 0 to |stream|
      invariant events == Events(Deltas(stream[..n]))
      invariant totals == TotalUsage(stream[..n])
      invariant forall id :: id in previousContent <==> Chunks(stream[..n], id) != []
      invariant forall id :: Text(Chunks(stream[..n], id)) == if id in previousContent then previousContent[id] else ""
    {
      var message := stream[n];
      assert stream[..n + 1] == stream[..n] + [message];
      StreamStep(stream[..n], message);
      if message.usage.Some? {
        totals := AddUsage(totals, message.usage.value);
      }
      if message.isTool || message.callsTools {
        continue;
      }
      var key := Key(message);
      var previous := if key in previousContent then previousContent[key] else "";
      var delta := if previous <= message.content then message.content[|previous|..] else message.content;
      TextStep(Chunks(stream[..n], key), message.content);
      previousContent := previousContent[key := previous + delta];
      if delta != "" {
        events := events + [Assistant(delta)];
      }
    }
    assert stream[..|stream|] == stream;
    forall id | id in previousContent
      ensures previousContent[id] == Concat(PiecesOf(Deltas(stream), id))
    {
      MessagesDoNotMix(stream, id);
      PiecesMakeText(Chunks(stream, id));
    }
    if totals.total != 0 {
      events := events + [UsageReport(totals)];
    }
  }

  lemma EmptyStream()
    ensures Deltas([]) == [] && Events([]) == [] && TotalUsage([]) == Usage(0, 0, 0) && Text([]) == ""
    ensures forall id :: Chunks([], id) == []
  {
  }
}
