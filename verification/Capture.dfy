/** From a chat-completion exchange to the turns that are stored for it. */
module Capture {
  import opened Common
  import opened Sse

  datatype Request = Request(model: string, messages: seq<Message>)

  datatype Ids = Ids(session: string, trace: string, span: string)

  datatype Turn = Turn(ids: Ids, ordinal: nat, role: string, content: string, tokens: Option<int>)

  function Stringify(c: Content): string {
    match c
    case Text(text) => text
    case Structured(json) => json
  }

  function TurnOf(m: Message, ids: Ids, ordinal: nat, tokens: Option<int>): Turn {
    Turn(ids, ordinal, m.role, Stringify(m.content), tokens)
  }

  function ReplyTurns(req: Request, resp: Response, ids: Ids): seq<Turn> {
    if resp.choices != [] && resp.choices[0].message.Some?
    then [TurnOf(resp.choices[0].message.value, ids, |req.messages|,
                 if resp.usage.Some? then resp.usage.value.completionTokens else None)]
    else []
  }

  /** Input turns in order, the prompt total on the last of them, then the first choice's reply. */
  function Turns(req: Request, resp: Response, ids: Ids): seq<Turn> {
    seq(|req.messages|, i requires 0 <= i < |req.messages| =>
      TurnOf(req.messages[i], ids, i,
             if i + 1 == |req.messages| && resp.usage.Some? then resp.usage.value.promptTokens else None)) +
    ReplyTurns(req, resp, ids)
  }

  /** A turn that keeps everything about a message: whose it is, where it stood, who said what. */
  predicate Keeps(turn: Turn, m: Message, ids: Ids, ordinal: nat) {
    && turn.ids == ids && turn.ordinal == ordinal && turn.role == m.role
    && (m.content.Text? ==> turn.content == m.content.text)
    && (m.content.Structured? ==> turn.content == m.content.json)
  }

  /**
   One turn per message, in order, only the last with a token count: the prompt total.  Then one more
   exactly when the first choice has a message: that message, with the completion total.
   */
  ghost predicate Recorded(turns: seq<Turn>, req: Request, resp: Response, ids: Ids) {
    var n := |req.messages|;
    var replied := resp.choices != [] && resp.choices[0].message.Some?;
    && |turns| == n + (if replied then 1 else 0)
    && (forall i :: 0 <= i < n ==> Keeps(turns[i], req.messages[i], ids, i))
    && (forall i :: 0 <= i && i + 1 < n ==> turns[i].tokens == None)
    && (n > 0 ==> turns[n - 1].tokens == if resp.usage.Some? then resp.usage.value.promptTokens else None)
    && (replied ==> Keeps(turns[n], resp.choices[0].message.value, ids, n))
    && (replied ==> turns[n].tokens == if resp.usage.Some? then resp.usage.value.completionTokens else None)
  }

  lemma TurnsAreRecorded(req: Request, resp: Response, ids: Ids)
    ensures Recorded(Turns(req, resp, ids), req, resp, ids)
  {
  }

  method ExtractTurns(req: Request, resp: Response, ids: Ids) returns (turns: seq<Turn>)
    ensures turns == Turns(req, resp, ids) && Recorded(turns, req, resp, ids)
  {
    TurnsAreRecorded(req, resp, ids);
    turns := [];
    var total := if resp.usage.Some? then resp.usage.value.promptTokens else None;
    for i := 0 to |req.messages|
      invariant turns == Turns(req, resp, ids)[..i]
    {
      var msg := req.messages[i];
      var tokens := if i + 1 == |req.messages| then total else None;
      turns := turns + [Turn(ids, i, msg.role, Stringify(msg.content), tokens)];
    }
    if resp.choices != [] {
      var choice := resp.choices[0];
      if choice.message.Some? {
        var msg := choice.message.value;
        turns := turns + [Turn(ids, |req.messages|, msg.role, Stringify(msg.content),
                               if resp.usage.Some? then resp.usage.value.completionTokens else None)];
      }
    }
  }

  // --- Streaming capture agrees with non-streaming capture ---

  /** The stream carries this reply on its lowest content-bearing index, however it was cut. */
  ghost predicate Delivers(chunks: seq<Chunk>, index: nat, role: string, content: string, usage: Option<Usage>) {
    var choices := AllChoices(chunks);
    && Pieces(choices, index) != [] && Concat(Pieces(choices, index)) == content
    && (forall j: nat :: j < index ==> Pieces(choices, j) == [])
    && (FirstRole(choices, index) == Some(role) || (FirstRole(choices, index).None? && role == "assistant"))
    && LastUsage(chunks) == usage
  }

  lemma LowestIndex(choices: seq<ChunkChoice>, index: nat)
    requires Pieces(choices, index) != [] && forall j: nat :: j < index ==> Pieces(choices, j) == []
    ensures Ascending(Indices(choices)) != [] && Ascending(Indices(choices))[0] == index
  {
    PiecesIffIndex(choices, index);
    PiecesIffIndex(choices, Least(Indices(choices)));
  }

  lemma FirstReplyOf(chunks: seq<Chunk>, index: nat)
    requires Pieces(AllChoices(chunks), index) != []
    requires forall j: nat :: j < index ==> Pieces(AllChoices(chunks), j) == []
    ensures Assembled(chunks).choices != [] && Assembled(chunks).choices[0] == ReplyOf(AllChoices(chunks), index)
  {
    var choices := AllChoices(chunks);
    LowestIndex(choices, index);
    assert Assembled(chunks).choices[0] == Replies(choices, Ascending(Indices(choices)))[0];
  }

  /** A streamed reply yields the turns of the same reply sent whole, whatever it was cut into and padded with. */
  lemma StreamingAgrees(decode: Decoder, body: string, req: Request, whole: Response, ids: Ids, index: nat)
    requires whole.choices != [] && whole.choices[0].message.Some? && whole.choices[0].message.value.content.Text?
    requires var m := whole.choices[0].message.value;
             Delivers(ChunksOf(decode, Lines(body)), index, m.role, m.content.text, whole.usage)
    ensures Turns(req, Assembled(ChunksOf(decode, Lines(body))), ids) == Turns(req, whole, ids)
  {
    FirstReplyOf(ChunksOf(decode, Lines(body)), index);
  }

  function RoleChunk(role: string): Chunk {
    Chunk([ChunkChoice(0, Some(Delta(Some(role), None)))], None, None)
  }

  function ContentChunk(piece: string): Chunk {
    Chunk([ChunkChoice(0, Some(Delta(None, Some(piece))))], None, None)
  }

  function ContentChunks(pieces: seq<string>): seq<Chunk> {
    if pieces == [] then [] else ContentChunks(pieces[..|pieces| - 1]) + [ContentChunk(pieces[|pieces| - 1])]
  }

  /** The role, then the content in pieces. */
  function Spoken(role: string, pieces: seq<string>): seq<Chunk> {
    [RoleChunk(role)] + ContentChunks(pieces)
  }

  /** A reply as servers stream it: the role, the content in pieces, the usage at the end. */
  function ReplyStream(role: string, pieces: seq<string>, usage: Option<Usage>): seq<Chunk> {
    Spoken(role, pieces) + [Chunk([], usage, None)]
  }

  lemma ContentChunkAppends(chunks: seq<Chunk>, piece: string)
    ensures var more := chunks + [ContentChunk(piece)];
            && Pieces(AllChoices(more), 0) == Pieces(AllChoices(chunks), 0) + [piece]
            && FirstRole(AllChoices(more), 0) == FirstRole(AllChoices(chunks), 0)
            && LastUsage(more) == LastUsage(chunks)
  {
    AppendChunk(chunks, ContentChunk(piece));
    AppendChoice(AllChoices(chunks), ContentChunk(piece).choices[0], 0);
  }

  lemma RoleAlone(role: string)
    ensures var choices := AllChoices([RoleChunk(role)]);
            Pieces(choices, 0) == [] && FirstRole(choices, 0) == Some(role) && LastUsage([RoleChunk(role)]) == None
  {
    var first := RoleChunk(role).choices[0];
    assert [] + [RoleChunk(role)] == [RoleChunk(role)] && [] + [first] == [first];
    AppendChunk([], RoleChunk(role));
    AppendChoice([], first, 0);
    assert AllChoices([RoleChunk(role)]) == [first];
  }

  lemma SpokenSnoc(role: string, pieces: seq<string>)
    requires pieces != []
    ensures Spoken(role, pieces) == Spoken(role, pieces[..|pieces| - 1]) + [ContentChunk(pieces[|pieces| - 1])]
  {
  }

  lemma {:induction false} ContentStream(role: string, pieces: seq<string>)
    ensures var choices := AllChoices(Spoken(role, pieces));
            && Pieces(choices, 0) == pieces && FirstRole(choices, 0) == Some(role)
            && LastUsage(Spoken(role, pieces)) == None
  {
    if pieces == [] {
      assert Spoken(role, pieces) == [RoleChunk(role)];
      RoleAlone(role);
    } else {
      var n := |pieces| - 1;
      ContentStream(role, pieces[..n]);
      SpokenSnoc(role, pieces);
      ContentChunkAppends(Spoken(role, pieces[..n]), pieces[n]);
      assert pieces == pieces[..n] + [pieces[n]];
    }
  }

  /** Every cut of a content into one or more pieces gives the same turns as the whole response. */
  lemma AnyCutSameTurns(decode: Decoder, body: string, req: Request, ids: Ids,
                        role: string, pieces: seq<string>, usage: Option<Usage>, model: Option<string>)
    requires pieces != [] && ChunksOf(decode, Lines(body)) == ReplyStream(role, pieces, usage)
    ensures Turns(req, Assembled(ChunksOf(decode, Lines(body))), ids) ==
            Turns(req, Response([Choice(Some(Message(role, Text(Concat(pieces)))))], usage, model), ids)
  {
    ContentStream(role, pieces);
    var chunks := Spoken(role, pieces);
    var last := Chunk([], usage, None);
    assert ReplyStream(role, pieces, usage) == chunks + [last];
    AppendChunk(chunks, last);
    assert AllChoices(chunks) + [] == AllChoices(chunks);
    assert (chunks + [last])[..|chunks|] == chunks;
    StreamingAgrees(decode, body, req, Response([Choice(Some(Message(role, Text(Concat(pieces)))))], usage, model),
      ids, 0);
  }

  /**
   From the text: a body whose payload lines stream a reply in any cut, with any other lines in between,
   gives the turns of the whole response.
   */
  lemma AnyBodySameTurns(decode: Decoder, lines: seq<StreamLine>, req: Request, ids: Ids,
                         role: string, pieces: seq<string>, usage: Option<Usage>, model: Option<string>)
    requires WellFormed(decode, lines) && pieces != [] && Carried(decode, lines) == ReplyStream(role, pieces, usage)
    ensures Turns(req, Assembled(ChunksOf(decode, Lines(Join(LineTexts(lines))))), ids) ==
            Turns(req, Response([Choice(Some(Message(role, Text(Concat(pieces)))))], usage, model), ids)
  {
    BodyCarries(decode, lines);
    AnyCutSameTurns(decode, Join(LineTexts(lines)), req, ids, role, pieces, usage, model);
  }

  /**
   What a streamed reply leaves: the request's messages, the last of them with the prompt total, and
   then the content in one, with the streamed role and the completion total.
   */
  ghost predicate RecordsReply(turns: seq<Turn>, req: Request, ids: Ids, role: string, content: string,
                               usage: Option<Usage>) {
    var n := |req.messages|;
    && |turns| == n + 1
    && (forall i :: 0 <= i < n ==> Keeps(turns[i], req.messages[i], ids, i))
    && (forall i :: 0 <= i && i + 1 < n ==> turns[i].tokens == None)
    && (n > 0 ==> turns[n - 1].tokens == if usage.Some? then usage.value.promptTokens else None)
    && turns[n] == Turn(ids, n, role, content, if usage.Some? then usage.value.completionTokens else None)
  }

  /** From the text of the body to that, whatever the pieces and whatever other lines lie between. */
  lemma StreamedReplyIsRecorded(decode: Decoder, lines: seq<StreamLine>, req: Request, ids: Ids,
                                role: string, pieces: seq<string>, usage: Option<Usage>)
    requires WellFormed(decode, lines) && pieces != [] && Carried(decode, lines) == ReplyStream(role, pieces, usage)
    ensures RecordsReply(Turns(req, Assembled(ChunksOf(decode, Lines(Join(LineTexts(lines))))), ids), req, ids,
                         role, Concat(pieces), usage)
  {
    var whole := Response([Choice(Some(Message(role, Text(Concat(pieces)))))], usage, None);
    AnyBodySameTurns(decode, lines, req, ids, role, pieces, usage, None);
    TurnsAreRecorded(req, whole, ids);
  }

  /** The deltas of one choice, in stream order. */
  function Only(choices: seq<ChunkChoice>, index: nat): seq<ChunkChoice> {
    if choices == [] then [] else
    var rest := Only(choices[..|choices| - 1], index);
    if choices[|choices| - 1].index == index then rest + [choices[|choices| - 1]] else rest
  }

  lemma {:induction false} OnlyLaws(a: seq<ChunkChoice>, b: seq<ChunkChoice>, c: ChunkChoice, index: nat)
    ensures Only(a + b, index) == Only(a, index) + Only(b, index)
    ensures Only([], index) == [] && Only([c], index) == if c.index == index then [c] else []
    decreases |b|
  {
    assert Only([c][..0], index) == [];
    if b == [] {
      assert a + b == a;
    } else {
      assert (a + b)[..|a + b| - 1] == a + b[..|b| - 1];
      OnlyLaws(a, b[..|b| - 1], c, index);
    }
  }

  lemma {:induction false} OnlyKeepsPieces(choices: seq<ChunkChoice>, index: nat)
    ensures Pieces(Only(choices, index), index) == Pieces(choices, index)
    ensures FirstRole(Only(choices, index), index) == FirstRole(choices, index)
  {
    if choices != [] {
      var rest, last := choices[..|choices| - 1], choices[|choices| - 1];
      OnlyKeepsPieces(rest, index);
      if last.index == index {
        assert (Only(rest, index) + [last])[..|Only(rest, index)|] == Only(rest, index);
      }
    }
  }

  /** However choices interleave, each reply is the in-order concatenation of its own deltas. */
  lemma ChoicesAreIndependent(a: seq<ChunkChoice>, b: seq<ChunkChoice>, index: nat)
    requires Only(a, index) == Only(b, index)
    ensures ReplyOf(a, index) == ReplyOf(b, index)
  {
    OnlyKeepsPieces(a, index);
    OnlyKeepsPieces(b, index);
  }
}
