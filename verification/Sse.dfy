/**
 From the text of an event stream to a chat-completion response.  Only the
 one-line `data:` subset of the event-stream format (section 9.2.6 of the WHATWG
 HTML Standard) is read.  Decoding a payload is a partial function given by the
 caller.
 */
module Sse {
  import opened Common

  datatype Usage = Usage(promptTokens: Option<int>, completionTokens: Option<int>)

  datatype Delta = Delta(role: Option<string>, content: Option<string>)

  datatype ChunkChoice = ChunkChoice(index: nat, delta: Option<Delta>)

  datatype Chunk = Chunk(choices: seq<ChunkChoice>, usage: Option<Usage>, model: Option<string>)

  /** Message content: a plain string, or any other JSON value by its rendering. */
  datatype Content = Text(text: string) | Structured(json: string)

  datatype Message = Message(role: string, content: Content)

  datatype Choice = Choice(message: Option<Message>)

  datatype Response = Response(choices: seq<Choice>, usage: Option<Usage>, model: Option<string>)

  type Decoder = string -> Option<Chunk>

  // --- Lines and payloads ---

  function Find(s: string, c: char): (r: nat)
    ensures r <= |s| && c !in s[..r] && (r < |s| ==> s[r] == c)
  {
    if s == [] || s[0] == c then 0 else 1 + Find(s[1..], c)
  }

  function StripCr(s: string): string {
    if s != [] && s[|s| - 1] == '\r' then s[..|s| - 1] else s
  }

  /** `str::lines`: split at newlines, drop one carriage return before each, no empty last line. */
  function Lines(body: string): seq<string> {
    if body == [] then [] else
    var i := Find(body, '\n');
    if i == |body| then [body] else [StripCr(body[..i])] + Lines(body[i + 1..])
  }

  /** The White_Space property that `str::trim` uses. */
  predicate IsWhite(c: char) {
    var n := c as int;
    9 <= n <= 13 || n == 32 || n == 0x85 || n == 0xA0 || n == 0x1680 || 0x2000 <= n <= 0x200A ||
    n == 0x2028 || n == 0x2029 || n == 0x202F || n == 0x205F || n == 0x3000
  }

  function TrimStart(s: string): string {
    if s != [] && IsWhite(s[0]) then TrimStart(s[1..]) else s
  }

  function TrimEnd(s: string): string {
    if s != [] && IsWhite(s[|s| - 1]) then TrimEnd(s[..|s| - 1]) else s
  }

  function Trim(s: string): string {
    TrimEnd(TrimStart(s))
  }

  /** The chunk a line carries; every other line is skipped. */
  function ChunkOf(decode: Decoder, line: string): Option<Chunk> {
    if |line| < 5 || line[..5] != "data:" then None else
    var payload := Trim(line[5..]);
    if payload == [] || payload == "[DONE]" then None else decode(payload)
  }

  function ChunksOf(decode: Decoder, lines: seq<string>): seq<Chunk> {
    if lines == [] then [] else
    var rest := ChunksOf(decode, lines[..|lines| - 1]);
    match ChunkOf(decode, lines[|lines| - 1]) case Some(c) => rest + [c] case None => rest
  }

  // --- What a list of chunks says ---

  function Pieces(choices: seq<ChunkChoice>, index: nat): seq<string> {
    if choices == [] then [] else
    var rest, last := Pieces(choices[..|choices| - 1], index), choices[|choices| - 1];
    if last.index == index && last.delta.Some? && last.delta.value.content.Some?
    then rest + [last.delta.value.content.value] else rest
  }

  function Concat(pieces: seq<string>): string {
    if pieces == [] then [] else Concat(pieces[..|pieces| - 1]) + pieces[|pieces| - 1]
  }

  function FirstRole(choices: seq<ChunkChoice>, index: nat): Option<string> {
    if choices == [] then None else
    var rest, last := FirstRole(choices[..|choices| - 1], index), choices[|choices| - 1];
    if rest.None? && last.index == index && last.delta.Some? then last.delta.value.role else rest
  }

  /** All choice deltas of all chunks, in stream order. */
  function AllChoices(chunks: seq<Chunk>): seq<ChunkChoice> {
    if chunks == [] then [] else AllChoices(chunks[..|chunks| - 1]) + chunks[|chunks| - 1].choices
  }

  function LastUsage(chunks: seq<Chunk>): Option<Usage> {
    if chunks == [] then None
    else if chunks[|chunks| - 1].usage.Some? then chunks[|chunks| - 1].usage
    else LastUsage(chunks[..|chunks| - 1])
  }

  function FirstModel(chunks: seq<Chunk>): Option<string> {
    if chunks == [] then None else
    var rest := FirstModel(chunks[..|chunks| - 1]);
    if rest.Some? then rest else chunks[|chunks| - 1].model
  }

  /** The choice indices that received any content. */
  function Indices(choices: seq<ChunkChoice>): set<nat> {
    set i | 0 <= i < |choices| && choices[i].delta.Some? && choices[i].delta.value.content.Some? :: choices[i].index
  }

  ghost function Least(s: set<nat>): (m: nat)
    requires s != {}
    ensures m in s && forall x :: x in s ==> m <= x
  {
    var x :| x in s;
    if s == {x} then x else
    var m := Least(s - {x});
    assert forall y :: y in s ==> y == x || y in s - {x};
    if m <= x then m else x
  }

  ghost function Ascending(s: set<nat>): (r: seq<nat>)
    ensures |r| == |s|
    ensures s != {} ==> r[0] == Least(s)
  {
    if s == {} then [] else [Least(s)] + Ascending(s - {Least(s)})
  }

  function ReplyOf(choices: seq<ChunkChoice>, index: nat): Choice {
    var role := FirstRole(choices, index);
    Choice(Some(Message(if role.Some? then role.value else "assistant", Text(Concat(Pieces(choices, index))))))
  }

  ghost function Replies(choices: seq<ChunkChoice>, indices: seq<nat>): (r: seq<Choice>)
    ensures |r| == |indices| && forall i :: 0 <= i < |indices| ==> r[i] == ReplyOf(choices, indices[i])
  {
    seq(|indices|, i requires 0 <= i < |indices| => ReplyOf(choices, indices[i]))
  }

  /** The synthetic response: one reply per index that received content, in index order. */
  ghost function Assembled(chunks: seq<Chunk>): Response {
    var choices := AllChoices(chunks);
    Response(Replies(choices, Ascending(Indices(choices))), LastUsage(chunks), FirstModel(chunks))
  }

  /** Concatenation is concatenation ... */
  lemma {:induction false} ConcatLaws(a: seq<string>, b: seq<string>, piece: string)
    ensures Concat([]) == "" && Concat([piece]) == piece && Concat(a + b) == Concat(a) + Concat(b)
    decreases |b|
  {
    assert [piece][..0] == [] && Concat([]) == "";
    if b == [] {
      assert a + b == a;
    } else {
      var n := |b| - 1;
      assert (a + b)[..|a| + n] == a + b[..n];
      ConcatLaws(a, b[..n], piece);
    }
  }

  /** ... the pieces of a choice are its deltas' contents in stream order ... */
  lemma {:induction false} PiecesLaws(a: seq<ChunkChoice>, b: seq<ChunkChoice>, index: nat, role: Option<string>,
                                      piece: string)
    ensures Pieces(a + b, index) == Pieces(a, index) + Pieces(b, index)
    ensures Pieces([ChunkChoice(index, Some(Delta(role, Some(piece))))], index) == [piece]
    ensures forall c: ChunkChoice | c.index != index || c.delta.None? || c.delta.value.content.None? ::
              Pieces([c], index) == []
    decreases |b|
  {
    if b == [] {
      assert a + b == a;
    } else {
      var n := |b| - 1;
      assert (a + b)[..|a| + n] == a + b[..n];
      PiecesLaws(a, b[..n], index, role, piece);
    }
  }

  /** ... and the choices of a stream are those of its chunks in stream order. */
  lemma {:induction false} AllChoicesLaws(a: seq<Chunk>, b: seq<Chunk>, c: Chunk)
    ensures AllChoices(a + b) == AllChoices(a) + AllChoices(b) && AllChoices([c]) == c.choices
    decreases |b|
  {
    assert AllChoices([c][..0]) == [];
    if b == [] {
      assert a + b == a;
    } else {
      var n := |b| - 1;
      assert (a + b)[..|a| + n] == a + b[..n];
      AllChoicesLaws(a, b[..n], c);
    }
  }

  predicate NamesRole(c: ChunkChoice, index: nat) {
    c.index == index && c.delta.Some? && c.delta.value.role.Some?
  }

  predicate NoneNames(choices: seq<ChunkChoice>, index: nat) {
    forall k :: 0 <= k < |choices| ==> !NamesRole(choices[k], index)
  }

  /** A choice's role is the one of its first delta with any. */
  lemma {:induction false} FirstRoleIff(choices: seq<ChunkChoice>, index: nat)
    ensures FirstRole(choices, index).None? <==> NoneNames(choices, index)
    ensures forall k | 0 <= k < |choices| && NamesRole(choices[k], index) && NoneNames(choices[..k], index) ::
              FirstRole(choices, index) == choices[k].delta.value.role
  {
    if choices != [] {
      var rest, last := choices[..|choices| - 1], choices[|choices| - 1];
      FirstRoleIff(rest, index);
      assert NoneNames(choices, index) <==> NoneNames(rest, index) && !NamesRole(last, index);
      forall k | 0 <= k < |rest|
        ensures choices[..k] == rest[..k]
      {
      }
    }
  }

  /** The response's model is the one of the first chunk with any. */
  lemma {:induction false} FirstModelIff(chunks: seq<Chunk>)
    ensures FirstModel(chunks).None? <==> forall k :: 0 <= k < |chunks| ==> chunks[k].model.None?
    ensures forall k | 0 <= k < |chunks| && chunks[k].model.Some? &&
                         (forall j :: 0 <= j < k ==> chunks[j].model.None?) ::
              FirstModel(chunks) == chunks[k].model
  {
    if chunks != [] {
      FirstModelIff(chunks[..|chunks| - 1]);
    }
  }

  /** The response's usage is the one of the last chunk with any. */
  lemma {:induction false} LastUsageIff(chunks: seq<Chunk>)
    ensures LastUsage(chunks).None? <==> forall k :: 0 <= k < |chunks| ==> chunks[k].usage.None?
    ensures forall k | 0 <= k < |chunks| && chunks[k].usage.Some? &&
                         (forall j :: k < j < |chunks| ==> chunks[j].usage.None?) ::
              LastUsage(chunks) == chunks[k].usage
  {
    if chunks != [] {
      LastUsageIff(chunks[..|chunks| - 1]);
    }
  }

  lemma {:induction false} AscendingIsSorted(s: set<nat>)
    ensures forall i, j :: 0 <= i < j < |s| ==> Ascending(s)[i] < Ascending(s)[j]
    ensures forall x: nat :: x in Ascending(s) <==> x in s
  {
    if s != {} {
      AscendingIsSorted(s - {Least(s)});
    }
  }

  lemma {:induction false} PiecesIffIndex(choices: seq<ChunkChoice>, j: nat)
    ensures Pieces(choices, j) != [] <==> j in Indices(choices)
  {
    if choices != [] {
      var rest, last := choices[..|choices| - 1], choices[|choices| - 1];
      assert choices == rest + [last];
      IndicesAppend(rest, last);
      PiecesIffIndex(rest, j);
    }
  }

  /** One reply per index with content, in index order: the role it first names, or assistant, and all its content. */
  lemma AssembledReplies(chunks: seq<Chunk>) returns (order: seq<nat>)
    ensures var choices := AllChoices(chunks);
            && |order| == |Assembled(chunks).choices|
            && (forall i, j :: 0 <= i < j < |order| ==> order[i] < order[j])
            && (forall x: nat :: x in order <==> Pieces(choices, x) != [])
            && (forall i :: 0 <= i < |order| ==>
                  Assembled(chunks).choices[i] == Choice(Some(Message(
                    match FirstRole(choices, order[i]) case Some(role) => role case None => "assistant",
                    Text(Concat(Pieces(choices, order[i])))))))
  {
    var choices := AllChoices(chunks);
    order := Ascending(Indices(choices));
    AscendingIsSorted(Indices(choices));
    forall x: nat ensures Pieces(choices, x) != [] <==> x in Indices(choices) { PiecesIffIndex(choices, x); }
  }

  // --- The parser ---

  ghost predicate TracksContent(content: map<nat, string>, choices: seq<ChunkChoice>) {
    && content.Keys == Indices(choices)
    && (forall i :: i in content ==> content[i] == Concat(Pieces(choices, i)))
    && (forall i: nat :: i !in content ==> Pieces(choices, i) == [])
  }

  ghost predicate TracksRoles(roles: map<nat, string>, choices: seq<ChunkChoice>) {
    forall i: nat :: FirstRole(choices, i) == if i in roles then Some(roles[i]) else None
  }

  /** The two per-choice maps hold what the choices seen so far say. */
  ghost predicate Tracks(content: map<nat, string>, roles: map<nat, string>, choices: seq<ChunkChoice>) {
    TracksContent(content, choices) && TracksRoles(roles, choices)
  }

  lemma IndicesAppend(choices: seq<ChunkChoice>, c: ChunkChoice)
    ensures Indices(choices + [c]) ==
            Indices(choices) + if c.delta.Some? && c.delta.value.content.Some? then {c.index} else {}
  {
    var all := choices + [c];
    forall x | x in Indices(choices)
      ensures x in Indices(all)
    {
      var i :| 0 <= i < |choices| && choices[i].delta.Some? && choices[i].delta.value.content.Some? &&
        choices[i].index == x;
      assert all[i] == choices[i];
    }
    if c.delta.Some? && c.delta.value.content.Some? {
      assert all[|choices|] == c;
    }
  }

  lemma AppendChoice(choices: seq<ChunkChoice>, c: ChunkChoice, i: nat)
    ensures Pieces(choices + [c], i) ==
            Pieces(choices, i) + if c.index == i && c.delta.Some? && c.delta.value.content.Some?
              then [c.delta.value.content.value] else []
    ensures FirstRole(choices + [c], i) ==
            if FirstRole(choices, i).None? && c.index == i && c.delta.Some? then c.delta.value.role
              else FirstRole(choices, i)
  {
    assert (choices + [c])[..|choices|] == choices;
  }

  lemma ConcatAppend(pieces: seq<string>, piece: string)
    ensures Concat(pieces + [piece]) == Concat(pieces) + piece
  {
    assert (pieces + [piece])[..|pieces|] == pieces;
  }

  function ContentSoFar(content: map<nat, string>, i: nat): string {
    if i in content then content[i] else ""
  }

  lemma ContentUpdated(content: map<nat, string>, before: seq<ChunkChoice>, after: seq<ChunkChoice>, k: nat,
                       text: string)
    requires TracksContent(content, before) && Indices(after) == Indices(before) + {k}
    requires text == Concat(Pieces(after, k)) && forall i: nat :: i != k ==> Pieces(after, i) == Pieces(before, i)
    ensures TracksContent(content[k := text], after)
  {
    assert content[k := text].Keys == content.Keys + {k};
  }

  lemma ContentAppend(content: map<nat, string>, before: seq<ChunkChoice>, c: ChunkChoice, piece: string)
    requires TracksContent(content, before) && c.delta.Some? && c.delta.value.content == Some(piece)
    ensures TracksContent(content[c.index := ContentSoFar(content, c.index) + piece], before + [c])
  {
    IndicesAppend(before, c);
    AppendChoice(before, c, c.index);
    ConcatAppend(Pieces(before, c.index), piece);
    assert ContentSoFar(content, c.index) == Concat(Pieces(before, c.index));
    forall i: nat | i != c.index
      ensures Pieces(before + [c], i) == Pieces(before, i)
    {
      AppendChoice(before, c, i);
    }
    ContentUpdated(content, before, before + [c], c.index, ContentSoFar(content, c.index) + piece);
  }

  lemma ContentKept(content: map<nat, string>, before: seq<ChunkChoice>, c: ChunkChoice)
    requires TracksContent(content, before) && (c.delta.None? || c.delta.value.content.None?)
    ensures TracksContent(content, before + [c])
  {
    IndicesAppend(before, c);
    forall i: nat
      ensures Pieces(before + [c], i) == Pieces(before, i)
    {
      AppendChoice(before, c, i);
    }
  }

  lemma RolesAppend(roles: map<nat, string>, before: seq<ChunkChoice>, c: ChunkChoice)
    requires TracksRoles(roles, before)
    ensures TracksRoles(if c.delta.Some? && c.delta.value.role.Some? && c.index !in roles
                        then roles[c.index := c.delta.value.role.value] else roles, before + [c])
  {
    forall i: nat { AppendChoice(before, c, i); }
  }

  method AddChoice(content: map<nat, string>, roles: map<nat, string>, c: ChunkChoice, ghost before: seq<ChunkChoice>)
    returns (content': map<nat, string>, roles': map<nat, string>)
    requires Tracks(content, roles, before)
    ensures Tracks(content', roles', before + [c])
  {
    content', roles' := content, roles;
    RolesAppend(roles, before, c);
    if c.delta.None? || c.delta.value.content.None? { ContentKept(content, before, c); }
    if c.delta.Some? {
      var delta := c.delta.value;
      if delta.role.Some? && c.index !in roles {
        roles' := roles[c.index := delta.role.value];
      }
      if delta.content.Some? {
        ContentAppend(content, before, c, delta.content.value);
        var sofar := if c.index in content then content[c.index] else "";
        content' := content[c.index := sofar + delta.content.value];
      }
    }
  }

  method AddChoices(content: map<nat, string>, roles: map<nat, string>, choices: seq<ChunkChoice>,
                    ghost before: seq<ChunkChoice>)
    returns (content': map<nat, string>, roles': map<nat, string>)
    requires Tracks(content, roles, before)
    ensures Tracks(content', roles', before + choices)
  {
    content', roles' := content, roles;
    assert before + choices[..0] == before;
    for i := 0 to |choices|
      invariant Tracks(content', roles', before + choices[..i])
    {
      content', roles' := AddChoice(content', roles', choices[i], before + choices[..i]);
      assert before + choices[..i] + [choices[i]] == before + choices[..i + 1];
    }
    assert choices[..|choices|] == choices;
  }

  lemma LeastFirst(s: set<nat>, k: nat)
    requires k in s && forall x :: x in s ==> k <= x
    ensures Least(s) == k && Ascending(s) == [k] + Ascending(s - {k})
  {
  }

  function ReplyFromMaps(content: map<nat, string>, roles: map<nat, string>, k: nat): Choice
    requires k in content
  {
    Choice(Some(Message(if k in roles then roles[k] else "assistant", Text(content[k]))))
  }

  /** Iterating the ordered map: the replies in index order. */
  method InIndexOrder(content: map<nat, string>, roles: map<nat, string>) returns (replies: seq<Choice>)
    ensures var order := Ascending(content.Keys);
            |replies| == |order| &&
            forall i :: 0 <= i < |order| ==>
              order[i] in content && replies[i] == ReplyFromMaps(content, roles, order[i])
  {
    replies := [];
    var left := content.Keys;
    ghost var done: seq<nat> := [];
    while left != {}
      invariant left <= content.Keys
      invariant Ascending(content.Keys) == done + Ascending(left)
      invariant |replies| == |done|
      invariant forall i :: 0 <= i < |done| ==>
                done[i] in content && replies[i] == ReplyFromMaps(content, roles, done[i])
    {
      assert Least(left) in left;
      var k: nat :| k in left && forall x :: x in left ==> k <= x;
      LeastFirst(left, k);
      assert done + ([k] + Ascending(left - {k})) == (done + [k]) + Ascending(left - {k});
      replies := replies + [ReplyFromMaps(content, roles, k)];
      done, left := done + [k], left - {k};
    }
    assert done + [] == done;
  }

  lemma RepliesInOrder(content: map<nat, string>, roles: map<nat, string>, choices: seq<ChunkChoice>,
                       replies: seq<Choice>)
    requires Tracks(content, roles, choices) && |replies| == |Ascending(content.Keys)|
    requires forall i :: 0 <= i < |replies| ==>
               Ascending(content.Keys)[i] in content &&
                 replies[i] == ReplyFromMaps(content, roles, Ascending(content.Keys)[i])
    ensures replies == Replies(choices, Ascending(Indices(choices)))
  {
  }

  lemma AppendChunk(chunks: seq<Chunk>, c: Chunk)
    ensures AllChoices(chunks + [c]) == AllChoices(chunks) + c.choices
    ensures LastUsage(chunks + [c]) == if c.usage.Some? then c.usage else LastUsage(chunks)
    ensures FirstModel(chunks + [c]) == if FirstModel(chunks).Some? then FirstModel(chunks) else c.model
  {
    assert (chunks + [c])[..|chunks|] == chunks;
  }

  /** Nothing decodable gives no response; otherwise the response the chunks assemble to. */
  method ParseSseToResponse(body: string, decode: Decoder) returns (r: Option<Response>)
    ensures var chunks := ChunksOf(decode, Lines(body));
            r == if chunks == [] then None else Some(Assembled(chunks))
  {
    var content, roles: map<nat, string> := map[], map[];
    var usage, model, sawChunk := None, None, false;
    var lines := Lines(body);
    ghost var chunks := [];
    for i := 0 to |lines|
      invariant chunks == ChunksOf(decode, lines[..i])
      invariant Tracks(content, roles, AllChoices(chunks))
      invariant usage == LastUsage(chunks) && model == FirstModel(chunks)
      invariant sawChunk <==> chunks != []
    {
      assert lines[..i + 1][..i] == lines[..i];
      var line := lines[i];
      if |line| < 5 || line[..5] != "data:" { continue; }
      var payload := Trim(line[5..]);
      if payload == [] || payload == "[DONE]" { continue; }
      var decoded := decode(payload);
      if decoded.None? { continue; }
      var chunk := decoded.value;
      sawChunk := true;
      if chunk.model.Some? && model.None? {
        model := chunk.model;
      }
      if chunk.usage.Some? {
        usage := chunk.usage;
      }
      content, roles := AddChoices(content, roles, chunk.choices, AllChoices(chunks));
      AppendChunk(chunks, chunk);
      chunks := chunks + [chunk];
    }
    assert lines[..|lines|] == lines;
    if !sawChunk { return None; }
    var replies := InIndexOrder(content, roles);
    RepliesInOrder(content, roles, AllChoices(chunks), replies);
    return Some(Response(replies, usage, model));
  }

  // --- Inert lines and framing ---

  lemma {:induction false} ChunksOfConcat(decode: Decoder, a: seq<string>, b: seq<string>)
    ensures ChunksOf(decode, a + b) == ChunksOf(decode, a) + ChunksOf(decode, b)
  {
    if b == [] {
      assert a + b == a;
    } else {
      ChunksOfConcat(decode, a, b[..|b| - 1]);
      assert (a + b)[..|a + b| - 1] == a + b[..|b| - 1];
    }
  }

  /** A line that carries no chunk can be inserted anywhere. */
  lemma InertLine(decode: Decoder, before: seq<string>, inert: string, after: seq<string>)
    requires ChunkOf(decode, inert).None?
    ensures ChunksOf(decode, before + [inert] + after) == ChunksOf(decode, before + after)
  {
    ChunksOfConcat(decode, before + [inert], after);
    ChunksOfConcat(decode, before, [inert]);
    ChunksOfConcat(decode, before, after);
    assert ChunksOf(decode, [inert][..0]) == [];
    assert ChunksOf(decode, [inert]) == [];
  }

  lemma {:induction false} FindFirst(s: string, c: char, i: nat)
    requires i < |s| && s[i] == c && c !in s[..i]
    ensures Find(s, c) == i
  {
    if i > 0 {
      assert s[0] in s[..i];
      assert s[1..][..i - 1] == s[..i][1..];
      FindFirst(s[1..], c, i - 1);
    }
  }

  lemma LinesCons(line: string, rest: string)
    requires '\n' !in line
    ensures Lines(line + "\n" + rest) == [StripCr(line)] + Lines(rest)
  {
    var body := line + "\n" + rest;
    assert body[|line|] == '\n' && body[..|line|] == line && body[|line| + 1..] == rest;
    FindFirst(body, '\n', |line|);
  }

  /** A payload text that survives framing: one line, no surrounding white space, not the terminator. */
  predicate Clean(payload: string) {
    && payload != [] && payload != "[DONE]" && '\n' !in payload
    && !IsWhite(payload[0]) && !IsWhite(payload[|payload| - 1])
  }

  const DONE_FRAME: string := "data: [DONE]\n\n"

  function Frame(payloads: seq<string>): string {
    if payloads == [] then DONE_FRAME else "data: " + payloads[0] + "\n\n" + Frame(payloads[1..])
  }

  lemma DataLine(payload: string)
    requires Clean(payload)
    ensures Trim(("data: " + payload)[5..]) == payload && StripCr("data: " + payload) == "data: " + payload
    ensures ("data: " + payload)[..5] == "data:"
  {
    var line := "data: " + payload;
    assert line[5..] == [' '] + payload;
    assert line[5..][1..] == payload;
    assert TrimStart(line[5..]) == TrimStart(payload) == payload;
    assert line[|line| - 1] == payload[|payload| - 1];
  }

  lemma BlankAndDone(decode: Decoder)
    ensures ChunkOf(decode, "").None? && ChunkOf(decode, "data: [DONE]").None?
  {
    var line := "data: [DONE]";
    assert line[5..] == " [DONE]" && line[5..][1..] == "[DONE]";
    assert TrimStart(line[5..]) == TrimStart("[DONE]") == "[DONE]";
    assert TrimEnd("[DONE]") == "[DONE]";
  }

  lemma ChunksOfCons(decode: Decoder, line: string, rest: seq<string>)
    ensures ChunksOf(decode, [line] + rest) ==
            (match ChunkOf(decode, line) case Some(c) => [c] case None => []) + ChunksOf(decode, rest)
  {
    ChunksOfConcat(decode, [line], rest);
    assert ChunksOf(decode, [line][..0]) == [];
  }

  lemma LinesOfDoneFrame()
    ensures Lines(DONE_FRAME) == ["data: [DONE]"] + [""]
  {
    var line := "data: [DONE]";
    assert DONE_FRAME == line + "\n" + "\n" && "" + "\n" + "" == "\n";
    LinesCons(line, "\n");
    LinesCons("", "");
    assert [""] + [] == [""];
  }

  lemma DoneFrameIsInert(decode: Decoder)
    ensures ChunksOf(decode, Lines(DONE_FRAME)) == []
  {
    LinesOfDoneFrame();
    BlankAndDone(decode);
    ChunksOfCons(decode, "data: [DONE]", [""]);
    ChunksOfCons(decode, "", []);
    assert [""] + [] == [""];
  }

  lemma TwoBreaks(line: string, rest: string)
    ensures line + "\n\n" + rest == line + "\n" + ("" + "\n" + rest)
  {
  }

  lemma TwoFirst(a: string, b: string, rest: seq<string>)
    ensures [a] + ([b] + rest) == [a, b] + rest
  {
  }

  lemma LinesOfPair(line: string, rest: string)
    requires '\n' !in line && StripCr(line) == line
    ensures Lines(line + "\n\n" + rest) == [line, ""] + Lines(rest)
  {
    TwoBreaks(line, rest);
    LinesCons(line, "" + "\n" + rest);
    LinesCons("", rest);
    TwoFirst(line, "", Lines(rest));
  }

  lemma LinesOfFrame(payload: string, rest: string)
    requires Clean(payload)
    ensures Lines("data: " + payload + "\n\n" + rest) == ["data: " + payload, ""] + Lines(rest)
  {
    DataLine(payload);
    LinesOfPair("data: " + payload, rest);
  }

  lemma ChunksOfFrame(decode: Decoder, payload: string, chunk: Chunk, rest: seq<string>)
    requires Clean(payload) && decode(payload) == Some(chunk)
    ensures ChunksOf(decode, ["data: " + payload, ""] + rest) == [chunk] + ChunksOf(decode, rest)
  {
    var line := "data: " + payload;
    DataLine(payload);
    BlankAndDone(decode);
    assert [line, ""] + rest == [line] + ([""] + rest);
    ChunksOfCons(decode, line, [""] + rest);
    ChunksOfCons(decode, "", rest);
  }

  /** Framing and parsing are inverse: a framed list of payloads decodes to exactly its chunks. */
  lemma {:induction false} FrameRoundTrip(decode: Decoder, payloads: seq<string>, chunks: seq<Chunk>)
    requires |payloads| == |chunks|
    requires forall i :: 0 <= i < |payloads| ==> Clean(payloads[i]) && decode(payloads[i]) == Some(chunks[i])
    ensures ChunksOf(decode, Lines(Frame(payloads))) == chunks
  {
    if payloads == [] {
      DoneFrameIsInert(decode);
    } else {
      FrameRoundTrip(decode, payloads[1..], chunks[1..]);
      var rest := Frame(payloads[1..]);
      assert Frame(payloads) == "data: " + payloads[0] + "\n\n" + rest;
      LinesOfFrame(payloads[0], rest);
      ChunksOfFrame(decode, payloads[0], chunks[0], Lines(rest));
      assert chunks == [chunks[0]] + chunks[1..];
    }
  }

  predicate AllWhite(s: string) {
    forall i :: 0 <= i < |s| ==> IsWhite(s[i])
  }

  lemma {:induction false} TrimStartDrops(pre: string, rest: string)
    requires AllWhite(pre) && (rest == "" || !IsWhite(rest[0]))
    ensures TrimStart(pre + rest) == rest
  {
    if pre == "" {
      assert pre + rest == rest;
    } else {
      assert (pre + rest)[1..] == pre[1..] + rest;
      TrimStartDrops(pre[1..], rest);
    }
  }

  lemma {:induction false} TrimEndDrops(rest: string, post: string)
    requires AllWhite(post) && (rest == "" || !IsWhite(rest[|rest| - 1]))
    ensures TrimEnd(rest + post) == rest
  {
    if post == "" {
      assert rest + post == rest;
    } else {
      assert (rest + post)[..|rest + post| - 1] == rest + post[..|post| - 1];
      TrimEndDrops(rest, post[..|post| - 1]);
    }
  }

  /** What a `data:` line carries between any amount of white space: the end marker, nothing, or a payload. */
  lemma PaddedLine(decode: Decoder, pre: string, core: string, post: string)
    requires AllWhite(pre) && AllWhite(post)
    requires core == "" || (!IsWhite(core[0]) && !IsWhite(core[|core| - 1]))
    ensures ChunkOf(decode, "data:" + (pre + core + post)) ==
            if core == "" || core == "[DONE]" then None else decode(core)
  {
    var line := "data:" + (pre + core + post);
    assert line[..5] == "data:" && line[5..] == pre + core + post;
    if core == "" {
      assert pre + core + post == (pre + post) + "";
      TrimStartDrops(pre + post, "");
    } else {
      assert pre + core + post == pre + (core + post);
      TrimStartDrops(pre, core + post);
      TrimEndDrops(core, post);
    }
  }

  // --- Whole bodies ---

  function Join(lines: seq<string>): string {
    if lines == [] then "" else if |lines| == 1 then lines[0] else lines[0] + "\n" + Join(lines[1..])
  }

  lemma {:induction false} TrimStartAppend(s: string, c: char)
    requires IsWhite(c)
    ensures TrimStart(s + [c]) == if TrimStart(s) == "" then "" else TrimStart(s) + [c]
  {
    if s == "" {
      assert s + [c] == [c] && [c][1..] == "";
    } else if IsWhite(s[0]) {
      assert (s + [c])[1..] == s[1..] + [c];
      TrimStartAppend(s[1..], c);
    }
  }

  lemma TrimAppend(s: string, c: char)
    requires IsWhite(c)
    ensures Trim(s + [c]) == Trim(s)
  {
    TrimStartAppend(s, c);
    var t := TrimStart(s);
    assert (t + [c])[..|t|] == t;
  }

  /** A carriage return at the end of a line makes no difference. */
  lemma StripCrKeepsChunk(decode: Decoder, line: string)
    ensures ChunkOf(decode, StripCr(line)) == ChunkOf(decode, line)
  {
    var kept := StripCr(line);
    if kept != line {
      assert line == kept + ['\r'];
      if |kept| >= 5 {
        assert line[..5] == kept[..5] && line[5..] == kept[5..] + ['\r'];
        TrimAppend(kept[5..], '\r');
      } else if |line| == 5 {
        assert line[4] == '\r' && "data:"[4] == ':';
      }
    }
  }

  /** However lines are joined into a body, with carriage returns or without a last newline, their chunks come out. */
  lemma {:induction false} JoinedLines(decode: Decoder, lines: seq<string>)
    requires forall i :: 0 <= i < |lines| ==> '\n' !in lines[i]
    ensures ChunksOf(decode, Lines(Join(lines))) == ChunksOf(decode, lines)
  {
    if lines == [] {
    } else if |lines| == 1 {
      BlankAndDone(decode);
      assert lines == [lines[0]];
      if lines[0] == "" {
        ChunksOfCons(decode, "", []);
        assert [""] + [] == lines;
      }
    } else {
      var rest := lines[1..];
      LinesCons(lines[0], Join(rest));
      JoinedLines(decode, rest);
      StripCrKeepsChunk(decode, lines[0]);
      ChunksOfCons(decode, StripCr(lines[0]), Lines(Join(rest)));
      ChunksOfCons(decode, lines[0], rest);
      assert lines == [lines[0]] + rest;
    }
  }

  /** A line of an event stream: one that carries a payload, or any other. */
  datatype StreamLine = Carries(payload: string) | Other(text: string)

  function LineText(line: StreamLine): string {
    match line
    case Carries(payload) => "data: " + payload
    case Other(text) => text
  }

  function LineTexts(lines: seq<StreamLine>): seq<string> {
    if lines == [] then [] else LineTexts(lines[..|lines| - 1]) + [LineText(lines[|lines| - 1])]
  }

  /** Payloads decode; other lines carry no chunk. */
  ghost predicate WellFormed(decode: Decoder, lines: seq<StreamLine>) {
    forall i :: 0 <= i < |lines| ==>
      match lines[i]
      case Carries(payload) => Clean(payload) && decode(payload).Some?
      case Other(text) => '\n' !in text && ChunkOf(decode, text).None?
  }

  function Carried(decode: Decoder, lines: seq<StreamLine>): seq<Chunk> {
    if lines == [] then [] else
    var rest, last := Carried(decode, lines[..|lines| - 1]), lines[|lines| - 1];
    if last.Carries? && decode(last.payload).Some? then rest + [decode(last.payload).value] else rest
  }

  lemma {:induction false} LineTextsCarry(decode: Decoder, lines: seq<StreamLine>)
    requires WellFormed(decode, lines)
    ensures ChunksOf(decode, LineTexts(lines)) == Carried(decode, lines)
    ensures forall i :: 0 <= i < |LineTexts(lines)| ==> '\n' !in LineTexts(lines)[i]
  {
    if lines != [] {
      var n := |lines| - 1;
      var rest, last := LineTexts(lines[..n]), lines[n];
      LineTextsCarry(decode, lines[..n]);
      assert (rest + [LineText(last)])[..|rest|] == rest;
      if last.Carries? { DataLine(last.payload); }
    }
  }

  /** A body of payload lines and any other lines, in any order, decodes to exactly the payloads' chunks. */
  lemma BodyCarries(decode: Decoder, lines: seq<StreamLine>)
    requires WellFormed(decode, lines)
    ensures ChunksOf(decode, Lines(Join(LineTexts(lines)))) == Carried(decode, lines)
  {
    LineTextsCarry(decode, lines);
    JoinedLines(decode, LineTexts(lines));
  }
}
