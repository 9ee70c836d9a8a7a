/**
 The streaming branch of the relay: bytes go to the client as they arrive and
 into a buffer that is captured once the upstream ends.
 */
module Relay {
  import opened Common
  import opened Sse
  import opened Capture

  newtype Byte = n: int | 0 <= n < 256

  type Bytes = seq<Byte>

  type Upstream = seq<Result<Bytes, string>>

  /** All good chunks, concatenated; errors contribute nothing. */
  function GoodBytes(upstream: Upstream): Bytes {
    if upstream == [] then [] else
    var last := upstream[|upstream| - 1];
    GoodBytes(upstream[..|upstream| - 1]) + if last.Ok? then last.value else []
  }

  function FirstError(upstream: Upstream): (e: nat)
    ensures e <= |upstream| && (forall i :: 0 <= i < e ==> upstream[i].Ok?) && (e < |upstream| ==> upstream[e].Err?)
  {
    if upstream == [] || upstream[0].Err? then 0 else 1 + FirstError(upstream[1..])
  }

  /** An upstream error arrives before any send to the client has failed. */
  predicate ErrorWhileConnected(upstream: Upstream, accepted: nat) {
    FirstError(upstream) < |upstream| && FirstError(upstream) <= accepted
  }

  /** What the tee captures: everything, or nothing after an error the client was told about. */
  function Captured(upstream: Upstream, accepted: nat): Option<Bytes> {
    if ErrorWhileConnected(upstream, accepted) then None else Some(GoodBytes(upstream))
  }

  lemma GoodBytesNext(upstream: Upstream, i: nat)
    requires i < |upstream|
    ensures GoodBytes(upstream[..i + 1]) == GoodBytes(upstream[..i]) + if upstream[i].Ok? then upstream[i].value else []
  {
    assert upstream[..i + 1][..i] == upstream[..i];
  }

  /** The first upstream error is chunk `e`, and no send to the client can have failed before it. */
  predicate StopsAt(upstream: Upstream, accepted: nat, e: nat) {
    e < |upstream| && upstream[e].Err? && e <= accepted && forall i :: 0 <= i < e ==> upstream[i].Ok?
  }

  lemma SkippedIff(upstream: Upstream, accepted: nat)
    ensures Captured(upstream, accepted).None? <==> exists e: nat :: StopsAt(upstream, accepted, e)
  {
    if e: nat :| StopsAt(upstream, accepted, e) {
      assert FirstError(upstream) == e;
    }
    if ErrorWhileConnected(upstream, accepted) {
      assert StopsAt(upstream, accepted, FirstError(upstream));
    }
  }

  /**
   The spawned task; the client takes `accepted` chunks before its channel closes.  `forwarded` is
   what it got, `buffered` what was kept, `captured` the input of the one capture, if it runs.
   `offeredError` says that the task ended by offering an upstream error to the client, whether or
   not the client was still there to take it.
   */
  method Tee(upstream: Upstream, accepted: nat)
    returns (forwarded: Bytes, offeredError: bool, buffered: Bytes, captured: Option<Bytes>)
    ensures forwarded <= buffered
    ensures captured == Captured(upstream, accepted)
    ensures captured.Some? ==> buffered == captured.value == GoodBytes(upstream)
    ensures captured.None? <==> exists e: nat :: StopsAt(upstream, accepted, e)
    ensures offeredError <==> captured.None?
    ensures offeredError ==> buffered == forwarded == GoodBytes(upstream[..FirstError(upstream)])
    ensures var sent := if accepted <= FirstError(upstream) then accepted else FirstError(upstream);
            forwarded == GoodBytes(upstream[..sent])
  {
    SkippedIff(upstream, accepted);
    forwarded, buffered, offeredError := [], [], false;
    var i := 0;
    while i < |upstream|
      invariant i <= |upstream| && i <= FirstError(upstream) && i <= accepted
      invariant buffered == forwarded == GoodBytes(upstream[..i])
    {
      GoodBytesNext(upstream, i);
      if upstream[i].Err? {
        return forwarded, true, buffered, None;
      }
      buffered := buffered + upstream[i].value;
      if i >= accepted {
        i := i + 1;
        while i < |upstream|
          invariant accepted < i <= |upstream|
          invariant buffered == GoodBytes(upstream[..i]) && forwarded <= buffered
        {
          GoodBytesNext(upstream, i);
          if upstream[i].Ok? {
            buffered := buffered + upstream[i].value;
          }
          i := i + 1;
        }
        break;
      }
      forwarded := forwarded + upstream[i].value;
      i := i + 1;
    }
    assert upstream[..|upstream|] == upstream;
    captured := Some(buffered);
  }

  /** The turns that reach storage, if all three inputs of the capture are there. */
  ghost function StoredTurns(req: Option<Request>, session: Option<string>, trace: string, span: string,
                             captured: Option<Bytes>, text: Bytes -> string, decode: Decoder): seq<Turn> {
    if captured.None? || req.None? || session.None? then [] else
    var chunks := ChunksOf(decode, Lines(text(captured.value)));
    if chunks == [] then [] else Turns(req.value, Assembled(chunks), Ids(session.value, trace, span))
  }

  /** Nothing is stored exactly without a whole capture, or when there is nobody to say anything. */
  lemma NothingStoredIff(req: Option<Request>, session: Option<string>, trace: string, span: string,
                         captured: Option<Bytes>, text: Bytes -> string, decode: Decoder)
    ensures StoredTurns(req, session, trace, span, captured, text, decode) == [] <==>
            || captured.None? || req.None? || session.None?
            || (var chunks := ChunksOf(decode, Lines(text(captured.value)));
                chunks == [] || (req.value.messages == [] && Indices(AllChoices(chunks)) == {}))
  {
    if captured.Some? && req.Some? && session.Some? {
      var chunks := ChunksOf(decode, Lines(text(captured.value)));
      TurnsAreRecorded(req.value, Assembled(chunks), Ids(session.value, trace, span));
    }
  }

  /**
   From the upstream's bytes to the table: if the tee captures a body that streams a reply, what is
   stored is the request's messages and that reply, however the bytes came in chunks.
   */
  lemma StreamedReplyIsStored(upstream: Upstream, accepted: nat, req: Request, ids: Ids, text: Bytes -> string,
                              decode: Decoder, lines: seq<StreamLine>, role: string, pieces: seq<string>,
                              usage: Option<Usage>)
    requires !ErrorWhileConnected(upstream, accepted) && text(GoodBytes(upstream)) == Join(LineTexts(lines))
    requires WellFormed(decode, lines) && pieces != [] && Carried(decode, lines) == ReplyStream(role, pieces, usage)
    ensures RecordsReply(StoredTurns(Some(req), Some(ids.session), ids.trace, ids.span, Captured(upstream, accepted),
                         text, decode), req, ids, role, Concat(pieces), usage)
  {
    StreamedReplyIsRecorded(decode, lines, req, ids, role, pieces, usage);
    BodyCarries(decode, lines);
    assert ReplyStream(role, pieces, usage) != [];
  }

  lemma {:induction false} GoodBytesConcat(a: Upstream, b: Upstream)
    ensures GoodBytes(a + b) == GoodBytes(a) + GoodBytes(b)
  {
    if b == [] {
      assert a + b == a;
    } else {
      var n := |b| - 1;
      GoodBytesConcat(a, b[..n]);
      assert (a + b)[..|a + b| - 1] == a + b[..n];
    }
  }

  lemma GoodBytesOne(chunk: Result<Bytes, string>)
    ensures GoodBytes([chunk]) == if chunk.Ok? then chunk.value else []
  {
    assert [chunk][..0] == [];
  }

  lemma GoodBytesAround(before: Upstream, chunks: Upstream, after: Upstream)
    ensures GoodBytes(before + chunks + after) == GoodBytes(before) + GoodBytes(chunks) + GoodBytes(after)
  {
    GoodBytesConcat(before + chunks, after);
    GoodBytesConcat(before, chunks);
  }

  lemma GoodBytesCut(x: Bytes, y: Bytes, error: string)
    ensures GoodBytes([Ok(x), Ok(y)]) == GoodBytes([Ok(x), Err(error), Ok(y)]) == GoodBytes([Ok(x + y)])
  {
    var cut: Upstream, broken: Upstream := [Ok(x), Ok(y)], [Ok(x), Err(error), Ok(y)];
    GoodBytesOne(Ok(x + y));
    GoodBytesOne(Ok(x));
    GoodBytesOne(Ok(y));
    GoodBytesOne(Err(error));
    assert cut[..1] == [Ok(x)];
    assert broken[..2] == [Ok(x), Err(error)] && [Ok(x), Err(error)][..1] == [Ok(x)];
  }

  /** Neither cutting a chunk in two nor an error in between changes the bytes. */
  lemma SameBytes(before: Upstream, x: Bytes, y: Bytes, error: string, after: Upstream)
    ensures GoodBytes(before + [Ok(x), Err(error), Ok(y)] + after) == GoodBytes(before + [Ok(x + y)] + after)
    ensures GoodBytes(before + [Ok(x), Ok(y)] + after) == GoodBytes(before + [Ok(x + y)] + after)
  {
    GoodBytesCut(x, y, error);
    GoodBytesAround(before, [Ok(x + y)], after);
    GoodBytesAround(before, [Ok(x), Ok(y)], after);
    GoodBytesAround(before, [Ok(x), Err(error), Ok(y)], after);
  }

  /**
   A corollary of what `Tee` hands to the capture: what is stored depends on the bytes alone, not on
   their chunking, on when the client left, or on upstream errors that came after that.
   */
  lemma ChunkingIsInvisible(a: Upstream, b: Upstream, acceptedA: nat, acceptedB: nat,
                            req: Option<Request>, session: Option<string>, trace: string, span: string,
                            text: Bytes -> string, decode: Decoder)
    requires !ErrorWhileConnected(a, acceptedA) && !ErrorWhileConnected(b, acceptedB) && GoodBytes(a) == GoodBytes(b)
    ensures StoredTurns(req, session, trace, span, Captured(a, acceptedA), text, decode) ==
            StoredTurns(req, session, trace, span, Captured(b, acceptedB), text, decode)
  {
  }

  lemma {:induction false} FirstErrorAfter(good: Upstream, rest: Upstream)
    requires FirstError(good) == |good|
    ensures FirstError(good + rest) >= |good|
    decreases |good|
  {
    if good != [] {
      assert (good + rest)[1..] == good[1..] + rest;
      FirstErrorAfter(good[1..], rest);
    }
  }

  /** Once the client has left, cutting a chunk and losing the connection in the middle of it leave the same turns. */
  lemma LateErrorsAreInvisible(before: Upstream, x: Bytes, y: Bytes, error: string, after: Upstream, accepted: nat,
                               req: Option<Request>, session: Option<string>, trace: string, span: string,
                               text: Bytes -> string, decode: Decoder)
    requires FirstError(before) == |before| && accepted < |before|
    ensures StoredTurns(req, session, trace, span, Captured(before + [Ok(x), Err(error), Ok(y)] + after, accepted),
            text, decode) ==
            StoredTurns(req, session, trace, span, Captured(before + [Ok(x + y)] + after, accepted), text, decode)
  {
    var broken: Upstream, whole: Upstream := [Ok(x), Err(error), Ok(y)] + after, [Ok(x + y)] + after;
    assert before + [Ok(x), Err(error), Ok(y)] + after == before + broken;
    assert before + [Ok(x + y)] + after == before + whole;
    SameBytes(before, x, y, error, after);
    FirstErrorAfter(before, broken);
    FirstErrorAfter(before, whole);
    ChunkingIsInvisible(before + broken, before + whole, accepted, accepted, req, session, trace, span, text, decode);
  }
}
