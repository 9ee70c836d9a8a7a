/**
 One generation span, from the relay's JSON payload to the kernel's span record:
 the builder on one side, the field-by-field reader and the span processor on
 the other.
 */
module Otlp {
  import opened Common

  datatype Json =
    | JNull
    | JInt(n: int)
    | JReal(r: real)
    | JString(s: string)
    | JArray(items: seq<Json>)
    | JObject(fields: map<string, Json>)

  const U64: int := 0x1_0000_0000_0000_0000

  // --- The builder ---

  datatype Inputs = Inputs(
    session: string, trace: string, span: string, model: string, system: Option<string>,
    promptTokens: Option<int>, completionTokens: Option<int>,
    start: nat, end: nat, ok: bool)

  /** 64-bit times and 32-bit counts. */
  ghost predicate InRange(s: Inputs) {
    && s.start < U64 && s.end < U64
    && (s.promptTokens.Some? ==> -0x8000_0000 <= s.promptTokens.value < 0x8000_0000)
    && (s.completionTokens.Some? ==> -0x8000_0000 <= s.completionTokens.value < 0x8000_0000)
  }

  function KvString(k: string, v: string): Json {
    JObject(map["key" := JString(k), "value" := JObject(map["stringValue" := JString(v)])])
  }

  function KvInt(k: string, v: int): Json {
    JObject(map["key" := JString(k), "value" := JObject(map["intValue" := JInt(v)])])
  }

  function Attributes(s: Inputs): seq<Json> {
    [KvString("gen_ai.request.model", s.model)] +
    (if s.system.Some? then [KvString("gen_ai.system", s.system.value)] else []) +
    (if s.promptTokens.Some? then [KvInt("gen_ai.usage.prompt_tokens", s.promptTokens.value)] else []) +
    (if s.completionTokens.Some? then [KvInt("gen_ai.usage.completion_tokens", s.completionTokens.value)] else [])
  }

  function StatusJson(ok: bool): Json {
    JObject(map["code" := JInt(if ok then 1 else 2)])
  }

  function SpanJson(s: Inputs): Json {
    JObject(map[
      "traceId" := JString(s.trace),
      "spanId" := JString(s.span),
      "name" := JString("llm.chat.completions"),
      "startTimeUnixNano" := JInt(s.start),
      "endTimeUnixNano" := JInt(s.end),
      "attributes" := JArray(Attributes(s)),
      "status" := StatusJson(s.ok)])
  }

  function ResourceJson(session: string, service: string): Json {
    JObject(map["attributes" := JArray([KvString("service.name", service), KvString("session.id", session)])])
  }

  function ScopeJson(s: Inputs): Json {
    JObject(map["scope" := JObject(map["name" := JString("gctrl-proxy")]), "spans" := JArray([SpanJson(s)])])
  }

  function BuildPayload(s: Inputs, service: string): Json {
    JObject(map["resourceSpans" := JArray([
      JObject(map["resource" := ResourceJson(s.session, service), "scopeSpans" := JArray([ScopeJson(s)])])])])
  }

  // --- The reader ---

  datatype AnyValue = AnyValue(stringValue: Option<string>, intValue: Option<int>, doubleValue: Option<real>)

  datatype KeyValue = KeyValue(key: string, value: Option<AnyValue>)

  datatype Status = Status(code: nat, message: Option<string>)

  datatype OtlpSpan = OtlpSpan(
    traceId: string, spanId: string, parentSpanId: Option<string>, name: string,
    start: nat, end: nat, attributes: seq<KeyValue>, status: Option<Status>)

  datatype ResourceSpans = ResourceSpans(resource: Option<seq<KeyValue>>, scopeSpans: seq<seq<OtlpSpan>>)

  function Field(j: Json, name: string): Option<Json>
    requires j.JObject?
  {
    if name in j.fields then Some(j.fields[name]) else None
  }

  /** A missing field takes the default; a present one must read. */
  function Defaulted<T>(field: Option<Json>, read: Json -> Option<T>, default: T): Option<T> {
    if field.Some? then read(field.value) else Some(default)
  }

  function Required<T>(field: Option<Json>, read: Json -> Option<T>): Option<T> {
    if field.Some? then read(field.value) else None
  }

  /** An optional field: missing and null both read as absent. */
  function Optional<T>(field: Option<Json>, read: Json -> Option<T>): Option<Option<T>> {
    if field.None? || field.value.JNull? then Some(None) else
    match read(field.value) case Some(v) => Some(Some(v)) case None => None
  }

  function ReadString(j: Json): Option<string> {
    if j.JString? then Some(j.s) else None
  }

  function ReadU64(j: Json): Option<nat> {
    if j.JInt? && 0 <= j.n < U64 then Some(j.n) else None
  }

  function ReadU32(j: Json): Option<nat> {
    if j.JInt? && 0 <= j.n < 0x1_0000_0000 then Some(j.n) else None
  }

  function ReadI64(j: Json): Option<int> {
    if j.JInt? && -0x8000_0000_0000_0000 <= j.n < 0x8000_0000_0000_0000 then Some(j.n) else None
  }

  function ReadF64(j: Json): Option<real> {
    if j.JReal? then Some(j.r) else if j.JInt? then Some(j.n as real) else None
  }

  function ReadAll<T>(items: seq<Json>, read: Json -> Option<T>): Option<seq<T>> {
    if items == [] then Some([]) else
    var first, rest := read(items[0]), ReadAll(items[1..], read);
    if first.Some? && rest.Some? then Some([first.value] + rest.value) else None
  }

  function ReadArray<T>(j: Json, read: Json -> Option<T>): Option<seq<T>> {
    if j.JArray? then ReadAll(j.items, read) else None
  }

  function ReadAnyValue(j: Json): Option<AnyValue> {
    if !j.JObject? then None else
    match (Optional(Field(j, "stringValue"), ReadString), Optional(Field(j, "intValue"), ReadI64),
      Optional(Field(j, "doubleValue"), ReadF64))
    case (Some(s), Some(i), Some(d)) => Some(AnyValue(s, i, d))
    case _ => None
  }

  function ReadKeyValue(j: Json): Option<KeyValue> {
    if !j.JObject? then None else
    match (Required(Field(j, "key"), ReadString), Optional(Field(j, "value"), ReadAnyValue))
    case (Some(k), Some(v)) => Some(KeyValue(k, v))
    case _ => None
  }

  function ReadAttributes(j: Json): Option<seq<KeyValue>> {
    ReadArray(j, ReadKeyValue)
  }

  function ReadStatus(j: Json): Option<Status> {
    if !j.JObject? then None else
    match (Defaulted(Field(j, "code"), ReadU32, 0), Optional(Field(j, "message"), ReadString))
    case (Some(c), Some(m)) => Some(Status(c, m))
    case _ => None
  }

  function ReadSpan(j: Json): Option<OtlpSpan> {
    if !j.JObject? then None else
    match (Required(Field(j, "traceId"), ReadString), Required(Field(j, "spanId"), ReadString),
           Optional(Field(j, "parentSpanId"), ReadString), Required(Field(j, "name"), ReadString))
    case (Some(trace), Some(span), Some(parent), Some(name)) =>
      (match (Defaulted(Field(j, "startTimeUnixNano"), ReadU64, 0), Defaulted(Field(j, "endTimeUnixNano"), ReadU64, 0),
              Defaulted(Field(j, "attributes"), ReadAttributes, []), Optional(Field(j, "status"), ReadStatus))
       case (Some(start), Some(end), Some(attributes), Some(status)) =>
         Some(OtlpSpan(trace, span, parent, name, start, end, attributes, status))
       case _ => None)
    case _ => None
  }

  function ReadResource(j: Json): Option<seq<KeyValue>> {
    if j.JObject? then Defaulted(Field(j, "attributes"), ReadAttributes, []) else None
  }

  function ReadScope(j: Json): Option<seq<OtlpSpan>> {
    if j.JObject? then Defaulted(Field(j, "spans"), (a: Json) => ReadArray(a, ReadSpan), []) else None
  }

  function ReadResourceSpans(j: Json): Option<ResourceSpans> {
    if !j.JObject? then None else
    match (Optional(Field(j, "resource"), ReadResource),
      Defaulted(Field(j, "scopeSpans"), (a: Json) => ReadArray(a, ReadScope), []))
    case (Some(r), Some(s)) => Some(ResourceSpans(r, s))
    case _ => None
  }

  function ReadRequest(j: Json): Option<seq<ResourceSpans>> {
    if j.JObject? then Defaulted(Field(j, "resourceSpans"), (a: Json) => ReadArray(a, ReadResourceSpans), []) else None
  }

  // --- The span processor ---

  datatype SpanType = Generation | EventSpan | PlainSpan

  datatype SpanStatus = Unset | OkStatus | ErrorStatus(message: string)

  datatype Span = Span(
    spanId: string, traceId: string, parent: Option<string>, session: string, agent: string, operation: string,
    kind: SpanType, model: Option<string>, inputTokens: nat, outputTokens: nat, cost: real,
    status: SpanStatus, startedAt: nat, durationMs: nat)

  function FindAttr(attrs: seq<KeyValue>, key: string): Option<KeyValue> {
    if attrs == [] then None else if attrs[0].key == key then Some(attrs[0]) else FindAttr(attrs[1..], key)
  }

  /** The first attribute under the first key, else the first under the second. */
  function FindEither(attrs: seq<KeyValue>, key: string, fallback: string): Option<KeyValue> {
    var a := FindAttr(attrs, key);
    if a.Some? then a else FindAttr(attrs, fallback)
  }

  function StringVal(a: Option<KeyValue>): Option<string> {
    if a.Some? && a.value.value.Some? then a.value.value.value.stringValue else None
  }

  function IntVal(a: Option<KeyValue>): Option<int> {
    if a.Some? && a.value.value.Some? then a.value.value.value.intValue else None
  }

  function DoubleVal(a: Option<KeyValue>): Option<real> {
    if a.Some? && a.value.value.Some? then a.value.value.value.doubleValue else None
  }

  function GetOr<T>(o: Option<T>, default: T): T {
    if o.Some? then o.value else default
  }

  /** The cast of a signed 64-bit count to an unsigned one. */
  function AsU64(n: int): nat {
    n % U64
  }

  function StatusOf(s: Option<Status>): SpanStatus {
    if s.Some? && s.value.code == 2 then ErrorStatus(GetOr(s.value.message, ""))
    else if s.Some? && s.value.code == 1 then OkStatus
    else Unset
  }

  function SpanOf(s: OtlpSpan, session: string, agent: string): Span {
    var model := StringVal(FindEither(s.attributes, "ai.model.id", "gen_ai.request.model"));
    var duration := if s.end > s.start then (s.end - s.start) / 1_000_000 else 0;
    Span(s.spanId, s.traceId, s.parentSpanId, session, agent, s.name,
         if model.Some? then Generation else if duration == 0 then EventSpan else PlainSpan,
         model,
         AsU64(GetOr(IntVal(FindEither(s.attributes, "ai.tokens.input", "gen_ai.usage.prompt_tokens")), 0)),
         AsU64(GetOr(IntVal(FindEither(s.attributes, "ai.tokens.output", "gen_ai.usage.completion_tokens")), 0)),
         GetOr(DoubleVal(FindAttr(s.attributes, "ai.cost.usd")), 0.0),
         StatusOf(s.status), s.start, duration)
  }

  function SessionOf(rs: ResourceSpans): string {
    GetOr(StringVal(FindAttr(GetOr(rs.resource, []), "session.id")), "unknown")
  }

  function AgentOf(rs: ResourceSpans): string {
    GetOr(StringVal(FindAttr(GetOr(rs.resource, []), "service.name")), "unknown")
  }

  function ScopeSpans(spans: seq<OtlpSpan>, session: string, agent: string): seq<Span> {
    if spans == [] then [] else
    ScopeSpans(spans[..|spans| - 1], session, agent) + [SpanOf(spans[|spans| - 1], session, agent)]
  }

  function ScopesSpans(scopes: seq<seq<OtlpSpan>>, session: string, agent: string): seq<Span> {
    if scopes == [] then [] else
    ScopesSpans(scopes[..|scopes| - 1], session, agent) + ScopeSpans(scopes[|scopes| - 1], session, agent)
  }

  function AllSpans(request: seq<ResourceSpans>): seq<Span> {
    if request == [] then [] else
    var last := request[|request| - 1];
    AllSpans(request[..|request| - 1]) + ScopesSpans(last.scopeSpans, SessionOf(last), AgentOf(last))
  }

  method ProcessScope(scope: seq<OtlpSpan>, session: string, agent: string, spans: seq<Span>) returns (more: seq<Span>)
    ensures more == spans + ScopeSpans(scope, session, agent)
  {
    more := spans;
    for k := 0 to |scope|
      invariant more == spans + ScopeSpans(scope[..k], session, agent)
    {
      assert scope[..k + 1][..k] == scope[..k];
      more := more + [SpanOf(scope[k], session, agent)];
    }
    assert scope[..|scope|] == scope;
  }

  method ProcessScopes(scopes: seq<seq<OtlpSpan>>, session: string, agent: string, spans: seq<Span>)
    returns (more: seq<Span>)
    ensures more == spans + ScopesSpans(scopes, session, agent)
  {
    more := spans;
    for j := 0 to |scopes|
      invariant more == spans + ScopesSpans(scopes[..j], session, agent)
    {
      assert scopes[..j + 1][..j] == scopes[..j];
      more := ProcessScope(scopes[j], session, agent, more);
    }
    assert scopes[..|scopes|] == scopes;
  }

  method ProcessExportRequest(request: seq<ResourceSpans>) returns (spans: seq<Span>)
    ensures spans == AllSpans(request)
  {
    spans := [];
    for i := 0 to |request|
      invariant spans == AllSpans(request[..i])
    {
      assert request[..i + 1][..i] == request[..i];
      var rs := request[i];
      spans := ProcessScopes(rs.scopeSpans, SessionOf(rs), AgentOf(rs), spans);
    }
    assert request[..|request|] == request;
  }

  // --- What a span record says ---

  /** The first attribute under a key. */
  predicate FirstAt(attrs: seq<KeyValue>, key: string, i: nat) {
    i < |attrs| && attrs[i].key == key && forall j :: 0 <= j < i ==> attrs[j].key != key
  }

  predicate Lacks(attrs: seq<KeyValue>, key: string) {
    forall j :: 0 <= j < |attrs| ==> attrs[j].key != key
  }

  /** The preferred key decides alone if it is there at all; otherwise the fallback does. */
  predicate Decides(attrs: seq<KeyValue>, key: string, fallback: string, i: nat) {
    FirstAt(attrs, key, i) || (Lacks(attrs, key) && FirstAt(attrs, fallback, i))
  }

  lemma {:induction false} FindAttrIff(attrs: seq<KeyValue>, key: string)
    ensures FindAttr(attrs, key).None? <==> Lacks(attrs, key)
    ensures forall i: nat :: FirstAt(attrs, key, i) ==> FindAttr(attrs, key) == Some(attrs[i])
  {
    if attrs != [] {
      var rest := attrs[1..];
      FindAttrIff(rest, key);
      assert Lacks(attrs, key) <==> attrs[0].key != key && Lacks(rest, key);
      forall i: nat | FirstAt(attrs, key, i)
        ensures FindAttr(attrs, key) == Some(attrs[i])
      {
        if i > 0 {
          assert attrs[0].key != key && rest[i - 1] == attrs[i];
          assert FirstAt(rest, key, i - 1);
        }
      }
    }
  }

  lemma FindEitherIff(attrs: seq<KeyValue>, key: string, fallback: string)
    ensures FindEither(attrs, key, fallback).None? <==> Lacks(attrs, key) && Lacks(attrs, fallback)
    ensures forall i: nat :: Decides(attrs, key, fallback, i) ==> FindEither(attrs, key, fallback) == Some(attrs[i])
  {
    FindAttrIff(attrs, key);
    FindAttrIff(attrs, fallback);
  }

  /** A count as it is stored: an integer cast to unsigned; anything else, or none at all, is zero. */
  predicate Counts(kv: KeyValue, n: nat) {
    match kv.value
    case Some(AnyValue(_, Some(v), _)) =>
      -0x8000_0000_0000_0000 <= v < 0x8000_0000_0000_0000 ==> n == if v >= 0 then v else U64 + v
    case _ => n == 0
  }

  lemma CastCounts(attrs: seq<KeyValue>, key: string, fallback: string)
    ensures var n := AsU64(GetOr(IntVal(FindEither(attrs, key, fallback)), 0));
            && (forall i: nat | Decides(attrs, key, fallback, i) :: Counts(attrs[i], n))
            && (Lacks(attrs, key) && Lacks(attrs, fallback) ==> n == 0)
  {
    FindEitherIff(attrs, key, fallback);
    assert AsU64(0) == 0;
  }

  /**
   The counts of a span: the first `ai.tokens` attribute decides even when its value is no integer and a
   `gen_ai.usage` one is there; input and output are read from their own keys.
   */
  lemma TokensOfSpan(s: OtlpSpan, session: string, agent: string)
    ensures var (r, attrs) := (SpanOf(s, session, agent), s.attributes);
            && (forall i: nat | Decides(attrs, "ai.tokens.input", "gen_ai.usage.prompt_tokens", i) ::
                  Counts(attrs[i], r.inputTokens))
            && (Lacks(attrs, "ai.tokens.input") && Lacks(attrs, "gen_ai.usage.prompt_tokens") ==> r.inputTokens == 0)
            && (forall i: nat | Decides(attrs, "ai.tokens.output", "gen_ai.usage.completion_tokens", i) ::
                  Counts(attrs[i], r.outputTokens))
            && (Lacks(attrs, "ai.tokens.output") && Lacks(attrs, "gen_ai.usage.completion_tokens") ==>
                  r.outputTokens == 0)
  {
    CastCounts(s.attributes, "ai.tokens.input", "gen_ai.usage.prompt_tokens");
    CastCounts(s.attributes, "ai.tokens.output", "gen_ai.usage.completion_tokens");
  }

  /** The cost is the first `ai.cost.usd` attribute's, if that is a double. */
  lemma CostOfSpan(s: OtlpSpan, session: string, agent: string)
    ensures var (r, attrs) := (SpanOf(s, session, agent), s.attributes);
            && (Lacks(attrs, "ai.cost.usd") ==> r.cost == 0.0)
            && (forall i: nat | FirstAt(attrs, "ai.cost.usd", i) ::
                  match attrs[i].value
                  case Some(AnyValue(_, _, Some(d))) => r.cost == d
                  case _ => r.cost == 0.0)
  {
    FindAttrIff(s.attributes, "ai.cost.usd");
  }

  /** The model is a string under the deciding key. */
  lemma ModelOfSpan(s: OtlpSpan, session: string, agent: string)
    ensures var (r, attrs) := (SpanOf(s, session, agent), s.attributes);
            && (Lacks(attrs, "ai.model.id") && Lacks(attrs, "gen_ai.request.model") ==> r.model == None)
            && (forall i: nat | Decides(attrs, "ai.model.id", "gen_ai.request.model", i) ::
                  match attrs[i].value
                  case Some(AnyValue(Some(name), _, _)) => r.model == Some(name)
                  case _ => r.model == None)
  {
    FindEitherIff(s.attributes, "ai.model.id", "gen_ai.request.model");
  }

  /** A span with a model is a generation; one without is an event exactly when it took less than a millisecond. */
  lemma KindOfSpan(s: OtlpSpan, session: string, agent: string)
    ensures var r := SpanOf(s, session, agent);
            && (r.kind == Generation <==> r.model.Some?)
            && (r.kind == EventSpan <==> r.model.None? && s.end < s.start + 1_000_000)
            && (if s.end < s.start then r.durationMs == 0
                else r.durationMs * 1_000_000 <= s.end - s.start < (r.durationMs + 1) * 1_000_000)
  {
  }

  /** Identity, place and outcome are carried over; only status codes 1 and 2 mean anything. */
  lemma CarriedBySpan(s: OtlpSpan, session: string, agent: string)
    ensures var r := SpanOf(s, session, agent);
            && r.spanId == s.spanId && r.traceId == s.traceId && r.parent == s.parentSpanId && r.operation == s.name
            && r.session == session && r.agent == agent && r.startedAt == s.start
            && (r.status == OkStatus <==> s.status.Some? && s.status.value.code == 1)
            && (r.status.ErrorStatus? <==> s.status.Some? && s.status.value.code == 2)
            && (forall text | s.status == Some(Status(2, Some(text))) :: r.status == ErrorStatus(text))
            && (s.status == Some(Status(2, None)) ==> r.status == ErrorStatus(""))
  {
  }

  /** Session and agent come from the first resource attribute of their key, if that is a string. */
  lemma ResourceSays(rs: ResourceSpans)
    ensures var attrs := if rs.resource.Some? then rs.resource.value else [];
            && (Lacks(attrs, "session.id") ==> SessionOf(rs) == "unknown")
            && (Lacks(attrs, "service.name") ==> AgentOf(rs) == "unknown")
            && (forall i: nat | FirstAt(attrs, "session.id", i) ::
                  match attrs[i].value
                  case Some(AnyValue(Some(name), _, _)) => SessionOf(rs) == name
                  case _ => SessionOf(rs) == "unknown")
            && (forall i: nat | FirstAt(attrs, "service.name", i) ::
                  match attrs[i].value
                  case Some(AnyValue(Some(name), _, _)) => AgentOf(rs) == name
                  case _ => AgentOf(rs) == "unknown")
  {
    FindAttrIff(GetOr(rs.resource, []), "session.id");
    FindAttrIff(GetOr(rs.resource, []), "service.name");
  }

  lemma {:induction false} ScopeSpansAt(spans: seq<OtlpSpan>, session: string, agent: string)
    ensures |ScopeSpans(spans, session, agent)| == |spans|
    ensures forall i :: 0 <= i < |spans| ==> ScopeSpans(spans, session, agent)[i] == SpanOf(spans[i], session, agent)
  {
    if spans != [] {
      ScopeSpansAt(spans[..|spans| - 1], session, agent);
    }
  }

  lemma ScopesSpansSnoc(a: seq<seq<OtlpSpan>>, scope: seq<OtlpSpan>, session: string, agent: string)
    ensures ScopesSpans(a + [scope], session, agent) ==
            ScopesSpans(a, session, agent) + ScopeSpans(scope, session, agent)
  {
    assert (a + [scope])[..|a|] == a;
  }

  lemma {:induction false} ScopesSpansConcat(a: seq<seq<OtlpSpan>>, b: seq<seq<OtlpSpan>>, session: string,
                                             agent: string)
    ensures ScopesSpans(a + b, session, agent) == ScopesSpans(a, session, agent) + ScopesSpans(b, session, agent)
    decreases |b|
  {
    if b == [] {
      assert a + b == a;
    } else {
      var front, last := b[..|b| - 1], b[|b| - 1];
      assert a + b == (a + front) + [last] && b == front + [last];
      ScopesSpansConcat(a, front, session, agent);
      ScopesSpansSnoc(a + front, last, session, agent);
      ScopesSpansSnoc(front, last, session, agent);
    }
  }

  lemma AllSpansSnoc(a: seq<ResourceSpans>, rs: ResourceSpans)
    ensures AllSpans(a + [rs]) == AllSpans(a) + ScopesSpans(rs.scopeSpans, SessionOf(rs), AgentOf(rs))
  {
    assert (a + [rs])[..|a|] == a;
  }

  lemma {:induction false} AllSpansConcat(a: seq<ResourceSpans>, b: seq<ResourceSpans>)
    ensures AllSpans(a + b) == AllSpans(a) + AllSpans(b)
    decreases |b|
  {
    if b == [] {
      assert a + b == a;
    } else {
      var front, last := b[..|b| - 1], b[|b| - 1];
      assert a + b == (a + front) + [last] && b == front + [last];
      AllSpansConcat(a, front);
      AllSpansSnoc(a + front, last);
      AllSpansSnoc(front, last);
    }
  }

  lemma OneResource(rs: ResourceSpans)
    ensures AllSpans([rs]) == ScopesSpans(rs.scopeSpans, SessionOf(rs), AgentOf(rs))
  {
    AllSpansSnoc([], rs);
    assert [] + [rs] == [rs];
  }

  lemma ScopesSpansOne(spans: seq<OtlpSpan>, session: string, agent: string)
    ensures ScopesSpans([spans], session, agent) == ScopeSpans(spans, session, agent)
  {
    ScopesSpansSnoc([], spans, session, agent);
    assert [] + [spans] == [spans];
  }

  /** Within one scope of one resource the records are the spans in order, under that resource's names ... */
  lemma OneScope(rs: ResourceSpans, spans: seq<OtlpSpan>)
    requires rs.scopeSpans == [spans]
    ensures |AllSpans([rs])| == |spans|
    ensures forall i :: 0 <= i < |spans| ==> AllSpans([rs])[i] == SpanOf(spans[i], SessionOf(rs), AgentOf(rs))
  {
    var session, agent := SessionOf(rs), AgentOf(rs);
    OneResource(rs);
    ScopesSpansOne(spans, session, agent);
    ScopeSpansAt(spans, session, agent);
  }

  lemma TwoParts(resource: Option<seq<KeyValue>>, a: seq<seq<OtlpSpan>>, b: seq<seq<OtlpSpan>>)
    ensures AllSpans([ResourceSpans(resource, a + b)]) ==
            AllSpans([ResourceSpans(resource, a)]) + AllSpans([ResourceSpans(resource, b)])
  {
    var both := ResourceSpans(resource, a + b);
    OneResource(both);
    OneResource(ResourceSpans(resource, a));
    OneResource(ResourceSpans(resource, b));
    ScopesSpansConcat(a, b, SessionOf(both), AgentOf(both));
  }

  /** ... and scopes and resources follow one another. */
  lemma InOrder(before: seq<ResourceSpans>, resource: Option<seq<KeyValue>>, a: seq<seq<OtlpSpan>>,
                b: seq<seq<OtlpSpan>>, after: seq<ResourceSpans>)
    ensures AllSpans(before + [ResourceSpans(resource, a + b)] + after) ==
            AllSpans(before) + (AllSpans([ResourceSpans(resource, a)]) + AllSpans([ResourceSpans(resource, b)])) +
            AllSpans(after)
  {
    var rs := ResourceSpans(resource, a + b);
    TwoParts(resource, a, b);
    AllSpansConcat(before + [rs], after);
    AllSpansConcat(before, [rs]);
  }

  // --- Round trip ---

  function StringAttr(k: string, v: string): KeyValue {
    KeyValue(k, Some(AnyValue(Some(v), None, None)))
  }

  function IntAttr(k: string, v: int): KeyValue {
    KeyValue(k, Some(AnyValue(None, Some(v), None)))
  }

  lemma KvStringReads(k: string, v: string)
    ensures ReadKeyValue(KvString(k, v)) == Some(StringAttr(k, v))
  {
    var value := JObject(map["stringValue" := JString(v)]);
    assert ReadAnyValue(value) == Some(AnyValue(Some(v), None, None));
  }

  lemma KvIntReads(k: string, v: int)
    requires -0x8000_0000 <= v < 0x8000_0000
    ensures ReadKeyValue(KvInt(k, v)) == Some(IntAttr(k, v))
  {
    var value := JObject(map["intValue" := JInt(v)]);
    assert ReadAnyValue(value) == Some(AnyValue(None, Some(v), None));
  }

  /** A double may be written as an integer; nothing else reads as one, and null reads as none. */
  lemma DoubleReads(r: real, n: int, text: string)
    ensures ReadAnyValue(JObject(map["doubleValue" := JReal(r)])) == Some(AnyValue(None, None, Some(r)))
    ensures ReadAnyValue(JObject(map["doubleValue" := JInt(n)])) == Some(AnyValue(None, None, Some(n as real)))
    ensures ReadAnyValue(JObject(map["doubleValue" := JNull])) == Some(AnyValue(None, None, None))
    ensures ReadAnyValue(JObject(map["doubleValue" := JString(text)])) == None
  {
    forall j ensures Field(JObject(map["doubleValue" := j]), "stringValue") == None
             ensures Field(JObject(map["doubleValue" := j]), "intValue") == None
             ensures Field(JObject(map["doubleValue" := j]), "doubleValue") == Some(j)
    {
      assert "doubleValue"[0] == 'd' && "stringValue"[0] == 's' && "intValue"[0] == 'i';
    }
  }

  lemma {:induction false} ReadAllAppend<T>(a: seq<Json>, b: seq<Json>, read: Json -> Option<T>)
    requires ReadAll(a, read).Some? && ReadAll(b, read).Some?
    ensures ReadAll(a + b, read) == Some(ReadAll(a, read).value + ReadAll(b, read).value)
  {
    if a == [] {
      assert a + b == b;
      assert [] + ReadAll(b, read).value == ReadAll(b, read).value;
    } else {
      assert (a + b)[1..] == a[1..] + b;
      ReadAllAppend(a[1..], b, read);
      var first, rest, last := read(a[0]).value, ReadAll(a[1..], read).value, ReadAll(b, read).value;
      assert [first] + (rest + last) == ([first] + rest) + last;
    }
  }

  lemma ReadOne<T>(j: Json, read: Json -> Option<T>)
    requires read(j).Some?
    ensures ReadAll([j], read) == Some([read(j).value])
  {
    assert ReadAll([j][1..], read) == Some([]);
    assert [read(j).value] + [] == [read(j).value];
  }

  function ReadBack(s: Inputs): seq<KeyValue> {
    [StringAttr("gen_ai.request.model", s.model)] +
    (if s.system.Some? then [StringAttr("gen_ai.system", s.system.value)] else []) +
    (if s.promptTokens.Some? then [IntAttr("gen_ai.usage.prompt_tokens", s.promptTokens.value)] else []) +
    (if s.completionTokens.Some? then [IntAttr("gen_ai.usage.completion_tokens", s.completionTokens.value)] else [])
  }

  lemma AttributesRead(s: Inputs)
    requires InRange(s)
    ensures ReadAll(Attributes(s), ReadKeyValue) == Some(ReadBack(s))
  {
    var a := [KvString("gen_ai.request.model", s.model)];
    var b := if s.system.Some? then [KvString("gen_ai.system", s.system.value)] else [];
    var c := if s.promptTokens.Some? then [KvInt("gen_ai.usage.prompt_tokens", s.promptTokens.value)] else [];
    var d := if s.completionTokens.Some? then [KvInt("gen_ai.usage.completion_tokens", s.completionTokens.value)]
             else [];
    KvStringReads("gen_ai.request.model", s.model);
    ReadOne(a[0], ReadKeyValue);
    if s.system.Some? { KvStringReads("gen_ai.system", s.system.value); ReadOne(b[0], ReadKeyValue); }
    if s.promptTokens.Some? {
      KvIntReads("gen_ai.usage.prompt_tokens", s.promptTokens.value);
      ReadOne(c[0], ReadKeyValue);
    }
    if s.completionTokens.Some? {
      KvIntReads("gen_ai.usage.completion_tokens", s.completionTokens.value);
      ReadOne(d[0], ReadKeyValue);
    }
    ReadAllAppend(a, b, ReadKeyValue);
    ReadAllAppend(a + b, c, ReadKeyValue);
    ReadAllAppend(a + b + c, d, ReadKeyValue);
  }

  lemma StatusReads(ok: bool)
    ensures ReadStatus(StatusJson(ok)) == Some(Status(if ok then 1 else 2, None))
  {
  }

  function SpanBack(s: Inputs): OtlpSpan {
    OtlpSpan(s.trace, s.span, None, "llm.chat.completions", s.start, s.end, ReadBack(s),
      Some(Status(if s.ok then 1 else 2, None)))
  }

  lemma SpanFields(s: Inputs)
    ensures var j := SpanJson(s);
            && Field(j, "traceId") == Some(JString(s.trace)) && Field(j, "spanId") == Some(JString(s.span))
            && Field(j, "parentSpanId") == None && Field(j, "name") == Some(JString("llm.chat.completions"))
            && Field(j, "startTimeUnixNano") == Some(JInt(s.start)) && Field(j, "endTimeUnixNano") == Some(JInt(s.end))
            && Field(j, "attributes") == Some(JArray(Attributes(s))) && Field(j, "status") == Some(StatusJson(s.ok))
  {
  }

  lemma SpanReads(s: Inputs)
    requires InRange(s)
    ensures ReadSpan(SpanJson(s)) == Some(SpanBack(s))
  {
    AttributesRead(s);
    StatusReads(s.ok);
    SpanFields(s);
    var j := SpanJson(s);
    assert Optional(Field(j, "status"), ReadStatus) == Some(Some(Status(if s.ok then 1 else 2, None)));
    assert Defaulted(Field(j, "attributes"), ReadAttributes, []) == Some(ReadBack(s));
    assert Defaulted(Field(j, "startTimeUnixNano"), ReadU64, 0) == Some(s.start);
    assert Defaulted(Field(j, "endTimeUnixNano"), ReadU64, 0) == Some(s.end);
  }

  lemma ScopeReads(s: Inputs)
    requires InRange(s)
    ensures ReadScope(ScopeJson(s)) == Some([SpanBack(s)])
  {
    SpanReads(s);
    ReadOne(SpanJson(s), ReadSpan);
  }

  lemma ResourceReads(session: string, service: string)
    ensures ReadResource(ResourceJson(session, service)) ==
            Some([StringAttr("service.name", service), StringAttr("session.id", session)])
  {
    var a, b := KvString("service.name", service), KvString("session.id", session);
    KvStringReads("service.name", service);
    KvStringReads("session.id", session);
    ReadOne(a, ReadKeyValue);
    ReadOne(b, ReadKeyValue);
    ReadAllAppend([a], [b], ReadKeyValue);
    assert [a] + [b] == [a, b];
    assert [StringAttr("service.name", service)] + [StringAttr("session.id", session)] ==
           [StringAttr("service.name", service), StringAttr("session.id", session)];
  }

  /** The reader accepts every payload the builder makes and finds one span in one scope of one resource. */
  lemma PayloadReads(s: Inputs, service: string)
    requires InRange(s)
    ensures ReadRequest(BuildPayload(s, service)) ==
            Some([ResourceSpans(Some([StringAttr("service.name", service), StringAttr("session.id", s.session)]),
              [[SpanBack(s)]])])
  {
    ScopeReads(s);
    ReadOne(ScopeJson(s), ReadScope);
    ResourceReads(s.session, service);
    var rs := JObject(map["resource" := ResourceJson(s.session, service), "scopeSpans" := JArray([ScopeJson(s)])]);
    assert Optional(Field(rs, "resource"), ReadResource) ==
      Some(Some([StringAttr("service.name", service), StringAttr("session.id", s.session)]));
    assert ReadResourceSpans(rs) ==
      Some(ResourceSpans(Some([StringAttr("service.name", service), StringAttr("session.id", s.session)]),
      [[SpanBack(s)]]));
    ReadOne(rs, ReadResourceSpans);
  }

  lemma {:induction false} FindAttrConcat(a: seq<KeyValue>, b: seq<KeyValue>, key: string)
    ensures FindAttr(a + b, key) == if FindAttr(a, key).Some? then FindAttr(a, key) else FindAttr(b, key)
  {
    if a == [] {
      assert a + b == b;
    } else {
      assert (a + b)[1..] == a[1..] + b;
      FindAttrConcat(a[1..], b, key);
    }
  }

  /** What each key finds among the attributes, whichever optional ones are there. */
  lemma ReadBackFinds(s: Inputs, key: string)
    ensures FindAttr(ReadBack(s), key) ==
            if key == "gen_ai.request.model" then Some(StringAttr(key, s.model))
            else if key == "gen_ai.system" && s.system.Some? then Some(StringAttr(key, s.system.value))
            else if key == "gen_ai.usage.prompt_tokens" && s.promptTokens.Some?
              then Some(IntAttr(key, s.promptTokens.value))
            else if key == "gen_ai.usage.completion_tokens" && s.completionTokens.Some?
              then Some(IntAttr(key, s.completionTokens.value))
            else None
  {
    var a := [StringAttr("gen_ai.request.model", s.model)];
    var b := if s.system.Some? then [StringAttr("gen_ai.system", s.system.value)] else [];
    var c := if s.promptTokens.Some? then [IntAttr("gen_ai.usage.prompt_tokens", s.promptTokens.value)] else [];
    var d := if s.completionTokens.Some? then [IntAttr("gen_ai.usage.completion_tokens", s.completionTokens.value)]
             else [];
    FindAttrConcat(a + b + c, d, key);
    FindAttrConcat(a + b, c, key);
    FindAttrConcat(a, b, key);
    assert FindAttr(a[1..], key) == None;
    assert b != [] ==> FindAttr(b[1..], key) == None;
    assert c != [] ==> FindAttr(c[1..], key) == None;
    assert d != [] ==> FindAttr(d[1..], key) == None;
  }

  lemma KeysDiffer()
    ensures "ai.model.id" != "gen_ai.request.model" && "ai.tokens.input" != "gen_ai.request.model"
    ensures "ai.tokens.output" != "gen_ai.request.model" && "ai.cost.usd" != "gen_ai.request.model"
    ensures "gen_ai.usage.prompt_tokens" != "gen_ai.request.model" &&
            "gen_ai.usage.completion_tokens" != "gen_ai.request.model"
    ensures forall k :: k in ["ai.model.id", "ai.tokens.input", "ai.tokens.output", "ai.cost.usd"] ==>
              k != "gen_ai.request.model" && k != "gen_ai.system" && k != "gen_ai.usage.prompt_tokens" &&
                k != "gen_ai.usage.completion_tokens"
  {
    forall k | k in ["ai.model.id", "ai.tokens.input", "ai.tokens.output", "ai.cost.usd"]
      ensures k[0] == 'a'
    {
    }
  }

  /** The token counts arrive unchanged when non-negative, and 0 when absent. */
  function Tokens(n: Option<int>): nat {
    if n.Some? then AsU64(n.value) else 0
  }

  /** Build, read, process: one generation span that says what went in. */
  lemma PayloadRoundTrip(s: Inputs, service: string)
    requires InRange(s)
    ensures var r := ReadRequest(BuildPayload(s, service));
            r.Some? && AllSpans(r.value) ==
              [Span(s.span, s.trace, None, s.session, service, "llm.chat.completions",
                    Generation, Some(s.model), Tokens(s.promptTokens), Tokens(s.completionTokens), 0.0,
                    if s.ok then OkStatus else ErrorStatus(""), s.start,
                    if s.end <= s.start then 0 else (s.end - s.start) / 1_000_000)]
  {
    PayloadReads(s, service);
    SpanOfBack(s, service);
    OneSpan(s.session, service, SpanBack(s));
  }

  lemma OneSpan(session: string, service: string, span: OtlpSpan)
    ensures AllSpans([ResourceSpans(Some([StringAttr("service.name", service), StringAttr("session.id", session)]),
            [[span]])]) ==
            [SpanOf(span, session, service)]
  {
    var resource := [StringAttr("service.name", service), StringAttr("session.id", session)];
    var rs := ResourceSpans(Some(resource), [[span]]);
    assert resource[1..][0] == resource[1];
    assert "service.name"[2] != "session.id"[2];
    assert GetOr(rs.resource, []) == resource;
    assert FindAttr(resource, "service.name") == Some(resource[0]);
    assert FindAttr(resource, "session.id") == FindAttr(resource[1..], "session.id") == Some(resource[1]);
    assert SessionOf(rs) == session && AgentOf(rs) == service;
    assert [span][..0] == [] && [[span]][..0] == [] && [rs][..0] == [];
    assert ScopeSpans([span], session, service) == [SpanOf(span, session, service)];
    assert ScopesSpans([[span]], session, service) == [SpanOf(span, session, service)];
  }

  lemma SpanOfBack(s: Inputs, service: string)
    ensures SpanOf(SpanBack(s), s.session, service) ==
              Span(s.span, s.trace, None, s.session, service, "llm.chat.completions",
                   Generation, Some(s.model), Tokens(s.promptTokens), Tokens(s.completionTokens), 0.0,
                   if s.ok then OkStatus else ErrorStatus(""), s.start,
                   if s.end <= s.start then 0 else (s.end - s.start) / 1_000_000)
  {
    KeysDiffer();
    ReadBackFinds(s, "ai.model.id");
    ReadBackFinds(s, "gen_ai.request.model");
    ReadBackFinds(s, "ai.tokens.input");
    ReadBackFinds(s, "gen_ai.usage.prompt_tokens");
    ReadBackFinds(s, "ai.tokens.output");
    ReadBackFinds(s, "gen_ai.usage.completion_tokens");
    ReadBackFinds(s, "ai.cost.usd");
  }

  /** A count survives the trip exactly when it is not negative; a negative one comes out as a huge one. */
  lemma TokensSurviveIff(n: int)
    requires -0x8000_0000 <= n < 0x8000_0000
    ensures Tokens(Some(n)) == n <==> n >= 0
    ensures n < 0 ==> Tokens(Some(n)) == U64 + n
  {
  }
}
