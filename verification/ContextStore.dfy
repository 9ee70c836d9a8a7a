/**
 The context store: metadata rows keyed by path, and one file per kind and path
 whose text is a front matter followed by the content.
 */
module ContextStore {
  import opened Common

  datatype Kind = Config | Snapshot | Document

  function KindName(k: Kind): string {
    match k
    case Config => "config"
    case Snapshot => "snapshot"
    case Document => "document"
  }

  datatype Meta = Meta(id: string, title: string, kind: Kind, source: string, tags: seq<string>, createdAt: string,
    updatedAt: string)

  // --- Text ---

  const FENCE: string := "\n---"

  predicate At(s: string, i: nat) {
    i + 4 <= |s| && s[i] == '\n' && s[i + 1] == '-' && s[i + 2] == '-' && s[i + 3] == '-'
  }

  /** `s` contains a newline followed by three dashes. */
  ghost predicate HasFence(s: string) {
    exists i: nat :: At(s, i)
  }

  /** The first fence at or after `from`. */
  function FindFence(s: string, from: nat): (r: Option<nat>)
    requires from <= |s|
    ensures r.Some? ==> from <= r.value && At(s, r.value) && forall i: nat :: from <= i < r.value ==> !At(s, i)
    ensures r.None? ==> forall i: nat :: from <= i ==> !At(s, i)
    decreases |s| - from
  {
    if At(s, from) then Some(from) else if from == |s| then None else FindFence(s, from + 1)
  }

  function TrimNewlines(s: string): string {
    if s != [] && s[0] == '\n' then TrimNewlines(s[1..]) else s
  }

  function StripFrontmatter(text: string): string {
    if |text| < 3 || text[..3] != "---" then text else
    match FindFence(text[3..], 0)
    case None => text
    case Some(end) =>
      var after := end + 3 + 4;
      if after < |text| then TrimNewlines(text[after..]) else text
  }

  function Line(name: string, value: string): string {
    "\n" + name + ": " + value
  }

  function Header(lines: seq<(string, string)>): string {
    if lines == [] then "" else Header(lines[..|lines| - 1]) + Line(lines[|lines| - 1].0, lines[|lines| - 1].1)
  }

  function Join(tags: seq<string>): string {
    if tags == [] then ""
    else if |tags| == 1 then tags[0]
    else Join(tags[..|tags| - 1]) + ", " + tags[|tags| - 1]
  }

  function Fields(m: Meta): seq<(string, string)> {
    [("id", m.id), ("title", m.title), ("kind", KindName(m.kind)), ("source", m.source),
     ("tags", "[" + Join(m.tags) + "]"), ("created_at", m.createdAt), ("updated_at", m.updatedAt)]
  }

  /** The text of an entry's file. */
  function FileText(m: Meta, content: string): string {
    "---" + Header(Fields(m)) + "\n---\n\n" + content
  }

  /** No metadata value contains a newline followed by three dashes. */
  ghost predicate Clean(m: Meta) {
    && !HasFence(m.id) && !HasFence(m.title) && !HasFence(m.source)
    && !HasFence(m.createdAt) && !HasFence(m.updatedAt)
    && forall i :: 0 <= i < |m.tags| ==> !HasFence(m.tags[i])
  }

  /** No fence crosses a boundary with a non-dash after it, or something other than newline and dash before it. */
  lemma FenceInConcat(a: string, b: string)
    requires b == "" || b[0] != '-' || (a != "" && a[|a| - 1] != '-' && a[|a| - 1] != '\n')
    ensures HasFence(a + b) <==> HasFence(a) || HasFence(b)
  {
    var s := a + b;
    if HasFence(s) {
      var i: nat :| At(s, i);
      assert b != "" ==> s[|a|] == b[0];
      assert a != "" ==> s[|a| - 1] == a[|a| - 1];
      assert i + 4 <= |a| || |a| <= i;
      if i + 4 <= |a| {
        assert At(a, i);
      } else {
        assert At(b, i - |a|);
      }
    }
    if HasFence(a) {
      var i: nat :| At(a, i);
      assert At(s, i);
    }
    if HasFence(b) {
      var i: nat :| At(b, i);
      assert At(s, |a| + i);
    }
  }

  predicate PlainName(name: string) {
    name != [] && name[0] != '-' && '\n' !in name
  }

  lemma FenceInLine(name: string, value: string)
    requires PlainName(name)
    ensures HasFence(Line(name, value)) <==> HasFence(value)
  {
    var p := "\n" + name + ": ";
    assert p[1] == name[0] && forall i :: 1 <= i < |p| ==> p[i] != '\n';
    assert forall i: nat :: !At(p, i);
    FenceInConcat(p, value);
  }

  ghost predicate AnyFence(values: seq<string>) {
    exists i :: 0 <= i < |values| && HasFence(values[i])
  }

  lemma AnyFenceAppend(values: seq<string>, v: string)
    ensures AnyFence(values + [v]) <==> AnyFence(values) || HasFence(v)
  {
    var all := values + [v];
    assert all[|values|] == v;
    if AnyFence(values) {
      var i :| 0 <= i < |values| && HasFence(values[i]);
      assert HasFence(all[i]);
    }
  }

  function Values(lines: seq<(string, string)>): seq<string> {
    if lines == [] then [] else Values(lines[..|lines| - 1]) + [lines[|lines| - 1].1]
  }

  lemma {:induction false} FenceInHeader(lines: seq<(string, string)>)
    requires forall i :: 0 <= i < |lines| ==> PlainName(lines[i].0)
    ensures HasFence(Header(lines)) <==> AnyFence(Values(lines))
  {
    if lines != [] {
      var rest, last := lines[..|lines| - 1], lines[|lines| - 1];
      FenceInHeader(rest);
      FenceInConcat(Header(rest), Line(last.0, last.1));
      FenceInLine(last.0, last.1);
      AnyFenceAppend(Values(rest), last.1);
    }
  }

  lemma {:induction false} FenceInJoin(tags: seq<string>)
    ensures HasFence(Join(tags)) <==> AnyFence(tags)
  {
    if |tags| > 1 {
      var rest, last := tags[..|tags| - 1], tags[|tags| - 1];
      FenceInJoin(rest);
      assert Join(tags) == Join(rest) + (", " + last);
      FenceInConcat(Join(rest), ", " + last);
      FenceInConcat(", ", last);
      AnyFenceAppend(rest, last);
      assert tags == rest + [last];
    } else if |tags| == 1 {
      assert tags[0] == Join(tags);
    }
  }

  lemma FenceInTagList(tags: seq<string>)
    ensures HasFence("[" + Join(tags) + "]") <==> AnyFence(tags)
  {
    FenceInJoin(tags);
    FenceInConcat("[" + Join(tags), "]");
    FenceInConcat("[", Join(tags));
  }

  lemma FenceInFields(m: Meta)
    ensures HasFence(Header(Fields(m))) <==> !Clean(m)
  {
    var lines := Fields(m);
    FenceInHeader(lines);
    FenceInTagList(m.tags);
    assert forall i :: 0 <= i < |KindName(m.kind)| ==> KindName(m.kind)[i] != '\n';
    assert !HasFence(KindName(m.kind));
    ValuesOfFields(m);
    var values := [m.id, m.title, KindName(m.kind), m.source, "[" + Join(m.tags) + "]", m.createdAt, m.updatedAt];
    assert AnyFence(values) <==>
           HasFence(values[0]) || HasFence(values[1]) || HasFence(values[2]) || HasFence(values[3]) ||
           HasFence(values[4]) || HasFence(values[5]) || HasFence(values[6]);
  }

  lemma {:induction false} ValuesAt(lines: seq<(string, string)>, i: nat)
    requires i < |lines|
    ensures |Values(lines)| == |lines| && Values(lines)[i] == lines[i].1
  {
    if |lines| > 1 {
      ValuesAt(lines[..|lines| - 1], if i < |lines| - 1 then i else 0);
    }
  }

  lemma ValuesOfFields(m: Meta)
    ensures Values(Fields(m)) ==
            [m.id, m.title, KindName(m.kind), m.source, "[" + Join(m.tags) + "]", m.createdAt, m.updatedAt]
  {
    var lines := Fields(m);
    forall i | 0 <= i < |lines|
      ensures |Values(lines)| == |lines| && Values(lines)[i] == lines[i].1
    {
      ValuesAt(lines, i);
    }
    assert |Values(lines)| == |lines| by { ValuesAt(lines, 0); }
  }

  /** Trimming stops at the first character that is not a newline. */
  lemma {:induction false} TrimKeeps(s: string, i: nat)
    requires i < |s| && s[i] != '\n'
    ensures |TrimNewlines(s)| >= |s| - i
  {
    if s[0] == '\n' {
      TrimKeeps(s[1..], i - 1);
    }
  }

  /** Trimming drops the leading newlines, all of them and nothing else. */
  lemma {:induction false} TrimExact(s: string)
    ensures var r := TrimNewlines(s);
            && |r| <= |s| && r == s[|s| - |r|..] && (r != "" ==> r[0] != '\n')
            && forall i :: 0 <= i < |s| - |r| ==> s[i] == '\n'
  {
    if s != [] && s[0] == '\n' {
      TrimExact(s[1..]);
      var r := TrimNewlines(s);
      assert s[|s| - |r|..] == s[1..][|s| - 1 - |r|..];
      forall i | 0 <= i < |s| - |r| ensures s[i] == '\n' { assert i > 0 ==> s[i] == s[1..][i - 1]; }
    }
  }

  /** The first fence after the opening is the one that closes the front matter, unless a value has one. */
  lemma FirstFence(head: string, content: string)
    ensures FindFence(head + "\n---\n\n" + content, 0).Some?
    ensures var end := FindFence(head + "\n---\n\n" + content, 0).value;
            if HasFence(head) then end + 4 <= |head| else end == |head|
  {
    var s := head + "\n---\n\n" + content;
    var tail := "\n---\n\n" + content;
    assert s == head + tail;
    assert At(s, |head|);
    var end := FindFence(s, 0).value;
    assert end <= |head|;
    assert s[|head|] == '\n';
    assert end == |head| || end + 4 <= |head|;
    if end < |head| {
      assert At(head, end);
    }
    if HasFence(head) {
      var i: nat :| At(head, i);
      assert At(s, i);
    }
  }

  /**
   Reading back what was written gives the content without its leading newlines exactly when no
   metadata value contains a newline followed by three dashes.
   */
  lemma ReadBackIff(m: Meta, content: string)
    ensures StripFrontmatter(FileText(m, content)) == TrimNewlines(content) <==> Clean(m)
  {
    FenceInFields(m);
    StripIff(Header(Fields(m)), content);
  }

  lemma StripIff(head: string, content: string)
    ensures StripFrontmatter("---" + head + "\n---\n\n" + content) == TrimNewlines(content) <==> !HasFence(head)
  {
    var text := "---" + head + "\n---\n\n" + content;
    assert text[..3] == "---";
    assert text[3..] == head + "\n---\n\n" + content;
    FirstFence(head, content);
    var end := FindFence(text[3..], 0).value;
    var rest := text[end + 7..];
    assert rest == text[3..][end + 4..];
    if HasFence(head) {
      LateRest(head, content, end, rest);
    } else {
      assert rest == "\n\n" + content;
      assert rest[1..] == "\n" + content && rest[1..][1..] == content;
      assert TrimNewlines(rest) == TrimNewlines(rest[1..]) == TrimNewlines(content);
    }
  }

  /** A text that ends with its closing fence is not stripped at all. */
  lemma NothingAfterFence(head: string)
    requires !HasFence(head)
    ensures StripFrontmatter("---" + head + "\n---") == "---" + head + "\n---"
  {
    var s := head + "\n---";
    assert ("---" + head + "\n---")[3..] == s;
    assert At(s, |head|);
    forall i: nat | i < |head| ensures !At(s, i) { assert At(s, i) ==> At(head, i); }
  }

  /** What follows a fence inside the header still holds the closing fence, so trimming cannot reach the content. */
  lemma LateRest(head: string, content: string, end: nat, rest: string)
    requires end + 4 <= |head| && rest == (head + "\n---\n\n" + content)[end + 4..]
    ensures TrimNewlines(rest) != TrimNewlines(content)
  {
    var skipped := head[end + 4..];
    assert rest == skipped + "\n---\n\n" + content;
    assert rest[|skipped| + 1] == '-';
    TrimKeeps(rest, |skipped| + 1);
    TrimExact(content);
  }

  // --- The store ---

  datatype Row = Row(id: string, kind: Kind, title: string, source: string, tags: seq<string>, createdAt: string,
    updatedAt: string)

  datatype Error = NotFound | Io

  /** What an upsert hands back; its dates are those of the call. */
  datatype Entry = Entry(path: string, meta: Meta)

  /** A file, kept as the write that produced it. */
  datatype File = File(meta: Meta, content: string)
  {
    function Text(): string {
      FileText(meta, content)
    }
  }

  type Files = map<(Kind, string), File>

  // --- Serial runs ---

  datatype Disk = Disk(rows: map<string, Row>, files: Files)

  datatype Op =
    | UpsertOp(kind: Kind, path: string, title: string, content: string, source: string, tags: seq<string>,
      newId: string, now: string)
    | RemoveOp(path: string)

  function Do(d: Disk, op: Op): Disk {
    match op
    case UpsertOp(kind, path, title, content, source, tags, newId, now) =>
      var id := if path in d.rows then d.rows[path].id else newId;
      var created := if path in d.rows then d.rows[path].createdAt else now;
      Disk(d.rows[path := Row(id, kind, title, source, tags, created, now)],
           d.files[(kind, path) := File(Meta(id, title, kind, source, tags, now, now), content)])
    case RemoveOp(path) =>
      if path in d.rows then Disk(d.rows - {path}, d.files - {(d.rows[path].kind, path)}) else d
  }

  function After(ops: seq<Op>): Disk {
    if ops == [] then Disk(map[], map[]) else Do(After(ops[..|ops| - 1]), ops[|ops| - 1])
  }

  function Read(d: Disk, path: string): Option<string> {
    if path in d.rows && (d.rows[path].kind, path) in d.files
    then Some(StripFrontmatter(d.files[(d.rows[path].kind, path)].Text())) else None
  }

  /** The reference: the last upsert of a path that no removal followed. */
  function LastWrite(ops: seq<Op>, path: string): Option<Op> {
    if ops == [] then None
    else if ops[|ops| - 1].path != path then LastWrite(ops[..|ops| - 1], path)
    else if ops[|ops| - 1].UpsertOp? then Some(ops[|ops| - 1]) else None
  }

  /** The id minted by the first upsert of a path since its last removal. */
  function FirstId(ops: seq<Op>, path: string): Option<string> {
    if ops == [] then None else
    var last, rest := ops[|ops| - 1], FirstId(ops[..|ops| - 1], path);
    if last.path != path then rest
    else if last.RemoveOp? then None
    else if rest.Some? then rest
    else Some(last.newId)
  }

  ghost predicate Reflects(d: Disk, path: string, w: Option<Op>, id: Option<string>) {
    && (path in d.rows <==> w.Some?) && (w.Some? <==> id.Some?)
    && (w.Some? ==>
          && w.value.UpsertOp? && d.rows[path].id == id.value && d.rows[path].kind == w.value.kind
          && (w.value.kind, path) in d.files
          && d.files[(w.value.kind, path)] ==
               File(Meta(id.value, w.value.title, w.value.kind, w.value.source, w.value.tags, w.value.now,
                 w.value.now), w.value.content))
  }

  lemma {:induction false} RunReflects(ops: seq<Op>, path: string)
    ensures Reflects(After(ops), path, LastWrite(ops, path), FirstId(ops, path))
  {
    if ops != [] {
      var last, d := ops[|ops| - 1], After(ops[..|ops| - 1]);
      RunReflects(ops[..|ops| - 1], path);
      if last.path != path {
        assert path in d.rows ==> (d.rows[path].kind, path) in Do(d, last).files ==>
          Do(d, last).files[(d.rows[path].kind, path)] == d.files[(d.rows[path].kind, path)];
      }
    }
  }

  /**
   Over any run of upserts and removes the store is a map from path to last content: a path reads as
   its last content without leading newlines exactly when that write's metadata was clean, and keeps
   the id of its first write until it is removed.
   */
  lemma StoreRefinesMap(ops: seq<Op>, path: string)
    ensures path in After(ops).rows <==> LastWrite(ops, path).Some?
    ensures Read(After(ops), path).None? <==> LastWrite(ops, path).None?
    ensures LastWrite(ops, path).Some? ==>
              var w, id := LastWrite(ops, path).value, FirstId(ops, path);
              w.UpsertOp? && id.Some? && After(ops).rows[path].id == id.value &&
              (Read(After(ops), path) == Some(TrimNewlines(w.content)) <==>
                 Clean(Meta(id.value, w.title, w.kind, w.source, w.tags, w.now, w.now)))
  {
    RunReflects(ops, path);
    var w, id := LastWrite(ops, path), FirstId(ops, path);
    if w.Some? {
      ReadBackIff(Meta(id.value, w.value.title, w.value.kind, w.value.source, w.value.tags, w.value.now,
        w.value.now), w.value.content);
    }
  }

  // --- What a row says, by the positions of its writes ---

  predicate Writes(ops: seq<Op>, path: string, i: nat) {
    i < |ops| && ops[i].UpsertOp? && ops[i].path == path
  }

  /** Path `path` is removed between the operations at `i` and `end`. */
  ghost predicate Undone(ops: seq<Op>, path: string, i: int, end: int) {
    exists k :: 0 <= k < |ops| && i < k < end && ops[k] == RemoveOp(path)
  }

  /** The write at `first` is the first since the path was last removed, the one at `last` is the latest. */
  ghost predicate Spans(ops: seq<Op>, path: string, first: nat, last: nat) {
    && Writes(ops, path, first) && Writes(ops, path, last) && first <= last
    && (forall k :: last < k < |ops| ==> ops[k].path != path)
    && !Undone(ops, path, first, |ops|)
    && forall j: nat :: j < first && Writes(ops, path, j) ==> Undone(ops, path, j, first)
  }

  lemma UndoneMore(ops: seq<Op>, op: Op, path: string, i: nat, end: nat)
    requires i < |ops| && end <= |ops|
    ensures Undone(ops + [op], path, i, end) <==> Undone(ops, path, i, end)
    ensures Undone(ops + [op], path, i, |ops| + 1) <==> Undone(ops, path, i, |ops|) || op == RemoveOp(path)
  {
    var more := ops + [op];
    if k :| 0 <= k < |ops| && i < k < end && ops[k] == RemoveOp(path) {
      assert more[k] == RemoveOp(path);
    }
    if k :| 0 <= k < |ops| && i < k && ops[k] == RemoveOp(path) {
      assert more[k] == RemoveOp(path);
    }
    assert more[|ops|] == op;
  }

  /** A path has a row unless every write of it is followed by its removal. */
  lemma {:induction false} AbsentIff(ops: seq<Op>, path: string)
    ensures path !in After(ops).rows <==> forall i: nat :: Writes(ops, path, i) ==> Undone(ops, path, i, |ops|)
  {
    if ops != [] {
      var rest, op := ops[..|ops| - 1], ops[|ops| - 1];
      AbsentIff(rest, path);
      assert ops == rest + [op];
      forall i: nat | i < |rest|
        ensures Writes(ops, path, i) <==> Writes(rest, path, i)
        ensures Undone(ops, path, i, |ops|) <==> Undone(rest, path, i, |rest|) || op == RemoveOp(path)
      {
        UndoneMore(rest, op, path, i, |rest|);
      }
      assert !Undone(ops, path, |rest|, |ops|);
      assert Writes(ops, path, |rest|) <==> op.UpsertOp? && op.path == path;
    }
  }

  /** The latest operation on a path, after one that is given. */
  lemma {:induction false} LatestAfter(ops: seq<Op>, path: string, first: nat) returns (last: nat)
    requires first < |ops| && ops[first].path == path
    ensures first <= last < |ops| && ops[last].path == path && forall k :: last < k < |ops| ==> ops[k].path != path
    decreases |ops|
  {
    if ops[|ops| - 1].path == path {
      return |ops| - 1;
    }
    last := LatestAfter(ops[..|ops| - 1], path, first);
  }

  lemma SpansBefore(ops: seq<Op>, op: Op, path: string, first: nat, last: nat)
    requires first < |ops| && Spans(ops + [op], path, first, last)
    requires op.path == path
    ensures exists latest: nat :: Spans(ops, path, first, latest)
  {
    var more := ops + [op];
    var latest := LatestAfter(ops, path, first);
    assert more[first] == ops[first] && more[latest] == ops[latest];
    UndoneMore(ops, op, path, first, first);
    assert Writes(ops, path, latest);
    forall j: nat | j < first && Writes(ops, path, j)
      ensures Undone(ops, path, j, first)
    {
      assert Writes(more, path, j);
      UndoneMore(ops, op, path, j, first);
    }
    assert Spans(ops, path, first, latest);
  }

  lemma SpansElsewhere(ops: seq<Op>, op: Op, path: string, first: nat, last: nat)
    requires Spans(ops + [op], path, first, last) && op.path != path
    ensures Spans(ops, path, first, last)
  {
    var more := ops + [op];
    assert more[|ops|] == op && last < |ops|;
    assert more[first] == ops[first] && more[last] == ops[last];
    UndoneMore(ops, op, path, first, first);
    forall k | last < k < |ops| ensures ops[k].path != path { assert more[k] == ops[k]; }
    forall j: nat | j < first && Writes(ops, path, j)
      ensures Undone(ops, path, j, first)
    {
      assert Writes(more, path, j);
      UndoneMore(ops, op, path, j, first);
    }
  }

  lemma FirstWriteIsNew(ops: seq<Op>, op: Op, path: string)
    requires Spans(ops + [op], path, |ops|, |ops|)
    ensures path !in After(ops).rows
  {
    forall i: nat | Writes(ops, path, i)
      ensures Undone(ops, path, i, |ops|)
    {
      assert Writes(ops + [op], path, i);
      UndoneMore(ops, op, path, i, |ops|);
    }
    AbsentIff(ops, path);
  }

  /** The row holds what these two writes gave, and the file what the later one did. */
  ghost predicate Holds(d: Disk, path: string, first: Op, last: Op) {
    && first.UpsertOp? && last.UpsertOp?
    && path in d.rows && (last.kind, path) in d.files
    && d.rows[path] ==
         Row(first.newId, last.kind, last.title, last.source, last.tags, first.now, last.now)
    && d.files[(last.kind, path)] ==
         File(Meta(first.newId, last.title, last.kind, last.source, last.tags, last.now, last.now), last.content)
  }

  /**
   Over any run: the id and creation time of a row are those of the path's first write since its last
   removal, everything else is its latest write's; the file carries the latest write's time twice.
   */
  lemma {:induction false} RowSays(ops: seq<Op>, path: string, first: nat, last: nat)
    requires Spans(ops, path, first, last)
    ensures Holds(After(ops), path, ops[first], ops[last])
    decreases |ops|
  {
    var n := |ops| - 1;
    var rest, op := ops[..n], ops[n];
    assert ops == rest + [op];
    if op.path != path {
      SpansElsewhere(rest, op, path, first, last);
      RowSays(rest, path, first, last);
    } else if first == n {
      FirstWriteIsNew(rest, op, path);
    } else {
      assert last == n;
      SpansBefore(rest, op, path, first, last);
      var latest: nat :| Spans(rest, path, first, latest);
      RowSays(rest, path, first, latest);
    }
  }

  /** Every row comes about that way. */
  lemma {:induction false} RowComesFrom(ops: seq<Op>, path: string) returns (first: nat, last: nat)
    requires path in After(ops).rows
    ensures Spans(ops, path, first, last)
  {
    AbsentIff(ops, path);
    var start: nat :| Writes(ops, path, start) && !Undone(ops, path, start, |ops|);
    first := EarliestKept(ops, path, start);
    last := LatestAfter(ops, path, first);
  }

  lemma {:induction false} EarliestKept(ops: seq<Op>, path: string, start: nat) returns (first: nat)
    requires Writes(ops, path, start) && !Undone(ops, path, start, |ops|)
    ensures Writes(ops, path, first) && !Undone(ops, path, first, |ops|)
    ensures forall j: nat :: j < first && Writes(ops, path, j) ==> Undone(ops, path, j, first)
    decreases start
  {
    if j: nat :| j < start && Writes(ops, path, j) && !Undone(ops, path, j, start) {
      first := EarliestKept(ops, path, j);
    } else {
      first := start;
    }
  }

  /** Joining puts a comma and a space between any two neighbours. */
  lemma {:induction false} JoinParts(a: seq<string>, b: seq<string>)
    requires a != [] && b != []
    ensures Join(a + b) == Join(a) + ", " + Join(b)
    decreases |b|
  {
    var front, last := b[..|b| - 1], b[|b| - 1];
    assert (a + b)[..|a + b| - 1] == a + front;
    if front == [] {
      assert a + front == a && b == [last];
    } else {
      JoinParts(a, front);
      assert Join(a) + ", " + Join(front) + ", " + last == Join(a) + ", " + (Join(front) + ", " + last);
    }
  }

  lemma {:induction false} HeaderConcat(a: seq<(string, string)>, b: seq<(string, string)>)
    ensures Header(a + b) == Header(a) + Header(b)
    decreases |b|
  {
    if b == [] {
      assert a + b == a;
    } else {
      assert (a + b)[..|a + b| - 1] == a + b[..|b| - 1];
      HeaderConcat(a, b[..|b| - 1]);
    }
  }

  lemma HeaderOne(name: string, value: string)
    ensures Header([(name, value)]) == "\n" + name + ": " + value
  {
    assert Header([(name, value)][..0]) == "";
  }

  /** The layout of a file: seven named lines between two fences, an empty line, the content. */
  lemma FileLayout(m: Meta, content: string)
    ensures FileText(m, content) ==
            "---" +
            ("\n" + "id" + ": " + m.id) + ("\n" + "title" + ": " + m.title) +
            ("\n" + "kind" + ": " + KindName(m.kind)) + ("\n" + "source" + ": " + m.source) +
            ("\n" + "tags" + ": " + ("[" + Join(m.tags) + "]")) +
            ("\n" + "created_at" + ": " + m.createdAt) + ("\n" + "updated_at" + ": " + m.updatedAt) +
            "\n---\n\n" + content
  {
    var f := Fields(m);
    assert f == [f[0]] + [f[1]] + [f[2]] + [f[3]] + [f[4]] + [f[5]] + [f[6]];
    HeaderConcat([f[0]] + [f[1]] + [f[2]] + [f[3]] + [f[4]] + [f[5]], [f[6]]);
    HeaderConcat([f[0]] + [f[1]] + [f[2]] + [f[3]] + [f[4]], [f[5]]);
    HeaderConcat([f[0]] + [f[1]] + [f[2]] + [f[3]], [f[4]]);
    HeaderConcat([f[0]] + [f[1]] + [f[2]], [f[3]]);
    HeaderConcat([f[0]] + [f[1]], [f[2]]);
    HeaderConcat([f[0]], [f[1]]);
    forall i | 0 <= i < 7 ensures Header([f[i]]) == "\n" + f[i].0 + ": " + f[i].1 { HeaderOne(f[i].0, f[i].1); }
  }

  // --- The object ---

  /** The row, its file and the last upsert of a path describe the same thing. */
  ghost predicate AgreeAt(rows: map<string, Row>, files: Files, contents: map<string, string>, metas: map<string, Meta>,
                          p: string)
    requires p in rows && p in contents && p in metas
  {
    && rows[p].id == metas[p].id && rows[p].kind == metas[p].kind
    && (rows[p].kind, p) in files && files[(rows[p].kind, p)] == File(metas[p], contents[p])
  }

  ghost predicate DistinctIds(rows: map<string, Row>) {
    forall p, q :: p in rows && q in rows && rows[p].id == rows[q].id ==> p == q
  }

  /** Rows, files and the last upserts describe the same paths, and ids name one path each. */
  ghost predicate Agree(rows: map<string, Row>, files: Files, contents: map<string, string>, metas: map<string, Meta>) {
    && rows.Keys == contents.Keys == metas.Keys
    && (forall p :: p in rows ==> AgreeAt(rows, files, contents, metas, p))
    && DistinctIds(rows)
  }

  lemma WriteKeepsIds(rows: map<string, Row>, path: string, row: Row)
    requires DistinctIds(rows) && forall p :: p in rows && p != path ==> rows[p].id != row.id
    ensures DistinctIds(rows[path := row])
  {
  }

  lemma WriteKeepsOthers(rows: map<string, Row>, files: Files, contents: map<string, string>,
                         metas: map<string, Meta>, path: string, row: Row, m: Meta, content: string, p: string)
    requires p in rows && p in contents && p in metas && p != path && AgreeAt(rows, files, contents, metas, p)
    ensures AgreeAt(rows[path := row], files[(row.kind, path) := File(m, content)], contents[path := content],
                    metas[path := m], p)
  {
    assert (rows[p].kind, p) != (row.kind, path);
  }

  /** A write of one path keeps the agreement, even if it moves the path to another kind. */
  lemma WriteAgrees(rows: map<string, Row>, files: Files, contents: map<string, string>, metas: map<string, Meta>,
                    path: string, row: Row, m: Meta, content: string)
    requires Agree(rows, files, contents, metas)
    requires row.id == m.id && row.kind == m.kind
    requires forall p :: p in rows && p != path ==> rows[p].id != row.id
    ensures Agree(rows[path := row], files[(row.kind, path) := File(m, content)], contents[path := content],
                  metas[path := m])
  {
    WriteKeepsIds(rows, path, row);
    var rows', files' := rows[path := row], files[(row.kind, path) := File(m, content)];
    var contents', metas' := contents[path := content], metas[path := m];
    assert rows'.Keys == rows.Keys + {path} && contents'.Keys == contents.Keys + {path};
    assert metas'.Keys == metas.Keys + {path};
    forall p | p in rows'
      ensures AgreeAt(rows', files', contents', metas', p)
    {
      if p != path {
        WriteKeepsOthers(rows, files, contents, metas, path, row, m, content, p);
      }
    }
  }

  lemma RemoveKeepsOthers(rows: map<string, Row>, files: Files, contents: map<string, string>,
                          metas: map<string, Meta>, path: string, p: string)
    requires p in rows && p in contents && p in metas && p != path && path in rows
    requires AgreeAt(rows, files, contents, metas, p)
    ensures AgreeAt(rows - {path}, files - {(rows[path].kind, path)}, contents - {path}, metas - {path}, p)
  {
    assert (rows[p].kind, p) != (rows[path].kind, path);
  }

  lemma RemoveAgrees(rows: map<string, Row>, files: Files, contents: map<string, string>, metas: map<string, Meta>,
                     path: string)
    requires Agree(rows, files, contents, metas) && path in rows
    ensures Agree(rows - {path}, files - {(rows[path].kind, path)}, contents - {path}, metas - {path})
  {
    var rows' := rows - {path};
    assert rows'.Keys == rows.Keys - {path} && (contents - {path}).Keys == contents.Keys - {path};
    assert (metas - {path}).Keys == metas.Keys - {path};
    forall p | p in rows'
      ensures AgreeAt(rows', files - {(rows[path].kind, path)}, contents - {path}, metas - {path}, p)
    {
      RemoveKeepsOthers(rows, files, contents, metas, path, p);
    }
  }

  lemma OtherRowsStay(rows: map<string, Row>, path: string, row: Row)
    ensures rows[path := row].Keys == rows.Keys + {path} && rows[path := row][path] == row
    ensures forall p :: p in rows && p != path ==> rows[path := row][p] == rows[p]
  {
  }

  class ContextManager {
    var rows: map<string, Row>
    var files: map<(Kind, string), File>
    /** The last content and metadata upserted per path, until removed. */
    ghost var contents: map<string, string>
    ghost var metas: map<string, Meta>

    ghost predicate Valid()
      reads this
    {
      Agree(rows, files, contents, metas)
    }

    constructor ()
      ensures Valid() && contents == map[] && rows == map[]
    {
      rows, files, contents, metas := map[], map[], map[], map[];
    }

    /** Upsert by path: the id of a present path is kept, even when its kind changes. */
    method Upsert(kind: Kind, path: string, title: string, content: string, source: string, tags: seq<string>,
                  newId: string, now: string)
      returns (entry: Entry)
      requires Valid()
      requires forall p :: p in rows ==> rows[p].id != newId
      modifies this
      ensures Valid()
      ensures var id := if path in old(rows) then old(rows)[path].id else newId;
              entry == Entry(path, Meta(id, title, kind, source, tags, now, now))
      ensures contents == old(contents)[path := content] && metas == old(metas)[path := entry.meta]
      ensures rows.Keys == old(rows).Keys + {path} && rows[path].id == entry.meta.id
      ensures forall p :: p in old(rows) && p != path ==> rows[p] == old(rows)[p]
      ensures Disk(rows, files) ==
              Do(old(Disk(rows, files)), UpsertOp(kind, path, title, content, source, tags, newId, now))
      ensures rows[path].createdAt == if path in old(rows) then old(rows)[path].createdAt else now
    {
      var id := if path in rows then rows[path].id else newId;
      var created := if path in rows then rows[path].createdAt else now;
      var row := Row(id, kind, title, source, tags, created, now);
      entry := Entry(path, Meta(id, title, kind, source, tags, now, now));
      WriteAgrees(rows, files, contents, metas, path, row, entry.meta, content);
      OtherRowsStay(rows, path, row);
      rows := rows[path := row];
      files := files[(kind, path) := File(entry.meta, content)];
      contents, metas := contents[path := content], metas[path := entry.meta];
    }

    method GetByPath(path: string) returns (r: Result<Row, Error>)
      ensures r == if path in rows then Ok(rows[path]) else Err(NotFound)
    {
      r := if path in rows then Ok(rows[path]) else Err(NotFound);
    }

    /** Ids name at most one path. */
    method Get(id: string) returns (r: Result<string, Error>)
      requires Valid()
      ensures r.Ok? <==> exists p :: p in rows && rows[p].id == id
      ensures r.Ok? ==> r.value in rows && rows[r.value].id == id
      ensures r.Err? ==> r.error == NotFound
    {
      if p :| p in rows && rows[p].id == id {
        return Ok(p);
      }
      return Err(NotFound);
    }

    /** Reading a present path gives its last content, trimmed, exactly when its metadata was clean. */
    method ReadContentByPath(path: string) returns (r: Result<string, Error>)
      requires Valid()
      ensures path !in contents <==> r == Err(NotFound)
      ensures path in contents ==> (r == Ok(TrimNewlines(contents[path])) <==> Clean(metas[path]))
    {
      if path !in rows { return Err(NotFound); }
      ReadBackIff(metas[path], contents[path]);
      return Ok(StripFrontmatter(files[(rows[path].kind, path)].Text()));
    }

    method ReadContent(id: string) returns (r: Result<string, Error>)
      requires Valid()
      ensures r == Err(NotFound) <==> forall p :: p in rows ==> rows[p].id != id
      ensures forall p :: p in rows && rows[p].id == id ==> (r == Ok(TrimNewlines(contents[p])) <==> Clean(metas[p]))
    {
      var found := Get(id);
      if found.Err? { return Err(NotFound); }
      r := ReadContentByPath(found.value);
    }

    method RemoveByPath(path: string) returns (r: Result<(), Error>)
      requires Valid()
      modifies this
      ensures Valid()
      ensures r == if path in old(rows) then Ok(()) else Err(NotFound)
      ensures contents == old(contents) - {path} && metas == old(metas) - {path} && rows == old(rows) - {path}
      ensures Disk(rows, files) == Do(old(Disk(rows, files)), RemoveOp(path))
    {
      if path !in rows {
        assert rows == rows - {path} && contents == contents - {path} && metas == metas - {path};
        return Err(NotFound);
      }
      var kind := rows[path].kind;
      RemoveAgrees(rows, files, contents, metas, path);
      rows := rows - {path};
      files := files - {(kind, path)};
      contents, metas := contents - {path}, metas - {path};
      return Ok(());
    }

    method Remove(id: string) returns (r: Result<(), Error>)
      requires Valid()
      modifies this
      ensures Valid()
      ensures r.Ok? <==> exists p :: p in old(rows) && old(rows)[p].id == id
      ensures forall p :: p in old(rows) ==>
              (p in rows <==> old(rows)[p].id != id) && (p in rows ==> rows[p] == old(rows)[p])
      ensures rows.Keys <= old(rows).Keys
      ensures forall p :: p in rows ==> contents[p] == old(contents)[p] && metas[p] == old(metas)[p]
    {
      var found := Get(id);
      if found.Err? { return Err(NotFound); }
      r := RemoveByPath(found.value);
    }
  }
}
