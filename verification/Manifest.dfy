/**
 Flattening the `[requires]` and `[optional]` sections of an app manifest: a tree
 of tables (TOML v1.0.0, section "Table") becomes a map keyed by dotted path.
 */
module Manifest {
  import opened Common

  datatype Value = Scalar(text: string) | Array(items: seq<Value>) | Table(entries: seq<Binding>)

  datatype Binding = Binding(key: string, value: Value)

  type Entries = seq<Binding>

  datatype Spec = Spec(description: Option<string>)

  /** Reads a leaf table's body as a capability, if it has that shape. */
  type Decoder = Entries -> Option<Spec>

  type Path = seq<string>

  predicate HasSubtable(entries: Entries) {
    exists i :: 0 <= i < |entries| && entries[i].value.Table?
  }

  // --- The code ---

  function NextPrefix(prefix: string, key: string): string {
    if prefix == "" then key else prefix + "." + key
  }

  function FlattenTable(decode: Decoder, table: Value, prefix: string, out: map<string, Spec>)
    : Option<map<string, Spec>>
    requires table.Table?
    decreases table, 1
  {
    if !HasSubtable(table.entries) then
      if prefix == "" then Some(out) else
      match decode(table.entries) case Some(spec) => Some(out[prefix := spec]) case None => None
    else FlattenEntries(decode, table.entries, prefix, out)
  }

  function FlattenEntries(decode: Decoder, entries: Entries, prefix: string, out: map<string, Spec>)
    : Option<map<string, Spec>>
    decreases entries, 0
  {
    if entries == [] then Some(out) else
    var Binding(key, value) := entries[0];
    if !value.Table? then None else
    match FlattenTable(decode, value, NextPrefix(prefix, key), out)
    case Some(more) => FlattenEntries(decode, entries[1..], prefix, more)
    case None => None
  }

  method FlattenCapabilityTable(decode: Decoder, table: Value, prefix: string, out: map<string, Spec>)
    returns (r: Option<map<string, Spec>>)
    requires table.Table?
    ensures r == FlattenTable(decode, table, prefix, out)
    decreases table
  {
    var entries := table.entries;
    var hasSubtable := HasSubtable(entries);
    if !hasSubtable {
      if prefix == "" { return Some(out); }
      var spec := decode(entries);
      if spec.None? { return None; }
      return Some(out[prefix := spec.value]);
    }
    var current := out;
    for i := 0 to |entries|
      invariant FlattenEntries(decode, entries, prefix, out) == FlattenEntries(decode, entries[i..], prefix, current)
    {
      var Binding(key, value) := entries[i];
      assert entries[i..][0] == entries[i] && entries[i..][1..] == entries[i + 1..];
      if !value.Table? { return None; }
      var sub := FlattenCapabilityTable(decode, value, if prefix == "" then key else prefix + "." + key, current);
      if sub.None? { return None; }
      current := sub.value;
    }
    return Some(current);
  }

  function WithoutKey(entries: Entries, key: string): (rest: Entries)
    ensures forall other :: Lookup(rest, other) == if other == key then None else Lookup(entries, other)
  {
    if entries == [] then []
    else if entries[0].key == key then WithoutKey(entries[1..], key)
    else [entries[0]] + WithoutKey(entries[1..], key)
  }

  /**
   A manifest section, taken out of the root table: absent gives no capabilities, anything but a table
   is an error.  The other sections stay for the rest of the manifest.
   */
  method TakeCapabilitySection(decode: Decoder, root: Entries, section: string)
    returns (r: Option<map<string, Spec>>, rest: Entries)
    ensures r == match Lookup(root, section)
                 case None => Some(map[])
                 case Some(v) => if v.Table? then FlattenTable(decode, v, "", map[]) else None
    ensures forall key :: Lookup(rest, key) == if key == section then None else Lookup(root, key)
  {
    var raw := Lookup(root, section);
    rest := WithoutKey(root, section);
    if raw.None? { return Some(map[]), rest; }
    if !raw.value.Table? { return None, rest; }
    r := FlattenCapabilityTable(decode, raw.value, "", map[]);
  }

  // --- The tree by itself ---

  function Lookup(entries: Entries, key: string): Option<Value> {
    if entries == [] then None
    else if entries[0].key == key then Some(entries[0].value)
    else Lookup(entries[1..], key)
  }

  /** The value a path of keys leads to. */
  function Walk(v: Value, path: Path): Option<Value>
    decreases |path|
  {
    if path == [] then Some(v)
    else if v.Table? then WalkIn(v.entries, path)
    else None
  }

  function WalkIn(entries: Entries, path: Path): Option<Value>
    requires path != []
    decreases |path|, 0
  {
    match Lookup(entries, path[0]) case Some(child) => Walk(child, path[1..]) case None => None
  }

  predicate IsTable(v: Option<Value>) {
    v.Some? && v.value.Table?
  }

  predicate IsLeaf(v: Option<Value>) {
    IsTable(v) && !HasSubtable(v.value.entries)
  }

  predicate IsMixed(v: Option<Value>) {
    && IsTable(v) && HasSubtable(v.value.entries)
    && exists i :: 0 <= i < |v.value.entries| && !v.value.entries[i].value.Table?
  }

  /** Keys are unique within their table. */
  predicate GoodKeys(v: Value) {
    v.Table? ==>
      && (forall i, j :: 0 <= i < j < |v.entries| ==> v.entries[i].key != v.entries[j].key)
      && (forall i :: 0 <= i < |v.entries| ==> GoodKeys(v.entries[i].value))
  }

  /** No key holds a dot; a quoted TOML key may. */
  predicate DotFree(v: Value) {
    v.Table? ==> forall i :: 0 <= i < |v.entries| ==> '.' !in v.entries[i].key && DotFree(v.entries[i].value)
  }

  /** No key of the table itself is empty; a quoted TOML key may be. */
  predicate NamedAtTop(v: Value) {
    v.Table? ==> forall i :: 0 <= i < |v.entries| ==> v.entries[i].key != ""
  }

  function Dotted(path: Path): string {
    if path == [] then ""
    else if |path| == 1 then path[0]
    else path[0] + "." + Dotted(path[1..])
  }

  /** The path without its leading empty keys. */
  function Trimmed(path: Path): (t: Path)
    ensures t != [] ==> t[0] != ""
  {
    if path == [] || path[0] != "" then path else Trimmed(path[1..])
  }

  function FindDot(s: string): (i: nat)
    ensures i <= |s| && '.' !in s[..i] && (i < |s| ==> s[i] == '.')
  {
    if s == "" || s[0] == '.' then 0 else 1 + FindDot(s[1..])
  }

  function Split(s: string): Path {
    var i := FindDot(s);
    if i == |s| then [s] else [s[..i]] + Split(s[i + 1..])
  }

  // --- Dotted keys and paths ---

  lemma {:induction false} FindDotFirst(s: string, i: nat)
    requires i <= |s| && '.' !in s[..i] && (i < |s| ==> s[i] == '.')
    ensures FindDot(s) == i
  {
    if i > 0 {
      assert s[0] in s[..i];
      assert s[1..][..i - 1] == s[..i][1..];
      FindDotFirst(s[1..], i - 1);
    }
  }

  lemma SplitFirst(key: string, rest: string)
    requires '.' !in key
    ensures Split(key + "." + rest) == [key] + Split(rest)
  {
    var s := key + "." + rest;
    assert s[..|key|] == key && s[|key| + 1..] == rest;
    FindDotFirst(s, |key|);
  }

  predicate DotFreePath(path: Path) {
    forall i :: 0 <= i < |path| ==> '.' !in path[i]
  }

  /** A dot-free path can be read back from its dotted key. */
  lemma {:induction false} SplitDotted(path: Path)
    requires path != [] && DotFreePath(path)
    ensures Split(Dotted(path)) == path
  {
    if |path| == 1 {
      FindDotFirst(path[0], |path[0]|);
    } else {
      SplitFirst(path[0], Dotted(path[1..]));
      SplitDotted(path[1..]);
      assert path == [path[0]] + path[1..];
    }
  }

  /** For dot-free paths a dotted ancestor is a proper prefix. */
  lemma {:induction false} DottedAncestorIff(p: Path, q: Path)
    requires p != [] && q != [] && DotFreePath(p) && DotFreePath(q)
    ensures Dotted(p) + "." <= Dotted(q) <==> p < q
  {
    if p < q {
      DottedConcat(p, q[|p|..]);
      assert q == p + q[|p|..];
    }
    if Dotted(p) + "." <= Dotted(q) {
      var rest := Dotted(q)[|Dotted(p)| + 1..];
      assert Dotted(q) == Dotted(p) + "." + rest;
      SplitDotted(p);
      SplitDotted(q);
      SplitPath(p, rest);
    }
  }

  lemma {:induction false} DottedConcat(p: Path, q: Path)
    requires p != [] && q != []
    ensures Dotted(p + q) == Dotted(p) + "." + Dotted(q)
  {
    assert (p + q)[1..] == p[1..] + q;
    if |p| > 1 {
      DottedConcat(p[1..], q);
      DotAssoc(p[0], Dotted(p[1..]), Dotted(q));
    }
  }

  lemma DotAssoc(a: string, b: string, c: string)
    ensures (a + "." + b) + "." + c == a + "." + (b + "." + c)
  {
  }

  lemma {:induction false} SplitPath(p: Path, rest: string)
    requires p != [] && DotFreePath(p)
    ensures Split(Dotted(p) + "." + rest) == p + Split(rest)
  {
    if |p| == 1 {
      SplitFirst(p[0], rest);
    } else {
      DotAssoc(p[0], Dotted(p[1..]), rest);
      SplitFirst(p[0], Dotted(p[1..]) + "." + rest);
      SplitPath(p[1..], rest);
      FirstAndRest(p, Split(rest));
    }
  }

  lemma FirstAndRest(p: Path, q: Path)
    requires p != []
    ensures [p[0]] + (p[1..] + q) == p + q
  {
  }

  // --- The key under which a path is written ---

  /** The prefix the code has built when it reaches the end of the path. */
  function KeyFrom(prefix: string, path: Path): string
    decreases |path|
  {
    if path == [] then prefix else KeyFrom(NextPrefix(prefix, path[0]), path[1..])
  }

  lemma {:induction false} KeyFromPrefix(prefix: string, path: Path)
    requires prefix != ""
    ensures KeyFrom(prefix, path) == if path == [] then prefix else prefix + "." + Dotted(path)
    decreases |path|
  {
    if path != [] {
      KeyFromPrefix(NextPrefix(prefix, path[0]), path[1..]);
      if |path| > 1 {
        DotAssoc(prefix, path[0], Dotted(path[1..]));
      }
    }
  }

  /** Leading empty keys vanish; the rest is joined by dots. */
  lemma {:induction false} KeyIsTrimmed(path: Path)
    ensures KeyFrom("", path) == Dotted(Trimmed(path))
    ensures KeyFrom("", path) == "" <==> Trimmed(path) == []
    decreases |path|
  {
    if path != [] {
      if path[0] == "" {
        KeyIsTrimmed(path[1..]);
      } else {
        KeyFromPrefix(path[0], path[1..]);
      }
    }
  }

  lemma {:induction false} TrimmedEmptyIff(path: Path)
    ensures Trimmed(path) == [] <==> forall i :: 0 <= i < |path| ==> path[i] == ""
  {
    if path != [] && path[0] == "" {
      TrimmedEmptyIff(path[1..]);
      assert path == [path[0]] + path[1..];
    }
  }

  lemma {:induction false} LeadingEmpty(path: Path) returns (empty: Path)
    ensures Trimmed(empty) == [] && path == empty + Trimmed(path)
  {
    if path != [] && path[0] == "" {
      var rest := LeadingEmpty(path[1..]);
      empty := [""] + rest;
      assert empty[1..] == rest;
      assert path == [""] + path[1..];
    } else {
      empty := [];
    }
  }

  lemma {:induction false} TrimmedConcat(a: Path, b: Path)
    ensures Trimmed(a + b) == if Trimmed(a) == [] then Trimmed(b) else Trimmed(a) + b
  {
    if a == [] {
      assert a + b == b;
    } else {
      assert (a + b)[1..] == a[1..] + b;
      if a[0] == "" {
        TrimmedConcat(a[1..], b);
      }
    }
  }

  // --- What flattening computes ---

  /** A leaf below `prefix` that the code does not take for the section itself. */
  predicate LeafAt(v: Value, prefix: string, rel: Path) {
    KeyFrom(prefix, rel) != "" && IsLeaf(Walk(v, rel))
  }

  predicate LeafIn(entries: Entries, prefix: string, rel: Path) {
    rel != [] && KeyFrom(prefix, rel) != "" && IsLeaf(WalkIn(entries, rel))
  }

  predicate BadAt(decode: Decoder, v: Value, prefix: string, rel: Path) {
    IsMixed(Walk(v, rel)) || (LeafAt(v, prefix, rel) && decode(Walk(v, rel).value.entries).None?)
  }

  predicate BadIn(decode: Decoder, entries: Entries, prefix: string, rel: Path) {
    rel != [] && (IsMixed(WalkIn(entries, rel)) ||
      (LeafIn(entries, prefix, rel) && decode(WalkIn(entries, rel).value.entries).None?))
  }

  ghost predicate Writes(v: Value, prefix: string, key: string) {
    exists rel :: LeafAt(v, prefix, rel) && key == KeyFrom(prefix, rel)
  }

  ghost predicate WritesIn(entries: Entries, prefix: string, key: string) {
    exists rel :: LeafIn(entries, prefix, rel) && key == KeyFrom(prefix, rel)
  }

  ghost predicate WrittenBy(decode: Decoder, v: Value, prefix: string, key: string, spec: Spec) {
    exists rel :: LeafAt(v, prefix, rel) && key == KeyFrom(prefix, rel) &&
      decode(Walk(v, rel).value.entries) == Some(spec)
  }

  ghost predicate WrittenIn(decode: Decoder, entries: Entries, prefix: string, key: string, spec: Spec) {
    exists rel :: LeafIn(entries, prefix, rel) && key == KeyFrom(prefix, rel) &&
      decode(WalkIn(entries, rel).value.entries) == Some(spec)
  }

  /** `more` is `out` with exactly the leaves' keys written, each with the body of a leaf of that key. */
  ghost predicate Adds(decode: Decoder, v: Value, prefix: string, out: map<string, Spec>, more: map<string, Spec>) {
    && (forall key :: key in more <==> key in out || Writes(v, prefix, key))
    && (forall key :: key in out && !Writes(v, prefix, key) ==> more[key] == out[key])
    && (forall key :: key in more && Writes(v, prefix, key) ==> WrittenBy(decode, v, prefix, key, more[key]))
  }

  ghost predicate AddsIn(decode: Decoder, entries: Entries, prefix: string,
                         out: map<string, Spec>, more: map<string, Spec>) {
    && (forall key :: key in more <==> key in out || WritesIn(entries, prefix, key))
    && (forall key :: key in out && !WritesIn(entries, prefix, key) ==> more[key] == out[key])
    && (forall key :: key in more && WritesIn(entries, prefix, key) ==>
          WrittenIn(decode, entries, prefix, key, more[key]))
  }

  /** Below the first entry or below the others. */
  lemma WalkInCons(entries: Entries, rel: Path)
    requires entries != [] && rel != []
    ensures WalkIn(entries, rel) == if rel[0] == entries[0].key then Walk(entries[0].value, rel[1..])
            else WalkIn(entries[1..], rel)
  {
  }

  lemma {:induction false} LookupMember(entries: Entries, key: string)
    ensures Lookup(entries, key).Some? <==> exists i :: 0 <= i < |entries| && entries[i].key == key
    ensures Lookup(entries, key).Some? ==>
            exists i :: 0 <= i < |entries| && entries[i] == Binding(key, Lookup(entries, key).value)
  {
    if entries != [] {
      LookupMember(entries[1..], key);
      assert entries == [entries[0]] + entries[1..];
      if entries[0].key != key && Lookup(entries, key).Some? {
        var i :| 0 <= i < |entries[1..]| && entries[1..][i] == Binding(key, Lookup(entries, key).value);
        assert entries[i + 1] == Binding(key, Lookup(entries, key).value);
      }
      if i :| 0 <= i < |entries| && entries[i].key == key && i > 0 {
        assert entries[1..][i - 1].key == key;
      }
    }
  }

  lemma {:induction false} WalkKeysGood(v: Value, rel: Path)
    requires GoodKeys(v) && Walk(v, rel).Some?
    ensures GoodKeys(Walk(v, rel).value)
    decreases |rel|
  {
    if rel != [] {
      LookupMember(v.entries, rel[0]);
      var i :| 0 <= i < |v.entries| && v.entries[i] == Binding(rel[0], Lookup(v.entries, rel[0]).value);
      assert GoodKeys(v.entries[i].value);
      WalkKeysGood(v.entries[i].value, rel[1..]);
    }
  }

  lemma {:induction false} WalkDotFree(v: Value, rel: Path)
    requires DotFree(v) && Walk(v, rel).Some?
    ensures DotFreePath(rel)
    decreases |rel|
  {
    if rel != [] {
      LookupMember(v.entries, rel[0]);
      var i :| 0 <= i < |v.entries| && v.entries[i] == Binding(rel[0], Lookup(v.entries, rel[0]).value);
      assert '.' !in v.entries[i].key && DotFree(v.entries[i].value);
      WalkDotFree(v.entries[i].value, rel[1..]);
    }
  }

  lemma WalkNamed(v: Value, rel: Path)
    requires NamedAtTop(v) && Walk(v, rel).Some?
    ensures Trimmed(rel) == rel
  {
    if rel != [] {
      LookupMember(v.entries, rel[0]);
    }
  }

  ghost predicate GoodEntries(entries: Entries) {
    && (forall i :: 0 <= i < |entries| ==> GoodKeys(entries[i].value))
    && (forall i, j :: 0 <= i < j < |entries| ==> entries[i].key != entries[j].key)
  }

  lemma FirstKeyIsAlone(entries: Entries, rel: Path)
    requires GoodEntries(entries) && entries != [] && rel != [] && rel[0] == entries[0].key
    ensures WalkIn(entries[1..], rel).None?
  {
    LookupMember(entries[1..], rel[0]);
    assert forall i :: 0 <= i < |entries[1..]| ==> entries[1..][i] == entries[i + 1];
  }

  lemma BadInCons(decode: Decoder, entries: Entries, prefix: string)
    requires GoodEntries(entries) && entries != []
    ensures (exists rel :: BadIn(decode, entries, prefix, rel)) <==>
            (exists rel :: BadAt(decode, entries[0].value, NextPrefix(prefix, entries[0].key), rel)) ||
            (exists rel :: BadIn(decode, entries[1..], prefix, rel))
  {
    var first, rest := entries[0], entries[1..];
    var below := NextPrefix(prefix, first.key);
    if rel :| BadIn(decode, entries, prefix, rel) {
      WalkInCons(entries, rel);
      if rel[0] == first.key {
        assert BadAt(decode, first.value, below, rel[1..]);
      } else {
        assert BadIn(decode, rest, prefix, rel);
      }
    }
    if rel :| BadAt(decode, first.value, below, rel) {
      var full := [first.key] + rel;
      WalkInCons(entries, full);
      assert full[1..] == rel;
      assert BadIn(decode, entries, prefix, full);
    }
    if rel :| BadIn(decode, rest, prefix, rel) {
      WalkInCons(entries, rel);
      if rel[0] == first.key { FirstKeyIsAlone(entries, rel); }
      assert BadIn(decode, entries, prefix, rel);
    }
  }

  lemma LeafInCons(entries: Entries, prefix: string, rel: Path)
    requires GoodEntries(entries) && entries != [] && rel != []
    ensures LeafIn(entries, prefix, rel) <==>
            if rel[0] == entries[0].key then LeafAt(entries[0].value, NextPrefix(prefix, entries[0].key), rel[1..])
              else LeafIn(entries[1..], prefix, rel)
    ensures rel[0] == entries[0].key ==> !LeafIn(entries[1..], prefix, rel)
  {
    WalkInCons(entries, rel);
    if rel[0] == entries[0].key { FirstKeyIsAlone(entries, rel); }
  }

  lemma WritesInCons(entries: Entries, prefix: string, key: string)
    requires GoodEntries(entries) && entries != []
    ensures WritesIn(entries, prefix, key) <==>
            Writes(entries[0].value, NextPrefix(prefix, entries[0].key), key) || WritesIn(entries[1..], prefix, key)
  {
    var first, rest := entries[0], entries[1..];
    var below := NextPrefix(prefix, first.key);
    if WritesIn(entries, prefix, key) {
      var rel :| LeafIn(entries, prefix, rel) && key == KeyFrom(prefix, rel);
      LeafInCons(entries, prefix, rel);
      if rel[0] == first.key {
        assert LeafAt(first.value, below, rel[1..]) && key == KeyFrom(below, rel[1..]);
      }
    }
    if Writes(first.value, below, key) {
      var rel :| LeafAt(first.value, below, rel) && key == KeyFrom(below, rel);
      var full := [first.key] + rel;
      assert full[1..] == rel;
      LeafInCons(entries, prefix, full);
      assert LeafIn(entries, prefix, full) && key == KeyFrom(prefix, full);
    }
    if WritesIn(rest, prefix, key) {
      var rel :| LeafIn(rest, prefix, rel) && key == KeyFrom(prefix, rel);
      LeafInCons(entries, prefix, rel);
      assert LeafIn(entries, prefix, rel);
    }
  }

  lemma WrittenInCons(decode: Decoder, entries: Entries, prefix: string, key: string, spec: Spec)
    requires GoodEntries(entries) && entries != []
    requires WrittenBy(decode, entries[0].value, NextPrefix(prefix, entries[0].key), key, spec) ||
             WrittenIn(decode, entries[1..], prefix, key, spec)
    ensures WrittenIn(decode, entries, prefix, key, spec)
  {
    var first, rest := entries[0], entries[1..];
    if WrittenIn(decode, rest, prefix, key, spec) {
      var rel :| LeafIn(rest, prefix, rel) && key == KeyFrom(prefix, rel) &&
        decode(WalkIn(rest, rel).value.entries) == Some(spec);
      LeafInCons(entries, prefix, rel);
      WalkInCons(entries, rel);
      assert LeafIn(entries, prefix, rel);
    } else {
      var below := NextPrefix(prefix, first.key);
      var rel :| LeafAt(first.value, below, rel) && key == KeyFrom(below, rel) &&
        decode(Walk(first.value, rel).value.entries) == Some(spec);
      var full := [first.key] + rel;
      assert full[1..] == rel;
      LeafInCons(entries, prefix, full);
      WalkInCons(entries, full);
      assert LeafIn(entries, prefix, full);
    }
  }

  lemma AddsCons(decode: Decoder, entries: Entries, prefix: string, out: map<string, Spec>, more: map<string, Spec>,
                 all: map<string, Spec>)
    requires GoodEntries(entries) && entries != []
    requires Adds(decode, entries[0].value, NextPrefix(prefix, entries[0].key), out, more)
    requires AddsIn(decode, entries[1..], prefix, more, all)
    ensures AddsIn(decode, entries, prefix, out, all)
  {
    var first, rest := entries[0], entries[1..];
    var below := NextPrefix(prefix, first.key);
    forall key
      ensures WritesIn(entries, prefix, key) <==> Writes(first.value, below, key) || WritesIn(rest, prefix, key)
    {
      WritesInCons(entries, prefix, key);
    }
    forall key | key in all && WritesIn(entries, prefix, key)
      ensures WrittenIn(decode, entries, prefix, key, all[key])
    {
      WrittenInCons(decode, entries, prefix, key, all[key]);
    }
  }

  lemma LeafHasNothingBelow(v: Value, rel: Path)
    requires v.Table? && !HasSubtable(v.entries) && rel != []
    ensures !IsTable(Walk(v, rel))
  {
    var child := Lookup(v.entries, rel[0]);
    LookupMember(v.entries, rel[0]);
    if child.Some? {
      var i :| 0 <= i < |v.entries| && v.entries[i] == Binding(rel[0], child.value);
      assert !v.entries[i].value.Table?;
      assert !IsTable(Walk(child.value, rel[1..]));
    }
  }

  ghost predicate SomeScalar(entries: Entries) {
    exists i :: 0 <= i < |entries| && !entries[i].value.Table?
  }

  lemma SomeScalarCons(entries: Entries)
    requires entries != []
    ensures SomeScalar(entries) <==> !entries[0].value.Table? || SomeScalar(entries[1..])
  {
    if i :| 0 <= i < |entries| && !entries[i].value.Table? && i > 0 { assert !entries[1..][i - 1].value.Table?; }
    if i :| 0 <= i < |entries[1..]| && !entries[1..][i].value.Table? { assert !entries[i + 1].value.Table?; }
  }

  lemma {:induction false} EntriesFlatten(decode: Decoder, entries: Entries, prefix: string, out: map<string, Spec>)
    requires GoodEntries(entries)
    ensures var r := FlattenEntries(decode, entries, prefix, out);
            && (r.None? <==> SomeScalar(entries) || (exists rel :: BadIn(decode, entries, prefix, rel)))
            && (r.Some? ==> AddsIn(decode, entries, prefix, out, r.value))
    decreases entries, 0
  {
    if entries == [] {
    } else {
      var first, rest := entries[0], entries[1..];
      assert entries == [first] + rest;
      SomeScalarCons(entries);
      if first.value.Table? {
        var below := NextPrefix(prefix, first.key);
        BadInCons(decode, entries, prefix);
        TableFlattens(decode, first.value, below, out);
        var sub := FlattenTable(decode, first.value, below, out);
        if sub.Some? {
          EntriesFlatten(decode, rest, prefix, sub.value);
          var all := FlattenEntries(decode, rest, prefix, sub.value);
          if all.Some? {
            AddsCons(decode, entries, prefix, out, sub.value, all.value);
          }
        }
      }
    }
  }

  lemma {:induction false} TableFlattens(decode: Decoder, v: Value, prefix: string, out: map<string, Spec>)
    requires v.Table? && GoodKeys(v)
    ensures var r := FlattenTable(decode, v, prefix, out);
            && (r.None? <==> exists rel :: BadAt(decode, v, prefix, rel))
            && (r.Some? ==> Adds(decode, v, prefix, out, r.value))
    decreases v, 1
  {
    if !HasSubtable(v.entries) {
      LeafFlattens(decode, v, prefix, out);
    } else {
      EntriesFlatten(decode, v.entries, prefix, out);
      NodeFlattens(decode, v, prefix, out);
    }
  }

  /** A table with subtables flattens as its entries do. */
  lemma NodeFlattens(decode: Decoder, v: Value, prefix: string, out: map<string, Spec>)
    requires v.Table? && HasSubtable(v.entries)
    requires var r := FlattenEntries(decode, v.entries, prefix, out);
             && (r.None? <==> SomeScalar(v.entries) || (exists rel :: BadIn(decode, v.entries, prefix, rel)))
             && (r.Some? ==> AddsIn(decode, v.entries, prefix, out, r.value))
    ensures var r := FlattenTable(decode, v, prefix, out);
            && (r.None? <==> exists rel :: BadAt(decode, v, prefix, rel))
            && (r.Some? ==> Adds(decode, v, prefix, out, r.value))
  {
    assert !LeafAt(v, prefix, []);
    assert BadAt(decode, v, prefix, []) <==> SomeScalar(v.entries);
    forall rel
      ensures LeafAt(v, prefix, rel) <==> LeafIn(v.entries, prefix, rel)
      ensures rel != [] ==> (BadAt(decode, v, prefix, rel) <==> BadIn(decode, v.entries, prefix, rel))
    {
    }
    if rel :| BadAt(decode, v, prefix, rel) && rel != [] { assert BadIn(decode, v.entries, prefix, rel); }
    if rel :| BadIn(decode, v.entries, prefix, rel) { assert BadAt(decode, v, prefix, rel); }
    forall key
      ensures Writes(v, prefix, key) <==> WritesIn(v.entries, prefix, key)
    {
    }
    forall key, spec | WrittenIn(decode, v.entries, prefix, key, spec)
      ensures WrittenBy(decode, v, prefix, key, spec)
    {
      var rel :| LeafIn(v.entries, prefix, rel) && key == KeyFrom(prefix, rel) &&
        decode(WalkIn(v.entries, rel).value.entries) == Some(spec);
      assert LeafAt(v, prefix, rel);
    }
  }

  lemma LeafFlattens(decode: Decoder, v: Value, prefix: string, out: map<string, Spec>)
    requires v.Table? && !HasSubtable(v.entries)
    ensures var r := FlattenTable(decode, v, prefix, out);
            && (r.None? <==> exists rel :: BadAt(decode, v, prefix, rel))
            && (r.Some? ==> Adds(decode, v, prefix, out, r.value))
  {
    forall rel
      ensures LeafAt(v, prefix, rel) <==> rel == [] && prefix != ""
      ensures BadAt(decode, v, prefix, rel) <==> rel == [] && prefix != "" && decode(v.entries).None?
    {
      if rel != [] { LeafHasNothingBelow(v, rel); }
    }
    assert BadAt(decode, v, prefix, []) <==> prefix != "" && decode(v.entries).None?;
    if prefix != "" {
      assert LeafAt(v, prefix, []) && KeyFrom(prefix, []) == prefix;
    }
    forall key
      ensures Writes(v, prefix, key) <==> prefix != "" && key == prefix
    {
    }
  }

  // --- The section ---

  /** A leaf with some non-empty key on its path. */
  predicate Capability(v: Value, rel: Path) {
    Trimmed(rel) != [] && IsLeaf(Walk(v, rel))
  }

  /** The key a capability is written under. */
  function Key(rel: Path): string {
    Dotted(Trimmed(rel))
  }

  function Body(decode: Decoder, v: Value, rel: Path): Option<Spec>
    requires Capability(v, rel)
  {
    decode(Walk(v, rel).value.entries)
  }

  /** A mixed table, or a capability whose body does not decode. */
  predicate Faulty(decode: Decoder, v: Value, rel: Path) {
    IsMixed(Walk(v, rel)) || (Capability(v, rel) && Body(decode, v, rel).None?)
  }

  /**
   Flattening fails exactly on a mixed table or an undecodable capability; otherwise its keys are the
   capabilities' dotted paths without leading empty keys.
   */
  lemma FlattenExact(decode: Decoder, v: Value)
    requires v.Table? && GoodKeys(v)
    ensures var r := FlattenTable(decode, v, "", map[]);
            && (r.None? <==> exists rel :: Faulty(decode, v, rel))
            && (r.Some? ==>
                  && (forall key :: key in r.value <==> exists rel :: Capability(v, rel) && key == Key(rel))
                  && (forall key :: key in r.value ==>
                        exists rel :: Capability(v, rel) && key == Key(rel) &&
                          Body(decode, v, rel) == Some(r.value[key])))
  {
    TableFlattens(decode, v, "", map[]);
    forall rel: Path
      ensures KeyFrom("", rel) == Key(rel)
      ensures LeafAt(v, "", rel) <==> Capability(v, rel)
      ensures BadAt(decode, v, "", rel) <==> Faulty(decode, v, rel)
    {
      KeyIsTrimmed(rel);
    }
    if rel :| BadAt(decode, v, "", rel) { assert Faulty(decode, v, rel); }
    if rel :| Faulty(decode, v, rel) { assert BadAt(decode, v, "", rel); }
    forall key
      ensures Writes(v, "", key) <==> exists rel :: Capability(v, rel) && key == Key(rel)
    {
      if Writes(v, "", key) {
        var rel :| LeafAt(v, "", rel) && key == KeyFrom("", rel);
        assert Capability(v, rel) && key == Key(rel);
      }
      if rel :| Capability(v, rel) && key == Key(rel) {
        assert LeafAt(v, "", rel) && key == KeyFrom("", rel);
      }
    }
    forall key, spec | WrittenBy(decode, v, "", key, spec)
      ensures exists rel :: Capability(v, rel) && key == Key(rel) && Body(decode, v, rel) == Some(spec)
    {
      var rel :| LeafAt(v, "", rel) && key == KeyFrom("", rel) && decode(Walk(v, rel).value.entries) == Some(spec);
      assert Capability(v, rel) && key == Key(rel) && Body(decode, v, rel) == Some(spec);
    }
  }

  /** A leaf is not a capability exactly when every key on its path is empty; the section itself is such a leaf. */
  lemma SkippedIff(v: Value, rel: Path)
    requires IsLeaf(Walk(v, rel))
    ensures !Capability(v, rel) <==> forall i :: 0 <= i < |rel| ==> rel[i] == ""
  {
    TrimmedEmptyIff(rel);
  }

  /** A capability under an empty quoted key is dropped without a word, whatever its body. */
  lemma EmptyKeyDrops(decode: Decoder, leaf: Entries)
    requires !HasSubtable(leaf)
    ensures FlattenTable(decode, Table([Binding("", Table(leaf))]), "", map[]) == Some(map[])
  {
    var entries := [Binding("", Table(leaf))];
    assert entries[0].value.Table? && entries[1..] == [];
    assert HasSubtable(entries);
    assert FlattenTable(decode, Table(leaf), NextPrefix("", ""), map[]) == Some(map[]);
    assert FlattenEntries(decode, entries[1..], "", map[]) == Some(map[]);
    assert FlattenEntries(decode, entries, "", map[]) == Some(map[]);
  }

  /** Every capability keeps its own body exactly when capabilities with the same key have the same body. */
  lemma EveryBodyKeptIff(decode: Decoder, v: Value)
    requires v.Table? && GoodKeys(v) && FlattenTable(decode, v, "", map[]).Some?
    ensures var out := FlattenTable(decode, v, "", map[]).value;
            (forall rel :: Capability(v, rel) ==> Key(rel) in out && Body(decode, v, rel) == Some(out[Key(rel)])) <==>
            (forall p, q :: Capability(v, p) && Capability(v, q) && Key(p) == Key(q) ==>
              Body(decode, v, p) == Body(decode, v, q))
  {
    FlattenExact(decode, v);
  }

  lemma CapabilityIsDotFree(v: Value, rel: Path)
    requires DotFree(v) && Capability(v, rel)
    ensures DotFreePath(Trimmed(rel)) && Split(Key(rel)) == Trimmed(rel)
  {
    WalkDotFree(v, rel);
    var empty := LeadingEmpty(rel);
    assert forall i :: 0 <= i < |Trimmed(rel)| ==> Trimmed(rel)[i] == rel[|empty| + i];
    SplitDotted(Trimmed(rel));
  }

  /** With dot-free keys two capabilities share a key exactly when they differ in leading empty keys only. */
  lemma SameKeyIff(v: Value, p: Path, q: Path)
    requires DotFree(v) && Capability(v, p) && Capability(v, q)
    ensures Key(p) == Key(q) <==> Trimmed(p) == Trimmed(q)
    ensures NamedAtTop(v) ==> (Key(p) == Key(q) <==> p == q)
  {
    CapabilityIsDotFree(v, p);
    CapabilityIsDotFree(v, q);
    if NamedAtTop(v) {
      WalkNamed(v, p);
      WalkNamed(v, q);
    }
  }

  /** So with dot-free keys and no empty key at the top every capability keeps its body. */
  lemma DotFreeKeysKeepEveryBody(decode: Decoder, v: Value)
    requires v.Table? && GoodKeys(v) && DotFree(v) && FlattenTable(decode, v, "", map[]).Some?
    ensures var out := FlattenTable(decode, v, "", map[]).value;
            (forall rel :: Capability(v, rel) ==> Key(rel) in out && Body(decode, v, rel) == Some(out[Key(rel)])) <==>
            (forall p, q :: Capability(v, p) && Capability(v, q) && Trimmed(p) == Trimmed(q) ==>
              Body(decode, v, p) == Body(decode, v, q))
    ensures NamedAtTop(v) ==>
              forall rel :: Capability(v, rel) ==>
                Key(rel) in FlattenTable(decode, v, "", map[]).value &&
                Body(decode, v, rel) == Some(FlattenTable(decode, v, "", map[]).value[Key(rel)])
  {
    forall p, q | Capability(v, p) && Capability(v, q)
      ensures Key(p) == Key(q) <==> Trimmed(p) == Trimmed(q)
      ensures NamedAtTop(v) ==> (Key(p) == Key(q) <==> p == q)
    {
      SameKeyIff(v, p, q);
    }
    EveryBodyKeptIff(decode, v);
  }

  /** A quoted key with a dot can silently replace another capability. */
  lemma QuotedKeyReplaces(decode: Decoder, first: Entries, second: Entries)
    requires !HasSubtable(first) && !HasSubtable(second) && decode(first).Some? && decode(second).Some?
    requires GoodKeys(Table(first)) && GoodKeys(Table(second))
    ensures var v := Table([Binding("a", Table([Binding("b", Table(first))])), Binding("a.b", Table(second))]);
            && GoodKeys(v)
            && Capability(v, ["a", "b"]) && Body(decode, v, ["a", "b"]) == decode(first)
            && FlattenTable(decode, v, "", map[]) == Some(map["a.b" := decode(second).value])
  {
    var inner := [Binding("b", Table(first))];
    var entries := [Binding("a", Table(inner)), Binding("a.b", Table(second))];
    var v := Table(entries);
    assert entries[0].value.Table? && inner[0].value.Table?;
    assert GoodKeys(Table(inner));
    assert HasSubtable(entries) && HasSubtable(inner);
    assert inner[1..] == [] && entries[1..] == [entries[1]] && entries[1..][1..] == [];
    assert NextPrefix(NextPrefix("", "a"), "b") == "a.b" == NextPrefix("", "a.b");
    var one := map["a.b" := decode(first).value];
    assert FlattenTable(decode, Table(first), "a.b", map[]) == Some(one);
    assert FlattenEntries(decode, inner, "a", map[]) == FlattenEntries(decode, inner[1..], "a", one);
    assert FlattenTable(decode, Table(inner), "a", map[]) == Some(one);
    assert FlattenEntries(decode, entries[1..], "", one) == Some(one["a.b" := decode(second).value]);
    assert one["a.b" := decode(second).value] == map["a.b" := decode(second).value];
    assert Walk(v, ["a", "b"]) == Walk(Table(inner), ["a", "b"][1..]);
    assert ["a", "b"][1..] == ["b"] && ["b"][1..] == [];
  }

  lemma {:induction false} WalkConcat(v: Value, a: Path, b: Path)
    ensures Walk(v, a + b) == if Walk(v, a).Some? then Walk(Walk(v, a).value, b) else None
    decreases |a|
  {
    if a == [] {
      assert a + b == b;
    } else {
      assert (a + b)[1..] == a[1..] + b;
      if v.Table? && Lookup(v.entries, a[0]).Some? {
        WalkConcat(Lookup(v.entries, a[0]).value, a[1..], b);
      }
    }
  }

  lemma NothingBelowCapability(v: Value, p: Path, below: Path)
    requires Capability(v, p) && below != []
    ensures !Capability(v, p + below)
  {
    WalkConcat(v, p, below);
    LeafHasNothingBelow(Walk(v, p).value, below);
  }

  /**
   With dot-free keys one key is a dotted ancestor of another exactly when the paths are so without their
   leading empty keys; without an empty key at the top that never happens.
   */
  lemma NoDottedAncestors(decode: Decoder, v: Value, a: string, b: string)
    requires v.Table? && GoodKeys(v) && DotFree(v) && FlattenTable(decode, v, "", map[]).Some?
    requires a in FlattenTable(decode, v, "", map[]).value && b in FlattenTable(decode, v, "", map[]).value
    ensures a + "." <= b <==>
            exists p, q :: Capability(v, p) && a == Key(p) && Capability(v, q) && b == Key(q) && Trimmed(p) < Trimmed(q)
    ensures NamedAtTop(v) ==> !(a + "." <= b)
  {
    FlattenExact(decode, v);
    var p :| Capability(v, p) && a == Key(p);
    var q :| Capability(v, q) && b == Key(q);
    KeysNestIff(v, p, q);
    if p', q' :| Capability(v, p') && a == Key(p') && Capability(v, q') && b == Key(q') && Trimmed(p') < Trimmed(q') {
      KeysNestIff(v, p', q');
    }
  }

  lemma KeysNestIff(v: Value, p: Path, q: Path)
    requires DotFree(v) && Capability(v, p) && Capability(v, q)
    ensures Key(p) + "." <= Key(q) <==> Trimmed(p) < Trimmed(q)
    ensures NamedAtTop(v) ==> !(Trimmed(p) < Trimmed(q))
  {
    CapabilityIsDotFree(v, p);
    CapabilityIsDotFree(v, q);
    DottedAncestorIff(Trimmed(p), Trimmed(q));
    if NamedAtTop(v) {
      WalkNamed(v, p);
      WalkNamed(v, q);
      CapabilitiesDoNotNest(v, p, q);
    }
  }

  lemma CapabilitiesDoNotNest(v: Value, p: Path, q: Path)
    requires Capability(v, p) && Capability(v, q)
    ensures !(p < q)
  {
    if p < q {
      assert q == p + q[|p|..];
      NothingBelowCapability(v, p, q[|p|..]);
    }
  }

  /** An empty key at the top can put one key above another. */
  lemma EmptyKeyNests(decode: Decoder, first: Entries, second: Entries)
    requires !HasSubtable(first) && !HasSubtable(second) && decode(first).Some? && decode(second).Some?
    ensures var nested := Table([Binding("a", Table([Binding("b", Table(second))]))]);
            FlattenTable(decode, Table([Binding("a", Table(first)), Binding("", nested)]), "", map[]) ==
            Some(map["a" := decode(first).value, "a.b" := decode(second).value])
  {
    var b := [Binding("b", Table(second))];
    var a := [Binding("a", Table(b))];
    var entries := [Binding("a", Table(first)), Binding("", Table(a))];
    assert b[0].value.Table? && a[0].value.Table? && entries[0].value.Table?;
    assert b[1..] == [] && a[1..] == [] && entries[1..] == [entries[1]] && entries[1..][1..] == [];
    assert NextPrefix(NextPrefix("", "a"), "b") == "a.b" && NextPrefix("", "") == "";
    var one := map["a" := decode(first).value];
    var both := one["a.b" := decode(second).value];
    assert HasSubtable(b) && HasSubtable(a) && HasSubtable(entries);
    assert FlattenTable(decode, Table(first), "a", map[]) == Some(one);
    assert FlattenTable(decode, Table(second), "a.b", one) == Some(both);
    assert FlattenEntries(decode, b[1..], "a", both) == Some(both);
    assert FlattenTable(decode, Table(b), "a", one) == FlattenEntries(decode, b, "a", one) == Some(both);
    assert FlattenEntries(decode, a[1..], "", both) == Some(both);
    assert FlattenTable(decode, Table(a), "", one) == FlattenEntries(decode, a, "", one) == Some(both);
    assert FlattenEntries(decode, entries[1..][1..], "", both) == Some(both);
    assert FlattenEntries(decode, entries[1..], "", one) == Some(both);
    assert both == map["a" := decode(first).value, "a.b" := decode(second).value];
  }

  /** Every table has a leaf at or below it. */
  lemma {:induction false} LeafBelow(v: Value) returns (rel: Path)
    requires v.Table? && GoodKeys(v)
    ensures IsLeaf(Walk(v, rel))
    decreases v
  {
    if !HasSubtable(v.entries) {
      rel := [];
    } else {
      var i :| 0 <= i < |v.entries| && v.entries[i].value.Table?;
      var rest := LeafBelow(v.entries[i].value);
      LookupUnique(v.entries, i);
      rel := [v.entries[i].key] + rest;
      assert rel[1..] == rest;
    }
  }

  lemma {:induction false} LookupUnique(entries: Entries, i: nat)
    requires i < |entries|
    requires forall j, k :: 0 <= j < k < |entries| ==> entries[j].key != entries[k].key
    ensures Lookup(entries, entries[i].key) == Some(entries[i].value)
  {
    if i > 0 {
      LookupUnique(entries[1..], i - 1);
    }
  }

  /** Some path with these keys, after any leading empty ones, leads to a table. */
  ghost predicate LeadsToTable(v: Value, keys: Path) {
    exists path :: Trimmed(path) == keys && IsTable(Walk(v, path))
  }

  /** Every named table has a capability at or below it. */
  lemma TableHasCapability(v: Value, path: Path) returns (rel: Path)
    requires GoodKeys(v) && Trimmed(path) != [] && IsTable(Walk(v, path))
    ensures Capability(v, path + rel) && Trimmed(path + rel) == Trimmed(path) + rel
  {
    WalkKeysGood(v, path);
    rel := LeafBelow(Walk(v, path).value);
    WalkConcat(v, path, rel);
    TrimmedConcat(path, rel);
  }

  /** Every prefix of a capability's trimmed path leads to a table. */
  lemma PrefixLeadsToTable(v: Value, p: Path, keys: Path)
    requires Capability(v, p) && keys != [] && keys <= Trimmed(p)
    ensures LeadsToTable(v, keys)
  {
    var empty := LeadingEmpty(p);
    var rest := Trimmed(p)[|keys|..];
    assert p == (empty + keys) + rest;
    WalkConcat(v, empty + keys, rest);
    TrimmedConcat(empty, keys);
    assert Trimmed(keys) == keys;
  }

  /**
   With dot-free keys the resulting keys determine the table skeleton: a path of keys that does not begin
   with an empty one leads to a table exactly when some resulting key's segments begin with it.
   */
  lemma SkeletonFromKeys(decode: Decoder, v: Value, keys: Path)
    requires v.Table? && GoodKeys(v) && DotFree(v) && FlattenTable(decode, v, "", map[]).Some? && keys != []
    ensures keys[0] != "" ==>
              (LeadsToTable(v, keys) <==>
                 exists key :: key in FlattenTable(decode, v, "", map[]).value && keys <= Split(key))
    ensures NamedAtTop(v) ==>
              (IsTable(Walk(v, keys)) <==>
                 exists key :: key in FlattenTable(decode, v, "", map[]).value && keys <= Split(key))
  {
    FlattenExact(decode, v);
    var out := FlattenTable(decode, v, "", map[]).value;
    if path :| Trimmed(path) == keys && IsTable(Walk(v, path)) {
      var rel := TableHasCapability(v, path);
      CapabilityIsDotFree(v, path + rel);
      assert Key(path + rel) in out && keys <= Split(Key(path + rel));
    }
    if key :| key in out && keys <= Split(key) {
      var p :| Capability(v, p) && key == Key(p);
      CapabilityIsDotFree(v, p);
      PrefixLeadsToTable(v, p, keys);
    }
    if NamedAtTop(v) { NamedTables(v, keys); }
  }

  lemma NamedTables(v: Value, keys: Path)
    requires NamedAtTop(v) && keys != []
    ensures IsTable(Walk(v, keys)) <==> LeadsToTable(v, keys)
  {
    if IsTable(Walk(v, keys)) {
      WalkNamed(v, keys);
    }
    if path :| Trimmed(path) == keys && IsTable(Walk(v, path)) {
      WalkNamed(v, path);
    }
  }
}
