/** The authorized_keys editor: every line it was not asked to change survives as it was. */
module AuthorizedKeys {
  import opened Options
  import opened Text

  datatype EntryKind = EntryKey | EntryComment | EntryBlank | EntryInvalid

  /** A public key line as the SSH library parses it; `blob` is the key as it would be printed. */
  datatype KeyLine = KeyLine(options: seq<string>, blob: string, comment: string, fingerprint: string)

  /** `line` matters only for keys; `dirty` entries are rendered from it instead of echoing `raw`. */
  datatype Entry = Entry(kind: EntryKind, raw: string, line: KeyLine, dirty: bool)

  const NO_LINE := KeyLine([], "", "", "")

  /** parse stands for ssh.ParseAuthorizedKey. */
  function ParseLine(text: string, parse: string -> Option<KeyLine>): (e: Entry)
    ensures e.raw == text && !e.dirty
  {
    var trimmed := Trim(text);
    if trimmed == "" then Entry(EntryBlank, text, NO_LINE, false)
    else if trimmed[0] == '#' then Entry(EntryComment, text, NO_LINE, false)
    else
      match parse(text)
      case None => Entry(EntryInvalid, text, NO_LINE, false)
      case Some(line) => Entry(EntryKey, text, line, false)
  }

  function Commas(options: seq<string>): string {
    if options == [] then "" else Join(options, ',')
  }

  function Render(e: Entry): string {
    if e.kind != EntryKey then e.raw
    else
      (if e.line.options == [] then "" else Commas(e.line.options) + " ")
      + e.line.blob
      + (if Trim(e.line.comment) == "" then "" else " " + Trim(e.line.comment))
  }

  function Line(e: Entry): string {
    if e.dirty then Render(e) else e.raw
  }

  predicate IsKey(e: Entry, fingerprint: string) {
    e.kind == EntryKey && e.line.fingerprint == fingerprint
  }

  // ---- what the edits do ----

  /** The first key with this fingerprint, or the length. */
  function Find(entries: seq<Entry>, fingerprint: string): (i: nat)
    ensures i <= |entries|
    ensures i < |entries| ==> IsKey(entries[i], fingerprint)
    ensures forall k :: 0 <= k < i ==> !IsKey(entries[k], fingerprint)
  {
    if entries == [] || IsKey(entries[0], fingerprint) then 0 else 1 + Find(entries[1..], fingerprint)
  }

  datatype File = File(entries: seq<Entry>, trailingNewline: bool)

  predicate Same(a: Entry, b: Entry) {
    a.line.options == b.line.options && a.line.comment == b.line.comment
  }

  /** The file after adding or updating a key, and whether it changed. */
  function Upserted(f: File, e: Entry): (File, bool) {
    if e.kind != EntryKey then (f, false)
    else
      var i := Find(f.entries, e.line.fingerprint);
      if i == |f.entries| then (File(f.entries + [e.(dirty := true)], true), true)
      else if Same(f.entries[i], e) then (f, false)
      else (f.(entries := f.entries[i := e.(dirty := true)]), true)
  }

  function Removed(f: File, fingerprint: string): (File, bool) {
    var i := Find(f.entries, fingerprint);
    if i == |f.entries| then (f, false) else (f.(entries := f.entries[..i] + f.entries[i + 1..]), true)
  }

  /** The lines that are not keys with one of these fingerprints, as they would be written. */
  function Untouched(entries: seq<Entry>, touched: set<string>): seq<string> {
    if entries == [] then []
    else
      var e := entries[|entries| - 1];
      Untouched(entries[..|entries| - 1], touched)
        + if e.kind == EntryKey && e.line.fingerprint in touched then [] else [Line(e)]
  }

  lemma {:induction false} UntouchedConcat(a: seq<Entry>, b: seq<Entry>, touched: set<string>)
    ensures Untouched(a + b, touched) == Untouched(a, touched) + Untouched(b, touched)
  {
    if b == [] {
      assert a + b == a;
    } else {
      var n := |b| - 1;
      UntouchedConcat(a, b[..n], touched);
      assert (a + b)[..|a| + n] == a + b[..n];
    }
  }

  lemma UntouchedOne(e: Entry, touched: set<string>)
    ensures Untouched([e], touched) == if e.kind == EntryKey && e.line.fingerprint in touched then [] else [Line(e)]
  {
    assert [e][..0] == [];
  }

  /** Dropping or replacing a touched key leaves the other lines alone. */
  lemma UntouchedAround(entries: seq<Entry>, i: nat, e: Entry, touched: set<string>)
    requires i < |entries|
    requires entries[i].kind == EntryKey && entries[i].line.fingerprint in touched
    requires e.kind == EntryKey && e.line.fingerprint in touched
    ensures Untouched(entries[..i] + entries[i + 1..], touched) == Untouched(entries, touched)
    ensures Untouched(entries[i := e], touched) == Untouched(entries, touched)
  {
    hide Line;
    var a, b := entries[..i], entries[i + 1..];
    assert entries == (a + [entries[i]]) + b && entries[i := e] == (a + [e]) + b;
    UntouchedConcat(a, b, touched);
    UntouchedConcat(a + [entries[i]], b, touched);
    UntouchedConcat(a + [e], b, touched);
    UntouchedConcat(a, [entries[i]], touched);
    UntouchedConcat(a, [e], touched);
    UntouchedOne(entries[i], touched);
    UntouchedOne(e, touched);
  }

  datatype Edit = Put(e: Entry) | Drop(fingerprint: string)

  function Do(f: File, edit: Edit): File {
    match edit
    case Put(e) => Upserted(f, e).0
    case Drop(fingerprint) => Removed(f, fingerprint).0
  }

  function DoAll(f: File, edits: seq<Edit>): File {
    if edits == [] then f else Do(DoAll(f, edits[..|edits| - 1]), edits[|edits| - 1])
  }

  function FingerprintOf(edit: Edit): string {
    match edit
    case Put(e) => e.line.fingerprint
    case Drop(fingerprint) => fingerprint
  }

  lemma EditKeepsOthers(f: File, edit: Edit, touched: set<string>)
    requires FingerprintOf(edit) in touched
    ensures Untouched(Do(f, edit).entries, touched) == Untouched(f.entries, touched)
  {
    hide Line, Untouched;
    var i := Find(f.entries, FingerprintOf(edit));
    match edit
    case Put(e) =>
      if e.kind == EntryKey {
        if i == |f.entries| {
          UntouchedConcat(f.entries, [e.(dirty := true)], touched);
          UntouchedOne(e.(dirty := true), touched);
        } else {
          UntouchedAround(f.entries, i, e.(dirty := true), touched);
        }
      }
    case Drop(_) =>
      if i < |f.entries| { UntouchedAround(f.entries, i, f.entries[i], touched); }
  }

  /**
   After any edits, the lines that are not keys with an edited fingerprint are the same bytes in
   the same order.
   */
  lemma {:induction false} EditsKeepOthers(f: File, edits: seq<Edit>, touched: set<string>)
    requires forall k :: 0 <= k < |edits| ==> FingerprintOf(edits[k]) in touched
    ensures Untouched(DoAll(f, edits).entries, touched) == Untouched(f.entries, touched)
  {
    if edits != [] {
      var n := |edits| - 1;
      EditsKeepOthers(f, edits[..n], touched);
      EditKeepsOthers(DoAll(f, edits[..n]), edits[n], touched);
    }
  }

  /** A second Upsert of the same entry finds nothing to do. */
  lemma UpsertIdempotent(f: File, e: Entry)
    ensures Upserted(Upserted(f, e).0, e) == (Upserted(f, e).0, false)
  {
    var g := Upserted(f, e).0;
    if e.kind == EntryKey {
      var i, j := Find(f.entries, e.line.fingerprint), Find(g.entries, e.line.fingerprint);
      assert i < |g.entries| && IsKey(g.entries[i], e.line.fingerprint);
      assert forall k :: 0 <= k < i ==> g.entries[k] == f.entries[k];
      assert j == i;
    }
  }

  /** Afterwards the first key with that fingerprint carries the options and comment asked for. */
  lemma UpsertTakesEffect(f: File, e: Entry)
    requires e.kind == EntryKey
    ensures var g := Upserted(f, e).0; var i := Find(g.entries, e.line.fingerprint);
      i < |g.entries| && Same(g.entries[i], e)
  {
    UpsertIdempotent(f, e);
  }

  function Count(entries: seq<Entry>, fingerprint: string): nat {
    if entries == [] then 0
    else Count(entries[..|entries| - 1], fingerprint) + if IsKey(entries[|entries| - 1], fingerprint) then 1 else 0
  }

  lemma {:induction false} CountConcat(a: seq<Entry>, b: seq<Entry>, fingerprint: string)
    ensures Count(a + b, fingerprint) == Count(a, fingerprint) + Count(b, fingerprint)
  {
    if b == [] {
      assert a + b == a;
    } else {
      var n := |b| - 1;
      CountConcat(a, b[..n], fingerprint);
      assert (a + b)[..|a| + n] == a + b[..n];
    }
  }

  /** Remove takes out one line, the first; a duplicate stays. */
  lemma RemoveTakesOne(f: File, fingerprint: string)
    ensures var (g, changed) := Removed(f, fingerprint);
      && (changed <==> Count(f.entries, fingerprint) > 0)
      && Count(g.entries, fingerprint) == if changed then Count(f.entries, fingerprint) - 1 else 0
  {
    hide IsKey, Find, Count;
    var i := Find(f.entries, fingerprint);
    NoneBefore(f.entries, i, fingerprint);
    if i < |f.entries| {
      CountAround(f.entries, i, fingerprint);
      CountConcat(f.entries[..i], f.entries[i + 1..], fingerprint);
    } else {
      assert f.entries[..i] == f.entries;
    }
  }

  lemma CountAround(entries: seq<Entry>, i: nat, fingerprint: string)
    requires i < |entries|
    ensures Count(entries, fingerprint)
      == Count(entries[..i], fingerprint) + (if IsKey(entries[i], fingerprint) then 1 else 0) + Count(entries[i + 1..], fingerprint)
  {
    var a, e, b := entries[..i], entries[i], entries[i + 1..];
    CountSnoc(a, e, fingerprint);
    hide Count, IsKey;
    assert entries == (a + [e]) + b;
    CountConcat(a + [e], b, fingerprint);
  }

  lemma CountSnoc(a: seq<Entry>, e: Entry, fingerprint: string)
    ensures Count(a + [e], fingerprint) == Count(a, fingerprint) + if IsKey(e, fingerprint) then 1 else 0
  {
    assert (a + [e])[..|a|] == a;
  }

  lemma {:induction false} NoneBefore(entries: seq<Entry>, i: nat, fingerprint: string)
    requires i <= |entries| && forall k :: 0 <= k < i ==> !IsKey(entries[k], fingerprint)
    ensures Count(entries[..i], fingerprint) == 0
  {
    if i > 0 {
      NoneBefore(entries, i - 1, fingerprint);
      assert entries[..i][..i - 1] == entries[..i - 1];
    }
  }

  // ---- reading and writing ----

  function TrimNewline(s: string): string {
    if s != "" && s[|s| - 1] == '\n' then s[..|s| - 1] else s
  }

  function Lines(entries: seq<Entry>): seq<string> {
    seq(|entries|, i requires 0 <= i < |entries| => Line(entries[i]))
  }

  /** The file as it is written. */
  function Written(f: File): string {
    if f.entries == [] then "" else Join(Lines(f.entries), '\n') + if f.trailingNewline then "\n" else ""
  }

  ghost predicate ParsedFrom(f: File, data: string, parse: string -> Option<KeyLine>) {
    && f.trailingNewline == (data != "" && data[|data| - 1] == '\n')
    && if data == "" then f.entries == []
       else
         var pieces := Split(TrimNewline(Unix(data)), '\n');
         |f.entries| == |pieces| && forall i :: 0 <= i < |pieces| ==> f.entries[i] == ParseLine(pieces[i], parse)
  }

  lemma {:induction false} UnixEnd(s: string)
    requires s != ""
    ensures Unix(s) != "" && Unix(s)[|Unix(s)| - 1] == s[|s| - 1]
    decreases |s|
  {
    if |s| >= 2 {
      if s[0] == '\r' && s[1] == '\n' {
        if s[2..] != "" { UnixEnd(s[2..]); }
      } else {
        UnixEnd(s[1..]);
      }
    }
  }

  lemma EmptyUnix()
    ensures Unix("") == ""
  {}

  /** What is read and not edited is written back as it was, with CRLF as LF. */
  lemma ReadWrite(f: File, data: string, parse: string -> Option<KeyLine>)
    requires ParsedFrom(f, data, parse)
    ensures Written(f) == Unix(data)
  {
    hide ParseLine, Split, Join, Unix;
    if data == "" {
      EmptyUnix();
    } else {
      var body := TrimNewline(Unix(data));
      UnixEnd(data);
      SplitInverts(body, '\n');
      assert Lines(f.entries) == Split(body, '\n');
    }
  }

  lemma KindsOf(entries: seq<Entry>, parse: string -> Option<KeyLine>)
    requires forall i :: 0 <= i < |entries| ==> entries[i] == ParseLine(entries[i].raw, parse)
    ensures forall i :: 0 <= i < |entries| ==>
      var text := Trim(entries[i].raw);
      && !entries[i].dirty
      && (entries[i].kind == EntryBlank <==> text == "")
      && (entries[i].kind == EntryComment <==> text != "" && text[0] == '#')
      && (entries[i].kind == EntryKey ==> parse(entries[i].raw) == Some(entries[i].line))
      && (entries[i].kind == EntryInvalid ==> parse(entries[i].raw) == None)
  {
    hide Trim;
  }

  /** The first line for the key, if there is one. */
  predicate FirstAt(entries: seq<Entry>, i: int, fingerprint: string) {
    && 0 <= i < |entries| && entries[i].kind == EntryKey && entries[i].line.fingerprint == fingerprint
    && forall k :: 0 <= k < i ==> entries[k].kind != EntryKey || entries[k].line.fingerprint != fingerprint
  }

  lemma FindIsFirst(entries: seq<Entry>, fingerprint: string)
    ensures forall i :: FirstAt(entries, i, fingerprint) <==> i == Find(entries, fingerprint) && i < |entries|
  {}

  class Editor {
    var entries: seq<Entry>
    var trailingNewline: bool

    function Contents(): File
      reads this
    {
      File(entries, trailingNewline)
    }

    constructor Parse(data: string, parse: string -> Option<KeyLine>)
      ensures ParsedFrom(Contents(), data, parse)
      ensures forall i :: 0 <= i < |entries| ==>
        var text := Trim(entries[i].raw);
        && !entries[i].dirty
        && (entries[i].kind == EntryBlank <==> text == "")
        && (entries[i].kind == EntryComment <==> text != "" && text[0] == '#')
        && (entries[i].kind == EntryKey ==> parse(entries[i].raw) == Some(entries[i].line))
        && (entries[i].kind == EntryInvalid ==> parse(entries[i].raw) == None)
    {
      trailingNewline := data != "" && data[|data| - 1] == '\n';
      entries := [];
      new;
      if data == "" {
        return;
      }
      hide ParseLine, Split;
      var pieces := Split(TrimNewline(Unix(data)), '\n');
      for i := 0 to |pieces|
        invariant |entries| == i && trailingNewline == (data[|data| - 1] == '\n')
        invariant forall k :: 0 <= k < i ==> entries[k] == ParseLine(pieces[k], parse)
      {
        entries := entries + [ParseLine(pieces[i], parse)];
      }
      forall i | 0 <= i < |entries| ensures entries[i] == ParseLine(entries[i].raw, parse) {}
      KindsOf(entries, parse);
    }

    method Bytes() returns (out: string)
      ensures out == Written(Contents())
    {
      out := "";
      for i := 0 to |entries|
        invariant i == 0 ==> out == ""
        invariant i > 0 ==> out == Join(Lines(entries[..i]), '\n')
      {
        if i > 0 {
          out := out + "\n";
          JoinSnoc(Lines(entries[..i]), Line(entries[i]), '\n');
        }
        assert Lines(entries[..i + 1]) == Lines(entries[..i]) + [Line(entries[i])];
        out := out + Line(entries[i]);
      }
      assert entries[..|entries|] == entries;
      if |entries| > 0 && trailingNewline {
        out := out + "\n";
      }
    }

    method IndexOf(fingerprint: string) returns (i: int)
      ensures i == if Find(entries, fingerprint) == |entries| then -1 else Find(entries, fingerprint)
    {
      i := 0;
      while i < |entries|
        invariant 0 <= i <= |entries| && forall k :: 0 <= k < i ==> !IsKey(entries[k], fingerprint)
      {
        if IsKey(entries[i], fingerprint) {
          return;
        }
        i := i + 1;
      }
      return -1;
    }

    method Upsert(e: Entry) returns (changed: bool)
      modifies this
      ensures (Contents(), changed) == Upserted(old(Contents()), e)
      ensures changed <==> e.kind == EntryKey && forall i :: FirstAt(old(entries), i, e.line.fingerprint) ==>
        old(entries)[i].line.options != e.line.options || old(entries)[i].line.comment != e.line.comment
    {
      FindIsFirst(entries, e.line.fingerprint);
      hide FirstAt, Find;
      if e.kind != EntryKey {
        return false;
      }
      var i := IndexOf(e.line.fingerprint);
      if i < 0 {
        entries := entries + [e.(dirty := true)];
        trailingNewline := true;
        return true;
      }
      var same := EqualOptions(entries[i].line.options, e.line.options);
      if same && entries[i].line.comment == e.line.comment {
        return false;
      }
      entries := entries[i := e.(dirty := true)];
      return true;
    }

    method Remove(fingerprint: string) returns (changed: bool)
      modifies this
      ensures (Contents(), changed) == Removed(old(Contents()), fingerprint)
      ensures forall i :: FirstAt(old(entries), i, fingerprint) ==> changed && entries == old(entries)[..i] + old(entries)[i + 1..]
      ensures (forall i :: !FirstAt(old(entries), i, fingerprint)) ==> !changed && entries == old(entries)
    {
      FindIsFirst(entries, fingerprint);
      hide FirstAt, Find;
      var i := IndexOf(fingerprint);
      if i < 0 {
        return false;
      }
      assert FirstAt(entries, i, fingerprint);
      entries := entries[..i] + entries[i + 1..];
      return true;
    }
  }

  lemma {:induction false} JoinSnoc(parts: seq<string>, last: string, c: char)
    requires parts != []
    ensures Join(parts + [last], c) == Join(parts, c) + [c] + last
  {
    if |parts| > 1 {
      JoinSnoc(parts[1..], last, c);
      assert (parts + [last])[1..] == parts[1..] + [last];
    } else {
      assert (parts + [last])[1..] == [last];
    }
  }

  method EqualOptions(a: seq<string>, b: seq<string>) returns (same: bool)
    ensures same == (a == b)
  {
    if |a| != |b| {
      return false;
    }
    for i := 0 to |a|
      invariant forall k :: 0 <= k < i ==> a[k] == b[k]
    {
      if a[i] != b[i] {
        return false;
      }
    }
    return true;
  }
}
