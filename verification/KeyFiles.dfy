/** What an edited authorized_keys file says to whoever reads it next. */
module KeyFiles {
  import opened Options
  import opened Sequences
  import opened Text
  import opened AuthorizedKeys

  // ---- what is to be read ----

  /** The options joined by commas and a blank, if there are any; the key; a blank and the trimmed comment, if there is one. */
  function Spelled(line: KeyLine): string {
    var comment := Trim(line.comment);
    var key := if comment == "" then line.blob else line.blob + " " + comment;
    if line.options == [] then key else Join(line.options, ',') + " " + key
  }

  /** A line of its own that no reader takes for a blank or a comment. */
  predicate Plain(text: string) {
    '\n' !in text && Trim(text) != "" && Trim(text)[0] != '#' && text[|text| - 1] != '\r'
  }

  /** The parser reads the spelling of a key line back into its parts. */
  predicate Understands(parse: string -> Option<KeyLine>, line: KeyLine) {
    Plain(Spelled(line)) && parse(Spelled(line)) == Some(line.(comment := Trim(line.comment)))
  }

  /** A line that ends in a carriage return of its own means the same without it. */
  predicate Settled(parse: string -> Option<KeyLine>, text: string) {
    Chop(text) == text || parse(Chop(text)) == parse(text)
  }

  ghost predicate Legible(e: Entry, parse: string -> Option<KeyLine>) {
    if e.dirty then e.kind == EntryKey && Understands(parse, e.line)
    else e == ParseLine(e.raw, parse) && '\n' !in e.raw && Settled(parse, e.raw)
  }

  ghost predicate AllLegible(f: File, parse: string -> Option<KeyLine>) {
    forall i :: 0 <= i < |f.entries| ==> Legible(f.entries[i], parse)
  }

  /** A line of the same kind, and for a key the same key with the same options and, trimmed, the same comment. */
  predicate SaysTheSame(e: Entry, g: Entry) {
    && g.kind == e.kind
    && (e.kind == EntryKey ==>
        && g.line.options == e.line.options && g.line.blob == e.line.blob && g.line.fingerprint == e.line.fingerprint
        && Trim(g.line.comment) == Trim(e.line.comment))
  }

  /** The last line ends in a newline or holds something. */
  predicate WellEnded(f: File) {
    f.entries != [] && (f.trailingNewline || f.entries[|f.entries| - 1].dirty || f.entries[|f.entries| - 1].raw != "")
  }

  // ---- line by line ----

  /** The lines as they come through the reader's newline folding. */
  function Folded(lines: seq<string>, all: bool): seq<string> {
    if lines == [] then []
    else [if |lines| > 1 || all then Chop(lines[0]) else lines[0]] + Folded(lines[1..], all)
  }

  lemma {:induction false} FoldedAt(lines: seq<string>, all: bool)
    ensures |Folded(lines, all)| == |lines|
    ensures forall i :: 0 <= i < |lines| ==> Folded(lines, all)[i] == lines[i] || Folded(lines, all)[i] == Chop(lines[i])
  {
    if lines != [] { FoldedAt(lines[1..], all); }
  }

  lemma {:induction false} UnixLines(lines: seq<string>, all: bool)
    requires lines != [] && forall i :: 0 <= i < |lines| ==> '\n' !in lines[i]
    ensures Folded(lines, all) != []
    ensures Unix(Join(lines, '\n') + if all then "\n" else "") == Join(Folded(lines, all), '\n') + if all then "\n" else ""
  {
    hide Unix, Chop;
    var tail := if all then "\n" else "";
    if |lines| == 1 {
      assert Folded(lines[1..], all) == [];
      UnixLine(lines[0], "");
      UnixWhole(lines[0]);
      EmptyUnix();
      assert lines[0] + "\n" + "" == lines[0] + "\n" && Chop(lines[0]) + "\n" + "" == Chop(lines[0]) + "\n";
      assert lines[0] + "" == lines[0];
    } else {
      var rest := Join(lines[1..], '\n');
      UnixLines(lines[1..], all);
      UnixLine(lines[0], rest + tail);
      assert Join(lines, '\n') + tail == lines[0] + "\n" + (rest + tail);
      FoldedFirst(lines, all);
      var after := Join(Folded(lines[1..], all), '\n');
      assert Chop(lines[0]) + "\n" + (after + tail) == (Chop(lines[0]) + "\n" + after) + tail;
    }
  }

  lemma FoldedFirst(lines: seq<string>, all: bool)
    requires |lines| > 1
    ensures Folded(lines, all) == [Chop(lines[0])] + Folded(lines[1..], all) && Folded(lines[1..], all) != []
    ensures Join(Folded(lines, all), '\n') == Chop(lines[0]) + "\n" + Join(Folded(lines[1..], all), '\n')
  {
    FoldedAt(lines[1..], all);
    assert Folded(lines, all)[1..] == Folded(lines[1..], all);
  }

  lemma LegibleLine(e: Entry, parse: string -> Option<KeyLine>)
    requires Legible(e, parse)
    ensures '\n' !in Line(e) && (e.dirty ==> Line(e) == Spelled(e.line) && Line(e) != "")
  {
    if e.dirty {
      RenderSpells(e);
      assert Trim("") == "";
    }
  }

  lemma RenderSpells(e: Entry)
    requires e.kind == EntryKey
    ensures Render(e) == Spelled(e.line)
  {
    hide Trim, Join;
    var comment := Trim(e.line.comment);
    if e.line.options != [] && comment != "" {
      Assoc(Commas(e.line.options) + " ", e.line.blob, " " + comment);
      Assoc(e.line.blob, " ", comment);
    }
  }

  lemma ChopEnd(s: string)
    ensures Chop(s) != s ==> s == Chop(s) + "\r"
  {}

  /** An entry is read from its line, folded or not, as what it says. */
  lemma LineReadsBack(e: Entry, text: string, parse: string -> Option<KeyLine>)
    requires Legible(e, parse) && (text == Line(e) || text == Chop(Line(e)))
    ensures SaysTheSame(e, ParseLine(text, parse))
  {
    hide Trim;
    LegibleLine(e, parse);
    if e.dirty {
      hide Spelled;
      assert Chop(Line(e)) == Line(e);
      TrimTwice(e.line.comment);
    } else {
      ChopEnd(e.raw);
      if text != e.raw { TrimCr(text); }
    }
  }

  lemma LinesOf(f: File, parse: string -> Option<KeyLine>)
    requires AllLegible(f, parse)
    ensures forall i :: 0 <= i < |Lines(f.entries)| ==> '\n' !in Lines(f.entries)[i]
  {
    hide Line, Legible;
    forall i | 0 <= i < |f.entries| ensures '\n' !in Lines(f.entries)[i] { LegibleLine(f.entries[i], parse); }
  }

  lemma {:induction false} JoinEnd(lines: seq<string>)
    requires lines != [] && lines[|lines| - 1] != "" && '\n' !in lines[|lines| - 1]
    ensures Join(lines, '\n') != "" && Join(lines, '\n')[|Join(lines, '\n')| - 1] != '\n'
  {
    if |lines| > 1 {
      JoinEnd(lines[1..]);
    } else {
      assert lines[0][|lines[0]| - 1] in lines[0];
    }
  }

  lemma LastLine(f: File, parse: string -> Option<KeyLine>)
    requires AllLegible(f, parse) && WellEnded(f) && !f.trailingNewline
    ensures Lines(f.entries)[|f.entries| - 1] != ""
  {
    hide Legible, Render, Spelled;
    LegibleLine(f.entries[|f.entries| - 1], parse);
  }

  /** What is written ends as the file does, and is split into its folded lines. */
  lemma WrittenIsLines(f: File, parse: string -> Option<KeyLine>)
    requires AllLegible(f, parse) && WellEnded(f)
    ensures var data := Written(f);
      && data != "" && (data[|data| - 1] == '\n' <==> f.trailingNewline)
      && Split(TrimNewline(Unix(data)), '\n') == Folded(Lines(f.entries), f.trailingNewline)
  {
    hide Line, Legible, AllLegible, Unix, Split, Join, Folded, TrimNewline;
    LinesOf(f, parse);
    if !f.trailingNewline { LastLine(f, parse); }
    TextIsFolded(Lines(f.entries), f.trailingNewline);
    assert Join(Lines(f.entries), '\n') + "" == Join(Lines(f.entries), '\n');
  }

  lemma TextIsFolded(lines: seq<string>, all: bool)
    requires lines != [] && (forall i :: 0 <= i < |lines| ==> '\n' !in lines[i]) && (!all ==> lines[|lines| - 1] != "")
    ensures var data := Join(lines, '\n') + if all then "\n" else "";
      && data != "" && (data[|data| - 1] == '\n' <==> all)
      && Split(TrimNewline(Unix(data)), '\n') == Folded(lines, all)
  {
    hide Unix, Split, Join, Folded, Chop;
    UnixLines(lines, all);
    FoldedUnbroken(lines, all);
    var folded := Folded(lines, all);
    SplitJoin(folded, '\n');
    if all {
      assert TrimNewline(Join(folded, '\n') + "\n") == Join(folded, '\n');
    } else {
      JoinEnd(lines);
      var data := Join(lines, '\n');
      assert data + "" == data;
      UnixEnd(data);
      assert Join(folded, '\n') + "" == Join(folded, '\n');
    }
  }

  lemma FoldedUnbroken(lines: seq<string>, all: bool)
    requires forall i :: 0 <= i < |lines| ==> '\n' !in lines[i]
    ensures forall i :: 0 <= i < |Folded(lines, all)| ==> '\n' !in Folded(lines, all)[i]
  {
    FoldedAt(lines, all);
  }

  /** A file whose entries can be read is read, after it was written, line for line as what it says. */
  lemma WrittenReadsBack(f: File, parse: string -> Option<KeyLine>, g: File)
    requires AllLegible(f, parse) && WellEnded(f) && ParsedFrom(g, Written(f), parse)
    ensures |g.entries| == |f.entries| && g.trailingNewline == f.trailingNewline
    ensures forall i :: 0 <= i < |f.entries| ==> SaysTheSame(f.entries[i], g.entries[i])
  {
    hide Written, Line, Legible, Split, Unix, Folded, Chop, ParseLine, TrimNewline, SaysTheSame, WellEnded;
    WrittenIsLines(f, parse);
    var lines := Lines(f.entries);
    FoldedAt(lines, f.trailingNewline);
    forall i | 0 <= i < |f.entries| ensures SaysTheSame(f.entries[i], g.entries[i]) {
      LineReadsBack(f.entries[i], Folded(lines, f.trailingNewline)[i], parse);
    }
  }

  // ---- after an edit ----

  /** The lines of this file text that end in a carriage return mean the same without it. */
  ghost predicate SettledText(data: string, parse: string -> Option<KeyLine>) {
    var pieces := Split(TrimNewline(Unix(data)), '\n');
    forall i :: 0 <= i < |pieces| ==> Settled(parse, pieces[i])
  }

  lemma ReadIsLegible(f: File, data: string, parse: string -> Option<KeyLine>)
    requires ParsedFrom(f, data, parse) && SettledText(data, parse)
    ensures AllLegible(f, parse)
  {
    var body := TrimNewline(Unix(data));
    SplitInverts(body, '\n');
    hide Split, Unix, Settled, Chop;
    forall i | 0 <= i < |f.entries| ensures Legible(f.entries[i], parse) {
    }
  }

  lemma {:induction false} EditsAreLegible(f: File, edits: seq<Edit>, parse: string -> Option<KeyLine>)
    requires AllLegible(f, parse)
    requires forall k :: 0 <= k < |edits| && edits[k].Put? ==> Understands(parse, edits[k].e.line)
    ensures AllLegible(DoAll(f, edits), parse)
  {
    hide Understands, ParseLine, Settled;
    if edits != [] {
      var n := |edits| - 1;
      EditsAreLegible(f, edits[..n], parse);
      assert edits[n].Put? ==> Understands(parse, edits[n].e.line);
    }
  }

  /** After any edits, what is written is read line for line as what the edited file says. */
  lemma EditsReadBack(f: File, data: string, edits: seq<Edit>, parse: string -> Option<KeyLine>, g: File)
    requires ParsedFrom(f, data, parse) && SettledText(data, parse)
    requires forall k :: 0 <= k < |edits| && edits[k].Put? ==> Understands(parse, edits[k].e.line)
    requires WellEnded(DoAll(f, edits)) && ParsedFrom(g, Written(DoAll(f, edits)), parse)
    ensures |g.entries| == |DoAll(f, edits).entries|
    ensures forall i :: 0 <= i < |g.entries| ==> SaysTheSame(DoAll(f, edits).entries[i], g.entries[i])
  {
    ReadIsLegible(f, data, parse);
    EditsAreLegible(f, edits, parse);
    WrittenReadsBack(DoAll(f, edits), parse, g);
  }

  /** The first key with this fingerprint has these options and, trimmed, this comment. */
  ghost predicate Grants(entries: seq<Entry>, fingerprint: string, options: seq<string>, comment: string) {
    exists i :: FirstAt(entries, i, fingerprint)
      && entries[i].line.options == options && Trim(entries[i].line.comment) == Trim(comment)
  }

  /**
   A key put into a file is there for whoever reads the file next: with the options and the
   comment it was put there with, and before any other line for the same key.
   */
  lemma UpsertReadsBack(f: File, data: string, e: Entry, parse: string -> Option<KeyLine>, g: File)
    requires ParsedFrom(f, data, parse) && SettledText(data, parse)
    requires e.kind == EntryKey && Understands(parse, e.line)
    requires ParsedFrom(g, Written(Upserted(f, e).0), parse)
    ensures Grants(g.entries, e.line.fingerprint, e.line.options, e.line.comment)
  {
    ReadIsLegible(f, data, parse);
    var put := Upserted(f, e).0;
    PutIsLegible(f, e, parse);
    ReadIsWellEnded(f, data, parse);
    PutIsWellEnded(f, e);
    hide Upserted, Legible, Written, Understands, ParsedFrom, SettledText, WellEnded;
    WrittenReadsBack(put, parse, g);
    UpsertTakesEffect(f, e);
    var i := Find(put.entries, e.line.fingerprint);
    forall k | 0 <= k < |put.entries| ensures IsKey(g.entries[k], e.line.fingerprint) <==> IsKey(put.entries[k], e.line.fingerprint) {
      assert SaysTheSame(put.entries[k], g.entries[k]);
    }
    assert FirstAt(g.entries, i, e.line.fingerprint);
  }

  lemma PutIsLegible(f: File, e: Entry, parse: string -> Option<KeyLine>)
    requires AllLegible(f, parse) && e.kind == EntryKey && Understands(parse, e.line)
    ensures AllLegible(Upserted(f, e).0, parse)
  {
    hide Understands, ParseLine, Settled;
  }

  lemma ReadIsWellEnded(f: File, data: string, parse: string -> Option<KeyLine>)
    requires ParsedFrom(f, data, parse)
    ensures f.entries == [] || WellEnded(f)
  {
    if data != "" && !f.trailingNewline {
      UnixEnd(data);
      var body := TrimNewline(Unix(data));
      SplitInverts(body, '\n');
      hide Split, Unix, ParseLine;
      LastPieceHolds(Split(body, '\n'));
    }
  }

  /** A text that does not end in a newline ends in a piece that is not empty. */
  lemma {:induction false} LastPieceHolds(parts: seq<string>)
    requires parts != [] && Join(parts, '\n') != "" && Join(parts, '\n')[|Join(parts, '\n')| - 1] != '\n'
    ensures parts[|parts| - 1] != ""
  {
    if |parts| > 1 {
      var rest := Join(parts[1..], '\n');
      assert Join(parts, '\n') == parts[0] + ['\n'] + rest;
      LastPieceHolds(parts[1..]);
    }
  }

  lemma PutIsWellEnded(f: File, e: Entry)
    requires e.kind == EntryKey && (f.entries == [] || WellEnded(f))
    ensures WellEnded(Upserted(f, e).0)
  {}
}
