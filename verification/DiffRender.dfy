/** The text of a diff, and that it is read as what it shows. */
module DiffRender {
  import opened Options
  import opened Sequences
  import opened Text
  import opened Numerals
  import opened DiffLcs
  import opened DiffHunks
  import opened DiffReader

  /** @@ -oldStart,oldCount +newStart,newCount @@, then the operations. */
  datatype Hunk = Hunk(oldStart: nat, oldCount: nat, newStart: nat, newCount: nat, ops: seq<Op<string>>)

  function Bodies(hunks: seq<Hunk>): seq<seq<Op<string>>> {
    seq(|hunks|, i requires 0 <= i < |hunks| => hunks[i].ops)
  }

  ghost predicate Headed(h: Hunk) {
    && h.ops != []
    && h.oldStart == h.ops[0].oldLine + 1 && h.newStart == h.ops[0].newLine + 1
    && h.oldCount == |Olds(h.ops)| && h.newCount == |News(h.ops)|
  }

  function Mark(k: Kind): char {
    match k case Equal => ' ' case Delete => '-' case Insert => '+'
  }

  function Body(ops: seq<Op<string>>): string {
    if ops == [] then ""
    else var o := ops[|ops| - 1]; Body(ops[..|ops| - 1]) + [Mark(o.kind)] + o.text + "\n"
  }

  function Rendered(h: Hunk): string {
    "@@ -" + Decimal(h.oldStart) + "," + Decimal(h.oldCount) + " +" + Decimal(h.newStart) + "," + Decimal(h.newCount) + " @@\n"
      + Body(h.ops)
  }

  function AllRendered(hunks: seq<Hunk>): string {
    if hunks == [] then "" else AllRendered(hunks[..|hunks| - 1]) + Rendered(hunks[|hunks| - 1])
  }

  /** The two labels and every hunk; nothing at all without hunks. */
  function DiffText(hunks: seq<Hunk>, oldLabel: string, newLabel: string): string {
    if hunks == [] then "" else "--- " + oldLabel + "\n+++ " + newLabel + "\n" + AllRendered(hunks)
  }

  // ---- the text, line by line ----

  function Terminated(lines: seq<string>): string {
    if lines == [] then "" else lines[0] + "\n" + Terminated(lines[1..])
  }

  lemma {:induction false} TerminatedConcat(a: seq<string>, b: seq<string>)
    ensures Terminated(a + b) == Terminated(a) + Terminated(b)
  {
    if a == [] {
      assert a + b == b;
    } else {
      TerminatedConcat(a[1..], b);
      assert (a + b)[1..] == a[1..] + b;
    }
  }

  lemma TerminatedOne(line: string)
    ensures Terminated([line]) == line + "\n"
  {}

  lemma TerminatedFirst(lines: seq<string>)
    requires lines != []
    ensures Terminated(lines) == lines[0] + "\n" + Terminated(lines[1..])
  {}

  lemma SplitAfter(x: string, rest: string)
    requires '\n' !in x
    ensures Split(x + "\n" + rest, '\n') == [x] + Split(rest, '\n')
  {
    hide Split;
    var s := x + "\n" + rest;
    assert s[..|x|] == x && s[|x| + 1..] == rest;
    SplitAt(s, '\n', |x|);
  }

  lemma {:induction false} SplitTerminated(lines: seq<string>)
    requires forall k :: 0 <= k < |lines| ==> '\n' !in lines[k]
    ensures Split(Terminated(lines), '\n') == lines + [""]
  {
    if lines == [] {
      SplitWhole("", '\n');
    } else {
      SplitTerminated(lines[1..]);
      SplitAfter(lines[0], Terminated(lines[1..]));
      TerminatedFirst(lines);
      hide Split, Terminated;
      Assoc([lines[0]], lines[1..], [""]);
      assert lines == [lines[0]] + lines[1..];
    }
  }

  function HeaderLine(h: Hunk): string {
    "@@ -" + Decimal(h.oldStart) + "," + Decimal(h.oldCount) + " +" + Decimal(h.newStart) + "," + Decimal(h.newCount) + " @@"
  }

  function BodyLines(ops: seq<Op<string>>): seq<string> {
    if ops == [] then []
    else var o := ops[|ops| - 1]; BodyLines(ops[..|ops| - 1]) + [[Mark(o.kind)] + o.text]
  }

  function HunkLines(hunks: seq<Hunk>): seq<string> {
    if hunks == [] then []
    else var h := hunks[|hunks| - 1]; HunkLines(hunks[..|hunks| - 1]) + [HeaderLine(h)] + BodyLines(h.ops)
  }

  lemma {:induction false} BodyIsLines(ops: seq<Op<string>>)
    ensures Body(ops) == Terminated(BodyLines(ops))
  {
    if ops != [] {
      var n := |ops| - 1;
      BodyIsLines(ops[..n]);
      TerminatedConcat(BodyLines(ops[..n]), [[Mark(ops[n].kind)] + ops[n].text]);
      TerminatedOne([Mark(ops[n].kind)] + ops[n].text);
      hide Terminated, Mark;
      Assoc(Body(ops[..n]), [Mark(ops[n].kind)] + ops[n].text, "\n");
      Assoc(Body(ops[..n]), [Mark(ops[n].kind)], ops[n].text);
    }
  }

  lemma RenderedIsLines(h: Hunk)
    ensures Rendered(h) == Terminated([HeaderLine(h)] + BodyLines(h.ops))
  {
    BodyIsLines(h.ops);
    TerminatedConcat([HeaderLine(h)], BodyLines(h.ops));
    TerminatedOne(HeaderLine(h));
    hide Terminated, Body, BodyLines;
    assert HeaderLine(h) + "\n" == "@@ -" + Decimal(h.oldStart) + "," + Decimal(h.oldCount) + " +" + Decimal(h.newStart) + ","
      + Decimal(h.newCount) + " @@\n";
  }

  lemma {:induction false} AllIsLines(hunks: seq<Hunk>)
    ensures AllRendered(hunks) == Terminated(HunkLines(hunks))
  {
    if hunks != [] {
      var n := |hunks| - 1;
      AllIsLines(hunks[..n]);
      RenderedIsLines(hunks[n]);
      hide Rendered, Terminated, HeaderLine, BodyLines;
      TerminatedConcat(HunkLines(hunks[..n]), [HeaderLine(hunks[n])] + BodyLines(hunks[n].ops));
      Assoc(HunkLines(hunks[..n]), [HeaderLine(hunks[n])], BodyLines(hunks[n].ops));
    }
  }

  // ---- no line is broken ----

  ghost predicate Unbroken(ops: seq<Op<string>>) {
    forall k :: 0 <= k < |ops| ==> '\n' !in ops[k].text
  }

  lemma {:induction false} BodyUnbroken(ops: seq<Op<string>>)
    requires Unbroken(ops)
    ensures forall k :: 0 <= k < |BodyLines(ops)| ==> '\n' !in BodyLines(ops)[k]
  {
    if ops != [] { BodyUnbroken(ops[..|ops| - 1]); }
  }

  lemma HeaderUnbroken(h: Hunk)
    ensures '\n' !in HeaderLine(h)
  {
    NotInDecimal(h.oldStart, '\n');
    NotInDecimal(h.oldCount, '\n');
    NotInDecimal(h.newStart, '\n');
    NotInDecimal(h.newCount, '\n');
    hide Decimal;
  }

  lemma {:induction false} LinesUnbroken(hunks: seq<Hunk>)
    requires forall k :: 0 <= k < |hunks| ==> Unbroken(hunks[k].ops)
    ensures forall k :: 0 <= k < |HunkLines(hunks)| ==> '\n' !in HunkLines(hunks)[k]
  {
    if hunks != [] {
      var n := |hunks| - 1;
      LinesUnbroken(hunks[..n]);
      HeaderUnbroken(hunks[n]);
      BodyUnbroken(hunks[n].ops);
      hide HeaderLine, BodyLines, Unbroken;
    }
  }

  // ---- a hunk is read as it was written ----

  function ShownOf(h: Hunk): Shown {
    Shown(h.oldStart, h.oldCount, h.newStart, h.newCount, Olds(h.ops), News(h.ops))
  }

  function AllShown(hunks: seq<Hunk>): seq<Shown> {
    seq(|hunks|, i requires 0 <= i < |hunks| => ShownOf(hunks[i]))
  }

  lemma RangeIsRead(n: nat, m: nat)
    ensures ReadRange(Decimal(n) + "," + Decimal(m)) == Some((n, m))
    ensures ' ' !in Decimal(n) + "," + Decimal(m)
  {
    var s := Decimal(n) + "," + Decimal(m);
    ValueOfDecimal(n);
    ValueOfDecimal(m);
    NotInDecimal(n, ',');
    NotInDecimal(n, ' ');
    NotInDecimal(m, ' ');
    hide Decimal, Digits, Value, Index, Cut;
    var i := |Decimal(n)|;
    assert s[..i] == Decimal(n) && s[i + 1..] == Decimal(m);
    CutAt(s, i, ',');
  }

  lemma HeaderIsRead(h: Hunk)
    ensures HeaderLine(h) != "" && HeaderLine(h)[0] == '@'
    ensures ReadHeader(HeaderLine(h)) == Some(Shown(h.oldStart, h.oldCount, h.newStart, h.newCount, [], []))
  {
    var was, now := Decimal(h.oldStart) + "," + Decimal(h.oldCount), Decimal(h.newStart) + "," + Decimal(h.newCount);
    RangeIsRead(h.oldStart, h.oldCount);
    RangeIsRead(h.newStart, h.newCount);
    HeaderShape(Decimal(h.oldStart), Decimal(h.oldCount), Decimal(h.newStart), Decimal(h.newCount));
    var line := HeaderLine(h);
    hide Decimal, Cut, ReadRange, Digits, Value;
    assert line == "@@ -" + (was + " " + ("+" + now + " @@"));
    hide HeaderLine;
    CutAfter(was, ' ', "+" + now + " @@");
    CutAfter(now, ' ', "@@");
    HeaderParts(line, was, now);
  }

  lemma HeaderShape(a: string, b: string, c: string, d: string)
    ensures "@@ -" + a + "," + b + " +" + c + "," + d + " @@"
      == "@@ -" + ((a + "," + b) + " " + ("+" + (c + "," + d) + " @@"))
  {
    var x, y := a + "," + b, c + "," + d;
    Assoc("@@ -", a, ",");
    Assoc("@@ -", a + ",", b);
    Assoc("@@ -" + x + " +", c, ",");
    Assoc("@@ -" + x + " +", c + ",", d);
    assert "@@ -" + a + "," + b == "@@ -" + x;
    assert "@@ -" + x + " +" + c + "," + d == "@@ -" + x + " +" + y;
    Flat(x, y);
  }

  lemma Flat(x: string, y: string)
    ensures "@@ -" + x + " +" + y + " @@" == "@@ -" + (x + " " + ("+" + y + " @@"))
  {}

  lemma HeaderParts(line: string, was: string, now: string)
    requires line == "@@ -" + (was + " " + ("+" + now + " @@"))
    ensures "@@ -" <= line && line[4..] == was + " " + ("+" + now + " @@")
    ensures ("+" + now + " @@")[1..] == now + " " + "@@"
  {}

  lemma LineIsRead(lines: seq<string>, before: seq<Shown>, h: Shown, o: Op<string>)
    requires ReadLines(lines) == Some(before + [h])
    ensures ReadLines(lines + [[Mark(o.kind)] + o.text]) == Some(before + [h.(
      olds := h.olds + (if o.kind == Insert then [] else [o.text]), news := h.news + (if o.kind == Delete then [] else [o.text]))])
  {
    var line := [Mark(o.kind)] + o.text;
    assert line[1..] == o.text;
    MarkIsRead(h, o);
    hide WithLine, Mark;
    NextLine(lines, before, h, line);
  }

  lemma MarkIsRead(h: Shown, o: Op<string>)
    ensures var line := [Mark(o.kind)] + o.text; line[0] != '@' && WithLine(h, line) == Some(h.(
      olds := h.olds + (if o.kind == Insert then [] else [o.text]), news := h.news + (if o.kind == Delete then [] else [o.text])))
  {
    var line := [Mark(o.kind)] + o.text;
    assert line[1..] == o.text;
    assert h.olds + [] == h.olds && h.news + [] == h.news;
  }

  lemma NextLine(lines: seq<string>, before: seq<Shown>, h: Shown, line: string)
    requires ReadLines(lines) == Some(before + [h]) && line != "" && line[0] != '@' && WithLine(h, line).Some?
    ensures ReadLines(lines + [line]) == Some(before + [WithLine(h, line).value])
  {
    hide WithLine;
    var all := lines + [line];
    assert all[..|all| - 1] == lines && all[|all| - 1] == line;
    var hunks := before + [h];
    assert hunks[..|hunks| - 1] == before && hunks[|hunks| - 1] == h;
    assert ReadLines(all) == Some(hunks[..|hunks| - 1] + [WithLine(h, line).value]);
  }

  lemma NextHeader(lines: seq<string>, before: seq<Shown>, h: Shown, line: string)
    requires ReadLines(lines) == Some(before) && line != "" && line[0] == '@' && ReadHeader(line) == Some(h)
    ensures ReadLines(lines + [line]) == Some(before + [h])
  {
    hide ReadHeader;
    var all := lines + [line];
    assert all[..|all| - 1] == lines && all[|all| - 1] == line;
  }

  lemma {:induction false} BodyIsRead(lines: seq<string>, before: seq<Shown>, h: Shown, ops: seq<Op<string>>)
    requires ReadLines(lines) == Some(before + [h]) && h.olds == [] && h.news == []
    ensures ReadLines(lines + BodyLines(ops)) == Some(before + [h.(olds := Olds(ops), news := News(ops))])
  {
    if ops == [] {
      assert lines + BodyLines(ops) == lines;
    } else {
      var n := |ops| - 1;
      var o := ops[n];
      BodyIsRead(lines, before, h, ops[..n]);
      LineIsRead(lines + BodyLines(ops[..n]), before, h.(olds := Olds(ops[..n]), news := News(ops[..n])), o);
      hide ReadLines, Mark;
      Assoc(lines, BodyLines(ops[..n]), [[Mark(o.kind)] + o.text]);
    }
  }

  lemma HunkIsRead(lines: seq<string>, before: seq<Shown>, h: Hunk)
    requires ReadLines(lines) == Some(before)
    ensures ReadLines(lines + [HeaderLine(h)] + BodyLines(h.ops)) == Some(before + [ShownOf(h)])
  {
    HeaderIsRead(h);
    hide HeaderLine, ReadHeader, ReadLines, BodyLines, Olds, News;
    var open := Shown(h.oldStart, h.oldCount, h.newStart, h.newCount, [], []);
    NextHeader(lines, before, open, HeaderLine(h));
    BodyIsRead(lines + [HeaderLine(h)], before, open, h.ops);
  }

  lemma AllShownLast(hunks: seq<Hunk>)
    requires hunks != []
    ensures AllShown(hunks) == AllShown(hunks[..|hunks| - 1]) + [ShownOf(hunks[|hunks| - 1])]
  {
    hide ShownOf;
  }

  lemma {:induction false} LinesAreRead(hunks: seq<Hunk>)
    ensures ReadLines(HunkLines(hunks)) == Some(AllShown(hunks))
  {
    if hunks == [] {
      assert AllShown(hunks) == [];
    } else {
      hide ReadLines, HeaderLine, BodyLines, ShownOf, AllShown;
      var n := |hunks| - 1;
      LinesAreRead(hunks[..n]);
      HunkIsRead(HunkLines(hunks[..n]), AllShown(hunks[..n]), hunks[n]);
      AllShownLast(hunks);
    }
  }

  /** The text of a diff is read as its hunks. */
  lemma TextIsRead(hunks: seq<Hunk>, oldLabel: string, newLabel: string)
    requires hunks != [] && forall k :: 0 <= k < |hunks| ==> Unbroken(hunks[k].ops)
    ensures ReadDiff(DiffText(hunks, oldLabel, newLabel), oldLabel, newLabel) == Some(AllShown(hunks))
  {
    hide AllRendered, HunkLines, Terminated, Split, ReadLines, AllShown, Unbroken;
    var labels := "--- " + oldLabel + "\n+++ " + newLabel + "\n";
    var text := DiffText(hunks, oldLabel, newLabel);
    AllIsLines(hunks);
    LinesUnbroken(hunks);
    SplitTerminated(HunkLines(hunks));
    LinesAreRead(hunks);
    assert text == labels + AllRendered(hunks) && text[|labels|..] == AllRendered(hunks);
    assert (HunkLines(hunks) + [""])[..|HunkLines(hunks)|] == HunkLines(hunks);
  }

  // ---- applying what was read ----

  /** Hunks with true headers are applied alike from their text and from their operations. */
  lemma {:induction false} ShownApplies(lines: seq<string>, hunks: seq<Hunk>)
    requires forall k :: 0 <= k < |hunks| ==> Headed(hunks[k])
    requires Apply(lines, Bodies(hunks)).Some?
    ensures var p := Apply(lines, Bodies(hunks)).value; ApplyShown(lines, AllShown(hunks)) == Some(Patching(p.pos, p.out))
  {
    if hunks != [] {
      var n := |hunks| - 1;
      assert Bodies(hunks)[..n] == Bodies(hunks[..n]) && AllShown(hunks)[..n] == AllShown(hunks[..n]);
      hide Headed;
      ApplyBefore(lines, Bodies(hunks));
      ShownApplies(lines, hunks[..n]);
      OneMoreApplies(lines, hunks, n);
    }
  }

  lemma ApplyBefore(lines: seq<string>, hunks: seq<seq<Op<string>>>)
    requires hunks != [] && Apply(lines, hunks).Some?
    ensures Apply(lines, hunks[..|hunks| - 1]).Some?
  {}

  lemma OneMoreApplies(lines: seq<string>, hunks: seq<Hunk>, n: nat)
    requires |hunks| == n + 1 && Headed(hunks[n])
    requires Bodies(hunks)[..n] == Bodies(hunks[..n]) && AllShown(hunks)[..n] == AllShown(hunks[..n])
    requires Apply(lines, Bodies(hunks)).Some? && Apply(lines, Bodies(hunks[..n])).Some?
    requires var p := Apply(lines, Bodies(hunks[..n])).value; ApplyShown(lines, AllShown(hunks[..n])) == Some(Patching(p.pos, p.out))
    ensures var p := Apply(lines, Bodies(hunks)).value; ApplyShown(lines, AllShown(hunks)) == Some(Patching(p.pos, p.out))
  {
    hide Olds, News;
    assert Bodies(hunks)[n] == hunks[n].ops && AllShown(hunks)[n] == ShownOf(hunks[n]);
  }
}
