/** How a unified diff is read and applied, from its text alone. */
module DiffReader {
  import opened Options
  import opened Text
  import opened Numerals

  /** A hunk as it is read: its header, and the two sides of its body. */
  datatype Shown = Shown(oldStart: nat, oldCount: nat, newStart: nat, newCount: nat, olds: seq<string>, news: seq<string>)

  function ReadRange(s: string): Option<(nat, nat)> {
    match Cut(s, ',')
    case None => None
    case Some((start, count)) =>
      match (Numeral(start), Numeral(count))
      case (Some(n), Some(m)) => Some((n, m))
      case _ => None
  }

  /** @@ -start,count +start,count @@ */
  function ReadHeader(line: string): Option<Shown> {
    if !("@@ -" <= line) then None
    else
      match Cut(line[4..], ' ')
      case None => None
      case Some((before, rest)) =>
        if rest == "" || rest[0] != '+' then None
        else
          match Cut(rest[1..], ' ')
          case None => None
          case Some((after, end)) =>
            if end != "@@" then None
            else
              match (ReadRange(before), ReadRange(after))
              case (Some(a), Some(b)) => Some(Shown(a.0, a.1, b.0, b.1, [], []))
              case _ => None
  }

  /** A line that starts with a blank or '-' is on the old side, one that starts with a blank or '+' on the new. */
  function WithLine(h: Shown, line: string): Option<Shown>
    requires line != ""
  {
    if line[0] == ' ' then Some(h.(olds := h.olds + [line[1..]], news := h.news + [line[1..]]))
    else if line[0] == '-' then Some(h.(olds := h.olds + [line[1..]]))
    else if line[0] == '+' then Some(h.(news := h.news + [line[1..]]))
    else None
  }

  /** Header lines open a hunk; every other line belongs to the hunk that is open. */
  function ReadLines(lines: seq<string>): Option<seq<Shown>> {
    if lines == [] then Some([])
    else
      var last := lines[|lines| - 1];
      match ReadLines(lines[..|lines| - 1])
      case None => None
      case Some(hunks) =>
        if last == "" then None
        else if last[0] == '@' then
          match ReadHeader(last)
          case None => None
          case Some(h) => Some(hunks + [h])
        else if hunks == [] then None
        else
          match WithLine(hunks[|hunks| - 1], last)
          case None => None
          case Some(h) => Some(hunks[..|hunks| - 1] + [h])
  }

  /** The two label lines, then the hunks, every line ended by a newline. */
  function ReadDiff(text: string, oldLabel: string, newLabel: string): Option<seq<Shown>> {
    var labels := "--- " + oldLabel + "\n+++ " + newLabel + "\n";
    if !(labels <= text) then None
    else
      var lines := Split(text[|labels|..], '\n');
      if lines[|lines| - 1] != "" then None else ReadLines(lines[..|lines| - 1])
  }

  datatype Patching = Patching(pos: nat, out: seq<string>)

  /** The counts are those of the body, both starts are where the patch stands, and the old side is there. */
  function ApplyShown(lines: seq<string>, hunks: seq<Shown>): (r: Option<Patching>)
    ensures r.Some? ==> r.value.pos <= |lines|
  {
    if hunks == [] then Some(Patching(0, []))
    else
      match ApplyShown(lines, hunks[..|hunks| - 1])
      case None => None
      case Some(p) =>
        var h := hunks[|hunks| - 1];
        var start, end := h.oldStart - 1, h.oldStart - 1 + h.oldCount;
        if p.pos <= start && end <= |lines| && h.oldCount == |h.olds| && h.newCount == |h.news|
           && lines[start..end] == h.olds && |p.out| + start - p.pos == h.newStart - 1
        then Some(Patching(end, p.out + lines[p.pos..start] + h.news)) else None
  }

  /** The lines after the patch. */
  function PatchShown(lines: seq<string>, hunks: seq<Shown>): Option<seq<string>> {
    match ApplyShown(lines, hunks)
    case None => None
    case Some(p) => Some(p.out + lines[p.pos..])
  }

  /** What reading and applying a diff makes of these lines. */
  function ReadAndApply(text: string, oldLabel: string, newLabel: string, lines: seq<string>): Option<seq<string>> {
    match ReadDiff(text, oldLabel, newLabel)
    case None => None
    case Some(hunks) => PatchShown(lines, hunks)
  }
}
