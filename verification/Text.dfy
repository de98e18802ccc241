/** The string operations the parsers are built from. */
module Text {
  import opened Options

  predicate Space(c: char) {
    || c == ' ' || c == '\t' || c == '\n' || c == '\r' || c == '\U{0B}' || c == '\U{0C}' || c == '\U{85}' || c == '\U{A0}'
    || c == '\U{1680}' || '\U{2000}' <= c <= '\U{200A}' || c == '\U{2028}' || c == '\U{2029}' || c == '\U{202F}'
    || c == '\U{205F}' || c == '\U{3000}'
  }

  function TrimLeft(s: string): string {
    if s != "" && Space(s[0]) then TrimLeft(s[1..]) else s
  }

  function TrimRight(s: string): string {
    if s != "" && Space(s[|s| - 1]) then TrimRight(s[..|s| - 1]) else s
  }

  function Trim(s: string): string {
    TrimRight(TrimLeft(s))
  }

  /** Where c first occurs, or the length. */
  function Index<T(==)>(s: seq<T>, c: T): (i: nat)
    ensures i <= |s| && (i < |s| ==> s[i] == c) && c !in s[..i]
  {
    if s == [] || s[0] == c then 0 else 1 + Index(s[1..], c)
  }

  /** The pieces between separators; always at least one. */
  function Split<T(==)>(s: seq<T>, c: T): (parts: seq<seq<T>>)
    ensures parts != []
    decreases |s|
  {
    var i := Index(s, c);
    if i == |s| then [s] else [s[..i]] + Split(s[i + 1..], c)
  }

  function Join<T>(parts: seq<seq<T>>, c: T): seq<T>
    requires parts != []
  {
    if |parts| == 1 then parts[0] else parts[0] + [c] + Join(parts[1..], c)
  }

  /** Splitting loses nothing, and no piece holds the separator. */
  lemma {:induction false} SplitInverts<T>(s: seq<T>, c: T)
    ensures Join(Split(s, c), c) == s
    ensures forall k :: 0 <= k < |Split(s, c)| ==> c !in Split(s, c)[k]
    decreases |s|
  {
    var i := Index(s, c);
    if i < |s| {
      SplitInverts(s[i + 1..], c);
      assert Split(s, c)[1..] == Split(s[i + 1..], c);
      assert s == s[..i] + [c] + s[i + 1..];
    } else {
      assert s[..i] == s;
    }
  }

  lemma SplitWhole<T>(s: seq<T>, c: T)
    requires c !in s
    ensures Split(s, c) == [s]
  {}

  /** The first separator ends the first piece. */
  lemma SplitAt<T>(s: seq<T>, c: T, i: nat)
    requires i < |s| && s[i] == c && c !in s[..i]
    ensures Split(s, c) == [s[..i]] + Split(s[i + 1..], c)
  {
    hide Index;
    IndexIs(s, c, i);
    assert Split(s, c) == [s[..i]] + Split(s[i + 1..], c);
  }

  lemma {:induction false} IndexIs<T>(s: seq<T>, c: T, i: nat)
    requires i < |s| && s[i] == c && c !in s[..i]
    ensures Index(s, c) == i
  {
    if i > 0 {
      assert s[0] in s[..i] && s[1..][..i - 1] == s[..i][1..];
      IndexIs(s[1..], c, i - 1);
    }
  }

  /** Pieces without the separator, joined, are split again. */
  lemma {:induction false} SplitJoin<T>(parts: seq<seq<T>>, c: T)
    requires parts != [] && forall k :: 0 <= k < |parts| ==> c !in parts[k]
    ensures Split(Join(parts, c), c) == parts
  {
    var s := Join(parts, c);
    if |parts| == 1 {
      SplitWhole(s, c);
    } else {
      hide Split, Index;
      SplitJoin(parts[1..], c);
      var i := |parts[0]|;
      assert s[..i] == parts[0] && s[i + 1..] == Join(parts[1..], c);
      SplitAt(s, c, i);
      assert parts == [parts[0]] + parts[1..];
    }
  }

  /** What is before and after the first c. */
  function Cut(s: string, c: char): Option<(string, string)> {
    var i := Index(s, c);
    if i == |s| then None else Some((s[..i], s[i + 1..]))
  }

  lemma CutAt(s: string, i: nat, c: char)
    requires i < |s| && s[i] == c && c !in s[..i]
    ensures Index(s, c) == i && Cut(s, c) == Some((s[..i], s[i + 1..]))
  {
    IndexIs(s, c, i);
  }

  lemma CutAfter(x: string, c: char, rest: string)
    requires c !in x
    ensures Cut(x + [c] + rest, c) == Some((x, rest))
  {
    hide Index, Cut;
    var s := x + [c] + rest;
    assert s[..|x|] == x && s[|x| + 1..] == rest;
    CutAt(s, |x|, c);
  }

  lemma CutNone(s: string, c: char)
    requires c !in s
    ensures Cut(s, c) == None
  {}

  /** ReplaceAll of CRLF by LF. */
  function Unix(s: string): string {
    if |s| < 2 then s
    else if s[0] == '\r' && s[1] == '\n' then ['\n'] + Unix(s[2..])
    else [s[0]] + Unix(s[1..])
  }

  lemma Trimmed(s: string)
    requires s == "" || (!Space(s[0]) && !Space(s[|s| - 1]))
    ensures Trim(s) == s
  {}

  /** Without the carriage return it may end in. */
  function Chop(s: string): string {
    if s != "" && s[|s| - 1] == '\r' then s[..|s| - 1] else s
  }

  lemma UnixOne(c: char, rest: string)
    requires c != '\r' || rest == "" || rest[0] != '\n'
    ensures Unix([c] + rest) == [c] + Unix(rest)
  {
    assert ([c] + rest)[1..] == rest;
  }

  lemma UnixPair(rest: string)
    ensures Unix("\r\n" + rest) == "\n" + Unix(rest)
  {
    assert ("\r\n" + rest)[2..] == rest;
  }

  /** A line loses a carriage return before its newline, and nothing else. */
  lemma {:induction false} UnixLine(x: string, rest: string)
    requires '\n' !in x
    ensures Unix(x + "\n" + rest) == Chop(x) + "\n" + Unix(rest)
    decreases |x|
  {
    hide Unix;
    if x == "" {
      UnixOne('\n', rest);
      assert x + "\n" + rest == ['\n'] + rest;
    } else if x == "\r" {
      UnixPair(rest);
      assert x + "\n" + rest == "\r\n" + rest;
    } else {
      var tail := x[1..];
      UnixLine(tail, rest);
      UnixOne(x[0], tail + "\n" + rest);
      assert x + "\n" + rest == [x[0]] + (tail + "\n" + rest);
      assert Chop(x) == [x[0]] + Chop(tail);
    }
  }

  lemma {:induction false} UnixWhole(x: string)
    requires '\n' !in x
    ensures Unix(x) == x
    decreases |x|
  {
    if |x| >= 2 { UnixWhole(x[1..]); }
  }

  lemma {:induction false} TrimLeftCr(s: string)
    ensures TrimLeft(s + "\r") == if TrimLeft(s) == "" then "" else TrimLeft(s) + "\r"
  {
    if s == "" {
      assert "" + "\r" == "\r" && TrimLeft("\r"[1..]) == "";
    } else if Space(s[0]) {
      TrimLeftCr(s[1..]);
      assert (s + "\r")[1..] == s[1..] + "\r";
    }
  }

  /** A final carriage return is white space like any other. */
  lemma TrimCr(s: string)
    ensures Trim(s + "\r") == Trim(s)
  {
    TrimLeftCr(s);
    var t := TrimLeft(s);
    assert (t + "\r")[..|t|] == t;
  }

  lemma {:induction false} TrimRightEnds(s: string)
    ensures var t := TrimRight(s); t <= s && (t != "" ==> !Space(t[|t| - 1]))
  {
    if s != "" && Space(s[|s| - 1]) { TrimRightEnds(s[..|s| - 1]); }
  }

  lemma {:induction false} TrimLeftStarts(s: string)
    ensures var t := TrimLeft(s); t != "" ==> !Space(t[0])
  {
    if s != "" && Space(s[0]) { TrimLeftStarts(s[1..]); }
  }

  /** Trimmed text has no white space at its ends, and trimming it again changes nothing. */
  lemma TrimTwice(s: string)
    ensures Trim(Trim(s)) == Trim(s)
    ensures Trim(s) != "" ==> !Space(Trim(s)[0]) && !Space(Trim(s)[|Trim(s)| - 1])
  {
    TrimLeftStarts(s);
    TrimRightEnds(TrimLeft(s));
  }

  // ---- strings.Fields ----

  function WordEnd(s: string): (n: nat)
    ensures n <= |s| && (forall i :: 0 <= i < n ==> !Space(s[i])) && (n < |s| ==> Space(s[n]))
  {
    if s == "" || Space(s[0]) then 0 else 1 + WordEnd(s[1..])
  }

  /** strings.Fields: the runs between white space. */
  function Fields(s: string): (words: seq<string>)
    ensures forall k :: 0 <= k < |words| ==> words[k] != "" && forall i :: 0 <= i < |words[k]| ==> !Space(words[k][i])
    decreases |s|
  {
    if s == "" then []
    else if Space(s[0]) then Fields(s[1..])
    else [s[..WordEnd(s)]] + Fields(s[WordEnd(s)..])
  }

  function Squeezed(s: string): string {
    if s == "" then "" else (if Space(s[0]) then "" else [s[0]]) + Squeezed(s[1..])
  }

  function Glued(words: seq<string>): string {
    if words == [] then "" else words[0] + Glued(words[1..])
  }

  /** Nothing but white space is lost. */
  lemma {:induction false} FieldsKeepAll(s: string)
    ensures Glued(Fields(s)) == Squeezed(s)
    decreases |s|
  {
    if s != "" {
      if Space(s[0]) {
        FieldsKeepAll(s[1..]);
      } else {
        var n := WordEnd(s);
        FieldsKeepAll(s[n..]);
        SqueezedWord(s, n);
        assert Fields(s)[1..] == Fields(s[n..]);
      }
    }
  }

  lemma {:induction false} SqueezedWord(s: string, n: nat)
    requires n <= |s| && forall i :: 0 <= i < n ==> !Space(s[i])
    ensures Squeezed(s) == s[..n] + Squeezed(s[n..])
  {
    if n > 0 {
      SqueezedWord(s[1..], n - 1);
      assert s[1..][n - 1..] == s[n..] && s[..n] == [s[0]] + s[1..][..n - 1];
    }
  }

  /** Words joined by blanks are found again. */
  lemma {:induction false} FieldsJoin(words: seq<string>)
    requires words != [] && forall k :: 0 <= k < |words| ==> words[k] != "" && forall i :: 0 <= i < |words[k]| ==> !Space(words[k][i])
    ensures Fields(Join(words, ' ')) == words
  {
    hide Fields, Space;
    if |words| > 1 {
      FieldsJoin(words[1..]);
      FirstField(words[0], Join(words[1..], ' '));
      assert words == [words[0]] + words[1..];
    } else {
      OnlyField(words[0]);
    }
  }

  lemma OnlyField(word: string)
    requires word != "" && forall i :: 0 <= i < |word| ==> !Space(word[i])
    ensures Fields(word) == [word]
  {
    hide Space;
    EndIs(word, |word|);
    assert word[..|word|] == word && word[|word|..] == "";
  }

  lemma FirstField(word: string, rest: string)
    requires word != "" && forall i :: 0 <= i < |word| ==> !Space(word[i])
    ensures Fields(word + [' '] + rest) == [word] + Fields(rest)
  {
    var s, n := word + [' '] + rest, |word|;
    EndIs(s, n);
    assert s[..n] == word && s[n..] == [' '] + rest && s[n..][1..] == rest;
  }

  lemma EndIs(s: string, n: nat)
    requires n <= |s| && (forall i :: 0 <= i < n ==> !Space(s[i])) && (n < |s| ==> Space(s[n]))
    ensures WordEnd(s) == n
  {}

  function Lower(c: char): char {
    if 'A' <= c <= 'Z' then (c as int + 32) as char
    else if c == '\U{130}' then 'i'
    else if c == '\U{212A}' then 'k'
    else c
  }

  function ToLower(s: string): string {
    seq(|s|, i requires 0 <= i < |s| => Lower(s[i]))
  }

  // ---- strconv.Atoi ----

  const MAX_INT := 0x7fff_ffff_ffff_ffff

  predicate Digits(s: string) {
    s != "" && forall i :: 0 <= i < |s| ==> '0' <= s[i] <= '9'
  }

  function Digit(c: char): nat
    requires '0' <= c <= '9'
  {
    c as int - '0' as int
  }

  function Value(s: string): nat
    requires forall i :: 0 <= i < |s| ==> '0' <= s[i] <= '9'
  {
    if s == "" then 0 else Value(s[..|s| - 1]) * 10 + Digit(s[|s| - 1])
  }

  /** An optional sign and decimal digits, within 64 bits. */
  function Atoi(s: string): (r: Option<int>)
    ensures r.Some? ==> -MAX_INT - 1 <= r.value <= MAX_INT
  {
    var signed := s != "" && (s[0] == '-' || s[0] == '+');
    var digits := if signed then s[1..] else s;
    if !Digits(digits) then None
    else
      var n: int := Value(digits);
      var v := if signed && s[0] == '-' then -n else n;
      if -MAX_INT - 1 <= v <= MAX_INT then Some(v) else None
  }
}
