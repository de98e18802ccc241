/** How the entries of a field are written, and that each is read as what it says. */
module CronText {
  import opened Options
  import opened Arithmetic
  import opened Text
  import opened Numerals
  import opened CronField

  const MONTHS := ["jan", "feb", "mar", "apr", "may", "jun", "jul", "aug", "sep", "oct", "nov", "dec"]
  const DAYS := ["sun", "mon", "tue", "wed", "thu", "fri", "sat"]

  /** A number, the i-th month from January by its name, or the i-th day from Sunday. */
  datatype Spot = Number(n: nat) | Month(i: nat, name: string) | Day(i: nat, name: string)

  datatype Span = Any(sign: char) | From(a: Spot) | FromTo(a: Spot, b: Spot)

  /** An entry: what it spans, and its step if it gives one. */
  datatype Item = Item(span: Span, step: Option<nat>)

  predicate IsField(spec: FieldSpec) {
    spec == MINUTE || spec == HOUR || spec == DOM || spec == MONTH || spec == DOW
  }

  // ---- how it is written ----

  function SpotText(s: Spot): string {
    match s
    case Number(n) => Decimal(n)
    case Month(_, name) => name
    case Day(_, name) => name
  }

  function SpanText(s: Span): string {
    match s
    case Any(c) => [c]
    case From(a) => SpotText(a)
    case FromTo(a, b) => SpotText(a) + "-" + SpotText(b)
  }

  function ItemText(e: Item): string {
    match e.step
    case None => SpanText(e.span)
    case Some(n) => SpanText(e.span) + "/" + Decimal(n)
  }

  function ItemsText(items: seq<Item>): seq<string> {
    seq(|items|, i requires 0 <= i < |items| => ItemText(items[i]))
  }

  /** The entries between commas. */
  function FieldText(items: seq<Item>): string
    requires items != []
  {
    Join(ItemsText(items), ',')
  }

  // ---- what it means ----

  /** Seven is Sunday in the field of weekdays. */
  function SpotValue(s: Spot, spec: FieldSpec): nat {
    match s
    case Number(n) => if spec == DOW && n == 7 then 0 else n
    case Month(i, _) => i + 1
    case Day(i, _) => i
  }

  /** The same letters, each small or capital. */
  predicate SameLetters(name: string, small: string) {
    |name| == |small| && forall k :: 0 <= k < |name| ==> name[k] == small[k] || name[k] as int == small[k] as int - 32
  }

  predicate SpotFits(s: Spot, spec: FieldSpec) {
    match s
    case Number(n) => n <= MAX_INT && spec.min <= SpotValue(s, spec) <= spec.max
    case Month(i, name) => i < 12 && SameLetters(name, MONTHS[i]) && spec == MONTH
    case Day(i, name) => i < 7 && SameLetters(name, DAYS[i]) && spec == DOW
  }

  predicate SpanFits(s: Span, spec: FieldSpec) {
    match s
    case Any(c) => c == '*' || c == '?'
    case From(a) => SpotFits(a, spec)
    case FromTo(a, b) => SpotFits(a, spec) && SpotFits(b, spec) && SpotValue(a, spec) <= SpotValue(b, spec)
  }

  predicate Fits(e: Item, spec: FieldSpec) {
    SpanFits(e.span, spec) && (e.step.Some? ==> 1 <= e.step.value <= MAX_INT)
  }

  function Step(e: Item): nat {
    if e.step.Some? then e.step.value else 1
  }

  function First(e: Item, spec: FieldSpec): nat {
    match e.span
    case Any(_) => spec.min
    case From(a) => SpotValue(a, spec)
    case FromTo(a, _) => SpotValue(a, spec)
  }

  /** A single value is itself, unless a step of more than one sends it on to the end of the field. */
  function Last(e: Item, spec: FieldSpec): nat {
    match e.span
    case Any(_) => spec.max
    case From(a) => if Step(e) > 1 then spec.max else SpotValue(a, spec)
    case FromTo(_, b) => SpotValue(b, spec)
  }

  /** The entry says v: the first value, or some steps from it, up to the last. */
  ghost predicate Means(e: Item, spec: FieldSpec, v: int) {
    exists j: nat :: v == First(e, spec) + j * Step(e) && v <= Last(e, spec)
  }

  /** A star is every minute, hour, day, month or weekday. */
  lemma AnyMeans(c: char, v: int)
    ensures var any := Item(Any(c), None);
      && (Means(any, MINUTE, v) <==> 0 <= v <= 59) && (Means(any, HOUR, v) <==> 0 <= v <= 23)
      && (Means(any, DOM, v) <==> 1 <= v <= 31) && (Means(any, MONTH, v) <==> 1 <= v <= 12)
      && (Means(any, DOW, v) <==> 0 <= v <= 6)
  {
    AnyIs(c, MINUTE, v);
    AnyIs(c, HOUR, v);
    AnyIs(c, DOM, v);
    AnyIs(c, MONTH, v);
    AnyIs(c, DOW, v);
    hide Means;
  }

  lemma AnyIs(c: char, spec: FieldSpec, v: int)
    ensures Means(Item(Any(c), None), spec, v) <==> spec.min <= v <= spec.max
  {
    if spec.min <= v <= spec.max {
      var e, j: nat := Item(Any(c), None), v - spec.min;
      assert v == First(e, spec) + j * Step(e);
    }
  }

  /** A single number is itself. */
  lemma NumberMeans(n: nat, spec: FieldSpec, v: int)
    ensures Means(Item(From(Number(n)), None), spec, v) <==> v == SpotValue(Number(n), spec)
  {
    var e := Item(From(Number(n)), None);
    assert First(e, spec) == First(e, spec) + 0 * Step(e);
  }

  // ---- reading it ----

  /** Written in digits and letters. */
  predicate Word(s: string) {
    s != "" && forall i :: 0 <= i < |s| ==> '0' <= s[i] <= '9' || 'a' <= s[i] <= 'z' || 'A' <= s[i] <= 'Z'
  }

  predicate Small(s: string) {
    s != "" && forall i :: 0 <= i < |s| ==> 'a' <= s[i] <= 'z'
  }

  lemma MonthWord(i: nat, name: string)
    requires i < 12 && SameLetters(name, MONTHS[i])
    ensures Word(name) && ToLower(name) in MONTH.aliases && MONTH.aliases[ToLower(name)] == i + 1
  {
    SmallMonth(i);
    NameWord(name, MONTHS[i]);
  }

  lemma SmallMonth(i: nat)
    requires i < 12
    ensures Small(MONTHS[i]) && MONTHS[i] in MONTH.aliases && MONTH.aliases[MONTHS[i]] == i + 1
  {}

  lemma DayWord(i: nat, name: string)
    requires i < 7 && SameLetters(name, DAYS[i])
    ensures Word(name) && ToLower(name) in DOW.aliases && DOW.aliases[ToLower(name)] == i
  {
    SmallDay(i);
    NameWord(name, DAYS[i]);
  }

  lemma SmallDay(i: nat)
    requires i < 7
    ensures Small(DAYS[i]) && DAYS[i] in DOW.aliases && DOW.aliases[DAYS[i]] == i
  {}

  lemma NameWord(name: string, small: string)
    requires SameLetters(name, small) && Small(small)
    ensures Word(name) && ToLower(name) == small
  {}

  lemma NumberWord(n: nat, spec: FieldSpec)
    requires IsField(spec)
    ensures Word(Decimal(n)) && ToLower(Decimal(n)) !in spec.aliases
  {
    ValueOfDecimal(n);
    hide Decimal, Value;
    assert ToLower(Decimal(n)) == Decimal(n);
    assert '0' <= Decimal(n)[0] <= '9';
  }

  lemma SpotWord(s: Spot, spec: FieldSpec)
    requires IsField(spec) && SpotFits(s, spec)
    ensures Word(SpotText(s))
  {
    match s
    case Number(n) => NumberWord(n, spec);
    case Month(i, name) => MonthWord(i, name);
    case Day(i, name) => DayWord(i, name);
  }

  lemma WordIsTight(s: string)
    requires Word(s)
    ensures Trim(s) == s && '-' !in s && '/' !in s && ',' !in s && s != "*" && s != "?"
  {
    Trimmed(s);
  }

  lemma SpotIsRead(s: Spot, spec: FieldSpec)
    requires IsField(spec) && ValidSpec(spec) && SpotFits(s, spec)
    ensures ParseValue(SpotText(s), spec) == Some(SpotValue(s, spec))
  {
    SpotWord(s, spec);
    WordIsTight(SpotText(s));
    hide Trim, ToLower, Atoi, Decimal;
    match s
    case Number(n) => NumberWord(n, spec); AtoiOfDecimal(n);
    case Month(i, name) => MonthWord(i, name);
    case Day(i, name) => DayWord(i, name);
  }

  /** A span with a given step, as the bounds of a range. */
  lemma SpanIsRead(e: Item, spec: FieldSpec)
    requires IsField(spec) && ValidSpec(spec) && Fits(e, spec)
    ensures ParseBounds(SpanText(e.span), Step(e), spec) == Some(Range(First(e, spec), Last(e, spec), Step(e)))
  {
    hide ParseValue, SpotText, Cut, SpotFits, Word;
    match e.span
    case Any(_) =>
    case From(a) =>
      SpotIsRead(a, spec);
      SpotWord(a, spec);
      WordIsTight(SpotText(a));
      CutNone(SpotText(a), '-');
    case FromTo(a, b) =>
      SpotIsRead(a, spec);
      SpotIsRead(b, spec);
      SpotWord(a, spec);
      WordIsTight(SpotText(a));
      CutAfter(SpotText(a), '-', SpotText(b));
      assert SpotText(a) + "-" + SpotText(b) == SpotText(a) + ['-'] + SpotText(b);
      assert (SpotText(a) + "-" + SpotText(b))[|SpotText(a)|] == '-';
  }

  /** No white space at its ends, no slash and no comma. */
  predicate Tight(s: string) {
    s != "" && !Space(s[0]) && !Space(s[|s| - 1]) && '/' !in s && ',' !in s
  }

  lemma WordTight(s: string)
    requires Word(s)
    ensures Tight(s)
  {}

  lemma SpanTight(s: Span, spec: FieldSpec)
    requires IsField(spec) && SpanFits(s, spec)
    ensures Tight(SpanText(s))
  {
    hide SpotText, SpotFits, Word;
    match s
    case Any(_) =>
    case From(a) => SpotWord(a, spec); WordTight(SpotText(a));
    case FromTo(a, b) =>
      SpotWord(a, spec);
      SpotWord(b, spec);
      WordTight(SpotText(a));
      WordTight(SpotText(b));
  }

  lemma TightIsTrimmed(s: string)
    requires Tight(s)
    ensures Trim(s) == s
  {
    Trimmed(s);
  }

  lemma StepTight(n: nat)
    ensures Tight(Decimal(n))
  {
    NumberWord(n, MINUTE);
    WordTight(Decimal(n));
  }

  lemma SteppedIsTight(base: string, step: string)
    requires Tight(base) && Tight(step)
    ensures var s := base + "/" + step; Trim(s) == s && ',' !in s && s != ""
  {
    Trimmed(base + "/" + step);
  }

  /** An entry is read as the range it says. */
  lemma ItemIsRead(e: Item, spec: FieldSpec)
    requires IsField(spec) && ValidSpec(spec) && Fits(e, spec)
    ensures ParseEntry(ItemText(e), spec) == Some(Range(First(e, spec), Last(e, spec), Step(e)))
    ensures ',' !in ItemText(e)
  {
    SpanIsRead(e, spec);
    SpanTight(e.span, spec);
    TightIsTrimmed(SpanText(e.span));
    hide ParseBounds, SpanText, Cut, Trim, Atoi, Decimal, SpotFits;
    if e.step.None? {
      CutNone(SpanText(e.span), '/');
    } else {
      var base, step := SpanText(e.span), Decimal(e.step.value);
      StepTight(e.step.value);
      TightIsTrimmed(step);
      SteppedIsTight(base, step);
      CutAfter(base, '/', step);
      assert base + "/" + step == base + ['/'] + step;
      AtoiOfDecimal(e.step.value);
    }
  }

  /** Counting steps and dividing by the step agree. */
  lemma MeansHits(e: Item, spec: FieldSpec, v: int)
    requires Fits(e, spec)
    ensures Means(e, spec, v) <==> Hits(Range(First(e, spec), Last(e, spec), Step(e)), v)
  {
    var lo, n := First(e, spec), Step(e);
    if j: nat :| v == lo + j * n && v <= Last(e, spec) {
      DivideExact(v - lo, j, n, 0);
      MulMonotone(0, j, n);
    }
    if lo <= v && (v - lo) % n == 0 {
      var j := (v - lo) / n;
      assert v - lo == j * n;
    }
  }
}
