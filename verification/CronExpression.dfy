/** A whole expression as it is written, and what it says about a minute. */
module CronExpression {
  import opened Options
  import opened Text
  import opened Numerals
  import opened Calendar
  import opened CronField
  import opened CronText
  import opened CronMask

  /** The entries of the five fields. */
  datatype Written = Written(minute: seq<Item>, hour: seq<Item>, dom: seq<Item>, month: seq<Item>, dow: seq<Item>)

  predicate Filled(items: seq<Item>, spec: FieldSpec) {
    items != [] && forall i :: 0 <= i < |items| ==> Fits(items[i], spec)
  }

  /** Every field has an entry, and every entry is legal in its field. */
  predicate Legible(w: Written) {
    && Filled(w.minute, MINUTE) && Filled(w.hour, HOUR) && Filled(w.dom, DOM) && Filled(w.month, MONTH)
    && Filled(w.dow, DOW)
  }

  function Words(w: Written): seq<string>
    requires Legible(w)
  {
    [FieldText(w.minute), FieldText(w.hour), FieldText(w.dom), FieldText(w.month), FieldText(w.dow)]
  }

  /** The fields between blanks. */
  function ExpressionText(w: Written): string
    requires Legible(w)
  {
    Join(Words(w), ' ')
  }

  predicate Unrestricted(items: seq<Item>) {
    |items| == 1 && items[0].span.Any? && items[0].step == None
  }

  /**
   A day must be said by both day fields, or by either when both are restricted. Weekdays are
   counted from Sunday 7 January 2024.
   */
  ghost predicate DaySaid(w: Written, n: nat) {
    var dom := SaidBy(w.dom, DOM, Civil(n).day);
    var dow := SaidBy(w.dow, DOW, (n - DayOf(Date(2024, 1, 7))) % 7);
    if Unrestricted(w.dom) || Unrestricted(w.dow) then dom && dow else dom || dow
  }

  ghost predicate Said(w: Written, k: nat) {
    && SaidBy(w.minute, MINUTE, k % 60) && SaidBy(w.hour, HOUR, k % 1440 / 60)
    && SaidBy(w.month, MONTH, Civil(k / 1440).month) && DaySaid(w, k / 1440)
  }

  /** The minutes an expression says. */
  ghost function Minutes(w: Written): iset<nat> {
    iset k: nat | Said(w, k)
  }

  // ---- the texts ----

  /** Printed characters other than the at sign. */
  predicate Ink(s: string) {
    forall i :: 0 <= i < |s| ==> '!' <= s[i] <= '~' && s[i] != '@'
  }

  lemma WordInk(s: string)
    requires Word(s)
    ensures Ink(s)
  {}

  lemma NumberInk(n: nat)
    ensures Ink(Decimal(n))
  {
    NumberWord(n, MINUTE);
    WordInk(Decimal(n));
  }

  lemma SpotInk(s: Spot, spec: FieldSpec)
    requires IsField(spec) && SpotFits(s, spec)
    ensures Ink(SpotText(s)) && Word(SpotText(s))
  {
    SpotWord(s, spec);
    WordInk(SpotText(s));
  }

  /** Only a lone star reads as a star. */
  lemma ItemInk(e: Item, spec: FieldSpec)
    requires IsField(spec) && ValidSpec(spec) && Fits(e, spec)
    ensures Ink(ItemText(e)) && ItemText(e) != "" && ',' !in ItemText(e)
    ensures ItemText(e) == "*" || ItemText(e) == "?" <==> Unrestricted([e])
  {
    hide ParseEntry, SpanFits, SpanText, Decimal, IsField, ValidSpec, First, Last, Step;
    ItemIsRead(e, spec);
    SpanInk(e.span, spec);
    hide Ink;
    if e.step.Some? {
      NumberInk(e.step.value);
      SteppedInk(SpanText(e.span), Decimal(e.step.value));
    }
  }

  lemma SteppedInk(span: string, step: string)
    requires Ink(span) && Ink(step)
    ensures var s := span + "/" + step; Ink(s) && s != "" && s != "*" && s != "?"
  {
    assert (span + "/" + step)[|span|] == '/';
  }

  lemma SpanInk(s: Span, spec: FieldSpec)
    requires IsField(spec) && SpanFits(s, spec)
    ensures Ink(SpanText(s)) && SpanText(s) != ""
    ensures SpanText(s) == "*" || SpanText(s) == "?" <==> s.Any?
  {
    hide SpotText, SpotFits, SpotValue;
    match s
    case Any(_) =>
    case From(a) => SpotInk(a, spec); WordIsTight(SpotText(a));
    case FromTo(a, b) =>
      SpotInk(a, spec);
      SpotInk(b, spec);
      assert SpanText(s)[|SpotText(a)|] == '-';
  }

  lemma {:induction false} JoinInk(parts: seq<string>)
    requires parts != [] && forall i :: 0 <= i < |parts| ==> Ink(parts[i]) && parts[i] != ""
    ensures Ink(Join(parts, ',')) && Join(parts, ',') != ""
    ensures |parts| > 1 ==> Join(parts, ',') != "*" && Join(parts, ',') != "?"
  {
    if |parts| > 1 { JoinInk(parts[1..]); }
  }

  lemma FieldInk(items: seq<Item>, spec: FieldSpec)
    requires IsField(spec) && ValidSpec(spec) && Filled(items, spec)
    ensures Ink(FieldText(items)) && FieldText(items) != ""
    ensures FieldText(items) == "*" || FieldText(items) == "?" <==> Unrestricted(items)
  {
    hide Fits, ItemText, Ink;
    forall i | 0 <= i < |items|
      ensures Ink(ItemsText(items)[i]) && ItemsText(items)[i] != ""
      ensures ItemsText(items)[i] == "*" || ItemsText(items)[i] == "?" <==> Unrestricted([items[i]])
    {
      ItemInk(items[i], spec);
    }
    JoinInk(ItemsText(items));
  }

  lemma WordsInk(w: Written)
    requires Legible(w)
    ensures forall i :: 0 <= i < 5 ==> Ink(Words(w)[i]) && Words(w)[i] != ""
  {
    hide Filled, FieldText, Ink;
    FieldInk(w.minute, MINUTE);
    FieldInk(w.hour, HOUR);
    FieldInk(w.dom, DOM);
    FieldInk(w.month, MONTH);
    FieldInk(w.dow, DOW);
  }

  /** The expression is split into its five fields and has no white space to trim. */
  lemma TextIsSplit(w: Written)
    requires Legible(w)
    ensures var s := ExpressionText(w); Trim(s) == s && s != "" && s[0] != '@' && Fields(s) == Words(w)
  {
    WordsInk(w);
    hide Filled, FieldText;
    FieldsJoin(Words(w));
    var s := ExpressionText(w);
    JoinEnds(Words(w));
    hide Words;
    Trimmed(s);
  }

  lemma {:induction false} JoinEnds(words: seq<string>)
    requires words != [] && forall i :: 0 <= i < |words| ==> words[i] != ""
    ensures var s := Join(words, ' ');
      s != "" && s[0] == words[0][0] && s[|s| - 1] == words[|words| - 1][|words[|words| - 1]| - 1]
  {
    if |words| > 1 { JoinEnds(words[1..]); }
  }

  // ---- the macros ----

  const STAR := [Item(Any('*'), None)]

  function Only(n: nat): seq<Item> {
    [Item(From(Number(n)), None)]
  }

  /** When each macro fires, at minute k since midnight on 1 January of the year 1. */
  ghost predicate FiresOn(macro: string, k: nat) {
    var n := k / 1440;
    if macro == "@hourly" then k % 60 == 0
    else if macro == "@daily" || macro == "@midnight" then k % 1440 == 0
    else if macro == "@weekly" then k % 1440 == 0 && (n - DayOf(Date(2024, 1, 7))) % 7 == 0
    else if macro == "@monthly" then k % 1440 == 0 && Civil(n).day == 1
    else (macro == "@yearly" || macro == "@annually") && k % 1440 == 0 && Civil(n).day == 1 && Civil(n).month == 1
  }

  ghost function MacroMinutes(macro: string): iset<nat> {
    iset k: nat | FiresOn(macro, k)
  }

  /** The fields that say as much. */
  function MacroWritten(macro: string): (w: Option<Written>)
    ensures w.Some? ==> Legible(w.value)
  {
    if macro == "@hourly" then Some(Written(Only(0), STAR, STAR, STAR, STAR))
    else if macro == "@daily" || macro == "@midnight" then Some(Written(Only(0), Only(0), STAR, STAR, STAR))
    else if macro == "@weekly" then Some(Written(Only(0), Only(0), STAR, STAR, Only(0)))
    else if macro == "@monthly" then Some(Written(Only(0), Only(0), Only(1), STAR, STAR))
    else if macro == "@yearly" || macro == "@annually" then Some(Written(Only(0), Only(0), Only(1), Only(1), STAR))
    else None
  }

  lemma SimpleText(items: seq<Item>)
    requires items in {STAR, Only(0), Only(1)}
    ensures FieldText(items) == if items == STAR then "*" else if items == Only(0) then "0" else "1"
  {
    assert items == STAR ==> ItemsText(items) == ["*"];
    assert items == Only(0) ==> ItemsText(items) == ["0"];
    assert items == Only(1) ==> ItemsText(items) == ["1"];
  }

  lemma FiveWords(a: string, b: string, c: string, d: string, e: string)
    ensures Join([a, b, c, d, e], ' ') == a + " " + b + " " + c + " " + d + " " + e
  {
    assert [' '] == " ";
    hide Join;
    JoinTwo(d, e);
    JoinMore(c, [d, e]);
    JoinMore(b, [c, d, e]);
    JoinMore(a, [b, c, d, e]);
  }

  lemma JoinTwo(a: string, b: string)
    ensures Join([a, b], ' ') == a + [' '] + b
  {}

  lemma JoinMore(a: string, rest: seq<string>)
    requires rest != []
    ensures Join([a] + rest, ' ') == a + [' '] + Join(rest, ' ')
  {}

  lemma MacroText(macro: string)
    requires MacroWritten(macro).Some?
    ensures ExpressionText(MacroWritten(macro).value)
      == if macro == "@hourly" then "0 * * * *"
         else if macro == "@daily" || macro == "@midnight" then "0 0 * * *"
         else if macro == "@weekly" then "0 0 * * 0"
         else if macro == "@monthly" then "0 0 1 * *"
         else "0 0 1 1 *"
  {
    var w := MacroWritten(macro).value;
    SimpleText(STAR);
    SimpleText(Only(0));
    SimpleText(Only(1));
    hide FieldText, Legible, Join, Only, STAR;
    var t := Words(w);
    FiveWords(t[0], t[1], t[2], t[3], t[4]);
  }

  lemma OpenSays(items: seq<Item>, spec: FieldSpec, v: int)
    requires Unrestricted(items)
    ensures SaidBy(items, spec, v) <==> spec.min <= v <= spec.max
  {
    assert items[0] == Item(Any(items[0].span.sign), None);
    AnyIs(items[0].span.sign, spec, v);
    hide Means;
  }

  lemma OnlySays(n: nat, spec: FieldSpec, v: int)
    requires IsField(spec) && n <= 1
    ensures SaidBy(Only(n), spec, v) <==> v == n
  {
    NumberMeans(n, spec, v);
    hide Means;
    assert Only(n)[0] == Item(From(Number(n)), None);
  }

  /** A star says every day, month and weekday that there is. */
  lemma OpenSaysAll(items: seq<Item>, n: nat)
    requires Unrestricted(items)
    ensures SaidBy(items, DOM, Civil(n).day) && SaidBy(items, MONTH, Civil(n).month)
    ensures SaidBy(items, DOW, (n - DayOf(Date(2024, 1, 7))) % 7)
  {
    CivilIsOrdinal(n);
    hide Civil, SaidBy, DaysBeforeYear, DaysBeforeMonth;
    OpenSays(items, DOM, Civil(n).day);
    OpenSays(items, MONTH, Civil(n).month);
    OpenSays(items, DOW, (n - DayOf(Date(2024, 1, 7))) % 7);
  }

  lemma StarIsOpen(n: nat)
    ensures Unrestricted(STAR) && !Unrestricted(Only(n))
  {}

  lemma Midnight(k: nat)
    ensures k % 1440 == 0 <==> k % 60 == 0 && k % 1440 / 60 == 0
  {
    var d, r := k / 1440, k % 1440;
    assert k == 60 * (24 * d + r / 60) + r % 60;
  }

  /** A value that is named alone, or left open. */
  lemma MaybeSays(items: seq<Item>, m: nat, spec: FieldSpec, v: int)
    requires IsField(spec) && m <= 1 && items in {Only(m), STAR} && spec.min <= v <= spec.max
    ensures SaidBy(items, spec, v) <==> items == STAR || v == m
    ensures Unrestricted(items) <==> items == STAR
  {
    StarIsOpen(m);
    hide SaidBy, Only, Unrestricted, STAR;
    if items == STAR { OpenSays(STAR, spec, v); } else { OnlySays(m, spec, v); }
  }

  lemma DayInRange(n: nat)
    ensures 1 <= Civil(n).day <= 31 && 1 <= Civil(n).month <= 12
  {
    CivilIsOrdinal(n);
    hide Civil, DayOf;
  }

  /** Such fields say minute 0, of hour 0 or any, of day 1 or any, of month 1 or any, or of Sundays. */
  lemma SimpleSays(w: Written, k: nat)
    requires w.minute == Only(0) && w.hour in {Only(0), STAR} && w.dom in {Only(1), STAR} && w.month in {Only(1), STAR}
    requires w.dow in {Only(0), STAR} && (w.dow == STAR || w.dom == STAR)
    ensures var n := k / 1440;
      Said(w, k) <==>
        && k % 60 == 0 && (w.hour == STAR || k % 1440 / 60 == 0)
        && (w.dom == STAR || Civil(n).day == 1) && (w.month == STAR || Civil(n).month == 1)
        && (w.dow == STAR || (n - DayOf(Date(2024, 1, 7))) % 7 == 0)
  {
    var n := k / 1440;
    hide Civil, SaidBy, DayOf, Only, Unrestricted, STAR;
    DayInRange(n);
    OnlySays(0, MINUTE, k % 60);
    MaybeSays(w.hour, 0, HOUR, k % 1440 / 60);
    MaybeSays(w.month, 1, MONTH, Civil(n).month);
    SimpleDays(w, n);
    hide DaySaid, IsField, MINUTE, HOUR, DOM, MONTH, DOW;
  }

  lemma SimpleDays(w: Written, n: nat)
    requires w.dom in {Only(1), STAR} && w.dow in {Only(0), STAR} && (w.dow == STAR || w.dom == STAR)
    ensures DaySaid(w, n) <==>
      (w.dom == STAR || Civil(n).day == 1) && (w.dow == STAR || (n - DayOf(Date(2024, 1, 7))) % 7 == 0)
  {
    hide Civil, SaidBy, DayOf, Only, Unrestricted, STAR;
    DayInRange(n);
    MaybeSays(w.dom, 1, DOM, Civil(n).day);
    MaybeSays(w.dow, 0, DOW, (n - DayOf(Date(2024, 1, 7))) % 7);
    hide IsField, MINUTE, HOUR, DOM, MONTH, DOW;
  }

  /** Each macro fires when its fields say. */
  lemma MacroSays(macro: string)
    requires MacroWritten(macro).Some?
    ensures Minutes(MacroWritten(macro).value) == MacroMinutes(macro)
  {
    hide Said, FiresOn, MacroWritten, Legible;
    forall k: nat ensures Said(MacroWritten(macro).value, k) <==> FiresOn(macro, k) { MacroFires(macro, k); }
  }

  lemma MacroFires(macro: string, k: nat)
    requires MacroWritten(macro).Some?
    ensures Said(MacroWritten(macro).value, k) <==> FiresOn(macro, k)
  {
    StarIsOpen(0);
    StarIsOpen(1);
    hide Said, Legible, Civil, DayOf, Only, STAR, Unrestricted;
    Midnight(k);
    SimpleSays(MacroWritten(macro).value, k);
  }
}
