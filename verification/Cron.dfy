/** A cron expression, from its text to its next activation. */
module Cron {
  import opened Options
  import opened Text
  import opened Calendar
  import Field = CronField
  import Mask = CronMask
  import Search = CronNext
  import Entry = CronText
  import Expr = CronExpression

  predicate IsStar(field: string) {
    field == "*" || field == "?"
  }

  ghost predicate FieldParses(field: string, spec: Field.FieldSpec)
    requires Field.ValidSpec(spec)
  {
    forall k :: 0 <= k < |Split(field, ',')| ==> Field.ParseEntry(Split(field, ',')[k], spec).Some?
  }

  ghost predicate Parses(fields: seq<string>) {
    && |fields| == 5
    && FieldParses(fields[0], Field.MINUTE) && FieldParses(fields[1], Field.HOUR) && FieldParses(fields[2], Field.DOM)
    && FieldParses(fields[3], Field.MONTH) && FieldParses(fields[4], Field.DOW)
  }

  ghost predicate Tame(fields: seq<string>) {
    && |fields| == 5
    && Mask.TameField(fields[0], Field.MINUTE) && Mask.TameField(fields[1], Field.HOUR)
    && Mask.TameField(fields[2], Field.DOM) && Mask.TameField(fields[3], Field.MONTH)
    && Mask.TameField(fields[4], Field.DOW)
  }

  /** What the two day fields say about day n. */
  ghost predicate SaysDay(dom: string, dow: string, n: nat) {
    var domHit := Field.Denotes(dom, Field.DOM, Civil(n).day);
    var dowHit := Field.Denotes(dow, Field.DOW, Weekday(n));
    if IsStar(dom) && IsStar(dow) then true
    else if IsStar(dom) then dowHit
    else if IsStar(dow) then domHit
    else domHit || dowHit
  }

  /** What the text says about minute k. */
  ghost predicate Says(fields: seq<string>, k: nat)
    requires |fields| == 5
  {
    var n := k / Search.DAY_MINUTES;
    && Field.Denotes(fields[3], Field.MONTH, Civil(n).month)
    && SaysDay(fields[2], fields[4], n)
    && Field.Denotes(fields[1], Field.HOUR, k % Search.DAY_MINUTES / 60)
    && Field.Denotes(fields[0], Field.MINUTE, k % 60)
  }

  ghost predicate MaskOf(mask: set<int>, field: string, spec: Field.FieldSpec)
    requires Field.ValidSpec(spec)
  {
    forall v :: v in mask <==> Field.Denotes(field, spec, v)
  }

  ghost predicate Compiled(s: Search.Schedule, fields: seq<string>)
    requires |fields| == 5
  {
    && MaskOf(s.minute, fields[0], Field.MINUTE) && MaskOf(s.hour, fields[1], Field.HOUR)
    && MaskOf(s.dom, fields[2], Field.DOM) && MaskOf(s.month, fields[3], Field.MONTH) && MaskOf(s.dow, fields[4], Field.DOW)
  }

  method Compile(field: string, spec: Field.FieldSpec) returns (r: Option<set<int>>)
    requires Field.ValidSpec(spec)
    ensures r.Some? <==> FieldParses(field, spec)
    ensures r.Some? && Mask.TameField(field, spec) ==> MaskOf(r.value, field, spec)
  {
    hide Field.ParseEntry, Split, Field.Denotes, Mask.TameField, Mask.SetsAll;
    r := Mask.ParseField(field, spec);
  }

  datatype Reading = Interval(every: int) | Calendar(fields: seq<string>)

  const EVERY := "@every "

  function Equivalent(macro: string): Option<string> {
    if macro == "@hourly" then Some("0 * * * *")
    else if macro == "@daily" || macro == "@midnight" then Some("0 0 * * *")
    else if macro == "@weekly" then Some("0 0 * * 0")
    else if macro == "@monthly" then Some("0 0 1 * *")
    else if macro == "@yearly" || macro == "@annually" then Some("0 0 1 1 *")
    else None
  }

  /** How an expression is read: an interval of a minute or more, or the fields of a calendar. */
  function Read(expr: string, duration: string -> Option<int>): Option<Reading> {
    var trimmed := Trim(expr);
    if trimmed == "" then None
    else if trimmed[0] != '@' then Some(Reading.Calendar(Fields(trimmed)))
    else if EVERY <= trimmed then
      match duration(Trim(trimmed[|EVERY|..]))
      case None => None
      case Some(d) => if d < Search.MINUTE then None else Some(Interval(d))
    else
      match Equivalent(trimmed)
      case None => None
      case Some(text) => Some(Reading.Calendar(Fields(text)))
  }

  /** The expression is accepted. */
  ghost predicate Legal(expr: string, duration: string -> Option<int>) {
    match Read(expr, duration)
    case None => false
    case Some(Interval(_)) => true
    case Some(Calendar(fields)) => Parses(fields)
  }

  /** time.ParseDuration is a parameter. */
  method Parse(expr: string, duration: string -> Option<int>) returns (r: Option<Search.Schedule>)
    ensures r.Some? <==> Legal(expr, duration)
    ensures r.Some? ==>
      match Read(expr, duration)
      case None => false
      case Some(Interval(d)) => r.value.every == d && d >= Search.MINUTE
      case Some(Calendar(fields)) => CompiledAs(r.value, fields)
  {
    hide Parses, CompiledAs, Fields;
    var trimmed := Trim(expr);
    if trimmed == "" {
      return None;
    }
    if trimmed[0] == '@' {
      r := ParseMacro(trimmed, duration);
      assert Trim(expr) == trimmed;
      return;
    }
    r := ParseFields(Fields(trimmed));
  }

  method ParseMacro(macro: string, duration: string -> Option<int>) returns (r: Option<Search.Schedule>)
    ensures EVERY <= macro ==>
      var d := duration(Trim(macro[|EVERY|..]));
      if d.None? || d.value < Search.MINUTE then r.None? else r.Some? && r.value.every == d.value
    ensures !(EVERY <= macro) ==>
      var text := Equivalent(macro);
      if text.None? then r.None?
      else (r.Some? <==> Parses(Fields(text.value))) && (r.Some? ==> CompiledAs(r.value, Fields(text.value)))
  {
    hide Parses, CompiledAs, Fields;
    if EVERY <= macro {
      var d := duration(Trim(macro[|EVERY|..]));
      if d.None? || d.value < Search.MINUTE {
        return None;
      }
      return Some(Search.Schedule({}, {}, {}, {}, {}, false, false, d.value));
    }
    var text := Equivalent(macro);
    if text.None? {
      return None;
    }
    r := ParseFields(Fields(text.value));
  }

  ghost predicate CompiledAs(s: Search.Schedule, fields: seq<string>) {
    && |fields| == 5 && (Tame(fields) ==> Compiled(s, fields))
    && s.starDOM == IsStar(fields[2]) && s.starDOW == IsStar(fields[4]) && s.every == 0
  }

  /** Five fields, each compiled against its spec; the first that fails refuses the expression. */
  method ParseFields(fields: seq<string>) returns (r: Option<Search.Schedule>)
    ensures r.Some? <==> Parses(fields)
    ensures r.Some? ==> CompiledAs(r.value, fields)
  {
    hide FieldParses, Mask.TameField, MaskOf;
    if |fields| != 5 {
      return None;
    }
    var minute := Compile(fields[0], Field.MINUTE);
    if minute.None? {
      return None;
    }
    var hour := Compile(fields[1], Field.HOUR);
    if hour.None? {
      return None;
    }
    var dom := Compile(fields[2], Field.DOM);
    if dom.None? {
      return None;
    }
    var month := Compile(fields[3], Field.MONTH);
    if month.None? {
      return None;
    }
    var dow := Compile(fields[4], Field.DOW);
    if dow.None? {
      return None;
    }
    return Some(Search.Schedule(minute.value, hour.value, dom.value, month.value, dow.value,
                                IsStar(fields[2]), IsStar(fields[4]), 0));
  }

  lemma FiresAsSaid(s: Search.Schedule, fields: seq<string>, k: nat)
    requires |fields| == 5 && Compiled(s, fields)
    requires s.starDOM == IsStar(fields[2]) && s.starDOW == IsStar(fields[4])
    ensures Search.Fires(s, k) <==> Says(fields, k)
  {
    hide Field.Denotes, Civil;
  }

  datatype Outcome = Malformed | Never | At(time: nat)

  /** The least minute after t that the fields name, if one comes within five years. */
  ghost predicate IsNext(fields: seq<string>, t: nat, r: Outcome)
    requires |fields| == 5
  {
    var start := t / Search.MINUTE + 1;
    match r
    case Malformed => false
    case Never => forall j: nat :: start <= j < Search.FiveYearsOn(start) ==> !Says(fields, j)
    case At(time) =>
      && t < time && time % Search.MINUTE == 0 && start <= time / Search.MINUTE < Search.FiveYearsOn(start)
      && Says(fields, time / Search.MINUTE) && forall j: nat :: start <= j < time / Search.MINUTE ==> !Says(fields, j)
  }

  // ---- what an expression says, from its text alone ----

  /** The least of these minutes after t, if one comes within five years. */
  ghost predicate IsFirst(minutes: iset<nat>, t: nat, r: Outcome) {
    var start := t / 60_000_000_000 + 1;
    match r
    case Malformed => false
    case Never => forall j: nat :: start <= j < Search.FiveYearsOn(start) ==> j !in minutes
    case At(time) =>
      && time % 60_000_000_000 == 0 && start <= time / 60_000_000_000 < Search.FiveYearsOn(start)
      && time / 60_000_000_000 in minutes && forall j: nat :: start <= j < time / 60_000_000_000 ==> j !in minutes
  }

  lemma FieldSays(items: seq<Entry.Item>, spec: Field.FieldSpec, v: int)
    requires Entry.IsField(spec) && Field.ValidSpec(spec) && Expr.Filled(items, spec)
    ensures Field.Denotes(Entry.FieldText(items), spec, v) <==> Mask.SaidBy(items, spec, v)
    ensures IsStar(Entry.FieldText(items)) <==> Expr.Unrestricted(items)
    ensures FieldParses(Entry.FieldText(items), spec)
  {
    hide Field.Denotes, Mask.SaidBy, Entry.FieldText, Entry.Fits, Field.ParseEntry;
    Mask.WrittenDenotes(Entry.FieldText(items), items, spec, v);
    Mask.WrittenParses(Entry.FieldText(items), items, spec);
    Expr.FieldInk(items, spec);
  }

  lemma WordsParse(w: Expr.Written)
    requires Expr.Legible(w)
    ensures Parses(Expr.Words(w))
  {
    hide Entry.FieldText, Expr.Filled, FieldParses, Field.Denotes, Mask.SaidBy, IsStar, Expr.Unrestricted;
    FieldSays(w.minute, Field.MINUTE, 0);
    FieldSays(w.hour, Field.HOUR, 0);
    FieldSays(w.dom, Field.DOM, 0);
    FieldSays(w.month, Field.MONTH, 0);
    FieldSays(w.dow, Field.DOW, 0);
  }

  /** The fields of a written expression say what was written. */
  lemma WordsSay(w: Expr.Written, k: nat)
    requires Expr.Legible(w)
    ensures Says(Expr.Words(w), k) <==> Expr.Said(w, k)
  {
    var n := k / 1440;
    hide Field.Denotes, Mask.SaidBy, Entry.FieldText, Expr.Filled, Expr.DaySaid, SaysDay, Civil;
    hide Expr.Unrestricted, IsStar, FieldParses;
    FieldSays(w.minute, Field.MINUTE, k % 60);
    FieldSays(w.hour, Field.HOUR, k % 1440 / 60);
    FieldSays(w.month, Field.MONTH, Civil(n).month);
    DaysSay(w, n);
    hide Entry.IsField, Field.MINUTE, Field.HOUR, Field.MONTH, Field.DOM, Field.DOW, Field.ValidSpec;
  }

  lemma DaysSay(w: Expr.Written, n: nat)
    requires Expr.Legible(w)
    ensures SaysDay(Entry.FieldText(w.dom), Entry.FieldText(w.dow), n) <==> Expr.DaySaid(w, n)
  {
    WeekdayFromSunday(n);
    hide Field.Denotes, Mask.SaidBy, Entry.FieldText, Expr.Filled, Expr.Unrestricted, Civil, Weekday, DayOf, IsStar;
    FieldSays(w.dom, Field.DOM, Civil(n).day);
    FieldSays(w.dow, Field.DOW, Weekday(n));
    if Expr.Unrestricted(w.dom) { Expr.OpenSaysAll(w.dom, n); }
    if Expr.Unrestricted(w.dow) { Expr.OpenSaysAll(w.dow, n); }
  }

  lemma WrittenIsRead(expr: string, w: Expr.Written, duration: string -> Option<int>)
    requires Expr.Legible(w) && expr == Expr.ExpressionText(w)
    ensures Read(expr, duration) == Some(Reading.Calendar(Expr.Words(w)))
  {
    Expr.TextIsSplit(w);
  }

  /** No step of the expression comes within 64 of wrapping. */
  predicate SmallSteps(w: Expr.Written) {
    && SmallStep(w.minute) && SmallStep(w.hour) && SmallStep(w.dom) && SmallStep(w.month) && SmallStep(w.dow)
  }

  predicate SmallStep(items: seq<Entry.Item>) {
    forall i :: 0 <= i < |items| && items[i].step.Some? ==> items[i].step.value <= 0x7fff_ffff_ffff_ffc0
  }

  lemma SmallStepsAreTame(w: Expr.Written)
    requires Expr.Legible(w) && SmallSteps(w)
    ensures Tame(Expr.Words(w))
  {
    hide Entry.FieldText, Entry.Fits, Mask.TameField;
    Mask.SmallStepsAreTame(Entry.FieldText(w.minute), w.minute, Field.MINUTE);
    Mask.SmallStepsAreTame(Entry.FieldText(w.hour), w.hour, Field.HOUR);
    Mask.SmallStepsAreTame(Entry.FieldText(w.dom), w.dom, Field.DOM);
    Mask.SmallStepsAreTame(Entry.FieldText(w.month), w.month, Field.MONTH);
    Mask.SmallStepsAreTame(Entry.FieldText(w.dow), w.dow, Field.DOW);
  }

  /** A macro is read as the fields that say when it fires. */
  lemma MacroIsRead(expr: string, duration: string -> Option<int>)
    requires Expr.MacroWritten(expr).Some?
    ensures Read(expr, duration) == Some(Reading.Calendar(Expr.Words(Expr.MacroWritten(expr).value)))
    ensures Tame(Expr.Words(Expr.MacroWritten(expr).value))
  {
    hide Trim, Expr.MacroWritten, Expr.Legible, Expr.Words, Expr.ExpressionText, SmallSteps, Tame, Fields, Equivalent, Space;
    var w := Expr.MacroWritten(expr).value;
    MacroEquivalent(expr);
    Trimmed(expr);
    Expr.TextIsSplit(w);
    MacroSteps(expr);
    SmallStepsAreTame(w);
  }

  lemma MacroEquivalent(macro: string)
    requires Expr.MacroWritten(macro).Some?
    ensures macro != "" && macro[0] == '@' && !(EVERY <= macro)
    ensures !Space(macro[0]) && !Space(macro[|macro| - 1])
    ensures Equivalent(macro) == Some(Expr.ExpressionText(Expr.MacroWritten(macro).value))
  {
    hide Expr.Legible, Expr.ExpressionText, Expr.Only;
    Expr.MacroText(macro);
    assert macro[1] != 'e' && EVERY[1] == 'e';
  }

  lemma MacroSteps(macro: string)
    requires Expr.MacroWritten(macro).Some?
    ensures SmallSteps(Expr.MacroWritten(macro).value)
  {}

  lemma FirstOfSaid(w: Expr.Written, t: nat, r: Outcome)
    requires Expr.Legible(w) && SmallSteps(w) && |Expr.Words(w)| == 5 && IsNext(Expr.Words(w), t, r)
    ensures IsFirst(Expr.Minutes(w), t, r)
  {
    hide Says, Expr.Said, Expr.Words, Search.FiveYearsOn, SmallSteps;
    forall k: nat ensures k in Expr.Minutes(w) <==> Says(Expr.Words(w), k) { WordsSay(w, k); }
    hide Expr.Minutes;
  }

  lemma WrittenNext(expr: string, duration: string -> Option<int>, w: Expr.Written, t: nat, r: Outcome)
    requires Expr.Legible(w) && Read(expr, duration) == Some(Reading.Calendar(Expr.Words(w)))
    requires Answers(expr, duration, t, r)
    ensures r != Malformed && (SmallSteps(w) ==> IsFirst(Expr.Minutes(w), t, r))
  {
    hide IsNext, Tame, Parses, IsFirst, Expr.Minutes, Expr.Words, SmallSteps, Read, Expr.Legible;
    WordsParse(w);
    if SmallSteps(w) {
      SmallStepsAreTame(w);
      FirstOfSaid(w, t, r);
    }
  }

  lemma MacroNext(expr: string, duration: string -> Option<int>, t: nat, r: Outcome)
    requires Expr.MacroWritten(expr).Some?
    requires Answers(expr, duration, t, r)
    ensures IsFirst(Expr.MacroMinutes(expr), t, r)
  {
    hide Answers, IsFirst, Expr.Minutes, Expr.MacroMinutes, Expr.Words, SmallSteps, Read, Expr.MacroWritten, Tame;
    hide Expr.Legible;
    MacroIsRead(expr, duration);
    MacroSteps(expr);
    Expr.MacroSays(expr);
    WrittenNext(expr, duration, Expr.MacroWritten(expr).value, t, r);
  }

  lemma EveryIsRead(text: string, duration: string -> Option<int>)
    requires text != "" && !Space(text[0]) && !Space(text[|text| - 1])
    ensures Read("@every " + text, duration)
      == if duration(text).None? || duration(text).value < 60_000_000_000 then None else Some(Interval(duration(text).value))
  {
    hide Trim, Space;
    var expr := "@every " + text;
    EveryIsTight(expr, text);
    Trimmed(expr);
    Trimmed(text);
    assert expr[|EVERY|..] == text;
  }

  lemma EveryIsTight(expr: string, text: string)
    requires text != "" && !Space(text[|text| - 1]) && expr == "@every " + text
    ensures !Space(expr[0]) && !Space(expr[|expr| - 1]) && expr[0] == '@' && EVERY <= expr
  {}

  /** The answer for an expression as it was read. */
  ghost predicate Answers(expr: string, duration: string -> Option<int>, t: nat, r: Outcome) {
    && (r == Malformed <==> !Legal(expr, duration))
    && (r != Malformed ==>
      match Read(expr, duration)
      case None => false
      case Some(Interval(d)) => r == At((t + d) / Search.SECOND * Search.SECOND)
      case Some(Calendar(fields)) => |fields| == 5 && (Tame(fields) ==> IsNext(fields, t, r)))
  }

  /**
   The next activation of an expression: refused exactly when its text is not legal; for an
   interval one interval on, to the second; for a calendar the least minute after t that the
   fields name, if one comes within five years. For an expression written out of values, names,
   ranges, stars and steps that is the first minute said, for a macro the first hour, midnight,
   Sunday, month or year begun.
   */
  method NextAfter(expr: string, duration: string -> Option<int>, t: nat) returns (r: Outcome)
    ensures Answers(expr, duration, t, r)
    ensures forall w :: Expr.Legible(w) && expr == Expr.ExpressionText(w) ==>
      r != Malformed && (SmallSteps(w) ==> IsFirst(Expr.Minutes(w), t, r))
    ensures expr in {"@hourly", "@daily", "@midnight", "@weekly", "@monthly", "@yearly", "@annually"} ==>
      IsFirst(Expr.MacroMinutes(expr), t, r)
    ensures forall text :: expr == "@every " + text && text != "" && !Space(text[0]) && !Space(text[|text| - 1]) ==>
      r == match duration(text)
           case None => Malformed
           case Some(d) => if d < 60_000_000_000 then Malformed else At((t + d) / 1_000_000_000 * 1_000_000_000)
  {
    hide Says, Search.Fires, Compiled, Parses, Tame, Search.FiveYearsOn, Fields, Read, IsFirst, Expr.Minutes, Expr.MacroMinutes;
    hide SmallSteps, Expr.ExpressionText, Expr.Legible, Space, IsNext;
    var s := Parse(expr, duration);
    if s.None? {
      r := Malformed;
    } else {
      ghost var reading := Read(expr, duration).value;
      var u := Search.Next(s.value, t);
      r := match u case None => Never case Some(time) => At(time);
      if reading.Calendar? && Tame(reading.fields) {
        NextIs(s.value, reading.fields, t, u);
      }
    }
    assert Answers(expr, duration, t, r);
    AnswersMean(expr, duration, t, r);
    hide Answers;
  }

  /** Any such answer is right for expressions known by their text alone. */
  lemma AnswersMean(expr: string, duration: string -> Option<int>, t: nat, r: Outcome)
    requires Answers(expr, duration, t, r)
    ensures forall w :: Expr.Legible(w) && expr == Expr.ExpressionText(w) ==>
      r != Malformed && (SmallSteps(w) ==> IsFirst(Expr.Minutes(w), t, r))
    ensures expr in {"@hourly", "@daily", "@midnight", "@weekly", "@monthly", "@yearly", "@annually"} ==>
      IsFirst(Expr.MacroMinutes(expr), t, r)
    ensures forall text :: expr == "@every " + text && text != "" && !Space(text[0]) && !Space(text[|text| - 1]) ==>
      r == match duration(text)
           case None => Malformed
           case Some(d) => if d < 60_000_000_000 then Malformed else At((t + d) / 1_000_000_000 * 1_000_000_000)
  {
    hide Answers, IsFirst, Expr.Minutes, Expr.MacroMinutes, SmallSteps, Expr.ExpressionText, Expr.Legible, Space;
    forall w | Expr.Legible(w) && expr == Expr.ExpressionText(w)
      ensures r != Malformed && (SmallSteps(w) ==> IsFirst(Expr.Minutes(w), t, r))
    {
      WrittenIsRead(expr, w, duration);
      WrittenNext(expr, duration, w, t, r);
    }
    MacrosAreKnown(expr);
    hide Expr.MacroWritten;
    if Expr.MacroWritten(expr).Some? { MacroNext(expr, duration, t, r); }
    forall text | expr == "@every " + text && text != "" && !Space(text[0]) && !Space(text[|text| - 1])
      ensures r == match duration(text)
                   case None => Malformed
                   case Some(d) => if d < 60_000_000_000 then Malformed else At((t + d) / 1_000_000_000 * 1_000_000_000)
    {
      EveryNext(text, duration, t, r);
    }
  }

  lemma MacrosAreKnown(macro: string)
    ensures macro in {"@hourly", "@daily", "@midnight", "@weekly", "@monthly", "@yearly", "@annually"} <==>
      Expr.MacroWritten(macro).Some?
  {
    hide Expr.Only, Expr.STAR, Expr.Legible;
  }

  lemma EveryNext(text: string, duration: string -> Option<int>, t: nat, r: Outcome)
    requires text != "" && !Space(text[0]) && !Space(text[|text| - 1])
    requires Answers("@every " + text, duration, t, r)
    ensures r == match duration(text)
                 case None => Malformed
                 case Some(d) => if d < 60_000_000_000 then Malformed else At((t + d) / 1_000_000_000 * 1_000_000_000)
  {
    hide IsNext, Read, Space, Tame, Parses;
    EveryIsRead(text, duration);
  }

  lemma NextIs(s: Search.Schedule, fields: seq<string>, t: nat, u: Option<nat>)
    requires CompiledAs(s, fields) && Tame(fields)
    requires var start := t / Search.MINUTE + 1;
      match u
      case Some(time) =>
        && t < time && time % Search.MINUTE == 0 && start <= time / Search.MINUTE < Search.FiveYearsOn(start)
        && Search.Fires(s, time / Search.MINUTE) && Search.Silent(s, start, time / Search.MINUTE)
      case None => Search.Silent(s, start, Search.FiveYearsOn(start))
    ensures IsNext(fields, t, match u case None => Never case Some(time) => At(time))
  {
    hide Says, Search.Fires, Compiled, Search.FiveYearsOn;
    forall j: nat ensures Search.Fires(s, j) <==> Says(fields, j) { FiresAsSaid(s, fields, j); }
  }
}
