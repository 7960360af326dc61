/**
 * The second phase of `format` and the whole operation. After the pattern's
 * tokens have become placeholders `{0}` .. `{29}`, thirty guarded global
 * replaces, in code order, put each field's text in place of its
 * placeholder. `Render` is the reference meaning: every token of the pattern
 * replaced by its text and every other character kept. `FormatIsRender`
 * proves that `Format` is `Render` of the tokenized pattern, for patterns and
 * labels without a `{`.
 */
module Formatter {
  import opened Wrappers
  import opened JsSemantics
  import opened Replace
  import opened Tokens
  import Calendar

  /** What `format` reads from the date: the local calendar fields, the
      weekday `getDay()` (0 = Sunday) and `getTimezoneOffset()` in minutes. */
  datatype LocalView = LocalView(date: Calendar.DateTime, weekday: int, offset: int)

  predicate ViewOk(v: LocalView) {
    Calendar.Valid(v.date) && 0 <= v.weekday < 7
  }

  /** The day names, month names and AM/PM designators in use. */
  datatype Labels = Labels(dayNames: seq<string>, monthNames: seq<string>, am: string, pm: string)

  /** The name tables are a 7-tuple and a 12-tuple. */
  predicate LabelsOk(l: Labels) {
    |l.dayNames| == 7 && |l.monthNames| == 12
  }

  const DefaultDayNames: seq<string> := ["Sunday", "Monday", "Tuesday", "Wednesday", "Thursday", "Friday", "Saturday"]

  const DefaultMonthNames: seq<string> := ["January", "February", "March", "April", "May", "June", "July",
    "August", "September", "October", "November", "December"]

  /** The labels of a call: each argument left out takes its English default. */
  function LabelsFor(dayNames: Option<seq<string>>, monthNames: Option<seq<string>>, am: Option<string>, pm: Option<string>): (l: Labels)
    ensures (dayNames.None? || |dayNames.value| == 7) && (monthNames.None? || |monthNames.value| == 12) ==> LabelsOk(l)
    ensures dayNames.None? ==> l.dayNames == DefaultDayNames
    ensures monthNames.None? ==> l.monthNames == DefaultMonthNames
    ensures am.None? ==> l.am == "AM"
    ensures pm.None? ==> l.pm == "PM"
    ensures dayNames.Some? ==> l.dayNames == dayNames.value
    ensures monthNames.Some? ==> l.monthNames == monthNames.value
    ensures am.Some? ==> l.am == am.value
    ensures pm.Some? ==> l.pm == pm.value
  {
    Labels(dayNames.GetOr(DefaultDayNames), monthNames.GetOr(DefaultMonthNames), am.GetOr("AM"), pm.GetOr("PM"))
  }

  // ---------------------------------------------------------------------------
  // Field texts

  /** `n.toString().padStart(2, "0")`. */
  function Pad2(n: nat): string {
    PadStart(NatToString(n), 2, '0')
  }

  /** `n.toString().padStart(3, "0")`. */
  function Pad3(n: nat): string {
    PadStart(NatToString(n), 3, '0')
  }

  /** `getFullYear().toString().substr(2)`: the year's numeral without its first two characters. */
  function YearTail(year: int): (s: string)
    ensures AllDigits(s)
  {
    var t := IntToString(year);
    assert year < 0 ==> forall i :: 1 <= i < |t| ==> IsDigit(t[i]) by {
      if year < 0 {
        forall i | 1 <= i < |t| ensures IsDigit(t[i]) {
          assert t[i] == t[1..][i - 1];
        }
      }
    }
    SubstrFrom(t, 2)
  }

  /** `parseInt(s).toString()` on a string of digits: the number it denotes, or "NaN" for "". */
  function ParseIntText(s: string): string
    requires AllDigits(s)
  {
    if s == [] then "NaN" else NatToString(DigitsValue(s))
  }

  /** The hour on a 12-hour dial: 0 reads 12, 13 .. 23 read 1 .. 11. */
  function Hour12(hour: int): (r: int)
    requires 0 <= hour < 24
    ensures 1 <= r <= 12 && r % 12 == hour % 12
  {
    if hour > 12 then hour - 12 else if hour == 0 then 12 else hour
  }

  /** `(ms / 10).toFixed(0)` as a number: hundredths of a second, rounded half up. */
  function Centiseconds(ms: nat): (r: nat)
    ensures 10 * r <= ms + 5 < 10 * r + 10
  {
    (ms + 5) / 10
  }

  /** `(ms / 100).toFixed(0)` as a number: tenths of a second, rounded half up. */
  function Deciseconds(ms: nat): (r: nat)
    ensures 100 * r <= ms + 50 < 100 * r + 100
  {
    (ms + 50) / 100
  }

  /** `K` and `zzz`: sign, two-digit hours, `:`, two-digit minutes of the
      offset; the sign is `+` only for a positive offset. */
  function OffsetText(o: int): string {
    (if o > 0 then "+" else "-") + Pad2(Abs(o) / 60) + ":" + Pad2(Abs(JsRem(o, 60)))
  }

  /** `zz` (`pad`) and `z`: a non-negative offset as rounded hours, a
      negative one as `-` and its truncated hours. */
  function OffsetHoursText(o: int, pad: bool): string {
    if o >= 0 then
      var h := (o + 30) / 60;
      if pad then Pad2(h) else NatToString(h)
    else
      var h := Abs(o) / 60;
      "-" + (if pad then Pad2(h) else NatToString(h))
  }

  /** `hours > 11 ? pm : am`. */
  function Designator(hour: int, l: Labels): string {
    if hour > 11 then l.pm else l.am
  }

  /** `s[0]` written into text: the first character, or "undefined" for "". */
  function FirstCharText(s: string): string {
    if s == [] then "undefined" else [s[0]]
  }

  /** The text that replaces placeholder `code`. */
  function FieldText(code: nat, v: LocalView, l: Labels): string
    requires code < FieldCount && ViewOk(v) && LabelsOk(l)
  {
    var d := v.date;
    match code
    case 0 => IntToString(d.year)
    case 1 => YearTail(d.year)
    case 2 => ParseIntText(YearTail(d.year))
    case 3 => l.monthNames[d.month]
    case 4 => SubstrPrefix(l.monthNames[d.month], 3)
    case 5 => Pad2(d.month + 1)
    case 6 => NatToString(d.month + 1)
    case 7 => l.dayNames[v.weekday]
    case 8 => SubstrPrefix(l.dayNames[v.weekday], 3)
    case 9 => Pad2(d.day)
    case 10 => NatToString(d.day)
    case 11 => Pad2(Hour12(d.hour))
    case 12 => NatToString(Hour12(d.hour))
    case 13 => Pad2(d.hour)
    case 14 => NatToString(d.hour)
    case 15 => Pad2(d.minute)
    case 16 => NatToString(d.minute)
    case 17 => Pad2(d.second)
    case 18 => NatToString(d.second)
    case 19 => Pad3(d.ms)
    case 20 => Pad2(Centiseconds(d.ms))
    case 21 => NatToString(Deciseconds(d.ms))
    case 22 => if d.ms == 0 then "" else NatToString(d.ms)
    case 23 => if NatToString(Centiseconds(d.ms)) == "0" then "" else NatToString(Centiseconds(d.ms))
    case 24 => if NatToString(Deciseconds(d.ms)) == "0" then "" else NatToString(Deciseconds(d.ms))
    case 25 => OffsetText(v.offset)
    case 26 => OffsetHoursText(v.offset, true)
    case 27 => OffsetHoursText(v.offset, false)
    case 28 => Designator(d.hour, l)
    case _ => FirstCharText(Designator(d.hour, l))
  }

  // ---------------------------------------------------------------------------
  // Resolution and the operation

  /** `if (s.indexOf("{code}") > -1) s = s.replace(/\{code\}/g, text)`. */
  function ResolveStep(s: string, code: nat, text: string): string {
    if Contains(s, Placeholder(code)) then ReplaceAll(s, Placeholder(code), text) else s
  }

  /** The text of every field, indexed by its code. */
  function Texts(v: LocalView, l: Labels): (r: seq<string>)
    requires ViewOk(v) && LabelsOk(l)
    ensures |r| == FieldCount
    ensures forall code :: 0 <= code < FieldCount ==> r[code] == FieldText(code, v, l)
  {
    seq(FieldCount, code requires 0 <= code < FieldCount => FieldText(code, v, l))
  }

  /** The first `k` resolution steps, in code order, with `texts[code]` written for `{code}`. */
  function ResolveUpTo(s: string, k: nat, texts: seq<string>): string
    requires k <= |texts|
  {
    if k == 0 then s else ResolveStep(ResolveUpTo(s, k - 1, texts), k - 1, texts[k - 1])
  }

  /** `date.format(pattern, dayNames, monthNames, am, pm)`; a `pattern` of `None`
      stands for one left out or `null`, any other `None` for an argument left out. */
  function Format(v: LocalView, pattern: Option<string>, dayNames: Option<seq<string>>, monthNames: Option<seq<string>>,
                  am: Option<string>, pm: Option<string>): (r: string)
    requires ViewOk(v)
    requires dayNames.Some? ==> |dayNames.value| == 7
    requires monthNames.Some? ==> |monthNames.value| == 12
    ensures pattern.None? || pattern.value == "" ==> r == ""
  {
    var p := pattern.GetOr("");
    if p == "" then "" else ResolveUpTo(Tokenize(p), FieldCount, Texts(v, LabelsFor(dayNames, monthNames, am, pm)))
  }

  // ---------------------------------------------------------------------------
  // The reference meaning

  predicate CodesOk(segs: seq<Segment>) {
    forall i :: 0 <= i < |segs| && segs[i].Field? ==> segs[i].code < FieldCount
  }

  /** A segment with the fields below `k` written as their text and the others as placeholders. */
  function PartialText(seg: Segment, k: nat, texts: seq<string>): string
    requires seg.Field? ==> seg.code < FieldCount
    requires |texts| == FieldCount
  {
    match seg
    case Lit(c) => [c]
    case Field(code) => if code < k then texts[code] else Placeholder(code)
  }

  function Partial(segs: seq<Segment>, k: nat, texts: seq<string>): string
    requires CodesOk(segs) && |texts| == FieldCount
  {
    if segs == [] then [] else PartialText(segs[0], k, texts) + Partial(segs[1..], k, texts)
  }

  predicate SegOk(seg: Segment) {
    seg.Field? ==> seg.code < FieldCount
  }

  /** The text one segment renders to: a literal as itself, a field as `texts[code]`. */
  function SegmentText(seg: Segment, texts: seq<string>): string
    requires SegOk(seg) && |texts| == FieldCount
  {
    match seg
    case Lit(c) => [c]
    case Field(code) => texts[code]
  }

  /** Each token written as its field's text, each literal as itself; `format`
      uses `Texts(v, l)`. */
  function Render(segs: seq<Segment>, texts: seq<string>): string
    requires CodesOk(segs) && |texts| == FieldCount
  {
    if segs == [] then [] else
      CodesTail(segs);
      SegmentText(segs[0], texts) + Render(segs[1..], texts)
  }

  lemma CodesTail(segs: seq<Segment>)
    requires segs != [] && CodesOk(segs)
    ensures SegOk(segs[0]) && CodesOk(segs[1..])
  {
    assert forall i :: 0 <= i < |segs| - 1 ==> segs[1..][i] == segs[i + 1];
  }

  /** Rendering peels off the first segment. */
  lemma RenderStep(segs: seq<Segment>, texts: seq<string>)
    requires segs != [] && CodesOk(segs) && |texts| == FieldCount
    ensures SegOk(segs[0]) && CodesOk(segs[1..])
    ensures Render(segs, texts) == SegmentText(segs[0], texts) + Render(segs[1..], texts)
  {
    CodesTail(segs);
  }

  lemma CodesConcat(a: seq<Segment>, b: seq<Segment>)
    requires CodesOk(a) && CodesOk(b)
    ensures CodesOk(a + b)
  {
  }

  /** Rendering distributes over concatenation of segment lists. */
  lemma {:induction false} RenderConcat(a: seq<Segment>, b: seq<Segment>, texts: seq<string>)
    requires CodesOk(a) && CodesOk(b) && |texts| == FieldCount
    ensures CodesOk(a + b)
    ensures Render(a + b, texts) == Render(a, texts) + Render(b, texts)
  {
    CodesConcat(a, b);
    if a == [] {
      assert a + b == b;
    } else {
      var ab := a + b;
      assert ab[0] == a[0] && ab[1..] == a[1..] + b;
      RenderStep(a, texts);
      RenderStep(ab, texts);
      RenderConcat(a[1..], b, texts);
      ConcatAssoc(SegmentText(a[0], texts), Render(a[1..], texts), Render(b, texts));
    }
  }

  predicate BraceFree(s: string) {
    '{' !in s
  }

  /** No name or designator holds a `{`. */
  predicate LabelsBraceFree(l: Labels) {
    && (forall i :: 0 <= i < |l.dayNames| ==> BraceFree(l.dayNames[i]))
    && (forall i :: 0 <= i < |l.monthNames| ==> BraceFree(l.monthNames[i]))
    && BraceFree(l.am) && BraceFree(l.pm)
  }

  lemma DigitsBraceFree(s: string)
    requires AllDigits(s)
    ensures BraceFree(s)
  {
  }

  lemma PadBraceFree(n: nat, width: nat)
    ensures BraceFree(PadStart(NatToString(n), width, '0'))
  {
    PadStartValue(NatToString(n), width);
    DigitsBraceFree(PadStart(NatToString(n), width, '0'));
  }

  lemma OffsetBraceFree(o: int)
    ensures BraceFree(OffsetText(o))
    ensures BraceFree(OffsetHoursText(o, true)) && BraceFree(OffsetHoursText(o, false))
  {
    PadBraceFree(Abs(o) / 60, 2);
    PadBraceFree(Abs(JsRem(o, 60)), 2);
    DigitsBraceFree(NatToString(Abs(o) / 60));
    if o >= 0 {
      PadBraceFree((o + 30) / 60, 2);
      DigitsBraceFree(NatToString((o + 30) / 60));
    }
  }

  /** Field texts hold no `{` when the labels hold none. */
  lemma FieldTextBraceFree(code: nat, v: LocalView, l: Labels)
    requires code < FieldCount && ViewOk(v) && LabelsOk(l) && LabelsBraceFree(l)
    ensures BraceFree(FieldText(code, v, l))
  {
    var d := v.date;
    match code
    case 0 => DigitsBraceFree(NatToString(Abs(d.year)));
    case 1 => DigitsBraceFree(YearTail(d.year));
    case 2 =>
      if YearTail(d.year) != [] {
        DigitsBraceFree(NatToString(DigitsValue(YearTail(d.year))));
      }
    case 3 =>
    case 4 => assert SubstrPrefix(l.monthNames[d.month], 3) <= l.monthNames[d.month];
    case 5 => PadBraceFree(d.month + 1, 2);
    case 6 => DigitsBraceFree(NatToString(d.month + 1));
    case 7 =>
    case 8 => assert SubstrPrefix(l.dayNames[v.weekday], 3) <= l.dayNames[v.weekday];
    case 9 => PadBraceFree(d.day, 2);
    case 10 => DigitsBraceFree(NatToString(d.day));
    case 11 => PadBraceFree(Hour12(d.hour), 2);
    case 12 => DigitsBraceFree(NatToString(Hour12(d.hour)));
    case 13 => PadBraceFree(d.hour, 2);
    case 14 => DigitsBraceFree(NatToString(d.hour));
    case 15 => PadBraceFree(d.minute, 2);
    case 16 => DigitsBraceFree(NatToString(d.minute));
    case 17 => PadBraceFree(d.second, 2);
    case 18 => DigitsBraceFree(NatToString(d.second));
    case 19 => PadBraceFree(d.ms, 3);
    case 20 => PadBraceFree(Centiseconds(d.ms), 2);
    case 21 => DigitsBraceFree(NatToString(Deciseconds(d.ms)));
    case 22 => DigitsBraceFree(NatToString(d.ms));
    case 23 => DigitsBraceFree(NatToString(Centiseconds(d.ms)));
    case 24 => DigitsBraceFree(NatToString(Deciseconds(d.ms)));
    case 25 => OffsetBraceFree(v.offset);
    case 26 => OffsetBraceFree(v.offset);
    case 27 => OffsetBraceFree(v.offset);
    case 28 =>
    case _ =>
  }

  // ---------------------------------------------------------------------------
  // Resolution writes the reference meaning

  lemma PlaceholderShape(code: nat)
    ensures |Placeholder(code)| == |NatToString(code)| + 2
    ensures Placeholder(code)[|NatToString(code)| + 1] == '}'
    ensures forall i :: 1 <= i <= |NatToString(code)| ==> Placeholder(code)[i] == NatToString(code)[i - 1]
  {
  }

  /** No placeholder starts where a different one does. */
  lemma PlaceholderMismatch(k: nat, c: nat, rest: string)
    requires k != c
    ensures !(Placeholder(k) <= Placeholder(c) + rest)
  {
    var dk, dc := NatToString(k), NatToString(c);
    var pk, s := Placeholder(k), Placeholder(c) + rest;
    PlaceholderShape(k);
    PlaceholderShape(c);
    if |dk| < |dc| {
      assert s[|dk| + 1] == dc[|dk|] && pk[|dk| + 1] == '}';
    } else if |dk| > |dc| {
      assert s[|dc| + 1] == '}' && pk[|dc| + 1] == dk[|dc|];
    }
    if pk <= s {
      if |dk| == |dc| {
        forall i | 0 <= i < |dk|
          ensures dk[i] == dc[i]
        {
          assert pk[i + 1] == dk[i];
          assert s[i + 1] == dc[i];
        }
        assert dk == dc;
        NatToStringInjective(k, c);
      }
    }
  }

  lemma ReplaceAfterText(a: string, rest: string, code: nat, text: string)
    requires BraceFree(a)
    ensures ReplaceAll(a + rest, Placeholder(code), text) == a + ReplaceAll(rest, Placeholder(code), text)
  {
    ReplaceSkipsPrefix(a, rest, Placeholder(code), text);
  }

  lemma ReplaceAtPlaceholder(c: nat, rest: string, k: nat, text: string)
    ensures ReplaceAll(Placeholder(c) + rest, Placeholder(k), text)
         == (if c == k then text else Placeholder(c)) + ReplaceAll(rest, Placeholder(k), text)
  {
    if c == k {
      ReplaceAtSame(c, rest, text);
    } else {
      ReplaceAtOther(c, rest, k, text);
    }
  }

  lemma ReplaceAtSame(c: nat, rest: string, text: string)
    ensures ReplaceAll(Placeholder(c) + rest, Placeholder(c), text) == text + ReplaceAll(rest, Placeholder(c), text)
  {
    var p := Placeholder(c);
    var s := p + rest;
    assert p <= s;
    assert s[|p|..] == rest;
  }

  lemma ReplaceAtOther(c: nat, rest: string, k: nat, text: string)
    requires c != k
    ensures ReplaceAll(Placeholder(c) + rest, Placeholder(k), text) == Placeholder(c) + ReplaceAll(rest, Placeholder(k), text)
  {
    var pc, pk := Placeholder(c), Placeholder(k);
    var s, t := pc + rest, ReplaceAll(rest, pk, text);
    PlaceholderMismatch(k, c, rest);
    assert s[1..] == pc[1..] + rest;
    assert ReplaceAll(s, pk, text) == [s[0]] + ReplaceAll(s[1..], pk, text);
    assert pc[1..] == NatToString(c) + "}";
    DigitsBraceFree(NatToString(c));
    ReplaceAfterText(pc[1..], rest, k, text);
    ConcatAssoc([s[0]], pc[1..], t);
    assert [s[0]] + pc[1..] == pc;
  }

  /** No literal is a `{`. */
  predicate LitsBraceFree(segs: seq<Segment>) {
    forall i :: 0 <= i < |segs| && segs[i].Lit? ==> segs[i].c != '{'
  }

  /** No field text holds a `{`. */
  predicate TextsBraceFree(texts: seq<string>) {
    forall code :: 0 <= code < |texts| ==> BraceFree(texts[code])
  }

  lemma TextsAreBraceFree(v: LocalView, l: Labels)
    requires ViewOk(v) && LabelsOk(l) && LabelsBraceFree(l)
    ensures TextsBraceFree(Texts(v, l))
  {
    forall code | 0 <= code < FieldCount
      ensures BraceFree(Texts(v, l)[code])
    {
      FieldTextBraceFree(code, v, l);
    }
  }

  lemma {:induction false} PartialStep(segs: seq<Segment>, k: nat, texts: seq<string>)
    requires k < FieldCount == |texts| && CodesOk(segs)
    requires LitsBraceFree(segs) && TextsBraceFree(texts)
    ensures ReplaceAll(Partial(segs, k, texts), Placeholder(k), texts[k]) == Partial(segs, k + 1, texts)
  {
    if segs != [] {
      var rest := Partial(segs[1..], k, texts);
      var text := texts[k];
      assert CodesOk(segs[1..]) && LitsBraceFree(segs[1..]);
      PartialStep(segs[1..], k, texts);
      match segs[0]
      case Lit(c) => ReplaceAfterText([c], rest, k, text);
      case Field(code) =>
        if code < k {
          ReplaceAfterText(texts[code], rest, k, text);
        } else {
          ReplaceAtPlaceholder(code, rest, k, text);
        }
    }
  }

  lemma {:induction false} PartialNone(segs: seq<Segment>, texts: seq<string>)
    requires CodesOk(segs) && |texts| == FieldCount
    ensures Partial(segs, 0, texts) == Encode(segs)
  {
    if segs != [] {
      assert CodesOk(segs[1..]);
      PartialNone(segs[1..], texts);
    }
  }

  lemma {:induction false} PartialAll(segs: seq<Segment>, texts: seq<string>)
    requires CodesOk(segs) && |texts| == FieldCount
    ensures Partial(segs, FieldCount, texts) == Render(segs, texts)
  {
    if segs != [] {
      assert CodesOk(segs[1..]);
      PartialAll(segs[1..], texts);
    }
  }

  /** A resolution step is a plain global replace: the guard changes nothing. */
  lemma ResolveStepReplace(s: string, code: nat, text: string)
    ensures ResolveStep(s, code, text) == ReplaceAll(s, Placeholder(code), text)
  {
    GuardedReplace(s, Placeholder(code), text);
  }

  /** One more step writes field `k - 1` into a partly resolved text. */
  lemma ResolveExtend(s: string, segs: seq<Segment>, k: nat, texts: seq<string>)
    requires 0 < k <= FieldCount == |texts| && CodesOk(segs)
    requires LitsBraceFree(segs) && TextsBraceFree(texts)
    requires ResolveUpTo(s, k - 1, texts) == Partial(segs, k - 1, texts)
    ensures ResolveUpTo(s, k, texts) == Partial(segs, k, texts)
  {
    var j := k - 1;
    ResolveStepReplace(Partial(segs, j, texts), j, texts[j]);
    PartialStep(segs, j, texts);
  }

  /** After `k` steps the fields below `k` are written and the others still wait as placeholders. */
  lemma {:induction false} ResolvePartial(segs: seq<Segment>, k: nat, texts: seq<string>)
    requires k <= FieldCount == |texts| && CodesOk(segs)
    requires LitsBraceFree(segs) && TextsBraceFree(texts)
    ensures ResolveUpTo(Encode(segs), k, texts) == Partial(segs, k, texts)
  {
    if k == 0 {
      PartialNone(segs, texts);
    } else {
      ResolvePartial(segs, k - 1, texts);
      ResolveExtend(Encode(segs), segs, k, texts);
    }
  }

  /** `format` writes the pattern with every token (longest match first)
      replaced by its field's text and every other character kept, provided
      neither the pattern nor a label holds a `{`. */
  lemma FormatIsRender(v: LocalView, pattern: string, dayNames: Option<seq<string>>, monthNames: Option<seq<string>>,
                       am: Option<string>, pm: Option<string>)
    requires ViewOk(v)
    requires dayNames.Some? ==> |dayNames.value| == 7
    requires monthNames.Some? ==> |monthNames.value| == 12
    requires pattern != [] && BraceFree(pattern) && LabelsBraceFree(LabelsFor(dayNames, monthNames, am, pm))
    ensures CodesOk(Lex(pattern))
    ensures Format(v, Some(pattern), dayNames, monthNames, am, pm) == Render(Lex(pattern), Texts(v, LabelsFor(dayNames, monthNames, am, pm)))
  {
    var l := LabelsFor(dayNames, monthNames, am, pm);
    RulesAreOk();
    LexCodes(Rules, pattern);
    LexLits(Rules, pattern);
    TokenizeIsEncodedLex(pattern);
    TextsAreBraceFree(v, l);
    ResolvePartial(Lex(pattern), FieldCount, Texts(v, l));
    PartialAll(Lex(pattern), Texts(v, l));
  }

  lemma {:induction false} RenderBraceFree(segs: seq<Segment>, texts: seq<string>)
    requires CodesOk(segs) && |texts| == FieldCount && LitsBraceFree(segs) && TextsBraceFree(texts)
    ensures BraceFree(Render(segs, texts))
  {
    if segs != [] {
      assert CodesOk(segs[1..]) && LitsBraceFree(segs[1..]);
      RenderBraceFree(segs[1..], texts);
    }
  }

  /** Every placeholder is resolved: nothing of the form `{n}` is left in the result. */
  lemma FormatResolvesAll(v: LocalView, pattern: string, dayNames: Option<seq<string>>, monthNames: Option<seq<string>>,
                          am: Option<string>, pm: Option<string>)
    requires ViewOk(v)
    requires dayNames.Some? ==> |dayNames.value| == 7
    requires monthNames.Some? ==> |monthNames.value| == 12
    requires BraceFree(pattern) && LabelsBraceFree(LabelsFor(dayNames, monthNames, am, pm))
    ensures BraceFree(Format(v, Some(pattern), dayNames, monthNames, am, pm))
  {
    if pattern != [] {
      FormatIsRender(v, pattern, dayNames, monthNames, am, pm);
      RulesAreOk();
      LexLits(Rules, pattern);
      var l := LabelsFor(dayNames, monthNames, am, pm);
      TextsAreBraceFree(v, l);
      RenderBraceFree(Lex(pattern), Texts(v, l));
    }
  }

  lemma {:induction false} NoPlaceholder(s: string, code: nat)
    requires BraceFree(s)
    ensures !Contains(s, Placeholder(code))
    decreases |s|
  {
    if s != [] {
      assert s[0] != Placeholder(code)[0];
      NoPlaceholder(s[1..], code);
    }
  }

  /** A resolution step leaves a text without `{` as it is. */
  lemma ResolveStepKeeps(s: string, code: nat, text: string)
    requires BraceFree(s)
    ensures ResolveStep(s, code, text) == s
  {
    NoPlaceholder(s, code);
  }

  lemma {:induction false} ResolveNothing(s: string, k: nat, texts: seq<string>)
    requires k <= |texts| && BraceFree(s)
    ensures ResolveUpTo(s, k, texts) == s
  {
    if k > 0 {
      ResolveNothing(s, k - 1, texts);
      ResolveStepKeeps(s, k - 1, texts[k - 1]);
    }
  }

  /** A pattern with no token letter and no `{` comes back unchanged, whatever the labels. */
  lemma FormatLiteral(v: LocalView, pattern: string, dayNames: Option<seq<string>>, monthNames: Option<seq<string>>,
                      am: Option<string>, pm: Option<string>)
    requires ViewOk(v)
    requires dayNames.Some? ==> |dayNames.value| == 7
    requires monthNames.Some? ==> |monthNames.value| == 12
    requires BraceFree(pattern) && LetterFree(pattern)
    ensures Format(v, Some(pattern), dayNames, monthNames, am, pm) == pattern
  {
    if pattern != [] {
      RulesAreOk();
      LexLiteral(Rules, pattern);
      TokenizeIsEncodedLex(pattern);
      ResolveNothing(pattern, FieldCount, Texts(v, LabelsFor(dayNames, monthNames, am, pm)));
    }
  }

  // ---------------------------------------------------------------------------
  // What the field texts mean

  /** Two-digit padding of any number is at least two digits long and reads back as the number. */
  lemma Pad2Digits(n: nat)
    ensures |Pad2(n)| >= 2 && AllDigits(Pad2(n)) && DigitsValue(Pad2(n)) == n
  {
    PadStartValue(NatToString(n), 2);
  }

  /** Two-digit padding is exact below 100 and reads back as the number. */
  lemma Pad2Value(n: nat)
    requires n < 100
    ensures |Pad2(n)| == 2 && AllDigits(Pad2(n)) && DigitsValue(Pad2(n)) == n
  {
    NatToStringShort(n);
    PadStartValue(NatToString(n), 2);
  }

  /** Three-digit padding is exact below 1000 and reads back as the number. */
  lemma Pad3Value(n: nat)
    requires n < 1000
    ensures |Pad3(n)| == 3 && AllDigits(Pad3(n)) && DigitsValue(Pad3(n)) == n
  {
    NatToStringShort(n);
    PadStartValue(NatToString(n), 3);
  }

  /** `MM` is the month number (January = 1) in two digits, `M` the same without a leading zero. */
  lemma MonthNumberFields(v: LocalView, l: Labels)
    requires ViewOk(v) && LabelsOk(l)
    ensures |FieldText(5, v, l)| == 2 && AllDigits(FieldText(5, v, l)) && DigitsValue(FieldText(5, v, l)) == v.date.month + 1
    ensures FieldText(6, v, l) == NatToString(v.date.month + 1)
  {
    var m := v.date.month + 1;
    Pad2Value(m);
    assert FieldText(5, v, l) == Pad2(m);
  }

  /** `dd` is the day of the month in two digits, `d` the same without a leading zero. */
  lemma DayNumberFields(v: LocalView, l: Labels)
    requires ViewOk(v) && LabelsOk(l)
    ensures |FieldText(9, v, l)| == 2 && AllDigits(FieldText(9, v, l)) && DigitsValue(FieldText(9, v, l)) == v.date.day
    ensures FieldText(10, v, l) == NatToString(v.date.day)
  {
    var d := v.date.day;
    assert d <= Calendar.MonthLength(v.date.year, v.date.month) <= 31;
    Pad2Value(d);
    assert FieldText(9, v, l) == Pad2(d);
  }

  /** `hh` is the hour on a 12-hour dial in two digits, `h` the same without a leading zero. */
  lemma TwelveHourFields(v: LocalView, l: Labels)
    requires ViewOk(v) && LabelsOk(l)
    ensures |FieldText(11, v, l)| == 2 && AllDigits(FieldText(11, v, l)) && DigitsValue(FieldText(11, v, l)) == Hour12(v.date.hour)
    ensures FieldText(12, v, l) == NatToString(Hour12(v.date.hour))
  {
    var h := Hour12(v.date.hour);
    Pad2Value(h);
    assert FieldText(11, v, l) == Pad2(h);
  }

  /** `HH` is the hour on a 24-hour dial in two digits, `H` the same without a leading zero. */
  lemma HourFields(v: LocalView, l: Labels)
    requires ViewOk(v) && LabelsOk(l)
    ensures |FieldText(13, v, l)| == 2 && AllDigits(FieldText(13, v, l)) && DigitsValue(FieldText(13, v, l)) == v.date.hour
    ensures FieldText(14, v, l) == NatToString(v.date.hour)
  {
    var n := v.date.hour;
    Pad2Value(n);
    assert FieldText(13, v, l) == Pad2(n);
  }

  /** `mm` is the minutes in two digits, `m` the same without a leading zero. */
  lemma MinuteFields(v: LocalView, l: Labels)
    requires ViewOk(v) && LabelsOk(l)
    ensures |FieldText(15, v, l)| == 2 && AllDigits(FieldText(15, v, l)) && DigitsValue(FieldText(15, v, l)) == v.date.minute
    ensures FieldText(16, v, l) == NatToString(v.date.minute)
  {
    var n := v.date.minute;
    Pad2Value(n);
    assert FieldText(15, v, l) == Pad2(n);
  }

  /** `ss` is the seconds in two digits, `s` the same without a leading zero. */
  lemma SecondFields(v: LocalView, l: Labels)
    requires ViewOk(v) && LabelsOk(l)
    ensures |FieldText(17, v, l)| == 2 && AllDigits(FieldText(17, v, l)) && DigitsValue(FieldText(17, v, l)) == v.date.second
    ensures FieldText(18, v, l) == NatToString(v.date.second)
  {
    var n := v.date.second;
    Pad2Value(n);
    assert FieldText(17, v, l) == Pad2(n);
  }

  /** `fff` is the milliseconds in three digits. */
  lemma MillisField(v: LocalView, l: Labels)
    requires ViewOk(v) && LabelsOk(l)
    ensures |FieldText(19, v, l)| == 3 && AllDigits(FieldText(19, v, l)) && DigitsValue(FieldText(19, v, l)) == v.date.ms
  {
    var n := v.date.ms;
    Pad3Value(n);
    assert FieldText(19, v, l) == Pad3(n);
  }

  lemma ZeroNumeral(n: nat)
    ensures NatToString(n) == "0" <==> n == 0
  {
    if NatToString(n) == "0" {
      assert DigitsValue("0") == 0;
    }
  }

  /** `ff` is the milliseconds to the nearest hundredth of a second, padded to two digits. */
  lemma CentisecondsField(v: LocalView, l: Labels)
    requires ViewOk(v) && LabelsOk(l)
    ensures AllDigits(FieldText(20, v, l)) && DigitsValue(FieldText(20, v, l)) == Centiseconds(v.date.ms)
    ensures |FieldText(20, v, l)| >= 2
  {
    CentisecondsText(v, l);
    Pad2Digits(Centiseconds(v.date.ms));
  }

  lemma CentisecondsText(v: LocalView, l: Labels)
    requires ViewOk(v) && LabelsOk(l)
    ensures FieldText(20, v, l) == Pad2(Centiseconds(v.date.ms))
  {
  }

  /** `FFF` is the milliseconds without padding, empty exactly when they are zero. */
  lemma TrimmedMillisField(v: LocalView, l: Labels)
    requires ViewOk(v) && LabelsOk(l)
    ensures (FieldText(22, v, l) == "") <==> v.date.ms == 0
    ensures FieldText(22, v, l) != "" ==> FieldText(22, v, l) == NatToString(v.date.ms)
  {
  }

  /** `FF` and `F` are `ff` and `f` unpadded, empty exactly when they round to zero. */
  lemma TrimmedFractionFields(v: LocalView, l: Labels)
    requires ViewOk(v) && LabelsOk(l)
    ensures (FieldText(23, v, l) == "") <==> v.date.ms < 5
    ensures FieldText(23, v, l) != "" ==> FieldText(23, v, l) == NatToString(Centiseconds(v.date.ms))
    ensures (FieldText(24, v, l) == "") <==> v.date.ms < 50
    ensures FieldText(24, v, l) != "" ==> FieldText(24, v, l) == NatToString(Deciseconds(v.date.ms))
  {
    ZeroNumeral(Centiseconds(v.date.ms));
    ZeroNumeral(Deciseconds(v.date.ms));
  }

  /** `K`/`zzz` for an offset under 100 hours: six characters, the sign `+`
      exactly for a positive offset, and the hours and minutes read back to
      the offset's size. */
  lemma OffsetRoundTrip(o: int)
    requires Abs(o) < 6000
    ensures var t := OffsetText(o);
      && |t| == 6 && t[3] == ':'
      && (t[0] == '+' <==> o > 0) && (t[0] == '-' <==> o <= 0)
      && AllDigits(t[1..3]) && AllDigits(t[4..6])
      && DigitsValue(t[1..3]) * 60 + DigitsValue(t[4..6]) == Abs(o)
      && DigitsValue(t[4..6]) < 60
  {
    var h, m := Abs(o) / 60, Abs(JsRem(o, 60));
    OffsetParts(o);
    Pad2Value(h);
    Pad2Value(m);
    OffsetLayout(if o > 0 then "+" else "-", Pad2(h), Pad2(m));
  }

  /** The hours and minutes of an offset under 100 hours. */
  lemma OffsetParts(o: int)
    requires Abs(o) < 6000
    ensures Abs(o) / 60 < 100 && Abs(JsRem(o, 60)) < 60
    ensures Abs(o) / 60 * 60 + Abs(JsRem(o, 60)) == Abs(o)
  {
  }

  lemma OffsetLayout(sign: string, a: string, b: string)
    requires |sign| == 1 && |a| == 2 && |b| == 2
    ensures var t := sign + a + ":" + b;
      |t| == 6 && t[0] == sign[0] && t[1..3] == a && t[3] == ':' && t[4..6] == b
  {
  }

  /** `zz` and `z`: a non-negative offset is written as the nearest whole
      hour (halves up), a negative one as `-` and its hours truncated toward
      zero. */
  lemma OffsetHoursMeaning(o: int)
    ensures o >= 0 ==>
      var t := OffsetHoursText(o, false);
      AllDigits(t) && 60 * DigitsValue(t) <= o + 30 < 60 * DigitsValue(t) + 60
    ensures o >= 0 ==>
      var t := OffsetHoursText(o, true);
      AllDigits(t) && |t| >= 2 && DigitsValue(t) == DigitsValue(OffsetHoursText(o, false))
    ensures o < 0 ==>
      var t := OffsetHoursText(o, false);
      t[0] == '-' && AllDigits(t[1..]) && 60 * DigitsValue(t[1..]) <= -o < 60 * DigitsValue(t[1..]) + 60
    ensures o < 0 ==>
      var t := OffsetHoursText(o, true);
      t[0] == '-' && AllDigits(t[1..]) && |t| >= 3 && DigitsValue(t[1..]) == DigitsValue(OffsetHoursText(o, false)[1..])
  {
    if o >= 0 {
      PadStartValue(NatToString((o + 30) / 60), 2);
    } else {
      var h := Abs(o) / 60;
      PadStartValue(NatToString(h), 2);
      assert OffsetHoursText(o, false)[1..] == NatToString(h);
      assert OffsetHoursText(o, true)[1..] == Pad2(h);
    }
  }

  lemma TwoDigitsValue(a: nat, b: nat)
    requires a < 10 && b < 10
    ensures DigitsValue([DigitChar(a), DigitChar(b)]) == 10 * a + b
  {
    var s := [DigitChar(a), DigitChar(b)];
    assert s[..1] == [DigitChar(a)];
    assert [DigitChar(a)][..0] == [];
    assert DigitsValue([DigitChar(a)]) == a;
    assert DigitsValue(s) == DigitsValue(s[..1]) * 10 + DigitValue(s[1]);
  }

  /** The numeral of a four-digit year without its first two characters is its last two digits. */
  lemma FourDigitYearTail(y: int)
    requires 1000 <= y <= 9999
    ensures |YearTail(y)| == 2 && AllDigits(YearTail(y)) && DigitsValue(YearTail(y)) == y % 100
  {
    var t, u, w := NatToString(y), NatToString(y / 10), NatToString(y / 100);
    assert t == u + [DigitChar(y % 10)];
    assert y / 10 / 10 == y / 100;
    assert u == w + [DigitChar((y / 10) % 10)];
    NatToStringShort(y / 100);
    assert t[2..] == [DigitChar((y / 10) % 10), DigitChar(y % 10)];
    TwoDigitsValue((y / 10) % 10, y % 10);
  }

  /** For a four-digit year `yy` is its last two digits and `y` the same
      number without a leading zero; a year of one or two digits has an
      empty `yy` and writes `NaN` for `y`. */
  lemma YearFields(v: LocalView, l: Labels)
    requires ViewOk(v) && LabelsOk(l)
    ensures v.date.year >= 0 ==> AllDigits(FieldText(0, v, l)) && DigitsValue(FieldText(0, v, l)) == v.date.year
    ensures 1000 <= v.date.year <= 9999 ==>
      |FieldText(1, v, l)| == 2 && AllDigits(FieldText(1, v, l)) && DigitsValue(FieldText(1, v, l)) == v.date.year % 100
      && FieldText(2, v, l) == NatToString(v.date.year % 100)
    ensures -10 < v.date.year < 100 ==> FieldText(1, v, l) == "" && FieldText(2, v, l) == "NaN"
  {
    assert FieldText(0, v, l) == IntToString(v.date.year);
    assert FieldText(1, v, l) == YearTail(v.date.year);
    assert FieldText(2, v, l) == ParseIntText(YearTail(v.date.year));
    var y := v.date.year;
    if 1000 <= y <= 9999 {
      FourDigitYearTail(y);
    } else if 0 <= y < 100 {
      NatToStringShort(y);
    }
  }

  /** `MMM` and `ddd` are the first three characters of `MMMM` and `dddd`. */
  lemma NameFields(v: LocalView, l: Labels)
    requires ViewOk(v) && LabelsOk(l)
    ensures FieldText(3, v, l) == l.monthNames[v.date.month] && FieldText(7, v, l) == l.dayNames[v.weekday]
    ensures FieldText(4, v, l) <= FieldText(3, v, l) && |FieldText(4, v, l)| == Min(3, |FieldText(3, v, l)|)
    ensures FieldText(8, v, l) <= FieldText(7, v, l) && |FieldText(8, v, l)| == Min(3, |FieldText(7, v, l)|)
  {
  }

  /** `tt` is the PM designator from noon on and the AM one before; `t` is
      its first character, or the text "undefined" when it is empty. */
  lemma DesignatorFields(v: LocalView, l: Labels)
    requires ViewOk(v) && LabelsOk(l)
    ensures FieldText(28, v, l) == if v.date.hour < 12 then l.am else l.pm
    ensures FieldText(28, v, l) != [] ==> |FieldText(29, v, l)| == 1 && FieldText(29, v, l) <= FieldText(28, v, l)
    ensures FieldText(28, v, l) == [] ==> FieldText(29, v, l) == "undefined"
  {
  }
}
