/**
 * Worked cases of the library's calendar and formatting operations, each
 * stated for a concrete date or pattern and derived from the general contracts
 * and theorems of the model.
 */
module SourceExamples {
  import opened Wrappers
  import opened JsSemantics
  import opened Tokens
  import opened Calendar
  import opened Formatter

  // ---------------------------------------------------------------------------
  // From a token list to the formatted text

  /** A single segment renders to its own text. */
  lemma Render1(a: Segment, t: seq<string>)
    requires SegOk(a) && |t| == FieldCount
    ensures Render([a], t) == SegmentText(a, t)
  {
    assert CodesOk([a]);
    RenderStep([a], t);
    assert [a][1..] == [];
    assert SegmentText(a, t) + [] == SegmentText(a, t);
  }

  lemma Render2(a: Segment, b: Segment, t: seq<string>)
    requires SegOk(a) && SegOk(b) && |t| == FieldCount
    ensures Render([a, b], t) == SegmentText(a, t) + SegmentText(b, t)
  {
    assert CodesOk([a, b]);
    RenderStep([a, b], t);
    assert [a, b][1..] == [b];
    Render1(b, t);
  }

  lemma Render3(a: Segment, b: Segment, c: Segment, t: seq<string>)
    requires SegOk(a) && SegOk(b) && SegOk(c) && |t| == FieldCount
    ensures Render([a, b, c], t) == SegmentText(a, t) + (SegmentText(b, t) + SegmentText(c, t))
  {
    assert CodesOk([a, b, c]);
    RenderStep([a, b, c], t);
    assert [a, b, c][1..] == [b, c];
    Render2(b, c, t);
  }

  lemma Render4(a: Segment, b: Segment, c: Segment, d: Segment, t: seq<string>)
    requires SegOk(a) && SegOk(b) && SegOk(c) && SegOk(d) && |t| == FieldCount
    ensures Render([a, b, c, d], t)
         == SegmentText(a, t) + (SegmentText(b, t) + (SegmentText(c, t) + SegmentText(d, t)))
  {
    assert CodesOk([a, b, c, d]);
    RenderStep([a, b, c, d], t);
    assert [a, b, c, d][1..] == [b, c, d];
    Render3(b, c, d, t);
  }

  lemma Render5(a: Segment, b: Segment, c: Segment, d: Segment, e: Segment, t: seq<string>)
    requires SegOk(a) && SegOk(b) && SegOk(c) && SegOk(d) && SegOk(e) && |t| == FieldCount
    ensures Render([a, b, c, d, e], t) == SegmentText(a, t) + (SegmentText(b, t)
      + (SegmentText(c, t) + (SegmentText(d, t) + SegmentText(e, t))))
  {
    assert CodesOk([a, b, c, d, e]);
    RenderStep([a, b, c, d, e], t);
    assert [a, b, c, d, e][1..] == [b, c, d, e];
    Render4(b, c, d, e, t);
  }

  /** The pieces written one after another, as `pieces.join("")` would. */
  function Join(pieces: seq<string>): (s: string)
    ensures pieces == [] ==> s == []
  {
    if pieces == [] then [] else pieces[0] + Join(pieces[1..])
  }

  lemma Join1(a: string)
    ensures Join([a]) == a
  {
    assert [a][1..] == [];
    assert a + [] == a;
  }

  lemma Join2(a: string, b: string)
    ensures Join([a, b]) == a + b
  {
    assert [a, b][1..] == [b];
    Join1(b);
  }

  lemma Join3(a: string, b: string, c: string)
    ensures Join([a, b, c]) == a + (b + c)
  {
    assert [a, b, c][1..] == [b, c];
    Join2(b, c);
  }

  lemma Join4(a: string, b: string, c: string, d: string)
    ensures Join([a, b, c, d]) == a + (b + (c + d))
  {
    assert [a, b, c, d][1..] == [b, c, d];
    Join3(b, c, d);
  }

  lemma Join5(a: string, b: string, c: string, d: string, e: string)
    ensures Join([a, b, c, d, e]) == a + (b + (c + (d + e)))
  {
    assert [a, b, c, d, e][1..] == [b, c, d, e];
    Join4(b, c, d, e);
  }

  /** Joining distributes over concatenation of piece lists. */
  lemma {:induction false} JoinConcat(a: seq<string>, b: seq<string>)
    ensures Join(a + b) == Join(a) + Join(b)
  {
    if a == [] {
      assert a + b == b;
    } else {
      assert (a + b)[1..] == a[1..] + b;
      JoinConcat(a[1..], b);
    }
  }

  /** Every rule of the table is a token of `rules`. */
  predicate HasTable(rules: seq<Rule>) {
    forall i, j | 0 <= i < |Groups| && 0 <= j < |Groups[i]| :: TokenIn(rules, Run(Groups[i][j]))
  }

  lemma RuleAt(rules: seq<Rule>, i: nat, j: nat)
    requires HasTable(rules) && i < |Groups| && j < |Groups[i]|
    ensures TokenIn(rules, Run(Groups[i][j]))
  {
  }

  /** Two well-formed token lists join into one when the tokens at the seam differ in letter. */
  lemma CanonicalJoin(rules: seq<Rule>, a: seq<Token>, b: seq<Token>)
    requires CanonicalFor(rules, a) && CanonicalFor(rules, b)
    requires a == [] || b == [] || TokenLetter(a[|a| - 1]) != TokenLetter(b[0]) || TokenLetter(a[|a| - 1]) !in TokenLetters
    ensures CanonicalFor(rules, a + b)
  {
    var ab := a + b;
    forall i | 0 <= i < |ab| ensures TokenIn(rules, ab[i]) {
      if i < |a| { assert ab[i] == a[i]; } else { assert ab[i] == b[i - |a|]; }
    }
    forall i | 0 <= i < |ab| - 1
      ensures TokenLetter(ab[i]) != TokenLetter(ab[i + 1]) || TokenLetter(ab[i]) !in TokenLetters
    {
      if i + 1 < |a| {
        assert ab[i] == a[i] && ab[i + 1] == a[i + 1];
      } else if i + 1 == |a| {
        assert ab[i] == a[|a| - 1] && ab[i + 1] == b[0];
      } else {
        assert ab[i] == b[i - |a|] && ab[i + 1] == b[i - |a| + 1];
      }
    }
  }

  lemma RulesHaveTable()
    ensures HasTable(Rules)
  {
    forall i, j | 0 <= i < |Groups| && 0 <= j < |Groups[i]|
      ensures TokenIn(Rules, Run(Groups[i][j]))
    {
      InRules(i, j);
    }
  }

  /** A pattern the tokenizer reads as `segs` formats to the rendering of `segs`. */
  lemma FormatLexed(v: LocalView, pattern: string, segs: seq<Segment>, dayNames: Option<seq<string>>,
                    monthNames: Option<seq<string>>, am: Option<string>, pm: Option<string>)
    requires ViewOk(v)
    requires dayNames.Some? ==> |dayNames.value| == 7
    requires monthNames.Some? ==> |monthNames.value| == 12
    requires pattern != [] && BraceFree(pattern) && Lex(pattern) == segs
    requires LabelsBraceFree(LabelsFor(dayNames, monthNames, am, pm))
    ensures CodesOk(segs)
    ensures Format(v, Some(pattern), dayNames, monthNames, am, pm) == Render(segs, Texts(v, LabelsFor(dayNames, monthNames, am, pm)))
  {
    FormatIsRender(v, pattern, dayNames, monthNames, am, pm);
  }

  // ---------------------------------------------------------------------------
  // Twelve-hour clock with designators

  const DesignatorTokens: seq<Token> := [Run(Rule('h', 2, 11)), Run(Rule('t', 2, 28)), Text(' '),
    Run(Rule('h', 1, 12)), Run(Rule('t', 1, 29))]
  const DesignatorSegs: seq<Segment> := [Field(11), Field(28), Lit(' '), Field(12), Field(29)]

  lemma DesignatorCanonicalFor(rules: seq<Rule>)
    requires HasTable(rules)
    ensures CanonicalFor(rules, DesignatorTokens)
  {
    RuleAt(rules, 3, 0); RuleAt(rules, 11, 0); RuleAt(rules, 3, 1); RuleAt(rules, 11, 1);
  }

  lemma DesignatorSpelling()
    ensures Spell(DesignatorTokens) == "hhtt ht"
    ensures Meaning(DesignatorTokens) == DesignatorSegs
  {
  }

  /** The tokenizer reads "hhtt ht" token by token. */
  lemma DesignatorLexed(pattern: string)
    requires pattern == "hhtt ht"
    ensures Lex(pattern) == DesignatorSegs
  {
    RulesHaveTable();
    DesignatorCanonicalFor(Rules);
    LexSpell(DesignatorTokens);
    DesignatorSpelling();
  }

  lemma DesignatorBraceFree(pattern: string)
    requires pattern == "hhtt ht"
    ensures pattern != [] && BraceFree(pattern)
  {
  }

  lemma DesignatorText(t: seq<string>)
    requires |t| == FieldCount
    ensures CodesOk(DesignatorSegs)
    ensures Render(DesignatorSegs, t) == Join([t[11], t[28], " ", t[12], t[29]])
  {
    Render5(Field(11), Field(28), Lit(' '), Field(12), Field(29), t);
    Join5(t[11], t[28], " ", t[12], t[29]);
  }

  lemma FormatDesignator(pattern: string, v: LocalView, dayNames: Option<seq<string>>, monthNames: Option<seq<string>>,
                          am: Option<string>, pm: Option<string>)
    requires pattern == "hhtt ht"
    requires ViewOk(v)
    requires dayNames.Some? ==> |dayNames.value| == 7
    requires monthNames.Some? ==> |monthNames.value| == 12
    requires LabelsBraceFree(LabelsFor(dayNames, monthNames, am, pm))
    ensures Format(v, Some(pattern), dayNames, monthNames, am, pm)
         == var l := LabelsFor(dayNames, monthNames, am, pm);
            Join([FieldText(11, v, l), FieldText(28, v, l), " ", FieldText(12, v, l), FieldText(29, v, l)])
  {
    DesignatorLexed(pattern);
    DesignatorBraceFree(pattern);
    FormatLexed(v, pattern, DesignatorSegs, dayNames, monthNames, am, pm);
    DesignatorText(Texts(v, LabelsFor(dayNames, monthNames, am, pm)));
  }

  // ---------------------------------------------------------------------------
  // Month names

  const MonthNameTokens: seq<Token> := [Run(Rule('M', 4, 3)), Text(' '), Run(Rule('M', 3, 4))]
  const MonthNameSegs: seq<Segment> := [Field(3), Lit(' '), Field(4)]

  lemma MonthNameCanonicalFor(rules: seq<Rule>)
    requires HasTable(rules)
    ensures CanonicalFor(rules, MonthNameTokens)
  {
    RuleAt(rules, 1, 0); RuleAt(rules, 1, 1);
  }

  lemma MonthNameSpelling()
    ensures Spell(MonthNameTokens) == "MMMM MMM"
    ensures Meaning(MonthNameTokens) == MonthNameSegs
  {
  }

  /** The tokenizer reads "MMMM MMM" token by token. */
  lemma MonthNameLexed(pattern: string)
    requires pattern == "MMMM MMM"
    ensures Lex(pattern) == MonthNameSegs
  {
    RulesHaveTable();
    MonthNameCanonicalFor(Rules);
    LexSpell(MonthNameTokens);
    MonthNameSpelling();
  }

  lemma MonthNameBraceFree(pattern: string)
    requires pattern == "MMMM MMM"
    ensures pattern != [] && BraceFree(pattern)
  {
  }

  lemma MonthNameText(t: seq<string>)
    requires |t| == FieldCount
    ensures CodesOk(MonthNameSegs)
    ensures Render(MonthNameSegs, t) == Join([t[3], " ", t[4]])
  {
    Render3(Field(3), Lit(' '), Field(4), t);
    Join3(t[3], " ", t[4]);
  }

  lemma FormatMonthName(pattern: string, v: LocalView, dayNames: Option<seq<string>>, monthNames: Option<seq<string>>,
                         am: Option<string>, pm: Option<string>)
    requires pattern == "MMMM MMM"
    requires ViewOk(v)
    requires dayNames.Some? ==> |dayNames.value| == 7
    requires monthNames.Some? ==> |monthNames.value| == 12
    requires LabelsBraceFree(LabelsFor(dayNames, monthNames, am, pm))
    ensures Format(v, Some(pattern), dayNames, monthNames, am, pm)
         == var l := LabelsFor(dayNames, monthNames, am, pm);
            Join([FieldText(3, v, l), " ", FieldText(4, v, l)])
  {
    MonthNameLexed(pattern);
    MonthNameBraceFree(pattern);
    FormatLexed(v, pattern, MonthNameSegs, dayNames, monthNames, am, pm);
    MonthNameText(Texts(v, LabelsFor(dayNames, monthNames, am, pm)));
  }

  // ---------------------------------------------------------------------------
  // Day names

  const DayNameTokens: seq<Token> := [Run(Rule('d', 4, 7)), Text(' '), Run(Rule('d', 3, 8))]
  const DayNameSegs: seq<Segment> := [Field(7), Lit(' '), Field(8)]

  lemma DayNameCanonicalFor(rules: seq<Rule>)
    requires HasTable(rules)
    ensures CanonicalFor(rules, DayNameTokens)
  {
    RuleAt(rules, 2, 0); RuleAt(rules, 2, 1);
  }

  lemma DayNameSpelling()
    ensures Spell(DayNameTokens) == "dddd ddd"
    ensures Meaning(DayNameTokens) == DayNameSegs
  {
  }

  /** The tokenizer reads "dddd ddd" token by token. */
  lemma DayNameLexed(pattern: string)
    requires pattern == "dddd ddd"
    ensures Lex(pattern) == DayNameSegs
  {
    RulesHaveTable();
    DayNameCanonicalFor(Rules);
    LexSpell(DayNameTokens);
    DayNameSpelling();
  }

  lemma DayNameBraceFree(pattern: string)
    requires pattern == "dddd ddd"
    ensures pattern != [] && BraceFree(pattern)
  {
  }

  lemma DayNameText(t: seq<string>)
    requires |t| == FieldCount
    ensures CodesOk(DayNameSegs)
    ensures Render(DayNameSegs, t) == Join([t[7], " ", t[8]])
  {
    Render3(Field(7), Lit(' '), Field(8), t);
    Join3(t[7], " ", t[8]);
  }

  lemma FormatDayName(pattern: string, v: LocalView, dayNames: Option<seq<string>>, monthNames: Option<seq<string>>,
                       am: Option<string>, pm: Option<string>)
    requires pattern == "dddd ddd"
    requires ViewOk(v)
    requires dayNames.Some? ==> |dayNames.value| == 7
    requires monthNames.Some? ==> |monthNames.value| == 12
    requires LabelsBraceFree(LabelsFor(dayNames, monthNames, am, pm))
    ensures Format(v, Some(pattern), dayNames, monthNames, am, pm)
         == var l := LabelsFor(dayNames, monthNames, am, pm);
            Join([FieldText(7, v, l), " ", FieldText(8, v, l)])
  {
    DayNameLexed(pattern);
    DayNameBraceFree(pattern);
    FormatLexed(v, pattern, DayNameSegs, dayNames, monthNames, am, pm);
    DayNameText(Texts(v, LabelsFor(dayNames, monthNames, am, pm)));
  }

  // ---------------------------------------------------------------------------
  // The ISO-style pattern

  const IsoPart1: seq<Token> := [Run(Rule('y', 4, 0)), Text('-'), Run(Rule('M', 2, 5)), Text('-'),
    Run(Rule('d', 2, 9))]
  const IsoPart2: seq<Token> := [Text('T'), Run(Rule('H', 2, 13)), Text(':'), Run(Rule('m', 2, 15)), Text(':')]
  const IsoPart3: seq<Token> := [Run(Rule('s', 2, 17)), Text('.'), Run(Rule('f', 3, 19)), Text(' '),
    Run(Rule('K', 1, 25))]
  const IsoTokens: seq<Token> := IsoPart1 + IsoPart2 + IsoPart3
  const IsoSegs1: seq<Segment> := [Field(0), Lit('-'), Field(5), Lit('-'), Field(9)]
  const IsoSegs2: seq<Segment> := [Lit('T'), Field(13), Lit(':'), Field(15), Lit(':')]
  const IsoSegs3: seq<Segment> := [Field(17), Lit('.'), Field(19), Lit(' '), Field(25)]
  const IsoSegs: seq<Segment> := IsoSegs1 + IsoSegs2 + IsoSegs3

  lemma IsoPart1CanonicalFor(rules: seq<Rule>)
    requires HasTable(rules)
    ensures CanonicalFor(rules, IsoPart1)
  {
    RuleAt(rules, 0, 0); RuleAt(rules, 1, 2); RuleAt(rules, 2, 2);
  }

  lemma IsoPart1Spelling()
    ensures Spell(IsoPart1) == "yyyy-MM-dd"
    ensures Meaning(IsoPart1) == IsoSegs1
  {
  }

  lemma IsoPart2CanonicalFor(rules: seq<Rule>)
    requires HasTable(rules)
    ensures CanonicalFor(rules, IsoPart2)
  {
    RuleAt(rules, 4, 0); RuleAt(rules, 5, 0);
  }

  lemma IsoPart2Spelling()
    ensures Spell(IsoPart2) == "THH:mm:"
    ensures Meaning(IsoPart2) == IsoSegs2
  {
  }

  lemma IsoPart3CanonicalFor(rules: seq<Rule>)
    requires HasTable(rules)
    ensures CanonicalFor(rules, IsoPart3)
  {
    RuleAt(rules, 6, 0); RuleAt(rules, 7, 0); RuleAt(rules, 9, 0);
  }

  lemma IsoPart3Spelling()
    ensures Spell(IsoPart3) == "ss.fff K"
    ensures Meaning(IsoPart3) == IsoSegs3
  {
  }

  lemma IsoCanonicalFor(rules: seq<Rule>)
    requires HasTable(rules)
    ensures CanonicalFor(rules, IsoTokens)
  {
    IsoPart1CanonicalFor(rules);
    IsoPart2CanonicalFor(rules);
    IsoPart3CanonicalFor(rules);
    CanonicalJoin(rules, IsoPart1, IsoPart2);
    CanonicalJoin(rules, IsoPart1 + IsoPart2, IsoPart3);
  }

  lemma IsoUpTo2Spelling()
    ensures Spell(IsoPart1 + IsoPart2) == "yyyy-MM-ddTHH:mm:"
    ensures Meaning(IsoPart1 + IsoPart2) == IsoSegs1 + IsoSegs2
  {
    IsoPart1Spelling();
    IsoPart2Spelling();
    SpellConcat(IsoPart1, IsoPart2);
  }

  lemma IsoUpTo3Spelling()
    ensures Spell(IsoPart1 + IsoPart2 + IsoPart3) == "yyyy-MM-ddTHH:mm:ss.fff K"
    ensures Meaning(IsoPart1 + IsoPart2 + IsoPart3) == IsoSegs1 + IsoSegs2 + IsoSegs3
  {
    IsoUpTo2Spelling();
    IsoPart3Spelling();
    SpellConcat(IsoPart1 + IsoPart2, IsoPart3);
  }

  lemma IsoSpelling()
    ensures Spell(IsoTokens) == "yyyy-MM-ddTHH:mm:ss.fff K"
    ensures Meaning(IsoTokens) == IsoSegs
  {
    IsoUpTo3Spelling();
  }

  /** The tokenizer reads "yyyy-MM-ddTHH:mm:ss.fff K" token by token. */
  lemma IsoLexed(pattern: string)
    requires pattern == "yyyy-MM-ddTHH:mm:ss.fff K"
    ensures Lex(pattern) == IsoSegs
  {
    RulesHaveTable();
    IsoCanonicalFor(Rules);
    LexSpell(IsoTokens);
    IsoSpelling();
  }

  lemma IsoBraceFree(pattern: string)
    requires pattern == "yyyy-MM-ddTHH:mm:ss.fff K"
    ensures pattern != [] && BraceFree(pattern)
  {
  }

  lemma IsoPart1Text(t: seq<string>)
    requires |t| == FieldCount
    ensures CodesOk(IsoSegs1)
    ensures Render(IsoSegs1, t) == Join([t[0], "-", t[5], "-", t[9]])
  {
    Render5(Field(0), Lit('-'), Field(5), Lit('-'), Field(9), t);
    Join5(t[0], "-", t[5], "-", t[9]);
  }

  lemma IsoPart2Text(t: seq<string>)
    requires |t| == FieldCount
    ensures CodesOk(IsoSegs2)
    ensures Render(IsoSegs2, t) == Join(["T", t[13], ":", t[15], ":"])
  {
    Render5(Lit('T'), Field(13), Lit(':'), Field(15), Lit(':'), t);
    Join5("T", t[13], ":", t[15], ":");
  }

  lemma IsoPart3Text(t: seq<string>)
    requires |t| == FieldCount
    ensures CodesOk(IsoSegs3)
    ensures Render(IsoSegs3, t) == Join([t[17], ".", t[19], " ", t[25]])
  {
    Render5(Field(17), Lit('.'), Field(19), Lit(' '), Field(25), t);
    Join5(t[17], ".", t[19], " ", t[25]);
  }

  lemma IsoUpTo2Text(t: seq<string>)
    requires |t| == FieldCount
    ensures CodesOk(IsoSegs1 + IsoSegs2)
    ensures Render(IsoSegs1 + IsoSegs2, t) ==
      Join([t[0], "-", t[5], "-", t[9]]) +
      Join(["T", t[13], ":", t[15], ":"])
  {
    IsoPart1Text(t);
    IsoPart2Text(t);
    RenderConcat(IsoSegs1, IsoSegs2, t);
  }

  lemma IsoText(t: seq<string>)
    requires |t| == FieldCount
    ensures CodesOk(IsoSegs)
    ensures Render(IsoSegs, t) ==
      Join([t[0], "-", t[5], "-", t[9]]) +
      Join(["T", t[13], ":", t[15], ":"]) +
      Join([t[17], ".", t[19], " ", t[25]])
  {
    IsoUpTo2Text(t);
    IsoPart3Text(t);
    RenderConcat(IsoSegs1 + IsoSegs2, IsoSegs3, t);
  }

  lemma FormatIso(pattern: string, v: LocalView, dayNames: Option<seq<string>>, monthNames: Option<seq<string>>,
                   am: Option<string>, pm: Option<string>)
    requires pattern == "yyyy-MM-ddTHH:mm:ss.fff K"
    requires ViewOk(v)
    requires dayNames.Some? ==> |dayNames.value| == 7
    requires monthNames.Some? ==> |monthNames.value| == 12
    requires LabelsBraceFree(LabelsFor(dayNames, monthNames, am, pm))
    ensures Format(v, Some(pattern), dayNames, monthNames, am, pm)
         == var l := LabelsFor(dayNames, monthNames, am, pm);
            Join([FieldText(0, v, l), "-", FieldText(5, v, l), "-", FieldText(9, v, l)]) +
            Join(["T", FieldText(13, v, l), ":", FieldText(15, v, l), ":"]) +
            Join([FieldText(17, v, l), ".", FieldText(19, v, l), " ", FieldText(25, v, l)])
  {
    IsoLexed(pattern);
    IsoBraceFree(pattern);
    FormatLexed(v, pattern, IsoSegs, dayNames, monthNames, am, pm);
    IsoText(Texts(v, LabelsFor(dayNames, monthNames, am, pm)));
  }

  // ---------------------------------------------------------------------------
  // Time zone offsets

  const ZonePart1: seq<Token> := [Run(Rule('K', 1, 25)), Text(' '), Run(Rule('z', 3, 25)), Text(' '),
    Run(Rule('z', 2, 26))]
  const ZonePart2: seq<Token> := [Text(' '), Run(Rule('z', 1, 27))]
  const ZoneTokens: seq<Token> := ZonePart1 + ZonePart2
  const ZoneSegs1: seq<Segment> := [Field(25), Lit(' '), Field(25), Lit(' '), Field(26)]
  const ZoneSegs2: seq<Segment> := [Lit(' '), Field(27)]
  const ZoneSegs: seq<Segment> := ZoneSegs1 + ZoneSegs2

  lemma ZonePart1CanonicalFor(rules: seq<Rule>)
    requires HasTable(rules)
    ensures CanonicalFor(rules, ZonePart1)
  {
    RuleAt(rules, 9, 0); RuleAt(rules, 10, 0); RuleAt(rules, 10, 1);
  }

  lemma ZonePart1Spelling()
    ensures Spell(ZonePart1) == "K zzz zz"
    ensures Meaning(ZonePart1) == ZoneSegs1
  {
  }

  lemma ZonePart2CanonicalFor(rules: seq<Rule>)
    requires HasTable(rules)
    ensures CanonicalFor(rules, ZonePart2)
  {
    RuleAt(rules, 10, 2);
  }

  lemma ZonePart2Spelling()
    ensures Spell(ZonePart2) == " z"
    ensures Meaning(ZonePart2) == ZoneSegs2
  {
  }

  lemma ZoneCanonicalFor(rules: seq<Rule>)
    requires HasTable(rules)
    ensures CanonicalFor(rules, ZoneTokens)
  {
    ZonePart1CanonicalFor(rules);
    ZonePart2CanonicalFor(rules);
    CanonicalJoin(rules, ZonePart1, ZonePart2);
  }

  lemma ZoneUpTo2Spelling()
    ensures Spell(ZonePart1 + ZonePart2) == "K zzz zz z"
    ensures Meaning(ZonePart1 + ZonePart2) == ZoneSegs1 + ZoneSegs2
  {
    ZonePart1Spelling();
    ZonePart2Spelling();
    SpellConcat(ZonePart1, ZonePart2);
  }

  lemma ZoneSpelling()
    ensures Spell(ZoneTokens) == "K zzz zz z"
    ensures Meaning(ZoneTokens) == ZoneSegs
  {
    ZoneUpTo2Spelling();
  }

  /** The tokenizer reads "K zzz zz z" token by token. */
  lemma ZoneLexed(pattern: string)
    requires pattern == "K zzz zz z"
    ensures Lex(pattern) == ZoneSegs
  {
    RulesHaveTable();
    ZoneCanonicalFor(Rules);
    LexSpell(ZoneTokens);
    ZoneSpelling();
  }

  lemma ZoneBraceFree(pattern: string)
    requires pattern == "K zzz zz z"
    ensures pattern != [] && BraceFree(pattern)
  {
  }

  lemma ZonePart1Text(t: seq<string>)
    requires |t| == FieldCount
    ensures CodesOk(ZoneSegs1)
    ensures Render(ZoneSegs1, t) == Join([t[25], " ", t[25], " ", t[26]])
  {
    Render5(Field(25), Lit(' '), Field(25), Lit(' '), Field(26), t);
    Join5(t[25], " ", t[25], " ", t[26]);
  }

  lemma ZonePart2Text(t: seq<string>)
    requires |t| == FieldCount
    ensures CodesOk(ZoneSegs2)
    ensures Render(ZoneSegs2, t) == Join([" ", t[27]])
  {
    Render2(Lit(' '), Field(27), t);
    Join2(" ", t[27]);
  }

  lemma ZoneText(t: seq<string>)
    requires |t| == FieldCount
    ensures CodesOk(ZoneSegs)
    ensures Render(ZoneSegs, t) ==
      Join([t[25], " ", t[25], " ", t[26]]) +
      Join([" ", t[27]])
  {
    ZonePart1Text(t);
    ZonePart2Text(t);
    RenderConcat(ZoneSegs1, ZoneSegs2, t);
  }

  lemma FormatZone(pattern: string, v: LocalView, dayNames: Option<seq<string>>, monthNames: Option<seq<string>>,
                    am: Option<string>, pm: Option<string>)
    requires pattern == "K zzz zz z"
    requires ViewOk(v)
    requires dayNames.Some? ==> |dayNames.value| == 7
    requires monthNames.Some? ==> |monthNames.value| == 12
    requires LabelsBraceFree(LabelsFor(dayNames, monthNames, am, pm))
    ensures Format(v, Some(pattern), dayNames, monthNames, am, pm)
         == var l := LabelsFor(dayNames, monthNames, am, pm);
            Join([FieldText(25, v, l), " ", FieldText(25, v, l), " ", FieldText(26, v, l)]) +
            Join([" ", FieldText(27, v, l)])
  {
    ZoneLexed(pattern);
    ZoneBraceFree(pattern);
    FormatLexed(v, pattern, ZoneSegs, dayNames, monthNames, am, pm);
    ZoneText(Texts(v, LabelsFor(dayNames, monthNames, am, pm)));
  }

  // ---------------------------------------------------------------------------
  // A pattern mixing every kind of literal with short and long tokens

  const UnusualPart1: seq<Token> := [Text('$'), Run(Rule('d', 4, 7)), Text('~'), Text('['),
    Run(Rule('M', 4, 3))]
  const UnusualPart2: seq<Token> := [Text(']'), Text(','), Run(Rule('d', 1, 10)), Text('\n'), Text('\t')]
  const UnusualPart3: seq<Token> := [Text('@'), Run(Rule('h', 2, 11)), Text('/'), Run(Rule('h', 1, 12)),
    Text('|')]
  const UnusualPart4: seq<Token> := [Run(Rule('m', 2, 15)), Text('&'), Run(Rule('s', 1, 18)), Text('.'),
    Run(Rule('F', 3, 22))]
  const UnusualPart5: seq<Token> := [Text('/'), Run(Rule('F', 2, 23)), Text('/'), Run(Rule('F', 1, 24)),
    Text('\n')]
  const UnusualPart6: seq<Token> := [Text('»'), Run(Rule('K', 1, 25)), Text('/'), Run(Rule('z', 2, 26)),
    Text('/')]
  const UnusualPart7: seq<Token> := [Run(Rule('z', 1, 27))]
  const UnusualTokens: seq<Token> := UnusualPart1 + UnusualPart2 + UnusualPart3 + UnusualPart4 + UnusualPart5 + UnusualPart6 + UnusualPart7
  const UnusualSegs1: seq<Segment> := [Lit('$'), Field(7), Lit('~'), Lit('['), Field(3)]
  const UnusualSegs2: seq<Segment> := [Lit(']'), Lit(','), Field(10), Lit('\n'), Lit('\t')]
  const UnusualSegs3: seq<Segment> := [Lit('@'), Field(11), Lit('/'), Field(12), Lit('|')]
  const UnusualSegs4: seq<Segment> := [Field(15), Lit('&'), Field(18), Lit('.'), Field(22)]
  const UnusualSegs5: seq<Segment> := [Lit('/'), Field(23), Lit('/'), Field(24), Lit('\n')]
  const UnusualSegs6: seq<Segment> := [Lit('»'), Field(25), Lit('/'), Field(26), Lit('/')]
  const UnusualSegs7: seq<Segment> := [Field(27)]
  const UnusualSegs: seq<Segment> := UnusualSegs1 + UnusualSegs2 + UnusualSegs3 + UnusualSegs4 + UnusualSegs5 + UnusualSegs6 + UnusualSegs7

  lemma UnusualPart1CanonicalFor(rules: seq<Rule>)
    requires HasTable(rules)
    ensures CanonicalFor(rules, UnusualPart1)
  {
    RuleAt(rules, 2, 0); RuleAt(rules, 1, 0);
  }

  lemma UnusualPart1Spelling()
    ensures Spell(UnusualPart1) == "$dddd~[MMMM"
    ensures Meaning(UnusualPart1) == UnusualSegs1
  {
  }

  lemma UnusualPart2CanonicalFor(rules: seq<Rule>)
    requires HasTable(rules)
    ensures CanonicalFor(rules, UnusualPart2)
  {
    RuleAt(rules, 2, 3);
  }

  lemma UnusualPart2Spelling()
    ensures Spell(UnusualPart2) == "],d\n\t"
    ensures Meaning(UnusualPart2) == UnusualSegs2
  {
  }

  lemma UnusualPart3CanonicalFor(rules: seq<Rule>)
    requires HasTable(rules)
    ensures CanonicalFor(rules, UnusualPart3)
  {
    RuleAt(rules, 3, 0); RuleAt(rules, 3, 1);
  }

  lemma UnusualPart3Spelling()
    ensures Spell(UnusualPart3) == "@hh/h|"
    ensures Meaning(UnusualPart3) == UnusualSegs3
  {
  }

  lemma UnusualPart4CanonicalFor(rules: seq<Rule>)
    requires HasTable(rules)
    ensures CanonicalFor(rules, UnusualPart4)
  {
    RuleAt(rules, 5, 0); RuleAt(rules, 6, 1); RuleAt(rules, 8, 0);
  }

  lemma UnusualPart4Spelling()
    ensures Spell(UnusualPart4) == "mm&s.FFF"
    ensures Meaning(UnusualPart4) == UnusualSegs4
  {
  }

  lemma UnusualPart5CanonicalFor(rules: seq<Rule>)
    requires HasTable(rules)
    ensures CanonicalFor(rules, UnusualPart5)
  {
    RuleAt(rules, 8, 1); RuleAt(rules, 8, 2);
  }

  lemma UnusualPart5Spelling()
    ensures Spell(UnusualPart5) == "/FF/F\n"
    ensures Meaning(UnusualPart5) == UnusualSegs5
  {
  }

  lemma UnusualPart6CanonicalFor(rules: seq<Rule>)
    requires HasTable(rules)
    ensures CanonicalFor(rules, UnusualPart6)
  {
    RuleAt(rules, 9, 0); RuleAt(rules, 10, 1);
  }

  lemma UnusualPart6Spelling()
    ensures Spell(UnusualPart6) == "»K/zz/"
    ensures Meaning(UnusualPart6) == UnusualSegs6
  {
  }

  lemma UnusualPart7CanonicalFor(rules: seq<Rule>)
    requires HasTable(rules)
    ensures CanonicalFor(rules, UnusualPart7)
  {
    RuleAt(rules, 10, 2);
  }

  lemma UnusualPart7Spelling()
    ensures Spell(UnusualPart7) == "z"
    ensures Meaning(UnusualPart7) == UnusualSegs7
  {
  }

  lemma UnusualCanonicalFor(rules: seq<Rule>)
    requires HasTable(rules)
    ensures CanonicalFor(rules, UnusualTokens)
  {
    UnusualPart1CanonicalFor(rules);
    UnusualPart2CanonicalFor(rules);
    UnusualPart3CanonicalFor(rules);
    UnusualPart4CanonicalFor(rules);
    UnusualPart5CanonicalFor(rules);
    UnusualPart6CanonicalFor(rules);
    UnusualPart7CanonicalFor(rules);
    CanonicalJoin(rules, UnusualPart1, UnusualPart2);
    CanonicalJoin(rules, UnusualPart1 + UnusualPart2, UnusualPart3);
    CanonicalJoin(rules, UnusualPart1 + UnusualPart2 + UnusualPart3, UnusualPart4);
    CanonicalJoin(rules, UnusualPart1 + UnusualPart2 + UnusualPart3 + UnusualPart4, UnusualPart5);
    CanonicalJoin(rules, UnusualPart1 + UnusualPart2 + UnusualPart3 + UnusualPart4 + UnusualPart5, UnusualPart6);
    CanonicalJoin(rules, UnusualPart1 + UnusualPart2 + UnusualPart3 + UnusualPart4 + UnusualPart5 + UnusualPart6, UnusualPart7);
  }

  lemma UnusualUpTo2Spelling()
    ensures Spell(UnusualPart1 + UnusualPart2) == "$dddd~[MMMM],d\n\t"
    ensures Meaning(UnusualPart1 + UnusualPart2) == UnusualSegs1 + UnusualSegs2
  {
    UnusualPart1Spelling();
    UnusualPart2Spelling();
    SpellConcat(UnusualPart1, UnusualPart2);
  }

  lemma UnusualUpTo3Spelling()
    ensures Spell(UnusualPart1 + UnusualPart2 + UnusualPart3) == "$dddd~[MMMM],d\n\t@hh/h|"
    ensures Meaning(UnusualPart1 + UnusualPart2 + UnusualPart3) == UnusualSegs1 + UnusualSegs2 + UnusualSegs3
  {
    UnusualUpTo2Spelling();
    UnusualPart3Spelling();
    SpellConcat(UnusualPart1 + UnusualPart2, UnusualPart3);
  }

  lemma UnusualUpTo4Spelling()
    ensures Spell(UnusualPart1 + UnusualPart2 + UnusualPart3 + UnusualPart4) == "$dddd~[MMMM],d\n\t@hh/h|mm&s.FFF"
    ensures Meaning(UnusualPart1 + UnusualPart2 + UnusualPart3 + UnusualPart4) == UnusualSegs1 + UnusualSegs2 + UnusualSegs3 + UnusualSegs4
  {
    UnusualUpTo3Spelling();
    UnusualPart4Spelling();
    SpellConcat(UnusualPart1 + UnusualPart2 + UnusualPart3, UnusualPart4);
  }

  lemma UnusualUpTo5Spelling()
    ensures Spell(UnusualPart1 + UnusualPart2 + UnusualPart3 + UnusualPart4 + UnusualPart5) == "$dddd~[MMMM],d\n\t@hh/h|mm&s.FFF/FF/F\n"
    ensures Meaning(UnusualPart1 + UnusualPart2 + UnusualPart3 + UnusualPart4 + UnusualPart5) == UnusualSegs1 + UnusualSegs2 + UnusualSegs3 + UnusualSegs4 + UnusualSegs5
  {
    UnusualUpTo4Spelling();
    UnusualPart5Spelling();
    SpellConcat(UnusualPart1 + UnusualPart2 + UnusualPart3 + UnusualPart4, UnusualPart5);
  }

  lemma UnusualUpTo6Spelling()
    ensures Spell(UnusualPart1 + UnusualPart2 + UnusualPart3 + UnusualPart4 + UnusualPart5 + UnusualPart6) == "$dddd~[MMMM],d\n\t@hh/h|mm&s.FFF/FF/F\n»K/zz/"
    ensures Meaning(UnusualPart1 + UnusualPart2 + UnusualPart3 + UnusualPart4 + UnusualPart5 + UnusualPart6) == UnusualSegs1 + UnusualSegs2 + UnusualSegs3 + UnusualSegs4 + UnusualSegs5 + UnusualSegs6
  {
    UnusualUpTo5Spelling();
    UnusualPart6Spelling();
    SpellConcat(UnusualPart1 + UnusualPart2 + UnusualPart3 + UnusualPart4 + UnusualPart5, UnusualPart6);
  }

  lemma UnusualUpTo7Spelling()
    ensures Spell(UnusualPart1 + UnusualPart2 + UnusualPart3 + UnusualPart4 + UnusualPart5 + UnusualPart6 + UnusualPart7) == "$dddd~[MMMM],d\n\t@hh/h|mm&s.FFF/FF/F\n»K/zz/z"
    ensures Meaning(UnusualPart1 + UnusualPart2 + UnusualPart3 + UnusualPart4 + UnusualPart5 + UnusualPart6 + UnusualPart7) == UnusualSegs1 + UnusualSegs2 + UnusualSegs3 + UnusualSegs4 + UnusualSegs5 + UnusualSegs6 + UnusualSegs7
  {
    UnusualUpTo6Spelling();
    UnusualPart7Spelling();
    SpellConcat(UnusualPart1 + UnusualPart2 + UnusualPart3 + UnusualPart4 + UnusualPart5 + UnusualPart6, UnusualPart7);
  }

  lemma UnusualSpelling()
    ensures Spell(UnusualTokens) == "$dddd~[MMMM],d\n\t@hh/h|mm&s.FFF/FF/F\n»K/zz/z"
    ensures Meaning(UnusualTokens) == UnusualSegs
  {
    UnusualUpTo7Spelling();
  }

  /** The tokenizer reads "$dddd~[MMMM],d\n\t@hh/h|mm&s.FFF/FF/F\n»K/zz/z" token by token. */
  lemma UnusualLexed(pattern: string)
    requires pattern == "$dddd~[MMMM],d\n\t@hh/h|mm&s.FFF/FF/F\n»K/zz/z"
    ensures Lex(pattern) == UnusualSegs
  {
    RulesHaveTable();
    UnusualCanonicalFor(Rules);
    LexSpell(UnusualTokens);
    UnusualSpelling();
  }

  lemma UnusualBraceFree(pattern: string)
    requires pattern == "$dddd~[MMMM],d\n\t@hh/h|mm&s.FFF/FF/F\n»K/zz/z"
    ensures pattern != [] && BraceFree(pattern)
  {
  }

  lemma UnusualPart1Text(t: seq<string>)
    requires |t| == FieldCount
    ensures CodesOk(UnusualSegs1)
    ensures Render(UnusualSegs1, t) == Join(["$", t[7], "~", "[", t[3]])
  {
    Render5(Lit('$'), Field(7), Lit('~'), Lit('['), Field(3), t);
    Join5("$", t[7], "~", "[", t[3]);
  }

  lemma UnusualPart2Text(t: seq<string>)
    requires |t| == FieldCount
    ensures CodesOk(UnusualSegs2)
    ensures Render(UnusualSegs2, t) == Join(["]", ",", t[10], "\n", "\t"])
  {
    Render5(Lit(']'), Lit(','), Field(10), Lit('\n'), Lit('\t'), t);
    Join5("]", ",", t[10], "\n", "\t");
  }

  lemma UnusualPart3Text(t: seq<string>)
    requires |t| == FieldCount
    ensures CodesOk(UnusualSegs3)
    ensures Render(UnusualSegs3, t) == Join(["@", t[11], "/", t[12], "|"])
  {
    Render5(Lit('@'), Field(11), Lit('/'), Field(12), Lit('|'), t);
    Join5("@", t[11], "/", t[12], "|");
  }

  lemma UnusualPart4Text(t: seq<string>)
    requires |t| == FieldCount
    ensures CodesOk(UnusualSegs4)
    ensures Render(UnusualSegs4, t) == Join([t[15], "&", t[18], ".", t[22]])
  {
    Render5(Field(15), Lit('&'), Field(18), Lit('.'), Field(22), t);
    Join5(t[15], "&", t[18], ".", t[22]);
  }

  lemma UnusualPart5Text(t: seq<string>)
    requires |t| == FieldCount
    ensures CodesOk(UnusualSegs5)
    ensures Render(UnusualSegs5, t) == Join(["/", t[23], "/", t[24], "\n"])
  {
    Render5(Lit('/'), Field(23), Lit('/'), Field(24), Lit('\n'), t);
    Join5("/", t[23], "/", t[24], "\n");
  }

  lemma UnusualPart6Text(t: seq<string>)
    requires |t| == FieldCount
    ensures CodesOk(UnusualSegs6)
    ensures Render(UnusualSegs6, t) == Join(["»", t[25], "/", t[26], "/"])
  {
    Render5(Lit('»'), Field(25), Lit('/'), Field(26), Lit('/'), t);
    Join5("»", t[25], "/", t[26], "/");
  }

  lemma UnusualPart7Text(t: seq<string>)
    requires |t| == FieldCount
    ensures CodesOk(UnusualSegs7)
    ensures Render(UnusualSegs7, t) == Join([t[27]])
  {
    Render1(Field(27), t);
    Join1(t[27]);
  }

  lemma UnusualUpTo2Text(t: seq<string>)
    requires |t| == FieldCount
    ensures CodesOk(UnusualSegs1 + UnusualSegs2)
    ensures Render(UnusualSegs1 + UnusualSegs2, t) ==
      Join(["$", t[7], "~", "[", t[3]]) +
      Join(["]", ",", t[10], "\n", "\t"])
  {
    UnusualPart1Text(t);
    UnusualPart2Text(t);
    RenderConcat(UnusualSegs1, UnusualSegs2, t);
  }

  lemma UnusualUpTo3Text(t: seq<string>)
    requires |t| == FieldCount
    ensures CodesOk(UnusualSegs1 + UnusualSegs2 + UnusualSegs3)
    ensures Render(UnusualSegs1 + UnusualSegs2 + UnusualSegs3, t) ==
      Join(["$", t[7], "~", "[", t[3]]) +
      Join(["]", ",", t[10], "\n", "\t"]) +
      Join(["@", t[11], "/", t[12], "|"])
  {
    UnusualUpTo2Text(t);
    UnusualPart3Text(t);
    RenderConcat(UnusualSegs1 + UnusualSegs2, UnusualSegs3, t);
  }

  lemma UnusualUpTo4Text(t: seq<string>)
    requires |t| == FieldCount
    ensures CodesOk(UnusualSegs1 + UnusualSegs2 + UnusualSegs3 + UnusualSegs4)
    ensures Render(UnusualSegs1 + UnusualSegs2 + UnusualSegs3 + UnusualSegs4, t) ==
      Join(["$", t[7], "~", "[", t[3]]) +
      Join(["]", ",", t[10], "\n", "\t"]) +
      Join(["@", t[11], "/", t[12], "|"]) +
      Join([t[15], "&", t[18], ".", t[22]])
  {
    UnusualUpTo3Text(t);
    UnusualPart4Text(t);
    RenderConcat(UnusualSegs1 + UnusualSegs2 + UnusualSegs3, UnusualSegs4, t);
  }

  lemma UnusualUpTo5Text(t: seq<string>)
    requires |t| == FieldCount
    ensures CodesOk(UnusualSegs1 + UnusualSegs2 + UnusualSegs3 + UnusualSegs4 + UnusualSegs5)
    ensures Render(UnusualSegs1 + UnusualSegs2 + UnusualSegs3 + UnusualSegs4 + UnusualSegs5, t) ==
      Join(["$", t[7], "~", "[", t[3]]) +
      Join(["]", ",", t[10], "\n", "\t"]) +
      Join(["@", t[11], "/", t[12], "|"]) +
      Join([t[15], "&", t[18], ".", t[22]]) +
      Join(["/", t[23], "/", t[24], "\n"])
  {
    UnusualUpTo4Text(t);
    UnusualPart5Text(t);
    RenderConcat(UnusualSegs1 + UnusualSegs2 + UnusualSegs3 + UnusualSegs4, UnusualSegs5, t);
  }

  lemma UnusualUpTo6Text(t: seq<string>)
    requires |t| == FieldCount
    ensures CodesOk(UnusualSegs1 + UnusualSegs2 + UnusualSegs3 + UnusualSegs4 + UnusualSegs5 + UnusualSegs6)
    ensures Render(UnusualSegs1 + UnusualSegs2 + UnusualSegs3 + UnusualSegs4 + UnusualSegs5 + UnusualSegs6, t) ==
      Join(["$", t[7], "~", "[", t[3]]) +
      Join(["]", ",", t[10], "\n", "\t"]) +
      Join(["@", t[11], "/", t[12], "|"]) +
      Join([t[15], "&", t[18], ".", t[22]]) +
      Join(["/", t[23], "/", t[24], "\n"]) +
      Join(["»", t[25], "/", t[26], "/"])
  {
    UnusualUpTo5Text(t);
    UnusualPart6Text(t);
    RenderConcat(UnusualSegs1 + UnusualSegs2 + UnusualSegs3 + UnusualSegs4 + UnusualSegs5, UnusualSegs6, t);
  }

  lemma UnusualText(t: seq<string>)
    requires |t| == FieldCount
    ensures CodesOk(UnusualSegs)
    ensures Render(UnusualSegs, t) ==
      Join(["$", t[7], "~", "[", t[3]]) +
      Join(["]", ",", t[10], "\n", "\t"]) +
      Join(["@", t[11], "/", t[12], "|"]) +
      Join([t[15], "&", t[18], ".", t[22]]) +
      Join(["/", t[23], "/", t[24], "\n"]) +
      Join(["»", t[25], "/", t[26], "/"]) +
      Join([t[27]])
  {
    UnusualUpTo6Text(t);
    UnusualPart7Text(t);
    RenderConcat(UnusualSegs1 + UnusualSegs2 + UnusualSegs3 + UnusualSegs4 + UnusualSegs5 + UnusualSegs6, UnusualSegs7, t);
  }

  lemma FormatUnusual(pattern: string, v: LocalView, dayNames: Option<seq<string>>, monthNames: Option<seq<string>>,
                       am: Option<string>, pm: Option<string>)
    requires pattern == "$dddd~[MMMM],d\n\t@hh/h|mm&s.FFF/FF/F\n»K/zz/z"
    requires ViewOk(v)
    requires dayNames.Some? ==> |dayNames.value| == 7
    requires monthNames.Some? ==> |monthNames.value| == 12
    requires LabelsBraceFree(LabelsFor(dayNames, monthNames, am, pm))
    ensures Format(v, Some(pattern), dayNames, monthNames, am, pm)
         == var l := LabelsFor(dayNames, monthNames, am, pm);
            Join(["$", FieldText(7, v, l), "~", "[", FieldText(3, v, l)]) +
            Join(["]", ",", FieldText(10, v, l), "\n", "\t"]) +
            Join(["@", FieldText(11, v, l), "/", FieldText(12, v, l), "|"]) +
            Join([FieldText(15, v, l), "&", FieldText(18, v, l), ".", FieldText(22, v, l)]) +
            Join(["/", FieldText(23, v, l), "/", FieldText(24, v, l), "\n"]) +
            Join(["»", FieldText(25, v, l), "/", FieldText(26, v, l), "/"]) +
            Join([FieldText(27, v, l)])
  {
    UnusualLexed(pattern);
    UnusualBraceFree(pattern);
    FormatLexed(v, pattern, UnusualSegs, dayNames, monthNames, am, pm);
    UnusualText(Texts(v, LabelsFor(dayNames, monthNames, am, pm)));
  }

  // ---------------------------------------------------------------------------
  // The library's own format cases

  /** The default name tables hold no `{`. */
  lemma DefaultNamesBraceFree()
    ensures forall i :: 0 <= i < |DefaultDayNames| ==> BraceFree(DefaultDayNames[i])
    ensures forall i :: 0 <= i < |DefaultMonthNames| ==> BraceFree(DefaultMonthNames[i])
  {
  }

  /** Labels built from brace-free arguments (or the defaults) are brace-free. */
  lemma LabelsForBraceFree(dayNames: Option<seq<string>>, monthNames: Option<seq<string>>,
                           am: Option<string>, pm: Option<string>)
    requires dayNames.Some? ==> forall i :: 0 <= i < |dayNames.value| ==> BraceFree(dayNames.value[i])
    requires monthNames.Some? ==> forall i :: 0 <= i < |monthNames.value| ==> BraceFree(monthNames.value[i])
    requires am.Some? ==> BraceFree(am.value)
    requires pm.Some? ==> BraceFree(pm.value)
    ensures LabelsBraceFree(LabelsFor(dayNames, monthNames, am, pm))
  {
    DefaultNamesBraceFree();
  }

  const LatinMonths: seq<string> := ["Ianuarius", "Februarius", "Martius", "Aprilis", "Maius", "Junius",
    "Julius", "Augustus", "Septembris", "Octobris", "Novembris", "Decembris"]

  const TagalogDays: seq<string> := ["Linggó", "Lúnes", "Martés", "Miyérkoles", "Huwébes", "Biyérnes", "Sábado"]

  /** Midnight reads 12 on the 12-hour dial. */
  lemma MidnightHours(v: LocalView, l: Labels)
    requires ViewOk(v) && LabelsOk(l) && v.date.hour == 0
    ensures FieldText(11, v, l) == "12" && FieldText(12, v, l) == "12"
  {
    TwelveNumeral();
  }

  lemma TwelveNumeral()
    ensures Pad2(12) == "12" && NatToString(12) == "12"
  {
    Pad2Layout(12);
    Numeral2(12);
    DigitChars();
  }

  /** 14:00 reads 2 on the 12-hour dial. */
  lemma AfternoonHours(v: LocalView, l: Labels)
    requires ViewOk(v) && LabelsOk(l) && v.date.hour == 14
    ensures FieldText(11, v, l) == "02" && FieldText(12, v, l) == "2"
  {
    assert Hour12(14) == 2;
    Pad2Layout(2);
    Numeral1(2);
    DigitChars();
  }

  /** Before noon `tt` is the AM designator and `t` its first character. */
  lemma MorningDesignator(v: LocalView, l: Labels)
    requires ViewOk(v) && LabelsOk(l) && v.date.hour < 12 && l.am == "午前"
    ensures FieldText(28, v, l) == "午前" && FieldText(29, v, l) == "午"
  {
  }

  /** From noon on `tt` is the PM designator and `t` its first character. */
  lemma AfternoonDesignator(v: LocalView, l: Labels)
    requires ViewOk(v) && LabelsOk(l) && v.date.hour >= 12 && l.pm == "午後"
    ensures FieldText(28, v, l) == "午後" && FieldText(29, v, l) == "午"
  {
  }

  /** `new Date(2021, 9, 14).format("hhtt ht", undefined, undefined, "午前")` is "12午前 12午". */
  lemma FormatCustomAm(v: LocalView)
    requires ViewOk(v) && v.date == DateTime(2021, 9, 14, 0, 0, 0, 0) && v.weekday == 4
    ensures Format(v, Some("hhtt ht"), None, None, Some("午前"), None) == "12午前 12午"
  {
    var l := LabelsFor(None, None, Some("午前"), None);
    MidnightHours(v, l);
    MorningDesignator(v, l);
    Join5("12", "午前", " ", "12", "午");
    assert Join(["12", "午前", " ", "12", "午"]) == "12午前 12午";
    LabelsForBraceFree(None, None, Some("午前"), None);
    FormatDesignator("hhtt ht", v, None, None, Some("午前"), None);
  }

  /** `new Date(2021, 9, 14, 14).format("hhtt ht", undefined, undefined, undefined, "午後")` is "02午後 2午". */
  lemma FormatCustomPm(v: LocalView)
    requires ViewOk(v) && v.date == DateTime(2021, 9, 14, 14, 0, 0, 0) && v.weekday == 4
    ensures Format(v, Some("hhtt ht"), None, None, None, Some("午後")) == "02午後 2午"
  {
    var l := LabelsFor(None, None, None, Some("午後"));
    AfternoonHours(v, l);
    AfternoonDesignator(v, l);
    Join5("02", "午後", " ", "2", "午");
    assert Join(["02", "午後", " ", "2", "午"]) == "02午後 2午";
    LabelsForBraceFree(None, None, None, Some("午後"));
    FormatDesignator("hhtt ht", v, None, None, None, Some("午後"));
  }

  /** May under Latin month names. */
  lemma LatinMonthFields(v: LocalView, l: Labels)
    requires ViewOk(v) && v.date.month == 4 && LabelsOk(l) && l.monthNames == LatinMonths
    ensures FieldText(3, v, l) == "Maius" && FieldText(4, v, l) == "Mai"
  {
  }

  /** `new Date(1983, 4, 28).format("MMMM MMM", undefined, latinMonths)` is "Maius Mai". */
  lemma FormatCustomMonthNames(v: LocalView)
    requires ViewOk(v) && v.date == DateTime(1983, 4, 28, 0, 0, 0, 0) && v.weekday == 6
    ensures Format(v, Some("MMMM MMM"), None, Some(LatinMonths), None, None) == "Maius Mai"
  {
    LatinMonthFields(v, LabelsFor(None, Some(LatinMonths), None, None));
    Join3("Maius", " ", "Mai");
    assert Join(["Maius", " ", "Mai"]) == "Maius Mai";
    LabelsForBraceFree(None, Some(LatinMonths), None, None);
    FormatMonthName("MMMM MMM", v, None, Some(LatinMonths), None, None);
  }

  /** Thursday under Tagalog day names. */
  lemma TagalogDayFields(v: LocalView, l: Labels)
    requires ViewOk(v) && v.weekday == 4 && LabelsOk(l) && l.dayNames == TagalogDays
    ensures FieldText(7, v, l) == "Huwébes" && FieldText(8, v, l) == "Huw"
  {
  }

  /** `new Date(2021, 9, 14).format("dddd ddd", tagalogDays)` is "Huwébes Huw". */
  lemma FormatCustomDayNames(v: LocalView)
    requires ViewOk(v) && v.date == DateTime(2021, 9, 14, 0, 0, 0, 0) && v.weekday == 4
    ensures Format(v, Some("dddd ddd"), Some(TagalogDays), None, None, None) == "Huwébes Huw"
  {
    TagalogDayFields(v, LabelsFor(Some(TagalogDays), None, None, None));
    Join3("Huwébes", " ", "Huw");
    assert Join(["Huwébes", " ", "Huw"]) == "Huwébes Huw";
    LabelsForBraceFree(Some(TagalogDays), None, None, None);
    FormatDayName("dddd ddd", v, Some(TagalogDays), None, None, None);
  }

  /** The ten digit characters. */
  lemma DigitChars()
    ensures DigitChar(0) == '0' && DigitChar(1) == '1' && DigitChar(2) == '2' && DigitChar(3) == '3'
    ensures DigitChar(4) == '4' && DigitChar(5) == '5' && DigitChar(6) == '6' && DigitChar(7) == '7'
    ensures DigitChar(8) == '8' && DigitChar(9) == '9'
  {
  }

  /** Numerals of one to four digits, written out digit by digit. */
  lemma Numeral1(n: nat)
    requires n < 10
    ensures NatToString(n) == [DigitChar(n)]
  {
  }

  lemma Numeral2(n: nat)
    requires 10 <= n < 100
    ensures NatToString(n) == [DigitChar(n / 10), DigitChar(n % 10)]
  {
    Numeral1(n / 10);
  }

  lemma Numeral3(n: nat)
    requires 100 <= n < 1000
    ensures NatToString(n) == [DigitChar(n / 100), DigitChar(n / 10 % 10), DigitChar(n % 10)]
  {
    Numeral2(n / 10);
    assert n / 10 / 10 == n / 100;
  }

  lemma Numeral4(n: nat)
    requires 1000 <= n < 10000
    ensures NatToString(n) == [DigitChar(n / 1000), DigitChar(n / 100 % 10), DigitChar(n / 10 % 10), DigitChar(n % 10)]
  {
    Numeral3(n / 10);
    assert n / 10 / 100 == n / 1000 && n / 10 / 10 % 10 == n / 100 % 10;
  }

  /** Two-digit padding below 100, digit by digit. */
  lemma Pad2Layout(n: nat)
    requires n < 100
    ensures Pad2(n) == [DigitChar(n / 10), DigitChar(n % 10)]
  {
    if n < 10 {
      Numeral1(n);
      assert Repeat('0', 1) == ['0'];
    } else {
      Numeral2(n);
    }
  }

  /** Three-digit padding of a two-digit number: one leading zero. */
  lemma Pad3Layout(n: nat)
    requires 10 <= n < 100
    ensures Pad3(n) == ['0', DigitChar(n / 10), DigitChar(n % 10)]
  {
    Numeral2(n);
    assert Repeat('0', 1) == ['0'];
  }

  lemma YearNumeral()
    ensures IntToString(1983) == "1983"
  {
    Numeral4(1983);
    DigitChars();
  }

  lemma MonthDayNumerals()
    ensures Pad2(5) == "05" && Pad2(28) == "28"
  {
    Pad2Layout(5);
    Pad2Layout(28);
    DigitChars();
  }

  lemma HourMinuteNumerals()
    ensures Pad2(16) == "16" && Pad2(20) == "20"
  {
    Pad2Layout(16);
    Pad2Layout(20);
    DigitChars();
  }

  lemma SecondMillisNumerals()
    ensures Pad2(4) == "04" && Pad3(20) == "020"
  {
    Pad2Layout(4);
    Pad3Layout(20);
    DigitChars();
  }

  /** The date fields of 1983-05-28. */
  lemma IsoDateFields(v: LocalView, l: Labels)
    requires ViewOk(v) && LabelsOk(l) && v.date.year == 1983 && v.date.month == 4 && v.date.day == 28
    ensures FieldText(0, v, l) == "1983" && FieldText(5, v, l) == "05" && FieldText(9, v, l) == "28"
  {
    YearNumeral();
    MonthDayNumerals();
  }

  /** The hour and minute fields of 16:20. */
  lemma IsoHourMinuteFields(v: LocalView, l: Labels)
    requires ViewOk(v) && LabelsOk(l) && v.date.hour == 16 && v.date.minute == 20
    ensures FieldText(13, v, l) == "16" && FieldText(15, v, l) == "20"
  {
    HourField(v, l);
    MinuteField(v, l);
    HourMinuteNumerals();
  }

  /** `HH` is the padded hour. */
  lemma HourField(v: LocalView, l: Labels)
    requires ViewOk(v) && LabelsOk(l)
    ensures FieldText(13, v, l) == Pad2(v.date.hour)
  {
  }

  /** `mm` is the padded minute. */
  lemma MinuteField(v: LocalView, l: Labels)
    requires ViewOk(v) && LabelsOk(l)
    ensures FieldText(15, v, l) == Pad2(v.date.minute)
  {
  }

  /** The second and millisecond fields of 04.020. */
  lemma IsoSecondMillisFields(v: LocalView, l: Labels)
    requires ViewOk(v) && LabelsOk(l) && v.date.second == 4 && v.date.ms == 20
    ensures FieldText(17, v, l) == "04" && FieldText(19, v, l) == "020"
  {
    SecondMillisNumerals();
  }

  lemma IsoJoin(offset: string)
    ensures Join(["1983", "-", "05", "-", "28"]) + Join(["T", "16", ":", "20", ":"]) + Join(["04", ".", "020", " ", offset])
         == "1983-05-28T16:20:04.020 " + offset
  {
    Join5("1983", "-", "05", "-", "28");
    Join5("T", "16", ":", "20", ":");
    Join5("04", ".", "020", " ", offset);
  }

  /** `new Date(1983, 4, 28, 16, 20, 4, 20).format("yyyy-MM-ddTHH:mm:ss.fff K")` starts with
      "1983-05-28T16:20:04.020 " and ends with the offset in `K` form. */
  lemma FormatIsoPattern(v: LocalView)
    requires ViewOk(v) && v.date == DateTime(1983, 4, 28, 16, 20, 4, 20) && v.weekday == 6
    ensures Format(v, Some("yyyy-MM-ddTHH:mm:ss.fff K"), None, None, None, None)
         == "1983-05-28T16:20:04.020 " + OffsetText(v.offset)
  {
    var l := LabelsFor(None, None, None, None);
    IsoDateFields(v, l);
    IsoHourMinuteFields(v, l);
    IsoSecondMillisFields(v, l);
    OffsetField(v, l);
    IsoJoin(OffsetText(v.offset));
    LabelsForBraceFree(None, None, None, None);
    FormatIso("yyyy-MM-ddTHH:mm:ss.fff K", v, None, None, None, None);
  }

  /** `K` is the `OffsetText` of the view's offset. */
  lemma OffsetField(v: LocalView, l: Labels)
    requires ViewOk(v) && LabelsOk(l)
    ensures FieldText(25, v, l) == OffsetText(v.offset)
  {
  }

  /** `K`, `zz` and `z` are the offset texts of the view's offset. */
  lemma ZoneFields(v: LocalView, l: Labels)
    requires ViewOk(v) && LabelsOk(l)
    ensures FieldText(25, v, l) == OffsetText(v.offset)
    ensures FieldText(26, v, l) == OffsetHoursText(v.offset, true)
    ensures FieldText(27, v, l) == OffsetHoursText(v.offset, false)
  {
    ZoneField26(v, l);
    ZoneField27(v, l);
  }

  lemma ZoneField26(v: LocalView, l: Labels)
    requires ViewOk(v) && LabelsOk(l)
    ensures FieldText(26, v, l) == OffsetHoursText(v.offset, true)
  {
  }

  lemma ZoneField27(v: LocalView, l: Labels)
    requires ViewOk(v) && LabelsOk(l)
    ensures FieldText(27, v, l) == OffsetHoursText(v.offset, false)
  {
  }

  lemma EastOffsetFields(v: LocalView, l: Labels)
    requires ViewOk(v) && LabelsOk(l) && v.offset == 180
    ensures FieldText(25, v, l) == "+03:00" && FieldText(26, v, l) == "03" && FieldText(27, v, l) == "3"
  {
    ZoneFields(v, l);
    EastOffsetNumerals();
  }

  lemma EastZoneJoin()
    ensures Join(["+03:00", " ", "+03:00", " ", "03"]) + Join([" ", "3"]) == "+03:00 +03:00 03 3"
  {
    Join5("+03:00", " ", "+03:00", " ", "03");
    Join2(" ", "3");
  }

  lemma EastOffsetNumerals()
    ensures OffsetText(180) == "+03:00" && OffsetHoursText(180, true) == "03" && OffsetHoursText(180, false) == "3"
  {
    assert Abs(180) / 60 == 3 && Abs(JsRem(180, 60)) == 0 && (180 + 30) / 60 == 3;
    Pad2Layout(3);
    Pad2Layout(0);
    Numeral1(3);
    DigitChars();
  }

  lemma WestOffsetFields(v: LocalView, l: Labels)
    requires ViewOk(v) && LabelsOk(l) && v.offset == -90
    ensures FieldText(25, v, l) == "-01:30" && FieldText(26, v, l) == "-01" && FieldText(27, v, l) == "-1"
  {
    ZoneFields(v, l);
    WestOffsetNumerals();
  }

  lemma WestZoneJoin()
    ensures Join(["-01:30", " ", "-01:30", " ", "-01"]) + Join([" ", "-1"]) == "-01:30 -01:30 -01 -1"
  {
    Join5("-01:30", " ", "-01:30", " ", "-01");
    Join2(" ", "-1");
  }

  lemma WestOffsetNumerals()
    ensures OffsetText(-90) == "-01:30" && OffsetHoursText(-90, true) == "-01" && OffsetHoursText(-90, false) == "-1"
  {
    WestOffsetText();
    WestHoursText();
  }

  lemma WestOffsetText()
    ensures OffsetText(-90) == "-01:30"
  {
    var h, m := Abs(-90) / 60, Abs(JsRem(-90, 60));
    assert h == 1 && m == 30;
    OneNumeral();
    ThirtyNumeral();
    assert OffsetText(-90) == "-" + Pad2(h) + ":" + Pad2(m) == "-" + "01" + ":" + "30";
  }

  lemma WestHoursText()
    ensures OffsetHoursText(-90, true) == "-01" && OffsetHoursText(-90, false) == "-1"
  {
    assert Abs(-90) / 60 == 1;
    OneNumeral();
  }

  lemma ThirtyNumeral()
    ensures Pad2(30) == "30"
  {
    Pad2Layout(30);
    DigitChars();
  }

  lemma HourWestNumerals()
    ensures OffsetText(-60) == "-01:00" && OffsetHoursText(-60, true) == "-01" && OffsetHoursText(-60, false) == "-1"
  {
    assert Abs(-60) / 60 == 1 && Abs(JsRem(-60, 60)) == 0;
    Pad2Layout(1);
    Pad2Layout(0);
    Numeral1(1);
    DigitChars();
  }

  /** With `getTimezoneOffset()` at 180, `"K zzz zz z"` gives "+03:00 +03:00 03 3". */
  lemma FormatPositiveOffset(v: LocalView)
    requires ViewOk(v) && v.offset == 180
    ensures Format(v, Some("K zzz zz z"), None, None, None, None) == "+03:00 +03:00 03 3"
  {
    var l := LabelsFor(None, None, None, None);
    EastOffsetFields(v, l);
    EastZoneJoin();
    LabelsForBraceFree(None, None, None, None);
    FormatZone("K zzz zz z", v, None, None, None, None);
  }

  /** With `getTimezoneOffset()` at -90, `"K zzz zz z"` gives "-01:30 -01:30 -01 -1". */
  lemma FormatNegativeOffset(v: LocalView)
    requires ViewOk(v) && v.offset == -90
    ensures Format(v, Some("K zzz zz z"), None, None, None, None) == "-01:30 -01:30 -01 -1"
  {
    var l := LabelsFor(None, None, None, None);
    WestOffsetFields(v, l);
    WestZoneJoin();
    LabelsForBraceFree(None, None, None, None);
    FormatZone("K zzz zz z", v, None, None, None, None);
  }

  /** The names and day of month of Saturday 28 May under the default tables. */
  lemma UnusualNameFields(v: LocalView, l: Labels)
    requires ViewOk(v) && v.weekday == 6 && v.date.month == 4 && v.date.day == 28
    requires l == LabelsFor(None, None, None, None)
    ensures FieldText(7, v, l) == "Saturday" && FieldText(3, v, l) == "May" && FieldText(10, v, l) == "28"
  {
    DayNumeral28();
  }

  lemma DayNumeral28()
    ensures NatToString(28) == "28"
  {
    Numeral2(28);
    DigitChars();
  }

  lemma OneNumeral()
    ensures Pad2(1) == "01" && NatToString(1) == "1"
  {
    Pad2Layout(1);
    Numeral1(1);
    DigitChars();
  }

  lemma NilNumeral()
    ensures Pad2(0) == "00" && NatToString(0) == "0"
  {
    Pad2Layout(0);
    Numeral1(0);
    DigitChars();
  }

  /** The clock fields of 01:00:00. */
  lemma UnusualClockFields(v: LocalView, l: Labels)
    requires ViewOk(v) && LabelsOk(l) && v.date.hour == 1 && v.date.minute == 0 && v.date.second == 0
    ensures FieldText(11, v, l) == "01" && FieldText(12, v, l) == "1"
    ensures FieldText(15, v, l) == "00" && FieldText(18, v, l) == "0"
  {
    OneNumeral();
    NilNumeral();
  }

  /** A whole second leaves the trimmed fractions empty. */
  lemma WholeSecondFields(v: LocalView, l: Labels)
    requires ViewOk(v) && LabelsOk(l) && v.date.ms == 0
    ensures FieldText(22, v, l) == "" && FieldText(23, v, l) == "" && FieldText(24, v, l) == ""
  {
    TrimmedMillisField(v, l);
    TrimmedFractionFields(v, l);
  }

  lemma HourWestFields(v: LocalView, l: Labels)
    requires ViewOk(v) && LabelsOk(l) && v.offset == -60
    ensures FieldText(25, v, l) == "-01:00" && FieldText(26, v, l) == "-01" && FieldText(27, v, l) == "-1"
  {
    ZoneFields(v, l);
    HourWestNumerals();
  }

  // The pattern's pieces come in chunks of five, matching `FormatUnusual`: one join
  // over all 31 pieces is too costly for the verifier, five pieces at a time is not.
  lemma UnusualChunk1Join()
    ensures Join(["$", "Saturday", "~", "[", "May"]) == "$Saturday~[May"
  {
    Join5("$", "Saturday", "~", "[", "May");
  }

  lemma UnusualChunk2Join()
    ensures Join(["]", ",", "28", "\n", "\t"]) == "],28\n\t"
  {
    Join5("]", ",", "28", "\n", "\t");
  }

  lemma UnusualChunk3Join()
    ensures Join(["@", "01", "/", "1", "|"]) == "@01/1|"
  {
    Join5("@", "01", "/", "1", "|");
  }

  lemma UnusualChunk4Join()
    ensures Join(["00", "&", "0", ".", ""]) == "00&0."
  {
    Join5("00", "&", "0", ".", "");
  }

  lemma UnusualChunk5Join()
    ensures Join(["/", "", "/", "", "\n"]) == "//\n"
  {
    Join5("/", "", "/", "", "\n");
  }

  lemma UnusualChunk6Join()
    ensures Join(["»", "-01:00", "/", "-01", "/"]) == "»-01:00/-01/"
  {
    Join5("»", "-01:00", "/", "-01", "/");
  }

  lemma UnusualChunk7Join()
    ensures Join(["-1"]) == "-1"
  {
    Join1("-1");
  }

  lemma UnusualLiteralConcat()
    ensures "$Saturday~[May" + "],28\n\t" + "@01/1|" + "00&0." + "//\n" + "»-01:00/-01/" + "-1"
         == "$Saturday~[May],28\n\t@01/1|00&0.//\n»-01:00/-01/-1"
  {
  }

  /** The field texts of local 01:00 on Saturday 28 May, one hour east of UTC, in pattern order. */
  lemma UnusualFieldsJoin(v: LocalView, l: Labels)
    requires ViewOk(v) && v.date == DateTime(1983, 4, 28, 1, 0, 0, 0) && v.weekday == 6 && v.offset == -60
    requires l == LabelsFor(None, None, None, None)
    ensures Join(["$", FieldText(7, v, l), "~", "[", FieldText(3, v, l)]) +
            Join(["]", ",", FieldText(10, v, l), "\n", "\t"]) +
            Join(["@", FieldText(11, v, l), "/", FieldText(12, v, l), "|"]) +
            Join([FieldText(15, v, l), "&", FieldText(18, v, l), ".", FieldText(22, v, l)]) +
            Join(["/", FieldText(23, v, l), "/", FieldText(24, v, l), "\n"]) +
            Join(["»", FieldText(25, v, l), "/", FieldText(26, v, l), "/"]) +
            Join([FieldText(27, v, l)])
         == "$Saturday~[May],28\n\t@01/1|00&0.//\n»-01:00/-01/-1"
  {
    UnusualNameFields(v, l);
    UnusualClockFields(v, l);
    WholeSecondFields(v, l);
    HourWestFields(v, l);
    UnusualChunk1Join();
    UnusualChunk2Join();
    UnusualChunk3Join();
    UnusualChunk4Join();
    UnusualChunk5Join();
    UnusualChunk6Join();
    UnusualChunk7Join();
    UnusualLiteralConcat();
  }

  /** `new Date("1983-05-28T00:00:00.000Z")` seen one hour east of UTC (local 01:00 on
      Saturday 28 May, `getTimezoneOffset()` equal to -60) formats the unusual pattern
      "$dddd~[MMMM],d\n\t@hh/h|mm&s.FFF/FF/F\n»K/zz/z" with every literal kept. */
  lemma FormatUnusualPattern(v: LocalView)
    requires ViewOk(v) && v.date == DateTime(1983, 4, 28, 1, 0, 0, 0) && v.weekday == 6 && v.offset == -60
    ensures Format(v, Some("$dddd~[MMMM],d\n\t@hh/h|mm&s.FFF/FF/F\n»K/zz/z"), None, None, None, None)
         == "$Saturday~[May],28\n\t@01/1|00&0.//\n»-01:00/-01/-1"
  {
    UnusualFieldsJoin(v, LabelsFor(None, None, None, None));
    LabelsForBraceFree(None, None, None, None);
    FormatUnusual("$dddd~[MMMM],d\n\t@hh/h|mm&s.FFF/FF/F\n»K/zz/z", v, None, None, None, None);
  }
}
