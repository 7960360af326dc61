/**
 * The first phase of `format`: a fixed chain of global replaces turns every
 * token of the pattern (`yyyy`, `MMM`, `hh`, `K`, `t`, ...) into a numbered
 * placeholder `{0}` .. `{29}`. Longer tokens of a letter come before shorter
 * ones, so the chain behaves like a tokenizer that always takes the longest
 * token at the current position; `Lex` is that tokenizer, and
 * `TokenizeIsEncodedLex` proves the two agree on every pattern.
 */
module Tokens {
  import opened Wrappers
  import opened JsSemantics
  import opened Replace

  /** One `.replace(/c…c/g, "{code}")` step: a run of `len` copies of `letter` becomes placeholder `code`. */
  datatype Rule = Rule(letter: char, len: nat, code: nat)

  /** The replace chain in source order, one group per letter, longest token
      first. The alternation `/K|zzz/g` is split into two rules with the same
      code: `K` and `z` are different letters and placeholders contain no
      letters, so replacing `K` first and `zzz` second finds the same
      occurrences. */
  const Groups: seq<seq<Rule>> := [
    YearRules,
    MonthRules,
    DayRules,
    Hour12Rules,
    Hour24Rules,
    MinuteRules,
    SecondRules,
    FractionRules,
    TrimmedFractionRules,
    ZoneLetterRules,
    ZoneRules,
    DesignatorRules
  ]

  /** The rules for the year. */
  const YearRules: seq<Rule> := [Rule('y', 4, 0), Rule('y', 2, 1), Rule('y', 1, 2)]

  /** The rules for the month. */
  const MonthRules: seq<Rule> := [Rule('M', 4, 3), Rule('M', 3, 4), Rule('M', 2, 5), Rule('M', 1, 6)]

  /** The rules for the weekday and the day of the month. */
  const DayRules: seq<Rule> := [Rule('d', 4, 7), Rule('d', 3, 8), Rule('d', 2, 9), Rule('d', 1, 10)]

  /** The rules for the hour on the 12-hour clock. */
  const Hour12Rules: seq<Rule> := [Rule('h', 2, 11), Rule('h', 1, 12)]

  /** The rules for the hour on the 24-hour clock. */
  const Hour24Rules: seq<Rule> := [Rule('H', 2, 13), Rule('H', 1, 14)]

  /** The rules for the minute. */
  const MinuteRules: seq<Rule> := [Rule('m', 2, 15), Rule('m', 1, 16)]

  /** The rules for the second. */
  const SecondRules: seq<Rule> := [Rule('s', 2, 17), Rule('s', 1, 18)]

  /** The rules for the fraction of the second. */
  const FractionRules: seq<Rule> := [Rule('f', 3, 19), Rule('f', 2, 20), Rule('f', 1, 21)]

  /** The rules for the fraction of the second, empty when zero. */
  const TrimmedFractionRules: seq<Rule> := [Rule('F', 3, 22), Rule('F', 2, 23), Rule('F', 1, 24)]

  /** The rules for the zone offset written `K`. */
  const ZoneLetterRules: seq<Rule> := [Rule('K', 1, 25)]

  /** The rules for the zone offset. */
  const ZoneRules: seq<Rule> := [Rule('z', 3, 25), Rule('z', 2, 26), Rule('z', 1, 27)]

  /** The rules for the AM/PM designator. */
  const DesignatorRules: seq<Rule> := [Rule('t', 2, 28), Rule('t', 1, 29)]

  function Flatten(gs: seq<seq<Rule>>): seq<Rule> {
    if gs == [] then [] else gs[0] + Flatten(gs[1..])
  }

  const Rules: seq<Rule> := Flatten(Groups)

  /** The letters that tokens are made of. */
  const TokenLetters: set<char> := {'y', 'M', 'd', 'h', 'H', 'm', 's', 'f', 'F', 'K', 'z', 't'}

  /** The number of placeholders; codes run from 0 to `FieldCount - 1`. */
  const FieldCount := 30

  predicate RuleOk(rule: Rule) {
    1 <= rule.len <= 4 && rule.letter in TokenLetters && rule.code < FieldCount
  }

  predicate RulesOk(rules: seq<Rule>) {
    forall i :: 0 <= i < |rules| ==> RuleOk(rules[i])
  }

  lemma {:induction false} FlattenOk(gs: seq<seq<Rule>>)
    requires forall i :: 0 <= i < |gs| ==> RulesOk(gs[i])
    ensures RulesOk(Flatten(gs))
    decreases |gs|
  {
    if gs != [] {
      FlattenOk(gs[1..]);
    }
  }

  lemma RulesAreOk()
    ensures RulesOk(Rules)
  {
    GroupsDescending();
    FlattenOk(Groups);
  }

  /** The run a rule replaces. */
  function Pattern(rule: Rule): (p: string)
    requires rule.len >= 1
    ensures p != [] && p[0] == rule.letter
  {
    Repeat(rule.letter, rule.len)
  }

  /** The text `{code}`. */
  function Placeholder(code: nat): (s: string)
    ensures |s| >= 3 && s[0] == '{' && s[|s| - 1] == '}'
    ensures forall i :: 0 <= i < |s| ==> s[i] !in TokenLetters
  {
    "{" + NatToString(code) + "}"
  }

  function Pass(s: string, rule: Rule): string
    requires rule.len >= 1
  {
    ReplaceAll(s, Pattern(rule), Placeholder(rule.code))
  }

  /** The replaces of `rules`, first rule first. */
  function Apply(rules: seq<Rule>, s: string): string
    requires RulesOk(rules)
  {
    if rules == [] then s else Apply(rules[1..], Pass(s, rules[0]))
  }

  /** The first phase of `format` on a pattern. */
  function Tokenize(pattern: string): string {
    RulesAreOk();
    Apply(Rules, pattern)
  }

  // ---------------------------------------------------------------------------
  // The reference tokenizer

  /** A piece of a tokenized pattern: a literal character or a field placeholder. */
  datatype Segment = Lit(c: char) | Field(code: nat)

  function EncodeSegment(seg: Segment): string {
    match seg
    case Lit(c) => [c]
    case Field(code) => Placeholder(code)
  }

  /** The text of a segment list with every field written as its placeholder. */
  function Encode(segs: seq<Segment>): string {
    if segs == [] then [] else EncodeSegment(segs[0]) + Encode(segs[1..])
  }

  lemma {:induction false} EncodeConcat(x: seq<Segment>, y: seq<Segment>)
    ensures Encode(x + y) == Encode(x) + Encode(y)
  {
    if x != [] {
      var xy := x + y;
      assert xy[0] == x[0] && xy[1..] == x[1..] + y;
      EncodeConcat(x[1..], y);
      ConcatAssoc(EncodeSegment(x[0]), Encode(x[1..]), Encode(y));
    } else {
      assert x + y == y;
    }
  }

  /** The first rule of `rules` whose run starts `s`. */
  function FirstMatch(rules: seq<Rule>, s: string): (m: Option<Rule>)
    requires RulesOk(rules)
    ensures m.Some? ==> RuleOk(m.value) && 1 <= m.value.len <= |s| && s[0] == m.value.letter
  {
    if rules == [] then None
    else if Pattern(rules[0]) <= s then Some(rules[0])
    else FirstMatch(rules[1..], s)
  }

  /** `FirstMatch` finds a rule of the list whose run starts `s`, and fails only
      when no rule's run does. */
  lemma {:induction false} FirstMatchMeaning(rules: seq<Rule>, s: string)
    requires RulesOk(rules)
    ensures FirstMatch(rules, s).Some? ==> FirstMatch(rules, s).value in rules && Pattern(FirstMatch(rules, s).value) <= s
    ensures FirstMatch(rules, s).None? ==> forall i :: 0 <= i < |rules| ==> !(Pattern(rules[i]) <= s)
    decreases |rules|
  {
    if rules != [] && !(Pattern(rules[0]) <= s) {
      FirstMatchMeaning(rules[1..], s);
      assert forall i :: 1 <= i < |rules| ==> rules[i] == rules[1..][i - 1];
    }
  }

  /** The longest-match tokenizer over `rules`: at each position take the
      first rule that matches, else one literal character. */
  function LexBy(rules: seq<Rule>, s: string): seq<Segment>
    requires RulesOk(rules)
    decreases |s|
  {
    if s == [] then []
    else match FirstMatch(rules, s)
      case Some(rule) => [Field(rule.code)] + LexBy(rules, s[rule.len..])
      case None => [Lit(s[0])] + LexBy(rules, s[1..])
  }

  /** The tokens of a `format` pattern. */
  function Lex(s: string): seq<Segment> {
    RulesAreOk();
    LexBy(Rules, s)
  }

  /** Every field code the tokenizer produces names one of the 30 placeholders. */
  lemma {:induction false} LexCodes(rules: seq<Rule>, s: string)
    requires RulesOk(rules)
    ensures forall i :: 0 <= i < |LexBy(rules, s)| && LexBy(rules, s)[i].Field? ==> LexBy(rules, s)[i].code < FieldCount
    decreases |s|
  {
    if s != [] {
      match FirstMatch(rules, s)
      case Some(rule) => LexCodes(rules, s[rule.len..]);
      case None => LexCodes(rules, s[1..]);
    }
  }

  predicate LetterFree(s: string) {
    forall i :: 0 <= i < |s| ==> s[i] !in TokenLetters
  }

  /** A text without token letters is all literals. */
  lemma {:induction false} LexLiteral(rules: seq<Rule>, s: string)
    requires RulesOk(rules) && LetterFree(s)
    ensures Encode(LexBy(rules, s)) == s
    ensures forall i :: 0 <= i < |LexBy(rules, s)| ==> LexBy(rules, s)[i].Lit?
    decreases |s|
  {
    if s != [] {
      LexLiteral(rules, s[1..]);
      assert LexBy(rules, s) == [Lit(s[0])] + LexBy(rules, s[1..]);
      EncodeConcat([Lit(s[0])], LexBy(rules, s[1..]));
    }
  }

  // ---------------------------------------------------------------------------
  // Splitting at a letter change

  /** No token can run across the boundary between `a` and `b`. */
  predicate Separated(a: string, b: string) {
    a == [] || b == [] || a[|a| - 1] != b[0] || a[|a| - 1] !in TokenLetters
  }

  lemma SeparatedDrop(a: string, b: string, n: nat)
    requires Separated(a, b) && n <= |a|
    ensures Separated(a[n..], b)
  {
    if n < |a| {
      assert a[n..][|a| - n - 1] == a[|a| - 1];
    }
  }

  lemma PassSplit(a: string, b: string, rule: Rule)
    requires RuleOk(rule) && Separated(a, b)
    ensures Pass(a + b, rule) == Pass(a, rule) + Pass(b, rule)
    ensures Separated(Pass(a, rule), Pass(b, rule))
  {
    ReplaceRunSplit(a, b, rule.letter, rule.len, Placeholder(rule.code));
    var ph := Placeholder(rule.code);
    if a != [] && b != [] {
      ReplaceEnds(a, Pattern(rule), ph);
      ReplaceEnds(b, Pattern(rule), ph);
    } else if a == [] {
      assert Pass(a, rule) == [];
    } else {
      assert Pass(b, rule) == [];
    }
  }

  lemma {:induction false} ApplySplit(rules: seq<Rule>, a: string, b: string)
    requires RulesOk(rules) && Separated(a, b)
    ensures Apply(rules, a + b) == Apply(rules, a) + Apply(rules, b)
    decreases |rules|
  {
    if rules != [] {
      PassSplit(a, b, rules[0]);
      ApplySplit(rules[1..], Pass(a, rules[0]), Pass(b, rules[0]));
    }
  }

  lemma {:induction false} FirstMatchSplit(rules: seq<Rule>, a: string, b: string)
    requires RulesOk(rules) && a != [] && Separated(a, b)
    ensures FirstMatch(rules, a + b) == FirstMatch(rules, a)
    decreases |rules|
  {
    if rules != [] {
      var p := Pattern(rules[0]);
      if |p| > |a| && p <= a + b {
        RunStraddles(a, b, rules[0].letter, rules[0].len);
        assert false;
      }
      if |p| <= |a| {
        assert (a + b)[..|p|] == a[..|p|];
      }
      FirstMatchSplit(rules[1..], a, b);
    }
  }

  /** One step of the tokenizer on text that starts with `a`'s first token. */
  lemma LexStep(rules: seq<Rule>, s: string, n: nat, seg: Segment)
    requires RulesOk(rules) && s != [] && 1 <= n <= |s|
    requires FirstMatch(rules, s).Some? ==> n == FirstMatch(rules, s).value.len && seg == Field(FirstMatch(rules, s).value.code)
    requires FirstMatch(rules, s).None? ==> n == 1 && seg == Lit(s[0])
    ensures LexBy(rules, s) == [seg] + LexBy(rules, s[n..])
  {
  }

  /** `a + b` and `a` start with the same token. */
  lemma LexHead(rules: seq<Rule>, a: string, b: string) returns (n: nat, seg: Segment)
    requires RulesOk(rules) && a != [] && Separated(a, b)
    ensures 1 <= n <= |a|
    ensures LexBy(rules, a + b) == [seg] + LexBy(rules, a[n..] + b)
    ensures LexBy(rules, a) == [seg] + LexBy(rules, a[n..])
  {
    FirstMatchSplit(rules, a, b);
    var m := FirstMatch(rules, a);
    n := if m.Some? then m.value.len else 1;
    seg := if m.Some? then Field(m.value.code) else Lit(a[0]);
    LexStep(rules, a + b, n, seg);
    LexStep(rules, a, n, seg);
    LexTail(rules, a + b, n, seg, a, b);
  }

  lemma LexTail(rules: seq<Rule>, s: string, n: nat, seg: Segment, a: string, b: string)
    requires RulesOk(rules) && n <= |a| && s == a + b
    requires LexBy(rules, s) == [seg] + LexBy(rules, s[n..])
    ensures LexBy(rules, s) == [seg] + LexBy(rules, a[n..] + b)
  {
    assert s[n..] == a[n..] + b;
  }

  lemma ConsAssoc(whole: seq<Segment>, left: seq<Segment>, seg: Segment, x: seq<Segment>, y: seq<Segment>, xy: seq<Segment>)
    requires whole == [seg] + xy && xy == x + y && left == [seg] + x
    ensures whole == left + y
  {
  }

  lemma {:induction false} LexSplit(rules: seq<Rule>, a: string, b: string)
    requires RulesOk(rules) && Separated(a, b)
    ensures LexBy(rules, a + b) == LexBy(rules, a) + LexBy(rules, b)
    decreases |a|
  {
    if a == [] {
      assert a + b == b;
    } else {
      var n, seg := LexHead(rules, a, b);
      SeparatedDrop(a, b, n);
      LexSplit(rules, a[n..], b);
      ConsAssoc(LexBy(rules, a + b), LexBy(rules, a), seg, LexBy(rules, a[n..]), LexBy(rules, b), LexBy(rules, a[n..] + b));
    }
  }

  // ---------------------------------------------------------------------------
  // A run of one character

  /** What the chain makes of a run of `k` copies of `c`: each rule for `c`
      takes as many whole runs of its length as fit, the rest goes on. */
  function RunEnc(rules: seq<Rule>, c: char, k: nat): string
    requires RulesOk(rules)
  {
    if rules == [] then Repeat(c, k)
    else
      RulesTail(rules);
      if rules[0].letter == c then
      Copies(Placeholder(rules[0].code), k / rules[0].len) + RunEnc(rules[1..], c, k % rules[0].len)
    else RunEnc(rules[1..], c, k)
  }

  lemma {:induction false} CopiesLetterFree(r: string, k: nat)
    requires LetterFree(r)
    ensures LetterFree(Copies(r, k))
  {
    if k > 0 {
      CopiesLetterFree(r, k - 1);
    }
  }

  lemma LetterFreeConcat(a: string, b: string)
    requires LetterFree(a) && LetterFree(b)
    ensures LetterFree(a + b)
  {
    forall i | 0 <= i < |a + b| ensures (a + b)[i] !in TokenLetters {
      if i < |a| { assert (a + b)[i] == a[i]; } else { assert (a + b)[i] == b[i - |a|]; }
    }
  }

  lemma PassRun(prefix: string, c: char, k: nat, rule: Rule)
    requires RuleOk(rule) && LetterFree(prefix)
    ensures rule.letter == c ==>
      Pass(prefix + Repeat(c, k), rule) == (prefix + Copies(Placeholder(rule.code), k / rule.len)) + Repeat(c, k % rule.len)
    ensures rule.letter != c ==> Pass(prefix + Repeat(c, k), rule) == prefix + Repeat(c, k)
  {
    var p, ph := Pattern(rule), Placeholder(rule.code);
    assert p[0] !in prefix;
    ReplaceSkipsPrefix(prefix, Repeat(c, k), p, ph);
    if rule.letter == c {
      ReplaceInRun(c, k, rule.len, ph);
    } else {
      ReplaceNoFirstChar(Repeat(c, k), p, ph);
    }
  }

  lemma {:induction false} ApplyRun(rules: seq<Rule>, prefix: string, c: char, k: nat)
    requires RulesOk(rules) && LetterFree(prefix)
    ensures Apply(rules, prefix + Repeat(c, k)) == prefix + RunEnc(rules, c, k)
    decreases |rules|
  {
    if rules != [] {
      var rule := rules[0];
      assert RuleOk(rule) && RulesOk(rules[1..]);
      if rule.letter == c {
        var copies := Copies(Placeholder(rule.code), k / rule.len);
        CopiesLetterFree(Placeholder(rule.code), k / rule.len);
        LetterFreeConcat(prefix, copies);
        ApplyRun(rules[1..], prefix + copies, c, k % rule.len);
        ApplyRunMatch(rules, prefix, c, k, copies, RunEnc(rules[1..], c, k % rule.len));
      } else {
        ApplyRun(rules[1..], prefix, c, k);
        ApplyRunOther(rules, prefix, c, k);
      }
    }
  }

  /** One pass of a rule for the run's letter, given what the later rules do. */
  lemma ApplyRunMatch(rules: seq<Rule>, prefix: string, c: char, k: nat, copies: string, rest: string)
    requires rules != [] && RulesOk(rules) && RulesOk(rules[1..]) && rules[0].letter == c && LetterFree(prefix)
    requires copies == Copies(Placeholder(rules[0].code), k / rules[0].len)
    requires rest == RunEnc(rules[1..], c, k % rules[0].len)
    requires Apply(rules[1..], (prefix + copies) + Repeat(c, k % rules[0].len)) == (prefix + copies) + rest
    ensures Apply(rules, prefix + Repeat(c, k)) == prefix + RunEnc(rules, c, k)
  {
    PassRun(prefix, c, k, rules[0]);
    ApplyOnce(rules, prefix + Repeat(c, k));
    RunEncMatch(rules, c, k);
    ConcatAssoc(prefix, copies, rest);
  }

  /** `Apply` runs the first rule's pass, then the others. */
  lemma ApplyOnce(rules: seq<Rule>, s: string)
    requires rules != [] && RulesOk(rules)
    ensures RuleOk(rules[0]) && RulesOk(rules[1..])
    ensures Apply(rules, s) == Apply(rules[1..], Pass(s, rules[0]))
  {
  }

  /** A rule for the run's letter takes as many whole runs of its length as fit. */
  lemma RunEncMatch(rules: seq<Rule>, c: char, k: nat)
    requires rules != [] && RulesOk(rules) && rules[0].letter == c
    ensures RulesOk(rules[1..])
    ensures RunEnc(rules, c, k) == Copies(Placeholder(rules[0].code), k / rules[0].len) + RunEnc(rules[1..], c, k % rules[0].len)
  {
  }

  lemma RulesTail(rules: seq<Rule>)
    requires RulesOk(rules) && rules != []
    ensures RuleOk(rules[0]) && RulesOk(rules[1..])
  {
    assert forall i :: 0 <= i < |rules| - 1 ==> rules[1..][i] == rules[i + 1];
  }

  lemma ConcatAssoc<T>(a: seq<T>, b: seq<T>, c: seq<T>)
    ensures (a + b) + c == a + (b + c)
  {
  }

  /** One pass of a rule for another letter, given what the later rules do. */
  lemma ApplyRunOther(rules: seq<Rule>, prefix: string, c: char, k: nat)
    requires rules != [] && RulesOk(rules) && RulesOk(rules[1..]) && rules[0].letter != c && LetterFree(prefix)
    requires Apply(rules[1..], prefix + Repeat(c, k)) == prefix + RunEnc(rules[1..], c, k)
    ensures Apply(rules, prefix + Repeat(c, k)) == prefix + RunEnc(rules, c, k)
  {
    PassRun(prefix, c, k, rules[0]);
    ApplyOnce(rules, prefix + Repeat(c, k));
  }

  /** The rules of `rules` for letter `c`, in order. */
  function Filter(rules: seq<Rule>, c: char): (g: seq<Rule>)
    requires RulesOk(rules)
    ensures RulesOk(g)
  {
    if rules == [] then []
    else if rules[0].letter == c then [rules[0]] + Filter(rules[1..], c)
    else Filter(rules[1..], c)
  }

  lemma {:induction false} RunEncFilter(rules: seq<Rule>, c: char, k: nat)
    requires RulesOk(rules)
    ensures RunEnc(rules, c, k) == RunEnc(Filter(rules, c), c, k)
    decreases |rules|
  {
    if rules != [] {
      if rules[0].letter == c {
        assert ([rules[0]] + Filter(rules[1..], c))[1..] == Filter(rules[1..], c);
        RunEncFilter(rules[1..], c, k % rules[0].len);
      } else {
        RunEncFilter(rules[1..], c, k);
      }
    }
  }

  lemma {:induction false} FirstMatchFilter(rules: seq<Rule>, c: char, k: nat)
    requires RulesOk(rules)
    ensures FirstMatch(rules, Repeat(c, k)) == FirstMatch(Filter(rules, c), Repeat(c, k))
    decreases |rules|
  {
    if rules != [] {
      if rules[0].letter == c {
        assert ([rules[0]] + Filter(rules[1..], c))[1..] == Filter(rules[1..], c);
      } else if k > 0 {
        assert Repeat(c, k)[0] == c;
      }
      FirstMatchFilter(rules[1..], c, k);
    }
  }

  /** The first token of a run of `k > 0` copies of `c` under the rules `g`:
      the first rule that matches the run, else the literal letter. */
  function RunHead(g: seq<Rule>, c: char, k: nat): Segment
    requires RulesOk(g) && k > 0
  {
    match FirstMatch(g, Repeat(c, k))
    case Some(rule) => Field(rule.code)
    case None => Lit(c)
  }

  /** How many copies the first token of the run consumes. */
  function RunStepLen(g: seq<Rule>, c: char, k: nat): (n: nat)
    requires RulesOk(g) && k > 0
    ensures 1 <= n <= k
  {
    match FirstMatch(g, Repeat(c, k))
    case Some(rule) => rule.len
    case None => 1
  }

  /** Greedy tokens of a run of `k` copies of `c` under the rules `g`. */
  function RunTokens(g: seq<Rule>, c: char, k: nat): seq<Segment>
    requires RulesOk(g)
    decreases k
  {
    if k == 0 then [] else [RunHead(g, c, k)] + RunTokens(g, c, k - RunStepLen(g, c, k))
  }

  lemma {:induction false} LexRun(rules: seq<Rule>, c: char, k: nat)
    requires RulesOk(rules)
    ensures LexBy(rules, Repeat(c, k)) == RunTokens(Filter(rules, c), c, k)
    decreases k
  {
    if k > 0 {
      var g := Filter(rules, c);
      var n := RunStepLen(g, c, k);
      HeadFilter(rules, c, k);
      LexStep(rules, Repeat(c, k), n, RunHead(g, c, k));
      RepeatDrop(c, k, n);
      LexRun(rules, c, k - n);
      RunTokensStep(g, c, k);
    }
  }

  /** A run's first token is the same under all rules and under the rules of its letter. */
  lemma HeadFilter(rules: seq<Rule>, c: char, k: nat)
    requires RulesOk(rules) && k > 0
    ensures RulesOk(Filter(rules, c))
    ensures FirstMatch(rules, Repeat(c, k)).Some? ==>
      RunStepLen(Filter(rules, c), c, k) == FirstMatch(rules, Repeat(c, k)).value.len
      && RunHead(Filter(rules, c), c, k) == Field(FirstMatch(rules, Repeat(c, k)).value.code)
    ensures FirstMatch(rules, Repeat(c, k)).None? ==>
      RunStepLen(Filter(rules, c), c, k) == 1 && RunHead(Filter(rules, c), c, k) == Lit(Repeat(c, k)[0])
  {
    FirstMatchFilter(rules, c, k);
  }

  lemma RepeatDrop(c: char, k: nat, n: nat)
    requires n <= k
    ensures Repeat(c, k)[n..] == Repeat(c, k - n)
  {
  }

  lemma RunTokensStep(g: seq<Rule>, c: char, k: nat)
    requires RulesOk(g) && k > 0
    ensures RunTokens(g, c, k) == [RunHead(g, c, k)] + RunTokens(g, c, k - RunStepLen(g, c, k))
  {
  }

  predicate SameLetter(g: seq<Rule>, c: char) {
    forall i :: 0 <= i < |g| ==> g[i].letter == c
  }

  /** The rules for one letter `c`, longest first, ending with the single letter. */
  predicate DescendingGroup(g: seq<Rule>, c: char) {
    && RulesOk(g)
    && |g| >= 1
    && SameLetter(g, c)
    && (forall i, j :: 0 <= i < j < |g| ==> g[i].len > g[j].len)
    && g[|g| - 1].len == 1
  }

  lemma {:induction false} SkipLonger(g: seq<Rule>, c: char, k: nat)
    requires RulesOk(g) && g != [] && SameLetter(g, c) && k < g[0].len
    ensures RunTokens(g, c, k) == RunTokens(g[1..], c, k)
    decreases k
  {
    if k > 0 {
      FirstMatchSkip(g, c, k);
      var n := RunStepLen(g, c, k);
      SkipLonger(g, c, k - n);
      SkipStep(g, g[1..], c, k, RunTokens(g, c, k - n));
    }
  }

  /** Rule lists that take the same first token and then the same rest give the same tokens. */
  lemma SkipStep(g: seq<Rule>, h: seq<Rule>, c: char, k: nat, tail: seq<Segment>)
    requires RulesOk(g) && RulesOk(h) && k > 0
    requires RunHead(g, c, k) == RunHead(h, c, k) && RunStepLen(g, c, k) == RunStepLen(h, c, k)
    requires tail == RunTokens(g, c, k - RunStepLen(g, c, k)) && tail == RunTokens(h, c, k - RunStepLen(g, c, k))
    ensures RunTokens(g, c, k) == RunTokens(h, c, k)
  {
    RunTokensStep(g, c, k);
    RunTokensStep(h, c, k);
  }

  /** A rule longer than the run cannot match it. */
  lemma FirstMatchSkip(g: seq<Rule>, c: char, k: nat)
    requires RulesOk(g) && g != [] && 0 < k < g[0].len
    ensures RulesOk(g[1..])
    ensures RunHead(g, c, k) == RunHead(g[1..], c, k) && RunStepLen(g, c, k) == RunStepLen(g[1..], c, k)
  {
    assert |Pattern(g[0])| == g[0].len;
    assert FirstMatch(g, Repeat(c, k)) == FirstMatch(g[1..], Repeat(c, k));
  }

  /** Division by a rule length, which is at most 4. */
  lemma DivStep(k: nat, n: nat)
    requires 1 <= n <= 4 && n <= k
    ensures k / n == (k - n) / n + 1 && k % n == (k - n) % n
  {
    if n == 1 {
    } else if n == 2 {
    } else if n == 3 {
    } else {
    }
  }

  lemma DivSmall(k: nat, n: nat)
    requires 1 <= n <= 4 && k < n
    ensures k / n == 0 && k % n == k
  {
    if n == 1 {
    } else if n == 2 {
    } else if n == 3 {
    } else {
    }
  }

  lemma {:induction false} RunEncZero(g: seq<Rule>, c: char)
    requires RulesOk(g)
    ensures RunEnc(g, c, 0) == []
    decreases |g|
  {
    if g != [] {
      RunEncZero(g[1..], c);
    }
  }

  lemma GroupRunStep(g: seq<Rule>, c: char, k: nat)
    requires RulesOk(g) && g != [] && g[0].letter == c && k >= g[0].len
    ensures RunEnc(g, c, k) == Placeholder(g[0].code) + RunEnc(g, c, k - g[0].len)
  {
    var n := g[0].len;
    DivStep(k, n);
    RunEncMatch(g, c, k);
    RunEncMatch(g, c, k - n);
    CopiesPeel(Placeholder(g[0].code), (k - n) / n, RunEnc(g, c, k), RunEnc(g, c, k - n), RunEnc(g[1..], c, (k - n) % n));
  }

  lemma CopiesPeel(r: string, q: nat, x: string, y: string, rest: string)
    requires x == Copies(r, q + 1) + rest && y == Copies(r, q) + rest
    ensures x == r + y
  {
    CopiesStep(r, q);
    ConcatAssoc(r, Copies(r, q), rest);
  }

  lemma CopiesStep(r: string, q: nat)
    ensures Copies(r, q + 1) == r + Copies(r, q)
  {
  }

  lemma {:induction false} GroupRun(g: seq<Rule>, c: char, k: nat)
    requires DescendingGroup(g, c)
    ensures Encode(RunTokens(g, c, k)) == RunEnc(g, c, k)
    decreases |g|, k
  {
    var r := g[0];
    if k == 0 {
      RunEncZero(g, c);
    } else if k >= r.len {
      GroupHead(g, c, k);
      RunTokensStep(g, c, k);
      GroupRun(g, c, k - r.len);
      EncodeConcat([Field(r.code)], RunTokens(g, c, k - r.len));
      EncodeField(r.code);
      GroupRunStep(g, c, k);
    } else {
      SkipLonger(g, c, k);
      GroupTail(g, c, k);
      GroupRun(g[1..], c, k);
      RunEncShort(g, c, k);
    }
  }

  /** A run at least as long as the group's longest rule starts with that rule. */
  lemma GroupHead(g: seq<Rule>, c: char, k: nat)
    requires DescendingGroup(g, c) && 0 < g[0].len <= k
    ensures RunHead(g, c, k) == Field(g[0].code) && RunStepLen(g, c, k) == g[0].len
  {
    assert Pattern(g[0]) <= Repeat(c, k);
  }

  /** Past a rule longer than the run the rest of the group is still a group. */
  lemma GroupTail(g: seq<Rule>, c: char, k: nat)
    requires DescendingGroup(g, c) && 0 < k < g[0].len
    ensures DescendingGroup(g[1..], c)
  {
    assert |g| >= 2;
  }

  lemma EncodeField(code: nat)
    ensures Encode([Field(code)]) == Placeholder(code)
  {
    assert [Field(code)][1..] == [];
  }

  /** A run shorter than the longest rule is encoded by the rest of the group. */
  lemma RunEncShort(g: seq<Rule>, c: char, k: nat)
    requires DescendingGroup(g, c) && k < g[0].len
    ensures RulesOk(g[1..]) && RunEnc(g, c, k) == RunEnc(g[1..], c, k)
  {
    DivSmall(k, g[0].len);
    assert RunEnc(g, c, k) == Copies(Placeholder(g[0].code), 0) + RunEnc(g[1..], c, k);
  }

  lemma {:induction false} LiteralRun(c: char, k: nat)
    ensures Encode(RunTokens([], c, k)) == Repeat(c, k)
    decreases k
  {
    if k > 0 {
      LiteralRun(c, k - 1);
      EncodeConcat([Lit(c)], RunTokens([], c, k - 1));
    }
  }

  /** For every character the rules of its letter form a descending group or there are none. */
  predicate Grouped(rules: seq<Rule>)
    requires RulesOk(rules)
  {
    forall c :: Filter(rules, c) == [] || DescendingGroup(Filter(rules, c), c)
  }

  /** On a run of one character the chain and the tokenizer agree. */
  lemma RunAgrees(rules: seq<Rule>, c: char, k: nat)
    requires RulesOk(rules) && Grouped(rules)
    ensures Apply(rules, Repeat(c, k)) == Encode(LexBy(rules, Repeat(c, k)))
  {
    ApplyRun(rules, [], c, k);
    assert [] + Repeat(c, k) == Repeat(c, k);
    RunEncFilter(rules, c, k);
    LexRun(rules, c, k);
    if Filter(rules, c) == [] {
      LiteralRun(c, k);
    } else {
      GroupRun(Filter(rules, c), c, k);
    }
  }

  /** The length of the run of `s[0]` that starts `s`. */
  function LeadingRun(s: string): (k: nat)
    requires s != []
    ensures 1 <= k <= |s|
    ensures forall i :: 0 <= i < k ==> s[i] == s[0]
    ensures k == |s| || s[k] != s[0]
  {
    if |s| == 1 || s[1] != s[0] then 1 else 1 + LeadingRun(s[1..])
  }

  lemma {:induction false} ApplyEmpty(rules: seq<Rule>)
    requires RulesOk(rules)
    ensures Apply(rules, []) == []
    decreases |rules|
  {
    if rules != [] {
      ApplyEmpty(rules[1..]);
    }
  }

  lemma {:induction false} ApplyIsEncodedLex(rules: seq<Rule>, s: string)
    requires RulesOk(rules) && Grouped(rules)
    ensures Apply(rules, s) == Encode(LexBy(rules, s))
    decreases |s|
  {
    if s == [] {
      ApplyEmpty(rules);
    } else {
      var k := LeadingRun(s);
      var run, rest := s[..k], s[k..];
      assert run == Repeat(s[0], k);
      assert s == run + rest;
      ApplySplit(rules, run, rest);
      LexSplit(rules, run, rest);
      EncodeConcat(LexBy(rules, run), LexBy(rules, rest));
      RunAgrees(rules, s[0], k);
      ApplyIsEncodedLex(rules, rest);
    }
  }

  // ---------------------------------------------------------------------------
  // The concrete rule table

  lemma {:induction false} FilterConcat(a: seq<Rule>, b: seq<Rule>, c: char)
    requires RulesOk(a) && RulesOk(b)
    ensures RulesOk(a + b) && Filter(a + b, c) == Filter(a, c) + Filter(b, c)
    decreases |a|
  {
    if a == [] {
      assert a + b == b;
    } else {
      assert (a + b)[1..] == a[1..] + b;
      FilterConcat(a[1..], b, c);
    }
  }

  lemma {:induction false} FilterSame(g: seq<Rule>, x: char, c: char)
    requires RulesOk(g) && SameLetter(g, x)
    ensures Filter(g, c) == if c == x then g else []
    decreases |g|
  {
    if g != [] {
      FilterSame(g[1..], x, c);
      if c == x {
        assert g == [g[0]] + g[1..];
      }
    }
  }

  /** The groups' letters, in order. */
  function GroupLetter(g: seq<Rule>): char
    requires g != []
  {
    g[0].letter
  }

  /** Non-empty groups of rules, each for one letter, no letter twice. */
  predicate LetterGroups(gs: seq<seq<Rule>>) {
    && (forall i :: 0 <= i < |gs| ==> gs[i] != [] && RulesOk(gs[i]) && SameLetter(gs[i], GroupLetter(gs[i])))
    && (forall i, j :: 0 <= i < j < |gs| ==> GroupLetter(gs[i]) != GroupLetter(gs[j]))
  }

  /** The first group for the letter `c`, or none. */
  function GroupFor(gs: seq<seq<Rule>>, c: char): seq<Rule>
    requires forall i :: 0 <= i < |gs| ==> gs[i] != []
  {
    if gs == [] then []
    else if GroupLetter(gs[0]) == c then gs[0]
    else GroupFor(gs[1..], c)
  }

  /** Filtering the flattened groups by a letter gives that letter's group. */
  lemma {:induction false} FilterFlatten(gs: seq<seq<Rule>>, c: char)
    requires LetterGroups(gs)
    ensures RulesOk(Flatten(gs)) && Filter(Flatten(gs), c) == GroupFor(gs, c)
    decreases |gs|
  {
    if gs != [] {
      LetterGroupsTail(gs);
      FilterFlatten(gs[1..], c);
      FlattenFilterStep(gs, c);
      if GroupLetter(gs[0]) == c {
        GroupForAbsent(gs[1..], c);
        assert gs[0] + [] == gs[0];
      }
    }
  }

  lemma LetterGroupsTail(gs: seq<seq<Rule>>)
    requires LetterGroups(gs) && gs != []
    ensures LetterGroups(gs[1..])
    ensures RulesOk(gs[0]) && SameLetter(gs[0], GroupLetter(gs[0]))
    ensures forall i :: 0 <= i < |gs[1..]| ==> GroupLetter(gs[1..][i]) != GroupLetter(gs[0])
  {
    assert forall i :: 0 <= i < |gs| - 1 ==> gs[1..][i] == gs[i + 1];
  }

  /** Filtering the flattened groups filters the first group, then the rest. */
  lemma FlattenFilterStep(gs: seq<seq<Rule>>, c: char)
    requires gs != [] && gs[0] != [] && RulesOk(gs[0]) && SameLetter(gs[0], GroupLetter(gs[0])) && RulesOk(Flatten(gs[1..]))
    ensures RulesOk(Flatten(gs))
    ensures Filter(Flatten(gs), c) == (if GroupLetter(gs[0]) == c then gs[0] else []) + Filter(Flatten(gs[1..]), c)
  {
    assert Flatten(gs) == gs[0] + Flatten(gs[1..]);
    FilterConcat(gs[0], Flatten(gs[1..]), c);
    FilterSame(gs[0], GroupLetter(gs[0]), c);
  }

  lemma {:induction false} GroupForAbsent(gs: seq<seq<Rule>>, c: char)
    requires forall i :: 0 <= i < |gs| ==> gs[i] != [] && GroupLetter(gs[i]) != c
    ensures GroupFor(gs, c) == []
    decreases |gs|
  {
    if gs != [] {
      assert forall i :: 0 <= i < |gs| - 1 ==> gs[1..][i] == gs[i + 1];
      GroupForAbsent(gs[1..], c);
    }
  }

  lemma {:induction false} GroupForDescending(gs: seq<seq<Rule>>, c: char)
    requires forall i :: 0 <= i < |gs| ==> gs[i] != [] && DescendingGroup(gs[i], GroupLetter(gs[i]))
    ensures GroupFor(gs, c) == [] || DescendingGroup(GroupFor(gs, c), c)
    decreases |gs|
  {
    if gs != [] && GroupLetter(gs[0]) != c {
      assert forall i :: 0 <= i < |gs| - 1 ==> gs[1..][i] == gs[i + 1];
      GroupForDescending(gs[1..], c);
    }
  }

  lemma GroupsDescending()
    ensures forall i :: 0 <= i < |Groups| ==> Groups[i] != [] && DescendingGroup(Groups[i], GroupLetter(Groups[i]))
  {
    forall i | 0 <= i < |Groups|
      ensures Groups[i] != [] && DescendingGroup(Groups[i], GroupLetter(Groups[i]))
    {
      GroupDescending(i);
    }
  }

  /** Each group is for one letter, longest rule first, ending with the single letter. */
  lemma GroupDescending(i: nat)
    requires i < |Groups|
    ensures Groups[i] != [] && DescendingGroup(Groups[i], GroupLetter(Groups[i]))
  {
    if i == 0 {
      YearGroup();
    } else if i == 1 {
      MonthGroup();
    } else if i == 2 {
      DayGroup();
    } else if i == 3 {
      Hour12Group();
    } else if i == 4 {
      Hour24Group();
    } else if i == 5 {
      MinuteGroup();
    } else if i == 6 {
      SecondGroup();
    } else if i == 7 {
      FractionGroup();
    } else if i == 8 {
      TrimmedFractionGroup();
    } else if i == 9 {
      ZoneLetterGroup();
    } else if i == 10 {
      ZoneGroup();
    } else {
      DesignatorGroup();
    }
  }

  lemma YearGroup()
    ensures DescendingGroup(YearRules, 'y')
  {
  }

  lemma MonthGroup()
    ensures DescendingGroup(MonthRules, 'M')
  {
  }

  lemma DayGroup()
    ensures DescendingGroup(DayRules, 'd')
  {
  }

  lemma Hour12Group()
    ensures DescendingGroup(Hour12Rules, 'h')
  {
  }

  lemma Hour24Group()
    ensures DescendingGroup(Hour24Rules, 'H')
  {
  }

  lemma MinuteGroup()
    ensures DescendingGroup(MinuteRules, 'm')
  {
  }

  lemma SecondGroup()
    ensures DescendingGroup(SecondRules, 's')
  {
  }

  lemma FractionGroup()
    ensures DescendingGroup(FractionRules, 'f')
  {
  }

  lemma TrimmedFractionGroup()
    ensures DescendingGroup(TrimmedFractionRules, 'F')
  {
  }

  lemma ZoneLetterGroup()
    ensures DescendingGroup(ZoneLetterRules, 'K')
  {
  }

  lemma ZoneGroup()
    ensures DescendingGroup(ZoneRules, 'z')
  {
  }

  lemma DesignatorGroup()
    ensures DescendingGroup(DesignatorRules, 't')
  {
  }

  lemma GroupsDistinct()
    ensures forall i, j :: 0 <= i < j < |Groups| ==> GroupLetter(Groups[i]) != GroupLetter(Groups[j])
  {
  }

  lemma RulesGrouped()
    ensures RulesOk(Rules) && Grouped(Rules)
  {
    RulesAreOk();
    GroupsDescending();
    GroupsDistinct();
    assert LetterGroups(Groups);
    forall c
      ensures Filter(Rules, c) == [] || DescendingGroup(Filter(Rules, c), c)
    {
      FilterFlatten(Groups, c);
      GroupForDescending(Groups, c);
    }
  }

  /** The replace chain writes exactly the longest-match tokens of the pattern,
      each field as its placeholder and every other character as itself. */
  lemma TokenizeIsEncodedLex(s: string)
    ensures Tokenize(s) == Encode(Lex(s))
  {
    RulesGrouped();
    ApplyIsEncodedLex(Rules, s);
  }

  // ---------------------------------------------------------------------------
  // Writing tokens back as a pattern

  /** A token as written in a pattern: a literal character or the run of one rule. */
  datatype Token = Text(c: char) | Run(rule: Rule)

  function TokenLetter(t: Token): char {
    match t
    case Text(c) => c
    case Run(rule) => rule.letter
  }

  function SpellToken(t: Token): string {
    match t
    case Text(c) => [c]
    case Run(rule) => Repeat(rule.letter, rule.len)
  }

  /** A literal that is not a token letter, or the run of one of `rules`. */
  predicate TokenIn(rules: seq<Rule>, t: Token) {
    match t
    case Text(c) => c !in TokenLetters
    case Run(rule) => rule in rules && RuleOk(rule)
  }

  /** Well-formed tokens, no two neighbours made of the same token letter. */
  predicate CanonicalFor(rules: seq<Rule>, toks: seq<Token>) {
    && (forall i :: 0 <= i < |toks| ==> TokenIn(rules, toks[i]))
    && (forall i :: 0 <= i < |toks| - 1 ==>
          TokenLetter(toks[i]) != TokenLetter(toks[i + 1]) || TokenLetter(toks[i]) !in TokenLetters)
  }

  predicate Canonical(toks: seq<Token>) {
    CanonicalFor(Rules, toks)
  }

  /** The pattern text of a token list. */
  function Spell(toks: seq<Token>): string {
    if toks == [] then [] else SpellToken(toks[0]) + Spell(toks[1..])
  }

  /** What the tokens stand for. */
  function Meaning(toks: seq<Token>): seq<Segment> {
    if toks == [] then [] else [TokenMeaning(toks[0])] + Meaning(toks[1..])
  }

  function TokenMeaning(t: Token): Segment {
    match t
    case Text(c) => Lit(c)
    case Run(rule) => Field(rule.code)
  }

  /** Spelling and meaning both distribute over concatenation of token lists. */
  lemma SpellConcat(a: seq<Token>, b: seq<Token>)
    ensures Spell(a + b) == Spell(a) + Spell(b)
    ensures Meaning(a + b) == Meaning(a) + Meaning(b)
  {
    SpellAppend(a, b);
    MeaningAppend(a, b);
  }

  lemma {:induction false} SpellAppend(a: seq<Token>, b: seq<Token>)
    ensures Spell(a + b) == Spell(a) + Spell(b)
  {
    if a == [] {
      assert a + b == b;
    } else {
      var ab := a + b;
      assert ab[0] == a[0] && ab[1..] == a[1..] + b;
      SpellAppend(a[1..], b);
      ConcatAssoc(SpellToken(a[0]), Spell(a[1..]), Spell(b));
    }
  }

  lemma {:induction false} MeaningAppend(a: seq<Token>, b: seq<Token>)
    ensures Meaning(a + b) == Meaning(a) + Meaning(b)
  {
    if a == [] {
      assert a + b == b;
    } else {
      var ab := a + b;
      assert ab[0] == a[0] && ab[1..] == a[1..] + b;
      MeaningAppend(a[1..], b);
      ConcatAssoc([TokenMeaning(a[0])], Meaning(a[1..]), Meaning(b));
    }
  }

  lemma {:induction false} FilterMember(rules: seq<Rule>, rule: Rule)
    requires RulesOk(rules) && rule in rules
    ensures rule in Filter(rules, rule.letter)
    decreases |rules|
  {
    if rules[0] != rule {
      FilterMember(rules[1..], rule);
    }
  }

  lemma FirstMatchInGroup(g: seq<Rule>, c: char, j: nat)
    requires DescendingGroup(g, c) && j < |g|
    ensures FirstMatch(g, Pattern(g[j])) == Some(g[j])
    decreases j
  {
    if j > 0 {
      assert !(Pattern(g[0]) <= Pattern(g[j]));
      FirstMatchInGroup(g[1..], c, j - 1);
    }
  }

  /** The run of a rule reads back as that rule's field alone. */
  lemma LexPattern(rules: seq<Rule>, rule: Rule)
    requires RulesOk(rules) && Grouped(rules) && rule in rules
    ensures LexBy(rules, Pattern(rule)) == [Field(rule.code)]
  {
    var c := rule.letter;
    var g := Filter(rules, c);
    FilterMember(rules, rule);
    LexRun(rules, c, rule.len);
    var j :| 0 <= j < |g| && g[j] == rule;
    FirstMatchInGroup(g, c, j);
    assert RunTokens(g, c, rule.len) == [Field(rule.code)] + RunTokens(g, c, 0);
  }

  lemma LexToken(rules: seq<Rule>, t: Token)
    requires RulesOk(rules) && Grouped(rules) && TokenIn(rules, t)
    ensures LexBy(rules, SpellToken(t)) == Meaning([t])
  {
    match t
    case Text(c) =>
      LexLiteral(rules, [c]);
      assert LexBy(rules, [c]) == [Lit(c)] + LexBy(rules, [c][1..]);
    case Run(rule) =>
      LexPattern(rules, rule);
  }

  lemma {:induction false} LexSpellFor(rules: seq<Rule>, toks: seq<Token>)
    requires RulesOk(rules) && Grouped(rules) && CanonicalFor(rules, toks)
    ensures LexBy(rules, Spell(toks)) == Meaning(toks)
  {
    if toks != [] {
      CanonicalTail(rules, toks);
      LexSpellFor(rules, toks[1..]);
      SpellHead(toks);
      LexSplit(rules, SpellToken(toks[0]), Spell(toks[1..]));
      LexToken(rules, toks[0]);
      MeaningHead(toks);
    }
  }

  /** The first token of a canonical list is well formed and cannot run into the rest. */
  lemma CanonicalTail(rules: seq<Rule>, toks: seq<Token>)
    requires CanonicalFor(rules, toks) && toks != []
    ensures CanonicalFor(rules, toks[1..]) && TokenIn(rules, toks[0])
    ensures Separated(SpellToken(toks[0]), Spell(toks[1..]))
  {
    assert forall i :: 0 <= i < |toks| - 1 ==> toks[1..][i] == toks[i + 1];
    SpellTokenEnds(toks[0]);
    if toks[1..] != [] {
      SpellHead(toks[1..]);
      SpellTokenEnds(toks[1]);
    }
  }

  lemma SpellTokenEnds(t: Token)
    requires t.Run? ==> RuleOk(t.rule)
    ensures SpellToken(t) != [] && SpellToken(t)[0] == TokenLetter(t) && SpellToken(t)[|SpellToken(t)| - 1] == TokenLetter(t)
  {
  }

  lemma SpellHead(toks: seq<Token>)
    requires toks != []
    ensures Spell(toks) == SpellToken(toks[0]) + Spell(toks[1..])
  {
  }

  lemma MeaningHead(toks: seq<Token>)
    requires toks != []
    ensures Meaning(toks) == Meaning([toks[0]]) + Meaning(toks[1..])
  {
    MeaningOne(toks[0]);
  }

  lemma MeaningOne(t: Token)
    ensures Meaning([t]) == [TokenMeaning(t)]
  {
    assert [t][1..] == [];
    assert [TokenMeaning(t)] + [] == [TokenMeaning(t)];
  }

  /** Writing a canonical token list out and tokenizing it again gives back what it stands for. */
  lemma LexSpell(toks: seq<Token>)
    requires Canonical(toks)
    ensures Lex(Spell(toks)) == Meaning(toks)
  {
    RulesGrouped();
    LexSpellFor(Rules, toks);
  }

  lemma {:induction false} FlattenMember(gs: seq<seq<Rule>>, i: nat, j: nat)
    requires i < |gs| && j < |gs[i]|
    ensures gs[i][j] in Flatten(gs)
    decreases i
  {
    if i > 0 {
      FlattenMember(gs[1..], i - 1, j);
      assert gs[1..][i - 1] == gs[i];
    }
  }

  /** Every rule of the groups is one of the chain's rules. */
  lemma InRules(i: nat, j: nat)
    requires i < |Groups| && j < |Groups[i]|
    ensures Groups[i][j] in Rules && RuleOk(Groups[i][j])
  {
    FlattenMember(Groups, i, j);
    RulesAreOk();
  }

  /** Every literal the tokenizer emits is a character of its input. */
  lemma {:induction false} LexLits(rules: seq<Rule>, s: string)
    requires RulesOk(rules)
    ensures forall i :: 0 <= i < |LexBy(rules, s)| && LexBy(rules, s)[i].Lit? ==> LexBy(rules, s)[i].c in s
    decreases |s|
  {
    if s != [] {
      var m := FirstMatch(rules, s);
      var n: nat := if m.Some? then m.value.len else 1;
      var seg := if m.Some? then Field(m.value.code) else Lit(s[0]);
      LexStep(rules, s, n, seg);
      LexLits(rules, s[n..]);
      forall i | 0 <= i < |LexBy(rules, s)| && LexBy(rules, s)[i].Lit?
        ensures LexBy(rules, s)[i].c in s
      {
        if i > 0 {
          assert LexBy(rules, s)[i] == LexBy(rules, s[n..])[i - 1];
          assert LexBy(rules, s)[i].c in s[n..];
        }
      }
    }
  }
}
