/**
 * The quick-add parser of parse_vikunja_task_format: labels ("*name",
 * '*"two words"'), a priority "!1" to "!5", a project ("+name") and a due
 * date in words or as D/M/YYYY are taken out of a free-text message one
 * stage after the other, and what is left becomes the title.
 */
module QuickAdd {
  import opened Wrappers
  import opened Text
  import opened Calendar
  import opened Regex

  /** *"…", *'…' or *token */
  const LabelPattern := Tagged('*')
  /** !d with d in 1..5 */
  const PriorityPattern := Bang
  /** +"…", +'…' or +token */
  const ProjectPattern := Tagged('+')

  /** What the parser returns (the repeat field is always None, so it is not kept). */
  datatype ParsedTask = ParsedTask(
    title: string,
    labels: seq<string>,
    priority: Option<int>,
    project: Option<string>,
    dueDate: Option<string>)

  /** The exceptions the date stage can raise. */
  datatype ParseError =
    | InvalidDate    // datetime(year, month, day) rejects a D/M/YYYY date
    | DateOverflow   // adding the days passes 9999-12-31

  /** A value a stage extracted and the text it leaves for the next stage. */
  datatype Stage<T> = Stage(value: T, rest: string)

  // ---------------------------------------------------------------------------
  // Date rules

  /** The date patterns, each with the computation of its date. */
  datatype DateRule =
    | OnToday              // \btoday\b
    | OnTomorrow           // \btomorrow\b
    | OnNext(weekday: int) // \bnext monday\b ... \bnext sunday\b, Monday being 0
    | InDays               // in (\d+) days?
    | InWeeks              // in (\d+) weeks?
    | OnSlashDate          // (\d{1,2})/(\d{1,2})/(\d{4}), day first

  const RuleCount := 12

  /** The rules in the order the parser tries them. */
  function RuleAt(j: nat): (r: DateRule)
    requires j < RuleCount
    ensures r.OnNext? ==> 0 <= r.weekday < 7
  {
    if j == 0 then OnToday
    else if j == 1 then OnTomorrow
    else if j < 9 then OnNext(j - 2)
    else if j == 9 then InDays
    else if j == 10 then InWeeks
    else OnSlashDate
  }

  predicate ValidRule(r: DateRule) {
    r.OnNext? ==> 0 <= r.weekday < 7
  }

  function NextPhrase(w: int): string
    requires 0 <= w < 7
  {
    if w == 0 then "next monday"
    else if w == 1 then "next tuesday"
    else if w == 2 then "next wednesday"
    else if w == 3 then "next thursday"
    else if w == 4 then "next friday"
    else if w == 5 then "next saturday"
    else "next sunday"
  }

  function RulePattern(r: DateRule): (p: Pattern)
    requires ValidRule(r)
    ensures WellFormed(p)
  {
    match r
    case OnToday => Phrase("today")
    case OnTomorrow => Phrase("tomorrow")
    case OnNext(w) => Phrase(NextPhrase(w))
    case InDays => InUnits("day")
    case InWeeks => InUnits("week")
    case OnSlashDate => SlashDate
  }

  function FromOption(d: Option<Date>, e: ParseError): (r: Result<Date, ParseError>)
    ensures r.Ok? <==> d.Some?
    ensures d.Some? ==> r.value == d.value
    ensures d.None? ==> r.error == e
  {
    if d.Some? then Ok(d.value) else Err(e)
  }

  /**
   * The date a rule's lambda computes from its match: today, today plus one
   * day, the next given weekday, today plus N days or N weeks, or the day,
   * month and year of a D/M/YYYY match.
   */
  function RuleDate(r: DateRule, m: Match, today: Date): (d: Result<Date, ParseError>)
    requires ValidRule(r) && IsValidDate(today) && Shaped(RulePattern(r), m.groups)
    ensures d.Ok? ==> IsValidDate(d.value)
    ensures d.Err? && d.error == InvalidDate ==> r.OnSlashDate?
  {
    match r
    case OnToday => Ok(today)
    case OnTomorrow => FromOption(AddDays(today, 1), DateOverflow)
    case OnNext(w) => FromOption(NextWeekday(today, w), DateOverflow)
    case InDays => FromOption(AddDays(today, DecimalValue(m.groups[0])), DateOverflow)
    case InWeeks => FromOption(AddDays(today, 7 * DecimalValue(m.groups[0])), DateOverflow)
    case OnSlashDate =>
      var date := Date(DecimalValue(m.groups[2]), DecimalValue(m.groups[1]), DecimalValue(m.groups[0]));
      if IsValidDate(date) then Ok(date) else Err(InvalidDate)
  }

  /**
   * The first rule, from rule k on, whose pattern matches anywhere in t, with
   * the leftmost match of that pattern. Every rule before it finds nothing.
   */
  function FirstRuleFrom(t: string, k: nat): (r: Option<(nat, Match)>)
    requires k <= RuleCount
    ensures r.Some? ==> k <= r.value.0 < RuleCount && Search(RulePattern(RuleAt(r.value.0)), t) == Some(r.value.1)
    ensures forall j :: k <= j < RuleCount && (r.None? || j < r.value.0) ==> Search(RulePattern(RuleAt(j)), t).None?
    decreases RuleCount - k
  {
    if k == RuleCount then None
    else
      var m := Search(RulePattern(RuleAt(k)), t);
      if m.Some? then Some((k, m.value)) else FirstRuleFrom(t, k + 1)
  }

  // ---------------------------------------------------------------------------
  // The stages

  /** The label text of each match: next(s for s in match if s). */
  function Captured(ms: seq<Match>): (ls: seq<string>)
    requires forall k :: 0 <= k < |ms| ==> FirstNonEmpty(ms[k].groups).Some?
    ensures |ls| == |ms| && forall k :: 0 <= k < |ms| ==> Some(ls[k]) == FirstNonEmpty(ms[k].groups)
  {
    seq(|ms|, k requires 0 <= k < |ms| => FirstNonEmpty(ms[k].groups).value)
  }

  lemma LabelsCaptured(text: string)
    ensures forall k :: 0 <= k < |FindAll(LabelPattern, text)| ==> FirstNonEmpty(FindAll(LabelPattern, text)[k].groups).Some?
  {
    var ms := FindAll(LabelPattern, text);
    forall k | 0 <= k < |ms|
      ensures FirstNonEmpty(ms[k].groups).Some?
    {
      TaggedCapture('*', text, ms[k].start);
    }
  }

  /**
   * Stage 1: every label match, left to right, gives one label (the quoted
   * text without its quotes, or the bare token), and then all of them are
   * cut out of the text. Every '*' left is followed by whitespace or is the
   * last character.
   */
  function LabelStage(text: string): (r: Stage<seq<string>>)
    ensures var ms := FindAll(LabelPattern, text);
      |r.value| == |ms|
      && (forall k :: 0 <= k < |ms| ==> Some(r.value[k]) == FirstNonEmpty(ms[k].groups) && r.value[k] != "")
      && r.rest == Without(text, 0, ms)
    ensures MarkerFree(r.rest, '*')
  {
    LabelsCaptured(text);
    var ms := FindAll(LabelPattern, text);
    forall k | 0 <= k < |ms| ensures FirstNonEmpty(ms[k].groups).value != "" {
      TaggedCapture('*', text, ms[k].start);
    }
    SubAllIsWithout(LabelPattern, text, 0);
    SubAllMarkerFree('*', text, 0);
    Stage(Captured(ms), SubAll(LabelPattern, text))
  }

  /**
   * Stage 2: the first "!d" (d in 1..5) gives the priority d, and that
   * occurrence alone is cut out; without one, nothing changes.
   */
  function PriorityStage(t: string): (r: Stage<Option<int>>)
    ensures var m := Search(PriorityPattern, t);
      (r.value.Some? <==> m.Some?)
      && (m.None? ==> r.rest == t)
      && (m.Some? ==> m.value.start + 1 < |t| && t[m.value.start] == '!'
                      && r.value.value == DigitValue(t[m.value.start + 1]) && 1 <= r.value.value <= 5
                      && r.rest == t[..m.value.start] + t[m.value.start + 2..])
  {
    match Search(PriorityPattern, t)
    case None => Stage(None, t)
    case Some(m) =>
      assert MatchAt(Bang, t, m.start) == Some(m);
      var g := m.groups[0];
      assert |g| == 1 && g[0] == t[m.start + 1];
      assert g[..|g| - 1] == [];
      assert DecimalValue(g) == DigitValue(g[0]);
      Stage(Some(DecimalValue(g)), SubFirst(PriorityPattern, t))
  }

  /**
   * Stage 3: the first "+name" (or +"…", +'…') gives the project name, and
   * that occurrence alone is cut out; without one, nothing changes.
   */
  function ProjectStage(t: string): (r: Stage<Option<string>>)
    ensures var m := Search(ProjectPattern, t);
      (r.value.Some? <==> m.Some?)
      && (m.None? ==> r.rest == t)
      && (m.Some? ==> r.value == FirstNonEmpty(m.value.groups) && r.value.value != ""
                      && m.value.start <= m.value.end <= |t| && r.rest == Remove(t, m.value))
  {
    match Search(ProjectPattern, t)
    case None => Stage(None, t)
    case Some(m) =>
      TaggedCapture('+', t, m.start);
      Stage(FirstNonEmpty(m.groups), SubFirst(ProjectPattern, t))
  }

  /**
   * Stage 4: the first rule, in the fixed order, whose pattern matches
   * anywhere in t decides the due date, even where a later rule matches
   * further left; only that rule's first occurrence is cut out. A date that
   * cannot be computed raises.
   */
  function DueStage(t: string, today: Date): (r: Result<Stage<Option<string>>, ParseError>)
    requires IsValidDate(today)
    ensures FirstRuleFrom(t, 0).None? ==> r == Ok(Stage(None, t))
    ensures FirstRuleFrom(t, 0).Some? ==>
      var (k, m) := FirstRuleFrom(t, 0).value;
      match RuleDate(RuleAt(k), m, today)
      case Err(e) => r == Err(e)
      case Ok(d) => m.start <= m.end <= |t| && r == Ok(Stage(Some(FormatDate(d)), Remove(t, m)))
  {
    match FirstRuleFrom(t, 0)
    case None => Ok(Stage(None, t))
    case Some((k, m)) =>
      var p := RulePattern(RuleAt(k));
      assert MatchAt(p, t, m.start) == Some(m);
      match RuleDate(RuleAt(k), m, today)
      case Err(e) => Err(e)
      case Ok(d) => Ok(Stage(Some(FormatDate(d)), SubFirst(p, t)))
  }

  /** The text as it reaches the date stage. */
  function DateStageInput(text: string): string {
    ProjectStage(PriorityStage(LabelStage(text).rest).rest).rest
  }

  /**
   * parse_vikunja_task_format, stage by stage; the title is the rest with
   * its whitespace collapsed. Every label and the project are non-empty, a
   * priority is 1 to 5, and a due date is the rendering of a valid date.
   */
  function Parse(text: string, today: Date): (r: Result<ParsedTask, ParseError>)
    requires IsValidDate(today)
    ensures r.Ok? ==> forall k :: 0 <= k < |r.value.labels| ==> r.value.labels[k] != ""
    ensures r.Ok? && r.value.priority.Some? ==> 1 <= r.value.priority.value <= 5
    ensures r.Ok? && r.value.project.Some? ==> r.value.project.value != ""
    ensures r.Ok? && r.value.dueDate.Some? ==> exists d :: IsValidDate(d) && FormatDate(d) == r.value.dueDate.value
  {
    var labels := LabelStage(text);
    var priority := PriorityStage(labels.rest);
    var project := ProjectStage(priority.rest);
    match DueStage(DateStageInput(text), today)
    case Err(e) => Err(e)
    case Ok(due) => Ok(ParsedTask(Collapse(due.rest), labels.value, priority.value, project.value, due.value))
  }

  // ---------------------------------------------------------------------------
  // The parser as written

  /** The loop that appends the text of each label match, in order. */
  method CollectLabels(ms: seq<Match>) returns (labels: seq<string>)
    requires forall k :: 0 <= k < |ms| ==> FirstNonEmpty(ms[k].groups).Some?
    ensures labels == Captured(ms)
  {
    labels := [];
    for k := 0 to |ms|
      invariant |labels| == k
      invariant forall j :: 0 <= j < k ==> Some(labels[j]) == FirstNonEmpty(ms[j].groups)
    {
      labels := labels + [FirstNonEmpty(ms[k].groups).value];
    }
  }

  /** When the rules before rule i find nothing and rule i matches, rule i decides the due date. */
  lemma DueStageAtRule(text: string, today: Date, i: nat)
    requires IsValidDate(today) && i < RuleCount
    requires FirstRuleFrom(text, i) == FirstRuleFrom(text, 0)
    requires Search(RulePattern(RuleAt(i)), text).Some?
    ensures var m := Search(RulePattern(RuleAt(i)), text).value;
      DueStage(text, today) ==
        match RuleDate(RuleAt(i), m, today)
        case Err(e) => Err(e)
        case Ok(d) => Ok(Stage(Some(FormatDate(d)), SubFirst(RulePattern(RuleAt(i)), text)))
  {
    var m := Search(RulePattern(RuleAt(i)), text).value;
    assert FirstRuleFrom(text, 0) == Some((i, m));
    assert MatchAt(RulePattern(RuleAt(i)), text, m.start) == Some(m);
  }

  /** The loop over the date rules that stops at the first rule that matches. */
  method ApplyDateRules(text: string, today: Date) returns (r: Result<Stage<Option<string>>, ParseError>)
    requires IsValidDate(today)
    ensures r == DueStage(text, today)
  {
    var i := 0;
    while i < RuleCount
      invariant 0 <= i <= RuleCount
      invariant FirstRuleFrom(text, i) == FirstRuleFrom(text, 0)
    {
      var rule := RuleAt(i);
      var m := Search(RulePattern(rule), text);
      if m.Some? {
        DueStageAtRule(text, today, i);
        var d := RuleDate(rule, m.value, today);
        if d.Err? {
          return Err(d.error);
        }
        return Ok(Stage(Some(FormatDate(d.value)), SubFirst(RulePattern(rule), text)));
      }
      i := i + 1;
    }
    return Ok(Stage(None, text));
  }

  /**
   * parse_vikunja_task_format as written: the labels are appended
   * one by one, the text is reassigned after each stage, and the date rules
   * are tried in a loop that stops at the first one that matches.
   */
  method ParseTaskFormat(taskText: string, today: Date) returns (r: Result<ParsedTask, ParseError>)
    requires IsValidDate(today)
    ensures r == Parse(taskText, today)
  {
    var text := taskText;
    var ms := FindAll(LabelPattern, text);
    LabelsCaptured(text);
    var labels := CollectLabels(ms);
    text := SubAll(LabelPattern, text);
    assert Stage(labels, text) == LabelStage(taskText);

    var priority: Option<int> := None;
    var pm := Search(PriorityPattern, text);
    if pm.Some? {
      priority := Some(DecimalValue(pm.value.groups[0]));
      text := SubFirst(PriorityPattern, text);
    }
    assert Stage(priority, text) == PriorityStage(LabelStage(taskText).rest);

    var project: Option<string> := None;
    var jm := Search(ProjectPattern, text);
    if jm.Some? {
      project := FirstNonEmpty(jm.value.groups);
      text := SubFirst(ProjectPattern, text);
    }
    assert text == DateStageInput(taskText);

    var due := ApplyDateRules(text, today);
    if due.Err? {
      return Err(due.error);
    }
    r := Ok(ParsedTask(Collapse(due.value.rest), labels, priority, project, due.value.value));
  }

  // ---------------------------------------------------------------------------
  // Properties of the parser

  /** The title has no leading, trailing or repeated whitespace. */
  lemma TitleNormalized(text: string, today: Date)
    requires IsValidDate(today) && Parse(text, today).Ok?
    ensures Normalized(Parse(text, today).value.title)
  {
  }

  /** No label survives into the title: the label pattern finds nothing there. */
  lemma TitleHasNoLabel(text: string, today: Date)
    requires IsValidDate(today) && Parse(text, today).Ok?
    ensures Search(LabelPattern, Parse(text, today).value.title).None?
  {
    var t1 := LabelStage(text).rest;
    PriorityKeepsMarkerFree(t1);
    var t2 := PriorityStage(t1).rest;
    ProjectKeepsMarkerFree(t2);
    var t3 := ProjectStage(t2).rest;
    DueKeepsMarkerFree(t3, today);
    var due := DueStage(t3, today).value;
    CollapseKeepsMarkerFree(due.rest, '*');
    MarkerFreeNoMatch(Collapse(due.rest), '*');
  }

  /** Cutting out the priority keeps every '*' but a last one followed by whitespace. */
  lemma PriorityKeepsMarkerFree(t: string)
    requires MarkerFree(t, '*')
    ensures MarkerFree(PriorityStage(t).rest, '*')
  {
    var pm := Search(PriorityPattern, t);
    if pm.Some? {
      RemoveKeepsMarkerFree(t, pm.value, '*');
    }
  }

  /** Cutting out the project keeps every '*' but a last one followed by whitespace. */
  lemma ProjectKeepsMarkerFree(t: string)
    requires MarkerFree(t, '*')
    ensures MarkerFree(ProjectStage(t).rest, '*')
  {
    var jm := Search(ProjectPattern, t);
    if jm.Some? {
      RemoveKeepsMarkerFree(t, jm.value, '*');
    }
  }

  /** Cutting out the date phrase keeps every '*' but a last one followed by whitespace. */
  lemma DueKeepsMarkerFree(t: string, today: Date)
    requires IsValidDate(today) && MarkerFree(t, '*') && DueStage(t, today).Ok?
    ensures MarkerFree(DueStage(t, today).value.rest, '*')
  {
    var fr := FirstRuleFrom(t, 0);
    if fr.Some? {
      var (k, m) := fr.value;
      assert MatchAt(RulePattern(RuleAt(k)), t, m.start) == Some(m);
      RemoveKeepsMarkerFree(t, m, '*');
    }
  }

  /** The priority stage leaves any later "!d" in the text: only the first one is taken. */
  lemma SecondPriorityRemains(t: string, a: nat)
    requires a <= |t| && MatchAt(PriorityPattern, t, a).Some?
    requires Search(PriorityPattern, t).Some? && Search(PriorityPattern, t).value.start < a
    ensures MatchAt(PriorityPattern, PriorityStage(t).rest, a - 2).Some?
  {
    var m := Search(PriorityPattern, t).value;
    var u := PriorityStage(t).rest;
    assert t[m.start + 1] != '!';
    assert u[a - 2] == t[a] && u[a - 1] == t[a + 1];
  }

  /** "next <weekday>" lies one to seven days after today and falls on that weekday. */
  lemma NextWeekdayRule(w: int, today: Date)
    requires 0 <= w < 7 && IsValidDate(today)
    ensures var d := RuleDate(OnNext(w), Match(0, 0, []), today);
      d.Ok? ==> Weekday(d.value) == w && 1 <= Ordinal(d.value) - Ordinal(today) <= 7
  {
  }

  /** Parsing fails only in the date stage, and with that stage's error. */
  lemma ParseFailsOnlyOnDates(text: string, today: Date)
    requires IsValidDate(today)
    ensures Parse(text, today).Err? <==> DueStage(DateStageInput(text), today).Err?
    ensures Parse(text, today).Err? ==> Parse(text, today).error == DueStage(DateStageInput(text), today).error
  {
  }

  /**
   * When D/M/YYYY is the rule that decides the date, the date stage fails
   * exactly when the day, month and year do not form a calendar date.
   */
  lemma SlashDateDecides(t: string, today: Date)
    requires IsValidDate(today)
    requires FirstRuleFrom(t, 0).Some? && RuleAt(FirstRuleFrom(t, 0).value.0).OnSlashDate?
    ensures var m := FirstRuleFrom(t, 0).value.1;
      Shaped(SlashDate, m.groups) &&
      var date := Date(DecimalValue(m.groups[2]), DecimalValue(m.groups[1]), DecimalValue(m.groups[0]));
      (DueStage(t, today).Err? <==> !IsValidDate(date))
      && (DueStage(t, today).Err? ==> DueStage(t, today).error == InvalidDate)
      && (DueStage(t, today).Ok? ==> DueStage(t, today).value.value == Some(FormatDate(date)))
  {
    var (k, m) := FirstRuleFrom(t, 0).value;
    SlashRuleMatch(t, k, m);
    SlashRuleDate(m, today);
  }

  /** The D/M/YYYY rule is the last one, and a match it finds has its three digit groups. */
  lemma SlashRuleMatch(t: string, k: nat, m: Match)
    requires k < RuleCount && RuleAt(k).OnSlashDate? && Search(RulePattern(RuleAt(k)), t) == Some(m)
    ensures k == 11 && Search(SlashDate, t) == Some(m) && Shaped(SlashDate, m.groups)
  {
    assert MatchAt(SlashDate, t, m.start) == Some(m);
  }

  /** The lambda of the D/M/YYYY rule: datetime(year, month, day), or ValueError. */
  lemma SlashRuleDate(m: Match, today: Date)
    requires IsValidDate(today) && Shaped(SlashDate, m.groups)
    ensures var date := Date(DecimalValue(m.groups[2]), DecimalValue(m.groups[1]), DecimalValue(m.groups[0]));
      RuleDate(OnSlashDate, m, today) == if IsValidDate(date) then Ok(date) else Err(InvalidDate)
  {
  }

  /** 31/2/2025 names no calendar day, so datetime(2025, 2, 31) raises. */
  lemma ThirtyFirstOfFebruaryRaises(today: Date)
    requires IsValidDate(today)
    ensures RuleDate(OnSlashDate, Match(0, 9, ["31", "2", "2025"]), today) == Err(InvalidDate)
  {
    assert DecimalValue("31") == 31 by {
      assert "31"[..1] == "3";
      assert ""  == "3"[..0];
    }
    assert DecimalValue("2") == 2 by {
      assert "2"[..0] == "";
    }
    assert DecimalValue("2025") == 2025 by {
      assert "2025"[..3] == "202" && "202"[..2] == "20" && "20"[..1] == "2" && "2"[..0] == "";
    }
    assert !IsLeapYear(2025);
  }

  /**
   * The due-date editor runs the whole parser, so "*tomorrow" is taken as a
   * label and no due date is recognised.
   */
  lemma StarTomorrowIsALabel(today: Date)
    requires IsValidDate(today)
    ensures Parse("*tomorrow", today) == Ok(ParsedTask("", ["tomorrow"], None, None, None))
  {
    StarTomorrowLabelStage();
    EmptyTextStages(today);
  }

  /** The label stage takes all of "*tomorrow" as one label. */
  lemma StarTomorrowLabelStage()
    ensures LabelStage("*tomorrow") == Stage(["tomorrow"], "")
  {
    var m := Match(0, 9, ["", "", "tomorrow"]);
    StarTomorrowScan();
    assert FirstNonEmpty(m.groups) == Some("tomorrow") by {
      assert m.groups[1..] == ["", "tomorrow"] && m.groups[1..][1..] == ["tomorrow"];
    }
    assert Captured([m]) == ["tomorrow"] by {
      assert |Captured([m])| == 1 && Captured([m])[0] == "tomorrow";
    }
  }

  /** re.findall finds the one label match in "*tomorrow", and re.sub removes all of it. */
  lemma StarTomorrowScan()
    ensures FindAll(LabelPattern, "*tomorrow") == [Match(0, 9, ["", "", "tomorrow"])]
    ensures SubAll(LabelPattern, "*tomorrow") == ""
  {
    var s := "*tomorrow";
    var m := Match(0, 9, ["", "", "tomorrow"]);
    StarTomorrowMatch();
    assert SearchFrom(LabelPattern, s, 0) == Some(m);
    assert FindAllFrom(LabelPattern, s, 9) == [];
  }

  /** The label pattern matches "*tomorrow" from its first character to its end. */
  lemma StarTomorrowMatch()
    ensures MatchAt(LabelPattern, "*tomorrow", 0) == Some(Match(0, 9, ["", "", "tomorrow"]))
  {
    var s := "*tomorrow";
    assert s[1] == 't' && s[2] == 'o' && s[3] == 'm' && s[4] == 'o' && s[5] == 'r' && s[6] == 'r' && s[7] == 'o' && s[8] == 'w';
    assert TokenEnd(s, 9) == 9;
    assert TokenEnd(s, 5) == 9;
    assert TokenEnd(s, 1) == 9;
    assert s[1..9] == "tomorrow";
    assert TaggedAt('*', s, 0) == Some(Match(0, 9, ["", "", "tomorrow"]));
  }

  /** Nothing is found in the empty text: every later stage leaves it empty and finds no value. */
  lemma EmptyTextStages(today: Date)
    requires IsValidDate(today)
    ensures PriorityStage("") == Stage(None, "") && ProjectStage("") == Stage(None, "")
    ensures DueStage("", today) == Ok(Stage(None, "")) && Collapse("") == ""
  {
    NoMatchAnywhere(PriorityPattern, "");
    NoMatchAnywhere(ProjectPattern, "");
    forall k | 0 <= k < RuleCount
      ensures Search(RulePattern(RuleAt(k)), "").None?
    {
      NoMatchAnywhere(RulePattern(RuleAt(k)), "");
    }
  }

  /** Text made of digits and '-' only, such as an ISO date. */
  predicate DigitsAndDashes(s: string) {
    forall k :: 0 <= k < |s| ==> IsDigit(s[k]) || s[k] == '-'
  }

  /** A pattern that matches nowhere is not found, and re.findall and re.sub leave the text alone. */
  lemma NoMatchAnywhere(p: Pattern, s: string)
    requires WellFormed(p) && forall j :: 0 <= j <= |s| ==> MatchAt(p, s, j).None?
    ensures Search(p, s).None? && FindAll(p, s) == [] && SubAll(p, s) == s
  {
    assert s[0..] == s;
  }

  /** No pattern of the parser matches text of digits and dashes. */
  lemma DashedTextMatchesNothing(p: Pattern, s: string)
    requires DigitsAndDashes(s)
    requires p == LabelPattern || p == PriorityPattern || p == ProjectPattern
             || exists k :: 0 <= k < RuleCount && p == RulePattern(RuleAt(k))
    ensures WellFormed(p) && Search(p, s).None? && FindAll(p, s) == [] && SubAll(p, s) == s
  {
    forall j | 0 <= j < |s|
      ensures MatchAt(p, s, j).None?
    {
      assert IsDigit(s[j]) || s[j] == '-';
      if p.Phrase? {
        assert p.words[0] == 't' || p.words[0] == 'n';
        assert !FoldedAt(s, j, p.words) by {
          assert !FoldsTo(s[j + 0], p.words[0]);
        }
      } else if p.InUnits? {
        assert !FoldedAt(s, j, "in ") by {
          assert "in "[0] == 'i' && !FoldsTo(s[j + 0], 'i');
        }
      } else if p.SlashDate? {
        assert FieldWidth(s, j) == 0;
      }
    }
    NoMatchAnywhere(p, s);
  }

  /**
   * The due-date prompt offers "2025-06-20" as an example, but no date rule
   * reads that form: a text of digits and dashes parses to itself as the
   * title, with no due date, so the handler asks for the date again.
   */
  lemma DashedDateIsNoDate(s: string, today: Date)
    requires IsValidDate(today) && DigitsAndDashes(s)
    ensures Parse(s, today) == Ok(ParsedTask(Collapse(s), [], None, None, None))
  {
    DashedStages(s, today);
  }

  /** No stage finds anything in a text of digits and dashes, so each passes it on unchanged. */
  lemma DashedStages(s: string, today: Date)
    requires IsValidDate(today) && DigitsAndDashes(s)
    ensures LabelStage(s) == Stage([], s) && DateStageInput(s) == s
    ensures DueStage(s, today) == Ok(Stage(None, s))
  {
    DashedTextMatchesNothing(LabelPattern, s);
    DashedTextMatchesNothing(PriorityPattern, s);
    DashedTextMatchesNothing(ProjectPattern, s);
    assert DateStageInput(s) == s;
    forall k | 0 <= k < RuleCount
      ensures Search(RulePattern(RuleAt(k)), s).None?
    {
      DashedTextMatchesNothing(RulePattern(RuleAt(k)), s);
    }
  }

  /** The example the due-date prompt itself gives is rejected. */
  lemma PromptExampleIsNoDate(today: Date)
    requires IsValidDate(today)
    ensures Parse("2025-06-20", today).Ok? && Parse("2025-06-20", today).value.dueDate.None?
  {
    DashedDateIsNoDate("2025-06-20", today);
  }
}
