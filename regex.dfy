/**
 * The regular expressions of the quick-add parser, as hand-written scanners
 * with the semantics of Python's re module: a match is tried at each start
 * position from left to right, alternatives in order, greedy repetition with
 * backtracking, and re.findall / re.sub take the leftmost match and go on
 * scanning where it ended.
 */
module Regex {
  import opened Wrappers
  import opened Text

  /** The five shapes of pattern the parser uses. */
  datatype Pattern =
    | Tagged(marker: char)    // marker(?:"([^"]+)"|'([^']+)'|(\S+))  (the marker escaped)
    | Bang                    // !([1-5])
    | Phrase(words: string)   // \bwords\b, under re.IGNORECASE
    | InUnits(unit: string)   // in (\d+) units?, under re.IGNORECASE
    | SlashDate               // (\d{1,2})/(\d{1,2})/(\d{4})

  /** A successful match: the span s[start..end] and the groups (an absent group is ""). */
  datatype Match = Match(start: nat, end: nat, groups: seq<string>)

  /** The patterns the parser builds: a visible marker, literal words in lower case. */
  predicate WellFormed(p: Pattern) {
    match p
    case Tagged(c) => !IsSpace(c) && c != '"' && c != '\''
    case Phrase(w) => w != [] && IsWordChar(w[0]) && IsWordChar(w[|w| - 1])
    case InUnits(u) => u != []
    case _ => true
  }

  /** The groups a match of p carries. */
  predicate Shaped(p: Pattern, gs: seq<string>) {
    match p
    case Tagged(_) => |gs| == 3
    case Bang => |gs| == 1 && |gs[0]| == 1 && '1' <= gs[0][0] <= '5'
    case Phrase(_) => gs == []
    case InUnits(_) => |gs| == 1 && gs[0] != [] && AllDigits(gs[0])
    case SlashDate => |gs| == 3 && AllDigits(gs[0]) && AllDigits(gs[1]) && AllDigits(gs[2])
  }

  // ---------------------------------------------------------------------------
  // Character classes and anchors

  /**
   * Whether c matches the lower-case pattern character p under re.IGNORECASE:
   * itself, its ASCII capital, and the non-ASCII letters Python folds onto
   * 'i', 's' and 'k'.
   */
  predicate FoldsTo(c: char, p: char) {
    c == p
    || ('a' <= p <= 'z' && c as int == p as int - 32)
    || (p == 'i' && (c == '\U{130}' || c == '\U{131}'))
    || (p == 's' && c == '\U{17f}')
    || (p == 'k' && c == '\U{212a}')
  }

  /** The literal lit matches s at position i, ignoring case. */
  predicate FoldedAt(s: string, i: nat, lit: string) {
    i + |lit| <= |s| && forall k :: 0 <= k < |lit| ==> FoldsTo(s[i + k], lit[k])
  }

  /** \b: word and non-word characters meet at position i. */
  predicate Boundary(s: string, i: nat)
    requires i <= |s|
  {
    (0 < i && IsWordChar(s[i - 1])) != (i < |s| && IsWordChar(s[i]))
  }

  /** The first position at or after i holding c, or |s| when there is none. */
  function IndexFrom(s: string, i: nat, c: char): (k: nat)
    requires i <= |s|
    ensures i <= k <= |s| && (k < |s| ==> s[k] == c)
    ensures forall j :: i <= j < k ==> s[j] != c
    decreases |s| - i
  {
    if i == |s| || s[i] == c then i else IndexFrom(s, i + 1, c)
  }

  /** Where the greedy \S+ starting at i stops. */
  function TokenEnd(s: string, i: nat): (k: nat)
    requires i <= |s|
    ensures i <= k <= |s| && (k < |s| ==> IsSpace(s[k]))
    ensures forall j :: i <= j < k ==> !IsSpace(s[j])
    decreases |s| - i
  {
    if i == |s| || IsSpace(s[i]) then i else TokenEnd(s, i + 1)
  }

  /** Where the greedy \d+ starting at i stops. */
  function DigitsEnd(s: string, i: nat): (k: nat)
    requires i <= |s|
    ensures i <= k <= |s| && (k < |s| ==> !IsDigit(s[k]))
    ensures forall j :: i <= j < k ==> IsDigit(s[j])
    decreases |s| - i
  {
    if i == |s| || !IsDigit(s[i]) then i else DigitsEnd(s, i + 1)
  }

  // ---------------------------------------------------------------------------
  // Matching at one position

  /**
   * q([^q]+)q at position j: the position of the closing quote, when s[j] is
   * q and at least one other character comes before the next q.
   */
  function QuotedAt(s: string, j: nat, q: char): (r: Option<nat>)
    requires j < |s|
    ensures r.Some? ==> j + 1 < r.value < |s| && s[j] == q && s[r.value] == q
    ensures r.Some? ==> forall k :: j < k < r.value ==> s[k] != q
  {
    if s[j] != q then None
    else
      var k := IndexFrom(s, j + 1, q);
      if j + 1 < k < |s| then Some(k) else None
  }

  /** marker(?:"([^"]+)"|'([^']+)'|(\S+)) at position i. */
  function TaggedAt(c: char, s: string, i: nat): (r: Option<Match>)
    requires i < |s|
    ensures r.Some? ==> r.value.start == i < r.value.end <= |s| && s[i] == c && |r.value.groups| == 3
  {
    if s[i] != c || i + 1 == |s| then None
    else
      var dq := QuotedAt(s, i + 1, '"');
      if dq.Some? then Some(Match(i, dq.value + 1, [s[i + 2..dq.value], "", ""]))
      else
        var sq := QuotedAt(s, i + 1, '\'');
        if sq.Some? then Some(Match(i, sq.value + 1, ["", s[i + 2..sq.value], ""]))
        else if IsSpace(s[i + 1]) then None
        else
          var e := TokenEnd(s, i + 1);
          Some(Match(i, e, ["", "", s[i + 1..e]]))
  }

  /** !([1-5]) at position i. */
  function BangAt(s: string, i: nat): Option<Match>
    requires i < |s|
  {
    if s[i] == '!' && i + 1 < |s| && '1' <= s[i + 1] <= '5' then Some(Match(i, i + 2, [s[i + 1..i + 2]]))
    else None
  }

  /** \bwords\b at position i, ignoring case. */
  function PhraseAt(w: string, s: string, i: nat): Option<Match>
    requires i < |s|
  {
    if Boundary(s, i) && FoldedAt(s, i, w) && Boundary(s, i + |w|) then Some(Match(i, i + |w|, []))
    else None
  }

  /** in (\d+) units? at position i, ignoring case. */
  function InUnitsAt(u: string, s: string, i: nat): (r: Option<Match>)
    requires i < |s|
    ensures r.Some? ==> |r.value.groups| == 1 && r.value.groups[0] != [] && AllDigits(r.value.groups[0])
  {
    if !FoldedAt(s, i, "in ") then None
    else
      var d := DigitsEnd(s, i + 3);
      if d == i + 3 || !FoldedAt(s, d, " " + u) then None
      else
        var e := d + 1 + |u|;
        var e' := if e < |s| && FoldsTo(s[e], 's') then e + 1 else e;
        Some(Match(i, e', [s[i + 3..d]]))
  }

  /**
   * Width of the \d{1,2} field at i under backtracking when a '/' must follow
   * it: 2 or 1, and 0 when the field cannot match.
   */
  function FieldWidth(s: string, i: nat): (w: nat)
    ensures w <= 2 && (w > 0 ==> i + w < |s| && s[i + w] == '/')
    ensures forall k :: i <= k < i + w ==> IsDigit(s[k])
  {
    if i + 2 < |s| && IsDigit(s[i]) && IsDigit(s[i + 1]) && s[i + 2] == '/' then 2
    else if i + 1 < |s| && IsDigit(s[i]) && s[i + 1] == '/' then 1
    else 0
  }

  /** (\d{1,2})/(\d{1,2})/(\d{4}) at position i. */
  function SlashDateAt(s: string, i: nat): (r: Option<Match>)
    ensures r.Some? ==> r.value.start == i < r.value.end <= |s| && |r.value.groups| == 3 && forall g :: 0 <= g < 3 ==> AllDigits(r.value.groups[g])
  {
    var w1 := FieldWidth(s, i);
    if w1 == 0 then None
    else
      var j := i + w1 + 1;
      var w2 := FieldWidth(s, j);
      if w2 == 0 then None
      else
        var y := j + w2 + 1;
        if y + 4 <= |s| && AllDigits(s[y..y + 4]) then
          Some(Match(i, y + 4, [s[i..i + w1], s[j..j + w2], s[y..y + 4]]))
        else None
  }

  /** The match of p starting exactly at position i, if any (pattern.match(s, i)). */
  function MatchAt(p: Pattern, s: string, i: nat): (r: Option<Match>)
    requires WellFormed(p) && i <= |s|
    ensures r.Some? ==> r.value.start == i < r.value.end <= |s| && !IsSpace(s[i])
    ensures r.Some? ==> Shaped(p, r.value.groups)
  {
    if i == |s| then None
    else
      match p
      case Tagged(c) => TaggedAt(c, s, i)
      case Bang => BangAt(s, i)
      case Phrase(w) =>
        var r := PhraseAt(w, s, i);
        assert r.Some? ==> FoldsTo(s[i + 0], w[0]);
        r
      case InUnits(u) =>
        var r := InUnitsAt(u, s, i);
        assert r.Some? ==> FoldsTo(s[i + 0], "in "[0]);
        r
      case SlashDate =>
        var r := SlashDateAt(s, i);
        assert r.Some? ==> IsDigit(s[i]);
        r
  }

  // ---------------------------------------------------------------------------
  // Scanning: re.search, re.findall, re.sub

  /** re.search from position pos: the match with the smallest start at or after pos. */
  function SearchFrom(p: Pattern, s: string, pos: nat): (r: Option<Match>)
    requires WellFormed(p) && pos <= |s|
    ensures r.Some? ==> pos <= r.value.start <= |s| && MatchAt(p, s, r.value.start) == r
    ensures forall j :: pos <= j <= |s| && (r.None? || j < r.value.start) ==> MatchAt(p, s, j).None?
    decreases |s| - pos
  {
    var m := MatchAt(p, s, pos);
    if m.Some? then m
    else if pos == |s| then None
    else SearchFrom(p, s, pos + 1)
  }

  /** re.search(p, s) */
  function Search(p: Pattern, s: string): (r: Option<Match>)
    requires WellFormed(p)
    ensures r.Some? ==> r.value.start <= |s| && MatchAt(p, s, r.value.start) == r
    ensures forall j :: 0 <= j <= |s| && (r.None? || j < r.value.start) ==> MatchAt(p, s, j).None?
  {
    SearchFrom(p, s, 0)
  }

  /** Position j lies inside one of the spans of ms. */
  predicate Covers(ms: seq<Match>, j: int) {
    ms != [] && (ms[0].start <= j < ms[0].end || Covers(ms[1..], j))
  }

  /** Matches that come one after the other, each starting at or after the previous one's end. */
  predicate Ordered(ms: seq<Match>) {
    forall k :: 0 <= k < |ms| - 1 ==> ms[k].end <= ms[k + 1].start
  }

  /**
   * The matches re.findall and re.sub visit from position pos: each one the
   * leftmost match at or after the end of the previous one. They are real
   * matches, in order, and every position where p matches is one of their
   * starts or lies inside one of them.
   */
  function FindAllFrom(p: Pattern, s: string, pos: nat): (ms: seq<Match>)
    requires WellFormed(p) && pos <= |s|
    ensures forall k :: 0 <= k < |ms| ==> pos <= ms[k].start <= |s| && MatchAt(p, s, ms[k].start) == Some(ms[k])
    ensures Ordered(ms)
    ensures forall j :: pos <= j <= |s| && MatchAt(p, s, j).Some? ==> Covers(ms, j)
    decreases |s| - pos
  {
    match SearchFrom(p, s, pos)
    case None => []
    case Some(m) =>
      var rest := FindAllFrom(p, s, m.end);
      var ms := [m] + rest;
      assert ms[1..] == rest;
      ms
  }

  /** The matches of re.findall(p, s), as spans with their groups. */
  function FindAll(p: Pattern, s: string): (ms: seq<Match>)
    requires WellFormed(p)
    ensures forall k :: 0 <= k < |ms| ==> ms[k].start <= |s| && MatchAt(p, s, ms[k].start) == Some(ms[k])
    ensures Ordered(ms)
    ensures forall j :: 0 <= j <= |s| && MatchAt(p, s, j).Some? ==> Covers(ms, j)
  {
    FindAllFrom(p, s, 0)
  }

  /** re.sub(p, '', s[pos..]) continued from pos: every visited match deleted. */
  function SubAllFrom(p: Pattern, s: string, pos: nat): string
    requires WellFormed(p) && pos <= |s|
    decreases |s| - pos
  {
    match SearchFrom(p, s, pos)
    case None => s[pos..]
    case Some(m) => s[pos..m.start] + SubAllFrom(p, s, m.end)
  }

  /** re.sub(p, '', s) */
  function SubAll(p: Pattern, s: string): string
    requires WellFormed(p)
  {
    SubAllFrom(p, s, 0)
  }

  /** s with the given matches cut out, keeping the text between them. */
  function Without(s: string, pos: nat, ms: seq<Match>): string
    requires pos <= |s|
    decreases |ms|
  {
    if ms == [] || !(pos <= ms[0].start <= ms[0].end <= |s|) then s[pos..]
    else s[pos..ms[0].start] + Without(s, ms[0].end, ms[1..])
  }

  /** re.sub deletes exactly the matches re.findall reports. */
  lemma {:induction false} SubAllIsWithout(p: Pattern, s: string, pos: nat)
    requires WellFormed(p) && pos <= |s|
    ensures SubAllFrom(p, s, pos) == Without(s, pos, FindAllFrom(p, s, pos))
    decreases |s| - pos
  {
    match SearchFrom(p, s, pos)
    case None =>
    case Some(m) =>
      var ms := FindAllFrom(p, s, pos);
      assert ms[0] == m && ms[1..] == FindAllFrom(p, s, m.end);
      SubAllIsWithout(p, s, m.end);
  }

  /** s with the span of m cut out. */
  function Remove(s: string, m: Match): (t: string)
    requires m.start <= m.end <= |s|
    ensures |t| == |s| - (m.end - m.start)
  {
    s[..m.start] + s[m.end..]
  }

  /** re.sub(p, '', s, 1): only the match re.search finds is deleted. */
  function SubFirst(p: Pattern, s: string): (t: string)
    requires WellFormed(p)
    ensures Search(p, s).None? ==> t == s
  {
    match Search(p, s)
    case None => s
    case Some(m) => Remove(s, m)
  }

  /** next(s for s in groups if s): the first non-empty group. */
  function FirstNonEmpty(groups: seq<string>): Option<string> {
    if groups == [] then None
    else if groups[0] != "" then Some(groups[0])
    else FirstNonEmpty(groups[1..])
  }

  /**
   * The text a tagged match captures: the quoted part without its quotes
   * when the marker is followed by a closed "..." part, else by a closed
   * '...' part, and otherwise the whole run of non-space characters after
   * the marker.
   */
  lemma TaggedCapture(c: char, s: string, i: nat)
    requires WellFormed(Tagged(c)) && i <= |s| && MatchAt(Tagged(c), s, i).Some?
    ensures i + 1 < |s|
    ensures var m := MatchAt(Tagged(c), s, i).value;
      var dq := QuotedAt(s, i + 1, '"');
      var sq := QuotedAt(s, i + 1, '\'');
      (dq.Some? ==> FirstNonEmpty(m.groups) == Some(s[i + 2..dq.value]))
      && (dq.None? && sq.Some? ==> FirstNonEmpty(m.groups) == Some(s[i + 2..sq.value]))
      && (dq.None? && sq.None? ==> FirstNonEmpty(m.groups) == Some(s[i + 1..m.end]))
    ensures var m := MatchAt(Tagged(c), s, i).value;
      FirstNonEmpty(m.groups).Some? &&
      var g := FirstNonEmpty(m.groups).value;
      g != "" &&
      ((s[m.start..m.end] == [c, '"'] + g + ['"'] && '"' !in g) ||
       (s[m.start..m.end] == [c, '\''] + g + ['\''] && '\'' !in g) ||
       (s[m.start..m.end] == [c] + g && (m.end == |s| || IsSpace(s[m.end]))
        && forall k :: 0 <= k < |g| ==> !IsSpace(g[k])))
  {
    var m := MatchAt(Tagged(c), s, i).value;
    var dq := QuotedAt(s, i + 1, '"');
    if dq.Some? {
      assert s[m.start..m.end] == [c, '"'] + s[i + 2..dq.value] + ['"'];
    } else {
      var sq := QuotedAt(s, i + 1, '\'');
      if sq.Some? {
        var g := s[i + 2..sq.value];
        assert m.groups == ["", g, ""] && m.groups[1..] == [g, ""];
        assert s[m.start..m.end] == [c, '\''] + g + ['\''];
      } else {
        assert !IsSpace(s[i + 1]);
        var e := TokenEnd(s, i + 1);
        var g := s[i + 1..e];
        assert m == Match(i, e, ["", "", g]);
        assert g != [];
        assert m.groups[1..] == ["", g] && m.groups[2..] == [g] && m.groups[2..][1..] == [];
        assert FirstNonEmpty(m.groups[2..]) == Some(g);
        assert FirstNonEmpty(m.groups[1..]) == Some(g);
        assert s[m.start..m.end] == [c] + g;
      }
    }
  }

  // ---------------------------------------------------------------------------
  // After re.sub no marker match is left

  /** Every c in t is followed by whitespace, unless it is the last character. */
  predicate MarkerFree(t: string, c: char) {
    forall k :: 0 <= k < |t| - 1 && t[k] == c ==> IsSpace(t[k + 1])
  }

  /** Every c in t is followed by whitespace within t. */
  predicate StrictlyMarkerFree(t: string, c: char) {
    forall k :: 0 <= k < |t| && t[k] == c ==> k + 1 < |t| && IsSpace(t[k + 1])
  }

  /** A marker followed by a non-space character always starts a match. */
  lemma TaggedMatchesBeforeNonSpace(c: char, s: string, j: nat)
    requires WellFormed(Tagged(c)) && j + 1 < |s| && s[j] == c && !IsSpace(s[j + 1])
    ensures MatchAt(Tagged(c), s, j).Some?
  {
  }

  /** Text where c is always followed by whitespace holds no match of the tagged pattern. */
  lemma MarkerFreeNoMatch(t: string, c: char)
    requires WellFormed(Tagged(c)) && MarkerFree(t, c)
    ensures Search(Tagged(c), t).None?
  {
    forall j | 0 <= j <= |t|
      ensures MatchAt(Tagged(c), t, j).None?
    {
      if j < |t| && t[j] == c && j + 1 < |t| {
        assert IsSpace(t[j + 1]);
      }
    }
  }

  lemma GapMarkerFree(c: char, s: string, pos: nat, a: nat)
    requires WellFormed(Tagged(c)) && pos <= a <= |s|
    requires forall j :: pos <= j < a ==> MatchAt(Tagged(c), s, j).None?
    requires a == |s| || (a < |s| && !IsSpace(s[a]))
    ensures a < |s| ==> StrictlyMarkerFree(s[pos..a], c)
    ensures a == |s| ==> MarkerFree(s[pos..a], c)
  {
    var g := s[pos..a];
    forall k | 0 <= k < |g| && g[k] == c
      ensures k + 1 < |g| ==> IsSpace(g[k + 1])
      ensures a < |s| ==> k + 1 < |g|
    {
      assert s[pos + k] == c;
      if pos + k + 1 < |s| && !IsSpace(s[pos + k + 1]) {
        TaggedMatchesBeforeNonSpace(c, s, pos + k);
      }
    }
  }

  lemma StrictThenFree(g: string, t: string, c: char)
    requires StrictlyMarkerFree(g, c) && MarkerFree(t, c)
    ensures MarkerFree(g + t, c)
  {
    var u := g + t;
    forall k | 0 <= k < |u| - 1 && u[k] == c
      ensures IsSpace(u[k + 1])
    {
      if k >= |g| {
        assert u[k] == t[k - |g|] && u[k + 1] == t[k + 1 - |g|];
      } else {
        assert u[k] == g[k];
      }
    }
  }

  /** re.sub with the tagged pattern leaves every marker followed by whitespace or last. */
  lemma {:induction false} SubAllMarkerFree(c: char, s: string, pos: nat)
    requires WellFormed(Tagged(c)) && pos <= |s|
    ensures MarkerFree(SubAllFrom(Tagged(c), s, pos), c)
    decreases |s| - pos
  {
    match SearchFrom(Tagged(c), s, pos)
    case None =>
      GapMarkerFree(c, s, pos, |s|);
    case Some(m) =>
      GapMarkerFree(c, s, pos, m.start);
      SubAllMarkerFree(c, s, m.end);
      StrictThenFree(s[pos..m.start], SubAllFrom(Tagged(c), s, m.end), c);
  }

  /** Cutting out a span that starts with a non-space character keeps a text marker-free. */
  lemma RemoveKeepsMarkerFree(t: string, m: Match, c: char)
    requires m.start < m.end <= |t| && !IsSpace(t[m.start]) && MarkerFree(t, c)
    ensures MarkerFree(Remove(t, m), c)
  {
    var u := Remove(t, m);
    var a, b := m.start, m.end;
    forall k | 0 <= k < |u| - 1 && u[k] == c
      ensures IsSpace(u[k + 1])
    {
      if k + 1 < a {
        assert u[k] == t[k] && u[k + 1] == t[k + 1];
      } else if k + 1 == a {
        assert false;
      } else {
        assert u[k] == t[k - a + b] && u[k + 1] == t[k + 1 - a + b];
      }
    }
  }

  /** c occurs in w at most as its last character. */
  predicate OnlyLast(w: string, c: char) {
    forall k :: 0 <= k < |w| - 1 ==> w[k] != c
  }

  lemma {:induction false} SplitOnlyLast(s: string, c: char)
    requires MarkerFree(s, c)
    ensures forall k :: 0 <= k < |Split(s)| ==> OnlyLast(Split(s)[k], c)
    decreases |s|
  {
    if s != [] {
      assert MarkerFree(s[1..], c) by {
        forall k | 0 <= k < |s[1..]| - 1 && s[1..][k] == c
          ensures IsSpace(s[1..][k + 1])
        {
          assert s[k + 1] == c;
        }
      }
      if IsSpace(s[0]) {
        SplitOnlyLast(s[1..], c);
      } else {
        var n := WordLength(s);
        assert MarkerFree(s[n..], c) by {
          forall k | 0 <= k < |s[n..]| - 1 && s[n..][k] == c
            ensures IsSpace(s[n..][k + 1])
          {
            assert s[n + k] == c;
          }
        }
        SplitOnlyLast(s[n..], c);
        assert OnlyLast(s[..n], c) by {
          forall k | 0 <= k < n - 1
            ensures s[..n][k] != c
          {
            assert !IsSpace(s[k + 1]);
          }
        }
      }
    }
  }

  lemma {:induction false} JoinMarkerFree(ws: seq<string>, c: char)
    requires !IsSpace(c)
    requires forall k :: 0 <= k < |ws| ==> OnlyLast(ws[k], c)
    ensures MarkerFree(JoinSpaced(ws), c)
    decreases |ws|
  {
    if |ws| > 1 {
      JoinMarkerFree(ws[1..], c);
      var w, r := ws[0], JoinSpaced(ws[1..]);
      var u := w + " " + r;
      assert u == JoinSpaced(ws);
      forall k | 0 <= k < |u| - 1 && u[k] == c
        ensures IsSpace(u[k + 1])
      {
        if k > |w| {
          assert u[k] == r[k - |w| - 1] && u[k + 1] == r[k - |w|];
        }
      }
    }
  }

  /** Collapsing whitespace keeps a text marker-free. */
  lemma CollapseKeepsMarkerFree(s: string, c: char)
    requires !IsSpace(c) && MarkerFree(s, c)
    ensures MarkerFree(Collapse(s), c)
  {
    SplitOnlyLast(s, c);
    JoinMarkerFree(Split(s), c);
  }

  /** The priority pattern has no boundary after its digit: "!23" gives priority 2. */
  lemma BangInsideNumber()
    ensures Search(Bang, "!23") == Some(Match(0, 2, ["2"]))
  {
    var s := "!23";
    assert s[0] == '!' && s[1] == '2';
    assert s[1..2] == "2";
    assert MatchAt(Bang, s, 0) == Some(Match(0, 2, ["2"]));
  }

  /** "in N days" has no boundary before "in", so it matches inside "within 3 days". */
  lemma DaysInsideWord()
    ensures MatchAt(InUnits("day"), "within 3 days", 4) == Some(Match(4, 13, ["3"]))
  {
    var s := "within 3 days";
    assert s[4] == 'i' && s[5] == 'n' && s[6] == ' ' && s[7] == '3' && s[8] == ' ';
    assert s[9] == 'd' && s[10] == 'a' && s[11] == 'y' && s[12] == 's';
    assert FoldedAt(s, 4, "in ");
    assert DigitsEnd(s, 8) == 8;
    assert DigitsEnd(s, 7) == 8;
    assert FoldedAt(s, 8, " " + "day");
    assert s[7..8] == "3";
  }
}
