/**
 * The Python string built-ins the bot relies on: str.isspace (which also
 * decides what \s and \S match in its regular expressions), str.split() and
 * ' '.join(...), str.strip(), str.lower() and str(int).
 */
module Text {

  /** str.isspace(): the whitespace of str.split(), str.strip() and of \s in a str pattern. */
  predicate IsSpace(c: char) {
    ('\t' <= c <= '\r') || ('\U{1c}' <= c <= ' ')
    || c == '\U{85}' || c == '\U{a0}' || c == '\U{1680}'
    || ('\U{2000}' <= c <= '\U{200a}')
    || c == '\U{2028}' || c == '\U{2029}' || c == '\U{202f}' || c == '\U{205f}' || c == '\U{3000}'
  }

  /** \d, restricted to the ASCII digits. */
  predicate IsDigit(c: char) { '0' <= c <= '9' }

  predicate AllDigits(s: string) { forall k :: 0 <= k < |s| ==> IsDigit(s[k]) }

  /**
   * \w: letters, digits and the underscore. Exact up to U+00FF; beyond it only
   * the four letters that re.IGNORECASE folds onto ASCII letters are included.
   */
  predicate IsWordChar(c: char) {
    ('a' <= c <= 'z') || ('A' <= c <= 'Z') || IsDigit(c) || c == '_'
    || c == '\U{aa}' || c == '\U{b2}' || c == '\U{b3}' || c == '\U{b5}' || c == '\U{b9}' || c == '\U{ba}'
    || ('\U{bc}' <= c <= '\U{be}') || ('\U{c0}' <= c <= '\U{ff}' && c != '\U{d7}' && c != '\U{f7}')
    || c == '\U{130}' || c == '\U{131}' || c == '\U{17f}' || c == '\U{212a}'
  }

  function DigitValue(c: char): (v: nat)
    requires IsDigit(c)
    ensures v < 10
  {
    c as int - '0' as int
  }

  function DigitChar(v: nat): (c: char)
    requires v < 10
    ensures IsDigit(c) && DigitValue(c) == v
  {
    (v + '0' as int) as char
  }

  // ---------------------------------------------------------------------------
  // str.split() and ' '.join(...)

  /** A word of str.split(): non-empty and free of whitespace. */
  predicate IsWord(w: string) {
    w != [] && forall k :: 0 <= k < |w| ==> !IsSpace(w[k])
  }

  /** Length of the run of non-space characters at the front of s. */
  function WordLength(s: string): (n: nat)
    ensures n <= |s|
    ensures forall k :: 0 <= k < n ==> !IsSpace(s[k])
    ensures n < |s| ==> IsSpace(s[n])
  {
    if s == [] || IsSpace(s[0]) then 0 else 1 + WordLength(s[1..])
  }

  /** str.split() with no argument: the maximal runs of non-space characters, in order. */
  function Split(s: string): (ws: seq<string>)
    ensures forall k :: 0 <= k < |ws| ==> IsWord(ws[k])
    decreases |s|
  {
    if s == [] then []
    else if IsSpace(s[0]) then Split(s[1..])
    else
      var n := WordLength(s);
      [s[..n]] + Split(s[n..])
  }

  /** ' '.join(ws) */
  function JoinSpaced(ws: seq<string>): string {
    if ws == [] then ""
    else if |ws| == 1 then ws[0]
    else ws[0] + " " + JoinSpaced(ws[1..])
  }

  /** No whitespace at either end; every whitespace character is one ' ' followed by a non-space. */
  predicate Normalized(t: string) {
    (t != [] ==> !IsSpace(t[0]) && !IsSpace(t[|t| - 1]))
    && forall k :: 0 <= k < |t| && IsSpace(t[k]) ==> t[k] == ' ' && 0 < k < |t| - 1 && !IsSpace(t[k + 1])
  }

  lemma {:induction false} WordLengthOfWord(w: string, rest: string)
    requires forall k :: 0 <= k < |w| ==> !IsSpace(w[k])
    requires rest == [] || IsSpace(rest[0])
    ensures WordLength(w + rest) == |w|
    decreases |w|
  {
    if w != [] {
      assert (w + rest)[1..] == w[1..] + rest;
      WordLengthOfWord(w[1..], rest);
    }
  }

  /** Joining words with single spaces gives a normalized string that starts with the first word. */
  lemma {:induction false} JoinNormalized(ws: seq<string>)
    requires forall k :: 0 <= k < |ws| ==> IsWord(ws[k])
    ensures Normalized(JoinSpaced(ws))
    ensures ws != [] ==> JoinSpaced(ws) != [] && JoinSpaced(ws)[0] == ws[0][0]
    decreases |ws|
  {
    if |ws| > 1 {
      var w, r := ws[0], JoinSpaced(ws[1..]);
      JoinNormalized(ws[1..]);
      var t := w + " " + r;
      assert t == JoinSpaced(ws);
      forall k | 0 <= k < |t| && IsSpace(t[k])
        ensures t[k] == ' ' && 0 < k < |t| - 1 && !IsSpace(t[k + 1])
      {
        if k > |w| {
          assert t[k] == r[k - |w| - 1];
          assert t[k + 1] == r[k - |w|];
        }
      }
    }
  }

  /** str.split() undoes ' '.join(...) on words. */
  lemma {:induction false} SplitJoin(ws: seq<string>)
    requires forall k :: 0 <= k < |ws| ==> IsWord(ws[k])
    ensures Split(JoinSpaced(ws)) == ws
    decreases |ws|
  {
    if |ws| == 1 {
      WordLengthOfWord(ws[0], []);
      assert ws[0] + [] == ws[0];
      assert ws[0][..|ws[0]|] == ws[0];
    } else if |ws| > 1 {
      var w, r := ws[0], JoinSpaced(ws[1..]);
      var s := w + " " + r;
      assert s == w + (" " + r);
      WordLengthOfWord(w, " " + r);
      assert s[..|w|] == w;
      assert s[|w|..] == " " + r;
      assert (" " + r)[1..] == r;
      SplitJoin(ws[1..]);
    }
  }

  /** ' '.join(s.split()): runs of whitespace become one space, and both ends are trimmed. */
  function Collapse(s: string): (t: string)
    ensures Normalized(t)
    ensures Split(t) == Split(s)
  {
    JoinNormalized(Split(s));
    SplitJoin(Split(s));
    JoinSpaced(Split(s))
  }

  /** Collapsing twice changes nothing more. */
  lemma CollapseIdempotent(s: string)
    ensures Collapse(Collapse(s)) == Collapse(s)
  {
  }

  // ---------------------------------------------------------------------------
  // str.strip()

  /** Number of whitespace characters at the front of s. */
  function LeadingSpaces(s: string): (n: nat)
    ensures n <= |s|
    ensures forall k :: 0 <= k < n ==> IsSpace(s[k])
    ensures n < |s| ==> !IsSpace(s[n])
  {
    if s != [] && IsSpace(s[0]) then 1 + LeadingSpaces(s[1..]) else 0
  }

  /** Number of whitespace characters at the back of s. */
  function TrailingSpaces(s: string): (n: nat)
    ensures n <= |s|
    ensures forall k :: |s| - n <= k < |s| ==> IsSpace(s[k])
    ensures n < |s| ==> !IsSpace(s[|s| - 1 - n])
  {
    if s != [] && IsSpace(s[|s| - 1]) then 1 + TrailingSpaces(s[..|s| - 1]) else 0
  }

  /** t is s[a..a + |t|] and everything of s around it is whitespace. */
  predicate StrippedAt(s: string, t: string, a: int) {
    0 <= a <= |s| - |t| && s[a..a + |t|] == t
    && (forall k :: 0 <= k < a ==> IsSpace(s[k]))
    && (forall k :: a + |t| <= k < |s| ==> IsSpace(s[k]))
  }

  /** str.strip(): the part of s between its leading and its trailing whitespace. */
  function Strip(s: string): (t: string)
    ensures t == [] || (!IsSpace(t[0]) && !IsSpace(t[|t| - 1]))
    ensures t == [] <==> forall k :: 0 <= k < |s| ==> IsSpace(s[k])
    ensures t != [] ==> exists a :: StrippedAt(s, t, a)
  {
    var a := LeadingSpaces(s);
    if a == |s| then []
    else
      var b := |s| - TrailingSpaces(s);
      assert a < b;
      var t := s[a..b];
      assert StrippedAt(s, t, a);
      t
  }

  // ---------------------------------------------------------------------------
  // str.lower()

  /** The characters lower() changes here: the ASCII and Latin-1 capitals. */
  predicate IsCapital(c: char) {
    ('A' <= c <= 'Z') || ('\U{c0}' <= c <= '\U{de}' && c != '\U{d7}')
  }

  /** str.lower() on one character: a capital becomes its small letter, 32 code points on. */
  function LowerChar(c: char): char {
    if IsCapital(c) then (c as int + 32) as char else c
  }

  function Lower(s: string): (t: string)
    ensures |t| == |s| && forall k :: 0 <= k < |s| ==> t[k] == LowerChar(s[k])
  {
    seq(|s|, k requires 0 <= k < |s| => LowerChar(s[k]))
  }

  /** lower() leaves no capital behind, so lowering twice is lowering once. */
  lemma LowerIdempotent(s: string)
    ensures forall k :: 0 <= k < |s| ==> !IsCapital(Lower(s)[k])
    ensures Lower(Lower(s)) == Lower(s)
  {
  }

  /**
   * lower() changes only capitals: every other character stays where it
   * was, so a text of digits, whitespace, '/' and '-' (a D/M/YYYY or an ISO
   * date) is its own lower-case form.
   */
  lemma LowerKeepsUncased(s: string)
    ensures forall k :: 0 <= k < |s| && !IsCapital(s[k]) ==> Lower(s)[k] == s[k]
    ensures (forall k :: 0 <= k < |s| ==> IsDigit(s[k]) || IsSpace(s[k]) || s[k] == '/' || s[k] == '-') ==> Lower(s) == s
  {
  }

  // ---------------------------------------------------------------------------
  // str(int) and int(str)

  /** str(n) for a natural number: its decimal digits. */
  function NatToDecimal(n: nat): (s: string)
    ensures s != [] && AllDigits(s)
    decreases n
  {
    if n < 10 then [DigitChar(n)] else NatToDecimal(n / 10) + [DigitChar(n % 10)]
  }

  /** int(s) for a string of ASCII decimal digits. */
  function DecimalValue(s: string): nat
    requires AllDigits(s)
    decreases |s|
  {
    if s == [] then 0 else 10 * DecimalValue(s[..|s| - 1]) + DigitValue(s[|s| - 1])
  }

  /** int(str(n)) == n */
  lemma {:induction false} DecimalRoundTrip(n: nat)
    ensures DecimalValue(NatToDecimal(n)) == n
    decreases n
  {
    if n >= 10 {
      var s := NatToDecimal(n);
      assert s[..|s| - 1] == NatToDecimal(n / 10);
      DecimalRoundTrip(n / 10);
    }
  }

  /** str(n) for any integer: a '-' before the digits of a negative number. */
  function IntToDecimal(n: int): (s: string)
    ensures s != [] && (s[0] == '-' <==> n < 0)
    ensures forall k :: 0 < k < |s| ==> IsDigit(s[k])
  {
    if n < 0 then "-" + NatToDecimal(-n) else NatToDecimal(n)
  }

  /** Different integers have different str(...) renderings. */
  lemma IntToDecimalInjective(a: int, b: int)
    requires IntToDecimal(a) == IntToDecimal(b)
    ensures a == b
  {
    if a < 0 {
      assert IntToDecimal(a)[1..] == NatToDecimal(-a);
      assert IntToDecimal(b)[1..] == NatToDecimal(-b);
      DecimalRoundTrip(-a);
      DecimalRoundTrip(-b);
    } else {
      DecimalRoundTrip(a);
      DecimalRoundTrip(b);
    }
  }

  function Pow10(w: nat): (p: nat)
    ensures p >= 1
  {
    if w == 0 then 1 else 10 * Pow10(w - 1)
  }

  /** n written with exactly w digits, zero-padded on the left (a %0wd conversion). */
  function FixedDigits(n: nat, w: nat): (s: string)
    ensures |s| == w && AllDigits(s)
  {
    if w == 0 then "" else FixedDigits(n / 10, w - 1) + [DigitChar(n % 10)]
  }

  /** Reading a zero-padded number back gives the number, when it fits in w digits. */
  lemma {:induction false} FixedDigitsValue(n: nat, w: nat)
    requires n < Pow10(w)
    ensures DecimalValue(FixedDigits(n, w)) == n
    decreases w
  {
    if w > 0 {
      var s := FixedDigits(n, w);
      assert s[..|s| - 1] == FixedDigits(n / 10, w - 1);
      FixedDigitsValue(n / 10, w - 1);
    }
  }
}
