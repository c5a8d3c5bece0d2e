/**
  The Python built-ins the transform stage leans on, stated over `string`:
  `str.strip`, `str.split()`, `str.split(sep)`, `str.lower`/`str.upper`, the
  substring test `a in b`, `str.endswith`, `int(text)`, `int(float(text))`
  and `str(int)`.  Character classes follow `str.isspace` exactly; case
  mapping is ASCII only.
*/
module PyStr {

  datatype Option<+T> = None | Some(value: T)

  /** A value, or the text `str(e)` of the exception the operation raised. */
  datatype Result<+T> = Ok(value: T) | Err(error: string)

  // ---------------------------------------------------------------------------
  // Character classes

  /** `c.isspace()`: the complete list of characters Python treats as white space. */
  predicate IsSpace(c: char) {
    || c == ' '
    || ('\t' <= c <= '\r')
    || ('\U{1c}' <= c <= '\U{1f}')
    || c == '\U{85}' || c == '\U{a0}' || c == '\U{1680}'
    || ('\U{2000}' <= c <= '\U{200a}')
    || c == '\U{2028}' || c == '\U{2029}' || c == '\U{202f}' || c == '\U{205f}' || c == '\U{3000}'
  }

  predicate IsDigit(c: char) {
    '0' <= c <= '9'
  }

  predicate AllDigits(s: string) {
    forall i :: 0 <= i < |s| ==> IsDigit(s[i])
  }

  predicate NoSpace(s: string) {
    forall i :: 0 <= i < |s| ==> !IsSpace(s[i])
  }

  predicate AllSpace(s: string) {
    forall i :: 0 <= i < |s| ==> IsSpace(s[i])
  }

  function LowerChar(c: char): char {
    if 'A' <= c <= 'Z' then (c as int + 32) as char else c
  }

  function UpperChar(c: char): char {
    if 'a' <= c <= 'z' then (c as int - 32) as char else c
  }

  /** `s.lower()` on ASCII letters: each character is mapped on its own. */
  function Lower(s: string): (r: string)
    ensures |r| == |s|
  {
    seq(|s|, i requires 0 <= i < |s| => LowerChar(s[i]))
  }

  /** `s.lower()` lower-cases each character in place. */
  lemma LowerEachChar(s: string)
    ensures forall i :: 0 <= i < |s| ==> Lower(s)[i] == LowerChar(s[i])
  {
  }

  /** `s.upper()` on ASCII letters: each character is mapped on its own. */
  function Upper(s: string): (r: string)
    ensures |r| == |s|
  {
    seq(|s|, i requires 0 <= i < |s| => UpperChar(s[i]))
  }

  /** `s.upper()` upper-cases each character in place. */
  lemma UpperEachChar(s: string)
    ensures forall i :: 0 <= i < |s| ==> Upper(s)[i] == UpperChar(s[i])
  {
  }

  // ---------------------------------------------------------------------------
  // Stripping and splitting

  function StripLeft(s: string): (r: string)
    ensures |r| <= |s| && r == s[|s| - |r|..]
    ensures r == [] || !IsSpace(r[0])
    ensures forall i :: 0 <= i < |s| - |r| ==> IsSpace(s[i])
  {
    if s != [] && IsSpace(s[0]) then StripLeft(s[1..]) else s
  }

  function StripRight(s: string): (r: string)
    ensures |r| <= |s| && r == s[..|r|]
    ensures r == [] || !IsSpace(r[|r| - 1])
    ensures forall i :: |r| <= i < |s| ==> IsSpace(s[i])
  {
    if s != [] && IsSpace(s[|s| - 1]) then StripRight(s[..|s| - 1]) else s
  }

  /** `s.strip()`: white space removed from both ends and nowhere else. */
  function Strip(s: string): (r: string)
    ensures |r| <= |s|
    ensures r == [] || (!IsSpace(r[0]) && !IsSpace(r[|r| - 1]))
  {
    var l := StripLeft(s);
    var r := StripRight(l);
    assert r != [] ==> r[0] == l[0];
    r
  }

  lemma StripNoSpace(s: string)
    requires NoSpace(s)
    ensures StripLeft(s) == s && StripRight(s) == s && Strip(s) == s
  {
  }

  /** Length of the leading run of non-space characters. */
  function TokenLength(t: string): (n: nat)
    ensures n <= |t|
    ensures forall i :: 0 <= i < n ==> !IsSpace(t[i])
    ensures n < |t| ==> IsSpace(t[n])
  {
    if t == [] || IsSpace(t[0]) then 0 else 1 + TokenLength(t[1..])
  }

  /** `s.split()`: the maximal runs of non-space characters, in order. */
  function Words(s: string): (r: seq<string>)
    ensures forall i :: 0 <= i < |r| ==> r[i] != [] && NoSpace(r[i])
    decreases |s|
  {
    var t := StripLeft(s);
    if t == [] then []
    else
      var n := TokenLength(t);
      var w := t[..n];
      assert w != [] && NoSpace(w);
      var rest := Words(t[n..]);
      WordsPrepend(w, rest);
      [w] + rest
  }

  lemma WordsPrepend(w: string, rest: seq<string>)
    requires w != [] && NoSpace(w)
    requires forall i :: 0 <= i < |rest| ==> rest[i] != [] && NoSpace(rest[i])
    ensures forall i :: 0 <= i < 1 + |rest| ==> ([w] + rest)[i] != [] && NoSpace(([w] + rest)[i])
  {
  }

  lemma StripLeftKeeps(s: string)
    requires s == [] || !IsSpace(s[0])
    ensures StripLeft(s) == s
  {
  }

  /** Text that neither starts nor ends with white space is its own strip. */
  lemma StripKeeps(s: string)
    requires s != [] && !IsSpace(s[0]) && !IsSpace(s[|s| - 1])
    ensures Strip(s) == s
  {
    StripLeftKeeps(s);
  }

  lemma {:induction false} TokenLengthOfWord(a: string, rest: string)
    requires NoSpace(a)
    requires rest == [] || IsSpace(rest[0])
    ensures TokenLength(a + rest) == |a|
  {
    if a != [] {
      assert (a + rest)[1..] == a[1..] + rest;
      TokenLengthOfWord(a[1..], rest);
    }
  }

  /** A word followed by white space (or nothing) is the first of the words. */
  lemma WordsCons(a: string, rest: string)
    requires a != [] && NoSpace(a)
    requires rest == [] || IsSpace(rest[0])
    ensures Words(a + rest) == [a] + Words(rest)
  {
    var s := a + rest;
    StripLeftKeeps(s);
    TokenLengthOfWord(a, rest);
    assert s[..|a|] == a;
    assert s[|a|..] == rest;
  }

  lemma WordsSkipSpace(s: string)
    requires s != [] && IsSpace(s[0])
    ensures Words(s) == Words(s[1..])
  {
  }

  lemma WordsOfSpaced(b: string)
    requires b != [] && NoSpace(b)
    ensures Words(" " + b) == [b]
  {
    WordsSkipSpace(" " + b);
    assert (" " + b)[1..] == b;
    WordsCons(b, []);
    assert b + [] == b;
  }

  /** Words laid out between gaps: `gaps[0] + words[0] + gaps[1] + ... + gaps[n]`. */
  function Layout(words: seq<string>, gaps: seq<string>): string
    requires |gaps| == |words| + 1
    decreases |words|
  {
    if words == [] then gaps[0] else gaps[0] + words[0] + Layout(words[1..], gaps[1..])
  }

  /** The gaps separate the words: words are non-empty runs without white
      space, gaps are white space, and the gaps between two words are not empty. */
  predicate Separating(words: seq<string>, gaps: seq<string>) {
    && |gaps| == |words| + 1
    && (forall i :: 0 <= i < |words| ==> words[i] != [] && NoSpace(words[i]))
    && (forall i :: 0 <= i < |gaps| ==> AllSpace(gaps[i]))
    && (forall i :: 0 < i < |words| ==> gaps[i] != [])
  }

  lemma {:induction false} StripLeftAfterGap(g: string, t: string)
    requires AllSpace(g)
    ensures StripLeft(g + t) == StripLeft(t)
  {
    if g != [] {
      assert IsSpace((g + t)[0]);
      assert (g + t)[1..] == g[1..] + t;
      StripLeftAfterGap(g[1..], t);
    } else {
      assert g + t == t;
    }
  }

  /** Leading white space does not change the words. */
  lemma WordsAfterGap(g: string, t: string)
    requires AllSpace(g)
    ensures Words(g + t) == Words(t)
  {
    StripLeftAfterGap(g, t);
  }

  lemma WordsOfGap(g: string)
    requires AllSpace(g)
    ensures Words(g) == []
  {
    WordsAfterGap(g, []);
    assert g + [] == g;
  }

  /** Text laid out as separated words splits into exactly those words. */
  lemma {:induction false} WordsOfLayout(words: seq<string>, gaps: seq<string>)
    requires Separating(words, gaps)
    ensures Words(Layout(words, gaps)) == words
  {
    if words == [] {
      WordsOfGap(gaps[0]);
    } else {
      var w := words[0];
      assert words == [w] + words[1..];
      var rest := Layout(words[1..], gaps[1..]);
      assert Layout(words, gaps) == gaps[0] + (w + rest);
      assert forall i :: 0 < i < |words| - 1 ==> gaps[1..][i] == gaps[i + 1];
      assert Separating(words[1..], gaps[1..]);
      if words[1..] != [] {
        assert rest[0] == gaps[1][0];
      }
      WordsAfterGap(gaps[0], w + rest);
      WordsCons(w, rest);
      WordsOfLayout(words[1..], gaps[1..]);
    }
  }

  /** Laid-out words with an empty leading gap start with the first word. */
  lemma LayoutHead(words: seq<string>, gaps: seq<string>)
    requires |gaps| == |words| + 1 && words != [] && gaps[0] == [] && words[0] != []
    ensures Layout(words, gaps) != [] && Layout(words, gaps)[0] == words[0][0]
  {
    var rest := Layout(words[1..], gaps[1..]);
    assert Layout(words, gaps) == [] + words[0] + rest;
  }

  /** One more word in front, after a gap, keeps the layout separating. */
  lemma LayoutCons(g: string, w: string, u: string, words: seq<string>, gaps: seq<string>)
    requires AllSpace(g) && w != [] && NoSpace(w) && (u == [] || IsSpace(u[0]))
    requires Separating(words, gaps) && Layout(words, gaps) == u
    ensures Separating([w] + words, [g] + gaps)
    ensures Layout([w] + words, [g] + gaps) == g + w + u
  {
    var ws := [w] + words;
    var gs := [g] + gaps;
    assert ws[1..] == words && gs[1..] == gaps;
    if words != [] && gaps[0] == [] {
      LayoutHead(words, gaps);
      assert false;
    }
    assert forall i :: 0 < i < |ws| ==> gs[i] == gaps[i - 1];
    assert forall i :: 0 < i < |ws| ==> ws[i] == words[i - 1];
  }

  /** Text that strips to nothing is a single gap. */
  lemma GapLayout(s: string)
    requires StripLeft(s) == []
    ensures Separating([], [s]) && Layout([], [s]) == s
  {
    assert AllSpace(s);
    assert [s][0] == s;
  }

  /** The white space before each word of `s` and after the last one. */
  ghost function GapsOf(s: string): seq<string>
    decreases |s|
  {
    var t := StripLeft(s);
    if t == [] then [s] else [s[..|s| - |t|]] + GapsOf(t[TokenLength(t)..])
  }

  /** Text with a word: the leading gap, the first word and the rest. */
  lemma SplitFirstWord(s: string) returns (g: string, w: string, u: string)
    requires StripLeft(s) != []
    ensures var t := StripLeft(s);
      g == s[..|s| - |t|] && w == t[..TokenLength(t)] && u == t[TokenLength(t)..]
    ensures s == g + w + u && |u| < |s|
    ensures AllSpace(g) && w != [] && NoSpace(w) && (u == [] || IsSpace(u[0]))
  {
    var t := StripLeft(s);
    g := s[..|s| - |t|];
    var n := TokenLength(t);
    w := t[..n];
    u := t[n..];
    Cut3(s, |s| - |t|, n);
    LeadingGap(s);
    FirstToken(t);
  }

  lemma LeadingGap(s: string)
    ensures AllSpace(s[..|s| - |StripLeft(s)|])
  {
  }

  lemma FirstToken(t: string)
    requires t != [] && !IsSpace(t[0])
    ensures var n := TokenLength(t);
      t[..n] != [] && NoSpace(t[..n]) && (t[n..] == [] || IsSpace(t[n..][0]))
  {
  }

  /** Text cut in three at `k` and `k + n` is the three pieces joined. */
  lemma Cut3(s: string, k: nat, n: nat)
    requires k + n <= |s|
    ensures s == s[..k] + s[k..][..n] + s[k..][n..]
  {
    assert s[k..] == s[k..][..n] + s[k..][n..];
    assert s == s[..k] + s[k..];
  }

  lemma WordsFirst(s: string) returns (g: string, w: string, u: string)
    requires StripLeft(s) != []
    ensures s == g + w + u && |u| < |s|
    ensures AllSpace(g) && w != [] && NoSpace(w) && (u == [] || IsSpace(u[0]))
    ensures Words(s) == [w] + Words(u) && GapsOf(s) == [g] + GapsOf(u)
  {
    g, w, u := SplitFirstWord(s);
  }

  /** Every text is its words laid out between separating gaps: together with
      `WordsOfLayout`, the words are the maximal runs of non-space characters,
      in order. */
  lemma {:induction false} LayoutOfWords(s: string)
    ensures Separating(Words(s), GapsOf(s)) && Layout(Words(s), GapsOf(s)) == s
    decreases |s|
  {
    if StripLeft(s) == [] {
      assert Words(s) == [] && GapsOf(s) == [s];
      GapLayout(s);
    } else {
      var g, w, u := WordsFirst(s);
      LayoutOfWords(u);
      LayoutCons(g, w, u, Words(u), GapsOf(u));
    }
  }

  /** `(a + " " + b).split() == [a, b]` for words `a` and `b`. */
  lemma WordsOfPair(a: string, b: string)
    requires a != [] && NoSpace(a) && b != [] && NoSpace(b)
    ensures Words(a + " " + b) == [a, b]
  {
    assert a + " " + b == a + (" " + b);
    WordsCons(a, " " + b);
    WordsOfSpaced(b);
  }

  /** Index of the first `c` in `s`, or `|s|` when there is none. */
  function IndexOf(s: string, c: char): (i: nat)
    ensures i <= |s|
    ensures i < |s| ==> s[i] == c
    ensures forall j :: 0 <= j < i ==> s[j] != c
  {
    if s == [] then 0 else if s[0] == c then 0 else 1 + IndexOf(s[1..], c)
  }

  /** `s.split(c)`: the pieces between occurrences of `c`, empty pieces kept. */
  function Split(s: string, c: char): (r: seq<string>)
    ensures |r| >= 1
    ensures r[0] == s[..IndexOf(s, c)]
    ensures forall i :: 0 <= i < |r| ==> c !in r[i]
    decreases |s|
  {
    var i := IndexOf(s, c);
    if i == |s| then [s] else [s[..i]] + Split(s[i + 1..], c)
  }

  /** The parts joined back together with `c` between them: `c.join(parts)`. */
  function JoinWith(parts: seq<string>, c: char): string
    requires |parts| >= 1
    decreases |parts|
  {
    if |parts| == 1 then parts[0] else parts[0] + [c] + JoinWith(parts[1..], c)
  }

  /** In text whose first `c` follows `a`, that `c` is found right after `a`. */
  lemma {:induction false} IndexOfAfter(a: string, rest: string, c: char)
    requires c !in a && rest != [] && rest[0] == c
    ensures IndexOf(a + rest, c) == |a|
  {
    if a != [] {
      assert (a + rest)[1..] == a[1..] + rest;
      IndexOfAfter(a[1..], rest, c);
    }
  }

  /** Text cut around one of its characters is the two sides joined by it. */
  lemma CutAt(s: string, i: nat)
    requires i < |s|
    ensures s == s[..i] + [s[i]] + s[i + 1..]
  {
  }

  /** Joining the parts of `s.split(c)` with `c` gives `s` back. */
  lemma {:induction false} SplitJoin(s: string, c: char)
    ensures JoinWith(Split(s, c), c) == s
    decreases |s|
  {
    var i := IndexOf(s, c);
    if i < |s| {
      var rest := Split(s[i + 1..], c);
      CutAt(s, i);
      SplitJoin(s[i + 1..], c);
      assert Split(s, c) == [s[..i]] + rest;
      assert ([s[..i]] + rest)[1..] == rest;
    }
  }

  /** `a`, then `c`, then `tail`, with no `c` in `a`: the first `c` separates them. */
  lemma JoinedPair(a: string, c: char, tail: string)
    requires c !in a
    ensures var s := a + [c] + tail;
      IndexOf(s, c) == |a| && s[..|a|] == a && s[|a| + 1..] == tail
  {
    var s := a + [c] + tail;
    assert s == a + ([c] + tail);
    IndexOfAfter(a, [c] + tail, c);
  }

  /** Splitting parts joined with `c`, none of which contains `c`, gives the parts back. */
  lemma {:induction false} SplitOfJoin(parts: seq<string>, c: char)
    requires |parts| >= 1
    requires forall i :: 0 <= i < |parts| ==> c !in parts[i]
    ensures Split(JoinWith(parts, c), c) == parts
    decreases |parts|
  {
    if |parts| > 1 {
      var a := parts[0];
      var tail := JoinWith(parts[1..], c);
      assert JoinWith(parts, c) == a + [c] + tail;
      JoinedPair(a, c, tail);
      SplitOfJoin(parts[1..], c);
      assert [a] + parts[1..] == parts;
    }
  }

  // ---------------------------------------------------------------------------
  // Substrings

  predicate OccursAt(hay: string, needle: string, k: nat) {
    k + |needle| <= |hay| && hay[k..k + |needle|] == needle
  }

  /** `needle in hay`. */
  function Contains(hay: string, needle: string): (r: bool)
    ensures r <==> exists k: nat :: OccursAt(hay, needle, k)
    decreases |hay|
  {
    if |needle| > |hay| then false
    else if hay[..|needle|] == needle then
      assert OccursAt(hay, needle, 0);
      true
    else
      var r := Contains(hay[1..], needle);
      if r then
        var k: nat :| OccursAt(hay[1..], needle, k);
        assert hay[k + 1..k + 1 + |needle|] == hay[1..][k..k + |needle|];
        assert OccursAt(hay, needle, k + 1);
        true
      else
        forall k: nat | OccursAt(hay, needle, k) ensures false {
          if k > 0 {
            assert hay[1..][k - 1..k - 1 + |needle|] == hay[k..k + |needle|];
            assert OccursAt(hay[1..], needle, k - 1);
          }
        }
        false
  }

  /** `s.endswith(suffix)`. */
  predicate EndsWith(s: string, suffix: string) {
    |suffix| <= |s| && s[|s| - |suffix|..] == suffix
  }

  // ---------------------------------------------------------------------------
  // Numbers

  function DigitValue(c: char): nat
    requires IsDigit(c)
  {
    c as int - '0' as int
  }

  function Digit(n: nat): (c: char)
    requires n < 10
    ensures IsDigit(c) && DigitValue(c) == n
  {
    ('0' as int + n) as char
  }

  /** The number written by a run of decimal digits (0 for the empty run). */
  function DigitsValue(s: string): nat
    requires AllDigits(s)
  {
    if s == [] then 0 else DigitsValue(s[..|s| - 1]) * 10 + DigitValue(s[|s| - 1])
  }

  /** `str(n)` for a natural number. */
  function NatText(n: nat): (r: string)
    ensures r != [] && AllDigits(r)
    ensures r[0] == '0' ==> n == 0
  {
    if n < 10 then [Digit(n)] else NatText(n / 10) + [Digit(n % 10)]
  }

  /** `str(n)`. */
  function IntText(n: int): (r: string)
    ensures r != [] && NoSpace(r)
  {
    if n < 0 then "-" + NatText(-n) else NatText(n)
  }

  /** `"%02d" % n`. */
  function Pad2(n: nat): (r: string)
    ensures AllDigits(r)
    ensures n < 100 ==> |r| == 2
  {
    if n < 10 then "0" + NatText(n)
    else
      assert n < 100 ==> |NatText(n / 10)| == 1;
      NatText(n)
  }

  /** Splits an optional leading sign off: (is negative, the rest). */
  function SignAndBody(t: string): (bool, string) {
    if t != [] && (t[0] == '+' || t[0] == '-') then (t[0] == '-', t[1..]) else (false, t)
  }

  /** Every group is a non-empty run of decimal digits. */
  predicate DigitGroups(groups: seq<string>) {
    groups == [] || (groups[0] != [] && AllDigits(groups[0]) && DigitGroups(groups[1..]))
  }

  /** The groups written one after the other. */
  function Concat(groups: seq<string>): (r: string)
    ensures DigitGroups(groups) ==> AllDigits(r)
  {
    if groups == [] then [] else groups[0] + Concat(groups[1..])
  }

  /** `int(s)` for base-10 text: None where Python raises ValueError. The
      digits may be grouped by single underscores (`int("1_23") == 123`). */
  function ParseInt(s: string): Option<int> {
    var (neg, body) := SignAndBody(Strip(s));
    var groups := Split(body, '_');
    if DigitGroups(groups) then
      var v: int := DigitsValue(Concat(groups));
      Some(if neg then -v else v)
    else None
  }

  /** What `float(s)` yields, reduced to what `int(...)` then does with it. */
  datatype FloatValue = Finite(truncated: int) | Infinite | NotANumber

  /** The least integer that `float()` rounds to infinity: (2^54 - 1) * 2^970,
      halfway between the largest finite double and 2^1024. */
  const FloatOverflow: int := 179769313486231580793728971405303415079934132710037826936173778980444968292764750946649017977587207096330286416692887910946555547851940402630657488671505820681908902000708383676273854845817711531764475730270069855571366959622842914819860834936475292719074168444365510704342711559699508093042880177904174497792

  /** `float(s)` for decimal text: None where Python raises ValueError.
      `Finite` carries the value truncated toward zero, as `int(...)` takes it;
      a magnitude of at least `FloatOverflow` is an infinity. */
  function ParseFloat(s: string): Option<FloatValue> {
    var (neg, body) := SignAndBody(Strip(s));
    var lower := Lower(body);
    if lower == "inf" || lower == "infinity" then Some(Infinite)
    else if lower == "nan" then Some(NotANumber)
    else DecimalFloat(neg, body)
  }

  /** `float` of a signed body that does not name an infinity or NaN: digits
      with at most one dot, and at least one digit. */
  function DecimalFloat(neg: bool, body: string): Option<FloatValue> {
    var dot := IndexOf(body, '.');
    var whole := body[..dot];
    var fraction := if dot < |body| then body[dot + 1..] else [];
    if AllDigits(whole) && AllDigits(fraction) && |whole| + |fraction| > 0 then
      var v: int := DigitsValue(whole);
      if v >= FloatOverflow then Some(Infinite) else Some(Finite(if neg then -v else v))
    else None
  }

  function IntValueErrorMessage(t: string): string {
    "invalid literal for int() with base 10: '" + t + "'"
  }

  /** `int(s)`, with the exception Python raises. */
  function IntOf(s: string): (r: Result<int>)
    ensures r.Ok? <==> ParseInt(s).Some?
  {
    match ParseInt(s)
    case Some(n) => Ok(n)
    case None => Err(IntValueErrorMessage(s))
  }

  /** `t` is an optional sign followed by one or more groups of decimal digits
      joined by single underscores, and the digits together write `n`. */
  ghost predicate IntLiteral(t: string, n: int) {
    exists sign: string, groups: seq<string> ::
      sign in ["", "+", "-"] && |groups| >= 1 && DigitGroups(groups) &&
      t == sign + JoinWith(groups, '_') &&
      var v: int := DigitsValue(Concat(groups)); n == if sign == "-" then -v else v
  }

  // ---------------------------------------------------------------------------
  // Lemmas

  lemma {:induction false} DigitGroupsNoUnderscore(groups: seq<string>)
    requires DigitGroups(groups)
    ensures forall i :: 0 <= i < |groups| ==> '_' !in groups[i]
  {
    if groups != [] {
      DigitGroupsNoUnderscore(groups[1..]);
      forall i | 0 <= i < |groups|
        ensures '_' !in groups[i]
      {
        if i > 0 {
          assert groups[i] == groups[1..][i - 1];
        }
      }
    }
  }

  /** Joined digit groups start with a digit, so they carry no sign. */
  lemma {:induction false} JoinedGroupsLead(groups: seq<string>)
    requires |groups| >= 1 && DigitGroups(groups)
    ensures var d := JoinWith(groups, '_'); d != [] && d[0] == groups[0][0] && IsDigit(d[0])
  {
  }

  /** A sign and a body that splits into digit groups form a signed literal. */
  lemma LiteralOfBody(t: string, neg: bool, body: string, n: int)
    requires SignAndBody(t) == (neg, body)
    requires var groups := Split(body, '_');
      DigitGroups(groups) && var v: int := DigitsValue(Concat(groups)); n == if neg then -v else v
    ensures IntLiteral(t, n)
  {
    var groups := Split(body, '_');
    SplitJoin(body, '_');
    var sign := if t != [] && (t[0] == '+' || t[0] == '-') then [t[0]] else "";
    assert t == sign + JoinWith(groups, '_');
    assert sign in ["", "+", "-"];
  }

  /** What `int` accepts is a signed literal. */
  lemma ParseIntLiteral(s: string, n: int)
    requires ParseInt(s) == Some(n)
    ensures IntLiteral(Strip(s), n)
  {
    var (neg, body) := SignAndBody(Strip(s));
    LiteralOfBody(Strip(s), neg, body, n);
  }

  /** `int` reads a sign and joined digit groups as the number the digits write. */
  lemma ParseIntOfGroups(s: string, neg: bool, groups: seq<string>)
    requires |groups| >= 1 && DigitGroups(groups)
    requires SignAndBody(Strip(s)) == (neg, JoinWith(groups, '_'))
    ensures var v: int := DigitsValue(Concat(groups)); ParseInt(s) == Some(if neg then -v else v)
  {
    SplitOfGroups(groups);
    ParseIntOfSplit(s, neg, JoinWith(groups, '_'), groups);
  }

  /** Joined digit groups split back into the groups. */
  lemma SplitOfGroups(groups: seq<string>)
    requires |groups| >= 1 && DigitGroups(groups)
    ensures Split(JoinWith(groups, '_'), '_') == groups
  {
    DigitGroupsNoUnderscore(groups);
    SplitOfJoin(groups, '_');
  }

  lemma ParseIntOfSplit(s: string, neg: bool, body: string, groups: seq<string>)
    requires DigitGroups(groups)
    requires SignAndBody(Strip(s)) == (neg, body) && Split(body, '_') == groups
    ensures var v: int := DigitsValue(Concat(groups)); ParseInt(s) == Some(if neg then -v else v)
  {
  }

  /** A sign and joined digit groups split into that sign and the groups' text. */
  lemma SignOfGroups(t: string, sign: string, groups: seq<string>)
    requires |groups| >= 1 && DigitGroups(groups)
    requires sign in ["", "+", "-"] && t == sign + JoinWith(groups, '_')
    ensures SignAndBody(t) == (sign == "-", JoinWith(groups, '_'))
  {
    var d := JoinWith(groups, '_');
    JoinedGroupsLead(groups);
    if sign == "" {
      assert t == d && IsDigit(t[0]);
    } else if sign == "+" {
      assert t[0] == '+' && t[1..] == d;
    } else {
      assert t[0] == '-' && t[1..] == d;
    }
  }

  /** A signed literal is read by `int` as the number it writes. */
  lemma LiteralParseInt(s: string, n: int, sign: string, groups: seq<string>)
    requires sign in ["", "+", "-"] && |groups| >= 1 && DigitGroups(groups)
    requires Strip(s) == sign + JoinWith(groups, '_')
    requires var v: int := DigitsValue(Concat(groups)); n == if sign == "-" then -v else v
    ensures ParseInt(s) == Some(n)
  {
    SignOfGroups(Strip(s), sign, groups);
    ParseIntOfGroups(s, sign == "-", groups);
  }

  /** `int(s)` gives `n` exactly when the stripped text is an optional sign
      followed by digit groups joined by single underscores that write `n`;
      on any other text it raises. */
  lemma ParseIntExactly(s: string, n: int)
    ensures ParseInt(s) == Some(n) <==> IntLiteral(Strip(s), n)
  {
    if ParseInt(s) == Some(n) {
      ParseIntLiteral(s, n);
    }
    if IntLiteral(Strip(s), n) {
      var sign: string, groups: seq<string> :|
        sign in ["", "+", "-"] && |groups| >= 1 && DigitGroups(groups) &&
        Strip(s) == sign + JoinWith(groups, '_') &&
        var v: int := DigitsValue(Concat(groups)); n == if sign == "-" then -v else v;
      LiteralParseInt(s, n, sign, groups);
    }
  }

  /** Digit groups may be separated by single underscores: `int("1_23") == 123`. */
  lemma UnderscoreExample(s: string)
    requires s == "1_23"
    ensures ParseInt(s) == Some(123)
  {
    var groups := ["1", "23"];
    assert DigitGroups(groups[1..][1..]);
    assert JoinWith(groups, '_') == s;
    assert Concat(groups) == "123";
    assert DigitsValue("123"[..2]) == 12 by {
      assert "123"[..2][..1] == "1";
    }
    LiteralParseInt(s, 123, "", groups);
  }

  /** A text whose second underscore-separated group is empty is a ValueError. */
  lemma ParseIntEmptyGroup(s: string, neg: bool, body: string)
    requires SignAndBody(Strip(s)) == (neg, body)
    requires |Split(body, '_')| >= 2 && Split(body, '_')[1] == []
    ensures ParseInt(s) == None
  {
    var groups := Split(body, '_');
    assert groups[1..][0] == [];
    assert !DigitGroups(groups[1..]);
    assert !DigitGroups(groups);
  }

  lemma DoubledUnderscoreSplit(s: string)
    requires s == "1__2"
    ensures |Split(s, '_')| >= 2 && Split(s, '_')[1] == []
  {
    assert s == "1" + ['_'] + "_2";
    JoinedPair("1", '_', "_2");
    assert "_2" == "" + ['_'] + "2";
    JoinedPair("", '_', "2");
  }

  /** A doubled underscore leaves an empty group: a ValueError. */
  lemma DoubledUnderscoreRejected(s: string)
    requires s == "1__2"
    ensures ParseInt(s) == None
  {
    StripNoSpace(s);
    assert SignAndBody(Strip(s)) == (false, s);
    DoubledUnderscoreSplit(s);
    ParseIntEmptyGroup(s, false, s);
  }

  lemma {:induction false} DigitsValuePrefix(s: string, c: char)
    requires AllDigits(s) && IsDigit(c)
    ensures AllDigits(s + [c]) && DigitsValue(s + [c]) == DigitsValue(s) * 10 + DigitValue(c)
  {
    assert (s + [c])[..|s + [c]| - 1] == s;
  }

  /** Reading back `str(n)` gives `n`. */
  lemma {:induction false} NatTextValue(n: nat)
    ensures DigitsValue(NatText(n)) == n
  {
    if n < 10 {
      assert NatText(n)[..0] == [];
    } else {
      NatTextValue(n / 10);
      DigitsValuePrefix(NatText(n / 10), Digit(n % 10));
    }
  }

  /** `int` of text whose stripped form is an optional sign and a non-empty run of digits. */
  lemma ParseIntOfSigned(t: string, neg: bool, s: string)
    requires s != [] && AllDigits(s) && SignAndBody(Strip(t)) == (neg, s)
    ensures ParseInt(t) == Some(if neg then -(DigitsValue(s) as int) else DigitsValue(s))
  {
    DigitsOneGroup(s);
  }

  /** A run of digits is a single digit group. */
  lemma DigitsOneGroup(s: string)
    requires s != [] && AllDigits(s)
    ensures Split(s, '_') == [s] && DigitGroups([s]) && Concat([s]) == s
  {
    assert [s][1..] == [];
    assert s + [] == s;
  }

  /** `int` of a non-empty run of digits is the number they write. */
  lemma ParseIntOfDigits(s: string)
    requires s != [] && AllDigits(s)
    ensures ParseInt(s) == Some(DigitsValue(s))
  {
    StripNoSpace(s);
    assert s[0] != '+' && s[0] != '-';
    assert SignAndBody(Strip(s)) == (false, s);
    ParseIntOfSigned(s, false, s);
  }

  /** `int` of a minus sign followed by a non-empty run of digits. */
  lemma ParseIntOfNegDigits(s: string)
    requires s != [] && AllDigits(s)
    ensures ParseInt("-" + s) == Some(-(DigitsValue(s) as int))
  {
    var t := "-" + s;
    assert NoSpace(t);
    StripNoSpace(t);
    assert t[1..] == s;
    assert SignAndBody(Strip(t)) == (true, s);
    ParseIntOfSigned(t, true, s);
  }

  /** `int(str(n)) == n`. */
  lemma IntTextRoundTrip(n: int)
    ensures ParseInt(IntText(n)) == Some(n)
  {
    if n < 0 {
      var body := NatText(-n);
      assert IntText(n) == "-" + body;
      NatTextValue(-n);
      ParseIntOfNegDigits(body);
    } else {
      var body := NatText(n);
      assert IntText(n) == body;
      NatTextValue(n);
      ParseIntOfDigits(body);
    }
  }

  lemma NoDotInDigits(s: string)
    requires AllDigits(s)
    ensures IndexOf(s, '.') == |s|
  {
  }

  lemma LowerOfDigitLed(s: string)
    requires s != [] && IsDigit(s[0])
    ensures Lower(s) != "inf" && Lower(s) != "infinity" && Lower(s) != "nan"
  {
    assert Lower(s)[0] == s[0];
  }

  /** A body led by a digit names no infinity or NaN, so it is read as a decimal. */
  lemma ParseFloatNumeric(t: string, neg: bool, body: string)
    requires body != [] && IsDigit(body[0]) && SignAndBody(Strip(t)) == (neg, body)
    ensures ParseFloat(t) == DecimalFloat(neg, body)
  {
    LowerOfDigitLed(body);
  }

  /** `float` of text whose stripped form is an optional sign and a non-empty run of digits. */
  lemma ParseFloatOfDigits(t: string, neg: bool, s: string)
    requires s != [] && AllDigits(s) && SignAndBody(Strip(t)) == (neg, s)
    requires DigitsValue(s) < FloatOverflow
    ensures ParseFloat(t) == Some(Finite(if neg then -(DigitsValue(s) as int) else DigitsValue(s)))
  {
    ParseFloatNumeric(t, neg, s);
    NoDotInDigits(s);
    assert s[..|s|] == s;
  }

  /** `float` of a run of digits too large for a double is an infinity. */
  lemma FloatOfHugeDigits(t: string, neg: bool, s: string)
    requires s != [] && AllDigits(s) && SignAndBody(Strip(t)) == (neg, s)
    requires DigitsValue(s) >= FloatOverflow
    ensures ParseFloat(t) == Some(Infinite)
  {
    ParseFloatNumeric(t, neg, s);
    NoDotInDigits(s);
    assert s[..|s|] == s;
  }

  /** A finite `float` truncates to an integer of magnitude below `FloatOverflow`. */
  lemma ParseFloatFinite(s: string)
    ensures ParseFloat(s).Some? && ParseFloat(s).value.Finite? ==>
      -FloatOverflow < ParseFloat(s).value.truncated < FloatOverflow
  {
  }

  /** The stripped `str(n)` splits into the sign of `n` and the digits of its magnitude. */
  lemma IntTextSign(n: int)
    ensures SignAndBody(Strip(IntText(n))) == (n < 0, NatText(if n < 0 then -n else n))
  {
    var t := IntText(n);
    StripNoSpace(t);
    if n < 0 {
      var d := NatText(-n);
      assert t == "-" + d;
      assert t[0] == '-' && t[1..] == d;
    } else {
      var d := NatText(n);
      assert t == d && IsDigit(d[0]);
    }
  }

  /** `int(float(str(n))) == n` for an integer below the overflow bound. */
  lemma IntTextAsFloat(n: int)
    requires -FloatOverflow < n < FloatOverflow
    ensures ParseFloat(IntText(n)) == Some(Finite(n))
  {
    var m: nat := if n < 0 then -n else n;
    IntTextSign(n);
    NatTextValue(m);
    ParseFloatOfDigits(IntText(n), n < 0, NatText(m));
  }

  lemma DecimalTextNoSpace(whole: string, fraction: string)
    requires AllDigits(whole) && AllDigits(fraction)
    ensures NoSpace(whole + "." + fraction)
  {
  }

  /** `float` of text whose stripped form is an optional sign, digits, a dot
      and digits truncates to the whole part. */
  lemma ParseFloatOfDecimal(t: string, neg: bool, whole: string, fraction: string)
    requires whole != [] && AllDigits(whole) && AllDigits(fraction)
    requires SignAndBody(Strip(t)) == (neg, whole + "." + fraction)
    requires DigitsValue(whole) < FloatOverflow
    ensures ParseFloat(t) == Some(Finite(if neg then -(DigitsValue(whole) as int) else DigitsValue(whole)))
  {
    var body := whole + "." + fraction;
    assert body[0] == whole[0];
    ParseFloatNumeric(t, neg, body);
    JoinedPair(whole, '.', fraction);
  }

  /** `int(float(w + "." + f))` is `w`: the fraction is dropped. */
  lemma DecimalTextAsFloat(n: nat, fraction: string)
    requires AllDigits(fraction) && n < FloatOverflow
    ensures ParseFloat(NatText(n) + "." + fraction) == Some(Finite(n))
  {
    var whole := NatText(n);
    var s := whole + "." + fraction;
    DecimalTextNoSpace(whole, fraction);
    StripNoSpace(s);
    assert s[0] == whole[0];
    assert SignAndBody(s) == (false, s);
    NatTextValue(n);
    ParseFloatOfDecimal(s, false, whole, fraction);
  }

  /** Four-digit years are written with four characters. */
  lemma NatTextLength4(n: nat)
    requires 1000 <= n < 10000
    ensures |NatText(n)| == 4
  {
    var a := n / 10;
    var b := a / 10;
    var c := b / 10;
    assert 1 <= c < 10 && 10 <= b < 100 && 100 <= a < 1000;
    assert |NatText(c)| == 1;
    assert |NatText(b)| == 2;
    assert |NatText(a)| == 3;
  }
}
