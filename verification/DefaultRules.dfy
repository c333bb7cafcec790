/**
 The default redaction rules as concrete languages, with a leftmost-longest search. Matches never
 contain a bracket, and no marker contains a match: a match contains no colon either, and the pieces
 of a marker between its brackets and colon are shorter than any match that could fit. Each language is
 what the rule's pattern, as it is written, matches.
 */
module DefaultRules {
  import opened Wrappers
  import opened Redaction

  predicate Upper(c: char) { 'A' <= c <= 'Z' }

  predicate Digit(c: char) { '0' <= c <= '9' }

  predicate Alnum(c: char) { Upper(c) || 'a' <= c <= 'z' || Digit(c) }

  predicate UpperOrDigit(c: char) { Upper(c) || Digit(c) }

  predicate WordChar(c: char) { Alnum(c) || c == '_' }

  predicate DashedWordChar(c: char) { Alnum(c) || c == '_' || c == '-' }

  predicate DashedAlnum(c: char) { Alnum(c) || c == '-' }

  predicate All(s: string, class_: char -> bool) {
    forall i :: 0 <= i < |s| ==> class_(s[i])
  }

  /** `AKIA[0-9A-Z]{16}` */
  predicate AwsAccessKey(m: string) {
    |m| == 20 && m[..4] == "AKIA" && All(m[4..], UpperOrDigit)
  }

  /** `ghp_[A-Za-z0-9]{36}` */
  predicate GithubPat(m: string) {
    |m| == 40 && m[..4] == "ghp_" && All(m[4..], Alnum)
  }

  /** `github_pat_[A-Za-z0-9_]{80,}` */
  predicate GithubPatFine(m: string) {
    |m| >= 91 && m[..11] == "github_pat_" && All(m[11..], WordChar)
  }

  /** `sk-ant-[A-Za-z0-9_\-]{20,}` */
  predicate AnthropicKey(m: string) {
    |m| >= 27 && m[..7] == "sk-ant-" && All(m[7..], DashedWordChar)
  }

  /** `sk-(?:proj-)?[A-Za-z0-9_\-]{20,}`; `proj-` lies in the class, so the option adds no string. */
  predicate OpenAiKey(m: string) {
    |m| >= 23 && m[..3] == "sk-" && All(m[3..], DashedWordChar)
  }

  predicate SlackKind(c: char) { c in {'a', 'b', 'p', 'o', 'r', 's'} }

  /** `xox[abpors]-[A-Za-z0-9\-]{10,}` */
  predicate SlackToken(m: string) {
    |m| >= 15 && m[..3] == "xox" && SlackKind(m[3]) && m[4] == '-' && All(m[5..], DashedAlnum)
  }

  /** `eyJ` and three dot-separated segments of at least ten characters (the first after `eyJ`). */
  predicate Jwt(m: string) {
    exists a, b :: 13 <= a && a + 11 <= b && b + 11 <= |m| && JwtAt(m, a, b)
  }

  predicate JwtAt(m: string, a: nat, b: nat)
    requires 13 <= a && a + 11 <= b && b + 11 <= |m|
  {
    && m[..3] == "eyJ" && m[a] == '.' && m[b] == '.'
    && All(m[3..a], DashedWordChar) && All(m[a + 1..b], DashedWordChar) && All(m[b + 1..], DashedWordChar)
  }

  // ---------- the search ----------

  /** The longest match starting at `i` and ending at `j` or before. */
  function LongestAt(language: string -> bool, s: string, i: nat, j: nat): (r: Option<nat>)
    requires i <= j <= |s|
    ensures r.Some? ==> i < r.value <= j && language(s[i..r.value])
    ensures r.None? ==> forall k :: i < k <= j ==> !language(s[i..k])
    decreases j
  {
    if j == i then None else if language(s[i..j]) then Some(j) else LongestAt(language, s, i, j - 1)
  }

  /** The leftmost match starting at `p` or later, and of those the longest. */
  function LeftmostLongest(language: string -> bool, s: string, p: nat): (r: Option<(nat, nat)>)
    requires p <= |s|
    ensures r.Some? ==> p <= r.value.0 < r.value.1 <= |s| && language(s[r.value.0..r.value.1])
    ensures r.Some? ==> forall i, k :: p <= i < r.value.0 && i < k <= |s| ==> !language(s[i..k])
    ensures r.None? ==> forall i, k :: p <= i < k <= |s| ==> !language(s[i..k])
    decreases |s| - p
  {
    if p == |s| then None
    else
      match LongestAt(language, s, p, |s|)
      case Some(j) => Some((p, j))
      case None => LeftmostLongest(language, s, p + 1)
  }

  function Compile(name: string, language: string -> bool): Rule {
    Rule(name, language, (s: string, p: nat) => if p <= |s| then LeftmostLongest(language, s, p) else None)
  }

  lemma {:induction false} CompileLawful(name: string, language: string -> bool)
    requires !language("")
    ensures SearchLaw(Compile(name, language))
  {
    var rule := Compile(name, language);
    forall s: string, p: nat | p <= |s| ensures FindsLeftmost(rule, s, p) {
      forall i | 0 <= i <= |s| ensures !language(s[i..i]) {
        assert s[i..i] == "";
      }
    }
  }

  /** Listed in the order they run: the narrower Anthropic pattern before the OpenAI one. */
  function Default(): (r: seq<Rule>)
    ensures |r| == 7
  {
    [Compile("aws-access-key", AwsAccessKey),
     Compile("github-pat", GithubPat),
     Compile("github-pat-fine", GithubPatFine),
     Compile("anthropic-key", AnthropicKey),
     Compile("openai-key", OpenAiKey),
     Compile("slack-token", SlackToken),
     Compile("jwt", Jwt)]
  }

  // ---------- matches and markers keep apart ----------

  /** Letters, digits, dash, underscore and dot: all a match is ever made of. */
  predicate TokenChar(c: char) { DashedWordChar(c) || c == '.' }

  predicate IsToken(m: string) { All(m, TokenChar) }

  lemma {:induction false} SplitToken(m: string, k: nat)
    requires k <= |m| && All(m[..k], TokenChar) && All(m[k..], TokenChar)
    ensures IsToken(m)
  {
    forall i | 0 <= i < |m| ensures TokenChar(m[i]) {
      if i < k { assert m[..k][i] == m[i]; } else { assert m[k..][i - k] == m[i]; }
    }
  }

  lemma {:induction false} JwtIsToken(m: string)
    requires Jwt(m)
    ensures |m| >= 35 && m[0] == 'e' && IsToken(m)
  {
    var a: nat, b: nat :| 13 <= a && a + 11 <= b && b + 11 <= |m| && JwtAt(m, a, b);
    assert m[0] == m[..3][0];
    forall i | 0 <= i < |m| ensures TokenChar(m[i]) {
      if i < 3 {
        assert m[i] == m[..3][i];
      } else if i < a {
        assert m[i] == m[3..a][i - 3];
      } else if a < i < b {
        assert m[i] == m[a + 1..b][i - a - 1];
      } else if i > b {
        assert m[i] == m[b + 1..][i - b - 1];
      }
    }
  }

  /** Every match is a token of at least 15 characters, and one of 15 starts with `x`. */
  ghost predicate LongToken(m: string) {
    IsToken(m) && |m| >= 15 && (|m| == 15 ==> m[0] == 'x')
  }

  lemma {:induction false} MatchesAreLongTokens(k: nat, m: string)
    requires k < 7 && Default()[k].language(m)
    ensures LongToken(m)
  {
    if k == 0 { SplitToken(m, 4); }
    else if k == 1 { SplitToken(m, 4); }
    else if k == 2 { SplitToken(m, 11); }
    else if k == 3 { SplitToken(m, 7); }
    else if k == 4 { SplitToken(m, 3); }
    else if k == 5 {
      assert m[0] == m[..3][0];
      assert m[..5] == m[..3] + [m[3], m[4]];
      SplitToken(m, 5);
    } else { JwtIsToken(m); }
  }

  /** A substring across a character that no token contains is no token. */
  lemma {:induction false} NoTokenAcross(x: string, c: char, y: string, i: nat, j: nat)
    requires !TokenChar(c) && i <= |x| < j <= |x + [c] + y|
    ensures !LongToken((x + [c] + y)[i..j])
  {
    assert (x + [c] + y)[i..j][|x| - i] == c;
  }

  /** A marker holds no long token: its longest bracket- and colon-free piece is a rule name. */
  lemma {:induction false} MarkersHoldNoToken(rule: Rule, i: nat, j: nat)
    requires |rule.name| <= 14 || (|rule.name| == 15 && rule.name[0] != 'x')
    requires i <= j <= |Marker(rule)|
    ensures !LongToken(Marker(rule)[i..j])
  {
    var m := Marker(rule);
    assert m == "[REDACTED" + [':'] + (rule.name + "]");
    assert m == ("[REDACTED:" + rule.name) + [']'] + "";
    if i <= 9 < j {
      NoTokenAcross("[REDACTED", ':', rule.name + "]", i, j);
    } else if i <= |m| - 1 < j {
      NoTokenAcross("[REDACTED:" + rule.name, ']', "", i, j);
    } else if |m[i..j]| == 15 {
      assert m[i..j][0] == rule.name[0];
    }
  }

  lemma {:induction false} DefaultBracketFree(k: nat)
    requires k < 7
    ensures BracketFree(Default()[k])
  {
    forall m | Default()[k].language(m) ensures m != "" && '[' !in m && ']' !in m {
      MatchesAreLongTokens(k, m);
      assert forall i :: 0 <= i < |m| ==> TokenChar(m[i]);
    }
  }

  lemma {:induction false} DefaultNames(k: nat)
    requires k < 7
    ensures var name := Default()[k].name; |name| <= 14 || (|name| == 15 && name[0] != 'x')
  {
  }

  lemma {:induction false} DefaultMarkersClean(k: nat, l: nat)
    requires k < 7 && l < 7
    ensures Clean(Default()[k], Marker(Default()[l]))
  {
    DefaultNames(l);
    var m := Marker(Default()[l]);
    forall i, j | 0 <= i <= j <= |m| ensures !Default()[k].language(m[i..j]) {
      if Default()[k].language(m[i..j]) {
        MatchesAreLongTokens(k, m[i..j]);
        MarkersHoldNoToken(Default()[l], i, j);
      }
    }
  }

  lemma {:induction false} DefaultSearches(k: nat)
    requires k < 7
    ensures SearchLaw(Default()[k])
  {
    if k == 0 { CompileLawful("aws-access-key", AwsAccessKey); }
    else if k == 1 { CompileLawful("github-pat", GithubPat); }
    else if k == 2 { CompileLawful("github-pat-fine", GithubPatFine); }
    else if k == 3 { CompileLawful("anthropic-key", AnthropicKey); }
    else if k == 4 { CompileLawful("openai-key", OpenAiKey); }
    else if k == 5 { CompileLawful("slack-token", SlackToken); }
    else { CompileLawful("jwt", Jwt); }
  }

  /** The shipped rule set meets everything the scrubbing theorems ask for. */
  lemma {:induction false} DefaultIsSeparated()
    ensures Lawful(Default()) && Separated(Default())
  {
    forall k | 0 <= k < 7 ensures SearchLaw(Default()[k]) && BracketFree(Default()[k]) {
      DefaultSearches(k);
      DefaultBracketFree(k);
    }
    forall k, l | 0 <= k < 7 && 0 <= l < 7 ensures Clean(Default()[k], Marker(Default()[l])) {
      DefaultMarkersClean(k, l);
    }
  }

  // ---------- the patterns as they are written ----------

  /** The constructs the shipped patterns are written with. */
  datatype Pattern =
    | Literal(text: string)
    /** `[..]{least,most}` */
    | Chars(class_: char -> bool, least: nat, most: Option<nat>)
    | Then(first: Pattern, second: Pattern)
    | Maybe(inner: Pattern)

  /** What a pattern matches. */
  ghost predicate Accepts(p: Pattern, m: string)
    decreases p, 1
  {
    if p.Literal? then m == p.text
    else if p.Chars? then p.least <= |m| && (p.most.Some? ==> |m| <= p.most.value) && All(m, p.class_)
    else if p.Maybe? then m == "" || Accepts(p.inner, m)
    else exists k: nat :: k <= |m| && AcceptsAt(p, m, k)
  }

  ghost predicate AcceptsAt(p: Pattern, m: string, k: nat)
    requires p.Then? && k <= |m|
    decreases p, 0
  {
    Accepts(p.first, m[..k]) && Accepts(p.second, m[k..])
  }

  /** The pattern of rule `k`, construct by construct. */
  function Written(k: nat): Pattern
    requires k < 7
  {
    if k == 0 then Then(Literal("AKIA"), Chars(UpperOrDigit, 16, Some(16)))
    else if k == 1 then Then(Literal("ghp_"), Chars(Alnum, 36, Some(36)))
    else if k == 2 then Then(Literal("github_pat_"), Chars(WordChar, 80, None))
    else if k == 3 then Then(Literal("sk-ant-"), Chars(DashedWordChar, 20, None))
    else if k == 4 then Then(Literal("sk-"), Then(Maybe(Literal("proj-")), Chars(DashedWordChar, 20, None)))
    else if k == 5 then Then(Literal("xox"), Then(Chars(SlackKind, 1, Some(1)), Then(Literal("-"), Chars(DashedAlnum, 10, None))))
    else Then(Literal("eyJ"), Dotted(Dotted(Segment())))
  }

  function Segment(): Pattern {
    Chars(DashedWordChar, 10, None)
  }

  /** A segment and a dot in front of something. */
  function Dotted(second: Pattern): Pattern {
    Then(Segment(), Then(Literal("."), second))
  }

  lemma {:induction false} ThenSplits(p: Pattern, m: string, k: nat)
    requires p.Then? && k <= |m| && Accepts(p.first, m[..k]) && Accepts(p.second, m[k..])
    ensures Accepts(p, m)
  {
    assert AcceptsAt(p, m, k);
  }

  lemma {:induction false} ThenSplit(p: Pattern, m: string) returns (k: nat)
    requires p.Then? && Accepts(p, m)
    ensures k <= |m| && Accepts(p.first, m[..k]) && Accepts(p.second, m[k..])
  {
    k :| k <= |m| && AcceptsAt(p, m, k);
  }

  /** A literal in front of something is there exactly as long as it is. */
  lemma {:induction false} LiteralThen(text: string, second: Pattern, m: string)
    ensures Accepts(Then(Literal(text), second), m) <==> |text| <= |m| && m[..|text|] == text && Accepts(second, m[|text|..])
  {
    var p := Then(Literal(text), second);
    if Accepts(p, m) { var k := ThenSplit(p, m); }
    if |text| <= |m| && m[..|text|] == text && Accepts(second, m[|text|..]) { ThenSplits(p, m, |text|); }
  }

  lemma {:induction false} MaybeThen(text: string, second: Pattern, m: string)
    ensures Accepts(Then(Maybe(Literal(text)), second), m) <==>
            Accepts(second, m) || (|text| <= |m| && m[..|text|] == text && Accepts(second, m[|text|..]))
  {
    var p := Then(Maybe(Literal(text)), second);
    assert m[0..] == m && m[..0] == "";
    if Accepts(p, m) {
      var k := ThenSplit(p, m);
      assert m[..k] == "" ==> k == 0;
    }
    if Accepts(second, m) { ThenSplits(p, m, 0); }
    if |text| <= |m| && m[..|text|] == text && Accepts(second, m[|text|..]) { ThenSplits(p, m, |text|); }
  }

  lemma {:induction false} OpenAiAsWritten(m: string)
    ensures OpenAiKey(m) <==> Accepts(Written(4), m)
  {
    LiteralThen("sk-", Written(4).second, m);
    if |m| >= 3 {
      var rest := m[3..];
      MaybeThen("proj-", Chars(DashedWordChar, 20, None), rest);
      if |rest| >= 5 && rest[..5] == "proj-" && All(rest[5..], DashedWordChar) {
        forall i | 0 <= i < |rest| ensures DashedWordChar(rest[i]) {
          if i < 5 { assert rest[i] == rest[..5][i]; } else { assert rest[i] == rest[5..][i - 5]; }
        }
      }
    }
  }

  /** One character of a class in front of something. */
  lemma {:induction false} CharThen(class_: char -> bool, second: Pattern, m: string)
    ensures Accepts(Then(Chars(class_, 1, Some(1)), second), m) <==> |m| >= 1 && class_(m[0]) && Accepts(second, m[1..])
  {
    var p := Then(Chars(class_, 1, Some(1)), second);
    if |m| >= 1 && class_(m[0]) && Accepts(second, m[1..]) {
      ThenSplits(p, m, 1);
    }
    if Accepts(p, m) {
      var k := ThenSplit(p, m);
      assert k == 1 && m[..1][0] == m[0];
    }
  }

  lemma {:induction false} SlackAsWritten(m: string)
    ensures SlackToken(m) <==> Accepts(Written(5), m)
  {
    var tail := Then(Literal("-"), Chars(DashedAlnum, 10, None));
    LiteralThen("xox", Then(Chars(SlackKind, 1, Some(1)), tail), m);
    if |m| >= 3 {
      CharThen(SlackKind, tail, m[3..]);
      if |m| >= 4 {
        assert m[3..][1..] == m[4..];
        LiteralThen("-", Chars(DashedAlnum, 10, None), m[4..]);
        if |m| >= 5 { assert m[4..][..1] == [m[4]] && m[4..][1..] == m[5..]; }
      }
    }
  }

  /** A segment, a dot, and something behind it. */
  ghost predicate DotAt(second: Pattern, m: string, a: nat) {
    10 <= a < |m| && All(m[..a], DashedWordChar) && m[a] == '.' && Accepts(second, m[a + 1..])
  }

  lemma {:induction false} DotThen(second: Pattern, m: string, a: nat)
    requires a <= |m|
    ensures Accepts(Then(Literal("."), second), m[a..]) <==> a < |m| && m[a] == '.' && Accepts(second, m[a + 1..])
  {
    LiteralThen(".", second, m[a..]);
    if a < |m| { assert m[a..][..1] == [m[a]] && m[a..][1..] == m[a + 1..]; }
  }

  lemma {:induction false} DotOf(second: Pattern, m: string) returns (a: nat)
    requires Accepts(Dotted(second), m)
    ensures DotAt(second, m, a)
  {
    a := ThenSplit(Dotted(second), m);
    DotThen(second, m, a);
  }

  lemma {:induction false} DotAccepts(second: Pattern, m: string, a: nat)
    requires DotAt(second, m, a)
    ensures Accepts(Dotted(second), m)
  {
    DotThen(second, m, a);
    ThenSplits(Dotted(second), m, a);
  }

  /** Three segments with dots between them; the first dot at `x`, the second `y` behind it. */
  ghost predicate TwoDots(t: string, x: nat, y: nat) {
    10 <= x < |t| && All(t[..x], DashedWordChar) && t[x] == '.' && DotAt(Segment(), t[x + 1..], y)
  }

  lemma {:induction false} InnerSlice(s: string, from: nat, i: nat, j: nat)
    requires from + i <= from + j <= |s|
    ensures s[from..][i..j] == s[from + i..from + j]
  {
  }

  lemma {:induction false} InnerTail(s: string, from: nat, i: nat)
    requires from + i <= |s|
    ensures s[from..][i..] == s[from + i..]
  {
  }

  lemma {:induction false} DotsInJwt(m: string, a: nat, b: nat)
    requires 13 <= a && a + 11 <= b && b + 11 <= |m| && JwtAt(m, a, b)
    ensures TwoDots(m[3..], a - 3, b - a - 1)
  {
    var t, x, y := m[3..], a - 3, b - a - 1;
    InnerSlice(m, 3, 0, x);
    InnerTail(m, 3, x + 1);
    InnerSlice(m, a + 1, 0, y);
    InnerTail(m, a + 1, y + 1);
    assert t[..x] == t[0..x] && m[a + 1..][..y] == m[a + 1..][0..y];
    assert DotAt(Segment(), m[a + 1..], y);
  }

  lemma {:induction false} JwtOfDots(m: string, x: nat, y: nat)
    requires |m| >= 3 && m[..3] == "eyJ" && TwoDots(m[3..], x, y)
    ensures 13 <= x + 3 && x + 3 + 11 <= x + y + 4 && x + y + 4 + 11 <= |m| && JwtAt(m, x + 3, x + y + 4)
  {
    var t, a, b := m[3..], x + 3, x + y + 4;
    InnerSlice(m, 3, 0, x);
    InnerTail(m, 3, x + 1);
    InnerSlice(m, a + 1, 0, y);
    InnerTail(m, a + 1, y + 1);
    assert t[..x] == t[0..x] && m[a + 1..][..y] == m[a + 1..][0..y];
  }

  lemma {:induction false} JwtAccepted(m: string, a: nat, b: nat)
    requires 13 <= a && a + 11 <= b && b + 11 <= |m| && JwtAt(m, a, b)
    ensures Accepts(Dotted(Dotted(Segment())), m[3..])
  {
    DotsInJwt(m, a, b);
    DotAccepts(Segment(), m[3..][a - 3 + 1..], b - a - 1);
    DotAccepts(Dotted(Segment()), m[3..], a - 3);
  }

  lemma {:induction false} DotsOf(t: string) returns (x: nat, y: nat)
    requires Accepts(Dotted(Dotted(Segment())), t)
    ensures TwoDots(t, x, y)
  {
    x := DotOf(Dotted(Segment()), t);
    y := DotOf(Segment(), t[x + 1..]);
  }

  lemma {:induction false} AcceptedJwt(m: string) returns (a: nat, b: nat)
    requires |m| >= 3 && m[..3] == "eyJ" && Accepts(Dotted(Dotted(Segment())), m[3..])
    ensures 13 <= a && a + 11 <= b && b + 11 <= |m| && JwtAt(m, a, b)
  {
    var x, y := DotsOf(m[3..]);
    JwtOfDots(m, x, y);
    a, b := x + 3, x + y + 4;
  }

  lemma {:induction false} JwtIsWritten(m: string)
    requires Jwt(m)
    ensures Accepts(Written(6), m)
  {
    var a: nat, b: nat :| 13 <= a && a + 11 <= b && b + 11 <= |m| && JwtAt(m, a, b);
    JwtAccepted(m, a, b);
    ThenSplits(Written(6), m, 3);
  }

  lemma {:induction false} WrittenIsJwt(m: string)
    requires Accepts(Written(6), m)
    ensures Jwt(m)
  {
    var k := ThenSplit(Written(6), m);
    assert k == 3;
    var a, b := AcceptedJwt(m);
  }

  /** Each shipped rule's language is what its pattern, as it is written, matches. */
  lemma {:induction false} LanguagesAreAsWritten(k: nat, m: string)
    requires k < 7
    ensures Default()[k].language(m) <==> Accepts(Written(k), m)
  {
    if k == 4 {
      OpenAiAsWritten(m);
    } else if k == 5 {
      SlackAsWritten(m);
    } else if k == 6 {
      if Jwt(m) { JwtIsWritten(m); }
      if Accepts(Written(6), m) { WrittenIsJwt(m); }
    } else {
      LiteralThen(Written(k).first.text, Written(k).second, m);
    }
  }

  // ---------- order ----------

  /** What the OpenAI rule gets to see holds no Anthropic key, so none is ever marked as an OpenAI key. */
  lemma {:induction false} AnthropicComesFirst(s: string)
    ensures Lawful(Default()) && Lawful(Default()[..4])
    ensures Default()[3].name == "anthropic-key" && Default()[4].name == "openai-key"
    ensures var seen := Scrub(Default()[..4], s); forall i, j :: 0 <= i <= j <= |seen| ==> !AnthropicKey(seen[i..j])
  {
    DefaultIsSeparated();
    ScrubPrefixClean(Default(), 4, s);
    assert Default()[..4][3] == Default()[3];
    var seen := Scrub(Default()[..4], s);
    forall i, j | 0 <= i <= j <= |seen| ensures !AnthropicKey(seen[i..j]) {
      assert Clean(Default()[..4][3], seen);
      assert Default()[3].language(seen[i..j]) == AnthropicKey(seen[i..j]);
    }
  }
}
