/**
 `RedactionEngine::scrub_text`: replace every match of every rule, rule after rule, by a marker
 `[REDACTED:<name>]`. A rule set whose matches contain no brackets and whose markers contain no
 match leaves nothing to find, and the default rule set is one.
 */
module Redaction {
  import opened Wrappers

  /**
   A redaction rule. `language` is the set of strings the pattern matches (patterns here have no
   anchors or look-around, so a match depends on nothing outside it); `find` is the engine's search
   for the leftmost match starting at or after a position.
   */
  datatype Rule = Rule(name: string, language: string -> bool, find: (string, nat) -> Option<(nat, nat)>)

  /** No match of the rule starts in `s[from..to]`. */
  ghost predicate NoneStarts(rule: Rule, s: string, from: nat, to: nat)
    requires to <= |s|
  {
    forall i, j :: from <= i < to && i <= j <= |s| ==> !rule.language(s[i..j])
  }

  /** A search hit is a non-empty match with none before it; a miss means there is none. */
  ghost predicate FindsLeftmost(rule: Rule, s: string, p: nat)
    requires p <= |s|
  {
    match rule.find(s, p)
    case Some((i, j)) => p <= i < j <= |s| && rule.language(s[i..j]) && NoneStarts(rule, s, p, i)
    case None => NoneStarts(rule, s, p, |s|)
  }

  ghost predicate SearchLaw(rule: Rule) {
    forall s: string, p: nat :: p <= |s| ==> FindsLeftmost(rule, s, p)
  }

  /** No substring of `s` is a match. */
  ghost predicate Clean(rule: Rule, s: string) {
    forall i, j :: 0 <= i <= j <= |s| ==> !rule.language(s[i..j])
  }

  function Marker(rule: Rule): (m: string)
    ensures |m| >= 2 && m[0] == '[' && m[|m| - 1] == ']'
  {
    "[REDACTED:" + rule.name + "]"
  }

  /** `replace_all` from position `p`: leftmost, non-overlapping matches. */
  function ReplaceFrom(rule: Rule, s: string, p: nat): string
    requires SearchLaw(rule) && p <= |s|
    decreases |s| - p
  {
    assert FindsLeftmost(rule, s, p);
    match rule.find(s, p)
    case None => s[p..]
    case Some((i, j)) => s[p..i] + (Marker(rule) + ReplaceFrom(rule, s, j))
  }

  // ---------- one replacement ----------

  ghost predicate BracketFree(rule: Rule) {
    forall m :: rule.language(m) ==> m != "" && '[' !in m && ']' !in m
  }

  /** A match cannot cross a boundary marked by a bracket. */
  lemma {:induction false} CleanAcross(rule: Rule, x: string, y: string)
    requires BracketFree(rule) && Clean(rule, x) && Clean(rule, y)
    requires (y != "" && y[0] == '[') || (x != "" && x[|x| - 1] == ']')
    ensures Clean(rule, x + y)
  {
    forall i, j | 0 <= i <= j <= |x + y| ensures !rule.language((x + y)[i..j]) {
      var m := (x + y)[i..j];
      if j <= |x| {
        assert m == x[i..j];
      } else if i >= |x| {
        assert m == y[i - |x|..j - |x|];
      } else {
        var at := if y[0] == '[' then |x| else |x| - 1;
        assert m[at - i] == (x + y)[at];
      }
    }
  }

  lemma {:induction false} SliceOfSlice(s: string, p: nat, q: nat, i: nat, j: nat)
    requires p <= q <= |s| && i <= j <= q - p
    ensures s[p..q][i..j] == s[p + i..p + j]
  {
    var a, b := s[p..q][i..j], s[p + i..p + j];
    assert |a| == |b| && forall k :: 0 <= k < |a| ==> a[k] == b[k];
  }

  lemma {:induction false} CleanPart(rule: Rule, s: string, p: nat, q: nat)
    requires p <= q <= |s| && (Clean(rule, s) || (BracketFree(rule) && NoneStarts(rule, s, p, q)))
    ensures Clean(rule, s[p..q])
  {
    forall i, j | 0 <= i <= j <= |s[p..q]| ensures !rule.language(s[p..q][i..j]) {
      SliceOfSlice(s, p, q, i, j);
    }
  }

  /** Replacing by `rule` leaves a text clean of `other`, if it was, or if `other` is `rule` itself. */
  lemma {:induction false} ReplaceLeavesClean(rule: Rule, other: Rule, s: string, p: nat)
    requires SearchLaw(rule) && BracketFree(other) && Clean(other, Marker(rule)) && p <= |s|
    requires other == rule || Clean(other, s)
    ensures Clean(other, ReplaceFrom(rule, s, p))
    decreases |s| - p
  {
    assert FindsLeftmost(rule, s, p);
    match rule.find(s, p) {
      case None =>
        CleanPart(other, s, p, |s|);
        assert s[p..|s|] == s[p..];
      case Some((i, j)) =>
        CleanPart(other, s, p, i);
        ReplaceLeavesClean(rule, other, s, j);
        CleanAcross(other, Marker(rule), ReplaceFrom(rule, s, j));
        CleanAcross(other, s[p..i], Marker(rule) + ReplaceFrom(rule, s, j));
    }
  }

  lemma {:induction false} ReplaceNothing(rule: Rule, s: string)
    requires SearchLaw(rule) && Clean(rule, s)
    ensures rule.find(s, 0).None? && ReplaceFrom(rule, s, 0) == s
  {
    assert FindsLeftmost(rule, s, 0);
    assert s[0..] == s;
  }

  // ---------- the whole rule set ----------

  ghost predicate Lawful(rules: seq<Rule>) {
    forall k :: 0 <= k < |rules| ==> SearchLaw(rules[k])
  }

  /** What the rule set is designed for: bracket-free matches, and markers that contain no match. */
  ghost predicate Separated(rules: seq<Rule>) {
    && (forall k :: 0 <= k < |rules| ==> BracketFree(rules[k]))
    && (forall k, l :: 0 <= k < |rules| && 0 <= l < |rules| ==> Clean(rules[k], Marker(rules[l])))
  }

  /** The text after every rule ran in turn. */
  function Scrub(rules: seq<Rule>, s: string): string
    requires Lawful(rules)
  {
    if rules == [] then s
    else ReplaceFrom(rules[|rules| - 1], Scrub(rules[..|rules| - 1], s), 0)
  }

  ghost predicate AllClean(rules: seq<Rule>, s: string) {
    forall k :: 0 <= k < |rules| ==> Clean(rules[k], s)
  }

  lemma {:induction false} ScrubPrefixClean(rules: seq<Rule>, n: nat, s: string)
    requires Lawful(rules) && Separated(rules) && n <= |rules|
    ensures AllClean(rules[..n], Scrub(rules[..n], s))
  {
    if n > 0 {
      ScrubPrefixClean(rules, n - 1, s);
      assert rules[..n][..n - 1] == rules[..n - 1];
      var before := Scrub(rules[..n - 1], s);
      forall k | 0 <= k < n ensures Clean(rules[k], ReplaceFrom(rules[n - 1], before, 0)) {
        if k < n - 1 { assert rules[..n - 1][k] == rules[k]; }
        assert Clean(rules[k], Marker(rules[n - 1]));
        ReplaceLeavesClean(rules[n - 1], rules[k], before, 0);
      }
    }
  }

  /** After scrubbing, no rule matches anywhere. */
  lemma {:induction false} ScrubLeavesNothing(rules: seq<Rule>, s: string)
    requires Lawful(rules) && Separated(rules)
    ensures AllClean(rules, Scrub(rules, s))
  {
    ScrubPrefixClean(rules, |rules|, s);
    assert rules[..|rules|] == rules;
  }

  lemma {:induction false} CleanIsKept(rules: seq<Rule>, s: string)
    requires Lawful(rules) && AllClean(rules, s)
    ensures Scrub(rules, s) == s
  {
    if rules != [] {
      var n := |rules| - 1;
      assert AllClean(rules[..n], s);
      CleanIsKept(rules[..n], s);
      ReplaceNothing(rules[n], s);
    }
  }

  /** A text is left as it is iff it holds no match. */
  lemma {:induction false} ScrubFixesExactlyClean(rules: seq<Rule>, s: string)
    requires Lawful(rules) && Separated(rules)
    ensures Scrub(rules, s) == s <==> AllClean(rules, s)
  {
    ScrubLeavesNothing(rules, s);
    if AllClean(rules, s) { CleanIsKept(rules, s); }
  }

  /** Scrubbing again changes nothing. */
  lemma {:induction false} ScrubTwice(rules: seq<Rule>, s: string)
    requires Lawful(rules) && Separated(rules)
    ensures Scrub(rules, Scrub(rules, s)) == Scrub(rules, s)
  {
    ScrubLeavesNothing(rules, s);
    CleanIsKept(rules, Scrub(rules, s));
  }

  // ---------- what is kept ----------

  /** `pieces` with `between` in the gaps. */
  function Woven(pieces: seq<string>, between: seq<string>): string
    requires |pieces| == |between| + 1
  {
    if between == [] then pieces[0] else pieces[0] + (between[0] + Woven(pieces[1..], between[1..]))
  }

  function Copies(text: string, n: nat): (r: seq<string>)
    ensures |r| == n && forall i :: 0 <= i < n ==> r[i] == text
  {
    seq(n, _ => text)
  }

  /** No part of `piece` is a match. */
  ghost predicate NoMatchIn(rule: Rule, piece: string) {
    forall i, j :: 0 <= i < j <= |piece| ==> !rule.language(piece[i..j])
  }

  /** `before` is `pieces` with `matches` in the gaps, and `after` the same pieces with markers in the gaps. */
  ghost predicate ReplacedIn(rule: Rule, before: string, after: string, pieces: seq<string>, matches: seq<string>) {
    && |pieces| == |matches| + 1
    && before == Woven(pieces, matches)
    && after == Woven(pieces, Copies("[REDACTED:" + rule.name + "]", |matches|))
    && (forall i :: 0 <= i < |matches| ==> matches[i] != "" && rule.language(matches[i]))
    && (forall i :: 0 <= i < |pieces| ==> NoMatchIn(rule, pieces[i]))
  }

  /** Matches of the rule are replaced by its marker; the text around them is kept, and holds no match. */
  ghost predicate Replaced(rule: Rule, before: string, after: string) {
    exists pieces, matches :: ReplacedIn(rule, before, after, pieces, matches)
  }

  lemma {:induction false} NoMatchInPart(rule: Rule, s: string, p: nat, q: nat)
    requires p <= q <= |s| && NoneStarts(rule, s, p, q)
    ensures NoMatchIn(rule, s[p..q])
  {
    forall i, j | 0 <= i < j <= |s[p..q]| ensures !rule.language(s[p..q][i..j]) {
      SliceOfSlice(s, p, q, i, j);
    }
  }

  lemma {:induction false} WovenCons(piece: string, gap: string, pieces: seq<string>, between: seq<string>)
    requires |pieces| == |between| + 1
    ensures Woven([piece] + pieces, [gap] + between) == piece + (gap + Woven(pieces, between))
  {
    assert ([piece] + pieces)[1..] == pieces && ([gap] + between)[1..] == between;
  }

  /** One more piece and match in front. */
  lemma {:induction false} ReplacedCons(rule: Rule, before: string, after: string, pieces: seq<string>, matches: seq<string>, piece: string, m: string)
    requires ReplacedIn(rule, before, after, pieces, matches) && NoMatchIn(rule, piece) && m != "" && rule.language(m)
    ensures ReplacedIn(rule, piece + (m + before), piece + (Marker(rule) + after), [piece] + pieces, [m] + matches)
  {
    var n := |matches|;
    WovenCons(piece, m, pieces, matches);
    WovenCons(piece, Marker(rule), pieces, Copies(Marker(rule), n));
    assert Copies(Marker(rule), n + 1) == [Marker(rule)] + Copies(Marker(rule), n);
  }

  lemma {:induction false} ReplaceKeepsTheRest(rule: Rule, s: string, p: nat) returns (pieces: seq<string>, matches: seq<string>)
    requires SearchLaw(rule) && p <= |s|
    ensures ReplacedIn(rule, s[p..], ReplaceFrom(rule, s, p), pieces, matches)
    decreases |s| - p
  {
    assert FindsLeftmost(rule, s, p);
    match rule.find(s, p) {
      case None =>
        pieces, matches := [s[p..]], [];
        NoMatchInPart(rule, s, p, |s|);
        assert s[p..|s|] == s[p..];
      case Some((i, j)) =>
        pieces, matches := ReplaceKeepsTheRest(rule, s, j);
        NoMatchInPart(rule, s, p, i);
        ReplacedCons(rule, s[j..], ReplaceFrom(rule, s, j), pieces, matches, s[p..i], s[i..j]);
        pieces, matches := [s[p..i]] + pieces, [s[i..j]] + matches;
        assert s[p..] == s[p..i] + (s[i..j] + s[j..]);
    }
  }

  /** `texts` leads from one text to another, rule after rule. */
  ghost predicate Leads(rules: seq<Rule>, texts: seq<string>, before: string, after: string) {
    && |texts| == |rules| + 1 && texts[0] == before && texts[|rules|] == after
    && forall k :: 0 <= k < |rules| ==> Replaced(rules[k], texts[k], texts[k + 1])
  }

  ghost predicate Redacted(rules: seq<Rule>, before: string, after: string) {
    exists texts :: Leads(rules, texts, before, after)
  }

  lemma {:induction false} LeadsOn(rules: seq<Rule>, texts: seq<string>, before: string, mid: string, after: string)
    requires rules != [] && Leads(rules[..|rules| - 1], texts, before, mid) && Replaced(rules[|rules| - 1], mid, after)
    ensures Leads(rules, texts + [after], before, after)
  {
    var n, all := |rules| - 1, texts + [after];
    forall k | 0 <= k < |rules| ensures Replaced(rules[k], all[k], all[k + 1]) {
      if k < n { assert Replaced(rules[..n][k], texts[k], texts[k + 1]); }
    }
  }

  /** Scrubbing cuts out matches and puts in markers, rule after rule, and keeps all the text around them. */
  lemma {:induction false} ScrubKeepsTheRest(rules: seq<Rule>, s: string)
    requires Lawful(rules)
    ensures Redacted(rules, s, Scrub(rules, s))
  {
    if rules == [] {
      assert Leads(rules, [s], s, s);
    } else {
      var n := |rules| - 1;
      var mid := Scrub(rules[..n], s);
      ScrubKeepsTheRest(rules[..n], s);
      var texts :| Leads(rules[..n], texts, s, mid);
      var pieces, matches := ReplaceKeepsTheRest(rules[n], mid, 0);
      assert mid[0..] == mid;
      assert Replaced(rules[n], mid, Scrub(rules, s));
      LeadsOn(rules, texts, s, mid, Scrub(rules, s));
    }
  }

  // ---------- hit counters ----------

  /** How many rules called `name` fired while `s` was scrubbed. A rule fires at most once per text. */
  function Fired(rules: seq<Rule>, s: string, name: string): nat
    requires Lawful(rules)
  {
    if rules == [] then 0
    else
      var last := rules[|rules| - 1];
      Fired(rules[..|rules| - 1], s, name)
      + if last.name == name && last.find(Scrub(rules[..|rules| - 1], s), 0).Some? then 1 else 0
  }

  function Count(counters: map<string, nat>, name: string): nat {
    if name in counters then counters[name] else 0
  }

  class RedactionEngine {
    const rules: seq<Rule>
    var counters: map<string, nat>

    constructor (rules: seq<Rule>)
      ensures this.rules == rules && counters == map[]
    {
      this.rules, counters := rules, map[];
    }

    /** `scrub_text`: the rules in order, each replacing all its matches and bumping its counter once. */
    method ScrubText(s: string) returns (out: string)
      requires Lawful(rules)
      modifies this
      ensures out == Scrub(rules, s) && Redacted(rules, s, out)
      ensures forall name :: Count(counters, name) == Count(old(counters), name) + Fired(rules, s, name)
    {
      out := s;
      for k := 0 to |rules|
        invariant out == Scrub(rules[..k], s)
        invariant forall name :: Count(counters, name) == Count(old(counters), name) + Fired(rules[..k], s, name)
      {
        var rule := rules[k];
        assert rules[..k + 1][..k] == rules[..k];
        assert FindsLeftmost(rule, out, 0);
        if rule.find(out, 0).Some? {
          out := ReplaceFrom(rule, out, 0);
          counters := counters[rule.name := if rule.name in counters then counters[rule.name] + 1 else 1];
        } else {
          assert out[0..] == out;
        }
      }
      assert rules[..|rules|] == rules;
      ScrubKeepsTheRest(rules, s);
    }
  }
}
