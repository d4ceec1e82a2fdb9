/** The rule matcher (server/tracker/rules.py, `apply_rules`): every rule is
    tried against one block, in list order, and each active rule that matches
    contributes one (field, value_text, 0.85) hit. */
module Rules {
  import opened Common
  import opened Entities
  import opened Glob

  /** The constant confidence of a rule hit; no arithmetic is done on it. */
  const RuleConfidence: real := 0.85

  /** The library calls the matcher makes: `reSearch(pattern, hay)` stands for
      `re.search(pattern, hay, re.I)` finding a match, `classGlob(name, pattern)`
      for fnmatch on a pattern holding a `[...]` class. */
  datatype Matchers = Matchers(reSearch: (string, string) -> bool, classGlob: (string, string) -> bool)

  /** The lowercased "title url file_path" text the contains and regex kinds search. */
  function Haystack(b: Block): string {
    Lower(b.title + " " + b.url + " " + b.filePath)
  }

  /** The `hit` expression of the loop body. */
  predicate Matches(b: Block, r: Rule, m: Matchers) {
    || (r.kind == "contains" && Occurs(Lower(r.pattern), Haystack(b)))
    || (r.kind == "regex" && m.reSearch(r.pattern, Haystack(b)))
    || (r.kind == "glob" && (Fnmatch(b.url, r.pattern, m.classGlob) || Fnmatch(b.filePath, r.pattern, m.classGlob)))
  }

  function HitOf(r: Rule): Hit {
    Hit(r.field, r.valueText, RuleConfidence)
  }

  /** What one rule contributes to the output. */
  function Emit(b: Block, r: Rule, m: Matchers): seq<Hit> {
    if Matches(b, r, m) && r.active then [HitOf(r)] else []
  }

  /** The output of `apply_rules(b, rules)`, one rule at a time from the front. */
  function RuleHits(b: Block, rules: seq<Rule>, m: Matchers): seq<Hit>
    decreases |rules|
  {
    if |rules| == 0 then [] else RuleHits(b, rules[..|rules| - 1], m) + Emit(b, rules[|rules| - 1], m)
  }

  /** `apply_rules`: the for loop appending to `out`. */
  method ApplyRules(b: Block, rules: seq<Rule>, m: Matchers) returns (out: seq<Hit>)
    ensures out == RuleHits(b, rules, m)
  {
    out := [];
    var i := 0;
    while i < |rules|
      invariant 0 <= i <= |rules|
      invariant out == RuleHits(b, rules[..i], m)
    {
      var r := rules[i];
      var pat := Lower(r.pattern);
      var hay := Haystack(b);
      var hit := (r.kind == "contains" && Occurs(pat, hay))
        || (r.kind == "regex" && m.reSearch(r.pattern, hay))
        || (r.kind == "glob" && (Fnmatch(b.url, r.pattern, m.classGlob) || Fnmatch(b.filePath, r.pattern, m.classGlob)));
      if hit && r.active {
        out := out + [HitOf(r)];
      }
      assert rules[..i + 1][..i] == rules[..i];
      i := i + 1;
    }
    assert rules[..|rules|] == rules;
  }

  /** The output for `R1 + R2` is the output for R1 followed by that for R2. */
  lemma {:induction false} RuleHitsAppend(b: Block, r1: seq<Rule>, r2: seq<Rule>, m: Matchers)
    ensures RuleHits(b, r1 + r2, m) == RuleHits(b, r1, m) + RuleHits(b, r2, m)
    decreases |r2|
  {
    if |r2| == 0 {
      assert r1 + r2 == r1;
    } else {
      var r2i := r2[..|r2| - 1];
      var last := Emit(b, r2[|r2| - 1], m);
      assert (r1 + r2)[..|r1 + r2| - 1] == r1 + r2i;
      assert (r1 + r2)[|r1 + r2| - 1] == r2[|r2| - 1];
      RuleHitsAppend(b, r1, r2i, m);
      assert RuleHits(b, r1 + r2, m) == (RuleHits(b, r1, m) + RuleHits(b, r2i, m)) + last;
      assert RuleHits(b, r2, m) == RuleHits(b, r2i, m) + last;
    }
  }

  /** At most one hit per rule. */
  lemma {:induction false} RuleHitsLength(b: Block, rules: seq<Rule>, m: Matchers)
    ensures |RuleHits(b, rules, m)| <= |rules|
    decreases |rules|
  {
    if |rules| > 0 {
      RuleHitsLength(b, rules[..|rules| - 1], m);
    }
  }

  /** A hit is emitted exactly for the active rules that match, and it carries
      that rule's field and value text with confidence 0.85. */
  lemma {:induction false} RuleHitsMembers(b: Block, rules: seq<Rule>, m: Matchers, h: Hit)
    ensures h in RuleHits(b, rules, m) <==>
      exists i :: 0 <= i < |rules| && rules[i].active && Matches(b, rules[i], m) && h == HitOf(rules[i])
    decreases |rules|
  {
    if |rules| > 0 {
      var init := rules[..|rules| - 1];
      RuleHitsMembers(b, init, m, h);
      if exists i :: 0 <= i < |rules| && rules[i].active && Matches(b, rules[i], m) && h == HitOf(rules[i]) {
        var i :| 0 <= i < |rules| && rules[i].active && Matches(b, rules[i], m) && h == HitOf(rules[i]);
        if i < |init| {
          assert init[i] == rules[i];
        }
      }
      if h in RuleHits(b, init, m) {
        var i :| 0 <= i < |init| && init[i].active && Matches(b, init[i], m) && h == HitOf(init[i]);
        assert rules[i] == init[i];
      }
    }
  }

  /** Inactive rules never contribute, whatever their pattern: the output is
      that of the active rules alone. */
  lemma {:induction false} InactiveRulesIgnored(b: Block, rules: seq<Rule>, m: Matchers)
    ensures RuleHits(b, rules, m) == RuleHits(b, ActiveOnly(rules), m)
    decreases |rules|
  {
    if |rules| > 0 {
      var init := rules[..|rules| - 1];
      var last := rules[|rules| - 1];
      InactiveRulesIgnored(b, init, m);
      assert rules == init + [last];
      ActiveOnlyAppend(init, [last]);
      RuleHitsAppend(b, ActiveOnly(init), ActiveOnly([last]), m);
      if last.active {
        assert ActiveOnly([last]) == [last];
      } else {
        assert ActiveOnly([last]) == [];
      }
      assert [last][..0] == [];
      assert RuleHits(b, [last], m) == Emit(b, last, m);
    }
  }

  predicate IsActive(r: Rule) {
    r.active
  }

  /** The active rules, in their order: `filter(active=True)`. */
  function ActiveOnly(rules: seq<Rule>): seq<Rule> {
    Filter(rules, IsActive)
  }

  lemma ActiveOnlyAppend(r1: seq<Rule>, r2: seq<Rule>)
    ensures ActiveOnly(r1 + r2) == ActiveOnly(r1) + ActiveOnly(r2)
  {
    FilterAppend(r1, r2, IsActive);
  }

  /** A contains rule matches iff its lowercased pattern occurs in the
      lowercased "title url file_path" text. */
  lemma ContainsRuleMatches(b: Block, r: Rule, m: Matchers)
    requires r.kind == "contains"
    ensures Matches(b, r, m) <==>
      exists k :: 0 <= k <= |Haystack(b)| && IsPrefix(Lower(r.pattern), Haystack(b)[k..])
  {
    OccursAt(Lower(r.pattern), Haystack(b));
  }

  /** A glob rule looks at the raw url and file path only: the title never
      changes its outcome, and a match on either field is enough. */
  lemma GlobRuleIgnoresTitle(b: Block, r: Rule, m: Matchers, title: string)
    requires r.kind == "glob"
    ensures Matches(b.(title := title), r, m) == Matches(b, r, m)
    ensures Matches(b, r, m) <==> Fnmatch(b.url, r.pattern, m.classGlob) || Fnmatch(b.filePath, r.pattern, m.classGlob)
  {
  }

  /** A rule of any other kind never matches. */
  lemma UnknownKindNeverMatches(b: Block, rules: seq<Rule>, m: Matchers)
    requires forall i :: 0 <= i < |rules| ==> rules[i].kind !in {"contains", "regex", "glob"}
    ensures RuleHits(b, rules, m) == []
  {
    if RuleHits(b, rules, m) != [] {
      var h := RuleHits(b, rules, m)[0];
      RuleHitsMembers(b, rules, m, h);
    }
  }

  /** A contains rule "github.com" matches a block whose url is a GitHub url. */
  lemma ContainsExample(b: Block, m: Matchers)
    requires b.url == "https://github.com/org/repo"
    ensures Matches(b, Rule(None, "github.com", "client", "Acme", "contains", true), m)
  {
    var text := b.title + " " + b.url + " " + b.filePath;
    var k := |b.title| + 1;
    SliceOfConcat(b.title + " ", b.url, " " + b.filePath);
    assert text == (b.title + " ") + b.url + (" " + b.filePath);
    GithubHost();
    assert text[k + 8..k + 18] == b.url[8..18];
    LowerSlice(text, k + 8, k + 18);
    LowerGithub();
    assert Haystack(b)[k + 8..][..10] == Haystack(b)[k + 8..k + 18];
    OccursAt("github.com", Haystack(b));
  }

  lemma SliceOfConcat(a: string, s: string, c: string)
    ensures (a + s + c)[|a|..|a| + |s|] == s
  {
  }

  lemma GithubHost()
    ensures "https://github.com/org/repo"[8..18] == "github.com"
  {
  }

  lemma LowerGithub()
    ensures Lower("github.com") == "github.com"
  {
  }

  lemma LowerSlice(s: string, i: nat, j: nat)
    requires i <= j <= |s|
    ensures Lower(s)[i..j] == Lower(s[i..j])
  {
  }

}
