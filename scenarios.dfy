/** Concrete runs of the model: the merge of a short morning of events, the
    two ways a block is split, a glob rule on a path, and the cap on stored
    suggestions. */
module Scenarios {
  import opened Common
  import opened Entities
  import opened Labels
  import opened Compactor
  import opened Glob
  import opened Rules
  import opened StoreSpec

  /** h:m on the day of the example, in microseconds. */
  function At(h: nat, m: nat): Time {
    (h * 60 + m) * MinuteUs
  }

  function UrlEvent(ts: Time, url: string): RawEvent {
    RawEvent(ts, None, None, None, Some(url), None, None, None)
  }

  function AppEvent(ts: Time, app: string, title: Option<string>): RawEvent {
    RawEvent(ts, Some(app), None, title, None, None, None, None)
  }

  /** Two visits to a Google document four minutes apart, then Slack sixteen
      minutes later: one 6-minute block for the document, one for the channel. */
  lemma DocsThenSlack(hostOf: string -> string)
    requires hostOf("https://docs.google.com/x") == "docs.google.com"
    ensures var ivs := Compact([UrlEvent(At(9, 0), "https://docs.google.com/x"),
                                UrlEvent(At(9, 4), "https://docs.google.com/x"),
                                AppEvent(At(9, 20), "Slack", Some("#general"))], Scope(None, None), hostOf);
      && |ivs| == 2
      && ivs[0].start == At(9, 0) && ivs[0].end == At(9, 4) && ivs[0].title == "docs.google.com"
      && ivs[1].start == At(9, 20) && ivs[1].end == At(9, 20) && ivs[1].title == "#general"
      && BlockMinutes(ivs[0].start, ivs[0].end) == 6
      && BlockMinutes(ivs[1].start, ivs[1].end) == 6
  {
    var e1 := UrlEvent(At(9, 0), "https://docs.google.com/x");
    var e2 := UrlEvent(At(9, 4), "https://docs.google.com/x");
    var e3 := AppEvent(At(9, 20), "Slack", Some("#general"));
    var sc := Scope(None, None);
    var evs := [e1, e2, e3];
    assert Label(e1, hostOf) == "docs.google.com";
    assert Label(e3, hostOf) == "#general";
    assert [e1][..0] == [];
    assert evs[..2][..1] == [e1];
    assert evs[..2] == [e1, e2];
    assert Run([], sc, hostOf) == Acc([], None);
    assert Step(None, e1, sc, hostOf) == (None, Open(e1, "docs.google.com", sc));
    var a1 := Run([e1], sc, hostOf);
    assert a1 == Acc([], Some(Open(e1, "docs.google.com", sc)));
    var a2 := Run(evs[..2], sc, hostOf);
    assert a2 == Acc([], Some(Open(e1, "docs.google.com", sc).(end := At(9, 4))));
    assert evs[..3] == evs;
    var a3 := Run(evs, sc, hostOf);
    assert a3 == Acc([Open(e1, "docs.google.com", sc).(end := At(9, 4))], Some(Open(e3, "#general", sc)));
    ShortBlocksGetTheFloor(At(9, 0), At(9, 4));
    ShortBlocksGetTheFloor(At(9, 20), At(9, 20));
  }

  /** Same label at 0, 5 and 20 minutes: the 15-minute gap closes the first
      block at 5 minutes and opens a second one at 20. */
  lemma GapSplitsBlock(hostOf: string -> string)
    ensures var ivs := Compact([AppEvent(At(0, 0), "A", None), AppEvent(At(0, 5), "A", None),
                                AppEvent(At(0, 20), "A", None)], Scope(None, None), hostOf);
      && |ivs| == 2
      && ivs[0].start == At(0, 0) && ivs[0].end == At(0, 5)
      && ivs[1].start == At(0, 20) && ivs[1].title == ivs[0].title == "A"
  {
    var e1 := AppEvent(At(0, 0), "A", None);
    var e2 := AppEvent(At(0, 5), "A", None);
    var e3 := AppEvent(At(0, 20), "A", None);
    var sc := Scope(None, None);
    var evs := [e1, e2, e3];
    assert Label(e1, hostOf) == "A" && Label(e2, hostOf) == "A" && Label(e3, hostOf) == "A";
    assert [e1][..0] == [];
    assert evs[..2][..1] == [e1];
    assert evs[..2] == [e1, e2];
    assert Run([e1], sc, hostOf) == Acc([], Some(Open(e1, "A", sc)));
    assert Run(evs[..2], sc, hostOf) == Acc([], Some(Open(e1, "A", sc).(end := At(0, 5))));
    assert evs[..3] == evs;
    assert Run(evs, sc, hostOf) == Acc([Open(e1, "A", sc).(end := At(0, 5))], Some(Open(e3, "A", sc)));
  }

  /** A label change one minute later splits the block, however small the gap. */
  lemma LabelChangeSplitsBlock(hostOf: string -> string)
    ensures var ivs := Compact([AppEvent(At(0, 0), "A", None), AppEvent(At(0, 1), "B", None)],
                               Scope(None, None), hostOf);
      && |ivs| == 2 && ivs[0].title == "A" && ivs[1].title == "B"
  {
    var e1 := AppEvent(At(0, 0), "A", None);
    var e2 := AppEvent(At(0, 1), "B", None);
    var sc := Scope(None, None);
    var evs := [e1, e2];
    assert Label(e1, hostOf) == "A" && Label(e2, hostOf) == "B";
    assert [e1][..0] == [];
    assert evs[..1] == [e1];
    assert Run([e1], sc, hostOf) == Acc([], Some(Open(e1, "A", sc)));
    assert Run(evs, sc, hostOf) == Acc([Open(e1, "A", sc)], Some(Open(e2, "B", sc)));
  }

  const PdfRule := Rule(None, "*.pdf", "project", "Papers", "glob", true)

  /** A glob rule "*.pdf" fires on a block whose file path ends in ".pdf",
      and not on a block that has only a url. */
  lemma GlobPdfRule(b1: Block, b2: Block, m: Matchers)
    requires b1.filePath == "/Users/x/doc.pdf"
    requires b2.url == "https://example.com/a" && b2.filePath == ""
    ensures RuleHits(b1, [PdfRule], m) == [Hit("project", "Papers", RuleConfidence)]
    ensures RuleHits(b2, [PdfRule], m) == []
  {
    PdfGlob(m.classGlob);
    GlobRuleIgnoresTitle(b1, PdfRule, m, b1.title);
    GlobRuleIgnoresTitle(b2, PdfRule, m, b2.title);
    SingleRule(b1, PdfRule, m);
    SingleRule(b2, PdfRule, m);
  }

  lemma SingleRule(b: Block, r: Rule, m: Matchers)
    ensures RuleHits(b, [r], m) == (if Matches(b, r, m) && r.active then [HitOf(r)] else [])
  {
    assert [r][..0] == [];
  }

  /** "*.pdf" against the path, the url and the empty string. */
  lemma PdfGlob(classGlob: (string, string) -> bool)
    ensures Fnmatch("/Users/x/doc.pdf", PdfRule.pattern, classGlob)
    ensures !Fnmatch("https://example.com/a", PdfRule.pattern, classGlob)
    ensures !Fnmatch("", PdfRule.pattern, classGlob)
  {
    var name := "/Users/x/doc.pdf";
    var url := "https://example.com/a";
    assert name[|name| - 4..] == ".pdf";
    PdfNotSuffix(url);
    assert "*.pdf" == "*" + ".pdf";
    StarThenLiteral(".pdf", name);
    StarThenLiteral(".pdf", url);
    StarThenLiteral(".pdf", "");
  }

  lemma PdfNotSuffix(url: string)
    requires url == "https://example.com/a"
    ensures !IsSuffix(".pdf", url)
  {
    assert url[|url| - 4..] == "om/a";
  }

  /** Five active rules that all match give exactly the first three as
      stored suggestions, in rule order. */
  lemma FiveRulesThreeSuggestions(b: Block, rs: seq<Rule>, m: Matchers)
    requires |rs| == 5
    requires forall i :: 0 <= i < 5 ==> rs[i].active && Matches(b, rs[i], m)
    ensures |SuggestionsFor(b, rs, m)| == 3
    ensures forall i :: 0 <= i < 3 ==>
      SuggestionsFor(b, rs, m)[i] == Suggestion(b.id, rs[i].field, rs[i].valueText, RuleConfidence, RuleSource)
  {
    AllMatchHits(b, rs, m);
    SuggestionsForArePrefix(b, rs, m);
  }

  /** When every rule is active and matches, each rule contributes its hit. */
  lemma {:induction false} AllMatchHits(b: Block, rs: seq<Rule>, m: Matchers)
    requires forall i :: 0 <= i < |rs| ==> rs[i].active && Matches(b, rs[i], m)
    ensures |RuleHits(b, rs, m)| == |rs|
    ensures forall i :: 0 <= i < |rs| ==> RuleHits(b, rs, m)[i] == HitOf(rs[i])
    decreases |rs|
  {
    if |rs| > 0 {
      AllMatchHits(b, rs[..|rs| - 1], m);
    }
  }
}
