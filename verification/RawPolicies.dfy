/** What a policy with raw text leaves in sites-enabled/default: the text itself, in the policy's
    place, and, where it can be read, what it says. */
module RawPolicies {
  import opened Wrappers
  import opened Text
  import opened Specs
  import opened Sanitize
  import opened Conditions
  import opened Unlang
  import opened Sites
  import opened SiteMeaning

  // ---------------------------------------------------------------- texts that can be read

  /** A text can be read in one way only. */
  lemma ReadsUnique(prec: Precedence, text: string, a: seq<Item>, b: seq<Item>)
    requires Reads(prec, text, a) && Reads(prec, text, b)
    ensures a == b
  {
    var end := "}\n";
    assert Skip(end) == end && Strip(end, "}\n") == Some("");
    assert ParseItems(prec, end) == Some(([], ""));
    assert ParseItems(prec, text + ("\n" + end)) == Some((a + [], "")) == Some((b + [], ""));
    assert a + [] == a && b + [] == b;
  }

  /** A single word is read as the statement that it is. */
  lemma WordReads(prec: Precedence, word: string)
    requires ValidIdentifier(word) && WordStmt(word).Some?
    ensures Reads(prec, word, [Plain(WordStmt(word).value)])
  {
    forall rest
      ensures ParseItems(prec, word + ("\n" + rest)) == Before([Plain(WordStmt(word).value)], ParseItems(prec, rest))
    {
      var s := word + ("\n" + rest);
      WordLine(word, rest);
      assert Skip(s) == s;
      WordIsNotBlock(word, rest);
      assert ParseItem(prec, s) == Some((Plain(WordStmt(word).value), rest));
    }
  }

  /** Texts that can be read one by one can be read line after line. */
  lemma LinesRead(prec: Precedence, a: string, x: seq<Item>, b: string, y: seq<Item>)
    requires Reads(prec, a, x) && Reads(prec, b, y)
    ensures Reads(prec, a + ("\n" + b), x + y)
  {
    hide ParseItems;
    forall rest
      ensures ParseItems(prec, (a + ("\n" + b)) + ("\n" + rest)) == Before(x + y, ParseItems(prec, rest))
    {
      Push3(a, "\n", b, "\n" + rest);
      var others := ParseItems(prec, rest);
      assert ParseItems(prec, a + ("\n" + (b + ("\n" + rest)))) == Before(x, ParseItems(prec, b + ("\n" + rest)));
      if others.Some? {
        assert x + (y + others.value.0) == (x + y) + others.value.0;
      }
    }
  }

  /** A raw policy whose text is `reject` rejects every request that comes as far as it. */
  lemma RawRejectRejects<S>(prec: Precedence, w: World<S>, raw: Reading, p: PolicySpec, others: seq<PolicySpec>, st: S)
    requires p.rawConfig == "reject" && Printable(prec, raw, p) && !w.halted(st)
    ensures RunPolicies(w, raw, [p] + others, st) == RunPolicies(w, raw, others, w.act(st, RejectRequest))
  {
    WordReads(prec, "reject");
    ReadsUnique(prec, "reject", raw("reject"), [Plain(Reject)]);
    assert ValidIdentifier("reject") && WordStmt("reject") == Some(Reject);
    assert ([p] + others)[1..] == others && [Plain(Reject)][1..] == [] && [Reject][1..] == [];
    assert RunStmts(w, [Reject], st) == w.act(st, RejectRequest) by {
      assert RunStmts(w, [Reject][1..], w.act(st, StmtEffect(Reject))) == w.act(st, StmtEffect(Reject));
    }
    assert RunItems(w, [Plain(Reject)], st) == RunItems(w, [Plain(Reject)][1..], RunStmts(w, [Reject], st));
  }

  // ---------------------------------------------------------------- any text

  /** The same policies, with other raw text in this place. */
  function WithRaw(arr: Arrangement, stage: string, i: nat, text: string): Arrangement
    requires i < |AtStage(arr, stage)|
  {
    var ps := AtStage(arr, stage);
    arr[stage := ps[i := ps[i].(rawConfig := text)]]
  }

  /** Whatever raw text is put in this place, it stands in the file between these two texts. */
  ghost predicate Place(arr: Arrangement, coa: bool, stage: string, i: nat, before: string, after: string)
    requires i < |AtStage(arr, stage)|
  {
    forall text | text != "" :: SitesText(WithRaw(arr, stage, i, text), coa) == before + (text + ("\n" + after))
  }

  lemma {:induction false} PoliciesConcat(a: seq<PolicySpec>, b: seq<PolicySpec>)
    ensures PoliciesText(a + b) == PoliciesText(a) + PoliciesText(b)
    decreases |a|
  {
    if a == [] {
      assert a + b == b;
    } else {
      assert (a + b)[1..] == a[1..] + b;
      PoliciesConcat(a[1..], b);
      Assoc(PolicyText(a[0]), PoliciesText(a[1..]), PoliciesText(b));
    }
  }

  lemma {:induction false} StagesConcat(arr: Arrangement, a: seq<string>, b: seq<string>)
    ensures StagesText(arr, a + b) == StagesText(arr, a) + StagesText(arr, b)
    decreases |a|
  {
    if a == [] {
      assert a + b == b;
    } else {
      assert (a + b)[1..] == a[1..] + b;
      StagesConcat(arr, a[1..], b);
      Assoc(SectionText(a[0], PoliciesText(AtStage(arr, a[0]))), StagesText(arr, a[1..]), StagesText(arr, b));
    }
  }

  function BodyBefore(ps: seq<PolicySpec>, i: nat): string
    requires i < |ps|
  {
    PoliciesText(ps[..i]) + EIGHT
  }

  lemma BodyAround(ps: seq<PolicySpec>, i: nat, text: string)
    requires i < |ps| && text != ""
    ensures PoliciesText(ps[i := ps[i].(rawConfig := text)]) ==
            BodyBefore(ps, i) + (text + ("\n" + PoliciesText(ps[i + 1..])))
  {
    var p := ps[i].(rawConfig := text);
    var others := PoliciesText(ps[i + 1..]);
    assert ps[i := p] == ps[..i] + ([p] + ps[i + 1..]);
    PoliciesConcat(ps[..i], [p] + ps[i + 1..]);
    assert ([p] + ps[i + 1..])[1..] == ps[i + 1..];
    assert PoliciesText([p] + ps[i + 1..]) == PolicyText(p) + others;
    Push3(EIGHT, text, "\n", others);
    Assoc(PoliciesText(ps[..i]), EIGHT, text + ("\n" + others));
  }

  lemma SectionAround(name: string, before: string, text: string, after: string, rest: string)
    ensures SectionText(name, before + (text + ("\n" + after))) + rest ==
            (FOUR + (name + (" {\n" + before))) + (text + ("\n" + (after + (FOUR + ("}\n" + rest)))))
  {
    var inner := text + ("\n" + after);
    SectionPeels(name, before + inner, rest);
    Assoc(before, inner, FOUR + ("}\n" + rest));
    Push3(text, "\n", after, FOUR + ("}\n" + rest));
    Push4(FOUR, name, " {\n", before, text + ("\n" + (after + (FOUR + ("}\n" + rest)))));
  }

  lemma StagesAround(arr: Arrangement, stages: seq<string>, k: nat, i: nat, text: string, rest: string)
    requires NoRepeats(stages) && k < |stages| && i < |AtStage(arr, stages[k])| && text != ""
    ensures var ps := AtStage(arr, stages[k]);
            StagesText(WithRaw(arr, stages[k], i, text), stages) + rest ==
            (StagesText(arr, stages[..k]) + (FOUR + (stages[k] + (" {\n" + BodyBefore(ps, i))))) +
            (text + ("\n" + (PoliciesText(ps[i + 1..]) + (FOUR + ("}\n" + (StagesText(arr, stages[k + 1..]) + rest))))))
  {
    var ps, brr := AtStage(arr, stages[k]), WithRaw(arr, stages[k], i, text);
    var others := StagesText(arr, stages[k + 1..]);
    assert stages == stages[..k] + ([stages[k]] + stages[k + 1..]);
    StagesConcat(brr, stages[..k], [stages[k]] + stages[k + 1..]);
    assert ([stages[k]] + stages[k + 1..])[1..] == stages[k + 1..];
    SameStagesSameText(arr, brr, stages[..k]);
    SameStagesSameText(arr, brr, stages[k + 1..]);
    BodyAround(ps, i, text);
    var body := PoliciesText(AtStage(brr, stages[k]));
    assert StagesText(brr, [stages[k]] + stages[k + 1..]) == SectionText(stages[k], body) + others;
    Assoc(StagesText(arr, stages[..k]), SectionText(stages[k], body) + others, rest);
    Assoc(SectionText(stages[k], body), others, rest);
    SectionAround(stages[k], BodyBefore(ps, i), text, PoliciesText(ps[i + 1..]), others + rest);
    Assoc(StagesText(arr, stages[..k]), FOUR + (stages[k] + (" {\n" + BodyBefore(ps, i))),
          text + ("\n" + (PoliciesText(ps[i + 1..]) + (FOUR + ("}\n" + (others + rest))))));
  }

  function Opening(): string {
    HeaderLine() + ("\n" + (WarningLine() + ("\n" + ("\n" + ("server " + ("default" + " {\n"))))))
  }

  lemma FileAround(arr: Arrangement, coa: bool)
    ensures SitesText(arr, coa) == Opening() + (StagesText(arr, STAGES) + ("}\n" + if coa then CoAText() else ""))
  {
    var rest := StagesText(arr, STAGES) + ("}\n" + if coa then CoAText() else "");
    hide HeaderLine, WarningLine;
    Push3("server ", "default", " {\n", rest);
    Push6(HeaderLine(), "\n", WarningLine(), "\n", "\n", "server " + ("default" + " {\n"), rest);
  }

  function LineOf(arr: Arrangement, stage: string, i: nat): string
    requires i < |AtStage(arr, stage)|
  {
    FOUR + (stage + (" {\n" + BodyBefore(AtStage(arr, stage), i)))
  }

  lemma TextStands(arr: Arrangement, coa: bool, k: nat, i: nat, text: string, end: string)
    requires k < |STAGES| && i < |AtStage(arr, STAGES[k])| && text != ""
    requires end == "}\n" + if coa then CoAText() else ""
    ensures SitesText(WithRaw(arr, STAGES[k], i, text), coa) ==
            ((Opening() + StagesText(arr, STAGES[..k])) + LineOf(arr, STAGES[k], i)) +
            (text + ("\n" + (PoliciesText(AtStage(arr, STAGES[k])[i + 1..]) +
                             (FOUR + ("}\n" + (StagesText(arr, STAGES[k + 1..]) + end))))))
  {
    hide Opening, StagesText, PoliciesText, SitesText, CoAText, BodyBefore, WithRaw;
    var line := LineOf(arr, STAGES[k], i);
    var rest := text + ("\n" + (PoliciesText(AtStage(arr, STAGES[k])[i + 1..]) +
                                (FOUR + ("}\n" + (StagesText(arr, STAGES[k + 1..]) + end)))));
    StagesDistinct();
    StagesAround(arr, STAGES, k, i, text, end);
    FileAround(WithRaw(arr, STAGES[k], i, text), coa);
    Assoc(Opening(), StagesText(arr, STAGES[..k]) + line, rest);
    Assoc(Opening(), StagesText(arr, STAGES[..k]), line);
  }

  /** The text ends behind the opening of the section of a stage, for its first policy right behind it. */
  ghost predicate InSection(before: string, stage: string, i: nat) {
    exists opening, body ::
      before == opening + (FOUR + (stage + (" {\n" + body))) && (i == 0 ==> body == "        ")
  }

  lemma FirstBody(ps: seq<PolicySpec>)
    requires |ps| > 0
    ensures BodyBefore(ps, 0) == "        "
  {
    assert ps[..0] == [];
    assert PoliciesText([]) + EIGHT == EIGHT;
  }

  lemma PlaceIs(arr: Arrangement, coa: bool, k: nat, i: nat, before: string, after: string)
    requires k < |STAGES| && i < |AtStage(arr, STAGES[k])|
    requires before == (Opening() + StagesText(arr, STAGES[..k])) + LineOf(arr, STAGES[k], i)
    requires after == PoliciesText(AtStage(arr, STAGES[k])[i + 1..]) +
                      (FOUR + ("}\n" + (StagesText(arr, STAGES[k + 1..]) + ("}\n" + if coa then CoAText() else ""))))
    ensures Place(arr, coa, STAGES[k], i, before, after) && InSection(before, STAGES[k], i)
  {
    hide Opening, StagesText, PoliciesText, SitesText, CoAText, BodyBefore, WithRaw, AtStage;
    FirstBody(AtStage(arr, STAGES[k]));
    forall text | text != ""
      ensures SitesText(WithRaw(arr, STAGES[k], i, text), coa) == before + (text + ("\n" + after))
    {
      TextStands(arr, coa, k, i, text, "}\n" + if coa then CoAText() else "");
    }
  }

  /** Raw text stands in the file unchanged, on a line of its own, in a place that does not depend on
      it: in the section of its policy's stage, right at its top if the policy is the first. What the
      file is read as with readable text in that place, PlaceInStage says. */
  lemma RawTextStands(arr: Arrangement, coa: bool, stage: string, i: nat)
    requires stage in STAGES && i < |AtStage(arr, stage)|
    ensures exists before, after :: InSection(before, stage, i) && Place(arr, coa, stage, i, before, after)
  {
    hide Place, InSection, LineOf, Opening, StagesText, PoliciesText, CoAText, AtStage;
    var k :| 0 <= k < |STAGES| && STAGES[k] == stage;
    var before := (Opening() + StagesText(arr, STAGES[..k])) + LineOf(arr, STAGES[k], i);
    var after := PoliciesText(AtStage(arr, STAGES[k])[i + 1..]) +
                 (FOUR + ("}\n" + (StagesText(arr, STAGES[k + 1..]) + ("}\n" + if coa then CoAText() else ""))));
    PlaceIs(arr, coa, k, i, before, after);
  }

  lemma ItemsAround(raw: Reading, ps: seq<PolicySpec>, i: nat, text: string)
    requires i < |ps| && text != ""
    ensures PolicyItems(raw, ps[i := ps[i].(rawConfig := text)]) ==
            PolicyItems(raw, ps[..i]) + (raw(text) + PolicyItems(raw, ps[i + 1..]))
  {
    var p := ps[i].(rawConfig := text);
    assert ps[i := p] == ps[..i] + ([p] + ps[i + 1..]);
    ItemsConcat(raw, ps[..i], [p] + ps[i + 1..]);
    assert ([p] + ps[i + 1..])[1..] == ps[i + 1..];
  }

  /** The place is the policy's: where a text that can be read stands in it, the file is read with what
      the text says behind what the policies before it say, and in front of what those after it say. */
  lemma PlaceInStage(prec: Precedence, raw: Reading, arr: Arrangement, coa: bool, stage: string, i: nat, text: string,
                     before: string, after: string)
    requires stage in STAGES && i < |AtStage(arr, stage)| && text != "" && Place(arr, coa, stage, i, before, after)
    requires StagesPrintable(prec, raw, WithRaw(arr, stage, i, text), STAGES)
    requires StagesClear(WithRaw(arr, stage, i, text), STAGES)
    ensures var brr := WithRaw(arr, stage, i, text);
            && ParseServers(prec, before + (text + ("\n" + after))) == Some(Compiled(raw, brr, coa))
            && PolicyItems(raw, AtStage(brr, stage)) ==
               PolicyItems(raw, AtStage(arr, stage)[..i]) + (raw(text) + PolicyItems(raw, AtStage(arr, stage)[i + 1..]))
  {
    hide ParseServers, SitesText, Compiled, StagesPrintable, StagesClear, PolicyItems;
    SitesRoundTrip(prec, raw, WithRaw(arr, stage, i, text), coa);
    ItemsAround(raw, AtStage(arr, stage), i, text);
  }

  lemma {:induction false} ItemsConcat(raw: Reading, a: seq<PolicySpec>, b: seq<PolicySpec>)
    ensures PolicyItems(raw, a + b) == PolicyItems(raw, a) + PolicyItems(raw, b)
    decreases |a|
  {
    if a == [] {
      assert a + b == b;
    } else {
      assert (a + b)[1..] == a[1..] + b;
      ItemsConcat(raw, a[1..], b);
      assert ItemsOf(raw, a[0]) + (PolicyItems(raw, a[1..]) + PolicyItems(raw, b)) ==
             PolicyItems(raw, a) + PolicyItems(raw, b);
    }
  }
}
