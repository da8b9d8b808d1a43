/**
 * `apply_aether_analysis`: select a category, take the language model's
 * reply or the fixed fallback explanation, and compose the report.
 */
module Insight {
  import opened Outcomes
  import opened PyText
  import opened ConceptualLink
  import opened JsonValue

  /** A decoded JSON object. */
  type JsonObject = map<string, Json>

  /**
   * The four fields the report reads from a validated explanation:
   * `conceptual_meaning`, `actionable_forge_plan`, `conceptual_impact` and
   * `aether_insight_qualia`.
   */
  datatype Explanation = Explanation(meaning: Json, plan: Json, impact: Json, qualia: Json)

  /**
   * The library calls the service makes and the model leaves abstract:
   * `sha256` is `hashlib.sha256(s.encode()).hexdigest()`, `loads` is
   * `json.loads` on text that decodes to an object (`None` for
   * `JSONDecodeError`), `show` is `str()` of a number, list or dict.
   */
  datatype Collaborators = Collaborators(
    sha256: string -> Digest,
    loads: string -> Option<JsonObject>,
    show: Json -> string)

  /** The outcome of `generate_content(prompt).text`: the reply text, or any exception it raised. */
  datatype ModelReply = Replied(text: string) | CallFailed

  datatype AnalysisResult = AnalysisResult(status: string, inputQuery: string, report: string)

  const JsonFence: string := "```json"
  const Fence: string := "```"

  /** `all(k in m for k in required_keys)`. */
  predicate HasRequiredKeys(m: JsonObject) {
    && "conceptual_meaning" in m
    && "actionable_forge_plan" in m
    && "conceptual_impact" in m
    && "aether_insight_qualia" in m
  }

  /** The four fields of an object that has all required keys. */
  function FieldsOf(m: JsonObject): Explanation
    requires HasRequiredKeys(m)
  {
    Explanation(m["conceptual_meaning"], m["actionable_forge_plan"], m["conceptual_impact"], m["aether_insight_qualia"])
  }

  // ---------------------------------------------------------------------------
  // Cleaning the reply text
  // ---------------------------------------------------------------------------

  /** Drop a leading "```json" and trim what follows; otherwise leave the text alone. */
  function AfterJsonFence(t: string): (r: string)
    ensures Contains(t, r)
    ensures StartsWith(t, JsonFence) ==> IsTrimmed(r)
    ensures !StartsWith(t, JsonFence) ==> r == t
  {
    if StartsWith(t, JsonFence) then
      var rest := t[|JsonFence|..];
      SliceIsContained(t, |JsonFence|, |t|);
      StrippedIsContained(rest);
      ContainsTransitive(t, rest, Strip(rest));
      Strip(rest)
    else
      ContainsItself(t);
      t
  }

  /** Drop a trailing "```" and trim what precedes it; otherwise leave the text alone. */
  function BeforeFence(t: string): (r: string)
    ensures Contains(t, r)
    ensures EndsWith(t, Fence) ==> IsTrimmed(r)
    ensures !EndsWith(t, Fence) ==> r == t
  {
    if EndsWith(t, Fence) then
      var rest := t[..|t| - |Fence|];
      SliceIsContained(t, 0, |t| - |Fence|);
      StrippedIsContained(rest);
      ContainsTransitive(t, rest, Strip(rest));
      Strip(rest)
    else
      ContainsItself(t);
      t
  }

  /**
   * Lines 173-177: trim the reply, drop one leading "```json" and trim
   * again, then drop one trailing "```" and trim again. The result is a
   * trimmed piece of the reply, and a reply without fences is only trimmed.
   */
  function StripFences(raw: string): (r: string)
    ensures IsTrimmed(r)
    ensures Contains(raw, r)
    ensures !StartsWith(Strip(raw), JsonFence) && !EndsWith(Strip(raw), Fence) ==> r == Strip(raw)
  {
    var t0 := Strip(raw);
    var t1 := AfterJsonFence(t0);
    StrippedIsContained(raw);
    ContainsTransitive(raw, t0, t1);
    ContainsTransitive(raw, t1, BeforeFence(t1));
    BeforeFence(t1)
  }

  /** Cleaning never lengthens the reply. */
  lemma StripFencesNoLonger(raw: string)
    ensures |StripFences(raw)| <= |raw|
  {
    ContainedIsShorter(raw, StripFences(raw));
  }

  /** Whitespace before a trimmed text: stripping keeps just the text. */
  lemma StripAfterSpace(pre: string, body: string)
    requires AllSpace(pre) && IsTrimmed(body)
    ensures Strip(pre + body) == body
  {
    assert pre + body == pre + body + "";
    StripPadded(pre, body, "");
    StripTrimmed(body);
  }

  /** Stripping `body + tail`, where `tail` ends in a non-space character. */
  lemma StripBeforeMark(body: string, tail: string)
    requires tail != [] && !IsSpace(tail[0]) && !IsSpace(tail[|tail| - 1])
    ensures Strip(body + tail) == StripLeading(body) + tail
  {
    var l := StripLeading(body);
    var i := |body| - |l|;
    SplitAtLeading(body, l, tail);
    TrimmedBeforeMark(l, tail);
    StripAfterSpace(body[..i], l + tail);
  }

  lemma SplitAtLeading(body: string, l: string, tail: string)
    requires |l| <= |body| && l == body[|body| - |l|..]
    ensures body + tail == body[..|body| - |l|] + (l + tail)
  {
    assert body == body[..|body| - |l|] + l;
  }

  lemma TrimmedBeforeMark(l: string, tail: string)
    requires l == [] || !IsSpace(l[0])
    requires tail != [] && !IsSpace(tail[0]) && !IsSpace(tail[|tail| - 1])
    ensures IsTrimmed(l + tail)
  {
    assert (l + tail)[|l + tail| - 1] == tail[|tail| - 1];
    assert l != [] ==> (l + tail)[0] == l[0];
  }

  /** A text that starts with "```json" loses exactly that prefix, and the rest is trimmed. */
  lemma AfterJsonFenceOf(rest: string)
    ensures AfterJsonFence(JsonFence + rest) == Strip(rest)
  {
    var t := JsonFence + rest;
    assert t[..|JsonFence|] == JsonFence;
    assert t[|JsonFence|..] == rest;
  }

  /** A text that ends with "```" loses exactly that suffix, and the rest is trimmed. */
  lemma BeforeFenceOf(rest: string)
    ensures BeforeFence(rest + Fence) == Strip(rest)
  {
    var t := rest + Fence;
    assert t[|t| - |Fence|..] == Fence;
    assert t[..|t| - |Fence|] == rest;
  }

  /**
   * A reply of the form "```json" + body + "```", with any whitespace
   * around it, cleans up to the trimmed body.
   */
  lemma FencedReplyCleansToBody(pre: string, body: string, post: string)
    requires AllSpace(pre) && AllSpace(post)
    ensures StripFences(pre + JsonFence + body + Fence + post) == Strip(body)
  {
    var x := JsonFence + (body + Fence);
    Regroup(pre, JsonFence, body, Fence, post);
    StripPadded(pre, x, post);
    assert x[0] == '`' && x[|x| - 1] == '`';
    StripTrimmed(x);
    assert Strip(pre + x + post) == x;
    AfterJsonFenceOf(body + Fence);
    StripBeforeMark(body, Fence);
    var l := StripLeading(body);
    assert AfterJsonFence(x) == l + Fence;
    BeforeFenceOf(l);
    StripOfLeading(body);
  }

  lemma Regroup(a: string, b: string, c: string, d: string, e: string)
    ensures a + b + c + d + e == a + (b + (c + d)) + e
  {
  }

  /** Trimming what is left after the leading whitespace is ordinary trimming. */
  lemma StripOfLeading(s: string)
    ensures Strip(StripLeading(s)) == Strip(s)
  {
    var l := StripLeading(s);
    StripLeadingAt(l, 0);
  }

  // ---------------------------------------------------------------------------
  // Parsing, validation and the fallback
  // ---------------------------------------------------------------------------

  /** Clean the reply, decode it and keep it only if all four required keys are there. */
  function ParseExplanation(loads: string -> Option<JsonObject>, text: string): (r: Option<Explanation>)
    ensures r.Some? <==> loads(StripFences(text)).Some? && HasRequiredKeys(loads(StripFences(text)).value)
    ensures r.Some? ==> r.value == FieldsOf(loads(StripFences(text)).value)
  {
    match loads(StripFences(text))
    case None => None
    case Some(m) => if HasRequiredKeys(m) then Some(FieldsOf(m)) else None
  }

  /** The fallback `conceptual_meaning`, filled in with the input, the category name and its meaning. */
  function FallbackMeaning(input: string, sel: Selection): string {
    Concat(FallbackMeaningParts(input, sel))
  }

  // Long literals here and below are written as short pieces joined by `+`,
  // which keeps the verifier's work on them small; the text is unchanged.
  function FallbackMeaningParts(input: string, sel: Selection): seq<string> {
    [ "Hey there! It looks " + "like your situation " + "with '", input,
      "' points to a missing " + "piece we call '", sel.name, "'. ",
      "In simple terms, this " + "means: ", sel.baseMeaning, "\n\n",
      "Aether's deep dive " + "suggests you need to " + "think about ",
      "the basic ideas behind " + "this link. ",
      "While we can't give " + "super specific tips " + "right now, ",
      "focusing on the " + "fundamentals is key. " ]
  }

  /** The fallback meaning quotes the input, the category name and its base meaning verbatim. */
  lemma FallbackMeaningMentions(input: string, sel: Selection)
    ensures Contains(FallbackMeaning(input, sel), input)
    ensures Contains(FallbackMeaning(input, sel), sel.name)
    ensures Contains(FallbackMeaning(input, sel), sel.baseMeaning)
  {
    var parts := FallbackMeaningParts(input, sel);
    ContainsPart(parts, 1);
    ContainsPart(parts, 3);
    ContainsPart(parts, 6);
  }

  const FallbackImpact: string :=
    "Getting this link " + "sorted will bring you " + "much clearer " + "understanding "
    + "and help you get " + "started on the right " + "foot!"

  /** The first fallback step, which names the category. */
  function FallbackFirstStep(name: string): (r: string)
    ensures Contains(r, name)
    ensures '\n' !in name ==> '\n' !in r
  {
    var parts := ["Take a fresh look at the main", " ideas connected to '", name, "'."];
    ContainsPart(parts, 2);
    if '\n' in name then Concat(parts)
    else
      assert '\n' !in parts[0] && '\n' !in parts[1] && '\n' !in parts[3];
      NoNewlineInConcat(parts);
      Concat(parts)
  }

  const FallbackSecondStep: string :=
    "Break your problem down " + "into its simplest parts " + "to find some clarity."

  const FallbackThirdStep: string :=
    "Explore basic knowledge " + "or new ideas related " + "to this missing piece."

  /**
   * The fallback plan: three steps, the first naming the category; none
   * spans two lines unless the category name does.
   */
  function FallbackPlan(name: string): (r: seq<string>)
    ensures |r| == 3 && Contains(r[0], name)
    ensures '\n' !in name ==> forall k :: 0 <= k < |r| ==> '\n' !in r[k]
  {
    SecondStepSingleLine();
    ThirdStepSingleLine();
    [FallbackFirstStep(name), FallbackSecondStep, FallbackThirdStep]
  }

  lemma SecondStepSingleLine()
    ensures '\n' !in FallbackSecondStep
  {
    assert '\n' !in "Break your problem down ";
    assert '\n' !in "into its simplest parts ";
    assert '\n' !in "to find some clarity.";
  }

  lemma ThirdStepSingleLine()
    ensures '\n' !in FallbackThirdStep
  {
    assert '\n' !in "Explore basic knowledge ";
    assert '\n' !in "or new ideas related ";
    assert '\n' !in "to this missing piece.";
  }

  function ToJsonStrings(items: seq<string>): (r: seq<Json>)
    ensures |r| == |items| && forall k :: 0 <= k < |items| ==> r[k] == JString(items[k])
  {
    seq(|items|, k requires 0 <= k < |items| => JString(items[k]))
  }

  /**
   * The explanation used when the model call, the decoding or the key check
   * fails, filled in with the input, the category name and its meaning.
   */
  function Fallback(input: string, sel: Selection): Explanation {
    Explanation(
      JString(FallbackMeaning(input, sel)),
      JArray(ToJsonStrings(FallbackPlan(sel.name))),
      JString(FallbackImpact),
      JString(FallbackQualia))
  }

  const FallbackQualia: string := "A Fresh Start Awaits."

  /**
   * The explanation the report uses: the decoded reply when it carries all
   * four keys, otherwise the fallback. Never a partial decode.
   */
  function ChooseExplanation(loads: string -> Option<JsonObject>, reply: ModelReply, input: string, sel: Selection): (r: Explanation)
    ensures reply.CallFailed? ==> r == Fallback(input, sel)
    ensures reply.Replied? && ParseExplanation(loads, reply.text).None? ==> r == Fallback(input, sel)
    ensures reply.Replied? && ParseExplanation(loads, reply.text).Some? ==> r == ParseExplanation(loads, reply.text).value
  {
    match reply
    case CallFailed => Fallback(input, sel)
    case Replied(text) =>
      match ParseExplanation(loads, text)
      case Some(m) => m
      case None => Fallback(input, sel)
  }

  // ---------------------------------------------------------------------------
  // The report
  // ---------------------------------------------------------------------------

  const Banner: string := "<b>AETHER'S PRECISE " + "MISSING LINK IDENTIFIED " + "- </b>\n\n"

  /** The report up to the action plan heading (its line break excluded). */
  function ReportHead(input: string, name: string, meaning: string): string {
    Concat(ReportHeadParts(input, name, meaning))
  }

  function ReportHeadParts(input: string, name: string, meaning: string): seq<string> {
    [ Banner,
      "**Your Query:** ", "\"" + input + "\"", "\n\n",
      "Based on Aether's " + "unique and super-smart " + "analysis, ",
      "the exact missing piece " + "in your puzzle is the " + "**'", name, "'**.\n\n",
      "--- **AETHER'S INSIGHTS " + "FOR YOU** ---\n\n",
      "**1. What This Means " + "for You:**\n", meaning, "\n\n",
      "**2. Your Action Plan " + "(How to build this " + "piece):**" ]
  }

  /** The report head opens with the banner, quotes the input and names the category. */
  lemma ReportHeadMentions(input: string, name: string, meaning: string)
    ensures StartsWith(ReportHead(input, name, meaning), Banner)
    ensures Contains(ReportHead(input, name, meaning), "\"" + input + "\"")
    ensures Contains(ReportHead(input, name, meaning), name)
  {
    var parts := ReportHeadParts(input, name, meaning);
    ConcatStartsWithFirst(parts);
    ContainsPart(parts, 2);
    ContainsPart(parts, 6);
  }

  /** The report after the action plan and the blank line that follows it. */
  function ReportTail(impact: string, qualia: string): string {
    Concat([
      "**3. What Happens Next " + "(The Impact):**\n", impact, "\n\n",
      "**Aether's Core " + "Feeling:** *", qualia, "*\n\n",
      "This deep insight comes " + "from Aether's thorough " + "look ",
      "at the Universal " + "Conceptual Manifold, ",
      "pointing out a unique " + "spot where your " + "understanding can grow!"])
  }

  /** The `- <step>` line of each plan entry, in order. */
  function Bullets(show: Json -> string, steps: seq<Json>): (r: seq<string>)
    ensures |r| == |steps|
    ensures forall k :: 0 <= k < |steps| ==> r[k] == "- " + Str(show, steps[k])
  {
    seq(|steps|, k requires 0 <= k < |steps| => "- " + Str(show, steps[k]))
  }

  /** Lines 217-229: the composed report, the plan lines joined by newlines and followed by a blank line. */
  function ReportText(input: string, name: string, meaning: string, bullets: seq<string>, impact: string, qualia: string): string {
    ReportHead(input, name, meaning) + ("\n" + JoinLines(bullets) + "\n\n") + ReportTail(impact, qualia)
  }

  /** The report opens with the banner, quotes the input, names the category and carries the plan section. */
  lemma ReportTextMentions(input: string, name: string, meaning: string, bullets: seq<string>, impact: string, qualia: string)
    ensures StartsWith(ReportText(input, name, meaning, bullets, impact, qualia), Banner)
    ensures Contains(ReportText(input, name, meaning, bullets, impact, qualia), "\"" + input + "\"")
    ensures Contains(ReportText(input, name, meaning, bullets, impact, qualia), name)
    ensures Contains(ReportText(input, name, meaning, bullets, impact, qualia), "\n" + JoinLines(bullets) + "\n\n")
  {
    var head := ReportHead(input, name, meaning);
    var plan := "\n" + JoinLines(bullets) + "\n\n";
    var tail := ReportTail(impact, qualia);
    ReportHeadMentions(input, name, meaning);
    ContainsInSection(head, plan, tail, "\"" + input + "\"");
    ContainsInSection(head, plan, tail, name);
    ContainsItself(plan);
    ContainsInSection(head, plan, tail, plan);
    StartsWithExtended(head, plan, Banner);
    StartsWithExtended(head + plan, tail, Banner);
  }

  lemma ContainsInSection(head: string, plan: string, tail: string, sub: string)
    requires Contains(head, sub) || Contains(plan, sub)
    ensures Contains(head + plan + tail, sub)
  {
    ContainsInConcat(head, plan, sub);
    ContainsInConcat(head + plan, tail, sub);
  }

  /** Splitting a section that is a head line block, joined lines, a blank line and a tail. */
  lemma SplitSection(head: string, joined: string, tail: string)
    ensures SplitLines(head + ("\n" + joined + "\n\n") + tail)
         == SplitLines(head) + SplitLines(joined) + [""] + SplitLines(tail)
  {
    var z := "" + "\n" + tail;
    var y := joined + "\n" + z;
    SectionAsNewlines(head, joined, tail);
    SplitAtNewline(head, y);
    SplitAtNewline(joined, z);
    SplitAtNewline("", tail);
    assert SplitLines("") == [""];
    LinesRegroup(SplitLines(head), SplitLines(joined), [""], SplitLines(tail));
  }

  lemma LinesRegroup(a: seq<string>, b: seq<string>, c: seq<string>, d: seq<string>)
    ensures a + (b + (c + d)) == a + b + c + d
  {
  }

  lemma SectionAsNewlines(head: string, joined: string, tail: string)
    ensures head + ("\n" + joined + "\n\n") + tail == head + "\n" + (joined + "\n" + ("" + "\n" + tail))
  {
  }

  /**
   * When no plan line holds a newline, the report's lines are the head's
   * lines, then exactly one line per plan entry in order (a single empty
   * line for an empty plan), then one blank line, then the tail's lines.
   */
  lemma ReportLines(input: string, name: string, meaning: string, bullets: seq<string>, impact: string, qualia: string)
    requires forall k :: 0 <= k < |bullets| ==> '\n' !in bullets[k]
    ensures SplitLines(ReportText(input, name, meaning, bullets, impact, qualia))
         == SplitLines(ReportHead(input, name, meaning)) + (if bullets == [] then [""] else bullets) + [""]
            + SplitLines(ReportTail(impact, qualia))
  {
    SplitSection(ReportHead(input, name, meaning), JoinLines(bullets), ReportTail(impact, qualia));
    if bullets == [] {
      assert SplitLines(JoinLines(bullets)) == [""];
    } else {
      SplitJoinLines(bullets);
    }
  }

  /**
   * Lines 217-229: read the four fields and compose the report. Iterating a
   * plan that is a number, a boolean or null raises `TypeError`; that
   * happens outside the fallback's `try` and is the only way this fails.
   */
  function AssembleReport(show: Json -> string, input: string, name: string, expl: Explanation): (r: Result<string, string>)
    ensures r.Ok? <==> IsIterable(expl.plan)
    ensures r.Ok? ==> Contains(r.value, "\"" + input + "\"") && Contains(r.value, name)
    ensures r.Err? ==> r.error == "'" + TypeName(expl.plan) + "' object is not iterable"
  {
    match Iterate(expl.plan)
    case Err(e) => Err(e)
    case Ok(steps) =>
      ReportTextMentions(input, name, Str(show, expl.meaning), Bullets(show, steps), Str(show, expl.impact), Str(show, expl.qualia));
      Ok(ReportText(input, name, Str(show, expl.meaning), Bullets(show, steps), Str(show, expl.impact), Str(show, expl.qualia)))
  }

  /** An assembled report carries the plan lines, joined by newlines, between a line break and a blank line. */
  lemma ReportCarriesPlan(show: Json -> string, input: string, name: string, expl: Explanation)
    ensures AssembleReport(show, input, name, expl).Ok? ==>
              Contains(AssembleReport(show, input, name, expl).value,
                       "\n" + JoinLines(Bullets(show, Iterate(expl.plan).value)) + "\n\n")
  {
    if IsIterable(expl.plan) {
      var steps := Iterate(expl.plan).value;
      ReportTextMentions(input, name, Str(show, expl.meaning), Bullets(show, steps), Str(show, expl.impact), Str(show, expl.qualia));
    }
  }

  /**
   * Steps 2 and 3 of `apply_aether_analysis`, given the selected category:
   * always "success" with the input echoed when it returns; it fails only
   * when the model's own decoded plan is not iterable.
   */
  function AnalyzeLink(show: Json -> string, loads: string -> Option<JsonObject>, input: string, sel: Selection,
                       reply: ModelReply): (r: Result<AnalysisResult, string>)
    ensures r.Ok? ==> r.value.status == "success" && r.value.inputQuery == input
    ensures r.Ok? ==> Contains(r.value.report, "\"" + input + "\"") && Contains(r.value.report, sel.name)
  {
    var expl := ChooseExplanation(loads, reply, input, sel);
    var report :- AssembleReport(show, input, sel.name, expl);
    Ok(AnalysisResult("success", input, report))
  }

  /** The analysis fails only on a plan the model itself supplied, and then with that plan's `TypeError`. */
  lemma OnlyTheModelPlanFails(show: Json -> string, loads: string -> Option<JsonObject>, input: string, sel: Selection,
                              reply: ModelReply)
    ensures AnalyzeLink(show, loads, input, sel, reply).Err? ==>
              && reply.Replied? && ParseExplanation(loads, reply.text).Some?
              && !IsIterable(ParseExplanation(loads, reply.text).value.plan)
  {
    var expl := ChooseExplanation(loads, reply, input, sel);
    if AnalyzeLink(show, loads, input, sel, reply).Err? {
      assert AssembleReport(show, input, sel.name, expl).Err?;
      assert !IsIterable(expl.plan);
      assert expl != Fallback(input, sel);
    }
  }

  /** `apply_aether_analysis`: select the category of the input, then explain it and compose the report. */
  function ApplyAnalysis(lib: Collaborators, input: string, reply: ModelReply): (r: Result<AnalysisResult, string>)
    ensures r.Ok? ==> r.value.status == "success" && r.value.inputQuery == input
    ensures r.Ok? ==> Contains(r.value.report, "\"" + input + "\"")
    ensures r.Ok? ==> Contains(r.value.report, Select(lib.sha256, input).name)
  {
    AnalyzeLink(lib.show, lib.loads, input, Select(lib.sha256, input), reply)
  }

  /**
   * The `- <step>` lines of a plan of strings, stated on the strings
   * themselves; BulletsOfStrings shows that this is what Bullets gives for
   * such a plan.
   */
  function PlanLines(steps: seq<string>): (r: seq<string>)
    ensures |r| == |steps|
    ensures forall k :: 0 <= k < |steps| ==> r[k] == "- " + steps[k]
  {
    seq(|steps|, k requires 0 <= k < |steps| => "- " + steps[k])
  }

  /** A plan of strings renders, whatever `show` does, to its PlanLines. */
  lemma BulletsOfStrings(show: Json -> string, steps: seq<string>)
    ensures Bullets(show, ToJsonStrings(steps)) == PlanLines(steps)
  {
    var b := Bullets(show, ToJsonStrings(steps));
    assert forall k :: 0 <= k < |steps| ==> b[k] == "- " + Str(show, JString(steps[k]));
  }

  /** The fallback explanation always assembles, its plan giving one `- <step>` line per fallback step. */
  lemma FallbackAssembles(show: Json -> string, input: string, sel: Selection)
    ensures AssembleReport(show, input, sel.name, Fallback(input, sel))
         == Ok(ReportText(input, sel.name, FallbackMeaning(input, sel), PlanLines(FallbackPlan(sel.name)),
                          FallbackImpact, FallbackQualia))
  {
    var steps := FallbackPlan(sel.name);
    assert Iterate(Fallback(input, sel).plan) == Ok(ToJsonStrings(steps));
    BulletsOfStrings(show, steps);
  }

  /** With the model call failed, the analysis reports on the fallback explanation. */
  lemma FailedCallUsesFallback(show: Json -> string, loads: string -> Option<JsonObject>, input: string, sel: Selection)
    ensures AnalyzeLink(show, loads, input, sel, CallFailed)
         == Ok(AnalysisResult("success", input, AssembleReport(show, input, sel.name, Fallback(input, sel)).value))
  {
    assert ChooseExplanation(loads, CallFailed, input, sel) == Fallback(input, sel);
    assert IsIterable(Fallback(input, sel).plan);
  }

  /**
   * With the model replying, the report is built from the validated reply
   * when there is one, and it fails with that plan's `TypeError` exactly
   * when the plan is not iterable; a reply that does not validate is
   * treated as a failed call.
   */
  lemma RepliedUsesModel(show: Json -> string, loads: string -> Option<JsonObject>, input: string, sel: Selection, text: string)
    ensures ParseExplanation(loads, text).Some? && IsIterable(ParseExplanation(loads, text).value.plan) ==>
              AnalyzeLink(show, loads, input, sel, Replied(text))
              == Ok(AnalysisResult("success", input, AssembleReport(show, input, sel.name, ParseExplanation(loads, text).value).value))
    ensures ParseExplanation(loads, text).Some? && !IsIterable(ParseExplanation(loads, text).value.plan) ==>
              AnalyzeLink(show, loads, input, sel, Replied(text))
              == Err("'" + TypeName(ParseExplanation(loads, text).value.plan) + "' object is not iterable")
    ensures ParseExplanation(loads, text).None? ==>
              AnalyzeLink(show, loads, input, sel, Replied(text)) == AnalyzeLink(show, loads, input, sel, CallFailed)
  {
    var parsed := ParseExplanation(loads, text);
    if parsed.Some? {
      SameExplanationSameAnalysis(show, loads, input, sel, Replied(text), parsed.value);
    } else {
      SameExplanationSameAnalysis(show, loads, input, sel, Replied(text), Fallback(input, sel));
      SameExplanationSameAnalysis(show, loads, input, sel, CallFailed, Fallback(input, sel));
    }
  }

  /** The analysis depends on the reply only through the explanation chosen from it. */
  lemma SameExplanationSameAnalysis(show: Json -> string, loads: string -> Option<JsonObject>, input: string, sel: Selection,
                                    reply: ModelReply, expl: Explanation)
    requires ChooseExplanation(loads, reply, input, sel) == expl
    ensures AnalyzeLink(show, loads, input, sel, reply)
         == match AssembleReport(show, input, sel.name, expl)
            case Ok(report) => Ok(AnalysisResult("success", input, report))
            case Err(e) => Err(e)
  {
  }

  /** The fallback report for a single-line category name has one line per fallback step. */
  lemma FallbackReportLines(input: string, sel: Selection)
    requires '\n' !in sel.name
    ensures SplitLines(ReportText(input, sel.name, FallbackMeaning(input, sel), PlanLines(FallbackPlan(sel.name)),
                                  FallbackImpact, FallbackQualia))
         == SplitLines(ReportHead(input, sel.name, FallbackMeaning(input, sel)))
            + PlanLines(FallbackPlan(sel.name)) + [""]
            + SplitLines(ReportTail(FallbackImpact, FallbackQualia))
  {
    var lines := PlanLines(FallbackPlan(sel.name));
    assert forall k :: 0 <= k < |lines| ==> '\n' !in lines[k];
    assert lines != [];
    ReportLines(input, sel.name, FallbackMeaning(input, sel), lines, FallbackImpact, FallbackQualia);
  }

  /**
   * When the model call fails, the analysis still succeeds: the report
   * quotes the input, names the selected category, and its plan section is
   * exactly the three fallback steps, one line each.
   */
  lemma FailedCallReport(lib: Collaborators, input: string)
    ensures var sel := Select(lib.sha256, input);
            var r := ApplyAnalysis(lib, input, CallFailed);
            && r.Ok? && r.value.status == "success" && r.value.inputQuery == input
            && Contains(r.value.report, "\"" + input + "\"")
            && Contains(r.value.report, sel.name)
            && SplitLines(r.value.report)
               == SplitLines(ReportHead(input, sel.name, FallbackMeaning(input, sel)))
                  + PlanLines(FallbackPlan(sel.name)) + [""]
                  + SplitLines(ReportTail(FallbackImpact, FallbackQualia))
  {
    var sel := Select(lib.sha256, input);
    FailedCallUsesFallback(lib.show, lib.loads, input, sel);
    FallbackAssembles(lib.show, input, sel);
    CatalogNamesSingleLine(CategoryIndex(lib.sha256(input)));
    FallbackReportLines(input, sel);
  }
}
