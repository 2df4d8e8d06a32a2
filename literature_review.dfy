/** The six-step literature-review runner (src/components/Workflows/LiteratureReview.jsx):
    `runWorkflow` walks the steps in order, writing each step's result and
    marking it complete; the third step asks the Gemini client for papers
    on the topic. The 1500 ms pause before each step is left out. */
module LiteratureReview {
  import opened Strings
  import opened GeminiApi
  import opened Ranges

  /** The steps of `workflowSteps`, named by their ids. */
  datatype Step = Search | Filter | Analyze | Extract | Summarize | Notify

  /** `step.id`. */
  function IdOf(s: Step): string
  {
    match s
    case Search => "search"
    case Filter => "filter"
    case Analyze => "analyze"
    case Extract => "extract"
    case Summarize => "summarize"
    case Notify => "notify"
  }

  /** Different steps have different ids, so keying the results by step
      keys them as the ids do. */
  lemma IdsDistinct(a: Step, b: Step)
    ensures IdOf(a) == IdOf(b) <==> a == b
  {
    if a != b {
      assert IdOf(a)[0] != IdOf(b)[0] || IdOf(a)[1] != IdOf(b)[1];
    }
  }

  /** `workflowSteps.length`. */
  const StepCount: nat := 6

  /** `workflowSteps[k]`. */
  function StepAt(k: nat): Step
    requires k < StepCount
  {
    if k == 0 then Search
    else if k == 1 then Filter
    else if k == 2 then Analyze
    else if k == 3 then Extract
    else if k == 4 then Summarize
    else Notify
  }

  /** The index of a step in `workflowSteps`. */
  function PosOf(s: Step): (k: nat)
    ensures k < StepCount && StepAt(k) == s
  {
    match s
    case Search => 0
    case Filter => 1
    case Analyze => 2
    case Extract => 3
    case Summarize => 4
    case Notify => 5
  }

  const DefaultTopic: string := "Deep Learning in Medical Diagnosis"

  /** The keywords the analysis step searches with. */
  const SearchKeywords: seq<string> := ["deep learning", "medical", "diagnosis"]

  /** What the analysis step shows: the first 300 characters of the
      reply and an ellipsis. */
  function AnalysisResult(reply: string): (r: string)
    ensures |r| <= 303
    ensures EndsWith(r, "...")
    ensures StartsWith(reply, r[..|r| - 3])
    ensures |reply| >= 300 ==> |r| == 303
    ensures |reply| <= 300 ==> r == reply + "..."
    ensures |reply| >= 300 ==> r == reply[..300] + "..."
  {
    var p := Prefix(reply, 300);
    var r := p + "...";
    assert r[..|r| - 3] == p;
    assert r[|r| - 3..] == "...";
    r
  }

  /** The reply the analysis step gets for `topic`. */
  function Analysis(topic: string, apiKey: string, remote: Remote): string
  {
    FindRelevantPapers(topic, SearchKeywords, apiKey, remote).reply
  }

  /** The `switch (step.id)` of `runWorkflow`; `analysis` is the reply of
      the paper search, used only by the "analyze" step. */
  function StepResult(id: Step, analysis: string): string
  {
    if id == Analyze then AnalysisResult(analysis) else CannedResult(id)
  }

  /** The fixed text the other steps write. */
  function CannedResult(id: Step): string
  {
    match id
    case Search => "✓ Found 15 papers from arXiv\n✓ Filtered to papers from 2023-2024"
    case Filter => "✓ Filtered by citation count > 50\n✓ Kept 8 highly relevant papers"
    case Analyze => ""
    case Extract =>
      "✓ Extracted metadata from 8 papers\n✓ Parsed 24 authors\n✓ Total citations: 1,247"
    case Summarize =>
      "✓ Generated 500-word summary\n✓ Created bibliography\n✓ Identified research gaps"
    case Notify =>
      "✓ Email sent to 5 team members\n✓ Notion page created\n✓ Slack notification posted"
  }

  /** A step given the reply of the paper search writes the result
      `Results` assigns it; only the "analyze" step looks at the reply. */
  lemma StepResultIs(id: Step, reply: string, analysis: string)
    requires id == Analyze ==> reply == analysis
    ensures StepResult(id, reply) == Results(analysis)(id)
  {
  }

  /** The result each step writes once the paper search replied `analysis`. */
  function Results(analysis: string): Step -> string
  {
    s => StepResult(s, analysis)
  }

  /** `m` is the results map after the first `n` steps have run, step `s`
      writing `result(s)`: it holds exactly those steps, each with its
      result. */
  ghost predicate ResultsAfter(m: map<Step, string>, n: nat, result: Step -> string)
  {
    && (forall s :: s in m <==> PosOf(s) < n)
    && (forall s :: s in m ==> m[s] == result(s))
  }

  /** The results after `n` steps are determined by `n` and what each step
      writes. */
  lemma ResultsAfterUnique(m1: map<Step, string>, m2: map<Step, string>, n: nat, result: Step -> string)
    requires ResultsAfter(m1, n, result) && ResultsAfter(m2, n, result)
    ensures m1 == m2
  {
    assert m1.Keys == m2.Keys;
  }

  /** Running step `n`, which writes `v`, adds its entry. */
  lemma ResultsAfterStep(m: map<Step, string>, n: nat, result: Step -> string, v: string)
    requires ResultsAfter(m, n, result) && n < StepCount && v == result(StepAt(n))
    ensures ResultsAfter(m[StepAt(n) := v], n + 1, result)
  {
    assert PosOf(StepAt(n)) == n;
  }

  /** After a full run the results hold all six steps. */
  lemma FullRunResults(m: map<Step, string>, result: Step -> string)
    requires ResultsAfter(m, StepCount, result)
    ensures m.Keys == AllSteps
    ensures |m| == StepCount
  {
    forall s ensures s in m {
      assert PosOf(s) < StepCount;
    }
    assert m.Keys == AllSteps;
    AllStepsCount();
  }

  /** Every step. */
  const AllSteps: set<Step> := {Search, Filter, Analyze, Extract, Summarize, Notify}

  /** There are six of them. */
  lemma AllStepsCount()
    ensures |AllSteps| == StepCount
  {
  }

  /** The `LiteratureReview` component. */
  class Review {
    var topic: string
    var isRunning: bool
    var currentStep: int
    var completedSteps: seq<int>
    /** `results`, keyed by step rather than by the step's id string. */
    var results: map<Step, string>

    constructor ()
      ensures topic == DefaultTopic && !isRunning
      ensures currentStep == -1 && completedSteps == [] && results == map[]
    {
      topic := DefaultTopic;
      isRunning := false;
      currentStep := -1;
      completedSteps := [];
      results := map[];
    }

    /** The start button is disabled. */
    function StartDisabled(): (b: bool)
      reads this
      ensures b <==> isRunning || IsBlank(topic)
    {
      TrimEmpty(topic);
      isRunning || Trim(topic) == ""
    }

    /** The success panel is shown. */
    function ShowSuccess(): (b: bool)
      reads this
      ensures b <==> currentStep == StepCount
    {
      currentStep == StepCount
    }

    /** One pass of `runWorkflow`'s loop: step `i` is shown as current,
        its result is written and it is marked complete; only the
        "analyze" step calls the paper search. */
    method RunStep(i: nat, apiKey: string, remote: Remote, ghost analysis: string)
      requires i < StepCount && analysis == Analysis(topic, apiKey, remote)
      requires completedSteps == Upto(i) && ResultsAfter(results, i, Results(analysis))
      modifies this
      ensures currentStep == i && !ShowSuccess()
      ensures completedSteps == Upto(i + 1) && ResultsAfter(results, i + 1, Results(analysis))
      ensures topic == old(topic) && isRunning == old(isRunning)
    {
      currentStep := i;
      var id := StepAt(i);
      var reply := "";
      if id == Analyze {
        reply := Analysis(topic, apiKey, remote);
      }
      var stepResult := StepResult(id, reply);
      StepResultIs(id, reply, analysis);
      Record(i, stepResult, Results(analysis));
    }

    /** The end of a pass: the `switch` result of step `i` is written and
        the step index appended. */
    method Record(i: nat, stepResult: string, ghost result: Step -> string)
      requires i < StepCount && stepResult == result(StepAt(i))
      requires completedSteps == Upto(i) && ResultsAfter(results, i, result)
      modifies this
      ensures completedSteps == Upto(i + 1) && ResultsAfter(results, i + 1, result)
      ensures topic == old(topic) && isRunning == old(isRunning) && currentStep == old(currentStep)
    {
      ResultsAfterStep(results, i, result, stepResult);
      results := results[StepAt(i) := stepResult];
      UptoSnoc(i);
      completedSteps := completedSteps + [i];
    }

    /** `runWorkflow()` run to completion, with `remote` what the paper
        search observes. */
    method RunWorkflow(apiKey: string, remote: Remote)
      modifies this
      ensures currentStep == StepCount && !isRunning
      ensures ShowSuccess() && (StartDisabled() <==> IsBlank(topic))
      ensures completedSteps == Upto(StepCount)
      ensures ResultsAfter(results, StepCount, Results(Analysis(topic, apiKey, remote)))
      ensures topic == old(topic)
    {
      isRunning := true;
      currentStep := -1;
      completedSteps := [];
      results := map[];
      ghost var analysis := Analysis(topic, apiKey, remote);
      for i := 0 to StepCount
        invariant completedSteps == Upto(i)
        invariant ResultsAfter(results, i, Results(analysis))
        invariant topic == old(topic) && isRunning
      {
        RunStep(i, apiKey, remote, analysis);
      }
      currentStep := StepCount;
      isRunning := false;
    }

    /** `resetWorkflow`. */
    method Reset()
      modifies this
      ensures currentStep == -1 && completedSteps == [] && results == map[]
      ensures !ShowSuccess()
      ensures topic == old(topic) && isRunning == old(isRunning)
    {
      currentStep := -1;
      completedSteps := [];
      results := map[];
    }
  }
}
