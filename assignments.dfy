/** The assignment board (src/components/Assignments/AssignmentSystem.jsx):
    the three assignments with their grading criteria, the submission and
    grading maps that `handleSubmit` updates, and the stat counters. */
module Assignments {
  import opened Wrappers
  import opened Coursework
  import opened GeminiApi

  const Requirements1: seq<string> := [
    "Create a workflow that receives emails (webhook or Gmail trigger)",
    "Use Gemini AI to summarize the email content",
    "Extract action items from the email",
    "Send the summary to Slack or save to Notion",
    "Handle errors gracefully"
  ]

  const Criteria1: seq<Criterion> := [
    Criterion("Workflow completes without errors", 5),
    Criterion("Gemini AI integration works correctly", 5),
    Criterion("Action items are extracted", 4),
    Criterion("Output is sent/saved properly", 4),
    Criterion("Code quality and documentation", 2)
  ]

  const Requirements2: seq<string> := [
    "Query arXiv or PubMed API based on keywords",
    "Filter papers by date (last 30 days)",
    "Use Gemini AI to rank papers by relevance",
    "Extract metadata (title, authors, abstract, citations)",
    "Store results in a database (Notion/Airtable/Google Sheets)",
    "Send a daily digest email"
  ]

  const Criteria2: seq<Criterion> := [
    Criterion("API integration working", 6),
    Criterion("Filtering logic implemented", 5),
    Criterion("AI ranking functional", 7),
    Criterion("Data storage working", 6),
    Criterion("Email digest sent correctly", 4),
    Criterion("Documentation and code quality", 2)
  ]

  const Requirements3: seq<string> := [
    "Monitor multiple sources (arXiv, PubMed, Google Scholar)",
    "Filter by custom criteria (citations, keywords, authors)",
    "Use Gemini AI to analyze abstracts and extract key findings",
    "Generate a comprehensive summary report",
    "Store in database with proper categorization",
    "Send notifications to team (Slack/Email)",
    "Include error handling and retry logic",
    "Make it run on a schedule (daily/weekly)"
  ]

  const Criteria3: seq<Criterion> := [
    Criterion("Multi-source data collection", 10),
    Criterion("Advanced filtering logic", 8),
    Criterion("AI analysis and insights", 10),
    Criterion("Report generation quality", 8),
    Criterion("Database integration", 6),
    Criterion("Notifications working", 4),
    Criterion("Error handling and reliability", 4)
  ]

  /** `ASSIGNMENTS`. */
  const Catalog: seq<Assignment> := [
    Assignment("assignment-1", 1, "Email Automation Workflow", 20, Requirements1, Criteria1),
    Assignment("assignment-2", 2, "Research Paper Discovery Bot", 30, Requirements2, Criteria2),
    Assignment("assignment-3", 3, "Complete Research Assistant Pipeline", 50, Requirements3, Criteria3)
  ]

  /** The ids of the catalogue. */
  const CatalogIds: set<string> := {"assignment-1", "assignment-2", "assignment-3"}

  /** The criteria of each assignment add up to its points. */
  lemma CriteriaAddUp1()
    ensures CriteriaTotal(Criteria1) == 20
  {
  }

  lemma CriteriaAddUp2()
    ensures CriteriaTotal(Criteria2) == 30
  {
  }

  lemma CriteriaAddUp3()
    ensures CriteriaTotal(Criteria3) == 50
  {
  }

  /** Each assignment's grading criteria add up to its points. */
  lemma CriteriaAddUp(i: nat)
    requires i < |Catalog|
    ensures CriteriaTotal(Catalog[i].gradingCriteria) == Catalog[i].points
  {
    if i == 0 {
      CriteriaAddUp1();
    } else if i == 1 {
      CriteriaAddUp2();
    } else {
      CriteriaAddUp3();
    }
  }

  /** `ASSIGNMENTS.reduce((sum, a) => sum + a.points, 0)`. */
  function TotalPoints(xs: seq<Assignment>): nat
  {
    if xs == [] then 0 else TotalPoints(xs[..|xs| - 1]) + xs[|xs| - 1].points
  }

  /** The "Total Points" stat is 100. */
  lemma TotalPointsIs100()
    ensures TotalPoints(Catalog) == 100
  {
    assert Catalog[..2][..1] == [Catalog[0]];
    assert TotalPoints(Catalog[..1]) == 20;
    assert TotalPoints(Catalog[..2]) == 50;
  }

  /** Some assignment of `xs` has the id `id`. */
  predicate HasId(xs: seq<Assignment>, id: string)
  {
    exists i :: 0 <= i < |xs| && xs[i].id == id
  }

  /** The catalogue's ids are the three of `CatalogIds`, in order and
      each used once. */
  lemma CatalogIdsSpec(id: string)
    ensures HasId(Catalog, id) <==> id in CatalogIds
    ensures forall i, j :: 0 <= i < j < |Catalog| ==> Catalog[i].id != Catalog[j].id
  {
    if id in CatalogIds {
      if id == "assignment-1" {
        assert Catalog[0].id == id;
      } else if id == "assignment-2" {
        assert Catalog[1].id == id;
      } else {
        assert Catalog[2].id == id;
      }
    }
  }

  /** `xs.find(a => a.id === id)`, scanning from index `i`. */
  function FindFrom(xs: seq<Assignment>, id: string, i: nat): (r: Option<Assignment>)
    requires i <= |xs|
    ensures r.Some? ==> r.value.id == id && r.value in xs[i..]
    ensures r.None? <==> forall j :: i <= j < |xs| ==> xs[j].id != id
    decreases |xs| - i
  {
    if i == |xs| then None
    else if xs[i].id == id then Some(xs[i])
    else FindFrom(xs, id, i + 1)
  }

  function Find(xs: seq<Assignment>, id: string): Option<Assignment>
  {
    FindFrom(xs, id, 0)
  }

  /** An id is found exactly when some assignment has it, and what is
      found is an assignment of the list with that id. */
  lemma FindSpec(xs: seq<Assignment>, id: string)
    ensures Find(xs, id).Some? <==> HasId(xs, id)
    ensures Find(xs, id).Some? ==> Find(xs, id).value in xs && Find(xs, id).value.id == id
  {
    var r := Find(xs, id);
    if r.Some? {
      var i :| 0 <= i < |xs| && xs[i] == r.value;
      assert xs[i].id == id;
    }
  }

  /** Keys that are all ids of `xs` are at most as many as the entries of
      `xs`. */
  lemma {:induction false} KeysBound(ks: set<string>, xs: seq<Assignment>)
    requires forall k :: k in ks ==> HasId(xs, k)
    ensures |ks| <= |xs|
    decreases |xs|
  {
    if xs != [] {
      var last := xs[|xs| - 1];
      var init := xs[..|xs| - 1];
      var rest := ks - {last.id};
      forall k | k in rest
        ensures HasId(init, k)
      {
        var i :| 0 <= i < |xs| && xs[i].id == k;
        assert i < |xs| - 1 && init[i] == xs[i];
      }
      KeysBound(rest, init);
    }
  }

  /** The `AssignmentSystem` component; `assignments` is `ASSIGNMENTS`. */
  class Board {
    const assignments: seq<Assignment>
    /** `submissions`, keyed by assignment id. */
    var submissions: map<string, Submission>
    /** `gradingResults`, keyed by assignment id, without the timestamp. */
    var gradingResults: map<string, Grade>
    /** `isGrading`: the id being graded, or null. */
    var isGrading: Option<string>

    /** Only the ids of assignments have entries, each submission is
        tagged with its own id, and a grading result belongs to a stored
        submission. */
    ghost predicate Valid()
      reads this
    {
      && (forall id :: id in submissions ==> HasId(assignments, id) && submissions[id].assignmentId == id)
      && gradingResults.Keys <= submissions.Keys
    }

    constructor ()
      ensures Valid() && assignments == Catalog
      ensures submissions == map[] && gradingResults == map[] && isGrading == None
    {
      assignments := Catalog;
      submissions := map[];
      gradingResults := map[];
      isGrading := None;
    }

    /** `Object.keys(submissions).length`: the "Submitted" stat, never
        more than the number of assignments. */
    function SubmittedCount(): (n: nat)
      reads this
      requires Valid()
      ensures n == |submissions|
      ensures n <= |assignments|
    {
      KeysBound(submissions.Keys, assignments);
      |submissions|
    }

    /** `!!submissions[assignment.id]`: the flag a card is drawn with. */
    function IsSubmitted(id: string): (b: bool)
      reads this
      ensures b <==> id in submissions
    {
      id in submissions
    }

    /** The part of `handleSubmit` before `gradeAssignment` is awaited: mark the
        id as being graded and store the submission under it, replacing an
        earlier one. */
    method BeginSubmit(id: string, data: FormData)
      modifies this
      ensures isGrading == Some(id)
      ensures submissions == old(submissions)[id := Submission(data, id)]
      ensures gradingResults == old(gradingResults)
      ensures old(Valid()) && HasId(assignments, id) ==> Valid()
    {
      isGrading := Some(id);
      submissions := submissions[id := Submission(data, id)];
    }

    /** The part after the await. `gradeAssignment` throws only when no
        assignment has the id (it reads the title of `undefined`); then no
        result is stored. Either way `isGrading` is cleared. */
    method FinishGrading(id: string, data: FormData, apiKey: string, remote: Remote)
      returns (graded: bool)
      modifies this
      ensures graded <==> HasId(assignments, id)
      ensures graded ==> Find(assignments, id).Some? &&
                         gradingResults == old(gradingResults)[id :=
                           GradeAssignment(Find(assignments, id).value, data, apiKey, remote)]
      ensures !graded ==> gradingResults == old(gradingResults)
      ensures submissions == old(submissions) && isGrading == None
      ensures old(Valid()) && id in old(submissions) ==> Valid()
    {
      FindSpec(assignments, id);
      var found := Find(assignments, id);
      if found.Some? {
        var g := GradeAssignment(found.value, data, apiKey, remote);
        gradingResults := gradingResults[id := g];
        graded := true;
      } else {
        graded := false;
      }
      isGrading := None;
    }

    /** `handleSubmit(assignmentId, submissionData)` run to completion. */
    method HandleSubmit(id: string, data: FormData, apiKey: string, remote: Remote)
      returns (graded: bool)
      modifies this
      ensures submissions == old(submissions)[id := Submission(data, id)]
      ensures graded <==> HasId(assignments, id)
      ensures graded ==> Find(assignments, id).Some? &&
                         gradingResults == old(gradingResults)[id :=
                           GradeAssignment(Find(assignments, id).value, data, apiKey, remote)]
      ensures !graded ==> gradingResults == old(gradingResults)
      ensures isGrading == None
      ensures old(Valid()) && HasId(assignments, id) ==> Valid()
      ensures IsSubmitted(id)
      ensures forall other :: other != id ==> IsSubmitted(other) == old(IsSubmitted(other))
      ensures |submissions| == |old(submissions)| + (if id in old(submissions) then 0 else 1)
    {
      BeginSubmit(id, data);
      graded := FinishGrading(id, data, apiKey, remote);
    }
  }
}
