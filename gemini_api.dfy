/** The Gemini client of the assignment and workflow widgets
    (src/utils/geminiAPI.js): a demo-mode fallback that never fails, the
    canned reply chosen by keyword, the prompt builders, and the score
    extraction of `gradeAssignment`. */
module GeminiApi {
  import opened Wrappers
  import opened Strings
  import opened Coursework

  // ---------------------------------------------------------------------
  // Decimal numbers

  predicate IsDigit(c: char)
  {
    '0' <= c <= '9'
  }

  function DigitValue(c: char): nat
    requires IsDigit(c)
  {
    c as int - '0' as int
  }

  function DigitChar(d: nat): (c: char)
    requires d < 10
    ensures IsDigit(c) && DigitValue(c) == d
  {
    ('0' as int + d) as char
  }

  /** `${n}` for a whole number: its decimal digits, without leading
      zeros. */
  function Decimal(n: nat): (s: string)
    ensures |s| >= 1 && forall i :: 0 <= i < |s| ==> IsDigit(s[i])
    decreases n
  {
    if n < 10 then [DigitChar(n)] else Decimal(n / 10) + [DigitChar(n % 10)]
  }

  /** The value of a run of decimal digits, as `parseInt` reads it. */
  function DigitsValue(s: string): nat
    requires forall i :: 0 <= i < |s| ==> IsDigit(s[i])
  {
    if s == [] then 0 else 10 * DigitsValue(s[..|s| - 1]) + DigitValue(s[|s| - 1])
  }

  /** Reading back a written number gives the number. */
  lemma {:induction false} DecimalRoundTrip(n: nat)
    ensures DigitsValue(Decimal(n)) == n
    decreases n
  {
    if n >= 10 {
      DecimalRoundTrip(n / 10);
      var s := Decimal(n);
      assert s[..|s| - 1] == Decimal(n / 10);
    }
  }

  // ---------------------------------------------------------------------
  // Score extraction: /GRADE:\s*(\d+)/i

  /** The end of the run of white space that starts at index `i`. */
  function SpaceEnd(s: string, i: nat): (e: nat)
    requires i <= |s|
    ensures i <= e <= |s| && (forall k :: i <= k < e ==> IsSpace(s[k]))
    ensures e < |s| ==> !IsSpace(s[e])
    decreases |s| - i
  {
    if i < |s| && IsSpace(s[i]) then SpaceEnd(s, i + 1) else i
  }

  /** The end of the run of digits that starts at index `i`. */
  function DigitEnd(s: string, i: nat): (e: nat)
    requires i <= |s|
    ensures i <= e <= |s| && (forall k :: i <= k < e ==> IsDigit(s[k]))
    ensures e < |s| ==> !IsDigit(s[e])
    decreases |s| - i
  {
    if i < |s| && IsDigit(s[i]) then DigitEnd(s, i + 1) else i
  }

  /** "GRADE:" starts at index `i`, in any mix of ASCII cases (the `i`
      flag without `u` folds no other character onto these letters). */
  predicate GradeLabelAt(s: string, i: nat)
  {
    && i + 6 <= |s|
    && LowerChar(s[i]) == 'g' && LowerChar(s[i + 1]) == 'r' && LowerChar(s[i + 2]) == 'a'
    && LowerChar(s[i + 3]) == 'd' && LowerChar(s[i + 4]) == 'e' && s[i + 5] == ':'
  }

  /** The number `GRADE:\s*(\d+)` captures when the match starts at
      index `i`: the white space is taken greedily, then the whole digit
      run; giving back white space cannot help, since `\d` matches none
      of it. */
  function GradeAt(s: string, i: nat): Option<nat>
  {
    if GradeLabelAt(s, i) then
      var a := SpaceEnd(s, i + 6);
      var b := DigitEnd(s, a);
      if a < b then Some(DigitsValue(s[a..b])) else None
    else
      None
  }

  /** The result at the first index in `[i, n]` where `f` gives one: a
      left-to-right scan for the leftmost match. */
  function FirstFrom(f: nat -> Option<nat>, i: nat, n: nat): Option<nat>
    requires i <= n
    decreases n - i
  {
    if f(i).Some? then f(i)
    else if i == n then None
    else FirstFrom(f, i + 1, n)
  }

  /** `f` gives nothing at any index in `[i, k)`. */
  predicate NoneBetween(f: nat -> Option<nat>, i: nat, k: nat)
  {
    forall j :: i <= j < k ==> f(j).None?
  }

  /** What the scan finds is the result at some index `k`, with nothing
      found before it. */
  lemma {:induction false} FirstFromFound(f: nat -> Option<nat>, i: nat, n: nat)
    requires i <= n && FirstFrom(f, i, n).Some?
    ensures exists k :: i <= k <= n && f(k) == FirstFrom(f, i, n) && NoneBetween(f, i, k)
    decreases n - i
  {
    if f(i).Some? {
      assert NoneBetween(f, i, i);
    } else {
      FirstFromFound(f, i + 1, n);
      var k :| i + 1 <= k <= n && f(k) == FirstFrom(f, i + 1, n) && NoneBetween(f, i + 1, k);
      assert NoneBetween(f, i, k);
    }
  }

  /** The scan finds nothing exactly when `f` gives nothing anywhere in
      `[i, n]`. */
  lemma {:induction false} FirstFromNone(f: nat -> Option<nat>, i: nat, n: nat)
    requires i <= n
    ensures FirstFrom(f, i, n).None? <==> NoneBetween(f, i, n + 1)
    decreases n - i
  {
    if f(i).None? && i < n {
      FirstFromNone(f, i + 1, n);
    }
  }

  /** `feedback.match(/GRADE:\s*(\d+)/i)`, then `parseInt` of the capture:
      the number at the leftmost match, or nothing. */
  function ScoreOf(s: string): Option<nat>
  {
    FirstFrom(GradeMatcher(s), 0, |s|)
  }

  /** The pattern tried at each index of `s`. */
  function GradeMatcher(s: string): nat -> Option<nat>
  {
    j => GradeAt(s, j)
  }

  /** The pattern matches at no index before `k`. */
  predicate NoGradeBefore(s: string, k: nat)
  {
    forall j :: 0 <= j < k ==> GradeAt(s, j).None?
  }

  /** The score is the number at the leftmost position where the pattern
      matches. */
  lemma ScoreLeftmost(s: string)
    requires ScoreOf(s).Some?
    ensures exists k :: 0 <= k <= |s| && GradeAt(s, k) == ScoreOf(s) && NoGradeBefore(s, k)
  {
    var f := GradeMatcher(s);
    FirstFromFound(f, 0, |s|);
    var k :| 0 <= k <= |s| && f(k) == FirstFrom(f, 0, |s|) && NoneBetween(f, 0, k);
    assert forall j :: 0 <= j < k ==> GradeAt(s, j) == f(j);
  }

  /** There is no score exactly when the pattern matches nowhere. */
  lemma ScoreAbsent(s: string)
    ensures ScoreOf(s).None? <==> forall j :: 0 <= j <= |s| ==> GradeAt(s, j).None?
  {
    var f := GradeMatcher(s);
    FirstFromNone(f, 0, |s|);
    assert forall j :: GradeAt(s, j) == f(j);
  }

  /** The characters of "**GRADE: " + d + rest, index by index. */
  lemma GradeLineChars(d: string, rest: string, s: string)
    requires s == "**GRADE: " + d + rest
    ensures |s| == 9 + |d| + |rest|
    ensures s[0] == '*' && s[1] == '*' && s[2] == 'G' && s[3] == 'R' && s[4] == 'A'
    ensures s[5] == 'D' && s[6] == 'E' && s[7] == ':' && s[8] == ' '
    ensures forall k :: 9 <= k < 9 + |d| ==> s[k] == d[k - 9]
    ensures s[9..9 + |d|] == d
    ensures 9 + |d| < |s| ==> s[9 + |d|] == rest[0]
  {
  }

  /** In a line "**GRADE: <n>...", the label starts at index 2 and the
      number after it is read back whole. */
  lemma GradeAtLine(n: nat, rest: string)
    requires rest == [] || !IsDigit(rest[0])
    ensures var s := "**GRADE: " + Decimal(n) + rest;
      GradeAt(s, 2) == Some(n) && !GradeLabelAt(s, 0) && !GradeLabelAt(s, 1)
  {
    var d := Decimal(n);
    var s := "**GRADE: " + d + rest;
    GradeLineChars(d, rest, s);
    var e := 9 + |d|;
    assert SpaceEnd(s, 8) == 9;
    assert DigitEnd(s, 9) == e;
    DecimalRoundTrip(n);
  }

  /** A line in the format the grading prompt asks for, with any number
      written after "**GRADE: ", yields that number. */
  lemma GradeLineScore(n: nat, rest: string)
    requires rest == [] || !IsDigit(rest[0])
    ensures ScoreOf("**GRADE: " + Decimal(n) + rest) == Some(n)
  {
    var s := "**GRADE: " + Decimal(n) + rest;
    GradeAtLine(n, rest);
    var f := GradeMatcher(s);
    assert f(0).None? && f(1).None? && f(2) == Some(n);
    assert FirstFrom(f, 2, |s|) == Some(n);
    assert FirstFrom(f, 1, |s|) == Some(n);
  }

  // ---------------------------------------------------------------------
  // Canned replies

  /** The five canned replies of `getMockResponse`, in priority order. */
  datatype MockKind = GradingReply | SummaryReply | PapersReply | AnalysisReply | DefaultReply

  function Rank(k: MockKind): nat
  {
    match k
    case GradingReply => 0
    case SummaryReply => 1
    case PapersReply => 2
    case AnalysisReply => 3
    case DefaultReply => 4
  }

  /** The keywords that select each reply. */
  function Keywords(k: MockKind): seq<string>
  {
    match k
    case GradingReply => ["grading", "assignment"]
    case SummaryReply => ["summarize", "summary"]
    case PapersReply => ["paper", "research"]
    case AnalysisReply => ["extract", "analyze"]
    case DefaultReply => []
  }

  /** Some keyword of `k` occurs in the lowercased prompt. */
  predicate Hits(lower: string, k: MockKind)
  {
    exists w :: w in Keywords(k) && Includes(lower, w)
  }

  /** The if-chain of `getMockResponse`. */
  function KindOf(prompt: string): MockKind
  {
    var lower := ToLower(prompt);
    if Includes(lower, "grading") || Includes(lower, "assignment") then GradingReply
    else if Includes(lower, "summarize") || Includes(lower, "summary") then SummaryReply
    else if Includes(lower, "paper") || Includes(lower, "research") then PapersReply
    else if Includes(lower, "extract") || Includes(lower, "analyze") then AnalysisReply
    else DefaultReply
  }

  /** First match wins: the reply chosen is the one of highest priority
      whose keywords occur, case-insensitively, and the default reply
      when none does. */
  lemma KindOfFirstMatch(prompt: string, k: MockKind)
    ensures KindOf(prompt) == k <==>
              (k == DefaultReply || Hits(ToLower(prompt), k))
              && forall k' :: Rank(k') < Rank(k) ==> !Hits(ToLower(prompt), k')
  {
    var lower := ToLower(prompt);
    HitsPair(lower, GradingReply);
    HitsPair(lower, SummaryReply);
    HitsPair(lower, PapersReply);
    HitsPair(lower, AnalysisReply);
  }

  /** A reply with two keywords is hit when either keyword occurs. */
  lemma HitsPair(lower: string, k: MockKind)
    requires k != DefaultReply
    ensures |Keywords(k)| == 2
    ensures Hits(lower, k) <==> Includes(lower, Keywords(k)[0]) || Includes(lower, Keywords(k)[1])
  {
    var ws := Keywords(k);
    assert ws == [ws[0], ws[1]];
    assert ws[0] in ws && ws[1] in ws;
  }

  /** A keyword written into a prompt, in any case, caps the reply's
      priority: a later rule can no longer be chosen. */
  lemma KeywordCapsKind(before: string, word: string, after: string, k: MockKind)
    requires ToLower(word) in Keywords(k)
    ensures Rank(KindOf(before + word + after)) <= Rank(k)
  {
    var p := before + word + after;
    var w := ToLower(word);
    var lower := ToLower(p);
    assert lower[|before|..|before| + |word|] == w by {
      forall j | 0 <= j < |word|
        ensures lower[|before| + j] == w[j]
      {
        assert p[|before| + j] == word[j];
      }
    }
    assert OccursAt(lower, w, |before|);
    assert Hits(lower, k);
    KindOfFirstMatch(p, KindOf(p));
  }

  /** The line of the grading reply that carries the score. */
  const GradeMockLine: string := "**GRADE: 18/20 points**"

  /** The canned reply of each kind, reduced to its title line; the
      grading reply is reduced to its GRADE line. */
  function MockText(k: MockKind): (t: string)
    ensures t != ""
  {
    match k
    case GradingReply => GradeMockLine
    case SummaryReply => "Email Summary:"
    case PapersReply => "Relevant Research Papers:"
    case AnalysisReply => "Analysis Results:"
    case DefaultReply => "AI Response:"
  }

  /** `getMockResponse(prompt)`. */
  function MockResponse(prompt: string): string
  {
    MockText(KindOf(prompt))
  }

  /** Score extraction applied to the canned grading reply finds 18. */
  lemma GradeMockScore()
    ensures ScoreOf(GradeMockLine) == Some(18)
  {
    assert Decimal(18) == "18";
    assert GradeMockLine == "**GRADE: " + Decimal(18) + "/20 points**";
    GradeLineScore(18, "/20 points**");
  }

  // ---------------------------------------------------------------------
  // callGemini

  /** What the remote call yields: a decoded body, with the text at
      `candidates[0].content.parts[0]` if present, or an exception from
      `fetch` or from decoding the body. */
  datatype Remote = Answered(text: Option<string>) | Rejected

  /** The text sent: the context, a blank line and the prompt, or the
      prompt alone when the context is empty. */
  function RequestText(prompt: string, context: string): (t: string)
    ensures context == "" ==> t == prompt
    ensures context != "" ==> t == context + "\n\n" + prompt && EndsWith(t, prompt)
  {
    if context == "" then prompt else context + "\n\n" + prompt
  }

  /** The outcome of `callGemini`: the text sent, if a request was made,
      and the reply it resolves to. */
  datatype Call = Call(sent: Option<string>, reply: string)

  /** `callGemini(prompt, context)`. It never rejects: with no key it
      sends nothing and answers from the mock; with a key, a missing or
      empty text and any exception also fall back to the mock of the
      prompt (not of the text sent). */
  function CallGemini(prompt: string, context: string, apiKey: string, remote: Remote): (c: Call)
    ensures apiKey == "" ==> c == Call(None, MockResponse(prompt))
    ensures apiKey != "" ==> c.sent == Some(RequestText(prompt, context))
    ensures apiKey != "" && remote.Answered? && remote.text.Some? && remote.text.value != "" ==>
              c.reply == remote.text.value
    ensures apiKey != "" && !(remote.Answered? && remote.text.Some? && remote.text.value != "") ==>
              c.reply == MockResponse(prompt)
    ensures c.reply != ""
  {
    if apiKey == "" then Call(None, MockResponse(prompt))
    else
      var sent := Some(RequestText(prompt, context));
      match remote
      case Answered(Some(t)) => if t != "" then Call(sent, t) else Call(sent, MockResponse(prompt))
      case Answered(None) => Call(sent, MockResponse(prompt))
      case Rejected => Call(sent, MockResponse(prompt))
  }

  // ---------------------------------------------------------------------
  // Prompt builders
  //
  // Each prompt is written as its opening words and the rest, so that
  // the keyword the opening carries can be found without unfolding the
  // rest of the template.

  function SummarizeRest(emailContent: string): string
  {
    " this email in a concise, structured " + "format with key points and action "
    + "items:\n\n" + emailContent + "\n\n" + "Format the response with:\n"
    + "- Key Points (bullet points)\n" + "- Action Items (numbered list)\n"
    + "- Priority level\n" + "- Estimated time needed"
  }

  function SummarizePrompt(emailContent: string): string
  {
    "Summarize" + SummarizeRest(emailContent)
  }

  /** `summarizeEmail(emailContent)`. */
  function SummarizeEmail(emailContent: string, apiKey: string, remote: Remote): Call
  {
    CallGemini(SummarizePrompt(emailContent), "", apiKey, remote)
  }

  /** Whatever the email says, in demo mode a summary request gets the
      summary reply or, if the email mentions grading or an assignment,
      the grading reply. */
  lemma SummarizeKind(emailContent: string)
    ensures Rank(KindOf(SummarizePrompt(emailContent))) <= Rank(SummaryReply)
  {
    assert ToLower("Summarize") == "summarize";
    assert SummarizePrompt(emailContent) == "" + "Summarize" + SummarizeRest(emailContent);
    KeywordCapsKind("", "Summarize", SummarizeRest(emailContent), SummaryReply);
  }

  /** `keywords.join(', ')`. */
  function KeywordList(keywords: seq<string>): (s: string)
    ensures |keywords| >= 1 ==> |s| == SumLengths(keywords) + 2 * (|keywords| - 1)
  {
    var s := Join(keywords, ", ");
    assert |keywords| >= 1 ==> |s| == SumLengths(keywords) + 2 * (|keywords| - 1) by {
      if |keywords| >= 1 {
        JoinLength(keywords, ", ");
      }
    }
    s
  }

  /** The list grows keyword by keyword: one keyword is listed as it is,
      and each further one follows a comma and a space. */
  lemma KeywordListSnoc(keywords: seq<string>, k: string)
    ensures KeywordList([k]) == k
    ensures |keywords| >= 1 ==> KeywordList(keywords + [k]) == KeywordList(keywords) + ", " + k
  {
    if |keywords| >= 1 {
      JoinSnoc(keywords, k, ", ");
    }
  }

  function PapersRest(topic: string, keywords: seq<string>): string
  {
    " assistant, suggest 3 relevant " + "academic papers for this research " + "topic:\n\n"
    + "Topic: " + topic + "\n" + "Keywords: " + KeywordList(keywords) + "\n\n"
    + "For each paper, provide:\n" + "- Title\n" + "- Authors\n" + "- Year\n"
    + "- Citation count (estimated)\n" + "- Key finding (1 sentence)\n\n"
    + "Format as a numbered list with " + "clear structure."
  }

  function PapersPrompt(topic: string, keywords: seq<string>): string
  {
    "As a " + "research" + PapersRest(topic, keywords)
  }

  /** `findRelevantPapers(topic, keywords)`. */
  function FindRelevantPapers(topic: string, keywords: seq<string>, apiKey: string, remote: Remote): Call
  {
    CallGemini(PapersPrompt(topic, keywords), "", apiKey, remote)
  }

  /** A paper search never gets the analysis or the default reply. */
  lemma PapersKind(topic: string, keywords: seq<string>)
    ensures Rank(KindOf(PapersPrompt(topic, keywords))) <= Rank(PapersReply)
  {
    assert ToLower("research") == "research";
    KeywordCapsKind("As a ", "research", PapersRest(topic, keywords), PapersReply);
  }

  function AnalyzeRest(text: string): string
  {
    " this text and provide:\n" + "1. Main topics (bullet points)\n"
    + "2. Key keywords (comma-separated)\n" + "3. Sentiment analysis\n"
    + "4. Complexity level\n" + "5. Target audience recommendation\n\n" + "Text to analyze:\n"
    + text
  }

  function AnalyzePrompt(text: string): string
  {
    "Analyze" + AnalyzeRest(text)
  }

  /** `analyzeText(text)`. */
  function AnalyzeText(text: string, apiKey: string, remote: Remote): Call
  {
    CallGemini(AnalyzePrompt(text), "", apiKey, remote)
  }

  /** A text analysis never gets the default reply. */
  lemma AnalyzeKind(text: string)
    ensures Rank(KindOf(AnalyzePrompt(text))) <= Rank(AnalysisReply)
  {
    assert ToLower("Analyze") == "analyze";
    assert AnalyzePrompt(text) == "" + "Analyze" + AnalyzeRest(text);
    KeywordCapsKind("", "Analyze", AnalyzeRest(text), AnalysisReply);
  }

  /** `fields.map(f => `- ${f}`).join('\n')`. */
  function FieldList(fields: seq<string>): string
  {
    Join(seq(|fields|, i requires 0 <= i < |fields| => "- " + fields[i]), "\n")
  }

  /** The field list reads back line by line: line `i` is "- " followed
      by field `i`, in order, when no field holds a newline. */
  lemma FieldListLines(fields: seq<string>)
    requires |fields| >= 1
    requires forall i :: 0 <= i < |fields| ==> '\n' !in fields[i]
    ensures var lines := Split(FieldList(fields), '\n');
      |lines| == |fields| && forall i :: 0 <= i < |fields| ==> lines[i] == "- " + fields[i]
  {
    var items := seq(|fields|, i requires 0 <= i < |fields| => "- " + fields[i]);
    forall k | 0 <= k < |items|
      ensures '\n' !in items[k]
    {
      assert items[k] == "- " + fields[k];
    }
    SplitJoin(items, '\n');
  }

  function ExtractRest(content: string, fields: seq<string>): string
  {
    " the following information from " + "this content:\n" + FieldList(fields) + "\n\n"
    + "Content:\n" + content + "\n\n" + "Provide the extracted information "
    + "in a clear, structured format."
  }

  function ExtractPrompt(content: string, fields: seq<string>): string
  {
    "Extract" + ExtractRest(content, fields)
  }

  /** `extractKeyInfo(content, fields)`. */
  function ExtractKeyInfo(content: string, fields: seq<string>, apiKey: string, remote: Remote): Call
  {
    CallGemini(ExtractPrompt(content, fields), "", apiKey, remote)
  }

  /** An extraction never gets the default reply. */
  lemma ExtractKind(content: string, fields: seq<string>)
    ensures Rank(KindOf(ExtractPrompt(content, fields))) <= Rank(AnalysisReply)
  {
    assert ToLower("Extract") == "extract";
    assert ExtractPrompt(content, fields) == "" + "Extract" + ExtractRest(content, fields);
    KeywordCapsKind("", "Extract", ExtractRest(content, fields), AnalysisReply);
  }

  // ---------------------------------------------------------------------
  // gradeAssignment

  /** `- ${c.name}: ${c.points} points`, one line per criterion. */
  function CriteriaLines(cs: seq<Criterion>): seq<string>
  {
    seq(|cs|, i requires 0 <= i < |cs| => "- " + cs[i].name + ": " + Decimal(cs[i].points) + " points")
  }

  const GradingOpening: string := "You are an expert instructor "

  /** The assignment details after "You are an expert instructor
      grading". */
  function GradingDetails(a: Assignment): string
  {
    Concat([
      " a student's automation workflow ", "assignment.\n\n", "Assignment Details:\n",
      "- Title: ", a.title, "\n", "- Points: ", Decimal(a.points), "\n", "- Requirements: ",
      Join(a.requirements, ", "), "\n\n"
    ])
  }

  /** The submission, with the workflow JSON cut to 500 characters. */
  function GradingSubmission(s: FormData): string
  {
    Concat([
      "Student Submission:\n", "- Name: ", s.studentName, "\n", "- Email: ", s.studentEmail,
      "\n", "- Description: ", s.description, "\n", "- Workflow JSON: ",
      Prefix(s.workflowJSON, 500), "...\n\n"
    ])
  }

  /** The criteria list and what the reply must contain. */
  function GradingCriteria(a: Assignment, s: FormData): string
  {
    var pts := Decimal(a.points);
    Concat([
      "Grading Criteria (total ", pts, " points):\n",
      Join(CriteriaLines(a.gradingCriteria), "\n"), "\n\n", "Please provide:\n",
      "1. A detailed grade breakdown ", "for each criterion\n", "2. Total score out of ", pts,
      "\n", "3. Specific strengths in the submission\n", "4. Areas for improvement\n",
      "5. Actionable next steps\n\n", "Format your response as a professional ",
      "email that will be sent to the ", "student.\n", "Start with \"Dear ", s.studentName,
      ",\" and be encouraging yet constructive.\n\n"
    ])
  }

  /** The structure the reply is asked to follow. */
  function GradingTemplate(a: Assignment, s: FormData): string
  {
    Concat([
      "Use this structure:\n", "---\n", "Subject: Your ", a.title, " Feedback\n\n", "Dear ",
      s.studentName, ",\n\n", "Thank you for submitting your ", a.title,
      " assignment! Here's your detailed ", "feedback:\n\n", "**GRADE: [X]/", Decimal(a.points),
      " points**\n\n", "**Breakdown:**\n", "[List each criterion with score]\n\n",
      "**Strengths:**\n", "[What they did well]\n\n", "**Areas for Improvement:**\n",
      "[What could be better]\n\n", "**Next Steps:**\n", "[Specific actions to improve]\n\n",
      "Keep up the great work!\n\n", "Best regards,\n", "Rajesh Dhiman\n", "---"
    ])
  }

  /** The grading prompt after "You are an expert instructor grading". */
  function GradingRest(a: Assignment, s: FormData): string
  {
    Concat([
      GradingDetails(a), GradingSubmission(s), GradingCriteria(a, s), GradingTemplate(a, s)
    ])
  }

  function GradingPrompt(a: Assignment, s: FormData): string
  {
    GradingOpening + "grading" + GradingRest(a, s)
  }

  /** Only the first 500 characters of the workflow JSON reach the
      prompt: submissions that agree on those get the same prompt. */
  lemma GradingPromptTruncates(a: Assignment, s: FormData, longer: string)
    requires Prefix(longer, 500) == Prefix(s.workflowJSON, 500)
    ensures GradingPrompt(a, s.(workflowJSON := longer)) == GradingPrompt(a, s)
  {
  }

  /** The object `gradeAssignment` resolves to. */
  datatype Grade = Grade(feedback: string, score: Option<nat>, maxScore: nat)

  /** `gradeAssignment(assignment, submission)`. */
  function GradeAssignment(a: Assignment, s: FormData, apiKey: string, remote: Remote): (g: Grade)
    ensures g.maxScore == a.points
    ensures g.score == ScoreOf(g.feedback)
  {
    var c := CallGemini(GradingPrompt(a, s), "", apiKey, remote);
    Grade(c.reply, ScoreOf(c.reply), a.points)
  }

  /** When the server answers with text, that text is the feedback and
      the score is the GRADE number it holds, out of the assignment's
      points. */
  lemma LiveGrade(a: Assignment, s: FormData, apiKey: string, remote: Remote)
    requires apiKey != "" && remote.Answered? && remote.text.Some? && remote.text.value != ""
    ensures GradeAssignment(a, s, apiKey, remote) ==
              Grade(remote.text.value, ScoreOf(remote.text.value), a.points)
  {
    var c := CallGemini(GradingPrompt(a, s), "", apiKey, remote);
    assert c.reply == remote.text.value;
  }

  /** A prompt that says "grading" after the opening words is answered
      with the canned grading reply, whatever follows. */
  lemma GradingKind(p: string, rest: string)
    requires p == GradingOpening + "grading" + rest
    ensures KindOf(p) == GradingReply
  {
    assert ToLower("grading") == "grading";
    KeywordCapsKind(GradingOpening, "grading", rest, GradingReply);
  }

  /** The grading prompt itself says "grading", so the mock always
      answers it with the canned grading reply. */
  lemma GradingPromptKind(a: Assignment, s: FormData)
    ensures KindOf(GradingPrompt(a, s)) == GradingReply
  {
    GradingKind(GradingPrompt(a, s), GradingRest(a, s));
  }

  /** A prompt the mock answers with the grading reply gets that reply
      whenever the call falls back to the mock. */
  lemma FallbackGrading(p: string, apiKey: string, remote: Remote)
    requires KindOf(p) == GradingReply
    requires apiKey == "" || !(remote.Answered? && remote.text.Some? && remote.text.value != "")
    ensures CallGemini(p, "", apiKey, remote).reply == GradeMockLine
  {
  }

  /** Whenever `gradeAssignment` falls back to the mock, the score is 18
      whatever the assignment's points. */
  lemma DemoGrade(a: Assignment, s: FormData, apiKey: string, remote: Remote)
    requires apiKey == "" || !(remote.Answered? && remote.text.Some? && remote.text.value != "")
    ensures GradeAssignment(a, s, apiKey, remote) == Grade(GradeMockLine, Some(18), a.points)
  {
    GradingPromptKind(a, s);
    FallbackGrading(GradingPrompt(a, s), apiKey, remote);
    GradeMockScore();
  }
}
