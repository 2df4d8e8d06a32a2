# AI automation workshop: a verified model of its logic

The repository is a React slide deck and workshop site about AI-driven
research automation. Most of it is markup. This project models the parts
that compute something:

- the two slide navigators: the clamped one of `src/App.jsx` and the
  wrap-around one of `index.js`;
- the swipe and keyboard adapters that drive the clamped navigator;
- the workshop page (`App.jsx`): its step navigator, its retrying Gemini
  client and its text helpers (`cleanLatex`, `parseBold`, `renderMarkdown`);
- the demo-mode Gemini client of `src/utils/geminiAPI.js`: its fallback
  policy, the keyword dispatcher behind the mock replies, the prompt
  builders and the score extraction of `gradeAssignment`;
- the widget state machines: the assignment board, the workflow canvas,
  the data-flow ticker, the Zapier builder and the literature-review runner.

Each React component whose state the handlers update is a `class`. Its
fields are the `useState` variables, and each handler is a `method` whose
`ensures` gives the whole new state. Pure helpers are functions with
lemmas about them. Timers become methods a caller invokes (`Tick`,
`FireCleanup`, `AnimationEnds`). The network is an input: `server(i)` is
what retry attempt `i` observes, and `Remote` is what the single request
of `geminiAPI.js` observes. An API key is a string, empty when none is
configured.

Modules, one per source file unless noted:

| module | file |
|---|---|
| `SlideDeck` | `src/App.jsx` |
| `Swipe` | `src/hooks/useSwipe.js` |
| `Keyboard` | `src/hooks/useKeyboard.js` |
| `WrapDeck` | `index.js` |
| `GeminiRetry`, `WorkshopSteps`, `WorkshopText` | `App.jsx` |
| `GeminiApi` | `src/utils/geminiAPI.js` |
| `Coursework`, `Assignments` | `src/components/Assignments/AssignmentSystem.jsx` |
| `WorkflowCanvas` | `src/components/WorkflowCanvas/WorkflowCanvas.jsx` |
| `DataFlow` | `src/components/DataFlow/DataFlow.jsx` |
| `ZapierBuilder` | `src/components/ZapierBuilder/ZapierBuilder.jsx` |
| `LiteratureReview` | `src/components/Workflows/LiteratureReview.jsx` |
| `Wrappers`, `Strings`, `Ranges` | shared: `Option`/`Result`, the JavaScript string built-ins used, index lists |

## Model

| member | source | states |
|---|---|---|
| Strings.LeadCount | App.jsx:267 | the count of leading whitespace characters: all of them are JavaScript whitespace, and the next one is not |
| Strings.TrailCount | App.jsx:267 | the count of trailing whitespace characters, characterised the same way from the end |
| Strings.TrimStart | App.jsx:267 | removes exactly the leading whitespace; the result is empty or starts with a non-space |
| Strings.TrimEnd | App.jsx:267 | removes exactly the trailing whitespace; the result is empty or ends with a non-space |
| Strings.Trim | App.jsx:244 | `String.prototype.trim`: the result is a slice of the input, everything cut off on either side is whitespace, and the result has no whitespace at either end |
| Strings.TrimEmpty | src/components/Workflows/LiteratureReview.jsx:135 | a string trims to "" exactly when every character is whitespace (`!topic.trim()`) |
| Strings.TrimStartBlankPrefix | App.jsx:267 | prefixing whitespace does not change what trimming the start gives |
| Strings.StartsWithChar | App.jsx:269 | `startsWith` of a one-character string is a test of the first character |
| Strings.OccursInSlice | src/utils/geminiAPI.js:49 | an occurrence in a slice is an occurrence in the whole string, shifted by the slice start |
| Strings.Includes | src/utils/geminiAPI.js:49 | `includes` holds exactly when the substring occurs at some index |
| Strings.ToLower | src/utils/geminiAPI.js:47 | `toLowerCase` keeps the length and maps each character on its own |
| Strings.Prefix | src/components/Workflows/LiteratureReview.jsx:81 | `substring(0, n)`: at most `n` characters, a prefix of the input, the whole input when it is short and exactly its first `n` characters when it is long, characters being Dafny characters rather than UTF-16 code units |
| Strings.JoinLength | src/utils/geminiAPI.js:174 | a join's length is the sum of the parts plus one separator between each pair |
| Strings.JoinSnoc | src/utils/geminiAPI.js:204 | joining one more part appends a separator and that part |
| Strings.Split | App.jsx:263 | `split("\n")`: at least one part, no part holds the separator, and the parts joined with it are the input |
| Strings.SplitCons | App.jsx:263 | a separator-free head and a separator split off as the first part |
| Strings.SplitSingle | App.jsx:263 | a separator-free string splits into itself alone |
| Strings.SplitJoin | App.jsx:263 | splitting a join of separator-free parts gives the parts back |
| Ranges.Upto | src/components/Workflows/LiteratureReview.jsx:95 | the list `[0, ..., n - 1]`, by length and by each index |
| Ranges.UptoSnoc | src/components/WorkflowCanvas/WorkflowCanvas.jsx:36 | appending `n` to `[0, ..., n - 1]` gives `[0, ..., n]` |
| SlideDeck.ApplyInDeck | src/App.jsx:13-35 | every navigation callback keeps the index on the deck |
| SlideDeck.RunInDeck | src/App.jsx:13-35 | any sequence of callbacks keeps the index on the deck, a one-slide deck included |
| SlideDeck.NextSlideEffect | src/App.jsx:13-18 | below the last slide `nextSlide` adds one and records 'next'; on the last slide it changes neither field |
| SlideDeck.PrevSlideEffect | src/App.jsx:20-25 | above slide 0 `prevSlide` subtracts one and records 'prev'; on slide 0 it changes neither field |
| SlideDeck.NextThenPrev | src/App.jsx:13-25 | a move forward that happened is undone by `prevSlide` |
| SlideDeck.PrevThenNext | src/App.jsx:13-25 | a move back that happened is undone by `nextSlide` |
| SlideDeck.EndsAreFixed | src/App.jsx:27-35 | `goToFirst` gives (0, 'prev') and `goToLast` gives (last, 'next') from any state; both are idempotent, and moving past either end changes nothing |
| SlideDeck.Navigator.constructor | src/App.jsx:9-11 | the session starts on slide 0 with direction 'next' |
| SlideDeck.Navigator.NextSlide | src/App.jsx:13-18 | the new state is `AfterNext` of the old one, and it stays on the deck |
| SlideDeck.Navigator.PrevSlide | src/App.jsx:20-25 | the new state is `AfterPrev` of the old one, and it stays on the deck |
| SlideDeck.Navigator.GoToFirst | src/App.jsx:27-30 | the new state is (0, 'prev') |
| SlideDeck.Navigator.GoToLast | src/App.jsx:32-35 | the new state is (last slide, 'next') |
| SlideDeck.Navigator.Perform | src/App.jsx:13-35 | running a callback gives the state its pure counterpart `Apply` computes |
| SlideDeck.Navigator.OnTouchEnd | src/App.jsx:38-41 | a left swipe runs `nextSlide` and a right swipe `prevSlide`; up, down and no gesture leave the state as it was |
| SlideDeck.Navigator.OnKeyDown | src/App.jsx:44-49 | a bound key runs its callback and suppresses the default; any other key changes nothing |
| Swipe.HorizontalIff | src/hooks/useSwipe.js:27-36 | a left or right callback fires exactly when the horizontal travel dominates and strictly exceeds 50 |
| Swipe.VerticalNeverHorizontal | src/hooks/useSwipe.js:29-43 | when the vertical travel is at least the horizontal one (a tie included), left and right never fire |
| Swipe.VerticalIff | src/hooks/useSwipe.js:37-42 | when the vertical travel is at least the horizontal one, up fires exactly when `start.y - end.y` exceeds 50, down exactly when it is below −50, and nothing exactly when its size is at most 50 |
| Swipe.ThresholdIsStrict | src/hooks/useSwipe.js:6 | the threshold is strict both ways: a dominating horizontal travel of exactly 50, or a vertical travel of exactly 50 that is at least the horizontal one, fires nothing |
| Swipe.LeftwardFiresLeft | src/hooks/useSwipe.js:27-33 | a finger moving left past the threshold (positive `start.x - end.x`) fires the left callback |
| Swipe.ReversedGesture | src/hooks/useSwipe.js:27-43 | swapping the two ends swaps left with right and up with down, and keeps "nothing" |
| Swipe.ShiftInvariant | src/hooks/useSwipe.js:27-43 | moving both ends by the same offset does not change the outcome, while neither x becomes 0 |
| Swipe.Tracker.constructor | src/hooks/useSwipe.js:4-5 | both refs start at (0, 0) |
| Swipe.Tracker.TouchStart | src/hooks/useSwipe.js:9-15 | the start becomes the touch point and the end is reset to (0, 0) |
| Swipe.Tracker.TouchMove | src/hooks/useSwipe.js:17-22 | the end becomes the latest point and the start is kept |
| Swipe.Tracker.TouchEnd | src/hooks/useSwipe.js:24-44 | fires exactly the gesture `Classify` gives, so at most one callback |
| Swipe.TapFiresNothing | src/hooks/useSwipe.js:10 | a touch start followed by a touch end with no move fires nothing |
| Keyboard.HandleKeyDown | src/hooks/useKeyboard.js:5-29 | the default is suppressed exactly for bound keys, and the bound callback is called exactly when it was passed |
| Keyboard.ForwardKeys | src/hooks/useKeyboard.js:7-12 | 'ArrowRight', ' ' and 'PageDown' suppress the default and call `onNext` |
| Keyboard.BackwardKeys | src/hooks/useKeyboard.js:13-17 | 'ArrowLeft' and 'PageUp' suppress the default and call `onPrevious` |
| Keyboard.HomeAndEnd | src/hooks/useKeyboard.js:18-25 | 'Home' calls `onFirst` and 'End' calls `onLast`, both suppressing the default |
| Keyboard.UnboundKey | src/hooks/useKeyboard.js:26-27 | any other key calls nothing and keeps the default |
| Keyboard.MissingCallback | src/hooks/useKeyboard.js:10-11 | a bound key whose callback was not passed still suppresses the default |
| WrapDeck.MovesInDeck | index.js:81-87 | both modular updates keep the index in [0, 16] |
| WrapDeck.MoveSteps | index.js:81-87 | inside the deck the moves step by one; next from 16 wraps to 0 and prev from 0 wraps to 16 |
| WrapDeck.NextPrevInverse | index.js:81-87 | next then prev, and prev then next, are the identity |
| WrapDeck.NextTimesIsShift | index.js:81-83 | `n` moves forward land on `(i + n) mod 17` |
| WrapDeck.FullCycle | index.js:79-83 | any multiple of seventeen moves forward returns to the starting slide |
| WrapDeck.SlideAlwaysDefined | index.js:103-595 | the index into the 18-entry `slides` array is in bounds, and its last entry is never reached |
| WrapDeck.KeyMoves | index.js:90-96 | exactly 'ArrowRight' and the key name "Space" move forward and exactly 'ArrowLeft' moves back; the space key itself (" ") does nothing |
| WrapDeck.Deck.constructor | index.js:78 | the deck starts on slide 0 |
| WrapDeck.Deck.NextSlide | index.js:81-83 | the new index is the wrapped successor |
| WrapDeck.Deck.PrevSlide | index.js:85-87 | the new index is the wrapped predecessor |
| WrapDeck.Deck.HandleKeyDown | index.js:90-96 | the new index is the successor, the predecessor or the old index, as `KeyMove` decides |
| WrapDeck.Deck.Shown | index.js:794 | the slide shown is an index below 17 into `slides` |
| GeminiRetry.Outcome | App.jsx:57-75 | a thrown error is caught; non-2xx gives "Too Many Requests" for 429 and "API Error: " plus the status text otherwise; a 2xx answer gives its text, or "No response generated." when the text is missing or empty |
| GeminiRetry.Backoff | App.jsx:55-77 | the waits after `k` failures are `k` values, the `j`-th being 1000·2^j |
| GeminiRetry.Doubling | App.jsx:77 | each delay is twice the one before |
| GeminiRetry.BackoffTotal | App.jsx:55-77 | the waits after `k` failures add up to 1000·(2^k − 1) ms |
| GeminiRetry.WorstCaseWaits | App.jsx:55-77 | at most four waits, of 1000, 2000, 4000 and 8000 ms, 15 seconds in all |
| GeminiRetry.CallGemini | App.jsx:42-80 | an empty key rejects with the missing-key message before any attempt; otherwise 1 to 5 attempts are made, every attempt before the last failed, the result is the last attempt's outcome, a rejection means five attempts, and the waits are the back-off schedule |
| WorkshopSteps.StepCountMatches | App.jsx:505-583 | the `steps` array has thirteen entries |
| WorkshopSteps.StepBounds | App.jsx:584-585 | both moves stay on the screens; inside they move by one, and at the ends they do nothing |
| WorkshopSteps.StepUndo | App.jsx:584-585 | a move that did something is undone by the opposite move |
| WorkshopSteps.NextTimesClamps | App.jsx:584 | `n` presses of next from step `s` end on `min(12, s + n)` |
| WorkshopSteps.Stepper.constructor | App.jsx:501 | the page opens on step 0 |
| WorkshopSteps.Stepper.Next | App.jsx:584 | the new step is `NextStep` of the old one, in range |
| WorkshopSteps.Stepper.Prev | App.jsx:585 | the new step is `PrevStep` of the old one, in range |
| WorkshopSteps.Stepper.CurrentId | App.jsx:505-583 | the screen shown is always one of the step ids |
| WorkshopText.RemoveFences | App.jsx:244 | the global replace of "```latex" or "```" never lengthens the text; what it keeps is stated by RemoveFencesKeeps, RemoveFencesAtFirst and RemoveFencesIdentity |
| WorkshopText.RemoveFencesHead | App.jsx:244 | what the replace leaves starts with backticks only where the input did |
| WorkshopText.TickRunIsFence | App.jsx:244 | three backticks at an index is an occurrence of "```" there |
| WorkshopText.NoTickRunLeft | App.jsx:244 | no three backticks survive the replace, even where a removal brings backticks together |
| WorkshopText.NoFenceLeft | App.jsx:244 | no "```" occurs in the replaced text |
| WorkshopText.RemoveFencesIdentity | App.jsx:244 | a text with no "```" is left unchanged |
| WorkshopText.RemoveFencesIdempotent | App.jsx:244 | replacing twice is replacing once |
| WorkshopText.RemoveFencesKeeps | App.jsx:244 | a fence-free text that does not end in a backtick is kept character for character, whatever follows it |
| WorkshopText.RemoveFencesFence | App.jsx:244 | a fence at the head is dropped, together with "latex" when that follows the backticks, and nothing else is |
| WorkshopText.RemoveFencesAtFirst | App.jsx:244 | at the first "```" of a text, everything before it is kept, the fence (with "latex" after it, if present) is dropped, and the replace goes on after it; with RemoveFencesIdentity this determines the result for every text |
| WorkshopText.CleanLatex | App.jsx:243-245 | `cleanLatex` leaves no "```" and no whitespace at either end; CleanLatexPlain, CleanLatexAtFirst and CleanLatexBlock say what it keeps |
| WorkshopText.CleanLatexPlain | App.jsx:243-245 | a text without fences is only trimmed |
| WorkshopText.CleanLatexAtFirst | App.jsx:243-245 | at the first fence, the text before it is kept, only the fence goes, and what follows is cleaned in turn, all before the trim |
| WorkshopText.CleanLatexBlock | App.jsx:243-245 | a block wrapped in "```latex" and "```" comes out as the trimmed block |
| WorkshopText.CloseAt | App.jsx:248 | the lazy `.*?\*\*` closer found lies inside the text after the opener |
| WorkshopText.CloseAtSpec | App.jsx:248 | the closer found is the first "**" reached without crossing a line terminator; when none is found, every later "**" lies past a line terminator |
| WorkshopText.CloseAtRun | App.jsx:248 | a run free of '*' and line terminators ending in "**" is closed right there |
| WorkshopText.MatchAt | App.jsx:248 | a match of `\*\*.*?\*\*` spans at least four characters inside the text |
| WorkshopText.MatchAtBold | App.jsx:248 | what a match spans is a bold run |
| WorkshopText.PiecesFrom | App.jsx:248 | the split from a position has at least one piece |
| WorkshopText.Pieces | App.jsx:248 | `split` with a capturing group gives at least one piece |
| WorkshopText.PiecesFromConcat | App.jsx:248 | the pieces from a position concatenate to the rest of the text |
| WorkshopText.PiecesConcat | App.jsx:248 | the pieces of `split(/(\*\*.*?\*\*)/g)` concatenate back to the text |
| WorkshopText.PiecesFromLead | App.jsx:248 | no match starts inside the piece being scanned |
| WorkshopText.PiecesFromNext | App.jsx:248 | with more than one piece, the second is the leftmost match and the rest is the split after it |
| WorkshopText.PiecesShape | App.jsx:248 | the first piece is the text before the leftmost match, the second is that match, and the rest is the split after it |
| WorkshopText.PiecesFromBold | App.jsx:248 | every odd-indexed piece from a position is a bold run |
| WorkshopText.PiecesBold | App.jsx:248 | every odd-indexed piece is a match of the bold pattern |
| WorkshopText.SliceMarkers | App.jsx:253 | `slice(2, -2)` of a run of four or more drops exactly two characters at each end; a shorter one gives "" |
| WorkshopText.ParseBold | App.jsx:247-258 | one segment per piece of the split; ParseBoldMatches says what the odd segments are and ParseBoldRoundTrip that the segments read back to the text |
| WorkshopText.BoldRunSegment | App.jsx:250-255 | a bold run is shown in bold, and its text with the markers put back is the run |
| WorkshopText.ParseBoldMatches | App.jsx:247-258 | every odd segment is bold, is its piece without the markers, stays on one line and holds no "**" |
| WorkshopText.PiecesFromNoMarkers | App.jsx:248 | a text with no "**" is one piece from any position |
| WorkshopText.NoMarkers | App.jsx:247-258 | a text with no "**" is one plain segment |
| WorkshopText.OneBoldWord | App.jsx:247-258 | "**word**" gives a plain "", the word in bold and a plain "" |
| WorkshopText.SegmentRoundTrip | App.jsx:250-257 | a piece shown as its segment reads back as itself exactly when it is neither "**" nor "***", the two pieces that start and end with "**" but are too short for `slice(2, -2)` |
| WorkshopText.UnparsePieces | App.jsx:249-257 | segments made piece by piece read back to the pieces put together, when no piece is "**" or "***" |
| WorkshopText.ParseBoldRoundTrip | App.jsx:247-258 | the segments, with the markers of the bold ones put back, concatenate to the text, unless a piece between matches is a stray "**" or "***" |
| WorkshopText.StrayMarkers | App.jsx:247-258 | the exception exhibited: "**" becomes one empty bold segment, which reads back as "****" |
| WorkshopText.HashRun | App.jsx:287 | the count of leading '#', the next character not being one |
| WorkshopText.StripHeadingMarkerMatch | App.jsx:287 | `replace(/^#+\s/, "")` removes the unique match when there is one and changes nothing otherwise |
| WorkshopText.ClassifyLineKinds | App.jsx:266-295 | a line is a spacer exactly when it is blank; a bullet exactly when its trimmed form starts with "* " or "- "; a heading exactly when otherwise it starts with '#'; a paragraph keeps the untrimmed line |
| WorkshopText.IndentIgnored | App.jsx:267-293 | leading whitespace changes only paragraphs, which keep it |
| WorkshopText.RenderMarkdown | App.jsx:261-266 | nothing for an empty text, otherwise one block per line |
| WorkshopText.RenderLines | App.jsx:263-296 | lines joined with "\n" render one block each, in order, each classified on its own |
| GeminiApi.DigitChar | src/utils/geminiAPI.js:273 | each digit value has a digit character that reads back as it |
| GeminiApi.Decimal | src/utils/geminiAPI.js:273 | a number's decimal form is a non-empty run of digits |
| GeminiApi.DecimalRoundTrip | src/utils/geminiAPI.js:273 | reading back a number's decimal digits (`parseInt`) gives the number |
| GeminiApi.SpaceEnd | src/utils/geminiAPI.js:272 | `\s*` takes exactly the maximal run of whitespace |
| GeminiApi.DigitEnd | src/utils/geminiAPI.js:272 | `\d+` takes exactly the maximal run of digits |
| GeminiApi.FirstFromFound | src/utils/geminiAPI.js:272 | a left-to-right search that finds something finds it at an index with no hit before it |
| GeminiApi.FirstFromNone | src/utils/geminiAPI.js:272 | a search finds nothing exactly when no index has a hit |
| GeminiApi.ScoreLeftmost | src/utils/geminiAPI.js:272-273 | an extracted score is the number after the leftmost match of `GRADE:\s*\d+`, case-insensitive |
| GeminiApi.ScoreAbsent | src/utils/geminiAPI.js:272-273 | the score is null exactly when no index matches |
| GeminiApi.GradeLineChars | src/utils/geminiAPI.js:249 | the characters of a "**GRADE: " line |
| GeminiApi.GradeAtLine | src/utils/geminiAPI.js:272-273 | in "**GRADE: n…" the pattern matches at index 2 and reads `n`; it matches nowhere earlier |
| GeminiApi.GradeLineScore | src/utils/geminiAPI.js:272-273 | a text "**GRADE: n" followed by a non-digit scores `n` |
| GeminiApi.KindOfFirstMatch | src/utils/geminiAPI.js:46-145 | the reply chosen is the highest-priority kind whose keywords the lowercased prompt contains (grading/assignment, then summarize/summary, then paper/research, then extract/analyze), or the default when none matches |
| GeminiApi.HitsPair | src/utils/geminiAPI.js:49-126 | each kind is tested with its two keywords and nothing else |
| GeminiApi.KeywordCapsKind | src/utils/geminiAPI.js:47-126 | a prompt containing a kind's keyword gets that reply or a higher-priority one |
| GeminiApi.MockText | src/utils/geminiAPI.js:50-153 | every canned reply is non-empty |
| GeminiApi.GradeMockScore | src/utils/geminiAPI.js:56 | the grading mock's GRADE line scores 18 |
| GeminiApi.RequestText | src/utils/geminiAPI.js:21 | the text sent is the prompt alone for an empty context, otherwise the context, a blank line and the prompt |
| GeminiApi.CallGemini | src/utils/geminiAPI.js:4-43 | with no key nothing is sent and the mock for the prompt answers; with a key the request text is sent, a non-empty answer is returned, and a missing or empty text or a rejection falls back to the mock of the prompt; it always resolves to a non-empty string |
| GeminiApi.SummarizeKind | src/utils/geminiAPI.js:156-167 | the summarize prompt gets the summary reply or a higher-priority one |
| GeminiApi.KeywordList | src/utils/geminiAPI.js:174 | `keywords.join(', ')` has the parts' length plus two characters per separator; KeywordListSnoc gives its contents |
| GeminiApi.KeywordListSnoc | src/utils/geminiAPI.js:174 | one keyword is listed as it is, and each further keyword is appended after ", " |
| GeminiApi.PapersKind | src/utils/geminiAPI.js:170-186 | the paper prompt gets the papers reply or a higher-priority one |
| GeminiApi.AnalyzeKind | src/utils/geminiAPI.js:188-200 | the analysis prompt gets the analysis reply or a higher-priority one |
| GeminiApi.FieldListLines | src/utils/geminiAPI.js:204 | the field list splits back into one "- f" line per field, in order |
| GeminiApi.ExtractKind | src/utils/geminiAPI.js:202-212 | the extraction prompt gets the analysis reply or a higher-priority one |
| GeminiApi.GradingPromptTruncates | src/utils/geminiAPI.js:226 | only the first 500 characters of the workflow JSON reach the grading prompt |
| GeminiApi.GradeAssignment | src/utils/geminiAPI.js:214-280 | `maxScore` is the assignment's points and the score is what extraction finds in the feedback |
| GeminiApi.LiveGrade | src/utils/geminiAPI.js:214-280 | when the request is answered with text, that text is the feedback, the score is the GRADE number in it and the maximum is the assignment's points |
| GeminiApi.GradingKind | src/utils/geminiAPI.js:49 | a prompt opening "You are an expert instructor grading" gets the grading reply |
| GeminiApi.GradingPromptKind | src/utils/geminiAPI.js:215 | every grading prompt gets the grading reply |
| GeminiApi.FallbackGrading | src/utils/geminiAPI.js:5-8 | in demo mode or on any failure a grading prompt is answered with the grading mock |
| GeminiApi.DemoGrade | src/utils/geminiAPI.js:214-280 | with no key or a failed request every assignment is graded 18 out of its points, with the grading mock as feedback |
| Assignments.CriteriaAddUp1 | src/components/Assignments/AssignmentSystem.jsx:29-35 | the first assignment's criteria add up to 20 |
| Assignments.CriteriaAddUp2 | src/components/Assignments/AssignmentSystem.jsx:66-73 | the second assignment's criteria add up to 30 |
| Assignments.CriteriaAddUp3 | src/components/Assignments/AssignmentSystem.jsx:107-115 | the third assignment's criteria add up to 50 |
| Assignments.CriteriaAddUp | src/components/Assignments/AssignmentSystem.jsx:7-125 | every assignment's grading criteria add up to its points |
| Assignments.TotalPointsIs100 | src/components/Assignments/AssignmentSystem.jsx:196 | the "Total Points" stat is 100 |
| Assignments.CatalogIdsSpec | src/components/Assignments/AssignmentSystem.jsx:7-125 | the catalogue ids are exactly "assignment-1" to "assignment-3", each used once |
| Assignments.FindFrom | src/components/Assignments/AssignmentSystem.jsx:133 | `find` from an index returns an entry with the id, or nothing exactly when no later entry has it |
| Assignments.FindSpec | src/components/Assignments/AssignmentSystem.jsx:133 | an id is found exactly when some assignment has it, and what is found is that assignment |
| Assignments.KeysBound | src/components/Assignments/AssignmentSystem.jsx:191 | keys that are all assignment ids are no more than the assignments |
| Assignments.Board.constructor | src/components/Assignments/AssignmentSystem.jsx:128-130 | the board starts with no submissions, no results and nothing being graded |
| Assignments.Board.SubmittedCount | src/components/Assignments/AssignmentSystem.jsx:191 | the "Submitted" stat is the number of ids with a submission, at most the number of assignments |
| Assignments.Board.IsSubmitted | src/components/Assignments/AssignmentSystem.jsx:223 | a card is drawn submitted exactly when its id has a submission; HandleSubmit makes its own card submitted and keeps every other card's flag |
| Assignments.Board.BeginSubmit | src/components/Assignments/AssignmentSystem.jsx:135-147 | the id is marked as being graded, and its submission is stored, tagged with the id and replacing an earlier one; nothing else changes |
| Assignments.Board.FinishGrading | src/components/Assignments/AssignmentSystem.jsx:150-171 | a known id gets the grade of its assignment stored under it; an unknown id, for which `gradeAssignment` throws, gets nothing; either way `isGrading` is cleared and the submissions are kept |
| Assignments.Board.HandleSubmit | src/components/Assignments/AssignmentSystem.jsx:132-172 | `handleSubmit` as a whole: the submission stored, so its card is then drawn submitted while every other card keeps its flag, and the "Submitted" count grows by one exactly for a first submission; the grade stored exactly for a known id; `isGrading` cleared; the board's invariants kept for a known id |
| WorkflowCanvas.ActiveAfterFromStart | src/components/WorkflowCanvas/WorkflowCanvas.jsx:31-46 | after `n` ticks the lit node is the start plus `n`, stopping at the last node |
| WorkflowCanvas.RemoveAll | src/components/WorkflowCanvas/WorkflowCanvas.jsx:39 | the filter drops every copy of the value and keeps exactly the other values |
| WorkflowCanvas.RemoveAllKeepsOthers | src/components/WorkflowCanvas/WorkflowCanvas.jsx:39 | every other value is kept as often as it was there |
| WorkflowCanvas.RemoveAllAbsent | src/components/WorkflowCanvas/WorkflowCanvas.jsx:39 | filtering out a value that is not there changes nothing |
| WorkflowCanvas.Canvas.constructor | src/components/WorkflowCanvas/WorkflowCanvas.jsx:14-17 | no node lit, nothing complete, no particles, no cleanups pending |
| WorkflowCanvas.Canvas.Tick | src/components/WorkflowCanvas/WorkflowCanvas.jsx:29-46 | with autoplay off, or on the last node, nothing changes; otherwise the next node lights and a node that was lit is marked complete, gets a particle and schedules its cleanup; complete nodes stay `[0, ..., lit − 1]` |
| WorkflowCanvas.Canvas.FireCleanup | src/components/WorkflowCanvas/WorkflowCanvas.jsx:38-40 | the oldest cleanup removes every particle of its node and nothing else |
| WorkflowCanvas.Canvas.Reset | src/components/WorkflowCanvas/WorkflowCanvas.jsx:51-55 | back to (-1, [], []), with already scheduled cleanups still pending |
| WorkflowCanvas.Canvas.IsCompleted | src/components/WorkflowCanvas/WorkflowCanvas.jsx:63 | a node is complete exactly when it lies before the lit one, so the last node never is |
| DataFlow.StepAfterIsShift | src/components/DataFlow/DataFlow.jsx:47-57 | after `n` ticks the counter is `n` steps further on, modulo 4 |
| DataFlow.Period | src/components/DataFlow/DataFlow.jsx:47-57 | the counter 0, 1, 2, 3, 0, … has period four |
| DataFlow.StatusShape | src/components/DataFlow/DataFlow.jsx:89-101 | at most one step is processing, a processing step has no check mark, and steps before a checked one are checked |
| DataFlow.Flow.constructor | src/components/DataFlow/DataFlow.jsx:6-7 | the counter starts at 0 with nothing published |
| DataFlow.Flow.Tick | src/components/DataFlow/DataFlow.jsx:47-56 | the counter advances cyclically; from steps 0 to 2 the step's output is published, and the tick back to 0 keeps what was shown |
| ZapierBuilder.SummaryNames | src/components/ZapierBuilder/ZapierBuilder.jsx:155-156 | the sentence starts "When ", then names the lowercased trigger event, " in ", the trigger app, ", it will ", the lowercased action event, " in " and the action app, each at its position, and nothing follows |
| ZapierBuilder.Builder.constructor | src/components/ZapierBuilder/ZapierBuilder.jsx:18-20 | no trigger, no action, not animating |
| ZapierBuilder.Builder.SelectTrigger | src/components/ZapierBuilder/ZapierBuilder.jsx:22-25 | the trigger is set and the action always cleared |
| ZapierBuilder.Builder.SelectAction | src/components/ZapierBuilder/ZapierBuilder.jsx:27-30 | the action is set, the animation starts and the trigger is kept |
| ZapierBuilder.Builder.AnimationEnds | src/components/ZapierBuilder/ZapierBuilder.jsx:30 | the timeout stops the animation and touches nothing else |
| ZapierBuilder.Builder.Reset | src/components/ZapierBuilder/ZapierBuilder.jsx:33-37 | all three fields cleared |
| ZapierBuilder.Builder.ChangeTrigger | src/components/ZapierBuilder/ZapierBuilder.jsx:85 | only the trigger is cleared |
| ZapierBuilder.Builder.ChangeAction | src/components/ZapierBuilder/ZapierBuilder.jsx:139 | only the action is cleared |
| ZapierBuilder.Builder.ShowSuccess | src/components/ZapierBuilder/ZapierBuilder.jsx:150 | the success message shows exactly when both apps are chosen: choosing an action shows it exactly when a trigger was chosen, the animation's end keeps it, and choosing a trigger, a reset or either "Change" hides it |
| LiteratureReview.IdsDistinct | src/components/Workflows/LiteratureReview.jsx:13-56 | the six step ids are pairwise different, so keying results by step is keying them by id |
| LiteratureReview.PosOf | src/components/Workflows/LiteratureReview.jsx:13-56 | every step has an index in `workflowSteps`, and that index holds the step |
| LiteratureReview.AnalysisResult | src/components/Workflows/LiteratureReview.jsx:80-81 | the analyze result is the whole reply followed by "..." when the reply has at most 300 characters, and its first 300 characters followed by "..." otherwise, so at most 303 characters |
| LiteratureReview.StepResultIs | src/components/Workflows/LiteratureReview.jsx:72-92 | only the "analyze" case of the switch depends on the paper search's reply |
| LiteratureReview.ResultsAfterUnique | src/components/Workflows/LiteratureReview.jsx:94 | the results after `n` steps are determined by `n` and what each step writes |
| LiteratureReview.ResultsAfterStep | src/components/Workflows/LiteratureReview.jsx:94 | writing step `n`'s result adds exactly that step's entry |
| LiteratureReview.FullRunResults | src/components/Workflows/LiteratureReview.jsx:98 | after a full run the results hold exactly the six steps |
| LiteratureReview.AllStepsCount | src/components/Workflows/LiteratureReview.jsx:13-56 | there are six steps |
| LiteratureReview.Review.constructor | src/components/Workflows/LiteratureReview.jsx:7-11 | the default topic, not running, step −1, nothing completed, no results |
| LiteratureReview.Review.StartDisabled | src/components/Workflows/LiteratureReview.jsx:135 | the start button is disabled exactly while running or when the topic is blank |
| LiteratureReview.Review.ShowSuccess | src/components/Workflows/LiteratureReview.jsx:190 | the success panel shows exactly when the current step is 6: a full run ends with it shown, while each step of the run and a reset hide it |
| LiteratureReview.Review.RunStep | src/components/Workflows/LiteratureReview.jsx:65-95 | pass `i` sets the current step to `i` (so the success panel is hidden), writes that step's result and appends `i` |
| LiteratureReview.Review.Record | src/components/Workflows/LiteratureReview.jsx:94-95 | the result is stored under the step and `i` appended to the completed list |
| LiteratureReview.Review.RunWorkflow | src/components/Workflows/LiteratureReview.jsx:58-100 | a full run leaves step 6 with the success panel shown, not running (the start button enabled again for a non-blank topic), completed steps `[0, ..., 5]`, the topic unchanged, and each of the six steps holding its result, the analyze one cut from the paper search's reply |
| LiteratureReview.Review.Reset | src/components/Workflows/LiteratureReview.jsx:102-106 | back to −1, [] and no results, which hides the success panel, with the topic and the running flag untouched |

## Left out

- Rendering: JSX, CSS classes, icons, animations and the slide bodies are presentation only.
- Network and environment: `fetch`, `response.json()`, `JSON.stringify` of the payload and `import.meta.env` are not modelled. The key is a parameter and the answer an input.
- Timers: `setTimeout` and `setInterval` are methods the caller invokes. The 1500 ms pause between literature-review steps and the real time of every delay are not modelled; the retry delays are recorded as values.
- React semantics: batching of state updates, re-rendering, StrictMode and overlapping async runs (for instance a second `handleSubmit` or `runWorkflow` started before the first ends) are not modelled. Each handler is one atomic method.
- `Date().toISOString()` timestamps (`submittedAt`, `gradedAt`, the Enrich step's `timestamp`), `alert` and `console` output are left out.
- src/components/APIPlayground/APIPlayground.jsx, src/components/Assignments/AssignmentCard.jsx, src/components/Workflows/EmailSummarizer.jsx, src/components/Workflows/PaperFinder.jsx, src/components/SlideControls.jsx, main.jsx and the progress-bar widths are not part of this model. They are random ids, clipboard calls, display toggles or bootstrap code.
- GeminiApi.MockText: each canned reply is reduced to its title line, and the grading reply to its "**GRADE: 18/20 points**" line. Only which reply is chosen, and the score read from it, are modelled.
- Strings.ToLower: maps ASCII letters only. The dispatcher's keywords are ASCII, and only U+0130 and U+212A lower-case into ASCII in JavaScript, so the choice of reply can differ from JavaScript only for prompts containing those two characters.
- GeminiApi.ScoreOf: the score is an unbounded integer. `parseInt` on a very long digit run loses precision as a double; that is not modelled.
- Swipe.Classify: touch coordinates are integers, not doubles.
- Strings.Prefix: counts Dafny characters, where JavaScript's `substring` counts UTF-16 code units. A character outside the Basic Multilingual Plane (the "📚" that opens the papers reply, for instance) is one character here and two code units there, so on such text the analyze step's cut and the 500-character cut of the grading prompt keep more characters here, and a cut through a surrogate pair, which leaves a lone surrogate in JavaScript, cannot be represented.
- SlideDeck.Navigator.constructor: the deck size is a parameter of at least 1, not the 17 entries of src/slides/slidesContent.jsx:29-494.
- LiteratureReview.Review.RunWorkflow: `results` is keyed by the step rather than by its id string. `IdsDistinct` shows the two keyings agree. The run is modelled from start to end, so the intermediate renders are not observable.
- Assignments.Board.HandleSubmit: the stored grading result is the `gradeAssignment` value without its `gradedAt` timestamp. The stored submission is the form data tagged with its id, without `submittedAt`.
- index.js compares `e.key` with "Space", a value browsers never report for the space bar (they report " "). WrapDeck.KeyMoves models this as written: the space bar does not advance that deck.
