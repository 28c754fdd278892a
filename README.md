# Career Navigator: a verified model of its page logic

Career Navigator is a single-page web application for job seekers in
Morocco. Its pages simulate AI services with fixed data and timers:

- a six-step CV builder;
- a CV/offer comparison (analyser);
- an ATS optimiser;
- an ATS evaluator scoring fourteen criteria;
- a coach chat;
- a job search over four sample offers.

Three shared components serve these pages: a file picker that validates
size and type, a circular score gauge, and a job offer card.

This project restates that logic in Dafny and proves what it promises.
Each page or component is one module:

| module | file | models |
|---|---|---|
| `CVBuilder` | `cv_builder.dfy` | `src/pages/CVBuilder.tsx` |
| `ATSEvaluator` | `ats_evaluator.dfy` | `src/pages/ATSEvaluator.tsx` |
| `CVAnalyzer` | `cv_analyzer.dfy` | `src/pages/CVAnalyzer.tsx` |
| `ATSOptimizer` | `ats_optimizer.dfy` | `src/pages/ATSOptimizer.tsx` |
| `SmartAssistant` | `smart_assistant.dfy` | `src/pages/SmartAssistant.tsx` |
| `Assistant`, `AssistantExamples` | `assistant.dfy` | `src/pages/Assistant.tsx` |
| `FileUpload` | `file_upload.dfy` | `src/components/ui/file-upload.tsx` |
| `ScoreRing` | `score_ring.dfy` | `src/components/ui/score-ring.tsx` |
| `JobCard` | `job_card.dfy` | `src/components/cards/JobCard.tsx` |
| `Text` | `text.dfy` | the JavaScript string built-ins the pages call |
| `Seqs` | `seqs.dfy` | `Array.prototype.filter` and the subsequence relation |
| `Wrappers` | `wrappers.dfy` | `Option` |

How the source is rendered in Dafny:

- A page's React state becomes a `class`. Each handler becomes a method
  with a `modifies` clause. Each method states the whole new state and keeps
  the page's invariant `Valid()`.
- Pure helpers become functions with named results. Examples are
  `getColor`, `validateFile`, the search filter and the preview counts.
- An `async` handler that awaits a timer becomes two methods. `Start…`
  runs the handler up to its `await` and records a pending timer.
  `Complete…` runs the rest when the timer fires.
- The handlers do not check whether a run is already in progress, so
  several timers can be pending at once. The model counts them (`pending`).
  On the search page it keeps the query each call captured.
- `Date.now()`, `Math.random()` and the formatted clock time are
  parameters of the methods that read them.
- JavaScript's `trim`, `toLowerCase`, `includes`, `split`, `pop`,
  `replace` and `Number.prototype.toString` are modelled in `Text`. The
  whitespace set of `trim` is that of the ECMAScript standard (the
  WhiteSpace and LineTerminator productions). `Math.round` rounds halves
  up.

## Model

| member | source | states |
|---|---|---|
| ScoreRing.Classify | src/components/ui/score-ring.tsx:22-34 | every score falls in exactly one band: >= 80 success, [60, 80) primary, [40, 60) warning, < 40 destructive |
| ScoreRing.GetColor | src/components/ui/score-ring.tsx:22-27 | each colour class is returned exactly for the scores of its band |
| ScoreRing.GetGradientId | src/components/ui/score-ring.tsx:29-34 | each gradient id is returned exactly for the scores of its band |
| ScoreRing.ColorAndGradientAgree | src/components/ui/score-ring.tsx:22-34 | the text colour and the arc gradient always name the same band |
| ScoreRing.ClassifyMonotone | src/components/ui/score-ring.tsx:22-27 | a higher score never gets a worse band |
| JobCard.BadgeTone | src/components/cards/JobCard.tsx:66-71 | each badge tone is chosen exactly for its score interval (80, 60 and 40 as thresholds) |
| JobCard.Render | src/components/cards/JobCard.tsx:37-81 | title, company and location always show; date, source and link show iff their prop is defined and non-empty; the score badge shows iff the score is defined, with its value and its tone's classes |
| JobCard.BadgeTonesMatchGaugeBands | src/components/cards/JobCard.tsx:66-71 | the badge tones cover the same intervals as the gauge's bands, muted standing for destructive |
| JobCard.ZeroScoreShownEmptyDateHidden | src/components/cards/JobCard.tsx:49-74 | a score of 0 still shows a (muted) badge, while an empty date is hidden |
| FileUpload.AllowedTypes | src/components/ui/file-upload.tsx:44 | one entry per comma-separated piece of `accept` (at least one), each trimmed and lower-cased |
| FileUpload.AllowedTypesOfCleanList | src/components/ui/file-upload.tsx:44 | an `accept` list joined from comma-free entries without padding or capitals allows exactly those entries |
| FileUpload.DefaultAllowedTypes | src/components/ui/file-upload.tsx:15-44 | the default `accept` allows exactly ".pdf", ".docx", ".doc", ".txt" |
| FileUpload.ExtensionIsLowerCasedTextAfterLastDot | src/components/ui/file-upload.tsx:45 | the extension is "." followed by the lower-cased text after the name's last dot (the whole name when it has none) and holds no other dot |
| FileUpload.ExtensionOfSimpleName | src/components/ui/file-upload.tsx:45 | "stem.suffix" with dot-free parts and a lower-case suffix has extension ".suffix" |
| FileUpload.Validate | src/components/ui/file-upload.tsx:34-52 | an oversized file is rejected as too large before any type test; within the limit a file is accepted iff some entry equals its extension or, without its first dot, occurs in its MIME type, and is otherwise rejected as an unsupported type, whatever the props |
| FileUpload.DefaultVerdictWithinLimit | src/components/ui/file-upload.tsx:34-52 | under the default props, a file within 10 MB is accepted iff it passes the type test against the four default entries |
| FileUpload.PdfAtLimitAccepted | src/components/ui/file-upload.tsx:38 | a PDF of exactly 10 MB is accepted (the size test is strict), one byte more is rejected as too large |
| FileUpload.PngRejected | src/components/ui/file-upload.tsx:46-47 | a PNG image within the limit is rejected as an unsupported type |
| FileUpload.SpreadsheetPassesDefaultCheck | src/components/ui/file-upload.tsx:46 | an .xlsx file passes the default check, because its MIME type contains "doc" (in "officedocument") |
| FileUpload.DocEntryMatches | src/components/ui/file-upload.tsx:46 | a ".doc" entry admits every file whose MIME type contains "doc", whatever its extension |
| FileUpload.Uploader.constructor | src/components/ui/file-upload.tsx:13-21 | the widget starts with its props, no file, no error and nothing announced |
| FileUpload.Uploader.HandleFile | src/components/ui/file-upload.tsx:54-59 | returns true iff the file validates; a valid file becomes the held file, clears the error and is announced to the owner once; an invalid one sets the matching error message and leaves the held file and the announcements as they were |
| FileUpload.Uploader.ClearFile | src/components/ui/file-upload.tsx:74-80 | no file held and no error; the owner is not told |
| ATSEvaluator.JsRound | src/pages/ATSEvaluator.tsx:60 | the result is the integer within half a unit of its argument, halves going up |
| ATSEvaluator.SumBetween | src/pages/ATSEvaluator.tsx:60 | scores bounded by lo and hi bound the reduced sum by n*lo and n*hi |
| ATSEvaluator.AverageBetween | src/pages/ATSEvaluator.tsx:60 | the rounded mean of scores in [lo, hi] lies in [lo, hi] |
| ATSEvaluator.AverageWithinMinMax | src/pages/ATSEvaluator.tsx:60 | the overall score lies between the lowest and the highest category score |
| ATSEvaluator.MockAverageIs80 | src/pages/ATSEvaluator.tsx:29-60 | the fourteen fixed scores sum to 1115 and round to an overall score of 80, drawn in the gauge's success band |
| ATSEvaluator.Evaluation | src/pages/ATSEvaluator.tsx:60-66 | a completed evaluation reports overall score 80, the fourteen fixed categories and the fixed summary |
| ATSEvaluator.ScoreTone | src/pages/ATSEvaluator.tsx:71-81 | three bands: >= 80 success, [60, 80) warning, < 60 destructive, each exactly on its interval |
| ATSEvaluator.GetScoreColor | src/pages/ATSEvaluator.tsx:71-75 | each text colour is returned exactly for the scores of its band |
| ATSEvaluator.GetProgressColor | src/pages/ATSEvaluator.tsx:77-81 | each bar colour is returned exactly for the scores of its band |
| ATSEvaluator.ColorsShareBands | src/pages/ATSEvaluator.tsx:71-81 | both helpers name the same band for every score, one with "text-", the other with "bg-" |
| ATSEvaluator.Toggled | src/pages/ATSEvaluator.tsx:193-195 | a click opens the clicked category iff it was not open; otherwise nothing is open |
| ATSEvaluator.AtMostOneExpanded | src/pages/ATSEvaluator.tsx:211-219 | the category names are distinct, so at most one category shows its feedback |
| ATSEvaluator.DistinctNames | src/pages/ATSEvaluator.tsx:29-44 | the fourteen category names are pairwise distinct |
| ATSEvaluator.EvaluatorPage.constructor | src/pages/ATSEvaluator.tsx:47-50 | no file, no spinner, no result, nothing expanded |
| ATSEvaluator.EvaluatorPage.SelectFile | src/pages/ATSEvaluator.tsx:115-118 | the chosen file is held; nothing else changes |
| ATSEvaluator.EvaluatorPage.EvaluateDisabled | src/pages/ATSEvaluator.tsx:146 | the button is enabled iff no evaluation is running and a file is held |
| ATSEvaluator.EvaluatorPage.StartEvaluate | src/pages/ATSEvaluator.tsx:52-58 | without a file nothing changes; with one the spinner turns on and one more timer is pending |
| ATSEvaluator.EvaluatorPage.CompleteEvaluate | src/pages/ATSEvaluator.tsx:58-68 | the result becomes the fixed evaluation (score 80, the fourteen categories), the spinner turns off and one timer fewer is pending |
| ATSEvaluator.EvaluatorPage.ToggleCategory | src/pages/ATSEvaluator.tsx:192-195 | the expanded category becomes the toggled one; nothing else changes |
| ATSEvaluator.EvaluatorPage.Reset | src/pages/ATSEvaluator.tsx:241-244 | result and file are cleared; the expanded category is kept |
| CVAnalyzer.MatchMessage | src/pages/CVAnalyzer.tsx:146-150 | each sentence under the gauge is chosen exactly for its score interval (>= 80, [60, 80), < 60) |
| CVAnalyzer.MessageAgreesWithGauge | src/pages/CVAnalyzer.tsx:144-150 | the excellent message goes with the gauge's success band, the good one with primary, the average one with the two lowest bands |
| CVAnalyzer.MockAnalysisShape | src/pages/CVAnalyzer.tsx:39-48 | the fixed report scores 78 with 5 common skills, 3 missing and 3 recommendations, read as a good match on the primary band |
| CVAnalyzer.AnalyzerPage.constructor | src/pages/CVAnalyzer.tsx:25-28 | no file, an empty description, no spinner, no result |
| CVAnalyzer.AnalyzerPage.SelectFile | src/pages/CVAnalyzer.tsx:92 | the chosen file is held; nothing else changes |
| CVAnalyzer.AnalyzerPage.SetDescription | src/pages/CVAnalyzer.tsx:104 | the description becomes the typed text; nothing else changes |
| CVAnalyzer.AnalyzerPage.AnalyzeDisabled | src/pages/CVAnalyzer.tsx:116 | the button is disabled iff an analysis is running, or there is neither a file nor a non-empty description |
| CVAnalyzer.AnalyzerPage.StartAnalyze | src/pages/CVAnalyzer.tsx:30-36 | with no file and an empty description nothing changes; otherwise the spinner turns on and one more timer is pending |
| CVAnalyzer.AnalyzerPage.CompleteAnalyze | src/pages/CVAnalyzer.tsx:38-50 | the result becomes the fixed report, the spinner turns off, one timer fewer is pending, the inputs stay |
| CVAnalyzer.AnalyzerPage.ResetAnalysis | src/pages/CVAnalyzer.tsx:53-57 | result, file and description are cleared, so the guard blocks again |
| ATSOptimizer.SuccessTextEchoesRole | src/pages/ATSOptimizer.tsx:159 | the success text quotes the role verbatim right after its fixed opening; its length is the role's plus the fixed parts |
| ATSOptimizer.SuccessTextInjective | src/pages/ATSOptimizer.tsx:159 | different roles give different success texts |
| ATSOptimizer.OptimizerPage.constructor | src/pages/ATSOptimizer.tsx:17-20 | no file, an empty role, neither optimising nor optimised |
| ATSOptimizer.OptimizerPage.SelectFile | src/pages/ATSOptimizer.tsx:76 | the chosen file is held; nothing else changes |
| ATSOptimizer.OptimizerPage.SetTargetRole | src/pages/ATSOptimizer.tsx:89 | the role becomes the typed text, also after optimisation; nothing else changes |
| ATSOptimizer.OptimizerPage.OptimizeDisabled | src/pages/ATSOptimizer.tsx:100 | the button is enabled iff nothing is running, a file is held and the role is non-empty (untrimmed) |
| ATSOptimizer.OptimizerPage.StartOptimize | src/pages/ATSOptimizer.tsx:22-28 | with no file or an empty role nothing changes; otherwise the spinner turns on and one more timer is pending |
| ATSOptimizer.OptimizerPage.CompleteOptimize | src/pages/ATSOptimizer.tsx:28-31 | optimised, spinner off, one timer fewer pending, file and role untouched |
| ATSOptimizer.OptimizerPage.ResultPanel | src/pages/ATSOptimizer.tsx:124-159 | before optimisation the five features show; after it, exactly the success sentence for the current role, which quotes the role |
| SmartAssistant.InitialMessages | src/pages/SmartAssistant.tsx:15-22 | the chat opens with one message: the welcome text, from the coach, id "1" |
| SmartAssistant.ReplyIndex | src/pages/SmartAssistant.tsx:60 | for a draw in [0, 1) the index is the floor of draw * 4, always inside the four-reply pool |
| SmartAssistant.EveryReplyReachable | src/pages/SmartAssistant.tsx:24-60 | each of the four replies is drawn for some value of the random draw |
| SmartAssistant.CountAppend | src/pages/SmartAssistant.tsx:52-65 | appending a message adds one to its sender's count and nothing to the others' |
| SmartAssistant.RepliesOwed | src/pages/SmartAssistant.tsx:44-66 | in a valid log the coach has spoken; with no reply pending, user messages number one fewer than coach messages |
| SmartAssistant.Transcript.constructor | src/pages/SmartAssistant.tsx:32-33 | the log holds the initial messages; no typing indicator, no reply owed |
| SmartAssistant.Transcript.Send | src/pages/SmartAssistant.tsx:44-53 | the user's text is appended verbatim with the id of the clock reading, the typing indicator turns on and one reply is owed |
| SmartAssistant.Transcript.DeliverReply | src/pages/SmartAssistant.tsx:56-66 | the drawn pool reply is appended from the coach with the id of the clock reading plus one; the indicator turns off and one reply fewer is owed |
| SmartAssistant.Transcript.Exchange | src/pages/SmartAssistant.tsx:44-66 | one send answered before the next grows the log by exactly two: the user's text verbatim, then a pool reply; earlier messages are unchanged |
| Assistant.SearchResults | src/pages/Assistant.tsx:68-75 | when some offer matches, the result is exactly the matching offers in list order (each shown one matches, each matching one is shown); when none matches, every offer; never empty for a non-empty list |
| Assistant.SearchBlockedIff | src/pages/Assistant.tsx:60 | the guard blocks exactly the queries made only of white space |
| Assistant.PaddingNeverAddsMatches | src/pages/Assistant.tsx:69-73 | the filter uses the untrimmed query, so padding can lose matches but never add them |
| Assistant.CardProps | src/pages/Assistant.tsx:190-195 | every card receives the offer's title, company, location, date, score, url and source |
| Assistant.ResultCardsShowEveryField | src/pages/Assistant.tsx:190-195 | every card of a completed search shows its date, source badge, score badge and link |
| Assistant.AssistantPage.constructor | src/pages/Assistant.tsx:54-57 | searches the sample offers; empty query, no spinner, not searched, no results |
| Assistant.AssistantPage.SetQuery | src/pages/Assistant.tsx:118 | the query becomes the typed text; nothing else changes |
| Assistant.AssistantPage.PickSuggestion | src/pages/Assistant.tsx:147-154 | before the first search, a suggestion button sets the query to its text |
| Assistant.AssistantPage.SearchDisabled | src/pages/Assistant.tsx:128 | the button is disabled iff a search runs or the query is all white space |
| Assistant.AssistantPage.StartSearch | src/pages/Assistant.tsx:59-66 | a query that trims to "" changes nothing; any other raises both flags and queues a timer holding the query as typed |
| Assistant.AssistantPage.CompleteSearch | src/pages/Assistant.tsx:66-76 | the oldest timer shows the results for the query it captured (never empty) and turns the spinner off |
| AssistantExamples.LocationMatches | src/pages/Assistant.tsx:72 | an offer located exactly where the query says matches it |
| AssistantExamples.MissingLetterRulesOut | src/pages/Assistant.tsx:69-73 | a field holding neither a letter nor its capital cannot include a query holding that letter |
| AssistantExamples.CasablancaFindsTwoOffers | src/pages/Assistant.tsx:68-75 | "Casablanca" finds the first and the fourth offer, in that order |
| AssistantExamples.CityOfFirstAndLastOffer | src/pages/Assistant.tsx:68-75 | a query naming the city of the first and last offers with a "b" and a "c" finds exactly those two |
| AssistantExamples.SecondOfferRulesOut | src/pages/Assistant.tsx:21-30 | the second offer cannot match a query holding both "b" and "c" |
| AssistantExamples.ThirdOfferRulesOut | src/pages/Assistant.tsx:31-40 | the third offer cannot match a query holding "b" |
| AssistantExamples.PaddedCityFallsBack | src/pages/Assistant.tsx:59-75 | "Casablanca " with a trailing space passes the trimming guard and trims to a query that finds two offers, but the untrimmed filter matches nothing, so all four offers show |
| AssistantExamples.PaddedCityTrims | src/pages/Assistant.tsx:60 | "Casablanca " trims to "Casablanca" |
| AssistantExamples.NoOfferMatchesPaddedCity | src/pages/Assistant.tsx:68-75 | no sample offer matches "Casablanca " with its trailing space |
| AssistantExamples.CityOfferRulesOutLonger | src/pages/Assistant.tsx:11-50 | the first and fourth offers cannot match a query longer than their city that holds a "b" |
| CVBuilder.StepIdsArePositions | src/pages/CVBuilder.tsx:51-58 | six steps whose ids are their positions plus one |
| CVBuilder.NextStep | src/pages/CVBuilder.tsx:136-140 | moves one step forward below the last step, stays on the last; stays within [1, 6] |
| CVBuilder.PrevStep | src/pages/CVBuilder.tsx:142-146 | moves one step back above the first step, stays on the first; stays within [1, 6] |
| CVBuilder.NextPrevRoundTrip | src/pages/CVBuilder.tsx:136-146 | back after forward returns to the start iff not on the last step; forward after back iff not on the first |
| CVBuilder.IndicatorOf | src/pages/CVBuilder.tsx:576-579 | a step is active iff it is the current one, completed iff before it, upcoming iff after it |
| CVBuilder.ExactlyOneActive | src/pages/CVBuilder.tsx:576-590 | exactly the current step is active, and exactly the steps before it show as completed |
| CVBuilder.SetPersonalField | src/pages/CVBuilder.tsx:158-203 | the edited field takes the typed value and every other field keeps its value |
| CVBuilder.PersonalInfoByFields | src/pages/CVBuilder.tsx:25-32 | two records with equal fields are equal |
| CVBuilder.SetExperienceField | src/pages/CVBuilder.tsx:237-298 | the edited field takes the typed value; the id and the other fields are kept |
| CVBuilder.SetEducationField | src/pages/CVBuilder.tsx:339-385 | the edited field takes the typed value; the id and the other fields are kept |
| CVBuilder.SetLanguageField | src/pages/CVBuilder.tsx:458-473 | the edited field takes the typed value; the other field is kept |
| CVBuilder.RemoveKeyed | src/pages/CVBuilder.tsx:93-97 | a single entry is kept; otherwise no remaining entry carries the id, every entry with another id stays, in order |
| CVBuilder.RemoveKeyedDropsOne | src/pages/CVBuilder.tsx:93-97 | with distinct ids, removing an entry's id out of several drops exactly that entry, leaves at least one, and keeps the ids distinct |
| CVBuilder.RemoveKeyedAbsent | src/pages/CVBuilder.tsx:93-97 | removing an id nobody carries changes nothing |
| CVBuilder.AppendThenRemove | src/pages/CVBuilder.tsx:82-97 | adding an entry with a fresh id and removing that id gives back the list |
| CVBuilder.SharedIdEmptiesList | src/pages/CVBuilder.tsx:93-97 | two entries sharing an id are removed together, leaving no entry |
| CVBuilder.AppendKeepsDistinct | src/pages/CVBuilder.tsx:82-91 | appending an entry with a fresh id keeps the ids distinct |
| CVBuilder.EditKeyed | src/pages/CVBuilder.tsx:237-242 | same length; entries carrying the id are edited, the others are kept |
| CVBuilder.EditKeyedTouchesOne | src/pages/CVBuilder.tsx:237-242 | with distinct ids, an edit changes exactly the entry carrying the id |
| CVBuilder.EditKeyedAbsent | src/pages/CVBuilder.tsx:237-242 | an edit for an id nobody carries changes nothing |
| CVBuilder.ExperienceEditChangesOneField | src/pages/CVBuilder.tsx:236-298 | with distinct ids, typing into one field of one experience changes only that field of that entry |
| CVBuilder.EducationEditChangesOneField | src/pages/CVBuilder.tsx:338-385 | with distinct ids, typing into one field of one education changes only that field of that entry |
| CVBuilder.RemoveAt | src/pages/CVBuilder.tsx:130-134 | a single language, or an index out of range, changes nothing; otherwise exactly the indexed entry goes and the rest keep their order |
| CVBuilder.AppendThenRemoveAt | src/pages/CVBuilder.tsx:126-134 | adding a language and removing the last index gives back the list |
| CVBuilder.SkillsAfterAdd | src/pages/CVBuilder.tsx:115-120 | the list changes iff the trimmed input is non-empty and new, and then exactly by appending it; a list without duplicates, blanks or padding stays so |
| CVBuilder.SkillsAfterRemove | src/pages/CVBuilder.tsx:122-124 | the skill is gone, every other skill stays in order, and well-formedness is kept |
| CVBuilder.RemoveSkillKeepsWellFormed | src/pages/CVBuilder.tsx:122-124 | filtering a skill out of a list without duplicates, blanks or padding keeps it so |
| CVBuilder.AddThenRemoveSkill | src/pages/CVBuilder.tsx:115-124 | adding an accepted skill and removing it gives back the list |
| CVBuilder.OrNotProvided | src/pages/CVBuilder.tsx:521-525 | the shown text is never empty, and is the value whenever the value is non-empty |
| CVBuilder.PreviewOf | src/pages/CVBuilder.tsx:517-542 | name and email are never blank and show the entered value when there is one; each entry count is the number of positions whose key field (company, institution, language) is filled, so it equals the list's length iff every entry is filled; the skill count is the list's length |
| CVBuilder.FilledExperiences | src/pages/CVBuilder.tsx:529 | the count is the number of experiences whose company is filled, at most the list's length, and equal to it iff every company is filled |
| CVBuilder.FilledEducations | src/pages/CVBuilder.tsx:533 | the count is the number of educations whose institution is filled, at most the list's length, and equal to it iff every institution is filled |
| CVBuilder.FilledLanguages | src/pages/CVBuilder.tsx:541 | the count is the number of language entries whose language is filled, at most the list's length, and equal to it iff every language is filled |
| CVBuilder.BlankEntriesNotCounted | src/pages/CVBuilder.tsx:529-541 | a freshly added blank experience, education or language does not change the preview |
| CVBuilder.FreshPreview | src/pages/CVBuilder.tsx:61-80 | the initial state previews as "Non renseigné" twice and zero everywhere |
| CVBuilder.Wizard.constructor | src/pages/CVBuilder.tsx:61-80 | step 1, blank personal info, one blank experience and education with id "1", no skills, one blank language; the invariants hold |
| CVBuilder.Wizard.CurrentTitle | src/pages/CVBuilder.tsx:638 | the heading is the title of the step whose id is the current step |
| CVBuilder.Wizard.PrevDisabled | src/pages/CVBuilder.tsx:648 | the back button is disabled iff going back would not move |
| CVBuilder.Wizard.NextShown | src/pages/CVBuilder.tsx:653 | the next button shows iff going forward would move |
| CVBuilder.Wizard.GoNext | src/pages/CVBuilder.tsx:136-140 | the step advances as NextStep says, staying within [1, 6]; the data is untouched |
| CVBuilder.Wizard.GoPrev | src/pages/CVBuilder.tsx:142-146 | the step goes back as PrevStep says, staying within [1, 6]; the data is untouched |
| CVBuilder.Wizard.JumpTo | src/pages/CVBuilder.tsx:584 | clicking a step's button makes it current, without any validation; the data is untouched |
| CVBuilder.Wizard.SetPersonal | src/pages/CVBuilder.tsx:158-203 | one personal field is set; everything else is untouched |
| CVBuilder.Wizard.AddExperience | src/pages/CVBuilder.tsx:82-91 | a blank experience whose id is the clock reading is appended; the ids stay distinct when that reading is fresh |
| CVBuilder.Wizard.RemoveExperience | src/pages/CVBuilder.tsx:93-97 | the experiences become RemoveKeyed of the old ones; at least one entry and distinct ids are kept |
| CVBuilder.Wizard.EditExperience | src/pages/CVBuilder.tsx:236-298 | the entries carrying the id get the field set; ids stay distinct |
| CVBuilder.Wizard.AddEducation | src/pages/CVBuilder.tsx:99-107 | a blank education whose id is the clock reading is appended; the ids stay distinct when that reading is fresh |
| CVBuilder.Wizard.RemoveEducation | src/pages/CVBuilder.tsx:109-113 | the educations become RemoveKeyed of the old ones; at least one entry and distinct ids are kept |
| CVBuilder.Wizard.EditEducation | src/pages/CVBuilder.tsx:338-385 | the entries carrying the id get the field set; ids stay distinct |
| CVBuilder.Wizard.SetSkillInput | src/pages/CVBuilder.tsx:407 | the skill input becomes the typed text; nothing else changes |
| CVBuilder.Wizard.AddSkill | src/pages/CVBuilder.tsx:115-120 | the skills become SkillsAfterAdd of the old ones; the input clears iff the skill was accepted; skills stay distinct, non-blank and trimmed |
| CVBuilder.Wizard.RemoveSkill | src/pages/CVBuilder.tsx:122-124 | the skills become SkillsAfterRemove of the old ones; well-formedness is kept |
| CVBuilder.Wizard.AddLanguage | src/pages/CVBuilder.tsx:126-128 | a blank language is appended; nothing else changes |
| CVBuilder.Wizard.RemoveLanguage | src/pages/CVBuilder.tsx:130-134 | the languages become RemoveAt of the old ones, by index; at least one is kept |
| CVBuilder.Wizard.EditLanguage | src/pages/CVBuilder.tsx:458-473 | only the indexed language changes, and only in the edited field |
| Text.TrimStart | src/pages/Assistant.tsx:60 | the result is a suffix of the input, what it drops is all white space, and it starts with no white space |
| Text.TrimEnd | src/pages/Assistant.tsx:60 | the result is a prefix of the input, what it drops is all white space, and it ends with no white space |
| Text.TrimIsInnerSlice | src/pages/Assistant.tsx:60 | `trim()` returns a slice of its input that starts and ends with no white space |
| Text.TrimBounds | src/pages/Assistant.tsx:60 | gives the bounds of that slice: everything before and after it is white space |
| Text.TrimEmptyIff | src/pages/Assistant.tsx:60 | a string trims to "" iff it is all white space |
| Text.TrimDropsTrailingSpace | src/pages/Assistant.tsx:60 | one white-space character after a string that neither starts nor ends with white space is trimmed away |
| Text.TrimIdempotent | src/pages/CVBuilder.tsx:116-117 | trimming twice is trimming once |
| Text.LowerIdempotent | src/pages/Assistant.tsx:70-72 | lower-casing twice is lower-casing once, and leaves no capital |
| Text.ContainsIff | src/pages/Assistant.tsx:70-72 | `includes` holds iff the needle occurs at some position |
| Text.LongerRulesOut | src/pages/Assistant.tsx:70-72 | `includes` never finds a longer string |
| Text.ContainsSlice | src/pages/Assistant.tsx:70-72 | a haystack that includes a string includes each of its slices |
| Text.Split | src/components/ui/file-upload.tsx:44 | `split` gives at least one piece, no piece holds the separator, and joining the pieces gives back the input |
| Text.SplitJoin | src/components/ui/file-upload.tsx:44 | splitting pieces joined by a separator they lack gives back the pieces |
| Text.LastPartIsTextAfterLastSep | src/components/ui/file-upload.tsx:45 | `split(sep).pop()` is the text after the last separator (the whole string when there is none) and holds no separator |
| Text.IndexOf | src/components/ui/file-upload.tsx:46 | -1 when the character is absent; otherwise the position of its first occurrence |
| Text.RemoveFirst | src/components/ui/file-upload.tsx:46 | `replace(".", "")` leaves a string without a dot as it is, and otherwise removes exactly the first dot: the result is the text before it followed by the text after it |
| Text.NatToString | src/pages/CVBuilder.tsx:84 | the decimal form of a clock reading is non-empty and all digits |
| Text.ParsePrinted | src/pages/CVBuilder.tsx:84 | reading the decimal form back gives the number, so distinct readings give distinct ids |
| Seqs.Filter | src/pages/CVBuilder.tsx:95 | `filter` keeps exactly the elements passing the test, in order (copies are counted by `Seqs.FilterCountsCopies`) |
| Seqs.FilterCountsCopies | src/pages/CVBuilder.tsx:95 | `filter` keeps every copy of a passing value and no copy of any other value |
| Seqs.FilterLengthCountsPassing | src/pages/CVBuilder.tsx:529 | the length of a `filter` is the number of positions whose element passes the test |
| Seqs.FilterDropsOne | src/pages/CVBuilder.tsx:95 | when one element fails the test and all others pass, `filter` removes exactly that element |
| Seqs.FilterKeepsLengthIff | src/pages/CVBuilder.tsx:529 | `filter` keeps the length iff every element passes the test |

## Left out

- Rendering is left out: layout, icons, class names other than the colour
  choices above, and the framer-motion animations and their delays.
- The gauge geometry of score-ring.tsx (radius, circumference, dash
  offset) is floating point and is not modelled.
- Drag-and-drop (`isDragging`, the drag handlers), the hidden input
  element, click-to-browse and the reset of the input's value in
  `clearFile` are browser plumbing. `handleDrop` and `handleFileChange`
  both lead to `HandleFile` for the first file they receive, which is what
  the model covers.
- Timers are not modelled as time. An awaited delay is a pending entry
  that `Complete…` consumes. The search page's timers all wait 1.5 s, so
  they complete oldest first. The chat's random 1.5–2.5 s delay and a
  possible reordering of its replies are not modelled.
- Navigation away from a page with a pending timer is left out: the
  state update after unmounting is not modelled.
- The clock, `Math.random()` and `toLocaleTimeString` are left out as
  computations. They are method parameters (`now`, `r`, `stamp`).
- The chat's input component, which decides whether empty text can be
  sent, is not part of this model. `Transcript.Send` accepts any text, as
  `handleSendMessage` does.
- The chat's auto-scroll (`scrollToBottom` and its effect) is left out.
- The CV builder's download button has no handler in the source, so
  nothing is modelled for it.
- Identity of rendered items is left out: the language rows are keyed by
  index in the source, so React may reuse a row's inputs after a removal.
- The `default: null` branch of the step renderer is left out. The step
  invariant [1, 6] makes it unreachable.
- CVBuilder.Wizard.EditLanguage: the source copies the list shallowly
  and assigns into the shared entry object, which also mutates the entry
  seen through the previous state. The model builds a new list value, so
  this aliasing is not captured. Nothing in the page reads the old state.
- CVBuilder.Wizard.AddExperience: keeps the ids distinct only when the
  clock reading is not already an id. Two additions in the same
  millisecond reuse an id (`SharedIdEmptiesList` shows the consequence),
  and the source does nothing to prevent it.
- CVBuilder.Wizard.AddEducation: the same distinct-id condition as
  AddExperience.
- Text.Lower: models `toLowerCase` for the ASCII and Latin-1 capitals
  (which cover every string in the sources). Other scripts' case mappings
  and the multi-character mappings of full Unicode are left out.
- JavaScript strings are UTF-16 code units and Dafny's `char` is a Unicode
  scalar value. Lengths differ only for characters outside the Basic
  Multilingual Plane, such as the welcome message's emoji, and no
  statement above depends on them.
- JavaScript numbers are doubles. Scores and sizes are unbounded integers
  here, and no arithmetic in these pages comes near double precision.
  `Math.round` is modelled on reals.
- The landing page, the navigation bar, routing and the chat bubble are
  context, not page logic, and are not part of this model.

## Behaviour worth noting

The model follows the code in each of these cases.

- **No score is clamped.** The scores are fixed constants. The overall
  score stays within the range of the category scores
  (`ATSEvaluator.AverageWithinMinMax`).
- **Removal can empty a list.** Removing an experience or education entry
  tests the list's length before filtering by id. Two entries that share
  an id are removed together, so the list can become empty
  (`CVBuilder.SharedIdEmptiesList`).
- **Ids can repeat.** A new entry's id is `Date.now().toString()`. Two
  entries added at the same clock reading get the same id.
- **Languages are removed by index.** Language entries have no id.
- **A rejected file does not clear the held file.** A rejection only sets
  the error. A file accepted earlier stays selected and announced
  (`FileUpload.Uploader.HandleFile`).
- **Disabling the button does not prevent a second run.** No handler
  checks its own spinner flag. On the search page, Enter in the input calls
  the handler even while the button is disabled, so several searches can
  be pending (`Assistant.AssistantPage.StartSearch`).
- **Padding defeats the search.** The guard trims the query but the filter
  does not, so "Casablanca " shows all four offers where "Casablanca"
  shows two (`AssistantExamples.PaddedCityFallsBack`).
- **Reset keeps the expanded category.** The evaluator's reset clears the
  result but not the expanded category, which opens again with the next
  result (`ATSEvaluator.EvaluatorPage.Reset`).
- **The chat page does not reject empty text.** The page's send handler
  has no emptiness check. Only the input component, which is not part of
  this model, could apply one.
