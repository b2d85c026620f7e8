# Digital literacy assistant: a verified model of its core

The assistant is a single-page web application. It teaches first-time smartphone users to use WhatsApp, Paytm and Google Maps. This project models its core in Dafny and proves properties of that model:

- **FAQ search.** A catalog of frequently asked questions is searched by splitting the lower-cased query on spaces. A record matches when some term is a substring of its lower-cased question, of one of its tags, or of its tool name.
- **Chat widget.** It holds the transcript, shows a welcome message and sends the user's text. It answers one second later with the first matching record's steps, numbered, or with a fixed fallback text.
- **Chat input field.** It sends the trimmed text and refuses blank text or text typed while a reply is pending.
- **Progress store.** It records viewed and completed tutorials as duplicate-free id lists, and the dates whose daily tip was seen.
- **Interactive tutorials.** A step cursor moves over the selected tutorial. It marks progress and picks card labels and badge colours.
- **Voice commands.** A recognised phrase maps to at most one navigation, chat or font-size action. A flag guards starting and stopping the recogniser.
- **Accessibility settings.** Partial updates merge field by field. The settings drive the page's `dark` and `font-size-*` classes and the language of read-aloud text.

Layout:

| file | module | models |
|---|---|---|
| `Wrappers.dfy` | `Wrappers` | `Option`, with `GetOr` for "the saved value or the default" |
| `Text.dfy` | `Text` | the JavaScript string operations the core relies on: `toLowerCase` on ASCII letters, `trim` with the ECMAScript whitespace set, `includes`, `replace` with a string pattern, `split` on one character, and decimal rendering of step numbers |
| `Faqs.dfy` | `Faqs` | the catalog and `searchFAQs` |
| `ChatWidget.dfy` | `ChatWidget` | the reply text and the widget's state (`class Widget`) |
| `ChatInput.dfy` | `ChatInput` | the input field (`class InputBox`) |
| `Progress.dfy` | `Progress` | `UserProgress`, its three updates and the store (`class ProgressStore`) |
| `Tutorials.dfy` | `Tutorials` | the tutorial catalog, the card labels and colours, and the step cursor (`class TutorialsView`) |
| `Voice.dfy` | `Voice` | the command chain and the listening flag (`class Listener`) |
| `Accessibility.dfy` | `Accessibility` | the settings, their merge and store (`class SettingsStore`), read-aloud and the two class rewrites |

The search and the reply are proved over any record list. The catalog itself is one instance of that list, and the widget's `faqs` field holds it.

## Model

| member | source | states |
|---|---|---|
| Text.Lower | src/data/faqs.ts:183 | `toLowerCase`: same length, every character mapped by ASCII lower-casing |
| Text.Trim | src/components/ChatInput.tsx:13-14 | `trim()`: the result is a slice of the input with only whitespace cut off at either end, and its own ends are not whitespace |
| Text.Contains | src/data/faqs.ts:187-189 | `includes`: only a text no longer than the other can occur in it; the empty text and the text itself always occur |
| Text.TrimEmptyIffBlank | src/data/faqs.ts:181 | `!query.trim()` holds exactly when every character of the query is whitespace |
| Text.TrimIdempotent | src/components/ChatInput.tsx:14 | trimming an already trimmed text changes nothing |
| Text.ContainsTrimIff | src/hooks/useVoiceCommands.ts:27 | a keyword with non-whitespace ends occurs in the trimmed text exactly when it occurs in the untrimmed text |
| Text.LowerPreservesContains | src/data/faqs.ts:187-189 | lower-casing keeps every occurrence of a substring |
| Text.ReplaceFirst | src/components/ChatWidget.tsx:78 | `replace(pat, rep)` with a string pattern: no occurrence leaves the text unchanged; otherwise only the first occurrence is replaced |
| Text.SplitOn | src/data/faqs.ts:183 | `split(' ')`: at least one part, and no part contains the separator |
| Text.JoinSplit | src/data/faqs.ts:183 | joining the parts of a split with the separator gives back the text |
| Text.SplitJoin | src/data/faqs.ts:183 | splitting a join of separator-free parts gives back the parts |
| Text.SplitAtSeparator | src/components/ChatWidget.tsx:78-82 | a separator between two texts splits them apart independently |
| Text.DoubledSeparatorGivesEmptyPart | src/data/faqs.ts:183 | two adjacent separators produce an empty part |
| Text.TrailingSeparatorGivesEmptyPart | src/data/faqs.ts:183 | a trailing separator produces an empty last part |
| Text.NatToString | src/components/ChatWidget.tsx:81 | the decimal rendering of `index + 1` is all digits with no leading zero |
| Text.ParseNatToString | src/components/ChatWidget.tsx:81 | reading the rendered number back gives the number |
| Faqs.CatalogWellFormed | src/data/faqs.ts:9-171 | the eleven records have distinct ids and each has at least one step |
| Faqs.SearchTerms | src/data/faqs.ts:183 | the terms are at least one, none contains a space, and joined with spaces they give back the lower-cased query |
| Faqs.Matches | src/data/faqs.ts:185-201 | no terms match nothing; an empty term matches every record; the record's tool name as a term matches the record |
| Faqs.Filter | src/data/faqs.ts:185-202 | the filter returns only records of the list that match, never more than the list |
| Faqs.Search | src/data/faqs.ts:180-203 | a blank query returns nothing; every result is a record of the list |
| Faqs.ReturnedIffMatches | src/data/faqs.ts:180-203 | a record is returned exactly when the query is not blank, the record is in the list and some term matches its question, a tag or its tool |
| Faqs.FilterSelectsMatching | src/data/faqs.ts:185-202 | the filter's output is the matching records at strictly increasing positions, and every matching record is one of them |
| Faqs.ResultsInCatalogOrder | src/data/faqs.ts:185-202 | the results are exactly the matching records, in list order |
| Faqs.FirstResultIsFirstMatch | src/data/faqs.ts:185-202 | the first result is a matching record with no matching record before it |
| Faqs.CaseInsensitive | src/data/faqs.ts:183 | queries that differ only in letter case return the same records |
| Faqs.BlankIffLowerBlank | src/data/faqs.ts:181-183 | lower-casing does not change whether a query is blank |
| Faqs.EmptyTermReturnsAll | src/data/faqs.ts:183-202 | an empty search term matches every record, so the whole list is returned |
| Faqs.StraySpaceReturnsAll | src/data/faqs.ts:183 | a non-blank query with a doubled, leading or trailing space returns every record |
| Faqs.DoubledSpaceGivesEmptyTerm | src/data/faqs.ts:183 | a doubled space yields an empty term |
| Faqs.LeadingSpaceGivesEmptyTerm | src/data/faqs.ts:183 | a leading space yields an empty term |
| Faqs.TrailingSpaceGivesEmptyTerm | src/data/faqs.ts:183 | a trailing space yields an empty term |
| Faqs.NonBlankTermMeansNonBlankQuery | src/data/faqs.ts:181-183 | a term with a non-whitespace character makes the query non-blank |
| Faqs.ToolTermFindsToolRecords | src/data/faqs.ts:197-199 | a query with a tool's name as a term returns every record of that tool, whatever its question and tags say |
| Faqs.FilterKeepsAll | src/data/faqs.ts:185-202 | when every record matches, the filter returns the list unchanged |
| ChatWidget.HeaderLine | src/components/ChatWidget.tsx:78 | the header line starts with "Here's how to " and ends with ':' |
| ChatWidget.ReplyFor | src/components/ChatWidget.tsx:78-84 | a reply starts with the record's header line and a blank line |
| ChatWidget.Respond | src/components/ChatWidget.tsx:73-88 | every reply is either the fallback text or an answer opening with "Here's how to " |
| ChatWidget.FallbackIffNoResults | src/components/ChatWidget.tsx:73-88 | the reply is the fallback text exactly when the search finds nothing |
| ChatWidget.AppendNumberedSteps | src/components/ChatWidget.tsx:80-82 | the `forEach` loop appends to the header exactly the numbered step lines |
| ChatWidget.ReplyUsesFirstMatch | src/components/ChatWidget.tsx:74-78 | a reply is built from a matching record before which no record matches |
| ChatWidget.StraySpaceRepliesWithFirstRecord | src/components/ChatWidget.tsx:74-78 | a non-blank query with a stray space is always answered with the first record |
| ChatWidget.ReplyLines | src/components/ChatWidget.tsx:78-84 | split on line breaks, a reply is the header line, an empty line, one numbered line per step in stored order, and an empty last line |
| ChatWidget.SplitNumberedSteps | src/components/ChatWidget.tsx:80-82 | the accumulated step text ends each step's line with one line break |
| ChatWidget.StepNumber | src/components/ChatWidget.tsx:81 | step line `i` starts with a digit string that reads back as `i + 1`, then ". ", then the step |
| ChatWidget.HeaderDropsLeadingHowDoI | src/components/ChatWidget.tsx:78 | a question starting with "how do i " in any letter case loses exactly that prefix in the header line |
| ChatWidget.PhotoQuestionHeader | src/data/faqs.ts:174 | the first suggested question, "How do I send a photo on WhatsApp?", gets the header line "Here's how to send a photo on whatsapp?:" |
| ChatWidget.HeaderKeepsQuestionMark | src/components/ChatWidget.tsx:78 | a question ending in '?' gives a header line ending in "?:" |
| ChatWidget.NumberedStepsSnoc | src/components/ChatWidget.tsx:80-82 | one loop iteration appends the next numbered line |
| ChatWidget.Widget.constructor | src/components/ChatWidget.tsx:15-19 | open as the page says, not minimized, empty transcript, nothing pending |
| ChatWidget.Widget.SyncOpenProp | src/components/ChatWidget.tsx:23-25 | the open flag follows the page's property; nothing else changes |
| ChatWidget.Widget.ShowWelcome | src/components/ChatWidget.tsx:31-42 | an open, expanded, empty window gets the welcome message as its only message, and the suggestions then show (line 159); otherwise nothing changes |
| ChatWidget.Widget.SendMessage | src/components/ChatWidget.tsx:48-59 | the user's text is appended, processing is raised and a reply is scheduled for it |
| ChatWidget.Widget.ReceiveReply | src/components/ChatWidget.tsx:59-70 | the reply to the oldest pending text is appended and processing is lowered |
| ChatWidget.Widget.GenerateResponse | src/components/ChatWidget.tsx:73-88 | the accumulating loop yields exactly the reply whose properties are proved above |
| ChatWidget.Widget.SuggestedQuestionClick | src/components/ChatWidget.tsx:110-112 | a suggestion is sent exactly like typed text |
| ChatWidget.Widget.ToggleChat | src/components/ChatWidget.tsx:90-96 | a minimized window is expanded; otherwise the open flag flips; the transcript is kept |
| ChatWidget.Widget.Minimize | src/components/ChatWidget.tsx:98-100 | minimized, still open, transcript kept |
| ChatWidget.Widget.Close | src/components/ChatWidget.tsx:102-108 | closed and not minimized, transcript and pending replies kept |
| ChatInput.InputBox.constructor | src/components/ChatInput.tsx:10 | the field starts empty |
| ChatInput.InputBox.Edit | src/components/ChatInput.tsx:34 | the field holds what was typed |
| ChatInput.InputBox.SendDisabled | src/components/ChatInput.tsx:41 | the send button is disabled exactly when the text is all whitespace or a reply is pending |
| ChatInput.InputBox.HandleSend | src/components/ChatInput.tsx:12-17 | a send happens exactly when the button is enabled (line 41); it sends the trimmed, non-empty text and clears the field; a refused send leaves the field alone |
| ChatInput.InputBox.HandleKeyDown | src/components/ChatInput.tsx:19-24 | Enter without Shift acts as the send button; any other key sends nothing and leaves the field alone |
| Progress.Dedup | src/hooks/useProgress.ts:26 | `[...new Set(l)]` has no duplicates and the same elements, kept in the order of their first occurrences |
| Progress.FirstIndexAppend | src/hooks/useProgress.ts:26 | appending an element leaves every earlier first occurrence where it was and puts a new element's first occurrence at the end |
| Progress.AddId | src/hooks/useProgress.ts:26 | the list after `[...prev, id]` and de-duplication holds the id and the old elements, nothing else, without duplicates |
| Progress.DedupOfNoDup | src/hooks/useProgress.ts:26 | a duplicate-free list is left as it is |
| Progress.AddIdAppendsNewId | src/hooks/useProgress.ts:26 | adding an id keeps the old first occurrences in order and appends the id only when it is new |
| Progress.AddIdIdempotent | src/hooks/useProgress.ts:26 | adding the same id twice equals adding it once |
| Progress.MarkViewed | src/hooks/useProgress.ts:23-28 | the id joins the viewed list, which stays duplicate-free; nothing else changes |
| Progress.MarkCompleted | src/hooks/useProgress.ts:30-36 | the id joins both lists, which stay duplicate-free; the tips are untouched |
| Progress.MarkTipSeen | src/hooks/useProgress.ts:38-43 | the date maps to true; every other date and both lists are untouched |
| Progress.UpdatesKeepCompletedWereViewed | src/hooks/useProgress.ts:23-43 | every update keeps "each completed tutorial was viewed" |
| Progress.UpdatesIdempotent | src/hooks/useProgress.ts:23-43 | each update applied twice equals the update applied once |
| Progress.ProgressStore.constructor | src/hooks/useProgress.ts:10-17 | the saved progress if any, else empty lists and no tips |
| Progress.ProgressStore.MarkTutorialViewed | src/hooks/useProgress.ts:23-28 | the stored progress becomes `MarkViewed` of the old one |
| Progress.ProgressStore.MarkTutorialCompleted | src/hooks/useProgress.ts:30-36 | the stored progress becomes `MarkCompleted` of the old one |
| Progress.ProgressStore.MarkDailyTipSeen | src/hooks/useProgress.ts:38-43 | the stored progress becomes `MarkTipSeen` of the old one |
| Tutorials.CatalogWellFormed | src/components/InteractiveTutorials.tsx:17-70 | the three tutorials have distinct ids and at least one step each |
| Tutorials.DifficultyColor | src/components/InteractiveTutorials.tsx:112-119 | gray exactly for a difficulty other than the three known levels |
| Tutorials.DifficultyColorsDistinct | src/components/InteractiveTutorials.tsx:112-119 | the three known levels get three different colours |
| Tutorials.CardLabel | src/components/InteractiveTutorials.tsx:268 | "Review Tutorial" exactly when completed, "Continue" exactly when viewed and not completed, "Start Tutorial" exactly when neither |
| Tutorials.LabelAgreesWithProgress | src/components/InteractiveTutorials.tsx:256-268 | while completed implies viewed: "Continue" exactly when in progress, "Review Tutorial" exactly when completed, "Start Tutorial" exactly when never viewed |
| Tutorials.LabelAfterUpdates | src/components/InteractiveTutorials.tsx:268 | opening an uncompleted tutorial makes its card say "Continue"; completing any tutorial makes it say "Review Tutorial" |
| Tutorials.TutorialsView.constructor | src/components/InteractiveTutorials.tsx:72-75 | nothing selected, cursor at 0 |
| Tutorials.TutorialsView.SelectTutorial | src/components/InteractiveTutorials.tsx:78-83 | the tutorial opens on its first step and is marked viewed; its title is announced |
| Tutorials.TutorialsView.NextStep | src/components/InteractiveTutorials.tsx:85-91 | advances and reads out the new step unless there is no tutorial or the cursor is on the last step; it stays put exactly when Complete is offered (line 198); the cursor stays on a step |
| Tutorials.TutorialsView.PreviousStep | src/components/InteractiveTutorials.tsx:93-101 | steps back unless on the first step; reads the step only when a tutorial is open |
| Tutorials.TutorialsView.CompleteTutorial | src/components/InteractiveTutorials.tsx:103-110 | the open tutorial is marked completed, closed and rewound; with nothing open nothing happens |
| Tutorials.TutorialsView.BackToTutorials | src/components/InteractiveTutorials.tsx:192 | closes the tutorial and keeps the cursor where it was |
| Voice.ClassifyCommand | src/hooks/useVoiceCommands.ts:29-48 | a phrase containing "home" navigates home; a font-size change happens only when no page or chat keyword is present |
| Voice.Classify | src/hooks/useVoiceCommands.ts:27 | the action of a transcript is that of its lower-cased form; trimming makes no difference |
| Voice.RedundantAlternatives | src/hooks/useVoiceCommands.ts:30-35 | the "go home", "go to about" and "go to contact" alternatives never decide anything the shorter keyword has not |
| Voice.TrimIrrelevant | src/hooks/useVoiceCommands.ts:27 | trimming never changes the action a phrase triggers |
| Voice.CaseIrrelevant | src/hooks/useVoiceCommands.ts:27 | phrases that differ only in letter case trigger the same action |
| Voice.HomeWins | src/hooks/useVoiceCommands.ts:30-31 | a phrase containing "home" navigates home, whatever else it contains |
| Voice.FontCommands | src/hooks/useVoiceCommands.ts:41-47 | with no page or chat keyword, the font keywords pick large, small or medium, in that priority |
| Voice.NoActionIffNoKeyword | src/hooks/useVoiceCommands.ts:26-48 | a phrase triggers nothing exactly when it contains none of the fourteen keywords |
| Voice.Listener.constructor | src/hooks/useVoiceCommands.ts:10-11 | not listening at first |
| Voice.Listener.StartListening | src/hooks/useVoiceCommands.ts:63-68 | starts exactly when a recogniser exists and it is not already listening |
| Voice.Listener.StopListening | src/hooks/useVoiceCommands.ts:70-75 | stops exactly when a recogniser exists and it is listening |
| Accessibility.Merge | src/hooks/useAccessibility.ts:37-39 | every field given in the patch wins; every other field keeps its value |
| Accessibility.MergeLaws | src/hooks/useAccessibility.ts:37-39 | an empty patch changes nothing, a repeated patch acts once, and two updates equal one with the combined patch |
| Accessibility.FullPatchForgetsOld | src/hooks/useAccessibility.ts:37-39 | a patch setting every field makes the result independent of the old settings |
| Accessibility.SettingsStore.constructor | src/hooks/useAccessibility.ts:11-19 | the saved settings if any, else medium font, light mode, English and no read-aloud |
| Accessibility.SettingsStore.UpdateSettings | src/hooks/useAccessibility.ts:37-39 | the stored settings become the merge of the old ones with the patch |
| Accessibility.Speak | src/hooks/useAccessibility.ts:41-47 | an utterance exists exactly when read-aloud is on and synthesis is available; it carries the text unchanged, tagged hi-IN exactly for Hindi and en-US exactly for English |
| Accessibility.ApplyDark | src/hooks/useAccessibility.ts:30-34 | the `dark` class is present exactly when dark mode is on; no other class changes |
| Accessibility.WordRun | src/hooks/useAccessibility.ts:26 | `\w+` takes the longest run of word characters |
| Accessibility.StripPass | src/hooks/useAccessibility.ts:26 | one pass of `replace(/font-size-\w+/g, '')` never lengthens the text |
| Accessibility.StripPassWithoutMatch | src/hooks/useAccessibility.ts:26 | a pass over text without a match changes nothing |
| Accessibility.StripPassShrinks | src/hooks/useAccessibility.ts:26 | a pass over text holding a match deletes something |
| Accessibility.StripAll | src/hooks/useAccessibility.ts:26 | repeating the pass until nothing matches leaves no `font-size-*` match |
| Accessibility.FontClassHasOneToken | src/hooks/useAccessibility.ts:25-27 | after the corrected rewrite the class attribute holds exactly one `font-size-*` match, the appended one |
| Accessibility.FontClassAsWritten | src/hooks/useAccessibility.ts:25-27 | the class attribute as the code writes it holds the new `font-size-*` class right after the scanned text and a space |
| Accessibility.FontClassAsWrittenKeepsStaleToken | src/hooks/useAccessibility.ts:25-27 | the single pass as written can leave an old `font-size-*` class in place |
| Accessibility.FontClass | src/hooks/useAccessibility.ts:25-27 | the corrected rewrite: deletion passes repeated until no `font-size-*` class is left, then the new class appended after a space; the text before it holds no such class and the new one starts right after the space |

## Left out

- Persistence is not modelled. Writing progress and settings to `localStorage` as JSON is left out. A saved value is a constructor parameter (`Option`). Corrupt JSON, which makes the source's parse throw, is not modelled.
- Timers, clocks and ids are not modelled. The one-second `setTimeout` becomes the `scheduled` queue plus `ReceiveReply`. Message ids and timestamps from `Date.now()` are left out, because no logic reads them.
- Browser speech APIs are not modelled. Speech synthesis becomes the utterance `Speak` returns, and the tutorial methods return the text they would speak. Recogniser construction, `start` and `stop` become `Listener`'s flags and results. The recogniser's settings and error logging are left out.
- Text.Lower: only ASCII letters are lower-cased. JavaScript's full Unicode case mapping is left out.
- Accessibility.Merge: a patch field explicitly set to `undefined` is treated as absent. In JavaScript it would overwrite the field.
- Accessibility.Speak takes the settings as a parameter. The possibly stale settings captured by the closure in `speakText` are not modelled.
- The two class rewrites are modelled separately. The dark-mode toggle is modelled on the class list (`ApplyDark`), and the font-size rewrite on the class attribute string. How the two interleave on the same attribute is not modelled.
- Rendering is not modelled: markup, styles, scrolling, the tutorial progress-bar width, the pages and components outside the core, and the `onClose` callback of `handleClose`.
- Faqs.SearchFAQs has no contract of its own. It is `Search` on the catalog, and every search property is proved for `Search` over any record list, the catalog included. The catalog is only proved well formed. Of the catalog-specific replies, only the header line for the photo question is stated (`ChatWidget.PhotoQuestionHeader`).
- The code has no greeting replies, and the reply header keeps the question's `?` (`ChatWidget.HeaderKeepsQuestionMark`).

## Findings

| source | as written | input that shows it | evidently intended | confidence | as-written member | corrected member |
|---|---|---|---|---|---|---|
| src/hooks/useAccessibility.ts:25-27 | one left-to-right pass of `replace(/font-size-\w+/g, '')`, then the new class appended | class attribute `font-sizefont-size-a-b`, font size large: deleting `font-size-a` joins `font-size` and `-b`, giving `font-size-b font-size-large` | exactly one `font-size-*` class remains, the new one | not executed | Accessibility.FontClassAsWritten | Accessibility.FontClass |
