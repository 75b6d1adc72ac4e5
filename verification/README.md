# VideoLucy search core in Dafny

VideoLucy answers questions about long videos in three steps. A captioning
model first writes a *coarse memory*: one caption per fixed time period. A
language model (the *oracle*) then answers from that memory. When it is not
confident, the search controller nominates periods. Each nominated period is
captioned again at a finer grain, in the *fine* or *super-fine* memory, until
the oracle is confident or five rounds have passed. An answer is then forced.

This project models the deterministic logic around those model calls:

- **Reply parsing.** `parse_answer` keeps the text after the last
  `</think>` marker, takes the last brace block with no inner braces,
  recapitalises `true`/`false`, removes newlines and evaluates the block as a
  literal. Modules `PyStr` and `AnswerParser`.
- **Ordinal routing.** `contains_ordinal_number` is a case-insensitive
  substring test against a fixed vocabulary. Module `Ordinal`.
- **Period filtering.** `filter_coarse_memory_by_time_periods` draws context
  windows around each related period, de-duplicates and sorts them, and keeps
  the coarse entries whose period is one of the windows. Module
  `PeriodFilter`.
- **Evidence view.** The prompt builders merge the coarse memory with the fine
  entire-runs into one listing sorted by start time. A fine run is keyed by
  its first chunk's start and its last chunk's end. A listed entry gets a
  detail block only when its own period equals such a key, and the block
  shows the divided run of the first matching key. An entry taken from a run
  of several chunks therefore gets no block. Inside a block, a super-fine
  period shows its own summary and stamps. The English wording is left as opaque
  constants, and a prompt is the structured record of what it lists. Module
  `Evidence`.
- **Search controller.** `demo_infer` is modelled as a class `MemoryHistory`
  (the three parallel lists, updated in place) and a chain of methods. The
  session's trace of prompts and caption passes is proved to satisfy
  `Finished`. `NextStep` fixes which step follows each prefix of the trace.
  `HistoryOf` is the history a prefix leaves behind, and every prompt is
  tied to it. `Determined` shows that the inputs fix the trace and the
  outcome. Module `Controller`.
- **Segment windowing.** The trimming and chunking arithmetic of
  `get_video_frames` works over frame indices. Module `Windowing`.

Shared types live in `Timeline` (common.dfy): `Period(start, end)`,
`Entry(period, caption)`, the literal `Value` and `Dict`. Times are integers in
a fixed unit, and periods are compared by exact equality, as in the source.

The oracle, the captioner and Python's `ast.literal_eval` are function
parameters. `ask(i, prompt)` is the reply to the prompt sent as event `i` of the
trace. Caption passes are events too, so `i` counts them as well.
`literal(block)` is the evaluated dict, or `None` when evaluation raises
`SyntaxError` or `ValueError`. `extract(period, split, sampling, instruction)`
is the captioner's output.

## Model

| member | source | states |
|---|---|---|
| PyStr.LastPieceStart | utils.py:35 | the start of the text after the last separator: no separator occurs from there on, and a separator ends right before it unless it is 0 |
| PyStr.AfterLast | utils.py:35 | `split(sep)[-1]`: the result holds no separator; it is the whole text when the separator is absent, else the suffix after some occurrence |
| PyStr.AfterLastOccurrence | utils.py:35 | for a separator that cannot overlap itself, the result is exactly the text after the occurrence that has none after it |
| PyStr.AfterLastJoin | utils.py:35 | `(before + sep + after).split(sep)[-1] == after` when `after` holds no separator |
| PyStr.ReplaceAbsent | utils.py:48 | replacing a pattern that does not occur leaves the text unchanged |
| PyStr.RecapitaliseAt | utils.py:48 | replacing `false`/`true` by a same-length word differing only in its first letter keeps the length and changes exactly the first letter of each occurrence |
| PyStr.RecapitalisedHasNone | utils.py:48 | after that replacement the lower-case word no longer occurs |
| PyStr.RecapitalisingKeepsAbsence | utils.py:48 | the second replacement cannot bring back a word the first one removed (so no `false` survives the `true` pass) |
| PyStr.DeleteChar | utils.py:48 | removing all newlines leaves none and keeps the count of every other character |
| PyStr.Lower | utils.py:136 | `lower()` keeps the length and lowers each character on its own |
| PyStr.LowerAppend | utils.py:136 | lowering distributes over concatenation |
| AnswerParser.FindAll | utils.py:38-39 | `re.findall(r'\{[^{}]*\}')`: every listed pair is a brace block without inner braces, every such block is listed, and the list is in order and non-overlapping |
| AnswerParser.LastBlock | utils.py:38-47 | None exactly when the text holds no such block, else the text of the last one |
| AnswerParser.NormaliseRewrites | utils.py:48 | after the two word replacements the block holds no `false` or `true`; the normalised text is that block with its newlines deleted, holds no newline, and keeps every other character's count |
| AnswerParser.NewlineJoinsWord | utils.py:48 | the newlines are deleted last, so they can join a word back together: `fa`, newline, `lse` normalises to a lower-case `false` |
| AnswerParser.ParseAnswer | utils.py:24-57 | over the text after the last `</think>`: no brace block gives None; otherwise the result is the literal evaluation (None on a syntax or value error) of the normalised last block |
| AnswerParser.ReasoningIgnored | utils.py:35 | whatever precedes the last `</think>` does not change the parse |
| Ordinal.AnyIn | utils.py:136 | `any(w in t for w in words)` holds iff some word is a substring of `t` |
| Ordinal.ContainsOrdinalNumber | utils.py:115-136 | true iff some vocabulary word is a substring of the lower-cased text |
| Ordinal.CaseInsensitive | utils.py:136 | two texts that are equal after lower-casing get the same answer |
| Ordinal.WordIsOrdinal | utils.py:125-136 | any text holding a vocabulary word, whatever surrounds it, is ordinal |
| Ordinal.ThirdIsOrdinal | utils.py:125-136 | any text holding "third" is ordinal |
| Ordinal.WithoutTelltaleNotOrdinal | utils.py:125-136 | a text that, lower-cased, holds none of `c f g l n r x 0-9` is not ordinal, since every vocabulary word holds one of them |
| Ordinal.OverviewQuestionIsNotOrdinal | utils.py:125-136 | "What is the video about?" is not ordinal |
| PeriodFilter.WindowsAround | utils.py:72-95 | the windows of a related period P contain P; each is P, a pre-window ending at P.start + overlap with the first entry's span, or a post-window starting at P.end − overlap ending no later than the last entry's end; the pre-window is present unless P is the first period, the post-window unless P is only the last, and no other window is drawn (two or three in all) |
| PeriodFilter.AllWindowsMembers | utils.py:76-95 | a period is among all the windows iff it is a window of some related period |
| PeriodFilter.RelatedAreWindows | utils.py:76-95 | every related period is itself a window |
| PeriodFilter.DrawWindows | utils.py:76-95 | the loop produces all the windows of every related period, in order |
| PeriodFilter.SortedUnique | utils.py:98-99 | the de-duplicated windows have the same members, no repeats, and ascending starts |
| PeriodFilter.KeepIsSubsequence | utils.py:103 | the kept entries are an order-preserving subsequence of the coarse memory |
| PeriodFilter.KeepCounts | utils.py:103 | an entry is kept as often as it occurs when its period is a window, and never otherwise |
| PeriodFilter.KeepSameMembers | utils.py:98-103 | filtering against the de-duplicated, sorted windows equals filtering against the raw list |
| PeriodFilter.KeepEntries | utils.py:102-103 | the comprehension loop computes the kept entries |
| PeriodFilter.UnmatchedMembers | utils.py:107-110 | a window is reported missing iff no coarse entry has that period |
| PeriodFilter.ReportUnmatched | utils.py:107-110 | the warning loop reports exactly the unmatched windows, in sorted order |
| PeriodFilter.FilterCoarseMemory | utils.py:60-112 | returns the coarse entries whose period is a window, the sorted distinct windows, and the windows absent from the memory |
| PeriodFilter.FilterMeaning | utils.py:60-112 | the result is a subsequence of the coarse memory; an entry is kept iff its period is a window; every entry whose period is related is kept |
| Evidence.RunKeys | LLMs/utils.py:105-113 | each key is (first entry's start, last entry's end) of its entire run |
| Evidence.UnrefinedCounts | LLMs/utils.py:115-119 | a coarse entry survives (with its multiplicity) iff its period is not a fine key |
| Evidence.KeepUnrefined | LLMs/utils.py:115-119 | the loop computes the coarse entries whose period is not a fine key |
| Evidence.InsertByStartAdds | LLMs/utils.py:126 | insertion adds exactly one element |
| Evidence.InsertByStartKeeps | LLMs/utils.py:126 | insertion into an ascending list keeps it ascending |
| Evidence.SortByStartSorts | LLMs/utils.py:126 | the sort is ascending by start and a permutation |
| Evidence.InsertByStartStable | LLMs/utils.py:126 | insertion places the new entry after those with an equal start |
| Evidence.SortByStartStable | LLMs/utils.py:126 | the sort is stable: entries with the same start keep their relative order |
| Evidence.MergedListing | LLMs/utils.py:115-126 | computes the fine keys and the sorted merge of the surviving coarse entries with the entire-runs |
| Evidence.MergedListingMeaning | LLMs/utils.py:115-126 | the listing is ascending, a permutation of survivors plus run entries (so its length is their sum), keeps survivors before run entries at equal starts, and a coarse entry survives iff its period is not a fine key |
| Evidence.StampList | LLMs/utils.py:154-158 | stamps `[1]..[k]` carry each super-fine divided entry's start and caption |
| Evidence.DetailList | LLMs/utils.py:139-158 | lines `(1)..(m)`; a divided entry whose period is a super-fine key shows the first super-fine entire caption and the super-fine divided run as stamps |
| Evidence.RenderItems | LLMs/utils.py:129-158 | items `1..n`, one per listed entry; a detail block exactly when the entry's period is a fine key, from the divided run at the first matching key |
| Evidence.ListingDetermined | LLMs/utils.py:129-158 | two renderings of the same listing with the same finer memory are the same items |
| Evidence.NumberedList | LLMs/utils.py:15-20 | a plain numbered listing with no detail blocks |
| Evidence.OnlyFineEntriesDetailed | LLMs/utils.py:121-137 | in the merged listing only entries from the fine runs get a detail block |
| Evidence.AnswerWithCoarseMemoryPrompt | LLMs/utils.py:13-42 | numbered coarse listing; the single-option sentence iff options are given |
| Evidence.QuestionTypeJudgePrompt | LLMs/utils.py:363-399 | numbered coarse listing, no conditional sentences |
| Evidence.AnswerWithCoarseAndFineMemoryPrompt | LLMs/utils.py:100-179 | the merged listing with fine and super-fine detail, the duration, and the single-option sentence iff options are given |
| Evidence.MustAnswerWithCoarseAndFineMemoryPrompt | LLMs/utils.py:183-267 | the same listing; the choose-an-option sentence when options are given, else the must-answer one |
| Evidence.GetSingleRelatedTimePrompt | LLMs/utils.py:290-360 | the merged listing with fine detail only (no nested stamps), the excluded periods, and their header iff the list is non-empty |
| Timeline.IndexOf | demo.py:210 | `list.index`: the first position holding the value |
| Controller.MemoryHistory.constructor | demo.py:130-140 | an empty history with three empty lists |
| Controller.MemoryHistory.Store | demo.py:209-216 | a stored period is overwritten in place at its index, lengths unchanged; a new one is appended to all three lists; the lists stay parallel and duplicate-free and other periods keep their slots; the new state is `Put` of the old one |
| Controller.Put | demo.py:209-216 | insert-or-replace on history values keeps the lists parallel and holds the stored period (its slots are stated by `PutHolds` and `PutKeeps`) |
| Controller.PutHolds | demo.py:209-216 | after insert-or-replace the period's slot holds the new entire and divided runs |
| Controller.PutKeeps | demo.py:209-216 | every other stored period keeps its slot and its runs |
| Controller.HistoryOf | demo.py:205-216 | the history a trace leaves behind at one grain keeps its three lists parallel (its contents are stated by `HistoryHoldsLatest` and `SearchedGrain`) |
| Controller.HistoryStep | demo.py:205-216 | a caption pass changes only the history of its own grain, by insert-or-replace; a prompt changes neither |
| Controller.HistoryHoldsLatest | demo.py:205-216 | every period captioned at a grain sits in that grain's history with the runs of its latest caption pass |
| Controller.PeriodsOfValues | demo.py:115-120 | the related periods are read iff every value is a numeric pair, one period per value |
| Controller.Routing | demo.py:115-127 | reading the judge's reply succeeds iff it has `Flag` and, when that is true, a list of periods (an empty string reads as none) |
| Controller.SearchedGrain | demo.py:168-216 | each history holds distinct periods, all of its own grain (super-fine iff the span is the minimal duration) |
| Controller.ExcludedDistinct | demo.py:151-152 | the excluded periods (fine then super-fine) hold no repeats |
| Controller.ForcedOnlyLast | demo.py:236-251 | a forced answer is asked only last and only after five fine answers |
| Controller.ParseFailureEnds | demo.py:91-246 | a reply that fails to parse ends the session at once with None |
| Controller.ConfidentCoarseEnds | demo.py:95-99 | a confident coarse answer is returned at once and both histories stay empty |
| Controller.PromptDetermined | demo.py:89-246 | two prompts of one kind built after the same events from the same view are the same prompt |
| Controller.EventDetermined | demo.py:88-251 | the events so far and the inputs determine the next event: its kind, prompt, reply and parse, or its caption pass |
| Controller.SameTrace | demo.py:88-251 | two traces of well-formed events that each stop at their first settling event are equal |
| Controller.Determined | demo.py:62-251 | a session finishes in one way only: two finished traces of the same inputs are equal and end with the same outcome |
| Controller.PromptsShowMemory | demo.py:89-246 | every prompt of a finished session is the step that came next, built from the view its kind calls for and from the histories the events before it left behind |
| Controller.SearchViewByRoute | demo.py:102-127 | an ordinal question searches the whole coarse memory; otherwise the judge was asked second and the search sees the filtered memory when `Flag` is true, the whole memory when false |
| Controller.Consult | demo.py:219-228 | one prompt is sent, its reply recorded and parsed |
| Controller.AskCoarse | demo.py:89-93 | the first prompt lists the whole coarse memory |
| Controller.AskJudge | demo.py:109-113 | the judge prompt, asked second for a question without an ordinal word, lists the whole coarse memory |
| Controller.Route | demo.py:115-127 | the loop's coarse list is the routing of the judge's reply |
| Controller.AskNomination | demo.py:147-158 | the nomination prompt lists the routed coarse memory merged with the fine history as the trace left it (fine detail only), states the video duration, and excludes the searched periods, ordinary ones first |
| Controller.AskFine | demo.py:219-228 | right after a caption pass, the fine answer prompt lists the routed coarse memory merged with the fine history, detailed by the fine and super-fine histories as the trace left them |
| Controller.AskForced | demo.py:237-246 | after the fifth unconfident fine answer, the forced prompt lists the unfiltered coarse memory merged with both histories and carries the must-answer sentence |
| Controller.Caption | demo.py:161-203 | the nominated period is captioned in both passes with the sampling its grain requires |
| Controller.JudgeStep | demo.py:101-127 | after the judge the session either ends as `Finished` or runs with the routed memory and empty histories |
| Controller.Opening | demo.py:88-127 | the coarse answer and routing either finish the session or leave it running with no rounds done |
| Controller.Record | demo.py:205-216 | the runs are stored by insert-or-replace in the history of the period's grain, the other history is unchanged, and both histories are what the extended trace leaves behind |
| Controller.Capture | demo.py:160-216 | caption and store the nominated period, the histories being what the extended trace leaves behind and a fine answer coming next; an empty entire run ends the session |
| Controller.Refine | demo.py:160-234 | caption, store and re-ask from the stored runs; a confident answer or failure finishes the session, else one more round is counted and the next step is a nomination, or the forced answer after the fifth round |
| Controller.SearchRound | demo.py:143-234 | one round of the loop: a nomination without a usable period or instruction, or with a period the frame reader refuses, raises; otherwise the histories stay what the trace leaves behind and one nomination and one fine answer are counted |
| Controller.NextStepOrder | demo.py:88-237 | for `StepAfter(prior, ordinal)`, the body of `NextStep` with the ordinal test's result given: the coarse answer comes first and only first; the type judge follows only a coarse answer to a non-ordinal question; a caption pass follows exactly a nomination; a fine answer follows exactly a caption pass; the forced answer follows only a fine answer once five have been asked, or itself |
| Controller.VerdictCases | demo.py:91-251 | an unparsable reply, and only that, ends the session with no answer; the forced answer always settles it; an answer comes only from a coarse, fine or forced reply's `Answer` key; a caption pass settles it exactly when its entire run is empty |
| Controller.DemoInfer | demo.py:62-251 | the session ends `Finished`: every event is the step that comes next, with the prompt its builder makes from the memory at that point; it stops at the first settling event, after at most five rounds, with the forced answer only last (so by `Determined` the outcome is a function of the inputs) |
| Controller.Infer | demo.py:62-251 | `DemoInfer` with replies read by `ParseAnswer` |
| Windowing.Trimmed | VLMs/utils.py:72-73 | trailing `n mod S` frames are dropped iff `0 < n mod S <= fps`; the result is then a multiple of S, else n |
| Windowing.RangeOf | VLMs/utils.py:85-91 | a chunk's time range lasts its length divided by the sampling rate |
| Windowing.ChunkingShape | VLMs/utils.py:81-105 | chunks start at 0 and end at n, each holds 1 to S frames, starts strictly increase, consecutive chunks touch or overlap by at most `overlap` frames, and only the last ends at n |
| Windowing.Covers | VLMs/utils.py:81-105 | every frame lies in some chunk |
| Windowing.Tiling | VLMs/utils.py:82-105 | with no overlap the k-th chunk is `[kS, min(kS+S, n))` and consecutive chunks abut |
| Windowing.RangesInOrder | VLMs/utils.py:85-105 | time ranges start in increasing order, the next starting no later than the previous ends, exactly at its end when there is no overlap |
| Windowing.Cut | VLMs/utils.py:78-105 | the loop produces the chunking, one path and one time range per chunk |
| Windowing.GetVideoFrames | VLMs/utils.py:32-105 | succeeds iff the asserted arguments hold; then the chunks are the chunking of the trimmed count, with one path and one range per chunk |

## Left out

- Python's `ast.literal_eval` is a parameter. A block that evaluates to something other than a dict, or raises an exception other than `SyntaxError`/`ValueError`, is not modelled.
- Python literals other than booleans, integers, strings and lists are not modelled: `None`, floats, dicts and sets inside a reply (a tuple reads as a list) have no `Value`. For example, `"Answer": None` makes `demo_infer` return `None`, which looks the same as a parse failure.
- PyStr.Lower: lowers ASCII letters only, not Unicode case mapping, because the vocabulary is ASCII.
- Ordinal.WithoutTelltaleNotOrdinal: a sufficient condition only; no decision procedure for arbitrary text is given.
- A missing dict key, a nominated value that is not a pair of numbers, a nominated period the frame reader refuses, or an empty run raises in Python (`KeyError`, `TypeError`, `IndexError`, `AssertionError`). The model reports all of them as the single outcome `Raised` and does not tell them apart.
- Controller.Routing: a related period given as a list of three or more numbers does not raise in Python: the filter draws its windows from the first two items, and the list itself never equals a coarse period. The model reads only two-number lists as periods and reports `Raised` for such a reply.
- Controller.PeriodsOfValues: reads only two-number lists as periods; see the `Controller.Routing` line for the longer lists Python accepts.
- Time values are integers in one unit. The source's float times (and `coarse_overlapping_frames / sampling_fps` as a float overlap) are not modelled, and neither is float rounding.
- A period is one pair type. Python's list-versus-tuple inequality when comparing a nominated `[s, e]` with a stored `(s, e)` is not modelled.
- A `Value` that is a boolean is not a number, so `True` cannot stand for 1 in a period.
- Captioning, the oracle's API calls, GPUs, caching and disk files are parameters or left out (`vlm_roles.py`, `llm_roles.py`, `get_video_path`, `download_bilibili_video`).
- The frame sampling loop of `get_video_frames` (VLMs/utils.py:44-66) is left out because it is decord I/O with float time accumulation. The frame count is an input.
- The MP4 writing (VLMs/utils.py:92-100) is left out because it is cv2 I/O. A segment's path is its index.
- The video's own frame rate and `start_frame` enter only through the `offset` parameter of `GetVideoFrames`. `frames_per_second` is a positive integer.
- Windowing.GetVideoFrames: the `len(time_period) == 2` assertion is implied by the `Period` type.
- The English wording of every prompt is left out. A prompt records its kind, its listing, its question and options, its excluded periods and its input-dependent sentences.
- `get_summary_prompt`, `direct_answer_with_summary_prompt`, `option_answer_with_summary_prompt` and `get_answer_judge_prompt` are not used by the search and are not part of this model.
- Dafny sequences are values. The deep copy of the coarse memory in the prompt builders is therefore implicit, and the caller's list cannot be mutated.
- The mutation of `args` between the two caption passes is modelled as the two `Sampling` values an extraction event records.
- Printing, `Logger`, `parse_args`, timestamps and the save name (`demo_{timestamp}`) are left out.
