# voice_eval core, modelled in Dafny

voice_eval is a harness for evaluating a voice customer-service bot. Each
scenario has a goal (such as "Change shipping address") and a list of steps.
For every step, the user's line is spoken and then transcribed. The
transcript then goes through three tools, called by name through a small
dispatcher:

- **slot extraction** finds an order number or the last digits of a card
  with fixed regular expressions;
- **the policy** picks the next action from the goal and the slots known so
  far;
- **the response generator** turns the action into a templated reply.

The reply is then judged against the step's expectation. The judge is either
rule-based (case-insensitive `contains` / `contains_any`) or a local LLM,
whose raw answer is scanned for a JSON verdict. A scenario passes when every
step that carries an expectation passes.

The model has one Dafny module per source file, plus two shared ones:

- `Common` (common.dfy): the Python string operations the code relies on.
  These are `lower()`, the `in` test, `find` and `rfind`, `replace`,
  `strip` and `str(n)`.
- `Regex` (regex.dfy): `re.search` for the seven fixed patterns of the slot
  extractor. Each pattern is a sequence of atoms ending in one capture
  group, matched greedily at the leftmost position where it matches. For
  these patterns that is what Python's backtracking engine returns (the
  module comment says why).
- `McpTools` (mcp_tools.dfy): `ToolResult` and the three tools.
- `McpClient` (mcp_client.dfy): the `Client` class with its tool table, and
  `call_tool`.
- `EvaluatorRules` (evaluator_rules.dfy): the rule-based judge.
- `EvaluatorLlm` (evaluator_llm.dfy): the LLM judge.
  - The HTTP exchange is a parameter `ask`, from a reply and an expectation
    to `Responded(text)` or `Failed`.
  - JSON parsing is a parameter `loads`.
- `Simulator` (simulator.dfy): `run_scenario` and `run_directory`, with the
  `Step` and `Scenario` records of scenario.py.
  - Speech synthesis followed by recognition is a parameter `speech`.
  - A run is specified by `Unroll`, which is the loop over turns written as
    a function. Properties of whole transcripts are proved about it.

The first card pattern, `card\s+ending\s+(\d{1,3}(?:,\d{3})*)`, stops after
three digits when no comma follows them, and it is tried before
`card\s+ending\s+(\d{4})`. So "My card ending 1234 was charged twice" stores
`card_info = "123"` (`McpTools.CardEndingSentence`). In general, any text
`p + "card ending " + d`, where `d` starts with four digits and the pattern
matches nowhere inside `p`, stores the first three digits of `d`
(`McpTools.LongCardNumberTruncated`). The first order pattern behaves the
same way: "order 12345" stores "123" (`McpTools.LongOrderNumberTruncated`).

## Model

| member | source | states |
|---|---|---|
| Common.Lower | voice_eval/mcp_tools.py:19 | a capital becomes the letter at the same place of the lowercase alphabet; the result is never a capital, and a non-capital is left alone |
| Common.LowerStr | voice_eval/mcp_tools.py:19 | `lower()` keeps the length and lowercases each character in place |
| Common.LowerStrOfLowercase | voice_eval/evaluator_rules.py:9 | lowercasing text that has no capitals gives the same text |
| Common.LowerStrIdempotent | voice_eval/evaluator_rules.py:9 | lowercasing twice is the same as lowercasing once |
| Common.Contains | voice_eval/evaluator_rules.py:14 | the `in` test only finds a needle no longer than the text |
| Common.NotContainsMissingChar | voice_eval/mcp_tools.py:22 | a needle holding a character the text lacks is not found |
| Common.ContainsIffOccurs | voice_eval/evaluator_rules.py:14 | the `in` test on strings holds exactly when the needle occurs at some position of the text |
| Common.ContainsMiddle | voice_eval/mcp_tools.py:97-99 | a string is found in any text that has it as a middle part (used for the filled-in templates) |
| Common.ContainsAtStart | voice_eval/mcp_tools.py:22 | a keyword is found in any text it starts |
| Common.Find | voice_eval/evaluator_llm.py:101 | `find` gives -1 exactly when the character is absent; otherwise it gives an index holding it with none before it |
| Common.RFind | voice_eval/evaluator_llm.py:102 | `rfind` gives -1 exactly when the character is absent; otherwise it gives an index holding it with none after it |
| Common.FindFirst | voice_eval/evaluator_llm.py:101 | `find` gives an index no later than any occurrence |
| Common.RFindLast | voice_eval/evaluator_llm.py:102 | `rfind` gives an index no earlier than any occurrence |
| Common.RemoveAll | voice_eval/mcp_tools.py:34 | `replace(",", "")` leaves no comma and never lengthens the text |
| Common.RemoveAllChars | voice_eval/mcp_tools.py:48 | exactly the characters other than the removed one remain |
| Common.RemoveAllAbsent | voice_eval/mcp_tools.py:34 | removing a character that does not occur changes nothing |
| Common.RemoveAllConcat | voice_eval/mcp_tools.py:34 | removing commas from two joined texts is removing them from each, in order |
| Common.StripStart | voice_eval/evaluator_llm.py:96 | the result is a suffix of the input; only whitespace was dropped; it does not start with whitespace |
| Common.StripEnd | voice_eval/evaluator_llm.py:96 | the result is a prefix of the input; only whitespace was dropped; it does not end with whitespace |
| Common.Strip | voice_eval/evaluator_llm.py:96 | `strip()` is the part of the text between its leading and its trailing whitespace, and has no whitespace at either end; a text without whitespace at its ends is unchanged |
| Common.NatToString | voice_eval/simulator.py:24 | `str(i)` of a turn number is a non-empty string of decimal digits |
| Common.NatToStringValue | voice_eval/simulator.py:24 | the digits `str(i)` writes read back, in base ten, as `i` |
| Common.NatToStringInjective | voice_eval/simulator.py:24 | two different turn numbers are written differently |
| Regex.Run | voice_eval/mcp_tools.py:25 | a greedy `\d+` or `\s+` never runs past the end of the text |
| Regex.RunSpec | voice_eval/mcp_tools.py:25 | the run holds only characters of the class, and it is maximal |
| Regex.RunToEnd | voice_eval/mcp_tools.py:25 | on text that is all of the class to its end, the run reaches the end |
| Regex.CommaGroups | voice_eval/mcp_tools.py:24 | `(?:,\d{3})*` taken greedily ends between its start and the end of the text |
| Regex.CommaGroupsSpec | voice_eval/mcp_tools.py:24 | `(?:,\d{3})*` spans a whole number of four-character blocks, each a comma and three digits, and stops where no further block starts |
| Regex.CommaGroupsChars | voice_eval/mcp_tools.py:41 | what `(?:,\d{3})*` spans is digits and commas |
| Regex.HyphenSuffix | voice_eval/mcp_tools.py:24 | `(?:-\d+)?` ends between its start and the end of the text |
| Regex.HyphenSuffixSpec | voice_eval/mcp_tools.py:24 | `(?:-\d+)?` spans something exactly when a hyphen and a digit come next; then it spans the hyphen and a maximal digit run |
| Regex.HyphenSuffixChars | voice_eval/mcp_tools.py:24 | what `(?:-\d+)?` spans is a hyphen and digits |
| Regex.MatchAtom | voice_eval/mcp_tools.py:24-28 | a matched atom ends inside the text, and a digit group starts with a digit and is non-empty |
| Regex.AtomConsumes | voice_eval/mcp_tools.py:40-43 | every character a matched atom spans belongs to that atom's character set |
| Regex.GroupedOnDigits | voice_eval/mcp_tools.py:24 | wherever four digits start, `\d{1,3}(?:,\d{3})*(?:-\d+)?` takes exactly three, whatever follows |
| Regex.MatchSeq | voice_eval/mcp_tools.py:24-28 | matching the atoms before the group ends inside the text |
| Regex.MatchAt | voice_eval/mcp_tools.py:32 | a match at a position captures no more than the text left from there |
| Regex.MatchAtomShift | voice_eval/mcp_tools.py:24-28 | text put before the position does not change what an atom matches |
| Regex.MatchSeqShift | voice_eval/mcp_tools.py:24-28 | text put before the position does not change what a sequence of atoms matches |
| Regex.MatchAtShift | voice_eval/mcp_tools.py:32 | text put before the position does not change the match found there |
| Regex.CaptureChars | voice_eval/mcp_tools.py:32 | `m.group(1)` holds only characters its group accepts; a digit group starts with a digit |
| Regex.LeftmostFrom | voice_eval/mcp_tools.py:32 | the scan for a match position returns a position where the pattern matches |
| Regex.LeftmostFromSpec | voice_eval/mcp_tools.py:32 | no position before the one found matches; when none is found, no position matches |
| Regex.Search | voice_eval/mcp_tools.py:32 | a capture of `re.search` is no longer than the text |
| Regex.SearchLeftmost | voice_eval/mcp_tools.py:32 | `re.search` fails exactly when no position matches; otherwise it returns the match at the leftmost matching position |
| Regex.SearchAtStart | voice_eval/mcp_tools.py:46 | a match at position 0 is the one `re.search` returns |
| Regex.SearchFirstMatch | voice_eval/mcp_tools.py:32 | when the pattern matches at a position and nowhere before it, `re.search` returns that match |
| Regex.MatchImpliesSearch | voice_eval/mcp_tools.py:46 | a match at any position makes `re.search` succeed |
| Regex.MatchImpliesLeftmost | voice_eval/mcp_tools.py:46 | a match at or after a position makes the scan from that position succeed |
| Regex.SearchCapture | voice_eval/mcp_tools.py:32-34 | the captured group holds only characters of its group; a digit group starts with a digit |
| McpTools.FirstMatching | voice_eval/mcp_tools.py:31-36 | the pattern the loop stops at is one that `re.search` finds |
| McpTools.FirstMatchingSpec | voice_eval/mcp_tools.py:31-36 | the loop stops at the first pattern that matches; when it stops at none, no pattern matches |
| McpTools.FirstMatchingAt | voice_eval/mcp_tools.py:45-50 | when pattern k matches and none before it does, the loop stops at k |
| McpTools.FirstMatchingNone | voice_eval/mcp_tools.py:45-50 | when no pattern matches, the loop stores nothing |
| McpTools.SlotValue | voice_eval/mcp_tools.py:22-36 | a value is stored only when the keyword occurs, and it holds no comma |
| McpTools.OrderNumber | voice_eval/mcp_tools.py:22-36 | an order number is found only when "order" occurs, and it holds no comma |
| McpTools.CardInfo | voice_eval/mcp_tools.py:39-50 | a card is found only when "card ending" occurs, and it holds no comma |
| McpTools.SlotValueFirstPattern | voice_eval/mcp_tools.py:31-36 | when the keyword occurs and the first pattern matches, the value is its capture with commas removed |
| McpTools.ExtractSlots | voice_eval/mcp_tools.py:12-52 | the result keeps every current slot, adds at most the order number and the card, and leaves every other slot's value alone |
| McpTools.ExtractInto | voice_eval/mcp_tools.py:22-36 | one keyword's pass of the loop stores the first pattern's capture, commas removed, only when the keyword occurs |
| McpTools.ExtractSlotsTool | voice_eval/mcp_tools.py:12-55 | `extract_slots_tool` succeeds with the slot map ExtractSlots describes |
| McpTools.ExtractKeepsSlotsWithoutKeyword | voice_eval/mcp_tools.py:22 | without "order" the order number stays as it was; without "card ending" the card does |
| McpTools.OrderNumberClean | voice_eval/mcp_tools.py:34-35 | a stored order number is non-empty, starts with a digit, has no comma, and holds only digits and hyphens |
| McpTools.CardInfoClean | voice_eval/mcp_tools.py:48-49 | a stored card is non-empty and holds only digits |
| McpTools.ExtractIdempotent | voice_eval/mcp_tools.py:18-50 | extracting again from the same text, starting from the result, changes nothing |
| McpTools.ExtractedValueIndependentOfSlots | voice_eval/mcp_tools.py:35 | once the text supplies a value, the stored value does not depend on the slots extraction started from |
| McpTools.MatchSeqConcat | voice_eval/mcp_tools.py:27-28 | matching a concatenation of atoms is matching the first part and then the second |
| McpTools.OrderDigitsShadowed | voice_eval/mcp_tools.py:24-25 | wherever `order\s+(\d+)` matches, the first order pattern matches too |
| McpTools.CardFourDigitsShadowed | voice_eval/mcp_tools.py:41-42 | wherever `card\s+ending\s+(\d{4})` matches, the first card pattern matches too |
| McpTools.MyOrderNumberIsShadowed | voice_eval/mcp_tools.py:27-28 | wherever `my\s+order\s+number\s+is\s+(\d+)` matches, `order\s+number\s+is\s+(\d+)` matches too |
| McpTools.OrderDigitsNeverDecides | voice_eval/mcp_tools.py:25 | the second order pattern never decides the order number |
| McpTools.MyOrderNumberIsNeverDecides | voice_eval/mcp_tools.py:28 | the fifth order pattern never decides the order number |
| McpTools.CardFourDigitsNeverDecides | voice_eval/mcp_tools.py:42 | the second card pattern never decides the card |
| McpTools.KeywordAtStart | voice_eval/mcp_tools.py:22 | a text starting with the keyword and a space passes the keyword test |
| McpTools.OrderGroupedOnDigits | voice_eval/mcp_tools.py:24 | on "order " followed by text that starts with four digits, the first order pattern captures the first three |
| McpTools.OrderGroupedAfter | voice_eval/mcp_tools.py:24 | when the first order pattern matches nowhere inside `p`, `re.search` on `p + "order " + d` captures the first three digits of `d` |
| McpTools.KeywordInside | voice_eval/mcp_tools.py:22 | a keyword followed by a space passes the keyword test wherever it stands in the text (used for "order" and "card ending") |
| McpTools.OrderValueOfCapture | voice_eval/mcp_tools.py:22-35 | when "order" occurs and the first pattern's capture is three digits, those are the order number |
| McpTools.LongOrderNumberTruncated | voice_eval/mcp_tools.py:22-36 | in `p + "order " + d`, with `d` starting with four digits and the first pattern matching nowhere inside `p`, only the first three digits are stored |
| McpTools.CardPrefixOnDigits | voice_eval/mcp_tools.py:41 | `card\s+ending\s+` consumes "card ending " when a digit follows |
| McpTools.CardEndingOnDigits | voice_eval/mcp_tools.py:41 | `ending\s+` consumes "ending " when a digit follows |
| McpTools.CardGroupedOnDigits | voice_eval/mcp_tools.py:41 | on "card ending " followed by text that starts with four digits, the first card pattern captures the first three |
| McpTools.CardGroupedAfter | voice_eval/mcp_tools.py:41 | when the first card pattern matches nowhere inside `p`, `re.search` on `p + "card ending " + d` captures the first three digits of `d` |
| McpTools.CardValueOfCapture | voice_eval/mcp_tools.py:39-49 | when "card ending" occurs and the first pattern's capture is three digits, those are the card |
| McpTools.LongCardNumberTruncated | voice_eval/mcp_tools.py:39-50 | in `p + "card ending " + d`, with `d` starting with four digits and the first pattern matching nowhere inside `p`, only the first three digits are stored |
| McpTools.RefundSentenceLowered | voice_eval/mcp_tools.py:19 | lowercasing "My card ending 1234 was charged twice" changes only its capital M |
| McpTools.RefundSentenceNoEarlyCard | voice_eval/mcp_tools.py:41 | the first card pattern matches at none of the first three positions of that sentence |
| McpTools.RefundSentenceCard | voice_eval/mcp_tools.py:39-50 | the card found in the lowercased sentence is "123" |
| McpTools.RefundSentenceNoOrder | voice_eval/mcp_tools.py:22 | the sentence yields no order number |
| McpTools.CardEndingSentence | voice_eval/mcp_tools.py:12-52 | extracting from "My card ending 1234 was charged twice" with no slots yields exactly `{"card_info": "123"}` |
| McpTools.PolicyDecision | voice_eval/mcp_tools.py:57-88 | the policy always succeeds with an action from the closed set of six |
| McpTools.TableAction | voice_eval/mcp_tools.py:66-85 | a goal without a row gets ASK_CLARIFY; otherwise the first row for the goal decides, by whether its slot is present |
| McpTools.PolicyFollowsTable | voice_eval/mcp_tools.py:66-85 | the decision is the decision table's: the goal's row, with the needed slot present or absent; an unknown goal gets ASK_CLARIFY |
| McpTools.PolicyIgnoresUserText | voice_eval/mcp_tools.py:63 | the user's text plays no part in the decision |
| McpTools.PolicyConfirmsOnlyWithSlot | voice_eval/mcp_tools.py:66-85 | a confirmation needs the order number and a refund the card; for a known goal the bot asks for the slot exactly when it is missing; any other goal gets ASK_CLARIFY |
| McpTools.ResponsesCoverActions | voice_eval/mcp_tools.py:96-103 | the template table has exactly one entry per known action |
| McpTools.GenerateResponse | voice_eval/mcp_tools.py:90-110 | the generator always succeeds and echoes the action it was given |
| McpTools.TemplateForAction | voice_eval/mcp_tools.py:96-105 | each known action gets its own template, filled with the slot value or its stand-in; any other action gets the "not sure" reply |
| McpTools.ConfirmationsMentionOrder | voice_eval/mcp_tools.py:97-98 | both confirmations contain the order number they are given |
| McpTools.RefundMentionsCard | voice_eval/mcp_tools.py:99 | the refund reply contains the card it is given |
| McpTools.RefundSplit | voice_eval/mcp_tools.py:99 | the refund reply is its opening, the word "refund", and the rest |
| McpTools.RefundMentionsRefund | voice_eval/mcp_tools.py:99 | the refund reply contains "refund" |
| McpTools.AskOrderMentionsOrderNumber | voice_eval/mcp_tools.py:100 | the request for an order number contains "order number" |
| McpTools.ReplyMentionsSlots | voice_eval/mcp_tools.py:97-105 | confirmations name the order (or "that order"); the refund names the card (or "your card") and says "refund"; the request says "order number" |
| McpTools.PolicyReplyUsesStoredSlot | voice_eval/mcp_tools.py:66-105 | for an action the policy chose, a confirmation carries the stored order number and a refund the stored card, never a stand-in |
| McpClient.Invoke | voice_eval/mcp_client.py:19 | a tool whose arguments bind and have the hinted types succeeds with its own kind of data |
| McpClient.Dispatch | voice_eval/mcp_client.py:13-21 | an unknown name gives "Tool … not found"; a known tool fails exactly when its arguments do not bind; a failure carries no data and an error |
| McpClient.Client.constructor | voice_eval/mcp_client.py:6-11 | the client's table maps the three tool names to the three tools |
| McpClient.Client.CallTool | voice_eval/mcp_client.py:13-21 | `call_tool` gives the result Dispatch describes for the client's table |
| McpClient.DispatchExtract | voice_eval/mcp_client.py:19 | "extract_slots" with the simulator's arguments succeeds with the extracted slots |
| McpClient.DispatchPolicy | voice_eval/mcp_client.py:19 | "policy_decision" with the simulator's arguments gives the policy's result |
| McpClient.DispatchResponse | voice_eval/mcp_client.py:19 | "generate_response" with the simulator's arguments gives the generator's result |
| McpClient.UnknownToolFails | voice_eval/mcp_client.py:15-16 | any name other than the three registered ones fails with "Tool … not found" |
| McpClient.RegisteredToolFailsOnlyOnBinding | voice_eval/mcp_client.py:18-21 | a registered tool fails exactly when a keyword is missing or extra |
| EvaluatorRules.AnyContained | voice_eval/evaluator_rules.py:21-24 | the loop over `contains_any` passes exactly when some phrase, lowercased, occurs in the lowercased reply |
| EvaluatorRules.Verdict | voice_eval/evaluator_rules.py:4-27 | an empty expectation passes, and a pass otherwise needs `contains` or a `contains_any` list |
| EvaluatorRules.CheckBotExpectEnhanced | voice_eval/evaluator_rules.py:4-27 | the rule judge's verdict: empty passes, `contains` first, then a `contains_any` list, anything else fails |
| EvaluatorRules.ContainsMeansSubstring | voice_eval/evaluator_rules.py:12-14 | a `contains` expectation passes exactly when the lowercased phrase occurs somewhere in the lowercased reply |
| EvaluatorRules.ContainsTakesPrecedence | voice_eval/evaluator_rules.py:12-16 | with `contains` present, every other key is ignored |
| EvaluatorRules.NonListFails | voice_eval/evaluator_rules.py:18-19 | a `contains_any` that is not a list fails whatever the reply |
| EvaluatorRules.UnknownKeysFail | voice_eval/evaluator_rules.py:26-27 | a non-empty expectation with neither key fails whatever the reply |
| EvaluatorRules.VerdictIgnoresCase | voice_eval/evaluator_rules.py:9 | lowercasing the reply first does not change the verdict |
| EvaluatorRules.ContainsAnyIsSomeContains | voice_eval/evaluator_rules.py:16-24 | a `contains_any` list passes exactly when one of its phrases would pass as a `contains` |
| EvaluatorRules.MorePhrasesStillPass | voice_eval/evaluator_rules.py:21-24 | adding phrases before or after a passing list keeps it passing |
| EvaluatorLlm.JsonSpan | voice_eval/evaluator_llm.py:101-104 | the cut runs from the first `{` to the last `}`; when there is none, no `{` comes before any `}` |
| EvaluatorLlm.ParsedObject | voice_eval/evaluator_llm.py:103-113 | a parsed answer is used only when it has a "pass" field |
| EvaluatorLlm.TextFallback | voice_eval/evaluator_llm.py:115-128 | the text fallback always yields a boolean "pass" |
| EvaluatorLlm.CallOllama | voice_eval/evaluator_llm.py:58-133 | `_call_ollama_llm` raises exactly when the call fails, and otherwise returns an object with "pass" |
| EvaluatorLlm.LlmVerdict | voice_eval/evaluator_llm.py:12-32 | an empty expectation passes without the model; a failed call gives the rule judge's verdict |
| EvaluatorLlm.FallbackRuleEvaluation | voice_eval/evaluator_llm.py:135-158 | the fallback gives the rule judge's verdict |
| EvaluatorLlm.CheckBotExpectLlm | voice_eval/evaluator_llm.py:7-32 | the LLM judge's verdict; an empty expectation passes without asking |
| EvaluatorLlm.FailedCallMatchesRules | voice_eval/evaluator_llm.py:25-32 | when the call fails, the verdict is the rule judge's |
| EvaluatorLlm.AnsweredVerdictIsPassField | voice_eval/evaluator_llm.py:19-24 | when the model answers, the verdict is the "pass" field itself; the default of `get` is never used |
| EvaluatorLlm.ParsedAnswerWins | voice_eval/evaluator_llm.py:103-109 | a cut-out object that parses and has "pass" is returned unchanged, whatever else the text says |
| EvaluatorLlm.FallbackTrueIffTrueFragment | voice_eval/evaluator_llm.py:117-121 | the text fallback passes exactly when a true fragment occurs in the lowercased text |
| EvaluatorLlm.UnreadableAnswerFails | voice_eval/evaluator_llm.py:122-128 | without usable JSON and without any fragment, the verdict is false with "Failed to parse LLM response" |
| EvaluatorLlm.FallbackIgnoresCase | voice_eval/evaluator_llm.py:117 | the text fallback does not depend on the answer's case |
| EvaluatorLlm.NoBraceMeansTextSearch | voice_eval/evaluator_llm.py:101-113 | an answer without `{` is never parsed, and the text search decides |
| Simulator.AudioPath | voice_eval/simulator.py:24 | an audio path lies in the audio directory and ends in ".wav" |
| Simulator.AudioPathsDistinct | voice_eval/simulator.py:24-69 | a user file is never a bot file, and two turns never share a file |
| Simulator.Judge | voice_eval/simulator.py:72-75 | a step without expectation records true; the rules judge always records a boolean |
| Simulator.Turn | voice_eval/simulator.py:21-89 | a turn records its number, the user's line, the expectation, both audio paths and the judge's verdict on the reply, and its two audio files differ |
| Simulator.Unroll | voice_eval/simulator.py:17-21 | the loop records exactly one entry per turn |
| Simulator.UnrollEntries | voice_eval/simulator.py:21-89 | entry k is turn k+1, run on the slots the first k turns left, and the slots carried forward are the last entry's |
| Simulator.UnrollSlotsGrow | voice_eval/simulator.py:36-37 | when no turn forgets a slot, later entries hold every slot of earlier ones and nothing but the order number and the card |
| Simulator.Run | voice_eval/simulator.py:21-89 | a scenario's run records one entry per step |
| Simulator.CountExpected | voice_eval/simulator.py:92 | at most one step is counted per step |
| Simulator.CountPassed | voice_eval/simulator.py:93 | at most one entry is counted per entry |
| Simulator.ScenarioSpec | voice_eval/simulator.py:91-104 | the result carries the scenario's id and goal and one entry per step; it passes exactly when the passed count equals the expected count; neither count exceeds the steps |
| Simulator.RunTurn | voice_eval/simulator.py:22-89 | one pass of the loop body, with the code's failure handling, records the turn Turn describes |
| Simulator.RunScenario | voice_eval/simulator.py:14-104 | `run_scenario` returns the result ScenarioSpec describes |
| Simulator.DirectorySpec | voice_eval/simulator.py:111-116 | a directory run has one result per scenario |
| Simulator.RunDirectory | voice_eval/simulator.py:106-116 | `run_directory` returns the scenarios' results in order |
| Simulator.DirectoryResults | voice_eval/simulator.py:113-115 | result k is the run of scenario k |
| Simulator.TurnActionAndSlots | voice_eval/simulator.py:31-56 | every turn's action is a known one, and its slots extend the previous slots by at most the order number and the card |
| Simulator.TurnReplyNamesSlot | voice_eval/simulator.py:42-65 | a turn that confirms names the order number it holds, and a refund names the card |
| Simulator.TranscriptShape | voice_eval/simulator.py:78-89 | entry k records turn k+1, the user's line, the expectation (empty when absent), both audio paths and the judge's verdict |
| Simulator.TranscriptAudioDistinct | voice_eval/simulator.py:21-88 | no two audio files of a run share a path |
| Simulator.TranscriptActionsKnown | voice_eval/simulator.py:83 | every recorded action is one of the six known actions |
| Simulator.TranscriptSlotsGrow | voice_eval/simulator.py:36-37 | slots are never forgotten across turns, and only the order number and card are ever stored |
| Simulator.TranscriptEntry | voice_eval/simulator.py:21-89 | entry k is turn k+1 run on the slots of the first k turns |
| Simulator.TurnConfirmsWithOrder | voice_eval/simulator.py:42-50 | in an address-change scenario, a turn that ends holding an order number confirms |
| Simulator.ConfirmsOnceOrderKnown | voice_eval/simulator.py:21-89 | in an address-change scenario, once an order number is heard, every later turn confirms |
| Simulator.CountPassedBounds | voice_eval/simulator.py:92-94 | no more steps pass than carry an expectation; all do exactly when each of them got a truthy verdict |
| Simulator.ScenarioPassMeansAllExpectedPassed | voice_eval/simulator.py:92-94 | a scenario passes exactly when every step with an expectation passed |
| Simulator.NoExpectationsNothingCounted | voice_eval/simulator.py:92 | steps without expectations count nothing |
| Simulator.ScenarioWithoutExpectationsPasses | voice_eval/simulator.py:72-94 | a scenario without expectations passes with nothing expected |
| Simulator.RulesJudgeVerdict | voice_eval/simulator.py:74-75 | with the rules judge, the recorded verdict is the rule judge's boolean |

## Left out

- Speech: `synthesize` and `transcribe` are one parameter, `speech`, which gives what the recogniser heard. Synthesising the bot's reply (simulator.py:69) writes a file the program never reads back, so it is not modelled. Its path is recorded.
- A `synthesize` or `transcribe` call that raises aborts the whole run; `speech` always returns, so that failure is not modelled.
- The LLM call:
  - `_create_evaluation_prompt` and the HTTP requests are folded into the parameter `ask`.
  - The environment variables that configure the server, and the debug and warning prints, are not modelled.
  - `json.loads` is the parameter `loads`, which returns an object or nothing. An answer that parses to something other than an object is one `loads` maps to nothing.
- EvaluatorLlm.JsonValue: the "pass" value is kept as the JSON value it is. Values other than booleans and strings carry only their truthiness.
- Common.LowerStr: lowercases ASCII letters only, while Python's `lower()` maps all of Unicode.
- Regex: `\d` is the ASCII digits only, while Python's `\d` on `str` matches every Unicode decimal digit.
- Argument values of the wrong type: `call_tool` on a value whose type differs from the tool's hint is excluded by `WellTyped`. Every caller passes the hinted types.
- The tools' `except` branches: with well-typed arguments, no tool raises.
  - This holds for mcp_tools.py:54-55, 87-88 and 112-116.
  - The failure branches of the simulator loop (simulator.py:38-39, 48-50, 58-63) are in `RunTurn`, which proves them dead. `Turn` leaves them out.
- McpClient.BindingFailure: the text of Python's `TypeError` message is not reproduced. Only the failed result, with no data and an error, is stated.
- Scenario loading: `load_scenario`, `load_scenarios` and YAML parsing are left out. `RunDirectory` takes the scenario list. `Scenario.acceptance` is carried but never read.
- The command line and the report writers are not part of this model.
- The lowercased user text in `policy_decision_tool` (mcp_tools.py:63) is computed and never used, so it is not modelled.
- McpTools.ExtractInto models the order loop and the card loop once, since the two are the same loop over different patterns and keys.
- EvaluatorLlm.FallbackRuleEvaluation calls the rule judge instead of repeating its body. The source's copy is the same logic line for line.
