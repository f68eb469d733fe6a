# Debate orchestrator and BaZi relation analyser, in Dafny

This project models two parts of a Python code base.

- **`close_loop.py`** runs a debate among several language models. Each model first answers the user's question. Then, round after round, every participating model sees the other participants' latest answers and replies with a `[agree, message]` list. `parse_list_response` reads that list out of free text. The debate stops when every model that answered the round agrees, when fewer than two models are left to take part, or when `max_loops` rounds have been played. Every model that ever said anything is then asked for a long final answer. `pick_final` chooses what is reported for each model.
- **`bazi.py`** holds the fixed Five-Element (五行) tables of the Heavenly Stems (天干) and Earthly Branches (地支) of a BaZi chart. `analyze_detailed_relations` lists the relations between the four pillars:
  - stem clashes (冲), the Five Combinations (五合) and the 克 hint;
  - branch combinations, clashes, harms, destructions, hidden combinations (暗合) and self-punishment;
  - the three-branch punishments, Three Harmonies (三合) and Three Meetings (三会).

  It returns the notes sorted, without duplicates. `generate_prompt` counts the visible elements and splits the notes into a stem half and a branch half.

Modules:

| module | file | what it holds |
|---|---|---|
| `Maybe`, `Text` | `text.dfy` | Python's `None`, `strip`, `lower`, `in`, `find` and `join` on strings |
| `Ordering` | `ordering.dfy` | Python's string order, and `sorted(set(xs))` |
| `Records` | `records.dfy` | the per-model record and the fixed registry of gemini, chatgpt and deepseek |
| `ResponseParser` | `response_parser.dfy` | `parse_list_response`, with a recogniser for the `[bool, str]` literal in place of `ast.literal_eval` |
| `Prompts` | `prompts.dfy` | which blocks `build_debate_prompt` and `build_final_prompt` choose |
| `Debate` | `debate.dfy` | `close_loop_ask` as a function of the question, `max_loops`, the output language and an oracle `ask` that stands for the vendor clients |
| `Orchestrator` | `orchestrator.dfy` | `close_loop_ask` as the source runs it: a class `ModelState` whose fields the rounds update in place, with every method proved equal to the `Debate` functions |
| `Scenarios` | `scenarios.dfy` | whole debates over the real registry |
| `BaziTables` | `bazi_tables.dfy` | the `__init__` tables |
| `BaziRelations` | `bazi_relations.dfy` | what the relation analysis computes, and what its notes mean |
| `BaziAnalysis` | `bazi_analysis.dfy` | the loops of `check_an_he` and `analyze_detailed_relations`, proved to compute the `BaziRelations` functions |
| `BaziPrompt` | `bazi_prompt.dfy` | the element count and the note split of `generate_prompt` |

Two points where the code behaves differently from its design notes:

- The final answers are stored by display name (`final_answers_map[m["name"]]`), not by id. The model does the same, and proves the map right when names are distinct (`Debate.FinalizeSpec`).
- A model that fails in a round is marked down only after that round's calls have been sent. It is therefore left out of the *next* round (`Debate.FailedSitsOutNextRound`), not the current one.

Other behaviour of the code that the model keeps as written:

- Every model is reset to "not down" before the replies of a round are collected. A model that failed in the previous round sat this round out, but still has its failure marker in `last_struct`. It therefore counts toward this round's consensus with its old `last_agree` (`Debate.StaleAgreement`).
- The 克 hint note is `天干 (loc1-loc2)`. The message `check_wuxing_ke` computed is not part of the note (`BaziRelations.KeOnlyWhenNoOtherRelation`).
- The 无礼刑 pair (子, 卯) of the punishment table is never reported: the pairwise loop looks only at self-punishment, and the pattern section only at 寅巳申 and 丑未戌 (`BaziRelations.XingChain`).
- A fenced reply whose opening fence carries a language tag (```` ```python ````) is not read as a list. The tag stays at the head of the cleaned text, and the keyword heuristic decides instead (`ResponseParser.ParseTaggedFence`).

## Model

| member | source | states |
|---|---|---|
| `Text.Strip` | close_loop.py:115 | `strip()` removes exactly a white-space prefix and a white-space suffix; what it keeps neither starts nor ends with white space |
| `Text.StripAround` | close_loop.py:115 | stripping the white space around a word that neither starts nor ends with any gives back the word |
| `Text.Lower` | close_loop.py:133 | `lower()` maps each character by itself, ASCII capitals to small letters, and keeps the length |
| `Text.IndexOf` | close_loop.py:116 | the result is the first occurrence at or after the start, and `None` means there is none |
| `Text.ContainsIff` | close_loop.py:116 | `pat in s` holds exactly when `pat` occurs at some index of `s` |
| `Ordering.BelowIrreflexive` | bazi.py:368 | no string sorts before itself |
| `Ordering.BelowTransitive` | bazi.py:368 | Python's string order is transitive |
| `Ordering.BelowTotal` | bazi.py:368 | any two different strings are ordered one way or the other |
| `Ordering.BelowAsymmetric` | bazi.py:368 | no two strings each sort before the other |
| `Ordering.Insert` | bazi.py:368 | inserting into a strictly ascending list keeps it strictly ascending and adds exactly the new element |
| `Ordering.SortedUnique` | bazi.py:368 | `sorted(set(xs))` is strictly ascending and has exactly the elements of `xs` |
| `Ordering.AscendingUnique` | bazi.py:368 | two strictly ascending lists with the same elements are equal, so the result does not depend on set iteration order |
| `Records.Fresh` | close_loop.py:338-388 | a registry entry starts up, with no answer, no reply and no agreement |
| `Records.RegistryDistinct` | close_loop.py:338-388 | the three registry entries have distinct ids and distinct names, and each starts fresh |
| `ResponseParser.SkipSpace` | close_loop.py:104 | skips exactly the run of token white space at the position |
| `ResponseParser.ParseBool` | close_loop.py:104-111 | a parsed boolean is spelled `True` or `False` at the position |
| `ResponseParser.StringBody` | close_loop.py:104-111 | a parsed string literal ends just after its closing quote |
| `ResponseParser.LiteralEval` | close_loop.py:103-111 | stands for `ast.literal_eval` plus the shape test: a value only for a `[True\|False, '<str>']` list (either quote, optional trailing comma, token white space between tokens); nothing for a text with a NUL, or whose first or last line is indented; what it accepts is stated by `ListLiteralAccepted` |
| `ResponseParser.ParseListResponse` | close_loop.py:88-141 | a literal in the raw text wins; otherwise a literal in the cleaned (stripped, unfenced) text; otherwise the answer is the raw text, and `agree` holds exactly when the first 200 lower-cased characters of the cleaned text contain "true" and not "false" |
| `ResponseParser.FencedContentBetweenFences` | close_loop.py:116-119 | the cleaned text is what lies between the first fence and the next one, and holds no fence; with no second fence, nothing is cut |
| `ResponseParser.Cleaned` | close_loop.py:115-119 | the stripped reply, replaced by the stripped text between its first two fences when it has two; its properties are `FencedContentBetweenFences` and `CleanedFenced` |
| `ResponseParser.FencedContentOf` | close_loop.py:116-119 | a block wrapped in one pair of fences is unwrapped to its inside |
| `ResponseParser.CleanedFenced` | close_loop.py:115-119 | the cleaned text of a fenced block is its inside without surrounding white space |
| `ResponseParser.HeuristicWindow` | close_loop.py:133 | only the first 200 characters of the cleaned text decide the heuristic |
| `ResponseParser.HeuristicAgree` | close_loop.py:133-139 | the heuristic agrees exactly when the first 200 lower-cased characters contain "true" and not "false"; both keywords or neither disagree |
| `ResponseParser.KeywordInHead` | close_loop.py:133-134 | a keyword within the first 200 characters is seen, whatever its letter case |
| `ResponseParser.EscapeChar` | close_loop.py:104 | a character is written as itself unless it is the quote, a backslash or a line break, which get a backslash escape that decodes back to the character |
| `ResponseParser.DecodesEscapeAfter` | close_loop.py:104 | reading back an escaped message gives the message and stops at the closing quote, whatever text surrounds it |
| `ResponseParser.StringBodyDecodesEscape` | close_loop.py:104 | a string literal written by escaping a message is read back as that message |
| `ResponseParser.EscapeKeepsOut` | close_loop.py:104 | escaping adds no character other than the backslash and the escape letters, so a message without backticks gives a literal without backticks |
| `ResponseParser.ListLiteralAccepted` | close_loop.py:103-111 | `[b, '<m>']` (either quote) with token white space around it is read as exactly `(b, m)`, and is refused exactly when `m` holds a NUL, the white space before it indents the list, or the white space after it ends on an indented line |
| `ResponseParser.ListLiteralAlone` | close_loop.py:103-111 | the bare literal of a message without NUL is read as `(b, m)` |
| `ResponseParser.ParseListLiteral` | close_loop.py:103-111 | round trip: a reply that is a well-formed list, with a NUL-free message and white space Python accepts around it, parses to the boolean and message written |
| `ResponseParser.LiteralEvalNeedsBracket` | close_loop.py:103-111 | a text whose first character is not white space, `[`, `(`, `#` or a backslash is never a list |
| `ResponseParser.IndentedListRefused` | close_loop.py:103-111 | a list on an indented line after a line break (`\n  [True, '```a```']`) is no literal, as Python reports an unexpected indent |
| `ResponseParser.ParseSecondAttempt` | close_loop.py:121-131 | when the raw text is not a list but the cleaned text is, the cleaned text's list is returned |
| `ResponseParser.ParseCleanedLiteral` | close_loop.py:103-131 | a reply that opens with a backtick is never a literal itself, so a literal found in its cleaned text is what it parses to |
| `ResponseParser.ParseFencedWord` | close_loop.py:115-131 | a list inside a plain fenced block is found on the second attempt |
| `ResponseParser.ParseFencedLiteral` | close_loop.py:115-131 | round trip through a fence: a fenced well-formed list of a message without backtick or NUL parses to the boolean and message written |
| `ResponseParser.ParseFallsBack` | close_loop.py:133-141 | when neither attempt finds a list, the raw text is returned with the heuristic's verdict |
| `ResponseParser.ParseTaggedWord` | close_loop.py:115-141 | behind a fence with a tag line (not starting with `[`, `(`, `#` or a backslash), the tag is kept in the cleaned text and the heuristic decides |
| `ResponseParser.ParseTaggedFence` | close_loop.py:115-141 | even a well-formed list behind such a language-tagged fence is not read as a list |
| `Prompts.Others` | close_loop.py:223 | the peers are exactly the participants with another id |
| `Prompts.OthersAppend` | close_loop.py:223 | the peer list keeps the participants' order |
| `Prompts.BuildDebatePrompt` | close_loop.py:214-285 | the web header exactly for the gemini, chatgpt and claude ids; the no-browse guidance exactly for models without web search; the sole-responder note exactly when there is no peer; otherwise one entry per peer, in order |
| `Prompts.DebatePromptPeers` | close_loop.py:223-235 | a participant's latest answer appears, under its name, in a model's prompt exactly when its id is another one |
| `Prompts.DebatePromptPair` | close_loop.py:223-235 | with two participants each sees only the other's answer; a model alone gets the sole-responder note |
| `Prompts.RegistryHeaderMatchesGuidance` | close_loop.py:237-275 | for the registry the header and the guidance agree; a web-enabled model outside the id list gets the no-web header with the search guidance |
| `Prompts.BuildFinalPrompt` | close_loop.py:287-325 | the report carries the model's name, a Chinese language line exactly for "zh", and the no-browse note exactly for models without web search |
| `Debate.InitialFailure` | close_loop.py:417 | the initial failure marker is a non-empty bracketed text |
| `Debate.LoopFailure` | close_loop.py:476 | the round failure marker is a non-empty bracketed text |
| `Debate.FinalFailure` | close_loop.py:527 | the final failure marker is a non-empty bracketed text |
| `Debate.InitialStep` | close_loop.py:405-423 | a reply becomes the model's last answer; a failure marks it down and leaves a non-empty marker; identity, last reply and agreement are kept |
| `Debate.InitialRound` | close_loop.py:398-423 | each model's record after the initial round is its own initial step, at its registry index |
| `Debate.ActiveFrom` | close_loop.py:432 | the participants' indices are exactly the records that are up, in registry order |
| `Debate.Participants` | close_loop.py:432 | the participants are the up records, in registry order |
| `Debate.DebateStep` | close_loop.py:457-484 | a reply is stored raw and parsed into agreement and answer, and the model is up; a failure marks the model down with a non-empty marker and keeps its answer and agreement |
| `Debate.Round` | close_loop.py:441-484 | every record after a round is that record's own turn |
| `Debate.RoundEffect` | close_loop.py:441-484 | a model that sat the round out is only reset to up; a participant's record is its reply parsed, or its failure recorded |
| `Debate.RoundAgreeing` | close_loop.py:457-486 | a participant whose reply parses as agreeing counts as agreeing after the round |
| `Debate.RoundFailing` | close_loop.py:474-484 | a participant whose call fails ends the round down, with a marker |
| `Debate.ConsensusOfEach` | close_loop.py:486-487 | consensus holds when some model counts and every counted model agrees |
| `Debate.ConsensusBlocked` | close_loop.py:486-487 | consensus holds exactly when some model counts and no counted model disagrees |
| `Debate.StaleAgreement` | close_loop.py:454-487 | a model that failed in the previous round takes no part, yet counts toward consensus with its old agreement |
| `Debate.FailedSitsOutNextRound` | close_loop.py:432-484 | a model whose call fails in a round is not among the next round's participants |
| `Debate.DebateLoop` | close_loop.py:428-499 | the loop keeps every model's identity; it plays at most `max_loops` rounds; when it ends at the ceiling, `loop_idx` equals `max_loops` (or its start value when that is already past the ceiling); it stops early only because fewer than two models are up, or because consensus is reached |
| `Debate.ConsensusStops` | close_loop.py:486-499 | when a round below the ceiling, with at least two models up, reaches consensus, the loop ends right after that round with its records and `loop_idx` one higher |
| `Debate.TooFewStopsAtOnce` | close_loop.py:434-439 | with fewer than two models up, the loop stops in that round without calling anyone |
| `Debate.AgreedInFirstRound` | close_loop.py:486-499 | the first-round case of `ConsensusStops`: consensus in round one ends the loop with `loop_idx` 1 |
| `Debate.FinalValue` | close_loop.py:515-532 | a model's final value is its final reply, or a bracketed failure marker |
| `Debate.FinalizeFrom` | close_loop.py:501-532 | the final-answer map has a key for exactly the names of the models that said something |
| `Debate.Finalize` | close_loop.py:501-532 | `final_answers_map`, built over the records in order from an empty map; `FinalizeSpec` states its keys and values |
| `Debate.FinalizeFromValue` | close_loop.py:501-532 | with distinct names, each such model's entry is its own final value |
| `Debate.FinalizeSpec` | close_loop.py:501-532 | with distinct names, the map's keys are the names of the models that said something, and each one's value is its own final value |
| `Debate.FindModel` | close_loop.py:208-212 | `get_model` finds the first record with the id, and `None` only when there is none |
| `Debate.PickFinal` | close_loop.py:535-545 | `pick_final`: the final answer stored under the model's name, else its last answer, else its last reply, else the no-output note, and the unknown-id note when no record has the id; `PickFinalOrder` states the order |
| `Debate.PickFinalOrder` | close_loop.py:535-545 | `pick_final` returns the final answer, else the last answer, else the last reply, else the no-output note; an unknown id gets its own note |
| `Debate.PickAfterFinalize` | close_loop.py:501-545 | after finalization, a model that said something is reported by its final value; only a silent model gets the no-output note |
| `Debate.DebatedDistinct` | close_loop.py:338-499 | the debate never changes who the participants are |
| `Debate.Report` | close_loop.py:547-580 | the six strings returned: `pick_final` of gemini, chatgpt and deepseek after finalization, then each one's last reply (empty for an unknown id) |
| `Debate.Run` | close_loop.py:186-580 | `close_loop_ask` as a function: the report of the records the initial round and the debate loop leave; `Orchestrator.CloseLoopAsk` is proved to return it |
| `Orchestrator.ModelState.constructor` | close_loop.py:338-388 | a new model record is its registry entry |
| `Orchestrator.Snapshot` | close_loop.py:338-388 | the snapshot lists each model's record, in order |
| `Orchestrator.NewRegistry` | close_loop.py:338-388 | three new, distinct objects whose records are the registry |
| `Orchestrator.AskAll` | close_loop.py:398-403 | the initial calls go to each model with the question and its web flag |
| `Orchestrator.InitialAnswers` | close_loop.py:398-423 | updating the objects in place leaves them as the initial round says |
| `Orchestrator.Participating` | close_loop.py:432 | the loop picks out exactly the participants of the round |
| `Orchestrator.BuildPrompts` | close_loop.py:441-443 | each participant gets the debate prompt built from the round's participants |
| `Orchestrator.Dispatch` | close_loop.py:445-452 | each participant is called with its prompt, the round number and its web flag |
| `Orchestrator.ResetAll` | close_loop.py:454-455 | every model is set up again, and nothing else changes |
| `Orchestrator.TakeTurn` | close_loop.py:457-484 | one participant's record is updated as its turn says |
| `Orchestrator.Collect` | close_loop.py:457-484 | each participant's object ends with its turn's record; every other object is only reset |
| `Orchestrator.PlayRound` | close_loop.py:428-484 | a round played in place leaves the objects as the round function says |
| `Orchestrator.RoundOfTurns` | close_loop.py:441-484 | the participants' turns plus the reset of the others make up the round |
| `Orchestrator.ConsensusReached` | close_loop.py:486-487 | the scan over the models decides consensus exactly |
| `Orchestrator.RunLoops` | close_loop.py:428-499 | the while loop leaves the objects and the round count as the debate loop says |
| `Orchestrator.CollectFinals` | close_loop.py:501-532 | the final-answer map built in place is the finalization map |
| `Orchestrator.GetModel` | close_loop.py:208-212 | returns the first object with the id, or `null` |
| `Orchestrator.PickFinalAnswer` | close_loop.py:535-545 | returns what `pick_final` chooses |
| `Orchestrator.LastStruct` | close_loop.py:568-570 | returns the model's last reply, or the empty string for an unknown id |
| `Orchestrator.Summarize` | close_loop.py:501-580 | the six strings returned are the report of the final records |
| `Orchestrator.CloseLoopAsk` | close_loop.py:186-580 | the whole run returns what the functional model returns |
| `Scenarios.InitialAllUp` | close_loop.py:398-432 | when all three models answer, all three take part in round one |
| `Scenarios.ThreeAgree` | close_loop.py:486-487 | two agreeing models and a third that agrees or is down make a consensus |
| `Scenarios.AllAgreeInRoundOne` | close_loop.py:398-499 | when all three agree in round one, the debate stops after one round with consensus |
| `Scenarios.OneFailsOthersAgree` | close_loop.py:457-499 | a model that fails while the other two agree does not block consensus; it ends down with a marker |
| `Scenarios.TwoFailInitially` | close_loop.py:405-439 | when two models fail the initial round, the loop stops at once for lack of participants |
| `BaziTables.Sorted2Same` | bazi.py:79 | two sorted pairs are equal exactly when they hold the same two stems |
| `BaziTables.HiddenStemsAreStems` | bazi.py:57-61 | each branch hides one to three stems, all of them real stems |
| `BaziTables.KeIrreflexiveAsymmetric` | bazi.py:51-54 | no element overcomes itself, and no two elements overcome each other |
| `BaziRelations.CheckWuxingKe` | bazi.py:218-225 | a message exactly when the elements of the two stems are in the 克 relation, one way or the other, naming the overcoming stem first |
| `BaziRelations.SameElementNoKe` | bazi.py:218-225 | two stems of the same element give no 克 message |
| `BaziRelations.HeCanonIff` | bazi.py:79 | a sorted pair is a canonical combination exactly when the stems form a 五合 pair, in either order |
| `BaziRelations.AnHeRowFinds` | bazi.py:237-240 | one hidden stem finds a combination exactly when it has a partner among the other branch's hidden stems |
| `BaziRelations.AnHeRowEntries` | bazi.py:237-240 | every combination found for one hidden stem names that stem and a partner |
| `BaziRelations.AnHeFoundFinds` | bazi.py:236-241 | the list of combinations is non-empty exactly when some hidden stem has a partner |
| `BaziRelations.AnHeFoundEntries` | bazi.py:236-241 | every entry names a hidden stem of each branch that form a 五合 pair |
| `BaziRelations.AnHe` | bazi.py:227-245 | `check_an_he`: the note `暗合(藏干…)` listing every hidden-stem combination found, or nothing; `AnHeIff` states when |
| `BaziRelations.AnHeIff` | bazi.py:227-245 | `check_an_he` reports exactly when a hidden stem of each branch form a 五合 pair; branches outside the table never report |
| `BaziRelations.ChongNotesSpec` | bazi.py:273-277 | the clash loop's notes all read 天干相冲 with the pillars, and there is one exactly when the sorted pair is in the table |
| `BaziRelations.HeNotesSpec` | bazi.py:279-284 | each combination note names the transformation of the matching pair, and there is one exactly when the sorted pair is in the table |
| `BaziRelations.StemRelationsExclusive` | bazi.py:64-67 | no two stems both clash and combine |
| `BaziRelations.StemTablesUnambiguous` | bazi.py:64-67 | no two entries of the clash table, or of the combination table, are the same unordered pair |
| `BaziRelations.AtMostOneMatch` | bazi.py:273-284 | with an unambiguous table, each loop adds at most one note |
| `BaziRelations.StemPairParts` | bazi.py:272-284 | for the real tables, a pair gets a clash note exactly when it clashes, a combination note exactly when it combines, and never both |
| `BaziRelations.SingleMatch` | bazi.py:273-284 | with an unambiguous table, a match gives exactly one note |
| `BaziRelations.StemPair` | bazi.py:266-291 | the notes of one stem pair: the clash loop, the combination loop and the 克 hint; `StemPairNotes` and `KeOnlyWhenNoOtherRelation` state them |
| `BaziRelations.StemPairNotes` | bazi.py:266-291 | a stem pair gets at most one note: the clash note when the stems clash, the combination note with its transformation when they combine |
| `BaziRelations.KeOnlyWhenNoOtherRelation` | bazi.py:286-291 | the 克 hint appears exactly when the stems neither clash nor combine and are in the 克 relation |
| `BaziRelations.KeHintAlone` | bazi.py:286-291 | the hint note is added exactly when neither loop found a relation and 克 holds |
| `BaziRelations.AnHeOnlyWithoutLiuHe` | bazi.py:315-317 | a found hidden combination is reported exactly when the pair is not a 六合 |
| `BaziRelations.SelfPunishmentIff` | bazi.py:319-320 | a self-punishment note appears exactly when both branches are the same self-punishing branch |
| `BaziRelations.BranchPair` | bazi.py:299-320 | the notes of one branch pair: the 六合, 相冲, 相害 and 相破 table notes, the hidden combination when there is no 六合, and self-punishment, in that order |
| `BaziRelations.XingNotes` | bazi.py:323-334 | the punishment patterns: 寅巳申 in full or its first pair present in `elif` order, then 丑未戌 in full; `XingChain` states when each appears |
| `BaziRelations.XingChain` | bazi.py:323-334 | each three-branch punishment note appears exactly when its branches are present; the two-branch notes appear only in their `elif` order; at most two notes |
| `BaziRelations.Present` | bazi.py:337-356 | the found items are exactly the group members among the branches |
| `BaziRelations.PresentOfThree` | bazi.py:338-339 | the found items keep the group's order |
| `BaziRelations.PresentDistinct` | bazi.py:339 | the found items have no duplicates |
| `BaziRelations.SanHeForms` | bazi.py:337-351 | three members present give 成局; two including the middle one give 半合; the outer two give 拱合; fewer give nothing |
| `BaziRelations.PresentCount` | bazi.py:340 | the count is the number of members present |
| `BaziRelations.SanHeByMembers` | bazi.py:337-351 | the 三合 note, stated by which of the three members are present |
| `BaziRelations.IndexIn` | bazi.py:361 | `group.index` is the first position of the member |
| `BaziRelations.SanHuiForms` | bazi.py:354-365 | three members present give 一方之气; two with the middle one give 半会; the outer two give 拱会; fewer give nothing |
| `BaziRelations.RowStep` | bazi.py:266-267 | the inner loop appends each later pillar's notes in order |
| `BaziRelations.RowsStep` | bazi.py:266-267 | the outer loop appends each pillar's row in order |
| `BaziRelations.ZhiList` | bazi.py:294 | `zhi_list` is the branches in pillar order |
| `BaziRelations.Branches` | bazi.py:323 | `present_zhis` is the set of the branches |
| `BaziRelations.TablesAreGroups` | bazi.py:101-115 | every 三合 and 三会 group has three distinct branches |
| `BaziRelations.MessagesTagged` | bazi.py:247-368 | every stem note is tagged 天干, every branch and pattern note is tagged 地支 |
| `BaziRelations.Messages` | bazi.py:247-368 | the notes before sorting: the stem pairs, then the branch pairs, then the patterns; `MessagesTagged` and `PairNotesInMessages` state what they hold |
| `BaziRelations.RowsHas` | bazi.py:266-320 | every note of every pillar pair lands in the list |
| `BaziRelations.PairNotesInMessages` | bazi.py:266-320 | every note of a stem pair or a branch pair is among the messages |
| `BaziAnalysis.PartnersOf` | bazi.py:237-240 | the inner loop of `check_an_he` builds the row of combinations for one hidden stem |
| `BaziAnalysis.HiddenStemPairs` | bazi.py:236-241 | the nested loops build the whole list of combinations |
| `BaziAnalysis.CheckAnHe` | bazi.py:227-245 | `check_an_he` returns exactly the hidden-combination note specified |
| `BaziAnalysis.ChongMessages` | bazi.py:273-277 | the clash loop appends the clash notes and sets `relation_found` exactly when it appended one |
| `BaziAnalysis.HeMessages` | bazi.py:279-284 | the combination loop appends the combination notes and sets `relation_found` exactly when it appended one |
| `BaziAnalysis.StemPairMessages` | bazi.py:268-291 | the body of the stem loop appends exactly the stem pair's notes |
| `BaziAnalysis.BranchPairMessages` | bazi.py:299-320 | the body of the branch loop appends exactly the branch pair's notes |
| `BaziAnalysis.StemRow` | bazi.py:267-291 | the inner stem loop builds one pillar's row |
| `BaziAnalysis.StemRelations` | bazi.py:266-291 | the stem loops build all the stem notes, in order |
| `BaziAnalysis.BranchRow` | bazi.py:298-320 | the inner branch loop builds one pillar's row |
| `BaziAnalysis.BranchRelations` | bazi.py:297-320 | the branch loops build all the pairwise branch notes, in order |
| `BaziAnalysis.SanHeMessages` | bazi.py:337-351 | the 三合 loop appends each group's note in table order |
| `BaziAnalysis.SanHuiMessages` | bazi.py:354-365 | the 三会 loop appends each group's note in table order |
| `BaziAnalysis.AnalyzeDetailedRelations` | bazi.py:247-368 | the result is strictly ascending (sorted, no duplicates) and holds exactly the notes of all the relations |
| `BaziAnalysis.StemClashReported` | bazi.py:266-277 | two clashing stems are always reported, with their pillars |
| `BaziAnalysis.SelfPunishmentReported` | bazi.py:297-320 | two equal self-punishing branches are always reported, with their pillars |
| `BaziPrompt.AllChars` | bazi.py:414 | the characters are each pillar's stem then branch, in pillar order |
| `BaziPrompt.ElementOfKnown` | bazi.py:415 | every stem and branch of the tables has one of the five elements |
| `BaziPrompt.WuxingCount` | bazi.py:416 | `wuxing_count`: for each of the five elements, how many characters of the chart have it; `CountsPartition` and `WuxingCountTotal` state the total |
| `BaziPrompt.CountsPartition` | bazi.py:416 | the five counts and the count of characters without an element add up to the number of characters |
| `BaziPrompt.WuxingCountTotal` | bazi.py:414-416 | for a chart of known stems and branches, the five counts add up to two per pillar |
| `BaziPrompt.NoneNotCounted` | bazi.py:415-416 | with every character known, no character lacks an element |
| `BaziPrompt.Filter` | bazi.py:429-430 | a filtered note is exactly a note that contains the tag |
| `BaziPrompt.TagsFound` | bazi.py:429-430 | a note starting with a tag contains it |
| `BaziPrompt.GanRelations` | bazi.py:429 | `gan_relations`: the notes containing 天干, in order |
| `BaziPrompt.ZhiRelations` | bazi.py:430 | `zhi_relations`: the notes containing 地支, in order |
| `BaziPrompt.RelationsText` | bazi.py:431-432 | the notes joined one per line, or the fallback text when there are none |
| `BaziPrompt.SplitCoversNotes` | bazi.py:429-430 | every note lands in the stem half or the branch half |
| `BaziPrompt.StemNotesToStemHalf` | bazi.py:429 | every note of the stem loop lands in the stem half |
| `BaziPrompt.BranchNotesToBranchHalf` | bazi.py:430 | every note of the branch loop and of the patterns lands in the branch half |

## Left out

- The vendor clients (`gemini.py`, `chatgpt.py`, `deepseek.py`, `claude.py`, `qwen.py`) are not part of this model. Their `ask` is the oracle parameter: a reply or an exception, chosen by the model's registry index and the call.
- The thread pool: every call of a round is submitted before any result is read, so the model sends them in order and then reads them in registry order, which is how the source applies the updates.
- Logging, `print`, timestamps and the two files `close_loop_ask` writes (`write_log_to_file`, `write_final_answers_to_file`). They do not affect the returned values. `repr(e)` is the oracle's error string.
- The commented-out registry entries (claude, qwen) and the command-line entry point.
- The fixed English wording of the prompts. `Prompts` models which block each prompt contains and which peers it shows; the wording is constant text.
- `ResponseParser.LiteralEval`: recognises one family of spellings of the `[bool, str]` list, as stated in its row. `ast.literal_eval` also reads the list in other spellings, which the model rejects. Among them: a comment (`# …`) on a line of its own, inside the brackets, or after `]` on the list's own line; parentheses around the list or around either item (`([True, 'x'])`, `[(True), ('x')]`); a backslash-newline continuation outside or inside the string; a triple-quoted, `r`- or `u`-prefixed or implicitly concatenated string; octal, `\x`, `\u`, `\U` and `\N` escapes. A reply in such a spelling gets the fenced or heuristic reading in the model, where the source returns its list. For every text the model does accept, Python gives the same pair.
- `ResponseParser.ParseListResponse`: differs from the source only through `LiteralEval`. That happens on any reply that Python reads as a `[bool, str]` list in a spelling `LiteralEval` does not recognise.
- `ResponseParser.LiteralEvalNeedsBracket`: stated only for texts that do not start with `(`, `#` or a backslash, since Python can read a list from those.
- `ResponseParser.ParseTaggedWord`: the tag may not start with `(`, `#` or a backslash, since with such a tag Python can read the text after it as a list.
- `ResponseParser.ParseTaggedFence`: the same condition on the tag, for the same reason.
- `Text.Lower`: lower-cases ASCII letters only. Python's full Unicode case mapping is not modelled. It matters only for the "true"/"false" search.
- `BaziRelations.CheckWuxingKe`: requires both stems to be in the stem table, where the source raises `KeyError`; `analyze_detailed_relations` is only ever called with stems from the calendar library.
- The lunar calendar library, `get_runtime_year_info`, the DaYun list and the text layout of `generate_prompt`. Only its element count and its note split are modelled.
- `main.py` and the other front ends are not part of this model.
