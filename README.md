# YAQA core in Dafny

YAQA is a terminal quiz in Rust. It reads topics, per-topic question banks and a leaderboard
from comma-separated text files, asks the player up to five unasked questions of a topic,
counts the right answers, and writes the leaderboard back. This project models the two
stateful parts of it and proves properties of the model:

- **Record parsing and loading** (`src/files.rs`) lives in the modules `Files` and `FileLoaders`.
  - `Files` holds the three line parsers, `parse_topic`, `parse_quiz` and `parse_leaderboard`,
    as functions returning `Result`. They keep the source's exact error strings and its order
    of checks.
  - `FileLoaders` holds the three loaders, `parse_topics`, `parse_quizzes` and
    `parse_leaderboards`, as methods with a `for` loop over the lines. Each is proved equal to
    a specification function: the records of the well-formed lines (`Loaded`) and the
    reports of the others (`Failures`).
  - The writer `write_leaderboards` is the method `Files.WriteLeaderboards`. It builds the
    text it writes. A round-trip lemma shows what loading that text gives back.
- **The quiz engine** (`src/quiz.rs`), in the modules `QuizEngine` and `QuizSession`.
  - `Quizzes` is a class whose fields `list` and `correct` are updated in place by `Add`,
    `RawAdd` and `Ask`.
  - The five-round session `ask` is proved equal to the function `AskFrom`. `QuizSession`
    proves properties of that function: what is marked asked, what can be presented again,
    and the bounds on the score.

Supporting modules:

- `Wrappers` holds `Option` and `Result`.
- `Text` models Rust's `trim_end`, `trim`, `split(char)` and the decimal display of an
  unsigned integer.
- `Collaborators` covers the helpers that `src/files.rs` and `src/quiz.rs` call but that this
  model does not contain: `helpers::convert_to_integer`, `helpers::convert_to_float`,
  `helpers::split_str_to_vec`, `answers::to_choices_enum` and the `Display` of `f64`. They
  are the function fields of one `Env` value, which is a parameter. Each property therefore
  holds for every behaviour these helpers might have. Where a lemma needs a helper to behave a
  certain way, its requires says so.

How the environment is modelled:

- Console output and input.
  - `println!` becomes returned lines.
  - `get_char_input` becomes an `input(i)` function giving the answer of round `i`.
- Randomness. `rand::thread_rng().gen_range(0..n)` becomes a `draw(i, n) < n` parameter.
- Iteration order. A `HashMap` iterates in an unspecified order; the model fixes ascending
  key order. Since the drawn index is arbitrary, every unasked question can still be drawn
  (`QuizSession.EveryUnaskedCanBeDrawn`).

Where a reader could expect otherwise, the model follows the code:

- **When a question is marked asked.** The doc comment of `ask` (src/quiz.rs:95) says a found
  question is marked asked. The code marks it only when the answer is right (see Findings).
- **Blank fields.** A field is missing only when it is literally empty; it is not trimmed
  first, so a field of one space is accepted (`Files.BlankFieldAccepted`).
- **Score and duration.** The code applies no emptiness filter to a leaderboard line's score
  and duration. There the converter alone decides.
- **Error labels.** The code returns plain strings with quirks, and the model keeps them.
  - A missing player name is reported as "Missing leaderboard_name".
  - A bad score is reported as "ParseIntError" and a bad duration as "ParseFloatError".
  - Missing score and duration fields are reported as "Missing topic_id".

## Model

| member | source | states |
|---|---|---|
| Text.TrimEnd | src/files.rs:21 | the result is a prefix of the line that does not end in whitespace, and everything it drops is whitespace (Unicode White_Space, as `trim_end` uses) |
| Text.Split | src/files.rs:21 | there is always at least one piece, and no piece contains the delimiter |
| Text.SplitJoin | src/files.rs:209 | splitting a line joined with `d` gives back the pieces, provided no piece contains `d` |
| Text.JoinSplit | src/files.rs:21 | joining the pieces of a split with the delimiter gives back the text, so no character is lost by splitting |
| Text.Trim | src/quiz.rs:63-64 | `str::trim`: the result is the slice of the text that neither starts nor ends with whitespace, and everything removed from either end is whitespace |
| Text.Decimal | src/files.rs:209 | the decimal rendering of a `u64` is a non-empty digit string without a leading zero that denotes the number |
| Files.Fields | src/files.rs:21 | the fields of a line (`trim_end().split(',')`): at least one, none containing a comma |
| Files.ParseTopic | src/files.rs:20-51 | an accepted topic line has at least five fields, its id is the conversion of the first, and its four texts are non-empty; a rejected one carries one of the five messages of the source, never "Missing topic_id" |
| Files.ParseQuiz | src/files.rs:79-115 | an accepted quiz line has at least five fields, its id and answer are the conversions of fields 0 and 3, and its name and description are non-empty; a rejected one carries one of the source's messages, never "Missing quiz id" |
| Files.ParseLeaderboard | src/files.rs:140-179 | an accepted leaderboard line has at least six fields, its score and duration are the conversions of fields 2 and 5, and its four texts are non-empty; a rejected one carries one of the six messages the source uses |
| Files.ParseTopicSpec | src/files.rs:20-51 | the parse succeeds exactly when the id converts and fields 1 to 4 are present and non-empty; then the record holds the converted id and those four fields verbatim; otherwise the error is the message of the first failing field in source order ("ParseIntError", "Missing leaderboard_name", "Missing file_name", "Missing topic_name", "Missing topic_description") |
| Files.ParseQuizSpec | src/files.rs:79-115 | success exactly when the id converts, name, description, answer and choices are present and non-empty and the answer decodes; the record holds the id, name, description, decoded answer, and the choices split on '\|'; otherwise the first failing field's message, "Missing quiz answer" and "Error parsing answer" told apart |
| Files.ParseLeaderboardSpec | src/files.rs:140-179 | success exactly when topic and player names are non-empty, score converts to `f64`, start and end times are non-empty and duration converts to `u64` (score and duration without an emptiness filter); the record holds those values; otherwise the first failing field's message, with the source's labels |
| Files.IdNeverMissing | src/files.rs:23-28 | the "Missing topic_id" and "Missing quiz id" branches are unreachable: a split always yields a first field |
| Files.TrailingWhitespaceIgnored | src/files.rs:21 | appending whitespace to a line does not change its fields |
| Files.FieldsOfJoin | src/files.rs:21 | a line made by joining comma-free fields with ',' (the last one not ending in whitespace) splits back into exactly those fields |
| Files.BlankFieldAccepted | src/files.rs:31-34 | the emptiness filter does not trim: the topic line "7, ,f,t,d" parses, with the leaderboard name " " |
| Files.TopicLaterFieldsIgnored | src/files.rs:46-50 | two topic lines whose first five fields agree parse alike: extra fields are ignored |
| Files.QuizLaterFieldsIgnored | src/files.rs:110-114 | two quiz lines whose first five fields agree parse alike |
| Files.LeaderboardLaterFieldsIgnored | src/files.rs:171-178 | two leaderboard lines whose first six fields agree parse alike |
| Files.LeaderboardsText | src/files.rs:206-209 | the written file starts with the header line and ends with a newline; with no entries it is the header line alone |
| Files.WriteLeaderboards | src/files.rs:204-213 | what is written is the header line and then, for every entry in order, its six fields joined by ',' and ended by a newline |
| Files.EntryRoundTrip | src/files.rs:140-179 | a written entry line parses back to the same entry, when no field holds ',' or a newline, the four texts are non-empty and the score's and duration's renderings convert back |
| FileLoaders.ReportLines | src/files.rs:61 | one diagnostic line per failure, "Error in parsing lines in <file> on line <n>: <err>" |
| FileLoaders.QuizTable | src/files.rs:117-128 | the bank built from parsed quizzes stores each under its own id, all unasked |
| FileLoaders.ParseTopics | src/files.rs:55-66 | the topics are the parses of the non-empty lines that succeed, in order; with `verbose` the output is one diagnostic per failing non-empty line, in order, and it is empty otherwise |
| FileLoaders.ParseQuizzes | src/files.rs:117-128 | a fresh bank holding exactly the quizzes of the lines that parse, inserted in order (a later id replaces an earlier one), score 0, and the diagnostics naming `filename` |
| FileLoaders.ParseLeaderboards | src/files.rs:182-193 | the entries of the lines that parse, in order, and the diagnostics for "leaderboards.csv" |
| FileLoaders.LoadedMembers | src/files.rs:57-60 | a record is loaded exactly when some non-empty line parses to it |
| FileLoaders.LoadedAppend | src/files.rs:57-63 | a bad line never stops loading: loading two runs of lines loads the records of each, in order |
| FileLoaders.LoadedAll | src/files.rs:57-60 | when every line is non-empty and parses, the records are exactly the parses, in order |
| FileLoaders.FailuresMembers | src/files.rs:57-61 | a report (n, e) is produced exactly when line n, counted from 1, is non-empty and fails with e |
| FileLoaders.FailuresAscending | src/files.rs:57-61 | reported line numbers are between 1 and the line count and strictly increasing |
| FileLoaders.EveryLineAccounted | src/files.rs:57-63 | every non-empty line gives either a record or a report: their numbers add up to the number of non-empty lines |
| FileLoaders.QuizTableKeys | src/files.rs:122 | an id is in the bank exactly when some parsed quiz has it |
| FileLoaders.QuizTableLast | src/quiz.rs:57 | the last quiz with a given id is the one stored (`insert` replaces) |
| FileLoaders.HeaderRejected | src/files.rs:153-158 | the header line written first is itself a line the leaderboard parser rejects, with "ParseIntError", when "score" does not convert to a float |
| FileLoaders.ReloadWritten | src/files.rs:204-213 | loading what `write_leaderboards` writes gives back exactly the entries, in order, and a single report, for line 1 (the header) |
| QuizEngine.Quizzes.constructor | src/quiz.rs:38-45 | an empty bank with the given topic id and name and no right answers |
| QuizEngine.Quizzes.Add | src/quiz.rs:48-58 | the bank afterwards is the old one with an unasked quiz built from the arguments stored under `id`, replacing any previous one; it stays keyed by id |
| QuizEngine.Quizzes.RawAdd | src/quiz.rs:61-69 | when the id does not convert, the error is returned and the bank is unchanged; otherwise the quiz with the converted id, trimmed name and description, decoded answer and '\|'-split choices is added |
| QuizEngine.Quizzes.GetUnaskedQuestion | src/quiz.rs:73-80 | `None` exactly when every quiz has been asked; otherwise one of the bank's quizzes that has not been asked |
| QuizEngine.UnaskedSound | src/quiz.rs:74 | every quiz the filter collects is in the bank and unasked |
| QuizEngine.UnaskedComplete | src/quiz.rs:74 | every unasked quiz of the bank is collected |
| QuizEngine.UnaskedEmpty | src/quiz.rs:74-75 | the collected vector is empty exactly when every quiz has been asked |
| QuizEngine.Draw | src/quiz.rs:73-80 | the body of `get_unasked_question` on a bank: nothing exactly when all quizzes are asked, and otherwise an unasked quiz of the bank |
| QuizEngine.DrawInRoundIsDraw | src/quiz.rs:100 | the draw of round `i` of `ask` is `get_unasked_question`'s draw with that round's random index |
| QuizEngine.DrawInRoundSpec | src/quiz.rs:100-106 | the same for the draw of each round of `ask` |
| QuizEngine.DrawnEntry | src/quiz.rs:109-112 | in a bank keyed by id, the drawn quiz is the unasked entry under its own id, so reinserting it under `question.id` overwrites that entry |
| QuizEngine.Letter | src/quiz.rs:86-89 | the k-th choice is lettered with code 65 + k (A, B, ...) while the `u8` counter has not wrapped (k up to 190), and with a different code after that |
| QuizEngine.QuestionLines | src/quiz.rs:83-90 | the lines of one question: its name, "<n>. <description>", then one "<letter>. <choice>" line per choice, in order |
| QuizEngine.Quizzes.PrintPertanyaan | src/quiz.rs:83-90 | the loop over the wrapping `u8` counter prints exactly `QuestionLines`: the name, "<n>. <description>", and then one "<letter>. <choice>" line per choice, in order |
| QuizEngine.AskFrom | src/quiz.rs:98-115 | the session as written, from round `i`: at most one round per remaining iteration, stopping early leaves fewer rounds, and the score rises by at most the number of rounds (the converse, and the exact score, are `QuizSession.SessionShape`) |
| QuizEngine.AskIntendedFrom | src/quiz.rs:93-97 | the session as the doc comment describes it (every presented question marked asked), with the same bounds: at most one round per remaining iteration, stopping early leaves fewer rounds, and a score rise of at most the number of rounds (the exact count is `QuizSession.IntendedLength`) |
| QuizEngine.Quizzes.AskRound | src/quiz.rs:100-113 | one iteration of the loop advances the session by one round, or ends it with the "no more questions" line |
| QuizEngine.Quizzes.AnswerRound | src/quiz.rs:107-113 | once a question is found, printing it, reading the answer and scoring it advance the session by exactly the round `AskFrom` takes next, keeping the bank keyed by id |
| QuizEngine.Quizzes.Ask | src/quiz.rs:98-115 | the new bank, score and presented rounds are those of `AskFrom` from the old bank and score, and the printed lines are the questions of those rounds numbered from 1, then the "no more questions" line exactly when it stopped early |
| QuizSession.CountCorrect | src/quiz.rs:109-110 | a session cannot score more right answers than it has rounds |
| QuizSession.MarkAsked | src/quiz.rs:111-112 | reinserting a drawn quiz marked asked keeps the bank's entries and removes exactly its id from the unasked ids |
| QuizSession.RightIdsCount | src/quiz.rs:109-112 | when no right-answered question comes back, the number of right answers equals the number of distinct ids answered right |
| QuizSession.SessionShape | src/quiz.rs:99-110 | at most five rounds, fewer exactly when the session stopped early; the score grows by one per right answer |
| QuizSession.SessionStopsWhenAllAsked | src/quiz.rs:100-105 | a session stops early only when every quiz of the bank is asked |
| QuizSession.SessionKeepsEntries | src/quiz.rs:109-113 | the session keeps every key, changes a stored quiz only by setting its `asked` flag, and never clears a flag |
| QuizSession.SessionMarksRight | src/quiz.rs:109-113 | the quizzes newly marked asked are exactly those answered right |
| QuizSession.SessionPresentsUnasked | src/quiz.rs:100-107 | every presented question is, field for field, an unasked quiz of the starting bank |
| QuizSession.SessionNoRepeatAfterRight | src/quiz.rs:109-113 | a question answered right is not presented again in the same session |
| QuizSession.SessionScore | src/quiz.rs:108-113 | the score never decreases; it rises by exactly as much as the number of unasked questions falls; the rise is at most the smaller of the rounds left and the unasked questions |
| QuizSession.EveryUnaskedCanBeDrawn | src/quiz.rs:74-77 | for every unasked quiz there is a random index under which `get_unasked_question` returns it |
| QuizSession.IntendedKeepsEntries | src/quiz.rs:95 | the session that marks every presented question keeps the bank's entries as the one as written does |
| QuizSession.IntendedMarksPresented | src/quiz.rs:95 | it marks asked exactly the questions it presents |
| QuizSession.IntendedPresentsDistinct | src/quiz.rs:95 | it presents unasked quizzes of the bank, none twice |
| QuizSession.IntendedLength | src/quiz.rs:95-99 | it presents as many questions as the smaller of the rounds left and the unasked questions, scoring the right answers |
| QuizSession.RepeatsWhileWrong | src/quiz.rs:109-113 | as written, while every answer is wrong and the same quiz is drawn, it is presented in every remaining round and nothing changes |
| QuizSession.LoneQuestionIsRepeated | src/quiz.rs:98-115 | with one unasked question always answered wrong, `ask` as written presents it in all five rounds, while the intended session presents it once |

## Left out

- File I/O is not modelled. This covers `load_topics`, `load_quizzes` and `load_leaderboards` (src/files.rs:69-75, 130-136, 196-202), and the open, truncate, write and flush calls of `write_leaderboards` with their `io::Result` errors.
  - The loaders take the file's text as a parameter.
  - `WriteLeaderboards` returns the text it would write.
- `helpers`, `answers`, `topics_csv` and `leaderboards` are not part of this model.
  - The conversions are parameters (see `Collaborators`).
  - `Topics` and `Leaderboards` are the sequences of records passed to `add_new_topic` and `add_new_leaderboards`, in order.
  - Whatever those types do with duplicates is not modelled. `leaderboards_as_vec` is the order of the sequence given to `WriteLeaderboards`.
- `f64` scores are held as an opaque bit pattern. No floating-point arithmetic or formatting is modelled; the text written for a score is the parameter `formatFloat`.
- src/main.rs and src/opt.rs (command-line handling, topic lookup, timing, the scoring display) are not part of this model.
- Console I/O and randomness are parameters, as described above. `get_char_input`'s prompt and re-prompting are not modelled.
- FileLoaders.ParseQuizzes: `parse_quizzes` calls `quiz::Quizzes::new()` without arguments (src/files.rs:118), but `new` takes a topic id and a name (src/quiz.rs:38). The model builds `new Quizzes(0, "")`.
- QuizEngine.Quizzes.Ask: `correct` is an unbounded `nat`, not a `u64`, so an overflow panic is not modelled. One session adds at most five.
- QuizEngine.Quizzes.Ask: the `unwrap` of `to_choices_enum` on the captured letter (src/quiz.rs:109) is taken to succeed. The captured answer is already a `Choice`.
- QuizEngine.Quizzes.RawAdd: the `unwrap` of `to_choices_enum(answer)` (src/quiz.rs:65) is a requires. The panic when the answer does not decode is not modelled.
- QuizEngine.Quizzes.PrintPertanyaan: the `u8` counter is modelled with the wrap-around of a release build (modulo 256). A debug build would panic at the increment after the 191st choice; that panic is not modelled.
- QuizEngine.Quizzes.GetUnaskedQuestion: the `HashMap` iteration order is fixed as ascending key order. Which index yields which quiz is therefore not the source's order.
- Files.WriteLeaderboards: fields are written without quoting. A comma or newline inside a field is not escaped, so `Files.EntryRoundTrip` and `FileLoaders.ReloadWritten` require that fields contain neither.
- FileLoaders.ReloadWritten: it relies on three behaviours of `helpers`, stated as requires:
  - a written score converts back;
  - a written duration converts back;
  - the header field "score" does not convert.

## Findings

| source | as written | input that shows it | evidently intended | confidence | as-written member | corrected member |
|---|---|---|---|---|---|---|
| src/quiz.rs:109-113 | `ask` marks a question asked, and reinserts it, only when the captured answer is right. A wrongly answered question stays eligible and can be drawn again in the same session. | A bank with one unasked question (answer A) and the answer B captured in every round: `ask` presents that question in all five rounds. | The doc comment at src/quiz.rs:95 says a found question is marked asked, so a session would present each question at most once. | medium: re-asking wrong answers may be deliberate; not executed | QuizSession.LoneQuestionIsRepeated | QuizSession.IntendedPresentsDistinct |

`QuizEngine.AskFrom` models the code as written, and `QuizEngine.Quizzes.Ask` is proved against it. `QuizEngine.AskIntendedFrom` is the corrected session; `QuizSession.IntendedPresentsDistinct`, `QuizSession.IntendedMarksPresented` and `QuizSession.IntendedLength` are proved about it.
