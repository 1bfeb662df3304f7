/** The line formats of the three CSV files of `src/files.rs`: `parse_topic`, `parse_quiz` and
    `parse_leaderboard` each split `line.trim_end()` on ',' and take the fields by position, and
    `write_leaderboards` writes one comma-joined line per entry under a header line. */
module Files {
  import opened Wrappers
  import opened Collaborators
  import opened Text

  datatype TopicRecord = TopicRecord(topicId: u64, leaderboardName: string, fileName: string,
                                     topicName: string, topicDescription: string)

  datatype QuizRecord = QuizRecord(id: u64, name: string, description: string, answer: Choice,
                                   choices: seq<string>)

  datatype LeaderboardRecord = LeaderboardRecord(topicName: string, playerName: string, score: F64,
                                                 startTime: string, endTime: string, duration: u64)

  /** `line.trim_end().split(',')`: trailing whitespace (a '\r' of a CRLF file, say) is dropped
      from the line, but no field is trimmed. */
  function Fields(line: string): (fs: seq<string>)
    ensures |fs| >= 1
    ensures forall k :: 0 <= k < |fs| ==> ',' !in fs[k]
  {
    Split(TrimEnd(line), ',')
  }

  // ---------------------------------------------------------------------------------------------
  // How the parsers take a field

  /** `strings.get(k)`. */
  function Get(fs: seq<string>, k: nat): Option<string> {
    if k < |fs| then Some(fs[k]) else None
  }

  /** `strings.get(k).filter(|str| !str.is_empty())`. */
  function Filled(fs: seq<string>, k: nat): Option<string> {
    if k < |fs| && fs[k] != "" then Some(fs[k]) else None
  }

  /** `match o { Some(v) => v, None => return Err(missing) }`. */
  function OkOr<T>(o: Option<T>, missing: string): Result<T> {
    match o
    case Some(v) => Ok(v)
    case None => Err(missing)
  }

  /** A field taken and then converted: `missing` when there is none, `failed` when the
      conversion refuses it. */
  function Converted<T>(o: Option<string>, convert: string -> Option<T>, missing: string,
                        failed: string): Result<T>
  {
    match o
    case None => Err(missing)
    case Some(s) => OkOr(convert(s), failed)
  }

  // ---------------------------------------------------------------------------------------------
  // The rule each field of a line must meet, stated on its own: None when the field is usable,
  // otherwise the message a line is rejected with when this is the first unusable field.

  /** A field that must be there and not be empty. */
  function NeedText(fs: seq<string>, k: nat, missing: string): Option<string> {
    if k < |fs| && |fs[k]| > 0 then None else Some(missing)
  }

  /** A field that must be there (and, when `nonEmpty`, not be empty) and must convert. */
  function NeedValue<T>(fs: seq<string>, k: nat, nonEmpty: bool, convert: string -> Option<T>,
                        missing: string, failed: string): Option<string>
  {
    if |fs| <= k || (nonEmpty && |fs[k]| == 0) then Some(missing)
    else if convert(fs[k]).Some? then None
    else Some(failed)
  }

  /** The rules of a topics.csv line: an integer id, then four texts. */
  function TopicRule(env: Env, fs: seq<string>, k: nat): Option<string>
    requires k < 5
  {
    match k
    case 0 => NeedValue(fs, 0, false, env.toInteger, "Missing topic_id", "ParseIntError")
    case 1 => NeedText(fs, 1, "Missing leaderboard_name")
    case 2 => NeedText(fs, 2, "Missing file_name")
    case 3 => NeedText(fs, 3, "Missing topic_name")
    case 4 => NeedText(fs, 4, "Missing topic_description")
  }

  /** The rules of a question file line: an integer id, a name, a description, an answer letter
      and the '|'-separated choices. */
  function QuizRule(env: Env, fs: seq<string>, k: nat): Option<string>
    requires k < 5
  {
    match k
    case 0 => NeedValue(fs, 0, false, env.toInteger, "Missing quiz id", "ParseIntError")
    case 1 => NeedText(fs, 1, "Missing quiz name")
    case 2 => NeedText(fs, 2, "Missing description")
    case 3 => NeedValue(fs, 3, true, env.toChoice, "Missing quiz answer", "Error parsing answer")
    case 4 => NeedText(fs, 4, "Missing quiz choices")
  }

  /** The rules of a leaderboards.csv line, with the messages the source gives: both names report
      "Missing leaderboard_name", a missing score or duration "Missing topic_id", a bad score
      "ParseIntError" and a bad duration "ParseFloatError". */
  function LeaderboardRule(env: Env, fs: seq<string>, k: nat): Option<string>
    requires k < 6
  {
    match k
    case 0 => NeedText(fs, 0, "Missing leaderboard_name")
    case 1 => NeedText(fs, 1, "Missing leaderboard_name")
    case 2 => NeedValue(fs, 2, false, env.toFloat, "Missing topic_id", "ParseIntError")
    case 3 => NeedText(fs, 3, "Missing start_time")
    case 4 => NeedText(fs, 4, "Missing end_time")
    case 5 => NeedValue(fs, 5, false, env.toInteger, "Missing topic_id", "ParseFloatError")
  }

  // ---------------------------------------------------------------------------------------------
  // The parsers

  /** `parse_topic`. A line is accepted exactly when all five rules hold, and then its fields are
      taken as they stand; otherwise it is rejected with the message of the first rule that
      fails. */
  function ParseTopic(env: Env, line: string): (r: Result<TopicRecord>)
    ensures r.Ok? ==> |Fields(line)| >= 5 && env.toInteger(Fields(line)[0]) == Some(r.value.topicId)
    ensures r.Ok? ==> r.value.leaderboardName != "" && r.value.fileName != ""
                      && r.value.topicName != "" && r.value.topicDescription != ""
    ensures r.Err? ==> r.error in {"ParseIntError", "Missing leaderboard_name", "Missing file_name",
                                   "Missing topic_name", "Missing topic_description"}
  {
    var fs := Fields(line);
    var topicId :- Converted(Get(fs, 0), env.toInteger, "Missing topic_id", "ParseIntError");
    var leaderboardName :- OkOr(Filled(fs, 1), "Missing leaderboard_name");
    var fileName :- OkOr(Filled(fs, 2), "Missing file_name");
    var topicName :- OkOr(Filled(fs, 3), "Missing topic_name");
    var topicDescription :- OkOr(Filled(fs, 4), "Missing topic_description");
    Ok(TopicRecord(topicId, leaderboardName, fileName, topicName, topicDescription))
  }

  /** `parse_quiz`. As `ParseTopic`; the choices are the choices field (the fifth)
      split by `split_str_to_vec` on '|'. */
  function ParseQuiz(env: Env, line: string): (r: Result<QuizRecord>)
    ensures r.Ok? ==> |Fields(line)| >= 5 && env.toInteger(Fields(line)[0]) == Some(r.value.id)
    ensures r.Ok? ==> r.value.name != "" && r.value.description != ""
                      && env.toChoice(Fields(line)[3]) == Some(r.value.answer)
    ensures r.Err? ==> r.error in {"ParseIntError", "Missing quiz name", "Missing description",
                                   "Missing quiz answer", "Error parsing answer", "Missing quiz choices"}
  {
    var fs := Fields(line);
    var id :- Converted(Get(fs, 0), env.toInteger, "Missing quiz id", "ParseIntError");
    var name :- OkOr(Filled(fs, 1), "Missing quiz name");
    var description :- OkOr(Filled(fs, 2), "Missing description");
    var answer :- Converted(Filled(fs, 3), env.toChoice, "Missing quiz answer", "Error parsing answer");
    var choices :- OkOr(Filled(fs, 4), "Missing quiz choices");
    Ok(QuizRecord(id, name, description, answer, env.splitToVec(choices, '|')))
  }

  /** `parse_leaderboard`. As `ParseTopic`, over six fields; the score and the duration are not
      checked for emptiness before they are converted. */
  function ParseLeaderboard(env: Env, line: string): (r: Result<LeaderboardRecord>)
    ensures r.Ok? ==> |Fields(line)| >= 6 && env.toFloat(Fields(line)[2]) == Some(r.value.score)
                      && env.toInteger(Fields(line)[5]) == Some(r.value.duration)
    ensures r.Ok? ==> r.value.topicName != "" && r.value.playerName != ""
                      && r.value.startTime != "" && r.value.endTime != ""
    ensures r.Err? ==> r.error in {"Missing leaderboard_name", "Missing topic_id", "ParseIntError",
                                   "Missing start_time", "Missing end_time", "ParseFloatError"}
  {
    var fs := Fields(line);
    var topicName :- OkOr(Filled(fs, 0), "Missing leaderboard_name");
    var playerName :- OkOr(Filled(fs, 1), "Missing leaderboard_name");
    var score :- Converted(Get(fs, 2), env.toFloat, "Missing topic_id", "ParseIntError");
    var startTime :- OkOr(Filled(fs, 3), "Missing start_time");
    var endTime :- OkOr(Filled(fs, 4), "Missing end_time");
    var duration :- Converted(Get(fs, 5), env.toInteger, "Missing topic_id", "ParseFloatError");
    Ok(LeaderboardRecord(topicName, playerName, score, startTime, endTime, duration))
  }

  // ---------------------------------------------------------------------------------------------
  // Properties of the line formats

  /** `parse_topic` accepts a line exactly when all five rules hold, and then takes its fields as
      they stand; otherwise it rejects the line with the message of the first rule that fails. */
  lemma ParseTopicSpec(env: Env, line: string)
    ensures var fs, r := Fields(line), ParseTopic(env, line);
      && (r.Ok? <==> forall k :: 0 <= k < 5 ==> TopicRule(env, fs, k).None?)
      && (r.Ok? ==> |fs| >= 5 && env.toInteger(fs[0]).Some? &&
                    r.value == TopicRecord(env.toInteger(fs[0]).value, fs[1], fs[2], fs[3], fs[4]))
      && (forall k :: 0 <= k < 5 && TopicRule(env, fs, k).Some? &&
                      (forall j :: 0 <= j < k ==> TopicRule(env, fs, j).None?) ==>
                        r == Err(TopicRule(env, fs, k).value))
  {
    var fs, r := Fields(line), ParseTopic(env, line);
    if TopicRule(env, fs, 0).Some? {
      assert r == Err(TopicRule(env, fs, 0).value);
    } else if TopicRule(env, fs, 1).Some? {
      assert r == Err(TopicRule(env, fs, 1).value);
    } else if TopicRule(env, fs, 2).Some? {
      assert r == Err(TopicRule(env, fs, 2).value);
    } else if TopicRule(env, fs, 3).Some? {
      assert r == Err(TopicRule(env, fs, 3).value);
    } else if TopicRule(env, fs, 4).Some? {
      assert r == Err(TopicRule(env, fs, 4).value);
    } else {
      assert r.Ok?;
    }
  }

  /** `parse_quiz`, as `parse_topic`; the answer field must name a choice, and the choices are
      the last field split by `split_str_to_vec` on '|'. */
  lemma ParseQuizSpec(env: Env, line: string)
    ensures var fs, r := Fields(line), ParseQuiz(env, line);
      && (r.Ok? <==> forall k :: 0 <= k < 5 ==> QuizRule(env, fs, k).None?)
      && (r.Ok? ==> |fs| >= 5 && env.toInteger(fs[0]).Some? && env.toChoice(fs[3]).Some? &&
                    r.value == QuizRecord(env.toInteger(fs[0]).value, fs[1], fs[2],
                                          env.toChoice(fs[3]).value, env.splitToVec(fs[4], '|')))
      && (forall k :: 0 <= k < 5 && QuizRule(env, fs, k).Some? &&
                      (forall j :: 0 <= j < k ==> QuizRule(env, fs, j).None?) ==>
                        r == Err(QuizRule(env, fs, k).value))
  {
    var fs, r := Fields(line), ParseQuiz(env, line);
    if QuizRule(env, fs, 0).Some? {
      assert r == Err(QuizRule(env, fs, 0).value);
    } else if QuizRule(env, fs, 1).Some? {
      assert r == Err(QuizRule(env, fs, 1).value);
    } else if QuizRule(env, fs, 2).Some? {
      assert r == Err(QuizRule(env, fs, 2).value);
    } else if QuizRule(env, fs, 3).Some? {
      assert r == Err(QuizRule(env, fs, 3).value);
    } else if QuizRule(env, fs, 4).Some? {
      assert r == Err(QuizRule(env, fs, 4).value);
    } else {
      assert r.Ok?;
    }
  }

  /** `parse_leaderboard`, as `parse_topic` over six fields. */
  lemma ParseLeaderboardSpec(env: Env, line: string)
    ensures var fs, r := Fields(line), ParseLeaderboard(env, line);
      && (r.Ok? <==> forall k :: 0 <= k < 6 ==> LeaderboardRule(env, fs, k).None?)
      && (r.Ok? ==> |fs| >= 6 && env.toFloat(fs[2]).Some? && env.toInteger(fs[5]).Some? &&
                    r.value == LeaderboardRecord(fs[0], fs[1], env.toFloat(fs[2]).value, fs[3], fs[4],
                                                 env.toInteger(fs[5]).value))
      && (forall k :: 0 <= k < 6 && LeaderboardRule(env, fs, k).Some? &&
                      (forall j :: 0 <= j < k ==> LeaderboardRule(env, fs, j).None?) ==>
                        r == Err(LeaderboardRule(env, fs, k).value))
  {
    var fs, r := Fields(line), ParseLeaderboard(env, line);
    if LeaderboardRule(env, fs, 0).Some? {
      assert r == Err(LeaderboardRule(env, fs, 0).value);
    } else if LeaderboardRule(env, fs, 1).Some? {
      assert r == Err(LeaderboardRule(env, fs, 1).value);
    } else if LeaderboardRule(env, fs, 2).Some? {
      assert r == Err(LeaderboardRule(env, fs, 2).value);
    } else if LeaderboardRule(env, fs, 3).Some? {
      assert r == Err(LeaderboardRule(env, fs, 3).value);
    } else if LeaderboardRule(env, fs, 4).Some? {
      assert r == Err(LeaderboardRule(env, fs, 4).value);
    } else if LeaderboardRule(env, fs, 5).Some? {
      assert r == Err(LeaderboardRule(env, fs, 5).value);
    } else {
      assert r.Ok?;
    }
  }


  /** Appending whitespace to a line does not change its fields, so a CRLF file reads like an LF
      one; whitespace inside a field is kept. */
  lemma {:induction false} TrailingWhitespaceIgnored(line: string, ws: string)
    requires forall i :: 0 <= i < |ws| ==> IsWhitespace(ws[i])
    ensures Fields(line + ws) == Fields(line)
  {
    if |ws| == 0 {
      assert line + ws == line;
    } else {
      var shorter := line + ws[..|ws| - 1];
      assert (line + ws)[..|line + ws| - 1] == shorter;
      assert IsWhitespace((line + ws)[|line + ws| - 1]);
      assert TrimEnd(line + ws) == TrimEnd(shorter);
      TrailingWhitespaceIgnored(line, ws[..|ws| - 1]);
    }
  }

  lemma {:induction false} JoinEnds(ps: seq<string>, d: char)
    requires |ps| >= 1 && |ps[|ps| - 1]| >= 1
    ensures |Join(ps, d)| >= 1 && Join(ps, d)[|Join(ps, d)| - 1] == ps[|ps| - 1][|ps[|ps| - 1]| - 1]
  {
    if |ps| > 1 {
      JoinEnds(ps[1..], d);
    }
  }

  lemma TrimEndKeeps(s: string)
    requires |s| >= 1 && !IsWhitespace(s[|s| - 1])
    ensures TrimEnd(s) == s
  {
  }

  /** A line whose last character is not whitespace is split as it stands: every field, a blank
      one such as " " included, is kept verbatim. */
  lemma FieldsOfJoin(ps: seq<string>)
    requires |ps| >= 1 && forall k :: 0 <= k < |ps| ==> ',' !in ps[k]
    requires |ps[|ps| - 1]| >= 1 && !IsWhitespace(ps[|ps| - 1][|ps[|ps| - 1]| - 1])
    ensures Fields(Join(ps, ',')) == ps
  {
    JoinEnds(ps, ',');
    TrimEndKeeps(Join(ps, ','));
    SplitJoin(ps, ',');
  }

  lemma BlankLineFields(line: string)
    requires line == "7, ,f,t,d"
    ensures Fields(line) == ["7", " ", "f", "t", "d"]
  {
    var ps := ["7", " ", "f", "t", "d"];
    assert Join(ps, ',') == line by {
      assert ps[1..][1..][1..][1..] == ["d"];
    }
    FieldsOfJoin(ps);
  }

  /** A field of one space is not missing: the topic line "7, ,f,t,d" is accepted with the
      leaderboard name " ". */
  lemma BlankFieldAccepted(env: Env, line: string)
    requires line == "7, ,f,t,d" && env.toInteger("7") == Some(7)
    ensures ParseTopic(env, line) == Ok(TopicRecord(7, " ", "f", "t", "d"))
  {
    BlankLineFields(line);
    var fs := Fields(line);
    assert Get(fs, 0) == Some("7") && Filled(fs, 1) == Some(" ") && Filled(fs, 2) == Some("f");
    assert Filled(fs, 3) == Some("t") && Filled(fs, 4) == Some("d");
  }

  /** The id of a topic or question line is `strings.first()`, which always exists: the
      "Missing topic_id" and "Missing quiz id" errors are never returned. */
  lemma IdNeverMissing(env: Env, line: string)
    ensures ParseTopic(env, line) != Err("Missing topic_id")
    ensures ParseQuiz(env, line) != Err("Missing quiz id")
  {
    var fs := Fields(line);
    assert TopicRule(env, fs, 0) != Some("Missing topic_id");
    assert QuizRule(env, fs, 0) != Some("Missing quiz id");
  }

  /** Only the first five fields of a topic line are read: lines that agree on them parse alike,
      so a comma inside a description cuts it short and what follows is dropped. */
  lemma TopicLaterFieldsIgnored(env: Env, line: string, line': string)
    requires forall k :: 0 <= k < 5 ==> Get(Fields(line), k) == Get(Fields(line'), k)
    ensures ParseTopic(env, line) == ParseTopic(env, line')
  {
    var fs, fs' := Fields(line), Fields(line');
    assert Get(fs, 0) == Get(fs', 0) && Get(fs, 1) == Get(fs', 1) && Get(fs, 2) == Get(fs', 2);
    assert Get(fs, 3) == Get(fs', 3) && Get(fs, 4) == Get(fs', 4);
  }

  /** The same for the first five fields of a question line. */
  lemma QuizLaterFieldsIgnored(env: Env, line: string, line': string)
    requires forall k :: 0 <= k < 5 ==> Get(Fields(line), k) == Get(Fields(line'), k)
    ensures ParseQuiz(env, line) == ParseQuiz(env, line')
  {
    var fs, fs' := Fields(line), Fields(line');
    assert Get(fs, 0) == Get(fs', 0) && Get(fs, 1) == Get(fs', 1) && Get(fs, 2) == Get(fs', 2);
    assert Get(fs, 3) == Get(fs', 3) && Get(fs, 4) == Get(fs', 4);
  }

  /** The same for the first six fields of a leaderboard line. */
  lemma LeaderboardLaterFieldsIgnored(env: Env, line: string, line': string)
    requires forall k :: 0 <= k < 6 ==> Get(Fields(line), k) == Get(Fields(line'), k)
    ensures ParseLeaderboard(env, line) == ParseLeaderboard(env, line')
  {
    var fs, fs' := Fields(line), Fields(line');
    assert Get(fs, 0) == Get(fs', 0) && Get(fs, 1) == Get(fs', 1) && Get(fs, 2) == Get(fs', 2);
    assert Get(fs, 3) == Get(fs', 3) && Get(fs, 4) == Get(fs', 4) && Get(fs, 5) == Get(fs', 5);
  }

  // ---------------------------------------------------------------------------------------------
  // What write_leaderboards writes

  /** The names of the header line, which is written joined by ',' and ended by '\n'. */
  const HeaderFields: seq<string> :=
    ["topic_name", "player_name", "score", "start_time", "end_time", "duration"]

  /** The six fields of an entry's line, in header order: the score as `f64` formats it, the
      duration in decimal. */
  function EntryFields(env: Env, e: LeaderboardRecord): seq<string> {
    [e.topicName, e.playerName, env.formatFloat(e.score), e.startTime, e.endTime, Decimal(e.duration)]
  }

  /** `format!("{},{},{},{},{},{}", ..)` of an entry, without its '\n'. */
  function EntryText(env: Env, e: LeaderboardRecord): string {
    Join(EntryFields(env, e), ',')
  }

  /** The entry lines, each ended by '\n', in the order given. */
  function EntryLines(env: Env, es: seq<LeaderboardRecord>): (t: string)
    ensures t == [] <==> es == []
    ensures t != [] ==> t[|t| - 1] == '\n'
  {
    if es == [] then [] else EntryText(env, es[0]) + "\n" + EntryLines(env, es[1..])
  }

  /** The whole file: the header line, then the entry lines. */
  function LeaderboardsText(env: Env, es: seq<LeaderboardRecord>): (t: string)
    ensures var h := Join(HeaderFields, ','); |h| < |t| && t[..|h| + 1] == h + "\n"
    ensures t[|t| - 1] == '\n'
    ensures es == [] ==> t == Join(HeaderFields, ',') + "\n"
  {
    Join(HeaderFields, ',') + "\n" + EntryLines(env, es)
  }

  lemma {:induction false} EntryLinesSnoc(env: Env, es: seq<LeaderboardRecord>, e: LeaderboardRecord)
    ensures EntryLines(env, es + [e]) == EntryLines(env, es) + EntryText(env, e) + "\n"
  {
    if es != [] {
      assert (es + [e])[1..] == es[1..] + [e];
      EntryLinesSnoc(env, es[1..], e);
    }
  }

  lemma WrittenSnoc(env: Env, header: string, es: seq<LeaderboardRecord>, i: nat)
    requires i < |es|
    ensures header + EntryLines(env, es[..i + 1]) == header + EntryLines(env, es[..i]) + EntryText(env, es[i]) + "\n"
  {
    assert es[..i + 1] == es[..i] + [es[i]];
    EntryLinesSnoc(env, es[..i], es[i]);
  }

  /** `write_leaderboards`: writes the header, then one line per entry of
      `leaderboards_as_vec()`; the returned text is what the file holds afterwards. */
  method WriteLeaderboards(env: Env, es: seq<LeaderboardRecord>) returns (written: string)
    ensures written == LeaderboardsText(env, es)
  {
    var header := Join(HeaderFields, ',') + "\n";
    written := header;
    assert es[..0] == [];
    for i := 0 to |es|
      invariant written == header + EntryLines(env, es[..i])
    {
      WrittenSnoc(env, header, es, i);
      written := written + EntryText(env, es[i]) + "\n";
    }
    assert es[..|es|] == es;
  }

  /** What an entry must be like for its line to read back as the same entry: its four texts
      are not empty and hold no ',' or '\n', the formatted score holds neither and converts back
      to the score, and the decimal duration converts back to the duration. */
  predicate Writable(env: Env, e: LeaderboardRecord) {
    && (forall k :: 0 <= k < 6 ==> ',' !in EntryFields(env, e)[k] && '\n' !in EntryFields(env, e)[k])
    && e.topicName != [] && e.playerName != [] && e.startTime != [] && e.endTime != []
    && env.toFloat(env.formatFloat(e.score)) == Some(e.score)
    && env.toInteger(Decimal(e.duration)) == Some(e.duration)
  }

  /** A line `write_leaderboards` writes for a writable entry is read back by `parse_leaderboard`
      as that entry. */
  lemma EntryRoundTrip(env: Env, e: LeaderboardRecord)
    requires Writable(env, e)
    ensures ParseLeaderboard(env, EntryText(env, e)) == Ok(e)
  {
    var ps := EntryFields(env, e);
    assert forall k :: 0 <= k < |ps| ==> ',' !in ps[k];
    assert ps[5] == Decimal(e.duration) && IsDigit(ps[5][|ps[5]| - 1]);
    FieldsOfJoin(ps);
  }
}
