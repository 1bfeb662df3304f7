/** The loaders of `src/files.rs`: `parse_topics`, `parse_quizzes` and `parse_leaderboards` split
    the file text on '\n', skip empty lines, keep the record of every line the line parser accepts
    and, when `verbose`, print one message per rejected line. Reading the files is not part of
    this model, so the loaders take the text. */
module FileLoaders {
  import opened Wrappers
  import opened Collaborators
  import opened Text
  import opened Files
  import opened QuizEngine

  /** A rejected line: its 1-based number (`i + 1`) and the line parser's message. */
  datatype Report = Report(line: nat, error: string)

  function TopicParser(env: Env): string -> Result<TopicRecord> {
    line => ParseTopic(env, line)
  }

  function QuizParser(env: Env): string -> Result<QuizRecord> {
    line => ParseQuiz(env, line)
  }

  function LeaderboardParser(env: Env): string -> Result<LeaderboardRecord> {
    line => ParseLeaderboard(env, line)
  }

  /** The records of the non-empty lines that `parse` accepts, in file order. */
  function Loaded<T>(parse: string -> Result<T>, lines: seq<string>): seq<T> {
    if lines == [] then []
    else
      var last := lines[|lines| - 1];
      Loaded(parse, lines[..|lines| - 1]) + if last != "" && parse(last).Ok? then [parse(last).value] else []
  }

  /** The non-empty lines that `parse` rejects, numbered from 1, in file order. */
  function Failures<T>(parse: string -> Result<T>, lines: seq<string>): seq<Report> {
    if lines == [] then []
    else
      var last := lines[|lines| - 1];
      Failures(parse, lines[..|lines| - 1]) +
        if last != "" && parse(last).Err? then [Report(|lines|, parse(last).error)] else []
  }

  /** The number of non-empty lines. */
  function NonEmpty(lines: seq<string>): nat {
    if lines == [] then 0
    else NonEmpty(lines[..|lines| - 1]) + if lines[|lines| - 1] != "" then 1 else 0
  }

  /** `println!("Error in parsing lines in {file} on line {}: {err}", i + 1)`. */
  function ErrorLine(file: string, r: Report): string {
    "Error in parsing lines in " + file + " on line " + Decimal(r.line) + ": " + r.error
  }

  /** The messages printed for the reports, in order. */
  function ReportLines(file: string, rs: seq<Report>): (out: seq<string>)
    ensures |out| == |rs|
    ensures forall i :: 0 <= i < |rs| ==> out[i] == ErrorLine(file, rs[i])
  {
    if rs == [] then [] else ReportLines(file, rs[..|rs| - 1]) + [ErrorLine(file, rs[|rs| - 1])]
  }

  /** What `output` is when the loader is verbose and when it is not. */
  function Output(verbose: bool, file: string, rs: seq<Report>): seq<string> {
    if verbose then ReportLines(file, rs) else []
  }

  /** The quiz `add` stores for an accepted question line: unasked. */
  function Stored(q: QuizRecord): Quiz {
    Quiz(q.id, q.name, q.description, q.answer, q.choices, false)
  }

  /** The bank built by `add`-ing the records in order: a later record replaces an earlier one
      with the same id. */
  function QuizTable(rs: seq<QuizRecord>): (t: map<u64, Quiz>)
    ensures KeyedById(t)
    ensures forall id :: id in t ==> !t[id].asked
  {
    if rs == [] then map[] else QuizTable(rs[..|rs| - 1])[rs[|rs| - 1].id := Stored(rs[|rs| - 1])]
  }

  // ---------------------------------------------------------------------------------------------
  // The loaders

  /** `parse_topics`; the `Topics` it fills is the sequence of records handed to `add_new_topic`. */
  method ParseTopics(env: Env, text: string, verbose: bool) returns (topics: seq<TopicRecord>, output: seq<string>)
    ensures topics == Loaded(TopicParser(env), Split(text, '\n'))
    ensures output == Output(verbose, "topics.csv", Failures(TopicParser(env), Split(text, '\n')))
  {
    var parse, lines := TopicParser(env), Split(text, '\n');
    topics, output := [], [];
    for i := 0 to |lines|
      invariant topics == Loaded(parse, lines[..i])
      invariant output == Output(verbose, "topics.csv", Failures(parse, lines[..i]))
    {
      LoadStep(parse, lines, i);
      if lines[i] != "" {
        match parse(lines[i])
        case Ok(t) =>
          topics := topics + [t];
        case Err(err) =>
          OutputStep(verbose, "topics.csv", Failures(parse, lines[..i]), Report(i + 1, err));
          if verbose {
            output := output + [ErrorLine("topics.csv", Report(i + 1, err))];
          }
      }
    }
    assert lines[..|lines|] == lines;
  }

  /** `parse_quizzes`: the bank is created empty and every accepted line is `add`-ed to it. */
  method ParseQuizzes(env: Env, text: string, filename: string, verbose: bool)
    returns (qz: Quizzes, output: seq<string>)
    ensures fresh(qz) && qz.Valid()
    ensures qz.list == QuizTable(Loaded(QuizParser(env), Split(text, '\n')))
    ensures qz.topicId == 0 && qz.name == "" && qz.correct == 0
    ensures output == Output(verbose, filename, Failures(QuizParser(env), Split(text, '\n')))
  {
    qz := new Quizzes(0, "");
    var parse, lines := QuizParser(env), Split(text, '\n');
    output := [];
    for i := 0 to |lines|
      invariant qz.Valid() && qz.topicId == 0 && qz.name == "" && qz.correct == 0
      invariant qz.list == QuizTable(Loaded(parse, lines[..i]))
      invariant output == Output(verbose, filename, Failures(parse, lines[..i]))
    {
      if lines[i] != "" {
        match parse(lines[i])
        case Ok(q) =>
          AddStep(parse, lines, i, q);
          qz.Add(q.id, q.name, q.description, q.answer, q.choices);
        case Err(err) =>
          SkipStep(parse, lines, i);
          OutputStep(verbose, filename, Failures(parse, lines[..i]), Report(i + 1, err));
          if verbose {
            output := output + [ErrorLine(filename, Report(i + 1, err))];
          }
      } else {
        SkipStep(parse, lines, i);
      }
    }
    assert lines[..|lines|] == lines;
  }

  /** `parse_leaderboards`; the `Leaderboards` it fills is the sequence of records handed to
      `add_new_leaderboards`. */
  method ParseLeaderboards(env: Env, text: string, verbose: bool)
    returns (entries: seq<LeaderboardRecord>, output: seq<string>)
    ensures entries == Loaded(LeaderboardParser(env), Split(text, '\n'))
    ensures output == Output(verbose, "leaderboards.csv", Failures(LeaderboardParser(env), Split(text, '\n')))
  {
    var parse, lines := LeaderboardParser(env), Split(text, '\n');
    entries, output := [], [];
    for i := 0 to |lines|
      invariant entries == Loaded(parse, lines[..i])
      invariant output == Output(verbose, "leaderboards.csv", Failures(parse, lines[..i]))
    {
      LoadStep(parse, lines, i);
      if lines[i] != "" {
        match parse(lines[i])
        case Ok(e) =>
          entries := entries + [e];
        case Err(err) =>
          OutputStep(verbose, "leaderboards.csv", Failures(parse, lines[..i]), Report(i + 1, err));
          if verbose {
            output := output + [ErrorLine("leaderboards.csv", Report(i + 1, err))];
          }
      }
    }
    assert lines[..|lines|] == lines;
  }

  lemma LoadStep<T>(parse: string -> Result<T>, lines: seq<string>, i: nat)
    requires i < |lines|
    ensures Loaded(parse, lines[..i + 1]) ==
            Loaded(parse, lines[..i]) + if lines[i] != "" && parse(lines[i]).Ok? then [parse(lines[i]).value] else []
    ensures Failures(parse, lines[..i + 1]) ==
            Failures(parse, lines[..i]) + if lines[i] != "" && parse(lines[i]).Err? then [Report(i + 1, parse(lines[i]).error)] else []
  {
    assert lines[..i + 1][..i] == lines[..i];
  }

  /** A line that is empty or rejected adds nothing; a rejected one adds its report. */
  lemma SkipStep<T>(parse: string -> Result<T>, lines: seq<string>, i: nat)
    requires i < |lines| && (lines[i] == "" || parse(lines[i]).Err?)
    ensures Loaded(parse, lines[..i + 1]) == Loaded(parse, lines[..i])
    ensures Failures(parse, lines[..i + 1]) ==
            Failures(parse, lines[..i]) + if lines[i] != "" then [Report(i + 1, parse(lines[i]).error)] else []
  {
    assert lines[..i + 1][..i] == lines[..i];
  }

  /** An accepted question line adds its quiz to the bank. */
  lemma AddStep(parse: string -> Result<QuizRecord>, lines: seq<string>, i: nat, q: QuizRecord)
    requires i < |lines| && lines[i] != "" && parse(lines[i]) == Ok(q)
    ensures QuizTable(Loaded(parse, lines[..i + 1])) == QuizTable(Loaded(parse, lines[..i]))[q.id := Stored(q)]
    ensures Failures(parse, lines[..i + 1]) == Failures(parse, lines[..i])
  {
    LoadStep(parse, lines, i);
    QuizTableSnoc(Loaded(parse, lines[..i]), q);
  }

  lemma OutputStep(verbose: bool, file: string, rs: seq<Report>, r: Report)
    ensures Output(verbose, file, rs + [r]) == Output(verbose, file, rs) + if verbose then [ErrorLine(file, r)] else []
  {
    assert (rs + [r])[..|rs|] == rs;
  }

  lemma QuizTableSnoc(rs: seq<QuizRecord>, q: QuizRecord)
    ensures QuizTable(rs + [q]) == QuizTable(rs)[q.id := Stored(q)]
  {
    assert (rs + [q])[..|rs|] == rs;
  }

  // ---------------------------------------------------------------------------------------------
  // What the loaders keep and what they report

  lemma {:induction false} LoadedAppend<T>(parse: string -> Result<T>, a: seq<string>, b: seq<string>)
    ensures Loaded(parse, a + b) == Loaded(parse, a) + Loaded(parse, b)
  {
    if b == [] {
      assert a + b == a;
    } else {
      assert (a + b)[..|a + b| - 1] == a + b[..|b| - 1];
      LoadedAppend(parse, a, b[..|b| - 1]);
    }
  }

  /** When every line is non-empty and accepted, the loaded records are the lines' records, in
      order. */
  lemma {:induction false} LoadedAll<T>(parse: string -> Result<T>, lines: seq<string>, xs: seq<T>)
    requires |lines| == |xs|
    requires forall i :: 0 <= i < |lines| ==> lines[i] != "" && parse(lines[i]) == Ok(xs[i])
    ensures Loaded(parse, lines) == xs
  {
    if lines != [] {
      var n := |lines| - 1;
      LoadedAll(parse, lines[..n], xs[..n]);
      assert xs[..n] + [xs[n]] == xs;
    }
  }

  /** A record is loaded exactly when some non-empty line parses to it. */
  lemma {:induction false} LoadedMembers<T>(parse: string -> Result<T>, lines: seq<string>, x: T)
    ensures x in Loaded(parse, lines) <==>
            exists i :: 0 <= i < |lines| && lines[i] != "" && parse(lines[i]) == Ok(x)
  {
    if lines != [] {
      var init := lines[..|lines| - 1];
      LoadedMembers(parse, init, x);
      if exists i :: 0 <= i < |init| && init[i] != "" && parse(init[i]) == Ok(x) {
        var i :| 0 <= i < |init| && init[i] != "" && parse(init[i]) == Ok(x);
        assert lines[i] == init[i];
      }
      if exists i :: 0 <= i < |lines| && lines[i] != "" && parse(lines[i]) == Ok(x) {
        var i :| 0 <= i < |lines| && lines[i] != "" && parse(lines[i]) == Ok(x);
        if i < |init| {
          assert init[i] == lines[i];
        }
      }
    }
  }

  /** A line is reported exactly when it is not empty and `parse` rejects it, with the 1-based
      line number and the parser's message. */
  lemma {:induction false} FailuresMembers<T>(parse: string -> Result<T>, lines: seq<string>, r: Report)
    ensures r in Failures(parse, lines) <==>
            1 <= r.line <= |lines| && lines[r.line - 1] != "" && parse(lines[r.line - 1]) == Err(r.error)
  {
    if lines != [] {
      var init := lines[..|lines| - 1];
      FailuresMembers(parse, init, r);
      if 1 <= r.line <= |init| {
        assert init[r.line - 1] == lines[r.line - 1];
      }
    }
  }

  /** The reports come in strictly increasing line order, so no line is reported twice. */
  lemma {:induction false} FailuresAscending<T>(parse: string -> Result<T>, lines: seq<string>)
    ensures forall i :: 0 <= i < |Failures(parse, lines)| ==>
              1 <= Failures(parse, lines)[i].line <= |lines|
    ensures forall i, j :: 0 <= i < j < |Failures(parse, lines)| ==>
              Failures(parse, lines)[i].line < Failures(parse, lines)[j].line
  {
    if lines != [] {
      FailuresAscending(parse, lines[..|lines| - 1]);
    }
  }

  /** Every non-empty line is either loaded or reported, never both. */
  lemma {:induction false} EveryLineAccounted<T>(parse: string -> Result<T>, lines: seq<string>)
    ensures |Loaded(parse, lines)| + |Failures(parse, lines)| == NonEmpty(lines)
  {
    if lines != [] {
      EveryLineAccounted(parse, lines[..|lines| - 1]);
    }
  }

  /** The bank holds a quiz for exactly the ids of the records added. */
  lemma {:induction false} QuizTableKeys(rs: seq<QuizRecord>, id: u64)
    ensures id in QuizTable(rs) <==> exists i :: 0 <= i < |rs| && rs[i].id == id
  {
    if rs != [] {
      var init := rs[..|rs| - 1];
      QuizTableKeys(init, id);
      if exists i :: 0 <= i < |init| && init[i].id == id {
        var i :| 0 <= i < |init| && init[i].id == id;
        assert rs[i] == init[i];
      }
    }
  }

  /** The quiz stored under an id is the one of the last record with that id. */
  lemma {:induction false} QuizTableLast(rs: seq<QuizRecord>, i: nat)
    requires i < |rs|
    requires forall j :: i < j < |rs| ==> rs[j].id != rs[i].id
    ensures rs[i].id in QuizTable(rs) && QuizTable(rs)[rs[i].id] == Stored(rs[i])
  {
    if i < |rs| - 1 {
      var init := rs[..|rs| - 1];
      assert init[i] == rs[i];
      QuizTableLast(init, i);
    }
  }

  // ---------------------------------------------------------------------------------------------
  // Reading back what write_leaderboards wrote

  /** The entry lines without their '\n'. */
  function EntryTexts(env: Env, es: seq<LeaderboardRecord>): (ts: seq<string>)
    ensures |ts| == |es|
    ensures forall i :: 0 <= i < |es| ==> ts[i] == EntryText(env, es[i])
  {
    if es == [] then [] else [EntryText(env, es[0])] + EntryTexts(env, es[1..])
  }

  lemma {:induction false} JoinAvoids(ps: seq<string>, d: char, c: char)
    requires |ps| >= 1 && c != d
    requires forall k :: 0 <= k < |ps| ==> c !in ps[k]
    ensures c !in Join(ps, d)
  {
    if |ps| > 1 {
      JoinAvoids(ps[1..], d, c);
    }
  }

  lemma {:induction false} SplitEntryLines(env: Env, es: seq<LeaderboardRecord>)
    requires forall i :: 0 <= i < |es| ==> Writable(env, es[i])
    ensures Split(EntryLines(env, es), '\n') == EntryTexts(env, es) + [""]
  {
    if es != [] {
      var ps := EntryFields(env, es[0]);
      assert Writable(env, es[0]);
      assert forall k :: 0 <= k < |ps| ==> '\n' !in ps[k];
      JoinAvoids(ps, ',', '\n');
      SplitEntryLines(env, es[1..]);
      SplitAtDelimiter(EntryText(env, es[0]), EntryLines(env, es[1..]), '\n');
    }
  }

  /** Each written entry line is accepted, and read back as its entry. */
  lemma EntryTextsParse(env: Env, es: seq<LeaderboardRecord>)
    requires forall i :: 0 <= i < |es| ==> Writable(env, es[i])
    ensures forall i :: 0 <= i < |es| ==>
              EntryTexts(env, es)[i] != "" && LeaderboardParser(env)(EntryTexts(env, es)[i]) == Ok(es[i])
  {
    forall i | 0 <= i < |es|
      ensures EntryTexts(env, es)[i] != "" && LeaderboardParser(env)(EntryTexts(env, es)[i]) == Ok(es[i])
    {
      EntryRoundTrip(env, es[i]);
      JoinEnds(EntryFields(env, es[i]), ',');
    }
  }

  /** Facts about the header names, which are string constants. */
  lemma HeaderFacts()
    ensures |HeaderFields| == 6 && HeaderFields[2] == "score"
    ensures HeaderFields[0] != "" && HeaderFields[1] != "" && |HeaderFields[5]| >= 1
    ensures !IsWhitespace(HeaderFields[5][|HeaderFields[5]| - 1])
    ensures forall k :: 0 <= k < 6 ==> ',' !in HeaderFields[k] && '\n' !in HeaderFields[k]
  {
    var h := HeaderFields;
    assert ',' !in h[0] && '\n' !in h[0];
    assert ',' !in h[1] && '\n' !in h[1];
    assert ',' !in h[2] && '\n' !in h[2];
    assert ',' !in h[3] && '\n' !in h[3];
    assert ',' !in h[4] && '\n' !in h[4];
    assert ',' !in h[5] && '\n' !in h[5];
  }

  /** The header line `write_leaderboards` writes is rejected by `parse_leaderboard` when its
      "score" field does not convert to a float. */
  lemma HeaderRejected(env: Env)
    requires env.toFloat("score").None?
    ensures ParseLeaderboard(env, Join(HeaderFields, ',')) == Err("ParseIntError")
  {
    var h := HeaderFields;
    HeaderFacts();
    FieldsOfJoin(h);
    var fs := Fields(Join(h, ','));
    assert fs == h;
    assert Filled(fs, 0) == Some(h[0]) && Filled(fs, 1) == Some(h[1]) && Get(fs, 2) == Some(h[2]);
  }

  lemma {:induction false} FailuresNoneAfter<T>(parse: string -> Result<T>, lines: seq<string>, k: nat)
    requires k <= |lines|
    requires forall i :: k <= i < |lines| ==> lines[i] == "" || parse(lines[i]).Ok?
    ensures Failures(parse, lines) == Failures(parse, lines[..k])
  {
    if k < |lines| {
      FailuresNoneAfter(parse, lines[..|lines| - 1], k);
      assert lines[..|lines| - 1][..k] == lines[..k];
    } else {
      assert lines[..k] == lines;
    }
  }

  /** The lines of the written file: the header, the entry lines, and the empty piece after the
      last '\n'. */
  lemma {:induction false} WrittenLines(env: Env, es: seq<LeaderboardRecord>)
    requires forall i :: 0 <= i < |es| ==> Writable(env, es[i])
    ensures Split(LeaderboardsText(env, es), '\n') == [Join(HeaderFields, ',')] + EntryTexts(env, es) + [""]
  {
    var h := Join(HeaderFields, ',');
    HeaderFacts();
    JoinAvoids(HeaderFields, ',', '\n');
    SplitAtDelimiter(h, EntryLines(env, es), '\n');
    SplitEntryLines(env, es);
  }

  lemma LoadedLines<T>(parse: string -> Result<T>, h: string, ts: seq<string>)
    requires parse(h).Err? && h != ""
    ensures Loaded(parse, [h] + ts + [""]) == Loaded(parse, ts)
  {
    LoadedAppend(parse, [h], ts);
    LoadedAppend(parse, [h] + ts, [""]);
    assert [h][..0] == [] && [""][..0] == [];
  }

  lemma FramedIndex(h: string, ts: seq<string>, i: nat)
    requires 1 <= i <= |ts|
    ensures ([h] + ts + [""])[i] == ts[i - 1]
  {
  }

  lemma FramedOk<T>(parse: string -> Result<T>, h: string, ts: seq<string>)
    requires forall i :: 0 <= i < |ts| ==> parse(ts[i]).Ok?
    ensures forall i :: 1 <= i < |ts| + 2 ==> ([h] + ts + [""])[i] == "" || parse(([h] + ts + [""])[i]).Ok?
  {
    forall i | 1 <= i < |ts| + 2
      ensures ([h] + ts + [""])[i] == "" || parse(([h] + ts + [""])[i]).Ok?
    {
      if i <= |ts| {
        FramedIndex(h, ts, i);
      }
    }
  }

  lemma FailuresLines<T>(parse: string -> Result<T>, h: string, ts: seq<string>)
    requires parse(h).Err? && h != ""
    requires forall i :: 0 <= i < |ts| ==> parse(ts[i]).Ok?
    ensures Failures(parse, [h] + ts + [""]) == [Report(1, parse(h).error)]
  {
    var lines := [h] + ts + [""];
    FramedOk(parse, h, ts);
    FailuresNoneAfter(parse, lines, 1);
    assert lines[..1] == [h];
    FailuresSingle(parse, h);
  }

  lemma FailuresSingle<T>(parse: string -> Result<T>, h: string)
    requires parse(h).Err? && h != ""
    ensures Failures(parse, [h]) == [Report(1, parse(h).error)]
  {
    assert [h][..0] == [];
  }

  /** Loading what `write_leaderboards` wrote gives back its entries, in order, when every entry is
      writable; the header line is the one line rejected, reported as "ParseIntError" on line 1. */
  lemma ReloadWritten(env: Env, es: seq<LeaderboardRecord>)
    requires forall i :: 0 <= i < |es| ==> Writable(env, es[i])
    requires env.toFloat("score").None?
    ensures Loaded(LeaderboardParser(env), Split(LeaderboardsText(env, es), '\n')) == es
    ensures Failures(LeaderboardParser(env), Split(LeaderboardsText(env, es), '\n')) == [Report(1, "ParseIntError")]
  {
    var parse := LeaderboardParser(env);
    var h, ts := Join(HeaderFields, ','), EntryTexts(env, es);
    WrittenLines(env, es);
    HeaderRejected(env);
    LoadedLines(parse, h, ts);
    EntryTextsParse(env, es);
    LoadedAll(parse, ts, es);
    FailuresLines(parse, h, ts);
  }
}
