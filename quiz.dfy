/** The quiz-session engine of `src/quiz.rs`: a question bank keyed by id, the draw of an unasked
    question, the rendering of a question, and the five-round session `ask`. */
module QuizEngine {
  import opened Wrappers
  import opened Collaborators
  import opened Text

  /** One question; `asked` is the only field the engine changes. */
  datatype Quiz = Quiz(id: u64, name: string, description: string, answer: Choice,
                       choices: seq<string>, asked: bool)

  /** The number of rounds `ask` runs (its `for i in 0..5`). */
  const Budget: nat := 5

  /** What `ask` prints when no unasked question is left. */
  const NoMoreQuestions: string := "Tidak ada pertanyaan lagi yang dapat ditanyakan"

  /** Every quiz is stored under its own id, as `add` and `ask` both insert under `quiz.id`. */
  ghost predicate KeyedById(m: map<u64, Quiz>) {
    forall id :: id in m ==> m[id].id == id
  }

  /** Every quiz of the bank has been asked. */
  ghost predicate AllAsked(m: map<u64, Quiz>) {
    forall id :: id in m ==> m[id].asked
  }

  // ---------------------------------------------------------------------------------------------
  // Iteration order. A `HashMap` yields its entries in an unspecified order; the model fixes
  // ascending key order. Because the drawn index is arbitrary, every unasked quiz can be drawn
  // whatever the order (see QuizSession.EveryUnaskedCanBeDrawn).

  predicate IsMinOf(k: u64, s: set<u64>) {
    k in s && forall x :: x in s ==> k <= x
  }

  lemma {:induction false} HasMinimum(s: set<u64>)
    requires s != {}
    ensures exists k :: IsMinOf(k, s)
  {
    var y :| y in s;
    var rest := s - {y};
    if s == {y} {
      assert IsMinOf(y, s);
    } else {
      HasMinimum(rest);
      var k :| IsMinOf(k, rest);
      var m := if y < k then y else k;
      forall x | x in s
        ensures m <= x
      {
        if x != y {
          assert x in rest;
        }
      }
      assert IsMinOf(m, s);
    }
  }

  /** The smallest key of a non-empty key set. */
  function MinKey(s: set<u64>): (k: u64)
    requires s != {}
    ensures k in s
  {
    HasMinimum(s);
    var k :| IsMinOf(k, s);
    k
  }

  lemma MinKeyIsLeast(s: set<u64>, x: u64)
    requires x in s
    ensures MinKey(s) <= x
  {
    assert IsMinOf(MinKey(s), s);
  }

  /** The unasked entries under the keys `ks`, smallest key first: the vector that
      `iter().filter(|v| !v.1.asked)` collects. */
  function UnaskedIn(m: map<u64, Quiz>, ks: set<u64>): seq<Quiz>
    requires ks <= m.Keys
    decreases |ks|
  {
    if ks == {} then []
    else
      var k := MinKey(ks);
      (if m[k].asked then [] else [m[k]]) + UnaskedIn(m, ks - {k})
  }

  /** The vector of unasked quizzes that `get_unasked_question` collects. */
  function Unasked(m: map<u64, Quiz>): seq<Quiz> {
    UnaskedIn(m, m.Keys)
  }

  lemma {:induction false} UnaskedInSound(m: map<u64, Quiz>, ks: set<u64>, j: nat)
    requires ks <= m.Keys && j < |UnaskedIn(m, ks)|
    ensures var q := UnaskedIn(m, ks)[j]; !q.asked && exists k :: k in ks && m[k] == q
  {
    var k := MinKey(ks);
    var head := if m[k].asked then [] else [m[k]];
    if j >= |head| {
      UnaskedInSound(m, ks - {k}, j - |head|);
      var q := UnaskedIn(m, ks)[j];
      var k' :| k' in ks - {k} && m[k'] == q;
      assert k' in ks;
    } else {
      assert UnaskedIn(m, ks)[j] == m[k];
    }
  }

  lemma {:induction false} UnaskedInComplete(m: map<u64, Quiz>, ks: set<u64>, k: u64)
    requires ks <= m.Keys && k in ks && !m[k].asked
    ensures m[k] in UnaskedIn(m, ks)
    decreases |ks|
  {
    var k0 := MinKey(ks);
    if k != k0 {
      UnaskedInComplete(m, ks - {k0}, k);
    }
  }

  /** Every entry of the collected vector is an unasked quiz of the map. */
  lemma UnaskedSound(m: map<u64, Quiz>, j: nat)
    requires j < |Unasked(m)|
    ensures Unasked(m)[j] in m.Values && !Unasked(m)[j].asked
  {
    UnaskedInSound(m, m.Keys, j);
  }

  /** Every unasked quiz of the map is in the collected vector. */
  lemma UnaskedComplete(m: map<u64, Quiz>, id: u64)
    requires id in m && !m[id].asked
    ensures m[id] in Unasked(m)
  {
    UnaskedInComplete(m, m.Keys, id);
  }

  /** The vector is empty exactly when every quiz has been asked. */
  lemma UnaskedEmpty(m: map<u64, Quiz>)
    ensures |Unasked(m)| == 0 <==> AllAsked(m)
  {
    if |Unasked(m)| == 0 {
      forall id | id in m
        ensures m[id].asked
      {
        if !m[id].asked {
          UnaskedComplete(m, id);
        }
      }
    } else {
      UnaskedSound(m, 0);
    }
  }

  /** The ids of the questions not yet asked. */
  function UnaskedIds(m: map<u64, Quiz>): set<u64> {
    set id | id in m && !m[id].asked
  }

  /** `rand::thread_rng().gen_range(0..n)`, supplied: for every n > 0 an index below n. */
  ghost predicate IsIndexPicker(pick: nat -> nat) {
    forall n: nat :: 0 < n ==> pick(n) < n
  }

  /** The random draw of round `i` among `n` candidates, for every round of a session. */
  ghost predicate IsRoundPicker(draw: (nat, nat) -> nat) {
    forall i: nat, n: nat :: 0 < n ==> draw(i, n) < n
  }

  /** The body of `get_unasked_question` on a map: nothing exactly when every quiz has been
      asked, and otherwise an unasked quiz of the map. */
  function Draw(m: map<u64, Quiz>, pick: nat -> nat): (r: Option<Quiz>)
    requires IsIndexPicker(pick)
    ensures r.None? <==> AllAsked(m)
    ensures r.Some? ==> r.value in m.Values && !r.value.asked
  {
    var xs := Unasked(m);
    UnaskedEmpty(m);
    if |xs| == 0 then None
    else
      UnaskedSound(m, pick(|xs|));
      Some(xs[pick(|xs|)])
  }

  /** The draw of round `i` of a session, `draw(i, n)` playing `gen_range(0..n)`. It is `Draw`
      with the index picker of round `i` (see DrawInRoundIsDraw), written without postconditions so
      that unfolding a whole session does not drag the quantified facts about the draw along. */
  function DrawInRound(m: map<u64, Quiz>, draw: (nat, nat) -> nat, i: nat): Option<Quiz>
    requires IsRoundPicker(draw)
  {
    var xs := Unasked(m);
    if |xs| == 0 then None else Some(xs[draw(i, |xs|)])
  }

  /** The draw of a round is `get_unasked_question`'s draw with that round's random index. */
  lemma DrawInRoundIsDraw(m: map<u64, Quiz>, draw: (nat, nat) -> nat, i: nat, pick: nat -> nat)
    requires IsRoundPicker(draw) && forall n: nat :: pick(n) == draw(i, n)
    ensures IsIndexPicker(pick) && DrawInRound(m, draw, i) == Draw(m, pick)
  {
  }

  /** The draw of each round finds nothing exactly when every quiz has been asked, and otherwise
      finds an unasked quiz of the map. */
  lemma DrawInRoundSpec(m: map<u64, Quiz>, draw: (nat, nat) -> nat, i: nat)
    requires IsRoundPicker(draw)
    ensures DrawInRound(m, draw, i).None? <==> AllAsked(m)
    ensures DrawInRound(m, draw, i).Some? ==>
              DrawInRound(m, draw, i).value in m.Values && !DrawInRound(m, draw, i).value.asked
  {
    DrawInRoundIsDraw(m, draw, i, (n: nat) => draw(i, n));
  }

  /** In a bank keyed by id, the quiz drawn is the unasked entry stored under its own id. */
  lemma DrawnEntry(m: map<u64, Quiz>, draw: (nat, nat) -> nat, i: nat)
    requires IsRoundPicker(draw) && KeyedById(m) && DrawInRound(m, draw, i).Some?
    ensures var q := DrawInRound(m, draw, i).value; q.id in m && m[q.id] == q && !q.asked
  {
    UnaskedInSound(m, m.Keys, draw(i, |Unasked(m)|));
  }

  // ---------------------------------------------------------------------------------------------
  // Rendering (`print_pertanyaan`); every `println!` is one returned line.

  /** The letter printed before choice `k`: the `u8` counter starts at 65 ('A') and goes up by
      one per choice, wrapping at 256, and is printed `as char`. */
  function Letter(k: nat): (c: char)
    ensures k <= 190 ==> c as int == 65 + k
    ensures k > 190 ==> c as int != 65 + k
    ensures k < 26 ==> 'A' <= c <= 'Z'
  {
    ((65 + k) % 256) as char
  }

  /** The lines `print_pertanyaan` prints for `q` as question number `quizNumber`. */
  function QuestionLines(q: Quiz, quizNumber: nat): (ls: seq<string>)
    ensures |ls| == 2 + |q.choices| && ls[0] == q.name
    ensures ls[1] == Decimal(quizNumber) + ". " + q.description
    ensures forall k :: 0 <= k < |q.choices| ==> ls[2 + k] == [Letter(k)] + ". " + q.choices[k]
  {
    [q.name, Decimal(quizNumber) + ". " + q.description]
    + seq(|q.choices|, k requires 0 <= k < |q.choices| => [Letter(k)] + ". " + q.choices[k])
  }

  // ---------------------------------------------------------------------------------------------
  // The session `ask`, as written: a question is marked asked (and reinserted) only when the
  // captured answer is right.

  /** A presented question and the answer captured for it. */
  datatype Round = Round(question: Quiz, answer: Choice)

  predicate IsCorrect(r: Round) {
    r.answer == r.question.answer
  }

  /** What a session leaves behind: the bank, the score, the rounds it presented, and whether it
      stopped at a round that found no unasked question. */
  datatype Session = Session(list: map<u64, Quiz>, correct: nat, rounds: seq<Round>, exhausted: bool)

  /** `s` with the round `r` presented before its own. */
  function Prepend(r: Round, s: Session): Session {
    Session(s.list, s.correct, [r] + s.rounds, s.exhausted)
  }

  /** The bank after `a` is captured for `q`: the quiz is reinserted marked asked only when `a`
      is right. */
  function AfterAnswer(m: map<u64, Quiz>, q: Quiz, a: Choice): map<u64, Quiz> {
    if a == q.answer then m[q.id := q.(asked := true)] else m
  }

  /** The score after `a` is captured for `q`. */
  function ScoreAfter(c: nat, q: Quiz, a: Choice): nat {
    if a == q.answer then c + 1 else c
  }

  /** Rounds `i` to `Budget - 1` of `ask`. `draw(i, n)` is the random index of round `i`,
      `input(i)` the answer `get_char_input` captures in round `i`. */
  function AskFrom(m: map<u64, Quiz>, correct: nat, draw: (nat, nat) -> nat,
                   input: nat -> Choice, i: nat): (s: Session)
    requires i <= Budget && IsRoundPicker(draw)
    ensures |s.rounds| <= Budget - i && correct <= s.correct <= correct + |s.rounds|
    ensures s.exhausted ==> |s.rounds| < Budget - i
    decreases Budget - i
  {
    if i == Budget then Session(m, correct, [], false)
    else
      match DrawInRound(m, draw, i)
      case None => Session(m, correct, [], true)
      case Some(q) =>
        var answered := input(i);
        Prepend(Round(q, answered),
                AskFrom(AfterAnswer(m, q, answered), ScoreAfter(correct, q, answered), draw, input, i + 1))
  }

  /** The lines `print_pertanyaan` prints for the rounds, numbered from `n` on. */
  function Transcript(rs: seq<Round>, n: nat): seq<string> {
    if rs == [] then [] else QuestionLines(rs[0].question, n) + Transcript(rs[1..], n + 1)
  }

  /** Everything a session prints, its questions numbered from `n` on: the questions of its
      rounds, then the "no more questions" line if it stopped early. */
  function Printed(s: Session, n: nat): seq<string> {
    Transcript(s.rounds, n) + (if s.exhausted then [NoMoreQuestions] else [])
  }

  lemma Associative<T>(a: seq<T>, b: seq<T>, c: seq<T>)
    ensures (a + b) + c == a + (b + c)
  {
  }

  /** A round that finds no unasked question ends the session, as written and as intended. */
  lemma AskFromExhausted(m: map<u64, Quiz>, c: nat, draw: (nat, nat) -> nat, input: nat -> Choice, i: nat)
    requires i < Budget && IsRoundPicker(draw) && DrawInRound(m, draw, i).None?
    ensures AskFrom(m, c, draw, input, i) == Session(m, c, [], true)
    ensures AskIntendedFrom(m, c, draw, input, i) == Session(m, c, [], true)
  {
  }

  /** One round of `ask` that finds the question `q`. */
  lemma AskFromStep(m: map<u64, Quiz>, c: nat, draw: (nat, nat) -> nat, input: nat -> Choice,
                    i: nat, q: Quiz)
    requires i < Budget && IsRoundPicker(draw) && DrawInRound(m, draw, i) == Some(q)
    ensures AskFrom(m, c, draw, input, i)
              == Prepend(Round(q, input(i)), AskFrom(AfterAnswer(m, q, input(i)), ScoreAfter(c, q, input(i)), draw, input, i + 1))
  {
  }

  /** A session one round longer prints that round's question first. */
  lemma PrintedStep(r: Round, s: Session, n: nat)
    ensures Printed(Prepend(r, s), n) == QuestionLines(r.question, n) + Printed(s, n + 1)
  {
    assert ([r] + s.rounds)[1..] == s.rounds;
    Associative(QuestionLines(r.question, n), Transcript(s.rounds, n + 1),
                if s.exhausted then [NoMoreQuestions] else []);
  }

  /** After rounds `0..i-1` of `ask` left `m` and `c`, printed `out` and presented `rounds`, the
      remaining rounds complete the session `final`. */
  ghost predicate Resumes(final: Session, m: map<u64, Quiz>, c: nat, draw: (nat, nat) -> nat,
                          input: nat -> Choice, i: nat, out: seq<string>, rounds: seq<Round>)
    requires i <= Budget && IsRoundPicker(draw)
  {
    var s := AskFrom(m, c, draw, input, i);
    && s.list == final.list && s.correct == final.correct && s.exhausted == final.exhausted
    && rounds + s.rounds == final.rounds && out + Printed(s, i + 1) == Printed(final, 1)
  }

  /** `m`, `c`, `rounds` and `out` are what the session `final` leaves and prints. */
  ghost predicate Completes(final: Session, m: map<u64, Quiz>, c: nat, rounds: seq<Round>, out: seq<string>) {
    final.list == m && final.correct == c && final.rounds == rounds && Printed(final, 1) == out
  }

  lemma ResumesStart(m: map<u64, Quiz>, c: nat, draw: (nat, nat) -> nat, input: nat -> Choice)
    requires IsRoundPicker(draw)
    ensures Resumes(AskFrom(m, c, draw, input, 0), m, c, draw, input, 0, [], [])
  {
    var s := AskFrom(m, c, draw, input, 0);
    assert [] + Printed(s, 1) == Printed(s, 1) && [] + s.rounds == s.rounds;
  }

  lemma ResumesDone(final: Session, m: map<u64, Quiz>, c: nat, draw: (nat, nat) -> nat,
                    input: nat -> Choice, out: seq<string>, rounds: seq<Round>)
    requires IsRoundPicker(draw) && Resumes(final, m, c, draw, input, Budget, out, rounds)
    ensures Completes(final, m, c, rounds, out)
  {
    assert out + [] == out && rounds + [] == rounds;
  }

  lemma ResumesExhausted(final: Session, m: map<u64, Quiz>, c: nat, draw: (nat, nat) -> nat,
                         input: nat -> Choice, i: nat, out: seq<string>, rounds: seq<Round>)
    requires i < Budget && IsRoundPicker(draw) && DrawInRound(m, draw, i).None?
    requires Resumes(final, m, c, draw, input, i, out, rounds)
    ensures Completes(final, m, c, rounds, out + [NoMoreQuestions])
  {
    AskFromExhausted(m, c, draw, input, i);
    assert rounds + [] == rounds;
  }

  /** The round `i` that presents `q` and captures `input(i)` moves the session on by one. */
  lemma ResumesStep(final: Session, m: map<u64, Quiz>, c: nat, draw: (nat, nat) -> nat,
                    input: nat -> Choice, i: nat, out: seq<string>, rounds: seq<Round>, q: Quiz,
                    m': map<u64, Quiz>, c': nat, out': seq<string>, rounds': seq<Round>)
    requires i < Budget && IsRoundPicker(draw) && DrawInRound(m, draw, i) == Some(q)
    requires Resumes(final, m, c, draw, input, i, out, rounds)
    requires m' == AfterAnswer(m, q, input(i)) && c' == ScoreAfter(c, q, input(i))
    requires out' == out + QuestionLines(q, i + 1) && rounds' == rounds + [Round(q, input(i))]
    ensures Resumes(final, m', c', draw, input, i + 1, out', rounds')
  {
    var s := AskFrom(m', c', draw, input, i + 1);
    AskFromStep(m, c, draw, input, i, q);
    PrintedStep(Round(q, input(i)), s, i + 1);
    Associative(out, QuestionLines(q, i + 1), Printed(s, i + 2));
    Associative(rounds, [Round(q, input(i))], s.rounds);
  }

  /** Rounds `i` to `Budget - 1` of `ask` as its doc comment describes it: every presented
      question is marked asked, and only a right answer scores. */
  function AskIntendedFrom(m: map<u64, Quiz>, correct: nat, draw: (nat, nat) -> nat,
                           input: nat -> Choice, i: nat): (s: Session)
    requires i <= Budget && IsRoundPicker(draw)
    ensures |s.rounds| <= Budget - i && correct <= s.correct <= correct + |s.rounds|
    ensures s.exhausted ==> |s.rounds| < Budget - i
    decreases Budget - i
  {
    if i == Budget then Session(m, correct, [], false)
    else
      match DrawInRound(m, draw, i)
      case None => Session(m, correct, [], true)
      case Some(q) =>
        var answered := input(i);
        Prepend(Round(q, answered),
                AskIntendedFrom(m[q.id := q.(asked := true)], ScoreAfter(correct, q, answered), draw, input, i + 1))
  }

  /** One round of the session as its doc comment describes it. */
  lemma AskIntendedStep(m: map<u64, Quiz>, c: nat, draw: (nat, nat) -> nat, input: nat -> Choice,
                        i: nat, q: Quiz)
    requires i < Budget && IsRoundPicker(draw) && DrawInRound(m, draw, i) == Some(q)
    ensures AskIntendedFrom(m, c, draw, input, i)
              == Prepend(Round(q, input(i)),
                         AskIntendedFrom(m[q.id := q.(asked := true)], ScoreAfter(c, q, input(i)), draw, input, i + 1))
  {
  }

  // ---------------------------------------------------------------------------------------------

  /** `Quizzes`: the question bank of one topic and the number of right answers so far. */
  class Quizzes {
    var topicId: u64
    var name: string
    var list: map<u64, Quiz>
    var correct: nat

    ghost predicate Valid()
      reads this
    {
      KeyedById(list)
    }

    /** `Quizzes::new(topic_id, name)`: an empty bank. */
    constructor (topicId: u64, name: string)
      ensures Valid()
      ensures this.topicId == topicId && this.name == name
      ensures list == map[] && correct == 0
    {
      this.topicId := topicId;
      this.name := name;
      list := map[];
      correct := 0;
    }

    /** `add`: stores an unasked quiz under `id`, replacing any quiz with that id. */
    method Add(id: u64, name: string, description: string, answer: Choice, choices: seq<string>)
      requires Valid()
      modifies this`list
      ensures Valid()
      ensures list == old(list)[id := Quiz(id, name, description, answer, choices, false)]
    {
      var x := Quiz(id, name, description, answer, choices, false);
      list := list[id := x];
    }

    /** `raw_add`: converts the id (its error is returned and nothing changes), trims name and
        description, decodes the answer (an `unwrap`, hence the second requires) and splits the
        choices on '|'. */
    method RawAdd(env: Env, id: string, name: string, description: string, answer: string,
                  choices: string) returns (ok: bool)
      requires Valid()
      requires env.toInteger(id).Some? ==> env.toChoice(answer).Some?
      modifies this`list
      ensures Valid()
      ensures ok == env.toInteger(id).Some?
      ensures !ok ==> list == old(list)
      ensures ok ==>
        var key := env.toInteger(id).value;
        list == old(list)[key := Quiz(key, Trim(name), Trim(description), env.toChoice(answer).value,
                                      env.splitToVec(choices, '|'), false)]
    {
      var f1 := env.toInteger(id);
      if f1.None? {
        return false;
      }
      var f2 := Trim(name);
      var f3 := Trim(description);
      var f4 := env.toChoice(answer).value;
      var f5 := env.splitToVec(choices, '|');
      Add(f1.value, f2, f3, f4, f5);
      return true;
    }

    /** `get_unasked_question`: `None` exactly when every quiz has been asked, otherwise a copy
        of one of the unasked quizzes; `pick` stands for the random index. */
    function GetUnaskedQuestion(pick: nat -> nat): (r: Option<Quiz>)
      reads this
      requires IsIndexPicker(pick)
      ensures r.None? <==> AllAsked(list)
      ensures r.Some? ==> r.value in list.Values && !r.value.asked
    {
      Draw(list, pick)
    }

    /** `print_pertanyaan`: the name, then "<n>. <description>", then one line per choice,
        lettered from 'A' on. */
    method PrintPertanyaan(quiz: Quiz, quizNumber: nat) returns (lines: seq<string>)
      ensures lines == QuestionLines(quiz, quizNumber)
    {
      lines := [quiz.name, Decimal(quizNumber) + ". " + quiz.description];
      var currOption: nat := 65;
      for k := 0 to |quiz.choices|
        invariant currOption == (65 + k) % 256
        invariant |lines| == 2 + k
        invariant lines[0] == quiz.name
        invariant lines[1] == Decimal(quizNumber) + ". " + quiz.description
        invariant forall j :: 0 <= j < k ==> lines[2 + j] == [Letter(j)] + ". " + quiz.choices[j]
      {
        lines := lines + [[currOption as char] + ". " + quiz.choices[k]];
        currOption := (currOption + 1) % 256;
      }
    }

    /** One round of `ask`'s loop: draw, print, capture and score. `exhausted` is the early `return`
        taken when no unasked question is left. */
    method AskRound(draw: (nat, nat) -> nat, input: nat -> Choice, i: nat, ghost final: Session,
                    out: seq<string>, ghost rounds: seq<Round>)
      returns (out': seq<string>, ghost rounds': seq<Round>, exhausted: bool)
      requires Valid() && i < Budget && IsRoundPicker(draw)
      requires Resumes(final, list, correct, draw, input, i, out, rounds)
      modifies this`list, this`correct
      ensures Valid()
      ensures exhausted ==> Completes(final, list, correct, rounds', out')
      ensures !exhausted ==> Resumes(final, list, correct, draw, input, i + 1, out', rounds')
    {
      var pick := (n: nat) => draw(i, n);
      DrawInRoundIsDraw(list, draw, i, pick);
      var found := GetUnaskedQuestion(pick);
      if found.None? {
        ResumesExhausted(final, list, correct, draw, input, i, out, rounds);
        return out + [NoMoreQuestions], rounds, true;
      }
      out', rounds' := AnswerRound(draw, input, i, final, out, rounds, found.value);
      exhausted := false;
    }

    /** The rest of a round of `ask` that found `question`: print it, capture the answer and
        score it. */
    method AnswerRound(draw: (nat, nat) -> nat, input: nat -> Choice, i: nat, ghost final: Session,
                       out: seq<string>, ghost rounds: seq<Round>, question: Quiz)
      returns (out': seq<string>, ghost rounds': seq<Round>)
      requires Valid() && i < Budget && IsRoundPicker(draw) && DrawInRound(list, draw, i) == Some(question)
      requires Resumes(final, list, correct, draw, input, i, out, rounds)
      modifies this`list, this`correct
      ensures Valid()
      ensures Resumes(final, list, correct, draw, input, i + 1, out', rounds')
    {
      DrawnEntry(list, draw, i);
      var shown := PrintPertanyaan(question, i + 1);
      var answered := input(i);
      ghost var m, c := list, correct;
      out', rounds' := out + shown, rounds + [Round(question, answered)];
      if answered == question.answer {
        correct := correct + 1;
        list := list[question.id := question.(asked := true)];
      }
      ResumesStep(final, m, c, draw, input, i, out, rounds, question, list, correct, out', rounds');
    }

    /** `ask`: up to five rounds of draw, print, capture and score; it stops at the first round
        that finds no unasked question. */
    method Ask(draw: (nat, nat) -> nat, input: nat -> Choice) returns (out: seq<string>, ghost rounds: seq<Round>)
      requires Valid() && IsRoundPicker(draw)
      modifies this`list, this`correct
      ensures Valid()
      ensures var s := AskFrom(old(list), old(correct), draw, input, 0);
              list == s.list && correct == s.correct && rounds == s.rounds && out == Printed(s, 1)
    {
      ghost var final := AskFrom(list, correct, draw, input, 0);
      ResumesStart(list, correct, draw, input);
      out, rounds := [], [];
      var exhausted := false;
      var i := 0;
      while i < Budget && !exhausted
        invariant i <= Budget && Valid()
        invariant !exhausted ==> Resumes(final, list, correct, draw, input, i, out, rounds)
        invariant exhausted ==> Completes(final, list, correct, rounds, out)
      {
        out, rounds, exhausted := AskRound(draw, input, i, final, out, rounds);
        i := i + 1;
      }
      if !exhausted {
        ResumesDone(final, list, correct, draw, input, out, rounds);
      }
    }
  }
}
