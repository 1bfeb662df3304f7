/** What a session of `ask` does to the question bank and what it prints, both for the code as
    written (QuizEngine.AskFrom) and for the behaviour its doc comment describes
    (QuizEngine.AskIntendedFrom). */
module QuizSession {
  import opened Wrappers
  import opened Collaborators
  import opened QuizEngine

  /** The number of rounds answered right. */
  function CountCorrect(rs: seq<Round>): (r: nat)
    ensures r <= |rs|
  {
    if rs == [] then 0 else (if IsCorrect(rs[0]) then 1 else 0) + CountCorrect(rs[1..])
  }

  /** The ids of the questions answered right. */
  function RightIds(rs: seq<Round>): set<u64> {
    if rs == [] then {} else (if IsCorrect(rs[0]) then {rs[0].question.id} else {}) + RightIds(rs[1..])
  }

  /** The ids of all presented questions. */
  function PresentedIds(rs: seq<Round>): set<u64> {
    if rs == [] then {} else {rs[0].question.id} + PresentedIds(rs[1..])
  }

  function Min(a: nat, b: nat): nat {
    if a <= b then a else b
  }

  /** `after` has the keys of `before`, and each of its quizzes differs from the one `before`
      holds under the same key at most by an `asked` flag that was set and never cleared (so a
      bank keyed by id stays keyed by id). */
  ghost predicate KeepsEntries(before: map<u64, Quiz>, after: map<u64, Quiz>) {
    && after.Keys == before.Keys
    && forall id :: id in before ==>
         after[id] == before[id].(asked := after[id].asked) && (before[id].asked ==> after[id].asked)
  }

  /** Every round presents, field for field, an unasked quiz of `m`. */
  ghost predicate PresentsUnasked(m: map<u64, Quiz>, rs: seq<Round>) {
    forall j :: 0 <= j < |rs| ==>
      rs[j].question.id in m && m[rs[j].question.id] == rs[j].question && !rs[j].question.asked
  }

  /** No question answered right is presented in a later round. */
  ghost predicate NoRepeatAfterRight(rs: seq<Round>) {
    forall j, k :: 0 <= j < k < |rs| && IsCorrect(rs[j]) ==> rs[k].question.id != rs[j].question.id
  }

  /** No question is presented twice. */
  ghost predicate DistinctIds(rs: seq<Round>) {
    forall j, k :: 0 <= j < k < |rs| ==> rs[k].question.id != rs[j].question.id
  }

  // ---------------------------------------------------------------------------------------------
  // Facts about banks and rounds, independent of the session.

  /** Reinserting an unasked entry marked asked keeps the entries and removes exactly its id
      from the unasked ids. */
  lemma MarkAsked(m: map<u64, Quiz>, q: Quiz)
    requires KeyedById(m) && q.id in m && m[q.id] == q && !q.asked
    ensures var m' := m[q.id := q.(asked := true)];
            KeepsEntries(m, m') && m'[q.id].asked && q.id in UnaskedIds(m)
            && UnaskedIds(m') == UnaskedIds(m) - {q.id} && |UnaskedIds(m')| == |UnaskedIds(m)| - 1
  {
    var m' := m[q.id := q.(asked := true)];
    assert UnaskedIds(m) == UnaskedIds(m') + {q.id};
  }

  lemma KeepsEntriesRefl(m: map<u64, Quiz>)
    ensures KeepsEntries(m, m)
  {
  }

  lemma KeepsEntriesTrans(m0: map<u64, Quiz>, m1: map<u64, Quiz>, m2: map<u64, Quiz>)
    requires KeepsEntries(m0, m1) && KeepsEntries(m1, m2)
    ensures KeepsEntries(m0, m2)
  {
    forall id | id in m0
      ensures m2[id] == m0[id].(asked := m2[id].asked)
    {
      assert m1[id] == m0[id].(asked := m1[id].asked);
    }
  }

  /** A round presenting an unasked entry of `m`, followed by rounds presenting unasked entries
      of a bank that keeps the entries of `m`, presents unasked entries of `m` throughout. */
  lemma {:induction false} ConsPresents(m: map<u64, Quiz>, m': map<u64, Quiz>, r: Round, rest: seq<Round>)
    requires r.question.id in m && m[r.question.id] == r.question && !r.question.asked
    requires KeepsEntries(m, m') && PresentsUnasked(m', rest)
    ensures PresentsUnasked(m, [r] + rest)
  {
    var rs := [r] + rest;
    forall j | 0 <= j < |rs|
      ensures rs[j].question.id in m && m[rs[j].question.id] == rs[j].question && !rs[j].question.asked
    {
      if j > 0 {
        var p := rest[j - 1].question;
        assert rs[j] == rest[j - 1];
        assert m'[p.id] == m[p.id].(asked := m'[p.id].asked);
      }
    }
  }

  lemma {:induction false} ConsNoRepeat(m': map<u64, Quiz>, r: Round, rest: seq<Round>)
    requires NoRepeatAfterRight(rest) && PresentsUnasked(m', rest)
    requires IsCorrect(r) ==> r.question.id in m' && m'[r.question.id].asked
    ensures NoRepeatAfterRight([r] + rest)
  {
    var rs := [r] + rest;
    forall j, k | 0 <= j < k < |rs| && IsCorrect(rs[j])
      ensures rs[k].question.id != rs[j].question.id
    {
      assert rs[k] == rest[k - 1];
      if j > 0 {
        assert rs[j] == rest[j - 1];
      }
    }
  }

  lemma {:induction false} ConsDistinct(m': map<u64, Quiz>, r: Round, rest: seq<Round>)
    requires DistinctIds(rest) && PresentsUnasked(m', rest)
    requires r.question.id in m' && m'[r.question.id].asked
    ensures DistinctIds([r] + rest)
  {
    var rs := [r] + rest;
    forall j, k | 0 <= j < k < |rs|
      ensures rs[k].question.id != rs[j].question.id
    {
      assert rs[k] == rest[k - 1];
      if j > 0 {
        assert rs[j] == rest[j - 1];
      }
    }
  }

  lemma ConsRounds(r: Round, rest: seq<Round>)
    ensures CountCorrect([r] + rest) == (if IsCorrect(r) then 1 else 0) + CountCorrect(rest)
    ensures RightIds([r] + rest) == (if IsCorrect(r) then {r.question.id} else {}) + RightIds(rest)
    ensures PresentedIds([r] + rest) == {r.question.id} + PresentedIds(rest)
  {
    assert ([r] + rest)[1..] == rest;
  }

  lemma {:induction false} RightIdsMember(rs: seq<Round>, x: u64)
    requires x in RightIds(rs)
    ensures exists j :: 0 <= j < |rs| && IsCorrect(rs[j]) && rs[j].question.id == x
  {
    if !(IsCorrect(rs[0]) && rs[0].question.id == x) {
      RightIdsMember(rs[1..], x);
      var j :| 0 <= j < |rs[1..]| && IsCorrect(rs[1..][j]) && rs[1..][j].question.id == x;
      assert rs[j + 1] == rs[1..][j];
    }
  }

  /** When no question answered right comes back later, the right answers are as many as their
      distinct ids. */
  lemma {:induction false} RightIdsCount(rs: seq<Round>)
    requires NoRepeatAfterRight(rs)
    ensures |RightIds(rs)| == CountCorrect(rs)
  {
    if rs != [] {
      var tail := rs[1..];
      forall j, k | 0 <= j < k < |tail| && IsCorrect(tail[j])
        ensures tail[k].question.id != tail[j].question.id
      {
        assert tail[j] == rs[j + 1] && tail[k] == rs[k + 1];
      }
      RightIdsCount(tail);
      if IsCorrect(rs[0]) && rs[0].question.id in RightIds(tail) {
        RightIdsMember(tail, rs[0].question.id);
        assert false;
      }
    }
  }

  /** In a bank keyed by id, a round that draws `q` draws the unasked entry under `q.id`, leaves a
      bank keyed by id, and steps the session as written by one round. */
  lemma DrawnRound(m: map<u64, Quiz>, c: nat, draw: (nat, nat) -> nat, input: nat -> Choice, i: nat, q: Quiz)
    requires i < Budget && IsRoundPicker(draw) && KeyedById(m) && DrawInRound(m, draw, i) == Some(q)
    ensures q.id in m && m[q.id] == q && !q.asked && KeyedById(AfterAnswer(m, q, input(i)))
    ensures AskFrom(m, c, draw, input, i)
              == Prepend(Round(q, input(i)), AskFrom(AfterAnswer(m, q, input(i)), ScoreAfter(c, q, input(i)), draw, input, i + 1))
  {
    DrawnEntry(m, draw, i);
    AskFromStep(m, c, draw, input, i, q);
  }

  /** `s`, run from round `i` with score `c`, presented at most one round per remaining
      iteration, fewer exactly when it stopped early, and scored one per right answer. */
  predicate Shaped(s: Session, c: nat, i: nat)
    requires i <= Budget
  {
    && |s.rounds| <= Budget - i
    && (s.exhausted <==> |s.rounds| < Budget - i)
    && s.correct == c + CountCorrect(s.rounds)
  }

  /** The quizzes marked asked during `s` are exactly the ones answered right. */
  predicate MarksRight(m: map<u64, Quiz>, s: Session) {
    UnaskedIds(s.list) == UnaskedIds(m) - RightIds(s.rounds)
  }

  // The effect of one more round on each property, stated without the session itself.

  lemma ShapeStep(i: nat, c: nat, q: Quiz, a: Choice, s: Session)
    requires i < Budget && Shaped(s, ScoreAfter(c, q, a), i + 1)
    ensures Shaped(Prepend(Round(q, a), s), c, i)
  {
    ConsRounds(Round(q, a), s.rounds);
  }

  lemma KeepsEntriesStep(m: map<u64, Quiz>, q: Quiz, a: Choice, s: Session)
    requires KeyedById(m) && q.id in m && m[q.id] == q && !q.asked
    requires KeepsEntries(AfterAnswer(m, q, a), s.list)
    ensures KeepsEntries(m, Prepend(Round(q, a), s).list)
  {
    if a == q.answer {
      MarkAsked(m, q);
      KeepsEntriesTrans(m, AfterAnswer(m, q, a), s.list);
    }
  }

  lemma MarksRightStep(m: map<u64, Quiz>, q: Quiz, a: Choice, s: Session)
    requires KeyedById(m) && q.id in m && m[q.id] == q && !q.asked
    requires MarksRight(AfterAnswer(m, q, a), s)
    ensures MarksRight(m, Prepend(Round(q, a), s))
  {
    ConsRounds(Round(q, a), s.rounds);
    if a == q.answer {
      MarkAsked(m, q);
    }
  }

  lemma PresentsStep(m: map<u64, Quiz>, q: Quiz, a: Choice, s: Session)
    requires KeyedById(m) && q.id in m && m[q.id] == q && !q.asked
    requires PresentsUnasked(AfterAnswer(m, q, a), s.rounds)
    ensures PresentsUnasked(m, Prepend(Round(q, a), s).rounds)
  {
    if a == q.answer {
      MarkAsked(m, q);
    } else {
      KeepsEntriesRefl(m);
    }
    ConsPresents(m, AfterAnswer(m, q, a), Round(q, a), s.rounds);
  }

  lemma NoRepeatStep(m: map<u64, Quiz>, q: Quiz, a: Choice, s: Session)
    requires KeyedById(m) && q.id in m && m[q.id] == q && !q.asked
    requires PresentsUnasked(AfterAnswer(m, q, a), s.rounds) && NoRepeatAfterRight(s.rounds)
    ensures NoRepeatAfterRight(Prepend(Round(q, a), s).rounds)
  {
    if a == q.answer {
      MarkAsked(m, q);
    }
    ConsNoRepeat(AfterAnswer(m, q, a), Round(q, a), s.rounds);
  }

  // ---------------------------------------------------------------------------------------------
  // The session as written.

  /** At most one round per remaining iteration, and fewer exactly when the session stopped
      early (so `ask` prints the "no more questions" line exactly then); the score grows by one
      per right answer. */
  lemma {:induction false} SessionShape(m: map<u64, Quiz>, c: nat, draw: (nat, nat) -> nat,
                                        input: nat -> Choice, i: nat)
    requires i <= Budget && IsRoundPicker(draw)
    ensures Shaped(AskFrom(m, c, draw, input, i), c, i)
    decreases Budget - i
  {
    if i < Budget {
      match DrawInRound(m, draw, i)
      case None =>
        AskFromExhausted(m, c, draw, input, i);
      case Some(q) =>
        var m', c' := AfterAnswer(m, q, input(i)), ScoreAfter(c, q, input(i));
        AskFromStep(m, c, draw, input, i, q);
        SessionShape(m', c', draw, input, i + 1);
        ShapeStep(i, c, q, input(i), AskFrom(m', c', draw, input, i + 1));
    }
  }

  /** A session stops early only once every quiz has been asked. */
  lemma {:induction false} SessionStopsWhenAllAsked(m: map<u64, Quiz>, c: nat, draw: (nat, nat) -> nat,
                                                    input: nat -> Choice, i: nat)
    requires i <= Budget && IsRoundPicker(draw)
    ensures var s := AskFrom(m, c, draw, input, i); s.exhausted ==> AllAsked(s.list)
    decreases Budget - i
  {
    if i < Budget {
      match DrawInRound(m, draw, i)
      case None =>
        DrawInRoundSpec(m, draw, i);
        AskFromExhausted(m, c, draw, input, i);
      case Some(q) =>
        var m', c' := AfterAnswer(m, q, input(i)), ScoreAfter(c, q, input(i));
        AskFromStep(m, c, draw, input, i, q);
        SessionStopsWhenAllAsked(m', c', draw, input, i + 1);
    }
  }

  /** A session keeps every key and the id under which each quiz is stored, changes no quiz but
      for setting its `asked` flag, and never clears a flag. */
  lemma {:induction false} SessionKeepsEntries(m: map<u64, Quiz>, c: nat, draw: (nat, nat) -> nat,
                                               input: nat -> Choice, i: nat)
    requires i <= Budget && IsRoundPicker(draw) && KeyedById(m)
    ensures KeepsEntries(m, AskFrom(m, c, draw, input, i).list)
    decreases Budget - i
  {
    if i < Budget {
      match DrawInRound(m, draw, i)
      case None =>
        AskFromExhausted(m, c, draw, input, i);
        KeepsEntriesRefl(m);
      case Some(q) =>
        var m', c' := AfterAnswer(m, q, input(i)), ScoreAfter(c, q, input(i));
        DrawnRound(m, c, draw, input, i, q);
        SessionKeepsEntries(m', c', draw, input, i + 1);
        KeepsEntriesStep(m, q, input(i), AskFrom(m', c', draw, input, i + 1));
    } else {
      KeepsEntriesRefl(m);
    }
  }

  /** The quizzes a session marks asked are exactly the ones answered right. */
  lemma {:induction false} SessionMarksRight(m: map<u64, Quiz>, c: nat, draw: (nat, nat) -> nat,
                                             input: nat -> Choice, i: nat)
    requires i <= Budget && IsRoundPicker(draw) && KeyedById(m)
    ensures MarksRight(m, AskFrom(m, c, draw, input, i))
    decreases Budget - i
  {
    if i < Budget {
      match DrawInRound(m, draw, i)
      case None =>
        AskFromExhausted(m, c, draw, input, i);
      case Some(q) =>
        var m', c' := AfterAnswer(m, q, input(i)), ScoreAfter(c, q, input(i));
        DrawnRound(m, c, draw, input, i, q);
        SessionMarksRight(m', c', draw, input, i + 1);
        MarksRightStep(m, q, input(i), AskFrom(m', c', draw, input, i + 1));
    }
  }

  /** Every presented question is, field for field, an unasked quiz of the bank the session
      started from. */
  lemma {:induction false} SessionPresentsUnasked(m: map<u64, Quiz>, c: nat, draw: (nat, nat) -> nat,
                                                  input: nat -> Choice, i: nat)
    requires i <= Budget && IsRoundPicker(draw) && KeyedById(m)
    ensures PresentsUnasked(m, AskFrom(m, c, draw, input, i).rounds)
    decreases Budget - i
  {
    if i < Budget {
      match DrawInRound(m, draw, i)
      case None =>
        AskFromExhausted(m, c, draw, input, i);
      case Some(q) =>
        var m', c' := AfterAnswer(m, q, input(i)), ScoreAfter(c, q, input(i));
        DrawnRound(m, c, draw, input, i, q);
        SessionPresentsUnasked(m', c', draw, input, i + 1);
        PresentsStep(m, q, input(i), AskFrom(m', c', draw, input, i + 1));
    }
  }

  /** A question answered right is never presented again within the session. */
  lemma {:induction false} SessionNoRepeatAfterRight(m: map<u64, Quiz>, c: nat, draw: (nat, nat) -> nat,
                                                     input: nat -> Choice, i: nat)
    requires i <= Budget && IsRoundPicker(draw) && KeyedById(m)
    ensures NoRepeatAfterRight(AskFrom(m, c, draw, input, i).rounds)
    decreases Budget - i
  {
    if i < Budget {
      match DrawInRound(m, draw, i)
      case None =>
        AskFromExhausted(m, c, draw, input, i);
      case Some(q) =>
        var m', c' := AfterAnswer(m, q, input(i)), ScoreAfter(c, q, input(i));
        DrawnRound(m, c, draw, input, i, q);
        SessionPresentsUnasked(m', c', draw, input, i + 1);
        SessionNoRepeatAfterRight(m', c', draw, input, i + 1);
        NoRepeatStep(m, q, input(i), AskFrom(m', c', draw, input, i + 1));
    }
  }

  /** The score a session adds is the number of quizzes it marks asked, so it is bounded both by
      the remaining rounds and by the number of unasked quizzes. */
  lemma SessionScore(m: map<u64, Quiz>, c: nat, draw: (nat, nat) -> nat, input: nat -> Choice, i: nat)
    requires i <= Budget && IsRoundPicker(draw) && KeyedById(m)
    ensures var s := AskFrom(m, c, draw, input, i);
            && c <= s.correct
            && |UnaskedIds(m)| == |UnaskedIds(s.list)| + (s.correct - c)
            && s.correct - c <= Min(Budget - i, |UnaskedIds(m)|)
  {
    var s := AskFrom(m, c, draw, input, i);
    SessionShape(m, c, draw, input, i);
    SessionMarksRight(m, c, draw, input, i);
    SessionPresentsUnasked(m, c, draw, input, i);
    SessionNoRepeatAfterRight(m, c, draw, input, i);
    RightIdsCount(s.rounds);
    var u := UnaskedIds(m);
    var r := RightIds(s.rounds);
    forall x | x in r
      ensures x in u
    {
      RightIdsMember(s.rounds, x);
    }
    assert u == (u - r) + r;
    assert (u - r) * r == {};
  }

  /** Whatever the iteration order of the map, every unasked quiz is the result of some draw. */
  lemma EveryUnaskedCanBeDrawn(m: map<u64, Quiz>, id: u64) returns (pick: nat -> nat)
    requires id in m && !m[id].asked
    ensures IsIndexPicker(pick) && Draw(m, pick) == Some(m[id])
  {
    UnaskedComplete(m, id);
    var xs := Unasked(m);
    var j :| 0 <= j < |xs| && xs[j] == m[id];
    pick := (n: nat) => if n == |xs| then j else 0;
  }

  // ---------------------------------------------------------------------------------------------
  // The session as its doc comment describes it.

  /** In a bank keyed by id, a round that draws `q` draws the unasked entry under `q.id` and
      steps the session as intended by one round. */
  lemma DrawnIntendedRound(m: map<u64, Quiz>, c: nat, draw: (nat, nat) -> nat, input: nat -> Choice, i: nat, q: Quiz)
    requires i < Budget && IsRoundPicker(draw) && KeyedById(m) && DrawInRound(m, draw, i) == Some(q)
    ensures q.id in m && m[q.id] == q && !q.asked && KeyedById(m[q.id := q.(asked := true)])
    ensures AskIntendedFrom(m, c, draw, input, i)
              == Prepend(Round(q, input(i)),
                         AskIntendedFrom(m[q.id := q.(asked := true)], ScoreAfter(c, q, input(i)), draw, input, i + 1))
  {
    DrawnEntry(m, draw, i);
    AskIntendedStep(m, c, draw, input, i, q);
  }

  /** `s` marks asked exactly the quizzes it presents. */
  predicate MarksPresented(m: map<u64, Quiz>, s: Session) {
    UnaskedIds(s.list) == UnaskedIds(m) - PresentedIds(s.rounds)
  }

  /** `s`, run from round `i` with score `c` on `m`, presented as many rounds as there are
      rounds left or unasked quizzes in `m`, whichever is fewer, and scored the right answers. */
  predicate IntendedShaped(m: map<u64, Quiz>, s: Session, c: nat, i: nat)
    requires i <= Budget
  {
    |s.rounds| == Min(Budget - i, |UnaskedIds(m)|) && s.correct == c + CountCorrect(s.rounds)
  }

  lemma IntendedKeepsStep(m: map<u64, Quiz>, q: Quiz, a: Choice, s: Session)
    requires KeyedById(m) && q.id in m && m[q.id] == q && !q.asked
    requires KeepsEntries(m[q.id := q.(asked := true)], s.list)
    ensures KeepsEntries(m, Prepend(Round(q, a), s).list)
  {
    MarkAsked(m, q);
    KeepsEntriesTrans(m, m[q.id := q.(asked := true)], s.list);
  }

  lemma MarksPresentedStep(m: map<u64, Quiz>, q: Quiz, a: Choice, s: Session)
    requires KeyedById(m) && q.id in m && m[q.id] == q && !q.asked
    requires MarksPresented(m[q.id := q.(asked := true)], s)
    ensures MarksPresented(m, Prepend(Round(q, a), s))
  {
    MarkAsked(m, q);
    ConsRounds(Round(q, a), s.rounds);
  }

  lemma DistinctStep(m: map<u64, Quiz>, q: Quiz, a: Choice, s: Session)
    requires KeyedById(m) && q.id in m && m[q.id] == q && !q.asked
    requires PresentsUnasked(m[q.id := q.(asked := true)], s.rounds) && DistinctIds(s.rounds)
    ensures PresentsUnasked(m, Prepend(Round(q, a), s).rounds) && DistinctIds(Prepend(Round(q, a), s).rounds)
  {
    var m' := m[q.id := q.(asked := true)];
    MarkAsked(m, q);
    ConsPresents(m, m', Round(q, a), s.rounds);
    ConsDistinct(m', Round(q, a), s.rounds);
  }

  lemma IntendedShapeStep(m: map<u64, Quiz>, q: Quiz, a: Choice, c: nat, i: nat, s: Session)
    requires i < Budget && KeyedById(m) && q.id in m && m[q.id] == q && !q.asked
    requires IntendedShaped(m[q.id := q.(asked := true)], s, ScoreAfter(c, q, a), i + 1)
    ensures IntendedShaped(m, Prepend(Round(q, a), s), c, i)
  {
    MarkAsked(m, q);
    ConsRounds(Round(q, a), s.rounds);
  }

  /** When every question is marked as soon as it is presented, a session keeps the entries
      of the bank in the sense of the session as written, ... */
  lemma {:induction false} IntendedKeepsEntries(m: map<u64, Quiz>, c: nat, draw: (nat, nat) -> nat,
                                                input: nat -> Choice, i: nat)
    requires i <= Budget && IsRoundPicker(draw) && KeyedById(m)
    ensures KeepsEntries(m, AskIntendedFrom(m, c, draw, input, i).list)
    decreases Budget - i
  {
    if i < Budget {
      match DrawInRound(m, draw, i)
      case None =>
        AskFromExhausted(m, c, draw, input, i);
        KeepsEntriesRefl(m);
      case Some(q) =>
        var m', c' := m[q.id := q.(asked := true)], ScoreAfter(c, q, input(i));
        DrawnIntendedRound(m, c, draw, input, i, q);
        IntendedKeepsEntries(m', c', draw, input, i + 1);
        IntendedKeepsStep(m, q, input(i), AskIntendedFrom(m', c', draw, input, i + 1));
    } else {
      KeepsEntriesRefl(m);
    }
  }

  /** ... marks asked exactly the questions it presents, ... */
  lemma {:induction false} IntendedMarksPresented(m: map<u64, Quiz>, c: nat, draw: (nat, nat) -> nat,
                                                  input: nat -> Choice, i: nat)
    requires i <= Budget && IsRoundPicker(draw) && KeyedById(m)
    ensures MarksPresented(m, AskIntendedFrom(m, c, draw, input, i))
    decreases Budget - i
  {
    if i < Budget {
      match DrawInRound(m, draw, i)
      case None =>
        AskFromExhausted(m, c, draw, input, i);
      case Some(q) =>
        var m', c' := m[q.id := q.(asked := true)], ScoreAfter(c, q, input(i));
        DrawnIntendedRound(m, c, draw, input, i, q);
        IntendedMarksPresented(m', c', draw, input, i + 1);
        MarksPresentedStep(m, q, input(i), AskIntendedFrom(m', c', draw, input, i + 1));
    }
  }

  /** ... and presents unasked quizzes of the bank, each at most once. */
  lemma {:induction false} IntendedPresentsDistinct(m: map<u64, Quiz>, c: nat, draw: (nat, nat) -> nat,
                                                    input: nat -> Choice, i: nat)
    requires i <= Budget && IsRoundPicker(draw) && KeyedById(m)
    ensures var s := AskIntendedFrom(m, c, draw, input, i);
            PresentsUnasked(m, s.rounds) && DistinctIds(s.rounds)
    decreases Budget - i
  {
    if i < Budget {
      match DrawInRound(m, draw, i)
      case None =>
        AskFromExhausted(m, c, draw, input, i);
      case Some(q) =>
        var m', c' := m[q.id := q.(asked := true)], ScoreAfter(c, q, input(i));
        DrawnIntendedRound(m, c, draw, input, i, q);
        IntendedPresentsDistinct(m', c', draw, input, i + 1);
        DistinctStep(m, q, input(i), AskIntendedFrom(m', c', draw, input, i + 1));
    }
  }

  /** ... and it presents as many of them as there are rounds left or unasked quizzes, whichever
      is fewer, scoring the right answers. */
  lemma {:induction false} IntendedLength(m: map<u64, Quiz>, c: nat, draw: (nat, nat) -> nat,
                                          input: nat -> Choice, i: nat)
    requires i <= Budget && IsRoundPicker(draw) && KeyedById(m)
    ensures IntendedShaped(m, AskIntendedFrom(m, c, draw, input, i), c, i)
    decreases Budget - i
  {
    if i < Budget {
      match DrawInRound(m, draw, i)
      case None =>
        DrawInRoundSpec(m, draw, i);
        AskFromExhausted(m, c, draw, input, i);
        assert UnaskedIds(m) == {};
      case Some(q) =>
        var m', c' := m[q.id := q.(asked := true)], ScoreAfter(c, q, input(i));
        DrawnIntendedRound(m, c, draw, input, i, q);
        IntendedLength(m', c', draw, input, i + 1);
        IntendedShapeStep(m, q, input(i), c, i, AskIntendedFrom(m', c', draw, input, i + 1));
    }
  }

  // ---------------------------------------------------------------------------------------------
  // The discrepancy between the two.

  /** A bank holding a single unasked question whose answer is A. */
  function LoneBank(): map<u64, Quiz> {
    map[7 := Quiz(7, "Q", "D", A, ["x", "y"], false)]
  }

  /** While the answer is wrong every round and the drawn quiz stays the same, the session as
      written presents that quiz in every remaining round and changes nothing. */
  lemma {:induction false} RepeatsWhileWrong(m: map<u64, Quiz>, c: nat, draw: (nat, nat) -> nat,
                                             input: nat -> Choice, i: nat, q: Quiz)
    requires i <= Budget && IsRoundPicker(draw)
    requires forall k :: i <= k < Budget ==> DrawInRound(m, draw, k) == Some(q) && input(k) != q.answer
    ensures var s := AskFrom(m, c, draw, input, i);
            && s.list == m && s.correct == c && |s.rounds| == Budget - i
            && forall j :: 0 <= j < |s.rounds| ==> s.rounds[j].question == q
    decreases Budget - i
  {
    if i < Budget {
      AskFromStep(m, c, draw, input, i, q);
      RepeatsWhileWrong(m, c, draw, input, i + 1, q);
      var next := AskFrom(m, c, draw, input, i + 1);
      var rs := [Round(q, input(i))] + next.rounds;
      forall j | 0 <= j < |rs|
        ensures rs[j].question == q
      {
        if j > 0 {
          assert rs[j] == next.rounds[j - 1];
        }
      }
    }
  }

  /** With one unasked question answered wrong every time, `ask` as written presents it in all
      five rounds, whereas a session that marks every presented question presents it once. */
  lemma LoneQuestionIsRepeated(draw: (nat, nat) -> nat, input: nat -> Choice)
    requires IsRoundPicker(draw) && forall k :: input(k) == B
    ensures |AskFrom(LoneBank(), 0, draw, input, 0).rounds| == Budget
    ensures forall j :: 0 <= j < Budget ==> AskFrom(LoneBank(), 0, draw, input, 0).rounds[j].question == LoneBank()[7]
    ensures |AskIntendedFrom(LoneBank(), 0, draw, input, 0).rounds| == 1
  {
    var m := LoneBank();
    var q := m[7];
    assert m.Keys == {7};
    assert MinKey({7}) == 7;
    assert UnaskedIn(m, {7} - {7}) == [];
    assert Unasked(m) == [q];
    forall k | 0 <= k < Budget
      ensures DrawInRound(m, draw, k) == Some(q) && input(k) != q.answer
    {
    }
    RepeatsWhileWrong(m, 0, draw, input, 0, q);
    IntendedLength(m, 0, draw, input, 0);
    assert UnaskedIds(m) == {7};
  }
}
