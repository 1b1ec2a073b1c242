/**
 * `WrongQuestion`: a user's record of a question answered wrongly, with how often,
 * when last, the last score, and whether the user has since mastered it. There is at
 * most one record per (user, question).
 *
 * `last_wrong_at` is an `auto_now` field, so every `save()` stamps it with the save
 * time, and both operations end in `save()`. `MarkAsMasteredAsWritten` keeps that
 * behaviour; `MarkAsMastered` is the corrected operation the rest of the model uses,
 * which leaves the stamp alone.
 */
module WrongQuestions {
  import opened Wrappers
  import opened Db

  datatype WrongQuestion = WrongQuestion(
    user: nat,
    question: nat,
    wrongCount: int,
    lastWrongAt: Time,
    lastScore: real,
    mastered: bool,
    masteredAt: Option<Time>,
    notes: string,
    createdAt: Time)

  /** The table, keyed by the `unique_together` pair. */
  type Book = map<(nat, nat), WrongQuestion>

  /** `objects.create(user=..., question=..., last_score=...)` with every other field at its default. */
  function Create(book: Book, user: nat, question: nat, lastScore: real, now: Time)
    : (r: Result<(Book, WrongQuestion), IntegrityError>)
    ensures r.Err? <==> (user, question) in book
    ensures r.Ok? ==> var (b, w) := r.value;
      && w.wrongCount == 1 && !w.mastered && w.masteredAt.None?
      && w.lastScore == lastScore && w.createdAt == now && w.lastWrongAt == now
      && b == book[(user, question) := w]
  {
    if (user, question) in book then Err(UniqueViolation(["user", "question"]))
    else
      var w := WrongQuestion(user, question, 1, now, lastScore, false, None, "", now);
      Ok((book[(user, question) := w], w))
  }

  /** `increment_wrong_count(score)`: one more wrong answer, with its score; mastery is revoked. */
  function IncrementWrongCount(w: WrongQuestion, score: real, now: Time): (v: WrongQuestion)
    ensures v.wrongCount == w.wrongCount + 1
    ensures v.lastScore == score && !v.mastered && v.masteredAt.None?
    ensures v.lastWrongAt == now
    ensures v.user == w.user && v.question == w.question && v.notes == w.notes && v.createdAt == w.createdAt
  {
    w.(wrongCount := w.wrongCount + 1, lastScore := score, mastered := false, masteredAt := None, lastWrongAt := now)
  }

  /** `mark_as_mastered` as written: the plain `save()` also restamps `last_wrong_at`. */
  function MarkAsMasteredAsWritten(w: WrongQuestion, now: Time): (v: WrongQuestion)
    ensures v.mastered && v.masteredAt == Some(now)
    ensures v.wrongCount == w.wrongCount && v.lastScore == w.lastScore
  {
    w.(mastered := true, masteredAt := Some(now), lastWrongAt := now)
  }

  /** Mastering a question moves its "last answered wrong" time to the moment of mastering. */
  lemma MasteringRestampsLastWrong(w: WrongQuestion, now: Time)
    requires w.lastWrongAt < now
    ensures var v := MarkAsMasteredAsWritten(w, now);
      v.wrongCount == w.wrongCount && v.lastWrongAt != w.lastWrongAt && v.lastWrongAt == now
  {
  }

  /** `mark_as_mastered` as intended: mastered from `now`, nothing else changed. */
  function MarkAsMastered(w: WrongQuestion, now: Time): (v: WrongQuestion)
    ensures v.mastered && v.masteredAt == Some(now)
    ensures v.wrongCount == w.wrongCount && v.lastScore == w.lastScore && v.lastWrongAt == w.lastWrongAt
    ensures v.(mastered := w.mastered, masteredAt := w.masteredAt) == w
  {
    w.(mastered := true, masteredAt := Some(now))
  }

  /** What can happen to a record: another wrong answer, or the user marking it mastered. */
  datatype Event = Wrong(score: real, at: Time) | Mastered(at: Time)

  function Apply(w: WrongQuestion, e: Event): WrongQuestion
  {
    match e
    case Wrong(score, at) => IncrementWrongCount(w, score, at)
    case Mastered(at) => MarkAsMastered(w, at)
  }

  function Replay(w: WrongQuestion, events: seq<Event>): WrongQuestion
    decreases |events|
  {
    if |events| == 0 then w else Replay(Apply(w, events[0]), events[1..])
  }

  function WrongCount(events: seq<Event>): nat
  {
    if |events| == 0 then 0 else (if events[0].Wrong? then 1 else 0) + WrongCount(events[1..])
  }

  /** The time of the last wrong answer among the events, or `since` when there is none. */
  function LastWrongTime(since: Time, events: seq<Event>): Time
    decreases |events|
  {
    if |events| == 0 then since
    else LastWrongTime(if events[0].Wrong? then events[0].at else since, events[1..])
  }

  /**
   * With the corrected mastering, after any history of wrong answers and masterings,
   * the count is the number of wrong answers added to the start, `last_wrong_at` is
   * the time of the last wrong answer, and the record is mastered exactly when the
   * last event was a mastering.
   */
  lemma {:induction false} ReplaySpec(w: WrongQuestion, events: seq<Event>)
    ensures var v := Replay(w, events);
      && v.wrongCount == w.wrongCount + WrongCount(events)
      && v.lastWrongAt == LastWrongTime(w.lastWrongAt, events)
      && v.mastered == (if |events| == 0 then w.mastered else events[|events| - 1].Mastered?)
      && v.user == w.user && v.question == w.question
    decreases |events|
  {
    if |events| > 0 {
      ReplaySpec(Apply(w, events[0]), events[1..]);
      if |events| > 1 {
        assert events[1..][|events[1..]| - 1] == events[|events| - 1];
      }
    }
  }

  /** The same history as the source runs it: every mastering restamps `last_wrong_at` too. */
  function ApplyAsWritten(w: WrongQuestion, e: Event): WrongQuestion
  {
    match e
    case Wrong(score, at) => IncrementWrongCount(w, score, at)
    case Mastered(at) => MarkAsMasteredAsWritten(w, at)
  }

  function ReplayAsWritten(w: WrongQuestion, events: seq<Event>): WrongQuestion
    decreases |events|
  {
    if |events| == 0 then w else ReplayAsWritten(ApplyAsWritten(w, events[0]), events[1..])
  }

  /**
   * As written, the count and the mastered flag come out as in the corrected history,
   * but `last_wrong_at` is the time of the last event of either kind, so after a
   * mastering it no longer records a wrong answer.
   */
  lemma {:induction false} ReplayAsWrittenSpec(w: WrongQuestion, events: seq<Event>)
    ensures var v := ReplayAsWritten(w, events);
      && v.wrongCount == w.wrongCount + WrongCount(events)
      && v.lastWrongAt == (if |events| == 0 then w.lastWrongAt else events[|events| - 1].at)
      && v.mastered == (if |events| == 0 then w.mastered else events[|events| - 1].Mastered?)
      && v.user == w.user && v.question == w.question
    decreases |events|
  {
    if |events| > 0 {
      ReplayAsWrittenSpec(ApplyAsWritten(w, events[0]), events[1..]);
      if |events| > 1 {
        assert events[1..][|events[1..]| - 1] == events[|events| - 1];
      }
    }
  }

  /** A fresh record holds exactly one wrong answer and is not mastered. */
  lemma NewRecordDefaults(book: Book, user: nat, question: nat, lastScore: real, now: Time)
    requires (user, question) !in book
    ensures var (b, w) := Create(book, user, question, lastScore, now).value;
      && w.wrongCount == 1 && !w.mastered
      && (user, question) in b && b[(user, question)] == w
      && Create(b, user, question, lastScore, now).Err?
  {
  }
}
