/**
 Answering questions and completing lessons (src/learning/learning.service.ts:294-490), for one user on a
 fixed catalogue. The user-wide lock makes each answer one transaction, so answers come one at a time
 in any order, from any number of devices, with daily rewards in between.
 */
module Learning {
  import opened Common
  import opened ExperienceLedger
  import Curve = ExperienceCurve

  type QuestionKey = string
  type OptionKey = string

  datatype LessonModule = LessonModule(published: bool, completionXp: int)
  datatype Question = Question(lesson: ModuleKey, active: bool, required: bool, version: nat, options: set<OptionKey>, correct: OptionKey)
  datatype Catalogue = Catalogue(modules: map<ModuleKey, LessonModule>, questions: map<QuestionKey, Question>, introXp: nat)
  {
    /** Every question belongs to a module. */
    predicate Valid() {
      forall q :: q in questions ==> questions[q].lesson in modules
    }
  }

  const INTRO_LESSON_KEYS := {"M1", "M2", "M3", "M4", "M5"}

  datatype Progress = Progress(attempts: nat, firstCorrectAt: Option<nat>, lastAnsweredAt: nat, lastSelected: OptionKey, lastVersion: nat)

  // ----- What the answers are worth -----

  function Required(cat: Catalogue, lesson: ModuleKey): set<QuestionKey> {
    set q | q in cat.questions && cat.questions[q].lesson == lesson && cat.questions[q].active && cat.questions[q].required
  }

  /** A lesson is complete when all of its required questions, and there is one, were once answered right. */
  ghost predicate Complete(cat: Catalogue, correct: set<QuestionKey>, lesson: ModuleKey) {
    && (exists q :: q in cat.questions && cat.questions[q].lesson == lesson && cat.questions[q].active && cat.questions[q].required)
    && (forall q :: q in cat.questions && cat.questions[q].lesson == lesson && cat.questions[q].active && cat.questions[q].required ==>
          q in correct)
  }

  lemma CompleteIsRequired(cat: Catalogue, correct: set<QuestionKey>, lesson: ModuleKey)
    ensures Complete(cat, correct, lesson) <==> Required(cat, lesson) != {} && Required(cat, lesson) <= correct
  {
    if Complete(cat, correct, lesson) {
      var q :| q in cat.questions && cat.questions[q].lesson == lesson && cat.questions[q].active && cat.questions[q].required;
      assert q in Required(cat, lesson);
    }
  }

  ghost predicate IntroComplete(cat: Catalogue, correct: set<QuestionKey>) {
    forall key :: key in INTRO_LESSON_KEYS ==> key in cat.modules && cat.modules[key].published && Complete(cat, correct, key)
  }

  ghost predicate PaysLesson(cat: Catalogue, correct: set<QuestionKey>, lesson: ModuleKey) {
    lesson in cat.modules && Complete(cat, correct, lesson) && cat.modules[lesson].completionXp > 0
  }

  ghost predicate PaysIntro(cat: Catalogue, correct: set<QuestionKey>) {
    IntroComplete(cat, correct) && cat.introXp > 0
  }

  /** The learning entries of the ledger are exactly what the right answers have earned. */
  ghost predicate Awarded(cat: Catalogue, correct: set<QuestionKey>, entries: map<Source, nat>) {
    && (forall k :: Lesson(k) in entries <==> PaysLesson(cat, correct, k))
    && (forall k :: Lesson(k) in entries ==> entries[Lesson(k)] == cat.modules[k].completionXp)
    && (Introduction in entries <==> PaysIntro(cat, correct))
    && (Introduction in entries ==> entries[Introduction] == cat.introXp)
  }

  ghost function LearningXp(entries: map<Source, nat>): nat {
    SumOf(map s | s in entries && !s.DailyReward? :: entries[s])
  }

  ghost function LessonXp(cat: Catalogue, correct: set<QuestionKey>): nat {
    SumOf(map k | k in cat.modules && PaysLesson(cat, correct, k) :: cat.modules[k].completionXp)
  }

  lemma {:induction false} SameLessonTotal(lessons: map<ModuleKey, nat>, entries: map<Source, nat>)
    requires forall s :: s in entries ==> s.Lesson? && s.key in lessons && entries[s] == lessons[s.key]
    requires forall k :: k in lessons ==> Lesson(k) in entries
    ensures SumOf(entries) == SumOf(lessons)
    decreases |lessons|
  {
    if lessons == map[] {
      assert entries == map[];
    } else {
      var k :| k in lessons;
      SumWithout(lessons, k);
      SumWithout(entries, Lesson(k));
      SameLessonTotal(lessons - {k}, entries - {Lesson(k)});
    }
  }

  /**
   Whatever the answers and their order, learning XP is the sum over the lessons completed, plus the
   introduction bonus exactly when all five of its lessons are complete.
   */
  lemma LearningXpIsEarned(cat: Catalogue, correct: set<QuestionKey>, entries: map<Source, nat>)
    requires Awarded(cat, correct, entries)
    ensures LearningXp(entries) == LessonXp(cat, correct) + if IntroComplete(cat, correct) then cat.introXp else 0
  {
    var learning := map s | s in entries && !s.DailyReward? :: entries[s];
    var lessons := map k | k in cat.modules && PaysLesson(cat, correct, k) :: cat.modules[k].completionXp;
    hide Complete, IntroComplete;
    SameLessonTotal(lessons, learning - {Introduction});
    if Introduction in learning {
      SumWithout(learning, Introduction);
    } else {
      assert learning - {Introduction} == learning;
    }
  }

  datatype AnswerError = QuestionNotFound | VersionStale | OptionNotFound | Unavailable

  datatype Answer = Answer(correct: bool, firstCorrect: bool, lessonCompleted: bool, moduleCompleted: bool,
                           xpAwarded: nat, lessonXp: nat, introXp: nat, totalXp: nat, levelBefore: nat, levelAfter: nat,
                           correctRequired: nat, required: nat)

  /** Only active questions of published modules are answered. */
  ghost predicate Askable(cat: Catalogue, questions: set<QuestionKey>)
    requires cat.Valid()
  {
    forall q :: q in questions ==> q in cat.questions && cat.questions[q].active && cat.modules[cat.questions[q].lesson].published
  }

  class LearningService {
    const cat: Catalogue
    const ledger: Ledger
    var answers: map<QuestionKey, Progress>
    var completedAt: map<ModuleKey, Option<nat>>

    ghost function Correct(): set<QuestionKey>
      reads this`answers
    {
      set q | q in answers && answers[q].firstCorrectAt.Some?
    }

    ghost predicate Valid()
      reads this, ledger
    {
      && cat.Valid() && ledger.Valid()
      && Askable(cat, answers.Keys)
      && (forall k :: k in completedAt && completedAt[k].Some? <==> Complete(cat, Correct(), k))
      && Awarded(cat, Correct(), ledger.entries)
    }

    constructor (cat: Catalogue, rewards: map<RewardId, Reward>)
      requires cat.Valid()
      ensures Valid() && this.cat == cat && ledger.rewards == rewards && fresh(ledger) && answers == map[]
    {
      this.cat := cat;
      answers, completedAt := map[], map[];
      var l := new Ledger(rewards);
      ledger := l;
      new;
      assert Correct() == {};
      assert "M1" in INTRO_LESSON_KEYS;
    }

    /** The question is there to be answered. */
    ghost predicate IsAsked(question: QuestionKey)
      requires cat.Valid()
    {
      question in cat.questions && cat.questions[question].active && cat.modules[cat.questions[question].lesson].published
    }

    /** Records the attempt; only a first right answer adds to what is known as correct. */
    method RecordAttempt(question: QuestionKey, option: OptionKey, now: nat) returns (correct: bool, firstCorrect: bool)
      requires Valid() && question in cat.questions && cat.questions[question].active
      requires cat.modules[cat.questions[question].lesson].published
      modifies this`answers
      ensures correct <==> option == cat.questions[question].correct
      ensures firstCorrect <==> correct && question !in old(Correct())
      ensures Correct() == if correct then old(Correct()) + {question} else old(Correct())
      ensures answers.Keys == old(answers.Keys) + {question} && Askable(cat, answers.Keys)
      ensures answers[question].attempts == 1 + if question in old(answers) then old(answers[question].attempts) else 0
      ensures question in old(answers) && old(answers[question]).firstCorrectAt.Some? ==>
                answers[question].firstCorrectAt == old(answers[question]).firstCorrectAt
      ensures forall q :: q in old(answers) && q != question ==> answers[q] == old(answers[q])
    {
      correct := option == cat.questions[question].correct;
      var prior := if question in answers then Some(answers[question]) else None;
      firstCorrect := correct && (prior.None? || prior.value.firstCorrectAt.None?);
      var version := cat.questions[question].version;
      if prior.None? {
        answers := answers[question := Progress(1, if correct then Some(now) else None, now, option, version)];
      } else {
        var first := if firstCorrect then Some(now) else prior.value.firstCorrectAt;
        answers := answers[question := Progress(prior.value.attempts + 1, first, now, option, version)];
      }
    }

    /** The two counts the code compares decide exactly whether every required question was once right. */
    method CountRequired(lesson: ModuleKey) returns (correctCount: nat, requiredCount: nat)
      requires cat.Valid()
      ensures requiredCount == |Required(cat, lesson)| && correctCount == |Required(cat, lesson) * Correct()|
      ensures requiredCount > 0 && correctCount >= requiredCount <==> Complete(cat, Correct(), lesson)
    {
      var required := Required(cat, lesson);
      var right := set q | q in required && q in answers && answers[q].firstCorrectAt.Some?;
      assert right == required * Correct();
      CountDecides(right, required);
      CompleteIsRequired(cat, Correct(), lesson);
      return |right|, |required|;
    }

    method CountIntro() returns (complete: bool)
      requires forall k :: k in completedAt && completedAt[k].Some? <==> Complete(cat, Correct(), k)
      ensures complete <==> IntroComplete(cat, Correct())
    {
      var published := set k | k in INTRO_LESSON_KEYS && k in cat.modules && cat.modules[k].published;
      var completed := set k | k in published && k in completedAt && completedAt[k].Some?;
      CountDecides(published, INTRO_LESSON_KEYS);
      CountDecides(completed, INTRO_LESSON_KEYS);
      complete := |published| == |INTRO_LESSON_KEYS| && |completed| >= |INTRO_LESSON_KEYS|;
    }

    method RecordCompletion(lesson: ModuleKey, complete: bool, now: nat, ghost before: set<QuestionKey>) returns (completedNow: bool)
      requires complete <==> Complete(cat, Correct(), lesson)
      requires OnlyLesson(cat, before, Correct(), lesson)
      requires forall k :: k in completedAt && completedAt[k].Some? <==> Complete(cat, before, k)
      modifies this`completedAt
      ensures forall k :: k in completedAt && completedAt[k].Some? <==> Complete(cat, Correct(), k)
      ensures completedNow <==> complete && !Complete(cat, before, lesson)
      ensures forall k :: k in old(completedAt) && old(completedAt[k]).Some? ==> k in completedAt && completedAt[k] == old(completedAt[k])
    {
      hide Complete;
      var prior := if lesson in completedAt then completedAt[lesson] else None;
      completedNow := complete && prior.None?;
      if lesson !in completedAt {
        completedAt := completedAt[lesson := if complete then Some(now) else None];
      } else if complete {
        completedAt := completedAt[lesson := if prior.Some? then prior else Some(now)];
      }
    }

    /** Pays what is due for the lesson just answered, and the bonus if this answer completed the five. */
    method PayOut(lesson: ModuleKey, complete: bool, completedNow: bool, ghost before: set<QuestionKey>)
      returns (lessonXp: nat, introXp: nat)
      requires cat.Valid() && ledger.Valid() && lesson in cat.modules
      requires forall k :: k in completedAt && completedAt[k].Some? <==> Complete(cat, Correct(), k)
      requires Awarded(cat, before, ledger.entries)
      requires complete <==> Complete(cat, Correct(), lesson)
      requires completedNow <==> complete && !Complete(cat, before, lesson)
      requires OnlyLesson(cat, before, Correct(), lesson)
      modifies ledger
      ensures ledger.Valid() && Awarded(cat, Correct(), ledger.entries)
      ensures ledger.TotalXp() == old(ledger.TotalXp()) + lessonXp + introXp
      ensures lessonXp == if completedNow && cat.modules[lesson].completionXp > 0 then cat.modules[lesson].completionXp else 0
      ensures introXp == if PaysIntro(cat, Correct()) && !PaysIntro(cat, before) then cat.introXp else 0
      ensures forall d :: DailyReward(d) in ledger.entries <==> DailyReward(d) in old(ledger.entries)
    {
      hide Complete, PaysLesson, PaysIntro, Awarded, Consistent, IntroComplete;
      lessonXp, introXp := 0, 0;
      WhatIsDue(cat, before, Correct(), lesson, ledger.entries);
      if complete && cat.modules[lesson].completionXp > 0 {
        var grant := ledger.Give(Lesson(lesson), cat.modules[lesson].completionXp);
        lessonXp := grant.value.pointsGranted;
      }
      var introComplete := CountIntro();
      if completedNow && introComplete && cat.introXp > 0 {
        var grant := ledger.Give(Introduction, cat.introXp);
        introXp := grant.value.pointsGranted;
      }
      PaidIsAwarded(cat, before, Correct(), lesson, old(ledger.entries), ledger.entries);
    }

    /**
     One answer. A refused one changes nothing; an accepted one adds its question to the correct ones if it
     was right, and everything else follows from that set, so it does not matter how often, in which order
     or from which device the questions were answered. The first reason that holds decides the refusal.
     */
    method SubmitAnswer(question: QuestionKey, option: OptionKey, version: nat, now: nat, rollsBack: bool)
      returns (r: Result<Answer, AnswerError>)
      requires Valid()
      modifies this, ledger
      ensures Valid()
      ensures r.Err? ==> answers == old(answers) && completedAt == old(completedAt) && ledger.entries == old(ledger.entries)
      ensures r == Err(QuestionNotFound) <==> !IsAsked(question)
      ensures r == Err(VersionStale) <==> IsAsked(question) && version != cat.questions[question].version
      ensures r == Err(OptionNotFound) <==>
                IsAsked(question) && version == cat.questions[question].version && option !in cat.questions[question].options
      ensures r.Ok? || r == Err(Unavailable) <==>
                IsAsked(question) && version == cat.questions[question].version && option in cat.questions[question].options
      ensures r.Ok? ==> !rollsBack
      ensures r == Err(Unavailable) ==> rollsBack
      ensures r.Ok? ==> Correct() == old(Correct()) + if option == cat.questions[question].correct then {question} else {}
      ensures r.Ok? ==>
                var a, lesson := r.value, cat.questions[question].lesson;
                && (a.correct <==> option == cat.questions[question].correct)
                && (a.firstCorrect <==> a.correct && question !in old(Correct()))
                && (a.lessonCompleted <==> Complete(cat, Correct(), lesson) && !Complete(cat, old(Correct()), lesson))
                && (a.moduleCompleted <==> PaysIntro(cat, Correct()) && !PaysIntro(cat, old(Correct())))
                && a.required == |Required(cat, lesson)| && a.correctRequired == |Required(cat, lesson) * Correct()|
      ensures r.Ok? ==>
                && r.value.xpAwarded == ledger.TotalXp() - old(ledger.TotalXp()) == r.value.totalXp - old(ledger.TotalXp())
                && r.value.levelBefore == Curve.LevelOf(old(ledger.TotalXp())) <= r.value.levelAfter == Curve.LevelOf(ledger.TotalXp())
    {
      hide Complete, PaysIntro, Awarded, Consistent;
      if question !in cat.questions || !cat.questions[question].active {
        return Err(QuestionNotFound);
      }
      var q := cat.questions[question];
      if !cat.modules[q.lesson].published {
        return Err(QuestionNotFound);
      }
      if q.version != version {
        return Err(VersionStale);
      }
      if option !in q.options {
        return Err(OptionNotFound);
      }
      if rollsBack {
        return Err(Unavailable);
      }
      var answer := Process(question, option, now);
      r := Ok(answer);
    }

    /** The transaction under the user's lock. */
    method Process(question: QuestionKey, option: OptionKey, now: nat) returns (a: Answer)
      requires Valid() && question in cat.questions && cat.questions[question].active
      requires cat.modules[cat.questions[question].lesson].published
      modifies this, ledger
      ensures Valid()
      ensures Correct() == old(Correct()) + if option == cat.questions[question].correct then {question} else {}
      ensures a.correct <==> option == cat.questions[question].correct
      ensures a.firstCorrect <==> a.correct && question !in old(Correct())
      ensures var lesson := cat.questions[question].lesson;
              && (a.lessonCompleted <==> Complete(cat, Correct(), lesson) && !Complete(cat, old(Correct()), lesson))
              && a.required == |Required(cat, lesson)| && a.correctRequired == |Required(cat, lesson) * Correct()|
      ensures a.moduleCompleted <==> PaysIntro(cat, Correct()) && !PaysIntro(cat, old(Correct()))
      ensures a.xpAwarded == ledger.TotalXp() - old(ledger.TotalXp()) && a.totalXp == ledger.TotalXp()
      ensures a.levelBefore == Curve.LevelOf(old(ledger.TotalXp())) <= a.levelAfter == Curve.LevelOf(ledger.TotalXp())
    {
      hide Complete, PaysIntro, Awarded, Consistent, OnlyLesson, Required, Curve.LevelOf, IntroComplete, Askable, Catalogue.Valid;
      var lesson := cat.questions[question].lesson;
      LessonExists(cat, question);
      var profileBefore := ledger.Profile();
      ghost var before := Correct();
      var completedNow, lessonComplete;
      a, completedNow, lessonComplete := Advance(question, option, now);
      var lessonXp, introXp := PayOut(lesson, lessonComplete, completedNow, before);
      BonusIsPositive(cat, Correct());
      Curve.LevelIsMonotone(profileBefore.totalXp, ledger.TotalXp());
      var after := ledger.Profile();
      a := a.(moduleCompleted := introXp > 0, xpAwarded := lessonXp + introXp, lessonXp := lessonXp, introXp := introXp,
              totalXp := after.totalXp, levelBefore := profileBefore.level, levelAfter := after.level);
    }

    /** The first half: the attempt, the counts and the lesson's completion. */
    method Advance(question: QuestionKey, option: OptionKey, now: nat) returns (a: Answer, completedNow: bool, complete: bool)
      requires Valid() && question in cat.questions && cat.questions[question].active
      requires cat.modules[cat.questions[question].lesson].published
      modifies this`answers, this`completedAt
      ensures Askable(cat, answers.Keys)
      ensures forall k :: k in completedAt && completedAt[k].Some? <==> Complete(cat, Correct(), k)
      ensures Correct() == old(Correct()) + if option == cat.questions[question].correct then {question} else {}
      ensures OnlyLesson(cat, old(Correct()), Correct(), cat.questions[question].lesson)
      ensures complete <==> Complete(cat, Correct(), cat.questions[question].lesson)
      ensures completedNow <==> complete && !Complete(cat, old(Correct()), cat.questions[question].lesson)
      ensures a.correct <==> option == cat.questions[question].correct
      ensures a.firstCorrect <==> a.correct && question !in old(Correct())
      ensures a.lessonCompleted == completedNow
      ensures a.required == |Required(cat, cat.questions[question].lesson)|
      ensures a.correctRequired == |Required(cat, cat.questions[question].lesson) * Correct()|
    {
      hide Complete, Awarded, Consistent, OnlyLesson, Required, Askable, Catalogue.Valid;
      LessonExists(cat, question);
      var lesson := cat.questions[question].lesson;
      ghost var before := Correct();
      var correct, firstCorrect := RecordAttempt(question, option, now);
      OnlyItsOwnLesson(cat, before, Correct(), question);
      var correctCount, requiredCount := CountRequired(lesson);
      complete := requiredCount > 0 && correctCount >= requiredCount;
      completedNow := RecordCompletion(lesson, complete, now, before);
      a := Answer(correct, firstCorrect, completedNow, false, 0, 0, 0, 0, 0, 0, correctCount, requiredCount);
    }

    /** Daily rewards come in between and leave the learning entries alone. */
    method ClaimDailyReward(date: nat, points: int) returns (conflict: bool)
      requires Valid()
      modifies ledger
      ensures Valid() && Correct() == old(Correct())
      ensures conflict <==> points > 0 && DailyReward(date) in old(ledger.entries)
    {
      hide Complete, PaysIntro, PaysLesson;
      var r;
      r, conflict := ledger.ClaimDailyReward(date, points);
    }
  }

  /** What an answer to a question of `lesson` leaves as it was. */
  ghost predicate OnlyLesson(cat: Catalogue, before: set<QuestionKey>, after: set<QuestionKey>, lesson: ModuleKey) {
    && (forall k :: k != lesson ==> (Complete(cat, after, k) <==> Complete(cat, before, k)))
    && (Complete(cat, before, lesson) ==> Complete(cat, after, lesson))
  }

  /** The ledger already has the lesson or the bonus exactly if it was earned before. */
  lemma WhatIsDue(cat: Catalogue, before: set<QuestionKey>, after: set<QuestionKey>, lesson: ModuleKey, entries: map<Source, nat>)
    requires lesson in cat.modules && Awarded(cat, before, entries) && OnlyLesson(cat, before, after, lesson)
    ensures Complete(cat, after, lesson) && cat.modules[lesson].completionXp > 0 ==>
              (Lesson(lesson) in entries <==> Complete(cat, before, lesson))
    ensures PaysIntro(cat, before) ==> PaysIntro(cat, after)
    ensures Introduction in entries <==> PaysIntro(cat, before)
    ensures PaysIntro(cat, after) <==> IntroComplete(cat, after) && cat.introXp > 0
    ensures PaysIntro(cat, after) && !PaysIntro(cat, before) ==> !Complete(cat, before, lesson) && Complete(cat, after, lesson)
  {
  }

  lemma PaidIsAwarded(cat: Catalogue, before: set<QuestionKey>, after: set<QuestionKey>, lesson: ModuleKey,
                      entries: map<Source, nat>, paid: map<Source, nat>)
    requires lesson in cat.modules && Awarded(cat, before, entries) && OnlyLesson(cat, before, after, lesson)
    requires forall s :: s in entries ==> s in paid && paid[s] == entries[s]
    requires forall s :: s in paid && s !in entries ==> s == Lesson(lesson) || s == Introduction
    requires Lesson(lesson) in paid <==>
               Lesson(lesson) in entries || (Complete(cat, after, lesson) && cat.modules[lesson].completionXp > 0)
    requires Lesson(lesson) in paid && Lesson(lesson) !in entries ==> paid[Lesson(lesson)] == cat.modules[lesson].completionXp
    requires Introduction in paid <==> PaysIntro(cat, after)
    requires Introduction in paid && Introduction !in entries ==> paid[Introduction] == cat.introXp
    ensures Awarded(cat, after, paid)
  {
  }

  lemma OnlyItsOwnLesson(cat: Catalogue, before: set<QuestionKey>, after: set<QuestionKey>, question: QuestionKey)
    requires question in cat.questions && before <= after <= before + {question}
    ensures OnlyLesson(cat, before, after, cat.questions[question].lesson)
  {
  }

  lemma LessonExists(cat: Catalogue, question: QuestionKey)
    requires cat.Valid() && question in cat.questions
    ensures cat.questions[question].lesson in cat.modules
  {
  }

  lemma BonusIsPositive(cat: Catalogue, correct: set<QuestionKey>)
    ensures PaysIntro(cat, correct) ==> cat.introXp > 0
  {
  }
}
