/** Taking the quiz: `start_quiz` wipes the user's earlier answers and
    points at the first question; `quiz_question` shows a question and,
    on a POST carrying an option, records the answer (one per user and
    question) and moves on to the next question by id. */
module QuizSession {
  import opened Optional
  import opened QuizModels

  /** Question ids in `order_by('id')` order */
  ghost predicate Increasing(ids: seq<nat>) {
    forall i, j :: 0 <= i < j < |ids| ==> ids[i] < ids[j]
  }

  /** At most one answer per user and question, as `update_or_create` keeps it */
  ghost predicate OneAnswerEach(answers: seq<UserAnswer>) {
    forall i, j :: 0 <= i < j < |answers| ==>
      !(answers[i].user == answers[j].user && answers[i].question == answers[j].question)
  }

  /** `UserAnswer.objects.filter(user=user).delete()` */
  function RemoveUser(answers: seq<UserAnswer>, user: nat): (r: seq<UserAnswer>)
    ensures |r| <= |answers|
    ensures forall a :: a in r <==> a in answers && a.user != user
  {
    if answers == [] then []
    else (if answers[0].user == user then [] else [answers[0]]) + RemoveUser(answers[1..], user)
  }

  /** Removing answers keeps the rest in order, so it keeps them unique. */
  lemma {:induction false} RemoveUserUnique(answers: seq<UserAnswer>, user: nat)
    requires OneAnswerEach(answers)
    ensures OneAnswerEach(RemoveUser(answers, user))
  {
    if answers != [] {
      RemoveUserUnique(answers[1..], user);
      var rest := RemoveUser(answers[1..], user);
      forall a | a in rest
        ensures !(a.user == answers[0].user && a.question == answers[0].question)
      {
        var k :| 1 <= k < |answers| && answers[k] == a;
      }
    }
  }

  /** Position of the answer of `user` to `question`, if any */
  function FindAnswer(answers: seq<UserAnswer>, user: nat, question: nat): (k: Option<nat>)
    ensures k.Some? ==> k.value < |answers| && answers[k.value].user == user && answers[k.value].question == question
    ensures k.Some? ==> forall i :: 0 <= i < k.value ==> !(answers[i].user == user && answers[i].question == question)
    ensures k.None? ==> forall i :: 0 <= i < |answers| ==> !(answers[i].user == user && answers[i].question == question)
  {
    if answers == [] then None
    else if answers[0].user == user && answers[0].question == question then Some(0)
    else match FindAnswer(answers[1..], user, question)
      case None => None
      case Some(k) => Some(k + 1)
  }

  /** `update_or_create(user=..., question=..., defaults={'option_id': ...})`:
      replace the option of the existing answer, or add a new answer */
  function Upsert(answers: seq<UserAnswer>, a: UserAnswer): seq<UserAnswer> {
    match FindAnswer(answers, a.user, a.question)
    case Some(k) => answers[k := a]
    case None => answers + [a]
  }

  /** After the upsert the user has exactly the new answer to the question,
      every other answer is kept, and answers stay one per user and question. */
  lemma UpsertSpec(answers: seq<UserAnswer>, a: UserAnswer)
    requires OneAnswerEach(answers)
    ensures OneAnswerEach(Upsert(answers, a))
    ensures a in Upsert(answers, a)
    ensures forall b :: b in Upsert(answers, a) && b.user == a.user && b.question == a.question ==> b == a
    ensures forall b :: b in answers && !(b.user == a.user && b.question == a.question) ==> b in Upsert(answers, a)
    ensures forall b :: b in Upsert(answers, a) ==> b == a || b in answers
  {
    var r := Upsert(answers, a);
    match FindAnswer(answers, a.user, a.question)
    case Some(k) =>
      assert r == answers[k := a] && r[k] == a;
      assert forall i :: 0 <= i < |r| && i != k ==> r[i] == answers[i];
      forall i, j | 0 <= i < j < |r| ensures !(r[i].user == r[j].user && r[i].question == r[j].question) {
        if i == k {
          assert !(answers[k].user == answers[j].user && answers[k].question == answers[j].question);
        } else if j == k {
          assert !(answers[i].user == answers[k].user && answers[i].question == answers[k].question);
        }
      }
      forall b | b in r ensures b == a || b in answers {
        var i :| 0 <= i < |r| && r[i] == b;
      }
      forall b | b in r && b.user == a.user && b.question == a.question ensures b == a {
        var i :| 0 <= i < |r| && r[i] == b;
      }
      forall b | b in answers && !(b.user == a.user && b.question == a.question) ensures b in r {
        var i :| 0 <= i < |answers| && answers[i] == b;
        assert r[i] == b;
      }
    case None =>
      assert forall b :: b in answers ==> !(b.user == a.user && b.question == a.question);
  }

  /** Answering the same question again replaces the earlier answer: only
      the last choice is kept. */
  lemma UpsertLastWins(answers: seq<UserAnswer>, a: UserAnswer, b: UserAnswer)
    requires a.user == b.user && a.question == b.question
    ensures Upsert(Upsert(answers, a), b) == Upsert(answers, b)
  {
    match FindAnswer(answers, a.user, a.question)
    case Some(k) =>
      FindFirst(answers[k := a], a.user, a.question, k);
      assert answers[k := a][k := b] == answers[k := b];
    case None =>
      FindFirst(answers + [a], a.user, a.question, |answers|);
      assert (answers + [a])[|answers| := b] == answers + [b];
  }

  /** The answer found is the first that matches. */
  lemma {:induction false} FindFirst(answers: seq<UserAnswer>, user: nat, question: nat, k: nat)
    requires k < |answers| && answers[k].user == user && answers[k].question == question
    requires forall i :: 0 <= i < k ==> !(answers[i].user == user && answers[i].question == question)
    ensures FindAnswer(answers, user, question) == Some(k)
  {
    if k > 0 {
      FindFirst(answers[1..], user, question, k - 1);
    }
  }

  /** `Question.objects.filter(id__gt=qid).order_by('id').first()` */
  function NextQuestion(questions: seq<nat>, qid: nat): (n: Option<nat>)
    ensures n.Some? ==> n.value in questions && n.value > qid
    ensures n.Some? && Increasing(questions) ==> forall m :: m in questions && m > qid ==> n.value <= m
    ensures n.None? <==> forall m :: m in questions ==> m <= qid
  {
    if questions == [] then None
    else if questions[0] > qid then
      assert forall m :: m in questions ==> m == questions[0] || m in questions[1..];
      Some(questions[0])
    else
      var n := NextQuestion(questions[1..], qid);
      assert forall m :: m in questions ==> m == questions[0] || m in questions[1..];
      n
  }

  /** Position of `qid` among the ordered question ids */
  function IndexOf(questions: seq<nat>, qid: nat): (i: nat)
    requires qid in questions
    ensures i < |questions| && questions[i] == qid
  {
    if questions[0] == qid then 0 else 1 + IndexOf(questions[1..], qid)
  }

  /** Walking the quiz visits the questions in id order, one after another,
      and leaves for the result after the last one. */
  lemma NextQuestionWalk(questions: seq<nat>, i: nat)
    requires Increasing(questions) && i < |questions|
    ensures i + 1 < |questions| ==> NextQuestion(questions, questions[i]) == Some(questions[i + 1])
    ensures i + 1 == |questions| ==> NextQuestion(questions, questions[i]) == None
  {
    if i + 1 < |questions| {
      assert questions[i + 1] in questions;
    }
  }

  /** The "question n of total" counter runs from 1 to the number of
      questions, and `n - 1` questions have a lower id. */
  lemma QuestionNumberInRange(questions: seq<nat>, qid: nat)
    requires qid in questions
    ensures 1 <= IndexOf(questions, qid) + 1 <= |questions|
    ensures Increasing(questions) ==>
              forall j :: 0 <= j < |questions| ==> (questions[j] < qid <==> j < IndexOf(questions, qid))
  {
  }

  /** Where a quiz view sends the user, or what it shows */
  datatype QuizPage =
    | ToQuestion(qid: nat)
      /** no questions at all: back to the dashboard with an error message */
    | ToDashboard
    | ToResult
      /** the question page; `warned` when a POST came without an option */
    | QuestionView(qid: nat, number: nat, total: nat, warned: bool)
      /** the posted option id names no option row, so the write fails */
    | ServerError

  /** The question, option and answer tables */
  class QuizStore {
    /** Question ids, ordered by id */
    var questions: seq<nat>
    /** Option rows by id */
    var options: map<nat, QuizOption>
    var answers: seq<UserAnswer>

    ghost predicate Valid()
      reads this
    {
      Increasing(questions) && OneAnswerEach(answers)
    }

    constructor (questions: seq<nat>, options: map<nat, QuizOption>)
      requires Increasing(questions)
      ensures Valid()
      ensures this.questions == questions && this.options == options && answers == []
    {
      this.questions := questions;
      this.options := options;
      answers := [];
    }

    /** `start_quiz`: delete the user's answers, then go to the lowest-id
        question, or to the dashboard when there is none */
    method StartQuiz(user: nat) returns (page: QuizPage)
      requires Valid()
      modifies this
      ensures Valid()
      ensures questions == old(questions) && options == old(options)
      ensures answers == RemoveUser(old(answers), user)
      ensures questions == [] ==> page == ToDashboard
      ensures questions != [] ==> page == ToQuestion(questions[0])
    {
      RemoveUserUnique(answers, user);
      answers := RemoveUser(answers, user);
      if questions == [] {
        page := ToDashboard;
      } else {
        page := ToQuestion(questions[0]);
      }
    }

    /** `quiz_question`: `optionId` is the posted `option` field, `None` when
        it is missing or empty */
    method AnswerQuestion(user: nat, qid: nat, isPost: bool, optionId: Option<nat>) returns (page: QuizPage)
      requires Valid()
      modifies this
      ensures Valid()
      ensures questions == old(questions) && options == old(options)
      ensures qid !in questions ==> page == ToResult && answers == old(answers)
      ensures qid in questions && !(isPost && optionId.Some?) ==>
                answers == old(answers)
                && page == QuestionView(qid, IndexOf(questions, qid) + 1, |questions|, isPost)
      ensures qid in questions && isPost && optionId.Some? && optionId.value !in options ==>
                page == ServerError && answers == old(answers)
      ensures qid in questions && isPost && optionId.Some? && optionId.value in options ==>
                answers == Upsert(old(answers), UserAnswer(user, qid, options[optionId.value]))
                && page == (match NextQuestion(questions, qid)
                            case Some(n) => ToQuestion(n)
                            case None => ToResult)
    {
      if qid !in questions {
        return ToResult;
      }
      var number := IndexOf(questions, qid) + 1;
      if isPost && optionId.Some? {
        if optionId.value !in options {
          return ServerError;
        }
        var a := UserAnswer(user, qid, options[optionId.value]);
        UpsertSpec(answers, a);
        answers := Upsert(answers, a);
        match NextQuestion(questions, qid)
        case Some(n) => page := ToQuestion(n);
        case None => page := ToResult;
      } else {
        page := QuestionView(qid, number, |questions|, isPost);
      }
    }
  }
}
