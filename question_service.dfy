/** The question catalogue: create, read, update and delete over the
    question table. */
module QuestionService {
  import opened Common
  import opened Entities
  import opened Database

  /** `get`: NotFound for an unknown id. */
  function Get(questions: map<nat, Question>, id: nat): (r: Result<Question>)
    ensures r.Ok? <==> id in questions
    ensures r.Ok? ==> r.value == questions[id]
    ensures r.Err? ==> r.error == NotFound
  {
    if id in questions then Ok(questions[id]) else Err(NotFound)
  }

  /** `create`: a new question holding the text. */
  method Create(db: Db, text: string) returns (id: nat, q: Question)
    requires db.Valid()
    modifies db`questions, db`nextId
    ensures db.Valid()
    ensures q.text == text && id !in old(db.questions)
    ensures db.questions == old(db.questions)[id := q]
    ensures Get(db.questions, id) == Ok(q)
  {
    q := Question(text);
    id := db.InsertQuestion(q);
  }

  /** `update`: only the text of an existing question changes. */
  method Update(db: Db, id: nat, text: string) returns (res: Result<Question>)
    requires db.Valid()
    modifies db`questions
    ensures db.Valid()
    ensures id !in old(db.questions) ==> res == Err(NotFound) && db.questions == old(db.questions)
    ensures id in old(db.questions) ==>
      res == Ok(old(db.questions)[id].(text := text)) && db.questions == old(db.questions)[id := res.value]
    ensures Get(db.questions, id) == (if id in old(db.questions) then Ok(Question(text)) else Err(NotFound))
  {
    var found := Get(db.questions, id);
    if found.Err? {
      return Err(found.error);
    }
    var q := found.value.(text := text);
    db.SaveQuestion(id, q);
    return Ok(q);
  }

  /** `delete`: NotFound for an unknown id, otherwise the question is gone. */
  method Delete(db: Db, id: nat) returns (res: Result<()>)
    requires db.Valid()
    modifies db`questions
    ensures db.Valid()
    ensures res.Err? <==> id !in old(db.questions)
    ensures res.Err? ==> res.error == NotFound
    ensures db.questions == old(db.questions) - {id}
    ensures Get(db.questions, id) == Err(NotFound)
  {
    if id !in db.questions {
      return Err(NotFound);
    }
    db.DeleteQuestion(id);
    return Ok(());
  }

  /** Updates and deletes touch one question: every other id reads as before. */
  lemma OthersUnaffected(questions: map<nat, Question>, id: nat, q: Question, other: nat)
    requires other != id
    ensures Get(questions[id := q], other) == Get(questions, other)
    ensures Get(questions - {id}, other) == Get(questions, other)
  {
  }
}
