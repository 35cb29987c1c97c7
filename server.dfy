/**
 * The routes of server.js that carry rules: `/submit-quiz` (client-name
 * check, the mapping of `answers` onto ten question columns, insert),
 * `/submit` (intake insert), the two list queries with their ordering and the
 * quiz lookup by id with its 404.
 */
module Server {
  import opened JsValues
  import opened Text
  import opened Store

  // ---------------------------------------------------------------- quiz rows

  /** The quiz table has ten question columns, question1 .. question10. */
  const QuestionCount := 10

  /** The ten answer columns of a quiz row. */
  type Answers = s: seq<string> | |s| == QuestionCount witness ["", "", "", "", "", "", "", "", "", ""]

  /** The columns of a `certification_quiz` row besides its id. */
  datatype QuizRecord = QuizRecord(clientName: string, answers: Answers, score: int, submittedAt: int)

  /** The JSON body of `POST /submit-quiz`; `answers` is `None` when the body has no array there. */
  datatype QuizPayload = QuizPayload(clientName: Field, answers: Option<seq<Field>>, score: int)

  /** How `/submit-quiz` answers. */
  datatype QuizReply =
    | Saved(id: int)        // 200 { success: true, id: this.lastID }
    | ClientNameRequired    // 400 { error: "Client name is required" }
    | HandlerThrew          // 500 from the framework: indexing a missing `answers` throws
    | SaveFailed            // 500 { error: "Failed to save quiz data" }

  function QuizStatus(reply: QuizReply): int {
    match reply
    case Saved(_) => 200
    case ClientNameRequired => 400
    case HandlerThrew => 500
    case SaveFailed => 500
  }

  /** `!clientName || clientName.trim() === ''`. */
  predicate ClientNameRejected(name: Field) {
    !Truthy(name) || Trim(name.s) == ""
  }

  /** The name check rejects exactly a missing or null name and a string made only of whitespace. */
  lemma ClientNameRejectedIff(name: Field)
    ensures ClientNameRejected(name) <==> !name.Text? || AllWhitespace(name.s)
  {
    if name.Text? {
      TrimEmptyIffBlank(name.s);
    }
  }

  /** `answers[i] || ''`, where an index past the end reads `undefined`. */
  function AnswerAt(answers: seq<Field>, i: nat): string {
    if i < |answers| then OrElse(answers[i], "") else ""
  }

  /** The ten question columns written for an `answers` array. */
  function AnswerSlots(answers: seq<Field>): (r: Answers)
    ensures forall i :: 0 <= i < QuestionCount && i < |answers| && Truthy(answers[i]) ==> r[i] == answers[i].s
    ensures forall i :: 0 <= i < QuestionCount && (i >= |answers| || !Truthy(answers[i])) ==> r[i] == ""
  {
    seq(QuestionCount, i requires 0 <= i < QuestionCount => AnswerAt(answers, i))
  }

  /** Entries past the tenth are never read: only the first ten decide the stored columns. */
  lemma AnswerSlotsIgnoreExtra(answers: seq<Field>, extra: seq<Field>)
    requires |answers| >= QuestionCount
    ensures AnswerSlots(answers + extra) == AnswerSlots(answers)
  {
    var a, b := AnswerSlots(answers + extra), AnswerSlots(answers);
    forall i | 0 <= i < QuestionCount ensures a[i] == b[i] {
      assert (answers + extra)[i] == answers[i];
    }
  }

  /** Ten non-empty answers are stored exactly as given, in order. */
  lemma AnswerSlotsKeepFullAnswers(texts: seq<string>)
    requires |texts| == QuestionCount
    requires forall i :: 0 <= i < |texts| ==> texts[i] != ""
    ensures AnswerSlots(seq(|texts|, i requires 0 <= i < |texts| => Text(texts[i]))) == texts
  {
    var given := seq(|texts|, i requires 0 <= i < |texts| => Text(texts[i]));
    var r := AnswerSlots(given);
    forall i | 0 <= i < QuestionCount ensures r[i] == texts[i] {
      assert Truthy(given[i]);
    }
  }

  /**
   * The `/submit-quiz` handler up to the insert: the name check first (400),
   * then the answer mapping, which throws when there is no array to index;
   * on success the row to insert, with `submittedAt` from the clock.
   */
  function PrepareQuiz(payload: QuizPayload, now: int): (r: Result<QuizRecord, QuizReply>)
    ensures r == Err(ClientNameRequired) <==> !payload.clientName.Text? || AllWhitespace(payload.clientName.s)
    ensures r == Err(HandlerThrew) <==>
      payload.clientName.Text? && !AllWhitespace(payload.clientName.s) && payload.answers.None?
    ensures r.Ok? <==>
      payload.clientName.Text? && !AllWhitespace(payload.clientName.s) && payload.answers.Some?
    ensures r.Ok? ==>
      && payload.clientName == Text(r.value.clientName)
      && !AllWhitespace(r.value.clientName)
      && r.value.score == payload.score
      && r.value.submittedAt == now
      && payload.answers.Some?
      && r.value.answers == AnswerSlots(payload.answers.value)
  {
    ClientNameRejectedIff(payload.clientName);
    if ClientNameRejected(payload.clientName) then Err(ClientNameRequired)
    else if payload.answers.None? then Err(HandlerThrew)
    else Ok(QuizRecord(payload.clientName.s, AnswerSlots(payload.answers.value), payload.score, now))
  }

  /** `POST /submit-quiz`; `writeFault` stands for the database reporting an error on the insert. */
  method SubmitQuiz(table: Table<QuizRecord>, payload: QuizPayload, now: int, writeFault: bool)
    returns (reply: QuizReply)
    requires table.Valid()
    modifies table
    ensures table.Valid()
    ensures PrepareQuiz(payload, now).Err? ==>
      reply == PrepareQuiz(payload, now).error && table.rows == old(table.rows) && table.nextId == old(table.nextId)
    ensures PrepareQuiz(payload, now).Ok? && writeFault ==>
      reply == SaveFailed && table.rows == old(table.rows) && table.nextId == old(table.nextId)
    ensures QuizStatus(reply) == 200 <==> PrepareQuiz(payload, now).Ok? && !writeFault
    ensures QuizStatus(reply) == 400 <==> ClientNameRejected(payload.clientName)
    ensures PrepareQuiz(payload, now).Ok? && !writeFault ==>
      && reply == Saved(old(table.nextId))
      && table.nextId == old(table.nextId) + 1
      && table.rows == old(table.rows) + [Row(reply.id, PrepareQuiz(payload, now).value)]
      && forall k :: 0 <= k < |old(table.rows)| ==> old(table.rows)[k].id < reply.id
  {
    var prepared := PrepareQuiz(payload, now);
    ClientNameRejectedIff(payload.clientName);
    if prepared.Err? {
      return prepared.error;
    }
    if writeFault {
      return SaveFailed;
    }
    var id := table.Insert(prepared.value);
    reply := Saved(id);
  }

  // -------------------------------------------------------------- intake rows

  /** An intake row's columns, kept opaque to the store: column name to value. */
  type IntakeFields = map<string, Field>

  /** The body fields `/submit` copies into `intake_form`, in INSERT order. */
  const IntakeBodyColumns: seq<string> := [
    "accountName", "primaryEmail", "backupEmail", "locationAddress", "keyContact",
    "billingInfo", "patientPopulation", "otherPatientInfo", "wifiSettings", "ehrSystems"
  ]

  const LogoColumn := "practiceLogoPath"

  /** A bound parameter: `undefined` is written as NULL, anything else as given. */
  function Bound(f: Field): Field {
    if f.Absent? then Null else f
  }

  /**
   * The row `/submit` writes: each listed body field verbatim (a missing one
   * as NULL) and the uploaded file's path, or NULL when no file came.
   */
  function IntakeRecord(body: map<string, Field>, logoPath: Option<string>): (r: IntakeFields)
    ensures r.Keys == (set c | c in IntakeBodyColumns) + {LogoColumn}
    ensures forall c :: c in IntakeBodyColumns && c in body && !body[c].Absent? ==> r[c] == body[c]
    ensures forall c :: c in IntakeBodyColumns && (c !in body || body[c].Absent?) ==> r[c] == Null
    ensures r[LogoColumn] == if logoPath.Some? then Text(logoPath.value) else Null
  {
    (map c | c in IntakeBodyColumns :: Bound(Get(body, c)))[LogoColumn := if logoPath.Some? then Text(logoPath.value) else Null]
  }

  /** How `/submit` answers. */
  datatype IntakeReply =
    | RedirectCompleted     // redirect to /CompletedForm.html
    | SaveError             // 500 "Error saving data."

  /** `POST /submit`; `writeFault` stands for the database reporting an error on the insert. */
  method SubmitIntake(table: Table<IntakeFields>, body: map<string, Field>, logoPath: Option<string>, writeFault: bool)
    returns (reply: IntakeReply)
    requires table.Valid()
    modifies table
    ensures table.Valid()
    ensures writeFault ==> reply == SaveError && table.rows == old(table.rows) && table.nextId == old(table.nextId)
    ensures !writeFault ==>
      && reply == RedirectCompleted
      && table.nextId == old(table.nextId) + 1
      && table.rows == old(table.rows) + [Row(old(table.nextId), IntakeRecord(body, logoPath))]
      && forall k :: 0 <= k < |old(table.rows)| ==> old(table.rows)[k].id < old(table.nextId)
  {
    if writeFault {
      return SaveError;
    }
    var _ := table.Insert(IntakeRecord(body, logoPath));
    reply := RedirectCompleted;
  }

  // ------------------------------------------------------------------ queries

  /** `GET /api/intake-forms`: every intake row, ids strictly descending. */
  function ListIntakeForms(table: Table<IntakeFields>): (r: seq<Row<IntakeFields>>)
    reads table
    requires table.Valid()
    ensures multiset(r) == multiset(table.rows)
    ensures IdsDescending(r)
  {
    var r := table.NewestFirst();
    ReverseSameRows(table.rows, r);
    r
  }

  /** A sequence listed back to front holds the same rows. */
  lemma {:induction false} ReverseSameRows<R>(rows: seq<Row<R>>, r: seq<Row<R>>)
    requires |r| == |rows|
    requires forall k :: 0 <= k < |rows| ==> r[k] == rows[|rows| - 1 - k]
    ensures multiset(r) == multiset(rows)
  {
    if rows != [] {
      var n := |rows|;
      ReverseSameRows(rows[1..], r[..n - 1]);
      assert r == r[..n - 1] + [rows[0]];
      assert rows == [rows[0]] + rows[1..];
    }
  }

  /** Submission times never increase along the sequence (`ORDER BY submittedAt DESC`). */
  ghost predicate NewestSubmittedFirst(rows: seq<Row<QuizRecord>>) {
    forall i, j :: 0 <= i < j < |rows| ==> rows[i].data.submittedAt >= rows[j].data.submittedAt
  }

  /** A row at least as new as the head of an ordered list can go in front of it. */
  lemma PrependNewest(h: Row<QuizRecord>, rest: seq<Row<QuizRecord>>)
    requires NewestSubmittedFirst(rest)
    requires rest != [] ==> h.data.submittedAt >= rest[0].data.submittedAt
    ensures NewestSubmittedFirst([h] + rest)
  {
    var r := [h] + rest;
    forall i, j | 0 <= i < j < |r| ensures r[i].data.submittedAt >= r[j].data.submittedAt {
      if i == 0 && j > 1 {
        assert r[1] == rest[0] && r[j] == rest[j - 1];
      }
    }
  }

  /** Places `x` into a list already ordered newest first. */
  function InsertBySubmitted(x: Row<QuizRecord>, sorted: seq<Row<QuizRecord>>): (r: seq<Row<QuizRecord>>)
    requires NewestSubmittedFirst(sorted)
    ensures NewestSubmittedFirst(r)
    ensures multiset(r) == multiset(sorted) + multiset{x}
    ensures r != [] && (r[0] == x || (sorted != [] && r[0] == sorted[0]))
  {
    if sorted == [] then [x]
    else if x.data.submittedAt >= sorted[0].data.submittedAt then
      PrependNewest(x, sorted);
      [x] + sorted
    else
      var tail := sorted[1..];
      var rest := InsertBySubmitted(x, tail);
      assert sorted == [sorted[0]] + tail;
      PrependNewest(sorted[0], rest);
      [sorted[0]] + rest
  }

  /** The rows ordered newest submission first (ties in any order, as SQLite leaves them). */
  function SortBySubmitted(rows: seq<Row<QuizRecord>>): (r: seq<Row<QuizRecord>>)
    ensures NewestSubmittedFirst(r)
    ensures multiset(r) == multiset(rows)
  {
    if rows == [] then []
    else
      assert rows == [rows[0]] + rows[1..];
      InsertBySubmitted(rows[0], SortBySubmitted(rows[1..]))
  }

  /** `GET /api/quiz-submissions`: every quiz row, newest submission first. */
  function ListQuizSubmissions(table: Table<QuizRecord>): (r: seq<Row<QuizRecord>>)
    reads table
    ensures multiset(r) == multiset(table.rows)
    ensures NewestSubmittedFirst(r)
  {
    SortBySubmitted(table.rows)
  }

  /** How `GET /api/quiz-submissions/:id` answers. */
  datatype QuizLookup =
    | Found(row: Row<QuizRecord>)   // 200 with the row
    | NotFound                      // 404 { error: "Quiz submission not found" }
    | ReadFailed                    // 500 { error: "Failed to retrieve quiz data" }

  /**
   * `GET /api/quiz-submissions/:id`: the row with that id, or 404;
   * `readFault` stands for the database reporting an error on the SELECT.
   */
  function GetQuizSubmission(table: Table<QuizRecord>, id: int, readFault: bool): (r: QuizLookup)
    reads table
    requires table.Valid()
    ensures r.ReadFailed? <==> readFault
    ensures r.NotFound? <==> !readFault && forall k :: 0 <= k < |table.rows| ==> table.rows[k].id != id
    ensures r.Found? ==> r.row in table.rows && r.row.id == id
  {
    if readFault then ReadFailed
    else match table.Lookup(id)
    case Some(row) => Found(row)
    case None => NotFound
  }
}
