/**
 * How the server's rows meet the dashboard's rules: a submitted quiz as the
 * detail view shows it, a listed intake row found again by its id, the
 * upload path turned into a logo URL, and what the dashboard makes of a row
 * written by the intake route.
 */
module Scenarios {
  import opened JsValues
  import opened Text
  import opened Store
  import opened Server
  import opened Upload
  import opened Dashboard

  /**
   * Submit a quiz, then open its detail view: the reply carries a fresh id,
   * and the view shows the name as sent, the status from the score as sent,
   * and under question i the i-th answer when it was truthy, the placeholder
   * otherwise.
   */
  method SubmitThenView(table: Table<QuizRecord>, payload: QuizPayload, now: int) returns (reply: QuizReply, view: QuizView)
    requires table.Valid()
    requires payload.clientName.Text? && !AllWhitespace(payload.clientName.s) && payload.answers.Some?
    modifies table
    ensures table.Valid()
    ensures reply.Saved? && view.ShowQuiz?
    ensures table.nextId == old(table.nextId) + 1
    ensures table.rows == old(table.rows) + [Row(reply.id, PrepareQuiz(payload, now).value)]
    ensures forall k :: 0 <= k < |table.rows| - 1 ==> table.rows[k].id < reply.id
    ensures view.detail.clientName == payload.clientName.s
    ensures view.detail.status == "PASS" <==> payload.score >= 8
    ensures |view.detail.lines| == QuestionCount
    ensures forall i :: 0 <= i < QuestionCount ==>
      var answers := payload.answers.value;
      view.detail.lines[i].shown == if i < |answers| && Truthy(answers[i]) then answers[i].s else NoAnswerPlaceholder
  {
    reply := SubmitQuiz(table, payload, now, false);
    var rec := PrepareQuiz(payload, now).value;
    assert table.rows[|table.rows| - 1] == Row(reply.id, rec);
    var found := GetQuizSubmission(table, reply.id, false);
    assert found == Found(Row(reply.id, rec));
    view := ViewQuizDetails(Some(found));
    forall i | 0 <= i < QuestionCount
      ensures view.detail.lines[i].shown ==
        if i < |payload.answers.value| && Truthy(payload.answers.value[i]) then payload.answers.value[i].s else NoAnswerPlaceholder
    {
      var answers := payload.answers.value;
      if i < |answers| && Truthy(answers[i]) {
        assert rec.answers[i] == answers[i].s != "";
      } else {
        assert rec.answers[i] == "";
      }
    }
  }

  /** An id that no stored quiz carries, or a failed read, ends in the dashboard's load-error alert. */
  lemma UnknownQuizIdAlerts(table: Table<QuizRecord>, id: int, readFault: bool)
    requires table.Valid()
    requires readFault || forall k :: 0 <= k < |table.rows| ==> table.rows[k].id != id
    ensures ViewQuizDetails(Some(GetQuizSubmission(table, id, readFault))) == QuizLoadError
  {
  }

  /** Every row of the intake list is found again by the id its button passes. */
  lemma ListedIntakeRowFound(table: Table<IntakeFields>, k: int)
    requires table.Valid()
    requires 0 <= k < |table.rows|
    ensures ViewIntakeDetails(Some(ListIntakeForms(table)), table.rows[k].id) == ShowIntake(IntakeDetailOf(table.rows[k].data))
  {
    var listed := ListIntakeForms(table);
    var n := |table.rows|;
    assert listed == table.NewestFirst();
    assert listed[n - 1 - k] == table.rows[k];
    FindByIdUnique(listed, table.rows[k].id, n - 1 - k);
  }

  /** A path "uploads" + separator + name, for a name without backslashes, links as "/uploads/" + name. */
  lemma LogoUrlOfUploadPath(name: string, separator: char)
    requires IsSeparator(separator)
    requires forall i :: 0 <= i < |name| ==> name[i] != '\\'
    ensures LogoUrl(Text("uploads" + [separator] + name)) == Some("/uploads/" + name)
  {
    var p := "uploads" + [separator] + name;
    assert Truthy(Text(p));
    var u := "/" + ForwardSlashes(p);
    var want := "/uploads/" + name;
    assert |u| == |want|;
    forall i | 0 <= i < |u| ensures u[i] == want[i] {
      if 8 < i {
        assert p[i - 1] == name[i - 9] && want[i] == name[i - 9];
      }
    }
    assert u == want;
  }

  /**
   * The path multer records for an upload is "uploads" and the stored name,
   * joined with '/' (POSIX) or '\' (Windows); either way the dashboard links
   * the logo at "/uploads/<stored name>".
   */
  lemma UploadedLogoUrl(original: string, now: nat, separator: char)
    requires IsClientFileName(original)
    requires IsSeparator(separator)
    ensures LogoUrl(Text("uploads" + [separator] + UploadFilename(original, now)))
         == Some("/uploads/" + UploadFilename(original, now))
  {
    UploadKeepsExtension(original, now);
    LogoUrlOfUploadPath(UploadFilename(original, now), separator);
  }

  /**
   * `/submit` writes `billingInfo` and `wifiSettings`, while the detail view
   * reads `cardNumber`, `cardCVV` and `wifiPassword`: for a row the route
   * writes, all three show "N/A", masked and revealed.
   */
  lemma SubmittedIntakeShowsNoPaymentData(body: map<string, Field>, logoPath: Option<string>)
    ensures var d := IntakeDetailOf(IntakeRecord(body, logoPath));
      && d.card == SensitiveText(CardMaskPrefix + NotAvailable, NotAvailable)
      && d.cvv.revealed == NotAvailable
      && d.wifiPassword.revealed == NotAvailable
  {
    var rec := IntakeRecord(body, logoPath);
    assert "cardNumber" !in rec && "cardCVV" !in rec && "wifiPassword" !in rec;
  }
}
