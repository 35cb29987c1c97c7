/**
 * The display rules of public/dashboard.js: pass/fail and score tiers, the
 * client-side search over the cached quiz list, masking of card number, CVV
 * and wifi password with the reveal toggle, the intake lookup by id, the
 * logo URL, and the per-question answer fallback of the quiz detail view.
 */
module Dashboard {
  import opened JsValues
  import opened Text
  import opened Store
  import opened Server

  // ------------------------------------------------------- score classifiers

  /** Scores of 8 and above pass. */
  const PassMark := 8

  /** `getPassFailStatus(score)`. */
  function PassFailStatus(score: int): (r: string)
    ensures r == "PASS" || r == "FAIL"
    ensures r == "PASS" <==> score >= PassMark
  {
    if score >= PassMark then "PASS" else "FAIL"
  }

  /** `getPassFailClass(score)`: the badge follows the same threshold as the status. */
  function PassFailClass(score: int): (r: string)
    ensures r == "pass-badge" || r == "fail-badge"
    ensures r == "pass-badge" <==> PassFailStatus(score) == "PASS"
  {
    if score >= PassMark then "pass-badge" else "fail-badge"
  }

  /** The boundary cases of the pass mark. */
  lemma PassFailExamples()
    ensures PassFailStatus(8) == "PASS" && PassFailStatus(10) == "PASS"
    ensures PassFailStatus(7) == "FAIL" && PassFailStatus(0) == "FAIL"
  {
  }

  const ScoreHigh := "score-badge score-high"
  const ScoreMedium := "score-badge score-medium"
  const ScoreLow := "score-badge score-low"

  /** `getScoreClass(score)`: three tiers, high from 8, medium from 5, low below. */
  function ScoreClass(score: int): (r: string)
    ensures r == ScoreHigh <==> score >= 8
    ensures r == ScoreMedium <==> 5 <= score < 8
    ensures r == ScoreLow <==> score < 5
  {
    if score >= 8 then ScoreHigh
    else if score >= 5 then ScoreMedium
    else ScoreLow
  }

  /** Every score lands in exactly one tier, and the high tier is exactly the passing scores. */
  lemma ScoreTiersPartition(score: int)
    ensures ScoreClass(score) in [ScoreHigh, ScoreMedium, ScoreLow]
    ensures ScoreClass(score) == ScoreHigh <==> PassFailStatus(score) == "PASS"
  {
  }

  // ---------------------------------------------------------- search filter

  /** `s.clientName.toLowerCase().includes(searchTerm)` with `searchTerm` already lower-cased. */
  predicate MatchesSearch(row: Row<QuizRecord>, term: string) {
    Contains(ToLower(row.data.clientName), ToLower(term))
  }

  /** `allQuizSubmissions.filter(...)`: the matching rows, in list order. */
  function FilterByClient(rows: seq<Row<QuizRecord>>, term: string): (r: seq<Row<QuizRecord>>)
    ensures |r| <= |rows|
    ensures forall x :: x in r ==> x in rows && MatchesSearch(x, term)
    ensures forall x :: x in rows && MatchesSearch(x, term) ==> x in r
  {
    if rows == [] then []
    else (if MatchesSearch(rows[0], term) then [rows[0]] else []) + FilterByClient(rows[1..], term)
  }

  /** Filtering splits over concatenation, so rows keep their relative order. */
  lemma {:induction false} FilterKeepsOrder(a: seq<Row<QuizRecord>>, b: seq<Row<QuizRecord>>, term: string)
    ensures FilterByClient(a + b, term) == FilterByClient(a, term) + FilterByClient(b, term)
  {
    if a == [] {
      assert a + b == b;
    } else {
      assert (a + b)[0] == a[0] && (a + b)[1..] == a[1..] + b;
      FilterKeepsOrder(a[1..], b, term);
    }
  }

  /** An empty search box shows the whole cached list. */
  lemma {:induction false} FilterEmptyTermKeepsAll(rows: seq<Row<QuizRecord>>)
    ensures FilterByClient(rows, "") == rows
  {
    if rows != [] {
      ContainsEmpty(ToLower(rows[0].data.clientName));
      FilterEmptyTermKeepsAll(rows[1..]);
    }
  }

  /** The search is case-insensitive in the term: "ADA" and "ada" select the same rows. */
  lemma {:induction false} FilterIgnoresTermCase(rows: seq<Row<QuizRecord>>, term: string)
    ensures FilterByClient(rows, term) == FilterByClient(rows, ToLower(term))
  {
    var lowered := ToLower(term);
    assert ToLower(lowered) == lowered by {
      forall i | 0 <= i < |lowered| ensures ToLower(lowered)[i] == lowered[i] {}
    }
    if rows != [] {
      FilterIgnoresTermCase(rows[1..], term);
    }
  }

  /** The cached quiz list of the dashboard page (`allQuizSubmissions`). */
  class QuizCache {
    var allQuizSubmissions: seq<Row<QuizRecord>>

    /** `let allQuizSubmissions = []`. */
    constructor ()
      ensures allQuizSubmissions == []
    {
      allQuizSubmissions := [];
    }

    /**
     * `loadQuizSubmissions`: a successful fetch replaces the cache with the
     * list; a failed one (`None`) leaves it as it was.
     */
    method Load(response: Option<seq<Row<QuizRecord>>>)
      modifies this
      ensures response.Some? ==> allQuizSubmissions == response.value
      ensures response.None? ==> allQuizSubmissions == old(allQuizSubmissions)
    {
      if response.Some? {
        allQuizSubmissions := response.value;
      }
    }

    /** The search box handler: the rows to display; the cache itself is only read. */
    method Search(term: string) returns (shown: seq<Row<QuizRecord>>)
      ensures shown == FilterByClient(allQuizSubmissions, term)
    {
      shown := FilterByClient(allQuizSubmissions, term);
    }
  }

  // ----------------------------------------------------------------- masking

  const NotAvailable := "N/A"
  const CardMaskPrefix := "****  ****  ****  "
  /** The CVV and wifi-password placeholders, as the file's text holds them (mis-decoded bullets). */
  const MaskedCvv := "‚Ä¢‚Ä¢‚Ä¢"
  const MaskedWifiPassword := "‚Ä¢‚Ä¢‚Ä¢‚Ä¢‚Ä¢‚Ä¢‚Ä¢‚Ä¢"

  /** `s.slice(-4)`: the last four characters, or all of a shorter string. */
  function LastFour(s: string): (r: string)
    ensures |r| == if |s| < 4 then |s| else 4
    ensures r == s[|s| - |r|..]
  {
    if |s| <= 4 then s else s[|s| - 4..]
  }

  /** The masked and the revealed text of one sensitive field. */
  datatype SensitiveText = SensitiveText(masked: string, revealed: string)

  /** Card number: the masked text shows at most the last four characters; the revealed text all of it. */
  function CardText(cardNumber: Field): (r: SensitiveText)
    ensures Truthy(cardNumber) ==>
      var n := cardNumber.s;
      && r.masked == CardMaskPrefix + n[|n| - (if |n| < 4 then |n| else 4)..]
      && r.revealed == n
    ensures !Truthy(cardNumber) ==> r.masked == CardMaskPrefix + NotAvailable && r.revealed == NotAvailable
  {
    SensitiveText(CardMaskPrefix + (if Truthy(cardNumber) then LastFour(cardNumber.s) else NotAvailable),
                  OrElse(cardNumber, NotAvailable))
  }

  /** Two card numbers that end in the same four characters mask to the same text. */
  lemma CardMaskHidesAllButLastFour(a: string, b: string)
    requires |a| >= 4 && |b| >= 4 && a[|a| - 4..] == b[|b| - 4..]
    ensures CardText(Text(a)).masked == CardText(Text(b)).masked
  {
  }

  /** CVV: a fixed placeholder, whatever the value. */
  function CvvText(cvv: Field): (r: SensitiveText)
    ensures r.masked == MaskedCvv
    ensures r.revealed == if Truthy(cvv) then cvv.s else NotAvailable
  {
    SensitiveText(MaskedCvv, OrElse(cvv, NotAvailable))
  }

  /** Wifi password: a fixed placeholder, whatever the value. */
  function WifiPasswordText(password: Field): (r: SensitiveText)
    ensures r.masked == MaskedWifiPassword
    ensures r.revealed == if Truthy(password) then password.s else NotAvailable
  {
    SensitiveText(MaskedWifiPassword, OrElse(password, NotAvailable))
  }

  /** The CVV and password placeholders give nothing of the value away. */
  lemma FixedMasksIgnoreValue(a: Field, b: Field)
    ensures CvvText(a).masked == CvvText(b).masked
    ensures WifiPasswordText(a).masked == WifiPasswordText(b).masked
  {
  }

  // ------------------------------------------------------- reveal toggle

  /** The `style.display` values of a field's masked and revealed spans. */
  datatype Display = Display(masked: string, revealed: string)

  predicate Visible(style: string) {
    style != "none"
  }

  /** Exactly one of the two spans is on screen. */
  predicate ExactlyOneVisible(d: Display) {
    Visible(d.masked) != Visible(d.revealed)
  }

  /** As rendered: the masked span has no inline style, the revealed one `display: none`. */
  const InitialDisplay := Display("", "none")

  /** `toggleSensitiveData`: a hidden masked span is shown again, otherwise the value is revealed. */
  function Toggled(d: Display): (r: Display)
    ensures ExactlyOneVisible(r)
    ensures ExactlyOneVisible(d) ==> Visible(r.masked) == Visible(d.revealed)
  {
    if d.masked == "none" then Display("inline", "none") else Display("none", "inline")
  }

  /** Two clicks give back what was on screen. */
  lemma ToggleTwiceRestoresVisibility(d: Display)
    requires ExactlyOneVisible(d)
    ensures Visible(Toggled(Toggled(d)).masked) == Visible(d.masked)
    ensures Visible(Toggled(Toggled(d)).revealed) == Visible(d.revealed)
  {
  }

  /** After the first click the toggle is an exact involution on the style values. */
  lemma ToggleInvolutionAfterFirstClick(d: Display)
    ensures Toggled(Toggled(Toggled(d))) == Toggled(d)
  {
  }

  /** The first click on a freshly rendered field reveals the value. */
  lemma FirstClickReveals()
    ensures ExactlyOneVisible(InitialDisplay)
    ensures !Visible(Toggled(InitialDisplay).masked) && Visible(Toggled(InitialDisplay).revealed)
  {
  }

  /** The two spans of one rendered sensitive field. */
  class SensitiveField {
    var maskedStyle: string
    var revealedStyle: string

    /** The state the detail view renders. */
    constructor ()
      ensures Display(maskedStyle, revealedStyle) == InitialDisplay
    {
      maskedStyle := "";
      revealedStyle := "none";
    }

    /** One click on the field. */
    method Toggle()
      modifies this
      ensures Display(maskedStyle, revealedStyle) == Toggled(old(Display(maskedStyle, revealedStyle)))
      ensures ExactlyOneVisible(Display(maskedStyle, revealedStyle))
    {
      if maskedStyle == "none" {
        maskedStyle := "inline";
        revealedStyle := "none";
      } else {
        maskedStyle := "none";
        revealedStyle := "inline";
      }
    }
  }

  // ------------------------------------------------------------- logo path

  /** `p.replace(/\\/g, "/")`. */
  function ForwardSlashes(p: string): (r: string)
    ensures |r| == |p|
    ensures forall i :: 0 <= i < |p| ==> r[i] == if p[i] == '\\' then '/' else p[i]
  {
    if p == [] then [] else [if p[0] == '\\' then '/' else p[0]] + ForwardSlashes(p[1..])
  }

  /** The logo `src`: none without a stored path, otherwise '/' and the path with forward slashes only. */
  function LogoUrl(path: Field): (r: Option<string>)
    ensures r.None? <==> !Truthy(path)
    ensures r.Some? ==> |r.value| == |path.s| + 1 && r.value[0] == '/'
    ensures r.Some? ==> forall i :: 0 <= i < |r.value| ==> r.value[i] != '\\'
    ensures r.Some? ==> forall i :: 0 <= i < |path.s| && path.s[i] != '\\' ==> r.value[i + 1] == path.s[i]
    ensures r.Some? ==> forall i :: 0 <= i < |path.s| && path.s[i] == '\\' ==> r.value[i + 1] == '/'
  {
    if Truthy(path) then Some("/" + ForwardSlashes(path.s)) else None
  }

  /** Normalising twice is the same as once, and a path with forward slashes only is kept. */
  lemma ForwardSlashesIdempotent(p: string)
    ensures ForwardSlashes(ForwardSlashes(p)) == ForwardSlashes(p)
    ensures (forall i :: 0 <= i < |p| ==> p[i] != '\\') ==> ForwardSlashes(p) == p
  {
  }

  // ------------------------------------------------------------ intake detail

  /** What the intake detail view shows of a row, for the fields that carry a rule. */
  datatype IntakeDetail = IntakeDetail(card: SensitiveText, cvv: SensitiveText, wifiPassword: SensitiveText, logo: Option<string>)

  function IntakeDetailOf(fields: IntakeFields): IntakeDetail {
    IntakeDetail(CardText(Get(fields, "cardNumber")), CvvText(Get(fields, "cardCVV")),
                 WifiPasswordText(Get(fields, "wifiPassword")), LogoUrl(Get(fields, LogoColumn)))
  }

  datatype IntakeView =
    | ShowIntake(detail: IntakeDetail)
    | FormNotFound          // alert('Form not found')
    | IntakeLoadError       // alert('Error loading form details')

  /**
   * `viewIntakeDetails(id)` over the fetched list (`None` when the fetch
   * failed): the first row with that id, shown; 'Form not found' otherwise.
   */
  function ViewIntakeDetails(response: Option<seq<Row<IntakeFields>>>, id: int): (r: IntakeView)
    ensures response.None? <==> r == IntakeLoadError
    ensures response.Some? ==>
      (r == FormNotFound <==> forall k :: 0 <= k < |response.value| ==> response.value[k].id != id)
    ensures r.ShowIntake? ==>
      exists k :: 0 <= k < |response.value| && response.value[k].id == id
        && (forall j :: 0 <= j < k ==> response.value[j].id != id)
        && r.detail == IntakeDetailOf(response.value[k].data)
  {
    match response
    case None => IntakeLoadError
    case Some(rows) =>
      FindByIdSpec(rows, id);
      match FindById(rows, id)
      case None => FormNotFound
      case Some(row) => ShowIntake(IntakeDetailOf(row.data))
  }

  // -------------------------------------------------------------- quiz detail

  /** `quizQuestions`, the ten question texts shown beside the answers. */
  const QuizQuestions: seq<string> := [
    "What CPT code is used for dark adaptation test reimbursement in patients meeting medical necessity criteria?",
    "What are three patient groups who should routinely receive Twilight testing?",
    "How long does a Twilight rapid dark adaptation test typically take?",
    "Where is the optimal placement for Twilight in clinic workflow?",
    "What age threshold triggers routine testing?",
    "What is the reimbursement pathway for CPT 92284 for tests conducted in patients with medical necessity?",
    "Which common diagnostics are usually performed after a Twilight-positive finding to identify reasons for delayed dark adaptation?",
    "How do you confirm headset and earphone functionality?",
    "What are the obligations of a 'Twilight Champion'?",
    "How long is an operator's certification valid before renewal?"
  ]

  const NoAnswerPlaceholder := "<em style=\"color: #a0aec0;\">No answer provided</em>"

  /** One question of the detail view with the answer text shown under it. */
  datatype AnswerLine = AnswerLine(question: string, shown: string)

  /** `submission['question' + (i + 1)] || placeholder`, for each of the ten questions. */
  function AnswerLines(rec: QuizRecord): (r: seq<AnswerLine>)
    ensures |r| == |QuizQuestions| == QuestionCount
    ensures forall i :: 0 <= i < |r| ==> r[i].question == QuizQuestions[i]
    ensures forall i :: 0 <= i < |r| && rec.answers[i] != "" ==> r[i].shown == rec.answers[i]
    ensures forall i :: 0 <= i < |r| && rec.answers[i] == "" ==> r[i].shown == NoAnswerPlaceholder
  {
    seq(|QuizQuestions|, i requires 0 <= i < |QuizQuestions| =>
      AnswerLine(QuizQuestions[i], if rec.answers[i] != "" then rec.answers[i] else NoAnswerPlaceholder))
  }

  datatype QuizDetail = QuizDetail(clientName: string, scoreClass: string, status: string, statusClass: string, lines: seq<AnswerLine>)

  datatype QuizView =
    | ShowQuiz(detail: QuizDetail)
    | QuizLoadError         // alert('Error loading quiz details')

  /**
   * `viewQuizDetails(id)` over the fetch (`None` when the request itself
   * failed): anything but a found row, a 404 or a 500 included, ends in the alert.
   */
  function ViewQuizDetails(response: Option<QuizLookup>): (r: QuizView)
    ensures r == QuizLoadError <==> response.None? || !response.value.Found?
    ensures response.Some? && response.value.Found? ==>
      var s := response.value.row.data.score;
      && r.detail.clientName == response.value.row.data.clientName
      && (r.detail.status == "PASS" <==> s >= PassMark)
      && (r.detail.status == "FAIL" <==> s < PassMark)
      && r.detail.status == PassFailStatus(s)
      && r.detail.statusClass == PassFailClass(s)
      && r.detail.scoreClass == ScoreClass(s)
      && r.detail.lines == AnswerLines(response.value.row.data)
  {
    match response
    case None => QuizLoadError
    case Some(NotFound) => QuizLoadError
    case Some(ReadFailed) => QuizLoadError
    case Some(Found(row)) =>
      var s := row.data.score;
      ShowQuiz(QuizDetail(row.data.clientName, ScoreClass(s), PassFailStatus(s), PassFailClass(s), AnswerLines(row.data)))
  }
}
