/** The interview session as a value: what `reg_int` stores in `SESSIONS`,
    and how `q`, `submit`, `next`, `prev` and `submit_all` change it. The
    classes in module Sessions are proved against these functions. */
module SessionSpec {
  import opened Wrappers
  import opened Text
  import opened Questions
  import opened Evaluation

  /** `current_user.id`. */
  type UserId = int

  /** Number of answer slots, and of questions the page announces. */
  const SlotCount: nat := 5

  /** The highest cursor position. */
  const LastSlot: int := 4

  /** The marker stored when a question has no narration. */
  const NoAudio: string := "#"

  /** The company stored when the form gave none. */
  const DefaultCompany: string := "General"

  datatype UserInfo = UserInfo(name: string, uid: string, role: string, company: string)

  /** One entry of `SESSIONS`. */
  datatype SessionState = SessionState(
    info: UserInfo,
    questions: seq<string>,
    audioUrls: seq<string>,
    current: int,
    answers: seq<Option<string>>,
    finalResult: Option<Json>)

  /** What every stored session satisfies: five answer slots, a cursor in
      [0, 4], and one audio reference per question. */
  predicate Inv(s: SessionState) {
    |s.answers| == SlotCount && 0 <= s.current <= LastSlot && |s.audioUrls| == |s.questions|
  }

  /** Why a request failed. In the source each is an uncaught exception (a
      server error) except `EvaluationFailed`, which `submit_all` reports. */
  datatype RouteError =
    | NoSession            // `SESSIONS[current_user.id]` raises KeyError
    | QuestionOutOfRange   // `s["questions"][i]` raises IndexError
    | ExtractionFailed     // reading the resume raised
    | GenerationFailed     // the question-generation call raised
    | EvaluationFailed     // the scoring call or the JSON parse raised

  /** `u or "#"`: the narration URL, or the marker when there is none. */
  function OrNoAudio(u: Option<string>): (r: string)
    ensures r == NoAudio <==> u.None? || u.value == "" || u.value == NoAudio
    ensures r != NoAudio ==> u == Some(r)
  {
    if u.Some? && u.value != "" then u.value else NoAudio
  }

  /** Lines 178 and 182: one narration per question, by position; a
      question without narration gets the marker. */
  function AudioRefs(questions: seq<string>, speak: (string, nat) -> Option<string>): (refs: seq<string>)
    ensures |refs| == |questions|
    ensures forall i :: 0 <= i < |refs| ==> refs[i] == OrNoAudio(speak(questions[i], i))
    ensures forall i :: 0 <= i < |refs| ==> refs[i] == NoAudio || speak(questions[i], i) == Some(refs[i])
    ensures forall i :: 0 <= i < |refs| ==>
      (speak(questions[i], i).Some? && speak(questions[i], i).value != "" ==> refs[i] == speak(questions[i], i).value)
    ensures forall i :: 0 <= i < |refs| ==> speak(questions[i], i).None? ==> refs[i] == NoAudio
  {
    seq(|questions|, i requires 0 <= i < |questions| => OrNoAudio(speak(questions[i], i)))
  }

  /** `company or "General"`. */
  function CompanyOrDefault(company: string): (r: string)
    ensures r != ""
    ensures company != "" ==> r == company
    ensures company == "" ==> r == DefaultCompany
  {
    if company != "" then company else DefaultCompany
  }

  /** A session just registered: cursor 0, five empty slots, no result. */
  function Fresh(info: UserInfo, questions: seq<string>, audioUrls: seq<string>): SessionState {
    SessionState(info, questions, audioUrls, 0, seq(SlotCount, _ => None), None)
  }

  /** `reg_int` as a value. The resume text is `None` when extracting it
      raised; `generate` is the question-generation call and `speak` the
      narration of the question at a position. A failure of either of the
      first two ends the request with no session stored; narration never
      fails it. */
  function Registration(name: string, uid: string, role: string, company: Option<string>,
                        resume: Option<string>, generate: QuestionRequest -> Option<string>,
                        speak: (string, nat) -> Option<string>): (r: Result<SessionState, RouteError>)
    ensures r.Err? <==> resume.None? || GenerateQuestions(resume.value, role, Strip(company.GetOr("")), generate).None?
    ensures r.Err? ==> r.error == (if resume.None? then ExtractionFailed else GenerationFailed)
    ensures r.Ok? ==>
      && Inv(r.value)
      && r.value.current == 0
      && (forall i :: 0 <= i < SlotCount ==> r.value.answers[i] == None)
      && r.value.finalResult == None
      && 1 <= |r.value.questions| <= MaxQuestions
      && r.value.questions == GenerateQuestions(resume.value, role, Strip(company.GetOr("")), generate).value
      && r.value.info == UserInfo(name, uid, role, CompanyOrDefault(Strip(company.GetOr(""))))
      && |r.value.audioUrls| == |r.value.questions|
      && r.value.audioUrls == AudioRefs(r.value.questions, speak)
  {
    if resume.None? then Err(ExtractionFailed)
    else
      var c := Strip(company.GetOr(""));
      match GenerateQuestions(resume.value, role, c, generate)
      case None => Err(GenerationFailed)
      case Some(qs) =>
        Ok(Fresh(UserInfo(name, uid, role, CompanyOrDefault(c)), qs, AudioRefs(qs, speak)))
  }

  /** What `q` returns for the slot under the cursor. */
  datatype QuestionView = QuestionView(
    question: string,
    audio: string,
    index: nat,
    total: nat,
    info: UserInfo,
    answers: seq<Option<string>>)

  /** `q`: the question under the cursor, its 1-based index, the fixed total
      of five and the answers so far. Fails when the cursor is past the
      last question, which happens when fewer than five were generated. */
  function CurrentQuestion(s: SessionState): (r: Result<QuestionView, RouteError>)
    requires Inv(s)
    ensures r.Ok? <==> s.current < |s.questions|
    ensures r.Err? ==> r.error == QuestionOutOfRange
    ensures r.Ok? ==>
      && r.value.question == s.questions[s.current]
      && r.value.audio == s.audioUrls[s.current]
      && r.value.index == s.current + 1 && 1 <= r.value.index <= SlotCount
      && r.value.total == SlotCount
      && r.value.info == s.info && r.value.answers == s.answers
  {
    if s.current < |s.questions| then
      Ok(QuestionView(s.questions[s.current], s.audioUrls[s.current], s.current + 1, SlotCount, s.info, s.answers))
    else Err(QuestionOutOfRange)
  }

  function Max(a: int, b: int): int {
    if a <= b then b else a
  }

  /** `next`: the cursor moves to min(current + 1, 4); nothing else changes. */
  function Advance(s: SessionState): SessionState {
    s.(current := Min(s.current + 1, LastSlot))
  }

  /** `prev`: the cursor moves to max(current - 1, 0); nothing else changes. */
  function Retreat(s: SessionState): SessionState {
    s.(current := Max(s.current - 1, 0))
  }

  /** `submit`: the slot under the cursor holds the new path. */
  function RecordAnswer(s: SessionState, path: string): SessionState
    requires Inv(s)
  {
    s.(answers := s.answers[s.current := Some(path)])
  }

  /** A successful `submit_all`: the parsed result is stored, replacing any
      earlier one. */
  function Annotate(s: SessionState, result: Json): SessionState {
    s.(finalResult := Some(result))
  }

  /** The result of `submit_all` on a session: the request it sends, and the
      new state, or the error when the call or the parse fails, in which
      case the session is left as it was. */
  function Finalize(s: SessionState, fileExists: string -> bool, upload: (nat, string) -> Option<FileRef>,
                    generate: EvalRequest -> Option<string>, parse: string -> Option<Json>): (r: Result<SessionState, RouteError>)
    ensures r.Err? ==> r.error == EvaluationFailed
    ensures r.Ok? ==> r.value.finalResult.Some?
    ensures r.Ok? ==> r.value == s.(finalResult := r.value.finalResult)
  {
    var req := ComposeRequest(s.info.company, s.info.role, s.questions, s.answers, fileExists, upload);
    match Evaluate(req, generate, parse)
    case None => Err(EvaluationFailed)
    case Some(result) => Ok(Annotate(s, result))
  }

  /** Every transition keeps the session invariant, and only the one it
      names changes anything but its own field. */
  lemma TransitionsKeepInv(s: SessionState, path: string, result: Json)
    requires Inv(s)
    ensures Inv(Advance(s)) && Inv(Retreat(s)) && Inv(RecordAnswer(s, path)) && Inv(Annotate(s, result))
    ensures Advance(s).answers == s.answers && Retreat(s).answers == s.answers
    ensures Advance(s).finalResult == s.finalResult && Retreat(s).finalResult == s.finalResult
    ensures RecordAnswer(s, path).current == s.current && RecordAnswer(s, path).finalResult == s.finalResult
    ensures Annotate(s, result).answers == s.answers && Annotate(s, result).current == s.current
  {
  }

  /** A registered session satisfies the invariant. */
  lemma FreshInv(info: UserInfo, questions: seq<string>, audioUrls: seq<string>)
    requires |audioUrls| == |questions|
    ensures Inv(Fresh(info, questions, audioUrls))
  {
  }

  /** `next` is idempotent at the last slot and only there; `prev` at the
      first slot and only there. */
  lemma NavigationFixedPoints(s: SessionState)
    requires Inv(s)
    ensures Advance(s) == s <==> s.current == LastSlot
    ensures Retreat(s) == s <==> s.current == 0
  {
    if Advance(s) == s { assert Advance(s).current == s.current; }
    if Retreat(s) == s { assert Retreat(s).current == s.current; }
  }

  /** Away from the bounds, `prev` undoes `next` and `next` undoes `prev`. */
  lemma NavigationInverse(s: SessionState)
    requires Inv(s)
    ensures s.current < LastSlot ==> Retreat(Advance(s)) == s
    ensures s.current > 0 ==> Advance(Retreat(s)) == s
  {
  }

  /** `n` calls of `next`. */
  function AdvanceN(s: SessionState, n: nat): SessionState
    decreases n
  {
    if n == 0 then s else AdvanceN(Advance(s), n - 1)
  }

  /** `n` calls of `prev`. */
  function RetreatN(s: SessionState, n: nat): SessionState
    decreases n
  {
    if n == 0 then s else RetreatN(Retreat(s), n - 1)
  }

  /** However many times `next` is called, the cursor stops at 4, and
      however many times `prev` is called, it stops at 0. */
  lemma {:induction false} NavigationSaturates(s: SessionState, n: nat)
    requires Inv(s)
    ensures Inv(AdvanceN(s, n)) && AdvanceN(s, n) == s.(current := Min(s.current + n, LastSlot))
    ensures Inv(RetreatN(s, n)) && RetreatN(s, n) == s.(current := Max(s.current - n, 0))
    decreases n
  {
    if n > 0 {
      NavigationSaturates(Advance(s), n - 1);
      NavigationSaturates(Retreat(s), n - 1);
    }
  }

  /** Ten calls of `next` from the first slot reach the last one; ten calls
      of `prev` from there come back to the first. */
  lemma TenSteps(s: SessionState)
    requires Inv(s) && s.current == 0
    ensures AdvanceN(s, 10).current == LastSlot
    ensures RetreatN(AdvanceN(s, 10), 10).current == 0
  {
    NavigationSaturates(s, 10);
    NavigationSaturates(AdvanceN(s, 10), 10);
  }

  /** `submit` stores the path at the cursor, leaves every other slot as it
      was, and a second `submit` at the same cursor replaces the first. */
  lemma RecordAnswerOverwrites(s: SessionState, p: string, q: string)
    requires Inv(s)
    ensures RecordAnswer(s, p).answers[s.current] == Some(p)
    ensures forall i :: 0 <= i < SlotCount && i != s.current ==> RecordAnswer(s, p).answers[i] == s.answers[i]
    ensures RecordAnswer(RecordAnswer(s, p), q) == RecordAnswer(s, q)
  {
  }

  /** A failed `submit_all` leaves the session exactly as it was; a
      successful one stores what the parse returned for the reply to the
      request built from the session, and changes nothing else. */
  lemma FinalizeOutcome(s: SessionState, fileExists: string -> bool, upload: (nat, string) -> Option<FileRef>,
                        generate: EvalRequest -> Option<string>, parse: string -> Option<Json>)
    requires Inv(s)
    ensures var req := ComposeRequest(s.info.company, s.info.role, s.questions, s.answers, fileExists, upload);
      && (Finalize(s, fileExists, upload, generate, parse).Ok? <==>
            (generate(req).Some? && parse(generate(req).value).Some?))
      && (Finalize(s, fileExists, upload, generate, parse).Ok? ==>
            Finalize(s, fileExists, upload, generate, parse).value
              == s.(finalResult := parse(generate(req).value)))
      && (Finalize(s, fileExists, upload, generate, parse).Ok? ==> Inv(Finalize(s, fileExists, upload, generate, parse).value))
  {
  }

  /** A reply with one usable line gives a one-question session, whose
      second question `q` cannot show once `next` has been called. */
  lemma ShortReplyBreaksSecondQuestion(name: string, uid: string, role: string, resume: string,
                                       generate: QuestionRequest -> Option<string>,
                                       speak: (string, nat) -> Option<string>)
    requires generate(QuestionPrompt(resume, role, "")) == Some("Q")
    ensures Registration(name, uid, role, None, Some(resume), generate, speak).Ok?
    ensures CurrentQuestion(Registration(name, uid, role, None, Some(resume), generate, speak).value).Ok?
    ensures CurrentQuestion(Advance(Registration(name, uid, role, None, Some(resume), generate, speak).value))
            == Err(QuestionOutOfRange)
  {
    assert Strip("") == "";
    SingleLineReply();
  }
}
