/** The in-memory `SESSIONS` dictionary and the routes that read and update
    it in place. Each method is proved against the value-level transition of
    module SessionSpec that it implements. */
module Sessions {
  import opened Wrappers
  import opened Text
  import opened Questions
  import opened Evaluation
  import opened SessionSpec

  /** One user's interview. The question list, the narration references and
      the user details never change after registration; the cursor, the five
      answer slots and the stored result are updated by the routes. */
  class Session {
    const info: UserInfo
    const questions: seq<string>
    const audioUrls: seq<string>
    const answers: array<Option<string>>
    var current: int
    var finalResult: Option<Json>

    /** The session as a value. */
    ghost function View(): SessionState
      reads this, answers
    {
      SessionState(info, questions, audioUrls, current, answers[..], finalResult)
    }

    ghost predicate Valid()
      reads this, answers
    {
      Inv(View())
    }

    /** The dictionary `reg_int` stores: cursor 0, `[None]*5`, no result. */
    constructor (info: UserInfo, questions: seq<string>, audioUrls: seq<string>)
      requires |audioUrls| == |questions|
      ensures View() == Fresh(info, questions, audioUrls)
      ensures Valid()
      ensures fresh(answers)
    {
      this.info := info;
      this.questions := questions;
      this.audioUrls := audioUrls;
      answers := new Option<string>[SlotCount](_ => None);
      current := 0;
      finalResult := None;
      new;
      assert answers[..] == seq(SlotCount, _ => None);
    }

    /** `q`: the question under the cursor; the lookup fails when the cursor
        is past the end of the question list. */
    method Question() returns (r: Result<QuestionView, RouteError>)
      requires Valid()
      ensures r == CurrentQuestion(View())
    {
      if current < |questions| {
        r := Ok(QuestionView(questions[current], audioUrls[current], current + 1, SlotCount, info, answers[..]));
      } else {
        r := Err(QuestionOutOfRange);
      }
    }

    /** `submit`: the saved recording's path goes into the slot under the
        cursor. */
    method Submit(path: string)
      requires Valid()
      modifies answers
      ensures Valid()
      ensures View() == RecordAnswer(old(View()), path)
    {
      answers[current] := Some(path);
    }

    /** `next`: the cursor moves forward unless it is at slot 4. */
    method Next()
      requires Valid()
      modifies this
      ensures Valid()
      ensures View() == Advance(old(View()))
    {
      if current < LastSlot {
        current := current + 1;
      }
    }

    /** `prev`: the cursor moves back unless it is at slot 0. */
    method Prev()
      requires Valid()
      modifies this
      ensures Valid()
      ensures View() == Retreat(old(View()))
    {
      if current > 0 {
        current := current - 1;
      }
    }

    /** `submit_all`: upload the answered slots, compose the tagged request,
        score it and parse the reply. On success the parsed result is stored
        and `released` lists the uploads deleted afterwards; on failure the
        session is unchanged and nothing is deleted. */
    method SubmitAll(fileExists: string -> bool, upload: (nat, string) -> Option<FileRef>,
                     generate: EvalRequest -> Option<string>, parse: string -> Option<Json>)
      returns (ok: bool, released: seq<FileRef>)
      requires Valid()
      modifies this
      ensures Valid()
      ensures ok <==> Finalize(old(View()), fileExists, upload, generate, parse).Ok?
      ensures ok ==> View() == Finalize(old(View()), fileExists, upload, generate, parse).value
      ensures !ok ==> View() == old(View())
      ensures released == (if ok then ComposeRequest(info.company, info.role, questions, answers[..], fileExists, upload).attachments else [])
    {
      var slots := answers[..];
      var uploaded, answered := CollectUploads(slots, fileExists, upload);
      var tagged := TagQuestions(questions, answered);
      var files := seq(|uploaded|, k requires 0 <= k < |uploaded| => uploaded[k].file);
      var req := EvalRequest(info.company, info.role, answered, tagged, files);
      assert req == ComposeRequest(info.company, info.role, questions, slots, fileExists, upload);
      var reply := generate(req);
      if reply.None? {
        return false, [];
      }
      var result := parse(reply.value);
      if result.None? {
        return false, [];
      }
      finalResult := result;
      ok, released := true, files;
    }
  }

  /** `SESSIONS`: one session per logged-in user id. Distinct users hold
      distinct sessions, each built by its own registration. */
  class SessionStore {
    var sessions: map<UserId, Session>

    /** Every session object and answer array the store holds. */
    ghost function Objects(): set<object>
      reads this
    {
      (set u | u in sessions :: sessions[u]) + (set u | u in sessions :: sessions[u].answers)
    }

    ghost predicate Valid()
      reads this, Objects()
    {
      && (forall u :: u in sessions ==> sessions[u].Valid())
      && (forall u, v :: u in sessions && v in sessions && u != v ==>
            sessions[u] != sessions[v] && sessions[u].answers != sessions[v].answers)
    }

    constructor ()
      ensures sessions == map[]
      ensures Valid()
    {
      sessions := map[];
    }

    /** `reg_int` for user `userId`. `resume` is the extracted text, `None`
        when extraction raised. On success the user's session is replaced by
        a fresh one and every other user's is kept; on failure nothing
        changes. */
    method Register(userId: UserId, name: string, uid: string, role: string, company: Option<string>,
                    resume: Option<string>, generate: QuestionRequest -> Option<string>,
                    speak: (string, nat) -> Option<string>)
      returns (r: Result<(), RouteError>)
      requires Valid()
      modifies this
      ensures Valid()
      ensures r.Err? <==> Registration(name, uid, role, company, resume, generate, speak).Err?
      ensures r.Err? ==> r.error == Registration(name, uid, role, company, resume, generate, speak).error
      ensures r.Err? ==> sessions == old(sessions)
      ensures r.Ok? ==> userId in sessions && fresh(sessions[userId]) && fresh(sessions[userId].answers)
      ensures r.Ok? ==> sessions[userId].View() == Registration(name, uid, role, company, resume, generate, speak).value
      ensures r.Ok? ==> sessions.Keys == old(sessions.Keys) + {userId}
      ensures r.Ok? ==> forall u :: u in old(sessions) && u != userId ==> sessions[u] == old(sessions[u])
      ensures r.Ok? ==> Results(userId) == None
    {
      if resume.None? {
        return Err(ExtractionFailed);
      }
      var c := Strip(company.GetOr(""));
      var qs := GenerateQuestions(resume.value, role, c, generate);
      if qs.None? {
        return Err(GenerationFailed);
      }
      var audio := AudioRefs(qs.value, speak);
      var s := new Session(UserInfo(name, uid, role, CompanyOrDefault(c)), qs.value, audio);
      sessions := sessions[userId := s];
      r := Ok(());
    }

    /** `q` for user `userId`. */
    method Question(userId: UserId) returns (r: Result<QuestionView, RouteError>)
      requires Valid()
      ensures userId !in sessions ==> r == Err(NoSession)
      ensures userId in sessions ==> r == CurrentQuestion(sessions[userId].View())
    {
      if userId !in sessions {
        return Err(NoSession);
      }
      r := sessions[userId].Question();
    }

    /** `submit` for user `userId`; no other session changes. */
    method Submit(userId: UserId, path: string) returns (r: Result<(), RouteError>)
      requires Valid()
      modifies if userId in sessions then {sessions[userId].answers} else {}
      ensures Valid()
      ensures r.Err? <==> userId !in sessions
      ensures r.Err? ==> r.error == NoSession
      ensures userId in sessions ==> sessions[userId].View() == RecordAnswer(old(sessions[userId].View()), path)
      ensures forall u :: u in sessions && u != userId ==> sessions[u].View() == old(sessions[u].View())
    {
      if userId !in sessions {
        return Err(NoSession);
      }
      sessions[userId].Submit(path);
      r := Ok(());
    }

    /** `next` for user `userId`; no other session changes. */
    method Next(userId: UserId) returns (r: Result<(), RouteError>)
      requires Valid()
      modifies if userId in sessions then {sessions[userId]} else {}
      ensures Valid()
      ensures r.Err? <==> userId !in sessions
      ensures r.Err? ==> r.error == NoSession
      ensures userId in sessions ==> sessions[userId].View() == Advance(old(sessions[userId].View()))
      ensures forall u :: u in sessions && u != userId ==> sessions[u].View() == old(sessions[u].View())
    {
      if userId !in sessions {
        return Err(NoSession);
      }
      sessions[userId].Next();
      r := Ok(());
    }

    /** `prev` for user `userId`; no other session changes. */
    method Prev(userId: UserId) returns (r: Result<(), RouteError>)
      requires Valid()
      modifies if userId in sessions then {sessions[userId]} else {}
      ensures Valid()
      ensures r.Err? <==> userId !in sessions
      ensures r.Err? ==> r.error == NoSession
      ensures userId in sessions ==> sessions[userId].View() == Retreat(old(sessions[userId].View()))
      ensures forall u :: u in sessions && u != userId ==> sessions[u].View() == old(sessions[u].View())
    {
      if userId !in sessions {
        return Err(NoSession);
      }
      sessions[userId].Prev();
      r := Ok(());
    }

    /** `submit_all` for user `userId`: on success the value is the list of
        uploads deleted afterwards; no other session changes. */
    method SubmitAll(userId: UserId, fileExists: string -> bool, upload: (nat, string) -> Option<FileRef>,
                     generate: EvalRequest -> Option<string>, parse: string -> Option<Json>)
      returns (r: Result<seq<FileRef>, RouteError>)
      requires Valid()
      modifies if userId in sessions then {sessions[userId]} else {}
      ensures Valid()
      ensures userId !in sessions ==> r == Err(NoSession)
      ensures userId in sessions ==>
        var before := old(sessions[userId].View());
        && (r.Ok? <==> Finalize(before, fileExists, upload, generate, parse).Ok?)
        && (r.Err? ==> r.error == EvaluationFailed && sessions[userId].View() == before)
        && (r.Ok? ==> sessions[userId].View() == Finalize(before, fileExists, upload, generate, parse).value)
        && (r.Ok? ==> r.value == ComposeRequest(before.info.company, before.info.role, before.questions,
                                                before.answers, fileExists, upload).attachments)
      ensures r.Ok? ==> Results(userId).Some?
      ensures r.Err? ==> Results(userId) == old(Results(userId))
      ensures forall u :: u in sessions && u != userId ==> sessions[u].View() == old(sessions[u].View())
    {
      if userId !in sessions {
        return Err(NoSession);
      }
      var ok, released := sessions[userId].SubmitAll(fileExists, upload, generate, parse);
      if ok {
        r := Ok(released);
      } else {
        r := Err(EvaluationFailed);
      }
    }

    /** The `results` guard: the stored result, or `None` (a redirect to the
        interview page) when the user has no session or no result yet. */
    function Results(userId: UserId): (r: Option<Json>)
      reads this, Objects()
      ensures r.Some? <==> userId in sessions && sessions[userId].finalResult.Some?
      ensures r.Some? ==> r == sessions[userId].finalResult
    {
      if userId in sessions then sessions[userId].finalResult else None
    }
  }
}
