/** Evaluation bookkeeping (`submit_all` in app.py): which answer slots are
    sent to the model as evidence, how each question is tagged, and what the
    scoring request carries. The upload, the file-exists test, the model call
    and `json.loads` are parameters. */
module Evaluation {
  import opened Wrappers

  /** A JSON document, as `json.loads` returns it. The stored result is kept
      verbatim: nothing checks its shape. */
  datatype Json =
    | JNull
    | JBool(b: bool)
    | JNumber(n: int)
    | JString(s: string)
    | JArray(items: seq<Json>)
    | JObject(fields: seq<(string, Json)>)

  /** The handle of a file uploaded to the model service. */
  type FileRef = string

  /** One entry of `uploaded`: the 0-based slot and the uploaded file. */
  datatype Upload = Upload(index: nat, file: FileRef)

  datatype Tag = Answered | Skipped

  /** One line "Q<number>: <text> [<tag>]" of the scoring prompt. */
  datatype TaggedQuestion = TaggedQuestion(number: nat, text: string, tag: Tag)

  /** What the scoring prompt is built from, and the audio sent with it. The
      fixed wording and rules of the prompt are not modelled. */
  datatype EvalRequest = EvalRequest(
    company: string,
    role: string,
    answered: seq<nat>,
    questions: seq<TaggedQuestion>,
    attachments: seq<FileRef>)

  /** Slot `i` is sent as evidence when its path is truthy (present and not
      empty), the file exists, and its upload does not raise. */
  predicate Sent(i: nat, slot: Option<string>, fileExists: string -> bool,
                 upload: (nat, string) -> Option<FileRef>)
  {
    slot.Some? && slot.value != "" && fileExists(slot.value) && upload(i, slot.value).Some?
  }

  /** The `uploaded` list after the loop has looked at the slots of `answers`. */
  function Uploads(answers: seq<Option<string>>, fileExists: string -> bool,
                   upload: (nat, string) -> Option<FileRef>): seq<Upload>
  {
    if answers == [] then []
    else
      var n := |answers| - 1;
      Uploads(answers[..n], fileExists, upload)
        + (if Sent(n, answers[n], fileExists, upload) then [Upload(n, upload(n, answers[n].value).value)] else [])
  }

  /** The 1-based positions of the uploaded slots (`answered_questions`). */
  function Positions(ups: seq<Upload>): seq<nat> {
    seq(|ups|, k requires 0 <= k < |ups| => ups[k].index + 1)
  }

  predicate StrictlyIncreasing(xs: seq<nat>) {
    forall k, m :: 0 <= k < m < |xs| ==> xs[k] < xs[m]
  }

  /** Every entry of `ups` is an upload of a sent slot of `answers` and
      carries the file that upload returned, and the slots increase. */
  predicate SentInOrder(ups: seq<Upload>, answers: seq<Option<string>>, fileExists: string -> bool,
                        upload: (nat, string) -> Option<FileRef>)
  {
    && (forall k :: 0 <= k < |ups| ==>
          ups[k].index < |answers| && Sent(ups[k].index, answers[ups[k].index], fileExists, upload)
          && ups[k].file == upload(ups[k].index, answers[ups[k].index].value).value)
    && (forall k, m :: 0 <= k < m < |ups| ==> ups[k].index < ups[m].index)
  }

  /** Every upload is of a sent slot, with the file its upload returned, and
      the slots are visited in increasing order. */
  lemma {:induction false} UploadsSound(answers: seq<Option<string>>, fileExists: string -> bool,
                                        upload: (nat, string) -> Option<FileRef>)
    ensures SentInOrder(Uploads(answers, fileExists, upload), answers, fileExists, upload)
  {
    if answers != [] {
      var n := |answers| - 1;
      var prefix := answers[..n];
      UploadsSound(prefix, fileExists, upload);
      var before := Uploads(prefix, fileExists, upload);
      var ups := Uploads(answers, fileExists, upload);
      assert forall k :: 0 <= k < |before| ==> ups[k] == before[k];
      assert forall k :: 0 <= k < |before| ==> answers[before[k].index] == prefix[before[k].index];
    }
  }

  /** Every sent slot of `answers` has an upload. */
  lemma {:induction false} UploadsComplete(answers: seq<Option<string>>, fileExists: string -> bool,
                                           upload: (nat, string) -> Option<FileRef>, i: nat)
    requires i < |answers| && Sent(i, answers[i], fileExists, upload)
    ensures exists k :: 0 <= k < |Uploads(answers, fileExists, upload)| && Uploads(answers, fileExists, upload)[k].index == i
  {
    var n := |answers| - 1;
    var prefix := answers[..n];
    var before := Uploads(prefix, fileExists, upload);
    var ups := Uploads(answers, fileExists, upload);
    if i == n {
      assert ups[|before|].index == i;
    } else {
      assert prefix[i] == answers[i];
      UploadsComplete(prefix, fileExists, upload, i);
      var k :| 0 <= k < |before| && before[k].index == i;
      assert ups[k] == before[k];
    }
  }

  /** So `answered_questions` is strictly increasing and holds `i + 1`
      exactly when slot `i` was sent. */
  lemma AnsweredAreSentSlots(answers: seq<Option<string>>, fileExists: string -> bool,
                             upload: (nat, string) -> Option<FileRef>)
    ensures StrictlyIncreasing(Positions(Uploads(answers, fileExists, upload)))
    ensures forall k :: 0 <= k < |Positions(Uploads(answers, fileExists, upload))| ==>
      1 <= Positions(Uploads(answers, fileExists, upload))[k] <= |answers|
    ensures forall i :: 0 <= i < |answers| ==>
      (i + 1 in Positions(Uploads(answers, fileExists, upload)) <==> Sent(i, answers[i], fileExists, upload))
  {
    var ups := Uploads(answers, fileExists, upload);
    UploadsSound(answers, fileExists, upload);
    forall i | 0 <= i < |answers| && Sent(i, answers[i], fileExists, upload)
      ensures i + 1 in Positions(ups)
    {
      UploadsComplete(answers, fileExists, upload, i);
      var k :| 0 <= k < |ups| && ups[k].index == i;
      assert Positions(ups)[k] == i + 1;
    }
  }

  /** The loop of lines 234-241: walk the slots in order, recording each
      sent slot's upload and its 1-based position. */
  method CollectUploads(answers: seq<Option<string>>, fileExists: string -> bool,
                        upload: (nat, string) -> Option<FileRef>)
    returns (uploaded: seq<Upload>, answered: seq<nat>)
    ensures uploaded == Uploads(answers, fileExists, upload)
    ensures answered == Positions(uploaded)
  {
    uploaded, answered := [], [];
    for i := 0 to |answers|
      invariant uploaded == Uploads(answers[..i], fileExists, upload)
      invariant answered == Positions(uploaded)
    {
      assert answers[..i + 1][..i] == answers[..i];
      if answers[i].Some? && answers[i].value != "" && fileExists(answers[i].value) {
        var file := upload(i, answers[i].value);
        if file.Some? {
          uploaded := uploaded + [Upload(i, file.value)];
          answered := answered + [i + 1];
        }
      }
    }
    assert answers[..|answers|] == answers;
  }

  /** The tag of question number `number` (1-based). */
  function TagOf(number: nat, answered: seq<nat>): Tag {
    if number in answered then Answered else Skipped
  }

  /** The question list of the scoring prompt. */
  function Tags(questions: seq<string>, answered: seq<nat>): seq<TaggedQuestion> {
    seq(|questions|, i requires 0 <= i < |questions| => TaggedQuestion(i + 1, questions[i], TagOf(i + 1, answered)))
  }

  /** The loop of lines 252-254: one prompt line per question, in order,
      tagged ANSWERED exactly when its 1-based number was answered. */
  method TagQuestions(questions: seq<string>, answered: seq<nat>) returns (tagged: seq<TaggedQuestion>)
    ensures tagged == Tags(questions, answered)
    ensures forall i :: 0 <= i < |questions| ==>
      tagged[i].number == i + 1 && tagged[i].text == questions[i]
      && (tagged[i].tag == Answered <==> i + 1 in answered)
  {
    tagged := [];
    for i := 0 to |questions|
      invariant |tagged| == i
      invariant forall j :: 0 <= j < i ==> tagged[j] == TaggedQuestion(j + 1, questions[j], TagOf(j + 1, answered))
    {
      var tag := if i + 1 in answered then Answered else Skipped;
      tagged := tagged + [TaggedQuestion(i + 1, questions[i], tag)];
    }
  }

  /** The scoring request `submit_all` sends for a session. */
  function ComposeRequest(company: string, role: string, questions: seq<string>,
                          answers: seq<Option<string>>, fileExists: string -> bool,
                          upload: (nat, string) -> Option<FileRef>): EvalRequest
  {
    var ups := Uploads(answers, fileExists, upload);
    var answered := Positions(ups);
    EvalRequest(company, role, answered, Tags(questions, answered),
                seq(|ups|, k requires 0 <= k < |ups| => ups[k].file))
  }

  /** `req` keeps the session's company, role and questions; a question is
      tagged ANSWERED exactly when its slot was sent as evidence (questions
      beyond the answer slots are SKIPPED); the answered positions increase
      strictly; and one audio file is attached per answered position, in
      order, the upload of that slot. */
  predicate ReflectsSlots(req: EvalRequest, company: string, role: string, questions: seq<string>,
                          answers: seq<Option<string>>, fileExists: string -> bool,
                          upload: (nat, string) -> Option<FileRef>)
  {
    && req.company == company && req.role == role
    && |req.questions| == |questions|
    && (forall i :: 0 <= i < |questions| ==> req.questions[i].text == questions[i] && req.questions[i].number == i + 1)
    && (forall i :: 0 <= i < |questions| ==>
          (req.questions[i].tag == Answered <==> i < |answers| && Sent(i, answers[i], fileExists, upload)))
    && StrictlyIncreasing(req.answered)
    && (forall i :: 0 <= i < |answers| ==> (i + 1 in req.answered <==> Sent(i, answers[i], fileExists, upload)))
    && |req.attachments| == |req.answered|
    && (forall k :: 0 <= k < |req.answered| ==>
          1 <= req.answered[k] <= |answers|
          && Sent(req.answered[k] - 1, answers[req.answered[k] - 1], fileExists, upload)
          && req.attachments[k] == upload(req.answered[k] - 1, answers[req.answered[k] - 1].value).value)
  }

  /** The request `submit_all` composes reflects the answer slots. */
  lemma RequestMatchesSlots(company: string, role: string, questions: seq<string>,
                            answers: seq<Option<string>>, fileExists: string -> bool,
                            upload: (nat, string) -> Option<FileRef>)
    ensures ReflectsSlots(ComposeRequest(company, role, questions, answers, fileExists, upload),
                          company, role, questions, answers, fileExists, upload)
  {
    UploadsSound(answers, fileExists, upload);
    AnsweredAreSentSlots(answers, fileExists, upload);
  }

  /** The model call and the parse of its reply, both of which may raise:
      `None` when either does. */
  function Evaluate(req: EvalRequest, generate: EvalRequest -> Option<string>,
                    parse: string -> Option<Json>): (r: Option<Json>)
    ensures r.Some? ==> generate(req).Some? && parse(generate(req).value) == r
    ensures generate(req).Some? && parse(generate(req).value).Some? ==> r.Some?
  {
    match generate(req)
    case None => None
    case Some(text) => parse(text)
  }

  /** With no slot sent, every question is tagged SKIPPED and nothing is
      attached. */
  lemma NothingAnswered(company: string, role: string, questions: seq<string>,
                        answers: seq<Option<string>>, fileExists: string -> bool,
                        upload: (nat, string) -> Option<FileRef>)
    requires forall i :: 0 <= i < |answers| ==> !Sent(i, answers[i], fileExists, upload)
    ensures ComposeRequest(company, role, questions, answers, fileExists, upload).answered == []
    ensures ComposeRequest(company, role, questions, answers, fileExists, upload).attachments == []
    ensures forall i :: 0 <= i < |questions| ==>
      ComposeRequest(company, role, questions, answers, fileExists, upload).questions[i].tag == Skipped
  {
    NoUploads(answers, fileExists, upload);
  }

  /** When no slot is sent, the loop uploads nothing. */
  lemma {:induction false} NoUploads(answers: seq<Option<string>>, fileExists: string -> bool,
                                     upload: (nat, string) -> Option<FileRef>)
    requires forall i :: 0 <= i < |answers| ==> !Sent(i, answers[i], fileExists, upload)
    ensures Uploads(answers, fileExists, upload) == []
  {
    if answers != [] {
      var n := |answers| - 1;
      assert forall i :: 0 <= i < n ==> answers[..n][i] == answers[i];
      NoUploads(answers[..n], fileExists, upload);
    }
  }
}
