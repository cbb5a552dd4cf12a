/** Question generation (`gen_questions` in app.py): the role-code table, the
    request sent to the language model, and the parser that turns the model's
    free-text reply into at most five question strings. */
module Questions {
  import opened Wrappers
  import opened Text

  /** The role codes the registration form offers, with their titles. */
  const RoleTable: map<string, string> := map[
    "SDE" := "Software Engineer",
    "DevOps" := "DevOps Engineer",
    "HR" := "HR Manager",
    "Marketing" := "Marketing Specialist",
    "Product" := "Product Manager",
    "Data Science" := "Data Scientist"
  ]

  /** The title used for any role code the table does not know. */
  const GenericRole: string := "Tech"

  /** The five questions used when the reply yields no usable line. */
  const DefaultQuestions: seq<string> := [
    "Tell me about yourself.",
    "Why do you want to work here?",
    "What is your biggest strength?",
    "Describe a challenge you faced.",
    "Where do you see yourself in 5 years?"
  ]

  /** At most this many parsed lines are kept. */
  const MaxQuestions: nat := 5

  /** `role_map.get(role, "Tech")`. */
  function RoleTitle(role: string): (title: string)
    ensures title != GenericRole <==> role in {"SDE", "DevOps", "HR", "Marketing", "Product", "Data Science"}
    ensures title in RoleTable.Values || title == GenericRole
  {
    if role in RoleTable then RoleTable[role] else GenericRole
  }

  /** Every code of the table maps to its own title. */
  lemma RoleTitles()
    ensures RoleTitle("SDE") == "Software Engineer"
    ensures RoleTitle("DevOps") == "DevOps Engineer"
    ensures RoleTitle("HR") == "HR Manager"
    ensures RoleTitle("Marketing") == "Marketing Specialist"
    ensures RoleTitle("Product") == "Product Manager"
    ensures RoleTitle("Data Science") == "Data Scientist"
    ensures RoleTitle("sde") == GenericRole
  {
  }

  /** What the generation prompt is built from: the role title, the resume
      text, and the target company when one was given. The prompt's wording
      is not modelled. */
  datatype QuestionRequest = QuestionRequest(roleTitle: string, resume: string, company: Option<string>)

  function QuestionPrompt(resume: string, role: string, company: string): (req: QuestionRequest)
    ensures req.roleTitle == RoleTitle(role) && req.resume == resume
    ensures req.company.Some? <==> Strip(company) != []
    ensures req.company.Some? ==> req.company.value == company
  {
    QuestionRequest(RoleTitle(role), resume, if Strip(company) != [] then Some(company) else None)
  }

  /** A reply line survives when it is not blank after stripping and the
      line as split (not stripped) does not start with "Note". */
  predicate Keep(line: string) {
    Strip(line) != [] && !StartsWith(line, "Note")
  }

  /** The surviving lines, stripped, in their original order. */
  function Usable(lines: seq<string>): (qs: seq<string>)
    ensures |qs| <= |lines|
    ensures forall k :: 0 <= k < |qs| ==> qs[k] != [] && IsStripped(qs[k])
  {
    if lines == [] then []
    else (if Keep(lines[0]) then [Strip(lines[0])] else []) + Usable(lines[1..])
  }

  /** The positions, from `i` on, of the lines `Keep` accepts. */
  ghost function KeptFrom(lines: seq<string>, i: nat): seq<nat>
    requires i <= |lines|
    decreases |lines| - i
  {
    if i == |lines| then []
    else (if Keep(lines[i]) then [i] else []) + KeptFrom(lines, i + 1)
  }

  /** `Usable` keeps exactly the lines `Keep` accepts, each stripped, in their
      original relative order: its k-th element is the stripped line at the
      k-th kept position, and those positions lie in range and are kept. */
  lemma {:induction false} UsableIsKeptLines(lines: seq<string>, i: nat)
    requires i <= |lines|
    ensures |KeptFrom(lines, i)| == |Usable(lines[i..])|
    ensures forall k :: 0 <= k < |KeptFrom(lines, i)| ==>
      i <= KeptFrom(lines, i)[k] < |lines| && Keep(lines[KeptFrom(lines, i)[k]])
      && Usable(lines[i..])[k] == Strip(lines[KeptFrom(lines, i)[k]])
    decreases |lines| - i
  {
    if i < |lines| {
      UsableIsKeptLines(lines, i + 1);
      assert lines[i..][1..] == lines[i + 1..];
      assert lines[i..][0] == lines[i];
    }
  }

  /** The kept positions increase strictly, and every line `Keep` accepts is
      at one of them: no usable line is lost or reordered. */
  lemma {:induction false} KeptInOrder(lines: seq<string>, i: nat)
    requires i <= |lines|
    ensures forall k :: 0 <= k < |KeptFrom(lines, i)| ==> i <= KeptFrom(lines, i)[k]
    ensures forall k, m :: 0 <= k < m < |KeptFrom(lines, i)| ==> KeptFrom(lines, i)[k] < KeptFrom(lines, i)[m]
    ensures forall j :: i <= j < |lines| && Keep(lines[j]) ==> j in KeptFrom(lines, i)
    decreases |lines| - i
  {
    if i < |lines| {
      KeptInOrder(lines, i + 1);
    }
  }

  function Min(a: int, b: int): int {
    if a <= b then a else b
  }

  /** Every default question is non-empty and stripped. */
  lemma DefaultsWellFormed()
    ensures forall k :: 0 <= k < |DefaultQuestions| ==> DefaultQuestions[k] != [] && IsStripped(DefaultQuestions[k])
  {
  }

  /** Line 98: strip the whole reply, split it on newlines, and keep the
      usable lines, stripped. */
  function ReplyLines(reply: string): (u: seq<string>)
    ensures forall k :: 0 <= k < |u| ==> u[k] != [] && IsStripped(u[k])
  {
    Usable(SplitLines(Strip(reply)))
  }

  /** Line 99: the first five usable lines, or the default questions when
      there is none. */
  function TakeQuestions(u: seq<string>): (qs: seq<string>)
    requires forall k :: 0 <= k < |u| ==> u[k] != [] && IsStripped(u[k])
    ensures 1 <= |qs| <= MaxQuestions
    ensures forall k :: 0 <= k < |qs| ==> qs[k] != [] && IsStripped(qs[k])
    ensures u == [] ==> qs == DefaultQuestions
    ensures u != [] ==> |qs| == Min(MaxQuestions, |u|) && qs == u[..|qs|]
  {
    if u != [] then u[..Min(MaxQuestions, |u|)] else DefaultsWellFormed(); DefaultQuestions
  }

  /** The whole parse: at most five non-empty stripped questions, the first
      usable lines of the reply in order, or the defaults when none is usable. */
  function ParseQuestions(reply: string): (qs: seq<string>)
    ensures 1 <= |qs| <= MaxQuestions
    ensures forall k :: 0 <= k < |qs| ==> qs[k] != [] && IsStripped(qs[k])
    ensures ReplyLines(reply) == [] ==> qs == DefaultQuestions
    ensures ReplyLines(reply) != [] ==>
      |qs| == Min(MaxQuestions, |ReplyLines(reply)|) && qs == ReplyLines(reply)[..|qs|]
  {
    TakeQuestions(ReplyLines(reply))
  }

  /** `gen_questions`: one request to the model, whose reply is parsed. The
      source catches no exception, so a failed call (`None`) fails the caller
      and the defaults are NOT used for it. */
  function GenerateQuestions(resume: string, role: string, company: string,
                             generate: QuestionRequest -> Option<string>): (qs: Option<seq<string>>)
    ensures qs.Some? <==> generate(QuestionPrompt(resume, role, company)).Some?
    ensures qs.Some? ==> 1 <= |qs.value| <= MaxQuestions
    ensures qs.Some? ==> qs.value == ParseQuestions(generate(QuestionPrompt(resume, role, company)).value)
  {
    match generate(QuestionPrompt(resume, role, company))
    case None => None
    case Some(reply) => Some(ParseQuestions(reply))
  }

  /** An empty reply gives the five defaults. */
  lemma EmptyReplyDefaults()
    ensures ParseQuestions("") == DefaultQuestions
  {
  }

  /** A later "Note" line with a leading blank is not filtered: the test
      looks at the unstripped line. */
  lemma IndentedNoteKept()
    ensures ParseQuestions("Q\n Note") == ["Q", "Note"]
  {
    IndentedNoteSplit();
    IndentedNoteLine();
    var lines := ["Q", " Note"];
    assert Usable(lines) == ["Q"] + Usable(lines[1..]);
    assert lines[1..][1..] == [];
    assert Usable(lines[1..]) == ["Note"];
  }

  lemma IndentedNoteSplit()
    ensures ReplyLines("Q\n Note") == Usable(["Q", " Note"])
  {
    StripStripped("Q\n Note");
    assert "Q\n Note" == "Q" + "\n" + " Note";
    SplitPrefix("Q", " Note");
    SplitNoNewline(" Note");
  }

  lemma IndentedNoteLine()
    ensures Keep("Q") && Strip("Q") == "Q"
    ensures Keep(" Note") && Strip(" Note") == "Note"
  {
    assert " Note"[1..] == "Note";
    assert TrimLeft(" Note") == "Note";
    StripStripped("Note");
    StripStripped("Q");
    assert " Note"[..4] != "Note";
  }

  /** On the first line the same blank is removed by the strip of the whole
      reply, so that "Note" line is dropped. */
  lemma LeadingNoteDropped()
    ensures ParseQuestions(" Note\nQ") == ["Q"]
  {
    LeadingNoteSplit();
    LeadingNoteLine();
    var lines := ["Note", "Q"];
    assert Usable(lines) == Usable(lines[1..]);
    assert lines[1..][1..] == [];
    assert Usable(lines[1..]) == ["Q"];
  }

  lemma LeadingNoteSplit()
    ensures ReplyLines(" Note\nQ") == Usable(["Note", "Q"])
  {
    assert " Note\nQ"[1..] == "Note\nQ";
    assert TrimLeft(" Note\nQ") == "Note\nQ";
    StripStripped("Note\nQ");
    assert "Note\nQ" == "Note" + "\n" + "Q";
    SplitPrefix("Note", "Q");
    SplitNoNewline("Q");
  }

  lemma LeadingNoteLine()
    ensures !Keep("Note")
    ensures Keep("Q") && Strip("Q") == "Q"
  {
    StripStripped("Q");
    assert "Note"[..4] == "Note";
  }

  /** One usable line gives one question: the result is not padded to five. */
  lemma SingleLineReply()
    ensures ParseQuestions("Q") == ["Q"]
  {
    StripStripped("Q");
    SplitNoNewline("Q");
    assert Usable(["Q"]) == ["Q"] + Usable([]);
  }
}
