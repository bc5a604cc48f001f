/** The solver prompt: `build_solver_command` picks one of four fixed
    templates by which of the pull-request comments and user messages are
    present, and fills in the issue background and those texts.

    Each template is the newline-join of its lines. The long fixed lines (the
    wording) are kept in a record, each as a list of short pieces; the
    properties are proved for any wording without '=' in those lines, and
    the source's wording is shown to be such a wording. */
module CommandBuilder {
  import opened Wrappers
  import opened Strings

  const InstructionsHeader := "=== SYSTEM INSTRUCTIONS ==="
  const ContextHeader := "=== CONTEXT ==="
  const IssueLabel := "ISSUE DESCRIPTION"
  const PrCommentsHeader := "=== PULL REQUEST COMMENTS ==="
  const UserMessagesHeader := "=== USER MESSAGES ==="
  const ActionsHeader := "=== REQUIRED ACTIONS ==="
  const RequirementsHeader := "=== SYSTEM REQUIREMENTS ==="

  /** The long fixed lines of the templates, each as the pieces it is the
      concatenation of. */
  datatype Wording = Wording(
    instructions: seq<string>,
    requirements: seq<string>,
    reviewIssue: seq<string>,
    implementSecond: seq<string>,
    ensureThird: seq<string>,
    reviewPrAndChat: seq<string>,
    implementThird: seq<string>,
    ensureFourth: seq<string>,
    reviewPr: seq<string>,
    reviewChat: seq<string>)

  const InstructionsPieces: seq<string> := [
    "You are a helpful AI assistant ",
    "that interacts with a human ",
    "and implements code changes. ",
    "Your task is to analyze the ",
    "issue description and ",
    "specifically address the ",
    "conversation with the user. ",
    "Focus only on implementing ",
    "changes requested in the ",
    "conversation with the user. ",
    "Ensure your changes maintain ",
    "code quality and follow the ",
    "project's standards"]

  lemma InstructionsPiecesPlain()
    ensures '=' !in Concat(InstructionsPieces)
  {
    InstructionsFirstPlain();
    InstructionsMiddlePlain();
    InstructionsLastPlain();
    PiecesPlain(InstructionsPieces);
  }

  // The instruction pieces are checked a few at a time.

  lemma InstructionsFirstPlain()
    ensures forall k :: 0 <= k < 4 ==> '=' !in InstructionsPieces[k]
  {
    assert '=' !in InstructionsPieces[0];
    assert '=' !in InstructionsPieces[1];
    assert '=' !in InstructionsPieces[2];
    assert '=' !in InstructionsPieces[3];
  }

  lemma InstructionsMiddlePlain()
    ensures forall k :: 4 <= k < 8 ==> '=' !in InstructionsPieces[k]
  {
    assert '=' !in InstructionsPieces[4];
    assert '=' !in InstructionsPieces[5];
    assert '=' !in InstructionsPieces[6];
    assert '=' !in InstructionsPieces[7];
  }

  lemma InstructionsLastPlain()
    ensures forall k :: 8 <= k < |InstructionsPieces| ==> '=' !in InstructionsPieces[k]
  {
    assert '=' !in InstructionsPieces[8];
    assert '=' !in InstructionsPieces[9];
    assert '=' !in InstructionsPieces[10];
    assert '=' !in InstructionsPieces[11];
    assert '=' !in InstructionsPieces[12];
  }

  const RequirementsPieces: seq<string> := [
    "NEVER COMMIT THE CHANGES ",
    "PROPOSED. NEVER PUSH THE ",
    "CHANGES. ALWAYS STAY IN THE ",
    "SAME REPOSITORY BRANCH."]

  lemma RequirementsPiecesPlain()
    ensures '=' !in Concat(RequirementsPieces)
  {
    assert '=' !in RequirementsPieces[0];
    assert '=' !in RequirementsPieces[1];
    assert '=' !in RequirementsPieces[2];
    assert '=' !in RequirementsPieces[3];
    PiecesPlain(RequirementsPieces);
  }

  const ReviewIssuePieces: seq<string> := [
    "1. Review the issue ",
    "description to understand the ",
    "context"]

  lemma ReviewIssuePiecesPlain()
    ensures '=' !in Concat(ReviewIssuePieces)
  {
    assert '=' !in ReviewIssuePieces[0];
    assert '=' !in ReviewIssuePieces[1];
    assert '=' !in ReviewIssuePieces[2];
    PiecesPlain(ReviewIssuePieces);
  }

  const ImplementSecondPieces: seq<string> := [
    "2. Implement the necessary ",
    "code changes to solve the ",
    "issue"]

  lemma ImplementSecondPiecesPlain()
    ensures '=' !in Concat(ImplementSecondPieces)
  {
    assert '=' !in ImplementSecondPieces[0];
    assert '=' !in ImplementSecondPieces[1];
    assert '=' !in ImplementSecondPieces[2];
    PiecesPlain(ImplementSecondPieces);
  }

  const EnsureThirdPieces: seq<string> := [
    "3. Ensure your changes ",
    "maintain code quality and ",
    "follow the project's standards"]

  lemma EnsureThirdPiecesPlain()
    ensures '=' !in Concat(EnsureThirdPieces)
  {
    assert '=' !in EnsureThirdPieces[0];
    assert '=' !in EnsureThirdPieces[1];
    assert '=' !in EnsureThirdPieces[2];
    PiecesPlain(EnsureThirdPieces);
  }

  const ReviewPrAndChatPieces: seq<string> := [
    "2. Review the pull request ",
    "comments and user messages"]

  lemma ReviewPrAndChatPiecesPlain()
    ensures '=' !in Concat(ReviewPrAndChatPieces)
  {
    assert '=' !in ReviewPrAndChatPieces[0];
    assert '=' !in ReviewPrAndChatPieces[1];
    PiecesPlain(ReviewPrAndChatPieces);
  }

  const ImplementThirdPieces: seq<string> := [
    "3. Implement the necessary ",
    "code changes to solve the ",
    "issue"]

  lemma ImplementThirdPiecesPlain()
    ensures '=' !in Concat(ImplementThirdPieces)
  {
    assert '=' !in ImplementThirdPieces[0];
    assert '=' !in ImplementThirdPieces[1];
    assert '=' !in ImplementThirdPieces[2];
    PiecesPlain(ImplementThirdPieces);
  }

  const EnsureFourthPieces: seq<string> := [
    "4. Ensure your changes ",
    "maintain code quality and ",
    "follow the project's standards"]

  lemma EnsureFourthPiecesPlain()
    ensures '=' !in Concat(EnsureFourthPieces)
  {
    assert '=' !in EnsureFourthPieces[0];
    assert '=' !in EnsureFourthPieces[1];
    assert '=' !in EnsureFourthPieces[2];
    PiecesPlain(EnsureFourthPieces);
  }

  const ReviewPrPieces: seq<string> := [
    "2. Review the pull request ",
    "comments"]

  lemma ReviewPrPiecesPlain()
    ensures '=' !in Concat(ReviewPrPieces)
  {
    assert '=' !in ReviewPrPieces[0];
    assert '=' !in ReviewPrPieces[1];
    PiecesPlain(ReviewPrPieces);
  }

  const ReviewChatPieces: seq<string> := [
    "2. Review the user messages"]

  lemma ReviewChatPiecesPlain()
    ensures '=' !in Concat(ReviewChatPieces)
  {
    assert '=' !in ReviewChatPieces[0];
    PiecesPlain(ReviewChatPieces);
  }

  /** The wording of the four templates. */
  const SourceWording := Wording(
    InstructionsPieces,
    RequirementsPieces,
    ReviewIssuePieces,
    ImplementSecondPieces,
    EnsureThirdPieces,
    ReviewPrAndChatPieces,
    ImplementThirdPieces,
    EnsureFourthPieces,
    ReviewPrPieces,
    ReviewChatPieces)

  /** None of the long fixed lines holds an '='. */
  predicate Plain(w: Wording) {
    '=' !in Concat(w.instructions) &&
    '=' !in Concat(w.requirements) &&
    '=' !in Concat(w.reviewIssue) &&
    '=' !in Concat(w.implementSecond) &&
    '=' !in Concat(w.ensureThird) &&
    '=' !in Concat(w.reviewPrAndChat) &&
    '=' !in Concat(w.implementThird) &&
    '=' !in Concat(w.ensureFourth) &&
    '=' !in Concat(w.reviewPr) &&
    '=' !in Concat(w.reviewChat)
  }

  lemma PiecesPlain(ps: seq<string>)
    requires forall k :: 0 <= k < |ps| ==> '=' !in ps[k]
    ensures '=' !in Concat(ps)
  {
    ConcatFree(ps, '=');
  }

  lemma SourceWordingPlain()
    ensures Plain(SourceWording)
  {
    InstructionsPiecesPlain();
    RequirementsPiecesPlain();
    ReviewIssuePiecesPlain();
    ImplementSecondPiecesPlain();
    EnsureThirdPiecesPlain();
    ReviewPrAndChatPiecesPlain();
    ImplementThirdPiecesPlain();
    EnsureFourthPiecesPlain();
    ReviewPrPiecesPlain();
    ReviewChatPiecesPlain();
  }

  // ---------------------------------------------------------------------
  // The four templates
  // ---------------------------------------------------------------------

  /** The opening lines up to and including the issue background and the
      blank line after it. */
  function Opening(w: Wording, background: string): seq<string> {
    ["", InstructionsHeader, Concat(w.instructions), "", ContextHeader, IssueLabel, background, ""]
  }

  /** A titled section followed by a blank line. */
  function Section(header: string, body: string): seq<string> {
    [header, body, ""]
  }

  /** The numbered actions, then the system requirements; the final "" makes
      the text end in a newline. */
  function Closing(w: Wording, actions: seq<string>): seq<string> {
    [ActionsHeader] + actions + ["", RequirementsHeader, Concat(w.requirements), ""]
  }

  function BackgroundActions(w: Wording): seq<string> {
    [Concat(w.reviewIssue), Concat(w.implementSecond), Concat(w.ensureThird)]
  }

  function PrAndChatActions(w: Wording): seq<string> {
    [Concat(w.reviewIssue), Concat(w.reviewPrAndChat), Concat(w.implementThird), Concat(w.ensureFourth)]
  }

  function PrActions(w: Wording): seq<string> {
    [Concat(w.reviewIssue), Concat(w.reviewPr), Concat(w.implementThird), Concat(w.ensureFourth)]
  }

  function ChatActions(w: Wording): seq<string> {
    [Concat(w.reviewIssue), Concat(w.reviewChat), Concat(w.implementThird), Concat(w.ensureFourth)]
  }

  /** `_build_solver_command_from_instance_background`. */
  function FromBackground(w: Wording, background: string): string {
    Join(Opening(w, background) + Closing(w, BackgroundActions(w)), "\n")
  }

  /** `_build_solver_command_from_pr_and_chat`. */
  function FromPrAndChat(w: Wording, background: string, prComments: string, userMessages: string): string {
    Join(Opening(w, background) + Section(PrCommentsHeader, prComments)
         + Section(UserMessagesHeader, userMessages) + Closing(w, PrAndChatActions(w)), "\n")
  }

  /** `_build_solver_command_from_pr`. */
  function FromPr(w: Wording, background: string, prComments: string): string {
    Join(Opening(w, background) + Section(PrCommentsHeader, prComments) + Closing(w, PrActions(w)), "\n")
  }

  /** `_build_solver_command_from_chat`. */
  function FromChat(w: Wording, background: string, userMessages: string): string {
    Join(Opening(w, background) + Section(UserMessagesHeader, userMessages) + Closing(w, ChatActions(w)), "\n")
  }

  /** The dispatch of `build_solver_command` for a given wording: a missing
      or empty text counts as absent. */
  function BuildWith(w: Wording, background: string, prComments: Option<string>,
                     userMessages: Option<string>): string
  {
    if Truthy(prComments) && Truthy(userMessages) then
      FromPrAndChat(w, background, prComments.value, userMessages.value)
    else if Truthy(prComments) then FromPr(w, background, prComments.value)
    else if Truthy(userMessages) then FromChat(w, background, userMessages.value)
    else FromBackground(w, background)
  }

  /** `build_solver_command`. */
  function BuildSolverCommand(background: string, prComments: Option<string>,
                              userMessages: Option<string>): (r: string)
    ensures Contains(r, IssueLabel + "\n" + background + "\n")
    ensures Truthy(prComments) ==> Contains(r, PrCommentsHeader + "\n" + prComments.value + "\n")
    ensures Truthy(userMessages) ==> Contains(r, UserMessagesHeader + "\n" + userMessages.value + "\n")
  {
    BuildWithContents(SourceWording, background, prComments, userMessages);
    BuildWith(SourceWording, background, prComments, userMessages)
  }

  // ---------------------------------------------------------------------
  // The template as one list of lines
  // ---------------------------------------------------------------------

  /** The optional sections between the background and the actions. */
  function Middle(prComments: Option<string>, userMessages: Option<string>): seq<string> {
    (if Truthy(prComments) then Section(PrCommentsHeader, prComments.value) else [])
    + (if Truthy(userMessages) then Section(UserMessagesHeader, userMessages.value) else [])
  }

  /** The numbered actions of the chosen template. */
  function Actions(w: Wording, prComments: Option<string>, userMessages: Option<string>): seq<string> {
    if Truthy(prComments) && Truthy(userMessages) then PrAndChatActions(w)
    else if Truthy(prComments) then PrActions(w)
    else if Truthy(userMessages) then ChatActions(w)
    else BackgroundActions(w)
  }

  /** The lines of the template the dispatch picks. */
  function TemplateLines(w: Wording, background: string, prComments: Option<string>,
                         userMessages: Option<string>): seq<string>
  {
    Opening(w, background) + Middle(prComments, userMessages)
    + Closing(w, Actions(w, prComments, userMessages))
  }

  lemma TemplateLinesJoin(w: Wording, background: string, prComments: Option<string>,
                          userMessages: Option<string>)
    ensures BuildWith(w, background, prComments, userMessages)
         == Join(TemplateLines(w, background, prComments, userMessages), "\n")
  {
    var o := Opening(w, background);
    var m := Middle(prComments, userMessages);
    var c := Closing(w, Actions(w, prComments, userMessages));
    if Truthy(prComments) && Truthy(userMessages) {
      assert o + m + c == o + Section(PrCommentsHeader, prComments.value)
                         + Section(UserMessagesHeader, userMessages.value) + c;
    } else if Truthy(prComments) {
      assert m == Section(PrCommentsHeader, prComments.value);
    } else if Truthy(userMessages) {
      assert m == Section(UserMessagesHeader, userMessages.value);
    } else {
      assert o + m == o;
    }
  }

  lemma JoinThree(x: string, y: string, z: string)
    ensures Join([x, y, z], "\n") == x + "\n" + y + "\n" + z
  {
    assert [y, z][1..] == [z];
    assert Join([y, z], "\n") == y + "\n" + z;
    assert [x, y, z][1..] == [y, z];
  }

  // ---------------------------------------------------------------------
  // What every prompt contains
  // ---------------------------------------------------------------------

  /** Where the fixed lines and the sections sit in the template. */
  lemma TemplateLinesShape(w: Wording, background: string, prComments: Option<string>,
                           userMessages: Option<string>)
    ensures var lines := TemplateLines(w, background, prComments, userMessages);
      var m := 8 + |Middle(prComments, userMessages)|;
      && m + 5 <= |lines|
      && lines[1] == InstructionsHeader
      && lines[4] == ContextHeader
      && lines[5..8] == [IssueLabel, background, ""]
      && lines[m] == ActionsHeader
      && lines[|lines| - 3] == RequirementsHeader
      && lines[|lines| - 2] == Concat(w.requirements)
      && (Truthy(prComments) ==> lines[8..11] == Section(PrCommentsHeader, prComments.value))
      && (Truthy(userMessages) ==>
            var u := if Truthy(prComments) then 11 else 8;
            lines[u..u + 3] == Section(UserMessagesHeader, userMessages.value))
  {
  }

  /** A line of the list is part of the joined text. */
  lemma JoinedLine(lines: seq<string>, k: nat, x: string)
    requires k < |lines| && lines[k] == x
    ensures Contains(Join(lines, "\n"), x)
  {
    JoinContainsRun(lines, k, 1, "\n");
    assert lines[k..k + 1] == [x];
  }

  /** A titled section of the list is part of the joined text, with its body
      on the line after the header. */
  lemma JoinedSection(lines: seq<string>, k: nat, header: string, body: string)
    requires k + 3 <= |lines| && lines[k..k + 3] == [header, body, ""]
    ensures Contains(Join(lines, "\n"), header + "\n" + body + "\n")
  {
    JoinContainsRun(lines, k, 3, "\n");
    JoinThree(header, body, "");
    assert header + "\n" + body + "\n" + "" == header + "\n" + body + "\n";
  }

  /** Every prompt carries the fixed headers and the system requirements, and
      the background sits on its own line right after "ISSUE DESCRIPTION";
      each present text sits on its own line after its section header. */
  lemma BuildWithContents(w: Wording, background: string, prComments: Option<string>,
                          userMessages: Option<string>)
    ensures var r := BuildWith(w, background, prComments, userMessages);
      && Contains(r, InstructionsHeader)
      && Contains(r, ContextHeader)
      && Contains(r, IssueLabel + "\n" + background + "\n")
      && Contains(r, ActionsHeader)
      && Contains(r, RequirementsHeader)
      && Contains(r, Concat(w.requirements))
      && (Truthy(prComments) ==> Contains(r, PrCommentsHeader + "\n" + prComments.value + "\n"))
      && (Truthy(userMessages) ==> Contains(r, UserMessagesHeader + "\n" + userMessages.value + "\n"))
  {
    var lines := TemplateLines(w, background, prComments, userMessages);
    TemplateLinesJoin(w, background, prComments, userMessages);
    TemplateLinesShape(w, background, prComments, userMessages);
    var n := |lines|;
    var m := 8 + |Middle(prComments, userMessages)|;
    JoinedLine(lines, 1, InstructionsHeader);
    JoinedLine(lines, 4, ContextHeader);
    JoinedSection(lines, 5, IssueLabel, background);
    JoinedLine(lines, m, ActionsHeader);
    JoinedLine(lines, n - 3, RequirementsHeader);
    JoinedLine(lines, n - 2, Concat(w.requirements));
    if Truthy(prComments) {
      JoinedSection(lines, 8, PrCommentsHeader, prComments.value);
    }
    if Truthy(userMessages) {
      var u := if Truthy(prComments) then 11 else 8;
      JoinedSection(lines, u, UserMessagesHeader, userMessages.value);
    }
  }

  /** With both texts present, the background, the pull-request comments, the
      user messages and the required-actions header are consecutive lines, in
      that order, each section closed by one blank line. */
  lemma PrAndChatOrder(w: Wording, background: string, prComments: string, userMessages: string)
    ensures Contains(FromPrAndChat(w, background, prComments, userMessages),
                     Join([IssueLabel, background, "",
                           PrCommentsHeader, prComments, "",
                           UserMessagesHeader, userMessages, "",
                           ActionsHeader], "\n"))
  {
    var lines := Opening(w, background) + Section(PrCommentsHeader, prComments)
                 + Section(UserMessagesHeader, userMessages) + Closing(w, PrAndChatActions(w));
    assert lines[5..15] == [IssueLabel, background, "",
                            PrCommentsHeader, prComments, "",
                            UserMessagesHeader, userMessages, "",
                            ActionsHeader];
    JoinContainsRun(lines, 5, 10, "\n");
  }

  // ---------------------------------------------------------------------
  // What a prompt leaves out
  // ---------------------------------------------------------------------

  /** No line of the list contains the pattern. */
  predicate LinesFree(lines: seq<string>, pat: string) {
    forall k :: 0 <= k < |lines| ==> !Contains(lines[k], pat)
  }

  lemma LinesFreeAppend(xs: seq<string>, ys: seq<string>, pat: string)
    requires LinesFree(xs, pat) && LinesFree(ys, pat)
    ensures LinesFree(xs + ys, pat)
  {
    forall k | 0 <= k < |xs + ys| ensures !Contains((xs + ys)[k], pat) {
      if k >= |xs| {
        assert (xs + ys)[k] == ys[k - |xs|];
      }
    }
  }

  /** A line without '=' holds no section header. */
  lemma PlainLineFree(line: string, pat: string)
    requires '=' !in line && '=' in pat
    ensures !Contains(line, pat)
  {
    CharWitness(line, pat, '=');
  }

  /** The fixed lines of a plain wording hold no section header. */
  lemma FixedLinesFree(w: Wording, pat: string, background: string,
                       prComments: Option<string>, userMessages: Option<string>)
    requires Plain(w) && '=' in pat
    requires !Contains(InstructionsHeader, pat) && !Contains(ContextHeader, pat)
    requires !Contains(IssueLabel, pat) && !Contains(ActionsHeader, pat)
    requires !Contains(RequirementsHeader, pat) && !Contains("", pat)
    requires !Contains(background, pat)
    ensures LinesFree(Opening(w, background), pat)
    ensures LinesFree(Closing(w, Actions(w, prComments, userMessages)), pat)
  {
    PlainLineFree(Concat(w.instructions), pat);
    PlainLineFree(Concat(w.requirements), pat);
    PlainLineFree(Concat(w.reviewIssue), pat);
    PlainLineFree(Concat(w.implementSecond), pat);
    PlainLineFree(Concat(w.ensureThird), pat);
    PlainLineFree(Concat(w.reviewPrAndChat), pat);
    PlainLineFree(Concat(w.implementThird), pat);
    PlainLineFree(Concat(w.ensureFourth), pat);
    PlainLineFree(Concat(w.reviewPr), pat);
    PlainLineFree(Concat(w.reviewChat), pat);
    var acts := Actions(w, prComments, userMessages);
    assert LinesFree(acts, pat);
    LinesFreeAppend([ActionsHeader], acts, pat);
    LinesFreeAppend([ActionsHeader] + acts, ["", RequirementsHeader, Concat(w.requirements), ""], pat);
  }

  /** Without pull-request comments the prompt holds no pull-request
      comments header, unless the caller's own texts bring one in. */
  lemma PrSectionAbsent(w: Wording, background: string, prComments: Option<string>,
                        userMessages: Option<string>)
    requires Plain(w) && !Truthy(prComments)
    requires !Contains(background, PrCommentsHeader)
    requires Truthy(userMessages) ==> !Contains(userMessages.value, PrCommentsHeader)
    ensures !Contains(BuildWith(w, background, prComments, userMessages), PrCommentsHeader)
  {
    var pat := PrCommentsHeader;
    FixedLinesFree(w, pat, background, prComments, userMessages);
    var mid := Middle(prComments, userMessages);
    assert LinesFree(mid, pat);
    var lines := TemplateLines(w, background, prComments, userMessages);
    LinesFreeAppend(Opening(w, background), mid, pat);
    LinesFreeAppend(Opening(w, background) + mid, Closing(w, Actions(w, prComments, userMessages)), pat);
    TemplateLinesJoin(w, background, prComments, userMessages);
    JoinFree(lines, '\n', pat);
  }

  /** The user messages header occurs in no other header: it has a 'G',
      which they lack. */
  lemma UserHeaderNotInHeaders()
    ensures !Contains(InstructionsHeader, UserMessagesHeader)
    ensures !Contains(ContextHeader, UserMessagesHeader)
    ensures !Contains(IssueLabel, UserMessagesHeader)
    ensures !Contains(ActionsHeader, UserMessagesHeader)
    ensures !Contains(RequirementsHeader, UserMessagesHeader)
    ensures !Contains(PrCommentsHeader, UserMessagesHeader)
  {
    assert UserMessagesHeader[14] == 'G';
    CharWitness(InstructionsHeader, UserMessagesHeader, 'G');
    CharWitness(ActionsHeader, UserMessagesHeader, 'G');
    CharWitness(RequirementsHeader, UserMessagesHeader, 'G');
    CharWitness(PrCommentsHeader, UserMessagesHeader, 'G');
  }

  /** Without user messages the prompt holds no user messages header,
      unless the caller's own texts bring one in. */
  lemma UserSectionAbsent(w: Wording, background: string, prComments: Option<string>,
                          userMessages: Option<string>)
    requires Plain(w) && !Truthy(userMessages)
    requires !Contains(background, UserMessagesHeader)
    requires Truthy(prComments) ==> !Contains(prComments.value, UserMessagesHeader)
    ensures !Contains(BuildWith(w, background, prComments, userMessages), UserMessagesHeader)
  {
    var pat := UserMessagesHeader;
    UserHeaderNotInHeaders();
    FixedLinesFree(w, pat, background, prComments, userMessages);
    var mid := Middle(prComments, userMessages);
    assert LinesFree(mid, pat);
    var lines := TemplateLines(w, background, prComments, userMessages);
    LinesFreeAppend(Opening(w, background), mid, pat);
    LinesFreeAppend(Opening(w, background) + mid, Closing(w, Actions(w, prComments, userMessages)), pat);
    TemplateLinesJoin(w, background, prComments, userMessages);
    JoinFree(lines, '\n', pat);
  }

  /** A prompt of a plain wording has a pull-request comments section
      exactly when there are comments, provided the other texts do not bring
      in that header themselves. */
  lemma PrSectionIff(w: Wording, background: string, prComments: Option<string>,
                     userMessages: Option<string>)
    requires Plain(w)
    requires !Contains(background, PrCommentsHeader)
    requires Truthy(userMessages) ==> !Contains(userMessages.value, PrCommentsHeader)
    ensures Contains(BuildWith(w, background, prComments, userMessages), PrCommentsHeader)
            <==> Truthy(prComments)
  {
    if Truthy(prComments) {
      BuildWithContents(w, background, prComments, userMessages);
      assert PrCommentsHeader + "\n" + prComments.value + "\n" == PrCommentsHeader + ("\n" + prComments.value + "\n");
      ContainsHead(BuildWith(w, background, prComments, userMessages), PrCommentsHeader,
                   "\n" + prComments.value + "\n");
    } else {
      PrSectionAbsent(w, background, prComments, userMessages);
    }
  }

  /** A prompt of a plain wording has a user messages section exactly when
      there are messages, provided the other texts do not bring in that
      header themselves. */
  lemma UserSectionIff(w: Wording, background: string, prComments: Option<string>,
                       userMessages: Option<string>)
    requires Plain(w)
    requires !Contains(background, UserMessagesHeader)
    requires Truthy(prComments) ==> !Contains(prComments.value, UserMessagesHeader)
    ensures Contains(BuildWith(w, background, prComments, userMessages), UserMessagesHeader)
            <==> Truthy(userMessages)
  {
    if Truthy(userMessages) {
      BuildWithContents(w, background, prComments, userMessages);
      assert UserMessagesHeader + "\n" + userMessages.value + "\n" == UserMessagesHeader + ("\n" + userMessages.value + "\n");
      ContainsHead(BuildWith(w, background, prComments, userMessages), UserMessagesHeader,
                   "\n" + userMessages.value + "\n");
    } else {
      UserSectionAbsent(w, background, prComments, userMessages);
    }
  }
}

/** The source's own prompt: the facts proved above for any plain wording,
    instantiated with the wording `build_solver_command` uses. */
module SourcePrompt {
  import opened Wrappers
  import opened Strings
  import opened CommandBuilder

  /** The prompt always names the three system requirements. */
  lemma BuildSolverCommandContents(background: string, prComments: Option<string>,
                                   userMessages: Option<string>)
    ensures var r := BuildSolverCommand(background, prComments, userMessages);
      && Contains(r, InstructionsHeader)
      && Contains(r, IssueLabel + "\n" + background + "\n")
      && Contains(r, RequirementsHeader)
      && Contains(r, Concat(SourceWording.requirements))
      && (Truthy(prComments) ==> Contains(r, PrCommentsHeader + "\n" + prComments.value + "\n"))
      && (Truthy(userMessages) ==> Contains(r, UserMessagesHeader + "\n" + userMessages.value + "\n"))
  {
    BuildWithContents(SourceWording, background, prComments, userMessages);
  }

  /** The source's prompt has each optional section exactly when its text is
      present, provided no text brings in another section's header. */
  lemma BuildSolverCommandSections(background: string, prComments: Option<string>,
                                   userMessages: Option<string>)
    requires !Contains(background, PrCommentsHeader) && !Contains(background, UserMessagesHeader)
    requires Truthy(prComments) ==> !Contains(prComments.value, UserMessagesHeader)
    requires Truthy(userMessages) ==> !Contains(userMessages.value, PrCommentsHeader)
    ensures var r := BuildSolverCommand(background, prComments, userMessages);
      && (Contains(r, PrCommentsHeader) <==> Truthy(prComments))
      && (Contains(r, UserMessagesHeader) <==> Truthy(userMessages))
  {
    SourceWordingPlain();
    PrSectionIff(SourceWording, background, prComments, userMessages);
    UserSectionIff(SourceWording, background, prComments, userMessages);
  }
}
