/** The update-apis command of internal/command/command.go: for every API recorded in the
    language repository's pipeline state it asks git for the API's new commits and, when
    there are some, regenerates the API in a container, cleans and copies the output,
    records the newest commit in the state, commits and builds. Git, the container and
    the operating system are the oracles of `Env`; what the command does to them is the
    trace of `Action`s it performs, in order. */
module Update {
  import opened Strs
  import opened Outcome

  const PiperPrefix := "PiperOrigin-RevId: "
  const SourceLinkPrefix := "Source-Link: https://github.com/googleapis/googleapis/commit/"

  /** Error messages and the title of the pull request. */
  const DirtyLanguageRepo := "language repo must be clean before update"
  const NoTokenForPush := "no GitHub token supplied for push"
  const InvalidLanguage := "invalid -language flag specified: "
  const TokenRequiredForPush := "-github-token must be provided if -push is set to true"
  const PullRequestTitlePrefix := "feat: API regeneration: "

  function BuildChangedRepo(id: string): string {
    "building '" + id + "' created changes in the repo"
  }

  /** A googleapis commit: its hash and its message. */
  datatype Commit = Commit(hash: string, message: string)

  // ---------------------------------------------------------------------------
  // createCommitMessage
  // ---------------------------------------------------------------------------

  /** Every line followed by a newline. */
  function Terminated(lines: seq<string>): string
    decreases |lines|
  {
    if |lines| == 0 then "" else lines[0] + "\n" + Terminated(lines[1..])
  }

  /** The lines that start with the PiperOrigin-RevId prefix (`piper`), or the others, in
      order. */
  function Filter(lines: seq<string>, piper: bool): (r: seq<string>)
    ensures forall k | 0 <= k < |r| :: HasPrefix(r[k], PiperPrefix) == piper
    decreases |lines|
  {
    if |lines| == 0 then []
    else
      var last := lines[|lines| - 1];
      Filter(lines[..|lines| - 1], piper) + (if HasPrefix(last, PiperPrefix) == piper then [last] else [])
  }

  /** The commits in the order the message consumes them: from the last index down to
      the first, that is, oldest first. */
  function Reversed(commits: seq<Commit>): (r: seq<Commit>)
    ensures |r| == |commits|
    ensures forall k | 0 <= k < |r| :: r[k] == commits[|commits| - 1 - k]
  {
    seq(|commits|, k requires 0 <= k < |commits| => commits[|commits| - 1 - k])
  }

  /** The message lines of the commits, in order, filtered by `Filter`. */
  function MessageLines(order: seq<Commit>, piper: bool): seq<string>
    decreases |order|
  {
    if |order| == 0 then []
    else MessageLines(order[..|order| - 1], piper) + Filter(Split(order[|order| - 1].message, '\n'), piper)
  }

  /** One Source-Link line per commit, in order. */
  function SourceLinks(order: seq<Commit>): (r: seq<string>)
    ensures |r| == |order|
    ensures forall k | 0 <= k < |r| :: r[k] == SourceLinkPrefix + order[k].hash
  {
    seq(|order|, k requires 0 <= k < |order| => SourceLinkPrefix + order[k].hash)
  }

  /** The commit message for a batch of new commits (newest first, as git lists them):
      the ordinary message lines, then the PiperOrigin-RevId lines, then the Source-Link
      lines, each group oldest commit first. */
  function CommitMessage(commits: seq<Commit>): string {
    var order := Reversed(commits);
    Terminated(MessageLines(order, false) + MessageLines(order, true) + SourceLinks(order))
  }

  /** createCommitMessage, with its builder and its two line lists. */
  method CreateCommitMessage(commits: seq<Commit>) returns (msg: string)
    ensures msg == CommitMessage(commits)
  {
    ghost var order := Reversed(commits);
    var builder := "";
    var piperLines: seq<string> := [];
    var sourceLinkLines: seq<string> := [];
    var i := |commits| - 1;
    while i >= 0
      invariant -1 <= i < |commits|
      invariant builder == Terminated(MessageLines(order[..|commits| - 1 - i], false))
      invariant piperLines == MessageLines(order[..|commits| - 1 - i], true)
      invariant sourceLinkLines == SourceLinks(order[..|commits| - 1 - i])
    {
      ghost var done := order[..|commits| - 1 - i];
      var commit := commits[i];
      NextCommit(order, |commits| - 1 - i);
      sourceLinkLines := sourceLinkLines + [SourceLinkPrefix + commit.hash];
      builder, piperLines := ConsumeMessage(builder, MessageLines(done, false), piperLines, commit.message);
      i := i - 1;
    }
    assert order[..|commits|] == order;
    builder := WriteLines(builder, MessageLines(order, false), piperLines);
    builder := WriteLines(builder, MessageLines(order, false) + piperLines, sourceLinkLines);
    msg := builder;
  }

  /** Taking one more commit appends its lines to each group. */
  lemma NextCommit(order: seq<Commit>, n: nat)
    requires n < |order|
    ensures MessageLines(order[..n + 1], false) == MessageLines(order[..n], false) + Filter(Split(order[n].message, '\n'), false)
    ensures MessageLines(order[..n + 1], true) == MessageLines(order[..n], true) + Filter(Split(order[n].message, '\n'), true)
    ensures SourceLinks(order[..n + 1]) == SourceLinks(order[..n]) + [SourceLinkPrefix + order[n].hash]
  {
    assert order[..n + 1][..n] == order[..n];
  }

  /** The inner loop of createCommitMessage over the lines of one commit message: the
      PiperOrigin-RevId lines are set aside, the others written out. */
  method ConsumeMessage(builder: string, ghost written: seq<string>, piperLines: seq<string>, message: string)
    returns (builder': string, piperLines': seq<string>)
    requires builder == Terminated(written)
    ensures builder' == Terminated(written + Filter(Split(message, '\n'), false))
    ensures piperLines' == piperLines + Filter(Split(message, '\n'), true)
  {
    var messageLines := Split(message, '\n');
    builder', piperLines' := builder, piperLines;
    var j := 0;
    assert messageLines[..0] == [];
    assert written + [] == written;
    assert piperLines + [] == piperLines;
    while j < |messageLines|
      invariant 0 <= j <= |messageLines|
      invariant builder' == Terminated(written + Filter(messageLines[..j], false))
      invariant piperLines' == piperLines + Filter(messageLines[..j], true)
    {
      var line := messageLines[j];
      if HasPrefix(line, PiperPrefix) {
        SetAsideLine(piperLines, messageLines, j);
        piperLines' := piperLines' + [line];
      } else {
        WriteLine(written, messageLines, j);
        builder' := builder' + line + "\n";
      }
      j := j + 1;
    }
    assert messageLines[..|messageLines|] == messageLines;
  }

  /** A PiperOrigin-RevId line joins the lines set aside and is not written. */
  lemma SetAsideLine(piperLines: seq<string>, lines: seq<string>, j: nat)
    requires j < |lines| && HasPrefix(lines[j], PiperPrefix)
    ensures piperLines + Filter(lines[..j + 1], true) == piperLines + Filter(lines[..j], true) + [lines[j]]
    ensures Filter(lines[..j + 1], false) == Filter(lines[..j], false)
  {
    FilterNext(lines, j);
    assert Filter(lines[..j], false) + [] == Filter(lines[..j], false);
  }

  /** Any other line is written out, followed by a newline. */
  lemma WriteLine(written: seq<string>, lines: seq<string>, j: nat)
    requires j < |lines| && !HasPrefix(lines[j], PiperPrefix)
    ensures Terminated(written + Filter(lines[..j + 1], false))
         == Terminated(written + Filter(lines[..j], false)) + lines[j] + "\n"
    ensures Filter(lines[..j + 1], true) == Filter(lines[..j], true)
  {
    FilterNext(lines, j);
    assert Filter(lines[..j], true) + [] == Filter(lines[..j], true);
    assert written + (Filter(lines[..j], false) + [lines[j]]) == written + Filter(lines[..j], false) + [lines[j]];
    TerminatedSnoc(written + Filter(lines[..j], false), lines[j]);
  }

  /** Taking one more line adds it to the group it belongs to. */
  lemma FilterNext(lines: seq<string>, j: nat)
    requires j < |lines|
    ensures Filter(lines[..j + 1], true)
      == Filter(lines[..j], true) + if HasPrefix(lines[j], PiperPrefix) then [lines[j]] else []
    ensures Filter(lines[..j + 1], false)
      == Filter(lines[..j], false) + if HasPrefix(lines[j], PiperPrefix) then [] else [lines[j]]
  {
    assert lines[..j + 1][..j] == lines[..j];
  }

  /** Writes each line followed by a newline. */
  method WriteLines(builder: string, ghost written: seq<string>, lines: seq<string>) returns (builder': string)
    requires builder == Terminated(written)
    ensures builder' == Terminated(written + lines)
  {
    builder' := builder;
    var k := 0;
    assert written + lines[..0] == written;
    while k < |lines|
      invariant 0 <= k <= |lines|
      invariant builder' == Terminated(written + lines[..k])
    {
      assert written + lines[..k + 1] == (written + lines[..k]) + [lines[k]];
      TerminatedSnoc(written + lines[..k], lines[k]);
      builder' := builder' + lines[k] + "\n";
      k := k + 1;
    }
    assert lines[..k] == lines;
  }

  /** Writing one more line appends it and its newline. */
  lemma {:induction false} TerminatedSnoc(lines: seq<string>, line: string)
    ensures Terminated(lines + [line]) == Terminated(lines) + line + "\n"
    decreases |lines|
  {
    if |lines| > 0 {
      assert (lines + [line])[1..] == lines[1..] + [line];
      TerminatedSnoc(lines[1..], line);
    }
  }

  predicate NoNewline(s: string) {
    forall k | 0 <= k < |s| :: s[k] != '\n'
  }

  lemma FirstNewline(a: string, b: string)
    requires NoNewline(a)
    ensures IndexOf(a + "\n" + b, '\n') == |a|
  {
    var s := a + "\n" + b;
    forall k | 0 <= k < |a| ensures s[k] != '\n' {
      assert s[k] == a[k];
    }
    assert s[|a|] == '\n';
  }

  lemma NoNewlineConcat(a: string, b: string)
    requires NoNewline(a) && NoNewline(b)
    ensures NoNewline(a + b)
  {
    forall k | 0 <= k < |a + b| ensures (a + b)[k] != '\n' {
      if k >= |a| { assert (a + b)[k] == b[k - |a|]; }
    }
  }

  lemma SourceLinkPrefixOneLine()
    ensures NoNewline(SourceLinkPrefix)
  {
    var a, b, c := "Source-Link: https://", "github.com/googleapis/", "googleapis/commit/";
    assert '\n' !in a && '\n' !in b && '\n' !in c;
    NoNewlineConcat(a, b);
    NoNewlineConcat(a + b, c);
    SourceLinkPrefixPieces();
  }

  /** The prefix, cut where its three pieces are free of newlines. */
  lemma SourceLinkPrefixPieces()
    ensures SourceLinkPrefix == "Source-Link: https://" + "github.com/googleapis/" + "googleapis/commit/"
  {
    var a, b, c := "Source-Link: https://", "github.com/googleapis/", "googleapis/commit/";
    assert |a + b + c| == |SourceLinkPrefix|;
    forall k | 0 <= k < |SourceLinkPrefix|
      ensures (a + b + c)[k] == SourceLinkPrefix[k]
    {
    }
  }

  /** Splitting newline-terminated lines at the newlines gives the lines back, followed
      by the empty remainder after the last newline. */
  lemma {:induction false} SplitTerminated(lines: seq<string>)
    requires forall k | 0 <= k < |lines| :: NoNewline(lines[k])
    ensures Split(Terminated(lines), '\n') == lines + [""]
    decreases |lines|
  {
    if |lines| == 0 {
      assert Split("", '\n') == [""];
    } else {
      var rest := Terminated(lines[1..]);
      var s := lines[0] + "\n" + rest;
      assert Terminated(lines) == s;
      FirstNewline(lines[0], rest);
      assert s[..|lines[0]|] == lines[0];
      assert s[|lines[0]| + 1..] == rest;
      SplitTerminated(lines[1..]);
      assert lines + [""] == [lines[0]] + (lines[1..] + [""]);
    }
  }

  /** The filtered message lines of commits contain no newline. */
  lemma {:induction false} MessageLinesHaveNoNewline(order: seq<Commit>, piper: bool)
    ensures forall k | 0 <= k < |MessageLines(order, piper)| :: NoNewline(MessageLines(order, piper)[k])
    decreases |order|
  {
    if |order| > 0 {
      MessageLinesHaveNoNewline(order[..|order| - 1], piper);
      var parts := Split(order[|order| - 1].message, '\n');
      SplitPiecesLackSep(order[|order| - 1].message, '\n');
      FilterKeepsLines(parts, piper);
    }
  }

  /** Every filtered line is one of the input lines. */
  lemma {:induction false} FilterKeepsLines(lines: seq<string>, piper: bool)
    ensures forall k | 0 <= k < |Filter(lines, piper)| :: Filter(lines, piper)[k] in lines
    decreases |lines|
  {
    if |lines| > 0 {
      FilterKeepsLines(lines[..|lines| - 1], piper);
    }
  }

  /** Splitting the commit message at newlines yields exactly its three groups of lines
      (when no hash contains a newline). */
  lemma MessageRoundTrip(commits: seq<Commit>)
    requires forall k | 0 <= k < |commits| :: NoNewline(commits[k].hash)
    ensures var order := Reversed(commits);
      Split(CommitMessage(commits), '\n')
      == MessageLines(order, false) + MessageLines(order, true) + SourceLinks(order) + [""]
  {
    var order := Reversed(commits);
    var all := MessageLines(order, false) + MessageLines(order, true) + SourceLinks(order);
    MessageLinesHaveNoNewline(order, false);
    MessageLinesHaveNoNewline(order, true);
    forall k | 0 <= k < |all| ensures NoNewline(all[k]) {
      var n1 := |MessageLines(order, false)|;
      var n2 := n1 + |MessageLines(order, true)|;
      if k < n1 {
        assert all[k] == MessageLines(order, false)[k];
      } else if k < n2 {
        assert all[k] == MessageLines(order, true)[k - n1];
      } else {
        var h := order[k - n2].hash;
        assert all[k] == SourceLinkPrefix + h;
        SourceLinkPrefixOneLine();
        NoNewlineConcat(SourceLinkPrefix, h);
      }
    }
    SplitTerminated(all);
  }

  /** The message ends with the Source-Link line of the newest commit, commits[0]. */
  lemma NewestLinkLast(commits: seq<Commit>)
    requires |commits| > 0
    ensures HasSuffix(CommitMessage(commits), SourceLinkPrefix + commits[0].hash + "\n")
  {
    var order := Reversed(commits);
    var links := SourceLinks(order);
    var all := MessageLines(order, false) + MessageLines(order, true) + links;
    var last := SourceLinkPrefix + commits[0].hash;
    assert all[|all| - 1] == links[|order| - 1] == last;
    assert all == all[..|all| - 1] + [last];
    TerminatedEnds(all[..|all| - 1], last);
  }

  /** Terminated text ends with its last line and a newline. */
  lemma TerminatedEnds(init: seq<string>, last: string)
    ensures HasSuffix(Terminated(init + [last]), last + "\n")
  {
    TerminatedSnoc(init, last);
    assert Terminated(init) + last + "\n" == Terminated(init) + (last + "\n");
    SuffixOfConcat(Terminated(init), last + "\n");
  }

  /** Every message line lands in exactly one of the first two groups. */
  lemma {:induction false} FilterPartition(lines: seq<string>)
    ensures multiset(Filter(lines, false)) + multiset(Filter(lines, true)) == multiset(lines)
    decreases |lines|
  {
    if |lines| > 0 {
      FilterPartition(lines[..|lines| - 1]);
      assert lines == lines[..|lines| - 1] + [lines[|lines| - 1]];
    }
  }

  // ---------------------------------------------------------------------------
  // deriveImage
  // ---------------------------------------------------------------------------

  datatype AutomationLevel = Unspecified | Blocked | ManualReview | Automatic

  /** The per-API record of the pipeline state. */
  datatype ApiState = ApiState(id: string, lastGeneratedCommit: string, automationLevel: AutomationLevel)

  /** The pipeline state stored in generator-input/pipeline-state.json. */
  datatype PipelineState = PipelineState(imageTag: string, apiGenerationStates: seq<ApiState>)

  /** The generator image of a language, without repository or tag. */
  function ImageName(language: string): string {
    "google-cloud-" + language + "-generator"
  }

  /** The image tag: the state's, or "latest" without a state. */
  function ImageTag(state: Option<PipelineState>): string {
    if state.None? then "latest" else state.value.imageTag
  }

  /** The container image: the -image flag if given, otherwise
      google-cloud-<language>-generator tagged with the state's image tag ("latest"
      without a state), under the LIBRARIAN_REPOSITORY repository when that is set. */
  function DeriveImage(flagImage: string, repository: string, language: string, state: Option<PipelineState>)
    : (r: string)
    ensures flagImage != "" ==> r == flagImage
    ensures flagImage == "" ==> HasSuffix(r, ImageName(language) + ":" + ImageTag(state))
    ensures flagImage == "" && repository == "" ==> r == ImageName(language) + ":" + ImageTag(state)
    ensures flagImage == "" && repository != "" ==>
      HasPrefix(r, repository + "/") && |r| == |repository| + 1 + |ImageName(language) + ":" + ImageTag(state)|
  {
    if flagImage != "" then flagImage
    else
      var image := ImageName(language) + ":" + ImageTag(state);
      if repository == "" then
        assert image[|image| - |image|..] == image;
        image
      else
        PrefixOfConcat(repository + "/", image);
        SuffixOfConcat(repository + "/", image);
        repository + "/" + image
  }


  // ---------------------------------------------------------------------------
  // The environment and the actions
  // ---------------------------------------------------------------------------

  /** What the command does to the outside world. */
  datatype Action =
    | CopyGeneratorInput
    | MakeOutputDir(id: string)
    | Generate(image: string, id: string)
    | CleanRepo(image: string, id: string)
    | CopyOutput(id: string)
    | SaveState(state: PipelineState)
    | CommitChanges(message: string)
    | Build(image: string, id: string)
    | ResetApiRepo
    | PushBranch(branch: string)
    | CreatePullRequest(branch: string, title: string)

  datatype Repo = ApiRepo | LanguageRepo

  /** The answers of git, the container and the operating system. */
  datatype Env = Env(
    // the outcome of performing an action
    run: Action -> Status,
    // cloning (no root flag) or opening (root flag given) a repository
    obtain: Repo -> Status,
    // gitrepo.IsClean on a repository before any API is updated
    cleanAtStart: Repo -> Result<bool>,
    // loadState
    loadState: Result<PipelineState>,
    // gitrepo.HeadHash of the language repository before and after the updates
    headBefore: Result<string>,
    headAfter: Result<string>,
    // gitrepo.GetApiCommits(id, last generated commit), newest first
    apiCommits: (string, string) -> Result<seq<Commit>>,
    // gitrepo.AddAll for a commit message: whether the staged tree is clean
    addAll: string -> Result<bool>,
    // gitrepo.IsClean on the language repository after building an API
    cleanAfterBuild: string -> Result<bool>)

  /** The command-line flags (and the LIBRARIAN_REPOSITORY variable) update-apis reads;
      `timestamp` is the start of the run formatted as yyyyMMddTHHmmss. */
  datatype Flags = Flags(language: string, push: bool, gitHubToken: string, apiRoot: string,
                         repoRoot: string, apiPath: string, image: string, repository: string,
                         timestamp: string)

  /** supportedLanguages: only the languages mapped to true. */
  predicate SupportedLanguage(language: string) {
    language == "dotnet" || language == "java"
  }

  // ---------------------------------------------------------------------------
  // updateApi
  // ---------------------------------------------------------------------------

  /** The error, the actions performed, and the pipeline state after updating one API. */
  datatype Step = Step(err: Status, actions: seq<Action>, state: PipelineState)

  /** commitAll: no commit when the staged tree is clean. */
  function CommitAllSpec(env: Env, msg: string): (r: (Status, seq<Action>))
    ensures r.1 == [] || r.1 == [CommitChanges(msg)]
    ensures env.addAll(msg) == Ok(true) ==> r == (None, [])
  {
    match env.addAll(msg)
    case Err(e) => (Some(e), [])
    case Ok(clean) => if clean then (None, []) else (env.run(CommitChanges(msg)), [CommitChanges(msg)])
  }

  /** The state with API `i` recorded as generated at `hash`. */
  function Recorded(st: PipelineState, i: nat, hash: string): (r: PipelineState)
    requires i < |st.apiGenerationStates|
    ensures |r.apiGenerationStates| == |st.apiGenerationStates| && r.imageTag == st.imageTag
    ensures r.apiGenerationStates[i].lastGeneratedCommit == hash
  {
    st.(apiGenerationStates := st.apiGenerationStates[i := st.apiGenerationStates[i].(lastGeneratedCommit := hash)])
  }

  /** Every action of a successful update of an API with new commits, in order. */
  function Pipeline(image: string, id: string, saved: PipelineState, msg: string, committed: bool): seq<Action> {
    [MakeOutputDir(id), Generate(image, id), CleanRepo(image, id), CopyOutput(id), SaveState(saved)]
    + (if committed then [CommitChanges(msg)] else []) + [Build(image, id)]
  }

  /** Runs `acts` in order until one fails; returns the error and the actions performed. */
  function RunAll(env: Env, acts: seq<Action>): (Status, seq<Action>)
    decreases |acts|
  {
    if |acts| == 0 then (None, [])
    else if env.run(acts[0]).Some? then (env.run(acts[0]), [acts[0]])
    else
      var rest := RunAll(env, acts[1..]);
      (rest.0, [acts[0]] + rest.1)
  }

  /** Running the actions from index i performs acts[i] first. */
  lemma RunAllStep(env: Env, acts: seq<Action>, i: nat)
    requires i < |acts|
    ensures acts[..i + 1] == acts[..i] + [acts[i]]
    ensures RunAll(env, acts[i..]) == if env.run(acts[i]).Some? then (env.run(acts[i]), [acts[i]])
      else (RunAll(env, acts[i + 1..]).0, [acts[i]] + RunAll(env, acts[i + 1..]).1)
  {
    assert acts[i..][1..] == acts[i + 1..];
    assert acts[i..][0] == acts[i];
  }

  /** The actions performed are a prefix of those asked for: all of them exactly when
      every one succeeds, and otherwise up to the one that failed. */
  lemma {:induction false} RunAllPrefix(env: Env, acts: seq<Action>)
    ensures var r := RunAll(env, acts);
      && |r.1| <= |acts| && r.1 == acts[..|r.1|]
      && (r.0.None? <==> r.1 == acts && forall k | 0 <= k < |acts| :: env.run(acts[k]).None?)
      && (r.0.Some? ==> |r.1| > 0 && r.0 == env.run(r.1[|r.1| - 1]))
    decreases |acts|
  {
    if |acts| > 0 && env.run(acts[0]).None? {
      var rest := RunAll(env, acts[1..]);
      RunAllPrefix(env, acts[1..]);
      assert RunAll(env, acts) == (rest.0, [acts[0]] + rest.1);
      assert acts[..1 + |rest.1|] == [acts[0]] + acts[1..][..|rest.1|];
      assert forall k | 1 <= k < |acts| :: acts[k] == acts[1..][k - 1];
    }
  }

  /** updateApi after its skip checks, for an API with new commits. */
  function NewCommitsSpec(env: Env, image: string, st: PipelineState, i: nat, commits: seq<Commit>): Step
    requires i < |st.apiGenerationStates| && |commits| > 0
  {
    var id := st.apiGenerationStates[i].id;
    var first := RunAll(env, [MakeOutputDir(id), Generate(image, id), CleanRepo(image, id), CopyOutput(id)]);
    if first.0.Some? then Step(first.0, first.1, st)
    else
      var st' := Recorded(st, i, commits[0].hash);
      var save := env.run(SaveState(st'));
      if save.Some? then Step(save, first.1 + [SaveState(st')], st')
      else
        var msg := CommitMessage(commits);
        var (ce, cacts) := CommitAllSpec(env, msg);
        var done := first.1 + [SaveState(st')] + cacts;
        if ce.Some? then Step(ce, done, st')
        else
          var built := env.run(Build(image, id));
          if built.Some? then Step(built, done + [Build(image, id)], st')
          else match env.cleanAfterBuild(id)
            case Err(e) => Step(Some(e), done + [Build(image, id)], st')
            case Ok(clean) =>
              if !clean then Step(Some(BuildChangedRepo(id)), done + [Build(image, id)], st')
              else Step(None, done + [Build(image, id)], st')
  }

  /** updateApi: an API that is filtered out, blocked, or without new commits is left
      alone; otherwise it is regenerated, recorded, committed and built. */
  function UpdateApiSpec(env: Env, apiPath: string, image: string, st: PipelineState, i: nat): (r: Step)
    requires i < |st.apiGenerationStates|
    ensures |r.state.apiGenerationStates| == |st.apiGenerationStates|
  {
    var a := st.apiGenerationStates[i];
    if apiPath != "" && apiPath != a.id then Step(None, [], st)
    else if a.automationLevel == Blocked then Step(None, [], st)
    else match env.apiCommits(a.id, a.lastGeneratedCommit)
      case Err(e) => Step(Some(e), [], st)
      case Ok(commits) =>
        if |commits| == 0 then Step(None, [], st)
        else NewCommitsSpec(env, image, st, i, commits)
  }

  // ---------------------------------------------------------------------------
  // The update loop and the run
  // ---------------------------------------------------------------------------

  /** The loop over the APIs from index `i` to `n`, with `step` as the update of one
      API: the first failing API ends it. */
  function ApiLoop(step: (PipelineState, nat) -> Step, st: PipelineState, i: nat, n: nat): Step
    decreases n - i
  {
    if i >= n then Step(None, [], st)
    else
      var s := step(st, i);
      if s.err.Some? then s
      else Prepend(s.actions, ApiLoop(step, s.state, i + 1, n))
  }

  /** updateApi as a step of the loop. */
  function ApiStep(env: Env, apiPath: string, image: string): (PipelineState, nat) -> Step {
    (st: PipelineState, i: nat) =>
      if i < |st.apiGenerationStates| then UpdateApiSpec(env, apiPath, image, st, i) else Step(None, [], st)
  }

  /** The loop of CmdUpdateApis.Run over the APIs of the state, from index `i`. */
  function UpdateApisSpec(env: Env, apiPath: string, image: string, st: PipelineState, i: nat): (r: Step)
    requires i <= |st.apiGenerationStates|
    ensures |r.state.apiGenerationStates| == |st.apiGenerationStates|
  {
    ApiLoopLength(env, apiPath, image, st, i);
    ApiLoop(ApiStep(env, apiPath, image), st, i, |st.apiGenerationStates|)
  }

  /** The loop keeps the number of APIs. */
  lemma {:induction false} ApiLoopLength(env: Env, apiPath: string, image: string, st: PipelineState, i: nat)
    requires i <= |st.apiGenerationStates|
    ensures var n := |st.apiGenerationStates|;
      |ApiLoop(ApiStep(env, apiPath, image), st, i, n).state.apiGenerationStates| == n
    decreases |st.apiGenerationStates| - i
  {
    if i < |st.apiGenerationStates| {
      var s := UpdateApiSpec(env, apiPath, image, st, i);
      if s.err.None? {
        ApiLoopLength(env, apiPath, image, s.state, i + 1);
      }
    }
  }

  /** The API repository: its setup error, or whether it is hard-reset at the end
      (always when cloned; when opened, only if it was clean). */
  function ApiRepoSetup(env: Env, flags: Flags): (r: Result<bool>)
    ensures r == Ok(false) ==> flags.apiRoot != "" && env.cleanAtStart(ApiRepo) == Ok(false)
  {
    if env.obtain(ApiRepo).Some? then Err(env.obtain(ApiRepo).value)
    else if flags.apiRoot == "" then Ok(true)
    else env.cleanAtStart(ApiRepo)
  }

  /** The language repository check as the Go code runs it: an opened language
      repository is required to be clean, but the cleanliness asked about is the API
      repository's. */
  function LanguageRepoSetupAsWritten(env: Env, flags: Flags): (err: Status)
    ensures flags.repoRoot != "" && env.obtain(LanguageRepo).None? && env.cleanAtStart(ApiRepo) == Ok(false)
      ==> err == Some(DirtyLanguageRepo)
    ensures err.None? ==> env.obtain(LanguageRepo).None? && (flags.repoRoot == "" || env.cleanAtStart(ApiRepo) == Ok(true))
  {
    if env.obtain(LanguageRepo).Some? then env.obtain(LanguageRepo)
    else if flags.repoRoot == "" then None
    else match env.cleanAtStart(ApiRepo)
      case Err(e) => Some(e)
      case Ok(clean) => if !clean then Some(DirtyLanguageRepo) else None
  }

  /** The language repository check as evidently intended: an opened language
      repository must be clean. */
  function LanguageRepoSetup(env: Env, flags: Flags): (err: Status)
    ensures flags.repoRoot != "" && env.obtain(LanguageRepo).None? && env.cleanAtStart(LanguageRepo) == Ok(false)
      ==> err == Some(DirtyLanguageRepo)
    ensures err.None? ==> flags.repoRoot == "" || env.cleanAtStart(LanguageRepo) == Ok(true)
  {
    if env.obtain(LanguageRepo).Some? then env.obtain(LanguageRepo)
    else if flags.repoRoot == "" then None
    else match env.cleanAtStart(LanguageRepo)
      case Err(e) => Some(e)
      case Ok(clean) => if !clean then Some(DirtyLanguageRepo) else None
  }

  /** An opened language repository with local changes is accepted as written whenever
      the API repository is clean; the intended check rejects it. */
  lemma DirtyLanguageRepoAcceptedAsWritten(env: Env, flags: Flags)
    requires flags.repoRoot != "" && env.obtain(LanguageRepo).None?
    requires env.cleanAtStart(ApiRepo) == Ok(true) && env.cleanAtStart(LanguageRepo) == Ok(false)
    ensures LanguageRepoSetupAsWritten(env, flags).None?
    ensures LanguageRepoSetup(env, flags) == Some(DirtyLanguageRepo)
  {
  }

  /** The branch and the pull request of a push. */
  function PushSpec(env: Env, flags: Flags): (r: (Status, seq<Action>))
    ensures flags.push && flags.gitHubToken != "" ==>
      r.1 == [PushBranch("librarian-" + flags.timestamp)]
      || r.1 == [PushBranch("librarian-" + flags.timestamp),
                 CreatePullRequest("librarian-" + flags.timestamp, PullRequestTitlePrefix + flags.timestamp)]
  {
    if !flags.push then (None, [])
    else if flags.gitHubToken == "" then (Some(NoTokenForPush), [])
    else
      var branch := "librarian-" + flags.timestamp;
      var pushed := env.run(PushBranch(branch));
      if pushed.Some? then (pushed, [PushBranch(branch)])
      else
        var pr := CreatePullRequest(branch, PullRequestTitlePrefix + flags.timestamp);
        (env.run(pr), [PushBranch(branch), pr])
  }

  /** After the updates: the API repository is reset if it is to be, then the push when
      asked for and the head has moved. */
  function FinishSpec(env: Env, flags: Flags, hardReset: bool, before: string): (r: (Status, seq<Action>)) {
    var reset := if hardReset then [ResetApiRepo] else [];
    if !flags.push then (None, reset)
    else match env.headAfter
      case Err(e) => (Some(e), reset)
      case Ok(after) =>
        if before == after then (None, reset)
        else
          var (e, acts) := PushSpec(env, flags);
          (e, reset + acts)
  }

  /** CmdUpdateApis.Run: the error and every action performed. */
  function RunSpec(env: Env, flags: Flags): (r: (Status, seq<Action>)) {
    if !SupportedLanguage(flags.language) then (Some(InvalidLanguage + Quote(flags.language)), [])
    else if flags.push && flags.gitHubToken == "" then (Some(TokenRequiredForPush), [])
    else match ApiRepoSetup(env, flags)
      case Err(e) => (Some(e), [])
      case Ok(hardReset) =>
        var lerr := LanguageRepoSetupAsWritten(env, flags);
        if lerr.Some? then (lerr, [])
        else match env.loadState
          case Err(e) => (Some(e), [])
          case Ok(state) =>
            var image := DeriveImage(flags.image, flags.repository, flags.language, Some(state));
            var copied := env.run(CopyGeneratorInput);
            if copied.Some? then (copied, [CopyGeneratorInput])
            else match env.headBefore
              case Err(e) => (Some(e), [CopyGeneratorInput])
              case Ok(before) =>
                var s := UpdateApisSpec(env, flags.apiPath, image, state, 0);
                if s.err.Some? then (s.err, [CopyGeneratorInput] + s.actions)
                else
                  var (e, acts) := FinishSpec(env, flags, hardReset, before);
                  (e, [CopyGeneratorInput] + s.actions + acts)
  }

  /** A step whose actions follow `done`. */
  function Prepend(done: seq<Action>, s: Step): Step {
    Step(s.err, done + s.actions, s.state)
  }

  lemma AppendAssoc(a: seq<Action>, b: seq<Action>, c: seq<Action>)
    ensures a + b + c == a + (b + c)
  {
  }

  lemma PrependTwice(a: seq<Action>, b: seq<Action>, s: Step)
    ensures Prepend(a, Prepend(b, s)) == Prepend(a + b, s)
  {
    assert a + (b + s.actions) == a + b + s.actions;
  }

  /** One turn of the update loop. */
  lemma UpdateApisStep(env: Env, apiPath: string, image: string, st: PipelineState, i: nat)
    requires i < |st.apiGenerationStates|
    ensures var s := UpdateApiSpec(env, apiPath, image, st, i);
      UpdateApisSpec(env, apiPath, image, st, i)
      == if s.err.Some? then s else Prepend(s.actions, UpdateApisSpec(env, apiPath, image, s.state, i + 1))
  {
  }

  // ---------------------------------------------------------------------------
  // Properties
  // ---------------------------------------------------------------------------

  /** A filtered-out, blocked or unchanged API is left alone: no action, same state. */
  lemma SkippedApiUntouched(env: Env, apiPath: string, image: string, st: PipelineState, i: nat)
    requires i < |st.apiGenerationStates|
    requires var a := st.apiGenerationStates[i];
      (apiPath != "" && apiPath != a.id) || a.automationLevel == Blocked
      || env.apiCommits(a.id, a.lastGeneratedCommit) == Ok([])
    ensures UpdateApiSpec(env, apiPath, image, st, i) == Step(None, [], st)
  {
  }

  /** Updating an API changes at most its own record, and only its last generated
      commit: the other APIs, the ids and the automation levels stay as they were. */
  lemma UpdateApiChangesOnlyItsCommit(env: Env, apiPath: string, image: string, st: PipelineState, i: nat)
    requires i < |st.apiGenerationStates|
    ensures var r := UpdateApiSpec(env, apiPath, image, st, i).state;
      && r.imageTag == st.imageTag
      && forall k | 0 <= k < |st.apiGenerationStates| ::
        && r.apiGenerationStates[k].id == st.apiGenerationStates[k].id
        && r.apiGenerationStates[k].automationLevel == st.apiGenerationStates[k].automationLevel
        && (k != i ==> r.apiGenerationStates[k] == st.apiGenerationStates[k])
  {
    var a := st.apiGenerationStates[i];
    var r := UpdateApiSpec(env, apiPath, image, st, i).state;
    if (apiPath == "" || apiPath == a.id) && a.automationLevel != Blocked
       && env.apiCommits(a.id, a.lastGeneratedCommit).Ok? && |env.apiCommits(a.id, a.lastGeneratedCommit).value| > 0 {
      var commits := env.apiCommits(a.id, a.lastGeneratedCommit).value;
      NewCommitsState(env, image, st, i, commits);
      assert r == NewCommitsSpec(env, image, st, i, commits).state;
    } else {
      assert r == st;
    }
  }

  /** Updating an API with new commits leaves the state as it was or records the newest
      commit. */
  lemma NewCommitsState(env: Env, image: string, st: PipelineState, i: nat, commits: seq<Commit>)
    requires i < |st.apiGenerationStates| && |commits| > 0
    ensures var r := NewCommitsSpec(env, image, st, i, commits).state;
      r == st || r == Recorded(st, i, commits[0].hash)
  {
  }

  /** Updating an API with new commits performs a prefix of its pipeline, the whole of
      it exactly when it succeeds; the state saved (and kept) records the newest commit. */
  lemma {:induction false} UpdateFollowsPipeline(env: Env, image: string, st: PipelineState, i: nat, commits: seq<Commit>)
    requires i < |st.apiGenerationStates| && |commits| > 0
    ensures var s := NewCommitsSpec(env, image, st, i, commits);
      var id := st.apiGenerationStates[i].id;
      var saved := Recorded(st, i, commits[0].hash);
      var msg := CommitMessage(commits);
      exists committed: bool :: FollowsPipeline(s, Pipeline(image, id, saved, msg, committed), saved)
  {
    var s := NewCommitsSpec(env, image, st, i, commits);
    var id := st.apiGenerationStates[i].id;
    var saved := Recorded(st, i, commits[0].hash);
    var msg := CommitMessage(commits);
    var firstActs := [MakeOutputDir(id), Generate(image, id), CleanRepo(image, id), CopyOutput(id)];
    var first := RunAll(env, firstActs);
    RunAllPrefix(env, firstActs);
    var committed := env.addAll(msg) == Ok(false);
    var p := Pipeline(image, id, saved, msg, committed);
    var cacts := CommitAllSpec(env, msg).1;
    assert cacts == if committed then [CommitChanges(msg)] else [];
    PipelineParts(image, id, saved, msg, committed, cacts);
    if first.0.Some? {
      assert s == Step(first.0, first.1, st);
      assert first.1 == p[..|first.1|];
    } else if env.run(SaveState(saved)).Some? {
      assert s.actions == p[..5] && s.state == saved;
    } else {
      assert s.actions == p[..5 + |cacts|] || s.actions == p;
      assert s.state == saved;
    }
    assert FollowsPipeline(s, p, saved);
  }

  /** The pipeline runs the four container and file steps, saves the state, commits
      (or not) and builds. */
  lemma PipelineParts(image: string, id: string, saved: PipelineState, msg: string, committed: bool,
                      cacts: seq<Action>)
    requires cacts == if committed then [CommitChanges(msg)] else []
    ensures var p := Pipeline(image, id, saved, msg, committed);
      && p[..4] == [MakeOutputDir(id), Generate(image, id), CleanRepo(image, id), CopyOutput(id)]
      && p[..5] == p[..4] + [SaveState(saved)]
      && p[..5 + |cacts|] == p[..5] + cacts
      && p == p[..5 + |cacts|] + [Build(image, id)]
      && SaveState(saved) !in p[..4]
  {
  }

  /** The actions of step `s` are a prefix of the pipeline `p`, all of it when the step
      succeeds, and once the state `saved` is saved the step keeps it. */
  predicate FollowsPipeline(s: Step, p: seq<Action>, saved: PipelineState) {
    && |s.actions| <= |p| && s.actions == p[..|s.actions|]
    && (s.err.None? ==> s.actions == p)
    && (SaveState(saved) in s.actions ==> s.state == saved)
  }

  /** A run that updates some API and then fails at a later one never resets the API
      repository and never pushes: the reset and the push follow only a loop in which
      every API succeeded. */
  lemma ResetAndPushOnlyAfterEveryApi(env: Env, flags: Flags)
    ensures var r := RunSpec(env, flags);
      (ResetApiRepo in r.1 || exists b :: PushBranch(b) in r.1) ==>
        && SupportedLanguage(flags.language)
        && env.loadState.Ok?
        && UpdateApisSpec(env, flags.apiPath,
                          DeriveImage(flags.image, flags.repository, flags.language, Some(env.loadState.value)),
                          env.loadState.value, 0).err.None?
  {
    var r := RunSpec(env, flags);
    if SupportedLanguage(flags.language) && !(flags.push && flags.gitHubToken == "")
       && ApiRepoSetup(env, flags).Ok? && LanguageRepoSetupAsWritten(env, flags).None? && env.loadState.Ok?
       && env.run(CopyGeneratorInput).None? && env.headBefore.Ok? {
      var state := env.loadState.value;
      var image := DeriveImage(flags.image, flags.repository, flags.language, Some(state));
      var s := UpdateApisSpec(env, flags.apiPath, image, state, 0);
      if s.err.Some? {
        NoFinishActions(env, flags.apiPath, image, state, 0);
        assert r.1 == [CopyGeneratorInput] + s.actions;
      }
    } else {
      assert r.1 == [] || r.1 == [CopyGeneratorInput];
    }
  }

  /** The update loop itself never resets or pushes. */
  lemma {:induction false} NoFinishActions(env: Env, apiPath: string, image: string, st: PipelineState, i: nat)
    requires i <= |st.apiGenerationStates|
    ensures var acts := UpdateApisSpec(env, apiPath, image, st, i).actions;
      ResetApiRepo !in acts && forall b :: PushBranch(b) !in acts
    decreases |st.apiGenerationStates| - i
  {
    if i < |st.apiGenerationStates| {
      var s := UpdateApiSpec(env, apiPath, image, st, i);
      UpdateApiActions(env, apiPath, image, st, i);
      if s.err.None? {
        NoFinishActions(env, apiPath, image, s.state, i + 1);
      }
    }
  }

  /** The actions of one API update all come from its pipeline. */
  lemma UpdateApiActions(env: Env, apiPath: string, image: string, st: PipelineState, i: nat)
    requires i < |st.apiGenerationStates|
    ensures var acts := UpdateApiSpec(env, apiPath, image, st, i).actions;
      ResetApiRepo !in acts && forall b :: PushBranch(b) !in acts
  {
    var a := st.apiGenerationStates[i];
    var r := env.apiCommits(a.id, a.lastGeneratedCommit);
    if !(apiPath != "" && apiPath != a.id) && a.automationLevel != Blocked && r.Ok? && |r.value| > 0 {
      UpdateFollowsPipeline(env, image, st, i, r.value);
      var s := NewCommitsSpec(env, image, st, i, r.value);
      var saved := Recorded(st, i, r.value[0].hash);
      var committed :| FollowsPipeline(s, Pipeline(image, a.id, saved, CommitMessage(r.value), committed), saved);
      var p := Pipeline(image, a.id, saved, CommitMessage(r.value), committed);
      forall k | 0 <= k < |s.actions| ensures !s.actions[k].ResetApiRepo? && !s.actions[k].PushBranch? {
        assert s.actions[k] == p[k];
      }
    }
  }

  /** Pushing happens only when asked for and when the head of the language repository
      moved; the branch and the pull request are named after the start of the run. */
  lemma PushOnlyWhenHeadMoved(env: Env, flags: Flags, b: string)
    requires PushBranch(b) in RunSpec(env, flags).1
    ensures flags.push && flags.gitHubToken != ""
    ensures env.headBefore.Ok? && env.headAfter.Ok? && env.headBefore.value != env.headAfter.value
    ensures b == "librarian-" + flags.timestamp
  {
    ResetAndPushOnlyAfterEveryApi(env, flags);
    var state := env.loadState.value;
    var image := DeriveImage(flags.image, flags.repository, flags.language, Some(state));
    var s := UpdateApisSpec(env, flags.apiPath, image, state, 0);
    NoFinishActions(env, flags.apiPath, image, state, 0);
    var hardReset := ApiRepoSetup(env, flags).value;
    var fin := FinishSpec(env, flags, hardReset, env.headBefore.value);
    assert RunSpec(env, flags).1 == [CopyGeneratorInput] + s.actions + fin.1;
    assert PushBranch(b) in fin.1;
    FinishPushes(env, flags, hardReset, env.headBefore.value, b);
  }

  /** The finishing steps push only when the head has moved, to the timestamped branch. */
  lemma FinishPushes(env: Env, flags: Flags, hardReset: bool, before: string, b: string)
    requires flags.gitHubToken != ""
    requires PushBranch(b) in FinishSpec(env, flags, hardReset, before).1
    ensures flags.push && env.headAfter.Ok? && before != env.headAfter.value
    ensures b == "librarian-" + flags.timestamp
  {
    var reset: seq<Action> := if hardReset then [ResetApiRepo] else [];
    assert PushBranch(b) !in reset;
  }

  // ---------------------------------------------------------------------------
  // The methods
  // ---------------------------------------------------------------------------

  /** The run of update-apis: the actions performed so far and the in-memory pipeline
      state. */
  class Updater {
    var trace: seq<Action>
    var state: PipelineState

    constructor ()
      ensures trace == []
    {
      trace := [];
      state := PipelineState("", []);
    }

    /** Performs one action. */
    method Perform(env: Env, a: Action) returns (err: Status)
      modifies this
      ensures trace == old(trace) + [a] && state == old(state)
      ensures err == env.run(a)
    {
      trace := trace + [a];
      err := env.run(a);
    }

    /** Performs actions in order until one fails. */
    method PerformAll(env: Env, acts: seq<Action>) returns (err: Status)
      modifies this
      ensures err == RunAll(env, acts).0
      ensures trace == old(trace) + RunAll(env, acts).1 && state == old(state)
    {
      var i := 0;
      assert acts[..0] == [] && acts[0..] == acts;
      assert [] + RunAll(env, acts).1 == RunAll(env, acts).1;
      assert old(trace) + [] == old(trace);
      while i < |acts|
        invariant 0 <= i <= |acts| && state == old(state)
        invariant RunAll(env, acts) == (RunAll(env, acts[i..]).0, acts[..i] + RunAll(env, acts[i..]).1)
        invariant trace == old(trace) + acts[..i]
      {
        RunAllStep(env, acts, i);
        err := Perform(env, acts[i]);
        if err.Some? {
          assert old(trace) + acts[..i] + [acts[i]] == old(trace) + (acts[..i] + [acts[i]]);
          return;
        }
        AppendAssoc(acts[..i], [acts[i]], RunAll(env, acts[i + 1..]).1);
        i := i + 1;
      }
      assert acts[..i] == acts && acts[i..] == [];
      assert acts + [] == acts;
      err := None;
    }

    /** commitAll. */
    method CommitAll(env: Env, msg: string) returns (err: Status)
      modifies this
      ensures err == CommitAllSpec(env, msg).0
      ensures trace == old(trace) + CommitAllSpec(env, msg).1 && state == old(state)
    {
      assert old(trace) + [] == old(trace);
      var status := env.addAll(msg);
      if status.Err? {
        return Some(status.msg);
      }
      if status.value {
        return None;
      }
      err := Perform(env, CommitChanges(msg));
    }

    /** updateApi on the API at index `i` of the state. */
    method UpdateApi(env: Env, apiPath: string, image: string, i: nat) returns (err: Status)
      requires i < |state.apiGenerationStates|
      modifies this
      ensures var s := UpdateApiSpec(env, apiPath, image, old(state), i);
        err == s.err && trace == old(trace) + s.actions && state == s.state
    {
      var a := state.apiGenerationStates[i];
      if apiPath != "" && apiPath != a.id {
        return None;
      }
      if a.automationLevel == Blocked {
        return None;
      }
      var commits := env.apiCommits(a.id, a.lastGeneratedCommit);
      if commits.Err? {
        return Some(commits.msg);
      }
      if |commits.value| == 0 {
        return None;
      }
      err := UpdateWithCommits(env, image, i, commits.value);
    }

    /** The part of updateApi that runs once the API has new commits. */
    method UpdateWithCommits(env: Env, image: string, i: nat, commits: seq<Commit>) returns (err: Status)
      requires i < |state.apiGenerationStates| && |commits| > 0
      modifies this
      ensures var s := NewCommitsSpec(env, image, old(state), i, commits);
        err == s.err && trace == old(trace) + s.actions && state == s.state
    {
      var id := state.apiGenerationStates[i].id;
      err := PerformAll(env, [MakeOutputDir(id), Generate(image, id), CleanRepo(image, id), CopyOutput(id)]);
      if err.Some? {
        return;
      }
      state := Recorded(state, i, commits[0].hash);
      err := Perform(env, SaveState(state));
      if err.Some? {
        return;
      }
      var msg := CreateCommitMessage(commits);
      err := CommitAll(env, msg);
      if err.Some? {
        return;
      }
      err := Perform(env, Build(image, id));
      if err.Some? {
        return;
      }
      var clean := env.cleanAfterBuild(id);
      if clean.Err? {
        return Some(clean.msg);
      }
      if !clean.value {
        return Some(BuildChangedRepo(id));
      }
      err := None;
    }

    /** The loop of CmdUpdateApis.Run over the APIs of the state. */
    method UpdateApis(env: Env, apiPath: string, image: string, ghost step: (PipelineState, nat) -> Step)
      returns (err: Status)
      requires forall st: PipelineState, k: nat {:trigger UpdateApiSpec(env, apiPath, image, st, k)}
        | k < |st.apiGenerationStates| :: step(st, k) == UpdateApiSpec(env, apiPath, image, st, k)
      modifies this
      ensures var s := ApiLoop(step, old(state), 0, |old(state).apiGenerationStates|);
        err == s.err && trace == old(trace) + s.actions && state == s.state
    {
      var n := |state.apiGenerationStates|;
      ghost var goal := ApiLoop(step, state, 0, n);
      ghost var done: seq<Action> := [];
      var i := 0;
      assert done + goal.actions == goal.actions;
      while i < n
        invariant 0 <= i <= n == |state.apiGenerationStates|
        invariant trace == old(trace) + done
        invariant goal == Prepend(done, ApiLoop(step, state, i, n))
      {
        ghost var acts;
        err, acts := UpdateNext(env, apiPath, image, i, done, goal, step);
        if err.Some? {
          AppendAssoc(old(trace), done, acts);
          return;
        }
        done := done + acts;
        i := i + 1;
      }
      assert done + [] == done;
      err := None;
    }

    /** One turn of the loop: updates API `i` and says how the rest of the loop follows. */
    method UpdateNext(env: Env, apiPath: string, image: string, i: nat, ghost done: seq<Action>, ghost goal: Step,
                      ghost step: (PipelineState, nat) -> Step)
      returns (err: Status, ghost acts: seq<Action>)
      requires forall st: PipelineState, k: nat {:trigger UpdateApiSpec(env, apiPath, image, st, k)}
        | k < |st.apiGenerationStates| :: step(st, k) == UpdateApiSpec(env, apiPath, image, st, k)
      requires i < |state.apiGenerationStates|
      requires goal == Prepend(done, ApiLoop(step, state, i, |state.apiGenerationStates|))
      modifies this
      ensures trace == old(trace) + acts && |state.apiGenerationStates| == |old(state).apiGenerationStates|
      ensures err.Some? ==> goal == Step(err, done + acts, state)
      ensures err.None? ==> goal == Prepend(done + acts, ApiLoop(step, state, i + 1, |state.apiGenerationStates|))
    {
      ghost var s := UpdateApiSpec(env, apiPath, image, state, i);
      err := UpdateApi(env, apiPath, image, i);
      acts := s.actions;
      if err.Some? {
        assert acts + [] == acts;
      } else {
        PrependTwice(done, acts, ApiLoop(step, state, i + 1, |state.apiGenerationStates|));
      }
    }

    /** push. */
    method Push(env: Env, flags: Flags) returns (err: Status)
      modifies this
      ensures err == PushSpec(env, flags).0
      ensures trace == old(trace) + PushSpec(env, flags).1 && state == old(state)
    {
      assert old(trace) + [] == old(trace);
      if !flags.push {
        return None;
      }
      if flags.gitHubToken == "" {
        return Some(NoTokenForPush);
      }
      var branch := "librarian-" + flags.timestamp;
      err := Perform(env, PushBranch(branch));
      if err.Some? {
        return;
      }
      err := Perform(env, CreatePullRequest(branch, PullRequestTitlePrefix + flags.timestamp));
      assert old(trace) + [PushBranch(branch)] + [CreatePullRequest(branch, PullRequestTitlePrefix + flags.timestamp)]
        == old(trace) + [PushBranch(branch), CreatePullRequest(branch, PullRequestTitlePrefix + flags.timestamp)];
    }

    /** The end of CmdUpdateApis.Run, after the loop. */
    method Finish(env: Env, flags: Flags, hardReset: bool, before: string) returns (err: Status)
      modifies this
      ensures err == FinishSpec(env, flags, hardReset, before).0
      ensures trace == old(trace) + FinishSpec(env, flags, hardReset, before).1
    {
      assert old(trace) + [] == old(trace);
      if hardReset {
        var _ := Perform(env, ResetApiRepo);
      }
      if !flags.push {
        return None;
      }
      var after := env.headAfter;
      if after.Err? {
        return Some(after.msg);
      }
      if before == after.value {
        return None;
      }
      ghost var t := trace;
      err := Push(env, flags);
      assert trace == old(trace) + ((if hardReset then [ResetApiRepo] else []) + PushSpec(env, flags).1);
    }

    /** CmdUpdateApis.Run. */
    method Run(env: Env, flags: Flags) returns (err: Status)
      requires trace == []
      modifies this
      ensures err == RunSpec(env, flags).0 && trace == RunSpec(env, flags).1
    {
      if !SupportedLanguage(flags.language) {
        return Some(InvalidLanguage + Quote(flags.language));
      }
      if flags.push && flags.gitHubToken == "" {
        return Some(TokenRequiredForPush);
      }
      var hardReset := ApiRepoSetup(env, flags);
      if hardReset.Err? {
        return Some(hardReset.msg);
      }
      err := LanguageRepoSetupAsWritten(env, flags);
      if err.Some? {
        return;
      }
      var loaded := env.loadState;
      if loaded.Err? {
        return Some(loaded.msg);
      }
      state := loaded.value;
      var image := DeriveImage(flags.image, flags.repository, flags.language, Some(state));
      err := Perform(env, CopyGeneratorInput);
      if err.Some? {
        return;
      }
      var before := env.headBefore;
      if before.Err? {
        return Some(before.msg);
      }
      assert trace == [CopyGeneratorInput];
      err := UpdateApis(env, flags.apiPath, image, ApiStep(env, flags.apiPath, image));
      if err.Some? {
        return;
      }
      ghost var t := trace;
      err := Finish(env, flags, hardReset.value, before.value);
      assert trace == t + FinishSpec(env, flags, hardReset.value, before.value).1;
    }
  }
}
