/** The linked-issue check of a pull request (src/index.js).

    A pull request passes when a reference in its description names an issue
    that exists, or, failing that, when its event list holds a `connected`
    event. Otherwise the action may post a comment and fails the run unless
    it is quiet. Every call into GitHub, the issue-reference parser and the
    workflow runtime is an input: the model sees only the values those calls
    return or the message of the error they throw. */
module LinkedIssue {
  import opened Wrappers
  import Strings

  // ---------------------------------------------------------------- data

  /** The repository the workflow runs in (`context.repo`). */
  datatype Repo = Repo(owner: string, name: string)

  /** One element of the issue parser's `allRefs`: the issue number as the
      parser spells it and the `owner/repo` slug written before it, if any. */
  datatype Ref = Ref(issue: string, slug: Option<string>)

  /** The arguments of one issue lookup. `repo` is `None` when the slug has no
      second `/`-separated part, so the lookup is made with `repo` undefined. */
  datatype Target = Target(owner: string, repo: Option<string>, issue: string)

  /** The triggering pull request: the references parsed out of its body. */
  datatype PullRequest = PullRequest(refs: seq<Ref>)

  /** The event payload: `pullRequest` is `None` when the run was not
      triggered by a pull request. */
  datatype Context = Context(pullRequest: Option<PullRequest>, repo: Repo)

  /** The raw action inputs, as `core.getInput` returns them ("" when unset). */
  datatype Config = Config(quiet: string, noComment: string, message: string, filename: string)

  /** What the GitHub API answers. `getIssue` gives, for each lookup, whether
      the awaited response was truthy, or the error it threw; `listEvents` is
      the response to the event-list request, whose `data` may be missing;
      `createComment` is the outcome of posting the comment. */
  datatype GitHub = GitHub(
    getIssue: Target -> Result<bool>,
    listEvents: Result<Option<seq<string>>>,
    createComment: Result<()>)

  /** What one run leaves behind: whether a link was found, the value given to
      the `has_linked_issues` output (if it was set), the body of the comment
      the run tried to post (if any), the message given to `setFailed` (if
      any), the issue lookups in the order they were made, and whether the
      event list was requested. */
  datatype Outcome = Outcome(
    linked: bool,
    output: Option<string>,
    comment: Option<string>,
    failure: Option<string>,
    lookups: seq<Target>,
    eventsFetched: bool)

  const DefaultMessage := "Build Error! No Linked Issue found. Please link an issue or mention it in the body using #<issue_id>"
  const DefaultTemplate := ".github/VERIFY_PR_COMMENT_TEMPLATE.md"
  const NoLinkFound := "No Linked Issue Found!"
  const ErrorSummary := "Error verifying linked issue."
  const Connected := "connected"

  /** The message `setFailed` receives when an error escapes the check. */
  function FailureText(errorMessage: string): (text: string)
    ensures |text| == |ErrorSummary| + 2 + |errorMessage| && text[..|ErrorSummary|] == ErrorSummary
    ensures text[|ErrorSummary|..|ErrorSummary| + 2] == "\n\n" && text[|ErrorSummary| + 2..] == errorMessage
    ensures text != NoLinkFound
  {
    var text := ErrorSummary + "\n\n" + errorMessage;
    assert text[0] != NoLinkFound[0];
    assert text[|ErrorSummary|..|ErrorSummary| + 2] == "\n\n";
    assert text[|ErrorSummary| + 2..] == errorMessage;
    text
  }

  // ---------------------------------------------------------------- inputs

  /** `core.getInput('quiet') === 'true'`. */
  predicate IsQuiet(cfg: Config) {
    cfg.quiet == "true"
  }

  /** No-comment mode: on when asked for, and always when quiet. */
  predicate NoComment(cfg: Config)
    ensures IsQuiet(cfg) ==> NoComment(cfg)
    ensures !IsQuiet(cfg) ==> (NoComment(cfg) <==> cfg.noComment == "true")
  {
    if IsQuiet(cfg) then IsQuiet(cfg) else cfg.noComment == "true"
  }

  // ---------------------------------------------------------------- body scan

  /** Where a reference is looked up: in the current repository, unless the
      reference carries a non-empty slug, whose first `/`-separated part is the
      owner and whose second part (possibly missing) is the repository. */
  function TargetOf(r: Ref, here: Repo): (t: Target)
    ensures t.issue == r.issue
    ensures r.slug.None? || r.slug == Some("") ==> t == Target(here.owner, Some(here.name), r.issue)
  {
    if r.slug.Some? && r.slug.value != "" then
      var parts := Strings.Split(r.slug.value, '/');
      Target(parts[0], if |parts| > 1 then Some(parts[1]) else None, r.issue)
    else
      Target(here.owner, Some(here.name), r.issue)
  }

  /** A slug `owner/repo`, possibly followed by further `/`-separated parts,
      sends the lookup to that owner and that repository. */
  lemma SlugNamesOwnerAndRepo(r: Ref, here: Repo, owner: string, repo: string, tail: string)
    requires r.slug == Some(owner + "/" + repo + tail)
    requires '/' !in owner && '/' !in repo
    requires tail == "" || tail[0] == '/'
    ensures TargetOf(r, here) == Target(owner, Some(repo), r.issue)
  {
    var parts := [owner, repo] + if tail == "" then [] else Strings.Split(tail[1..], '/');
    assert parts[1..][1..] == parts[2..];
    if tail != "" {
      assert tail == "/" + tail[1..];
      assert Strings.Join(parts[1..], '/') == repo + "/" + Strings.Join(parts[2..], '/');
    }
    assert Strings.Join(parts, '/') == r.slug.value;
    Strings.SplitJoin(parts, '/');
  }

  /** A slug without any `/` names only the owner: the lookup is made with the
      repository left undefined. */
  lemma SlugWithoutSlash(r: Ref, here: Repo)
    requires r.slug.Some? && r.slug.value != "" && '/' !in r.slug.value
    ensures TargetOf(r, here) == Target(r.slug.value, None, r.issue)
  {
  }

  /** A reference is valid when its lookup returns a truthy response; a
      lookup that throws marks it invalid. */
  predicate Resolves(r: Ref, here: Repo, getIssue: Target -> Result<bool>) {
    getIssue(TargetOf(r, here)) == Ok(true)
  }

  predicate AnyResolves(refs: seq<Ref>, here: Repo, getIssue: Target -> Result<bool>) {
    exists i :: 0 <= i < |refs| && Resolves(refs[i], here, getIssue)
  }

  /** The lookups the body scan makes: one per reference, in order, stopping
      after the first valid one. */
  function LookupsMade(refs: seq<Ref>, here: Repo, getIssue: Target -> Result<bool>): seq<Target>
  {
    if refs == [] then []
    else if Resolves(refs[0], here, getIssue) then [TargetOf(refs[0], here)]
    else [TargetOf(refs[0], here)] + LookupsMade(refs[1..], here, getIssue)
  }

  /** The lookup trace is a prefix of the references' targets that ends at the
      first valid reference, or covers every reference when none is valid. */
  lemma {:induction false} LookupsStopAtFirstValid(refs: seq<Ref>, here: Repo, getIssue: Target -> Result<bool>)
    ensures var t := LookupsMade(refs, here, getIssue);
      && |t| <= |refs|
      && (forall i :: 0 <= i < |t| ==> t[i] == TargetOf(refs[i], here))
      && (forall i :: 0 <= i < |t| - 1 ==> !Resolves(refs[i], here, getIssue))
      && (AnyResolves(refs, here, getIssue) <==> |t| > 0 && Resolves(refs[|t| - 1], here, getIssue))
      && (!AnyResolves(refs, here, getIssue) ==> |t| == |refs|)
  {
    if refs != [] && !Resolves(refs[0], here, getIssue) {
      var rest := refs[1..];
      LookupsStopAtFirstValid(rest, here, getIssue);
      var t := LookupsMade(refs, here, getIssue);
      assert t[1..] == LookupsMade(rest, here, getIssue);
      assert forall i :: 0 < i < |refs| ==> refs[i] == rest[i - 1];
      assert AnyResolves(refs, here, getIssue) <==> AnyResolves(rest, here, getIssue) by {
        if AnyResolves(refs, here, getIssue) {
          var i :| 0 <= i < |refs| && Resolves(refs[i], here, getIssue);
          assert Resolves(rest[i - 1], here, getIssue);
        }
      }
    }
  }

  /** With a valid reference at `k` and none before it, exactly the first
      `k + 1` references are looked up: later ones are never fetched. */
  lemma {:induction false} FirstValidEndsScan(refs: seq<Ref>, here: Repo, getIssue: Target -> Result<bool>, k: nat)
    requires k < |refs| && Resolves(refs[k], here, getIssue)
    requires forall j :: 0 <= j < k ==> !Resolves(refs[j], here, getIssue)
    ensures |LookupsMade(refs, here, getIssue)| == k + 1
    ensures forall i :: 0 <= i <= k ==> LookupsMade(refs, here, getIssue)[i] == TargetOf(refs[i], here)
  {
    LookupsStopAtFirstValid(refs, here, getIssue);
    assert AnyResolves(refs, here, getIssue);
  }

  /** checkBodyForValidIssue: look the references up one at a time and stop at
      the first whose lookup returns a truthy response. A lookup that throws is
      swallowed and the scan moves on. */
  method CheckBodyForValidIssue(refs: seq<Ref>, here: Repo, getIssue: Target -> Result<bool>)
    returns (found: bool, lookups: seq<Target>)
    ensures found <==> AnyResolves(refs, here, getIssue)
    ensures lookups == LookupsMade(refs, here, getIssue)
  {
    lookups := [];
    for i := 0 to |refs|
      invariant lookups + LookupsMade(refs[i..], here, getIssue) == LookupsMade(refs, here, getIssue)
      invariant forall j :: 0 <= j < i ==> !Resolves(refs[j], here, getIssue)
    {
      var target := TargetOf(refs[i], here);
      var issue := getIssue(target);
      lookups := lookups + [target];
      assert refs[i..][1..] == refs[i + 1..];
      match issue {
        case Ok(truthy) =>
          if truthy {
            return true, lookups;
          }
        case Err(_) =>
      }
    }
    assert refs[|refs|..] == [];
    return false, lookups;
  }

  // ---------------------------------------------------------------- events scan

  /** checkEventsListForConnectedEvent: a flag set by every `connected` event
      in the list. A failed request is not caught here: its error is passed on. */
  method CheckEventsListForConnectedEvent(response: Result<Option<seq<string>>>)
    returns (r: Result<bool>)
    ensures response.Err? ==> r == Err(response.message)
    ensures response.Ok? && response.value.None? ==> r == Ok(false)
    ensures response.Ok? && response.value.Some? ==> r == Ok(Connected in response.value.value)
  {
    if response.Err? {
      return Err(response.message);
    }
    var hasConnectedEvents := false;
    if response.value.Some? {
      var events := response.value.value;
      for i := 0 to |events|
        invariant hasConnectedEvents <==> Connected in events[..i]
      {
        assert events[..i + 1] == events[..i] + [events[i]];
        if events[i] == Connected {
          hasConnectedEvents := true;
        }
      }
      assert events[..|events|] == events;
    }
    return Ok(hasConnectedEvents);
  }

  /** The event list was fetched and holds a `connected` event. */
  predicate EventsConnected(response: Result<Option<seq<string>>>) {
    response.Ok? && response.value.Some? && Connected in response.value.value
  }

  // ---------------------------------------------------------------- comment

  /** The template the comment is read from when no message is configured. */
  function TemplatePath(filename: string): (path: string)
    ensures path != ""
    ensures filename != "" ==> path == filename
    ensures filename == "" ==> path == DefaultTemplate
  {
    if filename == "" then DefaultTemplate else filename
  }

  /** The comment text: a configured message wins; otherwise the template's
      contents, when it loads and is not empty; otherwise the default text. */
  function CommentBody(message: string, filename: string, getFile: string -> Result<string>): (body: string)
    ensures body != ""
  {
    if message != "" then message
    else match getFile(TemplatePath(filename))
      case Ok(contents) => if contents != "" then contents else DefaultMessage
      case Err(_) => DefaultMessage
  }

  /** A configured message is used verbatim and the template is never
      consulted: neither the file name nor the file system matters. */
  lemma MessageOverridesTemplate(message: string, filename: string, getFile: string -> Result<string>,
                                 otherFilename: string, otherGetFile: string -> Result<string>)
    requires message != ""
    ensures CommentBody(message, filename, getFile) == message
    ensures CommentBody(message, filename, getFile) == CommentBody(message, otherFilename, otherGetFile)
  {
  }

  /** Without a message, the body is the template's contents exactly when the
      template loads and is not empty; a missing, unreadable or empty template
      falls back to the default text. */
  lemma TemplateOrDefault(filename: string, getFile: string -> Result<string>)
    ensures getFile(TemplatePath(filename)).Ok? && getFile(TemplatePath(filename)).value != ""
            ==> CommentBody("", filename, getFile) == getFile(TemplatePath(filename)).value
    ensures getFile(TemplatePath(filename)).Err? || getFile(TemplatePath(filename)) == Ok("")
            ==> CommentBody("", filename, getFile) == DefaultMessage
  {
  }

  /** createMissingIssueComment: choose the comment text, then post it. `read`
      is the template path handed to `getFile`, if it was read at all; `thrown`
      is the error of a failed post. */
  method CreateMissingIssueComment(cfg: Config, getFile: string -> Result<string>, post: Result<()>)
    returns (body: string, read: Option<string>, thrown: Option<string>)
    ensures body == CommentBody(cfg.message, cfg.filename, getFile)
    ensures read == if cfg.message != "" then None else Some(TemplatePath(cfg.filename))
    ensures thrown == if post.Err? then Some(post.message) else None
  {
    body := cfg.message;
    read := None;
    if body == "" {
      var filename := cfg.filename;
      if filename == "" {
        filename := DefaultTemplate;
      }
      read := Some(filename);
      var file := getFile(filename);
      match file {
        case Ok(contents) =>
          if contents != "" {
            body := contents;
          } else {
            body := DefaultMessage;
          }
        case Err(_) =>
          body := DefaultMessage;
      }
    }
    thrown := if post.Err? then Some(post.message) else None;
  }

  // ---------------------------------------------------------------- verification

  /** verifyLinkedIssue: the body scan, then the event list only when the body
      gave no link, then the output, the comment and the failure. `thrown` is
      the error that escapes it (a failed event-list request or a failed
      post), which ends the check where it happens. */
  method VerifyLinkedIssue(pr: PullRequest, here: Repo, cfg: Config, gh: GitHub, getFile: string -> Result<string>)
    returns (o: Outcome, thrown: Option<string>)
    ensures o.lookups == LookupsMade(pr.refs, here, gh.getIssue)
    ensures o.eventsFetched <==> !AnyResolves(pr.refs, here, gh.getIssue)
    ensures o.linked <==> AnyResolves(pr.refs, here, gh.getIssue) || EventsConnected(gh.listEvents)
    ensures o.comment.Some? <==> !o.linked && !(o.eventsFetched && gh.listEvents.Err?) && !NoComment(cfg)
    ensures o.comment.Some? ==> o.comment.value == CommentBody(cfg.message, cfg.filename, getFile)
    ensures thrown == if o.eventsFetched && gh.listEvents.Err? then Some(gh.listEvents.message)
                      else if o.comment.Some? && gh.createComment.Err? then Some(gh.createComment.message)
                      else None
    ensures thrown.None? ==> o.output == Some(if o.linked then "true" else "false")
    ensures thrown.None? ==> (o.failure.Some? <==> !o.linked && !IsQuiet(cfg))
    ensures o.failure.Some? ==> thrown.None? && o.failure == Some(NoLinkFound)
    ensures thrown.Some? ==> o.output.None? && o.failure.None?
  {
    var linkedIssue, lookups := CheckBodyForValidIssue(pr.refs, here, gh.getIssue);
    var isQuiet := IsQuiet(cfg);
    var noComment := NoComment(cfg);
    var fetched := false;
    if !linkedIssue {
      fetched := true;
      var events := CheckEventsListForConnectedEvent(gh.listEvents);
      if events.Err? {
        return Outcome(false, None, None, None, lookups, fetched), Some(events.message);
      }
      linkedIssue := events.value;
    }

    if linkedIssue {
      return Outcome(true, Some("true"), None, None, lookups, fetched), None;
    }
    var comment := None;
    if !noComment {
      var body, _, postError := CreateMissingIssueComment(cfg, getFile, gh.createComment);
      comment := Some(body);
      if postError.Some? {
        return Outcome(false, None, comment, None, lookups, fetched), postError;
      }
    }
    var failure := if !isQuiet then Some(NoLinkFound) else None;
    return Outcome(false, Some("false"), comment, failure, lookups, fetched), None;
  }

  /** The outcome of a run whose trigger is not a pull request. */
  const Skipped := Outcome(false, None, None, None, [], false)

  /** The action's entry point: skip anything that is not a pull request,
      otherwise run the check and turn an error that escapes it into the run's
      failure message. */
  method Run(ctx: Context, cfg: Config, gh: GitHub, getFile: string -> Result<string>)
    returns (o: Outcome)
    ensures ctx.pullRequest.None? ==> o == Skipped
    ensures ctx.pullRequest.Some? ==>
      var refs := ctx.pullRequest.value.refs;
      var found := AnyResolves(refs, ctx.repo, gh.getIssue);
      var eventsThrew := !found && gh.listEvents.Err?;
      var posting := !o.linked && !eventsThrew && !NoComment(cfg);
      var postThrew := posting && gh.createComment.Err?;
      && o.lookups == LookupsMade(refs, ctx.repo, gh.getIssue)
      && (o.eventsFetched <==> !found)
      && (o.linked <==> found || EventsConnected(gh.listEvents))
      && (o.comment == if posting then Some(CommentBody(cfg.message, cfg.filename, getFile)) else None)
      && (o.output == if eventsThrew || postThrew then None else Some(if o.linked then "true" else "false"))
      && (eventsThrew ==> o.failure == Some(FailureText(gh.listEvents.message)))
      && (postThrew ==> o.failure == Some(FailureText(gh.createComment.message)))
      && (!eventsThrew && !postThrew ==> o.failure == if !o.linked && !IsQuiet(cfg) then Some(NoLinkFound) else None)
  {
    if ctx.pullRequest.None? {
      return Skipped;
    }
    var thrown;
    o, thrown := VerifyLinkedIssue(ctx.pullRequest.value, ctx.repo, cfg, gh, getFile);
    if thrown.Some? {
      o := o.(failure := Some(FailureText(thrown.value)));
    }
  }
}
