/** A client of the model: concrete runs whose results follow from the
    contracts of `LinkedIssue.Run` alone. */
module Scenarios {
  import opened Wrappers
  import opened LinkedIssue

  method ConcreteRuns() {
    var here := Repo("octo", "app");
    var plain := Config("", "", "", "");
    var issue42: Target -> Result<bool> :=
      t => if t == Target("octo", Some("app"), "42") then Ok(true) else Err("Not Found");
    var noTemplate: string -> Result<string> := path => Err("ENOENT");
    var gh := GitHub(issue42, Ok(Some(["labeled"])), Ok(()));

    // "Fixes #42" with issue 42 present: linked, no comment, no failure.
    var o := Run(Context(Some(PullRequest([Ref("42", None)])), here), plain, gh, noTemplate);
    assert o.linked && o.output == Some("true");
    assert o.comment.None? && o.failure.None? && !o.eventsFetched;

    // No references and no connected event: the default comment and a failure.
    o := Run(Context(Some(PullRequest([])), here), plain, gh, noTemplate);
    assert !o.linked && o.output == Some("false");
    assert o.comment == Some(DefaultMessage) && o.failure == Some(NoLinkFound);

    // The same run in quiet mode: no comment and no failure.
    o := Run(Context(Some(PullRequest([])), here), Config("true", "", "", ""), gh, noTemplate);
    assert o.output == Some("false") && o.comment.None? && o.failure.None?;

    // A configured message is posted as it is.
    o := Run(Context(Some(PullRequest([])), here), Config("", "", "Custom text", "x.md"), gh, noTemplate);
    assert o.comment == Some("Custom text");

    // A connected event links a pull request whose body names nothing.
    o := Run(Context(Some(PullRequest([])), here), plain, gh.(listEvents := Ok(Some(["connected"]))), noTemplate);
    assert o.linked && o.eventsFetched && o.output == Some("true");

    // An invalid reference, then a valid one, then another: the third is never looked up.
    var a, b, c := Ref("1", None), Ref("42", None), Ref("42", Some("octo/app"));
    o := Run(Context(Some(PullRequest([a, b, c])), here), plain, gh, noTemplate);
    assert o.lookups == [Target("octo", Some("app"), "1"), Target("octo", Some("app"), "42")];

    // A failed event-list request ends the run with the error's message.
    o := Run(Context(Some(PullRequest([])), here), plain, gh.(listEvents := Err("Bad credentials")), noTemplate);
    assert o.failure == Some(FailureText("Bad credentials")) && o.output.None?;

    // Not a pull request: nothing happens.
    o := Run(Context(None, here), plain, gh, noTemplate);
    assert o == Skipped;
  }
}
