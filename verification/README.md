# verify-linked-issue-action, modelled in Dafny

The action checks whether a pull request is linked to an issue. It scans the
issue references written in the pull request's description, in order, and
looks each one up on GitHub. The first lookup that returns an issue settles
it, and a lookup that throws only marks that reference as invalid. When no
reference is valid, it asks GitHub for the pull request's event list and
looks for a `connected` event. A failed event-list request is not caught, so
it ends the run with an error. The result goes to the `has_linked_issues`
output. When there is no link, the action posts a comment, unless no-comment
mode is on; quiet mode forces no-comment mode. It also fails the run unless
quiet mode is on. The comment text is the configured `message`, else the
contents of the template file, else a fixed default text. A run that was not
triggered by a pull request does nothing.

The model has three modules:

- `Wrappers` (`wrappers.dfy`): `Option`, and `Result` for the outcome of a call
  that may throw.
- `Strings` (`strings.dfy`): JavaScript's `split` with a one-character
  separator, and `join`, its inverse. A slug `owner/repo` is split this way.
- `LinkedIssue` (`linked_issue.dfy`): the decision procedure of
  `src/index.js`. Each loop of the source is a method with a loop, proved
  against a specification function or predicate. `Run` returns an `Outcome`
  record with these fields:
  - whether a link was found;
  - the output value, if it was set;
  - the comment body the run tried to post;
  - the message given to `setFailed`;
  - the issue lookups, in the order they were made;
  - whether the event list was requested.

Every call into GitHub, the issue parser and the workflow runtime is an input:

- the parser's `allRefs` is a sequence of `Ref`;
- `github.issues.get` is a function from the lookup's arguments to
  "truthy or not" or a thrown error;
- the `listEvents` response is either an error or an optional list of event
  names;
- `createComment` and `tools.getFile` are a result value and a function;
- the action inputs are the strings `core.getInput` would return.

`scenarios.dfy` is a client that calls `Run` on concrete inputs. It shows that
the contracts alone fix the outcome of a linked body, an unlinked body, quiet
mode, a configured message, a connected event, short-circuiting, a failed
event-list request and a run that is not a pull request.

The model follows the code in three details:

- The output is `has_linked_issues`.
- The issue number is passed to the lookup as the parser's string.
- The non-pull-request guard at `src/index.js:8-11` is modelled.

## Model

| member | source | states |
|---|---|---|
| `Strings.Split` | src/index.js:80 | `slug.split('/')` always has at least one part, no part contains `/`, and joining the parts with `/` gives back the slug |
| `Strings.SplitJoin` | src/index.js:80 | splitting undoes joining when no part contains `/`, so the parts of a split are exactly the runs between separators |
| `LinkedIssue.TargetOf` | src/index.js:76-83 | the lookup keeps the reference's issue number; a reference with no slug, or an empty one, is looked up in the current repository |
| `LinkedIssue.SlugNamesOwnerAndRepo` | src/index.js:79-83 | a slug `owner/repo[/...]` is looked up with that owner and that repository: the text before the first `/` and the second `/`-separated part |
| `LinkedIssue.SlugWithoutSlash` | src/index.js:79-83 | a non-empty slug with no `/` becomes the owner, and the repository is left undefined |
| `LinkedIssue.LookupsStopAtFirstValid` | src/index.js:74-99 | the lookups follow the references in order and form a prefix of them; every lookup before the last one failed; the last one succeeded exactly when some reference is valid; with no valid reference, every reference is looked up |
| `LinkedIssue.FirstValidEndsScan` | src/index.js:85-94 | if the first valid reference is at position k, then exactly k + 1 lookups are made, one for each reference up to k, and no reference after it is looked up |
| `LinkedIssue.CheckBodyForValidIssue` | src/index.js:66-102 | returns true exactly when some reference's lookup returns a truthy issue; a lookup that throws is swallowed; the lookups made are those of `LookupsMade` |
| `LinkedIssue.CheckEventsListForConnectedEvent` | src/index.js:108-129 | a failed request passes its error on; missing `data` gives false; otherwise the result is true exactly when some event is `connected` |
| `LinkedIssue.NoComment` | src/index.js:38-39 | quiet mode (`IsQuiet`, defined as the `quiet` input being `"true"`) always turns no-comment mode on; otherwise no-comment mode is on exactly when the `no_comment` input is `"true"` |
| `LinkedIssue.TemplatePath` | src/index.js:141-144 | the template path is never empty; a given filename is used as it is, and an empty one is replaced by `.github/VERIFY_PR_COMMENT_TEMPLATE.md` |
| `LinkedIssue.CommentBody` | src/index.js:138-156 | the comment text is never empty |
| `LinkedIssue.MessageOverridesTemplate` | src/index.js:139-140 | a non-empty `message` is the comment text verbatim, whatever the filename and the files are |
| `LinkedIssue.TemplateOrDefault` | src/index.js:140-156 | with no message, the template's contents are used if it loads and is non-empty; a load error or an empty file gives the default text |
| `LinkedIssue.CreateMissingIssueComment` | src/index.js:135-165 | the posted body follows that precedence; the template is read only when no message is set, and then from the filename or the default path; a failed post raises its error |
| `LinkedIssue.FailureText` | src/index.js:21-22 | the failure message for an escaped error is `Error verifying linked issue.`, then a blank line, then the error's own message, and is never the no-link message |
| `LinkedIssue.VerifyLinkedIssue` | src/index.js:33-60 | see the list after this table |
| `LinkedIssue.Run` | src/index.js:6-27 | see the list after this table |

`LinkedIssue.VerifyLinkedIssue` states the following:

- The events are fetched exactly when no body reference is valid.
- A link is found exactly when a body reference is valid or the fetched list
  holds a `connected` event.
- A comment is attempted exactly when no link was found, the events request
  did not throw, and no-comment mode is off.
- An error escapes from a failed events request or a failed post, and from
  nothing else.
- With no error, the output is `"true"` exactly when a link was found.
- With no error, the run fails with `No Linked Issue Found!` exactly when no
  link was found and quiet mode is off.

`LinkedIssue.Run` states the following:

- A run that is not a pull request does nothing.
- Otherwise it has the same lookups, events fetch, link and comment as
  `VerifyLinkedIssue`.
- An error that escapes maps to `FailureText` of that error's message, and the
  output is left unset.
- Otherwise the output and the failure are as `VerifyLinkedIssue` states.

## Left out

- The `issue-parser` grammar: the references found in the body are an input
  sequence. The guard on `allRefs` behaves like an empty sequence.
- The GitHub REST calls `issues.get`, `issues.listEvents` and
  `issues.createComment` are network I/O, so their results are inputs. The
  model does not record the arguments of `listEvents` and `createComment`,
  which are the current repository and the pull request number.
- Whether a lookup's response is truthy is an input; the model does not look
  at what the response holds.
- `core.getInput`, `core.setOutput`, `core.setFailed`, `tools.exit` and the
  `secrets` option are host-environment plumbing. They are modelled as
  `Config` strings and `Outcome` fields. `tools.exit.failure()` always comes
  right after `setFailed`, so the failure field stands for both.
- `tools.getFile` is a function from a path to the file's contents or a thrown
  error. The file system is not modelled.
- Logging (`log.*`, including the logging of `err.errors`) has no effect on the
  outcome.
- `async`/`await`: the calls are strictly sequential and are modelled as
  sequential code.
- An error thrown by `parse` itself, for example on a missing body, is not
  modelled, because the parser is not part of this model. A thrown value that
  has no `message` is not modelled either: every error carries a message
  string.
