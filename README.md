# docker_publish, modelled in Dafny

This project models the `docker_publish` tool (`python/tools/docker_publish.py`). The tool builds a
container image, tags it and pushes it to a registry by running the `docker` command-line tool.
The model covers the logic of the file:

- the argument normalisers:
  - `_to_bool`: loosely typed booleans;
  - `_normalize_kv_pairs`: build arguments and labels given as a dict, a list or a
    comma-separated string;
  - `_normalize_collection`: tags and platforms;
  - `_clean_path_segment`;
  - `_truncate`;
- `DockerPublish._format_result`: one log entry per command;
- `DockerPublish.execute`:
  - its checks and early replies;
  - the names it derives: the repository path, the primary tag and reference, and the
    additional references;
  - the `docker build` argument vector;
  - the fail-fast run of `docker login`, `docker build`, `docker tag` and `docker push`;
  - the final message.

Modules:

- `Text`: Python's `str.strip` (with exactly the `isspace` characters), ASCII `lower`, `split`,
  `join`, `startswith`/`endswith`, and negative slicing.
- `Collections`: `Option`, order-preserving de-duplication, and a generic filter-map standing for
  Python's filtering list comprehensions.
- `PyValue`: the loosely typed argument values (`None`, bool, int, str, list, dict), with their
  truthiness and `str()`, and `kwargs.get` with a default.
- `Normalize`: the normalisers. A Python dict is an association list in insertion order;
  assigning an existing key keeps its place.
- `References`: the repository, the primary tag and reference, the additional tags, and their
  expansion into references.
- `Commands`:
  - the command result and `_format_result`;
  - the `docker build` argument vector, with a method that assembles it flag by flag;
  - the four kinds of command;
  - how each is passed to `_run_command`.
- `Publish`: `execute`, in two parts.
  - `Admit`/`Prepare`: the checks, in their order, with their replies, and the request they
    build.
  - `RunSteps`: the imperative run of the commands against a runner. The runner stands for
    `_run_command`: it gives the result of the n-th command.

  `Execute` puts the two parts together.

A run is specified by:

- `Planned`: every command the request implies;
- `FailFast`: the commands run are a prefix of the plan, every one but the last succeeded, and
  the run stops early only after a failure;
- `Logged`: one log entry per command run, in order;
- `Message`: the summary and the log after a complete run, and the log alone otherwise.

The lemmas beside them derive the promises of the source:

- a failed login, build or tag stops everything after it;
- pushes happen only when asked for, primary reference first, each distinct reference once,
  stopping at the first failure;
- no push happens before every tag has succeeded.

## Model

| member | source | states |
|---|---|---|
| Normalize.ToBool | python/tools/docker_publish.py:10-21 | a bool is itself; an int is true when non-zero; None, lists and dicts give the default |
| Normalize.ToBoolSpellings | python/tools/docker_publish.py:15-20 | one of the ten words, in any case and with any whitespace around it, reads as true exactly when it is one of `1 true yes y on` |
| Normalize.ToBoolOtherText | python/tools/docker_publish.py:15-21 | a string that is none of the words once stripped and lower-cased gives the default |
| Normalize.ToBoolReadsPrintedBool | python/tools/docker_publish.py:15-20 | the strings `True` and `False` read back as the bools they print |
| Normalize.Put | python/tools/docker_publish.py:33 | dict assignment: the key gets the value, other keys keep theirs, and a new key goes last |
| Normalize.AssignLastWriteWins | python/tools/docker_publish.py:30-33 | after a sequence of assignments, each key holds the value of the last assignment to it |
| Normalize.AssignKeyOrder | python/tools/docker_publish.py:30-33 | the keys are the assigned keys in the order of their first assignment |
| Normalize.SplitAssignmentAt | python/tools/docker_publish.py:32-33 | the split is at the first `=`: a key without `=` comes back stripped, and the value comes back stripped whatever it holds |
| Normalize.StripKeepsAssignment | python/tools/docker_publish.py:39-43 | stripping a piece first changes neither whether it holds `=` nor how it splits |
| Normalize.SplitIgnoresPadding | python/tools/docker_publish.py:39-43 | whitespace around an assignment does not change its key or value |
| Normalize.KvPairs | python/tools/docker_publish.py:24-46 | the result's keys are distinct; input that is not a dict, list or string gives `{}` |
| Normalize.NormalizeKvPairs | python/tools/docker_publish.py:24-46 | the loops that fill the result dict compute `KvPairs` |
| Normalize.AssignItems | python/tools/docker_publish.py:28-34 | the loop over a list's items fills the dict as the items' assignments, applied in order, would |
| Normalize.AssignPieces | python/tools/docker_publish.py:36-45 | the loop over the comma-separated pieces fills the dict as the pieces' assignments, applied in order, would |
| Normalize.ListAssignmentsFrom | python/tools/docker_publish.py:29-33 | a list yields exactly the assignments of its items that are strings holding `=`: every other item is dropped |
| Normalize.KvPairsLastWriteWins | python/tools/docker_publish.py:24-46 | every key holds the value of its last assignment, and the keys come in the order of their first assignment |
| Normalize.KvTextMatchesList | python/tools/docker_publish.py:28-44 | the comma-joined string of items without commas normalises like the list of those items |
| Normalize.KvDictMatchesList | python/tools/docker_publish.py:25-34 | a dict of stripped string keys (without `=`) and stripped string values normalises like the list of its `key=value` items |
| Normalize.KvKeysHaveNoEquals | python/tools/docker_publish.py:28-44 | keys normalised from a list or a string never hold `=` |
| Normalize.NormalizeCollection | python/tools/docker_publish.py:49-58 | falsy input gives `[]`; a dict gives `str` of each value, in order, neither stripped nor filtered; a truthy bool or int gives the one item `str(raw).strip()` |
| Normalize.CollectionItemsClean | python/tools/docker_publish.py:52-57 | a string or a list gives non-empty, stripped items |
| Normalize.CollectionOfList | python/tools/docker_publish.py:56-57 | a list gives its items' `str()` forms stripped, with the empty ones dropped |
| Normalize.CollectionOfText | python/tools/docker_publish.py:52-53 | a string gives its comma-separated pieces stripped, with the empty ones dropped |
| Normalize.CollectionKeepsOrder | python/tools/docker_publish.py:56-57 | order is kept: the two halves of a concatenated list normalise separately |
| Normalize.CollectionTextMatchesList | python/tools/docker_publish.py:52-57 | a comma-joined string normalises like the list of its pieces |
| Normalize.CollectionIdempotent | python/tools/docker_publish.py:49-58 | normalising a normalised string or list again changes nothing |
| Normalize.CleanPathSegment | python/tools/docker_publish.py:61-64 | None gives `""`; the result neither starts nor ends with `/` |
| Normalize.CleanPathSegmentKeeps | python/tools/docker_publish.py:61-64 | a segment with no whitespace or `/` at either end is unchanged |
| Normalize.CleanPathSegmentRemoves | python/tools/docker_publish.py:61-64 | whitespace outside the slashes and the slashes themselves are removed from both ends |
| Normalize.Truncate | python/tools/docker_publish.py:67-70 | the result is a suffix of the text; it is the whole text when short enough (and when the limit is 0, as `text[-0:]`); otherwise it is exactly `limit` long |
| References.Repository | python/tools/docker_publish.py:107-111 | the repository is the `/`-join of the non-empty parts among registry, username, project and image, in that order |
| References.RepositoryPartsKept | python/tools/docker_publish.py:107-110 | appending the project only when it is non-empty keeps the same non-empty parts as listing all four |
| References.RepositorySegments | python/tools/docker_publish.py:107-111 | when no part holds `/`, the repository splits back at `/` into exactly those parts, none empty |
| References.RepositoryEndsWithImage | python/tools/docker_publish.py:107-111 | the repository ends with the image name |
| References.PrimaryTag | python/tools/docker_publish.py:113-121 | a truthy explicit tag, stripped, is the tag; otherwise the dated tag of the stripped date and iteration |
| References.DatedTagShape | python/tools/docker_publish.py:118-121 | a dated tag is the date, `-`, and a non-empty stripped iteration: the given one, or `1` when it is empty |
| References.PrimaryTagFromDate | python/tools/docker_publish.py:117-121 | without an explicit tag, the tag is the stripped date, a `-` and a non-empty iteration |
| References.PrimaryTagDefault | python/tools/docker_publish.py:117-121 | with the defaults (today's date, iteration 1), the tag is the date followed by `-1` |
| References.ImageReference | python/tools/docker_publish.py:123 | the reference is the repository, `:` and the primary tag |
| References.AdditionalTags | python/tools/docker_publish.py:125-127 | the normalised tags are kept in order, and `latest` is appended exactly when `tag_latest` reads true and it is missing |
| References.LatestAtMostOnce | python/tools/docker_publish.py:125-127 | when asked for, `latest` is present, and it is never appended when already there; when not asked for, nothing changes |
| References.EmptyRegistryKeepsShortTag | python/tools/docker_publish.py:134 | with an empty registry, the test as written keeps the short tag `v1` bare, while the corrected expansion qualifies it |
| References.ExpandTagAsWritten | python/tools/docker_publish.py:134-137 | the test as written: with an empty registry every tag is kept verbatim; with a non-empty one it agrees with the corrected `ExpandTag` |
| References.ExpandTag | python/tools/docker_publish.py:134-137 | a tag with `:` or starting with a non-empty registry is used verbatim; any other becomes `repository:tag`; the result is always a full reference |
| References.ExpandTagIdempotent | python/tools/docker_publish.py:134-137 | expanding an expanded reference again changes nothing |
| References.NormalizeAdditionalRefs | python/tools/docker_publish.py:129-137 | the loop computes the expansions of the non-blank stripped tags, in order |
| References.ExpandTags | python/tools/docker_publish.py:125-137 | at most one reference per tag, and every reference holds `:` or starts with the non-empty registry |
| References.ExpandTagsFrom | python/tools/docker_publish.py:129-137 | every reference is the expansion of some non-blank tag of the input, and holds `:` or starts with the registry |
| References.ExpandTagsKeepOrder | python/tools/docker_publish.py:130-137 | tags are expanded one by one: expanding a concatenation concatenates the expansions |
| References.ExpandShortTags | python/tools/docker_publish.py:136-137 | clean short tags all become `repository:tag`, in order |
| Commands.Section | python/tools/docker_publish.py:255-260 | a stream gets a section exactly when it is non-blank once stripped, and the section is `name:`, a newline and the last 2000 characters of the stripped text |
| Commands.FormatResult | python/tools/docker_publish.py:252-261 | the entry is `label (exit code N)`, then the stdout section, then the stderr section, each on its own line and present exactly when its stripped stream is non-blank, each holding `_truncate` of the stripped text; quiet output gives the header alone; the length is bounded |
| Commands.FormatResultShowsTail | python/tools/docker_publish.py:252-261 | the entry ends with the last 2000 characters of the stripped stderr when there is any, else of the stripped stdout |
| Commands.Header | python/tools/docker_publish.py:254 | the header starts with the label and ` (exit code ` and ends with the printed exit code and `)` |
| Commands.Shown | python/tools/docker_publish.py:255-260 | what a stream adds to the entry: a newline and its section, or nothing for a blank stream; at most 2000 characters of output |
| Commands.FlagPairs | python/tools/docker_publish.py:166-170 | every pair becomes `flag`, `key=value`, in dict order |
| Commands.FlagPairsReadBack | python/tools/docker_publish.py:166-170 | every `key=value` argument splits back at its first `=` into its pair when the key holds no `=` |
| Commands.BuildArgv | python/tools/docker_publish.py:162-178 | `docker build -t <reference>` comes first and `.` last; the length counts each optional flag |
| Commands.BuildCommand | python/tools/docker_publish.py:162-178 | the statements that extend `build_cmd` compute `BuildArgv` |
| Commands.AppendFlagPairs | python/tools/docker_publish.py:166-170 | the loop over one dict appends `FlagPairs` |
| Commands.PasswordOnlyOnStdin | python/tools/docker_publish.py:152-154 | only `docker login` gets input, the password, on standard input; its arguments end with `--password-stdin`, and the password is not among them unless it equals one of the other arguments |
| Commands.Invoke | python/tools/docker_publish.py:153-208 | each command runs in the context directory; the login runs exactly `docker login <registry> -u <user> --password-stdin` with the password as its only input; the build runs its own argv; `docker tag <source> <target>` and `docker push <ref>`; no other command gets input |
| Commands.Label | python/tools/docker_publish.py:155-209 | the labels are exactly `docker login`, `docker build`, `docker tag -> <target>` and `docker push <ref>` |
| Publish.PathJoin | python/tools/docker_publish.py:91-92 | the relative path is appended to the directory as is when the directory is empty or ends with `/`, and after one `/` otherwise |
| Publish.LoginCredentials | python/tools/docker_publish.py:145-153 | there is a login exactly when the password is truthy; the registry is the cleaned one, or `ghcr.io` when that is empty; the registry user wins over the username; the password is the printed argument |
| Publish.Admit | python/tools/docker_publish.py:75-148 | the checks apply in order: a missing `docker` CLI, then a context that is not a directory, then a non-string Dockerfile (`TypeError`), then a Dockerfile that is not a file (with its `was not found` message); when all four pass, the result is the request `Derive` builds; an admitted request has the absolute context, and its reference is `repository:tag` |
| Publish.ImageRequired | python/tools/docker_publish.py:99-105 | once the environment and Dockerfile checks pass, a blank image name is refused with its message |
| Publish.DockerfilePath | python/tools/docker_publish.py:89-92 | an absolute Dockerfile path is used as is; a relative one is put under the context; under an absolute context the path looked up is absolute |
| Publish.AdmittedRequest | python/tools/docker_publish.py:99-178 | an admitted request is the one `Derive` builds from the arguments: its repository ends with the non-empty image; its reference starts with the repository; every additional reference is a full reference; the build command starts with `docker build -t <reference>` and ends with `.`; there is a login exactly when a password is given |
| Publish.Derive | python/tools/docker_publish.py:99-148 | once the host checks pass, the request is refused, with the image error, exactly when the cleaned image name is empty; otherwise each field comes from its argument with its default: the cleaned registry, the repository of the cleaned registry, username, project and image, the primary tag from `tag`, `date` and `iteration`, the expanded additional tags, `push` read as a bool defaulting to true, the login from the registry user and password, the build command from the Dockerfile, build arguments, labels, target and platforms; the reference is `repository:tag` |
| Publish.DefaultRequest | python/tools/docker_publish.py:75-148 | with only a clean image name given, on a host with `docker` and the context `.`, the request is admitted with repository `ghcr.io/bkhieb/trailherotv/<image>`, tag `<today>-1`, no additional references, pushing, and no login |
| Publish.DeriveRequest | python/tools/docker_publish.py:99-148 | the statements that clean the names, normalise the collections and build the command compute `Derive` |
| Publish.Prepare | python/tools/docker_publish.py:75-148 | the checks with their early returns, then the request, compute `Admit` |
| Publish.SummaryLines | python/tools/docker_publish.py:216-223 | the repository and primary-tag lines come first; the additional-tags line is third, there exactly when there are references; the last line says push was skipped exactly when not pushing; no other line |
| Publish.Message | python/tools/docker_publish.py:225-227 | a complete run's message is the summary lines, then a blank line and the log entries separated by blank lines; a stopped run's message is the log alone |
| Publish.Summary | python/tools/docker_publish.py:216-225 | the lines appended one by one, joined with newlines, are `SummaryLines` |
| Publish.Attempt | python/tools/docker_publish.py:191-194 | one command joins those run, its entry joins the log at the same position, and it succeeds exactly when its exit code is 0 |
| Publish.FailureReply | python/tools/docker_publish.py:156-159 | after a failure the message is the joined log; the fallback text is never used, because the log is not empty |
| Publish.Planned | python/tools/docker_publish.py:152-214 | the plan starts with the login, build and tag commands and adds one command per reference of `PushList` exactly when pushing |
| Publish.PlannedShape | python/tools/docker_publish.py:152-214 | the login (when there is one) comes first, then the build of the request, then `docker tag <reference> <ref>` for each additional reference in order, then, when pushing, `docker push` of each distinct reference in order |
| Publish.PushList | python/tools/docker_publish.py:200-214 | the references pushed start with the primary reference, are distinct, and are exactly the primary reference and the additional references |
| Publish.RunBuild | python/tools/docker_publish.py:150-186 | either the login (when there is one) and the build both ran and succeeded, or the run failed fast at one of them |
| Publish.RunTags | python/tools/docker_publish.py:188-198 | either every tag ran and succeeded, in order, or the run failed fast at the first failing tag |
| Publish.RunPushes | python/tools/docker_publish.py:200-214 | either every distinct reference was pushed, in order of first occurrence, or the run stopped at the first failing push |
| Publish.PushNext | python/tools/docker_publish.py:203-214 | a reference already seen is skipped without a command; any other is pushed and marked seen |
| Publish.RunSteps | python/tools/docker_publish.py:150-227 | the commands run are a fail-fast prefix of the plan, each with its log entry; the reply is the summary and the log after a complete run, the log alone otherwise |
| Publish.Execute | python/tools/docker_publish.py:74-227 | a refused call runs no command and returns the refusal; an admitted one runs a fail-fast prefix of the plan of the request `Admit` builds, one log entry per command, and replies with `Message` |
| Publish.FailFastUnique | python/tools/docker_publish.py:150-214 | the plan and the command results fully determine which commands run |
| Publish.StopsAtFailure | python/tools/docker_publish.py:156-160 | a failed command is the last one run |
| Publish.RunStarts | python/tools/docker_publish.py:150-186 | every run attempts at least the first planned command |
| Publish.LoginFailureStops | python/tools/docker_publish.py:152-160 | a failed login is the only command run |
| Publish.BuildFailureStops | python/tools/docker_publish.py:180-186 | a failed build ends the run after the login and the build |
| Publish.TagFailureStops | python/tools/docker_publish.py:189-198 | the first failed tag ends the run: no later tag and no push |
| Publish.PushesInOrder | python/tools/docker_publish.py:200-214 | there are pushes only when asked for; the pushed references are a prefix of the de-duplicated `[reference] + refs`, distinct, starting with the primary reference and drawn from the references |
| Publish.PushesFollowTags | python/tools/docker_publish.py:188-214 | any push comes after every planned command before it has succeeded, each tag included, at its planned position |

## Left out

- `_run_command` (lines 229-250) is not modelled. It spawns a subprocess and decodes its output.
  The runner parameter stands for it: a function from the number of commands run before and the
  invocation (argument vector, working directory, standard input) to the exit code and the two
  output texts.
- `shutil.which`, `os.path.abspath`, `os.path.isdir`, `os.path.isfile` and `datetime.utcnow` are
  fields of `Host`.
  - `os.path.isabs` and `os.path.join` are modelled for POSIX paths.
- Floats are not modelled, in `_to_bool` or anywhere else.
  - Python sets and tuples are not separate values.
  - A tuple behaves as a list.
  - A set's iteration order is unspecified.
- `str()` of a list or dict is a simplified `repr`: strings in single quotes, nothing escaped.
- `lower()` is ASCII only. No non-ASCII lowering can produce one of the `_to_bool` words, so the
  result is the same.
- The `Tool`/`Response` framework is not modelled:
  - `self.args` is a map from argument names to values;
  - `break_loop` is always false and is dropped;
  - an exception other than the `TypeError` of `os.path.isabs` on a non-string Dockerfile is not
    modelled.
- `tag_commands` keeps the result of each tag command, but only its references are ever read, so
  the model keeps only those.
- References.ExpandTag: uses the corrected rule of the finding below: an empty cleaned registry
  does not make a short tag a full reference, whereas line 134 as written keeps it bare.
- References.ExpandTags: expands with `References.ExpandTag`, so with an empty registry its short
  tags get the repository, unlike lines 129-137 as written.
- References.NormalizeAdditionalRefs: its loop tests for a non-empty registry, so with an empty
  registry it differs from lines 129-137 as written.
- Publish.Derive: its references come from `References.ExpandTags`, so with an empty registry they
  are qualified where the source keeps short tags bare.
- Publish.Execute: runs `docker tag` and `docker push` on the references of `Publish.Derive`; with
  an empty registry these are qualified where the source tags and pushes the bare tag.
- Normalize.Truncate: `limit` is a natural number; the source is only ever called with its default
  of 2000, and a negative limit is not modelled.

## Findings

| source | as written | input that shows it | evidently intended | confidence | as-written member | corrected member |
|---|---|---|---|---|---|---|
| python/tools/docker_publish.py:134 | `tag.startswith(registry)` holds for every tag when the cleaned registry is empty, so every short tag is used verbatim | `registry=""` (or `"/"`), `image="app"`, `additional_tags="v1"`: the source runs `docker tag <ref> v1` and pushes `v1` rather than `<repository>:v1` | a tag is only taken as a full reference when it holds `:` or starts with a non-empty registry | not executed | References.ExpandTagAsWritten, References.EmptyRegistryKeepsShortTag | References.ExpandTag |
