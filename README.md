# a127 accounts, services and Usergrid, modelled in Dafny

This project models the core of the a127 command-line tool.

- **The account store.** This is a JSON document with account records by name and the selected name. The commands `list`, `select`, `show`, `create`, `update` and `delete` read it and write it. `getSelected` resolves a name to a record. The provider guards for `deployVolosProxy` and `deployProject` sit in front of the providers.
- **The provider registry** that `getProviders` builds and caches.
- **The two providers.**
  - apigee: the options it gives apigeetool, the proxy URI, and the deployment search in `deployVolosProxy`.
  - amazon: the zip path, the file walk of `getFiles`, and the entry names of `writeZip`.
- **The services file**, through `list` and `get`.
- **The local Usergrid service**, through `start`, `stop` and `pid`, with its pid file and log watcher.
- **The command-line helpers**: `requireAnswers`, `updateAnswers`, `getUnanswered`, `print`, `printAndExit` and `execute`.
- **The browser opener.**

`lib/commands/account/account.js` and its older copy `lib/commands/account/index.js` share one model. A `Version` (`Current` or `Legacy`) selects where they differ:

- the `list` marker for the selected account;
- whether `getSelected` stamps the name onto the record;
- whether a provider load error is rethrown under debug or only logged.

The JavaScript values the code handles are `Js.Value`. Objects are member lists in property order, so `Object.keys`, `_.extend` and `for … in` keep the order the source sees. Several JavaScript rules are written out explicitly:

- truthiness;
- `||` on optional strings;
- the key `"undefined"` for a missing name;
- `String(v)`;
- `indexOf`;
- decimal printing and parsing.

Anything the program gets from outside is a parameter:

- file contents, as values;
- prompt replies, one object per round;
- chooser picks;
- the signup confirmation;
- browser and shell outcomes;
- the spawned pid;
- log lines and the timeout position;
- what each `process.kill` reports;
- apigeetool's reply;
- the directory listing.

The pid file and the parsed accounts object are changed in place. Each is a class: `Usergrid.PidFile` and `Accounts.AccountsData`.

## Model

| member | source | states |
|---|---|---|
| Js.Or | lib/commands/account/account.js:75 | `a \|\| b` on optional strings: the first operand when it is a non-empty string, otherwise the second, unchanged |
| Js.SetGet | lib/commands/account/account.js:253 | after `o[k] = v`, key k reads v and every other key reads what it read before |
| Js.SetKeys | lib/commands/account/account.js:253 | assignment keeps the key order; a new key is appended at the end |
| Js.SetNew | lib/commands/service/service.js:64 | assigning a key the object lacks appends exactly that member |
| Js.SetHasKey | lib/commands/account/account.js:140 | after assignment the keys are the old keys plus k |
| Js.ExtendGet | lib/util/cli.js:30 | after `_.extend(o, src)` src's keys read src's values and every other key reads o's value |
| Js.ExtendHasKey | lib/util/cli.js:44 | `_.extend` never drops a key: the keys are o's and src's |
| Js.ExtendKeysPrefix | lib/commands/account/providers/apigee.js:83 | `_.extend` keeps o's keys first, in their order |
| Js.ExtendKeepsOrder | lib/util/cli.js:44 | extending with keys o already has leaves the key order unchanged |
| Js.GetAt | lib/commands/account/account.js:76 | `o[k]` reads the first member with key k |
| Js.GetAbsent | lib/commands/service/service.js:71 | a key no member carries reads `undefined` |
| Js.GetPrefix | lib/commands/service/service.js:63-65 | dropping the last member does not change the lookup of another key |
| Js.ParseNatToString | lib/commands/service/usergrid.js:96-98 | the decimal text written for a pid parses back to the same number |
| Js.IndexOf | lib/commands/service/usergrid.js:129-131 | `indexOf` gives the first position where the pattern occurs, or -1 exactly when it occurs nowhere |
| Js.OccursShift | lib/commands/service/usergrid.js:129 | an occurrence at j ≥ 1 is an occurrence at j - 1 in the string without its first character |
| Cli.FilterAppend | lib/util/cli.js:49-58 | filtering a concatenation gives the concatenation of the filtered parts |
| Cli.FilterMembers | lib/util/cli.js:49-58 | an element is kept exactly when it is in the input and passes the test |
| Cli.FilterEmpty | lib/util/cli.js:49-58 | nothing is kept exactly when no element passes the test |
| Cli.GetUnanswered | lib/util/cli.js:49-58 | the loop returns the questions without a truthy answer, in question order |
| Cli.UnansweredAppend | lib/util/cli.js:49-58 | the unanswered questions of a concatenation are those of each part, in order |
| Cli.UnansweredMembers | lib/util/cli.js:53 | a question is returned exactly when it is among the questions and its answer is falsy |
| Cli.UnansweredEmpty | lib/util/cli.js:26 | nothing is unanswered exactly when every question has a truthy answer |
| Cli.AnsweredNeedsNoPrompt | lib/util/cli.js:25-28 | results that answer every question are returned without prompting |
| Cli.RoundsAskedNext | lib/util/cli.js:29-32 | adding the next round keeps every recorded round equal to the questions the earlier replies left unanswered |
| Cli.RequireAnswers | lib/util/cli.js:23-33 | round k asks exactly the questions the first k replies leave unanswered, and never asks an empty round; the answer is the start merged with the replies used, and it answers every question; if the replies run out with a question unanswered, no answer is given |
| Cli.MergedNext | lib/util/cli.js:30 | merging k + 1 replies is merging k replies and then `_.extend` with the next one |
| Cli.MergedAfterFirst | lib/util/cli.js:43-45 | merging a first reply and then k more is merging the first k + 1 replies of the combined list |
| Cli.AfterFirstRound | lib/util/cli.js:43-45 | the same fact stated for a whole reply list |
| Cli.Prefill | lib/util/cli.js:37-42 | every non-password question's default becomes the current value, in place; password questions are unchanged |
| Cli.UpdateAnswers | lib/util/cli.js:35-47 | the questions are prefilled in place; the first round asks all of them; the result is the start merged with the replies used, answering every question; no answer if the replies run out or none are given |
| Cli.FirstRoundThenRest | lib/util/cli.js:43-45 | what requireAnswers gives after the first prompt is the same result seen from the whole reply list |
| Cli.PrintItemsLineCount | lib/util/cli.js:72-80 | an array of n elements prints the elements' lines plus n - 1 `--` separators |
| Cli.PrintItemsPrefix | lib/util/cli.js:76 | the k-th `--` comes right after the lines of the first k elements |
| Cli.PrintFlatObject | lib/util/cli.js:81-86 | an object of primitive values prints one `key: value` line per member, in property order |
| Cli.PrintAndExit | lib/util/cli.js:60-68 | an error is reported as `Exit.error`, the output is not printed, and the exit code is the given code, or 1 when none is given; without an error, output that is not null or undefined is printed and the exit code is the given code |
| Cli.Dispatch | lib/util/cli.js:140-157 | a missing command gives "missing command method"; a wrong argument count gives "incorrect arguments"; a throw reaches the callback as exactly that error; a truthy return reaches it as the reply with no error; a falsy return leaves completion to the command |
| Cli.FinishOutcome | lib/util/cli.js:131-139 | an error is reported as `Exit.error` and exits 1, with no banner and no reply lines; success exits 0, ends with `done` for a falsy reply, and prints the reply when there is no header |
| Cli.GuardFailuresExitOne | lib/util/cli.js:144-156 | every guard failure or throw in execute exits 1 with an error, and a throw from the command reports exactly the thrown error |
| Browser.Normalize | lib/util/browser.js:7-8 | darwin and win32 are kept; every other platform is "other" |
| Browser.EscapeOpt | lib/util/browser.js:49-52 | a falsy value passes through; a non-empty string stays non-empty |
| Browser.EscapeLength | lib/util/browser.js:51 | escaping adds exactly one character per double quote |
| Browser.EscapeHead | lib/util/browser.js:51 | escaped text never starts with a double quote |
| Browser.UnescapeEscape | lib/util/browser.js:51 | reading `\"` back as `"` restores the original text |
| Browser.EscapedQuotesPreceded | lib/util/browser.js:51 | every double quote in escaped text comes right after a backslash |
| Browser.Open | lib/util/browser.js:12-47 | darwin and win32 run a command line ending in the quoted URL and pass the shell's error to the callback; "other" runs the escaped configured browser followed by the quoted URL and never calls back, or without one calls back with "must specify browser in config" |
| Browser.PlatformCommands | lib/util/browser.js:14-32 | the exact darwin and win32 commands, with and without a configured browser, and the "other" command for a configured browser |
| Browser.QuotedUrl | lib/util/browser.js:46 | the URL sits inside double quotes that its own quotes cannot close, and reads back unchanged |
| Apigee.OptionKeysDistinct | lib/commands/account/providers/apigee.js:75-82 | the six option keys are pairwise distinct |
| Apigee.OptionsOfKeys | lib/commands/account/providers/apigee.js:75-82 | the options literal has its six keys in order |
| Apigee.AccountOptsKeys | lib/commands/account/providers/apigee.js:75-82 | the account options have the six keys, in order, each once |
| Apigee.BuildOpts | lib/commands/account/providers/apigee.js:74-85 | the options start with the six account keys, and a key is present exactly when it is an option key or set by `others` |
| Apigee.GetOptionKey | lib/commands/account/providers/apigee.js:75-82 | in an object keyed like the options, each option key reads its own member |
| Apigee.OptionsOfGet | lib/commands/account/providers/apigee.js:75-82 | each of the six keys reads the value given for it |
| Apigee.AccountOptsGet | lib/commands/account/providers/apigee.js:75-82 | organization, environment, username and password are copied from the account; debug and verbose are the debug flag |
| Apigee.AccountOptsOther | lib/commands/account/providers/apigee.js:75-82 | any other key is absent from the account options |
| Apigee.BuildOptsGet | lib/commands/account/providers/apigee.js:74-85 | a key set by `others` reads its value there; otherwise account fields come from the account, debug and verbose from the flag, and anything else is undefined |
| Apigee.Utf8 | lib/commands/account/providers/apigee.js:69 | a character encodes to one to four bytes |
| Apigee.PercentBytes | lib/commands/account/providers/apigee.js:69 | three characters per byte, each `%` or an upper-case hex digit |
| Apigee.QsEscape | lib/commands/account/providers/apigee.js:69-70 | `qs.escape` output contains only unreserved characters, `%` and hex digits |
| Apigee.QsEscapeUnreserved | lib/commands/account/providers/apigee.js:69-70 | text of unreserved characters is left unchanged |
| Apigee.ProxyHostChars | lib/commands/account/providers/apigee.js:69-71 | the host label contains only escaped characters |
| Apigee.ProxyUriLayout | lib/commands/account/providers/apigee.js:68-72 | the URI is `https://`, a label of escaped characters, then `.apigee.net/volos-proxy`, whatever the account says |
| Apigee.HostLayout | lib/commands/account/providers/apigee.js:71 | the same layout for any non-empty label of escaped characters |
| Apigee.ProxyUriDependsOnOrgAndEnv | lib/commands/account/providers/apigee.js:68-72 | accounts with the same organization and environment get the same URI |
| Apigee.ScanFrom | lib/commands/account/providers/apigee.js:49-55 | a match is the first non-null deployment in the environment; a crash is at a null deployment; every deployment before the stop is stepped over |
| Apigee.FindDeployment | lib/commands/account/providers/apigee.js:49-55 | the loop stops exactly where the search specification does |
| Apigee.AnswerReply | lib/commands/account/providers/apigee.js:47-56 | a crash happens exactly when the reply, its deployments or a deployment before the match is null; otherwise the one reply is the matching deployment, or the whole reply when there is none |
| Apigee.DeployVolosProxy | lib/commands/account/providers/apigee.js:39-58 | the options are the account's, extended with the proxy options; the search uses the account's environment; a tool error is passed on and then the command crashes |
| Apigee.ProxyOptsEnvironment | lib/commands/account/providers/apigee.js:40-45 | the proxy options leave the account's environment in place |
| Apigee.DeployedInEnvironment | lib/commands/account/providers/apigee.js:49-54 | when deployment k is the first in the account's environment, the search matches k |
| Amazon.CollectAppend | lib/commands/account/providers/amazon.js:78-95 | the files of a concatenated listing are the files of each part, in order |
| Amazon.GetFiles | lib/commands/account/providers/amazon.js:78-95 | the walk appends the directory's files, depth first and in listing order, to the files passed in |
| Amazon.SkippedContributesNothing | lib/commands/account/providers/amazon.js:85-86 | node_modules, dot-directories and .DS_Store contribute no file |
| Amazon.KeptFile | lib/commands/account/providers/amazon.js:89-91 | every other plain file of the directory is listed under its path |
| Amazon.UnderParent | lib/commands/account/providers/amazon.js:83 | a path under `dir/name` is under `dir` |
| Amazon.CollectUnder | lib/commands/account/providers/amazon.js:78-95 | every listed path lies under the directory walked |
| Amazon.EntryUnder | lib/commands/account/providers/amazon.js:83-91 | the paths one entry contributes lie under the directory |
| Amazon.ZipEntries | lib/commands/account/providers/amazon.js:64-69 | each zip entry name is its file's path with `srcDir/` removed |
| Amazon.DeployProject | lib/commands/account/providers/amazon.js:46-54 | the zip is `deploymentsDir/<account.name>.zip`; a write error is passed on; otherwise the reply is the upload message |
| ProviderRegistry.RegistryOfConsistent | lib/commands/account/account.js:226-236 | each name is registered once, under its own module; a name is registered exactly when it is non-empty and some load produced it |
| ProviderRegistry.RegisteredUnderOwnName | lib/commands/account/account.js:230-232 | a registered module carries its non-empty registry name |
| ProviderRegistry.RegistryOfLatest | lib/commands/account/account.js:231 | when two modules share a name, the later load wins |
| ProviderRegistry.InstalledRegistry | lib/commands/account/account.js:221-239 | the installed providers are amazon and then apigee, each under its name |
| ProviderRegistry.FirstFailure | lib/commands/account/account.js:233-235 | the index of the first failed load: every load before it succeeded |
| ProviderRegistry.FirstFailureAt | lib/commands/account/account.js:233-235 | a failure at i with no failure before it is the first failure |
| ProviderRegistry.ProviderCache.GetProviders | lib/commands/account/account.js:221-239 | a cached registry is returned as it is; account.js under debug rethrows the first load error and keeps what was registered before it; otherwise every load is registered and cached |
| Accounts.ReadFile | lib/commands/account/account.js:241-248 | a read or parse failure gives no accounts and no selection |
| Accounts.Resolve | lib/commands/account/account.js:97 | the name when it is non-empty, else `options.account` when non-empty, else the selected name |
| Accounts.AccountsData.constructor | lib/commands/account/account.js:241-248 | the in-place object starts as the parsed document |
| Accounts.AccountsData.Put | lib/commands/account/account.js:253 | the record is stored; a new name goes last |
| Accounts.AccountsData.Remove | lib/commands/account/account.js:166 | the record is deleted and its name leaves the order |
| Accounts.AccountsData.Select | lib/commands/account/account.js:78 | only the selection changes |
| Accounts.AccountsData.WriteAccount | lib/commands/account/account.js:251-258 | the document becomes the written-account specification of the old one |
| Accounts.WithoutMembers | lib/commands/account/account.js:166 | removing a name keeps exactly the other names |
| Accounts.WithoutNoDup | lib/commands/account/account.js:166 | removing a name keeps the names distinct |
| Accounts.PutRecordFacts | lib/commands/account/account.js:253 | storing keeps the document well formed and changes only that record and not the selection |
| Accounts.DeletedFacts | lib/commands/account/account.js:163-171 | the record is gone, every other record stays, and the selection is cleared exactly when it named that account |
| Accounts.WrittenAccountFacts | lib/commands/account/account.js:251-258 | the record is stored under the name, others stay, and the selection moves to the name only when none was set |
| Accounts.List | lib/commands/account/account.js:64-71 | one entry per account name |
| Accounts.ListMarksSelected | lib/commands/account/account.js:67-69 | account.js changes exactly the selected name's entry, by appending " +"; index.js lists the names unchanged |
| Accounts.Show | lib/commands/account/account.js:95-99 | the record under the resolved name, or undefined when there is none |
| Accounts.GetSelected | lib/commands/account/account.js:173-180 | an error "Unknown account: <key>" exactly when the resolved name has no record; index.js returns the stored record unchanged |
| Accounts.GetSelectedStampsName | lib/commands/account/account.js:178 | account.js sets `name` to the resolved name and leaves every other field as stored |
| Accounts.Select | lib/commands/account/account.js:73-89 | the given name when it has a record, else the chooser's pick, becomes the selection; nothing else changes; the reply is its record; the chooser is shown the account names |
| Accounts.SelectThenShow | lib/commands/account/account.js:95-99 | after select, show without a name returns the selected record, and list marks exactly the selected name |
| Accounts.Delete | lib/commands/account/account.js:163-171 | a known name is deleted and the file written; an unknown one writes nothing; the callback gets no error and no reply |
| Accounts.AnsweredAfterSet | lib/commands/account/account.js:140 | setting `provider` to a truthy value keeps every field answered |
| Accounts.CreateRecord | lib/commands/account/account.js:136-144 | the stored record is the merge of the first k prompt replies with `provider` set to the provider's name; it answers every field and is written as the account |
| Accounts.ChooseProvider | lib/commands/account/account.js:108-135 | an unknown `options.provider` stops with "unknown provider: <name>"; a chooser pick that is not installed throws reading `signupUri`; a provider with a signup page and a user without an account waits for the browser, or stops with its error as the reply, and otherwise the installed provider is used; the provider used is the one registered under the chosen name |
| Accounts.Create | lib/commands/account/account.js:101-146 | an existing name is reported first and creation goes on; an unknown provider is reported; a chooser pick that is not installed throws reading `signupUri`; when the signup page is opened, a browser error is the last reply and nothing is written, and a browser that never calls back leaves the command waiting; a record is written whenever the provider is installed, the signup step passes (no signup page, an existing account, or the browser opened without error) and the replies answer every field, whether or not the name already existed; a record is written exactly when the command ends with a reply and no error; that record's `provider` is `options.provider` when given, else the chooser's pick, and it is that installed provider's record: the first k prompt replies merged, answering all its fields |
| Accounts.CreatedThenShown | lib/commands/account/account.js:251-258 | a created account can be shown by name, becomes the selection when none was set, and leaves an existing selection in place |
| Accounts.Update | lib/commands/account/account.js:148-161 | a missing record is reported and then the command throws; a record whose provider is not installed throws reading `fields`; with an installed provider, the record is written whenever some replies are given and they answer every field, and otherwise the command waits with no reply; a write happens exactly when the command finishes; the new record is the old one merged with the first k replies (k ≥ 1) |
| Accounts.VolosProxyHandoff | lib/commands/account/account.js:189-196 | the account reaches apigee exactly when getSelected succeeds and its provider is exactly "apigee"; any other account is refused |
| Accounts.DeployVolosProxy | lib/commands/account/account.js:189-196 | apigeetool is called exactly when the guard hands the account over; a refusal is the only reply; a getSelected error is thrown |
| Accounts.DeployProject | lib/commands/account/account.js:199-203 | a zip is written exactly when the selected account's provider is amazon, at `<dir>/<account.name>.zip` |
| Accounts.LegacyZipUnnamed | lib/commands/account/index.js:144-150 | with index.js, the selected amazon account "prod" is zipped to `<dir>/undefined.zip` |
| Accounts.CurrentZipNamed | lib/commands/account/account.js:173-180 | with account.js, the zip name is the resolved account name |
| Services.ReadServicesFile | lib/commands/service/service.js:90-97 | a read or parse failure gives an empty object |
| Services.MetadataOf | lib/commands/service/service.js:63-65 | each service paired with its metadata, in order |
| Services.MetadataInOrder | lib/commands/service/service.js:62-65 | for a parsed file, list's object pairs each service, in file order, with its metadata |
| Services.MetadataKeys | lib/commands/service/service.js:62-65 | the listing has exactly the file's service names, in order |
| Services.MetadataGet | lib/commands/service/service.js:64 | each listed name maps to its service's metadata, and other names are undefined |
| Services.MetadataNonEmpty | lib/commands/service/service.js:66 | a file with services lists something |
| Services.List | lib/commands/service/service.js:60-67 | the command crashes exactly when some service record is null; otherwise the reply is the metadata object, or null when there are no services |
| Services.GetService | lib/commands/service/service.js:69-74 | the named service when it is truthy, otherwise "Service <name> not found." |
| Services.GetAgreesWithList | lib/commands/service/service.js:60-74 | every service get finds is listed, with the metadata list shows for it |
| Usergrid.PidFile.constructor | lib/commands/service/usergrid.js:100-111 | the pid file starts with the given content |
| Usergrid.PidFile.ReadPid | lib/commands/service/usergrid.js:100-107 | the text, null when there is no file, and any other read error |
| Usergrid.PidFile.WritePid | lib/commands/service/usergrid.js:96-98 | the file holds the pid in decimal |
| Usergrid.PidFile.DeletePid | lib/commands/service/usergrid.js:109-111 | the file is gone; deleting a missing file throws ENOENT |
| Usergrid.PidRoundTrip | lib/commands/service/usergrid.js:96-102 | a written pid reads back as digits that parse to the same pid |
| Usergrid.PrintPid | lib/commands/service/usergrid.js:68-75 | the recorded pid; the not-running message for a missing or empty file; read errors are thrown |
| Usergrid.PrintPidAfterWrite | lib/commands/service/usergrid.js:33 | after start writes a pid, pid reports exactly that pid |
| Usergrid.StartArgs | lib/commands/service/usergrid.js:22-23 | `-jar` and the jar file come before a copy of the start options |
| Usergrid.Classify | lib/commands/service/usergrid.js:129-133 | a line is a start exactly when it contains the success marker, and a failure exactly when it does not but contains the non-empty error marker |
| Usergrid.StartedMarkerWins | lib/commands/service/usergrid.js:129-131 | a line with both markers counts as started |
| Usergrid.FirstDecisive | lib/commands/service/usergrid.js:126-134 | the first line that decides, with every earlier line deciding nothing |
| Usergrid.When | lib/commands/service/usergrid.js:113-135 | no deciding line gives one timeout; a deciding line after the timeout gives the timeout and then its verdict; otherwise only its verdict |
| Usergrid.Start | lib/commands/service/usergrid.js:19-38 | the pid file is written exactly when the first deciding line is the started marker; the replies are: no deciding line, the timeout error alone; a deciding line after the timeout, the timeout error and then its verdict; otherwise the verdict alone; the verdict is "started. (<pid>)" for the success marker and the error "error" for the failure marker |
| Usergrid.StopSchedule | lib/commands/service/usergrid.js:56-64 | nine signals: eight SIGTERMs, then a SIGKILL |
| Usergrid.StopIt | lib/commands/service/usergrid.js:46-55 | signals the pid the file holds now; on ESRCH the file is deleted and "stopped" is replied if it was there; other errors are swallowed |
| Usergrid.StoppedOnce | lib/commands/service/usergrid.js:52 | adding "stopped" to replies without it keeps it at most once |
| Usergrid.AttemptsShape | lib/commands/service/usergrid.js:46-64 | over any number of attempts from a readable file: one kill per attempt in schedule order until a throw, only ENOENT thrown, earlier replies kept, "stopped" at most once and only with the file gone |
| Usergrid.AttemptsSwallowed | lib/commands/service/usergrid.js:49-54 | attempts that see no ESRCH send their kills to the same pid and change neither the file nor the replies |
| Usergrid.AttemptsAfterGone | lib/commands/service/usergrid.js:46-55 | once the pid file is gone, later attempts add no reply and leave it gone |
| Usergrid.AttemptsAfterThrow | lib/commands/service/usergrid.js:46-55 | once an error is thrown, later attempts change nothing |
| Usergrid.StopRunShape | lib/commands/service/usergrid.js:40-66 | from a readable pid file: nine kills in schedule order unless the ENOENT of a second delete is thrown; "stopped" at most once and only with the file gone |
| Usergrid.StopNotRunningFirst | lib/commands/service/usergrid.js:41-44 | with no pid recorded, the first reply is the not-running message |
| Usergrid.StopSwallowsOtherErrors | lib/commands/service/usergrid.js:49-54 | when no kill sees ESRCH, nine kills go to the recorded pid in schedule order, nothing is thrown, and the file and the replies stay as they were |
| Usergrid.StopFirstEsrch | lib/commands/service/usergrid.js:50-53 | the first ESRCH for a recorded pid deletes the pid file and adds exactly one "stopped" reply |
| Usergrid.Stop | lib/commands/service/usergrid.js:40-66 | the new pid file, the replies, the kills sent and the error thrown are exactly StopRun of the old pid file: an unreadable file throws at once, otherwise the first replies and then the nine attempts folded with StopIt's step |

## Left out

- Reading and writing files, JSON parsing and serialisation, and `path.resolve`. File contents are values. A written document is returned. Paths are joined with `/`.
- A services file that parses to something other than an object (null, an array, a number) is outside the services type; for null, `servicesData[name]` in service.js 71 would crash. A parsed services file is always an object here.
- Non-object records. An accounts file whose `accounts` is not an object, and account records that are not objects (`accounts[name]` truthy but a string, say), are outside the document type. Every record is an object.
- Names of `Object.prototype` members. Property reads on the accounts object and on the services object see only own members. Names such as `constructor` or `toString` are ordinary keys, and `__proto__` is stored like any other name. In JavaScript these names read inherited members. So `del("constructor")` on an empty file writes the file, `create("toString", …)` reports that the account already exists, and service `get("constructor")` finds a "service". The model does none of these.
- Property order. JavaScript lists integer-like keys first, in numeric order. Objects here keep insertion order for every key.
- `tail` (usergrid.js 77-91) and `listDeployments`, `deploy`, `undeploy`, `deployments` and `undeployProject`. They only call through to other code, or their bodies are empty.
- The account service commands (`createService`, `deleteService`, `listServiceTypes`). They are in code this model does not include.
- Console output and `emit` feedback, except the lines `print` and `printAndExit` produce.
- `process.exit` ends the process at the first callback. The model records every callback a command makes, in order.
- The order of the callbacks of separate commands, the timers' real timing, and the `unref` of the spawned process. `When` takes the timeout's position among the log lines.
- Usergrid.Start: takes the spawn to succeed with a numeric pid. An undefined pid is not modelled.
- Usergrid.Stop: `process.kill` is an oracle per attempt, pid text and signal, so the model does not decide what a null or empty pid does.
- Usergrid.PidFile.DeletePid: unlinking a present or unreadable file is taken to succeed.
- Browser.Open: escaping covers double quotes only, as the source does. The model does not say how the shell treats other characters.
- Apigee.QsEscape: lone surrogates, which Node's `querystring.escape` rejects, are encoded as if they were characters.
- Accounts.Update: field defaults that updateAnswers writes into the provider's shared field array live on. The model uses a fresh array per call.
- The static provider table. Create, Update and DeployProject look providers up in the installed table (amazon, apigee). The loading, caching and failure behaviour of `getProviders` is modelled separately in ProviderRegistry.ProviderCache.GetProviders.
- Accounts.Show: the code returns undefined for an unknown account, and the model follows the code. The documentation says `show` reports "Unknown account".
- The crash of `tail(null)` after a failed start (usergrid.js 30, 78-82) is not modelled: `options.follow` on null throws once the log's first data arrives, after the callback has the error. Usergrid.Start records the error reply only.
- The text printAndExit logs for an error (cli.js 62): `err.stack` when `config.debug` is set, otherwise Node's rendering of the error object. Exit.error carries the error's message only.

## Findings

| source | as written | input that shows it | evidently intended | confidence | as-written member | corrected member |
|---|---|---|---|---|---|---|
| lib/commands/account/index.js:144-150 | getSelected returns the stored record without setting `name`, so amazon's deployProject builds the zip path from `account.name`, which is undefined | an amazon account "prod", selected, stored without a `name` field, and `deployProject` with no name | the zip is `<dir>/prod.zip`, as account.js:178 does by stamping the resolved name | high; not executed | Accounts.LegacyZipUnnamed | Accounts.CurrentZipNamed |
