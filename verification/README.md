# Managed settings: a verified model

AI Env Mgr hands every employee a gateway configuration, merges it into the
Codex settings that are already on the desktop, keeps the desktop's agent in step
with the console, and accounts for what it costs. This project models the parts
of it whose claims span whole files and whole runs, and proves them.

**The config.toml merge** is the core (`Text`, the `Toml` modules, `GoQuote`,
`GatewayConfig`, `Deploy`). A line-oriented scanner classifies the
employee's file, an owner array decides which comments go with which table, the
tool's keys and table are removed, and four sections are put together again.
The loops are methods over arrays and sequences, each proved against a recursive
definition; the claims are lemmas about those definitions:

- `TomlStrings` reads a line by a grammar of its own, with the four kinds of strings,
  and shows that the scanner reads it so; `TomlRemoval.KeptExactly` says which lines of
  a file go and which stay; `TomlLayout.MergedLines` where every line of a merged file
  comes from;
- how many managed headers a merged file has is known exactly, for every file.
  The claims below are about files in which nothing inside a value leads up to a
  header (see the conditions);
- redelivery writes the same bytes *if and only if* the content is not merged at
  all, or the file is settled, the kept model fits into a line and can be read back,
  and no surviving line ends in a carriage return; a file that closes is settled,
  and so is every merged file;
- a merged file has one managed header and never more of the employee's lines than
  there were; over further deliveries it keeps its header *if and only if* the file
  it was made from lasts;
- `TomlMeaning.Doc` reads a file that closes as the list of what it says, each line
  with its table and the head of its value. The merge keeps the employee's part of
  that list unchanged and replaces the tool's part by the fragment's;
- hence the gateway identity after a merge is the delivered one, and a second
  delivery of what the console renders changes no file and stops no session, under
  that same condition; what the console renders has another identity exactly when
  token or base URL differ (`GatewayConfig.SameIdentity`), and is then reported as a
  new credential (`Deploy.NewTokenMoves`, `Deploy.SecondTokenMoves`).

**Runs** are sequences of steps that may fail, crash or interleave: the service
loop with its waiter, timers and running sync (`AgentLoop`), one attempt per
release target (`CodexUpdate`), one kill per restart request (`CodexRestart`), the
skipped policy (`PolicyCache`), the incremental collector (`Collector`) and the
gateway tokens of one employee (`Provisioning`). Classes carry the fields the
source updates; each method's postcondition ties them to a step function, and the
lemmas quantify over all sequences of steps. When a step starts a sync, runs an
installer, stops a session, uploads a file, issues a token or refuses to is also said
apart from the step functions, over the fields of the state and the answers of the
calls (`AgentLoop.FreeStarts`, `CodexUpdate.InstalledSafely`,
`CodexRestart.StopsExactly`, `Collector.UploadedExactly`, `Provisioning.ReissueOk` and
the rows beside them).

**Sums** are exact: the sign-in limiter (`LoginLimiter`), monthly cost
(`MonthlyCost`) and cloud bills (`CloudBilling`, with `Decimal`).

## Conditions and where they come from

A delivered fragment (`TomlAssembly.Fragment.Valid`) has one-line managed
assignments, one blank line, comments touching the managed header, and a body that
closes. `GatewayConfig.RenderedIsValid` shows that the renderer produces this for
every list of models, base URL and token, and every account name without a double
quote. A file of which the kept lines do not close also asks that the body be
`Sealed`, so that nothing in it ends a string left open above it. The renderer's is,
unless the base URL or the token holds three single quotes in a row
(`GatewayConfig.RenderedIsSealed`); such a token does lose the gateway table
(`TomlLimits.TableInOpenString`, `TomlLimits.UnsealedExists`).

The owner array recognises comments by their text alone, so a string closed by a
line that looks like a comment, directly above a header, is cut in two.
`TomlMerge.MergedHeaderCount` says for every file when a sealed table is lost by
that: exactly when the kept lines close and the cut falls inside a value.
`TomlLimits.TableLostInString` is a whole family of such files. The other claims
about a merge ask for `TomlStability.Whole`: no line inside a value leads up to a
header, in the file and in what the strip keeps of it, as far as they close. It
holds wherever no comment line holds a triple quote (`TomlConvergence.CleanIsWhole`).

The merge itself can bring such a line and a header together, when it takes out an
assignment between them that the first delivery still took for a table's.
`TomlMerge.Lasting` says when it does not, and is exact: `TomlMerge.WholeAgain` and
`TomlMerge.SecondDelivery`. In the family of `TomlLimits.TableLostLater` the first
delivery is fine and the second loses the table. `TomlMerge.Steady`, the condition
for any number of deliveries, is both together; it holds for every settled file
that is whole, and wherever no comment line holds a triple quote.

Five claims need a condition that the source does not state, and the project says
which, for all inputs:

- redelivery is not always a no-op: `TomlMerge.Redelivery` and, on contents,
  `TomlFile.RedeliveryOfContents` give the exact condition. A kept model that
  contains a blank followed by `#` is taken for a value with a comment and is lost
  by the next merge (`TomlLimits.ModelWithHashIsLost`); a header inside a closed
  array above an unclosed managed table needs a second delivery
  (`TomlLimits.NotSettled`); each merge drops two carriage returns at the end of a
  surviving line, so one with more of them is written differently again
  (`TomlLimits.ReturnsRepeat`); and a model that outgrows a line of the scanner once
  it is quoted is written and then replaced (`TomlFile.TooLongOnce`);
- skipping the policy on an equal tag agrees with applying it each time exactly
  when no lost marker is followed by the tag that the marker still holds
  (`PolicyCache.SkippingRefinesApplying`, `PolicyCache.LostMarkerBreaksIt`);
- a recorded signature that is the current one says what the store holds, unless
  and only unless the last upload had other content and its pass could not write
  the state file (`Collector.RecordedIsStored`, `Collector.GoingBackBreaksIt`);
- a restart request costs at most one kill, unless and only unless two cycles
  attempt it before one carries it out and lives to mark it
  (`CodexRestart.OneKillPerRequest`, `CodexRestart.CrashKillsTwice`);
- a token is delivered where the agent reads it only when a reissue spells the
  name as the roster does (`Provisioning.OrphanExactly`,
  `Provisioning.OtherSpelling`).

## Model

| member | source | states |
|---|---|---|
| `TomlScan.SkipSingleLineString` | go/internal/creds/codextoml.go:421-433 | the index just past the closing quote of a one-line string, escapes honoured only where the quoting allows them |
| `TomlScan.AdvanceTomlScanState` | go/internal/creds/codextoml.go:365-413 | the character loop leaves the scan state the character-by-character definition gives: triple quotes, one-line strings, comments, bracket depth never below zero |
| `TomlScan.MatchTomlHeader` | go/internal/creds/codextoml.go:135-181 | a line is a header, and with which name, exactly when brackets, quoted keys and the tail say so |
| `TomlScan.ClassifyTomlLines` | go/internal/creds/codextoml.go:316-349 | the loop with its mutable state computes the classification of every line and the state at the end of the file, in either pass |
| `TomlScan.ScanTomlLines` | go/internal/creds/codextoml.go:270-280 | an error exactly when a line does not fit into the scanner's buffer; else one plain pass, and the recovering pass exactly when the plain one does not end outside every value |
| `TomlScan.BlankKeepsState` | go/internal/creds/codextoml.go:365-413 | a blank line is no header and leaves every scan state as it was |
| `TomlScan.CommentKeepsState` | go/internal/creds/codextoml.go:365-413 | a comment line without a triple quote is no header and leaves every scan state as it was, even inside a string or array |
| `TomlStrings.SkipEnds` | go/internal/creds/codextoml.go:421-433 | the skip of a one-line string stops just past the first quote that an even number of backslashes precedes, any quote where backslashes do not count, and else at the end of the line |
| `TomlStrings.OneLineString` | go/internal/creds/codextoml.go:388-399 | outside a multi-line string the scanner steps over a one-line string in either quoting as a whole, whatever brackets, hashes and backslashes it holds, even one that ends in a backslash |
| `TomlStrings.LineScanned` | go/internal/creds/codextoml.go:365-413 | a line of plain characters, brackets, comments, strings in all four quotings and a multi-line string left open leaves exactly the state its pieces make one after the other: only brackets outside strings and comments count, and there are never fewer than none |
| `TomlStrings.LineScannedInside` | go/internal/creds/codextoml.go:371-387 | inside a multi-line string the first three quotes of its kind end it, and what follows is read as any line |
| `TomlStrings.LineInside` | go/internal/creds/codextoml.go:371-387 | a line without them leaves the string open and changes nothing else |
| `TomlStrings.HeaderRead` | go/internal/creds/codextoml.go:135-181 | a header in single or double brackets, of bare and quoted keys with brackets and quotes inside them, is read as its name if that is not blank and only blanks or a comment follow, and is no header otherwise |
| `TomlStrings.HeaderOnly` | go/internal/creds/codextoml.go:135-181 | and every header is one of these |
| `TomlStrings.KeyRead` | go/internal/creds/codextoml.go:684-697 | a bare key before the first equals sign is read as the line's key, whatever blanks stand around it |
| `TomlStrings.KeyOnly` | go/internal/creds/codextoml.go:684-697 | and a line with a key is blanks, that bare key, blanks, an equals sign and any rest |
| `TomlSections.TomlSectionOwners` | go/internal/creds/codextoml.go:477-507 | the owner array filled and overwritten in place gives every line the table its run of comments and blanks leads to, else the last header before it |
| `TomlSections.AbsorbRun` | go/internal/creds/codextoml.go:483-506 | one backward walk from a header takes over exactly the run it absorbs: comments for the managed table, comments and blanks for any other |
| `TomlSections.SplitTomlRootAndTables` | go/internal/creds/codextoml.go:516-531 | the cut falls at the first line that belongs to a table; an error for what cannot be scanned |
| `TomlStrip.StripCodexManaged` | go/internal/creds/codextoml.go:604-676 | what is kept is what the line-by-line definition keeps: no managed root value with its continuation lines, no managed table; an error for what cannot be scanned |
| `TomlStrip.GatewayIdentity` | go/internal/creds/codextoml.go:763-790 | the identity is the model_provider assignments at the root and the managed table, without blanks and comments; the whole content when that cannot be scanned |
| `TomlRemoval.KeptExactly` | go/internal/creds/codextoml.go:604-676 | of a file that closes, in which nothing inside a value leads up to a header, exactly these lines go: those of the managed table, the comments touching its header, and the root values of the tool's keys with every line they span; every other line stays, in its order |
| `TomlRemoval.FillerGoes` | go/internal/creds/codextoml.go:477-507 | a comment or blank line outside every value goes exactly when it is in the managed table or in the unbroken run of comments above its header |
| `TomlStrings.ManagedBelow` | go/internal/creds/codextoml.go:604-676 | below any lines that open nothing, a managed line at the root is taken out and the others stay |
| `TomlStrings.ArrayOfPath` | go/internal/creds/codextoml.go:365-413 | an array of one Windows path in single quotes, ending in a backslash or not, closes on its line |
| `TomlStability.KeptScansTheSame` | go/internal/creds/codextoml.go:270-413 | if a file closes and nothing inside a value leads up to a header, removing every managed value and table leaves the classification of each remaining line unchanged, and the rest closes too |
| `TomlStability.AnyChoiceScansTheSame` | go/internal/creds/codextoml.go:270-413 | whichever lines are taken out of a file that closes, as long as each value goes as a whole, the rest keeps its classification and closes |
| `TomlScan.ClassifyConcat` | go/internal/creds/codextoml.go:316-349 | two pieces scanned one after the other are scanned as each alone, the second from where the first ends |
| `TomlStability.LeadNeedsFresh` | go/internal/creds/codextoml.go:492-504 | in a plain pass over lines whose comments hold no triple quote, only lines outside every value are absorbed by a header |
| `TomlStability.CleanIsApart` | go/internal/creds/codextoml.go:492-504 | where no comment line holds a triple quote, no line inside a value leads up to a header |
| `GoQuote.UnquoteQuote` | go/internal/creds/codextoml.go:702-757 | a string written with Go quoting is read back as itself |
| `GoQuote.QuoteHash` | go/internal/creds/codextoml.go:715-724 | a quoted string holds " #" exactly when the string does: where the reader cuts a comment |
| `TomlStrings.LiteralValue` | go/internal/creds/codextoml.go:702-730 | a value in single quotes is read as it stands, unless it holds " #", and then nothing is read |
| `TomlStrings.ValueRead` | go/internal/creds/codextoml.go:702-730 | a root assignment in either quoting, with a comment after it or without, is read as its value |
| `TomlStrings.ModelBelow` | go/internal/creds/codextoml.go:61-87 | below any lines that open nothing, the model at the root is the employee's choice exactly when its value can be read, is not empty and is allowed |
| `TomlStrings.ModelBelowPath` | go/internal/creds/codextoml.go:61-87 | in particular one in single quotes below an array of a path: its line is taken out, the path stays, and the model is the employee's choice |
| `TomlModel.RootStringValue` | go/internal/creds/codextoml.go:702-730 | the value of the first root assignment of a key, found by the loop with its owner array; nothing in what cannot be scanned |
| `TomlModel.SetRootString` | go/internal/creds/codextoml.go:736-757 | only root assignments of the key are rewritten, up to their first equals sign; an error for what cannot be scanned |
| `TomlModel.SetValueRead` | go/internal/creds/codextoml.go:702-757 | a model written into a line is read back as itself, unless it holds " #", and then nothing is read |
| `TomlModel.SetValueKey` | go/internal/creds/codextoml.go:736-757 | rewriting a value keeps the key the line assigns |
| `TomlModel.SetValueRootLine` | go/internal/creds/codextoml.go:736-757 | a rewritten managed line is still a one-line root assignment that closes |
| `TomlReturns.SameReading` | go/internal/creds/codextoml.go:282-413 | one carriage return at the end of a line changes nothing that is read of it: its trimmed text, whether it is blank or a comment, the state after it |
| `TomlReturns.KeptDropped` | go/internal/creds/codextoml.go:604-676 | dropping a carriage return at the end of every line drops it from the kept lines, and changes nothing else about them |
| `TomlReturns.ReturnsGoDown` | go/internal/creds/codextoml.go:282-313 | lines that are read back twice do not come back as they were while one of them ends in a carriage return |
| `TomlFile.TrimBlankTomlLines` | go/internal/creds/codextoml.go:574-596 | blank lines go from both ends of a section and from nowhere else |
| `TomlFile.AppendTomlSection` | go/internal/creds/codextoml.go:556-569 | one blank line between sections, none before the first, nothing for an empty one |
| `TomlLayout.MergedLines` | go/internal/creds/codextoml.go:90-118 | blank lines aside, a merged file is the delivered root keys, what is kept at the root, the delivered table, and what is kept of the tables: every kept line once, in its order, and no other |
| `TomlLayout.MergedBlanks` | go/internal/creds/codextoml.go:556-596 | single blank lines separate these parts, none stands for an empty one, and no other is added |
| `TomlLayout.CutExactly` | go/internal/creds/codextoml.go:516-531 | the cut stands at the first line that belongs to a table, be it a header, below one, or in the run of comments and blanks above one |
| `TomlFile.MergeCodexConfigKeeping` | go/internal/creds/codextoml.go:61-118 | the merge of two texts: the delivered one for a missing or blank file and for one that cannot be scanned, else the four sections with the kept model |
| `TomlFile.MergeTextIsMerge` | go/internal/creds/codextoml.go:61-118 | for every content, broken, too long or not: the merged text is the fragment when content or fragment cannot be scanned, the fragment with the kept model when only that cannot, and else the merge of the lines, each without the two carriage returns that its two readings drop |
| `TomlFile.RedeliveryOfContents` | go/internal/creds/codextoml.go:61-118 | byte for byte, a second delivery writes what the first wrote if and only if nothing was merged, or the file is settled, the kept model fits and can be read back, and no surviving line still ends in a carriage return |
| `TomlFile.TooLongOnce` | go/internal/creds/codextoml.go:75-106 | a kept model that does not fit into a line once it is quoted is written by the first delivery, and the second writes the bare fragment |
| `TomlMerge.Redelivery` | go/internal/creds/codextoml.go:32-118 | merging the same fragment again changes nothing if and only if the file is settled and the kept model can be read back |
| `TomlMerge.RedeliveryToClosedFile` | go/internal/creds/codextoml.go:32-118 | for a file that closes, with no " #" in the allowed models, merging again changes nothing |
| `TomlMerge.ClosedIsSettled` | go/internal/creds/codextoml.go:243-356 | a file is settled if it closes, or if what does not close is not the tool's |
| `TomlMerge.MergedFile` | go/internal/creds/codextoml.go:243-356 | one merge of a file, broken or not, in which nothing inside a value leads up to a header: exactly one managed header, settled, no more of the employee's lines than before, closing exactly when the employee's part closes |
| `TomlMerge.MergedHeaderCount` | go/internal/creds/codextoml.go:90-118 | for every file, and a sealed fragment when the cut falls inside a value: the merged file closes exactly when the kept lines do, and it has their managed headers and the delivered one, which is lost exactly when they close and the cut falls inside a value |
| `TomlMerge.WholeAgain` | go/internal/creds/codextoml.go:90-118 | a merged file is whole again if and only if the file it was made from lasts |
| `TomlMerge.SecondDelivery` | go/internal/creds/codextoml.go:90-118 | of two deliveries, the second of a sealed fragment, the second leaves one managed header if the file lasts, and none if it does not |
| `TomlMerge.CleanIsSteady` | go/internal/creds/codextoml.go:492-504 | where no comment line holds a triple quote, any number of deliveries is safe |
| `TomlMerge.TwoDeliveriesSettle` | go/internal/creds/codextoml.go:243-356 | however broken a steady file, the third delivery writes what the second wrote |
| `TomlMerge.NoGrowth` | go/internal/creds/codextoml.go:243-356 | over any sequence of deliveries of any fragments, sealed ones if the kept lines do not close, to a steady file: one managed header, never more non-blank employee lines, and a file that closes keeps closing |
| `TomlMeaning.MergeMeaning` | go/internal/creds/codextoml.go:90-118 | for a file that closes, everything the employee's part says keeps its text, order, table and value head, and the tool's part says exactly what the chosen fragment says: nothing stale, nothing twice |
| `TomlIdentity.DocIdentity` | go/internal/creds/codextoml.go:763-790 | the gateway identity is a function of the meaning of the file |
| `TomlIdentity.MergedIdentity` | go/internal/creds/codextoml.go:763-790 | the merged file has the identity of the fragment, whatever model was kept |
| `TomlIdentity.FragmentTells` | go/internal/creds/codextoml.go:763-790 | the identity of a fragment is its model_provider line and its managed table, line by line, without blanks and comments: nothing else and nothing less |
| `TomlConvergence.OneManagedHeader` | go/internal/creds/codextoml.go:90-118 | an assembled file of sound parts has exactly one managed header in its own scan |
| `TomlConvergence.HeadersExactly` | go/internal/creds/codextoml.go:90-118 | the managed headers of the file assembled from any kept lines, counted exactly, with no condition on comments; the fragment is sealed when the cut falls inside a value |
| `TomlLasting.AssembledWholeExactly` | go/internal/creds/codextoml.go:90-118 | an assembled file is whole exactly when a second strip of the kept root leaves no line inside a value leading up to a header |
| `TomlLasting.CutInsideValue` | go/internal/creds/codextoml.go:516-531 | otherwise the next cut falls inside a value |
| `TomlConvergence.AssembledShrinks` | go/internal/creds/codextoml.go:604-676 | stripping an assembled file never leaves more of the employee's lines than were put in, and fewer when a managed key stood at its root |
| `TomlRedelivery.AssembledScan` | go/internal/creds/codextoml.go:90-118 | the merged file is read section by section, each as it would be read alone |
| `TomlRedelivery.AssembledKept` | go/internal/creds/codextoml.go:604-676 | stripping the merged file gives back what survived of the employee's file |
| `TomlLimits.TableLostInString` | go/internal/creds/codextoml.go:492-504 | where a line that looks like a comment closes a string above a header, the merge writes the gateway table inside the string: the result has no managed header |
| `TomlLimits.ClosedByCommentExists` | go/internal/creds/codextoml.go:492-504 | such files exist |
| `TomlLimits.NotSettled` | go/internal/creds/codextoml.go:243-356 | a header inside a closed array above an unclosed managed table: the file is whole and not settled, and a second delivery of any fragment writes another file than the first |
| `TomlLimits.HeaderInArrayExists` | go/internal/creds/codextoml.go:243-356 | such files exist, so two deliveries are sometimes needed |
| `TomlLimits.TableLostLater` | go/internal/creds/codextoml.go:492-531 | a root assignment between a string that ends like a comment and a header: the first delivery leaves one managed header, the second none |
| `TomlLimits.KeyBelowStringExists` | go/internal/creds/codextoml.go:492-531 | such files exist |
| `TomlLimits.TableInOpenString` | go/internal/creds/codextoml.go:243-356 | a fragment whose body ends a string left open by the employee is written inside that string: no managed header |
| `TomlLimits.UnsealedExists` | go/internal/creds/gatewayconfig.go:19-39 | the renderer produces such a fragment for a token of three single quotes |
| `TomlLimits.ReturnsRepeat` | go/internal/creds/codextoml.go:286-297 | a line of the employee's with n carriage returns at its end: the second delivery repeats the first if and only if n is two at most |
| `TomlLimits.ModelWithHashIsLost` | go/internal/creds/codextoml.go:702-730 | a model spelled with an escaped blank before # is kept by the first merge and lost by the second, which writes another file, for every fragment with a model of its own |
| `GatewayConfig.RenderedIsValid` | go/internal/creds/gatewayconfig.go:19-39 | every rendered fragment, for any models, base URL and token and any account name without a double quote, has the shape the merge relies on: one-line managed root keys that close, the managed header, a body that closes |
| `GatewayConfig.RenderedIsSealed` | go/internal/creds/gatewayconfig.go:19-39 | its body leaves open what is open above it, unless base URL or token hold three single quotes in a row |
| `GatewayConfig.RenderedIsCanonical` | go/internal/creds/gatewayconfig.go:19-39 | a rendered fragment assigns the model once, quoted as Go quotes it |
| `GatewayConfig.RenderedIsClean` | go/internal/creds/gatewayconfig.go:19-39 | every line of a rendered fragment is read back as it was written: no line break or trailing carriage return gets into one |
| `GatewayConfig.RenderedLines` | go/internal/creds/gatewayconfig.go:19-39 | the rendered fragment, line by line: model, provider, catalog, search, timeout, a blank line, the header, name, base URL, wire API, token |
| `GatewayConfig.ModelSaid` | go/internal/creds/gatewayconfig.go:19-39 | its model line reads back as the first model of the list, unless that holds " #" |
| `GatewayConfig.UrlSaid` | go/internal/creds/gatewayconfig.go:19-39 | its base URL reads back as the given one without slashes at its end, with /v1 |
| `GatewayConfig.TrimSlashesMeaning` | go/internal/creds/gatewayconfig.go:35 | exactly the slashes at the end go |
| `GatewayConfig.TokenSaid` | go/internal/creds/gatewayconfig.go:19-39 | its token reads back as the given one |
| `GatewayConfig.CatalogSaid` | go/internal/creds/gatewayconfig.go:19-39 | its catalog reads back as models.json in the .codex directory of the account |
| `GatewayConfig.FixedSaid` | go/internal/creds/gatewayconfig.go:26-37 | search is live, the wire API is responses, the idle timeout two hours, and the provider named at the root is the table that follows |
| `GatewayConfig.SameIdentity` | go/internal/creds/codextoml.go:763-790 | two rendered fragments have one gateway identity if and only if they lead to the same base URL, slashes at its end aside, with the same token, whatever models, account and catalog they carry |
| `GatewayConfig.RenderedRedelivery` | go/internal/creds/codextoml.go:61-118 | what the console renders, delivered twice to any content that can take it: the same bytes if and only if the second delivery repeats the first |
| `Deploy.Profile.WriteToProfileReport` | go/internal/creds/deploy.go:126-184 | whatever fails: the disk and the report are those of the entries delivered so far, with the credential flag up for a new identity in place or refused, and a complete run reports exactly what changed, was merged and was skipped |
| `Deploy.RedeliveryIsSilent` | go/internal/creds/deploy.go:126-184 | the same archive delivered again changes no file if and only if the config.toml it meets can be merged into again, and then reports no change and no new credential |
| `Deploy.RenderedIsSilent` | go/internal/creds/deploy.go:126-184 | the same for an archive with the config.toml that the console renders, for any list of models, base URL, account and token it renders well |
| `Deploy.CredentialChangedIff` | go/internal/creds/deploy.go:155-163 | for no file, one that cannot be scanned or one that closes, the credential counts as changed exactly when the identity on disk differs from the delivered one |
| `Deploy.NewTokenMoves` | go/internal/creds/deploy.go:155-163 | over a closed and whole file that carries one rendered identity, a delivery of another rendered fragment counts as a new credential if and only if the token or the base URL differs |
| `Deploy.SecondTokenMoves` | go/internal/creds/deploy.go:155-163 | in particular over what a first delivery left of any employee file that closes and is steady: a new token is never taken for the old, and the old never for a new one |
| `Deploy.DeliveryLeaves` | go/internal/creds/deploy.go:126-184 | sign-in and catalog are on disk as delivered, config.toml is the merge, and no other file on the disk is touched |
| `Deploy.ReportCounts` | go/internal/creds/deploy.go:126-184 | the report counts what was recognised and names exactly what was not |
| `Deploy.ReportPlaces` | go/internal/creds/deploy.go:126-184 | it lists sign-in and catalog as placed, with the contents delivered |
| `Deploy.ReportChanges` | go/internal/creds/deploy.go:126-184 | it lists as changed exactly the files that now differ from before |
| `Deploy.ReportMoves` | go/internal/creds/deploy.go:155-163 | and tells of a new credential exactly when the identity of the config.toml on disk is now another one |
| `AgentLoop.Loop.Nudge` | go/cmd/agent/main.go:359-365 | the notify channel holds one token at most |
| `AgentLoop.Loop.Start` | go/cmd/agent/main.go:377-410 | the four branches of startSync: not ready, already syncing, inside the gap (deferred only for a console change), started |
| `AgentLoop.Loop.Finish` | go/cmd/agent/main.go:412-417 | a finished sync hands a pending request on as a nudge |
| `AgentLoop.Loop.Tick` | go/cmd/agent/main.go:498-513 | an overdue or changed tick asks for a sync, any other changes nothing |
| `AgentLoop.NoLostWakeUp` | go/cmd/agent/main.go:366-514 | in every interleaving from the start of the service: a console change no sync has followed is held by a token, a pending flag of a running sync or an armed timer; one sync at most is in flight; starts are at least thirty seconds apart |
| `AgentLoop.FreeStarts` | go/cmd/agent/main.go:377-410 | with nothing running and no start within the gap, a request starts a sync at once, whether it comes from the start of the service, a wake-up, the schedule, a late enrolment or the console |
| `AgentLoop.BusyKeeps` | go/cmd/agent/main.go:377-417 | one that finds a sync running is kept, and becomes a token when its result is taken |
| `AgentLoop.RequestServed` | go/cmd/agent/main.go:366-514 | in every interleaving: right after any request of a ready loop a sync is in flight or its result waits, or the last one started less than the gap ago |
| `AgentLoop.StartsAtOnce` | go/cmd/agent/main.go:452-458 | a service that knows its source of instructions starts with a sync |
| `AgentLoop.BootedState` | go/cmd/agent/main.go:366-458 | the waiter runs from the start exactly when the console is that source, and a service without one is not ready and can be enrolled |
| `AgentLoop.AdoptMakesReady` | go/cmd/agent/main.go:377-490 | a late enrolment makes the loop ready and starts the waiter; before it no request starts anything |
| `AgentLoop.SyncComes` | go/cmd/agent/main.go:366-514 | no run of the loop's own steps is longer than the rank of its state, three more for each new change, without a sync starting |
| `AgentLoop.RankStep` | go/cmd/agent/main.go:377-417 | every step of the loop's own starts a sync or lowers the rank, and time, ticks and wake-ups never raise it |
| `AgentLoop.NeverStuck` | go/cmd/agent/console.go:159-176 | while a change waits, some step of the loop's own is possible, at once or when the gap is over |
| `CodexUpdate.TargetMarkerInjective` | go/internal/agentcore/sync.go:185-189 | two targets share a marker exactly when version and generation agree |
| `CodexUpdate.MatchesExactly` | go/internal/agentcore/sync.go:191-197 | a written marker matches its own target and, besides, only a fleet target whose version is that marker's text |
| `CodexUpdate.Updater.Run` | go/internal/agentcore/codex.go:113-199 | one update cycle, branch by branch, with the process possibly dying before the marker, after it or while installing: the marker, the installer runs, and exactly when it reports idle, deferred or failed and which version |
| `CodexUpdate.Updater.RunSelf` | go/internal/agentcore/sync.go:654-675 | the agent's own update: pending exactly for a fetched package with a matching checksum and an unmarked target, nothing exactly without a target of another version, failed otherwise |
| `CodexUpdate.InstallOnce` | go/internal/agentcore/codex.go:113-199 | over any cycles and crashes, from any markers: between two installer runs for one target another target's marker was written, and no package ran whose checksum differs |
| `CodexUpdate.NoRetry` | go/internal/agentcore/codex.go:132-139 | a target already marked is left alone for as long as it stays the target |
| `CodexUpdate.NewGenerationIsTried` | go/internal/agentcore/codex.go:132-199 | the same version under a new generation is marked and installed |
| `CodexUpdate.InstalledSafely` | go/internal/agentcore/codex.go:113-199 | over any cycles, crashes and markers: every installer run happened in a cycle that found Codex not running, or stopped it and then found it not running, with free space unknown or above the headroom, another version installed, and it ran what that cycle fetched |
| `CodexUpdate.RefusedIsTriedLater` | go/internal/agentcore/codex.go:139-199 | after any cycles in which Codex could not be closed or room was missing, marker and log are as they were, and the next safe cycle marks and installs the target |
| `CodexUpdate.SuccessIsInstalled` | go/internal/agentcore/codex.go:184-198 | success is reported exactly for a run whose installer ran to its end |
| `CodexUpdate.WhereItDies` | go/internal/agentcore/codex.go:172-186 | a process that dies before the marker leaves nothing; one that dies after it does not try the target again |
| `CodexUpdate.BareMarker` | go/internal/agentcore/sync.go:191-197 | a bare version stands for generation zero of that version and for nothing else |
| `CodexUpdate.EqualFoldMeaning` | go/internal/agentcore/codex.go:172 | checksums are compared character by character but for the case of letters |
| `CodexUpdate.SelfAppliedSafely` | go/internal/agentcore/sync.go:571-675 | the agent replaces itself only by the targeted version, another one than its own, with the checksum the target names, and not for a marked target |
| `CodexUpdate.SelfIsApplied` | go/internal/agentcore/sync.go:654-675 | and does so whenever such a package is there |
| `CodexRestart.Syncer.RunCodexRestart` | go/internal/agentcore/codexrestart.go:66-103 | the marker with its time and note, the reported outcome and the kill for every case: no request, done, no profile, already swept, killed or refused |
| `CodexRestart.Syncer.Deliver` | go/internal/agentcore/sync.go:470-556 | the credential step stops the session for a removal, a new token or gateway, or any file but the two that wait for the next start |
| `CodexRestart.Syncer.BoundCycle` | go/internal/agentcore/sync.go:370-375 | a delivery and a request together stop the session once at most, and exactly when either asks for it |
| `CodexRestart.KillsExactly` | go/internal/agentcore/codexrestart.go:66-103 | the kills a request costs are the attempts up to the cycle that settles it, counted on the cycles alone |
| `CodexRestart.OneKillPerRequest` | go/internal/agentcore/codexrestart.go:55-103 | when a replaced nonce does not come back, a request costs at most one kill if and only if it was marked already or no two cycles attempt it before one carries it out and lives to mark it |
| `CodexRestart.KillsAreBounded` | go/internal/agentcore/codexrestart.go:55-103 | one kill at most, plus one for each cycle that kills for the request and dies before its marker |
| `CodexRestart.NoCrashOneKill` | go/internal/agentcore/codexrestart.go:55-103 | without a crash in a cycle that attempts it, a request costs one kill at most |
| `CodexRestart.CrashKillsTwice` | go/internal/agentcore/codexrestart.go:86-101 | a crash there does cost a second kill |
| `CodexRestart.FirstChance` | go/internal/agentcore/codexrestart.go:75-82 | a request without a profile leaves no mark and is carried out in the first cycle that has one |
| `CodexRestart.StopsExactly` | go/internal/agentcore/sync.go:470-556 | the credential step stops the session exactly when a removal took something away, or a delivery placed something and either brought a new token or gateway or changed a file other than the catalog and config.toml |
| `CodexRestart.TokenEndsSession` | go/internal/agentcore/sync.go:536-556 | a new token ends the session once, whatever request is pending; a new model or catalog alone leaves it running unless one is |
| `CodexRestart.ReportHoldsTheStop` | go/internal/agentcore/codexrestart.go:66-103 | a due request comes with exactly one stop, the delivery's or its own, and the report holds the request, the time and what came of that stop |
| `CodexRestart.ReportTellsDone` | go/internal/agentcore/codexrestart.go:66-103 | the console sees the request in the report exactly when it has been carried out, and until then why not |
| `CodexRestart.ReportIsKept` | go/internal/agentcore/codexrestart.go:66-103 | what is reported once is reported again while the request stands, and nothing is reported without one |
| `CodexRestart.NoteTellsCount` | go/internal/agentcore/codexrestart.go:105-117 | the note tells how many processes were killed |
| `PolicyCache.PolicyStep.Run` | go/internal/agentcore/sync.go:382-398 | the policy step with its marker: what is applied, what is marked, and when it reports an error |
| `PolicyCache.AgreementExactly` | go/internal/agentcore/sync.go:382-398 | with no condition on tags: the two agree after every cycle if and only if no cycle skips a policy while another one is in force |
| `PolicyCache.SkippingRefinesApplying` | go/internal/agentcore/sync.go:382-398 | if a tag names its content, skipping on an equal tag leaves the same policy in force after every cycle as applying each time, if and only if no lost marker is followed, before anything else is applied, by the tag that the marker still holds |
| `PolicyCache.MarkedRunsAgree` | go/internal/agentcore/sync.go:382-398 | with every marker written they agree after every cycle |
| `PolicyCache.LostMarkerBreaksIt` | go/internal/agentcore/sync.go:265-270 | a marker write that is lost breaks it |
| `Collector.Uploader.CollectOnePass` | go/internal/agentcore/collect.go:112-175 | one pass with its state and seen maps: what is uploaded, recorded, skipped, forgotten and saved, and what an unreadable state file amounts to |
| `Collector.RecordedIsStored` | go/internal/agentcore/collect.go:112-175 | over any passes with any failures: when the recorded signature of a file is its current one, the store holds its current content if and only if it is not so that some pass that could not write its state file uploaded other content and no later pass uploaded the path |
| `Collector.SavedRunsAgree` | go/internal/agentcore/collect.go:112-175 | when every pass writes its state file, a recorded signature that is the current one means the current content is stored, however signatures move |
| `Collector.ForwardRunsAgree` | go/internal/agentcore/collect.go:112-175 | the same with lost state files, when the signatures of a path do not go back |
| `Collector.GoingBackBreaksIt` | go/internal/agentcore/collect.go:151-173 | a file that goes back to an earlier signature after a lost state file breaks it |
| `Collector.QuietPassConverges` | go/internal/agentcore/collect.go:126-170 | a pass without failures records every file in range that has been quiet long enough, and nothing that is gone |
| `Collector.UploadedExactly` | go/internal/agentcore/collect.go:126-170 | one pass uploads a listed file, with its content and signature, if and only if it is not before the cut-off date, not recorded as it is, untouched for the settling time, and can be read and put; of any other file it uploads nothing |
| `Text.BeforeExactly` | go/internal/agentcore/collect.go:133 | one text is before another exactly when they agree up to a place where it ends or has the smaller character |
| `Collector.NotUploadedAgain` | go/internal/agentcore/collect.go:134-156 | an unchanged file is not uploaded again, and a failed upload stays due |
| `Provisioning.KeepAvailableModels` | go/internal/admincore/codexgateway.go:289-303 | the loop keeps, in order, the stored models the catalog still has |
| `Provisioning.KeptModels` | go/internal/admincore/codexgateway.go:286-303 | exactly the stored models that are available are kept, and none exactly when none is available |
| `Provisioning.ResolveModels` | go/internal/admincore/codexgateway.go:311-345 | the loop refuses an empty catalog and an unknown model, and otherwise sorts the request, or the catalog when nothing is requested |
| `Provisioning.ResolveAllowlist` | go/internal/admincore/codexgateway.go:305-345 | refused exactly for an empty catalog or an unknown model; else a non-empty, ordered permutation of the request |
| `Provisioning.Console.PublishCredentials` | go/internal/admincore/creds.go:21-52 | an archive is read, overlaid and written back, or left unchanged when any step fails |
| `Provisioning.Console.EnsureGatewayUser` | go/internal/admincore/codexgateway.go:78-109 | an existing user is left alone without a quota, created with the defaults or brought in line otherwise |
| `Provisioning.Console.ProvisionLocked` | go/internal/admincore/codexgateway.go:132-224 | the token steps in order, with every call able to fail and the base URL able to be missing: list, user, revoke, mint, deliver, withdraw |
| `Provisioning.Console.DoOnboard` | go/internal/admincore/account.go:44-118 | roster, user, token and delivery, stopping at the first failure; nothing at all without a name, a quota or a base URL |
| `Provisioning.Console.DoReissue` | go/internal/admincore/account.go:312-323 | a token is reissued for active employees only |
| `Provisioning.Console.DoSetModels` | go/internal/admincore/codexgateway.go:235-281 | the user first, then the token, then the catalog |
| `Provisioning.Console.DoOffboard` | go/internal/admincore/account.go:134-178 | every step runs even when an earlier one failed |
| `Provisioning.OrphanExactly` | go/internal/admincore/codexgateway.go:112-224 | one operation leaves a live token outside the delivered archive if and only if delivery and withdrawal both fail, delivery goes to another spelling of the name, or an account is closed while lookup or revocation fails |
| `Provisioning.NoOrphanToken` | go/internal/admincore/codexgateway.go:112-224 | over any run of the four operations with any other failures: a live token is the one in the delivered archive |
| `Provisioning.OtherSpelling` | go/internal/admincore/account.go:312-323 | a reissue under another spelling succeeds and delivers where the agent does not read |
| `Provisioning.ReissuesNeverWiden` | go/internal/admincore/codexgateway.go:145-171 | over any reissues with a changing catalog: the stored list stays, and every new token has a non-empty part of it |
| `Provisioning.EmptyListIsRefused` | go/internal/admincore/codexgateway.go:158-171 | when nothing of the stored list is available, nothing changes: the old token stays |
| `Provisioning.OnboardSets` | go/internal/admincore/account.go:44-118 | a successful onboarding leaves the quota that was asked for, an enabled roster entry, and the spelling of the roster |
| `Provisioning.UserStays` | go/internal/admincore/codexgateway.go:78-109 | an existing user keeps the allowed models when no list is given, and everything when no quota is |
| `Provisioning.ProvisionKeepsUser` | go/internal/admincore/codexgateway.go:78-109 | issuing a token leaves an existing user alone and makes a missing one with the stored defaults |
| `Provisioning.QuotaKeptOver` | go/internal/admincore/codexgateway.go:78-281 | over any reissues, changes of models and closed accounts, whatever fails, the quota of an existing user is unchanged |
| `Provisioning.PublishKeeps` | go/internal/admincore/creds.go:21-52 | publishing changes one archive and in it the published entries alone; a failed one changes nothing |
| `Provisioning.OnboardOk` | go/internal/admincore/account.go:44-118 | onboarding succeeds exactly when name and quota are given, no call it makes fails, and the catalog offers what is asked for |
| `Provisioning.ReissueOk` | go/internal/admincore/account.go:312-323 | a reissue succeeds exactly for an enabled employee when no call it makes fails and something of the stored list is still offered |
| `Provisioning.SetModelsOk` | go/internal/admincore/codexgateway.go:235-281 | a change of models succeeds exactly when the token is permitted the list and the catalog is built and published |
| `Provisioning.PermitOk` | go/internal/admincore/codexgateway.go:235-281 | and the token is permitted it exactly for an enabled employee with a token, when no call fails and the catalog offers the list |
| `Provisioning.OffboardExactly` | go/internal/admincore/account.go:134-178 | once the roster is dealt with, a closed account loses its token and its archive each exactly when their own calls work, whatever becomes of the others; success is all of them |
| `Provisioning.NothingFails` | go/internal/admincore/codexgateway.go:112-281 | with nothing failing every request that makes sense succeeds |
| `Provisioning.FailedReissueKeeps` | go/internal/admincore/codexgateway.go:132-224 | a failed reissue touches no archive, and leaves the old token when it stops before the revocation |
| `Provisioning.FailedSetModelsKeeps` | go/internal/admincore/codexgateway.go:235-281 | a failed change of models leaves the delivered catalog as it was |
| `Provisioning.FailedOnboardKeeps` | go/internal/admincore/account.go:44-118 | an onboarding that fails before the gateway user is in place leaves archives, user and token; a refused one changes nothing |
| `Provisioning.SuccessIsComplete` | go/internal/admincore/codexgateway.go:226-281 | after success the catalog that the agent reads shows exactly what the token reaches, within what the user may use; after a reissue it does if and only if the name is spelled as in the roster; after a closed account there is no token and no archive |
| `LoginLimiter.FilterInPlace` | go/internal/adminweb/limiter.go:48-53 | the backing array is overwritten behind the read position, and holds the times after the cutoff in order |
| `LoginLimiter.AppendTime` | go/internal/adminweb/limiter.go:54-58 | one more time at the end, in the same array while it has room and in a new one otherwise |
| `LoginLimiter.Limiter.Allow` | go/internal/adminweb/limiter.go:41-69 | one attempt on the map of slices, no two of which share an array: the refusal that keeps the filtered times, the append, the purge above 4096 addresses |
| `LoginLimiter.EveryAddressRuns` | go/internal/adminweb/limiter.go:41-69 | after any history of attempts every address has seen only its own attempts and purges of it while quiet |
| `LoginLimiter.EachAddress` | go/internal/adminweb/limiter.go:41-69 | an attempt changes its own address's times as stated and at most purges a quiet one of another |
| `LoginLimiter.DroppedExactly` | go/internal/adminweb/limiter.go:59-67 | another address is dropped exactly when the attempt is allowed, there are more than 4096 addresses with its own, and its last time is not after the cutoff |
| `LoginLimiter.QuietMeansNothing` | go/internal/adminweb/limiter.go:59-67 | for times in order, the last one alone tells whether any is recent |
| `LoginLimiter.LimiterIsExact` | go/internal/adminweb/limiter.go:41-69 | with a clock that does not run back, an attempt is allowed if and only if fewer than max were ever allowed from its address in the last window |
| `LoginLimiter.AtMostMax` | go/internal/adminweb/limiter.go:41-69 | no window ever holds more than max allowed attempts from one address |
| `MonthlyCost.SumCosts` | costing/monthly_cost.py:51-91 | accepted exactly when every cost row of the month is well formed and no id repeats; totals, shared costs, coverage and the estimate flag of those rows |
| `MonthlyCost.SumAllocations` | costing/monthly_cost.py:93-118 | accepted exactly when every allocation targets a shared cost, no pair repeats and the weights of each shared cost sum to one |
| `MonthlyCost.ReadParameters` | costing/monthly_cost.py:124-148 | the parameters of the products, or none for a bad or repeated row |
| `MonthlyCost.AcceptedExactly` | costing/monthly_cost.py:20-162 | a month is reported if and only if it is written as one, no row of it is faulty or repeated, every shared cost is allocated in full, each product has evidence of each category and its parameters, and neither cost is negative |
| `MonthlyCost.CostsRefusedExactly` | costing/monthly_cost.py:51-91 | the costs are refused exactly for a faulty row of the month or two rows of it with one id |
| `MonthlyCost.AllocationsRefusedExactly` | costing/monthly_cost.py:93-118 | the allocations are refused exactly for a faulty row, a cost allocated to one product twice, or weights that do not sum to one |
| `MonthlyCost.ParametersRefusedExactly` | costing/monthly_cost.py:124-148 | the parameters are refused exactly for a faulty row or a product with two |
| `MonthlyCost.OwnFigures` | costing/monthly_cost.py:124-148 | each product has the figures of its own row |
| `MonthlyCost.EstimatedMeans` | costing/monthly_cost.py:51-91 | the estimate flag of a month is up exactly when some cost of it is an estimate |
| `MonthlyCost.ConvertedMeans` | costing/monthly_cost.py:51-91 | each cost is converted by its row's own rate, which is one for CNY, and a confirmed zero is nothing |
| `MonthlyCost.Calculate` | costing/monthly_cost.py:51-162 | a report exactly for accepted inputs, with what each product bears of each category; its two costs sum to all converted costs of the month |
| `MonthlyCost.CostsConserved` | costing/monthly_cost.py:93-118 | category by category the two products bear all costs of the month and nothing else |
| `MonthlyCost.MonthConserved` | costing/monthly_cost.py:150-157 | the products' monthly costs sum to all converted costs |
| `MonthlyCost.CategoriesConserved` | costing/monthly_cost.py:150-162 | what a report says the two products bear of a category sums to all costs of it |
| `MonthlyCost.FinalMeans` | costing/monthly_cost.py:124-162 | a report is final exactly when no cost is an estimate and every parameter is approved |
| `MonthlyCost.RoundUpIsCeiling` | costing/monthly_cost.py:47-48 | the least whole number of cents not below the value |
| `MonthlyCost.FloorsCover` | costing/monthly_cost.py:154-161 | the quote floor less fee and margin covers cost with reserve and onboarding, by less than a cent; unit floor times units covers the unrounded floor, by less than a cent per unit |
| `CloudBilling.PrintedReadsBack` | go/internal/adminweb/cloudbilling.go:136-160 | a shown amount is parsed back to exactly itself if it has at most fifty digits before the point, and is refused otherwise |
| `CloudBilling.AmountRead` | go/internal/adminweb/cloudbilling.go:136-160 | a sign or none, digits, and perhaps a point with digits after it, within the limits, are read as their exact value |
| `CloudBilling.AmountOnly` | go/internal/adminweb/cloudbilling.go:136-160 | and nothing else is read at all |
| `CloudBilling.SumRows` | go/internal/adminweb/cloudbilling.go:404-447 | the row loop, for any rows: every aggregate, over all scopes and within one, is named by the first row of its id and has the count and the exact sum of the rows with that id |
| `CloudBilling.GroupExactly` | go/internal/adminweb/cloudbilling.go:162-171 | a group is shown with its own count, and then with its own sum, if and only if no row of another group has its id |
| `CloudBilling.Add` | go/internal/adminweb/cloudbilling.go:162-171 | one row adds its cost and one to its group |
| `CloudBilling.IdInjective` | go/internal/adminweb/cloudbilling.go:162-171 | without NUL in the fields, different groups have different ids |
| `CloudBilling.IdCollides` | go/internal/adminweb/cloudbilling.go:162-171 | with NUL, different groups share an id |
| `CloudBilling.ScopesAddUp` | go/internal/adminweb/cloudbilling.go:442-447 | the total of a provider, currency, basis and disposition is the sum over its scopes |
| `CloudBilling.ShownAmountIsExact` | go/internal/adminweb/cloudbilling.go:154-185 | the amount shown for a group told apart from the others reads back as the exact sum of its rows |
| `CloudBilling.FreeAmountIsExact` | go/internal/adminweb/cloudbilling.go:154-185 | for rows without NUL every group shows its own count and the exact sum of its rows |

## Left out

- TomlMerge.Redelivery: is stated for files that are `Whole`; for the others `TomlMerge.MergedHeaderCount` says what becomes of the table, and whether a second merge of them repeats the first is not claimed.
- TomlRemoval.KeptExactly: is stated for files that close; for others `TomlStrip.StripCodexManaged` says line by line what is kept.
- TomlStrings.LineScanned: a one-line string without its closing quote is no piece of a line; `TomlStrings.SkipEnds` says that the rest of the line is skipped.
- TomlMeaning.MergeMeaning: is stated for files that close; for others `TomlMerge.MergedFile` and `TomlMerge.NoGrowth` say what survives.
- GatewayConfig.RenderedIsValid: excludes an account name with a double quote, and `GatewayConfig.RenderedIsClean` one with a line break; the renderer puts the name between quotes as it is, and Windows allows neither.
- Bytes: contents are sequences of characters, so invalid UTF-8 and the byte escapes `\x80` and above inside quoted strings are outside the model.
- GoQuote.UnquoteQuote: takes the characters that strconv.Quote leaves unescaped from a shortened table; which of the others are escaped does not matter to the round trip.
- The catalog's JSON is not parsed: the models it allows are a parameter, and catalog.Build is a call that may fail.
- Deploy.Profile.WriteToProfileReport: records the written contents where the original records their SHA-256; VerifyPlaced, Present and Remove are not modelled.
- AgentLoop.NoLostWakeUp: runs until the service is stopped; re-enrolment back-off and the contents of a sync are not part of it.
- AgentLoop.NeverStuck: assumes that RunOnce returns, which the original does not bound in time.
- CodexUpdate.InstallOnce: assumes that marker writes succeed, and reads the installer, downloads and process checks as answers given with each cycle.
- CodexRestart.OneKillPerRequest: reads the mark as a record; a mark that is no JSON counts as its nonce in the original. An unbound machine, which stops every local user's session, is not modelled.
- Collector.RecordedIsStored: identifies a file by its path; the object key is a one-to-one function of user and path.
- Provisioning.NoOrphanToken: is about one employee under the lock of that name, with failed calls that change nothing and tokens that are new; names are lower-cased for the letters A to Z only. Bindings, audit lines and labels have no effect on it.
- LoginLimiter.LimiterIsExact: assumes a clock that does not run back.
- MonthlyCost.Calculate: uses exact rationals where the script rounds to 28 digits, and typed columns where it reads text; which of several errors is reported first is not modelled.
- CloudBilling.SumRows: starts from parsed rows; the archive, manifest and CSV checks, the candidate table and the sorting of the page are not modelled.
- CloudBilling.PrintedReadsBack: represents a sum as a whole number of its hundredth decimal place, which is exact because no input has more places.
- HTTP handlers, pages, task boards, health labels, Windows services, registry, AppLocker and PowerShell calls: plumbing, or decided by reading one branch.
- Direct reassignment of a machine from one employee to another, and unreadable bindings: nothing is claimed.
