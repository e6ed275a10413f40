# Verified models of the platform's bounded judges, state machines and protocols

A Dafny 4.11 model of seven pieces of the repository whose correctness does not follow from reading one body.

- **The credential judge of the golden tasks** (`scripts/golden_task_assertions.py`). `CredentialSnapshot` walks an
  arbitrary object graph once, with a memo and a set of objects being visited, and is compared with the plain tree
  unfolding of the graph. `CredentialScan` runs an explicit stack under node, depth and character budgets and is
  compared with an order-free audit of the tree. `JsonPreflight` bounds JSON text before it is parsed and is compared
  with the nesting and size of the printed value. `CookieScanner` is the one-pass replacement of a backtracking
  regular expression and is compared with the relation that expression denoted. `TraceMatch` matches greedily and is
  compared with the existence of an embedding. `CredentialJudge` joins snapshot and scan. `SnapshotMeaning` says what
  the snapshot of each kind of object is, `CredentialMeaning` which values pass, and `JudgeMeaning` what that says of
  everything that can be reached in the graph.
- **The weak-test checker** (`scripts/check_weak_tests.py`). `TypeScriptLexer` turns text into the one token list it
  has, `TypeScriptDelimiters` pairs brackets with a stack, `TypeScriptCalls` splits arguments and finds callbacks,
  `TypeScriptAssertions` says what asserts and what cannot fail, and `TypeScriptChecker` reports: every reason and
  nothing else, and nothing at all exactly for a clean file. `AssertionMeaning` says both of the texts of the tokens.
- **Database state machines written as triggers and CHECKs.** `Transactions` models interleaved transactions with row
  locks, unique keys and deferred checks over any schema; `ProfileCleanup` is the schema of profile generations,
  payloads and receipts, and `ProfileLifecycle` says which statements it accepts and that every generation can be
  cleaned; `BrowserRun` is the row of a browser run and its update trigger, and `BrowserLifecycle` says which rows a run
  can come to and in how many updates.
- **Session recovery** (`app/credential_polling.py`): `CredentialRecovery`, and `RecoveryMeaning` for what each call
  answers, remembers and writes.
- **Directory synchronisation** (`app/organization_directory_sync.py` and its lease): `DirectorySync`, any number of
  schedulers stepping through the protocol, with crashes, cancellations and lost acknowledgements between steps.
- **The streaming field projector** (`scripts/run_browser_synthetic_jev_launcher.py`): `FieldProjector`, and `FieldMeaning`
  for which text a file denotes.
- **The capability registry** (`scripts/manage_oa_capabilities.py`): `CapabilityRegistry`, and `RegistryMeaning` for
  what a plan says about the rows.

`Values` holds what several modules share. Code that changes state step by step is a class or a method with loops,
proved against a function or predicate that does not mention the loop; histories are sequences of steps.

Exceptions are results. Clocks, locks, the network, the login and the store's answers are parameters of a call or of a
step. Unicode character classes, the normalisation of literals, the JSON parser's character decoding, the UTF-8
decoder, the credential text rules and the fingerprint hash are function-valued parameters; what is needed of them is
stated where they enter (the hash is injective, a newline and a colon belong to no word, and so on). SQL NULL is
`None`. Integers are unbounded: the source's integers are Python's or are bounded by CHECKs that are written out.

## Where a promised property does not hold as stated

- A token's line is one plus the newlines before it if and only if no earlier regular expression literal holds an
  escaped newline: `TypeScriptLexer.LineIsRightIff`. `TypeScriptLexer.FoldedLineIsWrong` is a text where it is not, and
  `TypeScriptLexer.LinesRightWithoutEscapes` is what the text alone tells: no backslash directly before a newline.
- A committed publication is never recorded as failed, and the next start comes at least 86400 s after it. Both fail
  when closing the source raises `snapshot_incomplete` or `snapshot_invalid` after the commit:
  `DirectorySync.LateRefusalHappens` is a run. `DirectorySync.OverwrittenIff` says for every run when the failure is
  recorded, `DirectorySync.AfterPublication` what then follows, `DirectorySync.HeldBackIff` when the start is held back
  that long, and `DirectorySync.PublicationIsNeverFailed` covers every run without such a refusal.
- Lines that do not name the field may change without changing the result. As written this fails for a first line that
  begins with the bytes of the byte-order mark: `FieldProjector.MarkedFirstLineMatters` gives two files,
  `FieldProjector.UnselectedAsWritten` the condition to test, and `FieldProjector.UnselectedLinesAreIrrelevant` the law
  for lines as read.
- A ready registry plan does not always apply: `CapabilityRegistry.ForeignOverviewFails` and
  `CapabilityRegistry.InactivePredecessorFails` are catalogs where it is rolled back, and
  `CapabilityRegistry.Registry.Apply` states the exact condition, `Applicable`.
- A generation can be confirmed without ever having had a payload: `ProfileCleanup.ConfirmedWithoutPayload` does it in
  one transaction. `ProfileCleanup.UnconfirmedHadPayload` says that one which was ever committed unconfirmed had one.

## Model

| member | source | states |
|---|---|---|
| `CredentialSnapshot.SnapshotContext.SnapshotRoot` | scripts/golden_task_assertions.py:40-48 | A result is the tree unfolding of the root; cyclic or uninspectable graphs never give one; `scan_cycle` is reported only for a cycle; a graph whose unfolding fits the budgets always gives its unfolding; path and active set are restored on success and failure |
| `CredentialSnapshot.SnapshotContext.Snapshot` | scripts/golden_task_assertions.py:50-98 | The same for a value met at any depth of the walk, with the counters never exceeding what the unfolding costs, and every memo entry kept correct |
| `CredentialSnapshot.SnapshotContext.SnapshotRef` | scripts/golden_task_assertions.py:81-98 | A reference is answered from a correct memo, refused if it is being visited because that closes a loop, or walked |
| `CredentialSnapshot.SnapshotContext.SnapshotNew` | scripts/golden_task_assertions.py:88-98 | A first visit restores the active set whatever happens and memoises only the right unfolding |
| `CredentialSnapshot.SnapshotContext.SnapshotDynamic` | scripts/golden_task_assertions.py:100-163 | Each kind of object unfolds as its children do |
| `CredentialSnapshot.SnapshotContext.SnapshotElements` | scripts/golden_task_assertions.py:113-122 | The elements of a list or tuple unfold in order |
| `CredentialSnapshot.SnapshotContext.SnapshotEntries` | scripts/golden_task_assertions.py:123-132 | Preserved pairs keep order and duplicates; mappings and pairs alike unfold entry by entry |
| `CredentialSnapshot.SnapshotContext.SnapshotEntry` | scripts/golden_task_assertions.py:165-194 | One entry: a text key is required and its characters are charged, in the order each container evaluates |
| `CredentialSnapshot.SnapshotContext.AccountChars` | scripts/golden_task_assertions.py:1351-1362 | Succeeds exactly when both character limits hold, and charges only then |
| `CredentialSnapshot.SnapshotContext.constructor` | scripts/golden_task_assertions.py:36-38 | A new context is valid with nothing memoised or active |
| `CredentialSnapshot.UnfoldGrows` | scripts/golden_task_assertions.py:50-61 | A deeper depth budget does not change an unfolding that exists |
| `CredentialSnapshot.UnfoldingIsUnique` | scripts/golden_task_assertions.py:50-98 | A value has at most one unfolding, so reuse of the memo across roots is sound |
| `CredentialSnapshot.CyclicNeverUnfolds` | scripts/golden_task_assertions.py:85-86 | A value from which a cycle is reachable has no unfolding at any depth |
| `CredentialSnapshot.FaultyNeverUnfolds` | scripts/golden_task_assertions.py:134-151 | A value from which an object that raises is reachable has no unfolding |
| `CredentialSnapshot.UnfoldsIffAcyclicAndSound` | scripts/golden_task_assertions.py:29-194 | In every finite graph a value has an unfolding if and only if no cycle and no raising object is reachable |
| `SnapshotMeaning.UnfoldingDepicts` | scripts/golden_task_assertions.py:50-194 | The one unfolding of every value, kind by kind: only empty bytes show as empty, a model shows as its dump, lists and preserved pairs element by element with text keys, a mapping as a dictionary |
| `SnapshotMeaning.ToDictIsDict` | scripts/golden_task_assertions.py:165-194 | A dictionary has one entry per key, in the order in which the keys first occur, each with the last value of its key |
| `SnapshotMeaning.CostIsSize` | scripts/golden_task_assertions.py:50-60 | In a graph without dumps and repeated keys a walk is charged for exactly the values, the characters and the longest string of its snapshot |
| `JsonPreflight.AssertSerializedJsonBounds` | scripts/golden_task_assertions.py:1316-1348 | Accepts exactly the texts whose whole run stays within both limits, and names the limit that was passed |
| `JsonPreflight.RunQuote` | scripts/golden_task_assertions.py:1325-1334 | A printed string, whatever quotes, backslashes and brackets it escapes or holds, leaves the scanner as it was |
| `JsonPreflight.RunPrint` | scripts/golden_task_assertions.py:1324-1348 | Any printed value moves the scanner by exactly its nesting and its structural nodes |
| `JsonPreflight.DocumentMeasured` | scripts/golden_task_assertions.py:1316-1348 | Over a whole document the peak depth is the nesting, the count is the structural nodes, and the clamp never acts |
| `JsonPreflight.ValuesBounded` | scripts/golden_task_assertions.py:1335-1348 | A value has at most one node more than structural characters |
| `JsonPreflight.PreflightExact` | scripts/golden_task_assertions.py:1316-1348 | Accepted if and only if nesting and structure fit, and then the parsed tree has at most 10,001 nodes |
| `CredentialScan.AssertNoCredentialValues` | scripts/golden_task_assertions.py:1078-1176 | Terminates and accepts exactly the acceptable trees, which `CredentialMeaning.AcceptableIff` describes |
| `CredentialMeaning.AcceptableIff` | scripts/golden_task_assertions.py:1078-1176 | A tree is acceptable if and only if scanning it costs at most 10,000 items and 8,000,000 characters and it is sound: depth, string and key limits and the rules hold at every node and, once, inside every serialized object |
| `CredentialMeaning.CleanMeansSound` | scripts/golden_task_assertions.py:1086-1176 | The audit of any value at any depth is clean exactly if the value is sound, whatever the stack does |
| `CredentialMeaning.AuditToll` | scripts/golden_task_assertions.py:1086-1121 | The audit charges each value, each key and each opened document once |
| `CredentialMeaning.SerializedMeans` | scripts/golden_task_assertions.py:1271-1292 | A text is opened exactly if it begins with a brace after whitespace, fits 256,000 characters and the preflight, and parses to an object; it is refused exactly if it begins so and is too large |
| `CredentialMeaning.AcceptedIsBare` | scripts/golden_task_assertions.py:1078-1176 | Neither an accepted value nor an object serialized in any of its strings holds a credential, at any path |
| `CredentialMeaning.DocumentsAreScanned` | scripts/golden_task_assertions.py:1271-1292 | For every printed JSON object: an accepted value that holds its text at any path has an object without credentials there |
| `CredentialMeaning.DocumentToll` | scripts/golden_task_assertions.py:1086-1110 | The audit of the text of a JSON object takes one item and one more for each value of that object |
| `CredentialScan.ScanStack` | scripts/golden_task_assertions.py:1086-1176 | From any stack the verdict is that of the order-free audit of its items, so early stops reject nothing that fits |
| `CredentialScan.Handle` | scripts/golden_task_assertions.py:1094-1176 | One item: what it charges and pushes, and that a stop is a genuine breach |
| `CredentialScan.HandleEntries` | scripts/golden_task_assertions.py:1111-1169 | All entries of a mapping, with the depth and node checks made before each push |
| `CredentialScan.HandleEntry` | scripts/golden_task_assertions.py:1122-1169 | One entry is taken exactly when its rules and budgets hold, and pushes the item and any embedded mapping |
| `CredentialScan.Turn` | scripts/golden_task_assertions.py:1086-1088 | Replacing an item by its subwork conserves the total audit, and what is pending shrinks |
| `CredentialScan.StopIsJust` | scripts/golden_task_assertions.py:1118-1121 | Whenever the push-time depth or node check stops the scan, the whole tree breaks a limit |
| `CredentialScan.SubworkBelow` | scripts/golden_task_assertions.py:1101-1110 | Expanding embedded JSON once is well founded: everything pushed is below its item |
| `CredentialScan.AuditUnfolds` | scripts/golden_task_assertions.py:1086-1176 | The audit of an item is its own cost plus the audit of what it pushes |
| `CredentialScan.AcceptableMeans` | scripts/golden_task_assertions.py:1078-1176 | Acceptable means at most 10,000 work items, the total character budget, and every reachable item within its depth, its string limits and its rules |
| `CredentialScan.EmbeddedItems` | scripts/golden_task_assertions.py:1271-1292 | Scanning an embedded JSON value takes one work item for each of its values |
| `CredentialScan.EmbeddedDepth` | scripts/golden_task_assertions.py:1271-1292 | No item of an embedded value is deeper than its nesting |
| `CredentialScan.PreflightProtectsScan` | scripts/golden_task_assertions.py:1271-1286 | A text taken for an embedded mapping parses to a tree that takes one item for each value, at most 10,000, none deeper than 64 |
| `CredentialScan.OnlyObjectsAreOpened` | scripts/golden_task_assertions.py:1271-1292 | Of all printed documents only objects are taken for an embedded mapping or refused as one |
| `CredentialScan.AuditCovers` | scripts/golden_task_assertions.py:1086-1176 | The audit of a node counts at least its tree and reaches at least its height |
| `CredentialScan.AcceptedIsSmall` | scripts/golden_task_assertions.py:1086-1121 | An accepted tree has at most 10,000 nodes and is at most 64 deep |
| `CredentialJudge.JudgeValue` | scripts/golden_task_assertions.py:511-561 | Snapshot and then scan: whatever passes has an acceptable unfolding, however the memo shared its parts, and a value whose unfolding fits the snapshot's budgets passes exactly if that unfolding is acceptable |
| `CredentialJudge.HarmlessMeans` | scripts/golden_task_assertions.py:29-194 | A value that passes reaches no cycle and nothing that raises, and its tree has at most 10,000 nodes and depth 64 although the memo walks a shared part once |
| `JudgeMeaning.NoCredentialIsShown` | scripts/golden_task_assertions.py:511-561 | From a value that passes, along every trail of lists, items and dumps of the graph: no item has a matching key or text, and one with the key of a credential holds nothing |
| `JudgeMeaning.NoTextIsShown` | scripts/golden_task_assertions.py:511-561 | Along every such trail no text matches a pattern, and no text is a serialized object that holds a credential |
| `JudgeMeaning.ItemIsHarmless` | scripts/golden_task_assertions.py:1122-1169 | That for one object: of a mapping the last item of each key, of preserved pairs every item |
| `JudgeMeaning.NothingIff` | scripts/golden_task_assertions.py:1122-1169 | A value counts as nothing exactly if it is `None`, no bytes, or an empty text, list or mapping |
| `CookieScanner.SkipSpace` | scripts/golden_task_assertions.py:1250-1252 | The loop stops at the first character that is not whitespace |
| `CookieScanner.FindCredentials` | scripts/golden_task_assertions.py:1237-1243 | The non-overlapping search lists every credential name that is followed by `=`, in order |
| `CookieScanner.FindHeaderEnds` | scripts/golden_task_assertions.py:1249-1250 | The non-overlapping search lists the end of every cookie header, in order |
| `CookieScanner.HeaderAt` | scripts/golden_task_assertions.py:379-382 | The header that starts at a position, or that none does |
| `CookieScanner.ScanHeader` | scripts/golden_task_assertions.py:1251-1268 | One header: the shared pointer and the cached line end stay right, and each answer is the header's own |
| `CookieScanner.NamesApart` | scripts/golden_task_assertions.py:379-382 | Two credential names never overlap, so a left-to-right search misses none |
| `CookieScanner.HeadersApart` | scripts/golden_task_assertions.py:379-382 | Two cookie headers never overlap |
| `CookieScanner.LegacyIsSameLine` | scripts/golden_task_assertions.py:1234-1236 | The backtracking relation for a header and a credential is a comparison with the greedy whitespace skip and the line end |
| `CookieScanner.SameLine` | scripts/golden_task_assertions.py:1262-1265 | A cached line end is the line end of every later position on that line |
| `CookieScanner.LaterMiss` | scripts/golden_task_assertions.py:1255-1261 | Once the shared credential pointer runs out, no later header can match |
| `CookieScanner.ScanHeaders` | scripts/golden_task_assertions.py:1247-1268 | True exactly when some header has a credential between its content start and that line's end |
| `CookieScanner.ContainsCredentialCookie` | scripts/golden_task_assertions.py:1233-1268 | True if and only if the legacy relation holds somewhere, and if and only if the text can be cut into the parts of a credential cookie |
| `CookieScanner.LegacyIff` | scripts/golden_task_assertions.py:1234-1236 | The legacy relation holds exactly of the texts that read: something that ends no word, the word cookie, a colon, a stretch without newline, one of the three names and an equals sign, with whitespace where the pattern allows it |
| `CookieScanner.AsciiIsSane` | scripts/golden_task_assertions.py:379-382 | The ASCII character tables meet what the scanner's theorems need |
| `TraceMatch.MatchGreedily` | scripts/golden_task_assertions.py:437-470 | Greedy matching succeeds if and only if some strictly increasing embedding exists, for every relation |
| `TraceMatch.AssertTraceSequenceContains` | scripts/golden_task_assertions.py:437-452 | True if and only if the expected events are what rising positions pick out of the actual ones |
| `TraceMatch.AssertTraceEventDetails` | scripts/golden_task_assertions.py:455-470 | True if and only if the steps at some rising positions agree with the expected details along every path of keys |
| `TraceMatch.ContainsAgrees` | scripts/golden_task_assertions.py:1467-1480 | Partial containment implies agreement along every path of keys |
| `TraceMatch.AgreesContains` | scripts/golden_task_assertions.py:1467-1480 | Agreement along every path of keys implies partial containment |
| `TraceMatch.MappingContainsIsPathwise` | scripts/golden_task_assertions.py:1467-1480 | The recursive relation is exactly agreement along every path |
| `TypeScriptLexer.TokenizeTypescript` | scripts/check_weak_tests.py:184-342 | Terminates; tokens tile the text with only whitespace and comments between and after them, and every token reads as its kind says; an error means that no such token list exists |
| `TypeScriptLexer.TokensRead` | scripts/check_weak_tests.py:304-340 | Every token of a token list is its part of the text: an operator is one of the thirty and none longer starts there, a single character starts no operator, words and numbers go on as far as they can, literals have their quotes |
| `TypeScriptLexer.RegexIff` | scripts/check_weak_tests.py:177-181 | A token is a regular expression if and only if it starts with a slash and it is the first token or one of the listed tokens or keywords is before it |
| `TypeScriptLexer.OperatorIsListed` | scripts/check_weak_tests.py:96-133 | Every operator the lexer takes is listed |
| `TypeScriptLexer.ListedIsNoLonger` | scripts/check_weak_tests.py:96-133 | No listed operator that starts at a position is longer than the one taken there |
| `TypeScriptLexer.TokenizationIsUnique` | scripts/check_weak_tests.py:184-342 | A text has at most one complete token list |
| `TypeScriptLexer.StuckMeansNone` | scripts/check_weak_tests.py:205-212 | Where neither trivia nor a token fits after a correct prefix, no complete list exists |
| `TypeScriptLexer.SpansDisjoint` | scripts/check_weak_tests.py:184-342 | Spans are strictly increasing, disjoint and inside the text |
| `TypeScriptLexer.LineIsRightIff` | scripts/check_weak_tests.py:276-297 | A token's line is one plus the newlines before it if and only if no earlier regex literal holds a newline |
| `TypeScriptLexer.LinesRightWithoutEscapes` | scripts/check_weak_tests.py:276-297 | In a text with no backslash directly before a newline every token's line is right |
| `TypeScriptLexer.FoldedLineIsWrong` | scripts/check_weak_tests.py:276-297 | A text whose second token is on line 2 and is said to be on line 1 |
| `TypeScriptLexer.ScanString` | scripts/check_weak_tests.py:214-241 | Ends at the first quote preceded by an even number of backslashes, with no such newline before it; fails exactly when there is none |
| `TypeScriptLexer.ScanTemplate` | scripts/check_weak_tests.py:243-269 | The same over several lines, counting the newlines |
| `TypeScriptLexer.FindClosingSlash` | scripts/check_weak_tests.py:275-297 | Finds the first live slash outside a character class before any live newline, or shows there is none |
| `TypeScriptLexer.ScanRegex` | scripts/check_weak_tests.py:271-302 | The closing slash with every letter after it |
| `TypeScriptLexer.ScanIdentifier` | scripts/check_weak_tests.py:304-313 | A maximal run of identifier characters |
| `TypeScriptLexer.ScanNumber` | scripts/check_weak_tests.py:315-326 | A maximal run of number characters |
| `TypeScriptLexer.ScanToken` | scripts/check_weak_tests.py:214-340 | The token that starts here, of the kind its first characters say, or that none does |
| `TypeScriptLexer.ScanPlain` | scripts/check_weak_tests.py:304-340 | Words, numbers, the longest operator, or one character |
| `TypeScriptLexer.SkipTrivia` | scripts/check_weak_tests.py:191-212 | One whole whitespace character or comment, and when there is none or it never ends |
| `TypeScriptDelimiters.DelimiterPairs` | scripts/check_weak_tests.py:345-367 | Success gives a correct matching of exactly the delimiters; a parse error means that no matching exists |
| `TypeScriptDelimiters.MatchDelims` | scripts/check_weak_tests.py:346-367 | The stack algorithm on the word of delimiters: an involution that pairs equal shapes, opener first, nested or disjoint |
| `TypeScriptDelimiters.Take` | scripts/check_weak_tests.py:348-360 | One token keeps the stack and the pairs forced: every matching extends them |
| `TypeScriptDelimiters.PartnerOnTop` | scripts/check_weak_tests.py:354-358 | In any matching the partner of a closer is the top of the stack |
| `TypeScriptDelimiters.MatchingIsUnique` | scripts/check_weak_tests.py:345-367 | A word of delimiters has at most one matching |
| `TypeScriptDelimiters.PairedIffBalanced` | scripts/check_weak_tests.py:345-367 | A matching exists if and only if the word is derived by the bracket grammar |
| `TypeScriptDelimiters.MatchingIsBalanced` | scripts/check_weak_tests.py:345-367 | Every stretch closed under partners is a balanced word |
| `TypeScriptDelimiters.BalancedHasMatching` | scripts/check_weak_tests.py:345-367 | Every balanced word has a matching |
| `TypeScriptDelimiters.PairsAreBrackets` | scripts/check_weak_tests.py:345-367 | In terms of the tokens: exactly the six brackets are paired, each opener with a later closer of its own kind |
| `TypeScriptCalls.TopLevelArguments` | scripts/check_weak_tests.py:440-464 | Never raises; ordered, disjoint, nonempty ranges that with the call's own commas cover its interior exactly |
| `TypeScriptCalls.SplitToken` | scripts/check_weak_tests.py:448-462 | One turn of the splitter: a pair is jumped, an argument ends, or the position moves on, and the split so far stays right |
| `TypeScriptCalls.SplitIsUnique` | scripts/check_weak_tests.py:440-464 | A call has at most one split into arguments |
| `TypeScriptCalls.ArgumentIsClosed` | scripts/check_weak_tests.py:440-464 | Every argument is closed under partners |
| `TypeScriptCalls.StripWrappingParentheses` | scripts/check_weak_tests.py:428-437 | Strips exactly the parentheses that wrap the whole range and keeps it closed |
| `TypeScriptCalls.FindBrace` | scripts/check_weak_tests.py:499-513 | The first brace outside parenthesised parameters, or that there is none |
| `TypeScriptCalls.InspectArrow` | scripts/check_weak_tests.py:488-497 | The body after an arrow, inside the argument and closed |
| `TypeScriptCalls.InspectFunction` | scripts/check_weak_tests.py:498-513 | The body of a function, inside the argument and closed |
| `TypeScriptCalls.InspectArgument` | scripts/check_weak_tests.py:479-514 | What the first arrow or `function` at the top level of the argument gives |
| `TypeScriptCalls.FindCallbackBody` | scripts/check_weak_tests.py:467-515 | The first argument with a callback decides; a body lies inside that argument and is bracket-closed |
| `TypeScriptCalls.FirstCallback` | scripts/check_weak_tests.py:476-515 | The arguments before the deciding one have no callback |
| `TypeScriptCalls.InspectRange` | scripts/check_weak_tests.py:476-487 | One argument without the parentheses around it |
| `TypeScriptCalls.DecisionIsUnique` | scripts/check_weak_tests.py:467-515 | The search for a callback has at most one answer |
| `TypeScriptAssertions.ExpressionKey` | scripts/check_weak_tests.py:518-550 | The key of an expression is that of what is left when the parentheses around it are taken off |
| `TypeScriptAssertions.NoTokenIsAKey` | scripts/check_weak_tests.py:522-550 | No token of a text reads like the key of a literal |
| `TypeScriptAssertions.KeysAgreeIff` | scripts/check_weak_tests.py:518-550 | Two expressions have equal keys if and only if they are the same literal, or neither is a literal and they are the same tokens |
| `TypeScriptAssertions.SupportsSelfComparison` | scripts/check_weak_tests.py:564-578 | True exactly for literals and for names joined by dots |
| `TypeScriptAssertions.SoleKeyIsUnique` | scripts/check_weak_tests.py:553-561 | A call has one key for its only argument |
| `TypeScriptAssertions.FindMatcher` | scripts/check_weak_tests.py:594-613 | The walk finds the matcher exactly if a run of modifiers leads to one, the only one, and knows whether it is negated |
| `TypeScriptAssertions.NegatingIffOdd` | scripts/check_weak_tests.py:601-604 | Negated means an odd number of `not` |
| `TypeScriptAssertions.ExpectAssertion` | scripts/check_weak_tests.py:581-653 | An assertion exactly if `expect(…)`, some modifiers and a called `to…` matcher lie in the body; a tautology exactly if it is also not negated and its operands always satisfy that matcher |
| `TypeScriptAssertions.JudgeMatcher` | scripts/check_weak_tests.py:628-653 | Tautological exactly when it is not negated and always holds |
| `TypeScriptAssertions.EmptyIff` | scripts/check_weak_tests.py:615-653 | Any reading of matcher and operands gives the one verdict |
| `TypeScriptAssertions.AssertAssertion` | scripts/check_weak_tests.py:656-693 | An assertion exactly if `assert(…)` or `assert.name(…)` opens in the body; a tautology exactly if it asserts the literal `true` or compares two equal comparable keys |
| `TypeScriptAssertions.AssertionSummary` | scripts/check_weak_tests.py:696-721 | Counts exactly the assertions of a body, and sees a tautology exactly when there is one |
| `TypeScriptAssertions.EqualityReportedIff` | scripts/check_weak_tests.py:628-632 | In a lexed text an equality expectation is reported if and only if it is not negated and both sides are one and the same literal or dotted name |
| `AssertionMeaning.AssertionIff` | scripts/check_weak_tests.py:696-721 | A word of a body begins an assertion if and only if the tokens read so: not after a dot, `expect`, a call, any number of `not`, `rejects` and `resolves` and the call of a `to…` matcher, or `assert` or `assert.name` with a call, all inside the body |
| `AssertionMeaning.TautologyIff` | scripts/check_weak_tests.py:581-721 | It is a tautology if and only if it reads as one that cannot fail |
| `AssertionMeaning.ExpectsIff` | scripts/check_weak_tests.py:581-627 | Which tokens make an expectation |
| `AssertionMeaning.ExpectsNothingIff` | scripts/check_weak_tests.py:615-653 | An expectation cannot fail if and only if an even number of its modifiers is `not` and an equality matcher compares one literal or one path of names with itself, or `toBeTruthy`, `toBeFalsy`, `toBeNull` or `toBeUndefined` is asked of its own word |
| `AssertionMeaning.AssertsIff` | scripts/check_weak_tests.py:656-672 | Which tokens make an `assert` |
| `AssertionMeaning.AssertsNothingIff` | scripts/check_weak_tests.py:673-693 | An `assert` cannot fail if and only if it asserts the word `true`, or one of the three equality checks has one literal or path twice |
| `AssertionMeaning.SameLiteralIff` | scripts/check_weak_tests.py:518-550 | Two literal tokens have one key if and only if they stand for the same text, number or word |
| `AssertionMeaning.DottedIff` | scripts/check_weak_tests.py:564-578 | Dotted names are an odd number of texts, names at the even places and dots at the odd ones |
| `AssertionMeaning.ArgumentsExist` | scripts/check_weak_tests.py:440-464 | Every call has arguments |
| `TypeScriptChecker.ClassifyRegistration` | scripts/check_weak_tests.py:370-425 | A registration comes with its chain of modifiers and is skipped exactly when the name or a modifier says so; none means that no chain leads to a call |
| `TypeScriptChecker.RegistrationIsUnique` | scripts/check_weak_tests.py:395-425 | A name registers at most one thing |
| `TypeScriptChecker.NamesMean` | scripts/check_weak_tests.py:136-145 | Which names register tests, which suites, and which are skipped |
| `TypeScriptChecker.ModifiersMean` | scripts/check_weak_tests.py:146-154 | Which names are modifiers, which of them skip, and which take arguments or a template |
| `TypeScriptChecker.PlainNameRegisters` | scripts/check_weak_tests.py:370-425 | A called name by itself registers a test or a suite and is skipped exactly if the name says so |
| `TypeScriptChecker.OneModifierRegisters` | scripts/check_weak_tests.py:395-425 | A called name with one modifier is skipped exactly if the name or the modifier says so |
| `TypeScriptChecker.CalledModifierRegisters` | scripts/check_weak_tests.py:395-425 | A modifier with arguments or a template is passed over, and the call after it is the registration |
| `TypeScriptChecker.SkipsAreReported` | scripts/check_weak_tests.py:776-842 | Every skipped test or suite of a file is reported at its line, whatever its body is |
| `TypeScriptChecker.CallIsClosed` | scripts/check_weak_tests.py:809-812 | The silent skip for a missing closing parenthesis is never taken |
| `TypeScriptChecker.CalledIsUnique` | scripts/check_weak_tests.py:467-515 | A registration's call has one callback |
| `TypeScriptChecker.TestBodyIsUnique` | scripts/check_weak_tests.py:776-842 | A name has at most one test body |
| `TypeScriptChecker.ReasonIff` | scripts/check_weak_tests.py:843-892 | For a test that is not skipped each kind of finding has a reason exactly when the summary of its body warrants it |
| `TypeScriptChecker.CleanIff` | scripts/check_weak_tests.py:894-903 | Clean means that every name is fine and a test name is used |
| `TypeScriptChecker.CheckTest` | scripts/check_weak_tests.py:843-892 | One finding for every reason and none without; none at all if and only if the body is readable and not empty, asserts something and has no tautology |
| `TypeScriptChecker.CheckName` | scripts/check_weak_tests.py:776-892 | The same for any name, skipped and unreadable registrations included; uses of test names are recognised exactly |
| `TypeScriptChecker.CheckTokens` | scripts/check_weak_tests.py:774-904 | The report is empty if and only if the file is clean; every finding is explained by the file, and every reason in it is reported |
| `TypeScriptChecker.CheckTypescriptSource` | scripts/check_weak_tests.py:754-904 | A single parse failure exactly for unreadable text; otherwise all of that about the one token list and pairing of the text |
| `Transactions.StepKeeps` | alembic/versions/20261009_120000_browser_profile_payload_cleanup.py:130-132 | Every step of interleaved, row-locking transactions keeps any claim that single statements keep and deferred checks complete |
| `Transactions.QueueSuffices` | alembic/versions/20261009_120000_browser_profile_payload_cleanup.py:229-240 | The checks a transaction queued are enough for every cell it publishes |
| `Transactions.RunKeeps` | alembic/versions/20261009_120000_browser_profile_payload_cleanup.py:229-240 | After every interleaving committed cells satisfy the claim, and later versions only succeed earlier ones |
| `Transactions.Database.ExecuteStatement` | alembic/versions/20261009_120000_browser_profile_payload_cleanup.py:117-196 | The statement joins the history of a valid database: committed rows and other transactions are untouched |
| `Transactions.Database.CommitTransaction` | alembic/versions/20261009_120000_browser_profile_payload_cleanup.py:229-240 | Publishes everything exactly when each queued check passes, and nothing otherwise; the database stays valid |
| `Transactions.Database.ClaimHolds` | alembic/versions/20261009_120000_browser_profile_payload_cleanup.py:229-240 | Whatever calls were made, a valid database satisfies the claim it was opened with |
| `Transactions.Database.ChecksPass` | alembic/versions/20261009_120000_browser_profile_payload_cleanup.py:229-240 | True exactly when every queued check passes |
| `ProfileCleanup.UpdateRow` | alembic/versions/20261009_120000_browser_profile_payload_cleanup.py:75-99 | An accepted update keeps the audit fields, follows the transition graph, is stamped and meets the row CHECKs |
| `ProfileCleanup.InsertKeeps` | alembic/versions/20261009_120000_browser_profile_payload_cleanup.py:101-111 | An accepted insert starts a sound generation with a legal history |
| `ProfileCleanup.ApplyKeeps` | alembic/versions/20261009_120000_browser_profile_payload_cleanup.py:75-196 | Every accepted statement keeps the generation sound and its history legal; after confirmation only the payload can be deleted |
| `ProfileLifecycle.AcceptedIff` | alembic/versions/20261009_120000_browser_profile_payload_cleanup.py:75-196 | On a sound generation a statement is accepted if and only if it is one of the permitted ones, and it then changes just what it names; it matches nothing exactly if its row is missing |
| `ProfileLifecycle.FreshAcceptedIff` | alembic/versions/20261009_120000_browser_profile_payload_cleanup.py:101-111 | Without a generation only the insert of a fresh validated one is accepted |
| `ProfileLifecycle.ScriptCommits` | alembic/versions/20261009_120000_browser_profile_payload_cleanup.py:117-240 | A transaction of accepted statements on one generation, alone in the database, commits exactly their result |
| `ProfileLifecycle.MoveCommits` | alembic/versions/20261009_120000_browser_profile_payload_cleanup.py:75-99 | Every move of the graph short of the cleanup can be committed from every state at rest |
| `ProfileLifecycle.CleanupCommits` | alembic/versions/20261009_120000_browser_profile_payload_cleanup.py:117-227 | From every state at rest, receipt, confirmation and deletion commit in one transaction: the generation is confirmed with that proof, its payload is gone, and nothing else has changed |
| `ProfileLifecycle.EveryGenerationCanBeCleaned` | alembic/versions/20261009_120000_browser_profile_payload_cleanup.py:22-240 | After any history from a migrated table, once no transaction is open, every unconfirmed generation has a continuation that cleans it, through promoted and retired if need be |
| `ProfileLifecycle.BirthCommits` | alembic/versions/20261009_120000_browser_profile_payload_cleanup.py:101-240 | A new generation and its payload are committed together whenever no committed one shares a unique key |
| `ProfileCleanup.ReceiptNeedsNoCheck` | alembic/versions/20261009_120000_browser_profile_payload_cleanup.py:169-196 | The one kind of change that queues no check cannot break consistency |
| `ProfileCleanup.CheckMeans` | alembic/versions/20261009_120000_browser_profile_payload_cleanup.py:197-227 | On sound rows the deferred check, with its three-valued comparison, passes exactly when the generation is consistent |
| `ProfileCleanup.SchemaKept` | alembic/versions/20261009_120000_browser_profile_payload_cleanup.py:75-240 | The triggers satisfy the local conditions of the transaction theorem |
| `ProfileCleanup.MigrationEstablishes` | alembic/versions/20261009_120000_browser_profile_payload_cleanup.py:22-64 | A migrated table satisfies the invariant |
| `ProfileCleanup.PayloadIffNotConfirmed` | alembic/versions/20261009_120000_browser_profile_payload_cleanup.py:22-240 | After every interleaving from the migrated table, a payload exists exactly for unconfirmed generations, and a confirmed one has exactly one receipt, with the same proof |
| `ProfileCleanup.ConfirmedIsFinal` | alembic/versions/20261009_120000_browser_profile_payload_cleanup.py:75-146 | Audit fields never change, the history only grows, and a confirmed generation with its payload and receipt never changes again |
| `ProfileCleanup.ReceiptsIdentifyOne` | alembic/versions/20261003_212000_browser_readonly_vertical.py:166-168 | Receipts of different generations never share provider and reference, or provider and capture operation |
| `ProfileCleanup.LogCounts` | alembic/versions/20261009_120000_browser_profile_payload_cleanup.py:87-99 | At most three updates, one receipt and one payload; no deletion before confirmation |
| `ProfileCleanup.CleanupOrder` | alembic/versions/20261009_120000_browser_profile_payload_cleanup.py:117-227 | The only order of cleanup: receipt, confirmation, and then the deletion of the payload if there ever was one |
| `ProfileCleanup.CommittedLog` | alembic/versions/20261009_120000_browser_profile_payload_cleanup.py:75-240 | All of that for every committed generation of every interleaving |
| `ProfileCleanup.UnconfirmedHadPayload` | alembic/versions/20261009_120000_browser_profile_payload_cleanup.py:75-240 | A generation that was ever committed unconfirmed had exactly one payload, whatever happened later |
| `ProfileCleanup.ConfirmedWithoutPayload` | alembic/versions/20261009_120000_browser_profile_payload_cleanup.py:75-240 | For every audit and proof, a history from an empty table that commits a confirmed generation without a payload |
| `ProfileCleanup.OpenMigrated` | alembic/versions/20261009_120000_browser_profile_payload_cleanup.py:22-64 | A database opened on a migratable table satisfies the cleanup claim from then on |
| `BrowserRun.HistoryEvolves` | alembic/versions/20261003_212000_browser_readonly_vertical.py:385-440 | Between any two rows of an accepted history: revision, input, cancel flags, capture, verified result and terminal columns evolve only as promised |
| `BrowserRun.EvolvesCompose` | alembic/versions/20261003_212000_browser_readonly_vertical.py:385-440 | Evolutions compose and their update counts add |
| `BrowserRun.ChecksAlways` | alembic/versions/20261003_212000_browser_readonly_vertical.py:241-357 | Every row of a history meets its CHECKs |
| `BrowserRun.CompletedForever` | alembic/versions/20261003_212000_browser_readonly_vertical.py:339-357 | A completed run stays completed and verified, with its evidence, its result and no error |
| `BrowserRun.FailureForever` | alembic/versions/20261003_212000_browser_readonly_vertical.py:330-348 | A failed or cancelled run keeps its status and error, and a cancelled one had been asked to cancel |
| `BrowserRun.CaptureFollowsGraph` | alembic/versions/20261003_212000_browser_readonly_vertical.py:404-417 | Capture statuses of a history are joined by a path of the transition graph |
| `BrowserRun.CaptureChangesFewTimes` | alembic/versions/20261003_212000_browser_readonly_vertical.py:407-417 | A capture changes at most five times |
| `BrowserRun.BrowserRunRow.constructor` | alembic/versions/20261003_212000_browser_readonly_vertical.py:241-357 | A row within its CHECKs starts a history |
| `BrowserRun.BrowserRunRow.Update` | alembic/versions/20261003_212000_browser_readonly_vertical.py:385-447 | An update is taken whole or not at all, and the history stays an accepted one |
| `BrowserLifecycle.AcceptsIff` | alembic/versions/20261003_212000_browser_readonly_vertical.py:385-440 | One update is accepted if and only if its columns are allowed to change so and the new row meets the CHECKs |
| `BrowserLifecycle.RefusedIff` | alembic/versions/20261003_212000_browser_readonly_vertical.py:388-440 | A refused update is refused for the first rule it breaks, in the order of the trigger |
| `BrowserLifecycle.ReachedIff` | alembic/versions/20261003_212000_browser_readonly_vertical.py:385-440 | A row can come to another in n updates if and only if the columns allow it: revision n higher, same input, rising cancel flags, a capture at most n moves away, verified and terminal columns kept |
| `BrowserLifecycle.TowardIsNearer` | alembic/versions/20261003_212000_browser_readonly_vertical.py:404-417 | A capture n + 1 moves away has a first move after which it is n moves away |
| `BrowserLifecycle.OpensIff` | alembic/versions/20261003_212000_browser_readonly_vertical.py:241-261 | A run can be inserted with its defaults exactly for a well-formed authorized input |
| `BrowserLifecycle.ClaimsIff` | alembic/versions/20261003_212000_browser_readonly_vertical.py:326-328 | A worker can take any run, ended or not, exactly under a name and a positive epoch |
| `BrowserLifecycle.BindsIff` | alembic/versions/20261003_212000_browser_readonly_vertical.py:321-325 | When an active run can be bound to a provider |
| `BrowserLifecycle.PreparesIff` | alembic/versions/20261003_212000_browser_readonly_vertical.py:265-270 | A capture can be prepared exactly once, under a name |
| `BrowserLifecycle.VerifiesIff` | alembic/versions/20261003_212000_browser_readonly_vertical.py:340-341 | A run can be verified exactly with evidence and a result together, and keeps both |
| `BrowserLifecycle.CompletesIff` | alembic/versions/20261003_212000_browser_readonly_vertical.py:339-357 | With which evidence and result an active run can complete in one update |
| `BrowserLifecycle.FailsIff` | alembic/versions/20261003_212000_browser_readonly_vertical.py:346-348 | With which error and effect an active run can fail in one update |
| `BrowserLifecycle.CancelsIff` | alembic/versions/20261003_212000_browser_readonly_vertical.py:329-331 | An active run can be cancelled in one update exactly with the code of a cancellation and no unknown effect, and then it was asked to and acknowledged it |
| `RecoveryMeaning.VerdictIff` | app/credential_polling.py:245-277 | Each verdict on a reread row is given if and only if its condition on status, marker, fingerprint and expiry holds |
| `RecoveryMeaning.DueIff` | app/credential_polling.py:219-228 | A poll is due exactly when the maximum backoff, or the interval times two to the failures with at most twenty of them, has passed |
| `RecoveryMeaning.EntriesAre` | app/credential_polling.py:314-439 | What a call adds to the history of its user, exactly: a blame, a login and a Session each under a condition on the memory, the clock and the rows read |
| `RecoveryMeaning.MemoryIs` | app/credential_polling.py:314-439 | What a call leaves in memory, exactly |
| `RecoveryMeaning.ServeSays` | app/credential_polling.py:314-439 | What a call answers: one condition for each verdict, in terms of what was read and when |
| `RecoveryMeaning.RecoveredIff` | app/credential_polling.py:391-439 | A recovery is reported if and only if the call logged in, the final row is a usable new Session, and the lock was released |
| `CredentialRecovery.CredentialSessionRecovery.constructor` | app/credential_polling.py:287-312 | Nothing is remembered of any user |
| `CredentialRecovery.CredentialSessionRecovery.SuspectedKick` | app/credential_polling.py:345-370 | The tables move as the counting rule says, for this user only |
| `CredentialRecovery.CredentialSessionRecovery.WaitForOtherWriter` | app/credential_polling.py:382-389 | The first changed reread before the deadline, or unavailable |
| `CredentialRecovery.CredentialSessionRecovery.RecoverUnderLock` | app/credential_polling.py:391-439 | The tables move as the locked protocol says, for this user only |
| `CredentialRecovery.CredentialSessionRecovery.RecoverSession` | app/credential_polling.py:314-343 | One whole call: memory and outcome of this user as specified, and no other user's memory changed |
| `CredentialRecovery.ServeKeeps` | app/credential_polling.py:314-439 | A call extends a legal history of its user and the memory stays what that history says |
| `CredentialRecovery.RecoverIsShaped` | app/credential_polling.py:314-439 | A recovery is a verdict on the last Session, then at most one login, then at most one Session of another marker |
| `CredentialRecovery.OneLoginPerCall` | app/credential_polling.py:391-439 | A call logs in at most once, writes a Session only right after that login, and reports a recovery exactly if it wrote one and the lock was released without an error |
| `CredentialRecovery.LoginsApart` | app/credential_polling.py:326-332 | Any two logins for a user are at least the cooldown apart |
| `CredentialRecovery.SuspensionIsFinal` | app/credential_polling.py:324-325 | Suspended exactly at a kick count of two, never above it, and nothing happens to the user afterwards |
| `CredentialRecovery.BlameIsForOwnSession` | app/credential_polling.py:350-361 | A counted failure is of the Session this process last wrote for that user, within the window |
| `CredentialRecovery.SuspendedIffTwoBlames` | app/credential_polling.py:356-370 | Suspended exactly when two failures were counted with none forgiven since |
| `CredentialRecovery.UsersAreIndependent` | app/credential_polling.py:308-312 | What is remembered of a user depends on that user's calls alone |
| `DirectorySync.StepKeeps` | app/organization_directory_sync.py:110-195 | Every step of every scheduler keeps the row CHECKs, the lease discipline and what each point of the protocol relies on |
| `DirectorySync.RunKeeps` | app/organization_directory_sync.py:110-195 | So does every interleaving; the history only grows and the version never falls |
| `DirectorySync.RowChecksHold` | alembic/versions/20260914_120000_organization_directory_person_sync.py:25-69 | The CHECKs hold after every run, and the version counts the publications |
| `DirectorySync.PublishedWasRead` | app/organization_directory_sync.py:150-168 | Over every interleaving, each publication was committed by a scheduler that had read a complete snapshot, checked it and carried it unchanged; it is what the row then says, and the attempt began just before |
| `DirectorySync.CommittedWasValidated` | app/organization_directory_sync.py:150-168 | A scheduler about to commit validated that very snapshot earlier in the run |
| `DirectorySync.OnlyCommitPublishes` | app/infra/organization_directory/sync_state.py:68-143 | A publication is written by a commit and by no other step |
| `DirectorySync.PublishedIff` | app/organization_directory_sync.py:150-195 | A call publishes if and only if the source gave a complete snapshot, nobody asked to stop, validation passed, it is newer than the one published and not from the future, and the commit went through |
| `DirectorySync.StartsApart` | app/organization_directory_sync.py:123-134 | The n-th next attempt starts at least n retry intervals later |
| `DirectorySync.AttemptsAreSpaced` | app/organization_directory_sync.py:119-136 | Over every interleaving, two starts with n starts after the first are at least n times 3600 s apart |
| `DirectorySync.AfterPublication` | app/organization_directory_sync.py:119-136 | Over every interleaving, a publication is followed by the next start at least 86400 s later, or by one failure and then a start at least 3600 s after that failure |
| `DirectorySync.HeldBackIff` | app/infra/organization_directory/sync_state.py:68-143 | After a publication no start is due for 86400 s if and only if no failure was recorded over it, or the one recorded still holds the start back that long |
| `DirectorySync.OverwrittenIff` | app/organization_directory_sync.py:154-195 | A failure is recorded over a publication if and only if closing the source refused after it and that refusal was marked before it was given up or lost |
| `DirectorySync.CauseOfDoom` | app/organization_directory_sync.py:184-195 | A published row comes to await a failure mark by such a refusal and in no other way |
| `DirectorySync.PublicationIsNeverFailed` | app/organization_directory_sync.py:166-195 | In every run without such a refusal a publication is followed by the next start, a full interval later, or is still the state of the row |
| `DirectorySync.LateRefusalHappens` | app/organization_directory_sync.py:154-195 | A run in which a publication is recorded as failed and the next start comes 3600 s after it |
| `DirectorySync.FreshnessIsSourceAge` | app/organization_directory_access.py:36-55 | On every reachable row freshness is the source's age alone, and the row is never found unusable |
| `DirectorySync.DiagnosticMeans` | app/organization_directory_sync.py:58-75 | On every reachable row the diagnostic holds exactly if the source is recent and the last thing written is a publication or a recent start |
| `DirectorySync.RecheckOnlyAges` | app/organization_directory_access.py:67-77 | A recheck is refused exactly for a negative wait; otherwise it says fresh exactly while the source is young enough, and it is monotone in the time waited |
| `DirectorySync.SyncService.Take` | app/infra/organization_directory/sync_state.py:68-143 | One step at the store refines the step function and keeps the invariant |
| `DirectorySync.SyncService.RunDue` | app/organization_directory_sync.py:110-141 | One call: runs if and only if the lease is free, nobody asks to stop, no attempt was interrupted, the start is due and it was acknowledged; the row and the history afterwards are given exactly, with the code that is recorded |
| `DirectorySync.SyncService.RunUnderLease` | app/organization_directory_sync.py:119-141 | The same under a free lease: an interrupted attempt is marked, an attempt is made, or nothing happens |
| `DirectorySync.SyncService.LookUnderLease` | app/organization_directory_sync.py:119-134 | What the call does next, from the row alone, without writing |
| `DirectorySync.SyncService.Attempt` | app/organization_directory_sync.py:134-136 | One persisted start and then exactly the outcome of reading the source |
| `DirectorySync.SyncService.ReadSource` | app/organization_directory_sync.py:150-195 | The row and the history after an attempt, exactly: published, failed with the code to be recorded, or unchanged; the lease is given back |
| `DirectorySync.SyncService.Fetch` | app/organization_directory_sync.py:150-165 | Only a complete snapshot goes on to be published; anything else raises its own error |
| `DirectorySync.SyncService.PublishSnapshot` | app/organization_directory_sync.py:166-168 | Publishes exactly what was fetched, exactly if validation, order and commit succeed, and keeps what is to be raised |
| `DirectorySync.SyncService.CloseSource` | app/organization_directory_sync.py:154-178 | Closing writes nothing, an error in closing replaces the one before, and what is left to be marked is exactly what may be recorded |
| `DirectorySync.SyncService.CloseAndLeave` | app/organization_directory_sync.py:154-195 | Marks the failure exactly if there is one to record and the write is not lost, and frees the lease |
| `DirectorySync.SyncService.Leave` | app/organization_directory_sync.py:179-195 | Marks the failure unless that write is lost, changes nothing else, and frees the lease |
| `FieldProjector.ProjectField` | scripts/run_browser_synthetic_jev_launcher.py:104-175 | The byte automaton returns exactly what the line-splitting reference returns, failures included |
| `FieldMeaning.ProjectedIff` | scripts/run_browser_synthetic_jev_launcher.py:104-175 | For every file and name: a text is projected if and only if the name is one of the two, the file is within 1 MiB and made of short lines, exactly one line names the field before its first `=`, and its value without carriage return, blanks and quotes spells the text |
| `FieldMeaning.TakenIsFound` | scripts/run_browser_synthetic_jev_launcher.py:116-162 | A line that alone names the field and stands for a text gives that text |
| `FieldMeaning.FoundIsTaken` | scripts/run_browser_synthetic_jev_launcher.py:116-162 | A text comes from such a line |
| `FieldMeaning.StripIff` | scripts/run_browser_synthetic_jev_launcher.py:116-121 | Trimming takes off exactly the spaces and tabs around a value |
| `FieldMeaning.HasLinesIff` | scripts/run_browser_synthetic_jev_launcher.py:123-146 | The lines read are the one way to write the file, without its mark, as lines |
| `FieldProjector.ReadOne` | scripts/run_browser_synthetic_jev_launcher.py:128-162 | One byte read: a stop means that no file that begins so has a value |
| `FieldProjector.ReadAll` | scripts/run_browser_synthetic_jev_launcher.py:136-162 | The loop stops only at a broken prefix or past the size limit, and otherwise has followed every line |
| `FieldProjector.ConsumeByte` | scripts/run_browser_synthetic_jev_launcher.py:138-162 | One byte fails exactly when the lines read so far break a limit or repeat the field |
| `FieldProjector.ReadByte` | scripts/run_browser_synthetic_jev_launcher.py:147-162 | The line variables describe the line read so far, and fail exactly at an overlong selected value |
| `FieldProjector.FinishLine` | scripts/run_browser_synthetic_jev_launcher.py:116-121 | The kept value is that of the one selected line, and a second one fails |
| `FieldProjector.FinishFile` | scripts/run_browser_synthetic_jev_launcher.py:162-175 | The result of the whole file is the reference's |
| `FieldProjector.BrokenPrefix` | scripts/run_browser_synthetic_jev_launcher.py:136-162 | Failing early is right: no later byte repairs a broken prefix |
| `FieldProjector.JoinSplit` | scripts/run_browser_synthetic_jev_launcher.py:141-146 | Joining the lines of a file gives the file back |
| `FieldProjector.SplitJoin` | scripts/run_browser_synthetic_jev_launcher.py:141-146 | Splitting joined lines gives the lines back |
| `FieldProjector.UnselectedLinesAreIrrelevant` | scripts/run_browser_synthetic_jev_launcher.py:104-126 | In every whole file, with or without a byte-order mark, a line that as read does not name the field may become any other such line within the limits |
| `FieldProjector.UnselectedAsWritten` | scripts/run_browser_synthetic_jev_launcher.py:123-126 | The same of lines as written, if the line is not the first, or the file has a mark, or neither first line begins with one |
| `FieldProjector.MarkedFirstLineMatters` | scripts/run_browser_synthetic_jev_launcher.py:123-126 | Two files that differ in an unselected first line as written, one of which begins with the mark, and have different results |
| `FieldProjector.EveryFileHasLines` | scripts/run_browser_synthetic_jev_launcher.py:141-146 | Every file is made of its lines |
| `FieldProjector.FileOfLines` | scripts/run_browser_synthetic_jev_launcher.py:123-126 | A whole file, with or without a byte-order mark, means what its lines mean as read |
| `RegistryMeaning.PlanIff` | scripts/manage_oa_capabilities.py:802-965 | The plan of every catalog in terms of its rows: each of the five states, the failed precondition included, exactly when the families of fingerprints are whole, retired or missing and the canonical rows are as stated, with the three counts |
| `RegistryMeaning.AccountedIff` | scripts/manage_oa_capabilities.py:849-878 | The families are whole or missing and no row is unknown, said of fingerprints and not of counts |
| `RegistryMeaning.WholeIff` | scripts/manage_oa_capabilities.py:849-884 | As many rows as fingerprints, all in one status, is every fingerprint having a row in that status |
| `CapabilityRegistry.ReadyLegacyMeansEachOnce` | scripts/manage_oa_capabilities.py:896-910 | A ready legacy plan means that each authorized fingerprint is that of exactly one row of the catalog, and that row is active |
| `CapabilityRegistry.RowCountMatches` | scripts/manage_oa_capabilities.py:735-749 | The disabling statement meets its row count exactly when every authorized row is an OA row |
| `CapabilityRegistry.DisableKeepsFamilies` | scripts/manage_oa_capabilities.py:849-878 | Disabling authorized rows moves no row between families |
| `CapabilityRegistry.EmptyApplies` | scripts/manage_oa_capabilities.py:887-895 | An empty catalog becomes an applied one |
| `CapabilityRegistry.LegacyApplies` | scripts/manage_oa_capabilities.py:735-764 | A ready legacy catalog of OA rows becomes an applied one |
| `CapabilityRegistry.LegacyFails` | scripts/manage_oa_capabilities.py:736-767 | With an authorized row outside OA, skipping the update leaves a catalog that does not pass |
| `CapabilityRegistry.UpdateApplies` | scripts/manage_oa_capabilities.py:717-734 | The canonical update completes the catalog exactly when it changes the pending row |
| `CapabilityRegistry.TargetIsApplied` | scripts/manage_oa_capabilities.py:758-767 | Every applicable catalog re-plans as already applied |
| `CapabilityRegistry.OthersAreUntouched` | scripts/manage_oa_capabilities.py:735-757 | No row but authorized legacy rows and the two required ids is changed, and none is removed |
| `CapabilityRegistry.InactivePredecessorFails` | scripts/manage_oa_capabilities.py:721-734 | A catalog that plans as ready and cannot be applied: its predecessor is not active |
| `CapabilityRegistry.ForeignOverviewFails` | scripts/manage_oa_capabilities.py:998-1008 | A catalog that plans as ready and cannot be applied: its authorized overview row is of another system |
| `CapabilityRegistry.Registry.WritePlan` | scripts/manage_oa_capabilities.py:717-757 | The writes reach the target exactly when the plan is applicable; otherwise the row count named fails, or the postcondition |
| `CapabilityRegistry.Registry.UpdateCanonical` | scripts/manage_oa_capabilities.py:717-734 | The canonical update reaches the target exactly when the plan is applicable |
| `CapabilityRegistry.Registry.DisableLegacy` | scripts/manage_oa_capabilities.py:735-749 | The disabling statement disables the authorized rows, or meets another row count, or changes nothing |
| `CapabilityRegistry.Registry.Apply` | scripts/manage_oa_capabilities.py:696-787 | Applied if and only if the plan is ready, its condition holds and nothing fails; then the table re-plans as already applied, so a second apply writes nothing; in every other case the table is unchanged; and which plan or which error is returned, exactly |

## Left out

- Wiring, process start-up, configuration, HTTP and logging: plumbing without a hard property.
- The Python `ast` channel of the weak-test checker, file discovery, reading files and the command line.
- TypeScriptAssertions.ExpressionKey: what the text of a string or number literal normalises to is a parameter, because it is Python's own parsing of literals and decimals.
- TypeScriptChecker.CheckTypescriptSource: findings carry kind and line; names and descriptions are left out.
- CredentialScan.AssertNoCredentialValues: the text rules and the mapping rules are parameters, so their patterns are not modelled, except the cookie rule in `CookieScanner`; which of several broken limits is named is not stated.
- CredentialSnapshot.SnapshotContext.SnapshotRoot: a foreign object is a mapping, a list, a model with one dumped child, or opaque; the graph does not change during the walk.
- CookieScanner.ContainsCredentialCookie: case folding and the Unicode tables are parameters with stated properties, shown to hold of ASCII.
- JsonPreflight.DocumentMeasured: for documents printed by the grammar of sections 2 to 7 of RFC 8259; the parser itself is a parameter.
- Transactions.StepKeeps: savepoints, deadlock detection and isolation levels above READ COMMITTED are not modelled; a statement that must wait is a step that does nothing.
- ProfileCleanup.UpdateRow: the foreign keys to browser profiles and sessions are not modelled, so more histories are covered than the database admits; the downgrade is not modelled.
- BrowserRun.BrowserRunRow.Update: foreign keys and uniqueness across runs are not modelled; each row is guarded on its own.
- CredentialRecovery.LoginsApart: for calls of one user that do not overlap, because the cooldown is tested before the lock is taken; calls of different users may overlap.
- CredentialRecovery.CredentialSessionRecovery.RecoverUnderLock: how failures are recorded in the store, and background polling, are not modelled.
- DirectorySync.AttemptsAreSpaced: for the schedulers; the manual import in `app/infra/organization_directory/postgresql.py` starts an attempt without testing the due time and is not a step of the model.
- DirectorySync.SyncService.RunDue: the `_freshness` field and the grouping of members in a view are not modelled, and neither is a source whose closing swallows an exception.
- CapabilityRegistry.Registry.Apply: report counters, the dry run, audit files and a commit whose outcome is unknown are not modelled; fourteen fields without a role are one field.
