# SMEC AI advisor: a verified model of its core

The SMEC AI advisor is a Next.js service that helps Australian small and
medium enterprises to assess and adopt artificial intelligence. A chat front
end talks to an orchestrator. The orchestrator decides the stage of the
conversation, compresses long histories and builds the system prompt. Answers
draw on a Pinecone knowledge base, and the project ships scripts that chunk the
documents and grade the retrieval. Around this sit an opportunity assessment
(scores, priorities and a roadmap) and a service recommender. The security
layer has several parts:
- a Redis or in-memory sliding-window rate limiter and its middleware;
- an injection-guarded SQL layer;
- input schemas and sanitisers;
- path-checked file access;
- a security event monitor;
- the Content-Security-Policy builder.

This project models that core in Dafny, one module per source file, and proves
what each part promises.
- Pure TypeScript functions become Dafny functions over datatypes.
- Code that updates state in place keeps that form. Classes keep their fields
  (the rate limiter's memory store, the orchestrator's conversation states,
  the security monitor's event log, the retrieval cache). Loops become
  methods with invariants, proved against specification functions.
- The world outside the process is passed in as parameters:
  - language-model replies, Pinecone query results and Redis outcomes are
    oracle values or functions;
  - clock readings and random draws are parameters.

Shared modules:
- `Wrappers`: `Option` and `Result`.
- `Text`: the JavaScript string operations the code uses, such as `trim`,
  `toLowerCase` (for ASCII letters only, see Left out), `split`, `join`, `includes` and number printing.
- `JsMath`: `Math.ceil` of a quotient, `Math.max(0, …)` and truncation.
- `JsValue`: JSON-like values and object assignment.
- `Sorting`: the engine's stable `Array.prototype.sort` and `slice`.

## Model

| member | source | states |
|---|---|---|
| SecurityConfig.AllowedOrigins | lib/config/security.ts:2-10 | two origins in either environment, none is `*`, all start with `http`; outside development all start with `https://` |
| SecurityConfig.HstsHeaderContents | lib/config/security.ts:13-16 | the HSTS header is `Strict-Transport-Security` with `max-age=63072000; includeSubDomains; preload`, and each directive occurs in the value |
| SecurityConfig.RenderShape | lib/config/security.ts:20-32 | a rendered directive whose name and sources are tokens contains no `;`, has no space at either end, and splits at spaces back into its name and sources |
| SecurityConfig.ParseRendered | lib/config/security.ts:20-32 | a well-formed directive, after an optional single space, reads back as itself |
| SecurityConfig.ParseJoined | lib/config/security.ts:38 | splitting a `; `-joined list of well-formed directives at `;` and reading each piece gives back the list |
| SecurityConfig.NonceSourceToken | lib/config/security.ts:25-26 | `'nonce-<n>'` is a single policy token when the nonce is base64 |
| SecurityConfig.LiteralTokensA | lib/config/security.ts:21-26 | the first six directive names are tokens |
| SecurityConfig.LiteralTokensB | lib/config/security.ts:27-35 | the remaining directive names, report-uri included, are tokens |
| SecurityConfig.LiteralTokensC | lib/config/security.ts:21-35 | the quoted keyword sources, `data:` and `/csp-report` are tokens |
| SecurityConfig.HostTokens | lib/config/security.ts:26-29 | each allowed host source is a token |
| SecurityConfig.PolicyWellFormed | lib/config/security.ts:20-36 | every directive of the policy, in both environments, has a token name and token sources |
| SecurityConfig.CspReadsBack | lib/config/security.ts:19-39 | a browser splitting the header at `;` and at spaces reads back exactly the directives `buildCsp` joined |
| SecurityConfig.ReportUriLastUnlessProd | lib/config/security.ts:34-36 | `report-uri /csp-report` is the last directive exactly outside production; in production no directive is named report-uri |
| SecurityConfig.NonceInScriptAndStyle | lib/config/security.ts:25-26 | script-src and style-src both list the nonce source |
| SecurityConfig.RequiredDirectives | lib/config/security.ts:21-31 | default-src 'self', object-src 'none', frame-ancestors 'none' and require-trusted-types-for 'script' are in the policy and in the header text |
| SecurityConfig.NoUnsafeSources | lib/config/security.ts:20-36 | no directive lists `'unsafe-inline'` or `'unsafe-eval'` |
| SecurityConfig.CspHasNoUnsafeSource | lib/config/security.ts:19-39 | the header as a browser reads it carries no unsafe source |
| RateLimiter.InWindow | lib/rate-limiter.ts:61 | the kept entries are exactly the entries stamped after the window start, never more than before |
| RateLimiter.MemoryVerdict | lib/rate-limiter.ts:53-85 | count is the number of entries inside the window plus the current request; success iff the count is within the limit; reset is now plus the window |
| RateLimiter.MemoryStore.SlidingWindow | lib/rate-limiter.ts:48-86 | returns the verdict for the old store and leaves the store filtered, extended with the current entry and, on the 1% draw, swept |
| RateLimiter.MemoryStore.Sweep | lib/rate-limiter.ts:70-79 | the store afterwards is the old store with every key's entries filtered to the window and the emptied keys deleted |
| RateLimiter.SweptByKeys | lib/rate-limiter.ts:71-78 | a store checked key by key against the sweep is the swept store |
| RateLimiter.OtherKeysUntouched | lib/rate-limiter.ts:57-79 | another key's entries are unchanged without the sweep; with it the key survives iff it keeps entries inside the window |
| RateLimiter.DeniedRequestIsStored | lib/rate-limiter.ts:61-67 | a request is stored even when refused, so the stored list is as long as the count reported |
| RateLimiter.AllInWindow | lib/rate-limiter.ts:61 | entries all inside the window are kept as they are |
| RateLimiter.NoneInWindow | lib/rate-limiter.ts:61 | entries all outside the window are all dropped |
| RateLimiter.HistoryWithinWindow | lib/rate-limiter.ts:48-86 | requests spread over less than one window are all still stored when the last arrives |
| RateLimiter.CountInsideWindow | lib/rate-limiter.ts:81-82 | within a one-minute burst the k-th request (from 0) is counted as request k + 1 |
| RateLimiter.HistoryKeptAt | lib/rate-limiter.ts:61 | requests after the window start and within one window of each other are all kept |
| RateLimiter.SixthRequestRefused | lib/rate-limiter.ts:47-85 | under the unauthenticated tier, of six requests within one minute the first five pass and the sixth is refused |
| RateLimiter.QuietWindowResets | lib/rate-limiter.ts:55-82 | after a quiet window the next request is counted as the first and allowed |
| RateLimiter.RemoveMatchesWindow | lib/rate-limiter.ts:105 | removing scores from 0 to the window start keeps the same entries as the in-memory filter |
| RateLimiter.RedisAgreesWithMemory | lib/rate-limiter.ts:91-127 | the Redis transaction and the in-memory limiter give the same verdict on the same entries |
| RateLimiter.ShorterTailHasColon | lib/rate-limiter.ts:133 | two colon-joined texts that are equal with tails of different length put a colon in the longer tail |
| RateLimiter.SplitAtLastColon | lib/rate-limiter.ts:133 | equal colon-joined texts with colon-free tails have equal parts |
| RateLimiter.IntToStringHasNoColon | lib/rate-limiter.ts:133 | a printed number contains no colon |
| RateLimiter.RateLimitKeyInjective | lib/rate-limiter.ts:133 | the key `rate_limit:<id>:<max>:<window>` determines the identifier and the tier |
| RateLimiter.ShapeResult | lib/rate-limiter.ts:149-171 | the result carries the verdict's success and reset, the tier's max, the remaining with zero as the floor, and a retry delay, rounded up to whole seconds, exactly when refused |
| RateLimiter.FailOpen | lib/rate-limiter.ts:173-182 | on an error the request is allowed with max - 1 remaining, no retry delay and a reset one window after the clock reading |
| RateLimiter.CheckRateLimit | lib/rate-limiter.ts:129-183 | without Redis, the memory verdict shaped and the store updated; with Redis, the sorted-set verdict (entries after removing scores up to the window start, plus this request) shaped and the memory store untouched; on failure, fail-open and the store untouched |
| RateLimiter.RetryCoversReset | lib/rate-limiter.ts:156-170 | a refused caller told to retry after r seconds retries at or after the reset, and r is at least 1 |
| RateLimiter.GetRateLimitTier | lib/rate-limiter.ts:185-198 | unauthenticated callers get UNAUTH; authenticated ones get CONVO on chat, conversation and message paths and AUTH elsewhere |
| RateLimiter.AuthenticationNeverLowersLimit | lib/rate-limiter.ts:185-198 | on every path the authenticated limit is at least the unauthenticated one |
| RateLimitMiddleware.LookupPast | lib/rate-limit-middleware.ts:19-31 | headers before any of a given name change neither its lookup nor its presence |
| RateLimitMiddleware.CountingNames | lib/rate-limit-middleware.ts:19-23 | the three counting headers come in the order limit, remaining, reset |
| RateLimitMiddleware.HeadersLayout | lib/rate-limit-middleware.ts:19-31 | the error and retry headers are present iff their parts are, with their values |
| RateLimitMiddleware.CreateRateLimitHeaders | lib/rate-limit-middleware.ts:12-34 | limit, remaining and reset printed first; the error header iff the message is truthy, the retry header iff the delay is truthy, each with its value |
| RateLimitMiddleware.GetClientIdentifier | lib/rate-limit-middleware.ts:36-43 | always `ip:`; the first forwarded address when the forwarded header is truthy and its first piece non-empty; otherwise `ip:` and the `x-real-ip` header when truthy, else `ip:unknown` |
| RateLimitMiddleware.GetUserIdentifier | lib/rate-limit-middleware.ts:45-59 | `user:<id>` for a truthy user id; otherwise, for a truthy API key, `key:` and the first ten characters of the key's base64 (at most 14 in all); otherwise the client identifier |
| RateLimitMiddleware.IdentifierKindsDisjoint | lib/rate-limit-middleware.ts:36-59 | user, key and address identifiers never coincide, so the three kinds count separately |
| RateLimitMiddleware.Bucket | lib/rate-limit-middleware.ts:73-75 | unauthenticated requests are counted by address |
| RateLimitMiddleware.ApplyRateLimit | lib/rate-limit-middleware.ts:61-125 | nothing for paths outside /api; when the limiter answers, its limit, remaining and reset in the counting headers, with the exceeded message and the retry delay: a 429 with the retry delay exactly when it refuses, the request continuing with no error header when it allows; the fail-open headers marked unavailable when it throws |
| Validation.UuidLayout | lib/validation/schemas.ts:17-20 | a string the UUID pattern accepts has dashes at 8, 13, 18 and 23 and hex digits in the five groups between them |
| Validation.SplitAtUuidDashes | lib/validation/schemas.ts:18 | a 36-character string with the four dashes in place splits at `-` into exactly its five groups |
| Validation.UuidSplitsIntoGroups | lib/validation/schemas.ts:17-20 | an accepted UUID splits at `-` into hex groups of 8, 4, 4, 4 and 12 digits |
| Validation.GroupsMakeUuid | lib/validation/schemas.ts:17-20 | hex groups of those lengths joined with `-` form an accepted UUID, so the pattern accepts exactly those joins |
| Validation.UuidIgnoresCase | lib/validation/schemas.ts:18 | the `i` flag: lower-casing a string does not change whether it is accepted |
| Validation.ContentIssuesEmpty | lib/validation/schemas.ts:41-48 | the content check raises no issue iff the content is a string that is not blank after trimming and has at most 4000 characters |
| Validation.ValidateChatMessage | lib/validation/schemas.ts:23-67 | a non-object fails with the single root issue; otherwise it succeeds iff `content \|\| message` is a string that is not blank when trimmed and has at most 4000 characters, and any truthy string guid is a UUID; a success carries the trimmed content and the raw guid and message; a failure always lists an issue |
| Validation.ValidateGuid | lib/validation/schemas.ts:69-89 | succeeds iff given a string that is a UUID, returning it unchanged; every failure is one issue on `guid` |
| Validation.MessageIssuesEmpty | lib/validation/schemas.ts:131-145 | a message raises no issue iff it is an object with a string content of at most 4000 characters and a role among user, assistant and system |
| Validation.MessageIssuesPaths | lib/validation/schemas.ts:133-143 | every issue of message i has the path `messages`, i, … |
| Validation.MessagesIssuesEmpty | lib/validation/schemas.ts:131-145 | the array check raises no issue iff every message is well formed |
| Validation.MessagesIssuesEmptyOk | lib/validation/schemas.ts:131-145 | no issue from the array means every message is well formed |
| Validation.MessageWithoutIssues | lib/validation/schemas.ts:131-145 | no issue from the array means message i is well formed |
| Validation.MessagesIssuesBad | lib/validation/schemas.ts:131-145 | an issue from the array means some message is malformed |
| Validation.MessagesIssuesAt | lib/validation/schemas.ts:131-145 | the issues whose index is i are exactly the issues raised by message i |
| Validation.MessagesIssuesIndices | lib/validation/schemas.ts:133-143 | every array issue is under `messages` with a decimal index below the array's length |
| Validation.ConversationAcceptsWellFormed | lib/validation/schemas.ts:91-161 | a conversation is accepted iff it is an object whose title (at most 150), description (at most 1000) and messages are absent or well formed |
| Validation.CheckMessages | lib/validation/schemas.ts:131-145 | the `forEach` loop collects exactly the issue list of the specification, in index order |
| Validation.ValidateConversation | lib/validation/schemas.ts:91-161 | the method returns the specified result: the root issue, the collected issues, or the three fields unchanged |
| Validation.FilenameOfParts | lib/validation/schemas.ts:184 | a non-empty name of word characters, commas, spaces and dashes, then a dot and three or four letters, is accepted |
| Validation.FilenameAcceptsReport | lib/validation/schemas.ts:184-185 | `report.pdf` is accepted |
| Validation.FilenameRefusesTwoDots | lib/validation/schemas.ts:184 | a name with two dots is refused |
| Validation.FilenameRefusesDoubleExtension | lib/validation/schemas.ts:184 | `archive.tar.gz` is refused |
| Validation.FilenameRefusesEmptyName | lib/validation/schemas.ts:184 | `.env` and `../etc/passwd` are refused |
| Validation.ValidateUpload | lib/validation/schemas.ts:163-217 | a non-object fails with the root issue; otherwise it succeeds iff the filename matches, the MIME type is absent or allowed, and the size is a number not above 5 MB; a success carries the filename and the size |
| Validation.UploadSizeOnlyBoundedAbove | lib/validation/schemas.ts:199-203 | the size check has no lower bound: -1 and NaN pass, +Infinity fails, exactly 5 MB passes |
| Sanitize.PassThrough | lib/sanitize.ts:72-87 | a global literal replacement leaves a prefix without the pattern's first character as it is |
| Sanitize.Hit | lib/sanitize.ts:72-87 | a replacement turns a leading match into the replacement and carries on after it |
| Sanitize.Miss | lib/sanitize.ts:72-87 | a replacement passes over an entity that differs from the pattern |
| Sanitize.Escape | lib/sanitize.ts:81-87 | each of `&<>"'/` becomes an entity `&…;` with no other `&`; any other character is kept; no entity holds a raw special character |
| Sanitize.EntitiesDisagree | lib/sanitize.ts:81-87 | the entities of two different special characters differ at a position inside both |
| Sanitize.StagedNone | lib/sanitize.ts:81-87 | escaping no character leaves the text as it is |
| Sanitize.StagedAppend | lib/sanitize.ts:81-87 | escaping a set of characters distributes over concatenation |
| Sanitize.EncodeStep | lib/sanitize.ts:81-87 | one more `replace` of a special character escapes it on top of those already escaped, when none of their entities contains it |
| Sanitize.DecodeStep | lib/sanitize.ts:72-78 | one decoding `replace` undoes the escaping of that character, when `&` itself stays escaped |
| Sanitize.EncodeFirstHalf | lib/sanitize.ts:82-84 | the `&`, `<` and `>` replacements, in that order, escape exactly those three characters |
| Sanitize.EncodeSecondHalf | lib/sanitize.ts:85-87 | the quote, apostrophe and slash replacements complete the escaping of all six |
| Sanitize.EncodeIsEscaped | lib/sanitize.ts:81-87 | the six re-encoding replacements escape every special character of the text once |
| Sanitize.DecodeEscaped | lib/sanitize.ts:72-78 | the decoding chain, `&amp;` last, undoes the escaping exactly |
| Sanitize.NoDoubleEncoding | lib/sanitize.ts:71-87 | decoding then re-encoding escaped text gives the same escaped text, so entities are never encoded twice |
| Sanitize.EscapedNoRaw | lib/sanitize.ts:81-87 | escaped text holds no raw `<`, `>`, `"`, `'` or `/` |
| Sanitize.EscapedPlain | lib/sanitize.ts:81-87 | text without special characters is left as it is |
| Sanitize.TrimEscaped | lib/sanitize.ts:81-90 | trimming after escaping equals escaping after trimming |
| Sanitize.Limit | lib/sanitize.ts:93-95 | the limit keeps a prefix, at most a positive maxLength long; a missing or zero maxLength or a short enough text keeps it all; a negative one leaves nothing |
| Sanitize.SanitizeHtml | lib/sanitize.ts:29-98 | empty input gives empty output; the output holds no raw special character, respects a positive maxLength, and is a prefix of the escaped trimmed text the stripped input shows (all of it when no limit applies) |
| Sanitize.SanitizeHtmlShowsText | lib/sanitize.ts:71-98 | without a length limit, decoding the output gives back exactly the trimmed text the stripped and decoded input shows |
| Sanitize.NoRawAll | lib/sanitize.ts:81-87 | the raw-character check holds iff it holds of every character |
| Sanitize.Remove | lib/sanitize.ts:116-133 | a character-class removal keeps no dropped character, never lengthens, and keeps a text without such characters as it is |
| Sanitize.RemoveKeeps | lib/sanitize.ts:116-133 | removing characters keeps every property all the remaining characters had |
| Sanitize.CollapseSpace | lib/sanitize.ts:113 | `\s+` to one space never lengthens a text and keeps whether it starts with white space |
| Sanitize.CollapseKeeps | lib/sanitize.ts:113 | collapsing keeps every character property that a space also has |
| Sanitize.CollapseSpaceRuns | lib/sanitize.ts:113 | after collapsing no two white-space characters are adjacent and every one is a plain space |
| Sanitize.TrimKeeps | lib/sanitize.ts:90-140 | trimming never lengthens and keeps every character property |
| Sanitize.SanitizeMessage | lib/sanitize.ts:100-119 | empty content gives empty output; the output is at most 4000 characters, trimmed, and free of raw special characters and of the removed control characters |
| Sanitize.RemoveUnsafe | lib/sanitize.ts:127-133 | after the three removals no dot, slash, backslash, `<>:"\|?*` or control character is left, and a name without any is kept |
| Sanitize.SanitizeFilename | lib/sanitize.ts:121-141 | empty input gives empty output; the output is at most 255 characters, trimmed, and holds none of the removed characters |
| Sanitize.CleanFilenameKept | lib/sanitize.ts:121-141 | a name that is already clean is returned unchanged |
| Sanitize.SanitizeFilenameIdempotent | lib/sanitize.ts:121-141 | sanitising a sanitised filename changes nothing |
| Sanitize.SanitizeObject | lib/sanitize.ts:165-183 | the entry loop, whose assignments skip `__proto__` as the prototype setter does, builds exactly the specified sanitised object |
| Sanitize.SanitizedEntriesKeys | lib/sanitize.ts:168-180 | the loop's result has a key iff the filled part has it or a remaining entry has it and it is not `__proto__` |
| Sanitize.SanitizedEntriesLookup | lib/sanitize.ts:168-180 | with distinct keys, each remaining key but `__proto__` looks up its sanitised value and every other key its filled value |
| Sanitize.SanitizeObjectKeys | lib/sanitize.ts:165-183 | the sanitised object has exactly the input's keys except `__proto__`, which never becomes an own key |
| Sanitize.SanitizeObjectLookup | lib/sanitize.ts:165-183 | with distinct keys, each key but `__proto__` holds the sanitised version of its value |
| Sanitize.ProtoEntryDropped | lib/sanitize.ts:170-178 | an object whose only entry is `__proto__` sanitises to `{}` |
| Sanitize.AssignKeepsSanitized | lib/sanitize.ts:170-178 | assigning a sanitised value keeps every stored value sanitised |
| JsValue.AssignFacts | lib/sanitize.ts:170-178 | `target[key] = v` on a plain object: the key then reads `v` and becomes an own key, unless it is `__proto__`, which leaves the entries as they were; other keys read and exist as before |
| Sanitize.SanitizedEntriesClean | lib/sanitize.ts:168-180 | the entry loop stores only sanitised values |
| Sanitize.SanitizedIsSanitized | lib/sanitize.ts:165-183 | every string sanitizeObject reaches (values, array elements, nested objects) is a clean message |
| SafeFs.SegmentsFreeOfSeparator | lib/safe-fs.ts:27 | the pieces of a path between separators contain no `/` |
| SafeFs.SegmentsOfName | lib/safe-fs.ts:27 | a text without `/` is one segment |
| SafeFs.SplitConcat | lib/safe-fs.ts:27 | the segments of `a/b` are those of a followed by those of b |
| SafeFs.SegmentsJoin | lib/safe-fs.ts:27 | joining a path's segments with `/` gives the path back |
| SafeFs.JoinSplit | lib/safe-fs.ts:27 | splitting separator-free pieces joined with `/` gives the pieces back |
| SafeFs.SegmentsAvoidUp | lib/safe-fs.ts:27-54 | a path without `..` has no `..` segment |
| SafeFs.Names | lib/safe-fs.ts:27 | the segments normalisation keeps are names taken from the input |
| SafeFs.NamesOfNames | lib/safe-fs.ts:27 | a list of names is kept whole |
| SafeFs.NormalizeWithoutUp | lib/safe-fs.ts:27 | without `..`, normalising only drops empty and `.` segments |
| SafeFs.NormalizeRelative | lib/safe-fs.ts:27 | normalising a relative path without `..` gives a non-empty relative path without `..` |
| SafeFs.JoinValidated | lib/safe-fs.ts:27-77 | `join` of a relative path without `..` is a non-empty relative path without `..` |
| SafeFs.ResolveInside | lib/safe-fs.ts:27 | resolving a canonical root with such a path gives the root followed by the kept names |
| SafeFs.ResolveStaysInside | lib/safe-fs.ts:27-34 | that resolution is the root itself or lies under `root/` |
| SafeFs.CanonicalChild | lib/safe-fs.ts:7-9 | a canonical directory followed by one name is canonical |
| SafeFs.SafeJoin | lib/safe-fs.ts:25-35 | returns the resolved path exactly when it equals the root or starts with `root/`, otherwise fails with PATH_TRAVERSAL_DETECTED |
| SafeFs.ResolveChild | lib/safe-fs.ts:6-10 | resolving a canonical directory with one name appends it with `/` |
| SafeFs.AllowedRootsCanonical | lib/safe-fs.ts:6-10 | for a canonical working directory the roots are cwd/data, cwd/public and cwd/uploads, each canonical |
| SafeFs.ValidatePath | lib/safe-fs.ts:46-65 | accepts exactly the paths without NUL, without `..`, without a leading `/` or `\`, and without reserved or control characters; every refusal is INVALID_PATH, the NUL message exactly when a NUL is present |
| SafeFs.ValidatedJoinSucceeds | lib/safe-fs.ts:25-65 | a path that passes validation never trips the traversal check under a canonical root |
| SafeFs.LastIndex | lib/safe-fs.ts:38 | `lastIndexOf` is -1 or a position holding the character |
| SafeFs.LastIndexIsLast | lib/safe-fs.ts:38 | no later position holds the character |
| SafeFs.StripTrailing | lib/safe-fs.ts:38 | trailing separators are cut: a prefix that does not end in `/` |
| SafeFs.ExtName | lib/safe-fs.ts:38 | `extname` is empty or a dot followed by a dot-free, separator-free tail |
| SafeFs.BaseNameOfName | lib/safe-fs.ts:38 | the last segment of a stem followed by a separator-free tail ends with that tail |
| SafeFs.LastDotBefore | lib/safe-fs.ts:38 | the last dot of a stem followed by `.ext` is the extension's dot |
| SafeFs.ExtNameOfName | lib/safe-fs.ts:38 | after a stem not ending in `/`, the extension of `stem + .ext` is `.ext` |
| SafeFs.ListedExtensionShape | lib/safe-fs.ts:13 | each listed extension is a lower-case dot followed by a dot-free, separator-free tail |
| SafeFs.ExtensionAccepted | lib/safe-fs.ts:37-40 | a path whose extension lower-cases to a listed one is accepted |
| SafeFs.ListedExtensionsAccepted | lib/safe-fs.ts:13-40 | every listed extension after a stem is accepted |
| SafeFs.AcceptedExtensionIsListed | lib/safe-fs.ts:37-40 | an accepted path ends its last segment with an extension that lower-cases to a listed one |
| SafeFs.ValidateUploadedFile | lib/safe-fs.ts:231-261 | accepts iff the name validates, its extension is allowed, the size is at most 2 MiB and a truthy MIME type is listed |
| SafeFs.UploadCheckOrder | lib/safe-fs.ts:231-261 | the name, extension and size errors come first, in that order; a MIME error only with a truthy type and an acceptable size; a missing type is treated like an empty one |
| SafeFs.VerifyFileTypeCases | lib/safe-fs.ts:264-281 | .png, .jpg/.jpeg and .pdf, in any case, hold iff the content starts with their magic bytes; the trusted text extensions hold unconditionally |
| SafeFs.VerifiedTypesAreAllowed | lib/safe-fs.ts:264-281 | a verified extension is one of the allowed extensions |
| SafeFs.VerifyFileTypeAsWritten | lib/safe-fs.ts:265-276 | the plain-object lookup as written agrees with the intended check for every name not inherited from `Object.prototype` |
| SafeFs.ConstructorExtensionThrows | lib/safe-fs.ts:272-280 | `constructor` finds an inherited function, so `.some` is called on a non-array and throws; the intended check returns false |
| SafeFs.ReadTarget | lib/safe-fs.ts:69-82 | the root check, path validation, the safe join and the extension check run in that order: the first that fails gives its error (INVALID_ROOT, the validation error, the join error, INVALID_EXTENSION), and a path passing all four is the target |
| SafeFs.ReadChecksFirst | lib/safe-fs.ts:67-119 | a failed pre-check is thrown whatever the file system holds; a successful read passed them all, targets a path inside the root, found a file of at most 2 MiB and returns its contents |
| SafeFs.ReadNeverTraversesFromRoot | lib/safe-fs.ts:42-82 | reading from an allowed root never fails with a traversal error |
| SafeFs.Utf8LengthBounds | lib/safe-fs.ts:135 | the UTF-8 byte length lies between the character count and four times it |
| SafeFs.WriteTarget | lib/safe-fs.ts:127-146 | the root, path, content-size, join and extension checks run in that order: the first that fails gives its error (INVALID_ROOT, the validation error, CONTENT_TOO_LARGE, the join error, INVALID_EXTENSION), and a write passing all five targets the joined path |
| SafeFs.WriteChecksFirst | lib/safe-fs.ts:121-172 | a failed pre-check is thrown before writing; a successful write passed them all and wrote inside the root |
| SafeFs.LongContentRefused | lib/safe-fs.ts:134-138 | content longer than 2 MiB characters is refused with CONTENT_TOO_LARGE |
| SecureDb.Placeholder | lib/secure-db.ts:284 | a placeholder is `$` followed by the decimal digits of its number |
| SecureDb.BuildQuery | lib/secure-db.ts:275-287 | the loop builds the template's pieces with `$1`, `$2`, … between them, one per value while values last, and collects the values used |
| SecureDb.FirstMatch | lib/secure-db.ts:259-263 | the loop over the patterns reports a match iff some pattern matches |
| SecureDb.ValidateSqlQuery | lib/secure-db.ts:250-264 | refuses, with the one fixed message, exactly the texts that one of the five dangerous patterns matches |
| SecureDb.ChainedDropRefused | lib/secure-db.ts:252 | a `; drop ` after anything is refused |
| SecureDb.LineCommentRefused | lib/secure-db.ts:255 | any text containing `--` is refused |
| SecureDb.BlockCommentRefused | lib/secure-db.ts:254 | any text containing a closed `/* … */` comment is refused |
| SecureDb.TrailingSemicolonRefused | lib/secure-db.ts:256 | a text ending in `;` is refused |
| SecureDb.Sql | lib/secure-db.ts:275-292 | fails iff the built query is dangerous; otherwise returns the built query and the values used |
| SecureDb.SplitLoop | lib/secure-db.ts:59-85 | the splitting loop of `executeNeonQuery` computes the recursive split: pieces before each `$k` found in turn, and the matching parameters |
| SecureDb.SplitPlaceholders | lib/secure-db.ts:59-85 | the same with the real `$k` placeholders |
| SecureDb.SplitStep | lib/secure-db.ts:67-81 | one round: no `$k` ends the split, otherwise the piece before it and parameter k are taken and the rest is split from k+1 |
| SecureDb.SplitEnd | lib/secure-db.ts:67-85 | with the parameters used up or `$k` absent, the rest is the last piece |
| SecureDb.SplitShape | lib/secure-db.ts:59-85 | the split has one piece more than values, and the values are the next parameters in order |
| SecureDb.SplitReassembles | lib/secure-db.ts:59-85 | putting the placeholders back between the pieces gives the original text |
| SecureDb.IndexOfPlaceholder | lib/secure-db.ts:69 | after a `$`-free prefix the first occurrence of a placeholder is right after that prefix |
| SecureDb.SplitAfterPrefix | lib/secure-db.ts:69-80 | a `$`-free piece followed by `$k` is split off first |
| SecureDb.RoundTripStep | lib/secure-db.ts:59-85 | one step of the round trip between building and splitting |
| SecureDb.InterleaveSplitRoundTrip | lib/secure-db.ts:59-85 | splitting the text built from `$`-free pieces gives back the pieces and the parameters |
| SecureDb.SqlSplitRoundTrip | lib/secure-db.ts:59-85 | `executeNeonQuery` hands the driver exactly the pieces and values `sql` was given, when the pieces hold no `$` |
| SecureDb.PlaceholderSplitShape | lib/secure-db.ts:59-85 | for any text, the values handed on are a prefix of the parameters and there is one piece more |
| SecureDb.PlaceholderSplitReassembles | lib/secure-db.ts:59-85 | for any text, the pieces and placeholders reassemble it |
| SecureDb.QueryRead | lib/secure-db.ts:151-163 | accepts iff the trimmed, lower-cased text starts with `select` or `with`, and then runs it with action `read` |
| SecureDb.QueryWrite | lib/secure-db.ts:168-183 | accepts iff it starts with `insert`, `update` or `delete`, and then runs it with action `write` |
| SecureDb.GuardsExclusive | lib/secure-db.ts:157-176 | no statement passes both the read and the write guard |
| SecureDb.NormalizedStartsWith | lib/secure-db.ts:157-174 | a keyword surrounded by white space passes the guard whatever its case |
| SecureDb.Entries | lib/secure-db.ts:206 | `Object.entries` of an object is its fields, of an array its indices with the elements, and each value is smaller than the owner |
| SecureDb.SanitizedValueCases | lib/secure-db.ts:207-241 | strings are trimmed, finite numbers, null, undefined and booleans kept, non-finite numbers and other types refused with the key in the message, arrays keep their length and objects stay objects |
| SecureDb.SanitizedItems | lib/secure-db.ts:231-235 | mapping an array keeps its length |
| SecureDb.SanitizedObject | lib/secure-db.ts:203-245 | a sanitised object is an object |
| SecureDb.ItemsStep | lib/secure-db.ts:231-235 | one element of the array map: objects and arrays sanitised, other values kept |
| SecureDb.SanitizeParams | lib/secure-db.ts:203-245 | the loop over the entries, whose assignments skip `__proto__` as the prototype setter does, computes the recursive definition |
| SecureDb.SanitizeValue | lib/secure-db.ts:207-241 | the branch on one value computes the recursive definition, including the array map |
| SecureDb.AcceptableFromStep | lib/secure-db.ts:206 | the entries from i are acceptable iff entry i is and those after it are |
| SecureDb.SanitizedValueSucceeds | lib/secure-db.ts:203-245 | a value is accepted iff it holds no non-finite number and no function where the recursion looks |
| SecureDb.SanitizedItemsSucceed | lib/secure-db.ts:231-235 | an array's elements are accepted iff each object or array among them is acceptable |
| SecureDb.SanitizedEntriesSucceed | lib/secure-db.ts:206-242 | the loop from entry i succeeds iff the entries from i are acceptable |
| SecureDb.SanitizeParamsSucceeds | lib/secure-db.ts:203-245 | `sanitizeParams` of an object returns iff the object is acceptable |
| SecureDb.SanitizedEntriesKeys | lib/secure-db.ts:206-242 | given a filled part holding the keys of the entries before i except `__proto__`, a successful result holds exactly the input's keys except `__proto__` |
| SecureDb.SanitizeParamsKeys | lib/secure-db.ts:203-245 | a successful `sanitizeParams` has exactly the input's own keys except `__proto__` |
| SecureDb.SanitizedEntriesValues | lib/secure-db.ts:206-242 | with distinct keys, every entry is accepted and each key but `__proto__` holds the sanitised value of its entry |
| SecureDb.ProtoEntryDropped | lib/secure-db.ts:218-238 | `{"__proto__": <string>}`, as `JSON.parse` gives it, sanitises to `{}` |
| SecureDb.ArrayElementsUnchecked | lib/secure-db.ts:231-235 | a NaN inside an array is not examined, so such parameters pass |
| SecureDb.FindConversationChecks | lib/secure-db.ts:297-311 | succeeds iff the GUID is a valid UUID; the request is a read whose first parameter is the GUID, with a second one exactly for a non-empty user id, and every parameter is bound |
| SecureDb.InsertMessageChecks | lib/secure-db.ts:314-331 | succeeds iff the id is a UUID and the role is listed, with the two error messages in that order; the request is a write with three bound parameters |
| SecureDb.CreateConversationChecks | lib/secure-db.ts:334-347 | succeeds iff the GUID is a UUID; the request is a write with two bound parameters, the second null exactly when the user id is missing or empty |
| SecureDb.FilteredFindRequest | lib/secure-db.ts:302-310 | the filtered lookup passes the read guard and binds both parameters |
| SecureDb.PlainFindRequest | lib/secure-db.ts:302-310 | the plain lookup passes the read guard and binds its parameter |
| SecureDb.InsertMessageIsWrite | lib/secure-db.ts:323-330 | the message template passes the write guard |
| SecureDb.CreateConversationIsWrite | lib/secure-db.ts:339-346 | the conversation template passes the write guard |
| SecurityMonitoring.TypeNameRoundTrip | lib/security-monitor.ts:3-13 | each event type's name reads back as that type and holds no `:` |
| SecurityMonitoring.ThresholdOf | lib/security-monitor.ts:48-55 | finds the threshold listed for a type, or none when no listed threshold has that type |
| SecurityMonitoring.ThresholdKindsDistinct | lib/security-monitor.ts:48-55 | no two thresholds share a type, so the filter at most finds one |
| SecurityMonitoring.ThresholdWithinDay | lib/security-monitor.ts:48-55 | every threshold window lies between one minute and one day |
| SecurityMonitoring.GroupsLength | lib/security-monitor.ts:113 | matching n groups of four digits with optional separators takes at least 4n characters |
| SecurityMonitoring.CardLength | lib/security-monitor.ts:113 | a card match is at least 16 characters long and ends at a word boundary |
| SecurityMonitoring.NoDigitsUnchanged | lib/security-monitor.ts:111-115 | text without digits is left alone by the card scrubber |
| SecurityMonitoring.ScrubCreditCardNumbers | lib/security-monitor.ts:111-115 | text without digits is returned unchanged |
| SecurityMonitoring.ScrubPastPrefix | lib/security-monitor.ts:113-114 | a digit-free prefix is kept and the scan continues after it |
| SecurityMonitoring.CardBetween | lib/security-monitor.ts:113-114 | a card number between digit-free text at a word boundary becomes `[CARD]` |
| SecurityMonitoring.CardInSentence | lib/security-monitor.ts:113-114 | a spaced sixteen-digit number inside a sentence becomes `[CARD]` |
| SecurityMonitoring.RedactProperties | lib/security-monitor.ts:91-96 | redaction keeps the keys and replaces exactly the truthy listed fields with `[REDACTED]` |
| SecurityMonitoring.ScrubDetails | lib/security-monitor.ts:87-106 | scrubbing keeps the keys and handles each field on its own |
| SecurityMonitoring.ScrubEvent | lib/security-monitor.ts:83-109 | only the details of an event change |
| SecurityMonitoring.ScrubbedFieldProperties | lib/security-monitor.ts:91-103 | a truthy sensitive field is redacted, a falsy one stays falsy, non-strings are otherwise kept, and digit-free strings stay digit-free |
| SecurityMonitoring.EventKeyRoundTrip | lib/security-monitor.ts:134-138 | the key's first `:`-separated part names the event type and the rest is the identifier |
| SecurityMonitoring.SameKeySameCaller | lib/security-monitor.ts:134-138 | two events share a key iff they share their type and identifier |
| SecurityMonitoring.Since | lib/security-monitor.ts:129-151 | keeps exactly the events strictly newer than the cutoff |
| SecurityMonitoring.SinceAppend | lib/security-monitor.ts:129-131 | filtering distributes over concatenation |
| SecurityMonitoring.SinceOfSince | lib/security-monitor.ts:129-151 | filtering at a later cutoff after an earlier one is filtering at the later one |
| SecurityMonitoring.StoreProperties | lib/security-monitor.ts:117-132 | storing keeps the map well formed, sets the event's list to the last day's events plus the new one, and leaves every other key as it was |
| SecurityMonitoring.StoredList | lib/security-monitor.ts:120-131 | the stored list is the old list with the event appended, filtered to the last day |
| SecurityMonitoring.NewAlertsStep | lib/security-monitor.ts:143-156 | one more threshold adds its own alert, if any, at the end |
| SecurityMonitoring.NewAlertsOther | lib/security-monitor.ts:141 | thresholds of other types give no alert |
| SecurityMonitoring.NewAlertsOne | lib/security-monitor.ts:141-156 | with exactly one matching threshold only that one can alert |
| SecurityMonitoring.AlertRule | lib/security-monitor.ts:140-157 | an event raises one alert, holding the recent events, exactly when its type has a threshold and the events in that window reach its limit |
| SecurityMonitoring.StoredWindow | lib/security-monitor.ts:128-151 | inside the day, the window of the stored list is the old window plus the new event |
| SecurityMonitoring.AlertsAgainWhileOver | lib/security-monitor.ts:140-157 | while a caller stays at the limit, every further event raises a fresh alert |
| SecurityMonitoring.UnthresholdedNeverAlert | lib/security-monitor.ts:140-157 | success, session and suspicious-activity events never alert |
| SecurityMonitoring.AlertsSince | lib/security-monitor.ts:213-218 | keeps exactly the alerts triggered after the cutoff |
| SecurityMonitoring.FirstWithId | lib/security-monitor.ts:221 | `find` gives the first alert with the id, or none when no alert has it |
| SecurityMonitoring.ActiveCountUpdate | lib/security-monitor.ts:259 | replacing one alert changes the unresolved count by that alert's change |
| SecurityMonitoring.ResolveProperties | lib/security-monitor.ts:220-228 | resolving marks only the first alert with the id, changes nothing when there is none, and lowers the active count by one exactly when that alert was unresolved |
| SecurityMonitoring.TallyProperties | lib/security-monitor.ts:236-251 | the tally counts each type and each IP exactly, and lists the IPs once each |
| SecurityMonitoring.IpEntries | lib/security-monitor.ts:254-255 | one entry per IP in first-seen order |
| SecurityMonitoring.EntriesProperties | lib/security-monitor.ts:254-255 | the entries are distinct by IP and hold each IP's exact positive count |
| SecurityMonitoring.TopIPsShape | lib/security-monitor.ts:254-257 | the top list has at most ten entries, sorted by count descending, distinct by IP |
| SecurityMonitoring.TopIPsCounts | lib/security-monitor.ts:254-257 | each listed count is exact, no unlisted IP outnumbers a listed one, and under ten entries every IP is listed |
| SecurityMonitoring.TopIPs | lib/security-monitor.ts:254-257 | the list has ten entries, or one per IP when fewer IPs occur |
| SecurityMonitoring.RemoveKey | lib/security-monitor.ts:277 | deleting a key removes exactly it from the key order |
| SecurityMonitoring.RemoveKeyDistinct | lib/security-monitor.ts:277 | the key order stays duplicate-free |
| SecurityMonitoring.CleanStepWellFormed | lib/security-monitor.ts:275-280 | cleaning one key keeps the map well formed |
| SecurityMonitoring.CleanKeysProperties | lib/security-monitor.ts:274-281 | cleaning the given keys filters their lists, drops those left empty, and leaves other keys alone |
| SecurityMonitoring.CleanupProperties | lib/security-monitor.ts:270-288 | after cleanup exactly the keys with recent events remain, each holding only its recent events |
| SecurityMonitoring.SecurityMonitor.LogSecurityEvent | lib/security-monitor.ts:57-81 | stores the scrubbed, time-stamped event and appends the alerts its threshold raises on the updated list |
| SecurityMonitoring.SecurityMonitor.StoreEvent | lib/security-monitor.ts:117-132 | the event map becomes the stored map; alerts are unchanged |
| SecurityMonitoring.SecurityMonitor.CheckThresholds | lib/security-monitor.ts:140-157 | appends exactly the alerts of the rule; events are unchanged |
| SecurityMonitoring.SecurityMonitor.CheckOne | lib/security-monitor.ts:144-155 | one threshold appends its alert when the window reaches the limit |
| SecurityMonitoring.SecurityMonitor.TriggerAlert | lib/security-monitor.ts:159-185 | appends one unresolved alert with the given id, threshold, events and time |
| SecurityMonitoring.SecurityMonitor.GetRecentAlerts | lib/security-monitor.ts:213-218 | returns exactly the alerts of the last `hours` hours, 24 by default |
| SecurityMonitoring.SecurityMonitor.ResolveAlert | lib/security-monitor.ts:220-228 | returns true iff some alert has the id, and resolves the first such alert |
| SecurityMonitoring.SecurityMonitor.GetSecurityMetrics | lib/security-monitor.ts:230-267 | the loops compute the metrics function: totals, per-type counts, top IPs and active alerts |
| SecurityMonitoring.SecurityMonitor.CountList | lib/security-monitor.ts:244-250 | the inner loop extends the tally by one list |
| SecurityMonitoring.SecurityMonitor.Cleanup | lib/security-monitor.ts:270-288 | events are cleaned to the last day and alerts to the last week |
| SecurityMonitoring.SecurityMonitor.CleanEvents | lib/security-monitor.ts:274-281 | the loop over the keys computes the cleaned map |
| KnowledgeBaseRetrieval.AliasesNameNamespaces | lib/knowledge-base-retrieval.ts:71-86 | every alias in the table maps to one of the five namespaces |
| KnowledgeBaseRetrieval.NamespacesAreOwnAliases | lib/knowledge-base-retrieval.ts:71-86 | each namespace maps to itself |
| KnowledgeBaseRetrieval.NamespacesAreLowerCase | lib/knowledge-base-retrieval.ts:71-86 | the namespaces hold no upper-case letter |
| KnowledgeBaseRetrieval.IndustryMapShape | lib/knowledge-base-retrieval.ts:71-86 | every alias names one of the five namespaces, and each namespace is its own lower-case alias |
| KnowledgeBaseRetrieval.MapIndustryToNamespace | lib/knowledge-base-retrieval.ts:70-88 | the corrected own-property lookup of line 87 (see Findings): the namespace is lower case, and empty only for an empty label |
| KnowledgeBaseRetrieval.NamespaceIdempotent | lib/knowledge-base-retrieval.ts:70-88 | mapping a namespace again changes nothing |
| KnowledgeBaseRetrieval.NamespaceIgnoresCase | lib/knowledge-base-retrieval.ts:87 | labels equal up to case map to the same namespace |
| KnowledgeBaseRetrieval.AliasExamples | lib/knowledge-base-retrieval.ts:71-87 | Healthcare → medical, clean-energy → clean_energy, SMEC-Services → all_industries, Mining → mining |
| KnowledgeBaseRetrieval.MapIndustryToNamespaceAsWritten | lib/knowledge-base-retrieval.ts:87 | the plain-object lookup as written agrees with the own-property lookup except for lower-cased names inherited from `Object.prototype` |
| KnowledgeBaseRetrieval.ConstructorLabelIsNotANamespace | lib/knowledge-base-retrieval.ts:87 | the label `Constructor` finds the inherited constructor function as written, and `constructor` in the intended lookup |
| KnowledgeBaseRetrieval.ToDocument | lib/knowledge-base-retrieval.ts:144-158 | a match becomes a document with its id, its score or 0, and its industry or the caller's |
| KnowledgeBaseRetrieval.Shape | lib/knowledge-base-retrieval.ts:142-158 | keeps exactly the matches scoring at least the threshold, as documents |
| KnowledgeBaseRetrieval.GatherProperties | lib/knowledge-base-retrieval.ts:132-195 | every gathered document passes the threshold and comes from one of the searches |
| KnowledgeBaseRetrieval.TopByScoreProperties | lib/knowledge-base-retrieval.ts:197-199 | sort and slice: descending scores, length min(k, n), drawn from the input, nothing left out scores higher than what is kept, and a permutation when nothing is cut |
| KnowledgeBaseRetrieval.TopByScoreDistinct | lib/knowledge-base-retrieval.ts:197-199 | sorting and cutting keeps ids distinct |
| KnowledgeBaseRetrieval.Queries | lib/knowledge-base-retrieval.ts:126-172 | through the corrected namespace lookup, the industry's namespace is searched for topK, and all_industries for ceil(topK/2) exactly when asked for and different |
| KnowledgeBaseRetrieval.GetRelevantDocs | lib/knowledge-base-retrieval.ts:109-207 | fails with the fixed message iff the embedding fails; otherwise exactly min(topK, number gathered) documents, sorted descending, each above the threshold from one of the searches, none left out scoring higher; the namespace comes from the corrected lookup |
| KnowledgeBaseRetrieval.RelevantDocsKeepDuplicates | lib/knowledge-base-retrieval.ts:132-199 | when nothing is cut the result is the gathered multiset: a document found in both namespaces is kept twice |
| KnowledgeBaseRetrieval.PerNamespace | lib/knowledge-base-retrieval.ts:230 | each namespace's share is ceil(topK/n) |
| KnowledgeBaseRetrieval.AcrossQueries | lib/knowledge-base-retrieval.ts:233-245 | one search per industry, in its namespace with its share |
| KnowledgeBaseRetrieval.SearchAcrossIndustries | lib/knowledge-base-retrieval.ts:212-274 | the loop computes the cross-industry result |
| KnowledgeBaseRetrieval.GatherPrefixStep | lib/knowledge-base-retrieval.ts:233-263 | one more industry appends its results |
| KnowledgeBaseRetrieval.SearchAcrossShape | lib/knowledge-base-retrieval.ts:212-274 | fails iff the embedding fails; otherwise exactly min(topK, number gathered) documents, topK defaulting to 10, sorted descending, each above the threshold from one of the searched namespaces, none left out scoring higher |
| KnowledgeBaseRetrieval.GetRelatedDocuments | lib/knowledge-base-retrieval.ts:279-316 | fails with the fixed message unless the document is found with non-empty text and that text embeds; otherwise the first min(topK, n) of the n documents of the topK + 1 search that are not the original, in order |
| KnowledgeBaseRetrieval.Others | lib/knowledge-base-retrieval.ts:309 | the filter keeps exactly the documents whose id is not the original's |
| KnowledgeBaseRetrieval.LongLines | lib/knowledge-base-retrieval.ts:386-389 | keeps, trimmed, exactly the lines longer than ten characters after trimming |
| KnowledgeBaseRetrieval.KeptLines | lib/knowledge-base-retrieval.ts:385-390 | the first three, in order, of the reply's trimmed lines longer than ten characters, or all of them when fewer |
| KnowledgeBaseRetrieval.GenerateExpandedQueries | lib/knowledge-base-retrieval.ts:367-398 | the original query first; on a reply, followed by exactly its kept lines; only the original when the call throws |
| KnowledgeBaseRetrieval.ExpandedQueriesFromReply | lib/knowledge-base-retrieval.ts:385-393 | every added query is a long trimmed line of the reply |
| KnowledgeBaseRetrieval.DedupWellKept | lib/knowledge-base-retrieval.ts:345-351 | the merge map's key order and entries agree |
| KnowledgeBaseRetrieval.BestIndex | lib/knowledge-base-retrieval.ts:345-351 | names a position holding the id, or none |
| KnowledgeBaseRetrieval.BestIndexProperties | lib/knowledge-base-retrieval.ts:345-351 | that position holds the first of the highest scores for the id |
| KnowledgeBaseRetrieval.DedupKeepsBest | lib/knowledge-base-retrieval.ts:345-351 | the merge map holds an id iff it occurs, mapped to its first best-scoring document |
| KnowledgeBaseRetrieval.Values | lib/knowledge-base-retrieval.ts:353 | one value per key |
| KnowledgeBaseRetrieval.UniqueProperties | lib/knowledge-base-retrieval.ts:345-353 | the merged values have distinct ids, each the first best document for its id, and every input id is represented |
| KnowledgeBaseRetrieval.UniqueIsFirstBest | lib/knowledge-base-retrieval.ts:345-351 | a kept document scores at least as high as every other with its id, and strictly higher than those before it |
| KnowledgeBaseRetrieval.Fallback | lib/knowledge-base-retrieval.ts:360 | the intended fallback searches the caller's namespace with the caller's query |
| KnowledgeBaseRetrieval.PlainSearch | lib/knowledge-base-retrieval.ts:109-207 | without options one namespace is searched for five documents at threshold 0.3 |
| KnowledgeBaseRetrieval.SwappedFallbackSearchesQueryNamespace | lib/knowledge-base-retrieval.ts:360 | with the arguments swapped the fallback searches a namespace named after the query and finds nothing |
| KnowledgeBaseRetrieval.FallbackFindsDocument | lib/knowledge-base-retrieval.ts:360 | the intended fallback finds the agriculture document |
| KnowledgeBaseRetrieval.SwappedFallbackLosesResults | lib/knowledge-base-retrieval.ts:360 | the same index and call: the fallback as written returns nothing where the intended one returns the document |
| KnowledgeBaseRetrieval.ExpandedSearch | lib/knowledge-base-retrieval.ts:321-362 | the method computes the expanded-search result with the corrected fallback of line 360 (see Findings) |
| KnowledgeBaseRetrieval.SearchEach | lib/knowledge-base-retrieval.ts:336-343 | the loop gathers each expanded query's results, or stops at the first failure |
| KnowledgeBaseRetrieval.MergeById | lib/knowledge-base-retrieval.ts:345-353 | the map loop keeps the first best document per id, in first-seen order |
| KnowledgeBaseRetrieval.ExpandedGatherStops | lib/knowledge-base-retrieval.ts:336-360 | one failing search fails the gathering |
| KnowledgeBaseRetrieval.ExpandedGatherFails | lib/knowledge-base-retrieval.ts:336-343 | a failed prefix fails every extension |
| KnowledgeBaseRetrieval.ExpandedSearchShape | lib/knowledge-base-retrieval.ts:345-360 | a failure gives the fallback; otherwise the top topK of the merged documents: exactly min(topK, number of distinct ids) of them, sorted descending, none left out scoring higher than one kept, distinct by id, each the best for its id |
| OptimizedRetrieval.WithDefaults | lib/optimized-knowledge-base-retrieval.ts:71-77 | unset options take topK 3, minScore 0.3, useCache true and a 2000 ms timeout; set ones are kept |
| OptimizedRetrieval.KeyDefaults | lib/optimized-knowledge-base-retrieval.ts:125-151 | the keys of a default, a fast and a comprehensive search |
| OptimizedRetrieval.KeyOfInjective | lib/optimized-knowledge-base-retrieval.ts:49-52 | the structured key determines the industry, query, topK, threshold and flag |
| OptimizedRetrieval.KeyTextCollides | lib/optimized-knowledge-base-retrieval.ts:51 | `retail:food` + `waste` and `retail` + `food:waste` give the same colon-joined key text |
| OptimizedRetrieval.CacheHit | lib/optimized-knowledge-base-retrieval.ts:82-87 | a cached answer is served iff caching is on and the entry under the structured key (the corrected key of line 51, see Findings) is younger than its ttl |
| OptimizedRetrieval.Fetch | lib/optimized-knowledge-base-retrieval.ts:54-94 | the race is lost with `Query timeout` when the retriever takes at least the timeout, and otherwise gives the base retrieval's outcome |
| OptimizedRetrieval.FreshEntryServed | lib/optimized-knowledge-base-retrieval.ts:82-87 | a live entry is returned and the cache is left alone |
| OptimizedRetrieval.StoresOnlyNonEmptySuccess | lib/optimized-knowledge-base-retrieval.ts:96-105 | the cache changes only by storing a non-empty successful result under its key, stamped when the fetch ends, and that result is returned |
| OptimizedRetrieval.MissAnswer | lib/optimized-knowledge-base-retrieval.ts:82-119 | on a cache miss the answer is the completion of the fetched outcome |
| OptimizedRetrieval.FailureServesStale | lib/optimized-knowledge-base-retrieval.ts:107-119 | on a failed fetch the key's entry is returned even when expired or when caching is off, else nothing, and the cache is unchanged |
| OptimizedRetrieval.NoCacheNoStore | lib/optimized-knowledge-base-retrieval.ts:82-97 | with `useCache: false` nothing is stored |
| OptimizedRetrieval.Cleaned | lib/optimized-knowledge-base-retrieval.ts:41-46 | result entries older than their ttl are deleted, the rest kept unchanged |
| OptimizedRetrieval.CleanedEmbeddings | lib/optimized-knowledge-base-retrieval.ts:34-39 | embedding entries older than an hour are deleted, the rest kept unchanged |
| OptimizedRetrieval.CleanupKeepsLookups | lib/optimized-knowledge-base-retrieval.ts:43-84 | cleanup never changes what the cache serves; an entry exactly at its ttl is kept although no longer served |
| OptimizedRetrieval.Classify | lib/optimized-knowledge-base-retrieval.ts:228-236 | unhealthy above 2000 ms, degraded above 1000 ms or with no results, healthy otherwise; only a healthy report has no error |
| OptimizedRetrieval.BatchStep | lib/optimized-knowledge-base-retrieval.ts:160-162 | one batch request appends one answer, served from the initial cache when live there under the structured key, and touches no other key |
| OptimizedRetrieval.BatchRun | lib/optimized-knowledge-base-retrieval.ts:156-175 | one answer per request, the requests completing in input order, under the structured key |
| OptimizedRetrieval.BatchAnswersFromStart | lib/optimized-knowledge-base-retrieval.ts:160-165 | a request whose key is live in the cache at the start gets that entry |
| OptimizedRetrieval.BatchTouchesOwnKeys | lib/optimized-knowledge-base-retrieval.ts:160-165 | a batch changes only the keys of its own requests |
| OptimizedRetrieval.OptimizedKnowledgeBaseRetrieval.GetRelevantDocs | lib/optimized-knowledge-base-retrieval.ts:65-120 | returns the answer and leaves the cache as the cache functions say, under the structured key; the embedding cache is never written |
| OptimizedRetrieval.OptimizedKnowledgeBaseRetrieval.Complete | lib/optimized-knowledge-base-retrieval.ts:96-119 | the completion step returns and stores as specified |
| OptimizedRetrieval.OptimizedKnowledgeBaseRetrieval.FastSearch | lib/optimized-knowledge-base-retrieval.ts:125-135 | a search with the fast preset, through the structured-key cache |
| OptimizedRetrieval.OptimizedKnowledgeBaseRetrieval.ComprehensiveSearch | lib/optimized-knowledge-base-retrieval.ts:140-151 | a search with the comprehensive preset, through the structured-key cache |
| OptimizedRetrieval.OptimizedKnowledgeBaseRetrieval.BatchSearch | lib/optimized-knowledge-base-retrieval.ts:156-175 | the answers and the final cache of the batch run, completions taken in input order |
| OptimizedRetrieval.OptimizedKnowledgeBaseRetrieval.BatchOne | lib/optimized-knowledge-base-retrieval.ts:160-162 | one request of the batch, through the structured-key cache |
| OptimizedRetrieval.OptimizedKnowledgeBaseRetrieval.CleanupCache | lib/optimized-knowledge-base-retrieval.ts:31-47 | both loops leave exactly the cleaned maps |
| OptimizedRetrieval.OptimizedKnowledgeBaseRetrieval.GetCacheStats | lib/optimized-knowledge-base-retrieval.ts:205-210 | reports both cache sizes; the embedding cache is always empty |
| OptimizedRetrieval.OptimizedKnowledgeBaseRetrieval.ClearCache | lib/optimized-knowledge-base-retrieval.ts:215-218 | both caches become empty |
| OptimizedRetrieval.OptimizedKnowledgeBaseRetrieval.HealthCheck | lib/optimized-knowledge-base-retrieval.ts:223-244 | runs the fast search for the fixed agriculture query and classifies its result count and its latency, the search's duration plus the caller's overhead; the result cache becomes the one that search leaves and the embedding cache is unchanged |
| OptimizedRetrieval.SearchDuration | lib/optimized-knowledge-base-retrieval.ts:225-229 | a search lasts at most its timeout, and exactly the timeout on a cache miss whose retrieval takes at least that long |
| OptimizedRetrieval.TimedOutHealthCheckNotHealthy | lib/optimized-knowledge-base-retrieval.ts:223-244 | when the health query misses the cache and its retrieval times out, the latency is at least 1000 ms and the status is not healthy |
| Orchestration.SystemPromptIdentifiesStage | lib/llm-orchestration.ts:193-195 | different stages get different system prompts |
| Orchestration.FollowUpQuestions | lib/llm-orchestration.ts:93-122 | every stage has five follow-up questions, each a non-empty question ending in `?` |
| Orchestration.UserTurns | lib/llm-orchestration.ts:128 | the user-turn count is at most the number of turns |
| Orchestration.UserTurnsAppend | lib/llm-orchestration.ts:128 | the count adds up over concatenation |
| Orchestration.DetermineStage | lib/llm-orchestration.ts:127-134 | discovery for at most 2 user turns, exploration for 3-4, solution for 5-6, implementation beyond |
| Orchestration.StageNeverRegresses | lib/llm-orchestration.ts:127-134 | a longer history extending a shorter one never has an earlier stage |
| Orchestration.Contents | lib/llm-orchestration.ts:137 | the contents, turn by turn |
| Orchestration.EstimateTokenCount | lib/llm-orchestration.ts:136-139 | the estimate is the joined text's length divided by 4, rounded up |
| Orchestration.TokenEstimateCountsSeparators | lib/llm-orchestration.ts:136-139 | for n turns that is ceil((total content length + n − 1) / 4) |
| Orchestration.SummaryText | lib/llm-orchestration.ts:175 | a missing or empty reply becomes the fixed fallback text, so the summary is never empty |
| Orchestration.FirstSystem | lib/llm-orchestration.ts:146 | the first system turn anywhere, or none when there is none |
| Orchestration.TranscriptLines | lib/llm-orchestration.ts:152-154 | one `role: content` line per middle turn |
| Orchestration.CompressSpec | lib/llm-orchestration.ts:141-191 | at most five turns are returned as they are; otherwise the summariser is asked with the summary request built from the middle turns, and the result is 5 or 6 turns ending in the last four: on failure the last six; on success the first system turn if any, the summary of that reply, then the last four |
| Orchestration.CompressNeverLengthens | lib/llm-orchestration.ts:141-191 | compression never adds turns |
| Orchestration.ProcessedMessagesShape | lib/llm-orchestration.ts:228-241 | turn 0 becomes the stage's system prompt; below the 8000-token threshold the other turns are the input's, above it and with more than five turns at most six turns ending in the last four |
| Orchestration.ReplaceFirst | lib/llm-orchestration.ts:238-241 | overwriting turn 0 keeps the length and every other turn |
| Orchestration.OrchestrationService.CompressMessages | lib/llm-orchestration.ts:141-191 | computes the compression; short histories are returned as the same array, longer ones as a fresh array |
| Orchestration.OrchestrationService.RecordState | lib/llm-orchestration.ts:209-226 | the id's state, reused when present and created otherwise, takes the stage, the estimate and the input array; every other id keeps its record object with all its fields |
| Orchestration.OrchestrationService.ProcessConversation | lib/llm-orchestration.ts:201-250 | returns the stage, its follow-ups and the processed turns; without compression the processed array is the input array, so the overwrite of turn 0 also changes the stored history; every other id keeps its record object |
| Orchestration.OrchestrationService.PrepareTurns | lib/llm-orchestration.ts:228-241 | compresses above the threshold and overwrites turn 0 of the result |
| Orchestration.OrchestrationService.GetConversationState | lib/llm-orchestration.ts:273-275 | the stored state of the id, if any |
| Orchestration.OrchestrationService.ClearConversationState | lib/llm-orchestration.ts:277-279 | removes exactly that id |
| Orchestration.OrchestrationService.ClearAllStates | lib/llm-orchestration.ts:281-283 | empties the map |
| OpportunityAssessment.Clamp | lib/ai-opportunity-assessment.ts:168-219 | `Math.max(0, Math.min(5, x))`: in 0..5, the identity there, 0 below and 5 above |
| OpportunityAssessment.ReadinessScore | lib/ai-opportunity-assessment.ts:153-168 | readiness lies in 0..5 |
| OpportunityAssessment.ImpactScore | lib/ai-opportunity-assessment.ts:170-190 | impact lies in 0..5 |
| OpportunityAssessment.ComplexityScore | lib/ai-opportunity-assessment.ts:192-203 | complexity lies in 0..5 |
| OpportunityAssessment.CostTier | lib/ai-opportunity-assessment.ts:209-213 | the price tier lies in 0..4 and is 4 exactly when the text mentions 80,000 or 70,000 |
| OpportunityAssessment.CostScore | lib/ai-opportunity-assessment.ts:205-219 | cost lies in 0..5 |
| OpportunityAssessment.ScoreOpportunity | lib/ai-opportunity-assessment.ts:152-231 | four sub-scores in 0..5 and the weighted composite 0.4/0.3/0.2/0.1, exact in hundredths, in 0..500 |
| OpportunityAssessment.BetterProfileNeverScoresLower | lib/ai-opportunity-assessment.ts:152-231 | a profile at least as mature, capable, funded and large, with the same goals, never gets a lower composite |
| OpportunityAssessment.DearerNeverScoresHigher | lib/ai-opportunity-assessment.ts:205-222 | of two otherwise equal opportunities the one in a higher price tier never scores higher |
| OpportunityAssessment.ScoreAll | lib/ai-opportunity-assessment.ts:287-298 | each opportunity is paired with its own score, in order |
| OpportunityAssessment.OpportunitiesByIndustry | lib/ai-opportunity-assessment.ts:314-316 | exactly the catalogue entries of that industry |
| OpportunityAssessment.RankKeepsAll | lib/ai-opportunity-assessment.ts:300-303 | ranking at most five opportunities keeps all, sorted by composite descending, a permutation of the scored list |
| OpportunityAssessment.AssessRanksIndustry | lib/ai-opportunity-assessment.ts:280-304 | the assessment returns the industry's two opportunities, each scored, best composite first |
| OpportunityAssessment.FilterSelectsPair | lib/ai-opportunity-assessment.ts:282-284 | filtering eight entries that come in industry pairs selects one pair |
| OpportunityAssessment.ByIndustryIsPair | lib/ai-opportunity-assessment.ts:314-316 | each industry's entries are its catalogue pair |
| OpportunityAssessment.IndustryHasTwo | lib/ai-opportunity-assessment.ts:314-316 | each industry has two opportunities |
| OpportunityAssessment.GetOpportunityById | lib/ai-opportunity-assessment.ts:306-308 | finds a catalogue entry with the id, or none when no entry has it |
| OpportunityAssessment.FindById | lib/ai-opportunity-assessment.ts:307 | `find` returns the first entry with the id: no earlier entry has it; none when no entry has it |
| OpportunityAssessment.GetAllOpportunities | lib/ai-opportunity-assessment.ts:310-312 | the eight catalogue entries |
| OpportunityAssessment.ExampleFarmGoalAligns | scripts/test-opportunity-assessment.ts:16 | the goal "increase efficiency" aligns with every opportunity |
| OpportunityAssessment.PrecisionFarmingScore | lib/ai-opportunity-assessment.ts:152-231 | precision farming scores readiness 3, impact 3, complexity 1, cost 1, composite 3.30 for the example farm |
| OpportunityAssessment.CropMonitoringScore | lib/ai-opportunity-assessment.ts:152-231 | crop monitoring scores 2, 4, 2, 2 and 3.10 |
| OpportunityAssessment.RankPair | lib/ai-opportunity-assessment.ts:300-303 | the higher-scoring of two is ranked first |
| OpportunityAssessment.ExampleFarmRanking | lib/ai-opportunity-assessment.ts:280-304 | the example farm gets precision farming first and crop monitoring second |
| OpportunityAssessment.FigureIff | lib/ai-opportunity-assessment.ts:210-213 | in a price text with two commas a figure occurs iff it is one of the two six-character windows around them |
| OpportunityAssessment.TierFromWindows | lib/ai-opportunity-assessment.ts:209-213 | the tier of such a text is read off those two windows |
| OpportunityAssessment.PrecisionFarmingTier | lib/ai-opportunity-assessment.ts:209-213 | "$8,000-$25,000" is tier 1 |
| OpportunityAssessment.CropMonitoringTier | lib/ai-opportunity-assessment.ts:209-213 | "$15,000-$40,000" is tier 2: the first matching branch wins |
| ServiceRecommendation.CheckEligibility | lib/service-recommendation.ts:182-219 | a service is refused iff a listed size, industry, maturity or capacity criterion excludes the profile, or, with scores, a set non-zero minimum impact or readiness or maximum complexity is violated |
| ServiceRecommendation.MatchScore | lib/service-recommendation.ts:221-273 | the score is 0 exactly for an ineligible service and otherwise lies between 60 and 100 |
| ServiceRecommendation.MatchScoreMonotone | lib/service-recommendation.ts:241-244 | more technical capacity never lowers the score of an eligible service |
| ServiceRecommendation.Reasons | lib/service-recommendation.ts:281-302 | the reasons start with the score bucket's phrase, mention government funding iff the service is free and personal guidance iff it is a consultation |
| ServiceRecommendation.RationaleShape | lib/service-recommendation.ts:275-305 | the joined rationale starts with the bucket phrase and mentions funding for a free service |
| ServiceRecommendation.DeterminePriority | lib/service-recommendation.ts:307-311 | high iff the score is at least 80, low iff below 60 |
| ServiceRecommendation.GenerateCta | lib/service-recommendation.ts:313-341 | products link to their info page, other services to their booking page first, `#` when neither is set; the link is never empty |
| ServiceRecommendation.Candidates | lib/service-recommendation.ts:353-370 | every collected recommendation is a listed service with a positive score, built by the recommendation rules |
| ServiceRecommendation.Recommend | lib/service-recommendation.ts:343-376 | the loop, sort and cut compute the recommendation list |
| ServiceRecommendation.RecommendationsAreStrong | lib/service-recommendation.ts:343-376 | the five best candidates, or all when fewer: exactly min(5, number of candidates), best first, none left out scoring higher than one kept, each an eligible listed service scored 60 to 100, so none is of low priority |
| ServiceRecommendation.TopFive | lib/service-recommendation.ts:372-375 | sorting by score and cutting to five keeps min(5, n) recommendations, none left out scoring higher than one kept |
| ServiceRecommendation.EligibleIsCandidate | lib/service-recommendation.ts:353-370 | every eligible service is collected |
| ServiceRecommendation.FindService | lib/service-recommendation.ts:379 | `find` gives the first service with the id (no earlier service has it), or none when no service has it |
| ServiceRecommendation.FindEach | lib/service-recommendation.ts:379 | in a list with distinct ids, `find` by any listed service's id gives back that service |
| ServiceRecommendation.GetServiceById | lib/service-recommendation.ts:378-380 | the first catalogue service with the id, or none when no catalogue service has it |
| ServiceRecommendation.GetAllServices | lib/service-recommendation.ts:382-384 | the seven catalogue services |
| ServiceRecommendation.AllServicesListed | lib/service-recommendation.ts:378-384 | the listed services carry the seven catalogue ids in order, no two alike, and looking up each service's id gives back that service |
| ServiceRecommendation.GetServicesByType | lib/service-recommendation.ts:386-388 | exactly the catalogue services of that type |
| ServiceRecommendation.GetServicesByCategory | lib/service-recommendation.ts:390-392 | exactly the catalogue services of that category |
| ServiceRecommendation.ExampleStudioIneligible | scripts/test-service-recommendation.js:80-85 | with readiness 2 the AI Studio Program is not recommended |
| ServiceRecommendation.ExampleConsultation | scripts/test-service-recommendation.js:80-85 | the one-on-one consultation scores 85 for the example, a high priority |
| Chunker.ZerosParse | scripts/chunk-documents.ts:55 | a run of padding zeros is all digits and reads as 0 |
| Chunker.LeadingZerosParse | scripts/chunk-documents.ts:55 | left padding with zeros does not change the number a digit string reads as |
| Chunker.NatToStringShort | scripts/chunk-documents.ts:55 | an index under 1000 prints in at most three digits, so padding brings it to exactly three |
| Chunker.ChunkIdIndex | scripts/chunk-documents.ts:54-56 | a chunk id is the document id, then `_chunk_`, then digits that read back as the chunk index; below 1000 the suffix is exactly ten characters |
| Chunker.GenerateChunkId | scripts/chunk-documents.ts:54-56 | a chunk id starts with the document id and `_chunk_` and has at least three digits after it |
| Chunker.ChunkIdsDistinct | scripts/chunk-documents.ts:54-56 | two different indexes of one document never share a chunk id |
| Chunker.LastSlash | scripts/chunk-documents.ts:58-62 | the last separator of `x/y` with a slash-free `y` is the one after `x` |
| Chunker.NoSlash | scripts/chunk-documents.ts:58-62 | a slash-free path has no separator |
| Chunker.StripNothing | scripts/chunk-documents.ts:58-62 | a path not ending in a slash loses nothing to trailing-slash removal |
| Chunker.DirNameOfFile | scripts/chunk-documents.ts:60 | the directory name of `dir/file` is `dir` |
| Chunker.BaseNameOfDirectory | scripts/chunk-documents.ts:60 | the base name of a path whose last segment is `directory` is `directory` |
| Chunker.FileStemOfFile | scripts/chunk-documents.ts:59 | the base name of `dir/name.md` without its `.md` extension is `name` |
| Chunker.ExtractDocIdOfLayout | scripts/chunk-documents.ts:58-62 | a knowledge-base file `…/directory/name.md` gets the document id `directory_name` |
| Chunker.NextBreak | scripts/chunk-documents.ts:113 | the next sentence break at or after a position: every position before it is no break, and it is a break unless it is the end |
| Chunker.SplitSentences | scripts/chunk-documents.ts:113 | splitting at sentence ends always yields at least one piece, as `split` does |
| Chunker.PiecesOkCons | scripts/chunk-documents.ts:113 | adding a break-free piece that ends a sentence in front of well-formed pieces keeps them well formed |
| Chunker.PrefixNoBreak | scripts/chunk-documents.ts:113 | the text before the first break contains no break |
| Chunker.SplitSentencesCons | scripts/chunk-documents.ts:113 | the split is the text up to the first break followed by the split of the rest after its whitespace |
| Chunker.PiecesStep | scripts/chunk-documents.ts:113 | one step of the induction that the split pieces are well formed |
| Chunker.SentencePieces | scripts/chunk-documents.ts:113 | every split piece but the last ends with `.`, `!` or `?`, and no piece holds a break |
| Chunker.TrimStartOneSpace | scripts/chunk-documents.ts:113 | trimming the start removes a single space before a non-space |
| Chunker.SingleSpacedSuffix | scripts/chunk-documents.ts:113 | a suffix of single-spaced text is single spaced |
| Chunker.TrimAfterSpace | scripts/chunk-documents.ts:113 | the text from a lone space, trimmed, is the text after it |
| Chunker.JoinAtSpace | scripts/chunk-documents.ts:113-119 | joining the head and the rest with spaces restores text split at a space |
| Chunker.BreakIsSpace | scripts/chunk-documents.ts:113 | in single-spaced text a break is one space |
| Chunker.SplitAtSpace | scripts/chunk-documents.ts:113 | at a single-space break the split continues right after the space |
| Chunker.JoinStep | scripts/chunk-documents.ts:113-119 | one step of the induction that joining the split pieces restores the text |
| Chunker.SentencesJoin | scripts/chunk-documents.ts:113-126 | in single-spaced text the sentence pieces joined by single spaces give back the text |
| Chunker.Texts | scripts/chunk-documents.ts:92-205 | one trimmed text per emitted chunk |
| Chunker.TextsSnoc | scripts/chunk-documents.ts:107 | emitting one more chunk adds its trimmed text at the end |
| Chunker.SentencesSnoc | scripts/chunk-documents.ts:117-136 | the sentence loop over one more sentence is one more step |
| Chunker.ChunksSnoc | scripts/chunk-documents.ts:99-173 | the chunk loop over one more chunk is one more step |
| Chunker.PushSubstantial | scripts/chunk-documents.ts:106-110 | finalising a chunk of at least 300 tokens keeps every emitted chunk substantial |
| Chunker.SettleSubstantial | scripts/chunk-documents.ts:131-135 | finalising on reaching the target range keeps every emitted chunk substantial |
| Chunker.AddSentenceSubstantial | scripts/chunk-documents.ts:121-128 | adding a sentence keeps every emitted chunk substantial |
| Chunker.SentencesSubstantial | scripts/chunk-documents.ts:117-136 | the sentence loops only emit chunks of at least 300 tokens |
| Chunker.ChunkStepSubstantial | scripts/chunk-documents.ts:100-172 | one step over a splitter chunk only emits substantial chunks |
| Chunker.ChunksSubstantial | scripts/chunk-documents.ts:99-173 | the main loop only emits chunks of at least 300 tokens |
| Chunker.OptimizeSubstantial | scripts/chunk-documents.ts:92-205 | every chunk the optimiser emits counted at least 300 tokens when it was emitted |
| Chunker.SentencesNeverCarryTarget | scripts/chunk-documents.ts:117-142 | after the sentence loop the carried text is never in the 480 to 520 range |
| Chunker.ChunksNeverCarryTarget | scripts/chunk-documents.ts:99-173 | after the main loop the carried text is never in the 480 to 520 range |
| Chunker.ChunksInTarget | scripts/chunk-documents.ts:146-172 | when every splitter chunk is already in range, each is emitted on its own and nothing is carried |
| Chunker.OptimizeInTarget | scripts/chunk-documents.ts:92-205 | when every splitter chunk is in range the optimiser returns them trimmed, in order |
| Chunker.ShortDocumentDropped | scripts/chunk-documents.ts:146-176 | a document that is one chunk of under 300 tokens yields no chunk at all |
| Chunker.SplitLarge | scripts/chunk-documents.ts:113-142 | the sentence loop computes exactly the specification's sentence fold |
| Chunker.ProcessChunk | scripts/chunk-documents.ts:100-172 | the loop body for one splitter chunk computes exactly one specification step |
| Chunker.OptimizeChunks | scripts/chunk-documents.ts:92-205 | the optimiser returns the trimmed texts of the specification's emitted chunks |
| Chunker.ChunkDocument | scripts/chunk-documents.ts:64-90 | one record per optimised chunk with its index, its padded id, the document id, the trimmed text, its token count, the industry, the title and the `smec-ai-kb://` URL; all ids differ |
| Chunker.CountInTarget | scripts/chunk-documents.ts:287 | the number in the target range is at most the number of chunks |
| Chunker.CountInTargetAll | scripts/chunk-documents.ts:287-288 | all chunks are counted in range exactly when every token count is between 480 and 520 |
| Chunker.MinOf | scripts/chunk-documents.ts:283 | the minimum is one of the counts and no count is below it |
| Chunker.MaxOf | scripts/chunk-documents.ts:284 | the maximum is one of the counts and no count is above it |
| Chunker.NoOversizedMax | scripts/chunk-documents.ts:284-294 | no chunk is oversized exactly when the maximum is at most 520 |
| Chunker.InTargetNotOversized | scripts/chunk-documents.ts:287-294 | when every chunk is in range none is oversized |
| Chunker.RoundHalf | scripts/chunk-documents.ts:306 | `Math.round` of a half: halves round up |
| Chunker.Ascending | scripts/chunk-documents.ts:303 | the numeric sort returns a permutation of the counts in ascending order |
| Chunker.MedianBounds | scripts/chunk-documents.ts:302-308 | the median of no counts is None, the source's NaN; otherwise it lies between the minimum and the maximum, and for an odd number of counts it is one of them |
| Chunker.AscendingUnique | scripts/chunk-documents.ts:303 | two ascending orders of the same multiset are equal |
| Chunker.TailMultiset | scripts/chunk-documents.ts:303 | dropping the head removes one occurrence of it |
| Chunker.HeadIsLeast | scripts/chunk-documents.ts:303 | the head of an ascending sequence is at most any of its elements |
| Chunker.MedianOrderFree | scripts/chunk-documents.ts:302-308 | the median does not depend on the order of the counts |
| Evaluation.MentionsAnyIff | scripts/evaluate-retrieval-performance.ts:234-237 | a document is relevant exactly when its lower-cased content and title contain some lower-cased expected topic |
| Evaluation.RelevantCount | scripts/evaluate-retrieval-performance.ts:231-239 | the relevant count never exceeds the documents counted |
| Evaluation.RelevantCountExtremes | scripts/evaluate-retrieval-performance.ts:231-239 | the count is all the documents exactly when each is relevant, and zero exactly when none is |
| Evaluation.RatioFacts | scripts/evaluate-retrieval-performance.ts:241-258 | a count over a larger total lies in 0 to 1, is 1 only for the whole and 0 only for none |
| Evaluation.CalculatePrecisionAtK | scripts/evaluate-retrieval-performance.ts:223-242 | the counting loop over the first `k` results computes the precision at `k` |
| Evaluation.PrecisionBounds | scripts/evaluate-retrieval-performance.ts:223-242 | precision lies in 0 to 1; it is 1 exactly when there are at least `k` results and the first `k` are all relevant, below 1 when fewer than `k` came back, and 0 exactly when no results, `k` of 0 or no relevant result among the first `k` |
| Evaluation.CoveredCount | scripts/evaluate-retrieval-performance.ts:254-256 | no more topics are covered than are expected |
| Evaluation.TopicCoverage | scripts/evaluate-retrieval-performance.ts:244-259 | coverage lies in 0 to 1 |
| Evaluation.CoveredCountAll | scripts/evaluate-retrieval-performance.ts:254-256 | every topic is covered exactly when the joined content mentions each |
| Evaluation.CoveredCountPositive | scripts/evaluate-retrieval-performance.ts:254-256 | one mentioned topic makes the covered count positive |
| Evaluation.CoverageFull | scripts/evaluate-retrieval-performance.ts:244-259 | coverage is 1 exactly when the joined content mentions every expected topic, which includes the case of no topics |
| Evaluation.ResultTopicCovered | scripts/evaluate-retrieval-performance.ts:250-252 | a topic one result mentions is mentioned by the joined content of all results |
| Evaluation.PrecisionImpliesCoverage | scripts/evaluate-retrieval-performance.ts:223-259 | a positive precision implies a positive topic coverage |
| Evaluation.SumAtLeast | scripts/evaluate-retrieval-performance.ts:265 | a sum of terms each at least `lo` is at least `n * lo` |
| Evaluation.SumAtMost | scripts/evaluate-retrieval-performance.ts:265 | a sum of terms each at most `hi` is at most `n * hi` |
| Evaluation.SumBelow | scripts/evaluate-retrieval-performance.ts:265 | a non-empty sum of terms each below `hi` is below `n * hi` |
| Evaluation.DivideBound | scripts/evaluate-retrieval-performance.ts:265 | dividing by a positive count keeps the bounds on a sum as bounds on its mean |
| Evaluation.Scores | scripts/evaluate-retrieval-performance.ts:265 | the score of each result, in order |
| Evaluation.HallucinationRisk | scripts/evaluate-retrieval-performance.ts:261-272 | the risk lies in 0.1 to 1 and is 1 exactly when nothing came back |
| Evaluation.RiskMonotone | scripts/evaluate-retrieval-performance.ts:268-271 | a higher mean score never gives a higher risk |
| Evaluation.RiskOfUniformScores | scripts/evaluate-retrieval-performance.ts:265-271 | results all scoring at least 0.7 give risk 0.1; all below 0.3 give 0.8 |
| Evaluation.EvaluateQuery | scripts/evaluate-retrieval-performance.ts:274-335 | the evaluation of one query is the record of its retrieval outcome and latency, with the zeroed failure record when retrieval throws |
| Evaluation.PassedMeansEvidence | scripts/evaluate-retrieval-performance.ts:296-333 | a passing query took at most 1000 ms, scored at least its minimum, had two relevant documents among its first three and covered some topic; a thrown retrieval never passes |
| Evaluation.RecordInvariants | scripts/evaluate-retrieval-performance.ts:286-333 | every record has coverage and risk in 0 to 1, its latency, and passes exactly when retrieval succeeded and the four pass criteria hold |
| Evaluation.Average | scripts/evaluate-retrieval-performance.ts:361-365 | a mean exists exactly when there are results; with none it is NaN in the source |
| Evaluation.AverageBounds | scripts/evaluate-retrieval-performance.ts:361-365 | the mean of values in a range lies in that range |
| Evaluation.GradeMonotone | scripts/evaluate-retrieval-performance.ts:382-387 | a higher pass rate and a lower mean latency never give a worse grade |
| Evaluation.GradeThresholds | scripts/evaluate-retrieval-performance.ts:382-387 | the grade is D or better exactly when the pass rate is at least 0.6; A needs 0.9 and 300 ms; C or better needs 0.7 and 800 ms; a NaN pass rate gives F |
| Evaluation.Recommendations | scripts/evaluate-retrieval-performance.ts:389-403 | the recommendation loop returns exactly the warranted advice |
| Evaluation.KeepMembers | scripts/evaluate-retrieval-performance.ts:389-403 | a recommendation is kept exactly when it is listed and its threshold is crossed |
| Evaluation.KeepOrdered | scripts/evaluate-retrieval-performance.ts:389-403 | filtering keeps the listing order |
| Evaluation.AdviseExactly | scripts/evaluate-retrieval-performance.ts:389-403 | the recommendations are exactly the warranted ones, in the source's order |
| Evaluation.NoAdviceMeansHealthy | scripts/evaluate-retrieval-performance.ts:389-403 | no recommendation means latency at most 500 ms, precision at 3 at least 0.7, coverage at least 0.6 and a pass rate at least 0.8 |
| Evaluation.Latencies | scripts/evaluate-retrieval-performance.ts:361 | the latency of each result, in order |
| Evaluation.Precisions3 | scripts/evaluate-retrieval-performance.ts:362 | the precision at 3 of each result, in order |
| Evaluation.Precisions5 | scripts/evaluate-retrieval-performance.ts:363 | the precision at 5 of each result, in order |
| Evaluation.Coverages | scripts/evaluate-retrieval-performance.ts:364 | the topic coverage of each result, in order |
| Evaluation.PassCount | scripts/evaluate-retrieval-performance.ts:365 | no more results pass than exist |
| Evaluation.PassCountAll | scripts/evaluate-retrieval-performance.ts:365 | all results pass exactly when each has passed |
| Evaluation.SummaryBounds | scripts/evaluate-retrieval-performance.ts:359-403 | the mean precisions, the mean coverage and the pass rate lie in 0 to 1; the pass rate is 1 exactly when every query passed; with no queries the means are NaN and the grade is F |
| Evaluation.RunFullEvaluation | scripts/evaluate-retrieval-performance.ts:337-403 | one record per query, in order, each the evaluation of that query, and the summary of those records |
| Evaluation.RunSummaryBounds | scripts/evaluate-retrieval-performance.ts:337-365 | the summary of a run has its mean precision and coverage in 0 to 1 |

## Left out

- Fidelity notes:
  - Strings are sequences of Unicode scalar values. JavaScript's `.length` counts UTF-16 code units, so the model's length caps differ from the source's for text outside the Basic Multilingual Plane.
  - `toLowerCase` is written as ASCII case folding (`Text.Lower`). Letters outside A–Z, such as `É` or `Σ`, keep their case in the model where JavaScript would fold them. This touches every lower-casing comparison: the namespace lookup, the evaluation's relevance test, the goal alignment of the opportunity scores, the file-extension checks and the SQL keyword guards.
  - JavaScript numbers become exact integers or reals. There is no floating-point rounding, no overflow and no NaN; a mean over no items is `None` where the source computes NaN. The opportunity composite is kept as an exact integer in hundredths.
  - The source's regular expressions are written as hand-made character predicates. The tag and markup strippers of `sanitizeHtml` (lib/sanitize.ts) are passed in as a parameter.
- Outside effects become parameters:
  - `Date.now()` becomes `now` parameters. Where the source reads the clock twice in one operation, the second reading is a separate `nowAfter` (lib/rate-limiter.ts).
  - `Math.random()` becomes a boolean that says whether the 1% sweep runs (lib/rate-limiter.ts:64,70). `crypto.randomUUID()` becomes an alert-id parameter (lib/security-monitor.ts).
  - The `Promise.race` timeout becomes an elapsed duration compared with the timeout; a tie counts as a timeout (lib/optimized-knowledge-base-retrieval.ts:80-98).
  - The two clock readings of `healthCheck` (lib/optimized-knowledge-base-retrieval.ts:224, 228) become the fast search's duration plus an `overhead` parameter: no time on a cache hit, the elapsed retrieval time capped at the timeout on a miss.
  - The `setInterval` sweeps are left out; `CleanupCache` and `Cleanup` model one sweep each.
- OpenAI and Pinecone calls become oracle values: the summary completion, the embedding and namespace query results, and the expansion completion. Left out:
  - `createChatCompletion` and the p-limit concurrency cap (lib/llm-orchestration.ts:10-14, 252-271);
  - `getAvailableIndustries` and `getRetrievalStats` (lib/knowledge-base-retrieval.ts:94-104, 404-420);
  - the never-written `embeddingCache` as a store;
  - `warmupCache` (lib/optimized-knowledge-base-retrieval.ts:180-200), which only awaits other calls with pauses.
- Redis plumbing (lib/rate-limiter.ts:6-19, 98-120) becomes the `RedisOutcome` oracle. It covers three cases: not configured, a transaction run on the key's sorted-set entries, and a failure. The transaction's counting rule is `RedisVerdict`; the connection, the `zAdd` of the current request and the key's expiry are not modelled.
- Databases are left out:
  - the Neon and Postgres execution and query logging in `SecureDatabase` (lib/secure-db.ts:59-146 besides the splitting, 266-272);
  - the module-level client;
  - the service catalogue sync and load (lib/service-recommendation.ts:395-473).
- Other operations left out:
  - `generateRationale` of the opportunity assessment (lib/ai-opportunity-assessment.ts:233-278) is a language-model call; `assess` is modelled without the rationale text.
  - `listSafe`, and the file reads and writes behind `readSafe`/`writeSafe` (lib/safe-fs.ts:67-228), are file-system I/O. Only their checks before any I/O are modelled.
  - `sanitizeUrl` (lib/sanitize.ts:143-163) depends on the WHATWG URL parser, which is not part of this model.
  - `sendAlert` (lib/security-monitor.ts:187-211) and all console logging only produce output.
  - The `SecurityEvents` convenience wrappers (lib/security-monitor.ts:295-348) only fill in fields before `logSecurityEvent`.
- Libraries become abstract functions:
  - the tiktoken token counter and the LangChain splitter (scripts/chunk-documents.ts:1-2, 39-52) are parameters of the chunker;
  - `Buffer` base64 in the client identifier (lib/rate-limit-middleware.ts:54) is a parameter;
  - node's `path` functions (lib/safe-fs.ts:2, scripts/chunk-documents.ts:4) are written out for POSIX paths only. Windows separators and drive letters are not modelled, and the process's working directory is a parameter.
- Chunker script: `processAllDocuments`, `saveChunks`, the timestamp and the per-industry breakdown of `generateStatistics` (scripts/chunk-documents.ts:207-259, 263-277) are file I/O and grouping for display. Only the counts, the extremes, the number of chunks inside the target range and the median are modelled; the percentage printed from that number is not computed.
- Evaluation script: the query catalogue, the per-industry breakdown, `saveEvaluationResults` and the console report (scripts/evaluate-retrieval-performance.ts:20-221, 367-380, 405 onward) are left out. The retriever and the measured latency are parameters.
- KnowledgeBaseRetrieval.MapIndustryToNamespace: models the corrected own-property lookup (first row of Findings), not line 87's plain-object lookup, which also matches inherited names such as `constructor`; `MapIndustryToNamespaceAsWritten` models the latter. Every retrieval operation below uses the corrected lookup.
- KnowledgeBaseRetrieval.Queries: takes the namespace from the corrected lookup, not line 87's. Its `topK` is a natural number, so the negative values the source would pass on to Pinecone are not represented.
- KnowledgeBaseRetrieval.GetRelevantDocs: searches the namespace of the corrected lookup, not line 87's. It drops the `filter` option (lib/knowledge-base-retrieval.ts:118, 140, 171), a metadata filter handed to Pinecone whose matching rules are Pinecone's. `topK` and `minScore` are a natural number and a real; a negative `topK` is not represented.
- KnowledgeBaseRetrieval.SearchAcrossIndustries: searches the namespaces of the corrected lookup, drops the `filter` option and takes `topK` as a natural number, as `GetRelevantDocs` does.
- KnowledgeBaseRetrieval.SearchAcrossShape: states the cross-industry result under the same three restrictions.
- KnowledgeBaseRetrieval.GetRelatedDocuments: fetches the document from the namespace of the corrected lookup and searches with `GetRelevantDocs`, under its restrictions.
- KnowledgeBaseRetrieval.ExpandedSearch: falls back through the corrected `Fallback` (second row of Findings), which searches the caller's namespace with the caller's query, not line 360's call with the two swapped; `FallbackAsWritten` models the line as written.
- KnowledgeBaseRetrieval.ExpandedSearchSpec: the specification of `ExpandedSearch`, with the same corrected fallback.
- OptimizedRetrieval.CacheHit: looks the entry up under the structured `CacheKey` (third row of Findings), not line 51's colon-joined text. Two requests whose texts collide share an entry in the source and not in the model; `KeyText` models the text.
- OptimizedRetrieval.BatchStep: uses the structured key as `CacheHit` does.
- OptimizedRetrieval.BatchRun: uses the structured key. The requests of `Promise.all` (lib/optimized-knowledge-base-retrieval.ts:160-165) run concurrently and store into the cache in completion order; the model completes them one by one in input order, each checking the cache as it was at the start.
- OptimizedRetrieval.OptimizedKnowledgeBaseRetrieval.GetRelevantDocs: reads and writes the result cache under the structured key.
- OptimizedRetrieval.OptimizedKnowledgeBaseRetrieval.FastSearch: goes through the structured-key cache.
- OptimizedRetrieval.OptimizedKnowledgeBaseRetrieval.ComprehensiveSearch: goes through the structured-key cache.
- OptimizedRetrieval.OptimizedKnowledgeBaseRetrieval.BatchSearch: uses the structured key and the input-order completion of `BatchRun`.
- OptimizedRetrieval.OptimizedKnowledgeBaseRetrieval.BatchOne: goes through the structured-key cache.
- Sanitize.SanitizeObject: an assignment to `__proto__` creates no own entry, as in the source, but the prototype that an object value installs through the setter is not modelled. The key and lookup lemmas speak of own entries only.
- SecureDb.SanitizeParams: the same for `sanitizeParams`. A nested object under `__proto__` is still sanitised, so a refused value inside it still fails the call, as it does in the source.
- Chunker.MinOf: requires at least one count. With no chunks, `Math.min()` and `Math.max()` give `Infinity` and `-Infinity`, which the model's integers cannot represent, so the extremes of an empty run are not modelled.
- Chunker.MaxOf: requires at least one count, for the same reason.
- SecurityMonitoring.TallyProperties: in the source `ipCounts` is a plain object (lib/security-monitor.ts:244-250). An IP text equal to an inherited name such as `constructor` starts from the inherited function and counts a string, and integer-like keys are listed first by `Object.entries`, which changes the order of equal counts. The model counts every IP text from zero and keeps first-seen order.
- SecurityMonitoring.TopIPs: ranks the tally of `TallyProperties`, so ties keep first-seen order rather than the object's key order.
- OpportunityAssessment.ReadinessScore: its contract states only the 0..5 range. The points table is in its body, and `BetterProfileNeverScoresLower` and the worked examples are its partners.
- OpportunityAssessment.ImpactScore: its contract states only the 0..5 range. The goal-alignment bonus is pinned down by `ExampleFarmGoalAligns`.
- OpportunityAssessment.ComplexityScore: its contract states only the 0..5 range. Its dependence on capacity feeds the monotonicity lemma.
- OpportunityAssessment.CostScore: its contract states only the 0..5 range. Its dependence on price is stated by `DearerNeverScoresHigher`.
- OpportunityAssessment.CostTier: its contract states the range and when the top tier applies. The lower tiers are pinned down by `TierFromWindows` and the two catalogue examples.

## Findings

| source | as written | input that shows it | evidently intended | confidence | as-written member | corrected member |
|---|---|---|---|---|---|---|
| lib/knowledge-base-retrieval.ts:87 | the alias table is a plain object indexed by the lower-cased label, so inherited `Object.prototype` members match | the industry label `Constructor` yields the `Object` constructor function as the namespace | only the table's own entries match; an unknown label falls back to itself | not executed | KnowledgeBaseRetrieval.ConstructorLabelIsNotANamespace | KnowledgeBaseRetrieval.NamespaceIdempotent |
| lib/knowledge-base-retrieval.ts:360 | the fallback of `expandedSearch` calls `getRelevantDocs(query, industry, …)`, with industry and query swapped | industry `agriculture` and query `drones`, once the expanded search throws: the swapped call searches a namespace named after the query for the text `agriculture` and finds nothing, although the agriculture namespace holds a drone document | search the caller's industry namespace with the caller's query | not executed | KnowledgeBaseRetrieval.SwappedFallbackLosesResults | KnowledgeBaseRetrieval.FallbackFindsDocument |
| lib/optimized-knowledge-base-retrieval.ts:51 | the cache key joins industry, query and options with `:` and no escaping | industry `retail:food` with query `waste`, and industry `retail` with query `food:waste`, share one key, so one is served the other's cached results | distinct requests get distinct keys | not executed | OptimizedRetrieval.KeyTextCollides | OptimizedRetrieval.KeyOfInjective |
| lib/safe-fs.ts:272-280 | the magic-number table is a plain object indexed by the extension, so an inherited member is taken for a signature list | the expected extension `constructor` finds the inherited `Object` constructor, and calling `.some` on it throws instead of returning false | an extension with no own table entry is not a binary type; the content check either applies the table or trusts a listed text type | not executed | SafeFs.ConstructorExtensionThrows | SafeFs.VerifiedTypesAreAllowed |
