# Warehouse session layer — a Dafny model

This project models the data-access layer of a dashboard application, `lib/snowflake.ts`. That layer:

- keeps one process-wide warehouse connection;
- builds that connection's options from environment variables, a TOML-like configuration file (`~/.snowflake/config.toml`), an optional mounted OAuth token file and built-in defaults;
- reconnects when the token rotates;
- runs SQL statements, retrying once on errors that indicate a lost or expired session.

The modules follow the source's structure:

- `Wrappers`: `Option` and `Result`.
- `JsText`: the JavaScript string primitives the code relies on.
  - the `\s` / `trim` whitespace set and the `\w` class;
  - `trim`, `indexOf` and `includes`;
  - `split('\n')` and ASCII `toUpperCase`;
  - the truthiness of `a || b`, where an empty string counts as absent.
- `TomlSection`: `parseTomlConnection`.
  - The line regex `^\s*(\w+)\s*=\s*"?([^"\n]+)"?\s*$` is modelled as a deterministic matcher (`MatchLine`).
  - Next to it is a declarative description of every way the regex can read a line (`LineShape`, `ValueShape`).
  - Completeness and soundness lemmas connect the two, so the result does not depend on how the regex engine backtracks.
- `Credentials`: `getSnowflakeConfig` and `getConfig`.
  - The environment, the configuration file's content and the token file's content are explicit inputs.
- `Driver`: the driver's handles, errors and call outcomes, as abstract data.
- `Session`: `getConnection` as an immutable state record with two transitions.
  - The record holds the handle (`connection`), the attempt in flight (`connectionPromise`), `cachedToken`, and `started`, the number of attempts started so far, which numbers each attempt.
  - `Enter` is the synchronous part of a call: reuse the handle, join the attempt in flight, or destroy the handle and start a new attempt.
  - `Settle` resolves an attempt with an outcome the driver chooses.
- `Retry`: `isRetryableError` and `query`.
  - `Query` is the recursion with its decreasing budget.
  - `RunQuery` is a loop proved equal to it.
  - The outcome of every driver call is given by a `world` function of the attempt number.

Some behaviour of the code is easy to misread. The model follows the code in each case:

- An empty token file selects user mode, because `if (token)` (line 82) treats `""` as false.
- `database` and `schema` come from the environment or the defaults only; they never read the configuration file (lines 77-78).
- In user mode `authenticator` comes from the configuration file or the default only; no environment variable overrides it (line 94).
- The retry path drops the handle without destroying it (line 159).
- A failed connect inside `query` is classified and retried like a failed execution, because `getConnection` runs inside the `try` (line 143).
- A caller joins the attempt in flight only when its token is absent or equals `cachedToken` (line 105; see Findings).

## Model

| member | source | states |
|---|---|---|
| JsText.LeadingSpaces | lib/snowflake.ts:36 | the count is the length of the longest prefix made of `\s` characters |
| JsText.WordRun | lib/snowflake.ts:36 | the count is the length of the longest prefix made of `\w` characters |
| JsText.Trim | lib/snowflake.ts:39 | `trim` returns the slice that remains once the maximal leading and trailing whitespace is removed; the result is empty or starts and ends with non-whitespace |
| JsText.TrimUnique | lib/snowflake.ts:39 | any way of writing a string as whitespace, then a core that starts and ends with non-whitespace, then whitespace, has that core as its trim |
| JsText.TrimPadded | lib/snowflake.ts:39 | padding a string with whitespace on either side does not change its trim |
| JsText.TrimSplit | lib/snowflake.ts:39 | every string is its trim with whitespace on either side |
| JsText.IndexFrom | lib/snowflake.ts:25 | `indexOf` returns the first position at or after the start where the pattern occurs, or none exactly when it occurs nowhere there |
| JsText.IncludesIff | lib/snowflake.ts:135-136 | `includes` holds exactly when the pattern occurs at some position |
| JsText.SplitLines | lib/snowflake.ts:34 | `split('\n')` yields at least one piece, and no piece contains a newline |
| JsText.JoinSplitLines | lib/snowflake.ts:34 | joining the pieces of `split('\n')` with newlines gives back the original text |
| JsText.SplitJoinLines | lib/snowflake.ts:34 | splitting newline-joined, newline-free lines gives back exactly those lines |
| JsText.ToUpper | lib/snowflake.ts:94 | the result has the same length, and each character is upper-cased (ASCII) |
| TomlSection.StripQuotesNoop | lib/snowflake.ts:39 | the quote-stripping `replace` removes nothing from a value that has no quote, and the trimmed capture never has one |
| TomlSection.ValueComplete | lib/snowflake.ts:36 | every way the regex can read the value part is accepted, and all readings trim to the same body |
| TomlSection.ValueSound | lib/snowflake.ts:36 | every newline-free value text the matcher accepts has a reading by the regex, and the result is that reading's trimmed body |
| TomlSection.LineComplete | lib/snowflake.ts:36-39 | every reading of a line by the entry regex is accepted, with that reading's key and trimmed value |
| TomlSection.LineSound | lib/snowflake.ts:36-39 | every newline-free line the matcher accepts has a reading by the entry regex that yields the same key and value |
| TomlSection.ReadingsAgree | lib/snowflake.ts:36-39 | two readings of the same line agree on the key and the trimmed value |
| TomlSection.AssignKeys | lib/snowflake.ts:35-41 | a key is in the result exactly when some matched entry assigns it; `__proto__` is never stored |
| TomlSection.AssignLast | lib/snowflake.ts:35-41 | the value stored for a key is the value of the last entry that assigns it |
| TomlSection.ParseLinesKeys | lib/snowflake.ts:34-41 | a key is in the result exactly when some line of the section defines it; lines that do not match are ignored |
| TomlSection.ParseLinesLast | lib/snowflake.ts:34-41 | a later line defining a key overrides all earlier ones |
| TomlSection.SectionEndFrom | lib/snowflake.ts:29-32 | the section ends at the first newline followed by optional whitespace and `[`, or at the end of the text when there is none |
| TomlSection.ParseTomlConnection | lib/snowflake.ts:24-26 | when the header `[connections.<name>]` does not occur, the result is empty |
| TomlSection.IndexOfFirst | lib/snowflake.ts:25 | the header is located at its first occurrence |
| TomlSection.SectionEndFirst | lib/snowflake.ts:29-32 | the section text stops at the first boundary |
| TomlSection.NoBracketNoBoundary | lib/snowflake.ts:29-32 | text without `[` is read to its end |
| TomlSection.ParseKeys | lib/snowflake.ts:22-43 | a key is in the parse result exactly when a line of the section text (after the first header, up to the next section) defines it |
| TomlSection.ParseLastWins | lib/snowflake.ts:34-41 | within the section, the last line defining a key gives its value |
| TomlSection.LaterSectionsIgnored | lib/snowflake.ts:28-32 | nothing after the `[` that closes the section affects the result, so keys from later sections never leak in |
| Credentials.FileSettings | lib/snowflake.ts:45-57 | a missing or unreadable configuration file gives empty settings |
| Credentials.FileSection | lib/snowflake.ts:48-51 | an existing file is parsed for the section named by `SNOWFLAKE_CONNECTION_NAME`, or `pm` when that variable is unset or empty |
| Credentials.GetConfig | lib/snowflake.ts:81-95 | token mode is chosen exactly when the token file's content is non-empty; it carries that token and the host variable, and has authenticator `oauth` exactly in that mode |
| Credentials.FieldPrecedence | lib/snowflake.ts:74-79 | account and warehouse are the first non-empty of the environment variable, then the file's value, then `pm` / `HLEVEL1`; database and schema are the environment variable, else `CUSTOMER_360_DB` / `ANALYTICS` |
| Credentials.UsernamePrecedence | lib/snowflake.ts:93 | in user mode the user name is the first non-empty of the environment variable, then the file's `user`, then `ujagtap` |
| Credentials.DatabaseIgnoresFile | lib/snowflake.ts:77-78 | database and schema are the same whatever the configuration file says |
| Credentials.AuthenticatorIgnoresEnv | lib/snowflake.ts:94 | two environments that select the same file section give the same authenticator, so it has no environment override |
| Credentials.AuthenticatorFromFile | lib/snowflake.ts:94 | in user mode a non-empty configured authenticator is used upper-cased, otherwise `EXTERNALBROWSER` |
| Credentials.QuotedLineEntry | lib/snowflake.ts:36-39 | a line `key = "value"` with a word key and a plain value reads as exactly that key and value |
| Credentials.ExampleParse | lib/snowflake.ts:22-43 | the file `[connections.pm]`, `account = "abc"`, `user = "bob"` parses to exactly those two settings |
| Credentials.ExampleFromFile | lib/snowflake.ts:71-96 | with no environment variables and no token, that file yields account `abc`, user `bob` and the default authenticator |
| Credentials.ExampleEnvOverrides | lib/snowflake.ts:75 | the account variable overrides the file's account |
| Session.Enter | lib/snowflake.ts:99-121 | a call reuses the handle exactly when one exists and its token is absent or equals the cached one; it joins the attempt in flight exactly when no handle exists and the same token condition holds; otherwise it destroys any handle and starts a fresh attempt with its token, leaving the rest of the state alone |
| Session.Settle | lib/snowflake.ts:115-129 | on success the handle and the attempt's token are stored; on failure the handle and token are unchanged; the in-flight marker is cleared on both paths |
| Session.SettledHandleReused | lib/snowflake.ts:101-103 | once an attempt succeeds, calls reading no token or its token reuse the new handle |
| Session.RotationReconnects | lib/snowflake.ts:109-122 | a new non-empty token destroys the handle and starts an attempt; once it succeeds, that handle serves the new token and callers without one |
| Session.FailureLeavesReconnectable | lib/snowflake.ts:125-129 | after a failed attempt, the next call starts a fresh attempt and never joins the failed one |
| Session.NewTokenWhileInFlight | lib/snowflake.ts:105-107 | a non-empty token other than the cached one starts a second attempt while another is in flight |
| Session.ReuseWhileCurrent | lib/snowflake.ts:101-103 | while every token read is absent or equal to the cached one, every call reuses the same handle and the state never changes |
| Session.JoinWhileCurrent | lib/snowflake.ts:105-107 | with no handle and an attempt in flight, every call whose token is current joins that attempt |
| Session.CurrentTokensShareOneAttempt | lib/snowflake.ts:101-115 | of many calls with current tokens (for example with no token file) made while nothing exists, the first starts the only attempt and the others join it |
| Session.FreshTokensEachStart | lib/snowflake.ts:105-107 | as written, calls whose non-empty token differs from the cached one each start their own attempt, even when they carry the same token |
| Session.DuplicateFirstAttempt | lib/snowflake.ts:105-107 | as written, two calls with the same token right after startup start two connect attempts |
| Session.EnterIntended | lib/snowflake.ts:105-107 | corrected entry: a call joins the attempt in flight when its token is absent or equals that attempt's token; reuse and start are as written |
| Session.IntendedAgreesWhenIdle | lib/snowflake.ts:105-107 | with no attempt in flight, the corrected entry is the written one |
| Session.IntendedSingleFlight | lib/snowflake.ts:105-107 | with the corrected entry, many calls with the same token made while nothing exists share exactly one attempt |
| Retry.IsRetryable | lib/snowflake.ts:132-139 | an error is retryable exactly when its message contains `OAuth access token expired` or `terminated connection`, or its code is the number 407002 |
| Retry.RowsOf | lib/snowflake.ts:151 | an execution that hands back no rows yields the empty sequence; otherwise the rows it handed back |
| Retry.Once | lib/snowflake.ts:141-153 | one attempt succeeds only if the execution succeeds, and then returns its rows; a failure is the execution's or the connect's error; every execution runs the given statement |
| Retry.Query | lib/snowflake.ts:141-164 | between 1 and `max(retries, 0) + 1` attempts are made; every attempt but the last failed with a retryable error; the caller receives the last attempt's outcome; a retryable failure is surfaced only once the budget is spent; every execution runs the same statement |
| Retry.FirstOutcome | lib/snowflake.ts:142-154 | the first attempt is one pass through the `try` block on the caller's session state |
| Retry.DefaultAttempts | lib/snowflake.ts:141 | with the default budget a query makes at most two attempts |
| Retry.NonRetryableNotRetried | lib/snowflake.ts:156-163 | a success, or a failure that is not retryable, is returned after a single attempt |
| Retry.DroppedSessionRetried | lib/snowflake.ts:156-160 | when the cached handle fails with a retryable error and the budget is 1, the handle is dropped without being destroyed, exactly one fresh attempt is started, and the caller receives the retry's outcome, not the first failure |
| Retry.RetryDropsHandle | lib/snowflake.ts:156-160 | for any budget and any first entry, after a retryable failure with budget left the retry runs on the state with the handle cleared and sees the next attempt's world, never reuses the failed handle, and no `destroy` follows |
| Retry.NothingDestroyedWithoutHandle | lib/snowflake.ts:99-113 | a query entered with no cached handle, as every retry is, never calls `destroy` |
| Retry.RunQuery | lib/snowflake.ts:141-164 | the loop with a decreasing budget computes exactly what the recursive `query` does |

## Left out

- Filesystem access, `os.homedir`, `path.join` and `process.env` are not modelled. Their results are parameters: `Env`, the configuration file's content, and the token file's content (`None` when missing or unreadable).
- Logging (`console.log`, `console.warn`, `console.error`) and `snowflake.configure` are not modelled, because they have no effect on state or results.
- The driver calls `createConnection`, `connectAsync`, `execute` and `destroy` are not modelled. Their outcomes are inputs: `ConnectOutcome`, `ExecOutcome`, and an event in the trace for `destroy`, whose callback is ignored.
- Real asynchronous interleaving is not modelled.
  - `Settle` performs the attempt's completion and the starter's `finally` as one step.
  - Joiners receive the same outcome.
  - The sequence lemmas cover calls that enter before any attempt settles.
- `getOAuthToken` is read twice in one synchronous step (lines 99 and 81). Both reads are modelled as one token value.
- The options object is reduced to its fields.
  - `role` is parsed but never used by `getConfig`, so it is only a key in the parsed map.
  - The spread of `base` and the `host: undefined` key are not modelled.
- JsText.ToUpper: upper-cases ASCII letters only. The full Unicode case mapping of `toUpperCase` is not modelled.
- Retry.Query: the budget is an integer. A fractional `retries` (a JavaScript number) is not modelled.
- Retry.IsRetryable: the error is modelled as an object whose message is a string or absent. A thrown `null` or `undefined` never reaches the classifier, because `(err as Error).message` at line 157 throws a TypeError first. A non-string message would make the classifier's `includes` call throw. Neither case is modelled.
- The generic row type `T` is modelled as a map from column names to strings.
- The UI components and the API route handlers are not modelled: they only call `query`.

## Findings

| source | as written | input that shows it | evidently intended | confidence | as-written member | corrected member |
|---|---|---|---|---|---|---|
| lib/snowflake.ts:105 | the guard for joining the attempt in flight compares the caller's token with `cachedToken`, the token of the last successful handle | two calls that read the same non-empty token `t` right after startup (`cachedToken` is null, no handle): the second call fails the guard and starts a second connect attempt | a caller joins the attempt in flight when its token is absent or equals the token that attempt was started with, so only one attempt exists per token | not executed | Session.DuplicateFirstAttempt | Session.IntendedSingleFlight |

`Retry` enters through the written rule (`Session.Enter`), so a `query` that runs while another caller's attempt with the same new token is in flight starts a second attempt, as the code does. `Session.EnterIntended` is the corrected rule, and `Session.IntendedAgreesWhenIdle` shows that the two agree whenever no attempt is in flight.
