# Layered `.env` loading with a deployment profile — a Dafny model

This project models the core of the `backpack` crate (`env_rs`): the single
entry point `init`, which

1. resolves the deployment profile `AppEnv` (`Dev` or `Prod`) from the
   variable `APP_ENV`: unset means `Dev`, `"dev"` and `"prod"` select a
   profile, anything else is an `Invalid APP_ENV` error;
2. builds the candidate list `.env`, `.env.<profile>`, `.env.local`;
3. walks that list in order, skipping any file that cannot be opened, and
   writes every `(key, value)` item of an opened file into the process
   environment, overwriting earlier values; the first item the line parser
   reports as an error ends the call with that error, keeping the writes
   already made.

The environment is a `map<string, string>` passed in and returned. The file
system and the `dotenvy` line parser are one parameter,
`open: string -> Source`. It gives `None` for a file that cannot be opened.
Otherwise it gives the sequence of items the parser yields for that file,
each either `Ok((key, value))` or `Err(LineError(..))`. Reading `APP_ENV` is
a `VarLookup` parameter: `NotPresent`, `NotUnicode` or `Present(s)`.

Modules:

- `Results` (`results.dfy`): `Option`, `Result`, `OrElse`.
- `Profile` (`profile.dfy`): `AppEnv`, `Display`, `FromStr` and the
  error text.
- `EnvMap` (`env_map.dfy`): the environment, the in-order writes `Assign`,
  and the reference reading `LastValue` ("the last pair that names the key").
- `Cascade` (`cascade.dfy`): profile resolution, the candidate list, and the
  load as a fold. `ApplyItems` loads one file, `LoadFiles` loads the list, and
  `Init` is the whole call. Their contracts say the files act as one flat item
  sequence, applied up to the first parse error.
- `CascadeLaws` (`cascade_laws.dfy`): what follows for `init`: the override
  law, independence, the no-files case, and that later files are never read
  after a failure.
- `Loader` (`loader.dfy`): `RunInit` and `ApplyFile`, the two nested loops as
  the source writes them, proved to give the same result as `Init`.
- `Scenarios` (`scenarios.dfy`): the source's cascade tests as facts about
  concrete files.

The model follows what the code does in three places where a reader could
expect something narrower (the comment at backpack/src/lib.rs:17, for one,
speaks only of a file that is "not found"):

- Any failure to open a file skips it, not only a missing file
  (`if let Ok`, backpack/src/lib.rs:19).
- An `APP_ENV` that is set but not valid Unicode is treated like an unset
  one, so the profile is `Dev` (`env::var(..).ok()`, backpack/src/lib.rs:5-6).
- Every error item the parser's iterator yields aborts the call, read
  errors included, not only malformed lines (backpack/src/lib.rs:23).

## Model

| member | source | states |
|---|---|---|
| Profile.Display | backpack/src/lib.rs:42-49 | `Dev` is written `"dev"` and `Prod` is written `"prod"`: the text is one of those two tokens, and it is `"dev"` exactly for `Dev` |
| Profile.InvalidMessage | backpack/src/lib.rs:57 | The error text is `Invalid APP_ENV: `, then the rejected value, then `. Must be 'dev' or 'prod'`, which names the two accepted values |
| Profile.FromStr | backpack/src/lib.rs:51-60 | Parsing succeeds exactly for `"dev"` and `"prod"`; a success yields the profile whose text form is the input; every other input fails with the message naming it |
| Profile.DisplayRoundTrip | backpack/src/lib.rs:42-60 | For every profile `p`, parsing its text form gives back `Ok(p)` |
| Profile.FromStrInverse | backpack/src/lib.rs:42-60 | `FromStr(s) == Ok(p)` holds exactly when `s` is the text form of `p` (both directions of the bijection) |
| Profile.DisplayInjective | backpack/src/lib.rs:42-49 | Distinct profiles have distinct text forms |
| Profile.FromStrRejectsOtherNames | backpack/src/lib.rs:53-58 | `"Dev"`, `"PROD"`, `"staging"` and the empty string are rejected; the messages for `"Dev"` and `"staging"` are exactly the ones the error format produces |
| EnvMap.Assign | backpack/src/lib.rs:22-28 | Writing the pairs in order leaves exactly the prior keys plus the keys written; no key is removed |
| EnvMap.LastValue | backpack/src/lib.rs:18-28 | The reference reading of a run of writes: a key has a value iff some pair names it, and that value is the one of the pair after which no pair names the key |
| EnvMap.AssignAppend | backpack/src/lib.rs:18-31 | Writing `a` and then `b` equals writing `a + b` |
| EnvMap.LastValueAppend | backpack/src/lib.rs:18-31 | In `a + b` the last write of a key comes from `b` if `b` writes it, from `a` otherwise |
| EnvMap.AssignLastWriteWins | backpack/src/lib.rs:26-28 | After the writes, a key holds the value of the last pair naming it; a key no pair names keeps its prior value or stays unset |
| EnvMap.AssignKeepsOtherKeys | backpack/src/lib.rs:26-28 | A key the writes never name is left exactly as it was |
| Cascade.ResolveProfile | backpack/src/lib.rs:5-9 | An unset or non-Unicode `APP_ENV` gives `Dev`; a set one fails iff it is neither `"dev"` nor `"prod"`, with the invalid-value message; a success matches the text of the variable |
| Cascade.Candidates | backpack/src/lib.rs:11-15 | Exactly three pairwise distinct names: `.env` first, `.env.local` last, and in the middle `.env.` followed by a suffix that parses back to the profile |
| Cascade.Pairs | backpack/src/lib.rs:22-27 | The pairs written are exactly the pairs of the `Ok` items; when every item parsed, they are those items' pairs in the same order |
| Cascade.OkPrefix | backpack/src/lib.rs:22-23 | The number of items a load applies: every item before it parsed, and the item at it, if any, is an error |
| Cascade.ApplyItems | backpack/src/lib.rs:22-28 | Loading one file writes exactly the items before the first error item; it fails iff there is such an item, and then reports that item's error |
| Cascade.ApplyItemsAppend | backpack/src/lib.rs:18-31 | Loading `a + b` is loading `a` and then, unless that failed, `b` from the resulting environment |
| Cascade.LoadFiles | backpack/src/lib.rs:18-31 | Walking the files, skipping the ones that could not be opened, gives the same result as loading the concatenation of the opened files' items |
| Cascade.Init | backpack/src/lib.rs:4-34 | An invalid `APP_ENV` fails with its message and the environment unchanged. Otherwise the environment holds exactly the writes of the cascade's items before the first error item, and `init` succeeds iff there is no error item; if there is one, it fails with that item's error |
| CascadeLaws.LoadFilesIgnoresLaterFiles | backpack/src/lib.rs:22-23 | Once a load has failed, appending more files changes neither the error nor the environment |
| CascadeLaws.LoadFilesNoneOpened | backpack/src/lib.rs:18-19 | When no file can be opened the load succeeds and the environment is unchanged |
| CascadeLaws.CascadeItemsInOrder | backpack/src/lib.rs:11-19 | The items `init` reads are the base file's, then the profile file's, then the local file's |
| CascadeLaws.InitDefaultsToDev | backpack/src/lib.rs:5-9 | `init` with `APP_ENV` unset or not Unicode behaves exactly as with `APP_ENV=dev` |
| CascadeLaws.InitRejectsInvalidProfile | backpack/src/lib.rs:5-9 | An unrecognised `APP_ENV` fails with the invalid-value message, the environment unchanged, whatever the files contain |
| CascadeLaws.InitNothingOpened | backpack/src/lib.rs:18-19 | With a valid profile and no candidate openable, `init` succeeds and changes nothing |
| CascadeLaws.InitOverride | backpack/src/lib.rs:18-28 | After a successful `init` each key holds the local file's last value for it, else the profile file's, else the base file's, else its prior value; no key is removed |
| CascadeLaws.InitIndependence | backpack/src/lib.rs:22-28 | A key that only one candidate file assigns ends up with that file's last value for it, whatever the other files hold |
| Loader.RunInit | backpack/src/lib.rs:4-34 | The loop over the candidates, with an early return on a failed file, returns the same outcome and environment as the fold `Init` |
| Loader.ApplyFile | backpack/src/lib.rs:22-29 | The loop over one file's items, returning at the first error item, gives the same outcome and environment as the fold `ApplyItems` |
| Scenarios.CascadeScenario | backpack/src/lib.rs:168-181 | With the test's three files and `APP_ENV` unset, VAR1, VAR2 and VAR3 take the base, dev and local values, and nothing else changes |
| Scenarios.ProdScenario | backpack/src/lib.rs:134-150 | With `APP_ENV=prod`, the base and production files are both applied |
| Scenarios.AbortScenario | backpack/src/lib.rs:22-23 | A malformed item in `.env.dev` fails the call; the `.env` write stays, the rest of `.env.dev` and all of `.env.local` are not applied |

## Left out

- The `dotenvy` line parser (quoting, comments, multi-line values, `=` inside values, empty values) is a foreign library. Its per-file output is the opaque item sequence that `open` returns, so the tests of those rules (backpack/src/lib.rs:223-270) have no counterpart here.
- Variable substitution in `dotenvy` (`$VAR` / `${VAR}`) reads the live environment. So the items a later file yields can depend on writes made by earlier files. The model takes each file's items as fixed, which is exact for files that use no substitution.
- The real file system, `env::var` and `env::set_var`, and the `unsafe` block are not modelled. The environment is a value threaded through the call. The only hazard of the `unsafe` block is concurrent access, which is outside this model.
- `env::set_var` can panic on a key that is empty or contains `=` or NUL, or on a value that contains NUL. That check lives in the standard library, not in the source, and the model treats every write as succeeding.
- `Box<dyn Error>` is modelled as the closed datatype `InitError`. Its text is kept only for the invalid-profile case.
- `tracing::debug!` logging (backpack/src/lib.rs:20, 24) is a side effect only.
- The test harness (`TestEnv`, `clear_env_vars`) and backpack/examples/dev-prod.rs hold no logic of the core: the first is working-directory setup, the second sets up logging and prints.
