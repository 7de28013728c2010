# Onboardbase for VS Code: a verified model of its core

The Onboardbase extension for VS Code keeps an organisation's secrets in
Onboardbase and hands them to a developer's workspace. This project models
in Dafny the logic of the extension, with the editor, the network, the
file system and the cipher as inputs. The part it covers:

- **Secret text handling** (module `EnvParser`, `SecretSync`, `SecretCrypto`,
  `DateFormat`, `ShellRc`):
  - the `.env` parser, with its multi-line certificate blocks;
  - the deduplication of secrets by key;
  - the permission rule and decryption of `fetchRawSecrets`;
  - the exclude filter, the DELETE lookup and the outgoing batch of
    `uploadSecretsToOnboardbase`;
  - the merge-request secret;
  - the passphrase fallback of `encryptSecrets` and `decryptSecrets`;
  - `formatDate`;
  - the shell start-up file path.
- **The configuration store** (module `Config`): class `ConfigManager`.
  - Its in-memory `store`, RSA keys and auth host are fields.
  - The global YAML file `~/.onboardbase/.onboardbase.yaml`, the project
    file and the shell start-up files are fields too.
  - Each method read-modify-writes these fields.
- **The `setUp` command** (module `ProjectSetup`): the early exits, the
  member filters on projects and environments, and the `Employee` role gate.
- **The `init` command's sign-up slice** (module `Signup`): the user name,
  domain, team name and organisation name derived from the email.
- **`setUpProject`** (module `SetupHelper`): the project record written to
  `.onboardbase.yaml` and the `.gitignore` update, on a `Workspace` class.

Shared building blocks:

- `Common`: the JavaScript string and array operations the code relies on
  (`split`, `join`, `trim`, `includes`, `lastIndexOf`, `substring`,
  `slice`, `toUpperCase`, `filter`).
- `PosixPath`: `path.posix.join` and the base name of a path.
- `JsObjects`: a plain object used as a dictionary. It is a sequence of
  entries in insertion order, so `Object.keys` order is part of the model.

Parameters stand in for the inputs:

- The network, the VS Code UI, the clock and the machine id are
  parameters.
- AES is a pair of opaque functions in a `Cipher` value. `RoundTrips`
  states that decryption undoes encryption.
- Each GraphQL request becomes either its answer, passed as an input, or
  the value the code would send, returned as a result.

The model follows the code where the code does something other than what
its surroundings suggest:

- `uploadSecretsToOnboardbase` sends only the `parsedJSON` entries.
  `secretsToDelete` and `existingSecrets` are computed but never sent.
  Keys are upper-cased one by one, and nothing merges keys that differ
  only in case (`SecretSync.BatchKeepsCaseTwins`).
- The exclude filter compares keys exactly, case included.
- `removeDuplicateSecrete` is modelled, although no modelled file calls
  it.
- `decryptSecrets` yields `undefined`, not an error, when CryptoJS throws.
- When no editor is open, `checkSetupFile` returns the promise of an
  information message. `await` turns it into `undefined`, so `setUp`
  shows "Please open a folder or workspace" and then carries on with the
  project request.
- The certificate filter also tests `x.key`, which a collected block never
  has. Only the value test decides, and it never removes a block
  (`EnvParser.CertFilterKeepsAll`).
- `YAML.stringify` leaves out keys whose value is `undefined`. Writing an
  `undefined` field therefore removes it from the file (`Config.SetField`).

## Model

| member | source | states |
|---|---|---|
| JsObjects.Put | src/utils/index.ts:145 | `obj[k] = v`: afterwards `k` reads `v` and every other key reads as before; an existing key's entry is replaced in place and nothing else in the sequence changes; a new key is appended last; distinct keys stay distinct |
| JsObjects.PutAllGet | src/utils/index.ts:138-157 | after a run of assignments, a key holds the value of its last assignment, or its earlier value when it was never assigned |
| JsObjects.PutAllRebuilds | src/utils/index.ts:254 | assigning the entries of an object with distinct keys into an empty object rebuilds that object, order included |
| JsObjects.PutAllDistinct | src/utils/index.ts:145 | assignments never create a second entry for a key |
| SecretCrypto.Passphrase | src/utils/index.ts:38-41 | `passphrase \|\| machineId`: a non-empty passphrase is used as given; an absent or empty one falls back to the machine id |
| SecretCrypto.DecryptSecrets | src/utils/index.ts:72-90 | the plaintext when AES decryption returns, `undefined` exactly when it throws |
| SecretCrypto.FallbackAgrees | src/utils/index.ts:78-81 | no passphrase, an empty one and the machine id itself all select the machine id as key, so they decrypt alike |
| SecretCrypto.GivenPassphraseWins | src/utils/index.ts:38-41 | a non-empty passphrase is the key whatever the machine id, so decryption does not depend on the machine id |
| SecretCrypto.DecryptEncrypt | src/utils/index.ts:33-90 | with a round-tripping cipher, decrypting what was encrypted under the same passphrase gives it back |
| EnvParser.ParseEnvContentToObject | src/utils/index.ts:106-160 | the object built is `ParseEnv` of the text, and its keys are distinct |
| EnvParser.ScanEnvLines | src/utils/index.ts:111-130 | the first pass collects exactly the certificate blocks and the remaining lines of `ScanLines` |
| EnvParser.AssignLines | src/utils/index.ts:138-147 | the ordinary lines are assigned into an empty object in line order |
| EnvParser.AssignCerts | src/utils/index.ts:153-157 | the blocks whose trimmed name does not start with `#` are assigned over the ordinary entries, in order |
| EnvParser.Restructure | src/utils/index.ts:132-136 | no line left for the second pass is blank after trimming |
| EnvParser.LineEntryShape | src/utils/index.ts:139-146 | a line gives an entry exactly when it holds `=` and the text before the first `=`, trimmed, does not start with `#`; the key is that text untrimmed, the value the text up to the second `=` |
| EnvParser.OrdinaryLastWins | src/utils/index.ts:138-147 | among ordinary lines, the last line with a key decides its value |
| EnvParser.ParseEnvGet | src/utils/index.ts:145-157 | a certificate block wins over an ordinary line with the same name; otherwise the last ordinary line decides |
| EnvParser.ScanOpenBlock | src/utils/index.ts:112-128 | after a BEGIN line, each inner line is appended to the open block after a line break and leaves "" behind |
| EnvParser.Block | src/utils/index.ts:111-130 | a block from a BEGIN line to the next END line becomes one certificate: the text after `=`, then every later line up to the END line, joined by line breaks; all its lines become "" and no block stays open |
| EnvParser.StrayEnd | src/utils/index.ts:118-124 | an END line with no open block still yields a certificate with an empty name |
| EnvParser.CertsSolid | src/utils/index.ts:119-122 | every collected block ends with its END line, so its value never trims to "" |
| EnvParser.CertFilterKeepsAll | src/utils/index.ts:149-151 | the filter on `certKeys` removes nothing |
| SecretSync.RemoveDuplicateSecrets | src/utils/index.ts:245-257 | the result is `Deduplicated(data)`, with distinct keys |
| SecretSync.FillComparisonMap | src/utils/index.ts:248-253 | the comparison map ends as the assignments of all secrets in order; skipping a secret with an equal value changes nothing |
| SecretSync.CollectValues | src/utils/index.ts:254 | collecting `comparisonMap[key]` for each key in order gives back the map's entries |
| SecretSync.PutSame | src/utils/index.ts:250-251 | writing the value a key already holds leaves the object unchanged |
| SecretSync.DeduplicatedKeys | src/utils/index.ts:245-257 | exactly the input keys survive, once each, each with the value of its last occurrence |
| SecretSync.DeduplicatedIdempotent | src/utils/index.ts:245-257 | deduplicating twice gives the same list as once |
| SecretSync.DecryptAll | src/utils/index.ts:189-192 | one decrypted pair per listed secret, key and value decrypted under the session key |
| SecretSync.FetchRawSecrets | src/utils/index.ts:162-208 | no list throws; a non-empty list whose first project is not a member throws the permission message naming the environment; otherwise the pairs are the decryptions of the list, as a multiset |
| SecretSync.FetchRoundTrip | src/utils/index.ts:186-194 | secrets stored encrypted under the session key are fetched back as the stored pairs |
| SecretSync.Find | src/utils/index.ts:273 | `env.find(...)`: a fetched pair with the key at an index before which no pair has the key (the first match), or `undefined` when no pair has it |
| SecretSync.UploadSecretsToOnboardbase | src/utils/index.ts:259-305 | a failed fetch sends nothing; DELETE without an exclude list throws; otherwise the batch is `Batch` of the object; the deletions and the kept existing secrets are what the source computes |
| SecretSync.LookUpDeletions | src/utils/index.ts:269-276 | per excluded key, a fetched pair whose key is the upper-cased excluded key, or `undefined` exactly when there is none |
| SecretSync.KeptExisting | src/utils/index.ts:278-289 | with a non-empty exclude list, pairs whose key is exactly a listed key are dropped; otherwise pairs with an undefined or empty key are dropped; order kept |
| SecretSync.NewSecrets | src/utils/index.ts:291-302 | the loop builds `Batch`: one element per entry, in entry order |
| SecretSync.Batch | src/utils/index.ts:294-302 | one element per object entry: upper-cased key, value and empty comment encrypted, the environment id |
| SecretSync.BatchRoundTrip | src/utils/index.ts:291-304 | with a round-tripping cipher, the batch decrypts to the entries with upper-cased keys and an empty comment, in order |
| SecretSync.BatchKeepsCaseTwins | src/utils/index.ts:296 | keys `a` and `A` are both sent, as two secrets with key `A` |
| SecretSync.MergeRequestRoundTrip | src/utils/index.ts:307-330 | the merge-request secret decrypts to the key as given, the value and the comment; the comment also goes in plain text |
| SecretSync.MergeRequestVersusUpload | src/utils/index.ts:320 | the same key is upper-cased in an upload but not in a merge request |
| DateFormat.FormatDate | src/utils/index.ts:210-243 | an absent or empty date yields `undefined`; a date with fewer than two `-` throws; every other date yields a text |
| DateFormat.MonthNameTable | src/utils/index.ts:217-231 | a two-digit month 01 to 12 names entry month−1 of the fixed table |
| DateFormat.SplitTimestamp | src/utils/index.ts:235-239 | for `YYYY-MM-DD…`, the pieces are the year, the month and the day-and-time part |
| DateFormat.FormatTimestamp | src/utils/index.ts:233-242 | `YYYY-MM-DDTHH:MM:SS…` becomes `<month name> DD, YYYY \| HH:MM GMT`, with `:SS` when `sec` is truthy |
| ShellRc.RcFileName | src/utils/index.ts:47-48 | `.<last piece of SHELL>rc` is one plain path segment |
| ShellRc.ShellRcBase | src/utils/index.ts:45-50 | whatever `SHELL` and `HOME` hold, the path names the file `.<shell>rc` |
| ShellRc.RcFileNameOfPath | src/utils/index.ts:47-48 | a `SHELL` of `dir/program` gives `.programrc` |
| ShellRc.ShellRcUnderHome | src/utils/index.ts:49 | with a canonical absolute `HOME` the path is `HOME/.<shell>rc` |
| ShellRc.ShellRcWithoutHome | src/utils/index.ts:49 | without `HOME` the path is `undefined/.<shell>rc` |
| PosixPath.JoinBasename | src/commands/setUpHelper.ts:26-28 | joining a plain name onto any directory gives a path whose base name is that name |
| PosixPath.JoinCanonical | src/utils/index.ts:49 | joining a plain name onto a canonical absolute directory inserts one `/` |
| PosixPath.JoinPlain | src/utils/index.ts:49 | joining two plain names puts one `/` between them |
| Config.SetField | src/config/index.ts:447 | the written field reads the new value, other fields are kept, no other key appears, and the key is absent from the result exactly when the value is `undefined` |
| Config.MergeStoreFields | src/config/index.ts:195-201 | after `init` a key reads the project `setup` value first, then the scope value, and otherwise keeps its store value |
| Config.LookupScopeFallback | src/config/index.ts:190-193 | the scope is `scoped[cwd]`, else `scoped['/']`, and none exactly when both are absent |
| Config.DeleteScopeFrame | src/config/index.ts:296-300 | deleting a scope removes exactly that directory, keeps every other scope unchanged, is idempotent and stops asking a password for it |
| Config.SessionFlagFrame | src/config/index.ts:335-343 | the session flag is set on the named scope, created if absent; every other field and scope stays, and so does the set of directories that require a password |
| Config.UpsertFrame | src/config/index.ts:391-419 | the scope (default `/`) gets the six fields, with the default API and dashboard hosts; its other fields, the other scopes and the other top-level keys stay |
| Config.UpsertFields | src/config/index.ts:394-402 | the six written fields read their new values and every other field of the scope reads as before |
| Config.AppendMarkerOnce | src/config/index.ts:432-444 | afterwards a line is `# onboardbase`, the old text is a prefix, and appending again changes nothing |
| Config.BaseUrl | src/config/index.ts:460-464 | a truthy `url` is the base URL; otherwise a missing `scoped` throws, else the current directory scope's `api-host` is taken, else the `/` scope's, else the default API host |
| Config.BaseUrlFallsBackPerHost | src/config/index.ts:462-464 | a current-directory scope without `api-host` is the scope `init` reads, yet the client takes the `/` scope's host |
| Config.BaseUrlDefault | src/config/index.ts:462-464 | with no `api-host` in any scope and no truthy `url`, the client uses the default API host |
| Config.ConfigManager.constructor | src/config/index.ts:12-46 | an empty store, no RSA keys, an empty auth host, and the global file under `~/.onboardbase` |
| Config.ConfigManager.SetAuthApiHost | src/config/index.ts:92-94 | only the auth host changes |
| Config.ConfigManager.Init | src/config/index.ts:163-202 | no file with a token: the store is exactly the three environment values and nothing is written; no file and no token: a fresh file; with a file, the store is merged with the scope and the project `setup`, and the error is shown exactly when no scope was found outside Login |
| Config.ConfigManager.GetConfigs | src/config/index.ts:222-231 | the file's `scoped` mapping, or `{}` without a file |
| Config.ConfigManager.GetScopedConfig | src/config/index.ts:233-236 | the settings of the given directory, default `cwd`, `undefined` when absent; it throws exactly when `scoped` is missing |
| Config.ConfigManager.IsNewServiceToken | src/config/index.ts:266-268 | a missing or null token throws; a string token is new exactly when shorter than 43 characters |
| Config.ConfigManager.StoreRsaKeys | src/config/index.ts:278-281 | only the public and private keys change |
| Config.ConfigManager.StoreBackendPublicKey | src/config/index.ts:283-285 | only the backend public key changes |
| Config.ConfigManager.DeleteToken | src/config/index.ts:287-304 | the file is rewritten holding only `scoped`, without the named scope; missing file or `scoped` throws |
| Config.ConfigManager.GetDirectoriesThatRequiresPassword | src/config/index.ts:306-320 | exactly the directories whose `requirePassword` is truthy, each once |
| Config.ConfigManager.UpdateDirectorySessionConfig | src/config/index.ts:322-346 | the file is rewritten holding only `scoped`, with the session flag set on the named scope |
| Config.ConfigManager.UpdateGlobalConfig | src/config/index.ts:348-449 | a missing file is created fresh; with `requirePassword` on Unix the start-up file gets the marker block, and a missing start-up file throws before the global file is written; on success the file is the scope upserted |
| Config.ConfigManager.AddRcMarker | src/config/index.ts:430-444 | a missing start-up file throws; otherwise it becomes `AppendMarker` of its text |
| Config.ConfigManager.GetHttpInstance | src/config/index.ts:457-468 | with no truthy `url` it fails exactly when `scoped` is missing; a truthy `url` wins; otherwise the current directory scope's `api-host`, else the `/` scope's, else the default API host |
| Signup.Init | src/commands/init.ts:24-51 | a missing or empty email gives exactly the one error; any other email requests the auth code first |
| Signup.EmailParts | src/commands/init.ts:41-42 | with an `@`, name + `@` + domain is the email and the domain holds no `@` |
| Signup.NoAtRejected | src/commands/init.ts:41-46 | an email with no `@` has an empty name and is rejected after the auth-code request |
| Signup.SignUpExactly | src/commands/init.ts:41-51 | sign-up happens exactly when the email has an `@` with text on both sides of the last one; it receives the name, the email and `name_teamName` |
| Signup.TeamNameFirstLabel | src/commands/init.ts:47 | the team name is the domain up to its first `.`, or all of it |
| Signup.ShapedAddress | src/commands/init.ts:41-51 | `name@team.tld` signs up the organisation `name_team` |
| Signup.InitSignsUp | src/commands/init.ts:43-51 | an email with a non-empty name and domain goes on to sign-up with them |
| Signup.LastAtSplit | src/commands/init.ts:41-42 | the name and domain of `name@domain` are `name` and `domain` when the domain has no `@` |
| Signup.FirstLabel | src/commands/init.ts:47 | the team name of `team.tld` is `team` |
| SetupHelper.SetupRecord | src/commands/setUpHelper.ts:17-22 | the record is `{setup: {project, environment}}`, with a dismissed pick left out |
| SetupHelper.ConfigBaseName | src/commands/setUpHelper.ts:24-28 | the config file's base name is `.onboardbase.yaml` whatever the folder |
| SetupHelper.ConfigIsNotGitIgnore | src/commands/setUpHelper.ts:36-38 | the config file and `.gitignore` are different files |
| SetupHelper.UpdateGitIgnoreContains | src/commands/setUpHelper.ts:48-54 | afterwards the text contains the name; it is unchanged exactly when it already contained it; the old text is a prefix |
| SetupHelper.UpdateGitIgnoreIdempotent | src/commands/setUpHelper.ts:48-54 | a second update changes nothing |
| SetupHelper.RecordReadByInit | src/commands/setUpHelper.ts:17-22 | when `init` reads the written record back, the store's project and environment are the picked ones and other keys are untouched |
| SetupHelper.Workspace.SetUpProject | src/commands/setUpHelper.ts:12-56 | the record replaces the config file; `.gitignore` is updated only when it exists and the answer is "Yes" |
| SetupHelper.SetUpTwice | src/commands/setUpHelper.ts:39-54 | two set-ups with "Yes" leave `.gitignore` as one update does, and it names the config file |
| ProjectSetup.NarrowAll | src/commands/setup.ts:51-57 | every project narrowed, one for one |
| Common.MapSeq | src/commands/setup.ts:60 | `.map(({title}) => title)`, used for the project titles here and the environment titles at line 70: one image per element, in order |
| ProjectSetup.FindByTitle | src/commands/setup.ts:68-69 | the first project whose title is the picked one, or none exactly when no project has it |
| ProjectSetup.NarrowEnvironments | src/commands/setup.ts:51-57 | the loop builds `NarrowAll` |
| ProjectSetup.SetUp | src/commands/setup.ts:19-94 | the command does exactly `SetUpEvents` |
| ProjectSetup.MemberProjectsExactly | src/commands/setup.ts:36 | a project is offered exactly when it was fetched and its `member` is true |
| ProjectSetup.MemberProjectsInOrder | src/commands/setup.ts:36 | the member filter keeps the original order |
| ProjectSetup.NarrowedExactly | src/commands/setup.ts:51-57 | a narrowed project keeps title and membership and exactly its member environments |
| ProjectSetup.NarrowedIdempotent | src/commands/setup.ts:54 | narrowing twice is narrowing once |
| ProjectSetup.EarlyExits | src/commands/setup.ts:20-27 | logged out or with a set-up file present the command stops at once; projects are requested exactly otherwise |
| ProjectSetup.NoMemberProject | src/commands/setup.ts:44-48 | the command ends with the message naming the team exactly when no fetched project has the user as member |
| ProjectSetup.MemberProjectsEmpty | src/commands/setup.ts:36 | nothing is kept exactly when no project has the user as member |
| ProjectSetup.CanUploadUnlessEmployee | src/commands/setup.ts:50 | `canUploadEnv` is false exactly for the `Employee` role |
| ProjectSetup.EnvironmentChoicesFirstMatch | src/commands/setup.ts:68-70 | the choices are the member-environment titles of the first member project with the picked title, and none exactly when no member project has it |

## Left out

- AES itself, `node-machine-id`, RSA key handling and `jwtDecode` are
  foreign libraries. The cipher is a parameter, and so are the decoded
  team and role.
- `generateAccessToken`, `getEnvironmentId`,
  `getEncryptionAndDecryptionKey`, `retrieveSecrets`, `addSecrets`,
  `addMergeRequest`, `fetchProjects` and `signup` are network calls. Their
  answers are inputs and what is sent is a result.
- `checkForProjectScope` reads a file. It is replaced by a `loggedIn`
  input.
- `isUnix`, `isWsl` and `isDocker` probe the platform. The result is an
  input.
- `registerProcess`, `closeRunningProcess`, `deleteOnboardbaseConfigs` and
  the socket-client accessors manage processes, not data.
- The trivial getters (`getAuthApiHost`, `getRsaKeys`, `getToken`,
  `getRawToken`, `getLocalConfig`) are not modelled; the fields they read
  are.
- `checkAndCreateOnboardbaseDirectories` creates directories. Only files
  are modelled.
- The choice among `.onboardbase.yml`, `onboardbase.yaml` and
  `.onboardbase.yaml` for the project file is made once by the
  constructor. The model takes the chosen file's content as a field.
  `getProjectConfig` is the read of that field.
- YAML parsing and printing are not modelled. A mapping is a Dafny `map`,
  so the key order of the printed file is not captured. For the same
  reason the order of the list `getDirectoriesThatRequiresPassword`
  returns (that of `Object.keys(scoped)`) is not stated: its contract
  states the members and that none repeats. A `scoped` entry
  that is not a mapping, and a document that is not a mapping, are not
  modelled.
- The env-file upload that `setUpProject` offers after the `.gitignore`
  update (src/commands/setUpHelper.ts:58-152) is UI and network glue
  around `parseEnvContentToObject` and `uploadSecretsToOnboardbase`,
  which are modelled on their own.
- The calls at src/commands/setup.ts:74 and
  src/commands/setUpHelper.ts:89-93 and 130-134 pass one object where
  positional arguments are expected. The model states the definitions.
  At setup.ts:74 the `SetUpProject` event records the intended project,
  environment and upload flag.
- `ConfigManager.init`, token generation and the `try`/`catch` inside
  `setUp` are not modelled. An exception there only shows its message.
- CryptoJS AES draws a random salt for every encryption, so two
  encryptions of one text differ. The model's cipher is a function of the
  text and the passphrase. Contracts that name exact ciphertexts, such as
  the batch of `SecretSync.UploadSecretsToOnboardbase`, therefore hold
  only up to that salt.
- ProjectSetup.SetUp: when the project pick is dismissed, the source
  passes `undefined` as the environment items to `showQuickPick`. The
  model assumes that call resolves to `undefined` and records the
  environment pick and the `setUpProject` call that follow.
- SecretSync.RemoveDuplicateSecrets: works on key/value entries. Other
  fields of an incoming object are not modelled; the source keeps the
  whole object of the secret it retains.
- The polling for the auth token after sign-up, and the timers in general,
  are not modelled.
- `Promise.all` in `fetchRawSecrets` pushes pairs as their decryptions
  finish. Only the multiset of pairs is stated, not their order.
- `Object.assign(project, …)` in `setUp` mutates the fetched projects in
  place. The model builds new values. The fetched list is not read again,
  so nothing observable is lost.
- `if (secrets)` at src/utils/index.ts:187 is always true once
  `secrets.list` has been read. The `env: []` return after it is dead code.
- JavaScript objects list integer-like keys first. `JsObjects` keeps pure
  insertion order. Keys such as `__proto__` are ordinary keys in the model.
- `toUpperCase` is modelled on ASCII letters only. Lengths count
  characters, not UTF-16 code units.
- `Number(month)` is modelled for decimal digit strings and blank text.
  Any other form (signs, hexadecimal, exponents) counts as `NaN`.
- `path.posix` is modelled, not Windows paths.
- The start-up file marker is found only as a whole line split at `\n`.
  A `\r\n` line ending makes the marker line `# onboardbase\r`, which does
  not match; the model keeps that behaviour.
- DateFormat.FormatDate: its contract states the `undefined` and error
  cases. The text of a well-formed timestamp is stated by
  `DateFormat.FormatTimestamp`.
