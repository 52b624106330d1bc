# gitpoll in Dafny

gitpoll polls an OpenShift master for build configurations. It starts one
Git repository watcher per configuration. When a watched repository gets a
new commit, gitpoll posts a GitHub-style push event to that configuration's
generic webhook. This project models its three components, one tick at a
time.

- `buildcfg.dfy` (module `BuildCfg`) models the build-configuration watcher.
  - One `sync` compares the listed configurations with a store keyed by ID.
  - New IDs are stored and announced with `BuildConfigAdded`.
  - IDs no longer listed are removed and announced with `BuildConfigDeleted`.
  - It is specified by pure functions over the list (`AddItems`, `DeleteIds`, `SyncSpec`) and a reference definition of which items fire (`Fires`, and `New` for distinct IDs).
  - The class `BuildConfigWatcher` updates its store in place. Its `Sync` method is proved against those functions.
- `repository.dfy` (module `Repository`) models the repository watcher.
  - It has two phases: uninitialised (`commit == ""`: temporary directory, clone, optional checkout, commit read) and tracking (pull, commit read, compare hashes).
  - It also models the parser of the `git log --pretty=%H|%an|%ae|%cn|%ce|%s -n1` line.
  - Each git or file-system step is an input (`Collaborators`). The calls made are logged in `calls`, and the commits handed to the listener in `notified`.
  - The run-time panics of the code are explicit outcomes:
    - `parts[5]` out of range;
    - the nil commit details read after a failed `git log` during an update;
    - a call on a missing listener.
- `hook.dfy` (module `Hook`) models the hook handler.
  - The registry `ConfigWatcher` maps a build-configuration ID to its repository watcher.
  - `BuildLauncher` builds the push event and the webhook request.
  - The pure builders `Ref` and `WebhookURL` are paired with the receiver's reading of their output (`BranchOf`, `HookTarget`).
- `strings.dfy` (module `Strings`) gives Go's `strings.Split` and `strings.Join` semantics for a one-character separator.
- `wrappers.dfy` holds `Option`.

Go behaviour that is made explicit:

- `strings.Split` cuts at every separator. An output with n separators gives n + 1 parts.
- Map assignment overwrites.
- The repository watcher's loop reads its stop flag only *after* each tick's `watch()` (pkg/watcher/repository/repository.go:57-60), so a watcher stopped between ticks performs one more tick of git work; the model follows the code (`Repository.RepositoryWatcher.Tick`).
  - The build-configuration watcher does read its flag before syncing (pkg/watcher/buildcfg/buildcfg.go:56-58).
- `BuildConfigAdded` on an ID that is already registered overwrites the entry without stopping the old watcher. The code has no guard against an ID that is already registered, and the model adds none.
  - The dropped watchers are recorded in the ghost log `leaked`.
  - `BuildCfg.DuplicateReAdded` shows how a repeated ID in one listing reaches this path.
- Repository watchers are always started with ref `""` (pkg/hook/handler.go:47), so they never check out the configured ref. The push event still names `refs/heads/<ref>`.

## Model

| member | source | states |
|---|---|---|
| Strings.Split | pkg/watcher/repository/repository.go:134 | defines `strings.Split` on a one-character separator (cut at every occurrence); characterised by `Strings.SplitCount`, `Strings.SplitSeparatorFree` and `Strings.JoinSplit` |
| Strings.Join | pkg/watcher/repository/repository.go:134 | defines joining with the separator, the inverse `Split` is checked against; characterised by `Strings.SplitJoin` |
| Strings.SplitCount | pkg/watcher/repository/repository.go:134 | a string holding n separators splits into exactly n + 1 parts |
| Strings.SplitSeparatorFree | pkg/watcher/repository/repository.go:134 | no part returned by the split contains the separator |
| Strings.SplitJoin | pkg/watcher/repository/repository.go:134 | splitting the join of separator-free parts gives the parts back |
| Strings.JoinSplit | pkg/watcher/repository/repository.go:134 | joining the parts of a split gives the original string back |
| Strings.SplitJoinPrefix | pkg/watcher/repository/repository.go:134 | separator-free parts joined in front of any tail split into those parts followed by the parts of the tail |
| Repository.ParseLogLine | pkg/watcher/repository/repository.go:133-141 | defines the positional read of the split output, `None` where `parts[5]` is out of range; characterised by `Repository.ParseDefinedIff`, `Repository.ParseLogLineRoundTrip`, `Repository.LogLineOfParse`, `Repository.ParseGitLogOutput` |
| Repository.ReadCommit | pkg/watcher/repository/repository.go:122-141 | defines the result of `getCommitDetails` (error, panic or record); characterised by `Repository.ReadCommitCases` |
| Repository.GitLogOutput | pkg/watcher/repository/repository.go:129 | defines what `git log --pretty=%H\|%an\|%ae\|%cn\|%ce\|%s -n1` prints: the six fields and the newline git puts after every entry; characterised by `Repository.ParseGitLogOutput` |
| Repository.ParseGitLogOutput | pkg/watcher/repository/repository.go:129-140 | on what git prints, the five leading fields come back exact and the message is the subject followed by the terminating newline, which the code forwards |
| Repository.InitCalls | pkg/watcher/repository/repository.go:76-92 | defines the collaborator calls of one initialisation; characterised by `Repository.InitCallsShape` |
| Repository.ParseDefinedIff | pkg/watcher/repository/repository.go:134-140 | the positional read is defined exactly when the output holds at least five pipes; otherwise `parts[5]` is out of range |
| Repository.ParseLogLineRoundTrip | pkg/watcher/repository/repository.go:134-140 | six pipe-free fields joined with pipes, without a trailing newline, parse back to the same commit record |
| Repository.LogLineOfParse | pkg/watcher/repository/repository.go:134-140 | a string with exactly five pipes is the pipe-join of the record it parses to, so the positional read loses nothing |
| Repository.SubjectTruncated | pkg/watcher/repository/repository.go:134-140 | a subject containing pipe is cut at its first pipe; the other five fields are unaffected |
| Repository.ReadCommitCases | pkg/watcher/repository/repository.go:122-141 | a failed `git log` is an error, output with fewer than five pipes is the out-of-range panic, anything else is the parsed record |
| Repository.InitCallsShape | pkg/watcher/repository/repository.go:74-96 | initialisation creates a temp dir first and works only in it; it checks out exactly when a ref is set and the clone succeeded, and reads the commit exactly when temp dir, clone and checkout all succeeded |
| Repository.NotifyExtends | pkg/watcher/repository/repository.go:97-119 | reporting a hash that differs from the last one reported, or the first hash, keeps "notify only on change" and makes it the last hash |
| Repository.RepositoryWatcher.constructor | pkg/watcher/repository/repository.go:46-53 | a new watcher is uninitialised, not stopped, has made no call and reported nothing |
| Repository.RepositoryWatcher.Watch | pkg/watcher/repository/repository.go:66-72 | initialises exactly when no commit is known and checks for an update otherwise; keeps the known commit equal to the last one reported |
| Repository.RepositoryWatcher.InitializeRepo | pkg/watcher/repository/repository.go:74-101 | any failure leaves the commit unknown and notifies nobody; `repoDir` is replaced as soon as the temp dir exists; success sets the commit and notifies once when a listener is set |
| Repository.RepositoryWatcher.CheckRepoUpdate | pkg/watcher/repository/repository.go:103-120 | a failed pull changes nothing; an unchanged hash notifies nobody; a new hash is stored and then reported once; a failed read or a missing listener panics; `repoDir` never changes |
| Repository.RepositoryWatcher.GetCommitDetails | pkg/watcher/repository/repository.go:122-142 | runs `git log` in the working copy and returns the read of its output |
| Repository.RepositoryWatcher.Stop | pkg/watcher/repository/repository.go:144-146 | sets the stop flag and changes nothing else |
| Repository.RepositoryWatcher.Tick | pkg/watcher/repository/repository.go:54-61 | one tick does the watch work first and keeps running exactly when the flag was not raised before it |
| BuildCfg.AddStep | pkg/watcher/buildcfg/buildcfg.go:72-77 | defines one iteration of the first loop (clear a pending ID, or store the item and call `BuildConfigAdded`); characterised by `BuildCfg.AddItemsInvariant` |
| BuildCfg.AddItems | pkg/watcher/buildcfg/buildcfg.go:71-78 | defines the first loop over the listing; characterised by `BuildCfg.AddItemsInvariant`, `BuildCfg.SyncAddsFires`, `BuildCfg.SyncAddsNew` |
| BuildCfg.DeleteIds | pkg/watcher/buildcfg/buildcfg.go:80-83 | defines the second loop over the leftover IDs; characterised by `BuildCfg.DeleteIdsInvariant` |
| BuildCfg.SyncSpec | pkg/watcher/buildcfg/buildcfg.go:70-83 | defines the store and listener calls of a successful sync; characterised by `BuildCfg.SyncStoreKeys`, `BuildCfg.SyncAddsNew`, `BuildCfg.SyncDeletesVanished`, `BuildCfg.SyncKeepsKnown` |
| BuildCfg.AddItemsInvariant | pkg/watcher/buildcfg/buildcfg.go:70-78 | the first loop leaves pending the stored IDs no item claimed, stores every listed ID, calls `BuildConfigAdded` for exactly the `Fires` items after storing each, and leaves unlisted entries untouched |
| BuildCfg.DeleteIdsInvariant | pkg/watcher/buildcfg/buildcfg.go:80-83 | the second loop removes exactly the visited IDs and calls `BuildConfigDeleted` once per ID, in order, after the removal |
| BuildCfg.SyncStoreKeys | pkg/watcher/buildcfg/buildcfg.go:70-83 | after a successful sync the store's keys are exactly the listed IDs |
| BuildCfg.SyncAddsFires | pkg/watcher/buildcfg/buildcfg.go:70-78 | the Added calls are exactly the reference items `Fires`, in list order, each made with its ID already stored |
| BuildCfg.FiresDistinct | pkg/watcher/buildcfg/buildcfg.go:70-78 | with distinct IDs the items that take the add branch are exactly those whose ID was not stored |
| BuildCfg.SyncAddsNew | pkg/watcher/buildcfg/buildcfg.go:70-78 | with distinct IDs `BuildConfigAdded` fires once per item whose ID is in current minus previous, in list order, and for no other item |
| BuildCfg.SyncDeletesVanished | pkg/watcher/buildcfg/buildcfg.go:70-83 | `BuildConfigDeleted` fires exactly once for each ID in previous minus current and for no other ID, after removing it |
| BuildCfg.KeepsKnownInAddPass | pkg/watcher/buildcfg/buildcfg.go:72-75 | with distinct IDs the first loop never rewrites an entry that was already stored |
| BuildCfg.SyncKeepsKnown | pkg/watcher/buildcfg/buildcfg.go:72-73 | with distinct IDs an ID present before and now fires no call and keeps its stored object |
| BuildCfg.DuplicateReAdded | pkg/watcher/buildcfg/buildcfg.go:70-78 | a repeated ID is not deduplicated: its later occurrence takes the add branch again and replaces the stored object |
| BuildCfg.BuildConfigWatcher.constructor | pkg/watcher/buildcfg/buildcfg.go:39-44 | a new watcher has an empty store, is not stopped and has made no call |
| BuildCfg.BuildConfigWatcher.Sync | pkg/watcher/buildcfg/buildcfg.go:65-85 | a failed listing changes nothing and calls nobody; otherwise the store and the listener calls are those of `SyncSpec`, with all Added calls before all Deleted calls |
| BuildCfg.BuildConfigWatcher.Stop | pkg/watcher/buildcfg/buildcfg.go:49-51 | sets the stop flag and changes nothing else |
| BuildCfg.BuildConfigWatcher.Tick | pkg/watcher/buildcfg/buildcfg.go:55-62 | a tick that finds the flag raised exits without syncing; otherwise it syncs |
| BuildCfg.HandedPointersAsWritten | pkg/watcher/buildcfg/buildcfg.go:71-77 | with the loop variable's address, there is one `BuildConfigAdded` per item of the add pass, and after the loop every handed pointer reads the last listed item |
| Hook.Ref | pkg/hook/handler.go:112-118 | defines the push ref; characterised by `Hook.RefNamesBranch` and `Hook.RefInjective` |
| Hook.RefNamesBranch | pkg/hook/handler.go:112-118 | the push ref names the configured branch under `refs/heads/`, or `master` when none is set |
| Hook.RefInjective | pkg/hook/handler.go:112-118 | configurations with a ref set push the same ref exactly when their refs agree |
| Hook.WebhookURL | pkg/hook/handler.go:120-123 | defines the webhook URL; characterised by `Hook.WebhookSegments`, `Hook.HookTargetRoundTrip`, `Hook.WebhookSuffix` and `Hook.WebhookURLInjective` |
| Hook.WebhookSegments | pkg/hook/handler.go:120-123 | the URL is the endpoint and hook path followed by ID, secret and `github`, joined with `/` |
| Hook.HookTargetRoundTrip | pkg/hook/handler.go:120-123 | when neither ID nor secret holds `/`, a reader that splits the path after the hook prefix at `/` recovers exactly that ID and secret from the URL |
| Hook.WebhookSuffix | pkg/hook/handler.go:120-123 | the URL always ends in `/` + ID + `/` + secret + `/github` |
| Hook.WebhookURLInjective | pkg/hook/handler.go:120-123 | slash-free configurations get the same URL exactly when their ID and secret agree |
| Hook.PushEvent | pkg/hook/handler.go:72-87 | defines the push event built for a commit; characterised by `Hook.PushEventRoundTrip` and `Hook.PushEventInjective` |
| Hook.Headers | pkg/hook/handler.go:100-102 | the three headers of the request: User-Agent `GitHub-Hookshot/github`, Content-Type `application/json`, X-Github-Event `push`; `Hook.BuildLauncher.CommitAvailable` states the request carries them |
| Hook.PushEventRoundTrip | pkg/hook/handler.go:72-87 | the event carries the commit unchanged as its head commit, `after` equals the head commit's ID and the hash, and the ref is the configuration's ref |
| Hook.PushEventInjective | pkg/hook/handler.go:72-87 | different commits give different events |
| Hook.BuildLauncher.constructor | pkg/hook/handler.go:43-46 | a launcher holds the endpoint and its build configuration |
| Hook.BuildLauncher.CommitAvailable | pkg/hook/handler.go:70-110 | a marshalling or request failure sends nothing; otherwise it POSTs the push event, with the push headers, to the configuration's own webhook; a missing response panics |
| Hook.ConfigWatcher.constructor | pkg/hook/handler.go:29-34 | a new registry is empty |
| Hook.ConfigWatcher.BuildConfigAdded | pkg/hook/handler.go:42-49 | registers a fresh watcher on the configuration's repository with ref `""` and a launcher for it, in the state `WatchRepository` builds (no commit, no directory, no calls, no notices, not stopped, valid), ready to tick; every other entry is unchanged; an entry already there is overwritten without being stopped |
| Hook.ConfigWatcher.BuildConfigDeleted | pkg/hook/handler.go:51-56 | a registered ID has exactly its watcher stopped, with its commit, directory and logs untouched, and only its key removed; an unknown ID changes nothing and stops nothing |
| Hook.AddThenDelete | pkg/hook/handler.go:42-56 | adding a new ID and then deleting it leaves the registry as it was, and the one watcher stopped is the fresh one the add created |
| Hook.Deliver | pkg/hook/handler.go:42-56 | delivering listener calls to the registry in order keeps it valid and leaves `watchers` keyed by exactly the IDs the key-set function `Registry` computes |
| Hook.RegistryFollowsAdds | pkg/hook/handler.go:42-49 | over the Added calls of one sync, the registry's key set follows the store's keys |
| Hook.RegistryFollowsDeletes | pkg/hook/handler.go:51-56 | over the Deleted calls of one sync, the registry's key set follows the store's keys |
| Hook.RegistryMirrorsSync | pkg/hook/handler.go:42-56 | the registry's key set, started from the store's keys and given the calls of a successful sync, is exactly the listed IDs; with `Hook.Deliver`, so are the keys of `watchers` |
| Hook.MisaddressedHookAsWritten | pkg/hook/handler.go:42-45 | with the pointer kept as written, the launcher of the first of two new configurations posts to the second one's webhook |
| Hook.AddressedHookCorrected | pkg/hook/handler.go:42-49 | with the launcher holding its configuration by value, the first configuration's launcher posts to its own webhook |

## Left out

- The periodic goroutines and `time.Tick` loops are not modelled. One tick is one call of `Tick`, and the interleaving of the build-configuration watcher with the repository watchers is not modelled.
- The git and file-system effects (`ioutil.TempDir`, clone, checkout, `git pull`, `git log`) are replaced by their outcomes, passed in as `Collaborators`.
- The OpenShift client and `cache.Store` are not modelled. The listing is an input (`None` when it fails), and the store is a map.
  - Client creation in `WatchBuildConfigs` (pkg/watcher/buildcfg/buildcfg.go:35-38) and its error are left out.
- BuildCfg.BuildConfigWatcher.Sync: the order in which `ids.List()` returns the leftover IDs belongs to the store's set type, which is not part of this model. `Sync` picks them in any order and returns that order, proved to list each leftover ID exactly once.
- JSON encoding and HTTP are not modelled.
  - The request's body is the event value.
  - The `omitempty` tags, which drop empty strings from the encoded body, are not modelled.
  - Marshalling, request construction and the exchange are boolean inputs.
  - The status-code check only logs, so it is left out.
- Logging and `fmt.Printf` are left out; they have no effect on state.
- Every `git log` output ends in a newline, since git reads a placeholder format without a prefix as `tformat:`. The parser keeps that newline in `message`, so every reported commit's message is its subject followed by "\n" (`Repository.ParseGitLogOutput`); the push event forwards it unchanged.
- Watchers dropped by an overwriting `BuildConfigAdded` are recorded in `leaked` but are not ticked further.
- cmd/poll/poll.go and the type declarations under Godeps are not part of this model.

## Findings

| source | as written | input that shows it | evidently intended | confidence | as-written member | corrected member |
|---|---|---|---|---|---|---|
| pkg/watcher/buildcfg/buildcfg.go:71-76 | `&buildConfig` is the address of the loop's single range variable, and the launcher keeps that pointer (pkg/hook/handler.go:44). After the loop, every launcher created in that tick reads the last listed item. | empty store, listing `[{id a, secret x}, {id b, secret y}]`: the launcher registered for `a` posts to `.../b/y/github` | each launcher posts to its own configuration's webhook | not executed; follows from Go's loop-variable semantics before Go 1.22, which this Godeps-era code builds with | BuildCfg.HandedPointersAsWritten, Hook.MisaddressedHookAsWritten | Hook.AddressedHookCorrected (the launcher holds its configuration by value, as `Hook.ConfigWatcher.BuildConfigAdded` states) |
