/**
 * The hook handler of pkg/hook/handler.go: a registry that starts one
 * repository watcher per build configuration, and the launcher that turns
 * each new commit into a GitHub-style push event posted to the build
 * configuration's webhook.
 *
 * JSON encoding and the HTTP exchange are collaborator outcomes: the model
 * builds the request as a value and takes whether marshalling, request
 * construction and sending succeed as inputs.
 */
module Hook {
  import opened Wrappers
  import opened Strings
  import opened BuildCfg
  import opened Repository

  const BranchPrefix: string := "refs/heads/"
  const DefaultBranch: string := "master"
  const HookPath: string := "/osapi/v1beta1/buildConfigHooks/"

  // ---------------------------------------------------------------------
  // The Git ref of the push event
  // ---------------------------------------------------------------------

  /** The branch ref a push event reports: the configured ref, or "master" when none is set. */
  function Ref(bc: BuildConfig): string
  {
    BranchPrefix + (if bc.gitRef != "" then bc.gitRef else DefaultBranch)
  }

  /** The branch a "refs/heads/" ref names, as a receiver reads it. */
  function BranchOf(ref: string): Option<string>
  {
    if |BranchPrefix| <= |ref| && ref[..|BranchPrefix|] == BranchPrefix then Some(ref[|BranchPrefix|..]) else None
  }

  /**
   * The push event names the configured branch, and "master" when the
   * build configuration sets no ref; so an empty ref and "master" are
   * indistinguishable to the receiver.
   */
  lemma RefNamesBranch(bc: BuildConfig)
    ensures bc.gitRef != "" ==> BranchOf(Ref(bc)) == Some(bc.gitRef)
    ensures bc.gitRef == "" ==> BranchOf(Ref(bc)) == Some(DefaultBranch)
    ensures bc.gitRef == "" ==> Ref(bc) == Ref(bc.(gitRef := DefaultBranch))
  {
    var branch := if bc.gitRef != "" then bc.gitRef else DefaultBranch;
    assert Ref(bc)[..|BranchPrefix|] == BranchPrefix;
    assert Ref(bc)[|BranchPrefix|..] == branch;
  }

  /** Two build configurations with a ref set push the same ref exactly when their refs agree. */
  lemma RefInjective(a: BuildConfig, b: BuildConfig)
    requires a.gitRef != "" && b.gitRef != ""
    ensures Ref(a) == Ref(b) <==> a.gitRef == b.gitRef
  {
    RefNamesBranch(a);
    RefNamesBranch(b);
  }

  // ---------------------------------------------------------------------
  // The webhook URL
  // ---------------------------------------------------------------------

  /** The generic GitHub webhook of a build configuration on the OpenShift master at `endpoint`. */
  function WebhookURL(endpoint: string, bc: BuildConfig): string
  {
    endpoint + HookPath + bc.id + "/" + bc.secret + "/github"
  }

  /** What a reader of a webhook URL recovers from it: the build configuration's ID and secret. */
  datatype Target = Target(id: Id, secret: string)

  /**
   * The receiving end of a webhook URL: after the endpoint and the hook
   * path come exactly three '/'-separated segments, the ID, the secret and
   * "github".
   */
  function HookTarget(endpoint: string, url: string): Option<Target>
  {
    var prefix := endpoint + HookPath;
    if |prefix| <= |url| && url[..|prefix|] == prefix then
      var segments := Split(url[|prefix|..], '/');
      if |segments| == 3 && segments[2] == "github" then Some(Target(segments[0], segments[1])) else None
    else None
  }

  /** The URL is the endpoint and hook path followed by the joined segments. */
  lemma WebhookSegments(endpoint: string, bc: BuildConfig)
    ensures WebhookURL(endpoint, bc) == endpoint + HookPath + Join([bc.id, bc.secret, "github"], '/')
  {
    JoinCons(bc.secret, ["github"], '/');
    JoinCons(bc.id, [bc.secret, "github"], '/');
    assert [bc.id] + [bc.secret, "github"] == [bc.id, bc.secret, "github"];
    assert [bc.secret] + ["github"] == [bc.secret, "github"];
  }

  /**
   * The URL ends in "/" + ID + "/" + secret + "/github", and when neither
   * the ID nor the secret holds a '/', a reader that splits the path after
   * the hook prefix at '/' recovers exactly that ID and secret.
   */
  lemma HookTargetRoundTrip(endpoint: string, bc: BuildConfig)
    requires '/' !in bc.id && '/' !in bc.secret
    ensures HookTarget(endpoint, WebhookURL(endpoint, bc)) == Some(Target(bc.id, bc.secret))
  {
    WebhookSegments(endpoint, bc);
    var prefix := endpoint + HookPath;
    var segments := [bc.id, bc.secret, "github"];
    assert SeparatorFree(segments, '/');
    SplitJoin(segments, '/');
    var url := WebhookURL(endpoint, bc);
    assert url[..|prefix|] == prefix;
    assert url[|prefix|..] == Join(segments, '/');
  }

  /** The URL always ends in "/" + ID + "/" + secret + "/github". */
  lemma WebhookSuffix(endpoint: string, bc: BuildConfig)
    ensures var suffix := "/" + bc.id + "/" + bc.secret + "/github";
      var url := WebhookURL(endpoint, bc);
      |suffix| <= |url| && url[|url| - |suffix|..] == suffix
  {
    var suffix := "/" + bc.id + "/" + bc.secret + "/github";
    var head := endpoint + HookPath[..|HookPath| - 1];
    assert HookPath == HookPath[..|HookPath| - 1] + "/";
    assert WebhookURL(endpoint, bc) == head + suffix;
  }

  /** Slash-free build configurations get the same URL exactly when ID and secret agree. */
  lemma WebhookURLInjective(endpoint: string, a: BuildConfig, b: BuildConfig)
    requires '/' !in a.id && '/' !in a.secret && '/' !in b.id && '/' !in b.secret
    ensures WebhookURL(endpoint, a) == WebhookURL(endpoint, b) <==> a.id == b.id && a.secret == b.secret
  {
    HookTargetRoundTrip(endpoint, a);
    HookTargetRoundTrip(endpoint, b);
  }

  // ---------------------------------------------------------------------
  // The push event
  // ---------------------------------------------------------------------

  datatype SourceControlUser = SourceControlUser(name: string, email: string)

  datatype GitHubCommit = GitHubCommit(id: string, author: SourceControlUser, committer: SourceControlUser, message: string)

  datatype GitHubPushEvent = GitHubPushEvent(ref: string, after: string, headCommit: GitHubCommit)

  /** The push event `CommitAvailable` builds for a commit of the build configuration's repository. */
  function PushEvent(bc: BuildConfig, info: CommitDetails): GitHubPushEvent
  {
    GitHubPushEvent(
      Ref(bc),
      info.commit,
      GitHubCommit(
        info.commit,
        SourceControlUser(info.author.name, info.author.email),
        SourceControlUser(info.committer.name, info.committer.email),
        info.message))
  }

  /** The commit a receiver reads from the head commit of a push event. */
  function CommitOf(e: GitHubPushEvent): CommitDetails
  {
    CommitDetails(
      e.headCommit.id,
      e.headCommit.message,
      CommitUser(e.headCommit.author.name, e.headCommit.author.email),
      CommitUser(e.headCommit.committer.name, e.headCommit.committer.email))
  }

  /**
   * The event reports the commit unchanged as its head commit, names the
   * same hash as `after`, and pushes to the build configuration's ref.
   */
  lemma PushEventRoundTrip(bc: BuildConfig, info: CommitDetails)
    ensures CommitOf(PushEvent(bc, info)) == info
    ensures PushEvent(bc, info).after == PushEvent(bc, info).headCommit.id == info.commit
    ensures PushEvent(bc, info).ref == Ref(bc)
  {
  }

  /** Different commits give different events. */
  lemma PushEventInjective(bc: BuildConfig, a: CommitDetails, b: CommitDetails)
    ensures PushEvent(bc, a) == PushEvent(bc, b) <==> a == b
  {
    PushEventRoundTrip(bc, a);
    PushEventRoundTrip(bc, b);
  }

  /** The POST request the launcher sends, with the event in place of its JSON body. */
  datatype WebhookRequest = WebhookRequest(httpMethod: string, url: string, headers: seq<(string, string)>, event: GitHubPushEvent)

  /** The headers that make the request look like a GitHub push delivery. */
  const Headers: seq<(string, string)> := [
    ("User-Agent", "GitHub-Hookshot/github"),
    ("Content-Type", "application/json"),
    ("X-Github-Event", "push")
  ]

  // ---------------------------------------------------------------------
  // The launcher
  // ---------------------------------------------------------------------

  /**
   * The repository listener of one build configuration. It holds the
   * build configuration by value (see `MisaddressedHookAsWritten` for the
   * pointer the code keeps).
   */
  class BuildLauncher {
    const endpoint: string
    const buildConfig: BuildConfig

    constructor (endpoint: string, buildConfig: BuildConfig)
      ensures this.endpoint == endpoint && this.buildConfig == buildConfig
    {
      this.endpoint := endpoint;
      this.buildConfig := buildConfig;
    }

    /**
     * Posts a push event for `info` to the build configuration's webhook.
     * `marshalOk` and `requestOk` say whether encoding the event and
     * building the request succeed; either failure returns without a
     * request. `sendOk` says whether the exchange produced a response: when
     * it does not, reading the status of the missing response panics.
     */
    method CommitAvailable(info: CommitDetails, marshalOk: bool, requestOk: bool, sendOk: bool)
      returns (request: Option<WebhookRequest>, panicked: bool)
      ensures request.Some? <==> marshalOk && requestOk
      ensures request.Some? ==> request.value == WebhookRequest("POST", WebhookURL(endpoint, buildConfig), Headers, PushEvent(buildConfig, info))
      ensures request.Some? ==> CommitOf(request.value.event) == info && request.value.event.ref == Ref(buildConfig)
      ensures request.Some? && '/' !in buildConfig.id && '/' !in buildConfig.secret ==>
                HookTarget(endpoint, request.value.url) == Some(Target(buildConfig.id, buildConfig.secret))
      ensures panicked <==> request.Some? && !sendOk
    {
      var e := PushEvent(buildConfig, info);
      if !marshalOk {
        return None, false;
      }
      var url := WebhookURL(endpoint, buildConfig);
      if !requestOk {
        return None, false;
      }
      request := Some(WebhookRequest("POST", url, Headers, e));
      PushEventRoundTrip(buildConfig, info);
      if '/' !in buildConfig.id && '/' !in buildConfig.secret {
        HookTargetRoundTrip(endpoint, buildConfig);
      }
      panicked := !sendOk;
    }
  }

  // ---------------------------------------------------------------------
  // The registry
  // ---------------------------------------------------------------------

  /** `w` watches the repository of build configuration `id` on behalf of a launcher for `endpoint`. */
  predicate Serves(w: RepositoryWatcher<BuildLauncher>, endpoint: string, id: Id)
  {
    && w.listener.Some?
    && w.listener.value.endpoint == endpoint
    && w.listener.value.buildConfig.id == id
    && w.uri == w.listener.value.buildConfig.uri
    && w.gitRef == ""
  }

  class ConfigWatcher {
    const endpoint: string
    var watchers: map<Id, RepositoryWatcher<BuildLauncher>>
    /** The watchers `BuildConfigDeleted` stopped, in order. */
    ghost var stopped: seq<RepositoryWatcher<BuildLauncher>>
    /** The watchers `BuildConfigAdded` dropped from the map without stopping them. */
    ghost var leaked: seq<RepositoryWatcher<BuildLauncher>>

    /** Each entry serves its own ID, is running, and no watcher is registered twice. */
    ghost predicate Valid()
      reads this, watchers.Values
    {
      && (forall id | id in watchers :: Serves(watchers[id], endpoint, id) && !watchers[id].stop)
      && (forall i, j | i in watchers && j in watchers && i != j :: watchers[i] != watchers[j])
    }

    /** `Start`, without running the build-configuration watcher. */
    constructor (endpoint: string)
      ensures Valid()
      ensures this.endpoint == endpoint && watchers == map[] && stopped == [] && leaked == []
    {
      this.endpoint := endpoint;
      watchers := map[];
      stopped := [];
      leaked := [];
    }

    /**
     * Starts a watcher on the build configuration's repository, with no
     * ref, and registers it under the ID. An entry already registered
     * under that ID is overwritten without being stopped.
     */
    method BuildConfigAdded(bc: BuildConfig)
      requires Valid()
      modifies this
      ensures Valid()
      ensures bc.id in watchers && fresh(watchers[bc.id])
      ensures watchers == old(watchers)[bc.id := watchers[bc.id]]
      ensures var w := watchers[bc.id];
        && w.uri == bc.uri && w.gitRef == ""
        && w.listener.Some? && w.listener.value.buildConfig == bc && w.listener.value.endpoint == endpoint
        && w.commit == "" && w.repoDir == "" && w.calls == [] && w.notified == [] && !w.stop
        && w.Valid()
      ensures stopped == old(stopped)
      ensures leaked == old(leaked) + (if bc.id in old(watchers) then [old(watchers)[bc.id]] else [])
    {
      var launcher := new BuildLauncher(endpoint, bc);
      var watcher := new RepositoryWatcher(bc.uri, "", Some(launcher));
      if bc.id in watchers {
        leaked := leaked + [watchers[bc.id]];
      }
      watchers := watchers[bc.id := watcher];
    }

    /** Stops and unregisters the watcher of `id`; an unknown ID is ignored. */
    method BuildConfigDeleted(id: Id)
      requires Valid()
      modifies this, if id in watchers then {watchers[id]} else {}
      ensures Valid()
      ensures watchers == old(watchers) - {id}
      ensures id in old(watchers) ==> old(watchers)[id].stop && stopped == old(stopped) + [old(watchers)[id]]
      ensures id !in old(watchers) ==> stopped == old(stopped)
      ensures id in old(watchers) ==> var v := old(watchers)[id];
        && v.commit == old(v.commit) && v.repoDir == old(v.repoDir)
        && v.calls == old(v.calls) && v.notified == old(v.notified)
      ensures leaked == old(leaked)
    {
      if id in watchers {
        var watcher := watchers[id];
        watcher.Stop();
        watchers := watchers - {id};
        stopped := stopped + [watcher];
      }
    }
  }

  /** Registering a new ID and then deleting it leaves the registry as it was. */
  method AddThenDelete(w: ConfigWatcher, bc: BuildConfig)
    requires w.Valid() && bc.id !in w.watchers
    modifies w
    ensures w.Valid()
    ensures w.watchers == old(w.watchers)
    ensures w.leaked == old(w.leaked)
    ensures |w.stopped| == |old(w.stopped)| + 1
    ensures w.stopped[..|old(w.stopped)|] == old(w.stopped)
    ensures fresh(w.stopped[|w.stopped| - 1]) && w.stopped[|w.stopped| - 1].stop
  {
    w.BuildConfigAdded(bc);
    RemoveAdded(old(w.watchers), bc.id, w.watchers);
    w.BuildConfigDeleted(bc.id);
  }

  lemma RemoveAdded<K, V>(m: map<K, V>, k: K, added: map<K, V>)
    requires k !in m && k in added && added == m[k := added[k]]
    ensures added - {k} == m
  {
  }

  /** The IDs with a registered watcher after a series of listener calls. */
  function Registry(ids: set<Id>, events: seq<Event>): set<Id>
  {
    if events == [] then ids
    else
      var prev := Registry(ids, events[..|events| - 1]);
      match events[|events| - 1]
      case Added(bc, _) => prev + {bc.id}
      case Deleted(id, _) => prev - {id}
  }

  /**
   * Listener calls delivered to the registry, in order: `BuildConfigAdded`
   * for each `Added` and `BuildConfigDeleted` for each `Deleted`, as `sync`
   * makes them. The registered IDs follow `Registry`.
   */
  method Deliver(w: ConfigWatcher, events: seq<Event>)
    requires w.Valid()
    modifies w, w.watchers.Values
    ensures w.Valid()
    ensures w.watchers.Keys == Registry(old(w.watchers.Keys), events)
  {
    ghost var initial := w.watchers.Values;
    for i := 0 to |events|
      invariant w.Valid()
      invariant w.watchers.Keys == Registry(old(w.watchers.Keys), events[..i])
      invariant forall id | id in w.watchers :: w.watchers[id] in initial || fresh(w.watchers[id])
    {
      assert events[..i + 1][..i] == events[..i];
      match events[i]
      case Added(bc, _) =>
        w.BuildConfigAdded(bc);
      case Deleted(id, _) =>
        w.BuildConfigDeleted(id);
    }
    assert events[..|events|] == events;
  }

  lemma {:induction false} RegistryConcat(ids: set<Id>, first: seq<Event>, second: seq<Event>)
    ensures Registry(ids, first + second) == Registry(Registry(ids, first), second)
    decreases |second|
  {
    if second == [] {
      assert first + second == first;
    } else {
      var n := |second| - 1;
      RegistryConcat(ids, first, second[..n]);
      assert (first + second)[..|first + second| - 1] == first + second[..n];
    }
  }

  /** Over the first loop of a sync, the registry's keys follow the store's. */
  lemma {:induction false} RegistryFollowsAdds(store: map<Id, BuildConfig>, items: seq<BuildConfig>)
    ensures var a := AddItems(store, store.Keys, items);
      Registry(store.Keys, a.added) == a.store.Keys
  {
    if items != [] {
      var n := |items| - 1;
      RegistryFollowsAdds(store, items[..n]);
      var p := AddItems(store, store.Keys, items[..n]);
      var a := AddItems(store, store.Keys, items);
      if items[n].id !in p.pending {
        assert a.added[..|a.added| - 1] == p.added;
      }
    }
  }

  /** Over the second loop of a sync, the registry's keys follow the store's. */
  lemma {:induction false} RegistryFollowsDeletes(store: map<Id, BuildConfig>, order: seq<Id>)
    ensures var d := DeleteIds(store, order);
      Registry(store.Keys, d.deleted) == d.store.Keys
  {
    if order != [] {
      var n := |order| - 1;
      RegistryFollowsDeletes(store, order[..n]);
      var d := DeleteIds(store, order);
      assert d.deleted[..|d.deleted| - 1] == DeleteIds(store, order[..n]).deleted;
    }
  }

  /**
   * A registry that starts with the store's IDs and receives the calls of
   * a successful sync ends with a watcher for exactly the listed IDs.
   */
  lemma RegistryMirrorsSync(store: map<Id, BuildConfig>, items: seq<BuildConfig>, order: seq<Id>)
    requires Enumerates(order, Leftover(store, items))
    ensures var r := SyncSpec(store, items, order);
      Registry(store.Keys, r.added + r.deleted) == Ids(items)
  {
    var a := AddItems(store, store.Keys, items);
    var r := SyncSpec(store, items, order);
    RegistryConcat(store.Keys, r.added, r.deleted);
    RegistryFollowsAdds(store, items);
    RegistryFollowsDeletes(a.store, order);
    SyncStoreKeys(store, items, order);
  }

  // ---------------------------------------------------------------------
  // The launcher's build configuration, as written and as intended
  // ---------------------------------------------------------------------

  /**
   * Two new build configurations listed in one tick, under the pointer
   * semantics of the code: the launcher created for the first ends up
   * posting to the second one's webhook.
   */
  method MisaddressedHookAsWritten(endpoint: string) returns (intended: string, posted: string)
    ensures HookTarget(endpoint, intended) == Some(Target("a", "x"))
    ensures HookTarget(endpoint, posted) == Some(Target("b", "y"))
  {
    var first := BuildConfig("a", "https://git.example.com/a.git", "", "x");
    var second := BuildConfig("b", "https://git.example.com/b.git", "", "y");
    var none: map<Id, BuildConfig> := map[];
    var p0 := AddItems(none, none.Keys, []);
    assert [first][..0] == [];
    var p1 := AddItems(none, none.Keys, [first]);
    assert p1 == AddStep(p0, first);
    assert [first, second][..1] == [first];
    assert AddItems(none, none.Keys, [first, second]) == AddStep(p1, second);
    var handed := HandedPointersAsWritten(none, [first, second]);
    intended := WebhookURL(endpoint, first);
    posted := WebhookURL(endpoint, handed[0].value);
    HookTargetRoundTrip(endpoint, first);
    HookTargetRoundTrip(endpoint, second);
  }

  /**
   * The same two build configurations with the launcher holding its build
   * configuration by value: the first one's launcher posts to its own
   * webhook.
   */
  method AddressedHookCorrected(endpoint: string, info: CommitDetails) returns (intended: string, posted: string)
    ensures HookTarget(endpoint, intended) == Some(Target("a", "x"))
    ensures posted == intended
  {
    var first := BuildConfig("a", "https://git.example.com/a.git", "", "x");
    var second := BuildConfig("b", "https://git.example.com/b.git", "", "y");
    var registry := new ConfigWatcher(endpoint);
    registry.BuildConfigAdded(first);
    var launcher := registry.watchers[first.id].listener.value;
    registry.BuildConfigAdded(second);
    assert registry.watchers[first.id].listener.value == launcher;
    var request, _ := launcher.CommitAvailable(info, true, true, true);
    intended := WebhookURL(endpoint, first);
    posted := request.value.url;
    HookTargetRoundTrip(endpoint, first);
  }
}
