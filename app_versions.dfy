/**
  The app-version engine of kotsadm: sequence allocation, version creation,
  the ordered version listing, the deploy transaction and the row-level
  reads behind realized links and forwarded ports.

  The Postgres store is the class `Store`; each table is a map field:
  `app_version` keyed by (app, sequence), `app_downstream` keyed by
  (app, cluster) holding `current_sequence`, and `app_downstream_version`
  keyed by (app, cluster, sequence) holding status and `applied_at`.
 */
module AppVersions {
  import opened Outcomes
  import opened SpecJoin

  type AppId = string
  type ClusterId = string
  /** The value `time.Now()` would give, passed in by the caller. */
  type Timestamp = int

  /** A spec document as stored in a version row: the empty string, text that does not decode, or a decoded object. */
  datatype StoredSpec<T> = Empty | Undecodable | Decoded(doc: T)

  /** The sig-application `Application` descriptor: only its links matter here. */
  datatype AppDescriptor = AppDescriptor(links: seq<Link>)

  /** The kots `Application` spec: title, icon and application ports. */
  datatype KotsApplication = KotsApplication(title: string, icon: string, ports: seq<AppPort>)

  /** What loading the kots kinds from the version's directory yields. */
  datatype KotsKinds = KotsKinds(kotsApplication: KotsApplication, appSpec: StoredSpec<AppDescriptor>, updateCursor: int)

  datatype App = App(name: string, slug: string)

  /** A row of `app_version`. */
  datatype VersionRow = VersionRow(
    sequence: int,
    updateCursor: int,
    source: string,
    appName: string,
    appIcon: string,
    appSpec: StoredSpec<AppDescriptor>,
    kotsAppSpec: StoredSpec<KotsApplication>)

  datatype Status = Pending | Deployed | Other(name: string)

  /** A row of `app_downstream_version`. */
  datatype DownstreamVersion = DownstreamVersion(status: Status, appliedAt: Option<Timestamp>)

  /** Where the deploy transaction fails, if it fails. */
  datatype DeployFault = NoFault | BeginFails | PointerUpdateFails | StatusUpdateFails | CommitFails

  /** The GitOps configuration of one downstream. */
  datatype GitOpsConfig = GitOpsConfig(repoURI: string, branch: string)

  // ---------------------------------------------------------------------
  // The listing order: `order by update_cursor asc, sequence asc`

  datatype CursorKey = CursorKey(updateCursor: int, sequence: int)

  predicate KeyBefore(a: CursorKey, b: CursorKey) {
    a.updateCursor < b.updateCursor || (a.updateCursor == b.updateCursor && a.sequence < b.sequence)
  }

  function KeyOf(row: VersionRow): CursorKey {
    CursorKey(row.updateCursor, row.sequence)
  }

  predicate StrictlySorted(ks: seq<CursorKey>) {
    forall i, j :: 0 <= i < j < |ks| ==> KeyBefore(ks[i], ks[j])
  }

  /** Puts `k` into its place in a strictly sorted list of keys. */
  function InsertKey(ks: seq<CursorKey>, k: CursorKey): (r: seq<CursorKey>)
    requires StrictlySorted(ks) && k !in ks
    ensures StrictlySorted(r)
    ensures forall x :: x in r <==> x in ks || x == k
  {
    if ks == [] then [k]
    else if KeyBefore(k, ks[0]) then [k] + ks
    else
      var rest := InsertKey(ks[1..], k);
      assert forall x :: x in ks[1..] ==> KeyBefore(ks[0], x);
      [ks[0]] + rest
  }

  /** Sorts a set of keys: the engine side of the `order by`. */
  method SortKeys(keys: set<CursorKey>) returns (sorted: seq<CursorKey>)
    ensures StrictlySorted(sorted)
    ensures forall k :: k in sorted <==> k in keys
  {
    sorted := [];
    var pending := keys;
    while pending != {}
      invariant pending <= keys
      invariant StrictlySorted(sorted)
      invariant forall k :: k in sorted <==> k in keys && k !in pending
      decreases pending
    {
      var k :| k in pending;
      sorted := InsertKey(sorted, k);
      pending := pending - {k};
    }
  }

  /** A set of keys has only one strictly sorted listing. */
  lemma {:induction false} SortedListingUnique(xs: seq<CursorKey>, ys: seq<CursorKey>)
    requires StrictlySorted(xs) && StrictlySorted(ys)
    requires forall k :: k in xs <==> k in ys
    ensures xs == ys
  {
    assert |xs| > 0 ==> xs[0] in xs;
    assert |ys| > 0 ==> ys[0] in ys;
    if xs != [] && ys != [] {
      var x0, y0 := xs[0], ys[0];
      var j :| 0 <= j < |ys| && ys[j] == x0;
      var i :| 0 <= i < |xs| && xs[i] == y0;
      assert i == 0 || KeyBefore(x0, y0);
      assert j == 0 || KeyBefore(y0, x0);
      assert xs[0] == ys[0];
      forall k
        ensures k in xs[1..] <==> k in ys[1..]
      {
        if k in xs[1..] {
          var i :| 1 <= i < |xs| && xs[i] == k;
          assert KeyBefore(xs[0], xs[i]);
          assert k in xs && k in ys;
          var j :| 0 <= j < |ys| && ys[j] == k;
          assert j != 0;
          assert ys[1..][j - 1] == k;
        }
        if k in ys[1..] {
          var j :| 1 <= j < |ys| && ys[j] == k;
          assert KeyBefore(ys[0], ys[j]);
          assert k in ys && k in xs;
          var i :| 0 <= i < |xs| && xs[i] == k;
          assert i != 0;
          assert xs[1..][i - 1] == k;
        }
      }
      SortedListingUnique(xs[1..], ys[1..]);
      assert xs == [xs[0]] + xs[1..] && ys == [ys[0]] + ys[1..];
    }
  }

  /**
    Versions with cursors 2, 1, 1 at sequences 0, 1, 2 are listed as
    sequences 1, 2, 0: the cursor decides first and the sequence breaks ties.
   */
  lemma ListingOrderExample(listing: seq<CursorKey>)
    requires StrictlySorted(listing)
    requires forall k :: k in listing <==> k in {CursorKey(2, 0), CursorKey(1, 1), CursorKey(1, 2)}
    ensures listing == [CursorKey(1, 1), CursorKey(1, 2), CursorKey(2, 0)]
  {
    var expected := [CursorKey(1, 1), CursorKey(1, 2), CursorKey(2, 0)];
    assert StrictlySorted(expected);
    SortedListingUnique(listing, expected);
  }

  // ---------------------------------------------------------------------
  // The deploy transaction's two updates

  /**
    `update app_downstream set current_sequence = $1 where app_id = $2`:
    no row is added or removed, every cluster of the app points at
    `sequence`, and the rows of other apps are as they were.
   */
  function PointDownstreams(downstreams: map<(AppId, ClusterId), int>, app: AppId, sequence: int)
    : (d: map<(AppId, ClusterId), int>)
    ensures d.Keys == downstreams.Keys
    ensures forall c :: (app, c) in d ==> d[(app, c)] == sequence
    ensures forall k :: k in d && k.0 != app ==> d[k] == downstreams[k]
  {
    map k | k in downstreams :: if k.0 == app then sequence else downstreams[k]
  }

  /**
    `update app_downstream_version set status = 'deployed', applied_at = $3
    where sequence = $1 and app_id = $2`: no row is added or removed, each
    cluster's row of the app for `sequence` is deployed at `now`, and the
    rows of other apps, and the app's rows for other sequences, are as they
    were.
   */
  function MarkDeployed(rows: map<(AppId, ClusterId, int), DownstreamVersion>, app: AppId, sequence: int, now: Timestamp)
    : (v: map<(AppId, ClusterId, int), DownstreamVersion>)
    ensures v.Keys == rows.Keys
    ensures forall c :: (app, c, sequence) in v ==> v[(app, c, sequence)] == DownstreamVersion(Deployed, Some(now))
    ensures forall k :: k in v && (k.0 != app || k.2 != sequence) ==> v[k] == rows[k]
  {
    map k | k in rows :: if k.0 == app && k.2 == sequence then DownstreamVersion(Deployed, Some(now)) else rows[k]
  }

  /**
    Deploying the same sequence twice leaves the state of one deploy,
    stamped with the later time: only `applied_at` differs.
   */
  lemma {:induction false} DeployIdempotent(
    downstreams: map<(AppId, ClusterId), int>, rows: map<(AppId, ClusterId, int), DownstreamVersion>,
    app: AppId, sequence: int, first: Timestamp, second: Timestamp)
    ensures PointDownstreams(PointDownstreams(downstreams, app, sequence), app, sequence)
            == PointDownstreams(downstreams, app, sequence)
    ensures MarkDeployed(MarkDeployed(rows, app, sequence, first), app, sequence, second)
            == MarkDeployed(rows, app, sequence, second)
  {
    var d := PointDownstreams(downstreams, app, sequence);
    assert PointDownstreams(d, app, sequence) == d by {
      assert forall k :: k in d ==> PointDownstreams(d, app, sequence)[k] == d[k];
    }
    var v1 := MarkDeployed(rows, app, sequence, first);
    var v2 := MarkDeployed(rows, app, sequence, second);
    assert MarkDeployed(v1, app, sequence, second) == v2 by {
      assert forall k :: k in v2 ==> MarkDeployed(v1, app, sequence, second)[k] == v2[k];
    }
  }

  /**
    Re-deploying the sequence that is already current and already deployed
    changes nothing but the `applied_at` stamps of that sequence's rows.
   */
  lemma {:induction false} RedeployOnlyRestamps(
    downstreams: map<(AppId, ClusterId), int>, rows: map<(AppId, ClusterId, int), DownstreamVersion>,
    app: AppId, sequence: int, now: Timestamp)
    requires forall k :: k in downstreams && k.0 == app ==> downstreams[k] == sequence
    requires forall k :: k in rows && k.0 == app && k.2 == sequence ==> rows[k].status == Deployed
    ensures PointDownstreams(downstreams, app, sequence) == downstreams
    ensures var v := MarkDeployed(rows, app, sequence, now);
            v.Keys == rows.Keys && forall k :: k in v ==> v[k].status == rows[k].status
  {
    assert forall k :: k in downstreams ==> PointDownstreams(downstreams, app, sequence)[k] == downstreams[k];
  }

  // ---------------------------------------------------------------------
  // Link/port reads of one version row

  /**
    What `GetRealizedLinksFromAppSpec` returns for a stored row: no links for
    an empty descriptor, an error when the descriptor cannot be decoded or
    the kots spec is empty or cannot be decoded, and otherwise one realized
    link per descriptor link.
   */
  function RowRealizedLinks(row: VersionRow): (r: Result<seq<RealizedLink>>)
    ensures row.appSpec.Empty? ==> r == Ok([])
    ensures r.Err? <==> row.appSpec.Undecodable? || (row.appSpec.Decoded? && !row.kotsAppSpec.Decoded?)
    ensures row.appSpec.Decoded? && row.kotsAppSpec.Decoded? ==>
              r == Ok(RealizedLinks(row.appSpec.doc.links, row.kotsAppSpec.doc.ports)) &&
              |r.value| == |row.appSpec.doc.links|
  {
    match row.appSpec
    case Empty => Ok([])
    case Undecodable => Err("failed to decode app spec yaml")
    case Decoded(descriptor) =>
      match row.kotsAppSpec
      case Decoded(kotsApp) =>
        RealizedLinksLength(descriptor.links, kotsApp.ports);
        Ok(RealizedLinks(descriptor.links, kotsApp.ports))
      case _ => Err("failed to decode kots app spec yaml")
  }

  /**
    What `GetForwardedPortsFromAppSpec` returns for a stored row: no ports
    when either spec is empty, and an error exactly when neither is empty
    and one of them cannot be decoded.
   */
  function RowForwardedPorts(row: VersionRow): (r: Result<seq<ForwardedPort>>)
    ensures row.appSpec.Empty? || row.kotsAppSpec.Empty? ==> r == Ok([])
    ensures r.Err? <==> !row.appSpec.Empty? && !row.kotsAppSpec.Empty? &&
                        (row.appSpec.Undecodable? || row.kotsAppSpec.Undecodable?)
  {
    if row.appSpec.Empty? || row.kotsAppSpec.Empty? then Ok([])
    else if row.appSpec.Undecodable? then Err("failed to decode app spec yaml")
    else if row.kotsAppSpec.Undecodable? then Err("failed to decode kots app spec yaml")
    else if row.kotsAppSpec.doc.ports == [] then Ok([])
    else Ok(ForwardedPorts(row.appSpec.doc.links, row.kotsAppSpec.doc.ports))
  }

  /** The early return for an empty port list gives what the join would have given. */
  lemma RowForwardedPortsIsJoin(row: VersionRow)
    requires row.appSpec.Decoded? && row.kotsAppSpec.Decoded?
    ensures RowForwardedPorts(row) == Ok(ForwardedPorts(row.appSpec.doc.links, row.kotsAppSpec.doc.ports))
  {
    if row.kotsAppSpec.doc.ports == [] {
      ForwardedPortsWithoutPorts(row.appSpec.doc.links);
    }
  }

  /** The display name of a new version: the spec title, or the stored app name when the title is empty. */
  function ResolvedAppName(title: string, apps: map<AppId, App>, app: AppId): (r: Option<string>)
    ensures title != "" ==> r == Some(title)
    ensures title == "" ==> (r.Some? <==> app in apps)
    ensures title == "" && app in apps ==> r == Some(apps[app].name)
  {
    if title != "" then Some(title)
    else if app in apps then Some(apps[app].name)
    else None
  }

  /** The row a successful creation inserts. */
  function NewVersionRow(sequence: int, kinds: KotsKinds, name: string, source: string): VersionRow {
    VersionRow(sequence, kinds.updateCursor, source, name, kinds.kotsApplication.icon,
               kinds.appSpec, Decoded(kinds.kotsApplication))
  }

  /**
    Sequences stay gap-free: when an app's versions are numbered 0 to n - 1,
    a first version (sequence 0, which must be free) or an update (one more
    than the largest stored sequence) is numbered n, and the app's versions
    are then numbered 0 to n.
   */
  lemma SequencesStayGapFree(sequences: set<int>, n: nat, next: int)
    requires forall s :: s in sequences <==> 0 <= s < n
    requires (next == 0 && next !in sequences) ||
             (next - 1 in sequences && forall s :: s in sequences ==> s < next)
    ensures next == n
    ensures forall s :: s in sequences + {next} <==> 0 <= s < n + 1
  {
    if n > 0 {
      assert n - 1 in sequences && 0 in sequences;
    }
  }

  class Store {
    var apps: map<AppId, App>
    var versions: map<(AppId, int), VersionRow>
    var downstreams: map<(AppId, ClusterId), int>
    var downstreamVersions: map<(AppId, ClusterId, int), DownstreamVersion>

    /** Each version row carries the sequence it is keyed by. */
    ghost predicate Valid()
      reads this
    {
      forall k :: k in versions ==> versions[k].sequence == k.1
    }

    constructor (apps: map<AppId, App>)
      ensures Valid()
      ensures this.apps == apps && versions == map[] && downstreams == map[] && downstreamVersions == map[]
    {
      this.apps := apps;
      versions := map[];
      downstreams := map[];
      downstreamVersions := map[];
    }

    /** The sequences the app's versions are stored under. */
    ghost function SequencesOf(app: AppId): set<int>
      reads this
    {
      set k | k in versions && k.0 == app :: k.1
    }

    /** `k` is the listing key of one of the app's versions. */
    ghost predicate IsKeyOf(app: AppId, k: CursorKey)
      reads this
    {
      (app, k.sequence) in versions && versions[(app, k.sequence)].updateCursor == k.updateCursor
    }

    /** `select max(sequence) from app_version where app_id = $1`; scanning its NULL for an app without versions fails. */
    method MaxSequence(app: AppId) returns (m: Option<int>)
      ensures m.None? <==> SequencesOf(app) == {}
      ensures m.Some? ==> m.value in SequencesOf(app) && forall s :: s in SequencesOf(app) ==> s <= m.value
    {
      m := None;
      var pending := versions.Keys;
      while pending != {}
        invariant pending <= versions.Keys
        invariant m.None? <==> forall k :: k in versions && k !in pending ==> k.0 != app
        invariant m.Some? ==> (app, m.value) in versions &&
                              forall k :: k in versions && k !in pending && k.0 == app ==> k.1 <= m.value
        decreases pending
      {
        var k :| k in pending;
        if k.0 == app && (m.None? || m.value < k.1) {
          m := Some(k.1);
        }
        pending := pending - {k};
      }
      if m.Some? {
        assert m.value in SequencesOf(app);
      } else {
        assert forall s :: s in SequencesOf(app) ==> (app, s) in versions;
      }
    }

    /**
      The next sequence for a new version: 0 when no current sequence is
      given (the store is not consulted), otherwise one more than the
      largest stored sequence. The value of `currentSequence` is never used,
      only its presence.
     */
    method GetNextAppSequence(app: AppId, currentSequence: Option<int>) returns (r: Result<int>)
      ensures currentSequence.None? ==> r == Ok(0)
      ensures currentSequence.Some? ==> (r.Err? <==> SequencesOf(app) == {})
      ensures currentSequence.Some? && r.Ok? ==>
                r.value - 1 in SequencesOf(app) && forall s :: s in SequencesOf(app) ==> s < r.value
    {
      var newSequence := 0;
      if currentSequence.Some? {
        var max := MaxSequence(app);
        if max.None? {
          return Err("failed to find current max sequence in row");
        }
        newSequence := max.value;
        newSequence := newSequence + 1;
      }
      return Ok(newSequence);
    }

    /**
      `CreateAppVersion` of the store: allocates the sequence as
      `GetNextAppSequence` does and inserts the row; a primary key on
      (app, sequence) refuses a sequence that is already taken.
     */
    method CreateAppVersion(app: AppId, currentSequence: Option<int>, name: string, kinds: KotsKinds,
                            source: string, storeFails: bool) returns (r: Result<int>)
      requires Valid()
      modifies this
      ensures Valid()
      ensures apps == old(apps) && downstreams == old(downstreams) && downstreamVersions == old(downstreamVersions)
      ensures r.Err? ==> versions == old(versions)
      ensures r.Ok? ==> (app, r.value) !in old(versions) &&
                        versions == old(versions)[(app, r.value) := NewVersionRow(r.value, kinds, name, source)]
      ensures r.Ok? && currentSequence.None? ==> r.value == 0
      ensures r.Ok? && currentSequence.Some? ==>
                r.value - 1 in old(SequencesOf(app)) && forall s :: s in old(SequencesOf(app)) ==> s < r.value
      ensures r.Ok? ==> SequencesOf(app) == old(SequencesOf(app)) + {r.value}
      ensures r.Ok? <==> && !storeFails
                         && (currentSequence.None? ==> (app, 0) !in old(versions))
                         && (currentSequence.Some? ==> old(SequencesOf(app)) != {})
    {
      var next := GetNextAppSequence(app, currentSequence);
      if next.Err? {
        return Err("failed to get next sequence: " + next.msg);
      }
      if (app, next.value) in versions {
        // Only the first version can collide: a later one is numbered above every stored sequence.
        assert next.value in SequencesOf(app);
        return Err("duplicate key value violates unique constraint");
      }
      if storeFails {
        return Err("failed to create app version");
      }
      ghost var before := SequencesOf(app);
      versions := versions[(app, next.value) := NewVersionRow(next.value, kinds, name, source)];
      assert forall s :: s in SequencesOf(app) <==> s in before || s == next.value by {
        forall s ensures s in SequencesOf(app) <==> s in before || s == next.value {
          assert s in SequencesOf(app) <==> (app, s) in versions;
          assert s in before <==> (app, s) in old(versions);
        }
      }
      return Ok(next.value);
    }

    /**
      `createVersion`: load the kots kinds, resolve the name and icon,
      replace secrets, then persist. A failure before the store call
      creates no row.
     */
    method CreateVersionFromFiles(app: AppId, source: string, currentSequence: Option<int>,
                                  loaded: Result<KotsKinds>, secretsReplaced: Outcome, storeFails: bool)
      returns (r: Result<int>)
      requires Valid()
      modifies this
      ensures Valid()
      ensures apps == old(apps) && downstreams == old(downstreams) && downstreamVersions == old(downstreamVersions)
      ensures loaded.Err? ==> r.Err?
      ensures loaded.Ok? && ResolvedAppName(loaded.value.kotsApplication.title, apps, app).None? ==> r.Err?
      ensures secretsReplaced.Fail? ==> r.Err?
      ensures r.Err? ==> versions == old(versions)
      ensures r.Ok? ==>
                && loaded.Ok? && secretsReplaced.Pass?
                && ResolvedAppName(loaded.value.kotsApplication.title, apps, app).Some?
                && (app, r.value) !in old(versions)
                && versions == old(versions)[(app, r.value) := NewVersionRow(r.value, loaded.value,
                     ResolvedAppName(loaded.value.kotsApplication.title, apps, app).value, source)]
      ensures r.Ok? && currentSequence.None? ==> r.value == 0
      ensures r.Ok? && currentSequence.Some? ==>
                r.value - 1 in old(SequencesOf(app)) && forall s :: s in old(SequencesOf(app)) ==> s < r.value
      ensures r.Ok? ==> SequencesOf(app) == old(SequencesOf(app)) + {r.value}
      ensures r.Ok? <==> && loaded.Ok? && secretsReplaced.Pass? && !storeFails
                         && ResolvedAppName(loaded.value.kotsApplication.title, apps, app).Some?
                         && (currentSequence.None? ==> (app, 0) !in old(versions))
                         && (currentSequence.Some? ==> old(SequencesOf(app)) != {})
    {
      if loaded.Err? {
        return Err("failed to read kots kinds: " + loaded.msg);
      }
      var kotsKinds := loaded.value;

      var appName := kotsKinds.kotsApplication.title;
      if appName == "" {
        if app !in apps {
          return Err("failed to get app");
        }
        appName := apps[app].name;
      }

      if secretsReplaced.Fail? {
        return Err("failed to replace secrets: " + secretsReplaced.msg);
      }

      var created := CreateAppVersion(app, currentSequence, appName, kotsKinds, source, storeFails);
      if created.Err? {
        return Err("failed to create app version: " + created.msg);
      }
      return Ok(created.value);
    }

    /** `CreateFirstVersion`: no current sequence, so the new version is sequence 0. */
    method CreateFirstVersion(app: AppId, source: string, loaded: Result<KotsKinds>, secretsReplaced: Outcome,
                              storeFails: bool) returns (r: Result<int>)
      requires Valid()
      modifies this
      ensures Valid()
      ensures r.Ok? <==> && loaded.Ok? && secretsReplaced.Pass? && !storeFails
                         && ResolvedAppName(loaded.value.kotsApplication.title, apps, app).Some?
                         && (app, 0) !in old(versions)
      ensures r.Ok? ==> r.value == 0 &&
                        versions == old(versions)[(app, 0) := NewVersionRow(0, loaded.value,
                          ResolvedAppName(loaded.value.kotsApplication.title, apps, app).value, source)]
      ensures r.Ok? ==> SequencesOf(app) == old(SequencesOf(app)) + {0}
      ensures r.Err? ==> versions == old(versions)
      ensures apps == old(apps) && downstreams == old(downstreams) && downstreamVersions == old(downstreamVersions)
    {
      r := CreateVersionFromFiles(app, source, None, loaded, secretsReplaced, storeFails);
    }

    /** `CreateVersion`: an update, numbered after every version already stored. */
    method CreateVersion(app: AppId, source: string, currentSequence: int, loaded: Result<KotsKinds>,
                         secretsReplaced: Outcome, storeFails: bool) returns (r: Result<int>)
      requires Valid()
      modifies this
      ensures Valid()
      ensures r.Ok? <==> && loaded.Ok? && secretsReplaced.Pass? && !storeFails
                         && ResolvedAppName(loaded.value.kotsApplication.title, apps, app).Some?
                         && old(SequencesOf(app)) != {}
      ensures r.Ok? ==> && r.value - 1 in old(SequencesOf(app))
                        && (forall s :: s in old(SequencesOf(app)) ==> s < r.value)
                        && SequencesOf(app) == old(SequencesOf(app)) + {r.value}
                        && (app, r.value) !in old(versions)
                        && versions == old(versions)[(app, r.value) := NewVersionRow(r.value, loaded.value,
                             ResolvedAppName(loaded.value.kotsApplication.title, apps, app).value, source)]
      ensures r.Err? ==> versions == old(versions)
      ensures apps == old(apps) && downstreams == old(downstreams) && downstreamVersions == old(downstreamVersions)
    {
      r := CreateVersionFromFiles(app, source, Some(currentSequence), loaded, secretsReplaced, storeFails);
    }

    /**
      `CreateGitOpsDownstreamCommit`: nothing to do, and no error, when the
      downstream has no GitOps configuration; a failed lookup is returned.
      `lookup` and `commit` stand for the GitOps package's answers.
     */
    function CreateGitOpsDownstreamCommit(app: AppId, lookup: Result<Option<GitOpsConfig>>, commit: Result<string>)
      : (r: Result<string>)
      reads this
      ensures lookup.Err? ==> r.Err?
      ensures lookup == Ok(None) ==> r == Ok("")
      ensures r.Ok? && r.value != "" ==> lookup.Ok? && lookup.value.Some? && app in apps && commit == r
    {
      match lookup
      case Err(e) => Err("failed to get downstream gitops: " + e)
      case Ok(None) => Ok("")
      case Ok(Some(_)) =>
        if app !in apps then Err("failed to get app")
        else match commit
          case Err(e) => Err("failed to create gitops commit: " + e)
          case Ok(url) => Ok(url)
    }

    /** `select sequence from app_version where app_id = $1 order by update_cursor asc, sequence asc`. */
    method ListSequences(app: AppId) returns (listing: seq<CursorKey>)
      ensures StrictlySorted(listing)
      ensures forall k :: k in listing <==> IsKeyOf(app, k)
    {
      var keys := set k | k in versions.Keys && k.0 == app :: CursorKey(versions[k].updateCursor, k.1);
      listing := SortKeys(keys);
      forall k | IsKeyOf(app, k) ensures k in keys {
        var vk := (app, k.sequence);
        assert vk in versions.Keys && CursorKey(versions[vk].updateCursor, vk.1) == k;
      }
    }

    /**
      `GetAppVersion` of the store: the stored row, or nothing for the
      sequences it reports missing; it fails for `lookupFails`.
     */
    method GetAppVersion(app: AppId, sequence: int, lookupFails: set<int>, missing: set<int>)
      returns (r: Result<Option<VersionRow>>)
      ensures sequence in lookupFails <==> r.Err?
      ensures r.Ok? && r.value.Some? <==> sequence !in lookupFails && sequence !in missing && (app, sequence) in versions
      ensures r.Ok? && r.value.Some? ==> r.value.value == versions[(app, sequence)]
    {
      if sequence in lookupFails {
        return Err("failed to get version");
      }
      if sequence in missing || (app, sequence) !in versions {
        return Ok(None);
      }
      return Ok(Some(versions[(app, sequence)]));
    }

    /**
      `GetVersions`: the app's versions, ordered by update cursor and then
      sequence, leaving out those the store reports missing; any failure
      returns an error and no list.
     */
    method GetVersions(app: AppId, queryFails: bool, lookupFails: set<int>, missing: set<int>)
      returns (r: Result<seq<VersionRow>>)
      requires Valid()
      ensures queryFails ==> r.Err?
      ensures !queryFails ==> (r.Err? <==> exists s :: s in lookupFails && s in SequencesOf(app))
      ensures r.Ok? ==> forall i, j :: 0 <= i < j < |r.value| ==> KeyBefore(KeyOf(r.value[i]), KeyOf(r.value[j]))
      ensures r.Ok? ==> forall v :: v in r.value <==>
                          v.sequence in SequencesOf(app) && v.sequence !in missing && versions[(app, v.sequence)] == v
    {
      if queryFails {
        return Err("failed to query app_version table");
      }
      var listing := ListSequences(app);
      var found: seq<VersionRow> := [];
      for i := 0 to |listing|
        invariant forall m :: 0 <= m < i ==> listing[m].sequence !in lookupFails
        invariant forall m, n :: 0 <= m < n < |found| ==> KeyBefore(KeyOf(found[m]), KeyOf(found[n]))
        invariant forall m, n :: 0 <= m < |found| && i <= n < |listing| ==> KeyBefore(KeyOf(found[m]), listing[n])
        invariant forall v :: v in found <==>
                    exists m :: 0 <= m < i && (app, listing[m].sequence) in versions && listing[m].sequence !in missing &&
                             v == versions[(app, listing[m].sequence)]
      {
        var key := listing[i];
        assert IsKeyOf(app, key);
        var v := GetAppVersion(app, key.sequence, lookupFails, missing);
        if v.Err? {
          assert key.sequence in SequencesOf(app);
          return Err("failed to get version");
        }
        if v.value.Some? {
          assert KeyOf(v.value.value) == key;
          found := found + [v.value.value];
        }
      }
      forall s | s in SequencesOf(app) ensures s !in lookupFails {
        var k := CursorKey(versions[(app, s)].updateCursor, s);
        assert IsKeyOf(app, k);
      }
      forall v: VersionRow | v.sequence in SequencesOf(app) && v.sequence !in missing && versions[(app, v.sequence)] == v
        ensures v in found
      {
        assert IsKeyOf(app, KeyOf(v));
        var m :| 0 <= m < |listing| && listing[m] == KeyOf(v);
      }
      forall v | v in found
        ensures v.sequence in SequencesOf(app) && v.sequence !in missing && versions[(app, v.sequence)] == v
      {
        var m :| 0 <= m < |listing| && (app, listing[m].sequence) in versions && listing[m].sequence !in missing &&
                 v == versions[(app, listing[m].sequence)];
        assert IsKeyOf(app, listing[m]);
      }
      return Ok(found);
    }

    /**
      `DeployVersion`: in one transaction, point every downstream of the
      app at `sequence` and mark the app's rows for `sequence` deployed at
      `now`. A failure anywhere before the commit leaves both tables as
      they were.
     */
    method DeployVersion(app: AppId, sequence: int, now: Timestamp, fault: DeployFault) returns (r: Outcome)
      modifies this
      ensures fault == NoFault <==> r == Pass
      ensures r == Pass ==> downstreams == PointDownstreams(old(downstreams), app, sequence) &&
                            downstreamVersions == MarkDeployed(old(downstreamVersions), app, sequence, now)
      ensures r.Fail? ==> downstreams == old(downstreams) && downstreamVersions == old(downstreamVersions)
      ensures apps == old(apps) && versions == old(versions)
    {
      if fault == BeginFails {
        return Fail("failed to begin");
      }
      // The transaction's view of the two tables; nothing is written back before the commit.
      var txDownstreams := downstreams;
      var txDownstreamVersions := downstreamVersions;

      if fault == PointerUpdateFails {
        return Fail("failed to update app downstream current sequence");
      }
      txDownstreams := map k | k in txDownstreams :: if k.0 == app then sequence else txDownstreams[k];

      if fault == StatusUpdateFails {
        return Fail("failed to update app downstream version status");
      }
      txDownstreamVersions := map k | k in txDownstreamVersions ::
        if k.0 == app && k.2 == sequence then DownstreamVersion(Deployed, Some(now)) else txDownstreamVersions[k];

      if fault == CommitFails {
        return Fail("failed to commit");
      }
      downstreams, downstreamVersions := txDownstreams, txDownstreamVersions;
      return Pass;
    }

    /** `GetRealizedLinksFromAppSpec` for an (app, sequence). */
    method GetRealizedLinksFromAppSpec(app: AppId, sequence: int) returns (r: Result<seq<RealizedLink>>)
      ensures (app, sequence) !in versions ==> r == Ok([])
      ensures (app, sequence) in versions ==> r == RowRealizedLinks(versions[(app, sequence)])
    {
      if (app, sequence) !in versions {
        return Ok([]);
      }
      var row := versions[(app, sequence)];
      if row.appSpec.Empty? {
        return Ok([]);
      }
      if row.appSpec.Undecodable? {
        return Err("failed to decode app spec yaml");
      }
      if !row.kotsAppSpec.Decoded? {
        return Err("failed to decode kots app spec yaml");
      }
      var links := RealizeLinks(row.appSpec.doc.links, row.kotsAppSpec.doc.ports);
      return Ok(links);
    }

    /** `GetForwardedPortsFromAppSpec` for an (app, sequence). */
    method GetForwardedPortsFromAppSpec(app: AppId, sequence: int) returns (r: Result<seq<ForwardedPort>>)
      ensures (app, sequence) !in versions ==> r == Ok([])
      ensures (app, sequence) in versions ==> r == RowForwardedPorts(versions[(app, sequence)])
    {
      if (app, sequence) !in versions {
        return Ok([]);
      }
      var row := versions[(app, sequence)];
      if row.appSpec.Empty? || row.kotsAppSpec.Empty? {
        return Ok([]);
      }
      if row.appSpec.Undecodable? {
        return Err("failed to decode app spec yaml");
      }
      if row.kotsAppSpec.Undecodable? {
        return Err("failed to decode kots app spec yaml");
      }
      if row.kotsAppSpec.doc.ports == [] {
        return Ok([]);
      }
      var ports := ForwardPorts(row.appSpec.doc.links, row.kotsAppSpec.doc.ports);
      return Ok(ports);
    }
  }
}
