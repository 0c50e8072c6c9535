/** The release publisher: any number of publishers against one object store, interleaved at
    every request and stopping anywhere.  The store offers the conditional PUTs of RFC 9110,
    sections 13.1.1 (If-Match) and 13.1.2 (If-None-Match); an entity tag matches only while the
    object is unchanged. */
module Publisher {
  import opened Octets

  // ---------------------------------------------------------------- repository objects

  /** A stable version: no prerelease and no build metadata. */
  datatype Version = Version(major: u64, minor: u64, patch: u64)

  predicate Less(a: Version, b: Version) {
    || a.major < b.major
    || (a.major == b.major && a.minor < b.minor)
    || (a.major == b.major && a.minor == b.minor && a.patch < b.patch)
  }

  /** The place of a version in the order of SemVer: its parts are 64 bits wide. */
  function Rank(v: Version): nat {
    (v.major * 0x1_0000_0000_0000_0000 + v.minor) * 0x1_0000_0000_0000_0000 + v.patch
  }

  lemma LessByRank()
    ensures forall a, b :: Less(a, b) <==> Rank(a) < Rank(b)
  {
  }

  /** In that order the major part decides, then the minor one, then the patch, and no two versions
      share a place. */
  lemma RankByParts(a: Version, b: Version)
    ensures a.major < b.major ==> Rank(a) < Rank(b)
    ensures a.major == b.major && a.minor < b.minor ==> Rank(a) < Rank(b)
    ensures a.major == b.major && a.minor == b.minor && a.patch < b.patch ==> Rank(a) < Rank(b)
    ensures Rank(a) == Rank(b) <==> a == b
  {
  }

  datatype AssetName = WebserverX86 | WebserverAarch64 | StaticArchive

  const ASSET_NAMES: seq<AssetName> := [WebserverX86, WebserverAarch64, StaticArchive]

  datatype Asset = Asset(sha256: seq<char>, size: u64)

  datatype Assets = Assets(x86: Asset, aarch64: Asset, archive: Asset) {
    function Get(n: AssetName): Asset {
      match n
      case WebserverX86 => x86
      case WebserverAarch64 => aarch64
      case StaticArchive => archive
    }
  }

  const PROTOCOL_VERSION: u64 := 1

  datatype Key =
    | RepositoryKey
    | AssetKey(version: Version, name: AssetName)
    | ManifestKey(version: Version)
    | StableKey

  datatype Body =
    | Descriptor(protocolVersion: u64)
    | AssetData(asset: Asset)
    | Manifest(assets: Assets)
    | Channel(version: Version)

  datatype Stored = Stored(body: Body, etag: nat)

  // ---------------------------------------------------------------- publishers

  datatype Outcome = Published | ReleaseExists | ObjectExists(key: Key) | ConcurrentUpdate | Failed

  /** Where a publisher stands: the request it sends next.  `seen` is history: how many writes of
      the stable channel there had been when the publisher read it. */
  datatype Pc =
    | GetRepository | PutRepository | RecheckRepository
    | HeadManifest
    | HeadAsset(i: nat) | PutAsset(i: nat)
    | PutManifest
    | GetStable(attempt: nat)
    | PutStableAbsent(attempt: nat)
    | PutStableOver(attempt: nat, etag: Option<nat>, seen: nat)
    | Finished(outcome: Outcome)

  /** One call of `publish`; `since` is the number of stable writes when `update_stable` began. */
  datatype Call = Call(version: Version, assets: Assets, pc: Pc, since: nat)

  datatype StableWrite = StableWrite(author: nat, version: Version)

  /** The store, whether it returns entity tags, and the history of the stable channel. */
  datatype World = World(
    bucket: map<Key, Stored>, clock: nat, tagged: bool, calls: map<nat, Call>, log: seq<StableWrite>)

  const MAX_ATTEMPTS: nat := 3

  datatype Event =
    | Start(id: nat, version: Version, assets: Assets)
    | Act(id: nat)
    | ActAndFail(id: nat)
    | Stop(id: nat)

  function Goto(w: World, id: nat, pc: Pc): World
    requires id in w.calls
  {
    w.(calls := w.calls[id := w.calls[id].(pc := pc)])
  }

  function Put(w: World, key: Key, body: Body): World {
    w.(bucket := w.bucket[key := Stored(body, w.clock)], clock := w.clock + 1)
  }

  function WriteStable(w: World, id: nat): World
    requires id in w.calls
  {
    var v := w.calls[id].version;
    Goto(Put(w, StableKey, Channel(v)).(log := w.log + [StableWrite(id, v)]), id, Finished(Published))
  }

  function AfterAsset(i: nat): Pc {
    if i + 1 < |ASSET_NAMES| then HeadAsset(i + 1) else PutManifest
  }

  function Again(attempt: nat): Pc {
    if attempt + 1 < MAX_ATTEMPTS then GetStable(attempt + 1) else Finished(ConcurrentUpdate)
  }

  /** The answer to one request, and where it sends the publisher. */
  function Request(w: World, id: nat): World
    requires id in w.calls
  {
    var c := w.calls[id];
    match c.pc
    case GetRepository =>
      if RepositoryKey !in w.bucket then Goto(w, id, PutRepository)
      else if w.bucket[RepositoryKey].body == Descriptor(PROTOCOL_VERSION) then Goto(w, id, HeadManifest)
      else Goto(w, id, Finished(Failed))
    case PutRepository =>
      var w' := if RepositoryKey in w.bucket then w else Put(w, RepositoryKey, Descriptor(PROTOCOL_VERSION));
      Goto(w', id, RecheckRepository)
    case RecheckRepository =>
      if RepositoryKey in w.bucket && w.bucket[RepositoryKey].body == Descriptor(PROTOCOL_VERSION)
      then Goto(w, id, HeadManifest) else Goto(w, id, Finished(Failed))
    case HeadManifest =>
      Goto(w, id, if ManifestKey(c.version) in w.bucket then Finished(ReleaseExists) else HeadAsset(0))
    case HeadAsset(i) =>
      if i >= |ASSET_NAMES| then w else
      var key := AssetKey(c.version, ASSET_NAMES[i]);
      if key !in w.bucket then Goto(w, id, PutAsset(i))
      else if w.bucket[key].body == AssetData(c.assets.Get(ASSET_NAMES[i])) then Goto(w, id, AfterAsset(i))
      else Goto(w, id, Finished(ObjectExists(key)))
    case PutAsset(i) =>
      if i >= |ASSET_NAMES| then w else
      var key := AssetKey(c.version, ASSET_NAMES[i]);
      if key in w.bucket then Goto(w, id, Finished(ObjectExists(key)))
      else Goto(Put(w, key, AssetData(c.assets.Get(ASSET_NAMES[i]))), id, AfterAsset(i))
    case PutManifest =>
      if ManifestKey(c.version) in w.bucket then Goto(w, id, Finished(ReleaseExists))
      else
        var w' := Put(w, ManifestKey(c.version), Manifest(c.assets));
        w'.(calls := w.calls[id := c.(pc := GetStable(0), since := |w.log|)])
    case GetStable(attempt) =>
      if StableKey !in w.bucket then Goto(w, id, PutStableAbsent(attempt))
      else if !w.bucket[StableKey].body.Channel? then Goto(w, id, Finished(Failed))
      else if !Less(w.bucket[StableKey].body.version, c.version) then Goto(w, id, Finished(Published))
      else Goto(w, id, PutStableOver(attempt, if w.tagged then Some(w.bucket[StableKey].etag) else None, |w.log|))
    case PutStableAbsent(attempt) =>
      if StableKey in w.bucket then Goto(w, id, Again(attempt)) else WriteStable(w, id)
    case PutStableOver(attempt, etag, _) =>
      if etag.None? || (StableKey in w.bucket && w.bucket[StableKey].etag == etag.value)
      then WriteStable(w, id) else Goto(w, id, Again(attempt))
    case Finished(_) => w
  }

  /** A request moves its own publisher only, and neither its version nor its assets. */
  lemma RequestKeepsCall(w: World, id: nat)
    requires id in w.calls
    ensures id in Request(w, id).calls
    ensures var c, c' := w.calls[id], Request(w, id).calls[id]; c'.version == c.version && c'.assets == c.assets
    ensures Request(w, id).calls == w.calls[id := Request(w, id).calls[id]]
  {
    match w.calls[id].pc
    case GetRepository =>
    case PutRepository =>
    case RecheckRepository =>
    case HeadManifest =>
    case HeadAsset(_) =>
    case PutAsset(_) =>
    case PutManifest =>
    case GetStable(_) =>
    case PutStableAbsent(_) =>
    case PutStableOver(_, _, _) =>
    case Finished(_) =>
  }

  function Step(w: World, e: Event): World {
    match e
    case Start(id, version, assets) =>
      if id in w.calls then w else w.(calls := w.calls[id := Call(version, assets, GetRepository, 0)])
    case Act(id) => if id in w.calls then Request(w, id) else w
    case ActAndFail(id) =>
      if id in w.calls && !w.calls[id].pc.Finished? then Goto(Request(w, id), id, Finished(Failed)) else w
    case Stop(id) =>
      if id in w.calls && !w.calls[id].pc.Finished? then Goto(w, id, Finished(Failed)) else w
  }

  function Run(w: World, events: seq<Event>): World
    decreases |events|
  {
    if events == [] then w else Run(Step(w, events[0]), events[1..])
  }

  // ---------------------------------------------------------------- invariant

  predicate AssetStored(w: World, v: Version, n: AssetName, a: Asset) {
    AssetKey(v, n) in w.bucket && w.bucket[AssetKey(v, n)].body == AssetData(a)
  }

  predicate AllStored(w: World, v: Version, assets: Assets) {
    forall n :: AssetStored(w, v, n, assets.Get(n))
  }

  /** A published manifest names assets that are stored with its hashes and sizes. */
  ghost predicate ManifestsComplete(w: World) {
    forall v :: ManifestKey(v) in w.bucket ==>
      var o := w.bucket[ManifestKey(v)].body;
      o.Manifest? && AllStored(w, v, o.assets)
  }

  /** The stable channel holds the last version written to it, and that release is published. */
  predicate StableOk(w: World) {
    && (StableKey in w.bucket <==> w.log != [])
    && (w.log != [] ==> w.bucket[StableKey].body == Channel(w.log[|w.log| - 1].version))
    && (forall k :: 0 <= k < |w.log| ==> ManifestKey(w.log[k].version) in w.bucket)
    && (forall j, k :: 0 <= j < k < |w.log| ==> Less(w.log[j].version, w.log[k].version))
  }

  predicate TagsOld(w: World) {
    forall k :: k in w.bucket ==> w.bucket[k].etag < w.clock
  }

  predicate CallOk(w: World, id: nat, c: Call) {
    && (c.pc != Finished(Published) && c.pc != Finished(Failed) ==>
          forall k :: 0 <= k < |w.log| ==> w.log[k].author != id)
    && match c.pc
       case HeadAsset(i) =>
         i < 3 && forall j :: 0 <= j < i ==> AssetStored(w, c.version, ASSET_NAMES[j], c.assets.Get(ASSET_NAMES[j]))
       case PutAsset(i) =>
         i < 3 && forall j :: 0 <= j < i ==> AssetStored(w, c.version, ASSET_NAMES[j], c.assets.Get(ASSET_NAMES[j]))
       case PutManifest => AllStored(w, c.version, c.assets)
       case GetStable(a) => a < 3 && |w.log| >= c.since + a && ManifestKey(c.version) in w.bucket
       case PutStableAbsent(a) => a == 0 && c.since == 0 && ManifestKey(c.version) in w.bucket
       case PutStableOver(a, etag, seen) =>
         && a < 3 && c.since + a <= seen <= |w.log| && 0 < seen && ManifestKey(c.version) in w.bucket
         && etag.Some? && etag.value < w.clock
         && Less(w.log[seen - 1].version, c.version)
         && (StableKey in w.bucket && w.bucket[StableKey].etag == etag.value <==> |w.log| == seen)
       case Finished(Published) => w.log != [] && !Less(w.log[|w.log| - 1].version, c.version)
       case Finished(ConcurrentUpdate) => |w.log| >= c.since + 3
       case _ => true
  }

  ghost predicate Inv(w: World) {
    && w.tagged
    && ManifestsComplete(w) && StableOk(w) && TagsOld(w)
    && (forall id :: id in w.calls ==> CallOk(w, id, w.calls[id]))
    && (forall k :: 0 <= k < |w.log| ==> w.log[k].author in w.calls)
  }

  // ---------------------------------------------------------------- what later states keep

  /** Nothing but the stable channel is ever rewritten, and its history only grows. */
  predicate Later(w: World, w': World) {
    && (forall k :: k in w.bucket && k != StableKey ==> k in w'.bucket && w'.bucket[k].body == w.bucket[k].body)
    && w.log <= w'.log && w.clock <= w'.clock && w'.tagged == w.tagged
    && (forall id :: id in w.calls ==> id in w'.calls && w'.calls[id].version == w.calls[id].version)
    && (forall id :: id in w.calls && w.calls[id].pc.Finished? ==> w'.calls[id] == w.calls[id])
  }

  lemma LaterTransitive(a: World, b: World, c: World)
    requires Later(a, b) && Later(b, c)
    ensures Later(a, c)
  {
  }

  /** A call that did not move stays explained when another one wrote. */
  lemma OthersKept(w: World, w': World, id: nat, c: Call)
    requires Inv(w) && Later(w, w') && CallOk(w, id, c)
    requires forall k :: |w.log| <= k < |w'.log| ==> w'.log[k].author != id
    requires StableOk(w')
    requires |w'.log| == |w.log| ==>
               (&& (StableKey in w'.bucket <==> StableKey in w.bucket)
                && (StableKey in w.bucket ==> w'.bucket[StableKey] == w.bucket[StableKey]))
    requires |w'.log| > |w.log| ==> StableKey in w'.bucket && w'.bucket[StableKey].etag >= w.clock
    ensures CallOk(w', id, c)
  {
    hide ManifestsComplete, TagsOld;
    if c.pc.PutStableOver? {
      assert w'.log[c.pc.seen - 1] == w.log[c.pc.seen - 1];
    }
    if c.pc == Finished(Published) && |w'.log| > |w.log| {
      assert w'.log[|w.log| - 1] == w.log[|w.log| - 1];
      assert Less(w'.log[|w.log| - 1].version, w'.log[|w'.log| - 1].version);
    }
  }

  /** A step that leaves the stable channel alone and adds at most immutable objects. */
  lemma QuietStep(w: World, w': World, id: nat)
    requires Inv(w) && id in w.calls && !w.calls[id].pc.Finished?
    requires w'.log == w.log && w'.tagged == w.tagged && w.clock <= w'.clock
    requires forall k :: k in w.bucket ==> k in w'.bucket && w'.bucket[k] == w.bucket[k]
    requires StableKey in w'.bucket ==> StableKey in w.bucket
    requires TagsOld(w') && ManifestsComplete(w')
    requires id in w'.calls && w'.calls == w.calls[id := w'.calls[id]]
    requires w'.calls[id].version == w.calls[id].version && CallOk(w', id, w'.calls[id])
    ensures Inv(w') && Later(w, w')
  {
    hide CallOk;
    forall id' | id' in w'.calls
      ensures CallOk(w', id', w'.calls[id'])
    {
      if id' != id {
        OthersKept(w, w', id', w.calls[id']);
      }
    }
  }

  /** An immutable object other than a manifest is added. */
  lemma ManifestsKept(w: World, key: Key, body: Body)
    requires ManifestsComplete(w) && key !in w.bucket && !key.ManifestKey?
    ensures ManifestsComplete(Put(w, key, body))
  {
    var w' := Put(w, key, body);
    forall v | ManifestKey(v) in w'.bucket
      ensures w'.bucket[ManifestKey(v)].body.Manifest? && AllStored(w', v, w'.bucket[ManifestKey(v)].body.assets)
    {
      assert ManifestKey(v) in w.bucket;
      forall n
        ensures AssetStored(w', v, n, w'.bucket[ManifestKey(v)].body.assets.Get(n))
      {
        assert AssetStored(w, v, n, w.bucket[ManifestKey(v)].body.assets.Get(n));
      }
    }
  }

  lemma RepositorySteps(w: World, id: nat)
    requires Inv(w) && id in w.calls
    requires w.calls[id].pc.GetRepository? || w.calls[id].pc.PutRepository? || w.calls[id].pc.RecheckRepository?
             || w.calls[id].pc.HeadManifest?
    ensures Inv(Request(w, id)) && Later(w, Request(w, id))
  {
    var w' := Request(w, id);
    assert CallOk(w, id, w.calls[id]);
    if w.calls[id].pc.PutRepository? && RepositoryKey !in w.bucket {
      ManifestsKept(w, RepositoryKey, Descriptor(PROTOCOL_VERSION));
    }
    QuietStep(w, w', id);
  }

  lemma AssetSteps(w: World, id: nat)
    requires Inv(w) && id in w.calls
    requires w.calls[id].pc.HeadAsset? || w.calls[id].pc.PutAsset?
    ensures Inv(Request(w, id)) && Later(w, Request(w, id))
  {
    var w', c := Request(w, id), w.calls[id];
    assert CallOk(w, id, c);
    var n := ASSET_NAMES[c.pc.i];
    var key := AssetKey(c.version, n);
    if c.pc.PutAsset? && key !in w.bucket {
      ManifestsKept(w, key, AssetData(c.assets.Get(n)));
    }
    if w'.calls[id].pc == AfterAsset(c.pc.i) {
      assert AssetStored(w', c.version, n, c.assets.Get(n));
      StoredSoFar(w, w', c.version, c.assets, c.pc.i);
    }
    hide AllStored, ManifestsComplete, StableOk;
    QuietStep(w, w', id);
  }

  /** One more asset in place: after the third, all are. */
  lemma StoredSoFar(w: World, w': World, v: Version, assets: Assets, i: nat)
    requires i < 3 && forall j :: 0 <= j < i ==> AssetStored(w, v, ASSET_NAMES[j], assets.Get(ASSET_NAMES[j]))
    requires forall k :: k in w.bucket ==> k in w'.bucket && w'.bucket[k] == w.bucket[k]
    requires AssetStored(w', v, ASSET_NAMES[i], assets.Get(ASSET_NAMES[i]))
    ensures forall j :: 0 <= j <= i ==> AssetStored(w', v, ASSET_NAMES[j], assets.Get(ASSET_NAMES[j]))
    ensures i == 2 ==> AllStored(w', v, assets)
  {
    forall j | 0 <= j <= i
      ensures AssetStored(w', v, ASSET_NAMES[j], assets.Get(ASSET_NAMES[j]))
    {
      if j < i {
        assert AssetStored(w, v, ASSET_NAMES[j], assets.Get(ASSET_NAMES[j]));
      }
    }
    if i == 2 {
      forall n
        ensures AssetStored(w', v, n, assets.Get(n))
      {
        assert n == ASSET_NAMES[match n case WebserverX86 => 0 case WebserverAarch64 => 1 case StaticArchive => 2];
      }
    }
  }

  lemma ManifestStep(w: World, id: nat)
    requires Inv(w) && id in w.calls && w.calls[id].pc.PutManifest?
    ensures Inv(Request(w, id)) && Later(w, Request(w, id))
  {
    var w', c := Request(w, id), w.calls[id];
    assert CallOk(w, id, c);
    if ManifestKey(c.version) !in w.bucket {
      forall v | ManifestKey(v) in w'.bucket
        ensures w'.bucket[ManifestKey(v)].body.Manifest? && AllStored(w', v, w'.bucket[ManifestKey(v)].body.assets)
      {
        var assets := if v == c.version then c.assets else w.bucket[ManifestKey(v)].body.assets;
        forall n
          ensures AssetStored(w', v, n, assets.Get(n))
        {
          assert AssetStored(w, v, n, assets.Get(n));
        }
      }
    }
    hide AllStored, StableOk;
    QuietStep(w, w', id);
  }

  lemma ReadStableStep(w: World, id: nat)
    requires Inv(w) && id in w.calls && w.calls[id].pc.GetStable?
    ensures Inv(Request(w, id)) && Later(w, Request(w, id))
  {
    var w' := Request(w, id);
    assert CallOk(w, id, w.calls[id]);
    hide AllStored;
    QuietStep(w, w', id);
  }

  /** A failed conditional PUT means somebody wrote the channel since it was read. */
  lemma RetryStep(w: World, id: nat)
    requires Inv(w) && id in w.calls
    requires var pc := w.calls[id].pc;
             || (pc.PutStableAbsent? && StableKey in w.bucket)
             || (pc.PutStableOver? && !(StableKey in w.bucket && Some(w.bucket[StableKey].etag) == pc.etag))
    ensures Inv(Request(w, id)) && Later(w, Request(w, id))
  {
    var w' := Request(w, id);
    assert CallOk(w, id, w.calls[id]);
    hide AllStored;
    QuietStep(w, w', id);
  }

  /** A write of the stable channel appends a strictly greater, published version. */
  lemma WriteStep(w: World, id: nat)
    requires Inv(w) && id in w.calls
    requires var pc := w.calls[id].pc;
             || (pc.PutStableAbsent? && StableKey !in w.bucket)
             || (pc.PutStableOver? && StableKey in w.bucket && Some(w.bucket[StableKey].etag) == pc.etag)
    ensures Request(w, id) == WriteStable(w, id)
    ensures Inv(Request(w, id)) && Later(w, Request(w, id))
  {
    assert CallOk(w, id, w.calls[id]);
    hide CallOk, ManifestsComplete, StableOk, AllStored;
    WriteKeeps(w, id);
  }

  lemma WriteKeeps(w: World, id: nat)
    requires Inv(w) && id in w.calls && !w.calls[id].pc.Finished?
    requires ManifestKey(w.calls[id].version) in w.bucket
    requires w.log != [] ==> Less(w.log[|w.log| - 1].version, w.calls[id].version)
    ensures Inv(WriteStable(w, id)) && Later(w, WriteStable(w, id))
  {
    hide CallOk, ManifestsComplete, StableOk, AllStored, Less;
    var w' := WriteStable(w, id);
    WrittenStableOk(w, id);
    ManifestsAfterStable(w, id);
    WriterCallOk(w, id);
    forall id' | id' in w'.calls
      ensures CallOk(w', id', w'.calls[id'])
    {
      if id' != id {
        OthersKept(w, w', id', w.calls[id']);
      }
    }
  }

  lemma WriterCallOk(w: World, id: nat)
    requires id in w.calls
    ensures CallOk(WriteStable(w, id), id, WriteStable(w, id).calls[id])
  {
  }

  lemma WrittenStableOk(w: World, id: nat)
    requires StableOk(w) && id in w.calls && ManifestKey(w.calls[id].version) in w.bucket
    requires w.log != [] ==> Less(w.log[|w.log| - 1].version, w.calls[id].version)
    ensures StableOk(WriteStable(w, id))
  {
    var w' := WriteStable(w, id);
    forall j, k | 0 <= j < k < |w'.log|
      ensures Less(w'.log[j].version, w'.log[k].version)
    {
      if k == |w.log| && j < |w.log| - 1 {
        assert Less(w.log[j].version, w.log[|w.log| - 1].version);
      }
    }
  }

  lemma ManifestsAfterStable(w: World, id: nat)
    requires ManifestsComplete(w) && id in w.calls
    ensures ManifestsComplete(WriteStable(w, id))
  {
    var w' := WriteStable(w, id);
    forall v | ManifestKey(v) in w'.bucket
      ensures w'.bucket[ManifestKey(v)].body.Manifest? && AllStored(w', v, w'.bucket[ManifestKey(v)].body.assets)
    {
      forall n
        ensures AssetStored(w', v, n, w'.bucket[ManifestKey(v)].body.assets.Get(n))
      {
        assert AssetStored(w, v, n, w.bucket[ManifestKey(v)].body.assets.Get(n));
      }
    }
  }

  lemma RequestKeeps(w: World, id: nat)
    requires Inv(w) && id in w.calls
    ensures Inv(Request(w, id)) && Later(w, Request(w, id))
  {
    assert CallOk(w, id, w.calls[id]);
    hide Inv, Later, Request, WriteStable;
    match w.calls[id].pc
    case HeadAsset(_) => AssetSteps(w, id);
    case PutAsset(_) => AssetSteps(w, id);
    case PutManifest => ManifestStep(w, id);
    case GetStable(_) => ReadStableStep(w, id);
    case PutStableAbsent(_) =>
      if StableKey in w.bucket { RetryStep(w, id); } else { WriteStep(w, id); }
    case PutStableOver(_, etag, _) =>
      if StableKey in w.bucket && Some(w.bucket[StableKey].etag) == etag { WriteStep(w, id); } else { RetryStep(w, id); }
    case Finished(_) => FinishedStays(w, id);
    case _ => RepositorySteps(w, id);
  }

  lemma FinishedStays(w: World, id: nat)
    requires id in w.calls && w.calls[id].pc.Finished?
    ensures Request(w, id) == w && Later(w, w)
  {
  }

  /** Stopping a publisher, wherever it stands, endangers nothing. */
  lemma StopKeeps(w: World, id: nat)
    requires Inv(w) && id in w.calls
    ensures Inv(Goto(w, id, Finished(Failed)))
    ensures !w.calls[id].pc.Finished? ==> Later(w, Goto(w, id, Finished(Failed)))
  {
    hide ManifestsComplete, Less;
    SameStore(w, Goto(w, id, Finished(Failed)));
  }

  lemma StepKeeps(w: World, e: Event)
    requires Inv(w)
    ensures Inv(Step(w, e)) && Later(w, Step(w, e))
  {
    hide Inv, Later, Request;
    LaterReflexive(w);
    match e
    case Start(id, version, assets) => if id !in w.calls { StartKeeps(w, id, version, assets); }
    case Act(id) => if id in w.calls { RequestKeeps(w, id); }
    case ActAndFail(id) => if id in w.calls && !w.calls[id].pc.Finished? { FailKeeps(w, id); }
    case Stop(id) => if id in w.calls { StopKeeps(w, id); }
  }

  /** A request may take effect and the publisher still die on it. */
  lemma FailKeeps(w: World, id: nat)
    requires Inv(w) && id in w.calls && !w.calls[id].pc.Finished?
    ensures var w' := Goto(Request(w, id), id, Finished(Failed)); Inv(w') && Later(w, w')
  {
    hide CallOk, ManifestsComplete, StableOk, TagsOld, Request;
    RequestKeeps(w, id);
    StopKeeps(Request(w, id), id);
  }

  lemma StartKeeps(w: World, id: nat, version: Version, assets: Assets)
    requires Inv(w) && id !in w.calls
    ensures var w' := w.(calls := w.calls[id := Call(version, assets, GetRepository, 0)]); Inv(w') && Later(w, w')
  {
    hide CallOk, ManifestsComplete, AllStored, Less;
    var w' := w.(calls := w.calls[id := Call(version, assets, GetRepository, 0)]);
    SameStore(w, w');
    forall id' | id' in w.calls
      ensures CallOk(w', id', w'.calls[id'])
    {
      OthersKept(w, w', id', w.calls[id']);
    }
    NewCallOk(w', id, w'.calls[id]);
  }

  lemma SameStore(w: World, w': World)
    requires ManifestsComplete(w) && w'.bucket == w.bucket
    ensures ManifestsComplete(w')
  {
    forall v | ManifestKey(v) in w'.bucket
      ensures AllStored(w', v, w'.bucket[ManifestKey(v)].body.assets)
    {
      forall n
        ensures AssetStored(w', v, n, w'.bucket[ManifestKey(v)].body.assets.Get(n))
      {
        assert AssetStored(w, v, n, w.bucket[ManifestKey(v)].body.assets.Get(n));
      }
    }
  }

  lemma NewCallOk(w: World, id: nat, c: Call)
    requires c.pc.GetRepository? && forall k :: 0 <= k < |w.log| ==> w.log[k].author != id
    ensures CallOk(w, id, c)
  {
  }

  lemma {:induction false} RunKeeps(w: World, events: seq<Event>)
    requires Inv(w)
    ensures Inv(Run(w, events)) && Later(w, Run(w, events))
    decreases |events|
  {
    hide Inv, Later, Step;
    if events == [] {
      LaterReflexive(w);
    } else {
      StepKeeps(w, events[0]);
      RunKeeps(Step(w, events[0]), events[1..]);
      LaterTransitive(w, Step(w, events[0]), Run(w, events));
    }
  }

  lemma LaterReflexive(w: World)
    ensures Later(w, w)
  {
  }

  // ---------------------------------------------------------------- what holds in every run

  function EmptyStore(tagged: bool): World {
    World(map[], 0, tagged, map[], [])
  }

  /** Every reachable world is sound, and stays so whatever happens next. */
  lemma Reachable(before: seq<Event>, after: seq<Event>)
    ensures var w := Run(EmptyStore(true), before); Inv(w) && Inv(Run(w, after)) && Later(w, Run(w, after))
  {
    hide Run;
    RunKeeps(EmptyStore(true), before);
    RunKeeps(Run(EmptyStore(true), before), after);
  }

  /** The stable version, once there is one. */
  function StableVersion(w: World): Option<Version> {
    if StableKey in w.bucket && w.bucket[StableKey].body.Channel?
    then Some(w.bucket[StableKey].body.version) else None
  }

  /** The stable channel never goes away or back, and always names a version whose manifest is
      stored. */
  lemma StableNeverDecreases(before: seq<Event>, after: seq<Event>)
    ensures var w := Run(EmptyStore(true), before);
            var w' := Run(w, after);
            StableVersion(w).Some? ==>
              && StableVersion(w').Some? && Rank(StableVersion(w').value) >= Rank(StableVersion(w).value)
              && ManifestKey(StableVersion(w').value) in w'.bucket
  {
    hide Run, CallOk, ManifestsComplete, Rank, Less;
    LessByRank();
    Reachable(before, after);
    var w := Run(EmptyStore(true), before);
    var w' := Run(w, after);
    if w.log != [] {
      assert w'.log[|w.log| - 1] == w.log[|w.log| - 1];
    }
  }

  /** Each manifest's three assets are stored with its hashes and sizes, and neither manifests nor
      assets ever change once written. */
  lemma ReleasesImmutableAndComplete(before: seq<Event>, after: seq<Event>, v: Version)
    requires ManifestKey(v) in Run(EmptyStore(true), before).bucket
    ensures var w := Run(EmptyStore(true), before);
            var w' := Run(w, after);
            && w.bucket[ManifestKey(v)].body.Manifest?
            && ManifestKey(v) in w'.bucket && w'.bucket[ManifestKey(v)].body == w.bucket[ManifestKey(v)].body
            && forall n :: AssetStored(w, v, n, w.bucket[ManifestKey(v)].body.assets.Get(n))
                           && AssetStored(w', v, n, w.bucket[ManifestKey(v)].body.assets.Get(n))
  {
    hide Run, CallOk, StableOk;
    Reachable(before, after);
  }

  /** Once `publish(v)` has returned Ok, the stable version is at least v for ever. */
  lemma PublishedStays(before: seq<Event>, after: seq<Event>, id: nat)
    requires id in Run(EmptyStore(true), before).calls
    requires Run(EmptyStore(true), before).calls[id].pc == Finished(Published)
    ensures var w' := Run(Run(EmptyStore(true), before), after);
            && StableVersion(w').Some?
            && Rank(StableVersion(w').value) >= Rank(Run(EmptyStore(true), before).calls[id].version)
  {
    hide Run, ManifestsComplete, Rank, Less;
    LessByRank();
    Reachable(before, after);
    var w := Run(EmptyStore(true), before);
    var w' := Run(w, after);
    assert CallOk(w', id, w'.calls[id]);
  }

  /** Lock-freedom: a publisher gives up with a conflict only after at least three writes of the
      stable channel by others since its `update_stable` began; and every write of an existing
      channel strictly raises its version. */
  lemma ConflictMeansProgress(events: seq<Event>, id: nat)
    requires id in Run(EmptyStore(true), events).calls
    ensures var w := Run(EmptyStore(true), events);
            var c := w.calls[id];
            && (c.pc == Finished(ConcurrentUpdate) ==>
                  && |w.log| - c.since >= 3
                  && forall k :: c.since <= k < |w.log| ==> w.log[k].author != id)
            && forall k :: 0 < k < |w.log| ==> Rank(w.log[k - 1].version) < Rank(w.log[k].version)
  {
    hide Run, ManifestsComplete, TagsOld, Later, AllStored, AssetStored, Rank, Less;
    LessByRank();
    Reachable(events, []);
    var w := Run(EmptyStore(true), events);
    assert CallOk(w, id, w.calls[id]);
  }

  /** One undisturbed turn of the update leaves the greater of the two versions in the channel: a
      newer one is written, an older or equal one reported as published without a write. */
  lemma UndisturbedTurn(w: World, id: nat, attempt: nat)
    requires id in w.calls && w.calls[id].pc == GetStable(attempt) && StableVersion(w).Some?
    ensures var current, v := StableVersion(w).value, w.calls[id].version;
            var w1 := Request(w, id);
            && id in w1.calls
            && var w2 := Request(w1, id);
            && id in w2.calls && w2.calls[id].pc == Finished(Published)
            && StableVersion(w2) == Some(if Rank(v) > Rank(current) then v else current)
            && (Rank(v) <= Rank(current) ==> w2.bucket == w.bucket && w2.log == w.log)
  {
    hide Rank, Less;
    LessByRank();
    assert Request(w, id) == Goto(w, id, Finished(Published))
        || exists etag, seen :: Request(w, id) == Goto(w, id, PutStableOver(attempt, etag, seen));
  }
}
