/** What a publisher does when nobody disturbs it: the outcome is decided by what is stored, and a
    publication that was interrupted anywhere can be repeated to its end. */
module PublisherResume {
  import opened Octets
  import opened Publisher

  /** Only this publisher acts, n requests long. */
  function Alone(w: World, id: nat, n: nat): World
    requires id in w.calls
    ensures id in Alone(w, id, n).calls
    decreases n
  {
    if n == 0 then w else
    RequestKeepsCall(w, id);
    Alone(Request(w, id), id, n - 1)
  }

  function AssetOf(c: Call, i: nat): Key
    requires i < 3
  {
    AssetKey(c.version, ASSET_NAMES[i])
  }

  /** The asset is missing or the very one to publish. */
  predicate Suits(w: World, c: Call, i: nat)
    requires i < 3
  {
    AssetOf(c, i) in w.bucket ==> w.bucket[AssetOf(c, i)].body == AssetData(c.assets.Get(ASSET_NAMES[i]))
  }

  /** What becomes of the assets from the i-th on, and then of the manifest. */
  function FromAsset(w: World, c: Call, i: nat): Outcome
    requires i <= 3
    decreases 3 - i
  {
    if i == 3 then if ManifestKey(c.version) in w.bucket then ReleaseExists else Published
    else if Suits(w, c, i) then FromAsset(w, c, i + 1)
    else ObjectExists(AssetOf(c, i))
  }

  function FromManifest(w: World, c: Call): Outcome {
    if ManifestKey(c.version) in w.bucket then ReleaseExists else FromAsset(w, c, 0)
  }

  predicate RepositorySuits(w: World) {
    RepositoryKey in w.bucket ==> w.bucket[RepositoryKey].body == Descriptor(PROTOCOL_VERSION)
  }

  /** The outcome that what is stored has in store for a call. */
  function Expected(w: World, c: Call): Outcome {
    match c.pc
    case GetRepository => if RepositorySuits(w) then FromManifest(w, c) else Failed
    case PutRepository => if RepositorySuits(w) then FromManifest(w, c) else Failed
    case RecheckRepository =>
      if RepositorySuits(w) && RepositoryKey in w.bucket then FromManifest(w, c) else Failed
    case HeadManifest => FromManifest(w, c)
    case HeadAsset(i) => if i < 3 then FromAsset(w, c, i) else Failed
    case PutAsset(i) => if i < 3 then FromAsset(w, c, i) else Failed
    case PutManifest => FromAsset(w, c, 3)
    case GetStable(_) => if StableKey in w.bucket && !w.bucket[StableKey].body.Channel? then Failed else Published
    case PutStableAbsent(_) => Published
    case PutStableOver(_, _, _) => Published
    case Finished(outcome) => outcome
  }

  /** Nothing changed since the publisher looked. */
  predicate Undisturbed(w: World, c: Call) {
    && (StableKey in w.bucket ==> w.bucket[StableKey].body.Channel?)
    && match c.pc
       case PutRepository => RepositoryKey !in w.bucket
       case HeadAsset(i) => i < 3
       case PutAsset(i) => i < 3 && AssetOf(c, i) !in w.bucket
       case PutStableAbsent(_) => StableKey !in w.bucket
       case PutStableOver(_, etag, _) =>
         StableKey in w.bucket && (etag.Some? ==> w.bucket[StableKey].etag == etag.value)
       case _ => true
  }

  /** How many requests there are at most to come. */
  function Left(c: Call): nat {
    match c.pc
    case GetRepository => 13
    case PutRepository => 12
    case RecheckRepository => 11
    case HeadManifest => 10
    case HeadAsset(i) => if i < 3 then 9 - 2 * i else 0
    case PutAsset(i) => if i < 3 then 8 - 2 * i else 0
    case PutManifest => 3
    case GetStable(_) => 2
    case PutStableAbsent(_) => 1
    case PutStableOver(_, _, _) => 1
    case Finished(_) => 0
  }

  lemma {:induction false} FromAssetSame(w: World, w': World, c: Call, c': Call, i: nat)
    requires i <= 3 && c'.version == c.version && c'.assets == c.assets
    requires ManifestKey(c.version) in w'.bucket <==> ManifestKey(c.version) in w.bucket
    requires forall j :: i <= j < 3 ==> (Suits(w', c, j) <==> Suits(w, c, j))
    ensures FromAsset(w', c', i) == FromAsset(w, c, i)
    decreases 3 - i
  {
    if i < 3 {
      assert Suits(w', c', i) <==> Suits(w', c, i);
      FromAssetSame(w, w', c, c', i + 1);
    }
  }

  /** One request of an undisturbed publisher gets it nearer to the outcome it had to expect. */
  predicate Nearer(w: World, id: nat)
    requires id in w.calls
  {
    var c, w' := w.calls[id], Request(w, id);
    && id in w'.calls && Undisturbed(w', w'.calls[id]) && Expected(w', w'.calls[id]) == Expected(w, c)
    && Left(w'.calls[id]) < Left(c)
  }

  lemma RepositoryNearer(w: World, id: nat)
    requires id in w.calls && Undisturbed(w, w.calls[id])
    requires w.calls[id].pc.GetRepository? || w.calls[id].pc.PutRepository? || w.calls[id].pc.RecheckRepository?
             || w.calls[id].pc.HeadManifest?
    ensures Nearer(w, id)
  {
    hide FromAsset;
    RequestKeepsCall(w, id);
    FromAssetSame(w, Request(w, id), w.calls[id], Request(w, id).calls[id], 0);
  }

  lemma AssetNearer(w: World, id: nat)
    requires id in w.calls && Undisturbed(w, w.calls[id])
    requires w.calls[id].pc.HeadAsset? || w.calls[id].pc.PutAsset?
    ensures Nearer(w, id)
  {
    hide FromAsset;
    RequestKeepsCall(w, id);
    var c, w' := w.calls[id], Request(w, id);
    FromAssetUnfolds(w, c, c.pc.i);
    FromAssetSame(w, w', c, w'.calls[id], c.pc.i + 1);
    FromAssetUnfolds(w', w'.calls[id], c.pc.i);
  }

  lemma ChannelNearer(w: World, id: nat)
    requires id in w.calls && Undisturbed(w, w.calls[id])
    requires w.calls[id].pc.PutManifest? || w.calls[id].pc.GetStable? || w.calls[id].pc.PutStableAbsent?
             || w.calls[id].pc.PutStableOver?
    ensures Nearer(w, id)
  {
    hide FromAsset;
    FromAssetUnfolds(w, w.calls[id], 3);
  }

  lemma AloneNearer(w: World, id: nat)
    requires id in w.calls && Undisturbed(w, w.calls[id]) && !w.calls[id].pc.Finished?
    ensures Nearer(w, id)
  {
    hide Nearer, Undisturbed;
    match w.calls[id].pc
    case HeadAsset(_) => AssetNearer(w, id);
    case PutAsset(_) => AssetNearer(w, id);
    case PutManifest => ChannelNearer(w, id);
    case GetStable(_) => ChannelNearer(w, id);
    case PutStableAbsent(_) => ChannelNearer(w, id);
    case PutStableOver(_, _, _) => ChannelNearer(w, id);
    case _ => RepositoryNearer(w, id);
  }

  lemma FromAssetUnfolds(w: World, c: Call, i: nat)
    requires i <= 3
    ensures FromAsset(w, c, i)
            == if i == 3 then if ManifestKey(c.version) in w.bucket then ReleaseExists else Published
               else if Suits(w, c, i) then FromAsset(w, c, i + 1) else ObjectExists(AssetOf(c, i))
  {
  }

  lemma {:induction false} AloneEnds(w: World, id: nat, n: nat)
    requires id in w.calls && Undisturbed(w, w.calls[id]) && Left(w.calls[id]) <= n
    ensures Alone(w, id, n).calls[id].pc == Finished(Expected(w, w.calls[id]))
    decreases n
  {
    hide Request, Expected, Undisturbed;
    if n > 0 {
      if w.calls[id].pc.Finished? {
        FinishedStays(w, id, n);
      } else {
        AloneNearer(w, id);
        AloneEnds(Request(w, id), id, n - 1);
      }
    } else {
      NothingLeft(w, w.calls[id]);
    }
  }

  lemma NothingLeft(w: World, c: Call)
    requires Left(c) == 0 && Undisturbed(w, c)
    ensures c.pc == Finished(Expected(w, c))
  {
  }

  lemma {:induction false} FinishedStays(w: World, id: nat, n: nat)
    requires id in w.calls && w.calls[id].pc.Finished?
    ensures Alone(w, id, n) == w && w.calls[id].pc == Finished(Expected(w, w.calls[id]))
    decreases n
  {
    if n > 0 {
      FinishedStays(w, id, n - 1);
    }
  }

  // ---------------------------------------------------------------- where stored objects come from

  /** A publisher of this version had this asset. */
  predicate From(w: World, id: nat, v: Version, n: AssetName, body: Body) {
    id in w.calls && w.calls[id].version == v && body == AssetData(w.calls[id].assets.Get(n))
  }

  ghost predicate Originated(w: World) {
    && RepositorySuits(w)
    && forall v, n :: AssetKey(v, n) in w.bucket ==> exists id :: From(w, id, v, n, w.bucket[AssetKey(v, n)].body)
  }

  predicate SameCalls(w: World, w': World) {
    forall id :: id in w.calls ==>
      id in w'.calls && w'.calls[id].version == w.calls[id].version && w'.calls[id].assets == w.calls[id].assets
  }

  lemma OriginatedAfter(w: World, w': World)
    requires Originated(w) && SameCalls(w, w') && RepositorySuits(w')
    requires forall v, n :: AssetKey(v, n) in w'.bucket ==>
               || (AssetKey(v, n) in w.bucket && w'.bucket[AssetKey(v, n)] == w.bucket[AssetKey(v, n)])
               || exists id :: From(w', id, v, n, w'.bucket[AssetKey(v, n)].body)
    ensures Originated(w')
  {
    forall v, n | AssetKey(v, n) in w'.bucket
      ensures exists id :: From(w', id, v, n, w'.bucket[AssetKey(v, n)].body)
    {
      if AssetKey(v, n) in w.bucket && w'.bucket[AssetKey(v, n)] == w.bucket[AssetKey(v, n)] {
        var id :| From(w, id, v, n, w.bucket[AssetKey(v, n)].body);
        assert From(w', id, v, n, w'.bucket[AssetKey(v, n)].body);
      }
    }
  }

  /** What one request does to the bucket. */
  lemma RequestStores(w: World, id: nat)
    requires id in w.calls
    ensures var w' := Request(w, id);
            && (RepositorySuits(w) ==> RepositorySuits(w'))
            && (forall v, n :: AssetKey(v, n) in w'.bucket ==>
                  || (AssetKey(v, n) in w.bucket && w'.bucket[AssetKey(v, n)] == w.bucket[AssetKey(v, n)])
                  || From(w', id, v, n, w'.bucket[AssetKey(v, n)].body))
  {
  }

  lemma StepOriginated(w: World, e: Event)
    requires Originated(w)
    ensures Originated(Step(w, e))
  {
    hide Request, From, Originated;
    var w' := Step(w, e);
    if e.id in w.calls && !e.Start? {
      RequestKeepsCall(w, e.id);
      RequestStores(w, e.id);
      var w1 := Request(w, e.id);
      assert RepositorySuits(w) by { Repository(w); }
      assert Originated(w1) by { OriginatedAfter(w, w1); }
      assert SameCalls(w1, w') || w' == Goto(w, e.id, Finished(Failed)) || w' == w;
      if e.ActAndFail? && w' != w {
        assert RepositorySuits(w1);
        OriginatedAfter(w1, w');
      } else if e.Stop? && w' != w {
        OriginatedAfter(w, w');
      }
    } else if e.Start? && w' != w {
      assert RepositorySuits(w) by { Repository(w); }
      OriginatedAfter(w, w');
    }
  }

  lemma Repository(w: World)
    requires Originated(w)
    ensures RepositorySuits(w)
  {
  }

  lemma {:induction false} RunOriginated(w: World, events: seq<Event>)
    requires Originated(w)
    ensures Originated(Run(w, events))
    decreases |events|
  {
    hide Step, Originated;
    if events != [] {
      StepOriginated(w, events[0]);
      RunOriginated(Step(w, events[0]), events[1..]);
    }
  }

  // ---------------------------------------------------------------- the two results

  predicate AllSuit(w: World, c: Call) {
    forall i :: 0 <= i < 3 ==> Suits(w, c, i)
  }

  /** After any run at all, a call left alone ends within 13 requests, never with a conflict.  It
      succeeds exactly when the release is not published yet and each asset is missing or the very
      one to publish; a published release is reported as such. */
  lemma AloneDecided(events: seq<Event>, id: nat, version: Version, assets: Assets)
    requires id !in Run(EmptyStore(true), events).calls
    ensures var w := Run(EmptyStore(true), events);
            var c := Call(version, assets, GetRepository, 0);
            var started := w.(calls := w.calls[id := c]);
            var end := Alone(started, id, 13).calls[id].pc;
            && end.Finished? && end != Finished(ConcurrentUpdate) && end != Finished(Failed)
            && (end == Finished(ReleaseExists) <==> ManifestKey(version) in w.bucket)
            && (end == Finished(Published) <==> ManifestKey(version) !in w.bucket && AllSuit(w, c))
  {
    hide Run, Request, FromAsset, Inv, Alone;
    var w := Run(EmptyStore(true), events);
    var c := Call(version, assets, GetRepository, 0);
    var started := w.(calls := w.calls[id := c]);
    Reachable(events, []);
    assert Originated(EmptyStore(true));
    RunOriginated(EmptyStore(true), events);
    assert RepositorySuits(w) by { Repository(w); }
    assert StableKey in w.bucket ==> w.bucket[StableKey].body.Channel? by { StableIsChannel(w); }
    AloneEnds(started, id, 13);
    FromAssetSame(w, started, c, c, 0);
    if ManifestKey(version) !in w.bucket {
      FromAssetDecided(w, c, 0);
    }
  }

  lemma StableIsChannel(w: World)
    requires Inv(w)
    ensures StableKey in w.bucket ==> w.bucket[StableKey].body.Channel?
  {
  }

  lemma {:induction false} FromAssetDecided(w: World, c: Call, i: nat)
    requires i <= 3 && ManifestKey(c.version) !in w.bucket
    ensures FromAsset(w, c, i) == Published <==> forall j :: i <= j < 3 ==> Suits(w, c, j)
    ensures FromAsset(w, c, i) == Published || FromAsset(w, c, i).ObjectExists?
    decreases 3 - i
  {
    if i < 3 {
      FromAssetDecided(w, c, i + 1);
    }
  }

  /** A publication interrupted anywhere can be repeated: as long as everybody who published this
      version had the same assets, and the manifest is not there yet, the next call, left alone,
      succeeds. */
  lemma InterruptedCanBeRepeated(events: seq<Event>, id: nat, version: Version, assets: Assets)
    requires id !in Run(EmptyStore(true), events).calls
    requires ManifestKey(version) !in Run(EmptyStore(true), events).bucket
    requires forall k :: k in Run(EmptyStore(true), events).calls
               && Run(EmptyStore(true), events).calls[k].version == version
               ==> Run(EmptyStore(true), events).calls[k].assets == assets
    ensures var w := Run(EmptyStore(true), events);
            var started := w.(calls := w.calls[id := Call(version, assets, GetRepository, 0)]);
            Alone(started, id, 13).calls[id].pc == Finished(Published)
  {
    hide Run, Alone;
    var w := Run(EmptyStore(true), events);
    var c := Call(version, assets, GetRepository, 0);
    RunOriginated(EmptyStore(true), events);
    forall i | 0 <= i < 3
      ensures Suits(w, c, i)
    {
      if AssetOf(c, i) in w.bucket {
        var k :| From(w, k, version, ASSET_NAMES[i], w.bucket[AssetKey(version, ASSET_NAMES[i])].body);
      }
    }
    AloneDecided(events, id, version, assets);
  }
}
