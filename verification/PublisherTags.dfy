/** What the entity tags are for: the stable channel never goes back exactly when the store returns
    them.  The program sends its PUT unconditionally when a GET returned no tag. */
module PublisherTags {
  import opened Octets
  import opened Publisher
  import opened PublisherResume
  import PublisherProgram

  /** Before the stable channel is looked at. */
  predicate Early(pc: Pc) {
    pc.GetRepository? || pc.PutRepository? || pc.RecheckRepository? || pc.HeadManifest? || pc.HeadAsset?
    || pc.PutAsset? || pc.PutManifest?
  }

  /** On its way to the channel, with nothing in the way. */
  predicate OnItsWay(w: World, id: nat, version: Version) {
    && id in w.calls && w.calls[id].version == version
    && (Early(w.calls[id].pc) || w.calls[id].pc == GetStable(0))
    && Undisturbed(w, w.calls[id]) && Expected(w, w.calls[id]) == Published
  }

  /** Only this release was worked on. */
  ghost predicate OnlyRelease(w: World, w': World, id: nat, version: Version) {
    && w'.tagged == w.tagged && w'.log == w.log && StableVersion(w') == StableVersion(w)
    && w'.calls.Keys == w.calls.Keys && (forall k :: k in w.calls && k != id ==> w'.calls[k] == w.calls[k])
    && (forall v, n :: v != version ==> (AssetKey(v, n) in w'.bucket <==> AssetKey(v, n) in w.bucket))
    && (forall v :: v != version ==> (ManifestKey(v) in w'.bucket <==> ManifestKey(v) in w.bucket))
    && (RepositorySuits(w) ==> RepositorySuits(w'))
    && (StableKey in w'.bucket <==> StableKey in w.bucket)
  }

  lemma OneOnItsWay(w: World, id: nat, version: Version)
    requires OnItsWay(w, id, version) && Early(w.calls[id].pc)
    ensures var w' := Request(w, id);
            OnItsWay(w', id, version) && OnlyRelease(w, w', id, version) && Left(w'.calls[id]) < Left(w.calls[id])
  {
    hide Expected, Undisturbed, Request;
    RequestKeepsCall(w, id);
    AloneNearer(w, id);
    EarlyGoesOn(w, id);
    EarlyStores(w, id);
  }

  lemma EarlyGoesOn(w: World, id: nat)
    requires id in w.calls && Early(w.calls[id].pc) && Undisturbed(w, w.calls[id])
    requires Expected(w, w.calls[id]) == Published
    ensures id in Request(w, id).calls
    ensures var pc := Request(w, id).calls[id].pc; Early(pc) || pc == GetStable(0)
  {
    hide FromAsset;
    var c := w.calls[id];
    if c.pc.HeadAsset? || c.pc.PutAsset? {
      FromAssetUnfolds(w, c, c.pc.i);
    } else if c.pc.PutManifest? {
      FromAssetUnfolds(w, c, 3);
    }
  }

  lemma EarlyStores(w: World, id: nat)
    requires id in w.calls && Early(w.calls[id].pc)
    ensures var w', v := Request(w, id), w.calls[id].version;
            && w'.tagged == w.tagged && w'.log == w.log && StableVersion(w') == StableVersion(w)
            && (StableKey in w'.bucket <==> StableKey in w.bucket)
            && (forall u, n :: u != v ==> (AssetKey(u, n) in w'.bucket <==> AssetKey(u, n) in w.bucket))
            && (forall u :: u != v ==> (ManifestKey(u) in w'.bucket <==> ManifestKey(u) in w.bucket))
            && (RepositorySuits(w) ==> RepositorySuits(w'))
  {
  }

  lemma OnlyReleaseTwice(a: World, b: World, c: World, id: nat, version: Version)
    requires OnlyRelease(a, b, id, version) && OnlyRelease(b, c, id, version)
    ensures OnlyRelease(a, c, id, version)
  {
    hide RepositorySuits, StableVersion;
  }

  lemma OnlyReleaseSame(w: World, id: nat, version: Version)
    ensures OnlyRelease(w, w, id, version)
  {
  }

  lemma {:induction false} ReachesChannel(w: World, id: nat, version: Version) returns (events: seq<Event>)
    requires OnItsWay(w, id, version)
    ensures var w' := Run(w, events);
            && OnItsWay(w', id, version) && w'.calls[id].pc == GetStable(0) && OnlyRelease(w, w', id, version)
    decreases Left(w.calls[id])
  {
    hide OnlyRelease, Expected, Undisturbed, Request;
    if w.calls[id].pc == GetStable(0) {
      events := [];
      OnlyReleaseSame(w, id, version);
    } else {
      OneOnItsWay(w, id, version);
      var w1 := Request(w, id);
      var rest := ReachesChannel(w1, id, version);
      events := [Act(id)] + rest;
      assert events[1..] == rest && Step(w, Act(id)) == w1;
      OnlyReleaseTwice(w, w1, Run(w1, rest), id, version);
    }
  }

  /** A release nobody has begun, in a store that is otherwise in order. */
  ghost predicate Unbegun(w: World, version: Version) {
    && RepositorySuits(w) && ManifestKey(version) !in w.bucket && (forall n :: AssetKey(version, n) !in w.bucket)
    && (StableKey in w.bucket <==> StableVersion(w).Some?)
  }

  /** A new publisher gets to the channel. */
  lemma Approaches(w: World, id: nat, version: Version, assets: Assets) returns (events: seq<Event>)
    requires id !in w.calls && Unbegun(w, version)
    ensures var w' := Run(w, events);
            && id in w'.calls && w'.calls[id].pc == GetStable(0) && w'.calls[id].version == version
            && w'.calls.Keys == w.calls.Keys + {id} && (forall k :: k in w.calls ==> w'.calls[k] == w.calls[k])
            && w'.tagged == w.tagged && StableVersion(w') == StableVersion(w)
            && forall v :: v != version && Unbegun(w, v) ==> Unbegun(w', v)
  {
    hide Step, FromAsset, OnlyRelease;
    var c := Call(version, assets, GetRepository, 0);
    var w1 := w.(calls := w.calls[id := c]);
    StartIs(w, id, version, assets);
    assert forall j :: 0 <= j < 3 ==> Suits(w1, c, j);
    FromAssetDecided(w1, c, 0);
    var rest := ReachesChannel(w1, id, version);
    events := [Start(id, version, assets)] + rest;
    assert events[1..] == rest;
    Others(w1, Run(w1, rest), id, version);
    UnbegunStays(w, w1);
  }

  lemma StartIs(w: World, id: nat, version: Version, assets: Assets)
    requires id !in w.calls
    ensures Step(w, Start(id, version, assets))
            == w.(calls := w.calls[id := Call(version, assets, GetRepository, 0)])
  {
  }

  lemma Others(w: World, w': World, id: nat, version: Version)
    requires OnlyRelease(w, w', id, version)
    ensures w'.tagged == w.tagged && StableVersion(w') == StableVersion(w) && w'.calls.Keys == w.calls.Keys
    ensures forall k :: k in w.calls && k != id ==> w'.calls[k] == w.calls[k]
    ensures forall v :: v != version && Unbegun(w, v) ==> Unbegun(w', v)
  {
    hide RepositorySuits, StableVersion;
  }

  lemma UnbegunStays(w: World, w': World)
    requires w'.bucket == w.bucket
    ensures forall v :: Unbegun(w, v) ==> Unbegun(w', v)
  {
  }

  /** The first publisher creates the channel. */
  lemma CreatesChannel(w: World, id: nat)
    requires id in w.calls && w.calls[id].pc == GetStable(0) && StableVersion(w) == None && StableKey !in w.bucket
    ensures var w' := Run(w, [Act(id), Act(id)]);
            && StableVersion(w') == Some(w.calls[id].version) && w'.calls.Keys == w.calls.Keys
            && w'.tagged == w.tagged && forall v :: Unbegun(w, v) ==> Unbegun(w', v)
  {
    var w1 := Step(w, Act(id));
    assert w1 == Goto(w, id, PutStableAbsent(0));
    var w2 := Step(w1, Act(id));
    assert w2 == WriteStable(w1, id);
    RunsTwo(w, Act(id), Act(id));
    ChannelWritten(w, w2);
  }

  lemma ChannelWritten(w: World, w': World)
    requires StableVersion(w').Some? && forall k :: k != StableKey ==> (k in w'.bucket <==> k in w.bucket)
    requires forall k :: k != StableKey && k in w.bucket ==> w'.bucket[k] == w.bucket[k]
    ensures forall v :: Unbegun(w, v) ==> Unbegun(w', v)
  {
  }

  lemma RunsTwo(w: World, a: Event, b: Event)
    ensures Run(w, [a]) == Step(w, a) && Run(w, [a, b]) == Step(Step(w, a), b)
  {
    hide Step;
    assert [a][1..] == [] && [a, b][1..] == [b] && [b][1..] == [];
    assert Run(Step(w, a), [b]) == Run(Step(Step(w, a), b), []);
  }

  /** Two publishers read an untagged channel; the newer one writes, and then the older one. */
  lemma OverwritesUntagged(w: World, older: nat, newer: nat)
    requires older != newer && older in w.calls && newer in w.calls && !w.tagged && StableVersion(w).Some?
    requires w.calls[older].pc == GetStable(0) && w.calls[newer].pc == GetStable(0)
    requires Less(StableVersion(w).value, w.calls[older].version)
    requires Less(StableVersion(w).value, w.calls[newer].version)
    ensures var w1 := Step(Step(Step(w, Act(older)), Act(newer)), Act(newer));
            && StableVersion(w1) == Some(w.calls[newer].version)
            && StableVersion(Step(w1, Act(older))) == Some(w.calls[older].version)
  {
    var a := Step(w, Act(older));
    assert a == Goto(w, older, PutStableOver(0, None, |w.log|));
    var b := Step(a, Act(newer));
    assert b == Goto(a, newer, PutStableOver(0, None, |a.log|));
    var c := Step(b, Act(newer));
    assert c == WriteStable(b, newer);
    assert Step(c, Act(older)) == WriteStable(c, older);
  }

  /** A real run from an empty store without tags: 1 is published, the publishers of 2 and 3 both
      read it, and the channel is at 2 after it was at 3. */
  lemma WithoutTagsStableMayDecrease(assets: Assets) returns (before: seq<Event>, after: seq<Event>)
    ensures StableVersion(Run(EmptyStore(false), before)) == Some(Version(3, 0, 0))
    ensures StableVersion(Run(Run(EmptyStore(false), before), after)) == Some(Version(2, 0, 0))
  {
    hide Run, Step, Unbegun;
    var one, two, three := Version(1, 0, 0), Version(2, 0, 0), Version(3, 0, 0);
    var w0 := EmptyStore(false);
    assert Unbegun(w0, one) && Unbegun(w0, two) && Unbegun(w0, three) by { EmptyUnbegun(); }
    var e1 := Approaches(w0, 1, one, assets);
    var w1 := Run(w0, e1);
    assert StableKey !in w1.bucket by { NoChannel(w1, two); }
    CreatesChannel(w1, 1);
    var w2 := Run(w1, [Act(1), Act(1)]);
    var e2 := Approaches(w2, 2, two, assets);
    var w3 := Run(w2, e2);
    var e3 := Approaches(w3, 3, three, assets);
    var w4 := Run(w3, e3);
    OverwritesUntagged(w4, 2, 3);
    RunsTwo(w4, Act(2), Act(3));
    var w5 := Run(w4, [Act(2), Act(3)]);
    RunsTwo(w5, Act(3), Act(3));
    before := e1 + [Act(1), Act(1)] + e2 + e3 + [Act(2), Act(3)] + [Act(3)];
    PublisherProgram.RunConcat(w0, e1, [Act(1), Act(1)]);
    PublisherProgram.RunConcat(w0, e1 + [Act(1), Act(1)], e2);
    PublisherProgram.RunConcat(w0, e1 + [Act(1), Act(1)] + e2, e3);
    PublisherProgram.RunConcat(w0, e1 + [Act(1), Act(1)] + e2 + e3, [Act(2), Act(3)]);
    PublisherProgram.RunConcat(w0, e1 + [Act(1), Act(1)] + e2 + e3 + [Act(2), Act(3)], [Act(3)]);
    after := [Act(2)];
    RunsTwo(Run(w0, before), Act(2), Act(2));
  }

  lemma EmptyUnbegun()
    ensures forall v :: Unbegun(EmptyStore(false), v)
  {
  }

  lemma NoChannel(w: World, v: Version)
    requires Unbegun(w, v) && StableVersion(w) == None
    ensures StableKey !in w.bucket
  {
  }

  /** The channel did not go back or away. */
  predicate NotBack(w: World, w': World) {
    StableVersion(w).Some? ==>
      StableVersion(w').Some? && Rank(StableVersion(w').value) >= Rank(StableVersion(w).value)
  }

  /** In all runs from an empty store the stable channel never goes back if and only if the store
      returns entity tags. */
  lemma TagsDecide(tagged: bool)
    ensures tagged <==> forall before, after ::
              NotBack(Run(EmptyStore(tagged), before), Run(Run(EmptyStore(tagged), before), after))
  {
    hide Run;
    if tagged {
      forall before, after
        ensures NotBack(Run(EmptyStore(true), before), Run(Run(EmptyStore(true), before), after))
      {
        StableNeverDecreases(before, after);
      }
    } else {
      var a := Asset("", 1);
      var before, after := WithoutTagsStableMayDecrease(Assets(a, a, a));
      assert !NotBack(Run(EmptyStore(false), before), Run(Run(EmptyStore(false), before), after));
    }
  }
}
