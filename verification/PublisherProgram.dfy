/** The publisher as the program runs it: a straight line of requests and one retry loop, with the
    other publishers acting between any two requests and any request failing.  What it does is a
    run of the step system of `Publisher`. */
module PublisherProgram {
  import opened Octets
  import opened Publisher

  /** What becomes of a request: an answer, no effect, or an effect without an answer. */
  datatype Fate = Answered | NeverArrived | Unanswered

  datatype Reply<+T> = Reply(value: T) | NoReply

  /** Nobody else acts in the name of this publisher. */
  predicate NotBy(id: nat, events: seq<Event>) {
    forall k :: 0 <= k < |events| ==> events[k].id != id
  }

  lemma StepLeaves(w: World, e: Event, id: nat)
    requires id in w.calls && e.id != id
    ensures id in Step(w, e).calls && Step(w, e).calls[id] == w.calls[id]
  {
    hide Request;
    if e.id in w.calls {
      RequestKeepsCall(w, e.id);
    }
  }

  lemma {:induction false} RunLeaves(w: World, events: seq<Event>, id: nat)
    requires id in w.calls && NotBy(id, events)
    ensures id in Run(w, events).calls && Run(w, events).calls[id] == w.calls[id]
    decreases |events|
  {
    hide Step;
    if events != [] {
      StepLeaves(w, events[0], id);
      RunLeaves(Step(w, events[0]), events[1..], id);
    }
  }

  lemma {:induction false} RunConcat(w: World, a: seq<Event>, b: seq<Event>)
    ensures Run(w, a + b) == Run(Run(w, a), b)
    decreases |a|
  {
    hide Step;
    if a == [] {
      assert a + b == b;
    } else {
      assert (a + b)[0] == a[0] && (a + b)[1..] == a[1..] + b;
      RunConcat(Step(w, a[0]), a[1..], b);
    }
  }

  /** The object store with all the other publishers: before this publisher's n-th request they do
      `others(n)`, and `fate(n)` befalls the request. */
  class Store {
    var world: World
    var turn: nat
    const others: nat -> seq<Event>
    const fate: nat -> Fate
    // history: all that happened
    ghost var past: seq<Event>
    ghost const start: World

    constructor (world: World, others: nat -> seq<Event>, fate: nat -> Fate)
      ensures this.world == world && this.start == world && past == [] && turn == 0
      ensures this.others == others && this.fate == fate
    {
      this.world, this.start, this.past, this.turn := world, world, [], 0;
      this.others, this.fate := others, fate;
    }

    /** The world is what the past made of the start, and only this publisher speaks for itself. */
    ghost predicate Valid(id: nat)
      reads this
    {
      world == Run(start, past) && id in world.calls && forall n :: NotBy(id, others(n))
    }

    /** The call stands at a certain request. */
    ghost predicate Stands(id: nat, version: Version, assets: Assets, pc: Pc)
      reads this
    {
      Valid(id) && world.calls[id].version == version && world.calls[id].assets == assets
      && world.calls[id].pc == pc
    }

    method LetOthersAct(id: nat) returns (f: Fate)
      requires Valid(id)
      modifies this
      ensures Valid(id) && world.calls[id] == old(world.calls[id])
    {
      f := fate(turn);
      RunLeaves(world, others(turn), id);
      RunConcat(start, past, others(turn));
      past := past + others(turn);
      world := Run(world, others(turn));
      turn := turn + 1;
    }

    /** Record one event of this publisher: the world already is what it makes of `before`. */
    ghost method Record(id: nat, before: World, e: Event)
      requires before == Run(start, past) && world == Step(before, e) && id in world.calls
      requires forall n :: NotBy(id, others(n))
      modifies this`past
      ensures Valid(id)
    {
      hide Step;
      RunConcat(start, past, [e]);
      assert Run(before, [e]) == Step(before, e) by {
        assert [e][1..] == [];
      }
      past := past + [e];
    }

    /** A GET or HEAD: what is stored, with its tag if the store returns tags. */
    method Get(key: Key) returns (r: Option<(Body, Option<nat>)>)
      ensures r == if key in world.bucket
                   then Some((world.bucket[key].body, if world.tagged then Some(world.bucket[key].etag) else None))
                   else None
    {
      if key !in world.bucket {
        return None;
      }
      return Some((world.bucket[key].body, if world.tagged then Some(world.bucket[key].etag) else None));
    }

    /** A PUT that must find no object (`If-None-Match: *`), or the object with this tag
        (`If-Match`), or anything at all. */
    method PutObject(id: nat, key: Key, body: Body, absent: bool, match_: Option<nat>) returns (ok: bool)
      modifies this`world
      ensures ok == (if absent then key !in old(world).bucket
                     else match_.None? || (key in old(world).bucket && old(world).bucket[key].etag == match_.value))
      ensures world == if !ok then old(world)
                       else if key == StableKey && body.Channel?
                       then Put(old(world), key, body).(log := old(world).log + [StableWrite(id, body.version)])
                       else Put(old(world), key, body)
    {
      ok := if absent then key !in world.bucket
            else match_.None? || (key in world.bucket && world.bucket[key].etag == match_.value);
      if ok {
        world := if key == StableKey && body.Channel?
                 then Put(world, key, body).(log := world.log + [StableWrite(id, body.version)])
                 else Put(world, key, body);
      }
    }

    /** The program counter of the model follows the program. */
    method Goes(id: nat, pc: Pc)
      requires id in world.calls
      modifies this`world
      ensures world == Goto(old(world), id, pc)
    {
      world := Goto(world, id, pc);
    }

    method BeginsUpdate(id: nat)
      requires id in world.calls
      modifies this`world
      ensures world == old(world).(calls := old(world).calls[
                id := old(world).calls[id].(pc := GetStable(0), since := |old(world).log|)])
    {
      world := world.(calls := world.calls[id := world.calls[id].(pc := GetStable(0), since := |world.log|)]);
    }

    /** The call ends in failure on this request, which had no effect. */
    method Lost(id: nat)
      requires Valid(id) && !world.calls[id].pc.Finished?
      modifies this`world, this`past
      ensures Valid(id) && world.calls[id] == old(world.calls[id]).(pc := Finished(Failed))
    {
      ghost var before := world;
      Goes(id, Finished(Failed));
      Record(id, before, Stop(id));
    }
  }

  /** Where the program goes on, or how it ended. */
  datatype Progress = Goon | Ended(outcome: Outcome)

  /** The call as the program left it: at `next`, or finished with the outcome. */
  ghost predicate Left(store: Store, id: nat, version: Version, assets: Assets, next: Pc, p: Progress)
    reads store
  {
    store.Stands(id, version, assets, if p.Goon? then next else Finished(p.outcome))
  }

  method EnsureRepository(store: Store, id: nat, version: Version, assets: Assets) returns (p: Progress)
    requires store.Stands(id, version, assets, GetRepository)
    modifies store
    ensures Left(store, id, version, assets, HeadManifest, p)
  {
    hide Step, Run;
    var f := store.LetOthersAct(id);
    if f != Answered {
      store.Lost(id);
      return Ended(Failed);
    }
    ghost var before := store.world;
    var found := store.Get(RepositoryKey);
    if found.Some? {
      var valid := found.value.0 == Descriptor(PROTOCOL_VERSION);
      store.Goes(id, if valid then HeadManifest else Finished(Failed));
      ActIsRequest(before, id);
      store.Record(id, before, Act(id));
      return if valid then Goon else Ended(Failed);
    }
    store.Goes(id, PutRepository);
    ActIsRequest(before, id);
    store.Record(id, before, Act(id));

    f := store.LetOthersAct(id);
    if f == NeverArrived {
      store.Lost(id);
      return Ended(Failed);
    }
    before := store.world;
    var _ := store.PutObject(id, RepositoryKey, Descriptor(PROTOCOL_VERSION), true, None);
    store.Goes(id, RecheckRepository);
    p := Settled(store, id, before, f);
    if p.Ended? {
      return;
    }

    f := store.LetOthersAct(id);
    if f != Answered {
      store.Lost(id);
      return Ended(Failed);
    }
    before := store.world;
    found := store.Get(RepositoryKey);
    var valid := found.Some? && found.value.0 == Descriptor(PROTOCOL_VERSION);
    store.Goes(id, if valid then HeadManifest else Finished(Failed));
    ActIsRequest(before, id);
    store.Record(id, before, Act(id));
    return if valid then Goon else Ended(Failed);
  }

  lemma ActIsRequest(w: World, id: nat)
    requires id in w.calls
    ensures Step(w, Act(id)) == Request(w, id)
    ensures !w.calls[id].pc.Finished? && id in Request(w, id).calls ==>
              Step(w, ActAndFail(id)) == Goto(Request(w, id), id, Finished(Failed))
    ensures !w.calls[id].pc.Finished? ==> Step(w, Stop(id)) == Goto(w, id, Finished(Failed))
  {
  }

  /** A request that took effect: the program learns the answer, or ends not knowing it. */
  method Settled(store: Store, id: nat, ghost before: World, f: Fate) returns (p: Progress)
    requires id in before.calls && !before.calls[id].pc.Finished? && f != NeverArrived
    requires store.world == Request(before, id) && before == Run(store.start, store.past)
    requires id in store.world.calls && forall n :: NotBy(id, store.others(n))
    modifies store`world, store`past
    ensures store.Valid(id) && (p.Goon? <==> f == Answered) && (p.Ended? ==> p.outcome == Failed)
    ensures store.world.calls[id]
            == if p.Goon? then old(store.world.calls[id]) else old(store.world.calls[id]).(pc := Finished(Failed))
  {
    hide Step, Run, Request;
    ActIsRequest(before, id);
    if f == Unanswered {
      store.Goes(id, Finished(Failed));
      store.Record(id, before, ActAndFail(id));
      return Ended(Failed);
    }
    store.Record(id, before, Act(id));
    return Goon;
  }

  method CheckManifest(store: Store, id: nat, version: Version, assets: Assets) returns (p: Progress)
    requires store.Stands(id, version, assets, HeadManifest)
    modifies store
    ensures Left(store, id, version, assets, HeadAsset(0), p)
  {
    hide Step, Run;
    var f := store.LetOthersAct(id);
    if f != Answered {
      store.Lost(id);
      return Ended(Failed);
    }
    ghost var before := store.world;
    var found := store.Get(ManifestKey(version));
    store.Goes(id, if found.Some? then Finished(ReleaseExists) else HeadAsset(0));
    ActIsRequest(before, id);
    store.Record(id, before, Act(id));
    return if found.Some? then Ended(ReleaseExists) else Goon;
  }

  method UploadAsset(store: Store, id: nat, version: Version, assets: Assets, i: nat) returns (p: Progress)
    requires i < 3 && store.Stands(id, version, assets, HeadAsset(i))
    modifies store
    ensures Left(store, id, version, assets, AfterAsset(i), p)
  {
    hide Step, Run;
    var key, body := AssetKey(version, ASSET_NAMES[i]), AssetData(assets.Get(ASSET_NAMES[i]));
    var f := store.LetOthersAct(id);
    if f != Answered {
      store.Lost(id);
      return Ended(Failed);
    }
    ghost var before := store.world;
    var found := store.Get(key);
    ActIsRequest(before, id);
    if found.Some? {
      var same := found.value.0 == body;
      store.Goes(id, if same then AfterAsset(i) else Finished(ObjectExists(key)));
      store.Record(id, before, Act(id));
      return if same then Goon else Ended(ObjectExists(key));
    }
    store.Goes(id, PutAsset(i));
    store.Record(id, before, Act(id));

    f := store.LetOthersAct(id);
    if f == NeverArrived {
      store.Lost(id);
      return Ended(Failed);
    }
    before := store.world;
    var ok := store.PutObject(id, key, body, true, None);
    store.Goes(id, if ok then AfterAsset(i) else Finished(ObjectExists(key)));
    p := Settled(store, id, before, f);
    if p.Goon? && !ok {
      return Ended(ObjectExists(key));
    }
  }

  method UploadManifest(store: Store, id: nat, version: Version, assets: Assets) returns (p: Progress)
    requires store.Stands(id, version, assets, PutManifest)
    modifies store
    ensures Left(store, id, version, assets, GetStable(0), p)
  {
    hide Step, Run;
    var f := store.LetOthersAct(id);
    if f == NeverArrived {
      store.Lost(id);
      return Ended(Failed);
    }
    ghost var before := store.world;
    var ok := store.PutObject(id, ManifestKey(version), Manifest(assets), true, None);
    if ok {
      store.BeginsUpdate(id);
    } else {
      store.Goes(id, Finished(ReleaseExists));
    }
    p := Settled(store, id, before, f);
    if p.Goon? && !ok {
      return Ended(ReleaseExists);
    }
  }

  /** The first write of the stable channel. */
  method CreateStable(store: Store, id: nat, version: Version, assets: Assets, attempt: nat)
    returns (p: Progress)
    requires store.Stands(id, version, assets, PutStableAbsent(attempt))
    modifies store
    ensures Left(store, id, version, assets, Again(attempt), p)
  {
    hide Step, Run;
    var f := store.LetOthersAct(id);
    if f == NeverArrived {
      store.Lost(id);
      return Ended(Failed);
    }
    ghost var before := store.world;
    var ok := store.PutObject(id, StableKey, Channel(version), true, None);
    store.Goes(id, if ok then Finished(Published) else Again(attempt));
    p := Settled(store, id, before, f);
    if p.Goon? && ok {
      return Ended(Published);
    }
  }

  /** A later write, over the object that was read. */
  method ReplaceStable(store: Store, id: nat, version: Version, assets: Assets, attempt: nat,
                       etag: Option<nat>, ghost seen: nat)
    returns (p: Progress)
    requires store.Stands(id, version, assets, PutStableOver(attempt, etag, seen))
    modifies store
    ensures Left(store, id, version, assets, Again(attempt), p)
  {
    hide Step, Run;
    var f := store.LetOthersAct(id);
    if f == NeverArrived {
      store.Lost(id);
      return Ended(Failed);
    }
    ghost var before := store.world;
    var ok := store.PutObject(id, StableKey, Channel(version), false, etag);
    store.Goes(id, if ok then Finished(Published) else Again(attempt));
    p := Settled(store, id, before, f);
    if p.Goon? && ok {
      return Ended(Published);
    }
  }

  /** One turn of the retry loop. */
  method TryUpdate(store: Store, id: nat, version: Version, assets: Assets, attempt: nat) returns (p: Progress)
    requires store.Stands(id, version, assets, GetStable(attempt))
    modifies store
    ensures Left(store, id, version, assets, Again(attempt), p)
  {
    hide Step, Run;
    var f := store.LetOthersAct(id);
    if f != Answered {
      store.Lost(id);
      return Ended(Failed);
    }
    ghost var before := store.world;
    var found := store.Get(StableKey);
    ActIsRequest(before, id);
    if found.None? {
      store.Goes(id, PutStableAbsent(attempt));
      store.Record(id, before, Act(id));
      p := CreateStable(store, id, version, assets, attempt);
      return;
    }
    var (body, etag) := found.value;
    if !body.Channel? {
      store.Goes(id, Finished(Failed));
      store.Record(id, before, Act(id));
      return Ended(Failed);
    }
    if !Less(body.version, version) {
      store.Goes(id, Finished(Published));
      store.Record(id, before, Act(id));
      return Ended(Published);
    }
    var seen := |store.world.log|;
    store.Goes(id, PutStableOver(attempt, etag, seen));
    store.Record(id, before, Act(id));
    p := ReplaceStable(store, id, version, assets, attempt, etag, seen);
  }

  method UpdateStable(store: Store, id: nat, version: Version, assets: Assets) returns (outcome: Outcome)
    requires store.Stands(id, version, assets, GetStable(0))
    modifies store
    ensures store.Stands(id, version, assets, Finished(outcome))
  {
    var attempt := 0;
    while attempt < MAX_ATTEMPTS
      invariant attempt <= MAX_ATTEMPTS
      invariant store.Stands(id, version, assets,
                             if attempt < MAX_ATTEMPTS then GetStable(attempt) else Finished(ConcurrentUpdate))
    {
      var p := TryUpdate(store, id, version, assets, attempt);
      if p.Ended? {
        return p.outcome;
      }
      attempt := attempt + 1;
    }
    return ConcurrentUpdate;
  }

  /** `publish`, from the first request on: whatever the others do and whichever requests fail, it
      ends, with the outcome the step system has for it. */
  method Publish(store: Store, id: nat, version: Version, assets: Assets) returns (outcome: Outcome)
    requires store.Stands(id, version, assets, GetRepository)
    modifies store
    ensures store.Stands(id, version, assets, Finished(outcome))
  {
    var p := EnsureRepository(store, id, version, assets);
    if p.Ended? {
      return p.outcome;
    }
    p := CheckManifest(store, id, version, assets);
    if p.Ended? {
      return p.outcome;
    }
    var i := 0;
    while i < |ASSET_NAMES|
      invariant i <= |ASSET_NAMES|
      invariant store.Stands(id, version, assets, if i < |ASSET_NAMES| then HeadAsset(i) else PutManifest)
    {
      p := UploadAsset(store, id, version, assets, i);
      if p.Ended? {
        return p.outcome;
      }
      i := i + 1;
    }
    p := UploadManifest(store, id, version, assets);
    if p.Ended? {
      return p.outcome;
    }
    outcome := UpdateStable(store, id, version, assets);
  }

  /** One publisher from an empty store on, with everybody else around it: if it reports success,
      its release is complete and the stable channel is at least at its version, now and after
      anything that follows; a conflict means three writes by others since its update began. */
  method PublishAmongOthers(id: nat, version: Version, assets: Assets, earlier: seq<Event>,
                            others: nat -> seq<Event>, fate: nat -> Fate)
    returns (outcome: Outcome, world: World)
    requires id !in Run(EmptyStore(true), earlier).calls && forall n :: NotBy(id, others(n))
    ensures Inv(world) && id in world.calls && world.calls[id].pc == Finished(outcome)
    ensures outcome == Published ==>
              && StableVersion(world).Some? && Rank(StableVersion(world).value) >= Rank(version)
              && forall later :: StableVersion(Run(world, later)).Some?
                                 && Rank(StableVersion(Run(world, later)).value) >= Rank(version)
    ensures outcome == ConcurrentUpdate ==>
              && |world.log| - world.calls[id].since >= 3
              && forall k :: world.calls[id].since <= k < |world.log| ==> world.log[k].author != id
  {
    hide Step, Inv, Rank, Less;
    var empty := EmptyStore(true);
    var begin := earlier + [Start(id, version, assets)];
    RunConcat(empty, earlier, [Start(id, version, assets)]);
    StartsAtFirst(Run(empty, earlier), id, version, assets);
    var store := new Store(Run(empty, begin), others, fate);
    outcome := Publish(store, id, version, assets);
    world := store.world;
    RunConcat(empty, begin, store.past);
    ghost var past := begin + store.past;
    Reachable(past, []);
    ConflictMeansProgress(past, id);
    if outcome == Published {
      forall later
        ensures StableVersion(Run(world, later)).Some? && Rank(StableVersion(Run(world, later)).value) >= Rank(version)
      {
        PublishedStays(past, later, id);
      }
      assert Run(world, []) == world;
    }
  }

  lemma StartsAtFirst(w: World, id: nat, version: Version, assets: Assets)
    requires id !in w.calls
    ensures var w' := Run(w, [Start(id, version, assets)]);
            id in w'.calls && w'.calls[id] == Call(version, assets, GetRepository, 0)
  {
    var e := Start(id, version, assets);
    assert [e][1..] == [];
    assert Run(w, [e]) == Run(Step(w, e), [e][1..]) == Step(w, e);
  }
}
