/** The relay's wake-up path: producers put a connection key into a shared set and then, as a
    separate step, notify; one consumer drains the set or sleeps, and may be cancelled while it
    sleeps.  The notifier holds at most one permit, wakes a sleeper instead if there is one, and
    passes a wake-up on when the woken sleeper is dropped. */
module Wake {
  import opened Octets
  import Relay

  type Key = Relay.Key

  /** The consumer: not in `recv`, about to drain the set, about to wait having found it empty,
      asleep, or woken and about to go round again. */
  datatype Consumer = Away | Draining | FoundEmpty | Asleep | Woken

  /** `owed` counts the producers that inserted a key and have yet to notify; `returned` is history. */
  datatype Waker = Waker(keys: set<Key>, permit: bool, consumer: Consumer, owed: nat,
                         returned: seq<set<Key>>)

  const IDLE: Waker := Waker({}, false, Away, 0, [])

  datatype Event = Insert(key: Key) | NotifyOne | Call | Drain | Poll | Resume | Cancel

  predicate Enabled(w: Waker, e: Event) {
    match e
    case Insert(_) => true
    case NotifyOne => w.owed > 0
    case Call => w.consumer.Away?
    case Drain => w.consumer.Draining?
    case Poll => w.consumer.FoundEmpty?
    case Resume => w.consumer.Woken?
    case Cancel => w.consumer.Asleep? || w.consumer.Woken?
  }

  function Step(w: Waker, e: Event): Waker {
    if !Enabled(w, e) then w else
    match e
    case Insert(k) => if k in w.keys then w else w.(keys := w.keys + {k}, owed := w.owed + 1)
    case NotifyOne =>
      if w.consumer.Asleep? then w.(owed := w.owed - 1, consumer := Woken)
      else w.(owed := w.owed - 1, permit := true)
    case Call => w.(consumer := Draining)
    case Drain =>
      if w.keys == {} then w.(consumer := FoundEmpty)
      else w.(keys := {}, consumer := Away, returned := w.returned + [w.keys])
    case Poll => if w.permit then w.(permit := false, consumer := Draining) else w.(consumer := Asleep)
    case Resume => w.(consumer := Draining)
    case Cancel => w.(consumer := Away, permit := w.permit || w.consumer.Woken?)
  }

  function Run(w: Waker, events: seq<Event>): Waker {
    if events == [] then w else Step(Run(w, events[..|events| - 1]), events[|events| - 1])
  }

  /** Work is never forgotten: somebody is about to look, to tell, or has told. */
  predicate Inv(w: Waker) {
    && (w.keys != {} ==> w.permit || w.consumer.Draining? || w.consumer.Woken? || w.owed > 0)
    && (w.consumer.Asleep? ==> !w.permit)
    && (forall i :: 0 <= i < |w.returned| ==> w.returned[i] != {})
  }

  lemma StepKeeps(w: Waker, e: Event)
    requires Inv(w)
    ensures Inv(Step(w, e))
  {
  }

  lemma {:induction false} RunKeeps(events: seq<Event>)
    ensures Inv(Run(IDLE, events))
  {
    if events != [] {
      RunKeeps(events[..|events| - 1]);
      StepKeeps(Run(IDLE, events[..|events| - 1]), events[|events| - 1]);
    }
  }

  /** No lost wake-up, in every run: as long as there are keys, a permit is stored, or the consumer
      will drain before it sleeps, or a producer is about to notify.  So the consumer never sleeps
      on work once the producers are done, and `recv` never returns an empty list. */
  lemma {:induction false} NoLostWakeup(events: seq<Event>)
    ensures var w := Run(IDLE, events);
            && (w.keys != {} ==> w.permit || w.consumer.Draining? || w.consumer.Woken? || w.owed > 0)
            && (w.consumer.Asleep? && w.owed == 0 ==> w.keys == {})
            && (forall i :: 0 <= i < |w.returned| ==> w.returned[i] != {})
  {
    RunKeeps(events);
  }

  /** What the consumer does next if left alone. */
  function Own(w: Waker): Event {
    match w.consumer
    case Away => Call
    case Draining => Drain
    case FoundEmpty => Poll
    case Asleep => Poll
    case Woken => Resume
  }

  function Alone(w: Waker, n: nat): Waker {
    if n == 0 then w else Step(Alone(w, n - 1), Own(Alone(w, n - 1)))
  }

  /** After any run in which every producer got to notify, the consumer, left alone, returns all
      keys within two of its steps. */
  lemma WorkIsReturned(events: seq<Event>) returns (n: nat)
    requires Run(IDLE, events).owed == 0 && Run(IDLE, events).keys != {}
    ensures n <= 2
    ensures var w := Run(IDLE, events); Alone(w, n).returned == w.returned + [w.keys] && Alone(w, n).keys == {}
  {
    RunKeeps(events);
    var w := Run(IDLE, events);
    n := if w.consumer.Draining? then 1 else 2;
    assert Alone(w, 1) == Step(Alone(w, 0), Own(Alone(w, 0)));
    assert n == 2 ==> Alone(w, 2) == Step(Alone(w, 1), Own(Alone(w, 1)));
  }

  function Inserted(events: seq<Event>): set<Key> {
    set e | e in events && e.Insert? :: e.key
  }

  /** Notifications coalesce and nothing else happens to them: between two drains the set gains
      exactly the keys inserted meanwhile, of whatever generation, through any cancellations. */
  lemma {:induction false} CoalescedExactly(w: Waker, events: seq<Event>)
    requires forall i :: 0 <= i < |events| ==> !events[i].Drain?
    ensures Run(w, events).keys == w.keys + Inserted(events)
    ensures Run(w, events).returned == w.returned
  {
    if events != [] {
      var before, e := events[..|events| - 1], events[|events| - 1];
      CoalescedExactly(w, before);
      assert events == before + [e];
      assert Inserted(events) == Inserted(before) + (if e.Insert? then {e.key} else {});
    }
  }

  // ---------------------------------------------------------------- channels and the loop

  /** The waker with the channels behind the keys: those that freed space or closed since the loop
      last looked at them, the receivers that did so and have yet to insert their key, and the keys
      handed to the loop that its next pump has yet to look at. */
  datatype Progress = Progress(waker: Waker, unseen: set<Key>, telling: set<Key>, handed: set<Key>)

  /** A receiver takes a message or closes, and then tells; the loop looks at a connection while it
      is not in `recv`; everything else happens to the waker alone. */
  datatype Move = Frees(key: Key) | Tells(key: Key) | Looks(key: Key) | Wakes(event: Event)

  const QUIET: Progress := Progress(IDLE, {}, {}, {})

  /** The loop calls `recv` again only when its pump has looked at every connection. */
  predicate Allowed(p: Progress, m: Move) {
    match m
    case Frees(k) => k !in p.telling
    case Tells(k) => k in p.telling
    case Looks(_) => p.waker.consumer.Away?
    case Wakes(e) => !e.Insert? && (e.Call? ==> p.handed == {})
  }

  function Advance(p: Progress, m: Move): Progress {
    if !Allowed(p, m) then p else
    match m
    case Frees(k) => p.(unseen := p.unseen + {k}, telling := p.telling + {k})
    case Tells(k) => p.(telling := p.telling - {k}, waker := Step(p.waker, Insert(k)))
    case Looks(k) => p.(unseen := p.unseen - {k}, handed := p.handed - {k})
    case Wakes(e) =>
      p.(waker := Step(p.waker, e),
         handed := if e.Drain? && Enabled(p.waker, e) then p.handed + p.waker.keys else p.handed)
  }

  function Course(moves: seq<Move>): Progress {
    if moves == [] then QUIET else Advance(Course(moves[..|moves| - 1]), moves[|moves| - 1])
  }

  predicate Tracked(p: Progress) {
    && Inv(p.waker)
    && p.unseen <= p.telling + p.waker.keys + p.handed
    && (!p.waker.consumer.Away? ==> p.handed == {})
  }

  lemma {:induction false} CourseTracked(moves: seq<Move>)
    ensures Tracked(Course(moves))
  {
    if moves != [] {
      var before, m := Course(moves[..|moves| - 1]), moves[|moves| - 1];
      CourseTracked(moves[..|moves| - 1]);
      if m.Tells? {
        StepKeeps(before.waker, Insert(m.key));
      } else if m.Wakes? {
        StepKeeps(before.waker, m.event);
      }
    }
  }

  /** In every run, a channel that freed space or closed without the loop having seen it has a
      receiver about to tell, or its key is in the set, or the loop's next pump will look at it; so
      once the receivers are done, the loop never sleeps while there is progress to see. */
  lemma {:induction false} ProgressIsSeen(moves: seq<Move>)
    ensures var p := Course(moves);
            && (forall k :: k in p.unseen ==> k in p.telling || k in p.waker.keys || k in p.handed)
            && (p.waker.consumer.Asleep? && p.waker.owed == 0 && p.telling == {} ==> p.unseen == {})
  {
    CourseTracked(moves);
  }

  /** The order in `RelayReceiver` matters: were the key inserted before the channel closes, the
      loop could look in between and then sleep on a closed channel. */
  lemma TellingFirstWouldLoseProgress(k: Key)
    ensures var early := Step(Step(Step(Step(IDLE, Insert(k)), NotifyOne), Call), Drain);
            // the loop looks now, and only then does the channel close
            var p := Progress(early, {k}, {}, {});
            && early.returned == [{k}]
            && Drained(Drained(p)).waker.consumer.Asleep? && Drained(Drained(p)).waker.owed == 0
            && k in Drained(Drained(p)).unseen
  {
    var w1 := Step(IDLE, Insert(k));
    assert w1 == Waker({k}, false, Away, 1, []);
    var w2 := Step(w1, NotifyOne);
    assert w2 == Waker({k}, true, Away, 0, []);
    assert Step(Step(w2, Call), Drain) == Waker({}, true, Away, 0, [{k}]);
  }

  /** The loop goes on in `recv` for one drain and one poll. */
  function Drained(p: Progress): Progress {
    var p1 := if p.waker.consumer.Away? then Advance(p, Wakes(Call)) else p;
    Advance(Advance(p1, Wakes(Drain)), Wakes(Poll))
  }

  // ---------------------------------------------------------------- as the program runs it

  class RelayWake {
    var keys: set<Key>
    var permit: bool
    // the consumer and the producers under way
    var consumer: Consumer
    ghost var owed: nat
    ghost var returned: seq<set<Key>>

    ghost function State(): Waker
      reads this
    {
      Waker(keys, permit, consumer, owed, returned)
    }

    constructor ()
      ensures State() == IDLE
    {
      keys, permit, consumer, owed, returned := {}, false, Away, 0, [];
    }

    /** The first half of `notify`, under the lock. */
    method InsertKey(key: Key) returns (added: bool)
      modifies this
      ensures State() == Step(old(State()), Insert(key))
      ensures added <==> key !in old(keys)
    {
      added := key !in keys;
      if added {
        keys := keys + {key};
        owed := owed + 1;
      }
    }

    /** The second half, done by those whose key was new. */
    method Notify()
      requires owed > 0
      modifies this
      ensures State() == Step(old(State()), NotifyOne)
    {
      if consumer.Asleep? {
        consumer := Woken;
      } else {
        permit := true;
      }
      owed := owed - 1;
    }

    /** `notify` as a whole, undisturbed. */
    method NotifyKey(key: Key)
      modifies this
      ensures State() == Told(old(State()), key)
    {
      var added := InsertKey(key);
      if added {
        Notify();
      }
    }

    /** The lock is held while the set is emptied into a list, each key once. */
    method DrainKeys() returns (list: seq<Key>)
      requires consumer.Draining?
      modifies this
      ensures State() == Step(old(State()), Drain)
      ensures (set k | k in list) == old(keys) && (list == [] <==> old(keys) == {})
      ensures forall i, j :: 0 <= i < j < |list| ==> list[i] != list[j]
    {
      list := [];
      while keys != {}
        invariant (set k | k in list) + keys == old(keys) && (set k | k in list) !! keys
        invariant forall i, j :: 0 <= i < j < |list| ==> list[i] != list[j]
        invariant permit == old(permit) && consumer == old(consumer) && owed == old(owed)
        invariant returned == old(returned)
        decreases keys
      {
        var k :| k in keys;
        ghost var before := list;
        keys := keys - {k};
        list := list + [k];
        assert (set x | x in list) == (set x | x in before) + {k};
      }
      if list == [] {
        assert old(keys) == {};
        consumer := FoundEmpty;
      } else {
        assert list[0] in old(keys);
        consumer := Away;
        returned := returned + [old(keys)];
      }
    }

    /** One poll of `recv` from its loop head: it hands out every key there is, or goes to sleep
        with no permit left. */
    method PollRecv() returns (list: seq<Key>)
      requires consumer.Draining?
      modifies this
      ensures (set k | k in list) == old(keys) && keys == {}
      ensures forall i, j :: 0 <= i < j < |list| ==> list[i] != list[j]
      ensures list != [] <==> old(keys) != {}
      ensures if list == [] then consumer == Asleep && !permit && returned == old(returned)
              else consumer == Away && permit == old(permit) && returned == old(returned) + [old(keys)]
    {
      list := DrainKeys();
      while consumer.FoundEmpty?
        invariant keys == {} && (set k | k in list) == old(keys)
        invariant forall i, j :: 0 <= i < j < |list| ==> list[i] != list[j]
        invariant if list == []
                  then (consumer.FoundEmpty? || (consumer.Asleep? && !permit)) && returned == old(returned)
                  else consumer.Away? && permit == old(permit) && returned == old(returned) + [old(keys)]
        decreases consumer.FoundEmpty?, permit
      {
        if permit {
          permit, consumer := false, Draining;
          list := DrainKeys();
        } else {
          consumer := Asleep;
        }
      }
      assert list != [] ==> list[0] in old(keys);
    }
  }

  function Told(w: Waker, key: Key): Waker {
    if key in w.keys then w else Step(Step(w, Insert(key)), NotifyOne)
  }

  /** One poll of `recv`: a message or the end of the channel, or nothing yet. */
  datatype Polled = Ready(message: Option<Relay.BridgeMsg>) | Waiting

  /** The receiving end of a bridge's channel. */
  class RelayReceiver {
    const wake: RelayWake
    const key: Key
    var queue: seq<Relay.BridgeMsg>
    var senderGone: bool
    var closed: bool

    constructor (wake: RelayWake, key: Key)
      ensures this.wake == wake && this.key == key && queue == [] && !senderGone && !closed
    {
      this.wake, this.key, queue, senderGone, closed := wake, key, [], false, false;
    }

    /** One poll of `recv`: it waits while the channel is empty and its sender is there; a message
        leaves its place free before the loop is told, and nothing else tells it anything. */
    method Recv() returns (r: Polled)
      modifies this`queue, wake
      ensures r == if old(queue) != [] then Ready(Some(old(queue)[0])) else if senderGone then Ready(None) else Waiting
      ensures queue == if old(queue) == [] then [] else old(queue)[1..]
      ensures wake.State() == if old(queue) == [] then old(wake.State()) else Told(old(wake.State()), key)
    {
      if queue == [] {
        return if senderGone then Ready(None) else Waiting;
      }
      r, queue := Ready(Some(queue[0])), queue[1..];
      wake.NotifyKey(key);
    }

    /** `drop`: closed before it is told. */
    method Close()
      modifies this, wake
      ensures closed && queue == [] && wake.State() == Told(old(wake.State()), key)
    {
      closed, queue := true, [];
      wake.NotifyKey(key);
    }
  }
}
