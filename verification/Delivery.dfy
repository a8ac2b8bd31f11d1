// Notifications from detected changes to the delivery loop: grouped by type, persisted, then
// offered to a bounded queue that one loop drains.

module Delivery {
  import opened Options
  import opened Events

  // ---- Grouping ----

  datatype NotificationType = NewDeviceFound | DeviceOnlineAfterTime | Altered

  // What a notification tells: its type and the devices it is about. A notification about one
  // device carries its MAC.
  datatype Note = Note(kind: NotificationType, about: seq<Change>)

  function MacOf(n: Note): Option<string> {
    if |n.about| == 1 then Some(n.about[0].device.mac) else None
  }

  function KindOf(c: Change): NotificationType {
    match c
    case New(_) => NewDeviceFound
    case BackOnline(_, _) => DeviceOnlineAfterTime
    case Changed(_, _, _, _) => Altered
  }

  function OfKind(changes: seq<Change>, kind: NotificationType): seq<Change> {
    if changes == [] then []
    else
      var past, c := OfKind(changes[..|changes| - 1], kind), changes[|changes| - 1];
      if KindOf(c) == kind then past + [c] else past
  }

  function Group(changes: seq<Change>, kind: NotificationType): seq<Note> {
    var mine := OfKind(changes, kind);
    if mine == [] then [] else [Note(kind, mine)]
  }

  function Notes(changes: seq<Change>): seq<Note> {
    Group(changes, NewDeviceFound) + Group(changes, DeviceOnlineAfterTime) + Group(changes, Altered)
  }

  function About(notes: seq<Note>): seq<Change> {
    if notes == [] then [] else notes[0].about + About(notes[1..])
  }

  lemma {:induction false} KindsPartition(changes: seq<Change>)
    ensures multiset(OfKind(changes, NewDeviceFound)) + multiset(OfKind(changes, DeviceOnlineAfterTime))
            + multiset(OfKind(changes, Altered)) == multiset(changes)
  {
    if changes != [] {
      KindsPartition(changes[..|changes| - 1]);
      assert changes == changes[..|changes| - 1] + [changes[|changes| - 1]];
    }
  }

  lemma AboutGroups(a: seq<Note>, b: seq<Note>, c: seq<Note>)
    requires |a| <= 1 && |b| <= 1 && |c| <= 1
    ensures multiset(About(a + b + c)) == multiset(About(a)) + multiset(About(b)) + multiset(About(c))
  {
    AboutConcat(a, b);
    AboutConcat(a + b, c);
  }

  lemma {:induction false} AboutConcat(a: seq<Note>, b: seq<Note>)
    ensures About(a + b) == About(a) + About(b)
  {
    if a == [] {
      assert a + b == b;
    } else {
      AboutConcat(a[1..], b);
      assert (a + b)[1..] == a[1..] + b && (a + b)[0] == a[0];
      assert a[0].about + (About(a[1..]) + About(b)) == a[0].about + About(a[1..]) + About(b);
    }
  }

  // Every change is told exactly once.
  lemma EveryChangeToldOnce(changes: seq<Change>)
    ensures multiset(About(Notes(changes))) == multiset(changes)
  {
    KindsPartition(changes);
    AboutGroups(Group(changes, NewDeviceFound), Group(changes, DeviceOnlineAfterTime), Group(changes, Altered));
    AboutGroup(changes, NewDeviceFound);
    AboutGroup(changes, DeviceOnlineAfterTime);
    AboutGroup(changes, Altered);
  }

  // At most one notification is sent per type, about all the changes of that type, and it carries
  // a MAC exactly when there is one.
  lemma OneNotePerKind(changes: seq<Change>, i: nat)
    requires i < |Notes(changes)|
    ensures var n := Notes(changes)[i];
      && n.about == OfKind(changes, n.kind) && n.about != []
      && (MacOf(n).Some? <==> |OfKind(changes, n.kind)| == 1)
      && forall j :: 0 <= j < |Notes(changes)| && j != i ==> Notes(changes)[j].kind != n.kind
  {
  }

  lemma {:induction false} OfKindHas(changes: seq<Change>, kind: NotificationType, c: Change)
    requires c in OfKind(changes, kind)
    ensures c in changes && (kind == NewDeviceFound <==> c.New?)
    ensures (kind == DeviceOnlineAfterTime <==> c.BackOnline?) && (kind == Altered <==> c.Changed?)
  {
    var init, last := changes[..|changes| - 1], changes[|changes| - 1];
    if c in OfKind(init, kind) {
      OfKindHas(init, kind, c);
    } else {
      assert c == last;
    }
  }

  // A new device is announced as new, a return as a return, a change as a change; the announcements come
  // in this order, and one about a single device carries its MAC.
  lemma KindsTold(changes: seq<Change>, i: nat)
    requires i < |Notes(changes)|
    ensures var n := Notes(changes)[i];
      && (forall c :: c in n.about ==>
            && c in changes && (n.kind == NewDeviceFound <==> c.New?)
            && (n.kind == DeviceOnlineAfterTime <==> c.BackOnline?) && (n.kind == Altered <==> c.Changed?))
      && (|n.about| == 1 ==> MacOf(n) == Some(n.about[0].device.mac)) && (|n.about| != 1 ==> MacOf(n) == None)
    ensures forall j :: i < j < |Notes(changes)| ==>
      Notes(changes)[i].kind != Altered && Notes(changes)[j].kind != NewDeviceFound
  {
    var n := Notes(changes)[i];
    forall c | c in n.about
      ensures c in changes && (n.kind == NewDeviceFound <==> c.New?)
      ensures (n.kind == DeviceOnlineAfterTime <==> c.BackOnline?) && (n.kind == Altered <==> c.Changed?)
    {
      assert n.about == OfKind(changes, n.kind);
      OfKindHas(changes, n.kind, c);
    }
  }

  lemma AboutGroup(changes: seq<Change>, kind: NotificationType)
    ensures About(Group(changes, kind)) == OfKind(changes, kind)
  {
    var mine := OfKind(changes, kind);
    if mine != [] {
      assert About([Note(kind, mine)]) == mine + About([]);
    }
  }

  // ---- The queue ----

  const CAPACITY := 100

  datatype Phase = NotStarted | Running | Stopped

  // `waiting` holds the notifications of the callers that are between their insert and their
  // enqueue. The last five sequences are histories, oldest first.
  datatype State<T> = State(
    phase: Phase, queue: seq<T>, inFlight: seq<T>, waiting: multiset<T>,
    persisted: seq<T>, accepted: seq<T>, delivered: seq<T>, dropped: seq<T>, discarded: seq<T>)

  datatype Step<T> =
    | Persist(note: T)
    | Enqueue(note: T)
    | Start
    | Receive
    | Finish
    | Shutdown

  predicate Enabled<T>(s: State<T>, step: Step<T>) {
    match step
    case Persist(_) => true
    case Enqueue(note) => note in s.waiting
    case Start => s.phase == NotStarted
    case Receive => s.phase == Running && s.inFlight == [] && s.queue != []
    case Finish => s.inFlight != []
    case Shutdown => s.phase == Running && s.inFlight == []
  }

  // Offering never blocks: a full queue, or a loop that is not running, drops the notification.
  function Offered<T>(s: State<T>, note: T): State<T> {
    if s.phase == Running && |s.queue| < CAPACITY
    then s.(queue := s.queue + [note], accepted := s.accepted + [note])
    else s.(dropped := s.dropped + [note])
  }

  function Next<T>(s: State<T>, step: Step<T>): State<T>
    requires Enabled(s, step)
  {
    match step
    case Persist(note) => s.(waiting := s.waiting + multiset{note}, persisted := s.persisted + [note])
    case Enqueue(note) => Offered(s.(waiting := s.waiting - multiset{note}), note)
    case Start => s.(phase := Running)
    case Receive => s.(queue := s.queue[1..], inFlight := [s.queue[0]])
    case Finish => s.(inFlight := s.inFlight[1..], delivered := s.delivered + [s.inFlight[0]])
    case Shutdown => s.(phase := Stopped, queue := [], discarded := s.discarded + s.queue)
  }

  function Initial<T>(): State<T> {
    State(NotStarted, [], [], multiset{}, [], [], [], [], [])
  }

  ghost predicate Runs<T>(s: State<T>, steps: seq<Step<T>>)
    decreases |steps|
  {
    steps == [] || (Enabled(s, steps[0]) && Runs(Next(s, steps[0]), steps[1..]))
  }

  ghost function Run<T>(s: State<T>, steps: seq<Step<T>>): State<T>
    requires Runs(s, steps)
    decreases |steps|
  {
    if steps == [] then s else Run(Next(s, steps[0]), steps[1..])
  }

  // Every persisted notification is in exactly one place.
  ghost predicate Conserved<T>(s: State<T>) {
    multiset(s.persisted) ==
      s.waiting + multiset(s.queue) + multiset(s.inFlight) + multiset(s.delivered) + multiset(s.dropped)
      + multiset(s.discarded)
  }

  // The queue is bounded, one notification at most is being delivered, only a running loop has
  // any, and what was accepted leaves in order: only a shutdown cuts the sequence short.
  ghost predicate Orderly<T>(s: State<T>) {
    && |s.queue| <= 100 && |s.inFlight| <= 1
    && (s.phase != Running ==> s.queue == [] && s.inFlight == [])
    && (s.phase != Stopped ==> s.discarded == [])
    && s.accepted == s.delivered + s.inFlight + s.queue + s.discarded
  }

  ghost predicate Invariant<T>(s: State<T>) {
    Conserved(s) && Orderly(s)
  }

  lemma Count<T>(items: seq<T>, note: T)
    ensures multiset(items + [note]) == multiset(items) + multiset{note}
    ensures multiset([note]) == multiset{note}
  {
  }

  lemma ConservedOffer<T>(s: State<T>, note: T)
    requires Conserved(s) && note in s.waiting
    ensures Conserved(Offered(s.(waiting := s.waiting - multiset{note}), note))
  {
    Count(s.queue, note);
    Count(s.dropped, note);
    assert s.waiting == s.waiting - multiset{note} + multiset{note};
  }

  lemma ConservedReceive<T>(s: State<T>)
    requires Conserved(s) && Enabled(s, Receive)
    ensures Conserved(Next(s, Step<T>.Receive))
  {
    assert s.queue == [s.queue[0]] + s.queue[1..];
    assert multiset(s.queue) == multiset([s.queue[0]]) + multiset(s.queue[1..]);
  }

  lemma ConservedFinish<T>(s: State<T>)
    requires Conserved(s) && |s.inFlight| == 1
    ensures Conserved(Next(s, Step<T>.Finish))
  {
    assert s.inFlight == [s.inFlight[0]] && s.inFlight[1..] == [];
    Count(s.delivered, s.inFlight[0]);
  }

  lemma ConservedShutdown<T>(s: State<T>)
    requires Conserved(s) && Enabled(s, Shutdown)
    ensures Conserved(Next(s, Step<T>.Shutdown))
  {
    assert multiset(s.discarded + s.queue) == multiset(s.discarded) + multiset(s.queue);
  }

  lemma OrderlyStep<T>(s: State<T>, step: Step<T>)
    requires Orderly(s) && Enabled(s, step)
    ensures Orderly(Next(s, step))
  {
    var out := s.delivered + s.inFlight;
    match step
    case Enqueue(note) =>
      if s.phase == Running {
        assert out + s.queue + [] + [note] == out + (s.queue + [note]) + [];
      }
    case Receive =>
      assert out + s.queue == s.delivered + [s.queue[0]] + s.queue[1..];
    case Finish =>
      assert s.inFlight == [s.inFlight[0]] && s.inFlight[1..] == [];
      assert out + [] == out;
    case Shutdown =>
      assert out + s.queue + [] == out + [] + ([] + s.queue);
    case _ =>
  }

  lemma InvariantStep<T>(s: State<T>, step: Step<T>)
    requires Invariant(s) && Enabled(s, step)
    ensures Invariant(Next(s, step))
  {
    OrderlyStep(s, step);
    match step
    case Persist(note) => Count(s.persisted, note);
    case Enqueue(note) => ConservedOffer(s, note);
    case Receive => ConservedReceive(s);
    case Finish => ConservedFinish(s);
    case Shutdown => ConservedShutdown(s);
    case Start =>
  }

  // Main result: it holds in every reachable state.
  lemma {:induction false} Conservation<T>(s: State<T>, steps: seq<Step<T>>)
    requires Invariant(s) && Runs(s, steps)
    ensures Invariant(Run(s, steps))
    decreases |steps|
  {
    if steps != [] {
      InvariantStep(s, steps[0]);
      Conservation(Next(s, steps[0]), steps[1..]);
    }
  }

  lemma ReachableConserves<T>(steps: seq<Step<T>>)
    requires Runs(Initial<T>(), steps)
    ensures Invariant(Run(Initial<T>(), steps))
  {
    Conservation(Initial<T>(), steps);
  }

  // A notification is dropped exactly when its offer finds the queue full or the loop not running.
  lemma DropsOnlyWhen<T>(s: State<T>, step: Step<T>)
    requires Invariant(s) && Enabled(s, step)
    ensures Next(s, step).dropped != s.dropped
       <==> step.Enqueue? && (s.phase != Running || |s.queue| == 100)
  {
    if step.Enqueue? && (s.phase != Running || |s.queue| == 100) {
      assert |Next(s, step).dropped| == |s.dropped| + 1;
    }
  }

  // Every offer of a run finds the loop running and fewer than a full queue.
  ghost predicate RoomThroughout<T>(s: State<T>, steps: seq<Step<T>>)
    requires Runs(s, steps)
    decreases |steps|
  {
    steps == [] ||
    (&& (steps[0].Enqueue? ==> s.phase == Running && |s.queue| < 100)
     && RoomThroughout(Next(s, steps[0]), steps[1..]))
  }

  lemma DropsRemain<T>(s: State<T>, step: Step<T>)
    requires Enabled(s, step)
    ensures s.dropped <= Next(s, step).dropped
  {
  }

  lemma {:induction false} DropsGrow<T>(s: State<T>, steps: seq<Step<T>>)
    requires Runs(s, steps)
    ensures s.dropped <= Run(s, steps).dropped
    decreases |steps|
  {
    if steps != [] {
      DropsRemain(s, steps[0]);
      DropsGrow(Next(s, steps[0]), steps[1..]);
    }
  }

  lemma {:induction false} DropsIff<T>(s: State<T>, steps: seq<Step<T>>)
    requires Invariant(s) && Runs(s, steps)
    ensures Run(s, steps).dropped == s.dropped <==> RoomThroughout(s, steps)
    decreases |steps|
  {
    if steps != [] {
      var next := Next(s, steps[0]);
      InvariantStep(s, steps[0]);
      DropsOnlyWhen(s, steps[0]);
      DropsRemain(s, steps[0]);
      DropsGrow(next, steps[1..]);
      DropsIff(next, steps[1..]);
    }
  }

  // Main result: a run drops nothing if and only if none of its offers finds the loop not running or
  // the queue full.
  lemma NothingDroppedIff<T>(steps: seq<Step<T>>)
    requires Runs(Initial<T>(), steps)
    ensures Run(Initial<T>(), steps).dropped == [] <==> RoomThroughout(Initial<T>(), steps)
  {
    DropsIff(Initial<T>(), steps);
  }

  // ---- The code ----

  class DeliveryQueue<T> {
    var phase: Phase
    var queue: seq<T>
    var inFlight: seq<T>
    var table: seq<T>
    ghost var waiting: multiset<T>
    ghost var accepted: seq<T>
    ghost var delivered: seq<T>
    ghost var dropped: seq<T>
    ghost var discarded: seq<T>

    ghost function View(): State<T>
      reads this
    {
      State(phase, queue, inFlight, waiting, table, accepted, delivered, dropped, discarded)
    }

    constructor ()
      ensures View() == Initial<T>()
    {
      phase, queue, inFlight, table := NotStarted, [], [], [];
      waiting, accepted, delivered, dropped, discarded := multiset{}, [], [], [], [];
    }

    // Hand a notification to the loop, or drop it.
    method Enqueue(note: T)
      modifies this
      ensures View() == Offered(old(View()), note)
    {
      if phase == Running {
        if |queue| < CAPACITY {
          queue := queue + [note];
          accepted := accepted + [note];
        } else {
          dropped := dropped + [note];
        }
      } else {
        dropped := dropped + [note];
      }
    }

    // The row is inserted before the notification is offered.
    method PersistAndDeliver(note: T)
      modifies this
      ensures View() == Sent(old(View()), note)
    {
      table := table + [note];
      Enqueue(note);
    }

    // The loop starts at most once.
    method Begin() returns (started: bool)
      modifies this
      ensures started == Enabled(old(View()), Start)
      ensures View() == if started then Next(old(View()), Start) else old(View())
    {
      started := phase == NotStarted;
      if started {
        phase := Running;
      }
    }

    // One turn of the loop: stop if a requested shutdown is picked, else deliver the next
    // notification, if there is one.
    method Turn(stop: bool) returns (goOn: bool)
      requires phase == Running && inFlight == []
      modifies this
      ensures goOn == !stop
      ensures stop ==> View() == Next(old(View()), Shutdown)
      ensures !stop && old(queue) != [] ==>
        Runs(old(View()), [Receive, Finish]) && View() == Run(old(View()), [Receive, Finish])
      ensures !stop && old(queue) == [] ==> View() == old(View())
    {
      if stop {
        discarded := discarded + queue;
        phase, queue := Stopped, [];
        return false;
      }
      if |queue| > 0 {
        ghost var before := View();
        inFlight, queue := [queue[0]], queue[1..];
        delivered := delivered + inFlight;
        inFlight := [];
        assert [Receive, Finish][1..] == [Step<T>.Finish] && [Step<T>.Finish][1..] == [];
        assert Run(Next(before, Receive), [Finish]) == View();
      }
      goOn := true;
    }
  }

  // `notify`: sort the changes by type, then persist and offer one notification per type present.
  method Notify(queue: DeliveryQueue<Note>, changes: seq<Change>)
    modifies queue
    ensures queue.View() == SentAll(old(queue.View()), Notes(changes))
  {
    var newDevices, backOnline, changed: seq<Change> := [], [], [];
    var i := 0;
    while i < |changes|
      invariant 0 <= i <= |changes|
      invariant newDevices == OfKind(changes[..i], NewDeviceFound)
      invariant backOnline == OfKind(changes[..i], DeviceOnlineAfterTime)
      invariant changed == OfKind(changes[..i], Altered)
      invariant queue.View() == old(queue.View())
    {
      var change := changes[i];
      assert changes[..i + 1][..i] == changes[..i];
      match change {
        case New(_) => newDevices := newDevices + [change];
        case BackOnline(_, _) => backOnline := backOnline + [change];
        case Changed(_, _, _, _) => changed := changed + [change];
      }
      i := i + 1;
    }
    assert changes[..i] == changes;
    NotifyGroup(queue, NewDeviceFound, newDevices);
    NotifyGroup(queue, DeviceOnlineAfterTime, backOnline);
    NotifyGroup(queue, Altered, changed);
    ThreeGroups(old(queue.View()), changes);
  }

  method NotifyGroup(queue: DeliveryQueue<Note>, kind: NotificationType, about: seq<Change>)
    modifies queue
    ensures queue.View() == if about == [] then old(queue.View()) else Sent(old(queue.View()), Note(kind, about))
  {
    if |about| > 0 {
      queue.PersistAndDeliver(Note(kind, about));
    }
  }

  // One notification persisted and offered with nothing in between.
  function Sent<T>(s: State<T>, note: T): State<T> {
    Offered(s.(persisted := s.persisted + [note]), note)
  }

  function SentAll<T>(s: State<T>, notes: seq<T>): State<T>
    decreases |notes|
  {
    if notes == [] then s else SentAll(Sent(s, notes[0]), notes[1..])
  }

  lemma ThreeGroups(s: State<Note>, changes: seq<Change>)
    ensures SentAll(s, Notes(changes)) ==
      SentAll(SentAll(SentAll(s, Group(changes, NewDeviceFound)), Group(changes, DeviceOnlineAfterTime)),
                 Group(changes, Altered))
  {
    var a, b, c := Group(changes, NewDeviceFound), Group(changes, DeviceOnlineAfterTime), Group(changes, Altered);
    SentConcat(s, a + b, c);
    SentConcat(s, a, b);
  }

  lemma {:induction false} SentConcat<T>(s: State<T>, a: seq<T>, b: seq<T>)
    ensures SentAll(s, a + b) == SentAll(SentAll(s, a), b)
    decreases |a|
  {
    if a == [] {
      assert a + b == b;
    } else {
      SentConcat(Sent(s, a[0]), a[1..], b);
      assert (a + b)[1..] == a[1..] + b;
    }
  }

  // Sending without interleaving is a run of two steps of the queue.
  lemma SendIsRun<T>(s: State<T>, note: T)
    ensures Runs(s, [Persist(note), Enqueue(note)])
    ensures Run(s, [Persist(note), Enqueue(note)]) == Sent(s, note)
  {
    var held := Next(s, Persist(note));
    assert held.waiting - multiset{note} == s.waiting;
    assert [Persist(note), Enqueue(note)][1..] == [Enqueue(note)];
    assert Run(held, [Enqueue(note)]) == Next(held, Enqueue(note));
  }
}
