// From detection to delivery: the ledger and the delivery queue joined by what every scanner collects
// and passes on. A passive listener passes on the changes of every sighting, an active scanner those
// of a whole scan; either may happen between any two steps of the others.

module Notifying {
  import opened Devices
  import opened Events
  import opened Ledger
  import opened Solo
  import D = Delivery

  // The changes a scanner has been handed back and has not yet passed on, and the notifications made of
  // those it has, as far as they are still to be persisted.
  datatype Outbox = Outbox(collected: seq<Change>, unsent: seq<D.Note>)

  datatype System = System(ledger: State, delivery: D.State<D.Note>, outboxes: map<Scanner, Outbox>)

  datatype Action =
    | Record(step: Step)
    | Group(scanner: Scanner)
    | Send(scanner: Scanner)
    | Deliver(queueStep: D.Step<D.Note>)

  function OutboxOf(sys: System, scanner: Scanner): Outbox {
    if scanner in sys.outboxes then sys.outboxes[scanner] else Outbox([], [])
  }

  // One process, so no restart. A scanner that is sending does not begin a sighting, and it groups what
  // it has collected only between sightings. Only a scanner persists notifications.
  predicate Possible(cfg: Config, sys: System, a: Action) {
    match a
    case Record(step) =>
      Enabled(cfg, sys.ledger, step) && !step.Restart? && (step.Begin? ==> OutboxOf(sys, step.scanner).unsent == [])
    case Group(scanner) => scanner !in sys.ledger.jobs && OutboxOf(sys, scanner).unsent == []
    case Send(scanner) => OutboxOf(sys, scanner).unsent != []
    case Deliver(step) => !step.Persist? && D.Enabled(sys.delivery, step)
  }

  // The changes that a longer trace returns beyond a shorter one.
  function Fresh(before: seq<Output>, after: seq<Output>): seq<Change> {
    if |before| <= |after| then Answers(after[|before|..]) else []
  }

  function WithOutbox(sys: System, scanner: Scanner, box: Outbox): System {
    sys.(outboxes := sys.outboxes[scanner := box])
  }

  function After(cfg: Config, sys: System, a: Action): System
    requires Possible(cfg, sys, a)
  {
    match a
    case Record(step) =>
      var ledger := Next(cfg, sys.ledger, step);
      var next := sys.(ledger := ledger);
      if step.Advance? then
        var box := OutboxOf(sys, step.scanner);
        WithOutbox(next, step.scanner, box.(collected := box.collected + Fresh(sys.ledger.trace, ledger.trace)))
      else next
    case Group(scanner) => WithOutbox(sys, scanner, Outbox([], D.Notes(OutboxOf(sys, scanner).collected)))
    case Send(scanner) =>
      var box := OutboxOf(sys, scanner);
      WithOutbox(sys.(delivery := D.Next(sys.delivery, D.Persist(box.unsent[0]))), scanner, box.(unsent := box.unsent[1..]))
    case Deliver(step) => sys.(delivery := D.Next(sys.delivery, step))
  }

  ghost predicate Goes(cfg: Config, sys: System, actions: seq<Action>)
    decreases |actions|
  {
    actions == [] || (Possible(cfg, sys, actions[0]) && Goes(cfg, After(cfg, sys, actions[0]), actions[1..]))
  }

  ghost function Gone(cfg: Config, sys: System, actions: seq<Action>): System
    requires Goes(cfg, sys, actions)
    decreases |actions|
  {
    if actions == [] then sys else Gone(cfg, After(cfg, sys, actions[0]), actions[1..])
  }

  // ---- Every returned change is told once ----

  function Times(changes: seq<Change>, c: Change): nat {
    multiset(changes)[c]
  }

  lemma TimesConcat(a: seq<Change>, b: seq<Change>, c: Change)
    ensures Times(a + b, c) == Times(a, c) + Times(b, c)
  {
    assert multiset(a + b) == multiset(a) + multiset(b);
  }

  // How often a scanner still holds a change.
  function Held(box: Outbox, c: Change): nat {
    Times(box.collected, c) + Times(D.About(box.unsent), c)
  }

  function AllHeld(sys: System, c: Change): nat {
    Held(OutboxOf(sys, Arp), c) + Held(OutboxOf(sys, Mdns), c) + Held(OutboxOf(sys, Ssdp), c)
    + Held(OutboxOf(sys, Dhcp), c) + Held(OutboxOf(sys, Scanner.Snmp), c)
  }

  // The change has been returned as often as persisted notifications are about it and scanners hold it.
  ghost predicate Accounted(sys: System, c: Change) {
    Times(Answers(sys.ledger.trace), c) == Times(D.About(sys.delivery.persisted), c) + AllHeld(sys, c)
  }

  lemma Regroup<T>(a: seq<T>, b: seq<T>, c: seq<T>)
    ensures a + b + c == a + (b + c)
  {
  }

  lemma {:induction false} AnswersConcat(a: seq<Output>, b: seq<Output>)
    ensures Answers(a + b) == Answers(a) + Answers(b)
  {
    if b == [] {
      assert a + b == a;
    } else {
      hide Answers;
      var init, last := b[..|b| - 1], b[|b| - 1];
      AnswersConcat(a, init);
      assert b == init + [last];
      Regroup(a, init, [last]);
      AnswersAppend(a + init, last);
      AnswersAppend(init, last);
      if last.Returned? {
        Regroup(Answers(a), Answers(init), [last.change]);
      }
    }
  }

  lemma FreshAnswers(before: seq<Output>, after: seq<Output>)
    requires before <= after
    ensures Answers(after) == Answers(before) + Fresh(before, after)
  {
    assert after == before + after[|before|..];
    AnswersConcat(before, after[|before|..]);
  }

  // A scanner's statement only adds to the trace.
  lemma TraceGrows(cfg: Config, s: State, scanner: Scanner, job: Job)
    ensures s.trace <= AdvanceJob(cfg, s, scanner, job).trace
  {
    if job.Recording? {
      TraceGrowsRecording(cfg, s, scanner, job.task, job.phase);
    } else {
      LogOnlyInRecording(cfg, s, scanner, job);
    }
  }

  lemma TraceGrowsRecording(cfg: Config, s: State, scanner: Scanner, task: Task, phase: Phase)
    ensures s.trace <= AdvanceRecording(cfg, s, scanner, task, phase).trace
  {
    match phase
    case Check(_, _) => FinishedFrame(s, scanner, task, false);
    case Append(e) => FinishedFrame(Stored(s, e), scanner, task, true);
    case _ =>
  }

  // Steps of anyone else return no change.
  lemma OthersAnswerNothing(cfg: Config, s: State, step: Step)
    requires Enabled(cfg, s, step) && !step.Advance?
    ensures Answers(Next(cfg, s, step).trace) == Answers(s.trace)
  {
    if step.Commit? {
      var w := s.requests[step.id];
      AnswersAppend(s.trace, Written(w, NormalizeMac(w.mac) in s.db.rows));
    }
  }

  // Changing one scanner's outbox leaves the others'.
  lemma HeldChanges(sys: System, scanner: Scanner, box: Outbox, c: Change)
    ensures AllHeld(WithOutbox(sys, scanner, box), c) - Held(box, c) == AllHeld(sys, c) - Held(OutboxOf(sys, scanner), c)
  {
    hide Held;
    var after := WithOutbox(sys, scanner, box);
    assert forall other: Scanner :: OutboxOf(after, other) == if other == scanner then box else OutboxOf(sys, other);
    match scanner
    case Arp =>
    case Mdns =>
    case Ssdp =>
    case Dhcp =>
    case Snmp =>
  }

  lemma HeldSame(sys: System, other: System, c: Change)
    requires sys.outboxes == other.outboxes
    ensures AllHeld(sys, c) == AllHeld(other, c)
  {
    hide Held;
    assert forall scanner :: OutboxOf(sys, scanner) == OutboxOf(other, scanner);
  }

  lemma AccountedRecord(cfg: Config, sys: System, scanner: Scanner, c: Change)
    requires Accounted(sys, c) && Possible(cfg, sys, Record(Advance(scanner)))
    ensures Accounted(After(cfg, sys, Record(Advance(scanner))), c)
  {
    var ledger := Next(cfg, sys.ledger, Advance(scanner));
    TraceGrows(cfg, sys.ledger, scanner, sys.ledger.jobs[scanner]);
    Collected(sys, ledger, scanner, c);
  }

  lemma Collected(sys: System, ledger: State, scanner: Scanner, c: Change)
    requires Accounted(sys, c) && sys.ledger.trace <= ledger.trace
    ensures var box := OutboxOf(sys, scanner);
      var gained := Fresh(sys.ledger.trace, ledger.trace);
      Accounted(WithOutbox(sys.(ledger := ledger), scanner, box.(collected := box.collected + gained)), c)
  {
    hide Times, Answers, AllHeld;
    var box, gained := OutboxOf(sys, scanner), Fresh(sys.ledger.trace, ledger.trace);
    FreshAnswers(sys.ledger.trace, ledger.trace);
    TimesConcat(Answers(sys.ledger.trace), gained, c);
    TimesConcat(box.collected, gained, c);
    HeldChanges(sys.(ledger := ledger), scanner, box.(collected := box.collected + gained), c);
    HeldSame(sys, sys.(ledger := ledger), c);
  }

  lemma AccountedGroup(cfg: Config, sys: System, scanner: Scanner, c: Change)
    requires Accounted(sys, c) && Possible(cfg, sys, Group(scanner))
    ensures Accounted(After(cfg, sys, Group(scanner)), c)
  {
    var collected := OutboxOf(sys, scanner).collected;
    D.EveryChangeToldOnce(collected);
    HeldChanges(sys, scanner, Outbox([], D.Notes(collected)), c);
  }

  lemma AccountedSend(cfg: Config, sys: System, scanner: Scanner, c: Change)
    requires Accounted(sys, c) && Possible(cfg, sys, Send(scanner))
    ensures Accounted(After(cfg, sys, Send(scanner)), c)
  {
    hide Times, Answers, AllHeld;
    var box, persisted := OutboxOf(sys, scanner), sys.delivery.persisted;
    var note, rest := box.unsent[0], box.unsent[1..];
    var delivery := D.Next(sys.delivery, D.Persist(note));
    D.AboutConcat(persisted, [note]);
    assert D.About([note]) == note.about;
    TimesConcat(D.About(persisted), note.about, c);
    TimesConcat(note.about, D.About(rest), c);
    HeldChanges(sys.(delivery := delivery), scanner, box.(unsent := rest), c);
    HeldSame(sys, sys.(delivery := delivery), c);
  }

  lemma AccountedAction(cfg: Config, sys: System, a: Action, c: Change)
    requires Accounted(sys, c) && Possible(cfg, sys, a)
    ensures Accounted(After(cfg, sys, a), c)
  {
    match a
    case Record(step) =>
      if step.Advance? {
        AccountedRecord(cfg, sys, step.scanner, c);
      } else {
        OthersAnswerNothing(cfg, sys.ledger, step);
        HeldSame(sys, After(cfg, sys, a), c);
      }
    case Group(scanner) => AccountedGroup(cfg, sys, scanner, c);
    case Send(scanner) => AccountedSend(cfg, sys, scanner, c);
    case Deliver(step) =>
      assert D.Next(sys.delivery, step).persisted == sys.delivery.persisted;
      HeldSame(sys, After(cfg, sys, a), c);
  }

  lemma DeliveryKept(cfg: Config, sys: System, a: Action)
    requires D.Invariant(sys.delivery) && Possible(cfg, sys, a)
    ensures D.Invariant(After(cfg, sys, a).delivery)
  {
    match a
    case Send(scanner) => D.InvariantStep(sys.delivery, D.Persist(OutboxOf(sys, scanner).unsent[0]));
    case Deliver(step) => D.InvariantStep(sys.delivery, step);
    case _ =>
  }

  lemma {:induction false} AccountedRun(cfg: Config, sys: System, actions: seq<Action>, c: Change)
    requires Accounted(sys, c) && Goes(cfg, sys, actions)
    ensures Accounted(Gone(cfg, sys, actions), c)
    decreases |actions|
  {
    if actions != [] {
      AccountedAction(cfg, sys, actions[0], c);
      AccountedRun(cfg, After(cfg, sys, actions[0]), actions[1..], c);
    }
  }

  lemma {:induction false} DeliveryRun(cfg: Config, sys: System, actions: seq<Action>)
    requires D.Invariant(sys.delivery) && Goes(cfg, sys, actions)
    ensures D.Invariant(Gone(cfg, sys, actions).delivery)
    decreases |actions|
  {
    if actions != [] {
      DeliveryKept(cfg, sys, actions[0]);
      DeliveryRun(cfg, After(cfg, sys, actions[0]), actions[1..]);
    }
  }

  // A process that has just started.
  function JustStarted(ledger: State): System {
    System(ledger, D.Initial<D.Note>(), map[])
  }

  lemma StartAccounted(ledger: State, c: Change)
    requires AtRest(ledger)
    ensures Accounted(JustStarted(ledger), c) && D.Invariant(JustStarted(ledger).delivery)
  {
  }

  // Main result: over any run of a process, from any tables, every change has been returned exactly as
  // often as persisted notifications are about it and scanners still hold it, and each of those
  // notifications is in one place of the delivery queue's machine.
  lemma ReturnedAreAccounted(cfg: Config, ledger: State, actions: seq<Action>, c: Change)
    requires AtRest(ledger) && Goes(cfg, JustStarted(ledger), actions)
    ensures var end := Gone(cfg, JustStarted(ledger), actions); Accounted(end, c) && D.Invariant(end.delivery)
  {
    hide Accounted, D.Invariant, Gone, Goes;
    StartAccounted(ledger, c);
    AccountedRun(cfg, JustStarted(ledger), actions, c);
    DeliveryRun(cfg, JustStarted(ledger), actions);
  }

  // Once no scanner holds anything, the persisted notifications tell every returned change once and
  // nothing else.
  lemma ReturnedAreTold(cfg: Config, ledger: State, actions: seq<Action>)
    requires AtRest(ledger) && Goes(cfg, JustStarted(ledger), actions)
    requires forall scanner :: OutboxOf(Gone(cfg, JustStarted(ledger), actions), scanner) == Outbox([], [])
    ensures var end := Gone(cfg, JustStarted(ledger), actions);
      multiset(D.About(end.delivery.persisted)) == multiset(Answers(end.ledger.trace))
  {
    var end := Gone(cfg, JustStarted(ledger), actions);
    forall c: Change
      ensures Times(D.About(end.delivery.persisted), c) == Times(Answers(end.ledger.trace), c)
    {
      StartAccounted(ledger, c);
      AccountedRun(cfg, JustStarted(ledger), actions, c);
    }
    SameTimes(D.About(end.delivery.persisted), Answers(end.ledger.trace));
  }

  lemma SameTimes(a: seq<Change>, b: seq<Change>)
    requires forall c :: Times(a, c) == Times(b, c)
    ensures multiset(a) == multiset(b)
  {
    forall c: Change
      ensures multiset(a)[c] == multiset(b)[c]
    {
      assert Times(a, c) == Times(b, c);
    }
  }
}
