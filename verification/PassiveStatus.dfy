// The rolling count of devices a passive scanner has discovered within the last hour. Sightings
// older than the window are pruned at every snapshot.

module PassiveStatus {
  import opened Options

  // 3600 seconds, in nanoseconds.
  const RECENT_WINDOW: int := 3600 * 1_000_000_000

  datatype Snapshot = Snapshot(
    isListening: bool, listeningSince: Option<int>, devicesLastHour: nat, lastDiscoveryAt: Option<int>)

  // What happened to a status so far, oldest first.
  datatype Happening = Discovery(mac: string, at: int) | Pruning(at: int)

  function Pruned(sightings: map<string, int>, cutoff: int): map<string, int> {
    map mac | mac in sightings && sightings[mac] >= cutoff :: sightings[mac]
  }

  function Sightings(history: seq<Happening>): map<string, int> {
    if history == [] then map[]
    else
      var past := Sightings(history[..|history| - 1]);
      match history[|history| - 1]
      case Discovery(mac, at) => past[mac := at]
      case Pruning(at) => Pruned(past, at - RECENT_WINDOW)
  }

  lemma SightingsPruned(history: seq<Happening>, now: int)
    ensures Sightings(history + [Pruning(now)]) == Pruned(Sightings(history), now - RECENT_WINDOW)
  {
    assert (history + [Pruning(now)])[..|history|] == history;
  }

  class Status {
    var isListening: bool
    var listeningSince: Option<int>
    var recentSightings: map<string, int>
    var lastDiscoveryAt: Option<int>
    ghost var history: seq<Happening>

    ghost predicate Valid()
      reads this
    {
      recentSightings == Sightings(history)
    }

    constructor ()
      ensures Valid() && history == [] && !isListening && listeningSince == None && lastDiscoveryAt == None
    {
      isListening, listeningSince, recentSightings, lastDiscoveryAt := false, None, map[], None;
      history := [];
    }

    method SetListening(now: int)
      requires Valid()
      modifies this`isListening, this`listeningSince
      ensures Valid() && isListening && listeningSince == Some(now)
    {
      isListening := true;
      listeningSince := Some(now);
    }

    method RecordDiscovery(mac: string, now: int)
      requires Valid()
      modifies this`recentSightings, this`lastDiscoveryAt, this`history
      ensures Valid() && history == old(history) + [Discovery(mac, now)]
      ensures lastDiscoveryAt == Some(now)
    {
      recentSightings := recentSightings[mac := now];
      lastDiscoveryAt := Some(now);
      history := history + [Discovery(mac, now)];
      assert history[..|history| - 1] == old(history);
    }

    // With a clock that has not gone back, the count is that of the whole history.
    method TakeSnapshot(now: int) returns (snapshot: Snapshot)
      requires Valid()
      modifies this`recentSightings, this`history
      ensures Valid() && history == old(history) + [Pruning(now)]
      ensures Monotone(history) ==>
        snapshot == Snapshot(isListening, listeningSince, |Discovered(history, now - 3_600_000_000_000)|, lastDiscoveryAt)
    {
      var cutoff := now - RECENT_WINDOW;
      recentSightings := map mac | mac in recentSightings && recentSightings[mac] >= cutoff :: recentSightings[mac];
      assert recentSightings == Pruned(old(recentSightings), cutoff);
      history := history + [Pruning(now)];
      SightingsPruned(old(history), now);
      hide *;
      snapshot := Snapshot(isListening, listeningSince, |recentSightings.Keys|, lastDiscoveryAt);
      if Monotone(history) {
        SnapshotCounts(history);
      }
    }
  }

  // ---- The full history ----

  ghost predicate Monotone(history: seq<Happening>) {
    forall i, j :: 0 <= i < j < |history| ==> history[i].at <= history[j].at
  }

  // The devices discovered at or after an instant, in the whole history.
  function Discovered(history: seq<Happening>, since: int): set<string> {
    set h | h in history && h.Discovery? && h.at >= since :: h.mac
  }

  // The map holds nothing that was not discovered.
  lemma {:induction false} HeldWasDiscovered(history: seq<Happening>, mac: string)
    requires mac in Sightings(history)
    ensures Discovery(mac, Sightings(history)[mac]) in history
  {
    var init, last := history[..|history| - 1], history[|history| - 1];
    assert history == init + [last];
    if last.Discovery? && last.mac == mac {
      assert history[|history| - 1] == last;
    } else {
      HeldWasDiscovered(init, mac);
    }
  }

  // However often entries were pruned on the way, the map still holds every device discovered
  // within the window, at a discovery no older.
  lemma {:induction false} RecentIsHeld(history: seq<Happening>, i: nat)
    requires i < |history| && Monotone(history) && history[i].Discovery?
    requires history[i].at >= history[|history| - 1].at - 3_600_000_000_000
    ensures history[i].mac in Sightings(history) && Sightings(history)[history[i].mac] >= history[i].at
  {
    var init, last := history[..|history| - 1], history[|history| - 1];
    if i < |init| {
      assert init[i] == history[i] && init[|init| - 1] == history[|init| - 1];
      RecentIsHeld(init, i);
    }
  }

  // Main result: what a snapshot counts is the number of distinct devices discovered in the last
  // hour of the whole history.
  lemma SnapshotCounts(history: seq<Happening>)
    requires history != [] && Monotone(history) && history[|history| - 1].Pruning?
    ensures var now := history[|history| - 1].at;
      Sightings(history).Keys == Discovered(history, now - 3_600_000_000_000)
  {
    var now, held := history[|history| - 1].at, Sightings(history);
    forall mac | mac in held
      ensures mac in Discovered(history, now - RECENT_WINDOW)
    {
      HeldWasDiscovered(history, mac);
      var h := Discovery(mac, held[mac]);
      assert h in history && h.at >= now - RECENT_WINDOW;
    }
    forall mac | mac in Discovered(history, now - RECENT_WINDOW)
      ensures mac in held
    {
      var h :| h in history && h.Discovery? && h.at >= now - RECENT_WINDOW && h.mac == mac;
      var i :| 0 <= i < |history| && history[i] == h;
      RecentIsHeld(history, i);
    }
  }
}
