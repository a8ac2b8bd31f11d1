// The notification list of the app: a fetched page merged into the live list in place, every
// structural change mirrored to the animated list.

module NotificationList {
  import opened Options

  // A notification by its key, its read state and everything else it shows.
  datatype Note = Note(id: int, isNew: bool, content: string)

  // A call on the animated list.
  datatype Edit = Insert(index: int, id: int) | Remove(index: int)

  function Ids(items: seq<Note>): (ids: seq<int>)
    ensures |ids| == |items|
  {
    seq(|items|, i requires 0 <= i < |items| => items[i].id)
  }

  predicate Distinct(ids: seq<int>) {
    forall i, j :: 0 <= i < j < |ids| ==> ids[i] != ids[j]
  }

  function SetOf(ids: seq<int>): set<int> {
    set id | id in ids
  }

  // The elements that belong to a set, in order.
  function Keep(ids: seq<int>, wanted: set<int>): seq<int> {
    if ids == [] then []
    else if ids[0] in wanted then [ids[0]] + Keep(ids[1..], wanted)
    else Keep(ids[1..], wanted)
  }

  // What the animated list's children become, or nothing if an index is out of its range.
  function Applied(children: seq<int>, e: Edit): Option<seq<int>> {
    match e
    case Insert(i, id) => if 0 <= i <= |children| then Some(children[..i] + [id] + children[i..]) else None
    case Remove(i) => if 0 <= i < |children| then Some(children[..i] + children[i + 1..]) else None
  }

  function Mirror(children: seq<int>, edits: seq<Edit>): Option<seq<int>> {
    if edits == [] then Some(children)
    else
      match Mirror(children, edits[..|edits| - 1])
      case None => None
      case Some(before) => Applied(before, edits[|edits| - 1])
  }

  lemma MirrorAppend(children: seq<int>, edits: seq<Edit>, e: Edit)
    requires Mirror(children, edits).Some?
    ensures Mirror(children, edits + [e]) == Applied(Mirror(children, edits).value, e)
  {
    assert (edits + [e])[..|edits|] == edits;
  }

  lemma {:induction false} MirrorPrefix(children: seq<int>, edits: seq<Edit>, n: nat)
    requires n <= |edits| && Mirror(children, edits).Some?
    ensures Mirror(children, edits[..n]).Some?
  {
    if n < |edits| {
      MirrorPrefix(children, edits[..|edits| - 1], n);
      assert edits[..|edits| - 1][..n] == edits[..n];
    } else {
      assert edits[..n] == edits;
    }
  }

  class NotificationsList {
    var items: seq<Note>
    var flashIds: set<int>
    var edits: seq<Edit>

    constructor (items: seq<Note>)
      ensures this.items == items && flashIds == {} && edits == []
    {
      this.items, flashIds, edits := items, {}, [];
    }

    method IndexOf(id: int) returns (index: int)
      ensures -1 <= index < |items|
      ensures index == -1 ==> id !in Ids(items)
      ensures index >= 0 ==> items[index].id == id
      ensures forall i :: 0 <= i < index ==> items[i].id != id
    {
      index := 0;
      while index < |items|
        invariant 0 <= index <= |items|
        invariant forall i :: 0 <= i < index ==> items[i].id != id
      {
        if items[index].id == id {
          return;
        }
        index := index + 1;
      }
      index := -1;
    }

    method AnimatedInsert(index: int, item: Note)
      requires 0 <= index <= |items|
      modifies this
      ensures items == old(items[..index]) + [item] + old(items[index..])
      ensures flashIds == old(flashIds) + {item.id}
      ensures edits == old(edits) + [Insert(index, item.id)]
    {
      items := items[..index] + [item] + items[index..];
      flashIds := flashIds + {item.id};
      edits := edits + [Insert(index, item.id)];
    }

    method RemoveItem(id: int) returns (ghost index: int)
      modifies this`items, this`edits
      ensures -1 <= index < |old(items)|
      ensures index == -1 ==> id !in Ids(old(items)) && items == old(items) && edits == old(edits)
      ensures index >= 0 ==>
        && old(items)[index].id == id
        && items == old(items[..index]) + old(items[index + 1..])
        && edits == old(edits) + [Remove(index)]
    {
      var found := IndexOf(id);
      index := found;
      if found == -1 {
        return;
      }
      items := items[..found] + items[found + 1..];
      edits := edits + [Remove(found)];
    }

    // Drops the rows the page no longer has, high index to low.
    method RemoveGone(incomingIds: set<int>) returns (ghost emitted: seq<Edit>)
      requires Distinct(Ids(items))
      modifies this`items, this`edits
      ensures Ids(items) == Keep(Ids(old(items)), incomingIds)
      ensures forall n :: n in items ==> n in old(items)
      ensures edits == old(edits) + emitted && forall e :: e in emitted ==> e.Remove?
      ensures Mirror(Ids(old(items)), emitted) == Some(Ids(items))
    {
      hide *;
      ghost var start := items;
      emitted := [];
      var i := |items| - 1;
      RemovalStarts(items, incomingIds);
      while i >= 0
        invariant -1 <= i < |items| <= |start|
        invariant items[..i + 1] == start[..i + 1]
        invariant Ids(items[i + 1..]) == Keep(Ids(start)[i + 1..], incomingIds)
        invariant Distinct(Ids(items)) && forall n :: n in items ==> n in start
        invariant edits == old(edits) + emitted && forall e :: e in emitted ==> e.Remove?
        invariant Mirror(Ids(start), emitted) == Some(Ids(items))
      {
        ghost var before := items;
        if items[i].id !in incomingIds {
          ghost var index := RemoveItem(items[i].id);
          OnlyAt(before, i, index);
          MirrorRemove(Ids(start), emitted, Ids(before), i);
          emitted := emitted + [Remove(i)];
          Dropped(start, before, i, incomingIds);
        } else {
          Retained(start, items, i, incomingIds);
        }
        i := i - 1;
      }
      assert items[0..] == items && Ids(start)[0..] == Ids(start);
    }

    // Takes over changed read states in place.
    method TakeReadStates(incoming: seq<Note>)
      requires Distinct(Ids(items)) && Distinct(Ids(incoming))
      modifies this`items
      ensures Ids(items) == Ids(old(items))
      ensures ReadStatesTaken(items, incoming, old(items))
    {
      ghost var start := items;
      var k := 0;
      while k < |incoming|
        invariant 0 <= k <= |incoming| && Ids(items) == Ids(start)
        invariant forall j, m :: 0 <= j < |items| && k <= m < |incoming| && items[j].id == incoming[m].id ==>
          items[j] == start[j]
        invariant forall j, m :: 0 <= j < |items| && 0 <= m < k && items[j].id == incoming[m].id ==>
          items[j].isNew == incoming[m].isNew && (items[j] == incoming[m] || items[j] == start[j])
      {
        var n := incoming[k];
        var i := IndexOf(n.id);
        ghost var before := items;
        if i != -1 && items[i].isNew != n.isNew {
          items := items[i := n];
        }
        assert Ids(items) == Ids(before);
        forall j | 0 <= j < |items| && items[j].id == n.id
          ensures j == i
        {
          assert Ids(items)[j] == n.id && n.id in Ids(items);
          assert Ids(items)[i] == n.id;
        }
        forall m | 0 <= m < |incoming| && m != k
          ensures incoming[m].id != n.id
        {
          assert Ids(incoming)[m] != Ids(incoming)[k];
        }
        k := k + 1;
      }
    }

    // Slides fresh notes in at their position in the page.
    method InsertFresh(incoming: seq<Note>) returns (ghost emitted: seq<Edit>)
      requires Distinct(Ids(items)) && Distinct(Ids(incoming)) && SetOf(Ids(items)) <= SetOf(Ids(incoming))
      modifies this
      ensures Distinct(Ids(items)) && SetOf(Ids(items)) == SetOf(Ids(incoming))
      ensures FromListOrPage(items, old(items), incoming)
      ensures Ids(items) == Ids(incoming) <==> Keep(Ids(incoming), SetOf(Ids(old(items)))) == Ids(old(items))
      ensures edits == old(edits) + emitted && Followed(old(items), emitted, items, incoming)
      ensures flashIds == old(flashIds) + (SetOf(Ids(incoming)) - SetOf(Ids(old(items))))
    {
      hide *;
      ghost var start, flashed := items, flashIds;
      var present := set n | n in items :: n.id;
      PresentIds(items, present);
      MergeStarts(items, incoming, flashIds);
      emitted := [];
      var i := 0;
      while i < |incoming|
        invariant 0 <= i <= |incoming| && present == SetOf(Ids(items))
        invariant Covered(start, incoming, i, items, flashed, flashIds)
        invariant Ordered(start, incoming, i, items) && FromListOrPage(items, start, incoming)
        invariant edits == old(edits) + emitted && Followed(start, emitted, items, incoming)
      {
        var n := incoming[i];
        if n.id !in present {
          ghost var before, lit := items, flashIds;
          Room(start, incoming, i, items, flashed, flashIds);
          var index := if i < 0 then 0 else if i > |items| then |items| else i;
          AnimatedInsert(index, n);
          present := present + {n.id};
          MergeInserts(start, incoming, i, before, items, flashed, lit);
          FollowInsert(start, emitted, before, items, incoming, i);
          assert old(edits) + emitted + [Insert(i, n.id)] == old(edits) + (emitted + [Insert(i, n.id)]);
          emitted := emitted + [Insert(i, n.id)];
        } else {
          MergeSkips(start, incoming, i, items, flashed, flashIds);
        }
        i := i + 1;
      }
      MergeEnds(start, incoming, items, flashed, flashIds);
    }

    // Merges a freshly fetched page into the live list.
    method Reconcile(incoming: seq<Note>) returns (ghost emitted: seq<Edit>)
      requires Distinct(Ids(items)) && Distinct(Ids(incoming))
      modifies this
      // exactly the incoming notes, each once, in their incoming read state
      ensures Distinct(Ids(items)) && SetOf(Ids(items)) == SetOf(Ids(incoming))
      ensures forall j, k :: 0 <= j < |items| && 0 <= k < |incoming| && items[j].id == incoming[k].id ==>
        items[j].isNew == incoming[k].isNew && (items[j] == incoming[k] || items[j] in old(items))
      // in the incoming order exactly when the survivors kept theirs
      ensures Ids(items) == Ids(incoming)
         <==> Keep(Ids(incoming), SetOf(Ids(old(items)))) == Keep(Ids(old(items)), SetOf(Ids(incoming)))
      // the animated list follows, every index in its range, and no insertion index was clamped
      ensures edits == old(edits) + emitted && Mirror(Ids(old(items)), emitted) == Some(Ids(items))
      ensures forall e :: e in emitted && e.Insert? ==> Unclamped(e, incoming)
      // the fresh notes are highlighted
      ensures flashIds == old(flashIds) + (SetOf(Ids(incoming)) - SetOf(Ids(old(items))))
    {
      hide *;
      ghost var start := items;
      var incomingIds := set n | n in incoming :: n.id;
      PresentIds(incoming, incomingIds);
      ghost var removals := RemoveGone(incomingIds);
      ghost var kept := items;
      SurvivorsKept(start, incoming, Ids(items));
      TakeReadStates(incoming);
      ghost var settled := items;
      ghost var inserts := InsertFresh(incoming);
      emitted := removals + inserts;
      Replayed(start, removals, settled, inserts, items, incoming);
      Origins(items, incoming, settled, kept, start);
    }
  }

  // An insertion at the very position its note has in the page.
  predicate Unclamped(e: Edit, incoming: seq<Note>) {
    e.Insert? && 0 <= e.index < |incoming| && incoming[e.index].id == e.id
  }

  // Every row has the read state of its note in the page, in the page's object or its own.
  predicate ReadStatesTaken(items: seq<Note>, incoming: seq<Note>, before: seq<Note>) {
    |items| == |before| &&
    forall j, k :: 0 <= j < |items| && 0 <= k < |incoming| && items[j].id == incoming[k].id ==>
      items[j].isNew == incoming[k].isNew && (items[j] == incoming[k] || items[j] == before[j])
  }

  predicate FromListOrPage(items: seq<Note>, before: seq<Note>, incoming: seq<Note>) {
    forall n :: n in items ==> n in before || (n in incoming && n.id !in SetOf(Ids(before)))
  }

  // ---- Supporting facts ----

  lemma OnlyAt(items: seq<Note>, i: nat, index: int)
    requires i < |items| && Distinct(Ids(items)) && -1 <= index < |items|
    requires index == -1 ==> items[i].id !in Ids(items)
    requires index >= 0 ==> items[index].id == items[i].id
    ensures index == i
  {
    assert Ids(items)[i] == items[i].id;
    assert index >= 0 ==> Ids(items)[index] == Ids(items)[i];
  }

  lemma MirrorRemove(children: seq<int>, edits: seq<Edit>, now: seq<int>, i: nat)
    requires Mirror(children, edits) == Some(now) && i < |now|
    ensures Mirror(children, edits + [Remove(i)]) == Some(now[..i] + now[i + 1..])
  {
    MirrorAppend(children, edits, Remove(i));
  }

  lemma RemovalStarts(items: seq<Note>, wanted: set<int>)
    ensures items[..|items|] == items
    ensures Ids(items[|items|..]) == Keep(Ids(items)[|items|..], wanted) && Mirror(Ids(items), []) == Some(Ids(items))
  {
  }

  lemma Dropped(start: seq<Note>, before: seq<Note>, i: nat, wanted: set<int>)
    requires i < |before| && i < |start| && before[..i + 1] == start[..i + 1] && before[i].id !in wanted
    requires Ids(before[i + 1..]) == Keep(Ids(start)[i + 1..], wanted) && Distinct(Ids(before))
    ensures var after := before[..i] + before[i + 1..];
      && after[..i] == start[..i] && Ids(after[i..]) == Keep(Ids(start)[i..], wanted)
      && Distinct(Ids(after)) && Ids(after) == Ids(before)[..i] + Ids(before)[i + 1..]
  {
    var after := before[..i] + before[i + 1..];
    assert Ids(after) == Ids(before)[..i] + Ids(before)[i + 1..];
    assert before[..i] == before[..i + 1][..i] == start[..i];
    assert after[i..] == before[i + 1..];
    assert before[i] == before[..i + 1][i] == start[i];
    assert Ids(start)[i..][1..] == Ids(start)[i + 1..];
  }

  lemma Retained(start: seq<Note>, items: seq<Note>, i: nat, wanted: set<int>)
    requires i < |items| && i < |start| && items[..i + 1] == start[..i + 1] && items[i].id in wanted
    requires Ids(items[i + 1..]) == Keep(Ids(start)[i + 1..], wanted)
    ensures items[..i] == start[..i] && Ids(items[i..]) == Keep(Ids(start)[i..], wanted)
  {
    assert items[..i] == items[..i + 1][..i] == start[..i];
    assert items[i] == items[..i + 1][i] == start[i];
    assert Ids(start)[i..][1..] == Ids(start)[i + 1..];
    assert Ids(items[i..]) == [items[i].id] + Ids(items[i + 1..]);
  }

  // The next id of the page, seen from the list the page order predicts.
  lemma Advanced(ids: seq<int>, i: nat, survivors: set<int>)
    requires i < |ids|
    ensures var done, now := ids[..i] + Keep(ids[i..], survivors), ids[..i + 1] + Keep(ids[i + 1..], survivors);
      if ids[i] in survivors then now == done else now == done[..i] + [ids[i]] + done[i..]
  {
    assert ids[i..][1..] == ids[i + 1..] && ids[..i + 1] == ids[..i] + [ids[i]];
    var done := ids[..i] + Keep(ids[i..], survivors);
    assert done[..i] == ids[..i] && done[i..] == Keep(ids[i..], survivors);
  }

  lemma SetGrows(ids: seq<int>, i: nat)
    requires i < |ids|
    ensures SetOf(ids[..i + 1]) == SetOf(ids[..i]) + {ids[i]}
  {
    assert ids[..i + 1] == ids[..i] + [ids[i]];
  }

  // The first `i` notes of the page are in the list, and the fresh ones among them are highlighted.
  predicate Covered(start: seq<Note>, incoming: seq<Note>, i: nat, items: seq<Note>, flashed: set<int>, lit: set<int>)
    requires i <= |incoming|
  {
    var survivors, done := SetOf(Ids(start)), SetOf(Ids(incoming)[..i]);
    SetOf(Ids(items)) == survivors + done && lit == flashed + (done - survivors)
  }

  // The survivors are as they were; in the page's order, if they agree with it.
  predicate Ordered(start: seq<Note>, incoming: seq<Note>, i: nat, items: seq<Note>)
    requires i <= |incoming|
  {
    var ids, survivors := Ids(incoming), SetOf(Ids(start));
    && Distinct(Ids(items)) && Keep(Ids(items), survivors) == Ids(start)
    && (Keep(ids, survivors) == Ids(start) ==> Ids(items) == ids[..i] + Keep(ids[i..], survivors))
  }

  lemma MergeStarts(items: seq<Note>, incoming: seq<Note>, flashed: set<int>)
    requires Distinct(Ids(items))
    ensures Covered(items, incoming, 0, items, flashed, flashed) && Ordered(items, incoming, 0, items)
    ensures FromListOrPage(items, items, incoming) && Followed(items, [], items, incoming)
  {
    KeepAll(Ids(items), SetOf(Ids(items)));
    assert Ids(incoming)[0..] == Ids(incoming) && Ids(incoming)[..0] == [];
  }

  predicate Followed(start: seq<Note>, emitted: seq<Edit>, items: seq<Note>, incoming: seq<Note>) {
    && Mirror(Ids(start), emitted) == Some(Ids(items))
    && forall e :: e in emitted ==> Unclamped(e, incoming)
  }

  lemma FollowInsert(
      start: seq<Note>, emitted: seq<Edit>, before: seq<Note>, items: seq<Note>, incoming: seq<Note>, i: nat)
    requires i < |incoming| && i <= |before| && items == before[..i] + [incoming[i]] + before[i..]
    requires Followed(start, emitted, before, incoming)
    ensures Followed(start, emitted + [Insert(i, incoming[i].id)], items, incoming)
  {
    MirrorAppend(Ids(start), emitted, Insert(i, incoming[i].id));
    assert Ids(items) == Ids(before)[..i] + [incoming[i].id] + Ids(before)[i..];
  }

  // The insertion position is never past the end of the list.
  lemma Room(start: seq<Note>, incoming: seq<Note>, i: nat, items: seq<Note>, flashed: set<int>, lit: set<int>)
    requires i <= |incoming| && Distinct(Ids(incoming)) && Covered(start, incoming, i, items, flashed, lit)
    ensures i <= |items|
  {
    Reached(Ids(incoming), i, Ids(items));
  }

  lemma MergeInserts(
      start: seq<Note>, incoming: seq<Note>, i: nat, before: seq<Note>, items: seq<Note>, flashed: set<int>, lit: set<int>)
    requires i < |incoming| && i <= |before| && items == before[..i] + [incoming[i]] + before[i..]
    requires Covered(start, incoming, i, before, flashed, lit) && Ordered(start, incoming, i, before)
    requires FromListOrPage(before, start, incoming)
    requires incoming[i].id !in SetOf(Ids(before))
    ensures Covered(start, incoming, i + 1, items, flashed, lit + {incoming[i].id})
    ensures Ordered(start, incoming, i + 1, items) && FromListOrPage(items, start, incoming)
    ensures SetOf(Ids(items)) == SetOf(Ids(before)) + {incoming[i].id}
  {
    Placed(before, i, incoming[i]);
    CoveredNext(start, incoming, i, before, items, flashed, lit);
    OrderedNext(start, incoming, i, before, items);
    assert incoming[i] in incoming;
  }

  lemma CoveredNext(
      start: seq<Note>, incoming: seq<Note>, i: nat, before: seq<Note>, items: seq<Note>, flashed: set<int>, lit: set<int>)
    requires i < |incoming| && Covered(start, incoming, i, before, flashed, lit)
    requires incoming[i].id !in SetOf(Ids(before)) && SetOf(Ids(items)) == SetOf(Ids(before)) + {incoming[i].id}
    ensures Covered(start, incoming, i + 1, items, flashed, lit + {incoming[i].id}) && incoming[i].id !in SetOf(Ids(start))
  {
    SetGrows(Ids(incoming), i);
  }

  lemma OrderedNext(start: seq<Note>, incoming: seq<Note>, i: nat, before: seq<Note>, items: seq<Note>)
    requires i < |incoming| && i <= |before| && Ordered(start, incoming, i, before) && incoming[i].id !in SetOf(Ids(start))
    requires Ids(items) == Ids(before)[..i] + [incoming[i].id] + Ids(before)[i..] && Distinct(Ids(items))
    ensures Ordered(start, incoming, i + 1, items)
  {
    var ids, survivors := Ids(incoming), SetOf(Ids(start));
    KeepPlaced(Ids(before), i, incoming[i].id, survivors);
    if Keep(ids, survivors) == Ids(start) {
      PlacedInOrder(Ids(before), Ids(items), ids, i, survivors);
    }
  }

  lemma MergeSkips(start: seq<Note>, incoming: seq<Note>, i: nat, items: seq<Note>, flashed: set<int>, lit: set<int>)
    requires i < |incoming| && Distinct(Ids(incoming))
    requires Covered(start, incoming, i, items, flashed, lit) && Ordered(start, incoming, i, items)
    requires incoming[i].id in SetOf(Ids(items))
    ensures Covered(start, incoming, i + 1, items, flashed, lit) && Ordered(start, incoming, i + 1, items)
  {
    var ids, survivors := Ids(incoming), SetOf(Ids(start));
    assert incoming[i].id == ids[i];
    SetGrows(ids, i);
    OnlySurvivors(ids, i, survivors);
    Advanced(ids, i, survivors);
  }

  lemma MergeEnds(start: seq<Note>, incoming: seq<Note>, items: seq<Note>, flashed: set<int>, lit: set<int>)
    requires Ordered(start, incoming, |incoming|, items) && Covered(start, incoming, |incoming|, items, flashed, lit)
    requires SetOf(Ids(start)) <= SetOf(Ids(incoming))
    ensures Ids(items) == Ids(incoming) <==> Keep(Ids(incoming), SetOf(Ids(start))) == Ids(start)
    ensures Distinct(Ids(items)) && SetOf(Ids(items)) == SetOf(Ids(incoming))
    ensures lit == flashed + (SetOf(Ids(incoming)) - SetOf(Ids(start)))
  {
    var ids := Ids(incoming);
    assert ids[..|incoming|] == ids && ids[|incoming|..] == [] && ids + [] == ids;
  }

  lemma PlacedInOrder(before: seq<int>, after: seq<int>, ids: seq<int>, i: nat, survivors: set<int>)
    requires i < |ids| && i <= |before| && after == before[..i] + [ids[i]] + before[i..] && ids[i] !in survivors
    requires before == ids[..i] + Keep(ids[i..], survivors)
    ensures after == ids[..i + 1] + Keep(ids[i + 1..], survivors)
  {
    Advanced(ids, i, survivors);
  }

  lemma PresentIds(items: seq<Note>, present: set<int>)
    requires present == set n | n in items :: n.id
    ensures present == SetOf(Ids(items))
  {
    forall n | n in items
      ensures n.id in Ids(items)
    {
      var i :| 0 <= i < |items| && items[i] == n;
      assert Ids(items)[i] == n.id;
    }
    forall i | 0 <= i < |items|
      ensures Ids(items)[i] in present
    {
      assert items[i] in items;
    }
  }

  lemma {:induction false} KeepHas(ids: seq<int>, wanted: set<int>, id: int)
    ensures id in Keep(ids, wanted) <==> id in ids && id in wanted
  {
    if ids != [] {
      KeepHas(ids[1..], wanted, id);
      assert ids == [ids[0]] + ids[1..];
    }
  }

  lemma {:induction false} KeepDistinct(ids: seq<int>, wanted: set<int>)
    requires Distinct(ids)
    ensures Distinct(Keep(ids, wanted)) && SetOf(Keep(ids, wanted)) == SetOf(ids) * wanted
  {
    forall id
      ensures id in Keep(ids, wanted) <==> id in ids && id in wanted
    {
      KeepHas(ids, wanted, id);
    }
    if ids != [] {
      assert Distinct(ids[1..]);
      KeepDistinct(ids[1..], wanted);
      if ids[0] in Keep(ids[1..], wanted) {
        KeepHas(ids[1..], wanted, ids[0]);
      }
    }
  }

  lemma {:induction false} KeepAll(ids: seq<int>, wanted: set<int>)
    requires forall i :: 0 <= i < |ids| ==> ids[i] in wanted
    ensures Keep(ids, wanted) == ids
  {
    if ids != [] {
      KeepAll(ids[1..], wanted);
      assert ids == [ids[0]] + ids[1..];
    }
  }

  lemma {:induction false} KeepConcat(a: seq<int>, b: seq<int>, wanted: set<int>)
    ensures Keep(a + b, wanted) == Keep(a, wanted) + Keep(b, wanted)
  {
    if a == [] {
      assert a + b == b;
    } else {
      KeepConcat(a[1..], b, wanted);
      assert (a + b)[1..] == a[1..] + b;
    }
  }

  // Which ids a page keeps does not depend on ids it does not have.
  lemma {:induction false} KeepMeets(ids: seq<int>, a: set<int>, b: set<int>, all: set<int>)
    requires (forall i :: 0 <= i < |ids| ==> ids[i] in all) && b == a * all
    ensures Keep(ids, a) == Keep(ids, b)
  {
    if ids != [] {
      KeepMeets(ids[1..], a, b, all);
    }
  }

  lemma {:induction false} DistinctSize(ids: seq<int>)
    ensures |SetOf(ids)| <= |ids|
    ensures Distinct(ids) ==> |SetOf(ids)| == |ids|
  {
    if ids != [] {
      var init, last := ids[..|ids| - 1], ids[|ids| - 1];
      DistinctSize(init);
      assert ids == init + [last];
      assert SetOf(ids) == SetOf(init) + {last};
      if Distinct(ids) {
        assert last !in SetOf(init);
      }
    }
  }

  // The list always holds at least the notes of the page treated so far.
  lemma Reached(ids: seq<int>, i: nat, held: seq<int>)
    requires i <= |ids| && Distinct(ids) && SetOf(ids[..i]) <= SetOf(held)
    ensures i <= |held|
  {
    DistinctSize(ids[..i]);
    DistinctSize(held);
    var treated, all := SetOf(ids[..i]), SetOf(held);
    assert all == treated + (all - treated);
  }

  // A note of the page that is held but was not among those treated is a survivor.
  lemma OnlySurvivors(ids: seq<int>, i: nat, survivors: set<int>)
    requires i < |ids| && Distinct(ids) && ids[i] in survivors + SetOf(ids[..i])
    ensures ids[i] in survivors
  {
  }

  lemma Placed(before: seq<Note>, i: nat, n: Note)
    requires i <= |before| && Distinct(Ids(before)) && n.id !in Ids(before)
    ensures var after := before[..i] + [n] + before[i..];
      && Ids(after) == Ids(before)[..i] + [n.id] + Ids(before)[i..]
      && Distinct(Ids(after)) && SetOf(Ids(after)) == SetOf(Ids(before)) + {n.id}
  {
    assert Ids(before[..i] + [n] + before[i..]) == Ids(before)[..i] + [n.id] + Ids(before)[i..];
    DistinctPlaced(Ids(before), i, n.id);
  }

  lemma DistinctPlaced(ids: seq<int>, i: nat, id: int)
    requires i <= |ids| && Distinct(ids) && id !in ids
    ensures var after := ids[..i] + [id] + ids[i..]; Distinct(after) && SetOf(after) == SetOf(ids) + {id}
  {
    assert ids == ids[..i] + ids[i..];
  }

  lemma KeepPlaced(ids: seq<int>, i: nat, id: int, wanted: set<int>)
    requires i <= |ids| && id !in wanted
    ensures Keep(ids[..i] + [id] + ids[i..], wanted) == Keep(ids, wanted)
  {
    var a, b := ids[..i], ids[i..];
    assert ids == a + b;
    KeepConcat(a, b, wanted);
    KeepConcat(a + [id], b, wanted);
    KeepConcat(a, [id], wanted);
  }

  lemma {:induction false} MirrorConcat(children: seq<int>, first: seq<Edit>, second: seq<Edit>)
    requires Mirror(children, first).Some?
    ensures Mirror(children, first + second) == Mirror(Mirror(children, first).value, second)
  {
    if second == [] {
      assert first + second == first;
    } else {
      var init := second[..|second| - 1];
      MirrorConcat(children, first, init);
      assert (first + second)[..|first + second| - 1] == first + init;
    }
  }

  lemma Replayed(
      start: seq<Note>, removals: seq<Edit>, settled: seq<Note>, inserts: seq<Edit>, items: seq<Note>, incoming: seq<Note>)
    requires Mirror(Ids(start), removals) == Some(Ids(settled)) && forall e :: e in removals ==> e.Remove?
    requires Followed(settled, inserts, items, incoming)
    ensures Mirror(Ids(start), removals + inserts) == Some(Ids(items))
    ensures forall e :: e in removals + inserts && e.Insert? ==> Unclamped(e, incoming)
  {
    MirrorConcat(Ids(start), removals, inserts);
  }

  lemma SurvivorsKept(start: seq<Note>, incoming: seq<Note>, kept: seq<int>)
    requires Distinct(Ids(start)) && kept == Keep(Ids(start), SetOf(Ids(incoming)))
    ensures Distinct(kept) && SetOf(kept) == SetOf(Ids(start)) * SetOf(Ids(incoming))
    ensures Keep(Ids(incoming), SetOf(Ids(start))) == Keep(Ids(incoming), SetOf(kept))
  {
    KeepDistinct(Ids(start), SetOf(Ids(incoming)));
    KeepMeets(Ids(incoming), SetOf(Ids(start)), SetOf(kept), SetOf(Ids(incoming)));
  }

  lemma Origins(items: seq<Note>, incoming: seq<Note>, settled: seq<Note>, kept: seq<Note>, start: seq<Note>)
    requires Distinct(Ids(incoming)) && forall n :: n in kept ==> n in start
    requires FromListOrPage(items, settled, incoming) && ReadStatesTaken(settled, incoming, kept)
    ensures forall j, k :: 0 <= j < |items| && 0 <= k < |incoming| && items[j].id == incoming[k].id ==>
      items[j].isNew == incoming[k].isNew && (items[j] == incoming[k] || items[j] in start)
  {
    forall j, k | 0 <= j < |items| && 0 <= k < |incoming| && items[j].id == incoming[k].id
      ensures items[j].isNew == incoming[k].isNew && (items[j] == incoming[k] || items[j] in start)
    {
      Origin(items[j], k, incoming, settled, kept);
    }
  }

  // Where a note of the merged list comes from.
  lemma Origin(n: Note, k: nat, incoming: seq<Note>, settled: seq<Note>, kept: seq<Note>)
    requires k < |incoming| && n.id == incoming[k].id && Distinct(Ids(incoming))
    requires n in settled || (n in incoming && n.id !in SetOf(Ids(settled)))
    requires ReadStatesTaken(settled, incoming, kept)
    ensures n.isNew == incoming[k].isNew && (n == incoming[k] || n in kept)
  {
    if n in settled {
      var j :| 0 <= j < |settled| && settled[j] == n;
    } else {
      var m :| 0 <= m < |incoming| && incoming[m] == n;
      assert Ids(incoming)[m] == Ids(incoming)[k];
    }
  }
}
