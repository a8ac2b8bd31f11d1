// Listing and paging. SQL promises only some arrangement that satisfies ORDER BY; pages come from
// separate queries. They still partition the list when the order leaves no ties.

module Paging {
  import opened Options
  import opened Text
  import opened Devices

  // ---- Arrangements of a set under a strict order ----

  ghost predicate StrictOrder<T(!new)>(rows: set<T>, before: (T, T) -> bool) {
    && (forall x :: x in rows ==> !before(x, x))
    && (forall x, y :: x in rows && y in rows && x != y ==> before(x, y) || before(y, x))
    && (forall x, y, z :: x in rows && y in rows && z in rows && before(x, y) && before(y, z) ==> before(x, z))
  }

  // What a query may answer: every selected row once, none before one that precedes it.
  ghost predicate Answers<T(!new)>(rows: set<T>, before: (T, T) -> bool, answer: seq<T>) {
    && |answer| == |rows|
    && (forall x :: x in answer <==> x in rows)
    && forall i, j :: 0 <= i < j < |answer| ==> !before(answer[j], answer[i])
  }

  lemma {:induction false} SizeOfElements<T>(answer: seq<T>)
    ensures |set x | x in answer| <= |answer|
    ensures |set x | x in answer| == |answer| ==> forall i, j :: 0 <= i < j < |answer| ==> answer[i] != answer[j]
  {
    if answer != [] {
      var init, last := answer[..|answer| - 1], answer[|answer| - 1];
      SizeOfElements(init);
      assert answer == init + [last];
      assert (set x | x in answer) == (set x | x in init) + {last};
      if last in init {
        assert (set x | x in answer) == (set x | x in init);
      }
    }
  }

  lemma NoRepeats<T(!new)>(rows: set<T>, before: (T, T) -> bool, answer: seq<T>)
    requires Answers(rows, before, answer)
    ensures forall i, j :: 0 <= i < j < |answer| ==> answer[i] != answer[j]
  {
    assert (set x | x in answer) == rows;
    SizeOfElements(answer);
  }

  lemma RestAnswers<T(!new)>(rows: set<T>, before: (T, T) -> bool, answer: seq<T>)
    requires Answers(rows, before, answer) && answer != []
    ensures Answers(rows - {answer[0]}, before, answer[1..])
  {
    NoRepeats(rows, before, answer);
    assert answer == [answer[0]] + answer[1..];
    assert answer[0] in answer;
    assert forall x :: x in answer[1..] ==> x in answer;
  }

  lemma HeadsAgree<T(!new)>(rows: set<T>, before: (T, T) -> bool, a: seq<T>, b: seq<T>)
    requires StrictOrder(rows, before) && Answers(rows, before, a) && Answers(rows, before, b) && a != []
    ensures b != [] && a[0] == b[0]
  {
    assert |a| == |b|;
    assert a[0] in a && b[0] in b;
    assert a[0] in b && b[0] in a;
  }

  // With no ties, every answer is the same list.
  lemma {:induction false} AnswerUnique<T(!new)>(rows: set<T>, before: (T, T) -> bool, a: seq<T>, b: seq<T>)
    requires StrictOrder(rows, before) && Answers(rows, before, a) && Answers(rows, before, b)
    ensures a == b
    decreases |a|
  {
    if a != [] {
      HeadsAgree(rows, before, a, b);
      RestAnswers(rows, before, a);
      RestAnswers(rows, before, b);
      AnswerUnique(rows - {a[0]}, before, a[1..], b[1..]);
      assert a == [a[0]] + a[1..] && b == [b[0]] + b[1..];
    }
  }

  // ---- Pages ----

  // LIMIT and OFFSET as SQLite reads them: a negative limit is none, a negative offset is zero.
  function Slice<T>(answer: seq<T>, offset: int, limit: int): seq<T> {
    var start := if offset < 0 then 0 else if offset > |answer| then |answer| else offset;
    var end := if limit < 0 || start + limit > |answer| then |answer| else start + limit;
    answer[start..end]
  }

  // The clause is added only when both parameters are given.
  function Page<T>(answer: seq<T>, offset: Option<int>, limit: Option<int>): seq<T> {
    if offset.Some? && limit.Some? then Slice(answer, offset.value, limit.value) else answer
  }

  // The pages of `queries`, one page a query.
  function Pages<T>(queries: seq<seq<T>>, size: nat): seq<T> {
    if queries == [] then []
    else
      var n := |queries| - 1;
      Pages(queries[..n], size) + Page(queries[n], Some(n * size), Some(size))
  }

  lemma {:induction false} PagesArePrefix<T>(queries: seq<seq<T>>, size: nat, list: seq<T>)
    requires forall i :: 0 <= i < |queries| ==> queries[i] == list
    ensures Pages(queries, size) == list[..if |queries| * size < |list| then |queries| * size else |list|]
  {
    if queries != [] {
      var n := |queries| - 1;
      PagesArePrefix(queries[..n], size, list);
      OneMore(n, size);
      NextPage(list, n * size, size);
    }
  }

  lemma OneMore(n: nat, size: nat)
    ensures (n + 1) * size == n * size + size
  {
  }

  lemma NextPage<T>(list: seq<T>, offset: nat, size: nat)
    ensures list[..if offset < |list| then offset else |list|] + Page(list, Some(offset), Some(size))
         == list[..if offset + size < |list| then offset + size else |list|]
  {
    var start := if offset < |list| then offset else |list|;
    var end := if offset + size < |list| then offset + size else |list|;
    assert Page(list, Some(offset), Some(size)) == list[start..end];
    assert list[..start] + list[start..end] == list[..end];
  }

  // Main result: pages taken from separate queries over an unchanged table, whatever arrangement
  // each query chose, concatenate to the whole list, without skip or repeat.
  lemma PagesPartition<T(!new)>(rows: set<T>, before: (T, T) -> bool, queries: seq<seq<T>>, size: nat, list: seq<T>)
    requires StrictOrder(rows, before) && Answers(rows, before, list)
    requires forall q :: q in queries ==> Answers(rows, before, q)
    requires |queries| * size >= |rows|
    ensures Pages(queries, size) == list && |list| == |rows|
  {
    forall i | 0 <= i < |queries|
      ensures queries[i] == list
    {
      assert queries[i] in queries;
      AnswerUnique(rows, before, queries[i], list);
    }
    PagesArePrefix(queries, size, list);
    assert list[..|list|] == list;
  }

  // ---- Exactly when pages reach every row ----

  ghost predicate WeakOrder<T(!new)>(rows: set<T>, before: (T, T) -> bool) {
    && (forall x :: x in rows ==> !before(x, x))
    && (forall x, y, z :: x in rows && y in rows && z in rows && before(x, y) && before(y, z) ==> before(x, z))
    && (forall x, y, z :: x in rows && y in rows && z in rows && before(x, z) ==> before(x, y) || before(y, z))
  }

  // Enough pages, whatever the arrangements chosen and the page size, show every row.
  ghost predicate PagesReachAll<T(!new)>(rows: set<T>, before: (T, T) -> bool) {
    forall queries: seq<seq<T>>, size: nat ::
      (forall q :: q in queries ==> Answers(rows, before, q)) && |queries| * size >= |rows|
      ==> forall x :: x in rows ==> x in Pages(queries, size)
  }

  lemma {:induction false} MinimalExists<T(!new)>(rows: set<T>, before: (T, T) -> bool) returns (least: T)
    requires WeakOrder(rows, before) && rows != {}
    ensures least in rows && forall x :: x in rows ==> !before(x, least)
    decreases |rows|
  {
    least :| least in rows;
    var rest := rows - {least};
    if rest != {} {
      var other := MinimalExists(rest, before);
      if !before(least, other) {
        least := other;
      }
    }
  }

  lemma {:induction false} AnswerExists<T(!new)>(rows: set<T>, before: (T, T) -> bool) returns (answer: seq<T>)
    requires WeakOrder(rows, before)
    ensures Answers(rows, before, answer)
    decreases |rows|
  {
    answer := [];
    if rows != {} {
      var least := MinimalExists(rows, before);
      var rest := AnswerExists(rows - {least}, before);
      answer := [least] + rest;
      assert forall j :: 0 <= j < |rest| ==> rest[j] in rest;
    }
  }

  function Below<T>(rows: set<T>, before: (T, T) -> bool, x: T): set<T> {
    set r | r in rows && before(r, x)
  }

  function Others<T>(rows: set<T>, before: (T, T) -> bool, x: T, y: T): set<T> {
    set r | r in rows && !before(r, x) && r != x && r != y
  }

  // The rows before two tied ones, and the rest.
  ghost predicate Parted<T(!new)>(rows: set<T>, before: (T, T) -> bool, below: set<T>, others: set<T>, x: T, y: T) {
    && rows == below + {x, y} + others && |rows| == |below| + 2 + |others|
    && (forall b :: b in below ==> !before(x, b) && !before(y, b))
    && (forall o :: o in others ==> !before(o, x) && !before(o, y))
    && (forall b, o :: b in below && o in others ==> !before(o, b))
  }

  lemma TiesPart<T(!new)>(rows: set<T>, before: (T, T) -> bool, x: T, y: T)
    requires WeakOrder(rows, before) && x in rows && y in rows && x != y && !before(x, y) && !before(y, x)
    ensures Parted(rows, before, Below(rows, before, x), Others(rows, before, x, y), x, y)
  {
    var below, others := Below(rows, before, x), Others(rows, before, x, y);
    assert rows == below + {x, y} + others;
    assert |rows| == |below| + 2 + |others|;
    forall b | b in below
      ensures !before(x, b) && !before(y, b)
    {
      assert before(b, x) && !before(x, x);
    }
    forall o | o in others
      ensures !before(o, y)
    {
      assert !before(o, x) && !before(x, y);
    }
    forall b, o | b in below && o in others
      ensures !before(o, b)
    {
      assert before(b, x) && !before(o, x);
    }
  }

  // Two tied rows can stand side by side: first what precedes them, then the two, then the others.
  lemma Joined<T(!new)>(
      rows: set<T>, before: (T, T) -> bool, below: set<T>, others: set<T>, lower: seq<T>, upper: seq<T>, x: T, y: T)
    requires Parted(rows, before, below, others, x, y) && !before(y, x)
    requires Answers(below, before, lower) && Answers(others, before, upper)
    ensures Answers(rows, before, lower + [x, y] + upper)
  {
    var answer, n := lower + [x, y] + upper, |lower|;
    forall i, j | 0 <= i < j < |answer|
      ensures !before(answer[j], answer[i])
    {
      if i < n {
        assert answer[i] == lower[i] && lower[i] in lower;
      }
      if j >= n + 2 {
        assert answer[j] == upper[j - n - 2] && upper[j - n - 2] in upper;
      }
      if j < n {
        assert answer[j] == lower[j];
      } else if i >= n + 2 {
        assert answer[i] == upper[i - n - 2];
      }
    }
    assert forall r :: r in answer <==> r in lower || r == x || r == y || r in upper;
  }

  // One-row pages show the diagonal.
  lemma {:induction false} OneRowPages<T>(queries: seq<seq<T>>)
    requires forall k :: 0 <= k < |queries| ==> k < |queries[k]|
    ensures |Pages(queries, 1)| == |queries| && forall k :: 0 <= k < |queries| ==> Pages(queries, 1)[k] == queries[k][k]
  {
    if queries != [] {
      var n := |queries| - 1;
      OneRowPages(queries[..n]);
      assert Page(queries[n], Some(n * 1), Some(1)) == [queries[n][n]];
    }
  }

  // Two lists that have `y` at neighbouring places, each nowhere else: changing from one to the other
  // in between, the diagonal misses it.
  lemma DiagonalMisses<T>(a: seq<T>, b: seq<T>, n: nat, y: T) returns (queries: seq<seq<T>>)
    requires |a| == |b| && n + 1 < |a|
    requires forall i :: 0 <= i < |a| ==> (a[i] == y <==> i == n + 1)
    requires forall i :: 0 <= i < |b| ==> (b[i] == y <==> i == n)
    ensures |queries| == |a| && forall q :: q in queries ==> q == a || q == b
    ensures y !in Pages(queries, 1)
  {
    queries := seq(|a|, k => if k <= n then a else b);
    OneRowPages(queries);
    forall k | 0 <= k < |queries|
      ensures Pages(queries, 1)[k] != y
    {
      assert queries[k] == if k <= n then a else b;
    }
  }

  // With a tie, one-row pages can show one of the two rows twice and the other never.
  lemma TieIsMissed<T(!new)>(rows: set<T>, before: (T, T) -> bool, x: T, y: T) returns (queries: seq<seq<T>>)
    requires WeakOrder(rows, before) && x in rows && y in rows && x != y && !before(x, y) && !before(y, x)
    ensures |queries| == |rows| && forall q :: q in queries ==> Answers(rows, before, q)
    ensures y !in Pages(queries, 1)
  {
    var below, others := Below(rows, before, x), Others(rows, before, x, y);
    var lower := AnswerExists(below, before);
    var upper := AnswerExists(others, before);
    TiesPart(rows, before, x, y);
    Joined(rows, before, below, others, lower, upper, x, y);
    PartedAlike(rows, before, below, others, x, y);
    Joined(rows, before, below, others, lower, upper, y, x);
    var a, b, n := lower + [x, y] + upper, lower + [y, x] + upper, |lower|;
    OnlyThere(rows, before, a, n + 1, y);
    OnlyThere(rows, before, b, n, y);
    queries := DiagonalMisses(a, b, n, y);
  }

  lemma PartedAlike<T(!new)>(rows: set<T>, before: (T, T) -> bool, below: set<T>, others: set<T>, x: T, y: T)
    requires Parted(rows, before, below, others, x, y)
    ensures Parted(rows, before, below, others, y, x)
  {
    assert {x, y} == {y, x};
  }

  lemma OnlyThere<T(!new)>(rows: set<T>, before: (T, T) -> bool, answer: seq<T>, n: nat, y: T)
    requires Answers(rows, before, answer) && n < |answer| && answer[n] == y
    ensures forall i :: 0 <= i < |answer| ==> (answer[i] == y <==> i == n)
  {
    NoRepeats(rows, before, answer);
  }

  // Main result: under the order of a sort key, separate queries page through all rows, whatever
  // arrangements are chosen, if and only if the order leaves no ties.
  lemma PagesReachAllIff<T(!new)>(rows: set<T>, before: (T, T) -> bool)
    requires WeakOrder(rows, before)
    ensures PagesReachAll(rows, before) <==> StrictOrder(rows, before)
  {
    if StrictOrder(rows, before) {
      forall queries: seq<seq<T>>, size: nat
        | (forall q :: q in queries ==> Answers(rows, before, q)) && |queries| * size >= |rows|
        ensures forall x :: x in rows ==> x in Pages(queries, size)
      {
        if queries != [] {
          assert queries[0] in queries;
          PagesPartition(rows, before, queries, size, queries[0]);
        }
      }
    } else {
      var x, y :| x in rows && y in rows && x != y && !before(x, y) && !before(y, x);
      var queries := TieIsMissed(rows, before, x, y);
      assert |queries| * 1 >= |rows| && y in rows && y !in Pages(queries, 1);
    }
  }

  // ---- The device list ----

  datatype Column = Name | Owner | MacAddress | Ipv4Address | Vendor | LastSeen | IsRegistered | DeviceType

  function ResolveColumn(sortBy: Option<string>): Column {
    if sortBy.None? then LastSeen
    else
      var s := Lower(sortBy.value);
      if s == "name" then Name
      else if s == "owner" then Owner
      else if s == "mac_address" then MacAddress
      else if s == "ipv4_address" then Ipv4Address
      else if s == "vendor" then Vendor
      else if s == "is_registered" then IsRegistered
      else if s == "device_type" then DeviceType
      else LastSeen
  }

  predicate Ascending(sortOrder: Option<string>) {
    sortOrder.Some? && Lower(sortOrder.value) == "asc"
  }

  // A column value as it sorts: NULL first; NOCASE columns by their lower case.
  datatype Key = Null | Number(n: int) | Words(s: string)

  function KeyOf(d: Device, c: Column): Key {
    match c
    case Name => if d.name.Some? then Words(Lower(d.name.value)) else Null
    case Owner => Words(Lower(d.owner))
    case MacAddress => Words(Lower(d.mac))
    case Ipv4Address => Words(d.ipv4)
    case Vendor => Words(Lower(d.vendor))
    case LastSeen => Number(d.lastSeen)
    case IsRegistered => Number(if d.isRegistered then 1 else 0)
    case DeviceType => Words(Lower(d.deviceType))
  }

  predicate KeyLess(a: Key, b: Key) {
    match (a, b)
    case (Null, Null) => false
    case (Null, _) => true
    case (Number(m), Number(n)) => m < n
    case (Number(_), Words(_)) => true
    case (Words(s), Words(t)) => Less(s, t)
    case _ => false
  }

  lemma KeyOrder(a: Key, b: Key, c: Key)
    ensures !KeyLess(a, a)
    ensures a == b || KeyLess(a, b) || KeyLess(b, a)
    ensures KeyLess(a, b) && KeyLess(b, c) ==> KeyLess(a, c)
    ensures !(KeyLess(a, b) && KeyLess(b, a))
  {
    if a.Words? {
      LessAsymmetric(a.s, a.s);
      if b.Words? {
        LessTotal(a.s, b.s);
        LessAsymmetric(a.s, b.s);
        if c.Words? && Less(a.s, b.s) && Less(b.s, c.s) {
          LessTransitive(a.s, b.s, c.s);
        }
      }
    }
  }

  // ORDER BY column direction, mac_address ASC.
  predicate Before(c: Column, ascending: bool, x: Device, y: Device) {
    var k, l := KeyOf(x, c), KeyOf(y, c);
    (if ascending then KeyLess(k, l) else KeyLess(l, k)) || (k == l && Less(Lower(x.mac), Lower(y.mac)))
  }

  function Order(c: Column, ascending: bool): (Device, Device) -> bool {
    (x, y) => Before(c, ascending, x, y)
  }

  // The rows come by the requested column, letter case aside, in the requested direction, rows without a
  // name before all names; anything else requested means by last sighting, and descending. Rows alike
  // come by MAC address, ascending.

  predicate Asked(text: Option<string>, name: string) {
    text.Some? && SameUpToCase(text.value, name)
  }

  function NameKey(d: Device): Key {
    if d.name.None? then Null else Words(Lower(d.name.value))
  }

  // `x` comes before `y` by these values of theirs.
  predicate ByKeys(sortOrder: Option<string>, k: Key, l: Key, x: Device, y: Device) {
    || (k != l && (Asked(sortOrder, "asc") <==> Precedes(k, l)))
    || (k == l && Less(Lower(x.mac), Lower(y.mac)))
  }

  predicate Precedes(k: Key, l: Key) {
    || (k.Null? && !l.Null?) || (k.Number? && l.Number? && k.n < l.n) || (k.Number? && l.Words?)
    || (k.Words? && l.Words? && Less(k.s, l.s))
  }

  lemma AskedFolds(text: Option<string>, name: string)
    requires Lower(name) == name
    ensures Asked(text, name) <==> text.Some? && Lower(text.value) == name
  {
    if text.Some? {
      LowerFolds(text.value, name);
    }
  }

  lemma ColumnAsked(sortBy: Option<string>)
    ensures var c := ResolveColumn(sortBy);
      && (c == Name <==> Asked(sortBy, "name")) && (c == Owner <==> Asked(sortBy, "owner"))
      && (c == MacAddress <==> Asked(sortBy, "mac_address")) && (c == Ipv4Address <==> Asked(sortBy, "ipv4_address"))
      && (c == Vendor <==> Asked(sortBy, "vendor")) && (c == IsRegistered <==> Asked(sortBy, "is_registered"))
      && (c == DeviceType <==> Asked(sortBy, "device_type"))
  {
    LowerNames();
    AskedFolds(sortBy, "name");
    AskedFolds(sortBy, "owner");
    AskedFolds(sortBy, "mac_address");
    AskedFolds(sortBy, "ipv4_address");
    AskedFolds(sortBy, "vendor");
    AskedFolds(sortBy, "is_registered");
    AskedFolds(sortBy, "device_type");
  }

  lemma LowerNames()
    ensures Lower("name") == "name" && Lower("owner") == "owner" && Lower("mac_address") == "mac_address"
    ensures Lower("ipv4_address") == "ipv4_address" && Lower("vendor") == "vendor"
    ensures Lower("is_registered") == "is_registered" && Lower("device_type") == "device_type" && Lower("asc") == "asc"
  {
  }

  lemma KeysCompare(k: Key, l: Key)
    requires k.Words? == l.Words? || k.Null? || l.Null?
    ensures KeyLess(k, l) <==> Precedes(k, l)
    ensures k != l ==> (KeyLess(l, k) <==> !Precedes(k, l))
    ensures !KeyLess(k, k)
  {
    KeyOrder(k, l, k);
  }

  lemma OrderAsked(sortBy: Option<string>, sortOrder: Option<string>, x: Device, y: Device)
    ensures var before := Order(ResolveColumn(sortBy), Ascending(sortOrder))(x, y);
      && (Asked(sortBy, "name") ==> (before <==> ByKeys(sortOrder, NameKey(x), NameKey(y), x, y)))
      && (Asked(sortBy, "owner") ==> (before <==> ByKeys(sortOrder, Words(Lower(x.owner)), Words(Lower(y.owner)), x, y)))
      && (Asked(sortBy, "mac_address") ==> (before <==> ByKeys(sortOrder, Words(Lower(x.mac)), Words(Lower(y.mac)), x, y)))
      && (Asked(sortBy, "ipv4_address") ==> (before <==> ByKeys(sortOrder, Words(x.ipv4), Words(y.ipv4), x, y)))
      && (Asked(sortBy, "vendor") ==> (before <==> ByKeys(sortOrder, Words(Lower(x.vendor)), Words(Lower(y.vendor)), x, y)))
      && (Asked(sortBy, "is_registered") ==>
            (before <==>
               ByKeys(sortOrder, Number(if x.isRegistered then 1 else 0), Number(if y.isRegistered then 1 else 0), x, y)))
      && (Asked(sortBy, "device_type") ==>
            (before <==> ByKeys(sortOrder, Words(Lower(x.deviceType)), Words(Lower(y.deviceType)), x, y)))
      && (ResolveColumn(sortBy) == LastSeen ==>
            (before <==> ByKeys(sortOrder, Number(x.lastSeen), Number(y.lastSeen), x, y)))
  {
    ColumnAsked(sortBy);
    BeforeByKeys(ResolveColumn(sortBy), sortOrder, x, y);
    hide Before, ByKeys, ResolveColumn, Asked, Lower;
  }

  lemma BeforeByKeys(c: Column, sortOrder: Option<string>, x: Device, y: Device)
    ensures Before(c, Ascending(sortOrder), x, y) <==> ByKeys(sortOrder, KeyOf(x, c), KeyOf(y, c), x, y)
  {
    LowerNames();
    AskedFolds(sortOrder, "asc");
    KeysCompare(KeyOf(x, c), KeyOf(y, c));
  }

  // The primary key ignores case.
  ghost predicate Keyed(table: set<Device>) {
    forall x, y :: x in table && y in table && Lower(x.mac) == Lower(y.mac) ==> x == y
  }

  lemma BeforeTransitive(c: Column, ascending: bool, x: Device, y: Device, z: Device)
    requires Before(c, ascending, x, y) && Before(c, ascending, y, z)
    ensures Before(c, ascending, x, z)
  {
    KeyOrder(KeyOf(x, c), KeyOf(y, c), KeyOf(z, c));
    KeyOrder(KeyOf(z, c), KeyOf(y, c), KeyOf(x, c));
    if KeyOf(x, c) == KeyOf(y, c) == KeyOf(z, c) {
      KeyOrder(KeyOf(x, c), KeyOf(x, c), KeyOf(x, c));
      LessTransitive(Lower(x.mac), Lower(y.mac), Lower(z.mac));
    }
  }

  // The MAC tie-break leaves no ties, whatever the column and direction.
  lemma TieBreakIsStrict(rows: set<Device>, c: Column, ascending: bool)
    requires Keyed(rows)
    ensures StrictOrder(rows, Order(c, ascending))
  {
    var before := Order(c, ascending);
    forall x | x in rows
      ensures !before(x, x)
    {
      KeyOrder(KeyOf(x, c), KeyOf(x, c), KeyOf(x, c));
      LessAsymmetric(Lower(x.mac), Lower(x.mac));
    }
    forall x, y | x in rows && y in rows && x != y
      ensures before(x, y) || before(y, x)
    {
      KeyOrder(KeyOf(x, c), KeyOf(y, c), KeyOf(x, c));
      LessTotal(Lower(x.mac), Lower(y.mac));
    }
    forall x, y, z | x in rows && y in rows && z in rows && before(x, y) && before(y, z)
      ensures before(x, z)
    {
      BeforeTransitive(c, ascending, x, y, z);
    }
  }

  function Selected(table: set<Device>, keep: Device -> bool): set<Device> {
    set d | d in table && keep(d)
  }

  // For any filter, sort column, direction and page size, the pages of `list_devices` partition
  // the filtered list, and `count_devices` is its length.
  lemma DevicePages(
      table: set<Device>, keep: Device -> bool, sortBy: Option<string>, sortOrder: Option<string>,
      queries: seq<seq<Device>>, size: nat, list: seq<Device>)
    requires Keyed(table)
    requires var before := Order(ResolveColumn(sortBy), Ascending(sortOrder));
      && Answers(Selected(table, keep), before, list)
      && forall q :: q in queries ==> Answers(Selected(table, keep), before, q)
    requires |queries| * size >= |Selected(table, keep)|
    ensures Pages(queries, size) == list && |list| == |Selected(table, keep)|
  {
    TieBreakIsStrict(Selected(table, keep), ResolveColumn(sortBy), Ascending(sortOrder));
    PagesPartition(Selected(table, keep), Order(ResolveColumn(sortBy), Ascending(sortOrder)), queries, size, list);
  }

  // ---- The notification list ----

  // A row of the notification table by its key, its creation time as stored, and its read state.
  datatype Notice = Notice(id: int, createdOn: string, isNew: bool)

  // ORDER BY created_on DESC, and nothing else.
  function NewestFirst(): (Notice, Notice) -> bool {
    (x: Notice, y: Notice) => Less(y.createdOn, x.createdOn)
  }

  function Listed(table: set<Notice>, isNew: Option<bool>): set<Notice> {
    set n | n in table && (isNew.None? || n.isNew == isNew.value)
  }

  lemma NewestFirstIsWeak(rows: set<Notice>)
    ensures WeakOrder(rows, NewestFirst())
  {
    forall x, y, z | x in rows && y in rows && z in rows
      ensures !NewestFirst()(x, x)
      ensures NewestFirst()(x, y) && NewestFirst()(y, z) ==> NewestFirst()(x, z)
      ensures NewestFirst()(x, z) ==> NewestFirst()(x, y) || NewestFirst()(y, z)
    {
      LessAsymmetric(x.createdOn, x.createdOn);
      LessTotal(x.createdOn, y.createdOn);
      if Less(z.createdOn, y.createdOn) && Less(y.createdOn, x.createdOn) {
        LessTransitive(z.createdOn, y.createdOn, x.createdOn);
      }
      if Less(z.createdOn, x.createdOn) && Less(x.createdOn, y.createdOn) {
        LessTransitive(z.createdOn, x.createdOn, y.createdOn);
      }
    }
  }

  // The filter, if any, admits both.
  predicate Both(isNew: Option<bool>, x: Notice, y: Notice) {
    isNew == None || (isNew == Some(x.isNew) && isNew == Some(y.isNew))
  }

  // No two notifications that the filter admits were created at the same time.
  ghost predicate TimesDiffer(table: set<Notice>, isNew: Option<bool>) {
    forall x, y :: x in table && y in table && x != y && Both(isNew, x, y) ==> x.createdOn != y.createdOn
  }

  lemma TimesDifferIff(table: set<Notice>, isNew: Option<bool>)
    ensures TimesDiffer(table, isNew) <==> StrictOrder(Listed(table, isNew), NewestFirst())
  {
    hide PagesReachAll, Less;
    var rows := Listed(table, isNew);
    NewestFirstIsWeak(rows);
    forall x, y | x in table && y in table
      ensures x in rows && y in rows <==> Both(isNew, x, y)
      ensures NewestFirst()(x, y) || NewestFirst()(y, x) <==> x.createdOn != y.createdOn
    {
      LessTotal(x.createdOn, y.createdOn);
      LessAsymmetric(x.createdOn, x.createdOn);
    }
  }

  // The pages of the notification list reach every notification if and only if no two of those
  // selected were created at the same time.
  lemma NoticePagesIff(table: set<Notice>, isNew: Option<bool>)
    ensures PagesReachAll(Listed(table, isNew), NewestFirst()) <==> TimesDiffer(table, isNew)
  {
    hide *;
    NewestFirstIsWeak(Listed(table, isNew));
    PagesReachAllIff(Listed(table, isNew), NewestFirst());
    TimesDifferIff(table, isNew);
  }

  // The smallest such failure: two notifications of one instant may come in either order, and two
  // one-row pages may show one of them twice and the other never.
  lemma TiesBreakPaging(createdOn: string) returns (queries: seq<seq<Notice>>)
    ensures var first, second := Notice(1, createdOn, true), Notice(2, createdOn, true);
      && |queries| == 2 && (forall q :: q in queries ==> Answers({first, second}, NewestFirst(), q))
      && Pages(queries, 1) == [first, first]
  {
    var first, second := Notice(1, createdOn, true), Notice(2, createdOn, true);
    queries := [[first, second], [second, first]];
    LessAsymmetric(createdOn, createdOn);
    OneRowPages(queries);
    assert |{first, second}| == 2;
  }
}
