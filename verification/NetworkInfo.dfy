/**
 The network-handle table of the system status: a fixed buffer whose valid handles form a prefix,
 edited in place as each connect or disconnect report is merged with the cached one.
 */
module NetworkInfo {
  const MAX_NETWORK_HANDLES: nat := 10
  const NETWORK_HANDLE_UNKNOWN: int := 0xFFFF_FFFF_FFFF_FFFF
  const TYPE_MOBILE: int := 0
  const TYPE_UNKNOWN: int := 10
  const MAX_ITEM: nat := 5

  datatype Entry = Entry(networkHandle: int, networkType: int)

  const EMPTY := Entry(NETWORK_HANDLE_UNKNOWN, TYPE_UNKNOWN)

  /** What a client reports. */
  datatype Report = Report(networkHandle: int, networkType: int, connected: bool, apn: string)

  /** A status item; a type mask is the set of its bit positions. */
  datatype Item = Item(own: Report, allTypes: set<int>, apn: string, handles: seq<Entry>)

  /** The bit of a type in a type mask; types out of range have no bit. */
  function TypeToAllTypes(t: int): set<int>
  {
    if t >= TYPE_UNKNOWN || t < TYPE_MOBILE then {} else {t}
  }

  // ---------------------------------------------------------------- the table as a value

  predicate Known(e: Entry)
  {
    e.networkHandle != NETWORK_HANDLE_UNKNOWN
  }

  /** How many entries are valid: the position of the first unknown handle. */
  function Count(t: seq<Entry>): (n: nat)
    ensures n <= |t|
    ensures forall i :: 0 <= i < n ==> Known(t[i])
    ensures n < |t| ==> !Known(t[n])
  {
    if t == [] || !Known(t[0]) then 0 else 1 + Count(t[1..])
  }

  lemma {:induction false} CountIs(t: seq<Entry>, n: nat)
    requires n <= |t| && forall i :: 0 <= i < n ==> Known(t[i])
    requires n < |t| ==> !Known(t[n])
    ensures Count(t) == n
  {
    if n > 0 {
      CountIs(t[1..], n - 1);
    }
  }

  /** Valid handles are a duplicate-free prefix. */
  ghost predicate Compact(t: seq<Entry>)
  {
    && |t| == MAX_NETWORK_HANDLES
    && (forall i :: Count(t) <= i < |t| ==> !Known(t[i]))
    && (forall i, j :: 0 <= i < j < Count(t) ==> t[i].networkHandle != t[j].networkHandle)
  }

  ghost function FirstEntries(t: seq<Entry>, n: nat): set<Entry>
    requires n <= |t|
  {
    set i | 0 <= i < n :: t[i]
  }

  /** The valid entries. */
  ghost function Members(t: seq<Entry>): set<Entry>
  {
    FirstEntries(t, Count(t))
  }

  /** The first position before n that holds the handle, or n. */
  function HandlePosition(t: seq<Entry>, h: int, n: nat): (p: nat)
    requires n <= |t|
    ensures p <= n && (p < n ==> t[p].networkHandle == h)
    ensures forall i :: 0 <= i < p ==> t[i].networkHandle != h
  {
    if n == 0 then 0
    else
      var p := HandlePosition(t, h, n - 1);
      if p < n - 1 || t[n - 1].networkHandle == h then p else n
  }

  predicate Knows(t: seq<Entry>, h: int)
  {
    HandlePosition(t, h, Count(t)) < Count(t)
  }

  /** The last position before n that holds exactly this entry, or MAX_NETWORK_HANDLES. */
  function LastPosition(t: seq<Entry>, e: Entry, n: nat): (p: nat)
    requires n <= |t| <= MAX_NETWORK_HANDLES
    ensures (p < n && t[p] == e) || (p == MAX_NETWORK_HANDLES && forall i :: 0 <= i < n ==> t[i] != e)
  {
    if n == 0 then MAX_NETWORK_HANDLES
    else if t[n - 1] == e then n - 1
    else LastPosition(t, e, n - 1)
  }

  /** How many of the first n entries share the entry's type under another handle. */
  function OthersOfType(t: seq<Entry>, e: Entry, n: nat): nat
    requires n <= |t|
  {
    if n == 0 then 0
    else
      var other := t[n - 1].networkType == e.networkType && t[n - 1].networkHandle != e.networkHandle;
      OthersOfType(t, e, n - 1) + if other then 1 else 0
  }

  function Connected(t: seq<Entry>, e: Entry): seq<Entry>
  {
    if !Known(e) || Knows(t, e.networkHandle) || Count(t) == |t| then t else t[Count(t) := e]
  }

  /** The entry goes; the last valid one takes its place. */
  function Disconnected(t: seq<Entry>, e: Entry): seq<Entry>
    requires |t| <= MAX_NETWORK_HANDLES
  {
    var d := LastPosition(t, e, Count(t));
    if d == MAX_NETWORK_HANDLES then t
    else t[d := t[Count(t) - 1]][Count(t) - 1 := EMPTY]
  }

  // ---------------------------------------------------------------- what the table refines

  ghost predicate HasHandle(s: set<Entry>, h: int)
  {
    exists e :: e in s && e.networkHandle == h
  }

  ghost function ConnectedSet(s: set<Entry>, e: Entry): set<Entry>
  {
    if !Known(e) || HasHandle(s, e.networkHandle) || |s| >= MAX_NETWORK_HANDLES then s else s + {e}
  }

  lemma {:induction false} FirstEntriesCount(t: seq<Entry>, n: nat)
    requires n <= |t| && forall i, j :: 0 <= i < j < n ==> t[i].networkHandle != t[j].networkHandle
    ensures |FirstEntries(t, n)| == n
  {
    if n == 0 {
      assert forall e :: e !in FirstEntries(t, 0);
    } else {
      FirstEntriesCount(t, n - 1);
      assert FirstEntries(t, n) == FirstEntries(t, n - 1) + {t[n - 1]};
      assert t[n - 1] !in FirstEntries(t, n - 1);
    }
  }

  lemma KnowsHandle(t: seq<Entry>, h: int)
    ensures Knows(t, h) <==> HasHandle(Members(t), h)
  {
    var p := HandlePosition(t, h, Count(t));
    if p < Count(t) {
      assert t[p] in Members(t);
    }
    if e :| e in Members(t) && e.networkHandle == h {
      var i :| 0 <= i < Count(t) && t[i] == e;
      assert !(i < p);
    }
  }

  lemma ConnectRefines(t: seq<Entry>, e: Entry)
    requires Compact(t)
    ensures Compact(Connected(t, e)) && Members(Connected(t, e)) == ConnectedSet(Members(t), e)
  {
    hide FirstEntries;
    KnowsHandle(t, e.networkHandle);
    var n := Count(t);
    FirstEntriesCount(t, n);
    if Known(e) && !Knows(t, e.networkHandle) && n < |t| {
      CountIs(t[n := e], n + 1);
      Appended(t, e, n);
      assert forall i :: 0 <= i < n ==> t[i].networkHandle != e.networkHandle;
    }
  }

  lemma Appended(t: seq<Entry>, e: Entry, n: nat)
    requires n < |t|
    ensures FirstEntries(t[n := e], n + 1) == FirstEntries(t, n) + {e}
  {
    var c := t[n := e];
    assert forall i :: 0 <= i < n ==> c[i] == t[i];
    assert c[n] in FirstEntries(c, n + 1);
    forall x | x in FirstEntries(t, n) ensures x in FirstEntries(c, n + 1) {
      var i :| 0 <= i < n && t[i] == x;
      assert c[i] == x;
    }
  }

  lemma Replaced(t: seq<Entry>, d: nat, n: nat)
    requires d < n <= |t| && forall i, j :: 0 <= i < j < n ==> t[i] != t[j]
    ensures FirstEntries(t[d := t[n - 1]][n - 1 := EMPTY], n - 1) == FirstEntries(t, n) - {t[d]}
  {
    var c := t[d := t[n - 1]][n - 1 := EMPTY];
    forall x | x in FirstEntries(t, n) && x != t[d] ensures x in FirstEntries(c, n - 1) {
      var j :| 0 <= j < n && t[j] == x;
      assert if j == n - 1 then c[d] == x else c[j] == x;
    }
    forall x | x in FirstEntries(c, n - 1) ensures x in FirstEntries(t, n) && x != t[d] {
      var j :| 0 <= j < n - 1 && c[j] == x;
      assert x == if j == d then t[n - 1] else t[j];
    }
  }

  lemma DisconnectRefines(t: seq<Entry>, e: Entry)
    requires Compact(t)
    ensures Compact(Disconnected(t, e)) && Members(Disconnected(t, e)) == Members(t) - {e}
  {
    hide FirstEntries, LastPosition;
    var n := Count(t);
    var d := LastPosition(t, e, n);
    if d < MAX_NETWORK_HANDLES {
      CountIs(t[d := t[n - 1]][n - 1 := EMPTY], n - 1);
      Replaced(t, d, n);
    } else {
      NotListed(t, e, n);
    }
  }

  lemma NotListed(t: seq<Entry>, e: Entry, n: nat)
    requires n <= |t| && forall i :: 0 <= i < n ==> t[i] != e
    ensures e !in FirstEntries(t, n)
  {
  }

  /**
   Connecting an absent handle to a table with room and disconnecting it again restores the table entry by
   entry, exactly when the slot it used was a cleared one.
   */
  lemma ConnectDisconnectRestores(t: seq<Entry>, e: Entry)
    requires Compact(t) && Known(e) && !Knows(t, e.networkHandle) && Count(t) < MAX_NETWORK_HANDLES
    ensures Disconnected(Connected(t, e), e) == t <==> t[Count(t)] == EMPTY
  {
    var n := Count(t);
    CountIs(t[n := e], n + 1);
    assert LastPosition(t[n := e], e, n + 1) == n;
    assert Disconnected(Connected(t, e), e) == t[n := EMPTY];
  }

  // ---------------------------------------------------------------- reports

  function EntryOf(r: Report): Entry
  {
    Entry(r.networkHandle, r.networkType)
  }

  function Blank(n: nat): (t: seq<Entry>)
    ensures |t| == n && forall i :: 0 <= i < n ==> t[i] == EMPTY
  {
    if n == 0 then [] else Blank(n - 1) + [EMPTY]
  }

  /** A report before it is merged: its own handle is listed whether it connects or disconnects. */
  function Initial(r: Report): Item
  {
    Item(r, TypeToAllTypes(r.networkType), r.apn, Blank(MAX_NETWORK_HANDLES)[0 := EntryOf(r)])
  }

  function MergedTable(r: Report, cached: seq<Entry>): seq<Entry>
    requires |cached| <= MAX_NETWORK_HANDLES
  {
    if r.connected then Connected(cached, EntryOf(r))
    else if TypeToAllTypes(r.networkType) != {} then Disconnected(cached, EntryOf(r))
    else cached
  }

  function MergedTypes(r: Report, cached: Item): set<int>
  {
    var own := TypeToAllTypes(r.networkType);
    if r.connected then own + cached.allTypes
    else if own != {} && OthersOfType(cached.handles, EntryOf(r), Count(cached.handles)) == 0 then cached.allTypes - own
    else own
  }

  function Merged(r: Report, cached: Item): Item
    requires |cached.handles| <= MAX_NETWORK_HANDLES
  {
    Item(r, MergedTypes(r, cached),
         if r.networkType != TYPE_MOBILE && cached.apn != "" then cached.apn else r.apn,
         MergedTable(r, cached.handles))
  }

  predicate SameInfo(x: Item, y: Item)
  {
    x.own.connected == y.own.connected && x.handles == y.handles && x.apn == y.apn
  }

  /** The kept items, oldest first; an unchanged one is not stored again. */
  function Store(items: seq<Item>, s: Item): seq<Item>
  {
    if items != [] && SameInfo(items[|items| - 1], s) then items
    else
      var all := items + [s];
      if |all| > MAX_ITEM then all[1..] else all
  }

  ghost predicate Tables(items: seq<Item>)
  {
    forall i :: 0 <= i < |items| ==> Compact(items[i].handles)
  }

  ghost function Received(items: seq<Item>, r: Report): seq<Item>
    requires Tables(items)
  {
    Store(items, if items == [] then Initial(r) else Merged(r, items[|items| - 1]))
  }

  /** The same report against a plain bounded set; only the very first one never takes anything away. */
  ghost function ReceivedSet(s: set<Entry>, r: Report, first: bool): set<Entry>
  {
    if r.connected || first then ConnectedSet(s, EntryOf(r))
    else if TypeToAllTypes(r.networkType) == {} then s
    else s - {EntryOf(r)}
  }

  ghost function RunSet(reports: seq<Report>): set<Entry>
  {
    if reports == [] then {}
    else ReceivedSet(RunSet(reports[..|reports| - 1]), reports[|reports| - 1], |reports| == 1)
  }

  lemma InitialTable(r: Report)
    ensures Compact(Initial(r).handles) && Members(Initial(r).handles) == ConnectedSet({}, EntryOf(r))
  {
    var e := EntryOf(r);
    var t := Blank(MAX_NETWORK_HANDLES)[0 := e];
    assert !HasHandle({}, e.networkHandle);
    assert |t| == MAX_NETWORK_HANDLES && t[0] == e && forall i :: 0 < i < |t| ==> t[i] == EMPTY;
    CountIs(t, if Known(e) then 1 else 0);
    if Known(e) {
      assert FirstEntries(t, 1) == {e};
    } else {
      assert FirstEntries(t, 0) == {};
    }
  }

  lemma MergedRefines(r: Report, cached: seq<Entry>)
    requires Compact(cached)
    ensures Compact(MergedTable(r, cached)) && Members(MergedTable(r, cached)) == ReceivedSet(Members(cached), r, false)
  {
    if r.connected {
      ConnectRefines(cached, EntryOf(r));
    } else if TypeToAllTypes(r.networkType) != {} {
      DisconnectRefines(cached, EntryOf(r));
    }
  }

  lemma ReceivedKeeps(items: seq<Item>, r: Report)
    requires Tables(items)
    ensures var after := Received(items, r);
      && Tables(after) && 0 < |after| && |after| <= (if |items| <= MAX_ITEM then MAX_ITEM else |items|)
      && Members(after[|after| - 1].handles)
         == ReceivedSet(if items == [] then {} else Members(items[|items| - 1].handles), r, items == [])
  {
    hide Compact, Members, MergedTable, ConnectedSet;
    if items == [] {
      InitialTable(r);
    } else {
      MergedRefines(r, items[|items| - 1].handles);
    }
  }

  ghost function RunItems(reports: seq<Report>): (items: seq<Item>)
    ensures Tables(items)
  {
    if reports == [] then []
    else
      var before, r := RunItems(reports[..|reports| - 1]), reports[|reports| - 1];
      ReceivedKeeps(before, r);
      Received(before, r)
  }

  /** In every run the newest item's table is a compact copy of a set of at most ten connections. */
  lemma {:induction false} TableRefinesSet(reports: seq<Report>)
    requires reports != []
    ensures var items := RunItems(reports);
      && 0 < |items| <= MAX_ITEM && Compact(items[|items| - 1].handles)
      && Members(items[|items| - 1].handles) == RunSet(reports) && |RunSet(reports)| <= MAX_NETWORK_HANDLES
  {
    hide Compact, Members, Received, ReceivedSet;
    var before := reports[..|reports| - 1];
    if before != [] {
      TableRefinesSet(before);
    }
    ReceivedKeeps(RunItems(before), reports[|reports| - 1]);
    MembersBounded(RunItems(reports)[|RunItems(reports)| - 1].handles);
  }

  lemma MembersBounded(t: seq<Entry>)
    requires Compact(t)
    ensures |Members(t)| == Count(t) <= MAX_NETWORK_HANDLES
  {
    FirstEntriesCount(t, Count(t));
  }

  /** What a reader of the reports would expect: a disconnect always takes away. */
  ghost function PlainRunSet(reports: seq<Report>): set<Entry>
  {
    if reports == [] then {}
    else ReceivedSet(PlainRunSet(reports[..|reports| - 1]), reports[|reports| - 1], false)
  }

  lemma FirstReport(r: Report)
    ensures RunSet([r]) == PlainRunSet([r]) <==> r.connected || !Known(EntryOf(r))
  {
    var e := EntryOf(r);
    assert [r][..0] == [] && !HasHandle({}, e.networkHandle);
    assert RunSet([r]) == ReceivedSet({}, r, true);
    assert PlainRunSet([r]) == ReceivedSet({}, r, false);
    if !r.connected && Known(e) {
      assert e in RunSet([r]);
      assert e !in PlainRunSet([r]);
    }
  }

  lemma {:induction false} PlainFromThere(reports: seq<Report>, n: nat)
    requires 0 < n <= |reports| && RunSet(reports[..1]) == PlainRunSet(reports[..1])
    ensures RunSet(reports[..n]) == PlainRunSet(reports[..n])
  {
    if n > 1 {
      PlainFromThere(reports, n - 1);
      assert reports[..n][..n - 1] == reports[..n - 1];
    }
  }

  /**
   The first report is not merged with anything: a disconnect of a known handle then lists that handle.  The
   tables of a run are what its reports say, all the way, if and only if it does not begin with one.
   */
  lemma FirstReportMatters(reports: seq<Report>)
    requires reports != []
    ensures (forall n :: 0 <= n <= |reports| ==> RunSet(reports[..n]) == PlainRunSet(reports[..n]))
      <==> reports[0].connected || !Known(EntryOf(reports[0]))
  {
    hide RunSet, PlainRunSet, Known;
    FirstReport(reports[0]);
    NoReports();
    assert reports[..1] == [reports[0]] && reports[..0] == [];
    if reports[0].connected || !Known(EntryOf(reports[0])) {
      forall n | 0 <= n <= |reports| ensures RunSet(reports[..n]) == PlainRunSet(reports[..n]) {
        if n > 0 {
          PlainFromThere(reports, n);
        }
      }
    }
  }

  lemma NoReports()
    ensures RunSet([]) == PlainRunSet([])
  {
  }

  // ---------------------------------------------------------------- cleared slots

  /** The table of the newest item. */
  ghost function NewestTable(reports: seq<Report>): (t: seq<Entry>)
    requires reports != []
    ensures Compact(t)
  {
    TableRefinesSet(reports);
    var items := RunItems(reports);
    items[|items| - 1].handles
  }

  ghost predicate Cleared(t: seq<Entry>)
  {
    forall i :: Count(t) <= i < |t| ==> t[i] == EMPTY
  }

  lemma NewestInitial(r: Report)
    ensures NewestTable([r]) == Initial(r).handles
  {
    hide Initial, Compact, Members;
    assert [r][..0] == [] && RunItems([]) == [];
    assert RunItems([r]) == Store([], Initial(r));
  }

  lemma StoredNewest(items: seq<Item>, s: Item)
    ensures var after := Store(items, s); after != [] && after[|after| - 1].handles == s.handles
  {
  }

  lemma RunOneMore(reports: seq<Report>, r: Report)
    ensures RunItems(reports + [r]) == Received(RunItems(reports), r)
  {
    hide Received, Tables;
    assert (reports + [r])[..|reports|] == reports;
  }

  lemma NewestMerged(reports: seq<Report>, r: Report)
    requires reports != []
    ensures NewestTable(reports + [r]) == MergedTable(r, NewestTable(reports))
  {
    hide RunItems, Store, MergedTable, MergedTypes, Members;
    TableRefinesSet(reports);
    RunOneMore(reports, r);
    var items := RunItems(reports);
    StoredNewest(items, Merged(r, items[|items| - 1]));
  }

  lemma InitialCleared(r: Report)
    requires Known(EntryOf(r))
    ensures Cleared(Initial(r).handles)
  {
    var t := Blank(MAX_NETWORK_HANDLES)[0 := EntryOf(r)];
    CountIs(t, 1);
  }

  lemma MergedCleared(r: Report, t: seq<Entry>)
    requires Compact(t) && Cleared(t)
    ensures Cleared(MergedTable(r, t))
  {
    var e, n := EntryOf(r), Count(t);
    if r.connected && Known(e) && !Knows(t, e.networkHandle) && n < |t| {
      CountIs(t[n := e], n + 1);
    }
    var d := LastPosition(t, e, n);
    if !r.connected && d < MAX_NETWORK_HANDLES {
      CountIs(t[d := t[n - 1]][n - 1 := EMPTY], n - 1);
    }
  }

  /** In every run that begins with a known handle the slots behind the valid ones are cleared. */
  lemma {:induction false} RunsAreCleared(reports: seq<Report>)
    requires reports != [] && Known(EntryOf(reports[0]))
    ensures Cleared(NewestTable(reports))
  {
    hide Cleared, MergedTable, Initial, NewestTable;
    var n := |reports| - 1;
    if n == 0 {
      assert reports == [reports[0]];
      NewestInitial(reports[0]);
      InitialCleared(reports[0]);
    } else {
      assert reports == reports[..n] + [reports[n]];
      RunsAreCleared(reports[..n]);
      NewestMerged(reports[..n], reports[n]);
      MergedCleared(reports[n], NewestTable(reports[..n]));
    }
  }

  /**
   After any run, connecting an absent handle to a table with room and disconnecting it again restores the table,
   entry by entry, exactly when the type has a bit and the slot was a cleared one; and in a run that begins with a
   known handle it is.
   */
  lemma RunsRestore(reports: seq<Report>, r: Report)
    requires reports != [] && r.connected && Known(EntryOf(r))
    requires var t := NewestTable(reports); !Knows(t, r.networkHandle) && Count(t) < MAX_NETWORK_HANDLES
    ensures var t := NewestTable(reports);
      && (NewestTable(reports + [r] + [r.(connected := false)]) == t
          <==> TypeToAllTypes(r.networkType) != {} && t[Count(t)] == EMPTY)
      && (Known(EntryOf(reports[0])) ==> t[Count(t)] == EMPTY)
  {
    hide NewestTable, Knows, Disconnected, TypeToAllTypes;
    var t, n := NewestTable(reports), Count(NewestTable(reports));
    NewestMerged(reports, r);
    NewestMerged(reports + [r], r.(connected := false));
    ConnectDisconnectRestores(t, EntryOf(r));
    assert Connected(t, EntryOf(r))[n] != t[n];
    if Known(EntryOf(reports[0])) {
      RunsAreCleared(reports);
    }
  }

  // ---------------------------------------------------------------- in place

  /** The item a client reports; it gets the merged types and table back. */
  class NetworkInfoDataItem {
    var mAllTypes: set<int>
    const mAllNetworkHandles: array<Entry>

    constructor (r: Report)
      ensures fresh(mAllNetworkHandles) && mAllNetworkHandles.Length == MAX_NETWORK_HANDLES
      ensures mAllTypes == Initial(r).allTypes && mAllNetworkHandles[..] == Initial(r).handles
    {
      mAllTypes := TypeToAllTypes(r.networkType);
      mAllNetworkHandles := new Entry[MAX_NETWORK_HANDLES](_ => EMPTY);
      new;
      mAllNetworkHandles[0] := EntryOf(r);
      assert mAllNetworkHandles[..] == Blank(MAX_NETWORK_HANDLES)[0 := EntryOf(r)];
    }
  }

  class SystemStatusNetworkInfo {
    const own: Report
    var mAllTypes: set<int>
    var mApn: string
    const mAllNetworkHandles: array<Entry>

    function Model(): Item
      reads this, mAllNetworkHandles
    {
      Item(own, mAllTypes, mApn, mAllNetworkHandles[..])
    }

    constructor (r: Report)
      ensures fresh(mAllNetworkHandles) && mAllNetworkHandles.Length == MAX_NETWORK_HANDLES
      ensures own == r && mAllTypes == TypeToAllTypes(r.networkType) && mApn == r.apn && Model() == Initial(r)
    {
      own := r;
      mAllTypes, mApn := TypeToAllTypes(r.networkType), r.apn;
      mAllNetworkHandles := new Entry[MAX_NETWORK_HANDLES](_ => EMPTY);
      new;
      mAllNetworkHandles[0] := EntryOf(r);
      assert mAllNetworkHandles[..] == Blank(MAX_NETWORK_HANDLES)[0 := EntryOf(r)];
    }

    method Collate(cached: Item, src: NetworkInfoDataItem)
      requires src.mAllNetworkHandles != mAllNetworkHandles && src.mAllNetworkHandles.Length == MAX_NETWORK_HANDLES
      requires mAllTypes == TypeToAllTypes(own.networkType) && mApn == own.apn
      requires mAllNetworkHandles.Length == |cached.handles| == MAX_NETWORK_HANDLES
      modifies this, mAllNetworkHandles, src`mAllTypes, src.mAllNetworkHandles
      ensures Model() == Merged(own, cached)
      ensures src.mAllTypes == mAllTypes && src.mAllNetworkHandles[..] == mAllNetworkHandles[..]
    {
      forall i | 0 <= i < MAX_NETWORK_HANDLES {
        mAllNetworkHandles[i] := cached.handles[i];
      }
      assert mAllNetworkHandles[..] == cached.handles;
      if own.networkType != TYPE_MOBILE && cached.apn != "" {
        mApn := cached.apn;
      }
      if own.connected {
        mAllTypes := mAllTypes + cached.allTypes;
        ListHandle();
      } else if mAllTypes != {} {
        var typeCount := DropHandle();
        if typeCount == 0 {
          mAllTypes := cached.allTypes - mAllTypes;
        }
      }
      src.mAllTypes := mAllTypes;
      forall i | 0 <= i < MAX_NETWORK_HANDLES {
        src.mAllNetworkHandles[i] := mAllNetworkHandles[i];
      }
      assert src.mAllNetworkHandles[..] == mAllNetworkHandles[..];
    }

    method ListHandle()
      requires mAllNetworkHandles.Length == MAX_NETWORK_HANDLES
      modifies mAllNetworkHandles
      ensures mAllNetworkHandles[..] == Connected(old(mAllNetworkHandles[..]), EntryOf(own))
    {
      ghost var t := mAllNetworkHandles[..];
      var i := 0;
      while i < MAX_NETWORK_HANDLES
        invariant 0 <= i <= MAX_NETWORK_HANDLES && mAllNetworkHandles[..] == t
        invariant forall j :: 0 <= j < i ==> Known(t[j]) && t[j].networkHandle != own.networkHandle
      {
        assert mAllNetworkHandles[i] == t[i];
        if own.networkHandle == mAllNetworkHandles[i].networkHandle {
          return;
        }
        if mAllNetworkHandles[i].networkHandle == NETWORK_HANDLE_UNKNOWN {
          CountIs(t, i);
          mAllNetworkHandles[i] := EntryOf(own);
          return;
        }
        i := i + 1;
      }
    }

    method DropHandle() returns (typeCount: nat)
      requires mAllNetworkHandles.Length == MAX_NETWORK_HANDLES
      modifies mAllNetworkHandles
      ensures mAllNetworkHandles[..] == Disconnected(old(mAllNetworkHandles[..]), EntryOf(own))
      ensures typeCount == OthersOfType(old(mAllNetworkHandles[..]), EntryOf(own), Count(old(mAllNetworkHandles[..])))
    {
      ghost var t := mAllNetworkHandles[..];
      var deletedIndex, lastValidIndex := MAX_NETWORK_HANDLES, 0;
      typeCount := 0;
      while lastValidIndex < MAX_NETWORK_HANDLES && mAllNetworkHandles[lastValidIndex].networkHandle != NETWORK_HANDLE_UNKNOWN
        invariant 0 <= lastValidIndex <= MAX_NETWORK_HANDLES && mAllNetworkHandles[..] == t
        invariant forall j :: 0 <= j < lastValidIndex ==> Known(t[j])
        invariant deletedIndex == LastPosition(t, EntryOf(own), lastValidIndex)
        invariant typeCount == OthersOfType(t, EntryOf(own), lastValidIndex)
      {
        assert mAllNetworkHandles[lastValidIndex] == t[lastValidIndex];
        if own.networkType == mAllNetworkHandles[lastValidIndex].networkType {
          if own.networkHandle == mAllNetworkHandles[lastValidIndex].networkHandle {
            deletedIndex := lastValidIndex;
          } else {
            typeCount := typeCount + 1;
          }
        }
        lastValidIndex := lastValidIndex + 1;
      }
      CountIs(t, lastValidIndex);
      if lastValidIndex > 0 {
        lastValidIndex := lastValidIndex - 1;
      }
      if deletedIndex != MAX_NETWORK_HANDLES {
        mAllNetworkHandles[deletedIndex] := mAllNetworkHandles[lastValidIndex];
        mAllNetworkHandles[lastValidIndex] := EMPTY;
      }
    }
  }

  /** The kept network items of the system status. */
  class NetworkInfoReports {
    var items: seq<Item>

    ghost predicate Valid()
      reads this
    {
      Tables(items)
    }

    constructor ()
      ensures Valid() && items == []
    {
      items := [];
    }

    method SetItemInReport(r: Report, src: NetworkInfoDataItem) returns (updated: bool)
      requires Valid() && src.mAllNetworkHandles.Length == MAX_NETWORK_HANDLES
      modifies this, src`mAllTypes, src.mAllNetworkHandles
      ensures Valid() && items == Received(old(items), r)
      ensures updated <==> old(items) == [] || !SameInfo(old(items)[|old(items)| - 1], Merged(r, old(items)[|old(items)| - 1]))
      ensures old(items) != [] ==>
        var merged := Merged(r, old(items)[|old(items)| - 1]);
        src.mAllTypes == merged.allTypes && src.mAllNetworkHandles[..] == merged.handles
    {
      hide Members, Initial, Merged, ReceivedSet, TypeToAllTypes, Store, SameInfo, Count, Known;
      ReceivedKeeps(items, r);
      assert items != [] ==> |items[|items| - 1].handles| == MAX_NETWORK_HANDLES;
      hide Compact;
      var s := new SystemStatusNetworkInfo(r);
      if items != [] {
        s.Collate(items[|items| - 1], src);
      }
      updated := Keep(s.Model());
    }

    method Keep(s: Item) returns (updated: bool)
      modifies this
      ensures items == Store(old(items), s)
      ensures updated <==> old(items) == [] || !SameInfo(old(items)[|old(items)| - 1], s)
    {
      if items != [] && SameInfo(items[|items| - 1], s) {
        return false;
      }
      items := items + [s];
      if |items| > MAX_ITEM {
        items := items[1..];
      }
      return true;
    }
  }
}
