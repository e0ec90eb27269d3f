/**
 What the kept network items say besides their tables: the type mask against the connections listed, the access point
 name, and which items are kept.
 */
module NetworkTypes {
  import opened NetworkInfo

  // ---------------------------------------------------------------- the type mask

  /** The types with a bit that some valid entry has. */
  ghost function TypesOf(t: seq<Entry>): set<int>
  {
    set e | e in Members(t) && 0 <= e.networkType < 10 :: e.networkType
  }

  ghost predicate TypesAgree(item: Item)
  {
    item.allTypes == TypesOf(item.handles)
  }

  predicate HasBit(networkType: int)
  {
    0 <= networkType < 10
  }

  /**
   When a merge keeps the mask in agreement with the table: a connect, if the type has no bit, or is listed already, or
   gets listed; a disconnect, if no other handle of its type is left, or nothing but such handles; and a disconnect
   without a bit, if nothing listed has one.
   */
  ghost predicate KeepsTypes(t: seq<Entry>, r: Report)
  {
    if r.connected then
      !HasBit(r.networkType) || r.networkType in TypesOf(t) || (Known(EntryOf(r)) && !Knows(t, r.networkHandle) && Count(t) < 10)
    else if HasBit(r.networkType) then
      (exists e :: e in Members(t) && e.networkType == r.networkType && e.networkHandle != r.networkHandle)
      ==> forall e :: e in Members(t) && e != EntryOf(r) && HasBit(e.networkType) ==> e.networkType == r.networkType
    else TypesOf(t) == {}
  }

  lemma {:induction false} OthersListed(t: seq<Entry>, e: Entry, n: nat)
    requires n <= |t|
    ensures OthersOfType(t, e, n) > 0
      <==> exists x :: x in FirstEntries(t, n) && x.networkType == e.networkType && x.networkHandle != e.networkHandle
  {
    if n > 0 {
      OthersListed(t, e, n - 1);
      assert t[n - 1] in FirstEntries(t, n);
      assert forall x :: x in FirstEntries(t, n) <==> x in FirstEntries(t, n - 1) || x == t[n - 1];
    }
  }

  lemma OneMoreType(s: seq<Entry>, t: seq<Entry>, e: Entry)
    requires Members(t) == Members(s) + {e}
    ensures TypesOf(t) == TypesOf(s) + TypeToAllTypes(e.networkType)
  {
    hide Members;
  }

  lemma SameTypes(s: seq<Entry>, t: seq<Entry>)
    requires Members(t) == Members(s)
    ensures TypesOf(t) == TypesOf(s)
  {
    hide Members;
  }

  /** A connect lists its entry or leaves the connections as they were. */
  lemma ConnectLists(t: seq<Entry>, e: Entry)
    requires Compact(t)
    ensures Members(Connected(t, e)) ==
      if Known(e) && !Knows(t, e.networkHandle) && Count(t) < 10 then Members(t) + {e} else Members(t)
  {
    hide Members, Compact, Connected, Count, HandlePosition;
    ConnectRefines(t, e);
    KnowsHandle(t, e.networkHandle);
    MembersBounded(t);
  }

  lemma ConnectTypes(r: Report, cached: Item)
    requires Compact(cached.handles) && TypesAgree(cached) && r.connected
    ensures TypesAgree(Merged(r, cached)) <==> KeepsTypes(cached.handles, r)
  {
    var t, e := cached.handles, EntryOf(r);
    assert |t| == 10;
    hide Members, Compact, Connected, Knows, Count, TypesOf;
    ConnectLists(t, e);
    if Known(e) && !Knows(t, e.networkHandle) && Count(t) < 10 {
      OneMoreType(t, MergedTable(r, t), e);
    } else {
      SameTypes(t, MergedTable(r, t));
    }
  }

  lemma DisconnectTypes(r: Report, cached: Item)
    requires Compact(cached.handles) && TypesAgree(cached) && !r.connected
    ensures TypesAgree(Merged(r, cached)) <==> KeepsTypes(cached.handles, r)
  {
    var t, e := cached.handles, EntryOf(r);
    assert |t| == 10;
    hide Compact, Disconnected, Members, Count, TypesOf;
    DisconnectRefines(t, e);
    if TypeToAllTypes(r.networkType) != {} {
      var n := MergedTable(r, t);
      assert Members(t) == FirstEntries(t, Count(t)) by {
        MembersAre(t);
      }
      OthersListed(t, e, Count(t));
      LeftTypes(t, n, e);
    }
  }

  lemma MembersAre(t: seq<Entry>)
    ensures Members(t) == FirstEntries(t, Count(t))
  {
  }

  /** The types left when an entry is gone: without its type if no other handle has it, else with it. */
  lemma LeftTypes(t: seq<Entry>, n: seq<Entry>, e: Entry)
    requires Members(n) == Members(t) - {e} && HasBit(e.networkType)
    ensures if exists x :: x in Members(t) && x.networkType == e.networkType && x.networkHandle != e.networkHandle
            then TypesOf(n) == {e.networkType}
              <==> forall x :: x in Members(t) && x != e && HasBit(x.networkType) ==> x.networkType == e.networkType
            else TypesOf(n) == TypesOf(t) - {e.networkType}
  {
    hide Members;
    if x :| x in Members(t) && x.networkType == e.networkType && x.networkHandle != e.networkHandle {
      assert x in Members(n) && e.networkType in TypesOf(n);
      forall y | y in Members(t) && y != e && HasBit(y.networkType) ensures y.networkType in TypesOf(n) {
        assert y in Members(n);
      }
    } else {
      assert forall x :: x in Members(n) <==> x in Members(t) && x != e;
    }
  }

  /** The newest item's mask agrees with its table. */
  ghost predicate NewestAgrees(items: seq<Item>)
  {
    items != [] && TypesAgree(items[|items| - 1])
  }

  ghost predicate KeepsNewest(items: seq<Item>, r: Report)
    requires Tables(items)
  {
    if items == [] then !HasBit(r.networkType) || r.networkHandle != 0xFFFF_FFFF_FFFF_FFFF
    else
      var newest := items[|items| - 1];
      SameInfo(newest, Merged(r, newest)) || KeepsTypes(newest.handles, r)
  }

  /** A report leaves mask and table of the newest item in agreement if and only if it is one of those, or changes nothing. */
  lemma ReceivedTypes(items: seq<Item>, r: Report)
    requires Tables(items) && (items == [] || NewestAgrees(items))
    ensures NewestAgrees(Received(items, r)) <==> KeepsNewest(items, r)
  {
    hide Members, Compact, MergedTable, MergedTypes, Connected;
    if items == [] {
      InitialTable(r);
      InitialTypes(r);
    } else if r.connected {
      ConnectTypes(r, items[|items| - 1]);
    } else {
      DisconnectTypes(r, items[|items| - 1]);
    }
  }

  lemma InitialTypes(r: Report)
    ensures TypesAgree(Initial(r)) <==> !HasBit(r.networkType) || r.networkHandle != 0xFFFF_FFFF_FFFF_FFFF
  {
    hide Members, Compact;
    var e := EntryOf(r);
    InitialTable(r);
    assert !HasHandle({}, e.networkHandle);
    assert Members(Initial(r).handles) == if Known(e) then {e} else {};
    assert TypesOf(Initial(r).handles) == if Known(e) && HasBit(r.networkType) then {r.networkType} else {};
  }

  /** In every run of such reports the newest mask holds exactly the types of the connections listed. */
  lemma {:induction false} TypesFollowTable(reports: seq<Report>)
    requires reports != [] && forall k :: 0 <= k < |reports| ==> KeepsNewest(RunItems(reports[..k]), reports[k])
    ensures NewestAgrees(RunItems(reports))
  {
    hide KeepsNewest, NewestAgrees, Received;
    var n := |reports| - 1;
    var before := RunItems(reports[..n]);
    if n > 0 {
      forall k | 0 <= k < n ensures KeepsNewest(RunItems(reports[..n][..k]), reports[..n][k]) {
        assert reports[..n][..k] == reports[..k];
      }
      TypesFollowTable(reports[..n]);
    }
    assert KeepsNewest(before, reports[n]);
    ReceivedTypes(before, reports[n]);
    assert RunItems(reports) == Received(before, reports[n]);
  }

  // ---------------------------------------------------------------- the newest item, and the kept ones

  ghost function Newest(reports: seq<Report>): Item
    requires reports != []
  {
    TableRefinesSet(reports);
    var items := RunItems(reports);
    items[|items| - 1]
  }

  /** A report keeps the name of the one before if it is not a mobile one and there is a name. */
  function NameAfter(name: string, r: Report): string
  {
    if r.networkType != 0 && name != "" then name else r.apn
  }

  lemma FirstNewest(r: Report)
    ensures Newest([r]) == Initial(r)
  {
    hide Initial, Compact, Members;
    assert [r][..0] == [] && RunItems([]) == [];
    assert RunItems([r]) == Store([], Initial(r));
  }

  /** The newest item always tells the last report's connection, the table merged with it, and the name kept. */
  lemma NewestIsCurrent(reports: seq<Report>, r: Report)
    requires reports != []
    ensures var n, m := Newest(reports), Newest(reports + [r]);
      m.own.connected == r.connected && m.apn == NameAfter(n.apn, r) && |n.handles| <= 10 && m.handles == MergedTable(r, n.handles)
  {
    hide RunItems, Store, MergedTable, MergedTypes, Members;
    TableRefinesSet(reports);
    RunOneMore(reports, r);
    var items := RunItems(reports);
    StoredCurrent(items, Merged(r, items[|items| - 1]));
  }

  lemma StoredCurrent(items: seq<Item>, s: Item)
    ensures var after := Store(items, s);
      after != [] && after[|after| - 1].own.connected == s.own.connected
      && after[|after| - 1].handles == s.handles && after[|after| - 1].apn == s.apn
  {
  }

  /**
   Whose name the newest item gives: the last mobile report's, with every name kept since, or one that found none
   before it and was kept since.
   */
  lemma {:induction false} NameSource(reports: seq<Report>) returns (j: nat)
    requires reports != []
    ensures j < |reports| && Newest(reports).apn == reports[j].apn
    ensures forall i :: j < i < |reports| ==> reports[i].networkType != 0 && reports[j].apn != ""
    ensures reports[j].networkType == 0 || j == 0 || Newest(reports[..j]).apn == ""
  {
    hide Newest, RunItems;
    var n := |reports| - 1;
    if n == 0 {
      assert reports == [reports[0]];
      FirstNewest(reports[0]);
      j := 0;
    } else {
      assert reports == reports[..n] + [reports[n]];
      NewestIsCurrent(reports[..n], reports[n]);
      if reports[n].networkType != 0 && Newest(reports[..n]).apn != "" {
        j := NameSource(reports[..n]);
        assert reports[..n][..j] == reports[..j];
      } else {
        j := n;
      }
    }
  }

  /** What two items must share to count as one. */
  predicate Alike(x: Item, y: Item)
  {
    x.own.connected == y.own.connected && x.handles == y.handles && x.apn == y.apn
  }

  lemma StoreKeeps(items: seq<Item>, s: Item)
    requires |items| <= 5 && forall i :: 0 < i < |items| ==> !Alike(items[i - 1], items[i])
    ensures var after := Store(items, s);
      && |after| <= 5 && (forall i :: 0 < i < |after| ==> !Alike(after[i - 1], after[i]))
      && (after == items <==> items != [] && Alike(items[|items| - 1], s))
      && (after != items ==> after == (if |items| == 5 then items[1..] else items) + [s])
  {
    var all := items + [s];
    if items != [] && !SameInfo(items[|items| - 1], s) {
      assert Store(items, s) != items by {
        assert Store(items, s)[|Store(items, s)| - 1] == s;
      }
    }
  }

  lemma BoundedTables(items: seq<Item>)
    requires Tables(items)
    ensures forall i :: 0 <= i < |items| ==> |items[i].handles| == 10
  {
    forall i | 0 <= i < |items| ensures |items[i].handles| == 10 {
      assert Compact(items[i].handles);
    }
  }

  /** In every run at most five items are kept, and none is like the one before it. */
  lemma {:induction false} KeptItemsDiffer(reports: seq<Report>)
    ensures var items := RunItems(reports);
      |items| <= 5 && forall i :: 0 < i < |items| ==> !Alike(items[i - 1], items[i])
  {
    hide Initial, Merged, Store, Tables;
    if reports != [] {
      var n := |reports| - 1;
      KeptItemsDiffer(reports[..n]);
      var before := RunItems(reports[..n]);
      BoundedTables(before);
      StoreKeeps(before, if before == [] then Initial(reports[n]) else Merged(reports[n], before[|before| - 1]));
    }
  }

  // ---------------------------------------------------------------- a mask that forgets a type

  /** A handle that no report of the run connected, with a table that has room. */
  lemma NewHandleKeeps(reports: seq<Report>, r: Report)
    requires reports != [] && r.connected && Known(EntryOf(r)) && !HasHandle(RunSet(reports), r.networkHandle) && |RunSet(reports)| < 10
    ensures KeepsNewest(RunItems(reports), r)
  {
    hide Members, RunItems, RunSet, Compact, Knows, TypesOf, Count, Merged, SameInfo;
    TableRefinesSet(reports);
    var t := Newest(reports).handles;
    KnowsHandle(t, r.networkHandle);
    MembersBounded(t);
  }

  const ONE := Report(11, 1, true, "")
  const TWO := Report(12, 1, true, "")
  const THREE := Report(13, 2, true, "")
  const ONE_GONE := Report(11, 1, false, "")

  lemma Sets()
    ensures RunSet([ONE]) == {EntryOf(ONE)}
    ensures RunSet([ONE, TWO]) == {EntryOf(ONE), EntryOf(TWO)}
    ensures RunSet([ONE, TWO, THREE]) == {EntryOf(ONE), EntryOf(TWO), EntryOf(THREE)}
    ensures !HasHandle(RunSet([ONE]), 12) && !HasHandle(RunSet([ONE, TWO]), 13)
  {
    assert [ONE][..0] == [] && [ONE, TWO][..1] == [ONE] && [ONE, TWO, THREE][..2] == [ONE, TWO];
    assert !HasHandle({}, 11) && !HasHandle({EntryOf(ONE)}, 12) && !HasHandle({EntryOf(ONE), EntryOf(TWO)}, 13);
  }

  lemma ThreeAgree()
    ensures NewestAgrees(RunItems([ONE, TWO, THREE]))
  {
    var reports := [ONE, TWO, THREE];
    assert reports[..0] == [] && reports[..1] == [ONE] && reports[..2] == [ONE, TWO];
    Sets();
    NewHandleKeeps([ONE], TWO);
    NewHandleKeeps([ONE, TWO], THREE);
    assert KeepsNewest(RunItems([]), ONE);
    hide RunItems, RunSet, KeepsNewest, NewestAgrees;
    forall k | 0 <= k < 3 ensures KeepsNewest(RunItems(reports[..k]), reports[k]) {
      assert k == 0 || k == 1 || k == 2;
    }
    TypesFollowTable(reports);
  }

  /** Two handles of type 1 and one of type 2 are connected; when one of the former goes, the mask forgets type 2. */
  lemma TypesExample()
    ensures NewestAgrees(RunItems([ONE, TWO, THREE]))
    ensures var items := RunItems([ONE, TWO, THREE] + [ONE_GONE]); items != [] && !NewestAgrees(items)
  {
    var reports := [ONE, TWO, THREE];
    ThreeAgree();
    LastConnected();
    Sets();
    TableRefinesSet(reports);
    RunOneMore(reports, ONE_GONE);
    TableRefinesSet(reports + [ONE_GONE]);
    hide RunItems, RunSet, Received, Members, Knows, Compact, NewestAgrees, Merged;
    ReceivedTypes(RunItems(reports), ONE_GONE);
    ForgetsType(Newest(reports).handles);
  }

  lemma ForgetsType(t: seq<Entry>)
    requires Members(t) == {EntryOf(ONE), EntryOf(TWO), EntryOf(THREE)}
    ensures !KeepsTypes(t, ONE_GONE)
  {
    hide Members;
    assert EntryOf(TWO) in Members(t) && EntryOf(THREE) in Members(t);
  }

  lemma LastConnected()
    ensures Newest([ONE, TWO, THREE]).own.connected
  {
    assert [ONE, TWO, THREE] == [ONE, TWO] + [THREE];
    NewestIsCurrent([ONE, TWO], THREE);
  }
}
