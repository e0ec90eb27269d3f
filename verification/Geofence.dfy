/**
 The geofence adapter's double map: fences by hardware id, and hardware ids by client key.
 Hardware answers are parameters; each command with its answer is one step.
 */
module Geofence {
  import opened Common

  type Client = int
  type HwId = int

  datatype Key = Key(client: Client, id: int)

  datatype Fence = Fence(breachMask: int, responsiveness: int, dwellTime: int, latitude: real, longitude: real, radius: real)

  datatype GeofenceObject = GeofenceObject(key: Key, fence: Fence, paused: bool)

  /** `stopped`: the clients whose sessions were stopped at some time. */
  datatype Table = Table(fences: map<HwId, GeofenceObject>, ids: map<Key, HwId>, stopped: set<Client>)

  // ---------------------------------------------------------------- on values

  predicate Keyed(t: Table, h: HwId)
    requires h in t.fences
  {
    t.fences[h].key in t.ids && t.ids[t.fences[h].key] == h
  }

  /** Every key leads to an entry that carries it; keys are not shared; only stopped clients leave unkeyed entries. */
  ghost predicate DoubleMap(t: Table)
  {
    && (forall k :: k in t.ids ==> t.ids[k] in t.fences && t.fences[t.ids[k]].key == k)
    && (forall g, h :: g in t.fences && h in t.fences && t.fences[g].key == t.fences[h].key ==> g == h)
    && (forall h :: h in t.fences ==> Keyed(t, h) || t.fences[h].key.client in t.stopped)
  }

  /** The fence data a client would find under its key, wherever the hardware keeps it. */
  ghost predicate Holds(t: Table, k: Key, f: Fence)
  {
    exists h :: h in t.fences && t.fences[h].key == k && t.fences[h].fence == f
  }

  predicate Fresh(t: Table, k: Key, h: HwId)
  {
    h !in t.fences && k !in t.ids && forall g :: g in t.fences ==> t.fences[g].key != k
  }

  function Saved(t: Table, k: Key, h: HwId, f: Fence): Table
  {
    t.(fences := t.fences[h := GeofenceObject(k, f, false)], ids := t.ids[k := h])
  }

  function Removed(t: Table, h: HwId): Table
  {
    if h in t.fences && t.fences[h].key in t.ids
    then t.(fences := t.fences - {h}, ids := t.ids - {t.fences[h].key}) else t
  }

  function Paused(t: Table, h: HwId, paused: bool): Table
  {
    if h in t.fences then t.(fences := t.fences[h := t.fences[h].(paused := paused)]) else t
  }

  function Modified(t: Table, h: HwId, breachMask: int, responsiveness: int, dwellTime: int): Table
  {
    if h in t.fences
    then
      var f := t.fences[h].fence.(breachMask := breachMask, responsiveness := responsiveness, dwellTime := dwellTime);
      t.(fences := t.fences[h := t.fences[h].(fence := f)])
    else t
  }

  function OwnedKeys(t: Table, client: Client): set<Key>
  {
    set k | k in t.ids && k.client == client
  }

  function HwIdsOf(ids: map<Key, HwId>, keys: set<Key>): set<HwId>
    requires keys <= ids.Keys
  {
    set k | k in keys :: ids[k]
  }

  /** `failing`: the hardware ids whose removal the hardware refuses. */
  function ClientStopped(t: Table, client: Client, failing: set<HwId>): Table
  {
    var gone := HwIdsOf(t.ids, OwnedKeys(t, client));
    Table(t.fences - (gone - failing), t.ids - OwnedKeys(t, client), t.stopped + {client})
  }

  /** `renamed`: the new hardware id of each fence the hardware took again. */
  predicate Renaming(t: Table, renamed: map<HwId, HwId>)
  {
    renamed.Keys <= t.fences.Keys
    && forall g, h :: g in renamed && h in renamed && g != h ==> renamed[g] != renamed[h]
  }

  lemma SaveKeeps(t: Table, k: Key, h: HwId, f: Fence)
    requires DoubleMap(t) && Fresh(t, k, h)
    ensures DoubleMap(Saved(t, k, h, f))
  {
    var s := Saved(t, k, h, f);
    forall g | g in s.fences ensures Keyed(s, g) || s.fences[g].key.client in s.stopped {
      assert g != h ==> s.fences[g] == t.fences[g] && (Keyed(t, g) || t.fences[g].key.client in t.stopped);
    }
  }

  lemma RemoveKeeps(t: Table, h: HwId)
    requires DoubleMap(t)
    ensures DoubleMap(Removed(t, h))
    ensures h in t.fences && Keyed(t, h) ==> h !in Removed(t, h).fences && t.fences[h].key !in Removed(t, h).ids
  {
    var s := Removed(t, h);
    forall g | g in s.fences ensures Keyed(s, g) || s.fences[g].key.client in s.stopped {
      assert Keyed(t, g) || t.fences[g].key.client in t.stopped;
    }
  }

  lemma PauseKeeps(t: Table, h: HwId, paused: bool)
    requires DoubleMap(t)
    ensures DoubleMap(Paused(t, h, paused))
  {
    var s := Paused(t, h, paused);
    forall g | g in s.fences ensures Keyed(s, g) || s.fences[g].key.client in s.stopped {
      assert Keyed(t, g) || t.fences[g].key.client in t.stopped;
    }
  }

  lemma ModifyKeeps(t: Table, h: HwId, breachMask: int, responsiveness: int, dwellTime: int)
    requires DoubleMap(t)
    ensures DoubleMap(Modified(t, h, breachMask, responsiveness, dwellTime))
  {
    var s := Modified(t, h, breachMask, responsiveness, dwellTime);
    forall g | g in s.fences ensures Keyed(s, g) || s.fences[g].key.client in s.stopped {
      assert Keyed(t, g) || t.fences[g].key.client in t.stopped;
    }
  }

  /** A stopped client has no keys left, and keeps only the entries the hardware refused to give up. */
  lemma StopKeeps(t: Table, client: Client, failing: set<HwId>)
    requires DoubleMap(t)
    ensures var s := ClientStopped(t, client, failing);
      && DoubleMap(s)
      && (forall k :: k in s.ids ==> k.client != client)
      && (forall h :: h in t.fences && t.fences[h].key.client == client && Keyed(t, h) ==> (h in s.fences <==> h in failing))
  {
    var s := ClientStopped(t, client, failing);
    forall k | k in s.ids ensures s.ids[k] in s.fences && s.fences[s.ids[k]].key == k {
      assert t.fences[t.ids[k]].key == k;
    }
    forall g | g in s.fences ensures Keyed(s, g) || s.fences[g].key.client in s.stopped {
      assert Keyed(t, g) || t.fences[g].key.client in t.stopped;
    }
    forall h | h in t.fences && t.fences[h].key.client == client && Keyed(t, h) ensures h in s.fences <==> h in failing {
      assert t.fences[h].key in OwnedKeys(t, client);
    }
  }

  // ---------------------------------------------------------------- restart

  /** The tables rebuilt from these old fences: each under its new hardware id and its old key, not paused. */
  ghost predicate Rebuilt(t: Table, renamed: map<HwId, HwId>, taken: set<HwId>, fences: map<HwId, GeofenceObject>, ids: map<Key, HwId>)
    requires taken <= renamed.Keys <= t.fences.Keys
  {
    && (forall h :: h in taken ==>
          && renamed[h] in fences && fences[renamed[h]] == t.fences[h].(paused := false)
          && t.fences[h].key in ids && ids[t.fences[h].key] == renamed[h])
    && (forall n :: n in fences ==> exists h :: h in taken && renamed[h] == n)
    && (forall k :: k in ids ==> exists h :: h in taken && t.fences[h].key == k)
  }

  ghost predicate Restarted(t: Table, renamed: map<HwId, HwId>, s: Table)
    requires Renaming(t, renamed)
  {
    if t.fences == map[] then s == t
    else s.stopped == t.stopped && Rebuilt(t, renamed, renamed.Keys, s.fences, s.ids)
  }

  lemma RetakeOne(t: Table, renamed: map<HwId, HwId>, taken: set<HwId>, h: HwId, fences: map<HwId, GeofenceObject>, ids: map<Key, HwId>)
    requires DoubleMap(t) && Renaming(t, renamed) && taken <= renamed.Keys && h in renamed && h !in taken
    requires Rebuilt(t, renamed, taken, fences, ids)
    ensures Rebuilt(t, renamed, taken + {h}, fences[renamed[h] := t.fences[h].(paused := false)], ids[t.fences[h].key := renamed[h]])
  {
  }

  lemma NothingRetaken(t: Table, renamed: map<HwId, HwId>)
    requires Renaming(t, renamed)
    ensures Rebuilt(t, renamed, {}, map[], map[])
  {
  }

  /** The new hardware ids of the retaken fences that were paused. */
  ghost function PausedOf(t: Table, renamed: map<HwId, HwId>, taken: set<HwId>): set<HwId>
    requires taken <= renamed.Keys <= t.fences.Keys
  {
    set h | h in taken && t.fences[h].paused :: renamed[h]
  }

  lemma PausedOneMore(t: Table, renamed: map<HwId, HwId>, taken: set<HwId>, h: HwId)
    requires taken <= renamed.Keys <= t.fences.Keys && h in renamed
    ensures PausedOf(t, renamed, taken + {h}) == PausedOf(t, renamed, taken) + if t.fences[h].paused then {renamed[h]} else {}
  {
  }

  lemma NonePaused(t: Table, renamed: map<HwId, HwId>)
    requires Renaming(t, renamed)
    ensures PausedOf(t, renamed, {}) == {}
  {
  }

  lemma PausedExactly(t: Table, renamed: map<HwId, HwId>)
    requires Renaming(t, renamed)
    ensures forall h :: h in renamed ==> (t.fences[h].paused <==> renamed[h] in PausedOf(t, renamed, renamed.Keys))
  {
  }

  lemma RestartKeeps(t: Table, renamed: map<HwId, HwId>, s: Table)
    requires DoubleMap(t) && Renaming(t, renamed) && Restarted(t, renamed, s)
    ensures DoubleMap(s)
    ensures forall h :: h in s.fences ==> Keyed(s, h)
  {
    if t.fences != map[] {
      forall n | n in s.fences ensures Keyed(s, n) {
        var h :| h in renamed && renamed[h] == n;
      }
      forall k | k in s.ids ensures s.ids[k] in s.fences && s.fences[s.ids[k]].key == k {
        var h :| h in renamed && t.fences[h].key == k;
      }
    }
  }

  /** A restart that the hardware takes in full keeps every key's fence and forgets the pauses. */
  lemma RestartRebuilds(t: Table, renamed: map<HwId, HwId>, s: Table, k: Key, f: Fence)
    requires DoubleMap(t) && Renaming(t, renamed) && renamed.Keys == t.fences.Keys && Restarted(t, renamed, s)
    ensures Holds(s, k, f) <==> Holds(t, k, f)
    ensures k in s.ids <==> exists h :: h in t.fences && t.fences[h].key == k
    ensures t.fences != map[] ==> forall h :: h in s.fences ==> !s.fences[h].paused
  {
    if t.fences != map[] {
      if Holds(t, k, f) {
        var h :| h in t.fences && t.fences[h].key == k && t.fences[h].fence == f;
        assert s.fences[renamed[h]].key == k;
      }
      if Holds(s, k, f) {
        var n :| n in s.fences && s.fences[n].key == k && s.fences[n].fence == f;
        var h :| h in renamed && renamed[h] == n;
        assert t.fences[h].key == k;
      }
    }
  }

  // ---------------------------------------------------------------- runs

  const EMPTY := Table(map[], map[], {})

  datatype Op =
    | Save(key: Key, hwId: HwId, fence: Fence)
    | Remove(hwId: HwId)
    | Pause(hwId: HwId, paused: bool)
    | Modify(hwId: HwId, breachMask: int, responsiveness: int, dwellTime: int)
    | StopClient(client: Client, failing: set<HwId>)
    | Restart(renamed: map<HwId, HwId>)

  /** Keys and hardware ids are fresh, as the hardware and the clients hand them out. */
  ghost predicate FreshOp(t: Table, op: Op)
  {
    match op
    case Save(key, hwId, _) => Fresh(t, key, hwId)
    case Restart(renamed) => Renaming(t, renamed)
    case _ => true
  }

  ghost predicate Leads(t: Table, op: Op, s: Table)
    requires FreshOp(t, op)
  {
    match op
    case Save(key, hwId, fence) => s == Saved(t, key, hwId, fence)
    case Remove(hwId) => s == Removed(t, hwId)
    case Pause(hwId, paused) => s == Paused(t, hwId, paused)
    case Modify(hwId, breachMask, responsiveness, dwellTime) => s == Modified(t, hwId, breachMask, responsiveness, dwellTime)
    case StopClient(client, failing) => s == ClientStopped(t, client, failing)
    case Restart(renamed) => Restarted(t, renamed, s)
  }

  ghost predicate IsRun(ops: seq<Op>, tables: seq<Table>)
  {
    && |tables| == |ops| + 1 && tables[0] == EMPTY
    && forall i :: 0 <= i < |ops| ==> FreshOp(tables[i], ops[i]) && Leads(tables[i], ops[i], tables[i + 1])
  }

  predicate Stops(op: Op, client: Client)
  {
    op.StopClient? && op.client == client
  }

  ghost predicate WasStopped(ops: seq<Op>, n: nat, client: Client)
    requires n <= |ops|
  {
    exists i :: 0 <= i < n && Stops(ops[i], client)
  }

  lemma LeadsKeeps(t: Table, op: Op, s: Table)
    requires DoubleMap(t) && FreshOp(t, op) && Leads(t, op, s)
    ensures DoubleMap(s)
    ensures s.stopped == if op.StopClient? then t.stopped + {op.client} else t.stopped
  {
    hide DoubleMap;
    match op
    case Save(key, hwId, fence) => SaveKeeps(t, key, hwId, fence);
    case Remove(hwId) => RemoveKeeps(t, hwId);
    case Pause(hwId, paused) => PauseKeeps(t, hwId, paused);
    case Modify(hwId, breachMask, responsiveness, dwellTime) => ModifyKeeps(t, hwId, breachMask, responsiveness, dwellTime);
    case StopClient(client, failing) => StopKeeps(t, client, failing);
    case Restart(renamed) => RestartKeeps(t, renamed, s);
  }

  /**
   After every run each key leads to an entry that carries it, no two entries share a key, and an entry
   without a key belongs to a client whose sessions were stopped during the run.
   */
  lemma {:induction false} RunsKeepDoubleMap(ops: seq<Op>, tables: seq<Table>, n: nat)
    requires IsRun(ops, tables) && n <= |ops|
    ensures DoubleMap(tables[n])
    ensures forall c :: c in tables[n].stopped <==> WasStopped(ops, n, c)
  {
    hide DoubleMap, FreshOp, Leads;
    if n == 0 {
      EmptyTable();
    } else {
      RunsKeepDoubleMap(ops, tables, n - 1);
      LeadsKeeps(tables[n - 1], ops[n - 1], tables[n]);
      forall c ensures WasStopped(ops, n, c) <==> WasStopped(ops, n - 1, c) || Stops(ops[n - 1], c) {
      }
    }
  }

  lemma EmptyTable()
    ensures DoubleMap(EMPTY)
  {
  }

  // ---------------------------------------------------------------- what clients find under their keys

  /** What a client finds under its key. */
  datatype Shown = Shown(fence: Fence, paused: bool)

  /** The two maps seen as one, from keys to fences. */
  function View(t: Table): (v: map<Key, Shown>)
    ensures forall k :: k in v <==> k in t.ids && t.ids[k] in t.fences
  {
    map k | k in t.ids && t.ids[k] in t.fences :: Shown(t.fences[t.ids[k]].fence, t.fences[t.ids[k]].paused)
  }

  /** The key under which the client finds the entry, if it has one. */
  function KeyOf(t: Table, h: HwId): Option<Key>
  {
    if h in t.fences && Keyed(t, h) then Some(t.fences[h].key) else None
  }

  ghost predicate Unchanged(v: map<Key, Shown>, w: map<Key, Shown>, changed: Option<Key>)
  {
    v.Keys == w.Keys && forall k :: k in v && Some(k) != changed ==> w[k] == v[k]
  }

  /**
   Each operation is the plain one on the view: a save enters a fence that is not paused; removing, pausing and
   modifying by hardware id touch the one entry that id is keyed by, a modification but three fields of its fence; a
   stopped client's keys go; a restart shows every retaken fence, paused no more.
   */
  ghost predicate Shows(t: Table, op: Op, s: Table)
    requires FreshOp(t, op)
  {
    var v, w := View(t), View(s);
    match op
    case Save(key, _, fence) => w == v[key := Shown(fence, false)]
    case Remove(hwId) => w == if KeyOf(t, hwId).Some? then v - {KeyOf(t, hwId).value} else v
    case Pause(hwId, paused) =>
      var key := KeyOf(t, hwId);
      Unchanged(v, w, key) && (key.Some? ==> key.value in v && w[key.value] == v[key.value].(paused := paused))
    case Modify(hwId, breachMask, responsiveness, dwellTime) =>
      var key := KeyOf(t, hwId);
      && Unchanged(v, w, key)
      && (key.Some? ==>
            && key.value in v && w[key.value].paused == v[key.value].paused
            && w[key.value].fence == Fence(breachMask, responsiveness, dwellTime,
                                           v[key.value].fence.latitude, v[key.value].fence.longitude, v[key.value].fence.radius))
    case StopClient(client, _) => w == map k | k in v && k.client != client :: v[k]
    case Restart(renamed) =>
      && (forall h :: h in renamed ==> t.fences[h].key in w && w[t.fences[h].key] == Shown(t.fences[h].fence, false))
      && (forall k :: k in w ==> exists h :: h in renamed && t.fences[h].key == k)
  }

  lemma SaveShows(t: Table, k: Key, h: HwId, f: Fence)
    requires DoubleMap(t) && Fresh(t, k, h)
    ensures View(Saved(t, k, h, f)) == View(t)[k := Shown(f, false)]
  {
  }

  lemma RemoveShows(t: Table, h: HwId)
    requires DoubleMap(t)
    ensures View(Removed(t, h)) == if KeyOf(t, h).Some? then View(t) - {KeyOf(t, h).value} else View(t)
  {
  }

  lemma PauseShows(t: Table, h: HwId, paused: bool)
    requires DoubleMap(t)
    ensures Shows(t, Pause(h, paused), Paused(t, h, paused))
  {
  }

  lemma ModifyShows(t: Table, h: HwId, breachMask: int, responsiveness: int, dwellTime: int)
    requires DoubleMap(t)
    ensures Shows(t, Modify(h, breachMask, responsiveness, dwellTime), Modified(t, h, breachMask, responsiveness, dwellTime))
  {
  }

  lemma LeadsShows(t: Table, op: Op, s: Table)
    requires DoubleMap(t) && FreshOp(t, op) && Leads(t, op, s)
    ensures Shows(t, op, s)
  {
    hide DoubleMap, View, KeyOf, Saved, Removed, Paused, Modified, ClientStopped;
    match op
    case Save(key, hwId, fence) => SaveShows(t, key, hwId, fence);
    case Remove(hwId) => RemoveShows(t, hwId);
    case Pause(hwId, paused) => PauseShows(t, hwId, paused);
    case Modify(hwId, breachMask, responsiveness, dwellTime) => ModifyShows(t, hwId, breachMask, responsiveness, dwellTime);
    case StopClient(client, failing) => StopShows(t, client, failing);
    case Restart(renamed) => RestartShows(t, renamed, s);
  }

  lemma StopShows(t: Table, client: Client, failing: set<HwId>)
    requires DoubleMap(t)
    ensures View(ClientStopped(t, client, failing)) == map k | k in View(t) && k.client != client :: View(t)[k]
  {
    StopKeeps(t, client, failing);
    var s := ClientStopped(t, client, failing);
    forall k | k in t.ids && k.client != client ensures t.ids[k] in s.fences {
      assert t.fences[t.ids[k]].key == k;
    }
  }

  lemma RestartShows(t: Table, renamed: map<HwId, HwId>, s: Table)
    requires DoubleMap(t) && Renaming(t, renamed) && Restarted(t, renamed, s)
    ensures Shows(t, Restart(renamed), s)
  {
    if t.fences == map[] {
      assert renamed.Keys == {};
    } else {
      forall k | k in View(s) ensures exists h :: h in renamed && t.fences[h].key == k {
        assert k in s.ids;
      }
    }
  }

  /** In every run each operation has just that effect on what the clients find. */
  lemma RunsShow(ops: seq<Op>, tables: seq<Table>, n: nat)
    requires IsRun(ops, tables) && n < |ops|
    ensures FreshOp(tables[n], ops[n]) && Shows(tables[n], ops[n], tables[n + 1])
  {
    hide DoubleMap, Shows, Leads;
    RunsKeepDoubleMap(ops, tables, n);
    LeadsShows(tables[n], ops[n], tables[n + 1]);
  }

  // ---------------------------------------------------------------- breach reports

  predicate Owns(t: Table, client: Client, h: HwId)
  {
    h in t.fences && t.fences[h].key.client == client
  }

  /** The ids a client is told of, in the order of the report. */
  function BreachIds(t: Table, hwIds: seq<HwId>, client: Client): seq<int>
  {
    if hwIds == [] then []
    else
      var ids, last := BreachIds(t, hwIds[..|hwIds| - 1], client), hwIds[|hwIds| - 1];
      if Owns(t, client, last) then ids + [t.fences[last].key.id] else ids
  }

  /** Each reported hardware id of the client's stands in its list, at the place its order gives it. */
  lemma {:induction false} BreachPlace(t: Table, hwIds: seq<HwId>, client: Client, i: nat)
    requires i < |hwIds| && Owns(t, client, hwIds[i])
    ensures var ids, place := BreachIds(t, hwIds, client), |BreachIds(t, hwIds[..i], client)|;
      place < |ids| && ids[place] == t.fences[hwIds[i]].key.id
  {
    var n := |hwIds| - 1;
    if i < n {
      BreachPlace(t, hwIds[..n], client, i);
      assert hwIds[..n][..i] == hwIds[..i];
    }
  }

  /** And nothing else does: every listed id comes from a reported fence of that client, in order. */
  lemma {:induction false} BreachSource(t: Table, hwIds: seq<HwId>, client: Client, place: nat) returns (i: nat)
    requires place < |BreachIds(t, hwIds, client)|
    ensures i < |hwIds| && Owns(t, client, hwIds[i]) && place == |BreachIds(t, hwIds[..i], client)|
    ensures BreachIds(t, hwIds, client)[place] == t.fences[hwIds[i]].key.id
  {
    var n := |hwIds| - 1;
    if place < |BreachIds(t, hwIds[..n], client)| {
      i := BreachSource(t, hwIds[..n], client, place);
      assert hwIds[..n][..i] == hwIds[..i];
    } else {
      i := n;
    }
  }

  // ---------------------------------------------------------------- in place

  class GeofenceAdapter {
    var mGeofences: map<HwId, GeofenceObject>
    var mGeofenceIds: map<Key, HwId>
    ghost var stopped: set<Client>

    ghost function Model(): Table
      reads this
    {
      Table(mGeofences, mGeofenceIds, stopped)
    }

    ghost predicate Valid()
      reads this
    {
      DoubleMap(Model())
    }

    constructor ()
      ensures Valid() && Model() == EMPTY
    {
      mGeofences, mGeofenceIds, stopped := map[], map[], {};
    }

    method SaveGeofenceItem(client: Client, clientId: int, hwId: HwId, fence: Fence)
      modifies this
      ensures Model() == Saved(old(Model()), Key(client, clientId), hwId, fence)
      ensures old(Valid()) && Fresh(old(Model()), Key(client, clientId), hwId) ==> Valid()
    {
      if DoubleMap(Model()) && Fresh(Model(), Key(client, clientId), hwId) {
        SaveKeeps(Model(), Key(client, clientId), hwId, fence);
      }
      var key := Key(client, clientId);
      mGeofences := mGeofences[hwId := GeofenceObject(key, fence, false)];
      mGeofenceIds := mGeofenceIds[key := hwId];
    }

    method RemoveGeofenceItem(hwId: HwId)
      requires Valid()
      modifies this
      ensures Valid() && Model() == Removed(old(Model()), hwId)
    {
      RemoveKeeps(Model(), hwId);
      if hwId in mGeofences {
        var key := mGeofences[hwId].key;
        if key in mGeofenceIds {
          mGeofenceIds := mGeofenceIds - {key};
          mGeofences := mGeofences - {hwId};
        }
      }
    }

    method PauseGeofenceItem(hwId: HwId)
      requires Valid()
      modifies this
      ensures Valid() && Model() == Paused(old(Model()), hwId, true)
    {
      PauseKeeps(Model(), hwId, true);
      if hwId in mGeofences {
        mGeofences := mGeofences[hwId := mGeofences[hwId].(paused := true)];
      }
    }

    method ResumeGeofenceItem(hwId: HwId)
      requires Valid()
      modifies this
      ensures Valid() && Model() == Paused(old(Model()), hwId, false)
    {
      PauseKeeps(Model(), hwId, false);
      if hwId in mGeofences {
        mGeofences := mGeofences[hwId := mGeofences[hwId].(paused := false)];
      }
    }

    method ModifyGeofenceItem(hwId: HwId, breachMask: int, responsiveness: int, dwellTime: int)
      requires Valid()
      modifies this
      ensures Valid() && Model() == Modified(old(Model()), hwId, breachMask, responsiveness, dwellTime)
    {
      ModifyKeeps(Model(), hwId, breachMask, responsiveness, dwellTime);
      if hwId in mGeofences {
        var fence := mGeofences[hwId].fence;
        fence := fence.(breachMask := breachMask, responsiveness := responsiveness, dwellTime := dwellTime);
        mGeofences := mGeofences[hwId := mGeofences[hwId].(fence := fence)];
      }
    }

    method StopClientSessions(client: Client, failing: set<HwId>)
      requires Valid()
      modifies this
      ensures Valid() && Model() == ClientStopped(old(Model()), client, failing)
    {
      StopKeeps(Model(), client, failing);
      ghost var was, owned := Model(), OwnedKeys(Model(), client);
      var todo := mGeofenceIds.Keys;
      while todo != {}
        invariant todo <= was.ids.Keys && stopped == was.stopped
        invariant mGeofenceIds == was.ids - (owned - todo)
        invariant mGeofences == was.fences - (HwIdsOf(was.ids, owned - todo) - failing)
      {
        var key := Pick(todo);
        if key.client == client {
          var hwId := mGeofenceIds[key];
          assert owned - (todo - {key}) == (owned - todo) + {key};
          assert HwIdsOf(was.ids, (owned - todo) + {key}) == HwIdsOf(was.ids, owned - todo) + {hwId};
          mGeofenceIds := mGeofenceIds - {key};
          if hwId !in failing {
            mGeofences := mGeofences - {hwId};
          }
        } else {
          assert owned - (todo - {key}) == owned - todo;
        }
        todo := todo - {key};
      }
      assert owned - todo == owned;
      stopped := stopped + {client};
    }

    /** `paused`: the new hardware ids the hardware is told to pause. */
    method RestartGeofences(renamed: map<HwId, HwId>) returns (paused: set<HwId>)
      requires Valid() && Renaming(Model(), renamed)
      modifies this
      ensures Valid() && Restarted(old(Model()), renamed, Model())
      ensures forall h :: h in renamed ==> (old(mGeofences)[h].paused <==> renamed[h] in paused)
    {
      ghost var was := Model();
      paused := {};
      if mGeofences != map[] {
        var oldGeofences := mGeofences;
        mGeofences, mGeofenceIds := map[], map[];
        paused := RetakeAll(oldGeofences, renamed, was);
        RestartKeeps(was, renamed, Model());
      }
    }

    method RetakeAll(oldGeofences: map<HwId, GeofenceObject>, renamed: map<HwId, HwId>, ghost was: Table) returns (paused: set<HwId>)
      requires DoubleMap(was) && Renaming(was, renamed) && oldGeofences == was.fences
      requires mGeofences == map[] && mGeofenceIds == map[]
      modifies this`mGeofences, this`mGeofenceIds
      ensures Rebuilt(was, renamed, renamed.Keys, mGeofences, mGeofenceIds)
      ensures forall h :: h in renamed ==> (was.fences[h].paused <==> renamed[h] in paused)
    {
      hide DoubleMap, Rebuilt, PausedOf;
      NothingRetaken(was, renamed);
      NonePaused(was, renamed);
      paused := {};
      ghost var taken: set<HwId> := {};
      var todo := oldGeofences.Keys;
      while todo != {}
        invariant todo <= oldGeofences.Keys && taken == renamed.Keys - todo
        invariant Rebuilt(was, renamed, taken, mGeofences, mGeofenceIds)
        invariant paused == PausedOf(was, renamed, taken)
      {
        var it := Pick(todo);
        if it in renamed {
          var fence := oldGeofences[it];
          PausedOneMore(was, renamed, taken, it);
          if fence.paused {
            paused := paused + {renamed[it]};
          }
          RetakeOne(was, renamed, taken, it, mGeofences, mGeofenceIds);
          mGeofences := mGeofences[renamed[it] := GeofenceObject(fence.key, fence.fence, false)];
          mGeofenceIds := mGeofenceIds[fence.key := renamed[it]];
          taken := taken + {it};
        }
        todo := todo - {it};
      }
      assert taken == renamed.Keys;
      PausedExactly(was, renamed);
    }

    /** The ids listed for each client that has any and asked for breach reports. */
    method GeofenceBreach(clients: set<Client>, hwIds: seq<HwId>) returns (notified: map<Client, seq<int>>)
      ensures notified == map c | c in clients && BreachIds(Model(), hwIds, c) != [] :: BreachIds(Model(), hwIds, c)
    {
      notified := map[];
      var todo := clients;
      while todo != {}
        invariant todo <= clients
        invariant notified == map c | c in clients - todo && BreachIds(Model(), hwIds, c) != [] :: BreachIds(Model(), hwIds, c)
      {
        var client := Pick(todo);
        var clientIds := [];
        for i := 0 to |hwIds|
          invariant clientIds == BreachIds(Model(), hwIds[..i], client)
        {
          assert hwIds[..i + 1][..i] == hwIds[..i];
          if hwIds[i] in mGeofences && mGeofences[hwIds[i]].key.client == client {
            clientIds := clientIds + [mGeofences[hwIds[i]].key.id];
          }
        }
        assert hwIds[..|hwIds|] == hwIds;
        if |clientIds| > 0 {
          notified := notified[client := clientIds];
        }
        todo := todo - {client};
      }
    }
  }
}
