/** The proxy's table of sensors: merging the sub-HALs' lists, electing the one direct-channel sub-HAL, and
    the sensors that come and go. */
module Registry {
  import opened Basics
  import opened SensorHandles
  import opened SensorTypes

  /** A sensor as offered by the sub-HAL with index `subHal`. */
  datatype Entry = Entry(subHal: size_t, info: SensorInfo)

  datatype Table = Table(sensors: map<int32, SensorInfo>, owner: Option<size_t>)

  /** The sub-HALs' lists in the order they are merged, each sensor with the index of its sub-HAL. */
  function Entries(lists: seq<seq<SensorInfo>>): (entries: seq<Entry>)
    requires |lists| < SIZE_T_LIMIT
  {
    if lists == [] then []
    else Entries(lists[..|lists| - 1]) + Tagged(lists[|lists| - 1], |lists| - 1)
  }

  function Tagged(list: seq<SensorInfo>, subHal: size_t): (entries: seq<Entry>)
    ensures |entries| == |list|
  {
    seq(|list|, i requires 0 <= i < |list| => Entry(subHal, list[i]))
  }

  predicate SupportsDirect(info: SensorInfo) {
    info.flags & MASK_DIRECT != 0
  }

  function WithoutDirect(info: SensorInfo): SensorInfo {
    info.(flags := info.flags & !MASK_DIRECT)
  }

  function NextOwner(owner: Option<size_t>, e: Entry): Option<size_t> {
    if owner.None? && SupportsDirect(e.info) then Some(e.subHal) else owner
  }

  /** What setDirectChannelFlags leaves of a sensor: the branch that elects keeps the flags. */
  function DirectFlagsSet(owner: Option<size_t>, e: Entry): SensorInfo {
    if owner.None? && SupportsDirect(e.info) then e.info
    else if owner.Some? && owner.value != e.subHal then WithoutDirect(e.info)
    else e.info
  }

  function AsLight(info: SensorInfo): SensorInfo {
    if info.sensorType == TYPE_QTI_WISE_LIGHT then info.(sensorType := TYPE_LIGHT) else info
  }

  predicate Accepted(e: Entry) {
    SubHalIndexIsClear(e.info.sensorHandle)
  }

  function Key(e: Entry): int32 {
    SetSubHalIndex(e.info.sensorHandle, e.subHal)
  }

  function Register(t: Table, e: Entry): Table {
    if !Accepted(e) then t
    else
      var info := AsLight(DirectFlagsSet(t.owner, e.(info := e.info.(sensorHandle := Key(e)))));
      Table(t.sensors[Key(e) := info], NextOwner(t.owner, e))
  }

  function RegisterAll(entries: seq<Entry>): Table {
    if entries == [] then Table(map[], None)
    else Register(RegisterAll(entries[..|entries| - 1]), entries[|entries| - 1])
  }

  /** A sensor whose registration initialises the light correction. */
  predicate InitsLight(e: Entry) {
    Accepted(e) && e.info.sensorType == TYPE_QTI_WISE_LIGHT
  }

  function LightInits(entries: seq<Entry>): nat {
    |set i | 0 <= i < |entries| && InitsLight(entries[i])|
  }

  lemma RegisterNext(earlier: seq<Entry>, more: seq<Entry>, i: nat)
    requires i < |more|
    ensures RegisterAll(earlier + more[..i + 1]) == Register(RegisterAll(earlier + more[..i]), more[i])
    ensures LightInits(earlier + more[..i + 1]) == LightInits(earlier + more[..i]) + (if InitsLight(more[i]) then 1 else 0)
  {
    var before, after := earlier + more[..i], earlier + more[..i + 1];
    assert after == before + [more[i]];
    assert after[..|before|] == before;
    var inits, laterInits := set k | 0 <= k < |before| && InitsLight(before[k]), set k | 0 <= k < |after| && InitsLight(after[k]);
    assert forall k | 0 <= k < |before| :: after[k] == before[k];
    assert laterInits == inits + (if InitsLight(more[i]) then {|before|} else {});
  }

  /** Each accepted sensor of the vendor's light type is one initialisation. */
  lemma LightInitsCountLights(entries: seq<Entry>, e: Entry)
    ensures LightInits([]) == 0
    ensures LightInits(entries + [e])
         == LightInits(entries) + (if SubHalIndexIsClear(e.info.sensorHandle) && e.info.sensorType == TYPE_QTI_WISE_LIGHT then 1 else 0)
  {
    RegisterNext(entries, [e], 0);
    assert entries + [e][..0] == entries && entries + [e][..1] == entries + [e];
  }

  // ---- One owner ----

  /** What a registered sensor finally is, given who owns the direct channel in the end. */
  function Final(e: Entry, owner: Option<size_t>): SensorInfo {
    var keyed := e.info.(sensorHandle := Key(e));
    AsLight(if owner == Some(e.subHal) then keyed else WithoutDirect(keyed))
  }

  lemma NoDirectToRemove(flags: bv32)
    ensures flags & MASK_DIRECT == 0 ==> flags & !MASK_DIRECT == flags
    ensures (flags & !MASK_DIRECT) & MASK_DIRECT == 0
    ensures (flags & !MASK_DIRECT) & !MASK_DIRECT == flags & !MASK_DIRECT
  {
  }

  /** An accepted sensor that supports a direct channel. */
  predicate Elects(e: Entry) {
    Accepted(e) && SupportsDirect(e.info)
  }

  ghost predicate FirstToElect(entries: seq<Entry>, j: nat)
    requires j < |entries|
  {
    Elects(entries[j]) && forall i | 0 <= i < j :: !Elects(entries[i])
  }

  ghost predicate OwnerElected(entries: seq<Entry>, owner: Option<size_t>) {
    match owner
    case None => forall j | 0 <= j < |entries| :: !Elects(entries[j])
    case Some(o) => exists j | 0 <= j < |entries| :: FirstToElect(entries, j) && entries[j].subHal == o
  }

  /** No later accepted entry has the same key. */
  ghost predicate LastOfKey(entries: seq<Entry>, j: nat)
    requires j < |entries|
  {
    Accepted(entries[j]) && forall k | j < k < |entries| && Accepted(entries[k]) :: Key(entries[k]) != Key(entries[j])
  }

  ghost predicate KeysFromEntries(entries: seq<Entry>, t: Table) {
    forall k | k in t.sensors :: exists j | 0 <= j < |entries| :: LastOfKey(entries, j) && Key(entries[j]) == k
  }

  lemma NextOwnerElects(t: Table, e: Entry)
    ensures Register(t, e).owner == if t.owner.None? && Elects(e) then Some(e.subHal) else t.owner
  {
  }

  lemma {:induction false} OwnerIsFirstOffer(entries: seq<Entry>)
    ensures OwnerElected(entries, RegisterAll(entries).owner)
  {
    if entries != [] {
      var n := |entries| - 1;
      var init, e := entries[..n], entries[n];
      OwnerIsFirstOffer(init);
      var owner := RegisterAll(init).owner;
      NextOwnerElects(RegisterAll(init), e);
      if owner.Some? {
        var j :| 0 <= j < |init| && FirstToElect(init, j) && init[j].subHal == owner.value;
        assert FirstToElect(entries, j);
      } else if Elects(e) {
        assert FirstToElect(entries, n);
      }
    }
  }

  /** Electing an owner late changes nothing for the sensors already registered: they offered nothing. */
  lemma FinalIsStable(entries: seq<Entry>, e: Entry, j: nat)
    requires j < |entries| && Accepted(entries[j])
    ensures Final(entries[j], RegisterAll(entries).owner) == Final(entries[j], NextOwner(RegisterAll(entries).owner, e))
  {
    OwnerIsFirstOffer(entries);
    NoDirectToRemove(entries[j].info.flags);
    assert Elects(entries[j]) <==> SupportsDirect(entries[j].info);
  }

  lemma RegisteredAsFinal(t: Table, e: Entry)
    requires Accepted(e)
    ensures Register(t, e).sensors == t.sensors[Key(e) := Final(e, Register(t, e).owner)]
  {
    NoDirectToRemove(e.info.flags);
  }

  lemma LastOfKeyInPrefix(entries: seq<Entry>, j: nat)
    requires j + 1 < |entries| && LastOfKey(entries, j)
    ensures LastOfKey(entries[..|entries| - 1], j) && entries[..|entries| - 1][j] == entries[j]
    ensures Accepted(entries[|entries| - 1]) ==> Key(entries[|entries| - 1]) != Key(entries[j])
  {
  }

  lemma LastOfKeyExtends(entries: seq<Entry>, j: nat)
    requires j + 1 < |entries| && LastOfKey(entries[..|entries| - 1], j)
    requires Accepted(entries[|entries| - 1]) ==> Key(entries[|entries| - 1]) != Key(entries[j])
    ensures LastOfKey(entries, j)
  {
    assert forall k | j < k < |entries| - 1 :: entries[k] == entries[..|entries| - 1][k];
  }

  lemma {:induction false} KeysComeFromEntries(entries: seq<Entry>)
    ensures KeysFromEntries(entries, RegisterAll(entries))
  {
    if entries != [] {
      var n := |entries| - 1;
      var init, e := entries[..n], entries[n];
      KeysComeFromEntries(init);
      forall k | k in RegisterAll(entries).sensors
        ensures exists j | 0 <= j < |entries| :: LastOfKey(entries, j) && Key(entries[j]) == k
      {
        if Accepted(e) && Key(e) == k {
          assert LastOfKey(entries, n);
        } else {
          assert k in RegisterAll(init).sensors;
          var j :| 0 <= j < |init| && LastOfKey(init, j) && Key(init[j]) == k;
          LastOfKeyExtends(entries, j);
        }
      }
    }
  }

  lemma {:induction false} LastEntriesAreRegistered(entries: seq<Entry>, j: nat)
    requires j < |entries| && LastOfKey(entries, j)
    ensures var t := RegisterAll(entries); Key(entries[j]) in t.sensors && t.sensors[Key(entries[j])] == Final(entries[j], t.owner)
  {
    var n := |entries| - 1;
    var init, e := entries[..n], entries[n];
    var t := RegisterAll(init);
    if Accepted(e) {
      RegisteredAsFinal(t, e);
    }
    if j < n {
      LastOfKeyInPrefix(entries, j);
      LastEntriesAreRegistered(init, j);
      FinalIsStable(init, e, j);
    }
  }

  lemma {:induction false} EntriesInOrder(lists: seq<seq<SensorInfo>>)
    requires |lists| < SIZE_T_LIMIT
    ensures forall j | 0 <= j < |Entries(lists)| :: Entries(lists)[j].subHal < |lists| && Entries(lists)[j].info in lists[Entries(lists)[j].subHal]
    ensures forall i, j | 0 <= i < j < |Entries(lists)| :: Entries(lists)[i].subHal <= Entries(lists)[j].subHal
    ensures forall s, i | 0 <= s < |lists| && 0 <= i < |lists[s]| :: Entry(s, lists[s][i]) in Entries(lists)
  {
    if lists != [] {
      var n := |lists| - 1;
      EntriesInOrder(lists[..n]);
      var tail := Tagged(lists[n], n);
      assert Entries(lists) == Entries(lists[..n]) + tail;
      assert forall i | 0 <= i < |tail| :: tail[i] == Entry(n, lists[n][i]);
      forall s, i | 0 <= s < |lists| && 0 <= i < |lists[s]|
        ensures Entry(s, lists[s][i]) in Entries(lists)
      {
        if s == n {
          assert tail[i] == Entry(n, lists[n][i]);
        } else {
          assert lists[..n][s] == lists[s];
        }
      }
    }
  }

  /** A sub-HAL offers a direct channel with a sensor whose handle is accepted. */
  ghost predicate Offers(list: seq<SensorInfo>) {
    exists i | 0 <= i < |list| :: SubHalIndexIsClear(list[i].sensorHandle) && SupportsDirect(list[i])
  }

  lemma OfferHasEntry(lists: seq<seq<SensorInfo>>, s: nat) returns (j: nat)
    requires |lists| < SIZE_T_LIMIT && s < |lists| && Offers(lists[s])
    ensures j < |Entries(lists)| && Entries(lists)[j].subHal == s
    ensures Elects(Entries(lists)[j])
  {
    EntriesInOrder(lists);
    var i :| 0 <= i < |lists[s]| && SubHalIndexIsClear(lists[s][i].sensorHandle) && SupportsDirect(lists[s][i]);
    assert Entry(s, lists[s][i]) in Entries(lists);
    j :| 0 <= j < |Entries(lists)| && Entries(lists)[j] == Entry(s, lists[s][i]);
  }

  lemma EntryOffers(lists: seq<seq<SensorInfo>>, j: nat)
    requires |lists| < SIZE_T_LIMIT && j < |Entries(lists)|
    requires Elects(Entries(lists)[j])
    ensures Entries(lists)[j].subHal < |lists| && Offers(lists[Entries(lists)[j].subHal])
  {
    EntriesInOrder(lists);
    var e := Entries(lists)[j];
    var i :| 0 <= i < |lists[e.subHal]| && lists[e.subHal][i] == e.info;
  }

  lemma FirstOfferDecides(lists: seq<seq<SensorInfo>>, s: nat, j: nat)
    requires |lists| < SIZE_T_LIMIT && s < |lists| && j <= |Entries(lists)|
    requires j < |Entries(lists)| ==> s < Entries(lists)[j].subHal
    requires forall i | 0 <= i < j :: !Elects(Entries(lists)[i])
    ensures !Offers(lists[s])
  {
    if Offers(lists[s]) {
      var i := OfferHasEntry(lists, s);
      EntriesInOrder(lists);
    }
  }

  /** The elected sub-HAL is the first in order that offers a direct channel; there is none only when no
      sub-HAL offers one. */
  lemma DirectOwnerIsFirst(lists: seq<seq<SensorInfo>>)
    requires |lists| < SIZE_T_LIMIT
    ensures match RegisterAll(Entries(lists)).owner
            case None => forall s | 0 <= s < |lists| :: !Offers(lists[s])
            case Some(o) => o < |lists| && Offers(lists[o]) && forall s | 0 <= s < o :: !Offers(lists[s])
  {
    var entries := Entries(lists);
    var owner := RegisterAll(entries).owner;
    OwnerIsFirstOffer(entries);
    if owner.Some? {
      var j :| 0 <= j < |entries| && FirstToElect(entries, j) && entries[j].subHal == owner.value;
      EntryOffers(lists, j);
      forall s | 0 <= s < owner.value
        ensures !Offers(lists[s])
      {
        FirstOfferDecides(lists, s, j);
      }
    } else {
      forall s | 0 <= s < |lists|
        ensures !Offers(lists[s])
      {
        FirstOfferDecides(lists, s, |entries|);
      }
    }
  }

  /** `info` is the sub-HAL's own `raw`, registered under `key` while `owner` owns the direct channel: only
      a sensor of the owner keeps direct-channel flags, every other flag bit is the sub-HAL's, and so is the
      type unless it is the vendor's light sensor. */
  predicate RegisteredFrom(raw: SensorInfo, key: int32, info: SensorInfo, owner: Option<size_t>) {
    && info.sensorHandle == key && raw.sensorHandle == ClearSubHalIndex(key)
    && info.flags & !MASK_DIRECT == raw.flags & !MASK_DIRECT
    && (if owner == Some(ExtractSubHalIndex(key)) then info.flags == raw.flags else !SupportsDirect(info))
    && info.sensorType == (if raw.sensorType == TYPE_QTI_WISE_LIGHT then TYPE_LIGHT else raw.sensorType)
  }

  lemma WithoutDirectFlags(info: SensorInfo)
    ensures WithoutDirect(info).flags & !MASK_DIRECT == info.flags & !MASK_DIRECT
    ensures !SupportsDirect(WithoutDirect(info))
  {
    NoDirectToRemove(info.flags);
  }

  lemma LightKeepsFlags(info: SensorInfo)
    ensures AsLight(info).flags == info.flags && SupportsDirect(AsLight(info)) == SupportsDirect(info)
  {
  }

  lemma FinalFlags(e: Entry, owner: Option<size_t>)
    ensures Final(e, owner).flags & !MASK_DIRECT == e.info.flags & !MASK_DIRECT
    ensures if owner == Some(e.subHal) then Final(e, owner).flags == e.info.flags else !SupportsDirect(Final(e, owner))
  {
    var keyed := e.info.(sensorHandle := Key(e));
    if owner == Some(e.subHal) {
      LightKeepsFlags(keyed);
    } else {
      WithoutDirectFlags(keyed);
      LightKeepsFlags(WithoutDirect(keyed));
    }
  }

  lemma FinalIsRegisteredFrom(e: Entry, owner: Option<size_t>)
    requires Accepted(e) && e.subHal < 128
    ensures RegisteredFrom(e.info, Key(e), Final(e, owner), owner) && ExtractSubHalIndex(Key(e)) == e.subHal
  {
    var key := Key(e);
    assert ClearSubHalIndex(key) == e.info.sensorHandle && ExtractSubHalIndex(key) == e.subHal by {
      PackThenUnpack(e.info.sensorHandle, e.subHal);
    }
    FinalFlags(e, owner);
    var info := Final(e, owner);
    assert info.sensorHandle == key;
  }

  /** Every registered sensor decodes to its own sub-HAL and original handle, and is a sensor of that
      sub-HAL's list. */
  lemma RegisteredSensors(lists: seq<seq<SensorInfo>>, key: int32)
    requires |lists| <= 128
    ensures var t := RegisterAll(Entries(lists));
            key in t.sensors ==>
              && IsSubHalIndexValid(key, |lists|)
              && exists raw :: raw in lists[ExtractSubHalIndex(key)] && RegisteredFrom(raw, key, t.sensors[key], t.owner)
  {
    var entries := Entries(lists);
    var t := RegisterAll(entries);
    if key in t.sensors {
      KeysComeFromEntries(entries);
      var j :| 0 <= j < |entries| && LastOfKey(entries, j) && Key(entries[j]) == key;
      LastEntriesAreRegistered(entries, j);
      EntriesInOrder(lists);
      FinalIsRegisteredFrom(entries[j], t.owner);
      assert entries[j].info in lists[ExtractSubHalIndex(key)];
    }
  }

  /** Every accepted sensor is registered under its packed handle. */
  lemma AcceptedSensorsAreRegistered(lists: seq<seq<SensorInfo>>, s: nat, i: nat)
    requires |lists| <= 128 && s < |lists| && i < |lists[s]| && SubHalIndexIsClear(lists[s][i].sensorHandle)
    ensures SetSubHalIndex(lists[s][i].sensorHandle, s) in RegisterAll(Entries(lists)).sensors
  {
    var entries := Entries(lists);
    EntriesInOrder(lists);
    var e := Entry(s, lists[s][i]);
    var j :| 0 <= j < |entries| && entries[j] == e;
    var last := LastIndexOfKey(entries, j);
    LastEntriesAreRegistered(entries, last);
  }

  lemma {:induction false} LastIndexOfKey(entries: seq<Entry>, j: nat) returns (last: nat)
    requires j < |entries| && Accepted(entries[j])
    ensures j <= last < |entries| && LastOfKey(entries, last) && Key(entries[last]) == Key(entries[j])
    decreases |entries| - j
  {
    if k :| j < k < |entries| && Accepted(entries[k]) && Key(entries[k]) == Key(entries[j]) {
      last := LastIndexOfKey(entries, k);
    } else {
      last := j;
    }
  }

  // ---- Dynamic sensors ----

  datatype Report = Added(handle: int32) | Removed(handle: int32)

  /** The dynamic sensor map and everything reported to the framework since the last initialisation. */
  datatype Dynamic = Dynamic(sensors: map<int32, SensorInfo>, reports: seq<Report>)

  const NO_DYNAMIC: Dynamic := Dynamic(map[], [])

  function Connect(d: Dynamic, added: seq<SensorInfo>, subHal: size_t): Dynamic {
    if added == [] then d
    else
      var before := Connect(d, added[..|added| - 1], subHal);
      var info := added[|added| - 1];
      if !SubHalIndexIsClear(info.sensorHandle) then before
      else
        var key := SetSubHalIndex(info.sensorHandle, subHal);
        Dynamic(before.sensors[key := info.(sensorHandle := key)], before.reports + [Added(key)])
  }

  function Disconnect(d: Dynamic, removed: seq<int32>, subHal: size_t): Dynamic {
    if removed == [] then d
    else
      var before := Disconnect(d, removed[..|removed| - 1], subHal);
      var handle := removed[|removed| - 1];
      var key := SetSubHalIndex(handle, subHal);
      if !SubHalIndexIsClear(handle) || key !in before.sensors then before
      else Dynamic(before.sensors - {key}, before.reports + [Removed(key)])
  }

  /** The handles that were reported added and not reported removed since. */
  function Present(reports: seq<Report>): set<int32> {
    if reports == [] then {}
    else
      var before := Present(reports[..|reports| - 1]);
      match reports[|reports| - 1]
      case Added(handle) => before + {handle}
      case Removed(handle) => before - {handle}
  }

  /** A handle is reported removed only while it is reported added. */
  ghost predicate RemovalsMatch(reports: seq<Report>) {
    forall i | 0 <= i < |reports| && reports[i].Removed? :: reports[i].handle in Present(reports[..i])
  }

  ghost predicate DynamicInv(d: Dynamic) {
    && d.sensors.Keys == Present(d.reports)
    && RemovalsMatch(d.reports)
    && forall k | k in d.sensors :: d.sensors[k].sensorHandle == k
  }

  /** Nothing about the other sub-HALs' handles changed. */
  ghost predicate OthersUntouched(d: Dynamic, d': Dynamic, subHal: size_t) {
    forall k: int32 | ExtractSubHalIndex(k) != subHal ::
      (k in d.sensors <==> k in d'.sensors) && (k in d.sensors ==> d.sensors[k] == d'.sensors[k])
  }

  /** One sub-HAL's call: the invariant holds again, the reports only grow, the others are untouched. */
  ghost predicate Isolated(d: Dynamic, d': Dynamic, subHal: size_t) {
    DynamicInv(d') && OthersUntouched(d, d', subHal) && d.reports <= d'.reports
  }

  lemma IsolationComposes(d: Dynamic, between: Dynamic, d': Dynamic, subHal: size_t)
    requires Isolated(d, between, subHal) && Isolated(between, d', subHal)
    ensures Isolated(d, d', subHal)
  {
  }

  lemma OneReport(reports: seq<Report>, r: Report)
    requires RemovalsMatch(reports) && (r.Removed? ==> r.handle in Present(reports))
    ensures RemovalsMatch(reports + [r])
    ensures Present(reports + [r]) == (if r.Added? then Present(reports) + {r.handle} else Present(reports) - {r.handle})
  {
    var all := reports + [r];
    assert all[..|reports|] == reports;
    forall i | 0 <= i < |all| && all[i].Removed?
      ensures all[i].handle in Present(all[..i])
    {
      if i < |reports| {
        assert all[..i] == reports[..i];
      }
    }
  }

  /** The keys under which a sub-HAL's handles are kept; handles with a non-zero top byte are refused. */
  function AcceptedKeys(handles: seq<int32>, subHal: size_t): set<int32> {
    set h | h in handles && SubHalIndexIsClear(h) :: SetSubHalIndex(h, subHal)
  }

  function Handles(infos: seq<SensorInfo>): (handles: seq<int32>)
    ensures |handles| == |infos|
  {
    seq(|infos|, i requires 0 <= i < |infos| => infos[i].sensorHandle)
  }

  lemma AcceptedKeysAppend(handles: seq<int32>, h: int32, subHal: size_t)
    ensures AcceptedKeys(handles + [h], subHal)
         == AcceptedKeys(handles, subHal) + (if SubHalIndexIsClear(h) then {SetSubHalIndex(h, subHal)} else {})
  {
  }

  /** Connecting adds exactly the accepted handles, reports each, and touches no other sub-HAL. */
  lemma {:induction false} ConnectIsIsolated(d: Dynamic, added: seq<SensorInfo>, subHal: size_t)
    requires DynamicInv(d) && subHal < 128
    ensures var d' := Connect(d, added, subHal);
            && Isolated(d, d', subHal)
            && d'.sensors.Keys == d.sensors.Keys + AcceptedKeys(Handles(added), subHal)
  {
    if added != [] {
      var n := |added| - 1;
      var before := Connect(d, added[..n], subHal);
      ConnectIsIsolated(d, added[..n], subHal);
      assert Handles(added) == Handles(added[..n]) + [added[n].sensorHandle];
      AcceptedKeysAppend(Handles(added[..n]), added[n].sensorHandle, subHal);
      if SubHalIndexIsClear(added[n].sensorHandle) {
        PackThenUnpack(added[n].sensorHandle, subHal);
        OneReport(before.reports, Added(SetSubHalIndex(added[n].sensorHandle, subHal)));
      }
    }
  }

  /** The sensor kept under a key is the last one connected under it, with nothing but its handle changed. */
  lemma {:induction false} ConnectKeepsLast(d: Dynamic, added: seq<SensorInfo>, subHal: size_t, i: nat)
    requires subHal < 128 && i < |added| && SubHalIndexIsClear(added[i].sensorHandle)
    requires forall j | i < j < |added| :: added[j].sensorHandle != added[i].sensorHandle
    ensures var key := SetSubHalIndex(added[i].sensorHandle, subHal);
            var d' := Connect(d, added, subHal);
            key in d'.sensors && d'.sensors[key] == added[i].(sensorHandle := key)
  {
    var n := |added| - 1;
    if i < n {
      ConnectKeepsLast(d, added[..n], subHal, i);
      if SubHalIndexIsClear(added[n].sensorHandle)
         && SetSubHalIndex(added[n].sensorHandle, subHal) == SetSubHalIndex(added[i].sensorHandle, subHal) {
        PackingIsInjective(added[n].sensorHandle, subHal, added[i].sensorHandle, subHal);
      }
    }
  }

  lemma DisconnectOne(before: Dynamic, handle: int32, subHal: size_t)
    requires DynamicInv(before) && subHal < 128
    ensures var after := Disconnect(before, [handle], subHal);
            && Isolated(before, after, subHal)
            && after.sensors.Keys == before.sensors.Keys - AcceptedKeys([handle], subHal)
  {
    assert Disconnect(before, [], subHal) == before && [handle][..0] == [];
    if SubHalIndexIsClear(handle) {
      PackThenUnpack(handle, subHal);
      var key := SetSubHalIndex(handle, subHal);
      assert AcceptedKeys([handle], subHal) == {key};
      if key in before.sensors {
        OneReport(before.reports, Removed(key));
      }
    }
  }

  lemma AcceptedKeysSplit(handles: seq<int32>, subHal: size_t)
    requires handles != []
    ensures var n := |handles| - 1; AcceptedKeys(handles, subHal) == AcceptedKeys(handles[..n], subHal) + AcceptedKeys([handles[n]], subHal)
  {
    var n := |handles| - 1;
    assert handles == handles[..n] + [handles[n]];
  }

  lemma DisconnectLast(d: Dynamic, removed: seq<int32>, subHal: size_t)
    requires removed != []
    ensures var n := |removed| - 1; Disconnect(d, removed, subHal) == Disconnect(Disconnect(d, removed[..n], subHal), [removed[n]], subHal)
  {
    var n := |removed| - 1;
    assert [removed[n]][..0] == [];
  }

  /** Disconnecting removes exactly the accepted handles that are there, and touches no other sub-HAL. */
  lemma {:induction false} DisconnectIsIsolated(d: Dynamic, removed: seq<int32>, subHal: size_t)
    requires DynamicInv(d) && subHal < 128
    ensures var d' := Disconnect(d, removed, subHal);
            && Isolated(d, d', subHal)
            && d'.sensors.Keys == d.sensors.Keys - AcceptedKeys(removed, subHal)
  {
    if removed != [] {
      var n := |removed| - 1;
      var between := Disconnect(d, removed[..n], subHal);
      DisconnectIsIsolated(d, removed[..n], subHal);
      DisconnectOne(between, removed[n], subHal);
      DisconnectLast(d, removed, subHal);
      IsolationComposes(d, between, Disconnect(between, [removed[n]], subHal), subHal);
      AcceptedKeysSplit(removed, subHal);
    }
  }

  // ---- What a call reports ----

  /** Positions below `n`, in order. */
  ghost predicate Positions(at: seq<nat>, n: nat) {
    (forall k | 0 <= k < |at| :: at[k] < n) && forall j, k | 0 <= j < k < |at| :: at[j] < at[k]
  }

  lemma OneMorePosition(at: seq<nat>, n: nat)
    requires Positions(at, n)
    ensures Positions(at, n + 1) && Positions(at + [n], n + 1)
    ensures n !in at && forall i | 0 <= i < n :: i in at + [n] <==> i in at
  {
  }

  /** The sensors of a call that are accepted, under their packed handles. */
  function AcceptedSensors(added: seq<SensorInfo>, subHal: size_t): seq<SensorInfo> {
    if added == [] then []
    else
      var before := AcceptedSensors(added[..|added| - 1], subHal);
      var info := added[|added| - 1];
      if SubHalIndexIsClear(info.sensorHandle)
      then before + [info.(sensorHandle := SetSubHalIndex(info.sensorHandle, subHal))] else before
  }

  /** `accepted` are the sensors of `added` at the positions `at`, with nothing but the handle changed. */
  ghost predicate PackedAt(accepted: seq<SensorInfo>, added: seq<SensorInfo>, subHal: size_t, at: seq<nat>) {
    && Positions(at, |added|) && |accepted| == |at|
    && forall k | 0 <= k < |at| :: accepted[k] == added[at[k]].(sensorHandle := SetSubHalIndex(added[at[k]].sensorHandle, subHal))
  }

  lemma PackOneMore(accepted: seq<SensorInfo>, added: seq<SensorInfo>, info: SensorInfo, subHal: size_t, at: seq<nat>)
    requires PackedAt(accepted, added, subHal, at)
    ensures PackedAt(accepted, added + [info], subHal, at)
    ensures PackedAt(accepted + [info.(sensorHandle := SetSubHalIndex(info.sensorHandle, subHal))], added + [info], subHal, at + [|added|])
  {
    OneMorePosition(at, |added|);
    assert forall k | 0 <= k < |at| :: (added + [info])[at[k]] == added[at[k]];
  }

  /** The accepted sensors are the offered ones with a clear handle, one for each and in order, with nothing but the
      handle changed. */
  lemma {:induction false} AcceptedInOrder(added: seq<SensorInfo>, subHal: size_t) returns (at: seq<nat>)
    ensures PackedAt(AcceptedSensors(added, subHal), added, subHal, at)
    ensures forall i: nat | i < |added| :: i in at <==> SubHalIndexIsClear(added[i].sensorHandle)
  {
    if added == [] {
      at := [];
    } else {
      var n := |added| - 1;
      at := AcceptedInOrder(added[..n], subHal);
      assert added[..n] + [added[n]] == added;
      PackOneMore(AcceptedSensors(added[..n], subHal), added[..n], added[n], subHal, at);
      OneMorePosition(at, n);
      assert forall i: nat | i < n :: added[..n][i] == added[i];
      if SubHalIndexIsClear(added[n].sensorHandle) {
        at := at + [n];
      }
    }
  }

  /** A call reports each accepted sensor, known before or not, and nothing else. */
  lemma {:induction false} ConnectReports(d: Dynamic, added: seq<SensorInfo>, subHal: size_t)
    ensures var reports, accepted := Connect(d, added, subHal).reports, AcceptedSensors(added, subHal);
            && |reports| == |d.reports| + |accepted| && reports[..|d.reports|] == d.reports
            && forall k | 0 <= k < |accepted| :: reports[|d.reports| + k] == Added(accepted[k].sensorHandle)
  {
    if added != [] {
      ConnectReports(d, added[..|added| - 1], subHal);
    }
  }

  /** A handle of a disconnecting call that is reported: clear, present, and not mentioned before in the call. */
  predicate IsRemovedAt(d: Dynamic, removed: seq<int32>, subHal: size_t, i: nat)
    requires i < |removed|
  {
    && SubHalIndexIsClear(removed[i]) && SetSubHalIndex(removed[i], subHal) in d.sensors
    && forall j | 0 <= j < i :: removed[j] != removed[i]
  }

  lemma StillPresent(d: Dynamic, removed: seq<int32>, subHal: size_t)
    requires DynamicInv(d) && subHal < 128 && removed != []
    ensures var n := |removed| - 1;
            SubHalIndexIsClear(removed[n]) ==>
              (SetSubHalIndex(removed[n], subHal) in Disconnect(d, removed[..n], subHal).sensors
               <==> IsRemovedAt(d, removed, subHal, n))
  {
    var n := |removed| - 1;
    DisconnectIsIsolated(d, removed[..n], subHal);
    forall j | 0 <= j < n && SubHalIndexIsClear(removed[j]) && SubHalIndexIsClear(removed[n])
      ensures SetSubHalIndex(removed[j], subHal) == SetSubHalIndex(removed[n], subHal) <==> removed[j] == removed[n]
    {
      if SetSubHalIndex(removed[j], subHal) == SetSubHalIndex(removed[n], subHal) {
        PackingIsInjective(removed[j], subHal, removed[n], subHal);
      }
    }
    assert forall j | 0 <= j < n :: removed[..n][j] == removed[j];
  }

  /** A disconnecting call reports each handle removed once, in the order of the call, and nothing else. */
  lemma {:induction false} DisconnectReports(d: Dynamic, removed: seq<int32>, subHal: size_t) returns (at: seq<nat>)
    requires DynamicInv(d) && subHal < 128
    ensures Positions(at, |removed|) && forall i: nat | i < |removed| :: i in at <==> IsRemovedAt(d, removed, subHal, i)
    ensures var reports := Disconnect(d, removed, subHal).reports;
            && |reports| == |d.reports| + |at| && reports[..|d.reports|] == d.reports
            && forall k | 0 <= k < |at| :: reports[|d.reports| + k] == Removed(SetSubHalIndex(removed[at[k]], subHal))
  {
    if removed == [] {
      at := [];
    } else {
      var n := |removed| - 1;
      at := DisconnectReports(d, removed[..n], subHal);
      OneMorePosition(at, n);
      StillPresent(d, removed, subHal);
      forall i: nat | i < n
        ensures IsRemovedAt(d, removed[..n], subHal, i) <==> IsRemovedAt(d, removed, subHal, i)
      {
        assert forall j | 0 <= j <= i :: removed[..n][j] == removed[j];
      }
      if IsRemovedAt(d, removed, subHal, n) {
        at := at + [n];
      }
    }
  }

  datatype Callback = Connected(added: seq<SensorInfo>, subHal: size_t) | Disconnected(removed: seq<int32>, subHal: size_t)

  function RunCallbacks(d: Dynamic, calls: seq<Callback>): Dynamic
    decreases |calls|
  {
    if calls == [] then d
    else
      match calls[0]
      case Connected(added, s) => RunCallbacks(Connect(d, added, s), calls[1..])
      case Disconnected(removed, s) => RunCallbacks(Disconnect(d, removed, s), calls[1..])
  }

  lemma {:induction false} CallbacksKeepDynamicInv(d: Dynamic, calls: seq<Callback>, quiet: size_t)
    requires DynamicInv(d) && forall c | c in calls :: c.subHal < 128
    ensures var d' := RunCallbacks(d, calls);
            DynamicInv(d') && ((forall c | c in calls :: c.subHal != quiet) ==> SameEntries(d, d', quiet))
    decreases |calls|
  {
    if calls != [] {
      match calls[0] {
        case Connected(added, s) =>
          ConnectIsIsolated(d, added, s);
          CallbacksKeepDynamicInv(Connect(d, added, s), calls[1..], quiet);
        case Disconnected(removed, s) =>
          DisconnectIsIsolated(d, removed, s);
          CallbacksKeepDynamicInv(Disconnect(d, removed, s), calls[1..], quiet);
      }
    }
  }

  /** The entries of a sub-HAL are the same. */
  ghost predicate SameEntries(d: Dynamic, d': Dynamic, subHal: size_t) {
    forall k: int32 | ExtractSubHalIndex(k) == subHal ::
      (k in d.sensors <==> k in d'.sensors) && (k in d.sensors ==> d.sensors[k] == d'.sensors[k])
  }

  /** From an initialisation on, over every sequence of callbacks: the map's keys are exactly the handles reported
      added and not removed since, nothing is reported removed that is not there, and the entries of a sub-HAL stay
      what they were for as long as it makes no call. */
  lemma DynamicSensorsOverRuns(calls: seq<Callback>, more: seq<Callback>, quiet: size_t)
    requires (forall c | c in calls :: c.subHal < 128) && (forall c | c in more :: c.subHal < 128 && c.subHal != quiet)
    ensures var d := RunCallbacks(NO_DYNAMIC, calls);
            var d' := RunCallbacks(d, more);
            DynamicInv(d) && DynamicInv(d') && SameEntries(d, d', quiet)
  {
    CallbacksKeepDynamicInv(NO_DYNAMIC, calls, quiet);
    CallbacksKeepDynamicInv(RunCallbacks(NO_DYNAMIC, calls), more, quiet);
  }

  // ---- Routing ----

  /** Where a call on a handle goes: to the sub-HAL in its top byte, with the top byte cleared. */
  function Route(handle: int32, subHalCount: size_t): Option<(size_t, int32)> {
    if !IsSubHalIndexValid(handle, subHalCount) then None
    else Some((ExtractSubHalIndex(handle), ClearSubHalIndex(handle)))
  }

  /** The calls that disabling all sensors makes, given the keys of both tables. */
  function Routed(keys: set<int32>, subHalCount: size_t): set<(size_t, int32)> {
    set k | k in keys && IsSubHalIndexValid(k, subHalCount) :: (ExtractSubHalIndex(k), ClearSubHalIndex(k))
  }

  /** The sensors as their sub-HALs know them: sub-HAL index and original handle. */
  ghost function Offered(lists: seq<seq<SensorInfo>>): iset<(size_t, int32)> {
    iset s: size_t, h: int32 | s < |lists| && SubHalIndexIsClear(h)
                               && exists raw | raw in lists[s] :: raw.sensorHandle == h :: (s, h)
  }

  /** With at most 128 sub-HALs, the calls are exactly those on the sub-HAL and original handle of each key. */
  lemma RoutedKeysLeadToOwners(keys: set<int32>, subHalCount: size_t, s: size_t, h: int32)
    requires subHalCount <= 128
    ensures (s, h) in Routed(keys, subHalCount) <==> s < subHalCount && SubHalIndexIsClear(h) && SetSubHalIndex(h, s) in keys
  {
    var calls := Routed(keys, subHalCount);
    if (s, h) in calls {
      var k :| k in keys && IsSubHalIndexValid(k, subHalCount) && (ExtractSubHalIndex(k), ClearSubHalIndex(k)) == (s, h);
      ValidHandlesArePackings(k, subHalCount);
    }
    if s < subHalCount && SubHalIndexIsClear(h) && SetSubHalIndex(h, s) in keys {
      PackThenUnpack(h, s);
      var k := SetSubHalIndex(h, s);
      assert IsSubHalIndexValid(k, subHalCount) && (ExtractSubHalIndex(k), ClearSubHalIndex(k)) == (s, h);
    }
  }

  lemma RegisteredIffOffered(lists: seq<seq<SensorInfo>>, s: size_t, h: int32)
    requires |lists| <= 128 && s < |lists| && SubHalIndexIsClear(h)
    ensures SetSubHalIndex(h, s) in RegisterAll(Entries(lists)).sensors <==> (s, h) in Offered(lists)
  {
    var key := SetSubHalIndex(h, s);
    PackThenUnpack(h, s);
    RegisteredSensors(lists, key);
    if (s, h) in Offered(lists) {
      var raw :| raw in lists[s] && raw.sensorHandle == h;
      var i :| 0 <= i < |lists[s]| && lists[s][i] == raw;
      AcceptedSensorsAreRegistered(lists, s, i);
    }
  }

  /** The calls that disabling all sensors makes when the table was built from `lists`, the handles of the events
      `lookedUp` were looked up in it since, and `dynamic` are the keys of the dynamic sensors. */
  function Disabled(lists: seq<seq<SensorInfo>>, lookedUp: seq<Event>, dynamic: set<int32>): set<(size_t, int32)>
    requires |lists| < SIZE_T_LIMIT
  {
    Routed(WithDefaults(RegisterAll(Entries(lists)).sensors, lookedUp).Keys + dynamic, |lists|)
  }

  /** A sensor of the lists whose handle was accepted, or a dynamic sensor. */
  ghost predicate IsSensor(lists: seq<seq<SensorInfo>>, dynamic: set<int32>, s: size_t, h: int32) {
    (s, h) in Offered(lists) || (s < |lists| && SubHalIndexIsClear(h) && SetSubHalIndex(h, s) in dynamic)
  }

  /** Disabling all sensors reaches the sensors of the lists, the dynamic ones, and whatever the handle of an
      event looked up leads to, each at its own sub-HAL and by its own handle; and nothing else. */
  lemma DisablingReachesOwners(lists: seq<seq<SensorInfo>>, lookedUp: seq<Event>, dynamic: set<int32>, s: size_t, h: int32)
    requires |lists| <= 128
    ensures (s, h) in Disabled(lists, lookedUp, dynamic)
       <==> IsSensor(lists, dynamic, s, h)
            || (s < |lists| && SubHalIndexIsClear(h) && exists e | e in lookedUp :: e.sensorHandle == SetSubHalIndex(h, s))
  {
    RoutedKeysLeadToOwners(WithDefaults(RegisterAll(Entries(lists)).sensors, lookedUp).Keys + dynamic, |lists|, s, h);
    if s < |lists| && SubHalIndexIsClear(h) {
      RegisteredIffOffered(lists, s, h);
    }
  }

  /** The handle of an event looked up is accepted and leads to something that is no sensor. */
  ghost predicate LeadsAstray(lists: seq<seq<SensorInfo>>, dynamic: set<int32>, e: Event)
    requires |lists| < SIZE_T_LIMIT
  {
    IsSubHalIndexValid(e.sensorHandle, |lists|)
    && !IsSensor(lists, dynamic, ExtractSubHalIndex(e.sensorHandle), ClearSubHalIndex(e.sensorHandle))
  }

  lemma AstrayIsReached(lists: seq<seq<SensorInfo>>, lookedUp: seq<Event>, dynamic: set<int32>, e: Event)
    requires |lists| <= 128 && e in lookedUp && LeadsAstray(lists, dynamic, e)
    ensures (ExtractSubHalIndex(e.sensorHandle), ClearSubHalIndex(e.sensorHandle)) in Disabled(lists, lookedUp, dynamic)
  {
    ValidHandlesArePackings(e.sensorHandle, |lists|);
    DisablingReachesOwners(lists, lookedUp, dynamic, ExtractSubHalIndex(e.sensorHandle), ClearSubHalIndex(e.sensorHandle));
  }

  lemma ReachedIsAstray(lists: seq<seq<SensorInfo>>, lookedUp: seq<Event>, dynamic: set<int32>, s: size_t, h: int32) returns (e: Event)
    requires |lists| <= 128 && (s, h) in Disabled(lists, lookedUp, dynamic) && !IsSensor(lists, dynamic, s, h)
    ensures e in lookedUp && LeadsAstray(lists, dynamic, e)
  {
    DisablingReachesOwners(lists, lookedUp, dynamic, s, h);
    e :| e in lookedUp && e.sensorHandle == SetSubHalIndex(h, s);
    PackThenUnpack(h, s);
  }

  /** Disabling reaches nothing but sensors exactly when no event looked up leads astray. */
  lemma DisablingReachesOnlySensors(lists: seq<seq<SensorInfo>>, lookedUp: seq<Event>, dynamic: set<int32>)
    requires |lists| <= 128
    ensures (forall s: size_t, h: int32 | (s, h) in Disabled(lists, lookedUp, dynamic) :: IsSensor(lists, dynamic, s, h))
       <==> (forall e | e in lookedUp :: !LeadsAstray(lists, dynamic, e))
  {
    if e :| e in lookedUp && LeadsAstray(lists, dynamic, e) {
      AstrayIsReached(lists, lookedUp, dynamic, e);
    }
    forall s: size_t, h: int32 | (s, h) in Disabled(lists, lookedUp, dynamic) && !IsSensor(lists, dynamic, s, h)
      ensures exists e | e in lookedUp :: LeadsAstray(lists, dynamic, e)
    {
      var e := ReachedIsAstray(lists, lookedUp, dynamic, s, h);
    }
  }
}
