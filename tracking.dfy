/** The visit recorder of utils/trackingUtils.ts: each tracked visit of a
    short link is appended to that link's visit list, and the link's stats
    record is recomputed from the whole list. */
module Tracking {
  import opened Wrappers
  import opened Storage

  /** The distinct IP addresses of the visits: `new Set(visits.map(v =>
      v.ipAddress))`, built as the Set constructor builds it, one address at a
      time. There are never more of them than visits, and at least one when
      there is a visit. */
  function IpSet(visits: seq<Visit>): (r: set<string>)
    ensures |r| <= |visits|
    ensures visits != [] ==> |r| >= 1
  {
    if visits == [] then {}
    else
      var init := visits[..|visits| - 1];
      var last := visits[|visits| - 1];
      assert visits == init + [last];
      IpSet(init) + {last.ipAddress}
  }

  /** The set built address by address is the set of all visit addresses. */
  lemma {:induction false} AddressSet(visits: seq<Visit>)
    ensures IpSet(visits) == set v | v in visits :: v.ipAddress
  {
    if visits != [] {
      var init := visits[..|visits| - 1];
      var last := visits[|visits| - 1];
      assert visits == init + [last];
      AddressSet(init);
    }
  }

  /** Every visit came from its own address. */
  predicate DistinctAddresses(visits: seq<Visit>)
  {
    forall i, j :: 0 <= i < j < |visits| ==> visits[i].ipAddress != visits[j].ipAddress
  }

  lemma IpSetStep(init: seq<Visit>, last: Visit)
    ensures IpSet(init + [last]) == IpSet(init) + {last.ipAddress}
  {
    assert (init + [last])[..|init|] == init;
  }

  /** Without a shared address, every visit adds a new address. */
  lemma {:induction false} DistinctIpSetFull(visits: seq<Visit>)
    requires DistinctAddresses(visits)
    ensures |IpSet(visits)| == |visits|
  {
    if visits != [] {
      var init := visits[..|visits| - 1];
      var last := visits[|visits| - 1];
      assert visits == init + [last];
      assert DistinctAddresses(init) by {
        forall i, j | 0 <= i < j < |init| ensures init[i].ipAddress != init[j].ipAddress {
          assert init[i] == visits[i] && init[j] == visits[j];
        }
      }
      DistinctIpSetFull(init);
      IpSetStep(init, last);
      forall v | v in init ensures v.ipAddress != last.ipAddress {
        var k :| 0 <= k < |init| && init[k] == v;
        assert init[k] == visits[k];
      }
      AddressSet(init);
      assert last.ipAddress !in IpSet(init);
    }
  }

  /** Two visits from one address leave fewer addresses than visits. */
  lemma {:induction false} SharedIpSetShort(visits: seq<Visit>, i: nat, j: nat)
    requires i < j < |visits| && visits[i].ipAddress == visits[j].ipAddress
    ensures |IpSet(visits)| < |visits|
  {
    var init := visits[..|visits| - 1];
    var last := visits[|visits| - 1];
    assert visits == init + [last];
    IpSetStep(init, last);
    if j < |visits| - 1 {
      assert init[i] == visits[i] && init[j] == visits[j];
      SharedIpSetShort(init, i, j);
    } else {
      assert init[i] == visits[i];
      AddressSet(init);
      assert last.ipAddress in IpSet(init);
    }
  }

  /** There are as many distinct addresses as visits exactly when no two
      visits share an address. */
  lemma IpSetFull(visits: seq<Visit>)
    ensures |IpSet(visits)| == |visits| <==> DistinctAddresses(visits)
  {
    if DistinctAddresses(visits) {
      DistinctIpSetFull(visits);
    } else {
      var i, j :| 0 <= i < j < |visits| && visits[i].ipAddress == visits[j].ipAddress;
      SharedIpSetShort(visits, i, j);
    }
  }

  /** `updateLinkStats`: the stats record recomputed from the visit list. The
      click count is the number of visits, the visitor count the number of
      distinct addresses (never more than the clicks, at least one when there
      are clicks), the last click the timestamp of the LAST visit in the list
      (not the latest one), and the record carries the list itself. */
  function StatsOf(visits: seq<Visit>): (r: LinkStats)
    ensures r.totalClicks == |visits| && r.visits == visits
    ensures r.uniqueVisitors == |set v | v in visits :: v.ipAddress|
    ensures r.uniqueVisitors <= r.totalClicks
    ensures r.totalClicks > 0 ==> r.uniqueVisitors >= 1
    ensures r.lastClicked == if visits == [] then None else Some(visits[|visits| - 1].timestamp)
  {
    AddressSet(visits);
    LinkStats(
      |visits|,
      |IpSet(visits)|,
      if |visits| > 0 then Some(visits[|visits| - 1].timestamp) else None,
      visits)
  }

  /** The timestamps never decrease along the list. */
  predicate Chronological(visits: seq<Visit>)
  {
    forall i, j :: 0 <= i < j < |visits| ==> visits[i].timestamp <= visits[j].timestamp
  }

  /** The last click is the latest one when visits were appended in time
      order; otherwise an earlier visit may be later than the one reported. */
  lemma LastClickedIsLatest(visits: seq<Visit>)
    requires visits != [] && Chronological(visits)
    ensures forall k :: 0 <= k < |visits| ==> visits[k].timestamp <= StatsOf(visits).lastClicked.value
  {
  }

  /** A list whose last visit is not its latest one: the reported last click
      is then earlier than some recorded visit. */
  lemma LastClickedNotMaximum()
    ensures var a := Visit("a", 20, "1.1.1.1", "", None);
            var b := Visit("b", 10, "2.2.2.2", "", None);
            StatsOf([a, b]).lastClicked == Some(10) && a.timestamp > 10
  {
  }

  /** The visit list `saveVisit` starts from: none stored gives `[]`; a stored
      list is used as it is; anything else makes `JSON.parse` or `push` throw,
      read here as `None`. */
  function StoredVisits(items: map<string, Value>, shortId: string): (r: Option<seq<Visit>>)
    ensures Lookup(items, VisitsKey(shortId)) == None ==> r == Some([])
    ensures r.Some? <==> Lookup(items, VisitsKey(shortId)) == None
                         || Lookup(items, VisitsKey(shortId)).value.VisitListValue?
    ensures Lookup(items, VisitsKey(shortId)).Some? && r.Some? ==>
              r.value == Lookup(items, VisitsKey(shortId)).value.visits
  {
    match Lookup(items, VisitsKey(shortId))
    case None => Some([])
    case Some(VisitListValue(vs)) => Some(vs)
    case Some(_) => None
  }

  /** `getLinkStats`: the stored stats record, or zero counts, no last click and
      no visits when none is stored. `None` stands for the exception thrown
      when the stored text does not parse or has no `visits` list. */
  function GetLinkStats(items: map<string, Value>, shortId: string): (r: Option<LinkStats>)
    ensures Lookup(items, StatsKey(shortId)) == None ==> r == Some(LinkStats(0, 0, None, []))
    ensures Lookup(items, StatsKey(shortId)).Some? && Lookup(items, StatsKey(shortId)).value.StatsValue? ==>
              r == Some(Lookup(items, StatsKey(shortId)).value.stats)
    ensures r.None? <==> Lookup(items, StatsKey(shortId)).Some? && !Lookup(items, StatsKey(shortId)).value.StatsValue?
  {
    match Lookup(items, StatsKey(shortId))
    case None => Some(LinkStats(0, 0, None, []))
    case Some(StatsValue(s)) => Some(s)
    case Some(_) => None
  }

  /** The stats stored for a short id agree with its stored visit list. */
  predicate StatsMatchVisits(items: map<string, Value>, shortId: string)
  {
    StoredVisits(items, shortId).Some? &&
    GetLinkStats(items, shortId) == Some(StatsOf(StoredVisits(items, shortId).value))
  }

  datatype TrackingError = UnreadableVisits

  /** Writing the two keys of one short id leaves what every other short id
      reads unchanged. */
  lemma OtherIdsUntouched(items: map<string, Value>, shortId: string, v: Value, w: Value, other: string)
    requires other != shortId
    ensures var after := items[VisitsKey(shortId) := v][StatsKey(shortId) := w];
            StoredVisits(after, other) == StoredVisits(items, other) &&
            GetLinkStats(after, other) == GetLinkStats(items, other)
  {
    LinkKeysDistinct(other, shortId);
    LinkKeysDistinct(shortId, other);
  }

  /** `saveVisit`: append the visit to the stored list and store the list and
      the stats recomputed from it. Afterwards the stats match the visits, the
      click count is the new list length, and no key other than this short
      id's two keys has changed. */
  method SaveVisit(store: LocalStorage, shortId: string, visit: Visit) returns (r: Outcome<TrackingError>)
    modifies store
    ensures r.Pass? <==> old(StoredVisits(store.items, shortId)).Some?
    ensures r.Fail? ==> store.items == old(store.items)
    ensures r.Pass? ==>
      var visits := old(StoredVisits(store.items, shortId)).value + [visit];
      && store.items == old(store.items)
           [VisitsKey(shortId) := VisitListValue(visits)]
           [StatsKey(shortId) := StatsValue(StatsOf(visits))]
      && StoredVisits(store.items, shortId) == Some(visits)
      && StatsMatchVisits(store.items, shortId)
      && GetLinkStats(store.items, shortId).value.totalClicks == |visits|
    ensures forall other :: other != shortId ==>
      StoredVisits(store.items, other) == old(StoredVisits(store.items, other)) &&
      GetLinkStats(store.items, other) == old(GetLinkStats(store.items, other))
  {
    var existing := StoredVisits(store.items, shortId);
    if existing.None? {
      return Fail(UnreadableVisits);
    }
    ghost var before := store.items;
    var visits := existing.value + [visit];
    store.SetItem(VisitsKey(shortId), VisitListValue(visits));
    UpdateLinkStats(store, shortId, visits);
    LinkKeysDistinct(shortId, shortId);
    forall other | other != shortId
      ensures StoredVisits(store.items, other) == StoredVisits(before, other)
      ensures GetLinkStats(store.items, other) == GetLinkStats(before, other)
    {
      OtherIdsUntouched(before, shortId, VisitListValue(visits), StatsValue(StatsOf(visits)), other);
    }
    r := Pass;
  }

  /** `updateLinkStats`: store the stats recomputed from `visits`. */
  method UpdateLinkStats(store: LocalStorage, shortId: string, visits: seq<Visit>)
    modifies store
    ensures store.items == old(store.items)[StatsKey(shortId) := StatsValue(StatsOf(visits))]
  {
    store.SetItem(StatsKey(shortId), StatsValue(StatsOf(visits)));
  }

  /** `trackLinkVisit`: build the visit record from the identifier, clock,
      address and browser data passed in (`document.referrer || null`: an
      empty referrer is stored as none) and save it. */
  method TrackLinkVisit(store: LocalStorage, shortId: string, uuid: string, now: int,
                        ipAddress: string, userAgent: string, documentReferrer: string)
    returns (visit: Visit, r: Outcome<TrackingError>)
    modifies store
    ensures visit == Visit(uuid, now, ipAddress, userAgent,
                           if documentReferrer == "" then None else Some(documentReferrer))
    ensures r.Pass? <==> old(StoredVisits(store.items, shortId)).Some?
    ensures r.Pass? ==> StoredVisits(store.items, shortId) ==
                        Some(old(StoredVisits(store.items, shortId)).value + [visit])
    ensures r.Pass? ==> StatsMatchVisits(store.items, shortId)
    ensures r.Fail? ==> store.items == old(store.items)
  {
    visit := Visit(uuid, now, ipAddress, userAgent,
                   if documentReferrer == "" then None else Some(documentReferrer));
    r := SaveVisit(store, shortId, visit);
  }
}
