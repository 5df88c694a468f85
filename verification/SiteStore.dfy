/** The site and zone store of internal/site/store.go: two maps, two files. Each mutex section
    is one operation; the clock and the failures of system calls are parameters. */
module SiteStore {
  import opened Common
  import opened JsonStore

  type Labels = Option<map<string, string>>

  datatype Probe = Probe(url: string, verb: string, jsonPath: string, wanted: string)

  datatype Site = Site(id: string, name: string, active: bool, lat: Option<real>, lon: Option<real>,
                       labels: Labels, routing: Labels, createdAt: int, updatedAt: int)

  datatype Zone = Zone(id: string, siteId: string, name: string, code: string, active: bool,
                       labels: Labels, telemetry: Option<Probe>, createdAt: int, updatedAt: int)

  datatype Error = NotFound | Invalid | SiteMissing | WriteFailed

  datatype Result<+T> = Ok(value: T) | Err(error: Error)

  function SiteId(s: Site): string { s.id }
  function ZoneId(z: Zone): string { z.id }

  // ---- what a file keeps of a record ---------------------------------------------------

  /** Empty maps are omitted from the file and read back as nil. */
  function OmitEmpty(l: Labels): Labels { if l == Some(map[]) then None else l }

  function StoredSite(s: Site): Site { s.(labels := OmitEmpty(s.labels), routing := OmitEmpty(s.routing)) }
  function StoredZone(z: Zone): Zone { z.(labels := OmitEmpty(z.labels)) }

  function StoredSites(m: map<string, Site>): map<string, Site> { StoredMap(m, StoredSite) }
  function StoredZones(m: map<string, Zone>): map<string, Zone> { StoredMap(m, StoredZone) }

  // ---- integrity -----------------------------------------------------------------------

  /** Every zone's site exists. */
  ghost predicate Refers(sites: map<string, Site>, zones: map<string, Zone>) {
    forall k :: k in zones ==> zones[k].siteId in sites
  }

  /** The two files as a process that dies now leaves them. */
  datatype Crash = Crash(sites: Disk<Site>, zones: Disk<Zone>)

  function OpenedSites(c: Crash): map<string, Site> { Rebuild(LoadSlice(c.sites), SiteId) }
  function OpenedZones(c: Crash): map<string, Zone> { Rebuild(LoadSlice(c.zones), ZoneId) }

  ghost predicate Intact(c: Crash) { Refers(OpenedSites(c), OpenedZones(c)) }

  /** A file holds exactly the map, but for nil and empty label or routing maps. */
  ghost predicate SitesHeld(d: Disk<Site>, sites: map<string, Site>) {
    StoredSites(Rebuild(LoadSlice(d), SiteId)) == StoredSites(sites)
  }

  ghost predicate ZonesHeld(d: Disk<Zone>, zones: map<string, Zone>) {
    StoredZones(Rebuild(LoadSlice(d), ZoneId)) == StoredZones(zones)
  }

  ghost predicate Synced(c: Crash, sites: map<string, Site>, zones: map<string, Zone>) {
    SitesHeld(c.sites, sites) && ZonesHeld(c.zones, zones)
  }

  /** Only the files' targets matter to a restart. */
  lemma IntactByKeys(c: Crash, sites: map<string, Site>, zones: map<string, Zone>)
    requires Synced(c, sites, zones)
    ensures Intact(c) <==> Refers(sites, zones)
  {
    assert StoredSites(OpenedSites(c)).Keys == OpenedSites(c).Keys && StoredSites(sites).Keys == sites.Keys;
    assert StoredZones(OpenedZones(c)).Keys == OpenedZones(c).Keys && StoredZones(zones).Keys == zones.Keys;
    forall k | k in zones
      ensures OpenedZones(c)[k].siteId == zones[k].siteId
    {
      assert StoredZones(OpenedZones(c))[k] == StoredZones(zones)[k];
    }
  }

  // ---- the log of all moments ----------------------------------------------------------

  /** One system call on one of the two files. */
  ghost predicate OneCallApart(c: Crash, d: Crash) {
    (c.zones == d.zones && OneCall(c.sites, d.sites)) || (c.sites == d.sites && OneCall(c.zones, d.zones))
  }

  /** The log reaches `now` from its first entry one system call at a time, so that every
      moment at which the process can die is in it. */
  ghost predicate Complete(log: seq<Crash>, now: Crash) {
    && log != [] && log[|log| - 1] == now
    && forall i, j :: 0 <= i && j == i + 1 && j < |log| ==> OneCallApart(log[i], log[j])
  }

  ghost function WithZones(trace: seq<Disk<Site>>, zones: Disk<Zone>): (cs: seq<Crash>)
    ensures |cs| == |trace| && forall i :: 0 <= i < |cs| ==> cs[i] == Crash(trace[i], zones)
  {
    seq(|trace|, i requires 0 <= i < |trace| => Crash(trace[i], zones))
  }

  ghost function WithSites(sites: Disk<Site>, trace: seq<Disk<Zone>>): (cs: seq<Crash>)
    ensures |cs| == |trace| && forall i :: 0 <= i < |cs| ==> cs[i] == Crash(sites, trace[i])
  {
    seq(|trace|, i requires 0 <= i < |trace| => Crash(sites, trace[i]))
  }

  lemma SitesLogged(log: seq<Crash>, before: Disk<Site>, trace: seq<Disk<Site>>, after: Disk<Site>, zones: Disk<Zone>)
    requires Complete(log, Crash(before, zones)) && Trace(before, trace, after)
    ensures Complete(log + WithZones(trace[1..], zones), Crash(after, zones))
  {
    var n, more := |log| - 1, log + WithZones(trace[1..], zones);
    forall i, j | 0 <= i && j == i + 1 && j < |more|
      ensures OneCallApart(more[i], more[j])
    {
      if i >= n {
        assert more[i] == Crash(trace[i - n], zones) && more[j] == Crash(trace[j - n], zones);
      }
    }
  }

  lemma ZonesLogged(log: seq<Crash>, sites: Disk<Site>, before: Disk<Zone>, trace: seq<Disk<Zone>>, after: Disk<Zone>)
    requires Complete(log, Crash(sites, before)) && Trace(before, trace, after)
    ensures Complete(log + WithSites(sites, trace[1..]), Crash(sites, after))
  {
    var n, more := |log| - 1, log + WithSites(sites, trace[1..]);
    forall i, j | 0 <= i && j == i + 1 && j < |more|
      ensures OneCallApart(more[i], more[j])
    {
      if i >= n {
        assert more[i] == Crash(sites, trace[i - n]) && more[j] == Crash(sites, trace[j - n]);
      }
    }
  }

  // ---- what survives a crash -----------------------------------------------------------

  /** A version of the two maps. */
  datatype Maps = Maps(sites: map<string, Site>, zones: map<string, Zone>)

  /** The files hold one of the versions, whole and with its integrity. */
  ghost predicate Survives(c: Crash, versions: seq<Maps>) {
    exists v :: v in versions && Synced(c, v.sites, v.zones) && Refers(v.sites, v.zones)
  }

  /** So do the files at every moment of a stretch of the log. */
  ghost predicate AllSurvive(log: seq<Crash>, from: nat, to: nat, versions: seq<Maps>) {
    forall i :: from <= i < to && i < |log| ==> Survives(log[i], versions)
  }

  lemma MoreVersions(log: seq<Crash>, from: nat, to: nat, versions: seq<Maps>, all: seq<Maps>)
    requires AllSurvive(log, from, to, versions) && forall v :: v in versions ==> v in all
    ensures AllSurvive(log, from, to, all)
  {
    forall i | from <= i < to && i < |log|
      ensures Survives(log[i], all)
    {
      assert Survives(log[i], versions);
      var v :| v in versions && Synced(log[i], v.sites, v.zones) && Refers(v.sites, v.zones);
    }
  }

  /** From `from` on only the sites file is touched, and its target turns from one to the other. */
  ghost predicate SitesMove(log: seq<Crash>, from: nat, before: Disk<Site>, after: Disk<Site>, zones: Disk<Zone>) {
    forall i :: from <= i < |log| ==>
      log[i].zones == zones && (log[i].sites.target == before.target || log[i].sites.target == after.target)
  }

  ghost predicate ZonesMove(log: seq<Crash>, from: nat, sites: Disk<Site>, before: Disk<Zone>, after: Disk<Zone>) {
    forall i :: from <= i < |log| ==>
      log[i].sites == sites && (log[i].zones.target == before.target || log[i].zones.target == after.target)
  }

  lemma SitesMoveSurvives(log: seq<Crash>, from: nat, before: Disk<Site>, after: Disk<Site>, zones: Disk<Zone>,
                          was: Maps, held: seq<Maps>, becomes: Maps)
    requires SitesMove(log, from, before, after, zones) && ZonesHeld(zones, was.zones) && was.zones == becomes.zones
    requires SitesHeld(before, was.sites) && (SitesHeld(after, becomes.sites) || after.target == before.target)
    requires was in held && becomes in held && Refers(was.sites, was.zones) && Refers(becomes.sites, becomes.zones)
    ensures AllSurvive(log, from, |log|, held)
  {
    forall i | from <= i < |log|
      ensures Survives(log[i], held)
    {
      assert SitesHeld(log[i].sites, was.sites) || SitesHeld(log[i].sites, becomes.sites);
    }
  }

  lemma ZonesMoveSurvives(log: seq<Crash>, from: nat, sites: Disk<Site>, before: Disk<Zone>, after: Disk<Zone>,
                          was: Maps, held: seq<Maps>, becomes: Maps)
    requires ZonesMove(log, from, sites, before, after) && SitesHeld(sites, was.sites) && was.sites == becomes.sites
    requires ZonesHeld(before, was.zones) && (ZonesHeld(after, becomes.zones) || after.target == before.target)
    requires was in held && becomes in held && Refers(was.sites, was.zones) && Refers(becomes.sites, becomes.zones)
    ensures AllSurvive(log, from, |log|, held)
  {
    forall i | from <= i < |log|
      ensures Survives(log[i], held)
    {
      assert ZonesHeld(log[i].zones, was.zones) || ZonesHeld(log[i].zones, becomes.zones);
    }
  }

  lemma StretchesJoin(front: seq<Crash>, log: seq<Crash>, from: nat, held: seq<Maps>)
    requires from <= |front| && front <= log
    requires AllSurvive(front, from, |front|, held) && AllSurvive(log, |front|, |log|, held)
    ensures AllSurvive(log, from, |log|, held)
  {
    forall i | from <= i < |log|
      ensures Survives(log[i], held)
    {
      if i < |front| {
        assert log[i] == front[i];
      }
    }
  }

  /** Files that hold a version open with its integrity. */
  lemma SurvivorIsIntact(c: Crash, versions: seq<Maps>)
    requires Survives(c, versions)
    ensures Intact(c)
  {
    var v :| v in versions && Synced(c, v.sites, v.zones) && Refers(v.sites, v.zones);
    IntactByKeys(c, v.sites, v.zones);
  }

  class Store {
    var sites: map<string, Site>
    var zones: map<string, Zone>
    var sitesDisk: Disk<Site>
    var zonesDisk: Disk<Zone>
    /** Every state the two files have been in since the store was opened, in order. */
    ghost var crashes: seq<Crash>
    /** Every version of the maps that the files were to hold, in order. */
    ghost var versions: seq<Maps>
    /** Some write has returned an error. */
    ghost var failed: bool
    /** How much of the log is from operations up to and including the first that failed. */
    ghost var vouched: nat

    ghost function Now(): Crash
      reads this
    {
      Crash(sitesDisk, zonesDisk)
    }

    /** In memory the maps are keyed by id and every zone's site exists, come what may, and the
        log is complete; as long as no write has failed the files agree with the maps. A crash
        at any moment up to the end of the first operation that fails leaves a whole version. */
    ghost predicate Valid()
      reads this
    {
      && Keyed(sites, SiteId) && Keyed(zones, ZoneId) && Refers(sites, zones)
      && Complete(crashes, Now()) && Maps(sites, zones) in versions
      && (!failed ==> Synced(Now(), sites, zones) && vouched == |crashes|)
      && vouched <= |crashes| && AllSurvive(crashes, 0, vouched, versions)
    }

    /** Open never checks the files' integrity; it inherits it. */
    constructor (disks: Crash)
      ensures sites == OpenedSites(disks) && zones == OpenedZones(disks)
      ensures Now() == disks && crashes == [disks] && versions == [Maps(sites, zones)] && !failed && vouched == 1
    {
      sites := OpenedSites(disks);
      zones := OpenedZones(disks);
      sitesDisk, zonesDisk := disks.sites, disks.zones;
      crashes, versions := [disks], [Maps(OpenedSites(disks), OpenedZones(disks))];
      failed, vouched := false, 1;
    }

    method PersistSites(fault: Fault) returns (ok: bool)
      requires Keyed(sites, SiteId) && Complete(crashes, Now())
      modifies this`sitesDisk, this`crashes
      ensures ok <==> fault == NoFault
      ensures ok ==> SitesHeld(sitesDisk, sites) && old(crashes) < crashes
      ensures !ok ==> sitesDisk.target == old(sitesDisk.target)
      ensures old(crashes) <= crashes && Complete(crashes, Now())
      ensures SitesMove(crashes, |old(crashes)|, old(sitesDisk), sitesDisk, zonesDisk)
    {
      var after: Disk<Site>;
      ghost var trace: seq<Disk<Site>>;
      var was := sitesDisk;
      StoredTwice(sites, SiteId, StoredSite);
      ok, after, trace := Persist(was, sites, SiteId, StoredSite, fault);
      SitesLogged(crashes, was, trace, after, zonesDisk);
      sitesDisk := after;
      crashes := crashes + WithZones(trace[1..], zonesDisk);
    }

    method PersistZones(fault: Fault) returns (ok: bool)
      requires Keyed(zones, ZoneId) && Complete(crashes, Now())
      modifies this`zonesDisk, this`crashes
      ensures ok <==> fault == NoFault
      ensures ok ==> ZonesHeld(zonesDisk, zones) && old(crashes) < crashes
      ensures !ok ==> zonesDisk.target == old(zonesDisk.target)
      ensures old(crashes) <= crashes && Complete(crashes, Now())
      ensures ZonesMove(crashes, |old(crashes)|, sitesDisk, old(zonesDisk), zonesDisk)
    {
      var after: Disk<Zone>;
      ghost var trace: seq<Disk<Zone>>;
      var was := zonesDisk;
      StoredTwice(zones, ZoneId, StoredZone);
      ok, after, trace := Persist(was, zones, ZoneId, StoredZone, fault);
      ZonesLogged(crashes, sitesDisk, was, trace, after);
      zonesDisk := after;
      crashes := crashes + WithSites(sitesDisk, trace[1..]);
    }

    /** The end of an operation that wrote the versions `added`: since `was` the files have held
        one of `held`. */
    ghost method Commit(was: seq<Crash>, held: seq<Maps>, added: seq<Maps>, ok: bool)
      requires was <= crashes && vouched <= |was| && (!failed ==> vouched == |was|)
      requires AllSurvive(was, 0, vouched, versions)
      requires !failed ==> AllSurvive(crashes, |was|, |crashes|, held)
      requires forall v :: v in held ==> v in versions + added
      modifies this`versions, this`failed, this`vouched
      ensures versions == old(versions) + added && failed == (old(failed) || !ok)
      ensures vouched == if old(failed) then old(vouched) else |crashes|
      ensures AllSurvive(crashes, 0, vouched, versions)
    {
      MoreVersions(was, 0, vouched, versions, versions + added);
      if !failed {
        MoreVersions(crashes, |was|, |crashes|, held, versions + added);
        vouched := |crashes|;
      }
      versions := versions + added;
      failed := failed || !ok;
    }

    // ---- operations --------------------------------------------------------------------

    method PutSite(given: Site, now: int, fault: Fault) returns (r: Result<Site>)
      requires Valid()
      modifies this
      ensures Valid() && zones == old(zones) && zonesDisk == old(zonesDisk)
      ensures old(crashes) <= crashes && failed == (old(failed) || r == Err(WriteFailed))
      ensures vouched == if old(failed) then old(vouched) else |crashes|
      ensures if r.Ok? then SitesHeld(sitesDisk, sites) && old(crashes) < crashes
              else sitesDisk.target == old(sitesDisk.target)
      ensures versions == old(versions) + (if r.Ok? || r.error == WriteFailed then [Maps(sites, zones)] else [])
      ensures !old(failed) ==>
        AllSurvive(crashes, |old(crashes)|, |crashes|, [Maps(old(sites), old(zones)), Maps(sites, zones)])
      ensures given.id == "" || given.name == "" ==> r == Err(Invalid) && sites == old(sites)
      ensures given.id != "" && given.name != "" ==>
        var it := MergedSite(Find(old(sites), given.id), given, now);
        sites == old(sites)[given.id := it] && r == (if fault == NoFault then Ok(it) else Err(WriteFailed))
    {
      if given.id == "" || given.name == "" {
        return Err(Invalid);
      }
      var it := MergeSite(given, now);
      var ok := ReplaceSites(sites[it.id := it], fault);
      return if ok then Ok(it) else Err(WriteFailed);
    }

    method MergeSite(given: Site, now: int) returns (it: Site)
      ensures it == MergedSite(Find(sites, given.id), given, now)
    {
      it := given;
      if it.id in sites {
        it := it.(createdAt := sites[it.id].createdAt);
      } else {
        it := it.(createdAt := now, active := true);
      }
      if it.labels == None {
        it := it.(labels := Some(map[]));
      }
      if it.routing == None {
        if it.id in sites && sites[it.id].routing != None {
          it := it.(routing := sites[it.id].routing);
        } else {
          it := it.(routing := Some(map[]));
        }
      }
      it := it.(updatedAt := now);
    }

    /** Puts a larger map of sites in memory and writes it out. */
    method ReplaceSites(m: map<string, Site>, fault: Fault) returns (ok: bool)
      requires Valid() && Keyed(m, SiteId) && sites.Keys <= m.Keys
      modifies this
      ensures Valid() && sites == m && zones == old(zones) && zonesDisk == old(zonesDisk)
      ensures old(crashes) <= crashes && ok == (fault == NoFault) && failed == (old(failed) || !ok)
      ensures vouched == if old(failed) then old(vouched) else |crashes|
      ensures if ok then SitesHeld(sitesDisk, sites) && old(crashes) < crashes
              else sitesDisk.target == old(sitesDisk.target)
      ensures versions == old(versions) + [Maps(sites, zones)]
      ensures !old(failed) ==>
        AllSurvive(crashes, |old(crashes)|, |crashes|, [Maps(old(sites), old(zones)), Maps(sites, zones)])
    {
      ghost var was, log, before := Maps(sites, zones), crashes, sitesDisk;
      ghost var held := [was, Maps(m, zones)];
      sites := m;
      ok := PersistSites(fault);
      if !failed {
        SitesMoveSurvives(crashes, |log|, before, sitesDisk, zonesDisk, was, held, Maps(m, zones));
      }
      Commit(log, held, [Maps(m, zones)], ok);
    }

    /** Puts a map of zones, whose sites all exist, in memory and writes it out. */
    method ReplaceZones(m: map<string, Zone>, fault: Fault) returns (ok: bool)
      requires Valid() && Keyed(m, ZoneId) && Refers(sites, m)
      modifies this
      ensures Valid() && zones == m && sites == old(sites) && sitesDisk == old(sitesDisk)
      ensures old(crashes) <= crashes && ok == (fault == NoFault) && failed == (old(failed) || !ok)
      ensures vouched == if old(failed) then old(vouched) else |crashes|
      ensures if ok then ZonesHeld(zonesDisk, zones) && old(crashes) < crashes
              else zonesDisk.target == old(zonesDisk.target)
      ensures versions == old(versions) + [Maps(sites, zones)]
      ensures !old(failed) ==>
        AllSurvive(crashes, |old(crashes)|, |crashes|, [Maps(old(sites), old(zones)), Maps(sites, zones)])
    {
      ghost var was, log, before := Maps(sites, zones), crashes, zonesDisk;
      ghost var held := [was, Maps(sites, m)];
      zones := m;
      ok := PersistZones(fault);
      if !failed {
        ZonesMoveSurvives(crashes, |log|, sitesDisk, before, zonesDisk, was, held, Maps(sites, m));
      }
      Commit(log, held, [Maps(sites, m)], ok);
    }

    /** Deleting a site deletes its zones; the zones are written first, so in between the files
        hold the site without its zones. */
    method DeleteSite(id: string, zonesFault: Fault, sitesFault: Fault) returns (r: Result<()>)
      requires Valid()
      modifies this
      ensures Valid() && old(crashes) <= crashes && failed == (old(failed) || r == Err(WriteFailed))
      ensures vouched == if old(failed) then old(vouched) else |crashes|
      ensures r.Ok? ==> Synced(Now(), sites, zones) && old(crashes) < crashes
      ensures id !in old(sites) ==>
        r == Err(NotFound) && sites == old(sites) && zones == old(zones) && versions == old(versions)
      ensures id in old(sites) ==>
        && sites == old(sites) - {id}
        && (forall k :: k in zones <==> k in old(zones) && old(zones)[k].siteId != id)
        && (forall k :: k in zones ==> zones[k] == old(zones)[k])
        && r == (if zonesFault == NoFault && sitesFault == NoFault then Ok(()) else Err(WriteFailed))
        && versions == old(versions) + [Maps(old(sites), zones), Maps(sites, zones)]
        && Crash(old(sitesDisk), zonesDisk) in crashes[|old(crashes)| - 1..]
      ensures !old(failed) ==> AllSurvive(crashes, |old(crashes)|, |crashes|,
        [Maps(old(sites), old(zones)), Maps(old(sites), zones), Maps(sites, zones)])
    {
      if id !in sites {
        return Err(NotFound);
      }
      ghost var log, was := crashes, Maps(sites, zones);
      DropZonesOf(id);
      sites := sites - {id};
      ghost var without, gone := Maps(was.sites, zones), Maps(sites, zones);
      var ok := PersistBoth(zonesFault, sitesFault, was, !failed);
      Commit(log, [was, without, gone], [without, gone], ok);
      return if ok then Ok(()) else Err(WriteFailed);
    }

    /** Writes both files, the zones first. If the files held the version `was`, they then hold
        it, its sites with the new zones, or both new maps. */
    method PersistBoth(zonesFault: Fault, sitesFault: Fault, ghost was: Maps, ghost held: bool) returns (ok: bool)
      requires Keyed(sites, SiteId) && Keyed(zones, ZoneId) && Complete(crashes, Now())
      requires Refers(was.sites, was.zones) && Refers(was.sites, zones) && Refers(sites, zones)
      requires held ==> Synced(Now(), was.sites, was.zones)
      modifies this`sitesDisk, this`zonesDisk, this`crashes
      ensures ok <==> zonesFault == NoFault && sitesFault == NoFault
      ensures ok ==> Synced(Now(), sites, zones) && old(crashes) < crashes
      ensures old(crashes) <= crashes && Complete(crashes, Now())
      ensures Crash(old(sitesDisk), zonesDisk) in crashes[|old(crashes)| - 1..]
      ensures held ==>
        AllSurvive(crashes, |old(crashes)|, |crashes|, [was, Maps(was.sites, zones), Maps(sites, zones)])
    {
      ghost var before, log := Now(), crashes;
      ghost var without, gone := Maps(was.sites, zones), Maps(sites, zones);
      ok := PersistZones(zonesFault);
      ghost var halfway, between := crashes, Now();
      if held {
        ZonesMoveSurvives(crashes, |log|, sitesDisk, before.zones, zonesDisk, was, [was, without, gone], without);
      }
      if ok {
        ok := PersistSites(sitesFault);
        if held {
          SitesMoveSurvives(crashes, |halfway|, between.sites, sitesDisk, zonesDisk,
                            without, [was, without, gone], gone);
          StretchesJoin(halfway, crashes, |log|, [was, without, gone]);
        }
      }
      assert crashes[|log| - 1..][|halfway| - |log|] == between;
    }

    method DropZonesOf(id: string)
      modifies this`zones
      ensures zones == WithoutSite(old(zones), id)
    {
      var all := zones;
      var pending := zones.Keys;
      while pending != {}
        invariant pending <= all.Keys
        invariant zones.Keys <= all.Keys && forall k :: k in zones ==> zones[k] == all[k]
        invariant forall k :: k in all ==> (k in zones <==> k in pending || all[k].siteId != id)
        decreases pending
      {
        var k :| k in pending;
        if zones[k].siteId == id {
          zones := zones - {k};
        }
        pending := pending - {k};
      }
    }

    method SetRouting(siteId: string, routing: Labels, now: int, fault: Fault) returns (r: Result<Site>)
      requires Valid()
      modifies this
      ensures Valid() && zones == old(zones) && zonesDisk == old(zonesDisk)
      ensures old(crashes) <= crashes && failed == (old(failed) || r == Err(WriteFailed))
      ensures vouched == if old(failed) then old(vouched) else |crashes|
      ensures if r.Ok? then SitesHeld(sitesDisk, sites) && old(crashes) < crashes
              else sitesDisk.target == old(sitesDisk.target)
      ensures versions == old(versions) + (if r.Ok? || r.error == WriteFailed then [Maps(sites, zones)] else [])
      ensures !old(failed) ==>
        AllSurvive(crashes, |old(crashes)|, |crashes|, [Maps(old(sites), old(zones)), Maps(sites, zones)])
      ensures siteId !in old(sites) ==> r == Err(NotFound) && sites == old(sites)
      ensures siteId in old(sites) ==>
        var it := RoutedSite(old(sites)[siteId], routing, now);
        sites == old(sites)[siteId := it] && r == (if fault == NoFault then Ok(it) else Err(WriteFailed))
    {
      if siteId !in sites {
        return Err(NotFound);
      }
      var it := sites[siteId];
      it := it.(routing := if routing == None then Some(map[]) else routing);
      it := it.(updatedAt := now);
      var ok := ReplaceSites(sites[siteId := it], fault);
      return if ok then Ok(it) else Err(WriteFailed);
    }

    method PutZone(given: Zone, now: int, fault: Fault) returns (r: Result<Zone>)
      requires Valid()
      modifies this
      ensures Valid() && sites == old(sites) && sitesDisk == old(sitesDisk)
      ensures old(crashes) <= crashes && failed == (old(failed) || r == Err(WriteFailed))
      ensures vouched == if old(failed) then old(vouched) else |crashes|
      ensures if r.Ok? then ZonesHeld(zonesDisk, zones) && old(crashes) < crashes
              else zonesDisk.target == old(zonesDisk.target)
      ensures versions == old(versions) + (if r.Ok? || r.error == WriteFailed then [Maps(sites, zones)] else [])
      ensures !old(failed) ==>
        AllSurvive(crashes, |old(crashes)|, |crashes|, [Maps(old(sites), old(zones)), Maps(sites, zones)])
      ensures given.id == "" || given.siteId == "" || given.name == "" ==> r == Err(Invalid) && zones == old(zones)
      ensures given.id != "" && given.siteId != "" && given.name != "" && given.siteId !in old(sites) ==>
        r == Err(SiteMissing) && zones == old(zones)
      ensures given.id != "" && given.siteId != "" && given.name != "" && given.siteId in old(sites) ==>
        var it := MergedZone(Find(old(zones), given.id), given, now);
        zones == old(zones)[given.id := it] && r == (if fault == NoFault then Ok(it) else Err(WriteFailed))
    {
      if given.id == "" || given.siteId == "" || given.name == "" {
        return Err(Invalid);
      }
      if given.siteId !in sites {
        return Err(SiteMissing);
      }
      var it := MergeZone(given, now);
      var ok := ReplaceZones(zones[it.id := it], fault);
      return if ok then Ok(it) else Err(WriteFailed);
    }

    method MergeZone(given: Zone, now: int) returns (it: Zone)
      ensures it == MergedZone(Find(zones, given.id), given, now)
    {
      it := given;
      if it.code == "" {
        it := it.(code := it.name);
      }
      if it.id in zones {
        it := it.(createdAt := zones[it.id].createdAt);
        if it.telemetry == None {
          it := it.(telemetry := zones[it.id].telemetry);
        }
      } else {
        it := it.(createdAt := now, active := true);
      }
      if it.labels == None {
        it := it.(labels := Some(map[]));
      }
      it := it.(updatedAt := now);
    }

    method SetTelemetry(zoneId: string, probe: Option<Probe>, now: int, fault: Fault) returns (r: Result<Zone>)
      requires Valid()
      modifies this
      ensures Valid() && sites == old(sites) && sitesDisk == old(sitesDisk)
      ensures old(crashes) <= crashes && failed == (old(failed) || r == Err(WriteFailed))
      ensures vouched == if old(failed) then old(vouched) else |crashes|
      ensures if r.Ok? then ZonesHeld(zonesDisk, zones) && old(crashes) < crashes
              else zonesDisk.target == old(zonesDisk.target)
      ensures versions == old(versions) + (if r.Ok? || r.error == WriteFailed then [Maps(sites, zones)] else [])
      ensures !old(failed) ==>
        AllSurvive(crashes, |old(crashes)|, |crashes|, [Maps(old(sites), old(zones)), Maps(sites, zones)])
      ensures zoneId !in old(zones) ==> r == Err(NotFound) && zones == old(zones)
      ensures zoneId in old(zones) ==>
        var it := ProbedZone(old(zones)[zoneId], probe, now);
        zones == old(zones)[zoneId := it] && r == (if fault == NoFault then Ok(it) else Err(WriteFailed))
    {
      if zoneId !in zones {
        return Err(NotFound);
      }
      var it := zones[zoneId].(telemetry := probe, updatedAt := now);
      var ok := ReplaceZones(zones[zoneId := it], fault);
      return if ok then Ok(it) else Err(WriteFailed);
    }

    method DeleteZone(id: string, fault: Fault) returns (r: Result<()>)
      requires Valid()
      modifies this
      ensures Valid() && sites == old(sites) && sitesDisk == old(sitesDisk)
      ensures old(crashes) <= crashes && failed == (old(failed) || r == Err(WriteFailed))
      ensures vouched == if old(failed) then old(vouched) else |crashes|
      ensures if r.Ok? then ZonesHeld(zonesDisk, zones) && old(crashes) < crashes
              else zonesDisk.target == old(zonesDisk.target)
      ensures versions == old(versions) + (if r.Ok? || r.error == WriteFailed then [Maps(sites, zones)] else [])
      ensures !old(failed) ==>
        AllSurvive(crashes, |old(crashes)|, |crashes|, [Maps(old(sites), old(zones)), Maps(sites, zones)])
      ensures id !in old(zones) ==> r == Err(NotFound) && zones == old(zones)
      ensures id in old(zones) ==>
        zones == old(zones) - {id} && r == (if fault == NoFault then Ok(()) else Err(WriteFailed))
    {
      if id !in zones {
        return Err(NotFound);
      }
      var ok := ReplaceZones(zones - {id}, fault);
      return if ok then Ok(()) else Err(WriteFailed);
    }
  }

  /** The record PutSite stores. */
  function MergedSite(prev: Option<Site>, given: Site, now: int): Site {
    var routing :=
      if given.routing != None then given.routing
      else if prev != None && prev.value.routing != None then prev.value.routing
      else Some(map[]);
    given.(labels := if given.labels == None then Some(map[]) else given.labels, routing := routing,
           active := if prev == None then true else given.active,
           createdAt := if prev == None then now else prev.value.createdAt, updatedAt := now)
  }

  /** The record PutZone stores. */
  function MergedZone(prev: Option<Zone>, given: Zone, now: int): Zone {
    given.(code := if given.code == "" then given.name else given.code,
           labels := if given.labels == None then Some(map[]) else given.labels,
           telemetry := if prev != None && given.telemetry == None then prev.value.telemetry else given.telemetry,
           active := if prev == None then true else given.active,
           createdAt := if prev == None then now else prev.value.createdAt, updatedAt := now)
  }

  /** The record SetRouting stores. */
  function RoutedSite(x: Site, routing: Labels, now: int): Site {
    x.(routing := if routing == None then Some(map[]) else routing, updatedAt := now)
  }

  /** The record SetTelemetry stores. */
  function ProbedZone(x: Zone, probe: Option<Probe>, now: int): Zone { x.(telemetry := probe, updatedAt := now) }

  // ---- the life of one record ----------------------------------------------------------

  /** The accepted operations on the site of one id. */
  datatype SiteOp = PutIt(given: Site, now: int) | RouteIt(routing: Labels, now: int)

  function SiteAfter(prev: Option<Site>, ops: seq<SiteOp>): Option<Site> {
    if ops == [] then prev
    else
      var x := SiteAfter(prev, ops[..|ops| - 1]);
      match ops[|ops| - 1]
      case PutIt(given, now) => Some(MergedSite(x, given, now))
      case RouteIt(routing, now) => if x == None then None else Some(RoutedSite(x.value, routing, now))
  }

  /** A site is created once: through all later operations it keeps that time. */
  lemma {:induction false} SiteIsCreatedOnce(given: Site, now: int, ops: seq<SiteOp>)
    ensures var y := SiteAfter(SiteAfter(None, [PutIt(given, now)]), ops);
      y != None && y.value.createdAt == now
  {
    if ops == [] {
      assert [PutIt(given, now)][..0] == [];
    } else {
      SiteIsCreatedOnce(given, now, ops[..|ops| - 1]);
    }
  }

  lemma {:induction false} SiteKeepsItsCreation(x: Site, ops: seq<SiteOp>)
    ensures SiteAfter(Some(x), ops) != None && SiteAfter(Some(x), ops).value.createdAt == x.createdAt
  {
    if ops != [] {
      SiteKeepsItsCreation(x, ops[..|ops| - 1]);
    }
  }

  /** Routing outlives every put that gives none, whoever set it. */
  lemma {:induction false} RoutingIsKept(x: Site, r: map<string, string>, ops: seq<SiteOp>)
    requires x.routing == Some(r)
    requires forall i :: 0 <= i < |ops| ==> ops[i].PutIt? && ops[i].given.routing == None
    ensures SiteAfter(Some(x), ops) != None && SiteAfter(Some(x), ops).value.routing == Some(r)
  {
    if ops != [] {
      RoutingIsKept(x, r, ops[..|ops| - 1]);
    }
  }

  /** A put, of a new site or an old one, stores every field the request gives and empty maps
      for the labels it omits; a new site is active and without routing unless given. */
  lemma PutStoresTheRequest(x: Option<Site>, given: Site, now: int)
    ensures var y := SiteAfter(x, [PutIt(given, now)]);
      && y != None && y.value.id == given.id && y.value.name == given.name
      && y.value.lat == given.lat && y.value.lon == given.lon && y.value.updatedAt == now
      && (given.labels != None ==> y.value.labels == given.labels)
      && (given.labels == None ==> y.value.labels == Some(map[]))
      && (given.routing != None ==> y.value.routing == given.routing)
      && (x == None ==> y.value.active && (given.routing == None ==> y.value.routing == Some(map[])))
      && (x != None ==> y.value.active == given.active)
  {
    assert [PutIt(given, now)][..0] == [];
  }

  /** SetRouting replaces the routing, by an empty one if none is given, and nothing else. */
  lemma RouteChangesTheRouting(x: Site, routing: Labels, now: int)
    ensures var y := SiteAfter(Some(x), [RouteIt(routing, now)]);
      && y != None && y.value.routing == Some(if routing == None then map[] else routing.value)
      && y.value.updatedAt == now && y.value.(routing := x.routing, updatedAt := x.updatedAt) == x
  {
    assert [RouteIt(routing, now)][..0] == [];
  }

  /** On the store itself: after SetRouting any number of puts that give no routing, succeeding
      or not, leave it and the time of creation. */
  method PutsKeepRouting(s: Store, id: string, r: map<string, string>, puts: seq<Site>, now: int, fault: Fault)
    requires s.Valid() && id in s.sites
    requires forall i :: 0 <= i < |puts| ==> puts[i].id == id && puts[i].routing == None
    modifies s
    ensures s.Valid() && id in s.sites && s.sites[id].routing == Some(r)
    ensures s.sites[id].createdAt == old(s.sites[id].createdAt)
  {
    var _ := s.SetRouting(id, Some(r), now, fault);
    for i := 0 to |puts|
      invariant s.Valid() && id in s.sites && s.sites[id].routing == Some(r)
      invariant s.sites[id].createdAt == old(s.sites[id].createdAt)
    {
      var _ := s.PutSite(puts[i], now, fault);
    }
  }

  /** The accepted operations on the zone of one id. */
  datatype ZoneOp = PutZoneOp(given: Zone, now: int) | ProbeOp(probe: Option<Probe>, now: int)

  function ZoneAfter(prev: Option<Zone>, ops: seq<ZoneOp>): Option<Zone> {
    if ops == [] then prev
    else
      var x := ZoneAfter(prev, ops[..|ops| - 1]);
      match ops[|ops| - 1]
      case PutZoneOp(given, now) => Some(MergedZone(x, given, now))
      case ProbeOp(probe, now) => if x == None then None else Some(ProbedZone(x.value, probe, now))
  }

  lemma {:induction false} ZoneKeepsItsCreation(x: Zone, ops: seq<ZoneOp>)
    ensures ZoneAfter(Some(x), ops) != None && ZoneAfter(Some(x), ops).value.createdAt == x.createdAt
  {
    if ops != [] {
      ZoneKeepsItsCreation(x, ops[..|ops| - 1]);
    }
  }

  /** The probe outlives every put that gives none. */
  lemma {:induction false} TelemetryIsKept(x: Zone, ops: seq<ZoneOp>)
    requires forall i :: 0 <= i < |ops| ==> ops[i].PutZoneOp? && ops[i].given.telemetry == None
    ensures ZoneAfter(Some(x), ops) != None && ZoneAfter(Some(x), ops).value.telemetry == x.telemetry
  {
    if ops != [] {
      TelemetryIsKept(x, ops[..|ops| - 1]);
    }
  }

  /** A put stores every field the request gives, the name for the code it omits and empty maps
      for the labels it omits; a new zone is active and created now. */
  lemma PutStoresTheZone(x: Option<Zone>, given: Zone, now: int)
    ensures var y := ZoneAfter(x, [PutZoneOp(given, now)]);
      && y != None && y.value.id == given.id && y.value.siteId == given.siteId && y.value.name == given.name
      && y.value.updatedAt == now
      && (given.code != "" ==> y.value.code == given.code) && (given.code == "" ==> y.value.code == given.name)
      && (given.labels != None ==> y.value.labels == given.labels)
      && (given.labels == None ==> y.value.labels == Some(map[]))
      && (given.telemetry != None ==> y.value.telemetry == given.telemetry)
      && (x == None ==> y.value.active && y.value.createdAt == now && y.value.telemetry == given.telemetry)
      && (x != None ==> y.value.active == given.active)
  {
    assert [PutZoneOp(given, now)][..0] == [];
  }

  /** SetTelemetry replaces the probe, or removes it, and nothing else. */
  lemma ProbeChangesTheTelemetry(x: Zone, probe: Option<Probe>, now: int)
    ensures var y := ZoneAfter(Some(x), [ProbeOp(probe, now)]);
      && y != None && y.value.telemetry == probe && y.value.updatedAt == now
      && y.value.(telemetry := x.telemetry, updatedAt := x.updatedAt) == x
  {
    assert [ProbeOp(probe, now)][..0] == [];
  }

  /** Putting the same site again only moves updatedAt, except that a first put activates the
      record and a second takes `active` from the request. */
  lemma PutSiteAgain(prev: Option<Site>, given: Site, t1: int, t2: int)
    ensures var once := MergedSite(prev, given, t1);
      MergedSite(Some(once), given, t2) == once.(updatedAt := t2) <==> prev != None || given.active
  {
    var once := MergedSite(prev, given, t1);
    var twice := MergedSite(Some(once), given, t2);
    assert twice == once.(updatedAt := t2, active := given.active);
  }

  /** The same for zones: code, labels and telemetry of the first put are kept. */
  lemma PutZoneAgain(prev: Option<Zone>, given: Zone, t1: int, t2: int)
    ensures var once := MergedZone(prev, given, t1);
      MergedZone(Some(once), given, t2) == once.(updatedAt := t2) <==> prev != None || given.active
  {
    var once := MergedZone(prev, given, t1);
    var twice := MergedZone(Some(once), given, t2);
    assert twice == once.(updatedAt := t2, active := given.active);
  }

  function WithoutSite(zones: map<string, Zone>, id: string): map<string, Zone> {
    map k | k in zones && zones[k].siteId != id :: zones[k]
  }

  // ---- restarts ------------------------------------------------------------------------

  /** Two label or routing maps that a file does not tell apart. */
  predicate SameLabels(l: Labels, k: Labels) {
    l == k || (l in {None, Some(map[])} && k in {None, Some(map[])})
  }

  /** What a file keeps of a record: all of it, but for nil and empty maps. */
  lemma FilesKeepSites(x: Site, y: Site)
    ensures StoredSite(x) == StoredSite(y)
       <==> SameLabels(x.labels, y.labels) && SameLabels(x.routing, y.routing)
            && x.(labels := y.labels, routing := y.routing) == y
  {
    assert StoredSite(x) == StoredSite(y)
      <==> OmitEmpty(x.labels) == OmitEmpty(y.labels) && OmitEmpty(x.routing) == OmitEmpty(y.routing)
           && x.(labels := y.labels, routing := y.routing) == y;
  }

  lemma FilesKeepZones(x: Zone, y: Zone)
    ensures StoredZone(x) == StoredZone(y) <==> SameLabels(x.labels, y.labels) && x.(labels := y.labels) == y
  {
    assert StoredZone(x) == StoredZone(y)
      <==> OmitEmpty(x.labels) == OmitEmpty(y.labels) && x.(labels := y.labels) == y;
  }

  /** Opening files of intact integrity, whether the process ended or crashed, gives a store
      with every invariant. */
  method Reopen(disks: Crash) returns (s: Store)
    requires Intact(disks)
    ensures fresh(s) && s.Valid() && !s.failed
    ensures s.sites == OpenedSites(disks) && s.zones == OpenedZones(disks)
  {
    s := new Store(disks);
    RebuildIsKeyed(LoadSlice(disks.sites), SiteId);
    RebuildIsKeyed(LoadSlice(disks.zones), ZoneId);
  }

  /** A restart after a clean run: every invariant holds and the maps are the ones the process
      left, but for nil and empty label or routing maps. */
  method Restart(s: Store) returns (t: Store)
    requires s.Valid() && !s.failed
    ensures fresh(t) && t.Valid() && !t.failed
    ensures StoredSites(t.sites) == StoredSites(s.sites) && StoredZones(t.zones) == StoredZones(s.zones)
  {
    IntactByKeys(s.Now(), s.sites, s.zones);
    t := Reopen(Crash(s.sitesDisk, s.zonesDisk));
  }

  /** Equal but for nil and empty label or routing maps. */
  ghost predicate SameStored(v: Maps, w: Maps) {
    StoredSites(v.sites) == StoredSites(w.sites) && StoredZones(v.zones) == StoredZones(w.zones)
  }

  /** A restart after a crash at any moment up to the end of the first operation whose write
      fails: every invariant holds, and the maps are a whole version that some operation was to
      write, or the one opened, but for nil and empty label or routing maps. */
  method RestartAfterCrash(s: Store, crash: Crash) returns (t: Store)
    requires s.Valid() && crash in s.crashes[..s.vouched]
    ensures fresh(t) && t.Valid() && !t.failed
    ensures exists v :: v in s.versions && Refers(v.sites, v.zones) && SameStored(Maps(t.sites, t.zones), v)
  {
    ghost var i :| 0 <= i < s.vouched && s.crashes[i] == crash;
    SurvivorIsIntact(crash, s.versions);
    t := Reopen(crash);
  }

  /** Whenever the zones file was written last, failures before or not, the files open with
      their integrity exactly when the sites file has every zone's site. */
  lemma IntactExactlyWhen(c: Crash, zones: map<string, Zone>)
    requires ZonesHeld(c.zones, zones)
    ensures Intact(c) <==> forall k :: k in zones ==> zones[k].siteId in OpenedSites(c)
  {
    assert StoredZones(OpenedZones(c)).Keys == OpenedZones(c).Keys && StoredZones(zones).Keys == zones.Keys;
    forall k | k in zones
      ensures OpenedZones(c)[k].siteId == zones[k].siteId
    {
      assert StoredZones(OpenedZones(c))[k] == StoredZones(zones)[k];
    }
  }

  /** The promise ends with the operation that fails: from any store, a put of a site that is
      not on disk and whose write fails leaves it in memory only, and a zone put in it next is
      on disk without it. */
  method FailedPutOrphansZone(s: Store, site: Site, zone: Zone, now: int, fault: Fault)
    requires s.Valid() && site.id != "" && site.name != "" && site.id !in OpenedSites(s.Now())
    requires zone.id != "" && zone.name != "" && zone.siteId == site.id && fault != NoFault
    modifies s
    ensures s.Valid() && s.failed && !Intact(s.Now())
  {
    var r := s.PutSite(site, now, fault);
    var q := s.PutZone(zone, now, NoFault);
    assert s.zones[zone.id].siteId == site.id;
    IntactExactlyWhen(s.Now(), s.zones);
  }

  /** Why DeleteSite writes the zones first: were the sites written first, a crash in between
      would be harmless exactly when the site had no zones. */
  lemma SitesFirstIsSafeExactlyWhen(c: Crash, sites: map<string, Site>, zones: map<string, Zone>, id: string)
    requires Refers(sites, zones) && Synced(c, sites - {id}, zones)
    ensures Intact(c) <==> forall k :: k in zones ==> zones[k].siteId != id
  {
    IntactByKeys(c, sites - {id}, zones);
  }
}
