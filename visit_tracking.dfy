/**
 * Visit tracking over the browser's local storage: `initializeVisitorTracking`
 * reuses or creates a visitor id, increments the stored visit total, appends a
 * record to the bounded visit log and stores the visit time, and
 * `updateVisitCountDisplay` mirrors the stored total into the visit-count
 * element when that element exists.
 *
 * The four storage entries are kept with their decoded types (a missing entry
 * is `None`); their JSON and decimal string encodings are not modelled.
 */
module VisitTracking {
  import opened Wrappers
  import opened Decimal
  import opened Dom

  /** The visit log never grows past this many records by appending. */
  const MaxVisitRecords: nat := 1000

  datatype VisitRecord = VisitRecord(visitorId: string, timestamp: nat, url: string)

  /**
   * What one page activation takes from outside the model: the clock reading
   * inside a newly generated id, the random part of that id, the clock reading
   * stored as the visit time, and the page's URL.
   */
  datatype Visit = Visit(idClock: nat, randomPart: string, now: nat, url: string)

  /** The four storage entries the tracker uses. */
  datatype Store = Store(
    totalVisits: Option<nat>,
    visitorId: Option<string>,
    visitRecords: Option<seq<VisitRecord>>,
    lastVisit: Option<nat>)

  /** `generateVisitorId`: a fixed prefix, the clock reading and a random suffix. */
  function GenerateVisitorId(clock: nat, randomPart: string): (id: string)
    ensures |id| > 8 && id[..8] == "visitor_"
  {
    "visitor_" + DecimalString(clock) + "_" + randomPart
  }

  /**
   * `getItem('visitorId') || generateVisitorId()`: a stored id is reused
   * unless it is absent or the empty string, which JavaScript treats as false.
   */
  function ChooseVisitorId(stored: Option<string>, generated: string): (id: string)
    ensures stored.Some? && stored.value != "" ==> id == stored.value
    ensures stored.None? || stored.value == "" ==> id == generated
    ensures generated != "" ==> id != ""
  {
    if stored.Some? && stored.value != "" then stored.value else generated
  }

  /** `push` the record, then `shift` one from the front once the log has more than the cap. */
  function AppendBounded(log: seq<VisitRecord>, r: VisitRecord): (out: seq<VisitRecord>)
    ensures |out| > 0 && out[|out| - 1] == r
    ensures |log| <= MaxVisitRecords ==> |out| <= MaxVisitRecords
  {
    var pushed := log + [r];
    if |pushed| > MaxVisitRecords then pushed[1..] else pushed
  }

  /** The last `n` elements of `s`, or all of `s` when it is shorter. */
  function Latest<T>(n: nat, s: seq<T>): (out: seq<T>)
    ensures |out| <= n
  {
    if |s| <= n then s else s[|s| - n..]
  }

  /** The state one call of `initializeVisitorTracking` leaves in storage. */
  function Track(s: Store, v: Visit): (t: Store)
    ensures t.totalVisits.Some? && t.visitorId.Some? && t.visitorId.value != ""
    ensures t.visitRecords.Some? && t.lastVisit == Some(v.now)
    ensures |s.visitRecords.GetOr([])| <= MaxVisitRecords ==> |t.visitRecords.value| <= MaxVisitRecords
  {
    var id := ChooseVisitorId(s.visitorId, GenerateVisitorId(v.idClock, v.randomPart));
    Store(
      Some(s.totalVisits.GetOr(0) + 1),
      Some(id),
      Some(AppendBounded(s.visitRecords.GetOr([]), VisitRecord(id, v.now, v.url))),
      Some(v.now))
  }

  /** Successive page activations, the last one applied last. */
  function TrackAll(s: Store, vs: seq<Visit>): (t: Store)
    ensures vs != [] ==> t.lastVisit == Some(vs[|vs| - 1].now) && t.visitorId.Some? && t.visitorId.value != ""
    ensures |s.visitRecords.GetOr([])| <= MaxVisitRecords ==> |t.visitRecords.GetOr([])| <= MaxVisitRecords
  {
    if vs == [] then s else Track(TrackAll(s, vs[..|vs| - 1]), vs[|vs| - 1])
  }

  /** The records that successive visits of one visitor append. */
  function RecordsFor(id: string, vs: seq<Visit>): (rs: seq<VisitRecord>)
    ensures |rs| == |vs|
  {
    if vs == [] then [] else RecordsFor(id, vs[..|vs| - 1]) + [VisitRecord(id, vs[|vs| - 1].now, vs[|vs| - 1].url)]
  }

  /**
   * The three rules of the bounded log: below the cap the record is simply
   * appended; at the cap the oldest record makes room, so the length stays at
   * the cap and the order of the rest is kept; a log that is already longer
   * than the cap is not trimmed back, it keeps its length.
   */
  lemma LogEviction(log: seq<VisitRecord>, r: VisitRecord)
    ensures |log| < MaxVisitRecords ==> AppendBounded(log, r) == log + [r]
    ensures |log| == MaxVisitRecords ==> AppendBounded(log, r) == log[1..] + [r] && |AppendBounded(log, r)| == MaxVisitRecords
    ensures |log| > MaxVisitRecords ==> AppendBounded(log, r) == log[1..] + [r] && |AppendBounded(log, r)| == |log|
  {
  }

  /** Within the cap, appending keeps exactly the latest records. */
  lemma AppendBoundedIsLatest(log: seq<VisitRecord>, r: VisitRecord)
    requires |log| <= MaxVisitRecords
    ensures AppendBounded(log, r) == Latest(MaxVisitRecords, log + [r])
  {
  }

  /** Taking the latest `n` before appending one more element loses nothing that the latest `n` after it would keep. */
  lemma LatestAppend<T>(n: nat, a: seq<T>, x: T)
    requires n > 0
    ensures Latest(n, Latest(n, a) + [x]) == Latest(n, a + [x])
  {
    if |a| > n {
      var l := a[|a| - n..];
      assert (l + [x])[1..] == (a + [x])[|a| + 1 - n..];
    }
  }

  /** A log of successive appends. */
  function AppendAll(log: seq<VisitRecord>, rs: seq<VisitRecord>): seq<VisitRecord> {
    if rs == [] then log else AppendBounded(AppendAll(log, rs[..|rs| - 1]), rs[|rs| - 1])
  }

  /** However many visits follow, the log holds the latest records, the newest last. */
  lemma {:induction false} AppendAllIsLatest(log: seq<VisitRecord>, rs: seq<VisitRecord>)
    requires |log| <= MaxVisitRecords
    ensures AppendAll(log, rs) == Latest(MaxVisitRecords, log + rs)
    decreases |rs|
  {
    if rs != [] {
      var init, x := rs[..|rs| - 1], rs[|rs| - 1];
      calc {
        AppendAll(log, rs);
        AppendBounded(AppendAll(log, init), x);
        { AppendAllIsLatest(log, init); }
        AppendBounded(Latest(MaxVisitRecords, log + init), x);
        { AppendBoundedIsLatest(Latest(MaxVisitRecords, log + init), x); }
        Latest(MaxVisitRecords, Latest(MaxVisitRecords, log + init) + [x]);
        { LatestAppend(MaxVisitRecords, log + init, x); }
        Latest(MaxVisitRecords, log + init + [x]);
        { assert log + init + [x] == log + rs by { assert rs == init + [x]; } }
        Latest(MaxVisitRecords, log + rs);
      }
    }
  }

  /**
   * One activation: the total is the stored total plus one (one when none was
   * stored), the visitor id is the stored one when it is present and non-empty
   * and a freshly generated one otherwise, the new record carries that id and
   * is last in the log, and the visit time is stored.
   */
  lemma TrackStep(s: Store, v: Visit)
    ensures var t := Track(s, v);
      && t.totalVisits == Some(if s.totalVisits.Some? then s.totalVisits.value + 1 else 1)
      && (s.visitorId.Some? && s.visitorId.value != "" ==> t.visitorId == s.visitorId)
      && (s.visitorId.None? || s.visitorId.value == "" ==> t.visitorId == Some(GenerateVisitorId(v.idClock, v.randomPart)))
      && t.visitRecords.Some? && |t.visitRecords.value| > 0
      && t.visitRecords.value[|t.visitRecords.value| - 1] == VisitRecord(t.visitorId.value, v.now, v.url)
      && t.lastVisit == Some(v.now)
  {
  }

  /** After one activation the stored id is non-empty, so every later activation keeps it. */
  lemma VisitorIdSticks(s: Store, v: Visit, w: Visit)
    ensures Track(s, v).visitorId.Some? && Track(s, v).visitorId.value != ""
    ensures Track(Track(s, v), w).visitorId == Track(s, v).visitorId
  {
    assert GenerateVisitorId(v.idClock, v.randomPart)[0] == 'v';
  }

  /** After `k` activations the stored total has grown by exactly `k`. */
  lemma {:induction false} TrackAllTotal(s: Store, vs: seq<Visit>)
    ensures TrackAll(s, vs).totalVisits.GetOr(0) == s.totalVisits.GetOr(0) + |vs|
    decreases |vs|
  {
    if vs != [] {
      TrackAllTotal(s, vs[..|vs| - 1]);
    }
  }

  /**
   * A visitor already known keeps their id through any number of activations,
   * and the log ends up holding the latest records, each with that id, in
   * visit order.
   */
  lemma {:induction false} TrackAllKnownVisitor(s: Store, id: string, vs: seq<Visit>)
    requires s.visitorId == Some(id) && id != ""
    requires |s.visitRecords.GetOr([])| <= MaxVisitRecords
    ensures TrackAll(s, vs).visitorId == Some(id)
    ensures TrackAll(s, vs).visitRecords.GetOr([]) == AppendAll(s.visitRecords.GetOr([]), RecordsFor(id, vs))
    ensures TrackAll(s, vs).visitRecords.GetOr([]) == Latest(MaxVisitRecords, s.visitRecords.GetOr([]) + RecordsFor(id, vs))
    decreases |vs|
  {
    var log := s.visitRecords.GetOr([]);
    if vs != [] {
      var init := vs[..|vs| - 1];
      TrackAllKnownVisitor(s, id, init);
      assert RecordsFor(id, vs)[..|vs| - 1] == RecordsFor(id, init);
    }
    AppendAllIsLatest(log, RecordsFor(id, vs));
  }

  /** The browser's local storage, restricted to the tracker's four entries. */
  class Storage {
    var totalVisits: Option<nat>
    var visitorId: Option<string>
    var visitRecords: Option<seq<VisitRecord>>
    var lastVisit: Option<nat>

    /** Empty storage, as on a first visit. */
    constructor ()
      ensures Snapshot() == Store(None, None, None, None)
    {
      totalVisits, visitorId, visitRecords, lastVisit := None, None, None, None;
    }

    function Snapshot(): Store
      reads this
    {
      Store(totalVisits, visitorId, visitRecords, lastVisit)
    }
  }

  /**
   * `updateVisitCountDisplay`: when the element exists its text becomes the
   * stored total (zero when none is stored); storage is only read.
   */
  method UpdateVisitCountDisplay(storage: Storage, visitCount: Element?)
    modifies visitCount
    ensures visitCount != null ==> visitCount.text == DecimalString(storage.totalVisits.GetOr(0))
    ensures visitCount != null ==>
      && visitCount.classes == old(visitCount.classes) && visitCount.complete == old(visitCount.complete)
      && visitCount.opacity == old(visitCount.opacity) && visitCount.transform == old(visitCount.transform)
  {
    var totalVisits := storage.totalVisits.GetOr(0);
    if visitCount != null {
      visitCount.text := DecimalString(totalVisits);
    }
  }

  /**
   * `initializeVisitorTracking`: storage moves to `Track` of its old state,
   * and the visit-count element, if present, shows the new total, which reads
   * back as that number.
   */
  method InitializeVisitorTracking(storage: Storage, visitCount: Element?, v: Visit)
    modifies storage, visitCount
    ensures storage.Snapshot() == Track(old(storage.Snapshot()), v)
    ensures visitCount != null ==>
      && visitCount.text == DecimalString(storage.totalVisits.value)
      && DecimalValue(visitCount.text) == storage.totalVisits.value
    ensures visitCount != null ==>
      && visitCount.classes == old(visitCount.classes) && visitCount.complete == old(visitCount.complete)
      && visitCount.opacity == old(visitCount.opacity) && visitCount.transform == old(visitCount.transform)
  {
    var visitorId: string;
    var storedId := storage.visitorId.GetOr("");
    if storedId != "" {
      visitorId := storedId;
    } else {
      visitorId := GenerateVisitorId(v.idClock, v.randomPart);
    }
    storage.visitorId := Some(visitorId);

    var visitRecords := storage.visitRecords.GetOr([]);
    var now := v.now;
    var currentUrl := v.url;

    var totalVisits := storage.totalVisits.GetOr(0) + 1;
    storage.totalVisits := Some(totalVisits);

    visitRecords := visitRecords + [VisitRecord(visitorId, now, currentUrl)];
    if |visitRecords| > MaxVisitRecords {
      visitRecords := visitRecords[1..];
    }

    storage.visitRecords := Some(visitRecords);
    storage.lastVisit := Some(now);

    UpdateVisitCountDisplay(storage, visitCount);
    DecimalRoundTrip(totalVisits);
  }
}
