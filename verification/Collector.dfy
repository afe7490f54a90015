/** Processing of one poll: raw archive, parsing, presence, change tracking, staging, journal.

    Every effect can fail on its own; the journalled event must stay honest about what is durable. */
module Collector {
  import opened Common
  import opened PartitionState

  datatype Feed = VehiclePositions | TripUpdates | Alerts

  type Date = nat

  /** The digest of the shape, stop and trip-modification entities of a TripUpdates response. */
  datatype Auxiliary = Auxiliary(digest: string)

  type Log = (Feed, Date)

  /** An append that raises may still have put its whole record on disk. */
  datatype AppendFate = Missing | Unreported | Reported

  /** One call of the raw archiver: its clock, the pending logs it manages to repair, and what becomes
      of the append. */
  datatype ArchiveFate = ArchiveFate(now: int, repaired: set<Log>, append: AppendFate)

  datatype StageFate = Staged(trackerCommitted: bool) | RaisedAfterStaging | RaisedBeforeStaging

  /** The health monitor is asked before the event is written; when it raises, nothing more happens. */
  datatype JournalFate = Journalled | RaisedAfterAppend | RaisedBeforeAppend | MonitorRaised

  datatype Parsed = Parsed(rows: seq<Row>, auxiliary: Auxiliary)

  /** A poll that got a payload, with everything that happens while it is processed. `parsed` is None
      when parsing raises, `selected` when the change tracker does; taking the auxiliary digest of a
      parsed TripUpdates response may raise, too, and then nothing more is done. */
  datatype Poll = Poll(feed: Feed, date: Date, payload: string, parsed: Option<Parsed>, digested: bool,
                       presenceWritten: bool,
                       selected: Option<seq<Row>>, staging: StageFate,
                       first: ArchiveFate, forAuxiliary: ArchiveFate, fallback: ArchiveFate, late: ArchiveFate,
                       journal: JournalFate)

  datatype RawRecord = RawRecord(feed: Feed, date: Date, payload: string)

  datatype Segment = Segment(feed: Feed, date: Date, rows: seq<Row>)

  datatype Event = Event(feed: Feed, date: Date, payload: string, parseOk: bool, trackingOk: bool, spoolOk: bool,
                         presenceOk: bool, rawArchived: bool, rawOk: bool, emittedRows: nat)

  /** `lastArchive`, `needsRepair` and `archivedAuxiliary` are memory; the rest is on disk. `torn` are
      the raw logs that may end in part of a record; `rawAuxiliary` is the state in the last TripUpdates
      response on disk that parsed. */
  datatype State = State(
    lastArchive: map<Feed, int>,
    needsRepair: set<Log>,
    archivedAuxiliary: Option<Auxiliary>,
    torn: set<Log>,
    raw: seq<RawRecord>,
    rawAuxiliary: Option<Auxiliary>,
    segments: seq<Segment>,
    journal: seq<Event>)

  const FRESH: State := State(map[], {}, None, {}, [], None, [], [])

  /******* The raw archiver *******/

  function SameFeed(logs: set<Log>, feed: Feed): set<Log> {
    set l | l in logs && l.0 == feed
  }

  predicate Due(intervals: map<Feed, int>, s: State, feed: Feed, now: int, force: bool)
    requires feed in intervals
  {
    force || feed !in s.lastArchive || now - s.lastArchive[feed] >= intervals[feed]
  }

  datatype Archived = Archived(written: bool, ok: bool, state: State)

  /** Pending logs of the feed are repaired first; the one to be appended to must be. */
  function Repaired(s: State, feed: Feed, fate: ArchiveFate): State {
    var repaired := fate.repaired * SameFeed(s.needsRepair, feed);
    s.(needsRepair := s.needsRepair - repaired, torn := s.torn - repaired)
  }

  /** The response is on disk. */
  function OnDisk(s: State, poll: Poll): State {
    s.(raw := s.raw + [RawRecord(poll.feed, poll.date, poll.payload)],
       rawAuxiliary := if poll.feed.TripUpdates? && poll.parsed.Some?
                       then Some(poll.parsed.value.auxiliary) else s.rawAuxiliary)
  }

  function Archive(intervals: map<Feed, int>, s: State, poll: Poll, fate: ArchiveFate, force: bool): Archived
    requires poll.feed in intervals
  {
    if !Due(intervals, s, poll.feed, fate.now, force) then Archived(false, true, s) else
    var log := (poll.feed, poll.date);
    var s1 := Repaired(s, poll.feed, fate);
    if log in s1.needsRepair then Archived(false, false, s1) else
    match fate.append
    case Missing => Archived(false, false, s1.(needsRepair := s1.needsRepair + {log}, torn := s1.torn + {log}))
    case Unreported => Archived(false, false, OnDisk(s1, poll).(needsRepair := s1.needsRepair + {log}))
    case Reported => Archived(true, true, OnDisk(s1, poll).(lastArchive := s1.lastArchive[poll.feed := fate.now]))
  }

  /** The call puts the response on disk, whether it says so or not. */
  predicate Reaches(intervals: map<Feed, int>, s: State, poll: Poll, fate: ArchiveFate, force: bool)
    requires poll.feed in intervals
  {
    && Due(intervals, s, poll.feed, fate.now, force)
    && (poll.feed, poll.date) !in Repaired(s, poll.feed, fate).needsRepair
    && !fate.append.Missing?
  }

  /** An append that is attempted is never behind a tail that may be damaged. */
  lemma AppendsBehindCleanTails(intervals: map<Feed, int>, s: State, poll: Poll, fate: ArchiveFate, force: bool)
    requires poll.feed in intervals && s.torn <= s.needsRepair
    ensures var a := Archive(intervals, s, poll, fate, force);
            && a.state.torn <= a.state.needsRepair
            && (a.state.raw != s.raw ==> (poll.feed, poll.date) !in s.torn || (poll.feed, poll.date) in fate.repaired)
            && (a.state.raw != s.raw ==> (poll.feed, poll.date) !in a.state.torn)
            && (!a.ok ==> (poll.feed, poll.date) in a.state.needsRepair)
  {
  }

  /******* One poll *******/

  /** The archive calls before the journal: when due, when the auxiliary state changed, and as the
      fallback when something else failed. */
  datatype Progress = Progress(rawArchived: bool, rawOk: bool, state: State)

  predicate AuxiliaryChanged(s: State, poll: Poll) {
    poll.feed.TripUpdates? && poll.parsed.Some? && Some(poll.parsed.value.auxiliary) != s.archivedAuxiliary
  }

  function ArchivedEarly(intervals: map<Feed, int>, s: State, poll: Poll): Progress
    requires poll.feed in intervals
  {
    var a := Archive(intervals, s, poll, poll.first, false);
    if AuxiliaryChanged(s, poll) && !a.written then
      var b := Archive(intervals, a.state, poll, poll.forAuxiliary, true);
      Progress(b.written, b.ok, b.state)
    else Progress(a.written, a.ok, a.state)
  }

  predicate PresenceOk(poll: Poll) {
    poll.feed.TripUpdates? ==> poll.parsed.Some? && poll.presenceWritten
  }

  /** Vehicle positions have no change tracker. */
  function Emitted(poll: Poll): Option<seq<Row>> {
    if poll.parsed.None? then None
    else if poll.feed.VehiclePositions? then Some(poll.parsed.value.rows)
    else poll.selected
  }

  predicate TrackingOk(poll: Poll) {
    poll.parsed.Some? ==> Emitted(poll).Some?
  }

  predicate SpoolOk(poll: Poll) {
    Emitted(poll).Some? ==> poll.staging.Staged? && (poll.feed.VehiclePositions? || poll.staging.trackerCommitted)
  }

  function StagedBy(poll: Poll): seq<Segment> {
    if Emitted(poll).Some? && Emitted(poll).value != [] && !poll.staging.RaisedBeforeStaging?
    then [Segment(poll.feed, poll.date, Emitted(poll).value)]
    else []
  }

  predicate ProcessedOk(poll: Poll) {
    poll.parsed.Some? && TrackingOk(poll) && SpoolOk(poll) && PresenceOk(poll)
  }

  function WithFallback(intervals: map<Feed, int>, p: Progress, poll: Poll): Progress
    requires poll.feed in intervals
  {
    if !ProcessedOk(poll) && !p.rawArchived then
      var a := Archive(intervals, p.state, poll, poll.fallback, true);
      Progress(a.written, a.ok, a.state)
    else p
  }

  function WithSignature(p: Progress, poll: Poll): Progress {
    if poll.feed.TripUpdates? && poll.parsed.Some? && p.rawArchived && p.rawOk
    then p.(state := p.state.(archivedAuxiliary := Some(poll.parsed.value.auxiliary)))
    else p
  }

  /** Everything up to the journal. */
  function BeforeJournal(intervals: map<Feed, int>, s: State, poll: Poll): Progress
    requires poll.feed in intervals
  {
    var early := ArchivedEarly(intervals, s, poll);
    var staged := early.(state := early.state.(segments := early.state.segments + StagedBy(poll)));
    WithSignature(WithFallback(intervals, staged, poll), poll)
  }

  function EventOf(poll: Poll, p: Progress): Event {
    Event(poll.feed, poll.date, poll.payload, poll.parsed.Some?, TrackingOk(poll), SpoolOk(poll), PresenceOk(poll),
          p.rawArchived, p.rawOk,
          if poll.parsed.Some? && TrackingOk(poll) && SpoolOk(poll) then |Emitted(poll).value| else 0)
  }

  function AfterJournal(p: Progress, poll: Poll): State {
    if poll.journal.RaisedBeforeAppend? || poll.journal.MonitorRaised? then p.state
    else p.state.(journal := p.state.journal + [EventOf(poll, p)])
  }

  predicate DigestRaised(poll: Poll) {
    poll.feed.TripUpdates? && poll.parsed.Some? && !poll.digested
  }

  predicate LateCall(p: Progress, poll: Poll) {
    (poll.journal.RaisedBeforeAppend? || poll.journal.RaisedAfterAppend?) && !p.rawArchived
  }

  /** A failed journal append leads to one more archive call, whose result nothing else looks at. */
  function Processed(intervals: map<Feed, int>, s: State, poll: Poll): State
    requires poll.feed in intervals
  {
    if DigestRaised(poll) then Archive(intervals, s, poll, poll.first, false).state else
    var p := BeforeJournal(intervals, s, poll);
    var s1 := AfterJournal(p, poll);
    if LateCall(p, poll) then Archive(intervals, s1, poll, poll.late, true).state else s1
  }

  /******* What the journal and the disk say *******/

  function EmittedRows(journal: seq<Event>, log: Log): nat {
    if journal == [] then 0 else
    var e := journal[|journal| - 1];
    EmittedRows(journal[..|journal| - 1], log) + (if (e.feed, e.date) == log && e.parseOk then e.emittedRows else 0)
  }

  function ArchivedEvents(journal: seq<Event>, log: Log): nat {
    if journal == [] then 0 else
    var e := journal[|journal| - 1];
    ArchivedEvents(journal[..|journal| - 1], log) + (if (e.feed, e.date) == log && e.rawArchived then 1 else 0)
  }

  function StagedRows(segments: seq<Segment>, log: Log): nat {
    if segments == [] then 0 else
    var g := segments[|segments| - 1];
    StagedRows(segments[..|segments| - 1], log) + (if (g.feed, g.date) == log then |g.rows| else 0)
  }

  function RawRecords(raw: seq<RawRecord>, log: Log): nat {
    if raw == [] then 0 else
    var r := raw[|raw| - 1];
    RawRecords(raw[..|raw| - 1], log) + (if (r.feed, r.date) == log then 1 else 0)
  }

  lemma RawSnoc(raw: seq<RawRecord>, r: RawRecord, log: Log)
    ensures RawRecords(raw + [r], log) == RawRecords(raw, log) + (if (r.feed, r.date) == log then 1 else 0)
  {
    assert (raw + [r])[..|raw|] == raw;
  }

  lemma EventSnoc(journal: seq<Event>, e: Event, log: Log)
    ensures EmittedRows(journal + [e], log) ==
            EmittedRows(journal, log) + (if (e.feed, e.date) == log && e.parseOk then e.emittedRows else 0)
    ensures ArchivedEvents(journal + [e], log) ==
            ArchivedEvents(journal, log) + (if (e.feed, e.date) == log && e.rawArchived then 1 else 0)
  {
    assert (journal + [e])[..|journal|] == journal;
  }

  lemma StagedSnoc(segments: seq<Segment>, poll: Poll, log: Log)
    ensures StagedRows(segments + StagedBy(poll), log) ==
            StagedRows(segments, log) + (if (poll.feed, poll.date) == log && StagedBy(poll) != []
                                         then |Emitted(poll).value| else 0)
  {
    if StagedBy(poll) == [] {
      assert segments + [] == segments;
    } else {
      assert (segments + StagedBy(poll))[..|segments|] == segments;
    }
  }

  /** A poll of which something failed is in the raw log or says that it is not. */
  ghost predicate HonestEvent(e: Event) {
    && (!e.parseOk || !e.trackingOk || !e.spoolOk || !e.presenceOk ==> e.rawArchived || !e.rawOk)
    && (e.rawArchived ==> e.rawOk)
  }

  ghost predicate Honest(s: State) {
    && (forall e :: e in s.journal ==> HonestEvent(e))
    && (forall e :: e in s.journal && e.rawArchived ==> RawRecord(e.feed, e.date, e.payload) in s.raw)
  }

  ghost predicate Counted(s: State, log: Log) {
    && EmittedRows(s.journal, log) <= StagedRows(s.segments, log)
    && ArchivedEvents(s.journal, log) <= RawRecords(s.raw, log)
  }

  ghost predicate Inv(s: State) {
    && s.torn <= s.needsRepair
    && Honest(s)
    && forall log :: Counted(s, log)
  }

  /** The raw log has gained some copies of one response, `least` of them at least. */
  ghost predicate RawGrew(raw: seq<RawRecord>, raw': seq<RawRecord>, r: RawRecord, least: nat) {
    && raw <= raw' && (forall i :: |raw| <= i < |raw'| ==> raw'[i] == r) && (least > 0 ==> r in raw')
    && forall log :: RawRecords(raw', log) >= RawRecords(raw, log) + (if (r.feed, r.date) == log then least else 0)
  }

  lemma RawGrewByOne(raw: seq<RawRecord>, r: RawRecord)
    ensures RawGrew(raw, raw, r, 0) && RawGrew(raw, raw + [r], r, 1) && RawGrew(raw, raw + [r], r, 0)
  {
    forall log
      ensures RawRecords(raw + [r], log) == RawRecords(raw, log) + (if (r.feed, r.date) == log then 1 else 0)
    {
      RawSnoc(raw, r, log);
    }
    assert (raw + [r])[|raw|] == r;
    hide RawRecords;
  }

  lemma RawGrewTwice(a: seq<RawRecord>, b: seq<RawRecord>, c: seq<RawRecord>, r: RawRecord, m: nat, n: nat)
    requires RawGrew(a, b, r, m) && RawGrew(b, c, r, n)
    ensures forall k: nat :: k <= m + n ==> RawGrew(a, c, r, k)
  {
    hide RawRecords;
  }

  /** What an archive call does to the disk. */
  lemma ArchiveShape(intervals: map<Feed, int>, s: State, poll: Poll, fate: ArchiveFate, force: bool)
    requires poll.feed in intervals
    ensures var a := Archive(intervals, s, poll, fate, force);
            && a.state.segments == s.segments && a.state.journal == s.journal
            && a.state.archivedAuxiliary == s.archivedAuxiliary
            && RawGrew(s.raw, a.state.raw, RawRecord(poll.feed, poll.date, poll.payload), if a.written then 1 else 0)
            && a.state.rawAuxiliary == (if Reaches(intervals, s, poll, fate, force) && poll.feed.TripUpdates?
                                           && poll.parsed.Some?
                                        then Some(poll.parsed.value.auxiliary) else s.rawAuxiliary)
            && (a.written ==> a.ok && Reaches(intervals, s, poll, fate, force))
            && (force ==> a.ok == a.written)
            && (s.torn <= s.needsRepair ==> a.state.torn <= a.state.needsRepair)
  {
    RawGrewByOne(s.raw, RawRecord(poll.feed, poll.date, poll.payload));
    hide RawGrew;
  }

  lemma EarlyShape(intervals: map<Feed, int>, s: State, poll: Poll)
    requires poll.feed in intervals
    ensures var p := ArchivedEarly(intervals, s, poll);
            && p.state.segments == s.segments && p.state.journal == s.journal
            && RawGrew(s.raw, p.state.raw, RawRecord(poll.feed, poll.date, poll.payload),
                       if p.rawArchived then 1 else 0)
            && (p.rawArchived ==> p.rawOk)
            && (s.torn <= s.needsRepair ==> p.state.torn <= p.state.needsRepair)
  {
    var a := Archive(intervals, s, poll, poll.first, false);
    ArchiveShape(intervals, s, poll, poll.first, false);
    var b := Archive(intervals, a.state, poll, poll.forAuxiliary, true);
    ArchiveShape(intervals, a.state, poll, poll.forAuxiliary, true);
    RawGrewTwice(s.raw, a.state.raw, b.state.raw, RawRecord(poll.feed, poll.date, poll.payload),
                 if a.written then 1 else 0, if b.written then 1 else 0);
    hide Archive, RawGrew, Reaches;
  }

  /** Everything before the journal: the rows are staged, and the response is in the raw log when
      `rawArchived` says so. */
  lemma BeforeJournalShape(intervals: map<Feed, int>, s: State, poll: Poll)
    requires poll.feed in intervals
    ensures var p := BeforeJournal(intervals, s, poll);
            && p.state.segments == s.segments + StagedBy(poll) && p.state.journal == s.journal
            && RawGrew(s.raw, p.state.raw, RawRecord(poll.feed, poll.date, poll.payload),
                       if p.rawArchived then 1 else 0)
            && HonestEvent(EventOf(poll, p))
            && (s.torn <= s.needsRepair ==> p.state.torn <= p.state.needsRepair)
  {
    var early := ArchivedEarly(intervals, s, poll);
    EarlyShape(intervals, s, poll);
    var staged := early.state.(segments := early.state.segments + StagedBy(poll));
    ArchiveShape(intervals, staged, poll, poll.fallback, true);
    var c := Archive(intervals, staged, poll, poll.fallback, true);
    RawGrewTwice(s.raw, staged.raw, c.state.raw, RawRecord(poll.feed, poll.date, poll.payload),
                 if early.rawArchived then 1 else 0, if c.written then 1 else 0);
    hide ArchivedEarly, Archive, StagedBy, RawGrew, Reaches;
  }

  /******* What a poll stages and says, in plain words *******/

  /** The rows a poll has to stage: all parsed ones of vehicle positions, the selected ones of other feeds. */
  ghost predicate RowsToStage(poll: Poll, rows: seq<Row>) {
    && poll.parsed.Some? && rows != []
    && if poll.feed == VehiclePositions then poll.parsed.value.rows == rows else poll.selected == Some(rows)
  }

  /** They become one segment of the poll's feed and date, unless staging raises beforehand; nothing else
      becomes a segment. */
  lemma PollStages(intervals: map<Feed, int>, s: State, poll: Poll)
    requires poll.feed in intervals
    ensures var p := BeforeJournal(intervals, s, poll);
            && (forall rows :: RowsToStage(poll, rows) && !poll.staging.RaisedBeforeStaging? ==>
                  p.state.segments == s.segments + [Segment(poll.feed, poll.date, rows)])
            && ((forall rows :: !RowsToStage(poll, rows)) || poll.staging.RaisedBeforeStaging? ==>
                  p.state.segments == s.segments)
  {
    BeforeJournalShape(intervals, s, poll);
    StagedMeaning(poll);
    assert s.segments + [] == s.segments;
    hide BeforeJournal, StagedBy, RawGrew, EventOf, RowsToStage;
  }

  lemma StagedMeaning(poll: Poll)
    ensures forall rows :: RowsToStage(poll, rows) && !poll.staging.RaisedBeforeStaging? ==>
              StagedBy(poll) == [Segment(poll.feed, poll.date, rows)]
    ensures (forall rows :: !RowsToStage(poll, rows)) || poll.staging.RaisedBeforeStaging? ==> StagedBy(poll) == []
  {
    if poll.parsed.Some? {
      var rows := if poll.feed == VehiclePositions then poll.parsed.value.rows
                  else if poll.selected.Some? then poll.selected.value else [];
      assert rows != [] ==> RowsToStage(poll, rows);
    }
  }

  /** The same of the whole poll. */
  lemma ProcessedStages(intervals: map<Feed, int>, s: State, poll: Poll)
    requires poll.feed in intervals
    ensures var s' := Processed(intervals, s, poll);
            && (DigestRaised(poll) ==> s'.segments == s.segments && s'.journal == s.journal)
            && (forall rows :: RowsToStage(poll, rows) && !DigestRaised(poll) && !poll.staging.RaisedBeforeStaging? ==>
                  s'.segments == s.segments + [Segment(poll.feed, poll.date, rows)])
            && ((forall rows :: !RowsToStage(poll, rows)) || poll.staging.RaisedBeforeStaging? ==>
                  s'.segments == s.segments)
  {
    var p := BeforeJournal(intervals, s, poll);
    PollStages(intervals, s, poll);
    ArchiveShape(intervals, s, poll, poll.first, false);
    ArchiveShape(intervals, AfterJournal(p, poll), poll, poll.late, true);
    hide BeforeJournal, Archive, EventOf, RawGrew, Reaches, RowsToStage;
  }

  /** One event of the poll is journalled, unless its append, or the digest or the monitor before it, raised. */
  lemma ProcessedJournals(intervals: map<Feed, int>, s: State, poll: Poll)
    requires poll.feed in intervals
    ensures var s' := Processed(intervals, s, poll);
            if (poll.feed == TripUpdates && poll.parsed.Some? && !poll.digested)
               || poll.journal == MonitorRaised || poll.journal == RaisedBeforeAppend
            then s'.journal == s.journal
            else s'.journal == s.journal + [EventOf(poll, BeforeJournal(intervals, s, poll))]
  {
    var p := BeforeJournal(intervals, s, poll);
    BeforeJournalShape(intervals, s, poll);
    ArchiveShape(intervals, s, poll, poll.first, false);
    ArchiveShape(intervals, AfterJournal(p, poll), poll, poll.late, true);
    hide BeforeJournal, Archive, EventOf, RawGrew, Reaches, StagedBy;
  }

  /** What the journal says of a poll, field by field; the rows it counts are those staged and committed. */
  lemma EventSays(poll: Poll, p: Progress)
    ensures var e := EventOf(poll, p);
            var tracked := poll.parsed.Some? && (poll.feed == VehiclePositions || poll.selected.Some?);
            var stagedAndCommitted := poll.staging == Staged(true)
                                      || (poll.feed == VehiclePositions && poll.staging == Staged(false));
            && e.feed == poll.feed && e.date == poll.date && e.payload == poll.payload
            && e.parseOk == poll.parsed.Some?
            && (e.trackingOk <==> poll.parsed.None? || tracked)
            && (e.spoolOk <==> !tracked || stagedAndCommitted)
            && (e.presenceOk <==> poll.feed != TripUpdates || (poll.parsed.Some? && poll.presenceWritten))
            && e.rawArchived == p.rawArchived && e.rawOk == p.rawOk
            && (!tracked || !stagedAndCommitted ==> e.emittedRows == 0)
            && (tracked && stagedAndCommitted && poll.feed == VehiclePositions ==>
                  e.emittedRows == |poll.parsed.value.rows|)
            && (tracked && stagedAndCommitted && poll.feed != VehiclePositions ==>
                  e.emittedRows == |poll.selected.value|)
  {
  }

  /** A response is archived when none of its feed is, when it is forced, or an interval after the last
      one; a log that cannot be repaired first is not appended to; other feeds are left alone. */
  lemma ArchiveMeaning(intervals: map<Feed, int>, s: State, poll: Poll, fate: ArchiveFate, force: bool)
    requires poll.feed in intervals
    ensures var a := Archive(intervals, s, poll, fate, force);
            var log := (poll.feed, poll.date);
            var early := !force && poll.feed in s.lastArchive
                         && fate.now - s.lastArchive[poll.feed] < intervals[poll.feed];
            var blocked := log in s.needsRepair && log !in fate.repaired;
            && (early ==> a == Archived(false, true, s))
            && (!early ==> (a.written <==> !blocked && fate.append == Reported) && (a.ok <==> a.written))
            && (a.state.raw == if early || blocked || fate.append == Missing then s.raw
                               else s.raw + [RawRecord(poll.feed, poll.date, poll.payload)])
            && (forall f :: f in a.state.lastArchive <==> f in s.lastArchive || (a.written && f == poll.feed))
            && (forall f :: f in a.state.lastArchive ==>
                  a.state.lastArchive[f] == if a.written && f == poll.feed then fate.now else s.lastArchive[f])
            && (!early && !a.written ==> log in a.state.needsRepair)
            && (forall l: Log :: l != log && (l.0 != poll.feed || l !in fate.repaired) ==>
                  (l in a.state.needsRepair <==> l in s.needsRepair))
            && (!early ==> forall l: Log :: l != log && l.0 == poll.feed && l in fate.repaired ==>
                             l !in a.state.needsRepair)
  {
  }

  /** The rows an event claims were staged in the same poll. */
  lemma RowsCounted(s: State, segments: seq<Segment>, poll: Poll, p: Progress, log: Log)
    requires EmittedRows(s.journal, log) <= StagedRows(s.segments, log) && segments == s.segments + StagedBy(poll)
    ensures EmittedRows(s.journal, log) <= StagedRows(segments, log)
    ensures EmittedRows(s.journal + [EventOf(poll, p)], log) <= StagedRows(segments, log)
  {
    StagedSnoc(s.segments, poll, log);
    EventSnoc(s.journal, EventOf(poll, p), log);
    EmittedAtMostStaged(poll, p);
    hide EmittedRows, StagedRows, StagedBy, Emitted, EventOf;
  }

  /** The response an event says is archived was appended in the same poll. */
  lemma ResponsesCounted(s: State, raw: seq<RawRecord>, poll: Poll, p: Progress, log: Log)
    requires ArchivedEvents(s.journal, log) <= RawRecords(s.raw, log)
    requires RawGrew(s.raw, raw, RawRecord(poll.feed, poll.date, poll.payload), if p.rawArchived then 1 else 0)
    ensures ArchivedEvents(s.journal, log) <= RawRecords(raw, log)
    ensures ArchivedEvents(s.journal + [EventOf(poll, p)], log) <= RawRecords(raw, log)
  {
    EventSnoc(s.journal, EventOf(poll, p), log);
    EmittedAtMostStaged(poll, p);
    hide ArchivedEvents, RawRecords, EventOf;
  }

  lemma PollCounted(intervals: map<Feed, int>, s: State, poll: Poll, p: Progress, log: Log)
    requires poll.feed in intervals && p == BeforeJournal(intervals, s, poll) && Counted(s, log)
    ensures Counted(p.state, log)
    ensures Counted(p.state.(journal := p.state.journal + [EventOf(poll, p)]), log)
  {
    BeforeJournalShape(intervals, s, poll);
    hide BeforeJournal, EmittedRows, StagedRows, ArchivedEvents, RawRecords, StagedBy, EventOf, HonestEvent;
    RowsCounted(s, p.state.segments, poll, p, log);
    ResponsesCounted(s, p.state.raw, poll, p, log);
  }

  lemma EmittedAtMostStaged(poll: Poll, p: Progress)
    ensures EventOf(poll, p).emittedRows <= if StagedBy(poll) != [] then |Emitted(poll).value| else 0
    ensures EventOf(poll, p).rawArchived == p.rawArchived
    ensures EventOf(poll, p).feed == poll.feed && EventOf(poll, p).date == poll.date
  {
  }

  lemma PollHonest(intervals: map<Feed, int>, s: State, poll: Poll, p: Progress)
    requires poll.feed in intervals && p == BeforeJournal(intervals, s, poll) && Honest(s)
    ensures Honest(p.state) && Honest(p.state.(journal := p.state.journal + [EventOf(poll, p)]))
  {
    BeforeJournalShape(intervals, s, poll);
    hide BeforeJournal, HonestEvent, StagedBy;
    assert forall r :: r in s.raw ==> r in p.state.raw;
  }

  lemma ArchiveKeepsInv(intervals: map<Feed, int>, s: State, poll: Poll, fate: ArchiveFate, force: bool)
    requires poll.feed in intervals && Inv(s)
    ensures Inv(Archive(intervals, s, poll, fate, force).state)
  {
    var s' := Archive(intervals, s, poll, fate, force).state;
    ArchiveShape(intervals, s, poll, fate, force);
    hide Archive, HonestEvent, EmittedRows, StagedRows, ArchivedEvents, RawRecords;
    assert forall r :: r in s.raw ==> r in s'.raw;
    forall log
      ensures Counted(s', log)
    {
      assert Counted(s, log);
    }
  }

  lemma PollKeepsInv(intervals: map<Feed, int>, s: State, poll: Poll)
    requires poll.feed in intervals && Inv(s)
    ensures Inv(Processed(intervals, s, poll))
  {
    var p := BeforeJournal(intervals, s, poll);
    BeforeJournalShape(intervals, s, poll);
    PollHonest(intervals, s, poll, p);
    var journalled := p.state.(journal := p.state.journal + [EventOf(poll, p)]);
    forall log
      ensures Counted(p.state, log) && Counted(journalled, log)
    {
      assert Counted(s, log);
      hide Counted, BeforeJournal;
      PollCounted(intervals, s, poll, p, log);
    }
    hide BeforeJournal, EventOf, Honest, Counted, Archive;
    assert Inv(p.state) && Inv(journalled);
    hide Inv;
    ArchiveKeepsInv(intervals, AfterJournal(p, poll), poll, poll.late, true);
    ArchiveKeepsInv(intervals, s, poll, poll.first, false);
  }

  /******* Runs *******/

  /** A restart loses the memory; the raw logs found damaged are remembered. A poll the process dies in
      leaves what it had put in the raw log, perhaps with a torn tail, and staged, and no event. */
  datatype Action =
    | Process(poll: Poll)
    | Die(poll: Poll, responses: nat, torn: bool, staged: bool)
    | Restart(found: set<Log>)

  function OnDiskTimes(s: State, poll: Poll, n: nat): State {
    if n == 0 then s else OnDisk(OnDiskTimes(s, poll, n - 1), poll)
  }

  function Died(s: State, poll: Poll, responses: nat, torn: bool, staged: bool): State {
    var s1 := OnDiskTimes(s, poll, responses);
    var s2 := if torn then s1.(torn := s1.torn + {(poll.feed, poll.date)}) else s1;
    var s3 := if staged then s2.(segments := s2.segments + StagedBy(poll)) else s2;
    s3.(lastArchive := map[], archivedAuxiliary := None, needsRepair := s3.torn)
  }

  /** The startup scan finds every log a later poll may append to. */
  ghost predicate Possible(intervals: map<Feed, int>, s: State, a: Action) {
    match a
    case Process(poll) => poll.feed in intervals
    case Die(_, _, _, _) => true
    case Restart(found) => s.torn <= found
  }

  function Next(intervals: map<Feed, int>, s: State, a: Action): State
    requires a.Process? ==> a.poll.feed in intervals
  {
    match a
    case Process(poll) => Processed(intervals, s, poll)
    case Die(poll, responses, torn, staged) => Died(s, poll, responses, torn, staged)
    case Restart(found) => s.(lastArchive := map[], archivedAuxiliary := None, needsRepair := found)
  }

  lemma {:induction false} TimesShape(s: State, poll: Poll, n: nat)
    ensures var s' := OnDiskTimes(s, poll, n);
            && RawGrew(s.raw, s'.raw, RawRecord(poll.feed, poll.date, poll.payload), 0)
            && s' == s.(raw := s'.raw, rawAuxiliary := s'.rawAuxiliary)
  {
    var r := RawRecord(poll.feed, poll.date, poll.payload);
    RawGrewByOne(s.raw, r);
    if n > 0 {
      TimesShape(s, poll, n - 1);
      var s1 := OnDiskTimes(s, poll, n - 1);
      RawGrewByOne(s1.raw, r);
      RawGrewTwice(s.raw, s1.raw, s1.raw + [r], r, 0, 0);
    }
    hide RawGrew;
  }

  lemma DeathKeepsInv(s: State, poll: Poll, responses: nat, torn: bool, staged: bool)
    requires Inv(s)
    ensures Inv(Died(s, poll, responses, torn, staged))
  {
    var s' := Died(s, poll, responses, torn, staged);
    TimesShape(s, poll, responses);
    hide OnDiskTimes, HonestEvent, RawRecords, EmittedRows, StagedRows, ArchivedEvents, StagedBy;
    assert forall r :: r in s.raw ==> r in s'.raw;
    forall log
      ensures Counted(s', log)
    {
      assert Counted(s, log);
      StagedSnoc(s.segments, poll, log);
    }
  }

  /** The states of a run, one before each action and one at the end. */
  ghost predicate Runs(intervals: map<Feed, int>, ss: seq<State>, actions: seq<Action>) {
    && |ss| == |actions| + 1
    && forall i :: 0 <= i < |actions| ==>
         Possible(intervals, ss[i], actions[i]) && ss[i + 1] == Next(intervals, ss[i], actions[i])
  }

  lemma NextKeepsInv(intervals: map<Feed, int>, s: State, a: Action)
    requires Inv(s) && Possible(intervals, s, a)
    ensures Inv(Next(intervals, s, a))
  {
    match a
    case Process(poll) => hide Inv; PollKeepsInv(intervals, s, poll);
    case Die(poll, responses, torn, staged) => hide Inv; DeathKeepsInv(s, poll, responses, torn, staged);
    case Restart(found) => assert forall log :: Counted(s, log) ==> Counted(Next(intervals, s, a), log);
  }

  lemma {:induction false} RunKeepsInv(intervals: map<Feed, int>, ss: seq<State>, actions: seq<Action>, n: nat)
    requires Runs(intervals, ss, actions) && n < |ss| && Inv(ss[0])
    ensures Inv(ss[n])
  {
    hide Inv, Next, Possible;
    if n > 0 {
      RunKeepsInv(intervals, ss, actions, n - 1);
      NextKeepsInv(intervals, ss[n - 1], actions[n - 1]);
    }
  }

  lemma FreshInv()
    ensures Inv(FRESH)
  {
    assert forall l :: Counted(FRESH, l);
  }

  /** Whatever happened, at every point of every run: the rows the journal says were emitted were
      staged, the responses it says were archived are in the raw log, and every poll of which something
      failed is archived or flagged. */
  lemma JournalIsHonest(intervals: map<Feed, int>, ss: seq<State>, actions: seq<Action>, n: nat, log: Log)
    requires Runs(intervals, ss, actions) && ss[0] == FRESH && n < |ss|
    ensures var s := ss[n];
            && EmittedRows(s.journal, log) <= StagedRows(s.segments, log)
            && ArchivedEvents(s.journal, log) <= RawRecords(s.raw, log)
            && forall e :: e in s.journal ==>
                 && (!e.parseOk || !e.trackingOk || !e.spoolOk || !e.presenceOk ==> e.rawArchived || !e.rawOk)
                 && (e.rawArchived ==> RawRecord(e.feed, e.date, e.payload) in s.raw)
  {
    FreshInv();
    RunKeepsInv(intervals, ss, actions, n);
    assert Counted(ss[n], log);
  }

  /******* The auxiliary state *******/

  /** The signature in memory is that of the last response on disk, or the process has not archived yet. */
  predicate Synced(s: State) {
    s.archivedAuxiliary.None? || s.archivedAuxiliary == s.rawAuxiliary
  }

  /** One of the archive calls before the journal puts the response on disk: when due, when the
      auxiliary state changed, or as the fallback. */
  predicate ReachedBeforeJournal(intervals: map<Feed, int>, s: State, poll: Poll)
    requires poll.feed in intervals
  {
    var a := Archive(intervals, s, poll, poll.first, false);
    var early := ArchivedEarly(intervals, s, poll);
    var staged := early.state.(segments := early.state.segments + StagedBy(poll));
    || Reaches(intervals, s, poll, poll.first, false)
    || (AuxiliaryChanged(s, poll) && !a.written && Reaches(intervals, a.state, poll, poll.forAuxiliary, true))
    || (!ProcessedOk(poll) && !early.rawArchived && Reaches(intervals, staged, poll, poll.fallback, true))
  }

  /** Or the one after a failed journal append does. */
  predicate SomeCallReaches(intervals: map<Feed, int>, s: State, poll: Poll)
    requires poll.feed in intervals
  {
    var p := BeforeJournal(intervals, s, poll);
    || ReachedBeforeJournal(intervals, s, poll)
    || (LateCall(p, poll) && Reaches(intervals, AfterJournal(p, poll), poll, poll.late, true))
  }

  /** The branches that put a new state on disk without noting it: an archive call that raised with its
      record whole, the late call after a failed journal append, and any first call when taking the digest
      raises after it. */
  predicate StateUnnoted(intervals: map<Feed, int>, s: State, poll: Poll)
    requires poll.feed in intervals
  {
    && AuxiliaryChanged(s, poll) && s.archivedAuxiliary.Some?
    && if DigestRaised(poll) then Reaches(intervals, s, poll, poll.first, false)
       else !BeforeJournal(intervals, s, poll).rawArchived && SomeCallReaches(intervals, s, poll)
  }

  lemma SignatureShape(intervals: map<Feed, int>, s: State, poll: Poll)
    requires poll.feed in intervals
    ensures var p := BeforeJournal(intervals, s, poll);
            var update := poll.feed.TripUpdates? && poll.parsed.Some?;
            && p.state.archivedAuxiliary == (if update && p.rawArchived then Some(poll.parsed.value.auxiliary)
                                             else s.archivedAuxiliary)
            && p.state.rawAuxiliary == (if update && ReachedBeforeJournal(intervals, s, poll)
                                        then Some(poll.parsed.value.auxiliary) else s.rawAuxiliary)
            && (p.rawArchived ==> ReachedBeforeJournal(intervals, s, poll))
            && (AuxiliaryChanged(s, poll) && p.rawOk ==> p.rawArchived)
  {
    var a := Archive(intervals, s, poll, poll.first, false);
    ArchiveShape(intervals, s, poll, poll.first, false);
    ArchiveShape(intervals, a.state, poll, poll.forAuxiliary, true);
    var early := ArchivedEarly(intervals, s, poll);
    var staged := early.state.(segments := early.state.segments + StagedBy(poll));
    ArchiveShape(intervals, staged, poll, poll.fallback, true);
    hide Archive, StagedBy, Reaches, RawGrew;
  }

  /** A poll keeps the signature in step with the raw log exactly when it takes none of the branches. */
  lemma SyncKeptIff(intervals: map<Feed, int>, s: State, poll: Poll)
    requires poll.feed in intervals && Synced(s)
    ensures Synced(Processed(intervals, s, poll)) <==> !StateUnnoted(intervals, s, poll)
  {
    var p := BeforeJournal(intervals, s, poll);
    SignatureShape(intervals, s, poll);
    ArchiveShape(intervals, AfterJournal(p, poll), poll, poll.late, true);
    ArchiveShape(intervals, s, poll, poll.first, false);
    hide Archive, BeforeJournal, EventOf, Reaches, ReachedBeforeJournal, RawGrew;
  }

  /** From a state in step, a parsed poll that does not report a raw failure is described by the last
      response on disk that parsed: its auxiliary state is not skipped. */
  lemma AuxiliaryNotSkipped(intervals: map<Feed, int>, s: State, poll: Poll)
    requires poll.feed in intervals && Synced(s) && poll.feed.TripUpdates? && poll.parsed.Some?
    requires BeforeJournal(intervals, s, poll).rawOk
    ensures BeforeJournal(intervals, s, poll).state.rawAuxiliary == Some(poll.parsed.value.auxiliary)
  {
    SignatureShape(intervals, s, poll);
    hide BeforeJournal;
  }

  lemma DeathForgets(s: State, poll: Poll, responses: nat, torn: bool, staged: bool)
    ensures Died(s, poll, responses, torn, staged).archivedAuxiliary.None?
  {
    hide OnDiskTimes;
  }

  /** Over any run that never takes one of the branches, no parsed poll's auxiliary state is skipped unflagged:
      each one without a raw failure is described by the last response on disk when it is journalled. */
  lemma {:induction false} RunKeepsSync(intervals: map<Feed, int>, ss: seq<State>, actions: seq<Action>, n: nat)
    requires Runs(intervals, ss, actions) && n < |ss| && Synced(ss[0])
    requires forall i :: 0 <= i < n && actions[i].Process? ==> !StateUnnoted(intervals, ss[i], actions[i].poll)
    ensures Synced(ss[n])
    ensures n < |actions| && actions[n].Process? ==>
              var poll := actions[n].poll;
              var p := BeforeJournal(intervals, ss[n], poll);
              poll.feed.TripUpdates? && poll.parsed.Some? && poll.digested && p.rawOk ==>
                p.state.rawAuxiliary == Some(poll.parsed.value.auxiliary)
  {
    hide StateUnnoted, Processed, BeforeJournal, Died;
    if n > 0 {
      RunKeepsSync(intervals, ss, actions, n - 1);
      if actions[n - 1].Process? {
        SyncKeptIff(intervals, ss[n - 1], actions[n - 1].poll);
      }
      if actions[n - 1].Die? {
        DeathForgets(ss[n - 1], actions[n - 1].poll, actions[n - 1].responses, actions[n - 1].torn,
                     actions[n - 1].staged);
      }
    }
    if n < |actions| && actions[n].Process? {
      var poll := actions[n].poll;
      if poll.feed.TripUpdates? && poll.parsed.Some? && BeforeJournal(intervals, ss[n], poll).rawOk {
        AuxiliaryNotSkipped(intervals, ss[n], poll);
      }
    }
  }

  /** The branches matter wherever they are taken: if the next TripUpdates response brings the noted
      state back before a raw record is due and nothing fails, it is not archived and reports no raw
      failure, while the last response on disk says another state holds. */
  lemma UnnotedSkipsAState(intervals: map<Feed, int>, s: State, poll: Poll, next: Poll)
    requires poll.feed in intervals && Synced(s) && StateUnnoted(intervals, s, poll)
    requires next.feed.TripUpdates? && next.digested && ProcessedOk(next)
    requires Some(next.parsed.value.auxiliary) == s.archivedAuxiliary
    requires !Due(intervals, Processed(intervals, s, poll), TripUpdates, next.first.now, false)
    ensures var p := BeforeJournal(intervals, Processed(intervals, s, poll), next);
            && p.rawOk && !p.rawArchived
            && p.state.rawAuxiliary.Some? && p.state.rawAuxiliary != Some(next.parsed.value.auxiliary)
  {
    var p, s1 := BeforeJournal(intervals, s, poll), Processed(intervals, s, poll);
    SignatureShape(intervals, s, poll);
    ArchiveShape(intervals, AfterJournal(p, poll), poll, poll.late, true);
    ArchiveShape(intervals, s, poll, poll.first, false);
    SyncKeptIff(intervals, s, poll);
    assert s1.archivedAuxiliary == s.archivedAuxiliary && s1.rawAuxiliary.Some? by {
      hide Archive, BeforeJournal, Reaches, EventOf, RawGrew, Synced;
    }
    hide StateUnnoted, Processed, EventOf, RawGrew, SomeCallReaches;
    assert Archive(intervals, s1, next, next.first, false) == Archived(false, true, s1);
    assert !AuxiliaryChanged(s1, next);
  }

  function Quiet(auxiliary: Auxiliary, now: int, append: AppendFate, journal: JournalFate): Poll {
    var fate := ArchiveFate(now, {}, append);
    Poll(TripUpdates, 0, "response", Some(Parsed([], auxiliary)), true, true, Some([]), Staged(true),
         fate, fate, fate, ArchiveFate(now, {(TripUpdates, 0)}, Reported), journal)
  }

  lemma FirstIsNoted(a: Auxiliary)
    ensures var s1 := Processed(map[TripUpdates := 300], FRESH, Quiet(a, 0, Reported, Journalled));
            && s1.archivedAuxiliary == s1.rawAuxiliary == Some(a) && s1.lastArchive == map[TripUpdates := 0]
            && s1.needsRepair == {}
  {
  }

  /** The late branch is real. A state is archived; the next response brings another, cannot be
      archived, cannot be journalled, and is archived late; the third brings the first state back. The
      third poll reports no raw failure and is not archived, and the raw log says the second state holds. */
  lemma LateArchiveSkipsAState()
    ensures var intervals := map[TripUpdates := 300];
            var a, b := Auxiliary("a"), Auxiliary("b");
            var s1 := Processed(intervals, FRESH, Quiet(a, 0, Reported, Journalled));
            var s2 := Processed(intervals, s1, Quiet(b, 60, Missing, RaisedBeforeAppend));
            var p := BeforeJournal(intervals, s2, Quiet(a, 120, Missing, Journalled));
            && p.rawOk && !p.rawArchived && p.state.rawAuxiliary == Some(b)
  {
    var intervals := map[TripUpdates := 300];
    var a, b := Auxiliary("a"), Auxiliary("b");
    var s1 := Processed(intervals, FRESH, Quiet(a, 0, Reported, Journalled));
    FirstIsNoted(a);
    var second := Quiet(b, 60, Missing, RaisedBeforeAppend);
    var p := BeforeJournal(intervals, s1, second);
    assert !p.rawArchived && p.state.archivedAuxiliary == Some(a) && p.state.needsRepair == {(TripUpdates, 0)};
    assert b != a;
    var late := Archive(intervals, p.state, second, second.late, true);
    assert (TripUpdates, 0) in SameFeed(p.state.needsRepair, TripUpdates);
    assert late.written;
  }

  /** The other branch is real too: the second response arrives whole in an append that raises, and is
      journalled as not archived; after the third the raw log again says the second state holds. */
  lemma UnreportedArchiveSkipsAState()
    ensures var intervals := map[TripUpdates := 300];
            var a, b := Auxiliary("a"), Auxiliary("b");
            var s1 := Processed(intervals, FRESH, Quiet(a, 0, Reported, Journalled));
            var s2 := Processed(intervals, s1, Quiet(b, 60, Unreported, Journalled));
            var p := BeforeJournal(intervals, s2, Quiet(a, 120, Missing, Journalled));
            && p.rawOk && !p.rawArchived && p.state.rawAuxiliary == Some(b)
  {
    var intervals := map[TripUpdates := 300];
    var a, b := Auxiliary("a"), Auxiliary("b");
    var s1 := Processed(intervals, FRESH, Quiet(a, 0, Reported, Journalled));
    FirstIsNoted(a);
    var second := Quiet(b, 60, Unreported, Journalled);
    var p := BeforeJournal(intervals, s1, second);
    assert !p.rawArchived && p.state.archivedAuxiliary == Some(a) && p.state.rawAuxiliary == Some(b);
    assert b != a;
  }

  /******* The collector *******/

  class Collector {
    const intervals: map<Feed, int>
    var lastArchive: map<Feed, int>
    var needsRepair: set<Log>
    var archivedAuxiliary: Option<Auxiliary>
    var segments: seq<Segment>
    var journal: seq<Event>
    ghost var torn: set<Log>
    ghost var raw: seq<RawRecord>
    ghost var rawAuxiliary: Option<Auxiliary>

    ghost function View(): State
      reads this
    {
      State(lastArchive, needsRepair, archivedAuxiliary, torn, raw, rawAuxiliary, segments, journal)
    }

    constructor (intervals: map<Feed, int>)
      ensures this.intervals == intervals && View() == FRESH
    {
      this.intervals := intervals;
      lastArchive, needsRepair, archivedAuxiliary, segments, journal := map[], {}, None, [], [];
      torn, raw, rawAuxiliary := {}, [], None;
    }

    /** Repairs the pending logs of one feed. A set has no order, so the log to be appended to comes
        last here: `fate.repaired` says which others were reached before it failed. */
    method RepairPending(feed: Feed, fate: ArchiveFate)
      modifies `needsRepair, `torn
      ensures needsRepair == old(needsRepair) - fate.repaired * SameFeed(old(needsRepair), feed)
      ensures torn == old(torn) - fate.repaired * SameFeed(old(needsRepair), feed)
    {
      var todo := needsRepair;
      ghost var seen: set<Log> := {};
      while todo != {}
        invariant todo <= old(needsRepair) && seen == old(needsRepair) - todo
        invariant needsRepair == old(needsRepair) - fate.repaired * SameFeed(seen, feed)
        invariant torn == old(torn) - fate.repaired * SameFeed(seen, feed)
        decreases todo
      {
        var pending :| pending in todo;
        todo, seen := todo - {pending}, seen + {pending};
        if pending.0 == feed && pending in fate.repaired {
          needsRepair, torn := needsRepair - {pending}, torn - {pending};
        }
      }
      assert seen == old(needsRepair);
    }

    method ArchiveRaw(poll: Poll, fate: ArchiveFate, force: bool) returns (written: bool, ok: bool)
      requires poll.feed in intervals
      modifies `lastArchive, `needsRepair, `torn, `raw, `rawAuxiliary
      ensures Archived(written, ok, View()) == Archive(intervals, old(View()), poll, fate, force)
    {
      var due := force || poll.feed !in lastArchive || fate.now - lastArchive[poll.feed] >= intervals[poll.feed];
      if !due {
        return false, true;
      }
      var log := (poll.feed, poll.date);
      RepairPending(poll.feed, fate);
      if log in needsRepair {
        return false, false;
      }
      if fate.append.Missing? {
        torn := torn + {log};
        needsRepair := needsRepair + {log};
        return false, false;
      }
      raw := raw + [RawRecord(poll.feed, poll.date, poll.payload)];
      if poll.feed.TripUpdates? && poll.parsed.Some? {
        rawAuxiliary := Some(poll.parsed.value.auxiliary);
      }
      if fate.append.Unreported? {
        needsRepair := needsRepair + {log};
        return false, false;
      }
      lastArchive := lastArchive[poll.feed := fate.now];
      return true, true;
    }

    /** The archive calls that come before staging: when due, and when the auxiliary state changed. */
    method ArchiveEarly(poll: Poll) returns (raised: bool, rawArchived: bool, rawOk: bool)
      requires poll.feed in intervals
      modifies `lastArchive, `needsRepair, `torn, `raw, `rawAuxiliary
      ensures raised == DigestRaised(poll)
      ensures raised ==> View() == Archive(intervals, old(View()), poll, poll.first, false).state
      ensures !raised ==> Progress(rawArchived, rawOk, View()) == ArchivedEarly(intervals, old(View()), poll)
    {
      ArchiveShape(intervals, View(), poll, poll.first, false);
      hide Archive;
      raised := false;
      rawArchived, rawOk := ArchiveRaw(poll, poll.first, false);
      if poll.parsed.Some? && poll.feed.TripUpdates? {
        if !poll.digested {
          return true, rawArchived, rawOk;
        }
        if Some(poll.parsed.value.auxiliary) != archivedAuxiliary && !rawArchived {
          rawArchived, rawOk := ArchiveRaw(poll, poll.forAuxiliary, true);
        }
      }
    }

    /** Change tracking and staging: the tracker advances only after the segment is there. */
    method StageRows(poll: Poll) returns (trackingOk: bool, spoolOk: bool)
      modifies `segments
      ensures segments == old(segments) + StagedBy(poll)
      ensures trackingOk == TrackingOk(poll) && spoolOk == SpoolOk(poll)
    {
      trackingOk, spoolOk := true, true;
      var parseOk := poll.parsed.Some?;
      if parseOk && !poll.feed.VehiclePositions? && poll.selected.None? {
        trackingOk := false;
      }
      if parseOk && trackingOk {
        var rows := if poll.feed.VehiclePositions? then poll.parsed.value.rows else poll.selected.value;
        if rows != [] && !poll.staging.RaisedBeforeStaging? {
          segments := segments + [Segment(poll.feed, poll.date, rows)];
        }
        spoolOk := poll.staging.Staged? && (poll.feed.VehiclePositions? || poll.staging.trackerCommitted);
      }
      assert segments == old(segments) + StagedBy(poll);
    }

    /** Archiving, presence, tracking, staging and the fallback, in the order they happen. */
    method ProcessBeforeJournal(poll: Poll)
      returns (raised: bool, rawArchived: bool, rawOk: bool, trackingOk: bool, spoolOk: bool, presenceOk: bool)
      requires poll.feed in intervals
      modifies this
      ensures raised == DigestRaised(poll)
      ensures raised ==> View() == Archive(intervals, old(View()), poll, poll.first, false).state
      ensures !raised ==> Progress(rawArchived, rawOk, View()) == BeforeJournal(intervals, old(View()), poll)
      ensures !raised ==>
                trackingOk == TrackingOk(poll) && spoolOk == SpoolOk(poll) && presenceOk == PresenceOk(poll)
    {
      raised, rawArchived, rawOk := ArchiveEarly(poll);
      trackingOk, spoolOk, presenceOk := true, true, true;
      if raised {
        return;
      }
      var parseOk := poll.parsed.Some?;
      if poll.feed.TripUpdates? {
        presenceOk := parseOk && poll.presenceWritten;
      }
      trackingOk, spoolOk := StageRows(poll);
      hide Archive, ArchivedEarly, StagedBy, TrackingOk, SpoolOk;
      if !parseOk || !trackingOk || !spoolOk || !presenceOk {
        if !rawArchived {
          rawArchived, rawOk := ArchiveRaw(poll, poll.fallback, true);
        }
      }
      if parseOk && poll.feed.TripUpdates? && rawArchived && rawOk {
        archivedAuxiliary := Some(poll.parsed.value.auxiliary);
      }
    }

    method ProcessResult(poll: Poll)
      requires poll.feed in intervals
      modifies this
      ensures View() == Processed(intervals, old(View()), poll)
      ensures DigestRaised(poll) ==> segments == old(segments) && journal == old(journal)
      ensures forall rows :: RowsToStage(poll, rows) && !DigestRaised(poll) && !poll.staging.RaisedBeforeStaging? ==>
                segments == old(segments) + [Segment(poll.feed, poll.date, rows)]
      ensures (forall rows :: !RowsToStage(poll, rows)) || poll.staging.RaisedBeforeStaging? ==>
                segments == old(segments)
    {
      ProcessedStages(intervals, View(), poll);
      var raised, rawArchived, rawOk, trackingOk, spoolOk, presenceOk := ProcessBeforeJournal(poll);
      hide BeforeJournal, Archive;
      if raised {
        return;
      }
      var parseOk := poll.parsed.Some?;
      if poll.journal.MonitorRaised? {
        return;
      }
      if !poll.journal.RaisedBeforeAppend? {
        var emitted := if !parseOk || !trackingOk || !spoolOk then 0
                       else if poll.feed.VehiclePositions? then |poll.parsed.value.rows|
                       else |poll.selected.value|;
        journal := journal + [Event(poll.feed, poll.date, poll.payload, parseOk, trackingOk, spoolOk, presenceOk,
                                    rawArchived, rawOk, emitted)];
      }
      if !poll.journal.Journalled? && !rawArchived {
        var _, _ := ArchiveRaw(poll, poll.late, true);
      }
    }
  }
}
