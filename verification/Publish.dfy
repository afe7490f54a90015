/** Publication of the public snapshot: read the stored object's head, refuse older snapshots, then
    replace the object only if it is still the one that was read. Any number of requests may be
    between the two. */
module Publish {
  import opened Common

  const CLOCK_TOLERANCE_MS: int := 120000

  /** Canonical bytes; the generation time is part of them. */
  datatype Snapshot = Snapshot(generated: int, body: string)

  /** An entity tag is a digest of the stored bytes, so it comes back when the same bytes do. */
  datatype ETag = ETag(of: Snapshot)

  datatype Object = Object(content: Snapshot, etag: ETag, generated: int)

  datatype Condition = Matches(etag: ETag) | Absent

  /** A request between its head and its put, and the condition it will put under. */
  datatype Request = Request(content: Snapshot, previous: Option<Object>)

  datatype Bucket = Bucket(stored: Option<Object>, inFlight: map<nat, Request>)

  datatype Status = Accepted | InvalidTime | OlderRefused | PreconditionFailed

  predicate TimeOk(now: int, content: Snapshot) {
    -CLOCK_TOLERANCE_MS <= now - content.generated <= CLOCK_TOLERANCE_MS
  }

  predicate Newer(previous: Option<Object>, content: Snapshot) {
    previous.Some? && previous.value.generated > content.generated
  }

  function ConditionOf(previous: Option<Object>): Condition {
    if previous.Some? then Matches(previous.value.etag) else Absent
  }

  predicate Holds(stored: Option<Object>, c: Condition) {
    match c
    case Matches(etag) => stored.Some? && stored.value.etag == etag
    case Absent => stored.None?
  }

  function PutIf(stored: Option<Object>, content: Snapshot, c: Condition): Option<Object> {
    if Holds(stored, c) then Some(Object(content, ETag(content), content.generated)) else stored
  }

  /** The steps of requests: a head with its checks, a conditional put, or giving up in between. */
  datatype Step = Head(id: nat, now: int, content: Snapshot) | Put(id: nat) | Drop(id: nat)

  predicate Possible(b: Bucket, s: Step) {
    if s.Head? then s.id !in b.inFlight else s.id in b.inFlight
  }

  function Next(b: Bucket, s: Step): Bucket
    requires Possible(b, s)
  {
    match s
    case Head(id, now, content) =>
      if !TimeOk(now, content) || Newer(b.stored, content) then b
      else b.(inFlight := b.inFlight[id := Request(content, b.stored)])
    case Put(id) =>
      var r := b.inFlight[id];
      Bucket(PutIf(b.stored, r.content, ConditionOf(r.previous)), b.inFlight - {id})
    case Drop(id) => b.(inFlight := b.inFlight - {id})
  }

  /** A fresh snapshot no older than the stored one, put before anything else happens, is the stored one. */
  lemma FreshSnapshotIsPublished(b: Bucket, id: nat, now: int, content: Snapshot)
    requires id !in b.inFlight && -120000 <= now - content.generated <= 120000
    requires b.stored.Some? ==> b.stored.value.generated <= content.generated
    ensures var headed := Next(b, Head(id, now, content));
            && Possible(headed, Put(id)) && headed.stored == b.stored
            && Next(headed, Put(id)) == Bucket(Some(Object(content, ETag(content), content.generated)), b.inFlight)
  {
    assert b.inFlight[id := Request(content, b.stored)] - {id} == b.inFlight;
  }

  ghost predicate Consistent(o: Object) {
    o.etag == ETag(o.content) && o.generated == o.content.generated
  }

  ghost predicate Inv(b: Bucket) {
    && (b.stored.Some? ==> Consistent(b.stored.value))
    && forall id :: id in b.inFlight && b.inFlight[id].previous.Some? ==>
         Consistent(b.inFlight[id].previous.value) && !Newer(b.inFlight[id].previous, b.inFlight[id].content)
  }

  /** The later state has an object if the earlier had, of at least its generation. */
  ghost predicate NotOlder(before: Option<Object>, after: Option<Object>) {
    before.Some? ==> after.Some? && after.value.generated >= before.value.generated
  }

  /** Even when the stored bytes changed and changed back between head and put. */
  lemma StepKeepsInv(b: Bucket, s: Step)
    requires Inv(b) && Possible(b, s)
    ensures Inv(Next(b, s)) && NotOlder(b.stored, Next(b, s).stored)
  {
    if s.Put? && b.stored.Some? && Holds(b.stored, ConditionOf(b.inFlight[s.id].previous)) {
      var previous := b.inFlight[s.id].previous.value;
      assert previous.content == b.stored.value.content;
    }
  }

  ghost predicate Runs(b: Bucket, steps: seq<Step>, end: Bucket)
    decreases |steps|
  {
    if steps == [] then b == end else
    Possible(b, steps[0]) && Runs(Next(b, steps[0]), steps[1..], end)
  }

  lemma {:induction false} GenerationNeverDecreases(b: Bucket, steps: seq<Step>, end: Bucket)
    requires Inv(b) && Runs(b, steps, end)
    ensures Inv(end) && NotOlder(b.stored, end.stored)
    decreases |steps|
  {
    if steps != [] {
      StepKeepsInv(b, steps[0]);
      hide Next;
      GenerationNeverDecreases(Next(b, steps[0]), steps[1..], end);
    }
  }

  /** From an empty bucket, between any two moments of any run. */
  lemma {:induction false} PublishedTimeIsMonotone(earlier: seq<Step>, middle: Bucket, later: seq<Step>, end: Bucket)
    requires Runs(Bucket(None, map[]), earlier, middle) && Runs(middle, later, end)
    ensures NotOlder(middle.stored, end.stored)
    ensures end.stored.Some? ==> end.stored.value.generated == end.stored.value.content.generated
  {
    GenerationNeverDecreases(Bucket(None, map[]), earlier, middle);
    GenerationNeverDecreases(middle, later, end);
  }

  /** The worker, one call for each of the two awaits of a request. */
  class SnapshotStore {
    var stored: Option<Object>
    var inFlight: map<nat, Request>

    ghost function View(): Bucket
      reads this
    {
      Bucket(stored, inFlight)
    }

    constructor ()
      ensures View() == Bucket(None, map[]) && Inv(View())
    {
      stored, inFlight := None, map[];
    }

    method Begin(id: nat, now: int, content: Snapshot) returns (refused: Option<Status>)
      requires id !in inFlight
      modifies this
      ensures View() == Next(old(View()), Head(id, now, content))
      ensures refused == if !TimeOk(now, content) then Some(InvalidTime)
                         else if Newer(old(stored), content) then Some(OlderRefused) else None
      ensures refused == None <==>
                && -120000 <= now - content.generated <= 120000
                && (old(stored).Some? ==> old(stored).value.generated <= content.generated)
      ensures refused == Some(InvalidTime) <==> now - content.generated > 120000 || content.generated - now > 120000
      ensures stored == old(stored)
    {
      var distance := if now - content.generated < 0 then content.generated - now else now - content.generated;
      if distance > CLOCK_TOLERANCE_MS {
        return Some(InvalidTime);
      }
      var previous := stored;
      if previous.Some? && previous.value.generated > content.generated {
        return Some(OlderRefused);
      }
      inFlight := inFlight[id := Request(content, previous)];
      return None;
    }

    method Finish(id: nat) returns (status: Status)
      requires id in inFlight && Inv(View())
      modifies this
      ensures View() == Next(old(View()), Put(id)) && Inv(View()) && NotOlder(old(stored), stored)
      ensures status == Accepted <==> Holds(old(stored), ConditionOf(old(inFlight)[id].previous))
      ensures status == Accepted <==>
                var previous := old(inFlight)[id].previous;
                || (previous.None? && old(stored).None?)
                || (previous.Some? && old(stored).Some? && previous.value.etag == old(stored).value.etag)
      ensures status == Accepted ==> stored.Some? && stored.value.content == old(inFlight)[id].content
      ensures status != Accepted ==> status == PreconditionFailed && stored == old(stored)
    {
      StepKeepsInv(View(), Put(id));
      var r := inFlight[id];
      inFlight := inFlight - {id};
      var matches := if r.previous.Some? then stored.Some? && stored.value.etag == r.previous.value.etag
                     else stored.None?;
      if matches {
        stored := Some(Object(r.content, ETag(r.content), r.content.generated));
        return Accepted;
      }
      return PreconditionFailed;
    }
  }
}
