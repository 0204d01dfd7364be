/**
 Model of mergeCaptureEvent and mergeCaptureStatus (src/capture.ts): what a later delivery of
 the same capture event may add to the stored one.

 Events are normalised: a text that is present is not empty.  JSON values are compared by their
 serialisation, so a provenance value is modelled by that string.
 */
module CaptureMerge {
  import opened Common

  datatype Status = Open | Partial | Complete | Truncated | Failed

  datatype Field =
    | HostVersion | TurnId | PreviousEventId | WorkspaceId | WorkspacePath | ProjectHint | UserText | AssistantText

  datatype Note = ReasoningSummary | ToolSummary

  datatype Event = Event(
    eventId: string,
    host: string,
    conversation: string,
    continuity: string,
    timestamp: string,
    fields: map<Field, string>,
    notes: map<Note, string>,
    status: Status,
    provenance: Option<map<string, string>>)

  datatype Conflict = Identity | Continuity | OnField(field: Field) | OnNote(note: Note) | OnProvenance

  datatype Merge = Merge(updated: bool, event: Event)

  const FIELDS: seq<Field> :=
    [HostVersion, TurnId, PreviousEventId, WorkspaceId, WorkspacePath, ProjectHint, UserText, AssistantText]

  const NOTES: seq<Note> := [ReasoningSummary, ToolSummary]

  lemma AllFields(f: Field)
    ensures f in FIELDS
  {
    assert FIELDS[0] == HostVersion && FIELDS[1] == TurnId && FIELDS[2] == PreviousEventId && FIELDS[3] == WorkspaceId;
    assert FIELDS[4] == WorkspacePath && FIELDS[5] == ProjectHint && FIELDS[6] == UserText && FIELDS[7] == AssistantText;
  }

  lemma AllNotes(n: Note)
    ensures n in NOTES
  {
    assert NOTES[0] == ReasoningSummary && NOTES[1] == ToolSummary;
  }

  function MergeStatus(current: Status, incoming: Status): Status {
    if current == incoming then current
    else if incoming == Complete then Complete
    else if current == Complete then current
    else if incoming == Failed || incoming == Truncated then incoming
    else if current == Failed || current == Truncated then current
    else if incoming == Partial || current == Partial then Partial
    else Open
  }

  function Rank(status: Status): nat {
    match status
    case Open => 0
    case Partial => 1
    case Failed => 2
    case Truncated => 2
    case Complete => 3
  }

  function ProvenanceOf(e: Event): map<string, string> {
    if e.provenance.Some? then e.provenance.value else map[]
  }

  /** Two maps agree wherever both have a value. */
  predicate Agree<K, V(==)>(a: map<K, V>, b: map<K, V>) {
    forall k :: k in a && k in b ==> a[k] == b[k]
  }

  /** The second map adds nothing to the first. */
  predicate AddsNothing<K, V(==)>(a: map<K, V>, b: map<K, V>) {
    forall k :: k in b ==> k in a && a[k] == b[k]
  }

  /** The deliveries that can be merged: each clause is one of the conflicts the merge reports. */
  predicate Compatible(existing: Event, incoming: Event) {
    && existing.eventId == incoming.eventId && existing.host == incoming.host
    && existing.conversation == incoming.conversation
    && (incoming.continuity != existing.continuity ==> existing.continuity == existing.conversation)
    && Agree(existing.fields, incoming.fields)
    && (existing.status == Complete ==> AddsNothing(existing.notes, incoming.notes))
    && Agree(ProvenanceOf(existing), ProvenanceOf(incoming))
  }

  function MergedStatus(existing: Event, incoming: Event): Status {
    var next := MergeStatus(existing.status, incoming.status);
    if (next == Open || next == Partial)
      && UserText in existing.fields.Keys + incoming.fields.Keys && AssistantText in existing.fields.Keys + incoming.fields.Keys
    then Complete else next
  }

  /** Whether the status an event ends up with is the right one, from the two statuses and from whether both texts are there. */
  predicate RightStatus(stored: Status, incoming: Status, texts: bool, status: Status) {
    && (status == Complete <==> stored == Complete || incoming == Complete || (texts && stored in {Open, Partial} && incoming in {Open, Partial}))
    && (stored != Complete && incoming in {Failed, Truncated} ==> status == incoming)
    && (stored in {Failed, Truncated} && incoming in {Open, Partial} ==> status == stored)
    && (!texts && stored in {Open, Partial} && incoming in {Open, Partial} ==>
          status == if stored == Open && incoming == Open then Open else Partial)
  }

  lemma MergedStatusIsRight(existing: Event, incoming: Event)
    ensures RightStatus(existing.status, incoming.status,
                        (UserText in existing.fields || UserText in incoming.fields)
                        && (AssistantText in existing.fields || AssistantText in incoming.fields),
                        MergedStatus(existing, incoming))
  {
  }

  /** The merged event: everything of both sides, the incoming side deciding where it may. */
  function Merged(existing: Event, incoming: Event): Event {
    existing.(continuity := incoming.continuity,
              fields := existing.fields + incoming.fields,
              notes := existing.notes + incoming.notes,
              status := MergedStatus(existing, incoming),
              provenance := if incoming.provenance.Some? then Some(ProvenanceOf(existing) + incoming.provenance.value)
                            else existing.provenance)
  }

  /** Equal but for the difference between no provenance and an empty one. */
  predicate SameContent(a: Event, b: Event) {
    a.(provenance := None) == b.(provenance := None) && ProvenanceOf(a) == ProvenanceOf(b)
  }

  /** The loop over the eight write-once fields. */
  method MergeFields(existing: map<Field, string>, incoming: map<Field, string>)
    returns (conflict: Option<Conflict>, fields: map<Field, string>, updated: bool)
    ensures conflict.None? <==> Agree(existing, incoming)
    ensures conflict.None? ==> fields == existing + incoming && (updated <==> fields != existing)
    ensures conflict.Some? ==> conflict.value.OnField?
  {
    fields, updated := existing, false;
    for i := 0 to |FIELDS|
      invariant forall f :: f in FIELDS[..i] && f in existing && f in incoming ==> existing[f] == incoming[f]
      invariant forall f :: f in fields <==> f in existing || (f in FIELDS[..i] && f in incoming)
      invariant forall f :: f in fields ==> fields[f] == if f in existing then existing[f] else incoming[f]
      invariant updated <==> exists f :: f in FIELDS[..i] && f in incoming && f !in existing
    {
      var field := FIELDS[i];
      assert FIELDS[..i + 1] == FIELDS[..i] + [field];
      if field in incoming {
        if field !in existing {
          fields, updated := fields[field := incoming[field]], true;
        } else if existing[field] != incoming[field] {
          return Some(OnField(field)), fields, updated;
        }
      }
    }
    forall f ensures f in FIELDS[..|FIELDS|] { AllFields(f); }
    assert fields == existing + incoming;
    return None, fields, updated;
  }

  /** The loop over the two summaries, which may be replaced until the event is complete. */
  method MergeNotes(existing: map<Note, string>, incoming: map<Note, string>, complete: bool)
    returns (conflict: Option<Conflict>, notes: map<Note, string>, updated: bool)
    ensures conflict.None? <==> (complete ==> AddsNothing(existing, incoming))
    ensures conflict.None? ==> notes == existing + incoming && (updated <==> notes != existing)
    ensures conflict.Some? ==> conflict.value.OnNote?
  {
    notes, updated := existing, false;
    ghost var done: set<Note> := {};
    for i := 0 to |NOTES|
      invariant forall n :: n in NOTES[..i] ==> n in done
      invariant notes == existing + Only(incoming, done)
      invariant updated <==> !AddsNothing(existing, Only(incoming, done))
      invariant complete ==> !updated
    {
      var note := NOTES[i];
      assert NOTES[..i + 1] == NOTES[..i] + [note];
      OneMoreNote(existing, incoming, done, note);
      done := done + {note};
      if note in incoming && !(note in existing && existing[note] == incoming[note]) {
        if complete {
          return Some(OnNote(note)), notes, updated;
        }
        notes, updated := notes[note := incoming[note]], true;
      }
    }
    forall n ensures n in done { AllNotes(n); assert n in NOTES[..|NOTES|]; }
    assert Only(incoming, done) == incoming;
    NothingAddedIffSame(existing, incoming);
    return None, notes, updated;
  }

  function Only(m: map<Note, string>, keys: set<Note>): map<Note, string> {
    map n | n in m && n in keys :: m[n]
  }

  lemma OneMoreNote(existing: map<Note, string>, incoming: map<Note, string>, done: set<Note>, note: Note)
    ensures AddsNothing(existing, Only(incoming, done + {note})) <==>
      AddsNothing(existing, Only(incoming, done)) && (note in incoming ==> note in existing && existing[note] == incoming[note])
    ensures note in incoming ==> existing + Only(incoming, done + {note}) == (existing + Only(incoming, done))[note := incoming[note]]
    ensures note !in incoming || (note in existing && existing[note] == incoming[note]) ==>
      existing + Only(incoming, done + {note}) == existing + Only(incoming, done)
    ensures AddsNothing(existing, incoming) ==> AddsNothing(existing, Only(incoming, done + {note}))
  {
    var before, after := Only(incoming, done), Only(incoming, done + {note});
    assert forall n :: n in before ==> n in after && after[n] == before[n];
    assert forall n :: n in after ==> n == note || (n in before && before[n] == after[n]);
    assert note in incoming ==> note in after && after[note] == incoming[note];
  }

  lemma NothingAddedIffSame(existing: map<Note, string>, incoming: map<Note, string>)
    ensures AddsNothing(existing, incoming) <==> existing + incoming == existing
  {
    if existing + incoming == existing {
      forall n | n in incoming
        ensures n in existing && existing[n] == incoming[n]
      {
        assert (existing + incoming)[n] == incoming[n];
      }
    }
  }

  /** The loop over the incoming provenance keys, in whatever order they come. */
  method MergeProvenance<K(==), V(==)>(existing: map<K, V>, incoming: map<K, V>)
    returns (clash: bool, provenance: map<K, V>, updated: bool)
    ensures !clash <==> Agree(existing, incoming)
    ensures !clash ==> provenance == existing + incoming && (updated <==> provenance != existing)
  {
    provenance, updated := existing, false;
    var keys := incoming.Keys;
    ghost var done: set<K> := {};
    while keys != {}
      invariant keys !! done && keys + done == incoming.Keys
      invariant forall k :: k in done && k in existing ==> existing[k] == incoming[k]
      invariant provenance.Keys == existing.Keys + done
      invariant forall k :: k in provenance ==> provenance[k] == if k in existing then existing[k] else incoming[k]
      invariant updated <==> !(done <= existing.Keys)
      decreases keys
    {
      var key :| key in keys;
      keys, done := keys - {key}, done + {key};
      if key !in existing {
        provenance, updated := provenance[key := incoming[key]], true;
      } else if existing[key] != incoming[key] {
        return true, provenance, updated;
      }
    }
    assert done == incoming.Keys;
    Unite(existing, incoming, provenance);
    return false, provenance, updated;
  }

  /** The union of two maps that agree, by what it holds. */
  lemma Unite<K, V>(existing: map<K, V>, incoming: map<K, V>, union: map<K, V>)
    requires union.Keys == existing.Keys + incoming.Keys
    requires forall k :: k in existing && k in incoming ==> existing[k] == incoming[k]
    requires forall k :: k in union ==> union[k] == if k in existing then existing[k] else incoming[k]
    ensures union == existing + incoming
    ensures union == existing <==> incoming.Keys <= existing.Keys
  {
    if incoming.Keys <= existing.Keys {
      assert union == existing;
    }
  }

  /** The part of the merge that decides the status. */
  method MergeStatuses(existing: Event, incoming: Event, texts: bool) returns (status: Status, updated: bool)
    requires texts == (UserText in existing.fields.Keys + incoming.fields.Keys
                       && AssistantText in existing.fields.Keys + incoming.fields.Keys)
    ensures status == MergedStatus(existing, incoming) && RightStatus(existing.status, incoming.status, texts, status)
    ensures updated <==> status != existing.status
  {
    status, updated := existing.status, false;
    MergedStatusIsRight(existing, incoming);
    var next := MergeStatus(existing.status, incoming.status);
    if next != existing.status {
      status, updated := next, true;
    }
    if texts && status != Failed && status != Truncated && status != Complete {
      status, updated := Complete, true;
    }
  }

  /**
   mergeCaptureEvent.  It succeeds exactly if the identity is the same, the continuity is new or was
   only the default, and no field, provenance value, or summary of a complete event would change.  The
   merged event has everything of both sides; the incoming summaries and continuity count, and the
   status is complete once both texts are there.  It says `updated` exactly when the merged event has
   other content than the stored one.
   */
  method MergeCaptureEvent(existing: Event, incoming: Event) returns (r: Result<Merge, Conflict>)
    ensures r.Ok? <==>
      && incoming.eventId == existing.eventId && incoming.host == existing.host && incoming.conversation == existing.conversation
      && (incoming.continuity == existing.continuity || existing.continuity == existing.conversation)
      && (forall f :: f in existing.fields && f in incoming.fields ==> incoming.fields[f] == existing.fields[f])
      && (forall k :: k in ProvenanceOf(existing) && k in ProvenanceOf(incoming) ==> ProvenanceOf(incoming)[k] == ProvenanceOf(existing)[k])
      && (existing.status == Complete ==>
            forall n :: n in incoming.notes ==> n in existing.notes && incoming.notes[n] == existing.notes[n])
    ensures r.Ok? <==> Compatible(existing, incoming)
    ensures r.Ok? ==> r.value.event == Merged(existing, incoming)
    ensures r.Ok? ==>
      && r.value.event.eventId == existing.eventId && r.value.event.host == existing.host && r.value.event.conversation == existing.conversation
      && r.value.event.timestamp == existing.timestamp && r.value.event.continuity == incoming.continuity
      && r.value.event.fields == existing.fields + incoming.fields && r.value.event.notes == existing.notes + incoming.notes
      && ProvenanceOf(r.value.event) == ProvenanceOf(existing) + ProvenanceOf(incoming)
      && RightStatus(existing.status, incoming.status, UserText in r.value.event.fields && AssistantText in r.value.event.fields,
                     r.value.event.status)
    ensures r.Ok? ==> (r.value.updated <==> !SameContent(r.value.event, existing))
  {
    hide MergedStatus, MergeStatus, Merged, SameContent, RightStatus, Agree, AddsNothing;
    NothingAgrees(ProvenanceOf(existing));
    CompatibleMeans(existing, incoming);
    MergedMeans(existing, incoming);
    if existing.eventId != incoming.eventId || existing.host != incoming.host || existing.conversation != incoming.conversation {
      return Err(Identity);
    }
    var moved := incoming.continuity != existing.continuity;
    if moved && existing.continuity != existing.conversation {
      return Err(Continuity);
    }
    var conflict, fields, newFields := MergeFields(existing.fields, incoming.fields);
    if conflict.Some? { return Err(conflict.value); }
    var notes, newNotes;
    conflict, notes, newNotes := MergeNotes(existing.notes, incoming.notes, existing.status == Complete);
    if conflict.Some? { return Err(conflict.value); }
    assert fields.Keys == existing.fields.Keys + incoming.fields.Keys;
    var status, newStatus := MergeStatuses(existing, incoming, UserText in fields && AssistantText in fields);
    var event := existing.(continuity := incoming.continuity, fields := fields, notes := notes, status := status);
    var newKeys := false;
    if incoming.provenance.Some? {
      var clash, provenance;
      clash, provenance, newKeys := MergeProvenance(ProvenanceOf(existing), incoming.provenance.value);
      if clash { return Err(OnProvenance); }
      event := event.(provenance := Some(provenance));
    }
    MergedContent(existing, incoming, event);
    return Ok(Merge(moved || newFields || newNotes || newStatus || newKeys, event));
  }

  lemma CompatibleMeans(existing: Event, incoming: Event)
    ensures Compatible(existing, incoming) <==>
      && incoming.eventId == existing.eventId && incoming.host == existing.host && incoming.conversation == existing.conversation
      && (incoming.continuity == existing.continuity || existing.continuity == existing.conversation)
      && (forall f :: f in existing.fields && f in incoming.fields ==> incoming.fields[f] == existing.fields[f])
      && (forall k :: k in ProvenanceOf(existing) && k in ProvenanceOf(incoming) ==> ProvenanceOf(incoming)[k] == ProvenanceOf(existing)[k])
      && (existing.status == Complete ==>
            forall n :: n in incoming.notes ==> n in existing.notes && incoming.notes[n] == existing.notes[n])
  {
  }

  lemma MergedMeans(existing: Event, incoming: Event)
    ensures var event := Merged(existing, incoming);
      && event.eventId == existing.eventId && event.host == existing.host && event.conversation == existing.conversation
      && event.timestamp == existing.timestamp && event.continuity == incoming.continuity
      && event.fields == existing.fields + incoming.fields && event.notes == existing.notes + incoming.notes
      && ProvenanceOf(event) == ProvenanceOf(existing) + ProvenanceOf(incoming)
      && RightStatus(existing.status, incoming.status, UserText in event.fields && AssistantText in event.fields, event.status)
  {
    hide RightStatus, MergedStatus;
    MergedStatusIsRight(existing, incoming);
    assert ProvenanceOf(existing) + map[] == ProvenanceOf(existing);
  }

  lemma NothingAgrees<K, V>(a: map<K, V>)
    ensures Agree(a, map[])
  {
  }

  /** An event put together part by part is the merged event, and differs if one of its parts does. */
  lemma MergedContent(existing: Event, incoming: Event, event: Event)
    requires event.continuity == incoming.continuity
    requires event.fields == existing.fields + incoming.fields && event.notes == existing.notes + incoming.notes
    requires event.status == MergedStatus(existing, incoming)
    requires event == existing.(continuity := event.continuity, fields := event.fields, notes := event.notes,
                                status := event.status, provenance := event.provenance)
    requires event.provenance == if incoming.provenance.Some? then Some(ProvenanceOf(existing) + incoming.provenance.value)
                                 else existing.provenance
    ensures event == Merged(existing, incoming)
    ensures SameContent(event, existing) <==>
      (event.continuity == existing.continuity && event.fields == existing.fields && event.notes == existing.notes &&
       event.status == existing.status && ProvenanceOf(event) == ProvenanceOf(existing))
  {
    hide MergedStatus;
  }

  /** Delivering the same event again after it was merged is accepted and changes nothing. */
  lemma ReplayIsNoop(existing: Event, incoming: Event)
    requires Compatible(existing, incoming)
    ensures var merged := Merged(existing, incoming);
      Compatible(merged, incoming) && Merged(merged, incoming) == merged
  {
    var merged := Merged(existing, incoming);
    assert merged.fields + incoming.fields == merged.fields;
    assert merged.notes + incoming.notes == merged.notes;
    if incoming.provenance.Some? {
      assert ProvenanceOf(merged) + incoming.provenance.value == ProvenanceOf(merged);
    }
    assert merged.fields.Keys + incoming.fields.Keys == existing.fields.Keys + incoming.fields.Keys;
  }

  /** What an accepted delivery can never take back. */
  ghost predicate Extends(before: Event, after: Event) {
    && after.eventId == before.eventId && after.host == before.host && after.conversation == before.conversation
    && after.timestamp == before.timestamp
    && Rank(before.status) <= Rank(after.status)
    && (before.status == Complete ==> after.notes == before.notes)
    && (forall f :: f in before.fields ==> f in after.fields && after.fields[f] == before.fields[f])
    && (forall n :: n in before.notes ==> n in after.notes)
    && (forall k :: k in ProvenanceOf(before) ==> k in ProvenanceOf(after) && ProvenanceOf(after)[k] == ProvenanceOf(before)[k])
    && (after.continuity != before.continuity ==> before.continuity == before.conversation)
  }

  lemma MergeExtends(existing: Event, incoming: Event)
    requires Compatible(existing, incoming)
    ensures Extends(existing, Merged(existing, incoming))
  {
    if existing.status == Complete {
      assert existing.notes + incoming.notes == existing.notes;
    }
  }

  predicate HasTexts(e: Event) {
    UserText in e.fields && AssistantText in e.fields
  }

  /** Neither side says more than that the turn is under way. */
  predicate UnderWay(e: Event) {
    e.status == Open || e.status == Partial
  }

  /**
   An event that is complete exactly if it has both texts stays so under deliveries that only say that
   the turn is under way: whichever of them brings the second text completes it.
   */
  lemma {:induction false} TextsComplete(e: Event, incoming: seq<Event>)
    requires (forall d :: d in incoming ==> UnderWay(d)) && (if HasTexts(e) then e.status == Complete else UnderWay(e))
    ensures var last := Deliver(e, incoming);
      (if HasTexts(last) then last.status == Complete else UnderWay(last)) && e.fields.Keys <= last.fields.Keys
    decreases |incoming|
  {
    hide Merged, Compatible;
    if |incoming| > 0 {
      if Compatible(e, incoming[0]) {
        OneDelivery(e, incoming[0]);
        TextsComplete(Merged(e, incoming[0]), incoming[1..]);
      } else {
        TextsComplete(e, incoming[1..]);
      }
    }
  }

  lemma OneDelivery(e: Event, d: Event)
    requires UnderWay(d) && if HasTexts(e) then e.status == Complete else UnderWay(e)
    ensures var m := Merged(e, d); (if HasTexts(m) then m.status == Complete else UnderWay(m)) && e.fields.Keys <= m.fields.Keys
    ensures Merged(e, d).fields.Keys == e.fields.Keys + d.fields.Keys
  {
    MergedStatusIsRight(e, d);
  }

  /** A turn delivered in two halves is complete after the second, in whichever order they come. */
  lemma HalvesComplete(e: Event, d: Event)
    requires UnderWay(e) && UnderWay(d) && Compatible(e, d) && !HasTexts(e)
    requires (UserText in e.fields && AssistantText in d.fields) || (AssistantText in e.fields && UserText in d.fields)
    ensures Deliver(e, [d]).status == Complete && HasTexts(Deliver(e, [d]))
  {
    hide Compatible, Merged;
    OneDelivery(e, d);
    assert [d][1..] == [];
    assert Deliver(e, [d]) == Deliver(Merged(e, d), []);
  }

  /** Any sequence of deliveries; a conflicting one is refused and leaves the event alone. */
  function Deliver(e: Event, incoming: seq<Event>): Event
    decreases |incoming|
  {
    if |incoming| == 0 then e
    else Deliver(if Compatible(e, incoming[0]) then Merged(e, incoming[0]) else e, incoming[1..])
  }

  lemma {:induction false} DeliverExtends(e: Event, incoming: seq<Event>)
    ensures Extends(e, Deliver(e, incoming))
    decreases |incoming|
  {
    if |incoming| > 0 {
      var next := if Compatible(e, incoming[0]) then Merged(e, incoming[0]) else e;
      if Compatible(e, incoming[0]) {
        MergeExtends(e, incoming[0]);
      }
      DeliverExtends(next, incoming[1..]);
    }
  }

  lemma {:induction false} DeliverConcat(e: Event, first: seq<Event>, second: seq<Event>)
    ensures Deliver(e, first + second) == Deliver(Deliver(e, first), second)
    decreases |first|
  {
    if |first| == 0 {
      assert first + second == second;
    } else {
      assert (first + second)[1..] == first[1..] + second;
      DeliverConcat(if Compatible(e, first[0]) then Merged(e, first[0]) else e, first[1..], second);
    }
  }

  /** Along any sequence of deliveries the continuity changes at most once. */
  lemma ContinuityChangesOnce(e: Event, first: seq<Event>, second: seq<Event>)
    requires Deliver(e, first).continuity != e.continuity
    ensures Deliver(e, first + second).continuity == Deliver(e, first).continuity
  {
    DeliverConcat(e, first, second);
    DeliverExtends(e, first);
    DeliverExtends(Deliver(e, first), second);
  }
}
