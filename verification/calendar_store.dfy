/** The event store of the calendar context: `addEvent`, `updateEvent` and
    `deleteEvent` over the sequence of event records (src/context/CalendarContext.tsx).
    Each operation is the state update it hands to `setEvents`, written as a
    pure function from the previous sequence to the next one. */
module CalendarStore {
  import opened Wrappers
  import Seqs

  const DefaultColor: string := "bg-blue-500"

  /** One stored event. Records created from a language model's arguments may
      lack any field but the id, so every other field is optional. */
  datatype Event = Event(
    id: string,
    title: Option<string>,
    start: Option<string>,
    end: Option<string>,
    description: Option<string>,
    color: Option<string>,
    isAllDay: Option<bool>)

  /** A plain object of event fields: the argument of `addEvent`, the patch of
      `updateEvent`, and the parsed arguments of a tool call. */
  datatype Fields = Fields(
    id: Option<string>,
    title: Option<string>,
    start: Option<string>,
    end: Option<string>,
    description: Option<string>,
    color: Option<string>,
    isAllDay: Option<bool>)

  /** JavaScript truthiness of an optional string: present and non-empty. */
  predicate Truthy(s: Option<string>) {
    s.Some? && s.value != ""
  }

  /** The record `addEvent` builds: the input spread, then a fresh id and a colour. */
  function NewEvent(input: Fields, freshId: string): (e: Event)
    ensures e.id == freshId
    ensures e.title == input.title && e.start == input.start && e.end == input.end
    ensures e.description == input.description && e.isAllDay == input.isAllDay
    ensures Truthy(input.color) ==> e.color == input.color
    ensures !Truthy(input.color) ==> e.color == Some(DefaultColor)
    ensures Truthy(e.color)
  {
    Event(freshId, input.title, input.start, input.end, input.description,
          Some(if Truthy(input.color) then input.color.value else DefaultColor),
          input.isAllDay)
  }

  datatype Added = Added(events: seq<Event>, created: Event)

  /** `addEvent(input)`: appends the new record and returns it. The id comes from
      `Math.random` in the source and is a parameter here. */
  function AddEvent(events: seq<Event>, input: Fields, freshId: string): (r: Added)
    ensures |r.events| == |events| + 1
    ensures r.events[..|events|] == events
    ensures r.events[|events|] == r.created
    ensures r.created.id == freshId
  {
    Added(events + [NewEvent(input, freshId)], NewEvent(input, freshId))
  }

  /** One key of an object spread: the later value wins when it is present. */
  function Override<T>(earlier: Option<T>, later: Option<T>): Option<T> {
    if later.Some? then later else earlier
  }

  /** `{ ...evt, ...updatedFields }`: every field the patch carries wins. An empty
      patch keeps the event, and a patch carrying every field replaces it. */
  function Merge(e: Event, patch: Fields): (m: Event)
    ensures NoPatch(patch) ==> m == e
    ensures FullPatch(patch) ==>
              m == Event(patch.id.value, patch.title, patch.start, patch.end,
                         patch.description, patch.color, patch.isAllDay)
  {
    Event(
      Override(Some(e.id), patch.id).value,
      Override(e.title, patch.title),
      Override(e.start, patch.start),
      Override(e.end, patch.end),
      Override(e.description, patch.description),
      Override(e.color, patch.color),
      Override(e.isAllDay, patch.isAllDay))
  }

  /** `{ ...p, ...q }`: the single patch that does what `p` then `q` do. */
  function PatchThen(p: Fields, q: Fields): Fields {
    Fields(
      Override(p.id, q.id),
      Override(p.title, q.title),
      Override(p.start, q.start),
      Override(p.end, q.end),
      Override(p.description, q.description),
      Override(p.color, q.color),
      Override(p.isAllDay, q.isAllDay))
  }

  /** A patch that carries every field. */
  predicate FullPatch(patch: Fields) {
    && patch.id.Some? && patch.title.Some? && patch.start.Some? && patch.end.Some?
    && patch.description.Some? && patch.color.Some? && patch.isAllDay.Some?
  }

  /** Merging the same patch twice equals merging it once. */
  lemma MergeIdempotent(e: Event, patch: Fields)
    ensures Merge(Merge(e, patch), patch) == Merge(e, patch)
  {
  }

  /** Merging `p` and then `q` equals merging `{ ...p, ...q }` once. */
  lemma MergeSequential(e: Event, p: Fields, q: Fields)
    ensures Merge(Merge(e, p), q) == Merge(e, PatchThen(p, q))
  {
  }

  /** A patch carrying every field gives the same record whatever it is merged into. */
  lemma MergeFullPatch(e: Event, other: Event, patch: Fields)
    requires FullPatch(patch)
    ensures Merge(e, patch) == Merge(other, patch)
  {
  }

  predicate NoPatch(patch: Fields) {
    patch == Fields(None, None, None, None, None, None, None)
  }

  /** `updateEvent(id, patch)`: a map over the events that merges the patch into
      every event whose id matches. */
  function UpdateEvent(events: seq<Event>, id: string, patch: Fields): (r: seq<Event>)
    ensures |r| == |events|
    ensures forall i :: 0 <= i < |events| && events[i].id != id ==> r[i] == events[i]
    ensures forall i :: 0 <= i < |events| && events[i].id == id ==> r[i] == Merge(events[i], patch)
    decreases |events|
  {
    if |events| == 0 then []
    else [if events[0].id == id then Merge(events[0], patch) else events[0]]
         + UpdateEvent(events[1..], id, patch)
  }

  predicate HasId(events: seq<Event>, id: string) {
    exists i :: 0 <= i < |events| && events[i].id == id
  }

  /** The filter predicate of `deleteEvent`. */
  function KeepUnless(id: string): Event -> bool {
    (e: Event) => e.id != id
  }

  /** `deleteEvent(id)`: keeps the events whose id differs. */
  function DeleteEvent(events: seq<Event>, id: string): (r: seq<Event>)
    ensures forall i :: 0 <= i < |r| ==> r[i].id != id && r[i] in events
    ensures forall i :: 0 <= i < |events| && events[i].id != id ==> events[i] in r
    ensures |r| <= |events|
  {
    Seqs.Filter(events, KeepUnless(id))
  }

  /** Deleting an id that no event carries changes nothing. */
  lemma DeleteMissingId(events: seq<Event>, id: string)
    requires !HasId(events, id)
    ensures DeleteEvent(events, id) == events
  {
    Seqs.FilterKeepsAll(events, KeepUnless(id));
  }

  /** Deleting an id that some event carries shrinks the list. */
  lemma DeletePresentId(events: seq<Event>, id: string)
    requires HasId(events, id)
    ensures |DeleteEvent(events, id)| < |events|
  {
    var k :| 0 <= k < |events| && events[k].id == id;
    var p := KeepUnless(id);
    assert events == events[..k] + [events[k]] + events[k + 1..];
    Seqs.FilterConcat(events[..k] + [events[k]], events[k + 1..], p);
    Seqs.FilterConcat(events[..k], [events[k]], p);
    assert Seqs.Filter([events[k]], p) == [];
  }

  /** Deleting twice equals deleting once. */
  lemma DeleteIdempotent(events: seq<Event>, id: string)
    ensures DeleteEvent(DeleteEvent(events, id), id) == DeleteEvent(events, id)
  {
    Seqs.FilterIdempotent(events, KeepUnless(id));
  }

  /** The survivors keep their relative order: deleting from a concatenation
      deletes from each part. */
  lemma DeleteKeepsOrder(a: seq<Event>, b: seq<Event>, id: string)
    ensures DeleteEvent(a + b, id) == DeleteEvent(a, id) + DeleteEvent(b, id)
  {
    Seqs.FilterConcat(a, b, KeepUnless(id));
  }

  /** Deleting the fresh id of an added event undoes the addition. */
  lemma DeleteUndoesAdd(events: seq<Event>, input: Fields, freshId: string)
    requires !HasId(events, freshId)
    ensures DeleteEvent(AddEvent(events, input, freshId).events, freshId) == events
  {
    var e := NewEvent(input, freshId);
    DeleteKeepsOrder(events, [e], freshId);
    DeleteMissingId(events, freshId);
    assert Seqs.Filter([e], KeepUnless(freshId)) == [];
  }

  /** Updating an id that no event carries changes nothing. */
  lemma {:induction false} UpdateMissingId(events: seq<Event>, id: string, patch: Fields)
    ensures !HasId(events, id) ==> UpdateEvent(events, id, patch) == events
    decreases |events|
  {
    if |events| > 0 && !HasId(events, id) {
      forall j | 0 <= j < |events[1..]| ensures events[1..][j].id != id {
        assert events[1..][j] == events[j + 1];
      }
      UpdateMissingId(events[1..], id, patch);
    }
  }

  /** An empty patch changes nothing. */
  lemma UpdateWithEmptyPatch(events: seq<Event>, id: string, patch: Fields)
    requires NoPatch(patch)
    ensures UpdateEvent(events, id, patch) == events
  {
  }

  /** Applying the same update twice equals applying it once, even when the
      patch renames the matching events. */
  lemma UpdateIdempotent(events: seq<Event>, id: string, patch: Fields)
    ensures UpdateEvent(UpdateEvent(events, id, patch), id, patch) == UpdateEvent(events, id, patch)
  {
    var once := UpdateEvent(events, id, patch);
    var twice := UpdateEvent(once, id, patch);
    forall i | 0 <= i < |events| ensures twice[i] == once[i] {
      if events[i].id == id && once[i].id == id {
        assert Merge(Merge(events[i], patch), patch) == Merge(events[i], patch);
      }
    }
  }

  /** Two updates of the same id equal one update with the combined patch,
      provided the first does not rename the events it matches. */
  lemma UpdateSequential(events: seq<Event>, id: string, p: Fields, q: Fields)
    requires p.id.None? || p.id == Some(id)
    ensures UpdateEvent(UpdateEvent(events, id, p), id, q) == UpdateEvent(events, id, PatchThen(p, q))
  {
    var once := UpdateEvent(events, id, p);
    var twice := UpdateEvent(once, id, q);
    var combined := UpdateEvent(events, id, PatchThen(p, q));
    forall i | 0 <= i < |events| ensures twice[i] == combined[i] {
      if events[i].id == id {
        assert once[i] == Merge(events[i], p);
        assert once[i].id == id;
        MergeSequential(events[i], p, q);
      }
    }
  }
}
