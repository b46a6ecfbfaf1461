/** The activity store of the lesson-planning editor: the list of activity
    records, the counter that numbers new activities, and the display order
    of the activity form blocks, which `renumberActivities` reads back when
    it reassigns ids after a delete. */
module Activities {
  import opened JsText

  /** One planned learning activity; every field but `id` is the text of
      its form control. */
  datatype Activity = Activity(
    id: int,
    interaction: string,
    alp: string,
    keyApp: string,
    time: string,
    details: string,
    tech: string)

  /** The fields a caller of `addActivity` may supply (a stored snapshot
      entry, say); a supplied field, `id` included, overrides the default. */
  datatype ActivityData = ActivityData(
    id: Option<int>,
    interaction: Option<string>,
    alp: Option<string>,
    keyApp: Option<string>,
    time: Option<string>,
    details: Option<string>,
    tech: Option<string>)

  /** The form controls that carry a `data-field` attribute. */
  datatype Field = Interaction | Alp | KeyApp | Time | Details | Tech

  /** The values of the interaction-type select, in the order of the map's rows. */
  const InteractionTypes: seq<string> := ["community", "class", "group", "individual"]

  /** The values of the active-learning-process select. */
  const AlpStrategies: seq<string> := ["activate", "promote", "facilitate", "monitor"]

  /** The values of the key-application select, and their labels. */
  const KeyApplications: seq<string> := [
    "support-assessment", "foster-conceptual", "provide-differentiation",
    "facilitate-learning-together", "develop-metacognition",
    "enable-personalisation", "embed-scaffolding", "increase-motivation"]

  const KeyApplicationLabels: seq<string> := [
    "Support Assessment for Learning", "Foster Conceptual Change", "Provide Differentiation",
    "Facilitate Learning Together", "Develop Metacognition",
    "Enable Personalisation", "Embed Scaffolding", "Increase Motivation"]

  const NoData: ActivityData := ActivityData(None, None, None, None, None, None, None)

  /** The record `renumberActivities` makes up for a form block whose id
      matches no record (its id is then set to the new number). */
  const Blank: Activity := Activity(0, "", "", "", "", "", "")

  function GetOr<T>(o: Option<T>, default: T): T {
    match o
    case Some(v) => v
    case None => default
  }

  /** The record `addActivity` pushes when the counter has just become `counter`. */
  function NewActivity(data: ActivityData, counter: int): Activity {
    Activity(
      GetOr(data.id, counter),
      GetOr(data.interaction, ""),
      GetOr(data.alp, ""),
      GetOr(data.keyApp, ""),
      GetOr(data.time, "5"),
      GetOr(data.details, ""),
      GetOr(data.tech, ""))
  }

  function FieldOf(a: Activity, f: Field): string {
    match f
    case Interaction => a.interaction
    case Alp => a.alp
    case KeyApp => a.keyApp
    case Time => a.time
    case Details => a.details
    case Tech => a.tech
  }

  function WithField(a: Activity, f: Field, v: string): (r: Activity)
    ensures r.id == a.id
    ensures FieldOf(r, f) == v
    ensures forall g :: g != f ==> FieldOf(r, g) == FieldOf(a, g)
  {
    match f
    case Interaction => a.(interaction := v)
    case Alp => a.(alp := v)
    case KeyApp => a.(keyApp := v)
    case Time => a.(time := v)
    case Details => a.(details := v)
    case Tech => a.(tech := v)
  }

  /** `activities.find(a => a.id === id)`, as an index. This is the
      first-match search of `JsText.IndexOf`, but over a field of the
      element rather than the element itself, so it is written out here. */
  function FirstWithId(acts: seq<Activity>, id: int): (r: Option<nat>)
    ensures r.Some? ==> r.value < |acts| && acts[r.value].id == id
    ensures r.Some? ==> forall j :: 0 <= j < r.value ==> acts[j].id != id
    ensures r.None? ==> forall j :: 0 <= j < |acts| ==> acts[j].id != id
  {
    if acts == [] then None
    else if acts[0].id == id then Some(0)
    else match FirstWithId(acts[1..], id)
      case None => None
      case Some(k) => Some(k + 1)
  }

  /** The first record is the one `find` returns, wherever else the id occurs. */
  lemma FirstWithIdAt(acts: seq<Activity>, id: int, k: nat)
    requires k < |acts| && acts[k].id == id
    requires forall j :: 0 <= j < k ==> acts[j].id != id
    ensures FirstWithId(acts, id) == Some(k)
  {
  }

  /** `activities.find(a => a.id === oldId) || { ...blank fields }`. */
  function Lookup(acts: seq<Activity>, id: int): Activity {
    match FirstWithId(acts, id)
    case Some(k) => acts[k]
    case None => Blank
  }

  /** The time a form edit stores: a value that parses to a negative
      integer is replaced by "0", anything else is kept verbatim. */
  function NormalizeTime(v: string): string {
    match ParseInt(v)
    case Some(n) => if n < 0 then "0" else v
    case None => v
  }

  /** A stored time never parses to a negative number, and it stands for
      the same number of minutes as what was typed. */
  lemma NormalizeTimeNonNegative(v: string)
    ensures ParseInt(NormalizeTime(v)).None? || ParseInt(NormalizeTime(v)).value >= 0
    ensures Minutes(NormalizeTime(v)) == Minutes(v)
  {
    if ParseInt(v).Some? && ParseInt(v).value < 0 {
      ParseIntOfDecimalAlone(0);
      assert Decimal(0) == "0";
    }
  }

  /** `handleActivityChange`: the edit of control `field` of the form block
      with id `id`. None for the id stands for NaN, None for the field for
      a control without `data-field`. */
  function ChangeActivity(acts: seq<Activity>, id: Option<int>, field: Option<Field>, value: string): seq<Activity> {
    if id.None? || id.value == 0 || field.None? then acts
    else match FirstWithId(acts, id.value)
      case None => acts
      case Some(k) =>
        var v := if field.value == Time then NormalizeTime(value) else value;
        acts[k := WithField(acts[k], field.value, v)]
  }

  /** An edit changes only the named field of the first record with the
      edited id, stores times through NormalizeTime, and changes nothing
      when no record has that id. */
  lemma ChangeActivityEffect(acts: seq<Activity>, id: int, field: Field, value: string)
    requires id != 0
    ensures var r := ChangeActivity(acts, Some(id), Some(field), value);
      && |r| == |acts|
      && (forall i :: 0 <= i < |acts| ==> r[i].id == acts[i].id)
      && ((forall i :: 0 <= i < |acts| ==> acts[i].id != id) ==> r == acts)
      && forall k :: 0 <= k < |acts| && acts[k].id == id && (forall j :: 0 <= j < k ==> acts[j].id != id) ==>
          && (forall i :: 0 <= i < |acts| && i != k ==> r[i] == acts[i])
          && FieldOf(r[k], field) == (if field == Time then NormalizeTime(value) else value)
          && (forall g :: g != field ==> FieldOf(r[k], g) == FieldOf(acts[k], g))
  {
    forall k | 0 <= k < |acts| && acts[k].id == id && (forall j :: 0 <= j < k ==> acts[j].id != id)
      ensures FirstWithId(acts, id) == Some(k)
    {
      FirstWithIdAt(acts, id, k);
    }
  }

  /** `activities.filter(a => a.id !== id)`. */
  function WithoutId(acts: seq<Activity>, id: int): (r: seq<Activity>)
    ensures |r| <= |acts|
    ensures forall i :: 0 <= i < |r| ==> r[i].id != id
  {
    if acts == [] then []
    else (if acts[0].id == id then [] else [acts[0]]) + WithoutId(acts[1..], id)
  }

  /** Removing the form block whose `data-id` is `id` (the first such). */
  function RemoveFirst(items: seq<int>, id: int): seq<int> {
    if items == [] then []
    else if items[0] == id then items[1..]
    else [items[0]] + RemoveFirst(items[1..], id)
  }

  /** The ids `1..n` in order. */
  function Range(n: nat): (r: seq<int>)
    ensures |r| == n
  {
    seq(n, i => i + 1)
  }

  /** The form-block ids follow the display order. */
  predicate IsRange(items: seq<int>) {
    items == Range(|items|)
  }

  /** Form-block ids in display order: positive and strictly increasing.
      The store keeps them `1..N` and a delete removes one of them, so
      they have this shape whenever `renumberActivities` runs. */
  predicate Ascending(items: seq<int>) {
    && (forall i :: 0 <= i < |items| ==> items[i] >= i + 1)
    && (forall i, j :: 0 <= i < j < |items| ==> items[i] < items[j])
  }

  /** Record `i` has id `i + 1`. */
  predicate Synced(acts: seq<Activity>) {
    forall i :: 0 <= i < |acts| ==> acts[i].id == i + 1
  }

  /** What `renumberActivities` leaves in `activities`: one record per form
      block, in display order, carrying the fields of the record found by
      the block's old id (or blank fields) under the new id `index + 1`. */
  function Renumbered(acts: seq<Activity>, items: seq<int>): (r: seq<Activity>)
    ensures |r| == |items| && Synced(r)
  {
    seq(|items|, i requires 0 <= i < |items| => Lookup(acts, items[i]).(id := i + 1))
  }

  /** The loop of `renumberActivities` as written: `find` runs over the old
      list while the loop is reassigning the ids of the records it has
      already visited. Because the block ids are ascending, a record that
      has been given its new id is never found again, so the result is the
      lookup in the original list. */
  method RenumberPass(records: seq<Activity>, items: seq<int>) returns (renumbered: seq<Activity>, newItems: seq<int>)
    requires Ascending(items)
    ensures renumbered == Renumbered(records, items)
    ensures |newItems| == |items| && IsRange(newItems)
  {
    var work := records;
    renumbered, newItems := [], [];
    var index := 0;
    while index < |items|
      invariant 0 <= index <= |items|
      invariant |work| == |records|
      invariant renumbered == Renumbered(records, items[..index])
      invariant |newItems| == index && IsRange(newItems)
      invariant forall j :: 0 <= j < |work| ==>
        work[j] == records[j] ||
        (records[j].id in items[..index] && 1 <= work[j].id <= index && work[j] == records[j].(id := work[j].id))
    {
      var oldId := items[index];
      var newId := index + 1;
      assert oldId !in items[..index];
      forall j | 0 <= j < |work| ensures work[j].id == oldId <==> records[j].id == oldId {
      }
      var found := FirstWithId(work, oldId);
      var activity;
      if found.Some? {
        FirstWithIdAt(records, oldId, found.value);
        work := work[found.value := work[found.value].(id := newId)];
        activity := work[found.value];
      } else {
        assert FirstWithId(records, oldId).None?;
        activity := Blank.(id := newId);
      }
      assert activity == Lookup(records, oldId).(id := newId);
      RenumberedStep(records, items, index);
      renumbered := renumbered + [activity];
      newItems := newItems + [newId];
      index := index + 1;
    }
    assert items[..index] == items;
  }

  lemma RenumberedStep(records: seq<Activity>, items: seq<int>, index: nat)
    requires index < |items|
    ensures Renumbered(records, items[..index + 1])
         == Renumbered(records, items[..index]) + [Lookup(records, items[index]).(id := index + 1)]
  {
    assert items[..index + 1] == items[..index] + [items[index]];
  }

  /** Renumbering a list that is already numbered 1..N, in that display
      order, gives it back unchanged. */
  lemma RenumberSyncedIdentity(acts: seq<Activity>)
    requires Synced(acts)
    ensures Renumbered(acts, Range(|acts|)) == acts
  {
    forall i | 0 <= i < |acts| ensures Lookup(acts, i + 1) == acts[i] {
      FirstWithIdAt(acts, i + 1, i);
    }
  }

  lemma LookupPastHead(acts: seq<Activity>, id: int)
    requires acts != [] && acts[0].id != id
    ensures Lookup(acts, id) == Lookup(acts[1..], id)
  {
  }

  /** Filtering out one id changes the lookup of no other id. */
  lemma {:induction false} LookupWithoutId(acts: seq<Activity>, gone: int, id: int)
    requires id != gone
    ensures Lookup(WithoutId(acts, gone), id) == Lookup(acts, id)
  {
    if acts != [] {
      var rest := WithoutId(acts[1..], gone);
      LookupWithoutId(acts[1..], gone, id);
      if acts[0].id == gone {
        assert WithoutId(acts, gone) == rest;
        LookupPastHead(acts, id);
      } else {
        var kept := [acts[0]] + rest;
        assert WithoutId(acts, gone) == kept;
        if acts[0].id != id {
          assert kept[1..] == rest;
          LookupPastHead(kept, id);
          LookupPastHead(acts, id);
        }
      }
    }
  }

  /** Deleting by id carries every other form block's record over: the
      renumbering after the filter reads the same records it would have
      read before it. */
  lemma DeleteCarriesFields(acts: seq<Activity>, items: seq<int>, gone: int)
    requires gone !in items
    ensures Renumbered(WithoutId(acts, gone), items) == Renumbered(acts, items)
  {
    forall i | 0 <= i < |items|
      ensures Lookup(WithoutId(acts, gone), items[i]) == Lookup(acts, items[i])
    {
      LookupWithoutId(acts, gone, items[i]);
    }
  }

  lemma {:induction false} RemoveFirstAt(items: seq<int>, id: int, k: nat)
    requires k < |items| && items[k] == id
    requires forall j :: 0 <= j < k ==> items[j] != id
    ensures RemoveFirst(items, id) == items[..k] + items[k + 1..]
  {
    if k > 0 {
      RemoveFirstAt(items[1..], id, k - 1);
      assert items[..k] == [items[0]] + items[1..][..k - 1];
    }
  }

  lemma {:induction false} RemoveFirstAbsent(items: seq<int>, id: int)
    requires id !in items
    ensures RemoveFirst(items, id) == items
  {
    if items != [] {
      RemoveFirstAbsent(items[1..], id);
    }
  }

  /** Removing a block from a list numbered 1..N leaves the ids ascending,
      as `renumberActivities` needs. */
  lemma RemoveFirstAscending(items: seq<int>, id: int)
    requires IsRange(items)
    ensures Ascending(RemoveFirst(items, id))
  {
    if 1 <= id <= |items| {
      RangeWithout(|items|, id);
    } else {
      RemoveFirstAbsent(items, id);
    }
  }

  /** Removing block `k` from the blocks 1..n leaves 1..k-1 followed by
      k+1..n. */
  lemma RangeWithout(n: nat, k: int)
    requires 1 <= k <= n
    ensures var rest := RemoveFirst(Range(n), k);
      && |rest| == n - 1
      && forall i :: 0 <= i < n - 1 ==> rest[i] == if i < k - 1 then i + 1 else i + 2
  {
    RemoveFirstAt(Range(n), k, k - 1);
  }

  /** Deleting the form block with id `k` from a store numbered 1..N drops
      exactly the `k`-th record; the records after it move up one place
      and take the id of their new position, and those before it keep
      theirs. */
  lemma DeleteShiftsLater(acts: seq<Activity>, k: int)
    requires Synced(acts) && 1 <= k <= |acts|
    ensures Renumbered(WithoutId(acts, k), RemoveFirst(Range(|acts|), k))
         == seq(|acts| - 1, i requires 0 <= i < |acts| - 1 => if i < k - 1 then acts[i] else acts[i + 1].(id := i + 1))
  {
    var rest := RemoveFirst(Range(|acts|), k);
    RangeWithout(|acts|, k);
    DeleteCarriesFields(acts, rest, k);
    RenumberShifted(acts, k);
  }

  lemma KeepId(a: Activity, id: int)
    requires a.id == id
    ensures a.(id := id) == a
  {
  }

  /** Renumbering the blocks left after block `k` goes keeps the records
      before the gap and gives those after it the id of their new place. */
  lemma RenumberShifted(acts: seq<Activity>, k: int)
    requires Synced(acts) && 1 <= k <= |acts|
    ensures Renumbered(acts, RemoveFirst(Range(|acts|), k))
         == seq(|acts| - 1, i requires 0 <= i < |acts| - 1 => if i < k - 1 then acts[i] else acts[i + 1].(id := i + 1))
  {
    var n := |acts|;
    var rest := RemoveFirst(Range(n), k);
    LookupShifted(acts, k);
    var r := Renumbered(acts, rest);
    var shifted := seq(n - 1, i requires 0 <= i < n - 1 => if i < k - 1 then acts[i] else acts[i + 1].(id := i + 1));
    forall i | 0 <= i < k - 1
      ensures r[i] == shifted[i]
    {
      assert r[i] == Lookup(acts, rest[i]).(id := i + 1);
      assert Lookup(acts, rest[i]) == acts[i];
      KeepId(acts[i], i + 1);
      assert shifted[i] == acts[i];
    }
    forall i | k - 1 <= i < n - 1
      ensures r[i] == shifted[i]
    {
      assert r[i] == Lookup(acts, rest[i]).(id := i + 1);
    }
    assert r == shifted;
  }

  /** After block `k` goes, the block at position `i` finds record `i` before
      the gap and record `i + 1` after it. */
  lemma LookupShifted(acts: seq<Activity>, k: int)
    requires Synced(acts) && 1 <= k <= |acts|
    ensures |RemoveFirst(Range(|acts|), k)| == |acts| - 1
    ensures forall i :: 0 <= i < k - 1 ==> Lookup(acts, RemoveFirst(Range(|acts|), k)[i]) == acts[i]
    ensures forall i :: k - 1 <= i < |acts| - 1 ==> Lookup(acts, RemoveFirst(Range(|acts|), k)[i]) == acts[i + 1]
  {
    var rest := RemoveFirst(Range(|acts|), k);
    RangeWithout(|acts|, k);
    forall i | 0 <= i < k - 1
      ensures Lookup(acts, rest[i]) == acts[i]
    {
      FirstWithIdAt(acts, i + 1, i);
    }
    forall i | k - 1 <= i < |acts| - 1
      ensures Lookup(acts, rest[i]) == acts[i + 1]
    {
      FirstWithIdAt(acts, i + 2, i + 1);
    }
  }

  /** Deleting an id that no form block carries leaves a store numbered
      1..N as it was. */
  lemma DeleteAbsentIsNoOp(acts: seq<Activity>, k: int)
    requires Synced(acts) && (k < 1 || k > |acts|)
    ensures Renumbered(WithoutId(acts, k), RemoveFirst(Range(|acts|), k)) == acts
  {
    RemoveFirstAbsent(Range(|acts|), k);
    DeleteCarriesFields(acts, Range(|acts|), k);
    RenumberSyncedIdentity(acts);
  }

  /** `deleteLastActivity` on a store numbered 1..N keeps every record but
      the last, unchanged. */
  lemma DeleteLastKeepsPrefix(acts: seq<Activity>)
    requires Synced(acts) && |acts| > 0
    ensures Renumbered(acts[..|acts| - 1], Range(|acts|)[..|acts| - 1]) == acts[..|acts| - 1]
  {
    var prefix := acts[..|acts| - 1];
    assert Range(|acts|)[..|acts| - 1] == Range(|prefix|);
    RenumberSyncedIdentity(prefix);
  }

  /** The records `loadState` leaves behind: `addActivity` replayed over
      the stored entries from an empty store and a zero counter. */
  function Replayed(stored: seq<ActivityData>): (r: seq<Activity>)
    ensures |r| == |stored|
  {
    seq(|stored|, i requires 0 <= i < |stored| => NewActivity(stored[i], i + 1))
  }

  /** What `saveState` writes for one record: every field, the id included. */
  function Snapshot(a: Activity): ActivityData {
    ActivityData(Some(a.id), Some(a.interaction), Some(a.alp), Some(a.keyApp),
                 Some(a.time), Some(a.details), Some(a.tech))
  }

  /** Loading what was saved reproduces the activity list field for field. */
  lemma LoadSavedRoundTrip(acts: seq<Activity>)
    ensures Replayed(seq(|acts|, i requires 0 <= i < |acts| => Snapshot(acts[i]))) == acts
  {
  }

  /** After a load, record ids follow the display order exactly when no
      stored entry carries an id other than its position. */
  lemma LoadedSyncedIff(stored: seq<ActivityData>)
    ensures Synced(Replayed(stored)) <==>
      forall i :: 0 <= i < |stored| ==> stored[i].id.None? || stored[i].id.value == i + 1
  {
    var r := Replayed(stored);
    if Synced(r) {
      forall i | 0 <= i < |stored| ensures stored[i].id.None? || stored[i].id.value == i + 1 {
        assert r[i].id == i + 1;
      }
    }
  }

  /** The global `activities`, `activityCounter` and the `data-id` of each
      `.activity-item` block, in display order. */
  class ActivityStore {
    var activities: seq<Activity>
    var items: seq<int>
    var counter: int

    /** At rest there is one form block per record, the blocks are
        numbered 1..N in display order and the counter is N. */
    ghost predicate Valid()
      reads this
    {
      |activities| == |items| == counter && IsRange(items)
    }

    constructor ()
      ensures Valid() && activities == [] && items == []
    {
      activities, items, counter := [], [], 0;
    }

    /** `addActivity(activityData)`: the counter goes up by one, one record
        built from the defaults and the supplied fields is appended, and
        a form block with the new counter value is appended. */
    method AddActivity(data: ActivityData)
      requires Valid()
      modifies this
      ensures Valid()
      ensures counter == old(counter) + 1
      ensures activities == old(activities) + [NewActivity(data, counter)]
      ensures items == old(items) + [counter]
      ensures Synced(old(activities)) && (data.id.None? || data.id.value == counter) ==> Synced(activities)
    {
      counter := counter + 1;
      activities := activities + [NewActivity(data, counter)];
      items := items + [counter];
    }

    /** `handleActivityChange`: only the edited field of the record with
        the edited id changes; ids, blocks and the counter do not. */
    method HandleActivityChange(id: Option<int>, field: Option<Field>, value: string)
      requires Valid()
      modifies this
      ensures Valid()
      ensures activities == ChangeActivity(old(activities), id, field, value)
      ensures items == old(items) && counter == old(counter)
      ensures Synced(old(activities)) ==> Synced(activities)
    {
      activities := ChangeActivity(activities, id, field, value);
      if id.Some? && id.value != 0 && field.Some? {
        ChangeActivityEffect(old(activities), id.value, field.value, value);
      }
    }

    /** `renumberActivities`: records follow the display order of the
        blocks and get ids 1..N, the blocks are renumbered 1..N and the
        counter becomes N. */
    method RenumberActivities()
      requires Ascending(items)
      modifies this
      ensures Valid() && Synced(activities)
      ensures activities == Renumbered(old(activities), old(items))
    {
      activities, items := RenumberPass(activities, items);
      counter := |activities|;
    }

    /** `deleteLastActivity`: nothing happens on an empty list; otherwise
        the last block and the last record go and the rest is renumbered. */
    method DeleteLastActivity()
      requires Valid()
      modifies this
      ensures Valid() && (old(activities) != [] ==> Synced(activities))
      ensures old(activities) == [] ==> activities == old(activities) && counter == old(counter)
      ensures old(activities) != [] ==>
        activities == Renumbered(old(activities)[..|old(activities)| - 1], old(items)[..|old(items)| - 1])
    {
      if |activities| == 0 {
        return;
      }
      items := items[..|items| - 1];
      activities := activities[..|activities| - 1];
      RenumberActivities();
    }

    /** The delete button of the block with id `id` (`handleActivityClick`):
        that block and every record with that id go, then the rest is
        renumbered. */
    method DeleteActivity(id: int)
      requires Valid()
      modifies this
      ensures Valid() && Synced(activities)
      ensures activities == Renumbered(WithoutId(old(activities), id), RemoveFirst(old(items), id))
    {
      RemoveFirstAscending(items, id);
      items := RemoveFirst(items, id);
      activities := WithoutId(activities, id);
      RenumberActivities();
    }

    /** The in-memory part of `loadState`: the store is emptied, the
        counter reset, and `addActivity` replayed over the stored list. */
    method LoadState(stored: seq<ActivityData>)
      modifies this
      ensures Valid()
      ensures activities == Replayed(stored) && counter == |stored|
    {
      activities, items, counter := [], [], 0;
      var i := 0;
      while i < |stored|
        invariant 0 <= i <= |stored|
        invariant Valid() && counter == i
        invariant activities == Replayed(stored[..i])
      {
        AddActivity(stored[i]);
        assert stored[..i + 1] == stored[..i] + [stored[i]];
        i := i + 1;
      }
      assert stored[..i] == stored;
    }

    /** `init`: a restored snapshot is replayed, and without one the store
        starts with a single default activity. */
    method Init(snapshot: Option<seq<ActivityData>>)
      requires Valid() && activities == []
      modifies this
      ensures Valid()
      ensures snapshot.Some? ==> activities == Replayed(snapshot.value)
      ensures snapshot.None? ==> activities == [Activity(1, "", "", "", "5", "", "")]
    {
      if snapshot.Some? {
        LoadState(snapshot.value);
      } else {
        AddActivity(NoData);
      }
    }
  }
}
