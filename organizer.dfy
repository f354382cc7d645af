/**
 * The organizer object: it owns the activity list and the filter selection
 * and changes them in response to the view's actions. Everything the browser
 * supplies (fresh ids, the current time, the answers of the confirmation and
 * edit dialogs, the stored list) arrives as a parameter; the notification a
 * successful or failed action displays is returned.
 */
module Organizer {
  import opened Wrappers
  import opened Text
  import opened Sequences
  import opened Activities

  datatype NoticeKind = Success | Error

  /** A notification as `displayMessage` receives it. */
  datatype Notice = Notice(message: string, kind: NoticeKind)

  const MissingFields := Notice("Please complete all required fields!", Error)
  const Created := Notice("Activity created successfully!", Success)
  const Removed := Notice("Activity removed successfully!", Success)
  const Updated := Notice("Activity updated successfully!", Success)

  class ActivityOrganizer {
    var activities: seq<Activity>
    var activeFilters: Filters

    /** The list local storage holds: what `persistToStorage` last wrote. */
    ghost var persisted: seq<Activity>

    /** Every change to the list is written through to storage. */
    ghost predicate Valid()
      reads this
    {
      persisted == activities
    }

    /**
     * Starts from the stored list (`None` when storage holds nothing) with no
     * filter selected.
     */
    constructor (stored: Option<seq<Activity>>)
      ensures Valid()
      ensures activities == (if stored.Some? then stored.value else [])
      ensures activeFilters == NoFilters
    {
      activities := if stored.Some? then stored.value else [];
      activeFilters := NoFilters;
      persisted := activities;
    }

    /**
     * Submits the activity form. A valid form puts the new record first in
     * the list; an invalid one changes nothing and reports the missing fields.
     */
    method CreateNewActivity(id: string, nameInput: string, category: string, priority: string,
                             notesInput: string, now: string) returns (notice: Notice)
      requires Valid()
      modifies this
      ensures Valid() && activeFilters == old(activeFilters)
      ensures activities == AddActivity(old(activities), id, nameInput, category, priority, notesInput, now)
      ensures notice == if NewActivity(id, nameInput, category, priority, notesInput, now).Some?
                        then Created else MissingFields
    {
      var activity := Activity(id, Trim(nameInput), category, priority, Trim(notesInput),
                               false, now, None);
      if activity.name == [] || activity.category == [] || activity.priority == [] {
        return MissingFields;
      }
      activities := [activity] + activities;
      persisted := activities;
      notice := Created;
    }

    /** Flips the completion of the first record with id `id`, stamping it with `now`. */
    method ToggleActivityStatus(id: string, now: string)
      requires Valid()
      modifies this
      ensures Valid() && activeFilters == old(activeFilters)
      ensures activities == ToggleActivity(old(activities), id, now)
    {
      var found := FindIndex(activities, id);
      if found.Some? {
        var i := found.value;
        var activity := activities[i];
        var done := !activity.isCompleted;
        activities := activities[i := activity.(isCompleted := done,
                                                completedTimestamp := if done then Some(now) else None)];
        persisted := activities;
      }
    }

    /** Drops every record with id `id` once the user has `confirmed` the removal. */
    method RemoveActivity(id: string, confirmed: bool) returns (notice: Option<Notice>)
      requires Valid()
      modifies this
      ensures Valid() && activeFilters == old(activeFilters)
      ensures activities == if confirmed then RemoveId(old(activities), id) else old(activities)
      ensures notice == if confirmed then Some(Removed) else None
    {
      notice := None;
      if confirmed {
        activities := RemoveId(activities, id);
        persisted := activities;
        notice := Some(Removed);
      }
    }

    /**
     * Renames the first record with id `id` to the trimmed `answer` of the
     * edit dialog; a cancelled or blank answer, or an unknown id, changes nothing.
     */
    method ModifyActivity(id: string, answer: Option<string>) returns (notice: Option<Notice>)
      requires Valid()
      modifies this
      ensures Valid() && activeFilters == old(activeFilters)
      ensures activities == RenameActivity(old(activities), id, answer)
      ensures notice == if !IdAbsent(old(activities), id) && answer.Some? && !AllWhitespace(answer.value)
                        then Some(Updated) else None
    {
      notice := None;
      var found := FindIndex(activities, id);
      if found.None? {
        return;
      }
      var i := found.value;
      if answer.Some? && Trim(answer.value) != [] {
        activities := activities[i := activities[i].(name := Trim(answer.value))];
        persisted := activities;
        notice := Some(Updated);
      }
    }

    /** Selects a category in the view's category filter. */
    method SetCategoryFilter(value: string)
      modifies this
      ensures activities == old(activities) && persisted == old(persisted)
      ensures activeFilters == old(activeFilters).(category := value)
    {
      activeFilters := activeFilters.(category := value);
    }

    /** Selects a priority in the view's priority filter. */
    method SetPriorityFilter(value: string)
      modifies this
      ensures activities == old(activities) && persisted == old(persisted)
      ensures activeFilters == old(activeFilters).(priority := value)
    {
      activeFilters := activeFilters.(priority := value);
    }

    /** Resets both filters to "everything". */
    method ClearAllFilters()
      modifies this
      ensures activities == old(activities) && persisted == old(persisted)
      ensures activeFilters == NoFilters
    {
      activeFilters := Filters("", "");
    }

    /** The records the view shows under the current selection, in list order. */
    function GetFilteredActivities(): (r: seq<Activity>)
      reads this
      ensures IsSubsequence(r, activities)
      ensures forall a :: a in r <==> a in activities && Matches(activeFilters, a)
      ensures forall a :: multiset(r)[a] == if Matches(activeFilters, a) then multiset(activities)[a] else 0
      ensures activeFilters == NoFilters ==> r == activities
    {
      FilterActivities(activities, activeFilters)
    }

    /** The summary panel's counts over the whole, unfiltered list. */
    function Summary(): (c: Counts)
      reads this
      ensures c.total == |activities| && c.completed <= c.total
      ensures c.pending == c.total - c.completed
      ensures c.completed == multiset(Flags(activities))[true]
    {
      Summarize(activities)
    }
  }
}
