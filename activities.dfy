/**
 * The activity records of the organizer and the pure operations on the list
 * of them: creation with validation, toggling completion, renaming, removal,
 * filtering and the summary counts. The class in `Organizer` applies these
 * to its state; the properties the organizer promises are proved here.
 */
module Activities {
  import opened Wrappers
  import opened Text
  import opened Sequences

  /**
   * One activity record. `category` is the record's `type` property (a
   * reserved word here); timestamps are the ISO-8601 strings the browser
   * supplies, and `completedTimestamp` is `None` where the record holds `null`.
   */
  datatype Activity = Activity(
    id: string,
    name: string,
    category: string,
    priority: string,
    notes: string,
    isCompleted: bool,
    createdTimestamp: string,
    completedTimestamp: Option<string>)

  /** The category and priority selections; the empty string selects everything. */
  datatype Filters = Filters(category: string, priority: string)

  const NoFilters := Filters("", "")

  // ---------------------------------------------------------------------------
  // Invariants of the collection

  /** The completion timestamp is present exactly when the record is completed. */
  predicate CompletionConsistent(a: Activity) {
    a.isCompleted <==> a.completedTimestamp.Some?
  }

  /** What a record satisfies once it has passed the form's validation. */
  predicate WellFormed(a: Activity) {
    && CompletionConsistent(a)
    && a.name != [] && IsTrimmed(a.name)
    && a.category != [] && a.priority != []
  }

  predicate AllWellFormed(acts: seq<Activity>) {
    forall i :: 0 <= i < |acts| ==> WellFormed(acts[i])
  }

  predicate UniqueIds(acts: seq<Activity>) {
    forall i, j :: 0 <= i < j < |acts| ==> acts[i].id != acts[j].id
  }

  predicate IdAbsent(acts: seq<Activity>, id: string) {
    forall i :: 0 <= i < |acts| ==> acts[i].id != id
  }

  /** The ids of the records, in list order. */
  function Ids(acts: seq<Activity>): seq<string> {
    seq(|acts|, i requires 0 <= i < |acts| => acts[i].id)
  }

  /** The completion flags of the records, in list order. */
  function Flags(acts: seq<Activity>): seq<bool> {
    seq(|acts|, i requires 0 <= i < |acts| => acts[i].isCompleted)
  }

  // ---------------------------------------------------------------------------
  // Creating an activity

  /**
   * The record the form describes, or `None` when validation fails: the name
   * and notes are trimmed, and the trimmed name, the category and the priority
   * must all be non-empty. A new record is pending and has no completion time.
   */
  function NewActivity(id: string, nameInput: string, category: string, priority: string,
                       notesInput: string, now: string): (r: Option<Activity>)
    ensures r.Some? <==> !AllWhitespace(nameInput) && category != [] && priority != []
    ensures r.Some? ==> && r.value.id == id && r.value.name == Trim(nameInput)
                        && r.value.category == category && r.value.priority == priority
                        && r.value.notes == Trim(notesInput) && r.value.createdTimestamp == now
    ensures r.Some? ==> !r.value.isCompleted && r.value.completedTimestamp == None
    ensures r.Some? ==> WellFormed(r.value)
  {
    var a := Activity(id, Trim(nameInput), category, priority, Trim(notesInput),
                      false, now, None);
    if a.name == [] || a.category == [] || a.priority == [] then None else Some(a)
  }

  /**
   * The list after submitting the form: unchanged when validation fails,
   * otherwise the new record first and the previous records after it, in
   * their original order.
   */
  function AddActivity(acts: seq<Activity>, id: string, nameInput: string, category: string,
                       priority: string, notesInput: string, now: string): (r: seq<Activity>)
    ensures NewActivity(id, nameInput, category, priority, notesInput, now).None? ==> r == acts
    ensures NewActivity(id, nameInput, category, priority, notesInput, now).Some? ==>
              && |r| == |acts| + 1 && r[1..] == acts
              && Some(r[0]) == NewActivity(id, nameInput, category, priority, notesInput, now)
    ensures AllWellFormed(acts) ==> AllWellFormed(r)
    ensures UniqueIds(acts) && IdAbsent(acts, id) ==> UniqueIds(r)
  {
    match NewActivity(id, nameInput, category, priority, notesInput, now)
    case None => acts
    case Some(a) => [a] + acts
  }

  // ---------------------------------------------------------------------------
  // Looking a record up by id

  /** `acts.find(a => a.id === id)`, as a position: the first record with that id. */
  function FindIndex(acts: seq<Activity>, id: string): (r: Option<nat>)
    ensures r.None? <==> IdAbsent(acts, id)
    ensures r.Some? ==> && r.value < |acts| && acts[r.value].id == id
                        && forall j :: 0 <= j < r.value ==> acts[j].id != id
  {
    if acts == [] then None
    else if acts[0].id == id then Some(0)
    else match FindIndex(acts[1..], id)
      case None => None
      case Some(k) => Some(k + 1)
  }

  /** The lookup depends on the ids alone. */
  lemma FindIndexByIds(a: seq<Activity>, b: seq<Activity>, id: string)
    requires Ids(a) == Ids(b)
    ensures FindIndex(a, id) == FindIndex(b, id)
  {
    assert |a| == |Ids(a)| == |Ids(b)| == |b|;
    forall j | 0 <= j < |a| ensures a[j].id == b[j].id {
      assert Ids(a)[j] == Ids(b)[j];
    }
  }

  // ---------------------------------------------------------------------------
  // Toggling completion

  /** One record with its completion flipped and its timestamp kept in step. */
  function Toggled(a: Activity, now: string): (r: Activity)
    ensures r.isCompleted == !a.isCompleted
    ensures CompletionConsistent(r)
    ensures r.isCompleted ==> r.completedTimestamp == Some(now)
    ensures r.(isCompleted := a.isCompleted, completedTimestamp := a.completedTimestamp) == a
  {
    var done := !a.isCompleted;
    a.(isCompleted := done, completedTimestamp := if done then Some(now) else None)
  }

  /**
   * The list after toggling the record with id `id`: the first record with
   * that id is toggled; an unknown id leaves the list as it was.
   */
  function ToggleActivity(acts: seq<Activity>, id: string, now: string): (r: seq<Activity>)
    ensures |r| == |acts| && Ids(r) == Ids(acts)
    ensures IdAbsent(acts, id) ==> r == acts
    ensures forall i :: FindIndex(acts, id) == Some(i) ==>
              && r[i] == Toggled(acts[i], now)
              && forall j :: 0 <= j < |acts| && j != i ==> r[j] == acts[j]
    ensures AllWellFormed(acts) ==> AllWellFormed(r)
  {
    match FindIndex(acts, id)
    case None => acts
    case Some(i) =>
      var r := acts[i := Toggled(acts[i], now)];
      assert forall j :: 0 <= j < |r| ==> Ids(r)[j] == Ids(acts)[j];
      r
  }

  /**
   * Toggling the same id twice restores every completion flag and, for
   * records whose flag and timestamp agreed, whether a timestamp is present;
   * nothing but the timestamp of the toggled record can differ.
   */
  lemma ToggleTwice(acts: seq<Activity>, id: string, t1: string, t2: string)
    ensures var r := ToggleActivity(ToggleActivity(acts, id, t1), id, t2);
      && |r| == |acts|
      && forall j :: 0 <= j < |acts| ==>
           && r[j].isCompleted == acts[j].isCompleted
           && r[j].(completedTimestamp := acts[j].completedTimestamp) == acts[j]
           && (CompletionConsistent(acts[j]) ==>
                 r[j].completedTimestamp.Some? == acts[j].completedTimestamp.Some?)
  {
  }

  /** Toggling a pending record twice gives back the original list. */
  lemma TogglePendingTwice(acts: seq<Activity>, id: string, t1: string, t2: string)
    requires forall i :: FindIndex(acts, id) == Some(i) ==>
               !acts[i].isCompleted && acts[i].completedTimestamp == None
    ensures ToggleActivity(ToggleActivity(acts, id, t1), id, t2) == acts
  {
  }

  /**
   * Toggling a completed record twice does not bring its completion time
   * back: the first toggle clears it and the second stamps the later time.
   */
  lemma ToggleCompletedTwice(acts: seq<Activity>, id: string, t1: string, t2: string, i: nat)
    requires FindIndex(acts, id) == Some(i) && acts[i].isCompleted
    ensures ToggleActivity(acts, id, t1)[i].completedTimestamp == None
    ensures ToggleActivity(ToggleActivity(acts, id, t1), id, t2)[i].completedTimestamp == Some(t2)
  {
  }

  // ---------------------------------------------------------------------------
  // Renaming

  /**
   * The list after the edit dialog: `answer` is what the prompt returned
   * (`None` for a cancelled dialog). When the id is known and the trimmed
   * answer is not empty, the first record with that id takes the trimmed
   * answer as its name; otherwise nothing changes.
   */
  function RenameActivity(acts: seq<Activity>, id: string, answer: Option<string>): (r: seq<Activity>)
    ensures |r| == |acts| && Ids(r) == Ids(acts) && Flags(r) == Flags(acts)
    ensures IdAbsent(acts, id) || answer.None? || AllWhitespace(answer.value) ==> r == acts
    ensures forall i :: FindIndex(acts, id) == Some(i) && answer.Some? && !AllWhitespace(answer.value) ==>
              && r[i].name == Trim(answer.value)
              && r[i].(name := acts[i].name) == acts[i]
              && forall j :: 0 <= j < |acts| && j != i ==> r[j] == acts[j]
    ensures AllWellFormed(acts) ==> AllWellFormed(r)
  {
    match FindIndex(acts, id)
    case None => acts
    case Some(i) =>
      if answer.Some? && Trim(answer.value) != [] then
        var r := acts[i := acts[i].(name := Trim(answer.value))];
        assert forall j :: 0 <= j < |r| ==> Ids(r)[j] == Ids(acts)[j];
        assert forall j :: 0 <= j < |r| ==> Flags(r)[j] == Flags(acts)[j];
        r
      else acts
  }

  // ---------------------------------------------------------------------------
  // Removing

  /** A subsequence of a list with unique ids has unique ids. */
  lemma {:induction false} SubsequenceUniqueIds(r: seq<Activity>, s: seq<Activity>)
    requires IsSubsequence(r, s)
    ensures UniqueIds(s) ==> UniqueIds(r)
    decreases |s|
  {
    if r != [] && UniqueIds(s) {
      if r[0] == s[0] {
        SubsequenceUniqueIds(r[1..], s[1..]);
        forall j | 0 < j < |r| ensures r[0].id != r[j].id {
          SubsequenceElements(r[1..], s[1..], j - 1);
          var k :| 0 <= k < |s[1..]| && s[1..][k] == r[j];
          assert s[k + 1] == r[j];
        }
      } else {
        SubsequenceUniqueIds(r, s[1..]);
      }
    }
  }

  /**
   * `acts.filter(a => a.id !== id)`: every record with that id is dropped,
   * every other record is kept, as often as it occurs and in its order.
   */
  function RemoveId(acts: seq<Activity>, id: string): (r: seq<Activity>)
    ensures IsSubsequence(r, acts)
    ensures IdAbsent(r, id)
    ensures forall a :: multiset(r)[a] == if a.id != id then multiset(acts)[a] else 0
    ensures IdAbsent(acts, id) ==> r == acts
    ensures AllWellFormed(acts) ==> AllWellFormed(r)
    ensures UniqueIds(acts) ==> UniqueIds(r)
  {
    var keep := (a: Activity) => a.id != id;
    var r := Filter(acts, keep);
    FilterMembership(acts, keep);
    SubsequenceUniqueIds(r, acts);
    if IdAbsent(acts, id) then FilterKeepsAll(acts, keep); r else r
  }

  // ---------------------------------------------------------------------------
  // Filtering

  /** A record passes the filters when it equals every non-empty selection. */
  predicate Matches(f: Filters, a: Activity) {
    && (f.category == [] || a.category == f.category)
    && (f.priority == [] || a.priority == f.priority)
  }

  /**
   * The records the view shows: those matching the filters, in list order;
   * with no selection, the whole list.
   */
  function FilterActivities(acts: seq<Activity>, f: Filters): (r: seq<Activity>)
    ensures IsSubsequence(r, acts)
    ensures forall i :: 0 <= i < |r| ==>
              && (f.category != [] ==> r[i].category == f.category)
              && (f.priority != [] ==> r[i].priority == f.priority)
    ensures forall a :: a in r <==> a in acts && Matches(f, a)
    ensures forall a :: multiset(r)[a] == if Matches(f, a) then multiset(acts)[a] else 0
    ensures f == NoFilters ==> r == acts
  {
    var pass := (a: Activity) => Matches(f, a);
    var r := Filter(acts, pass);
    FilterMembership(acts, pass);
    if f == NoFilters then FilterKeepsAll(acts, pass); r else r
  }

  // ---------------------------------------------------------------------------
  // Summary

  datatype Counts = Counts(total: nat, completed: nat, pending: int)

  function IsDone(a: Activity): bool {
    a.isCompleted
  }

  lemma FlagsCons(acts: seq<Activity>)
    requires acts != []
    ensures Flags(acts) == [acts[0].isCompleted] + Flags(acts[1..])
  {
    assert Flags(acts)[1..] == Flags(acts[1..]);
  }

  /** The number of completed records is the number of `true` completion flags. */
  lemma {:induction false} DoneCount(acts: seq<Activity>)
    ensures |Filter(acts, IsDone)| == multiset(Flags(acts))[true] <= |acts|
    decreases |acts|
  {
    if acts != [] {
      DoneCount(acts[1..]);
      FlagsCons(acts);
    }
  }

  /**
   * The counts the summary panel shows: all records, the completed ones
   * (`acts.filter(a => a.isCompleted).length`) and the difference.
   */
  function Summarize(acts: seq<Activity>): (c: Counts)
    ensures c.total == |acts|
    ensures c.completed == multiset(Flags(acts))[true]
    ensures 0 <= c.completed <= c.total
    ensures c.pending == c.total - c.completed && c.pending >= 0
  {
    var done := |Filter(acts, IsDone)|;
    DoneCount(acts);
    Counts(|acts|, done, |acts| - done)
  }

  /** Toggling a known record moves it from one count to the other. */
  lemma ToggleCounts(acts: seq<Activity>, id: string, now: string)
    ensures var before, after := Summarize(acts), Summarize(ToggleActivity(acts, id, now));
      && after.total == before.total
      && (IdAbsent(acts, id) ==> after == before)
      && forall i :: FindIndex(acts, id) == Some(i) ==>
           after.completed == if acts[i].isCompleted then before.completed - 1
                              else before.completed + 1
  {
    var r := ToggleActivity(acts, id, now);
    match FindIndex(acts, id)
    case None =>
    case Some(i) =>
      assert Flags(r) == Flags(acts)[i := !acts[i].isCompleted];
  }

  /** Renaming never changes the counts. */
  lemma RenameCounts(acts: seq<Activity>, id: string, answer: Option<string>)
    ensures Summarize(RenameActivity(acts, id, answer)) == Summarize(acts)
  {
  }

  /** Removing a known id from a list with unique ids removes exactly one record. */
  lemma {:induction false} RemoveKnownId(acts: seq<Activity>, id: string)
    requires UniqueIds(acts) && !IdAbsent(acts, id)
    ensures Summarize(RemoveId(acts, id)).total == |acts| - 1
    decreases |acts|
  {
    var rest := acts[1..];
    assert UniqueIds(rest) by {
      forall i, j | 0 <= i < j < |rest| ensures rest[i].id != rest[j].id {
        assert rest[i] == acts[i + 1] && rest[j] == acts[j + 1];
      }
    }
    if acts[0].id == id {
      assert IdAbsent(rest, id) by {
        forall i | 0 <= i < |rest| ensures rest[i].id != id { assert rest[i] == acts[i + 1]; }
      }
      assert RemoveId(acts, id) == RemoveId(rest, id);
    } else {
      assert !IdAbsent(rest, id) by {
        var k :| 0 <= k < |acts| && acts[k].id == id;
        assert rest[k - 1] == acts[k];
      }
      RemoveKnownId(rest, id);
      assert RemoveId(acts, id) == [acts[0]] + RemoveId(rest, id);
    }
  }
}
