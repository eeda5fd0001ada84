/** The task list widget (src/components/TasksWidget.tsx): a cache of the
    undone tasks of the first task list, sorted by due date, with handlers
    that create a task plus its companion calendar event and that complete a
    task optimistically. Every remote call is an argument of type `Reply`. */
module Tasks {
  import opened Wrappers
  import opened Text

  /** A task as the task store returns it. `due` is the instant
      (`new Date(due).getTime()`) of its RFC 3339 due date-time, if any. */
  datatype Task = Task(id: string, title: string, due: Option<int>, notes: Option<string>, status: string)

  /** A task-list container; only its id is used. */
  datatype TaskList = TaskList(id: string)

  /** The RFC 3339 timestamp `new Date(date).toISOString()` makes from a
      full-date: midnight UTC of that date (the conversion is not modelled). */
  datatype DueStamp = StartOfDay(date: string)

  /** The body of a task insert. */
  datatype TaskResource = TaskResource(title: string, due: DueStamp, notes: string, status: string)

  /** The body of an all-day event insert. */
  datatype EventResource = EventResource(summary: string, description: string, startDate: string, endDate: string)

  /** The remote calls the widget issues. */
  datatype Request =
    | ListTaskLists(maxResults: nat)
    | ListTasks(tasklist: string, showCompleted: bool, maxResults: nat)
    | InsertTask(tasklist: string, resource: TaskResource)
    | InsertEvent(calendarId: string, event: EventResource)
    | PatchTask(tasklist: string, task: string, status: string)

  // ---------------------------------------------------------------------
  // Ordering by due date
  // ---------------------------------------------------------------------

  /** The comparator handed to `sort`: an undated left operand is "greater",
      then an undated right operand is "smaller", else the due instants are
      subtracted. */
  function Compare(a: Task, b: Task): (r: int)
    ensures a.due.None? ==> r > 0
    ensures a.due.Some? && b.due.None? ==> r < 0
    ensures a.due.Some? && b.due.Some? ==>
      (r < 0 <==> a.due.value < b.due.value) && (r == 0 <==> a.due.value == b.due.value)
  {
    if a.due.None? then 1
    else if b.due.None? then -1
    else a.due.value - b.due.value
  }

  /** `a` may stand before `b` in the sorted list: whenever `b` is dated,
      `a` is dated and due no later. */
  predicate MayPrecede(a: Task, b: Task) {
    b.due.Some? ==> a.due.Some? && a.due.value <= b.due.value
  }

  /** Every pair of positions is in due order. */
  predicate DueOrdered(s: seq<Task>) {
    forall i, j :: 0 <= i < j < |s| ==> MayPrecede(s[i], s[j])
  }

  /** Due order means: no dated task follows an undated one, and dated tasks
      are in non-decreasing due order. Nothing is said about the relative
      order of undated tasks. */
  lemma DueOrderedMeaning(s: seq<Task>)
    ensures DueOrdered(s) <==>
      (forall i, j :: 0 <= i < j < |s| && s[i].due.None? ==> s[j].due.None?) &&
      (forall i, j :: 0 <= i < j < |s| && s[i].due.Some? && s[j].due.Some? ==>
         s[i].due.value <= s[j].due.value)
  {
  }

  /** What the comparator's sign tells an insertion step: a positive result
      allows swapping, a non-positive one allows keeping the order. */
  lemma CompareDecidesOrder(a: Task, b: Task)
    ensures Compare(a, b) > 0 ==> MayPrecede(b, a)
    ensures Compare(a, b) <= 0 ==> MayPrecede(a, b)
  {
  }

  /** The comparator is not a consistent order on undated tasks: it calls
      each of two undated tasks greater than the other. */
  lemma CompareUndatedBothGreater(a: Task, b: Task)
    requires a.due.None? && b.due.None?
    ensures Compare(a, b) > 0 && Compare(b, a) > 0
  {
  }

  lemma MayPrecedeTransitive(a: Task, b: Task, c: Task)
    requires MayPrecede(a, b) && MayPrecede(b, c)
    ensures MayPrecede(a, c)
  {
  }

  /** Exchanges two neighbouring elements. */
  method SwapAdjacent(a: array<Task>, j: int)
    requires 0 < j < a.Length
    modifies a
    ensures a[j - 1] == old(a[j]) && a[j] == old(a[j - 1])
    ensures forall k :: 0 <= k < a.Length && k != j - 1 && k != j ==> a[k] == old(a[k])
    ensures multiset(a[..]) == multiset(old(a[..]))
  {
    a[j - 1], a[j] := a[j], a[j - 1];
  }

  /** One insertion step: moves `a[i]` left past every element the
      comparator calls greater, so that `a[..i + 1]` is in due order. */
  method InsertLast(a: array<Task>, i: int)
    requires 0 <= i < a.Length
    requires forall p, q :: 0 <= p < q < i ==> MayPrecede(a[p], a[q])
    modifies a
    ensures forall p, q :: 0 <= p < q <= i ==> MayPrecede(a[p], a[q])
    ensures multiset(a[..]) == multiset(old(a[..]))
  {
    var j := i;
    while j > 0 && Compare(a[j - 1], a[j]) > 0
      invariant 0 <= j <= i
      invariant forall p, q :: 0 <= p < q <= i && p != j && q != j ==> MayPrecede(a[p], a[q])
      invariant forall q :: j < q <= i ==> MayPrecede(a[j], a[q])
      invariant multiset(a[..]) == multiset(old(a[..]))
    {
      CompareDecidesOrder(a[j - 1], a[j]);
      SwapAdjacent(a, j);
      j := j - 1;
    }
    if j > 0 {
      CompareDecidesOrder(a[j - 1], a[j]);
      forall p | 0 <= p < j - 1 ensures MayPrecede(a[p], a[j]) {
        MayPrecedeTransitive(a[p], a[j - 1], a[j]);
      }
    }
  }

  /** `fetchedTasks.sort(Compare)` in place, as straight insertion driven by
      the same comparator. The result can differ from the engine's: since
      `Compare` calls either of two undated tasks greater, this insertion
      reverses undated tasks, where V8's binary insertion keeps them in
      order. The contract fixes only what the comparator fixes. */
  method SortByDue(a: array<Task>)
    modifies a
    ensures DueOrdered(a[..])
    ensures multiset(a[..]) == multiset(old(a[..]))
  {
    var i := 0;
    while i < a.Length
      invariant 0 <= i <= a.Length
      invariant forall p, q :: 0 <= p < q < i ==> MayPrecede(a[p], a[q])
      invariant multiset(a[..]) == multiset(old(a[..]))
    {
      InsertLast(a, i);
      i := i + 1;
    }
  }

  /** The due values of a list, position by position. */
  function Dues(s: seq<Task>): (d: seq<Option<int>>)
    ensures |d| == |s| && forall k :: 0 <= k < |s| ==> d[k] == s[k].due
  {
    seq(|s|, k requires 0 <= k < |s| => s[k].due)
  }

  /** The order on due values that MayPrecede uses: undated last. */
  predicate DueLeq(x: Option<int>, y: Option<int>) {
    y.Some? ==> x.Some? && x.value <= y.value
  }

  predicate DuesSorted(d: seq<Option<int>>) {
    forall i, j :: 0 <= i < j < |d| ==> DueLeq(d[i], d[j])
  }

  /** Equal sums with a common part have equal remainders. */
  lemma MultisetCancel<T>(a: multiset<T>, b: multiset<T>, x: multiset<T>)
    requires a + x == b + x
    ensures a == b
  {
    forall y ensures a[y] == b[y] {
      assert (a + x)[y] == (b + x)[y];
    }
  }

  lemma DuesAppend(a: seq<Task>, b: seq<Task>)
    ensures Dues(a + b) == Dues(a) + Dues(b)
    ensures multiset(Dues(a + b)) == multiset(Dues(a)) + multiset(Dues(b))
  {
    assert Dues(a + b) == Dues(a) + Dues(b);
  }

  /** Taking out the element at `k` takes it out of the multiset, and its
      due value out of the due values. */
  lemma RemoveAt(t: seq<Task>, k: int)
    requires 0 <= k < |t|
    ensures multiset(t) == multiset(t[..k] + t[k + 1..]) + multiset([t[k]])
    ensures multiset(Dues(t)) == multiset(Dues(t[..k] + t[k + 1..])) + multiset([t[k].due])
  {
    var left, right := t[..k], t[k + 1..];
    assert t == left + ([t[k]] + right);
    DuesAppend(left, [t[k]] + right);
    DuesAppend([t[k]], right);
    DuesAppend(left, right);
    assert Dues([t[k]]) == [t[k].due];
  }

  /** Two lists holding the same tasks hold the same due values. */
  lemma {:induction false} DuesPreserveMultiset(s: seq<Task>, t: seq<Task>)
    requires multiset(s) == multiset(t)
    ensures multiset(Dues(s)) == multiset(Dues(t))
    decreases |s|
  {
    if s == [] {
      assert |t| == |multiset(t)| == 0;
    } else {
      assert s[0] in multiset(t);
      var k :| 0 <= k < |t| && t[k] == s[0];
      var rest := t[..k] + t[k + 1..];
      RemoveAt(s, 0);
      RemoveAt(t, k);
      assert s[..0] + s[1..] == s[1..];
      MultisetCancel(multiset(s[1..]), multiset(rest), multiset([s[0]]));
      DuesPreserveMultiset(s[1..], rest);
    }
  }

  /** Sorted due values with the same elements start with the same value. */
  lemma SortedHeadsAgree(d: seq<Option<int>>, e: seq<Option<int>>)
    requires DuesSorted(d) && DuesSorted(e) && multiset(d) == multiset(e)
    requires d != [] && e != []
    ensures d[0] == e[0]
  {
    assert d[0] in multiset(e);
    var k :| 0 <= k < |e| && e[k] == d[0];
    assert DueLeq(e[0], d[0]) by { if k > 0 { assert DueLeq(e[0], e[k]); } }
    assert e[0] in multiset(d);
    var m :| 0 <= m < |d| && d[m] == e[0];
    assert DueLeq(d[0], e[0]) by { if m > 0 { assert DueLeq(d[0], d[m]); } }
  }

  /** Equal multisets with equal first elements have equal tails. */
  lemma TailsAgree<T>(d: seq<T>, e: seq<T>)
    requires d != [] && e != [] && d[0] == e[0] && multiset(d) == multiset(e)
    ensures multiset(d[1..]) == multiset(e[1..])
  {
    assert d == [d[0]] + d[1..];
    assert e == [e[0]] + e[1..];
    assert multiset(d) == multiset(d[1..]) + multiset([d[0]]);
    assert multiset(e) == multiset(e[1..]) + multiset([d[0]]);
    MultisetCancel(multiset(d[1..]), multiset(e[1..]), multiset([d[0]]));
  }

  /** Sorted sequences of due values with the same elements are equal. */
  lemma {:induction false} SortedDuesUnique(d: seq<Option<int>>, e: seq<Option<int>>)
    requires DuesSorted(d) && DuesSorted(e) && multiset(d) == multiset(e)
    ensures d == e
    decreases |d|
  {
    assert |d| == |multiset(d)| == |multiset(e)| == |e|;
    if d != [] {
      SortedHeadsAgree(d, e);
      TailsAgree(d, e);
      SortedDuesUnique(d[1..], e[1..]);
      assert d == [d[0]] + d[1..];
      assert e == [e[0]] + e[1..];
    }
  }

  /** Any two due-ordered arrangements of the same tasks agree on the due
      value at every position: sorting fixes the due order and leaves only
      tasks with equal due values (or none) free to trade places. */
  lemma {:induction false} DueOrderDetermined(s: seq<Task>, t: seq<Task>)
    requires DueOrdered(s) && DueOrdered(t) && multiset(s) == multiset(t)
    ensures Dues(s) == Dues(t)
  {
    DuesPreserveMultiset(s, t);
    assert DuesSorted(Dues(s)) by {
      forall i, j | 0 <= i < j < |s| ensures DueLeq(Dues(s)[i], Dues(s)[j]) {
        assert MayPrecede(s[i], s[j]);
      }
    }
    assert DuesSorted(Dues(t)) by {
      forall i, j | 0 <= i < j < |t| ensures DueLeq(Dues(t)[i], Dues(t)[j]) {
        assert MayPrecede(t[i], t[j]);
      }
    }
    SortedDuesUnique(Dues(s), Dues(t));
  }

  // ---------------------------------------------------------------------
  // Optimistic removal
  // ---------------------------------------------------------------------

  /** `prev.filter(t => t.id !== taskId)`: every task with another id, each
      as often as before; the tasks with that id are gone. */
  function RemoveId(s: seq<Task>, id: string): (r: seq<Task>)
    ensures forall t :: multiset(r)[t] == if t.id == id then 0 else multiset(s)[t]
    ensures forall k :: 0 <= k < |r| ==> r[k].id != id
    decreases |s|
  {
    if s == [] then []
    else
      var rest := RemoveId(s[1..], id);
      assert s == [s[0]] + s[1..];
      if s[0].id == id then rest else [s[0]] + rest
  }

  /** Filtering commutes with concatenation, so the kept tasks stay in their
      original order. */
  lemma {:induction false} RemoveIdAppend(a: seq<Task>, b: seq<Task>, id: string)
    ensures RemoveId(a + b, id) == RemoveId(a, id) + RemoveId(b, id)
    decreases |a|
  {
    if a == [] {
      assert a + b == b;
    } else {
      assert (a + b)[1..] == a[1..] + b;
      RemoveIdAppend(a[1..], b, id);
    }
  }

  /** Removing the same id twice removes nothing more. */
  lemma {:induction false} RemoveIdIdempotent(s: seq<Task>, id: string)
    ensures RemoveId(RemoveId(s, id), id) == RemoveId(s, id)
    decreases |s|
  {
    if s != [] {
      RemoveIdIdempotent(s[1..], id);
      if s[0].id != id {
        assert ([s[0]] + RemoveId(s[1..], id))[1..] == RemoveId(s[1..], id);
      }
    }
  }

  // ---------------------------------------------------------------------
  // Priority tag carried in the notes
  // ---------------------------------------------------------------------

  const PriorityPrefix: string := "Priority: "
  /** The looser marker the list tests before showing a tag. */
  const TagMarker: string := "Priority:"

  /** `Priority: ${priority}`, the notes of a created task. */
  function PriorityNotes(priority: string): (notes: string)
    ensures |notes| == |PriorityPrefix| + |priority|
    ensures OccursAt(notes, PriorityPrefix, 0) && notes[|PriorityPrefix|..] == priority
  {
    PriorityPrefix + priority
  }

  /** The tag badge is rendered: the notes are present, non-empty and
      contain the marker. */
  function ShowsTag(notes: Option<string>): (shown: bool)
    ensures shown <==> notes.Some? && exists k :: OccursAt(notes.value, TagMarker, k)
  {
    notes.Some? && notes.value != "" && Contains(notes.value, TagMarker)
  }

  /** The badge text `notes.split('Priority: ')[1]`; None renders nothing. */
  function TagText(notes: string): (tag: Option<string>)
    ensures tag.None? <==> !Contains(notes, PriorityPrefix)
    ensures tag.Some? ==>
      SecondPieceAt(notes, PriorityPrefix, IndexOf(notes, PriorityPrefix).value + |PriorityPrefix|, tag.value)
  {
    SplitSecond(notes, PriorityPrefix)
  }

  /** Whenever there is tag text, the badge is shown. */
  lemma TagTextIsShown(notes: string)
    requires TagText(notes).Some?
    ensures ShowsTag(Some(notes))
  {
    var i := IndexOf(notes, PriorityPrefix).value;
    PrefixOccurs(notes, PriorityPrefix, TagMarker, i);
  }

  /** Decoding the notes of a created task gives back its priority, provided
      the priority does not itself contain the prefix. */
  lemma {:induction false} PriorityRoundTrip(priority: string)
    requires !Contains(priority, PriorityPrefix)
    ensures ShowsTag(Some(PriorityNotes(priority)))
    ensures TagText(PriorityNotes(priority)) == Some(priority)
  {
    var notes := PriorityNotes(priority);
    assert OccursAt(notes, PriorityPrefix, 0);
    assert notes[|PriorityPrefix|..] == priority;
    TagTextIsShown(notes);
  }

  /** The tag is everything after the prefix, so trailing text is kept. */
  lemma TagKeepsTrailingText()
    ensures TagText(PriorityNotes("Low extra text")) == Some("Low extra text")
  {
    var p := "Low extra text";
    assert forall i :: 0 <= i < |p| ==> p[i] != PriorityPrefix[0];
    MissingFirstCharNeverContains(p, PriorityPrefix);
    PriorityRoundTrip(p);
  }

  /** The three values the priority select offers. */
  predicate IsPriorityOption(p: string) {
    p == "High" || p == "Medium" || p == "Low"
  }

  /** The badge colour. */
  datatype Color = Red | Amber | Blue

  const HighTag: string := PriorityNotes("High")
  const MediumTag: string := PriorityNotes("Medium")

  /** `getPriorityColor`: the High tag wins over the Medium tag; absent
      notes and everything else are blue. */
  function PriorityColor(notes: Option<string>): (c: Color)
    ensures c == Red <==> notes.Some? && exists k :: OccursAt(notes.value, HighTag, k)
    ensures c == Amber <==> notes.Some? && (forall k :: !OccursAt(notes.value, HighTag, k)) &&
                            exists k :: OccursAt(notes.value, MediumTag, k)
  {
    if notes.Some? && Contains(notes.value, HighTag) then Red
    else if notes.Some? && Contains(notes.value, MediumTag) then Amber
    else Blue
  }

  /** Notes for a priority with no `P` in it never contain the notes of a
      priority with a different first letter. */
  lemma {:induction false} DistinctInitialsExclusive(p: string, q: string)
    requires p != [] && q != [] && p[0] != q[0]
    requires forall i :: 0 <= i < |p| ==> p[i] != 'P'
    ensures !Contains(PriorityNotes(p), PriorityNotes(q))
  {
    var s, pat := PriorityNotes(p), PriorityNotes(q);
    forall k | 0 <= k && k + |pat| <= |s| ensures !OccursAt(s, pat, k) {
      if k == 0 {
        assert s[k..k + |pat|][10] == p[0] && pat[10] == q[0];
      } else {
        assert s[k] != 'P' by {
          if k < 10 { assert s[k] == PriorityPrefix[k]; } else { assert s[k] == p[k - 10]; }
        }
        assert s[k..k + |pat|][0] == s[k] && pat[0] == 'P';
      }
    }
  }

  /** No priority option's notes contain another option's tag. */
  lemma OptionNotesExclusive(p: string, q: string)
    requires IsPriorityOption(p) && IsPriorityOption(q) && p != q
    ensures !Contains(PriorityNotes(p), PriorityNotes(q))
  {
    assert p[0] != q[0];
    assert forall i :: 0 <= i < |p| ==> p[i] != 'P';
    DistinctInitialsExclusive(p, q);
  }

  /** The colour of a created task follows its priority: High is red,
      Medium amber, Low blue; absent notes are blue. */
  lemma {:induction false} PriorityColorOfOption(p: string)
    requires IsPriorityOption(p)
    ensures PriorityColor(Some(PriorityNotes(p))) == (if p == "High" then Red else if p == "Medium" then Amber else Blue)
    ensures PriorityColor(None) == Blue
  {
    var notes := PriorityNotes(p);
    assert OccursAt(notes, notes, 0);
    if p != "High" {
      OptionNotesExclusive(p, "High");
    }
    if p == "Low" {
      OptionNotesExclusive(p, "Medium");
    }
  }

  /** Each priority option survives the trip through the notes. */
  lemma OptionRoundTrip(p: string)
    requires IsPriorityOption(p)
    ensures TagText(PriorityNotes(p)) == Some(p)
  {
    ShorterNeverContains(p, PriorityPrefix);
    PriorityRoundTrip(p);
  }

  // ---------------------------------------------------------------------
  // Payloads of a create
  // ---------------------------------------------------------------------

  /** The task inserted for a draft: the title as typed (untrimmed), due at
      the start of the chosen day, the encoded priority, not yet done. */
  function NewTaskResource(title: string, date: string, priority: string): (r: TaskResource)
    ensures r.title == title && r.due == StartOfDay(date) && r.status == "needsAction"
    ensures r.notes == PriorityNotes(priority)
    ensures !Contains(priority, PriorityPrefix) ==> ShowsTag(Some(r.notes)) && TagText(r.notes) == Some(priority)
  {
    assert !Contains(priority, PriorityPrefix) ==>
      ShowsTag(Some(PriorityNotes(priority))) && TagText(PriorityNotes(priority)) == Some(priority) by {
      if !Contains(priority, PriorityPrefix) { PriorityRoundTrip(priority); }
    }
    TaskResource(title, StartOfDay(date), PriorityNotes(priority), "needsAction")
  }

  /** The companion all-day event inserted for a draft. */
  function CompanionEvent(title: string, date: string, priority: string): (e: EventResource)
    ensures e.startDate == date && e.endDate == date
    ensures |e.summary| == |title| + |priority| + 10 && |e.description| == |priority| + 27
  {
    EventResource("[Task] " + title + " (" + priority + ")",
                  "Synced task with " + priority + " priority.",
                  date, date)
  }

  /** The event's summary is `[Task] `, the title, ` (`, the priority and
      `)`. */
  lemma CompanionSummaryLayout(title: string, date: string, priority: string)
    ensures var e := CompanionEvent(title, date, priority);
      OccursAt(e.summary, "[Task] ", 0) && OccursAt(e.summary, title, 7) &&
      OccursAt(e.summary, " (", |title| + 7) && OccursAt(e.summary, priority, |title| + 9) &&
      OccursAt(e.summary, ")", |title| + |priority| + 9)
  {
    var s1 := "[Task] " + title;
    var s2 := s1 + " (";
    var s3 := s2 + priority;
    OccursInConcat("[Task] ", title);
    OccursInConcat(s1, " (");
    OccursInConcat(s2, priority);
    OccursInConcat(s3, ")");
    OccursInLonger(s1, "[Task] ", 0, " (");
    OccursInLonger(s1, title, 7, " (");
    OccursInLonger(s2, "[Task] ", 0, priority);
    OccursInLonger(s2, title, 7, priority);
    OccursInLonger(s2, " (", |title| + 7, priority);
    OccursInLonger(s3, "[Task] ", 0, ")");
    OccursInLonger(s3, title, 7, ")");
    OccursInLonger(s3, " (", |title| + 7, ")");
    OccursInLonger(s3, priority, |title| + 9, ")");
  }

  /** The event's description is `Synced task with `, the priority and
      ` priority.`. */
  lemma CompanionDescriptionLayout(title: string, date: string, priority: string)
    ensures var e := CompanionEvent(title, date, priority);
      OccursAt(e.description, "Synced task with ", 0) && OccursAt(e.description, priority, 17) &&
      OccursAt(e.description, " priority.", |priority| + 17)
  {
    var d1 := "Synced task with " + priority;
    OccursInConcat("Synced task with ", priority);
    OccursInConcat(d1, " priority.");
    OccursInLonger(d1, "Synced task with ", 0, " priority.");
    OccursInLonger(d1, priority, 17, " priority.");
  }

  /** The event's summary names the title and the priority, and its
      description names the priority. */
  lemma CompanionEventMentions(title: string, date: string, priority: string)
    ensures var e := CompanionEvent(title, date, priority);
      Contains(e.summary, title) && Contains(e.summary, priority) && Contains(e.description, priority)
  {
    var e := CompanionEvent(title, date, priority);
    CompanionSummaryLayout(title, date, priority);
    CompanionDescriptionLayout(title, date, priority);
    OccursContains(e.summary, title, 7);
    OccursContains(e.summary, priority, |title| + 9);
    OccursContains(e.description, priority, 17);
  }

  // ---------------------------------------------------------------------
  // The widget
  // ---------------------------------------------------------------------

  /** A task-list enumeration that succeeded with at least one list. */
  predicate HasList(lists: Reply<seq<TaskList>>) {
    lists.Ok? && |lists.value| > 0
  }

  /** The requests one load issues. */
  function LoadRequests(lists: Reply<seq<TaskList>>): seq<Request> {
    [ListTaskLists(10)] + if HasList(lists) then [ListTasks(lists.value[0].id, false, 50)] else []
  }

  /** The cache after a load from `before`: the fetched tasks in due order
      when a list exists and its tasks were fetched, otherwise untouched. */
  ghost predicate Reloaded(before: seq<Task>, lists: Reply<seq<TaskList>>,
                           fetched: Reply<seq<Task>>, after: seq<Task>) {
    if HasList(lists) && fetched.Ok? then
      DueOrdered(after) && multiset(after) == multiset(fetched.value)
    else after == before
  }

  /** Two loads of the same remote state give caches with the same due
      value at every position, whatever the caches held before. */
  lemma ReloadDuesAgree(before1: seq<Task>, before2: seq<Task>, lists: Reply<seq<TaskList>>,
                        fetched: Reply<seq<Task>>, after1: seq<Task>, after2: seq<Task>)
    requires HasList(lists) && fetched.Ok?
    requires Reloaded(before1, lists, fetched, after1) && Reloaded(before2, lists, fetched, after2)
    ensures Dues(after1) == Dues(after2)
  {
    DueOrderDetermined(after1, after2);
  }

  /** A create may go ahead: the title is not blank, a date is chosen and no
      create is in flight. */
  function AddAllowed(title: string, date: string, isAdding: bool): (allowed: bool)
    ensures allowed <==> Trim(title) != "" && date != "" && !isAdding
  {
    !IsBlank(title) && date != "" && !isAdding
  }

  class TasksWidget {
    var tasks: seq<Task>
    var loading: bool
    var newTaskTitle: string
    var newTaskDate: string
    var newTaskPriority: string
    var isAdding: bool
    var showForm: bool

    constructor ()
      ensures tasks == [] && !loading && !isAdding && !showForm
      ensures newTaskTitle == "" && newTaskDate == "" && newTaskPriority == "Medium"
    {
      tasks := [];
      loading := false;
      newTaskTitle := "";
      newTaskDate := "";
      newTaskPriority := "Medium";
      isAdding := false;
      showForm := false;
    }

    method OpenForm()
      modifies this`showForm
      ensures showForm
    {
      showForm := true;
    }

    method CancelForm()
      modifies this`showForm
      ensures !showForm
    {
      showForm := false;
    }

    method EditTitle(title: string)
      modifies this`newTaskTitle
      ensures newTaskTitle == title
    {
      newTaskTitle := title;
    }

    method EditDate(date: string)
      modifies this`newTaskDate
      ensures newTaskDate == date
    {
      newTaskDate := date;
    }

    method SelectPriority(priority: string)
      modifies this`newTaskPriority
      ensures newTaskPriority == priority
    {
      newTaskPriority := priority;
    }

    /** `loadTasks`: fetch the first list's undone tasks and replace the
        cache with them in due order; with no list or on any failure the
        cache is kept. Returns the requests issued. */
    method Load(lists: Reply<seq<TaskList>>, fetched: Reply<seq<Task>>) returns (sent: seq<Request>)
      modifies this`tasks, this`loading
      ensures sent == LoadRequests(lists)
      ensures Reloaded(old(tasks), lists, fetched, tasks)
      ensures !loading
    {
      loading := true;
      sent := [ListTaskLists(10)];
      if lists.Ok? && |lists.value| > 0 {
        sent := sent + [ListTasks(lists.value[0].id, false, 50)];
        if fetched.Ok? {
          var items := fetched.value;
          var a := new Task[|items|](k requires 0 <= k < |items| => items[k]);
          assert a[..] == items;
          SortByDue(a);
          tasks := a[..];
        }
      }
      loading := false;
    }

    /** What the body of a create did, given the replies it got: resolve
        the first list, insert the task, insert the companion event, and
        only when both inserts succeeded reset the draft, close the form
        and reload. A failure stops the sequence where it happens and keeps
        the draft, the form and the cache. */
    ghost predicate Submitted(title: string, date: string, priority: string, before: seq<Task>,
                        wasLoading: bool, formShown: bool,
                        lists: Reply<seq<TaskList>>, taskInserted: bool, eventInserted: bool,
                        reloadLists: Reply<seq<TaskList>>, reloadFetched: Reply<seq<Task>>,
                        sent: seq<Request>)
      reads this`tasks, this`loading, this`newTaskTitle, this`newTaskDate, this`newTaskPriority, this`showForm
    {
      var stopped := !HasList(lists) || !taskInserted || !eventInserted;
      |sent| >= 1 && sent[0] == ListTaskLists(1) &&
      (!HasList(lists) ==> |sent| == 1) &&
      (HasList(lists) ==>
        |sent| >= 2 && sent[1] == InsertTask(lists.value[0].id, NewTaskResource(title, date, priority))) &&
      (HasList(lists) && !taskInserted ==> |sent| == 2) &&
      (HasList(lists) && taskInserted ==>
        |sent| >= 3 && sent[2] == InsertEvent("primary", CompanionEvent(title, date, priority))) &&
      (HasList(lists) && taskInserted && !eventInserted ==> |sent| == 3) &&
      (stopped ==>
        newTaskTitle == title && newTaskDate == date && newTaskPriority == priority &&
        showForm == formShown && tasks == before && loading == wasLoading) &&
      (!stopped ==>
        sent[3..] == LoadRequests(reloadLists) &&
        Reloaded(before, reloadLists, reloadFetched, tasks) && !loading &&
        newTaskTitle == "" && newTaskDate == "" && newTaskPriority == "Medium" && !showForm)
    }

    /** The `try` block of `handleAddTask`. */
    method SubmitDraft(lists: Reply<seq<TaskList>>, taskInserted: bool, eventInserted: bool,
                       reloadLists: Reply<seq<TaskList>>, reloadFetched: Reply<seq<Task>>)
      returns (sent: seq<Request>)
      modifies this`tasks, this`loading, this`newTaskTitle, this`newTaskDate, this`newTaskPriority, this`showForm
      ensures Submitted(old(newTaskTitle), old(newTaskDate), old(newTaskPriority), old(tasks),
                        old(loading), old(showForm),
                        lists, taskInserted, eventInserted, reloadLists, reloadFetched, sent)
    {
      sent := [ListTaskLists(1)];
      if !(lists.Ok? && |lists.value| > 0) {
        return;
      }
      var tasklistId := lists.value[0].id;
      sent := sent + [InsertTask(tasklistId, NewTaskResource(newTaskTitle, newTaskDate, newTaskPriority))];
      if !taskInserted {
        return;
      }
      sent := sent + [InsertEvent("primary", CompanionEvent(newTaskTitle, newTaskDate, newTaskPriority))];
      if !eventInserted {
        return;
      }
      newTaskTitle := "";
      newTaskDate := "";
      newTaskPriority := "Medium";
      showForm := false;
      var reload := Load(reloadLists, reloadFetched);
      sent := sent + reload;
    }

    /** `handleAddTask`: a draft the guard rejects causes no request and no
        change; otherwise the create runs (see Submitted) with `isAdding`
        raised, and `isAdding` is lowered again whatever the outcome. */
    method AddTask(lists: Reply<seq<TaskList>>, taskInserted: bool, eventInserted: bool,
                   reloadLists: Reply<seq<TaskList>>, reloadFetched: Reply<seq<Task>>)
      returns (sent: seq<Request>)
      modifies this
      ensures !AddAllowed(old(newTaskTitle), old(newTaskDate), old(isAdding)) ==>
        sent == [] && unchanged(this)
      ensures AddAllowed(old(newTaskTitle), old(newTaskDate), old(isAdding)) ==>
        !isAdding &&
        Submitted(old(newTaskTitle), old(newTaskDate), old(newTaskPriority), old(tasks),
                  old(loading), old(showForm),
                  lists, taskInserted, eventInserted, reloadLists, reloadFetched, sent)
    {
      var trimmed := Trim(newTaskTitle);
      if trimmed == "" || newTaskDate == "" || isAdding {
        sent := [];
        return;
      }
      isAdding := true;
      sent := SubmitDraft(lists, taskInserted, eventInserted, reloadLists, reloadFetched);
      isAdding := false;
    }

    /** `handleCompleteTask`: resolve the first list, drop the task from the
        cache at once, then mark it completed remotely; if the lookup or the
        patch fails, reload. */
    method CompleteTask(taskId: string, lists: Reply<seq<TaskList>>, patched: bool,
                        reloadLists: Reply<seq<TaskList>>, reloadFetched: Reply<seq<Task>>)
      returns (sent: seq<Request>)
      modifies this`tasks, this`loading
      ensures |sent| >= 1 && sent[0] == ListTaskLists(1)
      ensures !HasList(lists) ==>
        sent[1..] == LoadRequests(reloadLists) &&
        Reloaded(old(tasks), reloadLists, reloadFetched, tasks) && !loading
      ensures HasList(lists) ==>
        |sent| >= 2 && sent[1] == PatchTask(lists.value[0].id, taskId, "completed")
      ensures HasList(lists) && patched ==>
        |sent| == 2 && tasks == RemoveId(old(tasks), taskId) && loading == old(loading)
      ensures HasList(lists) && !patched ==>
        sent[2..] == LoadRequests(reloadLists) &&
        Reloaded(RemoveId(old(tasks), taskId), reloadLists, reloadFetched, tasks) && !loading
    {
      sent := [ListTaskLists(1)];
      if !(lists.Ok? && |lists.value| > 0) {
        var reload := Load(reloadLists, reloadFetched);
        sent := sent + reload;
        return;
      }
      var tasklistId := lists.value[0].id;
      tasks := RemoveId(tasks, taskId);
      sent := sent + [PatchTask(tasklistId, taskId, "completed")];
      if !patched {
        var reload := Load(reloadLists, reloadFetched);
        sent := sent + reload;
      }
    }
  }
}
