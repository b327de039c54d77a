/** The React client's inbox: one agent's threads, newest last message first,
    split into unread and read, shown through a filter, each with a preview. */
module Inbox {
  import opened Util
  import opened Text
  import opened Conversations
  import opened Sorting

  /** The filter buttons above the list. */
  datatype ThreadFilter = All | Unopened | Opened

  /** A preview shows at most this many characters of its text. */
  const PreviewLimit: nat := 120

  /** One row of the list: the thread, its subject, the unread badge (if
      shown), the preview and the date text. */
  datatype Row = Row(id: ThreadId, subject: string, badge: Option<int>, preview: string, dateText: string)

  /** The empty state when the agent has no threads; otherwise the rows and,
      when the filter leaves none, the note shown instead. */
  datatype Screen = EmptyState | Listing(rows: seq<Row>, note: Option<string>)

  /** `(thread.unread || 0) > 0`. */
  function IsUnread(threads: map<ThreadId, Thread>): ThreadId -> bool {
    (k: ThreadId) => k in threads && UnreadCount(threads[k]) > 0
  }

  /** `!thread.unread`: no count, or a count of zero. */
  function IsRead(threads: map<ThreadId, Thread>): ThreadId -> bool {
    (k: ThreadId) => k in threads && UnreadCount(threads[k]) == 0
  }

  /** The thread ids newest last message first (a thread without messages
      counts as time 0); ties keep their key order. */
  function ByDate(threads: map<ThreadId, Thread>, keys: seq<ThreadId>): seq<ThreadId> {
    SortDesc(keys, LastTimeOf(threads))
  }

  function UnreadIds(threads: map<ThreadId, Thread>, keys: seq<ThreadId>): seq<ThreadId> {
    Filter(ByDate(threads, keys), IsUnread(threads))
  }

  function ReadIds(threads: map<ThreadId, Thread>, keys: seq<ThreadId>): seq<ThreadId> {
    Filter(ByDate(threads, keys), IsRead(threads))
  }

  /** The ids the filter shows: unread then read for "all", otherwise one group. */
  function Visible(threads: map<ThreadId, Thread>, keys: seq<ThreadId>, filter: ThreadFilter): seq<ThreadId> {
    match filter
    case All => UnreadIds(threads, keys) + ReadIds(threads, keys)
    case Unopened => UnreadIds(threads, keys)
    case Opened => ReadIds(threads, keys)
  }

  /** The text a preview is cut from: who sent the last message and its body,
      or the subject when there is no last message or its body is empty. */
  function PreviewSource(t: Thread): (r: string)
    ensures t.messages == [] || t.messages[|t.messages| - 1].body == "" ==> r == t.subject
    ensures t.messages != [] && t.messages[|t.messages| - 1].body != "" ==>
      var last := t.messages[|t.messages| - 1];
      r == (if last.isUser then "You: " else "Agent: ") + last.body
  {
    if t.messages == [] then t.subject
    else
      var last := t.messages[|t.messages| - 1];
      if last.body == "" then t.subject
      else (if last.isUser then "You: " else "Agent: ") + last.body
  }

  /** The first 120 characters, and "..." only when something was cut. */
  function Preview(text: string): (r: string)
    ensures |r| <= PreviewLimit + 3
    ensures |text| <= PreviewLimit ==> r == text
    ensures |text| > PreviewLimit ==> r == text[..PreviewLimit] + "..."
  {
    Take(text, PreviewLimit) + (if |text| > PreviewLimit then "..." else "")
  }

  /** The row for one thread; `formatDate` is `toLocaleString`. */
  function RowOf(threads: map<ThreadId, Thread>, k: ThreadId, formatDate: int -> string): (r: Row)
    requires k in threads
    ensures r.id == k && r.subject == threads[k].subject
    ensures r.badge.Some? <==> UnreadCount(threads[k]) != 0
    ensures r.badge.Some? ==> r.badge.value == UnreadCount(threads[k])
    ensures r.preview == Preview(PreviewSource(threads[k]))
    ensures threads[k].messages == [] ==> r.dateText == "No messages yet"
    ensures threads[k].messages != [] ==> r.dateText == formatDate(LastTime(threads[k]))
  {
    var t := threads[k];
    var badge := if UnreadCount(t) != 0 then Some(UnreadCount(t)) else None;
    var dateText := if t.messages == [] then "No messages yet" else formatDate(LastTime(t));
    Row(k, t.subject, badge, Preview(PreviewSource(t)), dateText)
  }

  /** The note shown when the filter leaves no thread. */
  function EmptyNote(filter: ThreadFilter): string {
    if filter == Unopened then "No unopened threads at the moment." else "No opened threads match this view yet."
  }

  /** The inbox for the threads of one agent (`keys` being `Object.keys`). */
  function RenderInbox(threads: map<ThreadId, Thread>, keys: seq<ThreadId>, filter: ThreadFilter,
                       formatDate: int -> string): (r: Screen)
    requires EnumeratesKeys(keys, threads)
    ensures r.EmptyState? <==> threads == map[]
    ensures r.Listing? ==>
      var v := Visible(threads, keys, filter);
      && |r.rows| == |v|
      && (forall i :: 0 <= i < |v| ==> v[i] in threads && r.rows[i] == RowOf(threads, v[i], formatDate))
      && (r.note.Some? <==> v == [])
  {
    if |keys| == 0 then
      assert threads.Keys == {};
      EmptyState
    else
      assert keys[0] in threads;
      var v := Visible(threads, keys, filter);
      VisibleInThreads(threads, keys, filter);
      var rows := seq(|v|, i requires 0 <= i < |v| => RowOf(threads, v[i], formatDate));
      Listing(rows, if v == [] then Some(EmptyNote(filter)) else None)
  }

  /** Everything shown is a thread of the agent. */
  lemma VisibleInThreads(threads: map<ThreadId, Thread>, keys: seq<ThreadId>, filter: ThreadFilter)
    ensures forall k :: k in Visible(threads, keys, filter) ==> k in threads
  {
  }

  /** Sorting by date keeps exactly the thread ids. */
  lemma ByDateMembers(threads: map<ThreadId, Thread>, keys: seq<ThreadId>)
    requires EnumeratesKeys(keys, threads)
    ensures forall k :: k in ByDate(threads, keys) <==> k in threads
  {
    SortPermutes(keys, LastTimeOf(threads));
    forall k ensures k in ByDate(threads, keys) <==> k in keys {
      assert k in ByDate(threads, keys) <==> k in multiset(ByDate(threads, keys));
      assert k in keys <==> k in multiset(keys);
    }
  }

  /** "Unopened" shows exactly the threads with unread messages, and
      "opened" exactly those with no count or a count of zero. */
  lemma FiltersExact(threads: map<ThreadId, Thread>, keys: seq<ThreadId>)
    requires EnumeratesKeys(keys, threads)
    ensures forall k :: k in Visible(threads, keys, Unopened) <==> k in threads && UnreadCount(threads[k]) > 0
    ensures forall k :: k in Visible(threads, keys, Opened) <==> k in threads && UnreadCount(threads[k]) == 0
  {
    ByDateMembers(threads, keys);
  }

  /** Each group is newest first, and under "all" every unread thread comes
      before every read one. */
  lemma VisibleOrder(threads: map<ThreadId, Thread>, keys: seq<ThreadId>)
    ensures SortedDesc(UnreadIds(threads, keys), LastTimeOf(threads))
    ensures SortedDesc(ReadIds(threads, keys), LastTimeOf(threads))
    ensures var v := Visible(threads, keys, All);
      forall i, j :: 0 <= i < j < |v| && IsUnread(threads)(v[j]) ==> IsUnread(threads)(v[i])
  {
    var key := LastTimeOf(threads);
    SortSorted(keys, key);
    FilterSorted(ByDate(threads, keys), IsUnread(threads), key);
    FilterSorted(ByDate(threads, keys), IsRead(threads), key);
    var u, r := UnreadIds(threads, keys), ReadIds(threads, keys);
    var v := u + r;
    forall i, j | 0 <= i < j < |v| && IsUnread(threads)(v[j]) ensures IsUnread(threads)(v[i]) {
      if j >= |u| {
        assert false;
      }
    }
  }

  /** With no negative unread count, "all" shows every thread exactly once. */
  lemma AllShowsEachOnce(threads: map<ThreadId, Thread>, keys: seq<ThreadId>)
    requires EnumeratesKeys(keys, threads)
    requires forall k :: k in threads ==> UnreadCount(threads[k]) >= 0
    ensures multiset(Visible(threads, keys, All)) == multiset(keys)
    ensures forall k :: multiset(Visible(threads, keys, All))[k] == if k in threads then 1 else 0
  {
    var sorted := ByDate(threads, keys);
    ByDateMembers(threads, keys);
    FilterPartition(sorted, IsUnread(threads), IsRead(threads));
    SortPermutes(keys, LastTimeOf(threads));
    DistinctCount(keys);
  }

  /** A thread with a negative unread count is in neither group, so no filter
      shows it. */
  lemma NegativeUnreadHidden(threads: map<ThreadId, Thread>, keys: seq<ThreadId>, k: ThreadId, filter: ThreadFilter)
    requires k in threads && UnreadCount(threads[k]) < 0
    ensures k !in Visible(threads, keys, filter)
  {
  }
}
