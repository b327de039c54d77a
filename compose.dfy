/** The message composer: its undo/redo history of the editor's HTML, the
    list of drafts saved by hand, and the send button. The component keeps
    the history in refs and the drafts in state, updating them step by step;
    here they are the fields of one object. The DOM's `textContent` of an
    HTML string is a function parameter, and `localStorage` an opaque
    string-to-string map. */
module Compose {
  import opened Util
  import opened Text

  /** The history keeps at most this many editor states. */
  const HistoryLimit: nat := 50

  /** The saved-drafts list keeps at most this many drafts. */
  const DraftLimit: nat := 25

  /** The subject a draft saved without one gets. */
  const UntitledDraft: string := "Untitled draft"

  /** The `localStorage` key of the saved-drafts list. */
  const SavedDraftsKey: string := "saved_drafts"

  /** A draft saved by hand; `updatedAt` is the save time in milliseconds. */
  datatype SavedDraft = SavedDraft(id: string, agentKey: Option<string>, subject: string, body: string, updatedAt: int)

  /** An optional string prop that JavaScript treats as falsy: missing or empty. */
  predicate Blank(s: Option<string>) {
    s.None? || s.value == ""
  }

  /** The `localStorage` key of the automatic draft kept for one agent. */
  function AgentDraftKey(agentKey: string): string {
    "draft_" + agentKey
  }

  // ---------------------------------------------------------------------
  // The history as values.

  /** A history and a position in it. */
  ghost predicate HistoryValid(history: seq<string>, index: int) {
    0 <= index < |history| <= HistoryLimit
  }

  /** The history after recording `html` at `index`: the entries after the
      index dropped, `html` appended, and the oldest entry dropped when that
      makes more than the limit. */
  function Recorded(history: seq<string>, index: nat, html: string): seq<string>
    requires index < |history|
  {
    var next := history[..index + 1] + [html];
    if |next| > HistoryLimit then next[1..] else next
  }

  /** Recording keeps the history within the limit, ends it with the new
      state, and keeps before it the most recent of the states up to the
      index, as many as fit. */
  lemma RecordedSpec(history: seq<string>, index: nat, html: string)
    requires HistoryValid(history, index)
    ensures var r := Recorded(history, index, html);
      && |r| == (if index + 2 > HistoryLimit then HistoryLimit else index + 2)
      && r[|r| - 1] == html
      && r[..|r| - 1] == history[index + 2 - |r|..index + 1]
  {
    var next := history[..index + 1] + [html];
    if |next| > HistoryLimit {
      assert next[1..][..|next| - 2] == history[1..index + 1];
    } else {
      assert next[..|next| - 1] == history[..index + 1];
    }
  }

  /** The position after undo: one back, unless already at the first state. */
  function UndoIndex(index: int): int {
    if index <= 0 then index else index - 1
  }

  /** The position after redo: one forward, unless already at the last state. */
  function RedoIndex(history: seq<string>, index: int): int {
    if index >= |history| - 1 then index else index + 1
  }

  /** Undo and redo stay in the history; an undo that moves is undone by a
      redo, and a redo that moves by an undo. */
  lemma UndoRedo(history: seq<string>, index: int)
    requires HistoryValid(history, index)
    ensures HistoryValid(history, UndoIndex(index)) && HistoryValid(history, RedoIndex(history, index))
    ensures index > 0 ==> RedoIndex(history, UndoIndex(index)) == index
    ensures index < |history| - 1 ==> UndoIndex(RedoIndex(history, index)) == index
    ensures index == 0 ==> UndoIndex(index) == index
    ensures index == |history| - 1 ==> RedoIndex(history, index) == index
  {
  }

  // ---------------------------------------------------------------------
  // Saved drafts as values.

  /** `subj.trim() || 'Untitled draft'`: never empty, so the "empty draft"
      rejection that follows it in the component can never fire. */
  function DraftSubject(subject: string): (r: string)
    ensures r != ""
    ensures Trim(subject) != "" ==> r == Trim(subject)
    ensures Trim(subject) == "" ==> r == UntitledDraft
  {
    var t := Trim(subject);
    if t != "" then t else UntitledDraft
  }

  /** `[d, ...drafts].slice(0, 25)`. */
  function Prepend(d: SavedDraft, drafts: seq<SavedDraft>): (r: seq<SavedDraft>)
    ensures |r| == (if |drafts| + 1 > DraftLimit then DraftLimit else |drafts| + 1)
    ensures r[0] == d && r[1..] == drafts[..|r| - 1]
  {
    var next := [d] + drafts;
    var r := if |next| > DraftLimit then next[..DraftLimit] else next;
    assert r[1..] == drafts[..|r| - 1];
    r
  }

  /** Drafts ordered newest first. */
  ghost predicate NewestFirst(drafts: seq<SavedDraft>) {
    forall i, j :: 0 <= i < j < |drafts| ==> drafts[i].updatedAt >= drafts[j].updatedAt
  }

  /** Saving a draft no older than the newest keeps the list newest first. */
  lemma PrependNewestFirst(d: SavedDraft, drafts: seq<SavedDraft>)
    requires NewestFirst(drafts)
    requires drafts == [] || d.updatedAt >= drafts[0].updatedAt
    ensures NewestFirst(Prepend(d, drafts))
  {
    var r := Prepend(d, drafts);
    forall i, j | 0 <= i < j < |r| ensures r[i].updatedAt >= r[j].updatedAt {
      assert r[j] == drafts[j - 1];
      if i > 0 {
        assert r[i] == drafts[i - 1];
      } else if j > 1 {
        assert drafts[0].updatedAt >= drafts[j - 1].updatedAt;
      }
    }
  }

  /** `filteredDrafts`: every draft when the composer has no agent, otherwise
      the drafts saved for that agent, in their order. */
  function FilteredDrafts(drafts: seq<SavedDraft>, agentKey: Option<string>): (r: seq<SavedDraft>)
    ensures Blank(agentKey) ==> r == drafts
    ensures !Blank(agentKey) ==> forall d :: d in r <==> d in drafts && d.agentKey == agentKey
    ensures !Blank(agentKey) ==>
      forall d :: multiset(r)[d] == (if d.agentKey == agentKey then multiset(drafts)[d] else 0)
    ensures IsSubsequence(r, drafts)
  {
    if Blank(agentKey) then
      SubsequenceRefl(drafts);
      drafts
    else
      var forAgent := (d: SavedDraft) => d.agentKey == agentKey;
      FilterIsSubsequence(drafts, forAgent);
      FilterCounts(drafts, forAgent);
      Filter(drafts, forAgent)
  }

  // ---------------------------------------------------------------------
  // The automatic draft as values.

  /** `persistDraft`: the storage and the `draftExists` flag after writing the
      agent's automatic draft. Without an agent, or before the draft has been
      loaded, nothing is written; otherwise the subject and the editor's text
      are stored under the agent's key, and the flag says whether either is
      non-blank. `encode` is the JSON encoding of the pair. */
  function PersistedDraft(storage: map<string, string>, present: bool, agentKey: Option<string>, bootstrapped: bool,
                          subject: string, body: string, encode: (string, string) -> string)
    : (r: (map<string, string>, bool))
    ensures Blank(agentKey) || !bootstrapped ==> r == (storage, present)
    ensures !Blank(agentKey) && bootstrapped ==>
      && r.0 == storage[AgentDraftKey(agentKey.value) := encode(subject, body)]
      && (r.1 <==> Trim(body) != "" || Trim(subject) != "")
  {
    if Blank(agentKey) || !bootstrapped then (storage, present)
    else (storage[AgentDraftKey(agentKey.value) := encode(subject, body)], Trim(body) != "" || Trim(subject) != "")
  }

  /** The automatic draft never lands on the saved-drafts list: writing it
      keeps that entry, and every key but the agent's own, as it was. */
  lemma PersistKeepsOtherKeys(storage: map<string, string>, present: bool, agentKey: Option<string>, bootstrapped: bool,
                              subject: string, body: string, encode: (string, string) -> string, key: string)
    requires key == SavedDraftsKey || Blank(agentKey) || key != AgentDraftKey(agentKey.value)
    ensures var r := PersistedDraft(storage, present, agentKey, bootstrapped, subject, body, encode);
      (key in r.0 <==> key in storage) && (key in storage ==> r.0[key] == storage[key])
  {
    if !Blank(agentKey) && key == SavedDraftsKey {
      assert AgentDraftKey(agentKey.value)[0] == 'd' != key[0];
    }
  }

  /** Writing the same draft twice leaves what writing it once does. */
  lemma PersistIdempotent(storage: map<string, string>, present: bool, agentKey: Option<string>, bootstrapped: bool,
                          subject: string, body: string, encode: (string, string) -> string)
    ensures var once := PersistedDraft(storage, present, agentKey, bootstrapped, subject, body, encode);
      PersistedDraft(once.0, once.1, agentKey, bootstrapped, subject, body, encode) == once
  {
    if !Blank(agentKey) && bootstrapped {
      var k, v := AgentDraftKey(agentKey.value), encode(subject, body);
      assert storage[k := v][k := v] == storage[k := v];
    }
  }

  // ---------------------------------------------------------------------
  // The component.

  class Composer {
    /** The agent the composer writes to, a prop. */
    const agentKey: Option<string>
    var subject: string
    var cc: string
    /** The editor's `innerHTML`. */
    var html: string
    var history: seq<string>
    var index: int
    var savedDrafts: seq<SavedDraft>
    var draftMenuOpen: bool
    var draftExists: bool
    /** Whether the agent's automatic draft has been loaded; until then it is not written. */
    var draftBootstrapped: bool
    var storage: map<string, string>

    /** The history position is inside the history, which is within the limit. */
    ghost predicate Valid()
      reads this
    {
      HistoryValid(history, index)
    }

    /** Mounting: the subject prop (or nothing), an empty editor with a
        one-state history, and the saved drafts read from storage. The
        draft-loading effect leaves the automatic draft loaded exactly when
        there is an agent. */
    constructor(subjectProp: Option<string>, agentKey: Option<string>, savedDrafts: seq<SavedDraft>,
                storage: map<string, string>)
      ensures Valid()
      ensures this.agentKey == agentKey && subject == subjectProp.GetOr("") && cc == "" && html == ""
      ensures history == [""] && index == 0
      ensures this.savedDrafts == savedDrafts && !draftMenuOpen && !draftExists && this.storage == storage
      ensures draftBootstrapped <==> !Blank(agentKey)
    {
      this.agentKey := agentKey;
      subject := subjectProp.GetOr("");
      cc := "";
      html := "";
      history := [""];
      index := 0;
      this.savedDrafts := savedDrafts;
      draftMenuOpen := false;
      draftExists := false;
      draftBootstrapped := !Blank(agentKey);
      this.storage := storage;
    }

    /** `resetHistory`: the history becomes the one state given, and the
        position its only entry. */
    method ResetHistory(initial: string)
      modifies this
      ensures Valid()
      ensures history == [initial] && index == 0
      ensures subject == old(subject) && cc == old(cc) && html == old(html)
      ensures savedDrafts == old(savedDrafts) && draftMenuOpen == old(draftMenuOpen)
      ensures draftExists == old(draftExists) && storage == old(storage) && draftBootstrapped == old(draftBootstrapped)
    {
      history := [initial];
      index := 0;
    }

    /** `recordHistory`: nothing when the editor shows the current state;
        otherwise the states after the position are dropped, the editor's
        HTML appended (dropping the oldest state past the limit) and the
        position moved to it. */
    method RecordHistory()
      requires Valid()
      modifies this
      ensures Valid()
      ensures old(history[index]) == html ==> history == old(history) && index == old(index)
      ensures old(history[index]) != html ==>
        history == Recorded(old(history), old(index), html) && index == |history| - 1
      ensures subject == old(subject) && cc == old(cc) && html == old(html)
      ensures savedDrafts == old(savedDrafts) && draftMenuOpen == old(draftMenuOpen)
      ensures draftExists == old(draftExists) && storage == old(storage) && draftBootstrapped == old(draftBootstrapped)
    {
      if history[index] == html {
        return;
      }
      var next := history[..index + 1];
      next := next + [html];
      if |next| > HistoryLimit {
        next := next[1..];
      }
      history := next;
      index := |next| - 1;
    }

    /** `persistDraft` with no body given: the editor's text is the body. */
    method PersistDraft(textOf: string -> string, encode: (string, string) -> string)
      modifies this
      ensures (storage, draftExists)
           == PersistedDraft(old(storage), old(draftExists), agentKey, draftBootstrapped, subject, textOf(html), encode)
      ensures subject == old(subject) && cc == old(cc) && html == old(html)
      ensures history == old(history) && index == old(index) && draftBootstrapped == old(draftBootstrapped)
      ensures savedDrafts == old(savedDrafts) && draftMenuOpen == old(draftMenuOpen)
    {
      if Blank(agentKey) || !draftBootstrapped {
        return;
      }
      var body := textOf(html);
      storage := storage[AgentDraftKey(agentKey.value) := encode(subject, body)];
      draftExists := Trim(body) != "" || Trim(subject) != "";
    }

    /** `undoHistory`: at the first state nothing happens; otherwise the
        position moves back one, the editor shows that state and, as the
        toolbar refresh does, the automatic draft is written. */
    method Undo(textOf: string -> string, encode: (string, string) -> string)
      requires Valid()
      modifies this
      ensures Valid()
      ensures history == old(history) && index == UndoIndex(old(index))
      ensures old(index) <= 0 ==> html == old(html) && draftExists == old(draftExists) && storage == old(storage)
      ensures old(index) > 0 ==>
        && html == history[index]
        && (storage, draftExists)
           == PersistedDraft(old(storage), old(draftExists), agentKey, draftBootstrapped, subject, textOf(html), encode)
      ensures subject == old(subject) && cc == old(cc) && draftBootstrapped == old(draftBootstrapped)
      ensures savedDrafts == old(savedDrafts) && draftMenuOpen == old(draftMenuOpen)
    {
      if index <= 0 {
        return;
      }
      index := index - 1;
      html := history[index];
      PersistDraft(textOf, encode);
    }

    /** `redoHistory`: at the last state nothing happens; otherwise the
        position moves forward one, the editor shows that state and the
        automatic draft is written. */
    method Redo(textOf: string -> string, encode: (string, string) -> string)
      requires Valid()
      modifies this
      ensures Valid()
      ensures history == old(history) && index == RedoIndex(history, old(index))
      ensures old(index) >= |history| - 1 ==> html == old(html) && draftExists == old(draftExists) && storage == old(storage)
      ensures old(index) < |history| - 1 ==>
        && html == history[index]
        && (storage, draftExists)
           == PersistedDraft(old(storage), old(draftExists), agentKey, draftBootstrapped, subject, textOf(html), encode)
      ensures subject == old(subject) && cc == old(cc) && draftBootstrapped == old(draftBootstrapped)
      ensures savedDrafts == old(savedDrafts) && draftMenuOpen == old(draftMenuOpen)
    {
      if index >= |history| - 1 {
        return;
      }
      index := index + 1;
      html := history[index];
      PersistDraft(textOf, encode);
    }

    /** `handleManualSave`: a new draft with the trimmed subject (or the
        untitled one) and the editor's HTML (or, when that is empty, its
        trimmed text) goes first in the list, which keeps at most 25 drafts;
        the list is written to storage and the drafts menu closed. */
    method ManualSave(now: nat, textOf: string -> string, encode: seq<SavedDraft> -> string)
      modifies this
      ensures var d := SavedDraft("draft_" + NatToString(now), agentKey, DraftSubject(old(subject)),
                                  if old(html) != "" then old(html) else Trim(textOf(old(html))), now);
        savedDrafts == Prepend(d, old(savedDrafts))
      ensures storage == old(storage)[SavedDraftsKey := encode(savedDrafts)] && !draftMenuOpen
      ensures subject == old(subject) && cc == old(cc) && html == old(html)
      ensures history == old(history) && index == old(index) && draftExists == old(draftExists)
      ensures draftBootstrapped == old(draftBootstrapped)
    {
      var bodyHtml := html;
      var bodyText := Trim(textOf(html));
      var subjectText := DraftSubject(subject);
      var newDraft := SavedDraft("draft_" + NatToString(now), agentKey, subjectText,
                                 if bodyHtml != "" then bodyHtml else bodyText, now);
      var next := Prepend(newDraft, savedDrafts);
      savedDrafts := next;
      storage := storage[SavedDraftsKey := encode(next)];
      draftMenuOpen := false;
    }

    /** `handleSend`: with a blank subject or body (after trimming) nothing is
        sent and nothing changes. Otherwise the trimmed subject and body are
        handed on, the form and the history are cleared, and the agent's
        automatic draft is removed from storage. */
    method Send(textOf: string -> string) returns (sent: Option<(string, string)>)
      requires Valid()
      modifies this
      ensures Valid()
      ensures Trim(old(subject)) == "" || Trim(textOf(old(html))) == "" ==>
        && sent == None
        && subject == old(subject) && cc == old(cc) && html == old(html)
        && history == old(history) && index == old(index)
        && draftExists == old(draftExists) && storage == old(storage)
      ensures Trim(old(subject)) != "" && Trim(textOf(old(html))) != "" ==>
        && sent == Some((Trim(old(subject)), Trim(textOf(old(html)))))
        && subject == "" && cc == "" && html == ""
        && history == [""] && index == 0
        && (Blank(agentKey) ==> draftExists == old(draftExists) && storage == old(storage))
        && (!Blank(agentKey) ==> !draftExists && storage == old(storage) - {AgentDraftKey(agentKey.value)})
      ensures savedDrafts == old(savedDrafts) && draftMenuOpen == old(draftMenuOpen)
      ensures draftBootstrapped == old(draftBootstrapped)
    {
      var bodyText := Trim(textOf(html));
      var subjectText := Trim(subject);
      if subjectText == "" || bodyText == "" {
        return None;
      }
      sent := Some((subjectText, bodyText));
      subject := "";
      cc := "";
      html := "";
      ResetHistory("");
      if !Blank(agentKey) {
        storage := storage - {AgentDraftKey(agentKey.value)};
        draftExists := false;
      }
    }
  }
}
