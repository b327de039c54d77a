/** The first, single-file version of the client. Its state lives in
    module-level variables (the current agent and view, the conversation
    store and the set of opened threads) that the event handlers update in
    place; here they are the fields of one object. As in the React client,
    each asynchronous handler is split at its `await`. */
module Legacy {
  import opened Util
  import opened Text
  import opened Conversations
  import opened Sorting

  datatype View = InboxView | ThreadView | ComposeView

  /** A new conversation's webhook call, with the agent captured at send time. */
  datatype PendingSend = PendingSend(agent: AgentKey, threadId: ThreadId, subject: string, body: string)

  /** A reply's webhook call: the agent current when it was sent, the thread,
      the subject it carries and the reply text. */
  datatype PendingReply = PendingReply(agent: AgentKey, threadId: ThreadId, subject: string, text: string)

  /** Every thread this client creates starts with a message and a numeric unread count. */
  ghost predicate WellFormed(t: Thread) {
    |t.messages| >= 1 && t.unread.Some? && t.unread.value >= 0
  }

  /** Every configured agent has a thread map, and every thread is well formed. */
  ghost predicate StoreValid(s: Store) {
    && Complete(s)
    && forall a, id :: a in s && id in s[a] ==> WellFormed(s[a][id])
  }

  /** Storing a well-formed thread keeps the store valid. */
  lemma PutKeepsValid(s: Store, agent: AgentKey, id: ThreadId, t: Thread)
    requires StoreValid(s) && WellFormed(t)
    ensures StoreValid(PutThread(s, agent, id, t))
  {
    PutKeepsComplete(s, agent, id, t);
    PutChangesOnly(s, agent, id, t);
  }

  /** The reply body the webhook's answer gives: its `reply`, or a fixed text. */
  function ReplyBody(reply: Option<string>): (r: string)
    ensures r != ""
    ensures Present(reply) ==> r == reply.value
    ensures !Present(reply) ==> r == "No response received"
  {
    OrElse(reply, "No response received")
  }

  class LegacyInbox {
    var currentAgent: AgentKey
    var currentView: View
    var conversations: Store
    var openedThreads: set<ThreadId>

    /** Every configured agent has a thread map and every thread is well formed. */
    ghost predicate Valid()
      reads this
    {
      StoreValid(conversations)
    }

    /** Page load: the first agent, its inbox, and no conversations anywhere. */
    constructor()
      ensures Valid()
      ensures currentAgent == DefaultAgent && currentView == InboxView && openedThreads == {}
      ensures conversations == InitialStore()
    {
      currentAgent := DefaultAgent;
      currentView := InboxView;
      conversations := InitialStore();
      openedThreads := {};
    }

    /** A click on an agent in the sidebar. */
    method SelectAgent(agent: AgentKey)
      requires Valid()
      modifies this
      ensures Valid()
      ensures currentAgent == agent && currentView == InboxView
      ensures conversations == old(conversations) && openedThreads == old(openedThreads)
    {
      currentAgent := agent;
      currentView := InboxView;
    }

    /** The send button, up to the webhook call. With a subject or body that
        is blank after trimming nothing changes and nothing is sent. Otherwise
        a new thread holding the user's message is stored under the current
        agent and the inbox is shown. */
    method Send(subjectInput: string, bodyInput: string, now: nat) returns (pending: Option<PendingSend>)
      requires Valid()
      modifies this
      ensures Valid()
      ensures currentAgent == old(currentAgent) && openedThreads == old(openedThreads)
      ensures Trim(subjectInput) == "" || Trim(bodyInput) == "" ==>
        pending == None && conversations == old(conversations) && currentView == old(currentView)
      ensures Trim(subjectInput) != "" && Trim(bodyInput) != "" ==>
        && pending == Some(PendingSend(currentAgent, ThreadIdAt(now), Trim(subjectInput), Trim(bodyInput)))
        && currentView == InboxView
        && conversations == PutThread(old(conversations), currentAgent, ThreadIdAt(now),
             Thread(Trim(subjectInput), [UserMessage(Config(currentAgent), Trim(bodyInput), now)], Some(0)))
    {
      var subject := Trim(subjectInput);
      var body := Trim(bodyInput);
      if subject == "" || body == "" {
        return None;
      }
      var threadId := ThreadIdAt(now);
      var agent := currentAgent;
      var thread := Thread(subject, [], Some(0));
      var userMessage := UserMessage(Config(agent), body, now);
      thread := thread.(messages := thread.messages + [userMessage]);
      assert thread.messages == [userMessage];
      PutKeepsValid(conversations, agent, threadId, thread);
      conversations := PutThread(conversations, agent, threadId, thread);
      currentView := InboxView;
      pending := Some(PendingSend(agent, threadId, subject, body));
    }

    /** The send button after the webhook call. A failed call changes nothing.
        An answer, even one that is not JSON, appends the agent's reply to the
        captured thread (recreating it if it has gone) and adds one unread. */
    method CompleteSend(p: PendingSend, outcome: WebhookOutcome, later: int)
      requires Valid()
      modifies this
      ensures Valid()
      ensures currentAgent == old(currentAgent) && currentView == old(currentView) && openedThreads == old(openedThreads)
      ensures outcome.NetworkError? || outcome.HttpError? ==> conversations == old(conversations)
      ensures outcome.MalformedBody? || outcome.Replied? ==>
        var before := if p.threadId in ThreadsOf(old(conversations), p.agent) then ThreadsOf(old(conversations), p.agent)[p.threadId]
                      else Thread(p.subject, [], Some(0));
        var body := if outcome.Replied? then ReplyBody(outcome.reply) else ReplyBody(None);
        conversations == PutThread(old(conversations), p.agent, p.threadId,
                                   WithReply(before, AgentMessage(Config(p.agent), body, later)))
    {
      var reply: Option<string>;
      match outcome {
        case NetworkError => return;
        case HttpError(_) => return;
        case MalformedBody => reply := None;
        case Replied(r) => reply := r;
      }
      InStore(conversations, p.agent);
      var agentReply := AgentMessage(Config(p.agent), ReplyBody(reply), later);
      var t := if p.threadId in conversations[p.agent] then conversations[p.agent][p.threadId]
               else Thread(p.subject, [], Some(0));
      t := WithReply(t, agentReply);
      PutKeepsValid(conversations, p.agent, p.threadId, t);
      conversations := PutThread(conversations, p.agent, p.threadId, t);
    }

    /** Opening a thread: it is recorded as opened and, when the current agent
        has it, its unread count drops to zero. */
    method ShowThreadView(id: ThreadId)
      requires Valid()
      modifies this
      ensures Valid()
      ensures currentAgent == old(currentAgent) && currentView == ThreadView
      ensures openedThreads == old(openedThreads) + {id}
      ensures id !in ThreadsOf(old(conversations), currentAgent) ==> conversations == old(conversations)
      ensures id in ThreadsOf(old(conversations), currentAgent) ==>
        conversations == PutThread(old(conversations), currentAgent, id,
                                   ThreadsOf(old(conversations), currentAgent)[id].(unread := Some(0)))
    {
      InStore(conversations, currentAgent);
      currentView := ThreadView;
      openedThreads := openedThreads + {id};
      if id in conversations[currentAgent] {
        var t := conversations[currentAgent][id].(unread := Some(0));
        PutKeepsValid(conversations, currentAgent, id, t);
        conversations := PutThread(conversations, currentAgent, id, t);
      }
    }

    /** A reply, up to the webhook call. Blank text (after trimming), or a
        thread the current agent does not have, changes nothing. Otherwise the
        user's message is appended at once, so it stays even if the call fails. */
    method SendReply(id: ThreadId, replyInput: string, now: int) returns (pending: Option<PendingReply>)
      requires Valid()
      modifies this
      ensures Valid()
      ensures currentAgent == old(currentAgent) && currentView == old(currentView) && openedThreads == old(openedThreads)
      ensures Trim(replyInput) == "" || id !in ThreadsOf(old(conversations), currentAgent) ==>
        pending == None && conversations == old(conversations)
      ensures Trim(replyInput) != "" && id in ThreadsOf(old(conversations), currentAgent) ==>
        var t := ThreadsOf(old(conversations), currentAgent)[id];
        && pending == Some(PendingReply(currentAgent, id, ReplySubject(t.subject), Trim(replyInput)))
        && conversations == PutThread(old(conversations), currentAgent, id,
             WithUserMessage(t, UserMessage(Config(currentAgent), Trim(replyInput), now)))
    {
      InStore(conversations, currentAgent);
      var replyText := Trim(replyInput);
      if replyText == "" || id !in conversations[currentAgent] {
        return None;
      }
      var thread := conversations[currentAgent][id];
      var subject := ReplySubject(thread.subject);
      var userReply := UserMessage(Config(currentAgent), replyText, now);
      thread := WithUserMessage(thread, userReply);
      PutKeepsValid(conversations, currentAgent, id, thread);
      conversations := PutThread(conversations, currentAgent, id, thread);
      pending := Some(PendingReply(currentAgent, id, subject, replyText));
    }

    /** A reply after the webhook call. Only a JSON answer appends the agent's
        message, sent from the agent current at that moment, and adds one unread;
        a failed call or a body that is not JSON changes nothing. */
    method CompleteReply(p: PendingReply, outcome: WebhookOutcome, later: int)
      requires Valid()
      modifies this
      ensures Valid()
      ensures currentAgent == old(currentAgent) && currentView == old(currentView) && openedThreads == old(openedThreads)
      ensures !outcome.Replied? || p.threadId !in ThreadsOf(old(conversations), p.agent) ==>
        conversations == old(conversations)
      ensures outcome.Replied? && p.threadId in ThreadsOf(old(conversations), p.agent) ==>
        conversations == PutThread(old(conversations), p.agent, p.threadId,
          WithReply(ThreadsOf(old(conversations), p.agent)[p.threadId],
                    AgentMessage(Config(currentAgent), ReplyBody(outcome.reply), later)))
    {
      InStore(conversations, p.agent);
      if !outcome.Replied? || p.threadId !in conversations[p.agent] {
        return;
      }
      var thread := conversations[p.agent][p.threadId];
      var agentReply := AgentMessage(Config(currentAgent), ReplyBody(outcome.reply), later);
      thread := thread.(messages := thread.messages + [agentReply], unread := Some(thread.unread.value + 1));
      assert thread == WithReply(conversations[p.agent][p.threadId], agentReply);
      PutKeepsValid(conversations, p.agent, p.threadId, thread);
      conversations := PutThread(conversations, p.agent, p.threadId, thread);
    }
  }

  // ---------------------------------------------------------------------
  // The inbox listing.

  /** The first message the user sent in a thread, if any. */
  function FirstUserMessage(ms: seq<Message>): (r: Option<Message>)
    ensures r.None? <==> forall i :: 0 <= i < |ms| ==> !ms[i].isUser
    ensures r.Some? ==> exists i :: 0 <= i < |ms| && ms[i] == r.value && r.value.isUser
                                    && forall j :: 0 <= j < i ==> !ms[j].isUser
  {
    if ms == [] then None
    else if ms[0].isUser then Some(ms[0])
    else
      var r := FirstUserMessage(ms[1..]);
      assert r.Some? ==> exists i :: 0 <= i < |ms| && ms[i] == r.value && r.value.isUser
                                     && forall j :: 0 <= j < i ==> !ms[j].isUser by {
        if r.Some? {
          var i :| 0 <= i < |ms[1..]| && ms[1..][i] == r.value && forall j :: 0 <= j < i ==> !ms[1..][j].isUser;
          assert ms[i + 1] == r.value;
        }
      }
      r
  }

  /** One row of the inbox. */
  datatype InboxItem = InboxItem(threadId: ThreadId, subject: string, badge: bool, unread: int,
                                 preview: string, date: int)

  datatype InboxListing = NoMessages | Listing(items: seq<InboxItem>)

  function Listed(threads: map<ThreadId, Thread>): ThreadId -> bool {
    (k: ThreadId) => k in threads && FirstUserMessage(threads[k].messages).Some?
  }

  /** The thread ids the inbox lists, in display order: newest last message
      first, leaving out threads without a message from the user. */
  function ListedIds(threads: map<ThreadId, Thread>, keys: seq<ThreadId>): seq<ThreadId> {
    Filter(SortDesc(keys, LastTimeOf(threads)), Listed(threads))
  }

  /** The row for a listed thread: its subject, a badge when it has unread
      messages, and the first 100 characters of the user's first message
      followed by "...". */
  function Row(threads: map<ThreadId, Thread>, k: ThreadId): (r: InboxItem)
    requires Listed(threads)(k)
    ensures r.threadId == k && r.subject == threads[k].subject
    ensures r.badge <==> UnreadCount(threads[k]) > 0
    ensures r.unread == UnreadCount(threads[k])
    ensures var first := FirstUserMessage(threads[k].messages).value;
      r.preview == Take(first.body, 100) + "..." && r.date == first.date
    ensures |r.preview| <= 103
  {
    var t := threads[k];
    var first := FirstUserMessage(t.messages).value;
    InboxItem(k, t.subject, UnreadCount(t) > 0, UnreadCount(t), Take(first.body, 100) + "...", first.date)
  }

  /** `renderInbox` for the current agent's threads, `keys` being their
      enumeration order. */
  function RenderInbox(threads: map<ThreadId, Thread>, keys: seq<ThreadId>): (r: InboxListing)
    requires EnumeratesKeys(keys, threads)
    ensures r.NoMessages? <==> threads == map[]
    ensures r.Listing? ==> |r.items| == |ListedIds(threads, keys)|
    ensures r.Listing? ==> forall i :: 0 <= i < |r.items| ==> r.items[i] == Row(threads, ListedIds(threads, keys)[i])
  {
    if |keys| == 0 then
      assert threads.Keys == {};
      NoMessages
    else
      var ids := ListedIds(threads, keys);
      assert keys[0] in threads;
      Listing(seq(|ids|, i requires 0 <= i < |ids| => Row(threads, ids[i])))
  }

  /** The inbox lists threads newest last message first. */
  lemma InboxNewestFirst(threads: map<ThreadId, Thread>, keys: seq<ThreadId>)
    ensures var ids := ListedIds(threads, keys);
      forall i, j :: 0 <= i < j < |ids| ==> LastTime(threads[ids[i]]) >= LastTime(threads[ids[j]])
  {
    SortSorted(keys, LastTimeOf(threads));
    FilterSorted(SortDesc(keys, LastTimeOf(threads)), Listed(threads), LastTimeOf(threads));
  }

  /** The inbox lists every thread that holds a message from the user exactly
      once, and no other thread. */
  lemma InboxListsUserThreads(threads: map<ThreadId, Thread>, keys: seq<ThreadId>)
    requires EnumeratesKeys(keys, threads)
    ensures var ids := ListedIds(threads, keys);
      && (forall k :: k in ids <==> k in threads && FirstUserMessage(threads[k].messages).Some?)
      && (forall k :: k in ids ==> multiset(ids)[k] == 1)
  {
    var sorted := SortDesc(keys, LastTimeOf(threads));
    SortPermutes(keys, LastTimeOf(threads));
    DistinctCount(keys);
    forall k ensures k in sorted <==> k in keys {
      assert k in sorted <==> k in multiset(sorted);
      assert k in keys <==> k in multiset(keys);
    }
    forall k | k in ListedIds(threads, keys)
      ensures multiset(ListedIds(threads, keys))[k] == 1
    {
      FilterCount(sorted, Listed(threads), k);
    }
  }

  /** A thread the user has not started never appears in the inbox, however
      many replies it holds. */
  lemma AgentOnlyThreadHidden(threads: map<ThreadId, Thread>, keys: seq<ThreadId>, k: ThreadId)
    requires k in threads && forall i :: 0 <= i < |threads[k].messages| ==> !threads[k].messages[i].isUser
    ensures k !in ListedIds(threads, keys)
  {
  }
}
