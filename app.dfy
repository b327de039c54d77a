/** The React client's top-level component: which agent and view are active,
    and the conversation store it updates. Every asynchronous handler is split
    at its `await` into a step that runs before the webhook call and a step
    that runs after it; the webhook's outcome is an input of the second. */
module App {
  import opened Util
  import opened Conversations

  datatype View = InboxView | ComposeView | ThreadView

  datatype AppState = AppState(
    activeAgent: AgentKey,
    view: View,
    selectedThread: Option<ThreadId>,
    conversations: Store)

  /** Every configured agent has a thread map. */
  ghost predicate Valid(st: AppState) {
    Complete(st.conversations)
  }

  /** A webhook call in flight: the agent and thread captured when it was
      started, and the subject and body it carries. */
  datatype Pending = Pending(agent: AgentKey, threadId: ThreadId, subject: string, body: string)

  /** The state on page load. */
  function Initial(): (st: AppState)
    ensures Valid(st)
    ensures st.activeAgent == DefaultAgent && st.view == InboxView && st.selectedThread == None
    ensures forall k :: k in st.conversations ==> st.conversations[k] == map[]
  {
    AppState(DefaultAgent, InboxView, None, InitialStore())
  }

  /** Choosing an agent in the sidebar shows that agent's inbox. */
  function SelectAgent(st: AppState, agent: AgentKey): (r: AppState)
    ensures Valid(st) ==> Valid(r)
    ensures r.activeAgent == agent && r.view == InboxView && r.selectedThread == None
    ensures r.conversations == st.conversations
  {
    AppState(agent, InboxView, None, st.conversations)
  }

  /** Opening a thread shows it and clears its unread count; an id the active
      agent does not have leaves the store as it was. */
  function OpenThread(st: AppState, id: ThreadId): (r: AppState)
    ensures r.activeAgent == st.activeAgent && r.view == ThreadView && r.selectedThread == Some(id)
    ensures Valid(st) ==> Valid(r)
    ensures id !in ThreadsOf(st.conversations, st.activeAgent) ==> r.conversations == st.conversations
    ensures id in ThreadsOf(st.conversations, st.activeAgent) ==>
      && ChangesOnly(st.conversations, r.conversations, st.activeAgent, id)
      && r.conversations.Keys == st.conversations.Keys
      && r.conversations[st.activeAgent].Keys == st.conversations[st.activeAgent].Keys
      && var (t, t') := (st.conversations[st.activeAgent][id], r.conversations[st.activeAgent][id]);
         t'.subject == t.subject && t'.messages == t.messages && t'.unread == Some(0)
  {
    var s := st.conversations;
    var a := st.activeAgent;
    if id in ThreadsOf(s, a) then
      var t := s[a][id].(unread := Some(0));
      PutChangesOnly(s, a, id, t);
      PutKeepsComplete(s, a, id, t);
      AppState(a, ThreadView, Some(id), PutThread(s, a, id, t))
    else
      AppState(a, ThreadView, Some(id), s)
  }

  /** What `sendToAgent` resolves to: the webhook's reply when it gave one,
      "No response" when it answered without one, and an automatic reply
      naming the agent when there is no webhook or the call failed. */
  function ReplyText(agent: Agent, outcome: WebhookOutcome): (r: string)
    ensures r != ""
    ensures !Present(agent.webhook) || outcome.NetworkError? || outcome.HttpError? ==>
      r == "Auto-reply from " + agent.name
    ensures Present(agent.webhook) && outcome.Replied? && Present(outcome.reply) ==>
      r == outcome.reply.value
    ensures Present(agent.webhook) && (outcome.MalformedBody? || (outcome.Replied? && !Present(outcome.reply))) ==>
      r == "No response"
  {
    if !Present(agent.webhook) then "Auto-reply from " + agent.name
    else match outcome
      case NetworkError => "Auto-reply from " + agent.name
      case HttpError(_) => "Auto-reply from " + agent.name
      case MalformedBody => "No response"
      case Replied(reply) => OrElse(reply, "No response")
  }

  /** `createThreadAndSend` up to the webhook call: a new thread holding the
      user's message, under the agent active at the call, and the inbox shown. */
  function CreateThreadStart(st: AppState, subject: string, body: string, now: nat): (r: (AppState, Pending))
    ensures r.1 == Pending(st.activeAgent, ThreadIdAt(now), subject, body)
    ensures r.0.activeAgent == st.activeAgent && r.0.view == InboxView && r.0.selectedThread == None
    ensures Valid(st) ==> Valid(r.0)
    ensures ChangesOnly(st.conversations, r.0.conversations, st.activeAgent, ThreadIdAt(now))
    ensures var t := r.0.conversations[st.activeAgent][ThreadIdAt(now)];
      && t.subject == subject
      && t.messages == [UserMessage(Config(st.activeAgent), body, now)]
      && t.unread == Some(0)
  {
    var agent := st.activeAgent;
    var id := ThreadIdAt(now);
    var t := Thread(subject, [UserMessage(Config(agent), body, now)], Some(0));
    PutChangesOnly(st.conversations, agent, id, t);
    PutKeepsComplete(st.conversations, agent, id, t);
    (AppState(agent, InboxView, None, PutThread(st.conversations, agent, id, t)), Pending(agent, id, subject, body))
  }

  /** `createThreadAndSend` after the webhook call: the agent's reply appended
      to the captured thread (recreated empty if it has gone) and one more unread. */
  function CreateThreadFinish(st: AppState, p: Pending, outcome: WebhookOutcome, later: int): (r: AppState)
    requires p.agent in st.conversations
    ensures r.activeAgent == st.activeAgent && r.view == st.view && r.selectedThread == st.selectedThread
    ensures Valid(st) ==> Valid(r)
    ensures ChangesOnly(st.conversations, r.conversations, p.agent, p.threadId)
    ensures var before := if p.threadId in st.conversations[p.agent]
                          then st.conversations[p.agent][p.threadId]
                          else Thread(p.subject, [], Some(0));
            var after := r.conversations[p.agent][p.threadId];
      after == WithReply(before, AgentMessage(Config(p.agent), ReplyText(Config(p.agent), outcome), later))
  {
    var threads := st.conversations[p.agent];
    var before := if p.threadId in threads then threads[p.threadId] else Thread(p.subject, [], Some(0));
    var after := WithReply(before, AgentMessage(Config(p.agent), ReplyText(Config(p.agent), outcome), later));
    PutChangesOnly(st.conversations, p.agent, p.threadId, after);
    PutKeepsComplete(st.conversations, p.agent, p.threadId, after);
    st.(conversations := PutThread(st.conversations, p.agent, p.threadId, after))
  }

  /** `sendReply` up to the webhook call. Empty text changes nothing and sends
      nothing; otherwise the user's message is appended to the thread and a
      call is made with the subject prefixed by "Re: ". */
  function SendReplyStart(st: AppState, id: ThreadId, text: string, now: int): (r: (AppState, Option<Pending>))
    requires text != "" ==> id in ThreadsOf(st.conversations, st.activeAgent)
    ensures text == "" ==> r.0 == st && r.1 == None
    ensures Valid(st) ==> Valid(r.0)
    ensures text != "" ==>
      && r.0.activeAgent == st.activeAgent && r.0.view == st.view && r.0.selectedThread == st.selectedThread
      && ChangesOnly(st.conversations, r.0.conversations, st.activeAgent, id)
      && r.0.conversations[st.activeAgent].Keys == st.conversations[st.activeAgent].Keys
      && var (t, t') := (st.conversations[st.activeAgent][id], r.0.conversations[st.activeAgent][id]);
         && t'.subject == t.subject && t'.unread == t.unread
         && t'.messages == t.messages + [UserMessage(Config(st.activeAgent), text, now)]
         && r.1 == Some(Pending(st.activeAgent, id, ReplySubject(t.subject), text))
  {
    if text == "" then (st, None)
    else
      var agent := st.activeAgent;
      var t := st.conversations[agent][id];
      var t' := WithUserMessage(t, UserMessage(Config(agent), text, now));
      PutChangesOnly(st.conversations, agent, id, t');
      PutKeepsComplete(st.conversations, agent, id, t');
      (st.(conversations := PutThread(st.conversations, agent, id, t')), Some(Pending(agent, id, ReplySubject(t.subject), text)))
  }

  /** `sendReply` after the webhook call: the agent's reply appended to the
      captured thread and one more unread. */
  function SendReplyFinish(st: AppState, p: Pending, outcome: WebhookOutcome, later: int): (r: AppState)
    requires p.threadId in ThreadsOf(st.conversations, p.agent)
    ensures r.activeAgent == st.activeAgent && r.view == st.view && r.selectedThread == st.selectedThread
    ensures Valid(st) ==> Valid(r)
    ensures ChangesOnly(st.conversations, r.conversations, p.agent, p.threadId)
    ensures r.conversations[p.agent].Keys == st.conversations[p.agent].Keys
    ensures r.conversations[p.agent][p.threadId]
         == WithReply(st.conversations[p.agent][p.threadId],
                      AgentMessage(Config(p.agent), ReplyText(Config(p.agent), outcome), later))
  {
    var t := st.conversations[p.agent][p.threadId];
    var after := WithReply(t, AgentMessage(Config(p.agent), ReplyText(Config(p.agent), outcome), later));
    PutChangesOnly(st.conversations, p.agent, p.threadId, after);
    PutKeepsComplete(st.conversations, p.agent, p.threadId, after);
    st.(conversations := PutThread(st.conversations, p.agent, p.threadId, after))
  }

  /** Composing a message and getting the reply leaves a thread with exactly
      two messages, the user's first and the agent's second, and one unread. */
  lemma CreateThenReply(st: AppState, subject: string, body: string, now: nat, outcome: WebhookOutcome, later: int)
    requires Valid(st)
    ensures var (mid, p) := CreateThreadStart(st, subject, body, now);
            var r := CreateThreadFinish(mid, p, outcome, later);
            var t := r.conversations[st.activeAgent][ThreadIdAt(now)];
      && Valid(r)
      && t.subject == subject
      && |t.messages| == 2
      && t.messages[0].isUser && t.messages[0].body == body
      && !t.messages[1].isUser && t.messages[1].body == ReplyText(Config(st.activeAgent), outcome)
      && t.unread == Some(1)
  {
    var (mid, p) := CreateThreadStart(st, subject, body, now);
    assert p.threadId in mid.conversations[p.agent];
  }

  /** The reply to a message lands in the agent that was active when the
      message was sent, even when the user has switched agents meanwhile; the
      newly active agent's threads are untouched. */
  lemma ReplyFollowsCapturedAgent(st: AppState, subject: string, body: string, now: nat,
                                  other: AgentKey, outcome: WebhookOutcome, later: int)
    requires Valid(st) && other != st.activeAgent
    ensures var (mid, p) := CreateThreadStart(st, subject, body, now);
            var r := CreateThreadFinish(SelectAgent(mid, other), p, outcome, later);
      && r.activeAgent == other
      && r.conversations[other] == st.conversations[other]
      && |r.conversations[st.activeAgent][ThreadIdAt(now)].messages| == 2
  {
    var (mid, p) := CreateThreadStart(st, subject, body, now);
    var switched := SelectAgent(mid, other);
    assert p.threadId in switched.conversations[p.agent];
    InStore(st.conversations, other);
    var r := CreateThreadFinish(switched, p, outcome, later);
    assert r.conversations[other] == mid.conversations[other];
  }

  /** A non-empty reply and its answer append exactly two messages to the
      thread, the user's and then the agent's, and raise unread by one; every
      other thread keeps its contents. */
  lemma ReplyExchange(st: AppState, id: ThreadId, text: string, now: int, outcome: WebhookOutcome, later: int)
    requires Valid(st) && text != "" && id in ThreadsOf(st.conversations, st.activeAgent)
    ensures var (mid, p) := SendReplyStart(st, id, text, now);
      && p.Some?
      && var r := SendReplyFinish(mid, p.value, outcome, later);
         var (t, t') := (st.conversations[st.activeAgent][id], r.conversations[st.activeAgent][id]);
      && Valid(r)
      && r.conversations[st.activeAgent].Keys == st.conversations[st.activeAgent].Keys
      && (forall a, u :: a in st.conversations && u in st.conversations[a] && (a, u) != (st.activeAgent, id) ==>
            r.conversations[a][u] == st.conversations[a][u])
      && t'.messages == t.messages + [UserMessage(Config(st.activeAgent), text, now),
                                      AgentMessage(Config(st.activeAgent), ReplyText(Config(st.activeAgent), outcome), later)]
      && UnreadCount(t') == UnreadCount(t) + 1
  {
    var (mid, p) := SendReplyStart(st, id, text, now);
    var r := SendReplyFinish(mid, p.value, outcome, later);
    forall a, u | a in st.conversations && u in st.conversations[a] && (a, u) != (st.activeAgent, id)
      ensures r.conversations[a][u] == st.conversations[a][u]
    {
      if a == st.activeAgent {
        assert u != id;
      }
    }
  }

  // ---------------------------------------------------------------------
  // Downloading every conversation with the active agent as one text file.

  datatype Download = Download(content: string, fileName: string)

  // Each line function below is one `content +=` step of the download.

  function TitleLine(agentName: string): string {
    "All Conversations with " + agentName + "\n"
  }

  function DownloadedLine(downloadedAt: string): string {
    "Downloaded: " + downloadedAt + "\n"
  }

  function TotalLine(count: nat): string {
    "Total Threads: " + NatToString(count) + "\n\n"
  }

  function HeaderRule(): string {
    Repeat('=', 80) + "\n\n"
  }

  function DownloadHeader(agentName: string, downloadedAt: string, count: nat): string {
    TitleLine(agentName) + DownloadedLine(downloadedAt) + TotalLine(count) + HeaderRule()
  }

  function BannerOpen(): string {
    "\n" + Repeat('#', 80) + "\n"
  }

  function ThreadTitle(n: nat, subject: string): string {
    "THREAD " + NatToString(n) + ": " + subject + "\n"
  }

  function BannerClose(): string {
    Repeat('#', 80) + "\n\n"
  }

  /** The banner that opens thread number `n`. */
  function ThreadHeading(n: nat, subject: string): string {
    BannerOpen() + ThreadTitle(n, subject) + BannerClose()
  }

  function SenderLine(m: Message, n: nat, agentName: string): string {
    "Message " + NatToString(n) + " - " + (if m.isUser then "You" else agentName) + "\n"
  }

  function DateLine(m: Message, formatDate: int -> string): string {
    "Date: " + formatDate(m.date) + "\n"
  }

  function ToLine(m: Message): string {
    "To: " + m.to + "\n\n"
  }

  function BodyLines(m: Message): string {
    m.body + "\n\n"
  }

  function MessageRule(): string {
    Repeat('-', 60) + "\n\n"
  }

  /** Message number `n`: who sent it, when, to whom, its body and a rule. */
  function MessageBlock(m: Message, n: nat, agentName: string, formatDate: int -> string): string {
    SenderLine(m, n, agentName) + DateLine(m, formatDate) + ToLine(m) + BodyLines(m) + MessageRule()
  }

  function RenderMessage(agentName: string, formatDate: int -> string): (Message, nat) -> string {
    (m: Message, n: nat) => MessageBlock(m, n, agentName, formatDate)
  }

  /** The messages of a thread, numbered consecutively from `first`. */
  function MessageBlocks(ms: seq<Message>, first: nat, agentName: string, formatDate: int -> string): string {
    Numbered(ms, first, RenderMessage(agentName, formatDate))
  }

  function HeadingOf(threads: map<ThreadId, Thread>): (ThreadId, nat) -> string {
    (k: ThreadId, n: nat) => ThreadHeading(n, if k in threads then threads[k].subject else "")
  }

  function MessagesOf(threads: map<ThreadId, Thread>): ThreadId -> seq<Message> {
    (k: ThreadId) => if k in threads then threads[k].messages else []
  }

  /** A banner and then the children numbered from 1, for a numbered item. */
  function Section<K, M>(heading: (K, nat) -> string, children: K -> seq<M>,
                         renderChild: (M, nat) -> string): (K, nat) -> string {
    (k: K, n: nat) => heading(k, n) + Numbered(children(k), 1, renderChild)
  }

  /** The threads named by `keys`, in that order, numbered consecutively from
      `first`; each is its banner and then its messages numbered from 1. */
  function ThreadSections(threads: map<ThreadId, Thread>, keys: seq<ThreadId>, first: nat,
                          agentName: string, formatDate: int -> string): string {
    Numbered(keys, first, Section(HeadingOf(threads), MessagesOf(threads), RenderMessage(agentName, formatDate)))
  }

  /** The whole file: the header, then every thread numbered from 1 in key order. */
  function AllConversationsText(threads: map<ThreadId, Thread>, keys: seq<ThreadId>,
                                agentName: string, downloadedAt: string, formatDate: int -> string): string {
    DownloadHeader(agentName, downloadedAt, |keys|) + ThreadSections(threads, keys, 1, agentName, formatDate)
  }

  /** Message `i` of a thread (counting from 0) is printed as "Message i+1",
      after all the messages before it and before all those after it. */
  lemma {:induction false} MessageNumbering(ms: seq<Message>, i: nat, agentName: string, formatDate: int -> string)
    requires i < |ms|
    ensures MessageBlocks(ms, 1, agentName, formatDate)
         == MessageBlocks(ms[..i], 1, agentName, formatDate)
          + MessageBlock(ms[i], i + 1, agentName, formatDate)
          + MessageBlocks(ms[i + 1..], i + 2, agentName, formatDate)
  {
    NumberedAt(ms, i, 1, RenderMessage(agentName, formatDate));
  }

  /** A thread's section is its banner and then its messages numbered from 1. */
  lemma ThreadSectionOf(threads: map<ThreadId, Thread>, k: ThreadId, n: nat,
                        agentName: string, formatDate: int -> string)
    requires k in threads
    ensures Section(HeadingOf(threads), MessagesOf(threads), RenderMessage(agentName, formatDate))(k, n)
         == ThreadHeading(n, threads[k].subject) + MessageBlocks(threads[k].messages, 1, agentName, formatDate)
  {
  }

  /** Item `i` of a numbered list of sections (counting from 0) is its
      banner numbered `i + 1` and its children numbered from 1, between the
      items before it and those after it. */
  lemma SectionAt<K, M>(keys: seq<K>, i: nat, heading: (K, nat) -> string, children: K -> seq<M>,
                        renderChild: (M, nat) -> string)
    requires i < |keys|
    ensures var f := Section(heading, children, renderChild);
      Numbered(keys, 1, f)
        == Numbered(keys[..i], 1, f) + heading(keys[i], i + 1)
         + Numbered(children(keys[i]), 1, renderChild) + Numbered(keys[i + 1..], i + 2, f)
  {
    var f := Section(heading, children, renderChild);
    NumberedAt(keys, i, 1, f);
    Regroup(Numbered(keys[..i], 1, f), heading(keys[i], i + 1), Numbered(children(keys[i]), 1, renderChild),
            Numbered(keys[i + 1..], i + 2, f));
  }

  /** Concatenation regrouped. */
  lemma Regroup<T>(a: seq<T>, b: seq<T>, c: seq<T>, d: seq<T>)
    ensures a + (b + c) + d == a + b + c + d
  {
  }

  /** Thread `i` in key order (counting from 0) is printed under "THREAD i+1"
      with its own messages numbered from 1, after all the threads before it
      and before all those after it. */
  lemma ThreadNumbering(threads: map<ThreadId, Thread>, keys: seq<ThreadId>, i: nat,
                        agentName: string, formatDate: int -> string)
    requires i < |keys| && keys[i] in threads
    ensures ThreadSections(threads, keys, 1, agentName, formatDate)
         == ThreadSections(threads, keys[..i], 1, agentName, formatDate)
          + ThreadHeading(i + 1, threads[keys[i]].subject)
          + MessageBlocks(threads[keys[i]].messages, 1, agentName, formatDate)
          + ThreadSections(threads, keys[i + 1..], i + 2, agentName, formatDate)
  {
    SectionAt(keys, i, HeadingOf(threads), MessagesOf(threads), RenderMessage(agentName, formatDate));
  }

  /** The header's thread count is the number of threads the agent has. */
  lemma HeaderCountsThreads(threads: map<ThreadId, Thread>, keys: seq<ThreadId>,
                            agentName: string, downloadedAt: string, formatDate: int -> string)
    requires EnumeratesKeys(keys, threads)
    ensures AllConversationsText(threads, keys, agentName, downloadedAt, formatDate)
         == DownloadHeader(agentName, downloadedAt, |threads|) + ThreadSections(threads, keys, 1, agentName, formatDate)
  {
    EnumeratedCount(keys, threads);
  }

  /** A `forEach((x, i) => content += ...)` loop: every item rendered with its
      running number, appended to `content` in order. */
  method AppendNumbered<T>(content: string, xs: seq<T>, first: nat, render: (T, nat) -> string)
    returns (out: string)
    ensures out == content + Numbered(xs, first, render)
  {
    out := content;
    var j := 0;
    while j < |xs|
      invariant 0 <= j <= |xs|
      invariant out == content + Numbered(xs[..j], first, render)
    {
      out := out + render(xs[j], first + j);
      NumberedSnoc(xs[..j], xs[j], first, render);
      assert xs[..j + 1] == xs[..j] + [xs[j]];
      j := j + 1;
    }
    assert xs[..j] == xs;
  }

  /** Two nested `forEach` loops: for every item, its banner and then its
      children, each numbered from 1. */
  method AppendSections<K, M>(content: string, keys: seq<K>, heading: (K, nat) -> string,
                              children: K -> seq<M>, renderChild: (M, nat) -> string)
    returns (out: string)
    ensures out == content + Numbered(keys, 1, Section(heading, children, renderChild))
  {
    out := content;
    var i := 0;
    while i < |keys|
      invariant 0 <= i <= |keys|
      invariant out == content + Numbered(keys[..i], 1, Section(heading, children, renderChild))
    {
      ghost var before := out;
      out := out + heading(keys[i], i + 1);
      out := AppendNumbered(out, children(keys[i]), 1, renderChild);
      assert out == before + Section(heading, children, renderChild)(keys[i], 1 + i);
      NumberedSnoc(keys[..i], keys[i], 1, Section(heading, children, renderChild));
      assert keys[..i + 1] == keys[..i] + [keys[i]];
      i := i + 1;
    }
    assert keys[..i] == keys;
  }

  /** `downloadAllConversations`: nothing when the active agent has no threads;
      otherwise the text file of all of them, in key order. */
  method DownloadAllConversations(st: AppState, keys: seq<ThreadId>, downloadedAt: string,
                                  formatDate: int -> string, now: nat) returns (d: Option<Download>)
    requires st.activeAgent in st.conversations
    requires EnumeratesKeys(keys, st.conversations[st.activeAgent])
    ensures st.conversations[st.activeAgent] == map[] <==> d == None
    ensures d.Some? ==>
      var name := Config(st.activeAgent).name;
      && d.value.content == AllConversationsText(st.conversations[st.activeAgent], keys, name, downloadedAt, formatDate)
      && d.value.fileName == "all_conversations_" + name + "_" + NatToString(now) + ".txt"
  {
    var threads := st.conversations[st.activeAgent];
    var name := Config(st.activeAgent).name;
    EnumeratedCount(keys, threads);
    if |keys| == 0 {
      assert threads.Keys == {};
      return None;
    }
    var content := TitleLine(name);
    content := content + DownloadedLine(downloadedAt);
    content := content + TotalLine(|keys|);
    content := content + HeaderRule();
    content := AppendSections(content, keys, HeadingOf(threads), MessagesOf(threads), RenderMessage(name, formatDate));
    d := Some(Download(content, "all_conversations_" + name + "_" + NatToString(now) + ".txt"));
  }
}
