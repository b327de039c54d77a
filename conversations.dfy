/** The client-side data model shared by the React client and the older
    single-file script: the agent directory, messages, threads and the
    conversation store (agent key -> thread id -> thread). */
module Conversations {
  import opened Util

  type ThreadId = string

  /** The configured agents. The clients key them by the strings `Key` gives. */
  datatype AgentKey = Vendor | Customs | Warehouse | Port | Account | Retail | Influencer

  /** An entry of the agent directory: display name, contact address, webhook. */
  datatype Agent = Agent(name: string, email: string, webhook: Option<string>)

  /** The address every user-sent message comes from. */
  const StudentEmail: string := "student@mokabura.com"


  /** The key each agent has in the agent directory. */
  function Key(k: AgentKey): string {
    match k
    case Vendor => "vendor"
    case Customs => "customs"
    case Warehouse => "warehouse"
    case Port => "port"
    case Account => "account"
    case Retail => "retail"
    case Influencer => "influencer"
  }

  /** The agent directory; both clients configure the same seven agents. */
  const AgentDirectory: map<AgentKey, Agent> := map[
    Vendor := Agent("Vendor", "vendor@merlion.com", Some("https://n8n.jagadeesh.shop/webhook/agent-vendor")),
    Customs := Agent("Customs Broker", "customs@clearance.com", Some("https://n8n.jagadeesh.shop/webhook/agent-customs")),
    Warehouse := Agent("Warehouse Owners", "warehouse@storage.com", Some("https://n8n.jagadeesh.shop/webhook/agent-warehouse")),
    Port := Agent("Port Owners", "port@harbor.gov", Some("https://n8n.jagadeesh.shop/webhook/agent-port")),
    Account := Agent("Account Manager", "manager@mokabura.com", Some("https://n8n.jagadeesh.shop/webhook/agent-account")),
    Retail := Agent("Retail Bots", "retail@shop.com", Some("https://n8n.jagadeesh.shop/webhook/agent-retail")),
    Influencer := Agent("Influencer", "influencer@social.com", Some("https://n8n.jagadeesh.shop/webhook/agent-influencer"))
  ]

  /** Every agent has an entry in the directory. */
  lemma Configured(k: AgentKey)
    ensures k in AgentDirectory
  {
    match k
    case Vendor =>
    case Customs =>
    case Warehouse =>
    case Port =>
    case Account =>
    case Retail =>
    case Influencer =>
  }

  /** `AGENT_CONFIG[k]`, looked up with the key written out for each agent. */
  function Config(k: AgentKey): Agent
  {
    match k
    case Vendor => AgentDirectory[Vendor]
    case Customs => AgentDirectory[Customs]
    case Warehouse => AgentDirectory[Warehouse]
    case Port => AgentDirectory[Port]
    case Account => AgentDirectory[Account]
    case Retail => AgentDirectory[Retail]
    case Influencer => AgentDirectory[Influencer]
  }

  /** The agent selected when the page loads. */
  const DefaultAgent: AgentKey := Vendor

  /** A message; `date` is the creation time in milliseconds. */
  datatype Message = Message(id: int, from: string, to: string, body: string, date: int, isUser: bool)

  /** A thread; `unread` may be missing, which the code reads as zero. */
  datatype Thread = Thread(subject: string, messages: seq<Message>, unread: Option<int>)

  /** Agent key -> thread id -> thread. */
  type Store = map<AgentKey, map<ThreadId, Thread>>

  /** How a webhook call ended: the request failed, the server answered with a
      non-2xx status, the body was not JSON, or a JSON body whose `reply`
      field is a string (or is missing). A JSON `null` body makes reading
      `data.reply` throw into the handler's `catch`, so it is given as
      `NetworkError`. */
  datatype WebhookOutcome = NetworkError | HttpError(status: int) | MalformedBody | Replied(reply: Option<string>)

  /** `thread.unread || 0`. */
  function UnreadCount(t: Thread): int {
    t.unread.GetOr(0)
  }

  /** The time of the last message, or 0 for a thread with no messages. */
  function LastTime(t: Thread): int {
    if t.messages == [] then 0 else t.messages[|t.messages| - 1].date
  }

  /** Each thread id's last-message time, 0 for an id with no thread. */
  function LastTimeOf(threads: map<ThreadId, Thread>): ThreadId -> int {
    (k: ThreadId) => if k in threads then LastTime(threads[k]) else 0
  }

  /** A message the user sends to `agent` at time `now`. */
  function UserMessage(agent: Agent, body: string, now: int): (m: Message)
    ensures m.isUser && m.body == body && m.from == StudentEmail && m.to == agent.email
  {
    Message(now, StudentEmail, agent.email, body, now, true)
  }

  /** A reply from `agent` received at time `now` (its id is `now + 1`). */
  function AgentMessage(agent: Agent, body: string, now: int): (m: Message)
    ensures !m.isUser && m.body == body && m.from == agent.email && m.to == StudentEmail
  {
    Message(now + 1, agent.email, StudentEmail, body, now, false)
  }

  /** `'thread_' + Date.now()`. */
  function ThreadIdAt(now: nat): ThreadId {
    "thread_" + NatToString(now)
  }

  /** Thread ids made at different times are different. */
  lemma ThreadIdInjective(a: nat, b: nat)
    requires a != b
    ensures ThreadIdAt(a) != ThreadIdAt(b)
  {
    if ThreadIdAt(a) == ThreadIdAt(b) {
      assert ThreadIdAt(a)[7..] == NatToString(a);
      assert ThreadIdAt(b)[7..] == NatToString(b);
      NatToStringInjective(a, b);
    }
  }

  /** Every configured agent has a thread map. */
  ghost predicate Complete(s: Store) {
    s.Keys == AgentDirectory.Keys
  }

  /** In a complete store, any agent's thread map can be looked up. */
  lemma InStore(s: Store, k: AgentKey)
    requires Complete(s)
    ensures k in s
  {
    Configured(k);
  }

  /** The store at page load: every configured agent with no threads. */
  function InitialStore(): (s: Store)
    ensures Complete(s)
    ensures forall k :: k in s ==> s[k] == map[]
  {
    map k | k in AgentDirectory :: map[]
  }

  /** `store[agent]`, with a missing agent read as an empty thread map. */
  function ThreadsOf(s: Store, agent: AgentKey): map<ThreadId, Thread> {
    if agent in s then s[agent] else map[]
  }

  /** `r` differs from `s` at most in thread `id` of `agent`, which it holds. */
  ghost predicate ChangesOnly(s: Store, r: Store, agent: AgentKey, id: ThreadId) {
    && r.Keys == s.Keys + {agent}
    && (forall a :: a in s && a != agent ==> r[a] == s[a])
    && r[agent].Keys == ThreadsOf(s, agent).Keys + {id}
    && (forall t :: t in ThreadsOf(s, agent) && t != id ==> r[agent][t] == s[agent][t])
  }

  /** `copy[agent] = { ...copy[agent], [id]: t }`. */
  function PutThread(s: Store, agent: AgentKey, id: ThreadId, t: Thread): (r: Store)
    ensures r.Keys == s.Keys + {agent}
    ensures r[agent].Keys == ThreadsOf(s, agent).Keys + {id} && r[agent][id] == t
  {
    s[agent := ThreadsOf(s, agent)[id := t]]
  }

  /** Storing a thread changes that thread and nothing else. */
  lemma PutChangesOnly(s: Store, agent: AgentKey, id: ThreadId, t: Thread)
    ensures ChangesOnly(s, PutThread(s, agent, id, t), agent, id)
  {
  }

  /** Storing a thread keeps every configured agent's thread map. */
  lemma PutKeepsComplete(s: Store, agent: AgentKey, id: ThreadId, t: Thread)
    ensures Complete(s) ==> Complete(PutThread(s, agent, id, t))
  {
    Configured(agent);
  }

  /** The thread after the user writes in it: one more message, same unread count. */
  function WithUserMessage(t: Thread, m: Message): Thread {
    t.(messages := t.messages + [m])
  }

  /** The subject a reply's webhook call carries. */
  function ReplySubject(subject: string): string {
    "Re: " + subject
  }

  /** The thread after an agent reply: one more message and one more unread. */
  function WithReply(t: Thread, reply: Message): (r: Thread)
    ensures r.subject == t.subject
    ensures |r.messages| == |t.messages| + 1
    ensures r.messages[..|t.messages|] == t.messages && r.messages[|t.messages|] == reply
    ensures UnreadCount(r) == UnreadCount(t) + 1
  {
    Thread(t.subject, t.messages + [reply], Some(UnreadCount(t) + 1))
  }

  /** `keys` is `Object.keys(m)`: every key of `m` exactly once, in some order. */
  ghost predicate EnumeratesKeys<V>(keys: seq<ThreadId>, m: map<ThreadId, V>) {
    && Distinct(keys)
    && (forall k :: k in m <==> k in keys)
  }

  /** With the keys enumerated, there are as many keys as entries. */
  lemma {:induction false} EnumeratedCount<V>(keys: seq<ThreadId>, m: map<ThreadId, V>)
    requires EnumeratesKeys(keys, m)
    ensures |keys| == |m|
  {
    if keys == [] {
      assert m.Keys == {};
    } else {
      var k := keys[|keys| - 1];
      var m' := map x | x in m && x != k :: m[x];
      assert m'.Keys == m.Keys - {k};
      assert EnumeratesKeys(keys[..|keys| - 1], m') by {
        forall x ensures x in m' <==> x in keys[..|keys| - 1] {
          if x in keys {
            var i :| 0 <= i < |keys| && keys[i] == x;
            if x != k {
              assert i < |keys| - 1;
            }
          }
        }
      }
      EnumeratedCount(keys[..|keys| - 1], m');
    }
  }
}
