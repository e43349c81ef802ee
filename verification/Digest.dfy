/** The message digest: grouping a window of messages into reply threads, and the counts per agent. */
module Digest {

  type Id = string
  type Agent = string
  type RowId = n: nat | n > 0 witness 1

  /** An empty `replyTo` is no reply. */
  datatype Message = Message(
    rowId: RowId, id: Id, conversation: bool, sender: Agent, recipient: Agent, replyTo: Id, noReplyExpected: bool, failed: bool)

  type Index = s: map<Id, Message> | forall k | k in s :: s[k].id == k

  /** The conversational messages of the window by public id. */
  function InSet(msgs: seq<Message>): Index {
    if msgs == [] then map[]
    else
      var m := msgs[|msgs| - 1];
      var s := InSet(msgs[..|msgs| - 1]);
      if m.conversation then s[m.id := m] else s
  }

  /** Message by message: the conversational ones are in, and of two with one id the later stays. */
  lemma {:induction false} InSetByMessage(msgs: seq<Message>, k: Id)
    ensures k in InSet(msgs) <==> exists i :: 0 <= i < |msgs| && msgs[i].conversation && msgs[i].id == k
    ensures forall i | 0 <= i < |msgs| && msgs[i].conversation && msgs[i].id == k
              && (forall j | i < j < |msgs| :: !(msgs[j].conversation && msgs[j].id == k)) ::
              k in InSet(msgs) && InSet(msgs)[k] == msgs[i]
  {
    if msgs != [] {
      var n := |msgs| - 1;
      InSetByMessage(msgs[..n], k);
      assert forall i | 0 <= i < n :: msgs[..n][i] == msgs[i];
    }
  }

  predicate HasParent(s: Index, id: Id)
    requires id in s
  {
    s[id].replyTo != "" && s[id].replyTo in s
  }

  // ---- Roots --------------------------------------------------------------------------------------------------

  /** Up the reply edges until they leave the window or come back to a message already passed. */
  function Walk(s: Index, cur: Id, seen: set<Id>): (root: Id)
    requires cur in s
    ensures root in s
    decreases s.Keys - seen
  {
    if HasParent(s, cur) && s[cur].replyTo !in seen then Walk(s, s[cur].replyTo, seen + {s[cur].replyTo}) else cur
  }

  function Root(s: Index, id: Id): (root: Id)
    requires id in s
    ensures root in s
  {
    Walk(s, id, {id})
  }

  method RootOf(s: Index, id: Id, cache0: map<Id, Id>) returns (root: Id, cache: map<Id, Id>)
    requires id in s && forall k | k in cache0 :: k in s && cache0[k] == Root(s, k)
    ensures root == Root(s, id) && forall k | k in cache :: k in s && cache[k] == Root(s, k)
  {
    cache := cache0;
    if id in cache { return cache[id], cache; }
    var seen, cur := {id}, id;
    while s[cur].replyTo != ""
      invariant cur in s && Walk(s, cur, seen) == Root(s, id)
      decreases s.Keys - seen
    {
      if s[cur].replyTo !in s || s[cur].replyTo in seen { break; }
      cur := s[cur].replyTo;
      seen := seen + {cur};
    }
    root := cur;
    cache := cache[id := root];
  }

  predicate InGroup(groups: map<Id, seq<Message>>, r: Id, m: Message) {
    r in groups && m in groups[r]
  }

  predicate Belongs(s: Index, done: set<Id>, r: Id, m: Message) {
    m.id in done && m.id in s && s[m.id] == m && Root(s, m.id) == r
  }

  predicate Distinct(g: seq<Message>) {
    forall i, j | 0 <= i < j < |g| :: g[i].id != g[j].id
  }

  /** The groups partition the messages of `done` by root. */
  ghost predicate Grouped(s: Index, done: set<Id>, groups: map<Id, seq<Message>>) {
    && (forall r, m :: InGroup(groups, r, m) <==> Belongs(s, done, r, m))
    && (forall r | r in groups :: groups[r] != [] && Distinct(groups[r]))
  }

  function Filed(groups: map<Id, seq<Message>>, r: Id, m: Message): map<Id, seq<Message>> {
    groups[r := (if r in groups then groups[r] else []) + [m]]
  }

  lemma GroupedStep(s: Index, done: set<Id>, groups: map<Id, seq<Message>>, id: Id)
    requires Grouped(s, done, groups) && id in s && id !in done
    ensures Grouped(s, done + {id}, Filed(groups, Root(s, id), s[id]))
  {
    hide Root, Distinct;
    var r0 := Root(s, id);
    var g, groups' := (if r0 in groups then groups[r0] else []), Filed(groups, r0, s[id]);
    forall i | 0 <= i < |g| ensures g[i].id in done {
      assert InGroup(groups, r0, g[i]);
    }
    forall r, m ensures InGroup(groups', r, m) <==> Belongs(s, done + {id}, r, m) {
      assert InGroup(groups, r, m) <==> Belongs(s, done, r, m);
    }
    forall r | r in groups' ensures groups'[r] != [] && Distinct(groups'[r]) {
      if r == r0 { DistinctAppend(g, s[id]); }
    }
  }

  lemma DistinctAppend(g: seq<Message>, m: Message)
    requires (g == [] || Distinct(g)) && forall i | 0 <= i < |g| :: g[i].id != m.id
    ensures Distinct(g + [m])
  {
  }

  /** Which messages, taken in which order, does not matter: each lands in the group of its own root. */
  method GroupByRoot(s: Index) returns (groups: map<Id, seq<Message>>)
    ensures Grouped(s, s.Keys, groups)
  {
    hide Root, Grouped;
    var cache: map<Id, Id> := map[];
    var todo, done: set<Id> := s.Keys, {};
    groups := map[];
    NoGroups(s);
    while todo != {}
      invariant todo !! done && todo + done == s.Keys
      invariant forall k | k in cache :: k in s && cache[k] == Root(s, k)
      invariant Grouped(s, done, groups)
    {
      var id :| id in todo;
      var r;
      r, cache := RootOf(s, id, cache);
      GroupedStep(s, done, groups, id);
      groups := groups[r := (if r in groups then groups[r] else []) + [s[id]]];
      todo, done := todo - {id}, done + {id};
    }
  }

  lemma NoGroups(s: Index)
    ensures Grouped(s, {}, map[])
  {
  }

  // ---- Trees --------------------------------------------------------------------------------------------------

  datatype Tree = Rooted(id: Id) | Empty | ManyRoots | NoRoot

  /** Nothing in the group is its parent. */
  predicate IsTop(g: seq<Message>, m: Message) {
    m.replyTo == "" || forall x | x in g :: x.id != m.replyTo
  }

  predicate NoTop(g: seq<Message>, n: nat, except: int)
    requires n <= |g|
  {
    forall j | 0 <= j < n && j != except :: !IsTop(g, g[j])
  }

  method BuildThreadTree(g: seq<Message>) returns (t: Tree)
    ensures t.Empty? <==> g == []
    ensures t.NoRoot? <==> g != [] && NoTop(g, |g|, -1)
    ensures t.Rooted? ==> exists i :: 0 <= i < |g| && IsTop(g, g[i]) && NoTop(g, |g|, i) && g[i].id == t.id
    ensures t.ManyRoots? ==> exists i, j :: 0 <= i < j < |g| && IsTop(g, g[i]) && IsTop(g, g[j])
  {
    if g == [] { return Empty; }
    var ids := set m | m in g :: m.id;
    var root := -1;
    for i := 0 to |g|
      invariant -1 <= root < i
      invariant root >= 0 ==> IsTop(g, g[root])
      invariant NoTop(g, i, root)
    {
      TopByIds(g, g[i], ids);
      if g[i].replyTo == "" || g[i].replyTo !in ids {
        if root >= 0 { return ManyRoots; }
        root := i;
      }
    }
    t := if root < 0 then NoRoot else Rooted(g[root].id);
  }

  lemma TopByIds(g: seq<Message>, m: Message, ids: set<Id>)
    requires ids == set m | m in g :: m.id
    ensures IsTop(g, m) <==> m.replyTo == "" || m.replyTo !in ids
  {
  }

  // ---- When replies point back in time ----------------------------------------------------------------------------

  ghost predicate Earlier(s: Index) {
    forall id | id in s && HasParent(s, id) :: s[s[id].replyTo].rowId < s[id].rowId
  }

  /** The ancestor whose parent is outside the window. */
  ghost function Top(s: Index, id: Id): (top: Id)
    requires Earlier(s) && id in s
    ensures top in s && !HasParent(s, top) && s[top].rowId <= s[id].rowId
    decreases s[id].rowId
  {
    if HasParent(s, id) then Top(s, s[id].replyTo) else id
  }

  lemma {:induction false} WalkReachesTop(s: Index, cur: Id, seen: set<Id>)
    requires Earlier(s) && cur in s && forall x | x in seen && x in s :: s[x].rowId >= s[cur].rowId
    ensures Walk(s, cur, seen) == Top(s, cur)
    decreases s[cur].rowId
  {
    if HasParent(s, cur) { WalkReachesTop(s, s[cur].replyTo, seen + {s[cur].replyTo}); }
  }

  predicate Adjacent(s: Index, a: Id, b: Id) {
    && a in s && b in s
    && ((HasParent(s, a) && s[a].replyTo == b) || (HasParent(s, b) && s[b].replyTo == a))
  }

  predicate IsPath(s: Index, p: seq<Id>) {
    && p != [] && (forall i | 0 <= i < |p| :: p[i] in s)
    && (forall i | 0 <= i < |p| - 1 :: Adjacent(s, p[i], p[i + 1]))
  }

  ghost predicate Joined(s: Index, a: Id, b: Id) {
    exists p :: IsPath(s, p) && p[0] == a && p[|p| - 1] == b
  }

  lemma {:induction false} PathsKeepTheTop(s: Index, p: seq<Id>)
    requires Earlier(s) && IsPath(s, p)
    ensures Top(s, p[0]) == Top(s, p[|p| - 1])
  {
    if |p| > 1 {
      assert Adjacent(s, p[0], p[1]);
      assert IsPath(s, p[1..]) by {
        forall i | 0 <= i < |p[1..]| - 1 ensures Adjacent(s, p[1..][i], p[1..][i + 1]) {
          assert Adjacent(s, p[i + 1], p[i + 1 + 1]);
        }
      }
      PathsKeepTheTop(s, p[1..]);
    }
  }

  lemma {:induction false} PathToTop(s: Index, id: Id) returns (p: seq<Id>)
    requires Earlier(s) && id in s
    ensures IsPath(s, p) && p[0] == id && p[|p| - 1] == Top(s, id)
    decreases s[id].rowId
  {
    if HasParent(s, id) {
      var q := PathToTop(s, s[id].replyTo);
      p := [id] + q;
      forall i | 0 <= i < |p| - 1 ensures Adjacent(s, p[i], p[i + 1]) {
        if i > 0 { assert Adjacent(s, q[i - 1], q[i - 1 + 1]); }
      }
    } else {
      p := [id];
    }
  }

  lemma {:induction false} PathBack(s: Index, p: seq<Id>) returns (q: seq<Id>)
    requires IsPath(s, p)
    ensures IsPath(s, q) && q[0] == p[|p| - 1] && q[|q| - 1] == p[0]
    decreases |p|
  {
    if |p| == 1 {
      q := p;
    } else {
      assert Adjacent(s, p[0], p[0 + 1]);
      var tail := p[1..];
      forall i | 0 <= i < |tail| - 1 ensures Adjacent(s, tail[i], tail[i + 1]) {
        assert Adjacent(s, p[i + 1], p[i + 1 + 1]);
      }
      var r := PathBack(s, tail);
      q := r + [p[0]];
      forall i | 0 <= i < |q| - 1 ensures Adjacent(s, q[i], q[i + 1]) {
        if i < |r| - 1 { assert Adjacent(s, r[i], r[i + 1]); }
      }
    }
  }

  lemma PathsJoin(s: Index, p: seq<Id>, q: seq<Id>)
    requires IsPath(s, p) && IsPath(s, q) && p[|p| - 1] == q[0]
    ensures IsPath(s, p + q[1..]) && (p + q[1..])[|p + q[1..]| - 1] == q[|q| - 1]
  {
    var r := p + q[1..];
    forall i | 0 <= i < |r| - 1 ensures Adjacent(s, r[i], r[i + 1]) {
      if i < |p| - 1 { assert Adjacent(s, p[i], p[i + 1]); }
      else { assert Adjacent(s, q[i - |p| + 1], q[i - |p| + 1 + 1]); }
    }
  }

  /** Two messages share a group exactly when reply edges inside the window join them. */
  lemma SameGroupIffJoined(s: Index, a: Id, b: Id)
    requires Earlier(s) && a in s && b in s
    ensures Root(s, a) == Root(s, b) <==> Joined(s, a, b)
  {
    WalkReachesTop(s, a, {a});
    WalkReachesTop(s, b, {b});
    if Joined(s, a, b) {
      var p :| IsPath(s, p) && p[0] == a && p[|p| - 1] == b;
      PathsKeepTheTop(s, p);
    }
    if Top(s, a) == Top(s, b) {
      var p := PathToTop(s, a);
      var q := PathToTop(s, b);
      var back := PathBack(s, q);
      PathsJoin(s, p, back);
    }
  }

  // ---- Threads ------------------------------------------------------------------------------------------------

  datatype Thread = Thread(rootId: Id, participants: set<Agent>, closed: bool, latest: Message)

  function People(ms: set<Message>): set<Agent> {
    (set m | m in ms :: m.sender) + (set m | m in ms :: m.recipient)
  }

  function Group(s: Index, r: Id): set<Message> {
    set id | id in s && Root(s, id) == r :: s[id]
  }

  /** Who takes part, whose message is the last, and whether that one awaits a reply. */
  predicate Summarises(t: Thread, ms: set<Message>) {
    && t.participants == People(ms)
    && t.latest in ms && (forall m | m in ms :: m.rowId <= t.latest.rowId)
    && (t.closed <==> t.latest.noReplyExpected || t.latest.failed)
  }

  ghost predicate Describes(s: Index, t: Thread) {
    && t.rootId in s && Root(s, t.rootId) == t.rootId && !HasParent(s, t.rootId)
    && Summarises(t, Group(s, t.rootId))
  }

  predicate DistinctRoots(threads: seq<Thread>) {
    forall i, j | 0 <= i < j < |threads| :: threads[i].rootId != threads[j].rootId
  }

  method Summarise(g: seq<Message>, rootId: Id) returns (t: Thread)
    requires g != []
    ensures t.rootId == rootId && Summarises(t, set m | m in g)
  {
    hide People;
    var participants: set<Agent>, latest := {}, g[0];
    Nobody(g);
    for i := 0 to |g|
      invariant participants == People(set m | m in g[..i])
      invariant latest in g && forall j | 0 <= j < i :: g[j].rowId <= latest.rowId
      invariant i > 0 || latest == g[0]
    {
      assert g[..i + 1] == g[..i] + [g[i]];
      PeopleAppend(g[..i], g[i]);
      participants := participants + {g[i].sender, g[i].recipient};
      if i == 0 || g[i].rowId > latest.rowId { latest := g[i]; }
    }
    assert g[..|g|] == g;
    var awaitsReply := !latest.noReplyExpected && !latest.failed;
    t := Thread(rootId, participants, !awaitsReply, latest);
  }

  lemma Nobody(g: seq<Message>)
    ensures People(set m | m in g[..0]) == {}
  {
  }

  lemma PeopleAppend(g: seq<Message>, m: Message)
    ensures People(set x | x in g + [m]) == People(set x | x in g) + {m.sender, m.recipient}
  {
    assert (set x | x in g + [m]) == (set x | x in g) + {m};
  }

  lemma ReplyKeepsRoot(s: Index, id: Id)
    requires Earlier(s) && id in s
    ensures HasParent(s, id) ==> Root(s, s[id].replyTo) == Root(s, id)
    ensures !HasParent(s, id) ==> Root(s, id) == id
    ensures Root(s, Root(s, id)) == Root(s, id) && !HasParent(s, Root(s, id))
  {
    WalkReachesTop(s, id, {id});
    if HasParent(s, id) { WalkReachesTop(s, s[id].replyTo, {s[id].replyTo}); }
    WalkReachesTop(s, Top(s, id), {Top(s, id)});
  }

  /** A group's only message without a parent in the group is its root. */
  lemma TopOfGroup(s: Index, groups: map<Id, seq<Message>>, r: Id, m: Message)
    requires Earlier(s) && Grouped(s, s.Keys, groups) && InGroup(groups, r, m)
    ensures IsTop(groups[r], m) <==> m.id == r
  {
    assert Belongs(s, s.Keys, r, m);
    ReplyKeepsRoot(s, m.id);
    if HasParent(s, m.id) {
      assert InGroup(groups, r, s[m.replyTo]) by { assert Belongs(s, s.Keys, r, s[m.replyTo]); }
    } else {
      forall x | x in groups[r] ensures x.id in s { assert InGroup(groups, r, x); assert Belongs(s, s.Keys, r, x); }
    }
  }

  lemma RootIsInItsGroup(s: Index, groups: map<Id, seq<Message>>, r: Id)
    requires Earlier(s) && Grouped(s, s.Keys, groups) && r in groups
    ensures r in s && Root(s, r) == r && !HasParent(s, r) && InGroup(groups, r, s[r])
  {
    var m := groups[r][0];
    assert InGroup(groups, r, m);
    assert Belongs(s, s.Keys, r, m);
    ReplyKeepsRoot(s, m.id);
    assert Belongs(s, s.Keys, r, s[r]);
  }

  lemma GroupIsRooted(s: Index, groups: map<Id, seq<Message>>, r: Id, t: Tree)
    requires Earlier(s) && Grouped(s, s.Keys, groups) && r in groups
    requires t.NoRoot? ==> NoTop(groups[r], |groups[r]|, -1)
    requires t.Empty? ==> groups[r] == []
    requires t.ManyRoots? ==>
      exists i, j :: 0 <= i < j < |groups[r]| && IsTop(groups[r], groups[r][i]) && IsTop(groups[r], groups[r][j])
    requires t.Rooted? ==> exists i :: 0 <= i < |groups[r]| && IsTop(groups[r], groups[r][i]) && groups[r][i].id == t.id
    ensures t == Rooted(r)
  {
    hide Root, IsTop;
    var g := groups[r];
    RootIsInItsGroup(s, groups, r);
    forall m | m in g ensures IsTop(g, m) <==> m.id == r {
      assert InGroup(groups, r, m);
      TopOfGroup(s, groups, r, m);
    }
  }

  lemma GroupedIsGroup(s: Index, groups: map<Id, seq<Message>>, r: Id)
    requires Grouped(s, s.Keys, groups) && r in groups
    ensures (set m | m in groups[r]) == Group(s, r)
  {
    hide Root;
    forall m ensures m in groups[r] <==> m in Group(s, r) {
      assert InGroup(groups, r, m) <==> Belongs(s, s.Keys, r, m);
    }
  }

  datatype Result = Ok(threads: seq<Thread>) | Err(error: Tree)

  /** One thread per root, whatever the order of the messages. */
  ghost predicate Complete(s: Index, threads: seq<Thread>) {
    && (forall i | 0 <= i < |threads| :: Describes(s, threads[i]))
    && DistinctRoots(threads)
    && (forall id | id in s :: exists i :: 0 <= i < |threads| && threads[i].rootId == Root(s, id))
  }

  method BuildInSet(msgs: seq<Message>) returns (s: Index)
    ensures s == InSet(msgs)
  {
    s := map[];
    for i := 0 to |msgs|
      invariant s == InSet(msgs[..i])
    {
      assert msgs[..i + 1][..i] == msgs[..i];
      if msgs[i].conversation { s := s[msgs[i].id := msgs[i]]; }
    }
    assert msgs[..|msgs|] == msgs;
  }

  /** When every reply points to an earlier message, classification never fails and describes every thread. */
  method ClassifyThreads(msgs: seq<Message>) returns (r: Result)
    ensures Earlier(InSet(msgs)) ==> r.Ok? && Complete(InSet(msgs), r.threads)
  {
    hide Root, Grouped, HasParent, Summarises, IsTop, NoTop, Group, Earlier;
    var s := BuildInSet(msgs);
    var groups := GroupByRoot(s);
    var todo, done: set<Id>, threads: seq<Thread> := groups.Keys, {}, [];
    while todo != {}
      invariant todo !! done && todo + done == groups.Keys
      invariant Earlier(s) ==> forall i | 0 <= i < |threads| :: Describes(s, threads[i]) && threads[i].rootId in done
      invariant Earlier(s) ==> DistinctRoots(threads)
      invariant Earlier(s) ==> forall k | k in done :: exists i :: 0 <= i < |threads| && threads[i].rootId == k
    {
      var k :| k in todo;
      var g := groups[k];
      GroupIsNotEmpty(s, groups, k);
      var tree := BuildThreadTree(g);
      if Earlier(s) { GroupIsRooted(s, groups, k, tree); }
      if !tree.Rooted? { return Err(tree); }
      var t := Summarise(g, tree.id);
      GroupedIsGroup(s, groups, k);
      if Earlier(s) { RootIsInItsGroup(s, groups, k); }
      ghost var before := threads;
      threads := threads + [t];
      assert threads[|before|] == t;
      forall k' | Earlier(s) && k' in done ensures exists i :: 0 <= i < |threads| && threads[i].rootId == k' {
        var i :| 0 <= i < |before| && before[i].rootId == k';
        assert threads[i].rootId == k';
      }
      todo, done := todo - {k}, done + {k};
    }
    RootsHaveGroups(s, groups);
    r := Ok(threads);
  }

  lemma GroupIsNotEmpty(s: Index, groups: map<Id, seq<Message>>, r: Id)
    requires Grouped(s, s.Keys, groups) && r in groups
    ensures groups[r] != []
  {
  }

  lemma RootsHaveGroups(s: Index, groups: map<Id, seq<Message>>)
    requires Grouped(s, s.Keys, groups)
    ensures forall id | id in s :: Root(s, id) in groups
  {
    forall id | id in s ensures Root(s, id) in groups {
      assert Belongs(s, s.Keys, Root(s, id), s[id]);
      assert InGroup(groups, Root(s, id), s[id]);
    }
  }

  // ---- The digest ---------------------------------------------------------------------------------------------

  datatype AgentStat = AgentStat(agent: Agent, sent: nat, received: nat)

  datatype Row = Row(sent: nat, received: nat, threads: nat, closed: nat, inFlight: nat)

  const EMPTY_ROW := Row(0, 0, 0, 0, 0)

  datatype OpenThread = OpenThread(rootId: Id, latestId: Id, sender: Agent, awaiting: Agent)

  function Counts(stats: seq<AgentStat>, a: Agent): (nat, nat) {
    if stats == [] then (0, 0)
    else
      var last := stats[|stats| - 1];
      if last.agent == a then (last.sent, last.received) else Counts(stats[..|stats| - 1], a)
  }

  /** Threads among the first `n` that `a` takes part in: all of them, or those with the given ending. */
  function TakesPart(threads: seq<Thread>, n: nat, a: Agent, ending: set<bool>): nat
    requires n <= |threads|
  {
    if n == 0 then 0
    else TakesPart(threads, n - 1, a, ending)
         + if a in threads[n - 1].participants && threads[n - 1].closed in ending then 1 else 0
  }

  function RowFor(stats: seq<AgentStat>, threads: seq<Thread>, n: nat, a: Agent): Row
    requires n <= |threads|
  {
    Row(Counts(stats, a).0, Counts(stats, a).1,
        TakesPart(threads, n, a, {true, false}), TakesPart(threads, n, a, {true}), TakesPart(threads, n, a, {false}))
  }

  function RowIn(rows: map<Agent, Row>, a: Agent): Row {
    if a in rows then rows[a] else EMPTY_ROW
  }

  /** The threads that still await a reply, within the scope of one agent if one is named. */
  function OpenThreads(threads: seq<Thread>, scope: Agent): seq<OpenThread> {
    if threads == [] then []
    else
      var t := threads[|threads| - 1];
      OpenThreads(threads[..|threads| - 1], scope)
      + (if t.closed || (scope != "" && scope !in t.participants) then []
         else [OpenThread(t.rootId, t.latest.id, t.latest.sender, t.latest.recipient)])
  }

  predicate LastStat(stats: seq<AgentStat>, i: int, a: Agent) {
    0 <= i < |stats| && stats[i].agent == a && forall j | i < j < |stats| :: stats[j].agent != a
  }

  /** Stat by stat: the last one of an agent gives its two counts, and there are none without one. */
  lemma {:induction false} CountsByStat(stats: seq<AgentStat>, threads: seq<Thread>, a: Agent)
    ensures var row := RowFor(stats, threads, |threads|, a);
      && (forall i | LastStat(stats, i, a) :: row.sent == stats[i].sent && row.received == stats[i].received)
      && ((forall i | 0 <= i < |stats| :: stats[i].agent != a) ==> row.sent == row.received == 0)
  {
    hide TakesPart;
    LastStatCounts(stats, a);
  }

  lemma {:induction false} LastStatCounts(stats: seq<AgentStat>, a: Agent)
    ensures forall i | LastStat(stats, i, a) :: Counts(stats, a) == (stats[i].sent, stats[i].received)
    ensures (forall i | 0 <= i < |stats| :: stats[i].agent != a) ==> Counts(stats, a) == (0, 0)
  {
    if stats != [] {
      var n := |stats| - 1;
      LastStatCounts(stats[..n], a);
      forall i | LastStat(stats, i, a) ensures Counts(stats, a) == (stats[i].sent, stats[i].received) {
        if i < n { assert LastStat(stats[..n], i, a); }
      }
    }
  }

  predicate ListsAs(t: Thread, scope: Agent, o: OpenThread) {
    && !t.closed && (scope == "" || scope in t.participants)
    && o.rootId == t.rootId && o.latestId == t.latest.id
    && o.sender == t.latest.sender && o.awaiting == t.latest.recipient
  }

  /** Thread by thread: an open one in scope is listed with its last message, who wrote it, and who owes the reply. */
  lemma {:induction false} OpenByThread(threads: seq<Thread>, scope: Agent, o: OpenThread)
    ensures o in OpenThreads(threads, scope) <==> exists t :: t in threads && ListsAs(t, scope, o)
  {
    hide ListsAs;
    if threads != [] {
      var n := |threads| - 1;
      OpenByThread(threads[..n], scope, o);
      assert threads == threads[..n] + [threads[n]];
      OneOpen(threads, scope, o);
    }
  }

  lemma OneOpen(threads: seq<Thread>, scope: Agent, o: OpenThread)
    requires threads != []
    ensures var n := |threads| - 1;
      o in OpenThreads(threads, scope) <==> o in OpenThreads(threads[..n], scope) || ListsAs(threads[n], scope, o)
  {
  }

  lemma CountsAppend(stats: seq<AgentStat>, last: AgentStat)
    ensures forall a :: Counts(stats + [last], a) == if a == last.agent then (last.sent, last.received) else Counts(stats, a)
  {
    assert (stats + [last])[..|stats|] == stats;
  }

  method CountStats(stats: seq<AgentStat>) returns (rows: map<Agent, Row>)
    ensures forall a :: RowIn(rows, a) == RowFor(stats, [], 0, a)
    ensures forall a :: a in rows <==> exists i :: 0 <= i < |stats| && stats[i].agent == a
  {
    rows := map[];
    for i := 0 to |stats|
      invariant forall a :: RowIn(rows, a) == RowFor(stats[..i], [], 0, a)
      invariant forall a :: a in rows <==> exists j :: 0 <= j < i && stats[j].agent == a
    {
      CountsAppend(stats[..i], stats[i]);
      assert stats[..i + 1] == stats[..i] + [stats[i]];
      var name, before := stats[i].agent, rows;
      rows := rows[name := RowIn(rows, name).(sent := stats[i].sent, received := stats[i].received)];
      forall a ensures RowIn(rows, a) == RowFor(stats[..i + 1], [], 0, a) {
        assert RowIn(before, a) == RowFor(stats[..i], [], 0, a);
      }
    }
    assert stats[..|stats|] == stats;
  }

  method CountThread(rows0: map<Agent, Row>, t: Thread) returns (rows: map<Agent, Row>)
    ensures rows.Keys == rows0.Keys + t.participants
    ensures forall a :: RowIn(rows, a) == if a !in t.participants then RowIn(rows0, a) else Bumped(RowIn(rows0, a), t.closed)
  {
    rows := rows0;
    var todo := t.participants;
    while todo != {}
      invariant todo <= t.participants
      invariant rows.Keys == rows0.Keys + (t.participants - todo)
      invariant forall a | a !in t.participants || a in todo :: RowIn(rows, a) == RowIn(rows0, a)
      invariant forall a | a in t.participants && a !in todo :: RowIn(rows, a) == Bumped(RowIn(rows0, a), t.closed)
    {
      var agent :| agent in todo;
      var r := RowIn(rows, agent);
      r := r.(threads := r.threads + 1);
      rows := rows[agent := if t.closed then r.(closed := r.closed + 1) else r.(inFlight := r.inFlight + 1)];
      todo := todo - {agent};
    }
  }

  function Bumped(r: Row, closed: bool): Row {
    r.(threads := r.threads + 1, closed := r.closed + (if closed then 1 else 0), inFlight := r.inFlight + (if closed then 0 else 1))
  }

  method AssembleDigest(stats: seq<AgentStat>, threads: seq<Thread>, scope: Agent)
    returns (rows: map<Agent, Row>, inFlight: seq<OpenThread>)
    ensures forall a | a in rows :: rows[a] == RowFor(stats, threads, |threads|, a)
    ensures forall a :: a in rows <==>
      && (scope == "" || a == scope)
      && ((exists i :: 0 <= i < |stats| && stats[i].agent == a) || (exists i :: 0 <= i < |threads| && a in threads[i].participants))
    ensures inFlight == OpenThreads(threads, scope)
  {
    var all := CountStats(stats);
    ghost var counted := all.Keys;
    for n := 0 to |threads|
      invariant forall a :: RowIn(all, a) == RowFor(stats, threads, n, a)
      invariant forall a :: a in all <==> a in counted || exists i :: 0 <= i < n && a in threads[i].participants
    {
      all := CountThread(all, threads[n]);
    }
    inFlight := [];
    for n := 0 to |threads|
      invariant inFlight == OpenThreads(threads[..n], scope)
    {
      assert threads[..n + 1][..n] == threads[..n];
      var t := threads[n];
      if !t.closed && (scope == "" || scope in t.participants) {
        inFlight := inFlight + [OpenThread(t.rootId, t.latest.id, t.latest.sender, t.latest.recipient)];
      }
    }
    assert threads[..|threads|] == threads;
    rows := map a | a in all && (scope == "" || a == scope) :: all[a];
  }

  lemma {:induction false} ClosedPlusOpen(threads: seq<Thread>, n: nat, a: Agent)
    requires n <= |threads|
    ensures TakesPart(threads, n, a, {true, false}) == TakesPart(threads, n, a, {true}) + TakesPart(threads, n, a, {false})
  {
    if n > 0 { ClosedPlusOpen(threads, n - 1, a); }
  }

  function RootsAmong(threads: seq<Thread>, n: nat, a: Agent): set<Id>
    requires n <= |threads|
  {
    set i | 0 <= i < n && a in threads[i].participants :: threads[i].rootId
  }

  lemma FreshRoot(threads: seq<Thread>, n: nat, a: Agent)
    requires n < |threads| && DistinctRoots(threads)
    ensures threads[n].rootId !in RootsAmong(threads, n, a)
  {
  }

  lemma {:induction false} DistinctThreadsAreCountedOnce(threads: seq<Thread>, n: nat, a: Agent)
    requires n <= |threads| && DistinctRoots(threads)
    ensures TakesPart(threads, n, a, {true, false}) == |RootsAmong(threads, n, a)|
  {
    hide DistinctRoots;
    if n > 0 {
      FreshRoot(threads, n - 1, a);
      DistinctThreadsAreCountedOnce(threads, n - 1, a);
      var t := threads[n - 1];
      var before, all := RootsAmong(threads, n - 1, a), RootsAmong(threads, n, a);
      if a in t.participants {
        assert all == before + {t.rootId};
      } else {
        assert all == before;
      }
    }
  }

  /** The roots of the groups in which an agent writes or is written to. */
  function RootsOf(s: Index, a: Agent): set<Id> {
    set id | id in s && (s[id].sender == a || s[id].recipient == a) :: Root(s, id)
  }

  lemma PartakersWriteOrRead(s: Index, t: Thread, a: Agent)
    requires Describes(s, t)
    ensures a in t.participants <==> t.rootId in RootsOf(s, a)
  {
    hide Root, HasParent;
    var g := Group(s, t.rootId);
    forall m | m in g && (m.sender == a || m.recipient == a) ensures t.rootId in RootsOf(s, a) {
      assert m.id in s && Root(s, m.id) == t.rootId;
    }
    if t.rootId in RootsOf(s, a) {
      var id :| id in s && (s[id].sender == a || s[id].recipient == a) && Root(s, id) == t.rootId;
      assert s[id] in g;
    }
  }

  lemma RootsAreCovered(s: Index, threads: seq<Thread>, a: Agent)
    requires Complete(s, threads)
    ensures RootsAmong(threads, |threads|, a) == RootsOf(s, a)
  {
    hide Root, Describes, DistinctRoots;
    forall i | 0 <= i < |threads| ensures a in threads[i].participants <==> threads[i].rootId in RootsOf(s, a) {
      PartakersWriteOrRead(s, threads[i], a);
    }
  }

  /** Every agent's thread count is the number of groups it takes part in, and splits into closed and open ones. */
  lemma CountsAreGroups(s: Index, stats: seq<AgentStat>, threads: seq<Thread>, a: Agent)
    requires Complete(s, threads)
    ensures var r := RowFor(stats, threads, |threads|, a); r.threads == |RootsOf(s, a)| == r.closed + r.inFlight
  {
    hide RootsOf, RootsAmong, Describes, TakesPart;
    ClosedPlusOpen(threads, |threads|, a);
    DistinctThreadsAreCountedOnce(threads, |threads|, a);
    RootsAreCovered(s, threads, a);
  }

  /** Row keys are unique. */
  ghost predicate UniqueRows(s: Index) {
    forall a, b | a in s && b in s && s[a].rowId == s[b].rowId :: a == b
  }

  /** Nothing that reply edges join to this message is newer. */
  ghost predicate IsNewest(s: Index, id: Id) {
    id in s && forall x | x in s && Root(s, x) == Root(s, id) :: s[x].rowId <= s[id].rowId
  }

  /** The newest message of its thread neither failed nor renounced a reply, which its recipient owes. */
  ghost predicate Awaits(s: Index, o: OpenThread) {
    && IsNewest(s, o.latestId)
    && var m := s[o.latestId];
      !m.failed && !m.noReplyExpected && o == OpenThread(Root(s, m.id), m.id, m.sender, m.recipient)
  }

  /** From messages to the open list: a thread is on it exactly when a reply to its newest message is awaited. */
  lemma OpenMeansAwaiting(s: Index, threads: seq<Thread>, o: OpenThread)
    requires Complete(s, threads) && UniqueRows(s)
    ensures o in OpenThreads(threads, "") <==> Awaits(s, o)
  {
    hide Root, Describes, OpenThreads, UniqueRows, ListsAs, Complete;
    OpenByThread(threads, "", o);
    if t :| t in threads && ListsAs(t, "", o) {
      Described(s, threads, t);
      ListedAwaits(s, t, o);
    }
    if Awaits(s, o) {
      var t := ThreadOf(s, threads, o.latestId);
      Described(s, threads, t);
      LatestIsNewest(s, t);
      NewestIsUnique(s, o.latestId, t.latest.id);
      ListedAwaits(s, t, o);
    }
  }

  lemma ThreadOf(s: Index, threads: seq<Thread>, id: Id) returns (t: Thread)
    requires Complete(s, threads) && id in s
    ensures t in threads && t.rootId == Root(s, id)
  {
    hide Root, Describes, DistinctRoots;
    var i :| 0 <= i < |threads| && threads[i].rootId == Root(s, id);
    t := threads[i];
  }

  lemma Described(s: Index, threads: seq<Thread>, t: Thread)
    requires Complete(s, threads) && t in threads
    ensures Describes(s, t)
  {
    hide Describes;
  }

  lemma ListedAwaits(s: Index, t: Thread, o: OpenThread)
    requires Describes(s, t)
    ensures ListsAs(t, "", o) <==> o.latestId == t.latest.id && Awaits(s, o)
  {
    hide Root, Describes, IsNewest;
    LatestIsNewest(s, t);
    ListedAs(t, o);
  }

  lemma ListedAs(t: Thread, o: OpenThread)
    ensures ListsAs(t, "", o) <==> !t.closed && o == OpenThread(t.rootId, t.latest.id, t.latest.sender, t.latest.recipient)
  {
  }

  lemma NewestIsUnique(s: Index, a: Id, b: Id)
    requires UniqueRows(s) && IsNewest(s, a) && IsNewest(s, b) && Root(s, a) == Root(s, b)
    ensures a == b
  {
    hide Root;
  }

  lemma LatestIsNewest(s: Index, t: Thread)
    requires Describes(s, t)
    ensures IsNewest(s, t.latest.id) && s[t.latest.id] == t.latest && Root(s, t.latest.id) == t.rootId
    ensures t.closed <==> t.latest.failed || t.latest.noReplyExpected
  {
    hide Root, HasParent, People;
    forall x | x in s && Root(s, x) == t.rootId ensures s[x].rowId <= t.latest.rowId {
      assert s[x] in Group(s, t.rootId);
    }
  }

  /** The roots of an agent's threads that still await a reply. */
  ghost function AwaitedRoots(s: Index, a: Agent): set<Id> {
    set id | id in s && IsNewest(s, id) && !s[id].failed && !s[id].noReplyExpected && Root(s, id) in RootsOf(s, a) :: Root(s, id)
  }

  /** The roots of the agent's open threads among the first `n`. */
  function OpenAmong(threads: seq<Thread>, n: nat, a: Agent): set<Id>
    requires n <= |threads|
  {
    if n == 0 then {}
    else
      var t := threads[n - 1];
      OpenAmong(threads, n - 1, a) + if a in t.participants && !t.closed then {t.rootId} else {}
  }

  lemma {:induction false} InOpenAmong(threads: seq<Thread>, n: nat, a: Agent, x: Id)
    requires n <= |threads|
    ensures x in OpenAmong(threads, n, a) <==>
      exists i :: 0 <= i < n && threads[i].rootId == x && a in threads[i].participants && !threads[i].closed
  {
    if n > 0 { InOpenAmong(threads, n - 1, a, x); }
  }

  lemma {:induction false} OpenThreadsAreCountedOnce(threads: seq<Thread>, n: nat, a: Agent)
    requires n <= |threads| && DistinctRoots(threads)
    ensures TakesPart(threads, n, a, {false}) == |OpenAmong(threads, n, a)|
  {
    if n > 0 {
      OpenThreadsAreCountedOnce(threads, n - 1, a);
      InOpenAmong(threads, n - 1, a, threads[n - 1].rootId);
    }
  }

  /** In flight is what awaits a reply, closed is the rest. */
  lemma InFlightIsAwaited(s: Index, stats: seq<AgentStat>, threads: seq<Thread>, a: Agent)
    requires Complete(s, threads) && UniqueRows(s)
    ensures var r := RowFor(stats, threads, |threads|, a);
      r.inFlight == |AwaitedRoots(s, a)| && r.closed == |RootsOf(s, a)| - |AwaitedRoots(s, a)|
  {
    hide RootsOf, AwaitedRoots, OpenAmong, Describes, TakesPart, UniqueRows, Counts;
    CountsAreGroups(s, stats, threads, a);
    OpenThreadsAreCountedOnce(threads, |threads|, a);
    OpenIsAwaited(s, threads, a);
  }

  lemma OpenIsAwaited(s: Index, threads: seq<Thread>, a: Agent)
    requires Complete(s, threads) && UniqueRows(s)
    ensures OpenAmong(threads, |threads|, a) == AwaitedRoots(s, a)
  {
    hide Root, Describes, IsNewest, UniqueRows, RootsOf, Complete, OpenAmong;
    forall x | x in OpenAmong(threads, |threads|, a) ensures x in AwaitedRoots(s, a) {
      InOpenAmong(threads, |threads|, a, x);
      var t :| t in threads && t.rootId == x && a in t.participants && !t.closed;
      Described(s, threads, t);
      LatestIsNewest(s, t);
      PartakersWriteOrRead(s, t, a);
      NewestIsIn(s, t.latest.id);
    }
    forall id | id in s && IsNewest(s, id) && !s[id].failed && !s[id].noReplyExpected && Root(s, id) in RootsOf(s, a)
      ensures Root(s, id) in OpenAmong(threads, |threads|, a)
    {
      var t := ThreadOf(s, threads, id);
      Described(s, threads, t);
      LatestIsNewest(s, t);
      NewestIsUnique(s, id, t.latest.id);
      PartakersWriteOrRead(s, t, a);
      InOpenAmong(threads, |threads|, a, t.rootId);
    }
  }

  lemma NewestIsIn(s: Index, id: Id)
    requires IsNewest(s, id)
    ensures id in s
  {
  }
}
