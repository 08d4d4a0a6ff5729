/** What has happened in a run so far, and the invariant that ties it to the cluster's state.
    The invariant has one part about the history alone, one about each server and one about
    each message, so that a step has to re-establish only what it touches. */
module RaftHistory {
  import opened RaftTypes
  import opened LogMerge
  import opened CommitRule
  import opened RaftSteps
  import opened RaftCluster

  datatype Ballot = Ballot(node: NodeId, term: nat)

  datatype CommitPoint = CommitPoint(term: nat, index: nat)

  /** A term that has a leader: the voters counted for it, its log when elected, and the log it
      has built since. */
  datatype Reign = Reign(leader: NodeId, electors: set<NodeId>, elected: Log, built: Log)

  datatype History = History(
    carries: bool,                     // whether the cluster's requests carry their entries
    votes: map<Ballot, NodeId>,        // for whom each node voted in each term
    candidacies: map<Ballot, Log>,     // the log with which each node stood in each term
    reigns: map<nat, Reign>,           // the terms that have a leader
    acks: map<Ballot, nat>,            // how far each node followed each term's leader
    commits: set<CommitPoint>)         // the (term, index) pairs that a leader committed

  ghost function NoHistory(carries: bool): History {
    History(carries, map[], map[], map[], map[], {})
  }

  // ---------- logs ----------

  /** Every entry of the log, with all before it, comes from the leader of the entry's term. */
  ghost predicate Rooted(h: History, log: Log) {
    && WellFormed(log)
    && forall i :: 1 <= i < |log| ==> FromReign(h, log, i)
  }

  ghost predicate FromReign(h: History, log: Log, i: nat)
    requires i < |log|
  {
    log[i].term in h.reigns && log[..i + 1] <= h.reigns[log[i].term].built
  }

  ghost predicate TermsBelow(log: Log, bound: nat) {
    forall i :: 0 <= i < |log| ==> log[i].term < bound
  }

  // ---------- the history alone ----------

  ghost predicate ReignOk(members: set<NodeId>, h: History, t: nat)
    requires t in h.reigns
  {
    var r := h.reigns[t];
    && t >= 1
    && r.leader in members
    && r.electors <= members && |r.electors| >= VoteQuorum(|members|)
    && (forall q :: q in r.electors ==> VotedFor(h, q, t, r.leader))
    && StoodWith(h, r.leader, t, r.elected)
    && r.elected <= r.built
    && Rooted(h, r.built)
    && TermsBelow(r.elected, t)
    && forall i :: |r.elected| <= i < |r.built| ==> r.built[i].term == t
  }

  ghost predicate VotedFor(h: History, q: NodeId, t: nat, c: NodeId) {
    Ballot(q, t) in h.votes && h.votes[Ballot(q, t)] == c
  }

  ghost predicate StoodWith(h: History, c: NodeId, t: nat, log: Log) {
    Ballot(c, t) in h.candidacies && h.candidacies[Ballot(c, t)] == log
  }

  ghost predicate CandidacyOk(members: set<NodeId>, h: History, b: Ballot)
    requires b in h.candidacies
  {
    b.node in members && Rooted(h, h.candidacies[b]) && TermsBelow(h.candidacies[b], b.term)
  }

  /** Node q followed the leader of term t through index k. */
  ghost predicate Acked(h: History, q: NodeId, t: nat, k: nat) {
    Ballot(q, t) in h.acks && k <= h.acks[Ballot(q, t)]
  }

  /** Index k of the leader of term t holds an entry of that very term. */
  ghost predicate OwnEntry(h: History, t: nat, k: nat) {
    t in h.reigns && k < |h.reigns[t].built| && h.reigns[t].built[k].term == t
  }

  ghost function LeaderPrefix(h: History, t: nat, k: nat): Log
    requires t in h.reigns && k < |h.reigns[t].built|
  {
    h.reigns[t].built[..k + 1]
  }

  /** Some leader between t and bound was elected without the prefix. */
  ghost predicate Superseded(h: History, t: nat, k: nat, bound: nat)
    requires t in h.reigns && k < |h.reigns[t].built|
  {
    exists u: nat :: t < u < bound && u in h.reigns && !(LeaderPrefix(h, t, k) <= h.reigns[u].elected)
  }

  /** A vote that may count towards a leader: what the voter acknowledged of an earlier leader
      is in the candidate's log, unless a leader in between lacked it. */
  ghost predicate VoteOk(members: set<NodeId>, h: History, b: Ballot)
    requires b in h.votes
  {
    && b.node in members
    && var stood := Ballot(h.votes[b], b.term);
    && stood in h.candidacies
    && ((b.term in h.reigns ==> b.node in h.reigns[b.term].electors) ==>
          forall t: nat, k: nat :: t < b.term && Acked(h, b.node, t, k) && OwnEntry(h, t, k)
            ==> LeaderPrefix(h, t, k) <= h.candidacies[stood] || Superseded(h, t, k, b.term))
  }

  ghost function Holders(members: set<NodeId>, h: History, t: nat, k: nat): set<NodeId> {
    set q | q in members && Acked(h, q, t, k)
  }

  ghost predicate CommitOk(members: set<NodeId>, h: History, c: CommitPoint) {
    && members != {}
    && OwnEntry(h, c.term, c.index)
    && |Holders(members, h, c.term, c.index)| >= CommitQuorum(|members|)
  }

  ghost predicate AckOk(members: set<NodeId>, h: History, b: Ballot)
    requires b in h.acks
  {
    b.node in members && b.term in h.reigns && h.acks[b] < |h.reigns[b.term].built|
  }

  ghost predicate HistoryOk(members: set<NodeId>, h: History) {
    && (forall t {:trigger ReignOk(members, h, t)} :: t in h.reigns ==> ReignOk(members, h, t))
    && (forall b {:trigger CandidacyOk(members, h, b)} ::
          b in h.candidacies ==> CandidacyOk(members, h, b))
    && (forall b {:trigger VoteOk(members, h, b)} :: b in h.votes ==> VoteOk(members, h, b))
    && (forall b {:trigger AckOk(members, h, b)} :: b in h.acks ==> AckOk(members, h, b))
    && (forall c {:trigger CommitOk(members, h, c)} :: c in h.commits ==> CommitOk(members, h, c))
  }

  // ---------- one server ----------

  /** The log lies within what some leader of a term up to `term` committed. Only claimed when
      requests carry their entries. */
  ghost predicate Certified(h: History, log: Log, term: nat) {
    h.carries ==> |log| <= 1 || exists c :: c in h.commits && CertifiedBy(h, log, term, c)
  }

  ghost predicate CertifiedBy(h: History, log: Log, term: nat, c: CommitPoint) {
    && c.term <= term && c.term in h.reigns && c.index < |h.reigns[c.term].built|
    && log <= LeaderPrefix(h, c.term, c.index)
  }

  ghost predicate VotesOk(h: History, n: NodeId, s: NodeState) {
    forall t: nat :: Ballot(n, t) in h.votes ==>
      && t <= s.currentTerm
      && (t == s.currentTerm ==> s.votedFor == h.votes[Ballot(n, t)])
  }

  ghost predicate OwnTermsOk(h: History, n: NodeId, s: NodeState) {
    && (forall t: nat :: Ballot(n, t) in h.candidacies ==> t <= s.currentTerm)
    && (forall t: nat :: t in h.reigns && h.reigns[t].leader == n ==>
          t <= s.currentTerm && (t == s.currentTerm ==> s.role == Leader))
  }

  ghost predicate LeaderOk(h: History, n: NodeId, peers: seq<NodeId>, s: NodeState) {
    && s.currentTerm in h.reigns
    && h.reigns[s.currentTerm].leader == n
    && h.reigns[s.currentTerm].built == s.log
    && |s.log| > 0
    && Acked(h, n, s.currentTerm, |s.log| - 1)
    && forall p :: h.carries && p in peers && p in s.matchIndex && s.matchIndex[p] > 0 ==>
         Acked(h, p, s.currentTerm, s.matchIndex[p])
  }

  /** What the node acknowledged is still in its log, unless a later leader it may have heard
      of was elected without it. */
  ghost predicate AcksOk(h: History, n: NodeId, s: NodeState) {
    && (forall t: nat :: Ballot(n, t) in h.acks ==> t <= s.currentTerm)
    && forall t: nat, k: nat :: Acked(h, n, t, k) && t in h.reigns && k < |h.reigns[t].built| ==>
         LeaderPrefix(h, t, k) <= s.log || Superseded(h, t, k, s.currentTerm + 1)
  }

  ghost predicate AppliedOk(h: History, s: NodeState) {
    && s.lastApplied == s.commitIndex < |s.log|
    && s.store == FoldPuts(map[], s.log[1..s.commitIndex + 1])
    && Certified(h, s.log[..s.commitIndex + 1], s.currentTerm)
  }

  /** The voters so far are the candidate itself and those of the first `next` peers that
      voted for it. */
  ghost function Voters(h: History, n: NodeId, t: nat, peers: seq<NodeId>): set<NodeId> {
    set q | q in {n} + SeqSet(peers) && VotedFor(h, q, t, n)
  }

  ghost predicate ActivityOk(h: History, n: NodeId, peers: seq<NodeId>, sv: Server) {
    match sv.activity
    case Idle => true
    case Electing(next, votes) =>
      && next <= |peers|
      && sv.node.role == Candidate
      && VotedFor(h, n, sv.node.currentTerm, n)
      && StoodWith(h, n, sv.node.currentTerm, sv.node.log)
      && votes <= |Voters(h, n, sv.node.currentTerm, peers[..next])|
    case Heartbeating(next) => next <= |peers| && sv.node.role == Leader
  }

  ghost predicate ServerOk(peers: seq<NodeId>, h: History, n: NodeId, sv: Server) {
    var s := sv.node;
    && LocalOk(peers, s)
    && Rooted(h, s.log)
    && TermsBelow(s.log, s.currentTerm + 1)
    && VotesOk(h, n, s)
    && OwnTermsOk(h, n, s)
    && (s.role == Leader ==> LeaderOk(h, n, peers, s))
    && AcksOk(h, n, s)
    && AppliedOk(h, s)
    && ActivityOk(h, n, peers, sv)
  }

  // ---------- one message ----------

  ghost predicate AppendArgsOk(h: History, to: NodeId, args: AppendEntriesArgs) {
    var last := args.prevLogIndex + |args.entries|;
    && args.term in h.reigns
    && var r := h.reigns[args.term];
    && r.leader == args.leaderId && args.leaderId != to
    && last < |r.built|
    && args.prevLogTerm == r.built[args.prevLogIndex].term
    && args.entries == r.built[args.prevLogIndex + 1..last + 1]
    && (h.carries ==> args.leaderCommit <= last)
    && (!h.carries ==> args.entries == [])
    && args.leaderCommit < |r.built|
    && Certified(h, r.built[..args.leaderCommit + 1], args.term)
  }

  ghost predicate MessageOk(h: History, m: Message) {
    match m
    case VoteRequest(_, args) =>
      && Ballot(args.candidateId, args.term) in h.candidacies
      && var log := h.candidacies[Ballot(args.candidateId, args.term)];
      && |log| > 0 && args.lastLogIndex == LastIndex(log) && args.lastLogTerm == LastTerm(log)
    case VoteReply(from, args, reply) =>
      reply.voteGranted ==> VotedFor(h, from, args.term, args.candidateId)
    case AppendRequest(to, args) => AppendArgsOk(h, to, args)
    case AppendReply(from, args, reply) =>
      reply.success ==> Acked(h, from, args.term, args.prevLogIndex + |args.entries|)
  }

  // ---------- the invariant ----------

  ghost predicate ServersOk(cfg: Config, servers: map<NodeId, Server>, h: History)
    requires servers.Keys == cfg.peers.Keys
  {
    forall n {:trigger ServerOk(cfg.peers[n], h, n, servers[n])} ::
      n in servers ==> ServerOk(cfg.peers[n], h, n, servers[n])
  }

  ghost predicate MessagesOk(h: History, net: set<Message>) {
    forall m {:trigger MessageOk(h, m)} :: m in net ==> MessageOk(h, m)
  }

  ghost predicate Inv(cfg: Config, c: Cluster, h: History) {
    && c.servers.Keys == cfg.peers.Keys
    && h.carries == cfg.sendsEntries && cfg.matchesReplies
    && HistoryOk(cfg.peers.Keys, h)
    && ServersOk(cfg, c.servers, h)
    && MessagesOk(h, c.net)
  }

  // ---------- growth ----------

  /** What happened stays: h' continues h. */
  ghost predicate Continues(h: History, h': History) {
    && h'.carries == h.carries
    && (forall b :: b in h.votes ==> b in h'.votes && h'.votes[b] == h.votes[b])
    && (forall b :: b in h.candidacies ==>
          b in h'.candidacies && h'.candidacies[b] == h.candidacies[b])
    && (forall t: nat :: t in h.reigns ==> t in h'.reigns && ReignContinues(h.reigns[t], h'.reigns[t]))
    && (forall b :: b in h.acks ==> b in h'.acks && h.acks[b] <= h'.acks[b])
    && h.commits <= h'.commits
  }

  ghost predicate ReignContinues(r: Reign, r': Reign) {
    && r'.leader == r.leader && r'.electors == r.electors && r'.elected == r.elected
    && r.built <= r'.built
  }

  /** h' continues h, and only the actor's votes, candidacies, leadership and
      acknowledgements changed. */
  ghost predicate ContinuesBy(h: History, h': History, actor: NodeId) {
    && Continues(h, h')
    && (forall b :: b in h'.votes && b.node != actor ==> b in h.votes)
    && (forall b :: b in h'.candidacies && b.node != actor ==> b in h.candidacies)
    && (forall t: nat :: t in h'.reigns && h'.reigns[t].leader != actor ==>
          t in h.reigns && h'.reigns[t].built == h.reigns[t].built)
    && (forall b :: b in h'.acks && b.node != actor ==> b in h.acks && h'.acks[b] == h.acks[b])
  }

  lemma ContinuesTransitive(a: History, b: History, c: History)
    requires Continues(a, b) && Continues(b, c)
    ensures Continues(a, c)
  {
  }

  lemma RootedContinues(h: History, h': History, log: Log)
    requires Continues(h, h') && Rooted(h, log)
    ensures Rooted(h', log)
  {
    forall i | 1 <= i < |log| ensures FromReign(h', log, i) {
      assert FromReign(h, log, i);
    }
  }

  lemma PrefixContinues(h: History, h': History, t: nat, k: nat)
    requires Continues(h, h') && t in h.reigns && k < |h.reigns[t].built|
    ensures t in h'.reigns && k < |h'.reigns[t].built|
    ensures LeaderPrefix(h', t, k) == LeaderPrefix(h, t, k)
  {
    assert ReignContinues(h.reigns[t], h'.reigns[t]);
  }

  lemma SupersededContinues(h: History, h': History, t: nat, k: nat, bound: nat, bound': nat)
    requires Continues(h, h') && t in h.reigns && k < |h.reigns[t].built| && bound <= bound'
    requires Superseded(h, t, k, bound)
    ensures t in h'.reigns && k < |h'.reigns[t].built| && Superseded(h', t, k, bound')
  {
    PrefixContinues(h, h', t, k);
    var u: nat :| t < u < bound && u in h.reigns && !(LeaderPrefix(h, t, k) <= h.reigns[u].elected);
    assert ReignContinues(h.reigns[u], h'.reigns[u]);
  }

  lemma CertifiedContinues(h: History, h': History, log: Log, term: nat, term': nat)
    requires Continues(h, h') && Certified(h, log, term) && term <= term'
    ensures Certified(h', log, term')
  {
    if h.carries && |log| > 1 {
      var c :| c in h.commits && CertifiedBy(h, log, term, c);
      PrefixContinues(h, h', c.term, c.index);
      assert CertifiedBy(h', log, term', c);
    }
  }

  lemma MessageContinues(h: History, h': History, m: Message)
    requires Continues(h, h') && MessageOk(h, m)
    ensures MessageOk(h', m)
  {
    if m.AppendRequest? {
      var args := m.appendArgs;
      var r, r' := h.reigns[args.term], h'.reigns[args.term];
      assert ReignContinues(r, r');
      assert r'.built[..args.leaderCommit + 1] == r.built[..args.leaderCommit + 1];
      CertifiedContinues(h, h', r.built[..args.leaderCommit + 1], args.term, args.term);
    }
  }

  /** Servers other than the actor are unaffected. */
  lemma ServerContinues(members: set<NodeId>, h: History, h': History, actor: NodeId,
                        peers: seq<NodeId>, n: NodeId, sv: Server)
    requires HistoryOk(members, h)
    requires ContinuesBy(h, h', actor) && n != actor
    requires ServerOk(peers, h, n, sv)
    ensures ServerOk(peers, h', n, sv)
  {
    var s := sv.node;
    RootedContinues(h, h', s.log);
    OwnRecordContinues(h, h', actor, n, s);
    AcksContinue(members, h, h', actor, n, s);
    ActivityContinues(h, h', n, peers, sv);
    if s.role == Leader {
      LeaderContinues(h, h', actor, n, peers, s);
    }
  }

  lemma OwnRecordContinues(h: History, h': History, actor: NodeId, n: NodeId, s: NodeState)
    requires ContinuesBy(h, h', actor) && n != actor
    requires VotesOk(h, n, s) && OwnTermsOk(h, n, s) && AppliedOk(h, s)
    ensures VotesOk(h', n, s) && OwnTermsOk(h', n, s) && AppliedOk(h', s)
  {
    CertifiedContinues(h, h', s.log[..s.commitIndex + 1], s.currentTerm, s.currentTerm);
  }

  lemma LeaderContinues(h: History, h': History, actor: NodeId, n: NodeId, peers: seq<NodeId>,
                        s: NodeState)
    requires ContinuesBy(h, h', actor) && n != actor && LeaderOk(h, n, peers, s)
    ensures LeaderOk(h', n, peers, s)
  {
    assert ReignContinues(h.reigns[s.currentTerm], h'.reigns[s.currentTerm]);
  }

  lemma ActivityContinues(h: History, h': History, n: NodeId, peers: seq<NodeId>, sv: Server)
    requires Continues(h, h') && ActivityOk(h, n, peers, sv)
    ensures ActivityOk(h', n, peers, sv)
  {
    if sv.activity.Electing? {
      var t, ps := sv.node.currentTerm, peers[..sv.activity.next];
      assert Voters(h, n, t, ps) <= Voters(h', n, t, ps);
      SubsetSize(Voters(h, n, t, ps), Voters(h', n, t, ps));
    }
  }

  lemma AcksContinue(members: set<NodeId>, h: History, h': History, actor: NodeId, n: NodeId, s: NodeState)
    requires (forall b :: b in h.acks ==> AckOk(members, h, b))
    requires ContinuesBy(h, h', actor) && n != actor && AcksOk(h, n, s)
    ensures AcksOk(h', n, s)
  {
    forall t: nat | Ballot(n, t) in h'.acks ensures t <= s.currentTerm {
      assert Ballot(n, t) in h.acks;
    }
    forall t: nat, k: nat | Acked(h', n, t, k) && t in h'.reigns && k < |h'.reigns[t].built|
      ensures LeaderPrefix(h', t, k) <= s.log || Superseded(h', t, k, s.currentTerm + 1)
    {
      assert Acked(h, n, t, k) && AckOk(members, h, Ballot(n, t));
      PrefixContinues(h, h', t, k);
      if Superseded(h, t, k, s.currentTerm + 1) {
        SupersededContinues(h, h', t, k, s.currentTerm + 1, s.currentTerm + 1);
      }
    }
  }

  /** One step of one server: what remains to be shown after choosing the new history. */
  lemma Frame(cfg: Config, c: Cluster, h: History, h': History, n: NodeId, sv: Server,
              sent: set<Message>)
    requires Inv(cfg, c, h) && n in c.servers
    requires ContinuesBy(h, h', n) && HistoryOk(cfg.peers.Keys, h')
    requires ServerOk(cfg.peers[n], h', n, sv)
    requires MessagesOk(h', sent)
    ensures Inv(cfg, Cluster(c.servers[n := sv], c.net + sent), h')
  {
    FrameServers(cfg, c.servers, h, h', n, sv);
    FrameMessages(h, h', c.net, sent);
  }

  lemma FrameServers(cfg: Config, servers: map<NodeId, Server>, h: History, h': History,
                     n: NodeId, sv: Server)
    requires servers.Keys == cfg.peers.Keys && ServersOk(cfg, servers, h) && n in servers
    requires HistoryOk(cfg.peers.Keys, h)
    requires ContinuesBy(h, h', n) && ServerOk(cfg.peers[n], h', n, sv)
    ensures ServersOk(cfg, servers[n := sv], h')
  {
    forall p | p in servers && p != n ensures ServerOk(cfg.peers[p], h', p, servers[p]) {
      ServerContinues(cfg.peers.Keys, h, h', n, cfg.peers[p], p, servers[p]);
    }
  }

  lemma FrameMessages(h: History, h': History, net: set<Message>, sent: set<Message>)
    requires Continues(h, h') && MessagesOk(h, net) && MessagesOk(h', sent)
    ensures MessagesOk(h', net + sent)
  {
    forall m | m in net ensures MessageOk(h', m) {
      MessageContinues(h, h', m);
    }
  }
}
