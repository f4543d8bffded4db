/**
  The optimistic transaction manager as a step system over an opaque graph type:
  begin, edit, commit (which storage may refuse), rollback and recovery. Every run
  is serial: the base graph is the committed edits applied in commit order.
 */
module Transactions {
  import opened Text

  datatype Session<G> = Session(graph: G, baseVersion: nat)

  datatype Manager<G> = Manager(base: G, sessions: map<string, Session<G>>, seqNo: nat, version: nat)

  /** One call; `persisted` says whether storage accepts the commit. */
  datatype Event<!G> =
    | Begin
    | Edit(tx: string, f: G -> G)
    | Commit(tx: string, persisted: bool)
    | Rollback(tx: string)
    | Recover(found: G)

  function TxId(n: nat): string {
    "tx-" + Decimal(n)
  }

  lemma TxIdInjective(a: nat, b: nat)
    requires TxId(a) == TxId(b)
    ensures a == b
  {
    assert Decimal(a) == TxId(a)[3..] && Decimal(b) == TxId(b)[3..];
    DecimalInjective(a, b);
  }

  predicate Commits<G>(m: Manager<G>, tx: string, persisted: bool) {
    tx in m.sessions && m.sessions[tx].baseVersion == m.version && persisted
  }

  function Step<G>(m: Manager<G>, ev: Event<G>): Manager<G> {
    match ev
    case Begin => m.(sessions := m.sessions[TxId(m.seqNo + 1) := Session(m.base, m.version)], seqNo := m.seqNo + 1)
    case Edit(tx, f) =>
      if tx in m.sessions then m.(sessions := m.sessions[tx := m.sessions[tx].(graph := f(m.sessions[tx].graph))]) else m
    case Commit(tx, persisted) =>
      if Commits(m, tx, persisted) then m.(base := m.sessions[tx].graph, sessions := m.sessions - {tx}, version := m.version + 1)
      else m.(sessions := m.sessions - {tx})
    case Rollback(tx) => m.(sessions := m.sessions - {tx})
    case Recover(found) => m.(base := found, sessions := map[], version := m.version + 1)
  }

  function Run<G>(m: Manager<G>, evs: seq<Event<G>>): Manager<G> {
    if evs == [] then m else Step(Run(m, evs[..|evs| - 1]), evs[|evs| - 1])
  }

  // ---------- fresh ids ----------

  /** Live sessions have ids that were handed out. */
  ghost predicate Issued<G>(m: Manager<G>) {
    forall tx :: tx in m.sessions ==> exists n: nat :: 1 <= n <= m.seqNo && tx == TxId(n)
  }

  lemma NextIdIsFresh<G>(m: Manager<G>)
    requires Issued(m)
    ensures TxId(m.seqNo + 1) !in m.sessions
  {
    if TxId(m.seqNo + 1) in m.sessions {
      var n: nat :| 1 <= n <= m.seqNo && TxId(m.seqNo + 1) == TxId(n);
      TxIdInjective(m.seqNo + 1, n);
    }
  }

  lemma StepIssues<G>(m: Manager<G>, ev: Event<G>)
    requires Issued(m)
    ensures Issued(Step(m, ev)) && m.seqNo <= Step(m, ev).seqNo
  {
    hide TxId;
    var next := Step(m, ev);
    forall tx | tx in next.sessions ensures exists n: nat :: 1 <= n <= next.seqNo && tx == TxId(n) {
      if tx in m.sessions {
        var n: nat :| 1 <= n <= m.seqNo && tx == TxId(n);
      } else {
        assert tx == TxId(next.seqNo);
      }
    }
  }

  // ---------- history ----------

  function Apply<G>(g: G, edits: seq<G -> G>): G {
    if edits == [] then g else edits[|edits| - 1](Apply(g, edits[..|edits| - 1]))
  }

  lemma {:induction false} ApplyConcat<G>(g: G, a: seq<G -> G>, b: seq<G -> G>)
    ensures Apply(g, a + b) == Apply(Apply(g, a), b)
    decreases |b|
  {
    if b == [] {
      assert a + b == a;
    } else {
      assert (a + b)[..|a + b| - 1] == a + b[..|b| - 1];
      ApplyConcat(g, a, b[..|b| - 1]);
    }
  }

  /** A transaction that committed: its id, the version it began on, and its edits in order. */
  datatype Committed<!G> = Committed(tx: string, begunOn: nat, edits: seq<G -> G>)

  /** What has happened since the last recovery: the edits of live sessions and the commits in order. */
  datatype History<!G> = History(origin: G, firstVersion: nat, live: map<string, seq<G -> G>>, commits: seq<Committed<G>>)

  function Start<G>(m: Manager<G>): History<G> {
    History(m.base, m.version, map[], [])
  }

  /** The history after one more call from state `m`. */
  function Record<G>(h: History<G>, m: Manager<G>, ev: Event<G>): History<G> {
    match ev
    case Begin => h.(live := h.live[TxId(m.seqNo + 1) := []])
    case Edit(tx, f) => if tx in h.live then h.(live := h.live[tx := h.live[tx] + [f]]) else h
    case Commit(tx, persisted) =>
      if Commits(m, tx, persisted) && tx in h.live
      then h.(live := h.live - {tx}, commits := h.commits + [Committed(tx, m.sessions[tx].baseVersion, h.live[tx])])
      else h.(live := h.live - {tx})
    case Rollback(tx) => h.(live := h.live - {tx})
    case Recover(found) => History(found, m.version + 1, map[], [])
  }

  function Recorded<G>(m: Manager<G>, evs: seq<Event<G>>): History<G> {
    if evs == [] then Start(m)
    else Record(Recorded(m, evs[..|evs| - 1]), Run(m, evs[..|evs| - 1]), evs[|evs| - 1])
  }

  /** The edits of the first `k` commits, one transaction after another. */
  function Serial<G>(commits: seq<Committed<G>>, k: nat): seq<G -> G>
    requires k <= |commits|
  {
    if k == 0 then [] else Serial(commits, k - 1) + commits[k - 1].edits
  }

  lemma {:induction false} SerialPrefix<G>(commits: seq<Committed<G>>, more: Committed<G>, k: nat)
    requires k <= |commits|
    ensures Serial(commits + [more], k) == Serial(commits, k)
  {
    if k > 0 {
      SerialPrefix(commits, more, k - 1);
    }
  }

  lemma SerialNext<G>(commits: seq<Committed<G>>, more: Committed<G>)
    ensures Serial(commits + [more], |commits| + 1) == Serial(commits, |commits|) + more.edits
  {
    SerialPrefix(commits, more, |commits|);
  }

  /** The graph of version `firstVersion + k`. */
  function VersionGraph<G>(h: History<G>, k: nat): G
    requires k <= |h.commits|
  {
    Apply(h.origin, Serial(h.commits, k))
  }

  /** A live session holds the graph of the version it began on, with its own edits applied. */
  ghost predicate SessionFollows<G>(m: Manager<G>, h: History<G>, tx: string)
    requires tx in m.sessions && tx in h.live
  {
    && h.firstVersion <= m.sessions[tx].baseVersion <= h.firstVersion + |h.commits|
    && m.sessions[tx].graph == Apply(VersionGraph(h, m.sessions[tx].baseVersion - h.firstVersion), h.live[tx])
  }

  /** The state is explained by the history: serially, version by version. */
  ghost predicate Explains<G>(h: History<G>, m: Manager<G>) {
    && m.version == h.firstVersion + |h.commits|
    && m.base == VersionGraph(h, |h.commits|)
    && h.live.Keys == m.sessions.Keys
    && (forall tx :: tx in m.sessions ==> SessionFollows(m, h, tx))
    && (forall k :: 0 <= k < |h.commits| ==> h.commits[k].begunOn == h.firstVersion + k)
  }

  lemma SessionStays<G>(m: Manager<G>, h: History<G>, tx: string, more: Committed<G>)
    requires tx in m.sessions && tx in h.live && SessionFollows(m, h, tx)
    ensures h.firstVersion <= m.sessions[tx].baseVersion <= h.firstVersion + |h.commits| + 1
    ensures m.sessions[tx].graph
         == Apply(VersionGraph(h.(commits := h.commits + [more]), m.sessions[tx].baseVersion - h.firstVersion), h.live[tx])
  {
    SerialPrefix(h.commits, more, m.sessions[tx].baseVersion - h.firstVersion);
  }

  lemma CommitExplained<G>(h: History<G>, m: Manager<G>, tx: string)
    requires Explains(h, m) && Commits(m, tx, true)
    ensures Explains(Record(h, m, Commit(tx, true)), Step(m, Commit(tx, true)))
  {
    hide Serial, Apply;
    var more := Committed(tx, m.sessions[tx].baseVersion, h.live[tx]);
    var next, after := Record(h, m, Commit(tx, true)), Step(m, Commit(tx, true));
    assert next == h.(live := h.live - {tx}, commits := h.commits + [more]);
    CommitBase(h, m, tx, more);
    forall other | other in after.sessions ensures SessionFollows(after, next, other) {
      assert SessionFollows(m, h, other);
      SessionStays(m, h, other, more);
    }
  }

  /** The committed session's graph is the graph of the next version. */
  lemma CommitBase<G>(h: History<G>, m: Manager<G>, tx: string, more: Committed<G>)
    requires Explains(h, m) && Commits(m, tx, true) && more.edits == h.live[tx]
    ensures m.sessions[tx].graph == VersionGraph(h.(commits := h.commits + [more]), |h.commits| + 1)
  {
    hide Serial, Apply;
    var n := |h.commits|;
    assert SessionFollows(m, h, tx);
    SerialNext(h.commits, more);
    ApplyConcat(h.origin, Serial(h.commits, n), more.edits);
  }

  lemma ApplyNone<G>(g: G)
    ensures Apply(g, []) == g
  {
  }

  lemma ApplyOne<G>(g: G, edits: seq<G -> G>, f: G -> G)
    ensures Apply(g, edits + [f]) == f(Apply(g, edits))
  {
    assert (edits + [f])[..|edits|] == edits;
  }

  lemma EditExplained<G>(h: History<G>, m: Manager<G>, tx: string, f: G -> G)
    requires Explains(h, m) && tx in m.sessions
    ensures Explains(Record(h, m, Edit(tx, f)), Step(m, Edit(tx, f)))
  {
    hide Serial, Apply;
    var next, after := Record(h, m, Edit(tx, f)), Step(m, Edit(tx, f));
    ApplyOne(VersionGraph(h, m.sessions[tx].baseVersion - h.firstVersion), h.live[tx], f);
    forall other | other in after.sessions ensures other in next.live && SessionFollows(after, next, other) {
      assert SessionFollows(m, h, other);
    }
  }

  lemma BeginExplained<G(!new)>(h: History<G>, m: Manager<G>)
    requires Explains(h, m)
    ensures Explains(Record(h, m, Begin), Step(m, Begin))
  {
    hide TxId, Serial, Apply;
    var next, after := Record(h, m, Begin), Step(m, Begin);
    ApplyNone(m.base);
    forall other | other in after.sessions ensures other in next.live && SessionFollows(after, next, other) {
      if other != TxId(m.seqNo + 1) {
        assert SessionFollows(m, h, other);
      }
    }
  }

  /** Dropping a session, by rollback or by a commit that fails. */
  lemma DropExplained<G>(h: History<G>, m: Manager<G>, tx: string)
    requires Explains(h, m)
    ensures Explains(h.(live := h.live - {tx}), m.(sessions := m.sessions - {tx}))
  {
    hide Serial, Apply;
    var next, after := h.(live := h.live - {tx}), m.(sessions := m.sessions - {tx});
    forall other | other in after.sessions ensures SessionFollows(after, next, other) {
      assert SessionFollows(m, h, other);
    }
  }

  lemma OthersExplained<G(!new)>(h: History<G>, m: Manager<G>, ev: Event<G>)
    requires Explains(h, m)
    requires ev.Commit? ==> !Commits(m, ev.tx, ev.persisted)
    ensures Explains(Record(h, m, ev), Step(m, ev))
  {
    assert h.live.Keys == m.sessions.Keys;
    match ev
    case Begin => BeginExplained(h, m);
    case Edit(tx, f) =>
      if tx in m.sessions {
        EditExplained(h, m, tx, f);
      }
    case Commit(tx, persisted) =>
      hide Explains;
      DropExplained(h, m, tx);
    case Rollback(tx) =>
      hide Explains;
      DropExplained(h, m, tx);
    case Recover(found) =>
  }

  /**
    In every interleaving the history explains the state: since the last recovery
    the base graph is the committed edits applied one transaction after another in
    commit order, and the k-th commit is the only one begun on the k-th version.
   */
  lemma {:induction false} RunsAreSerial<G(!new)>(m: Manager<G>, evs: seq<Event<G>>)
    requires m.sessions == map[]
    ensures Issued(Run(m, evs)) && Explains(Recorded(m, evs), Run(m, evs))
    decreases |evs|
  {
    if evs != [] {
      var before, ev := evs[..|evs| - 1], evs[|evs| - 1];
      RunsAreSerial(m, before);
      StepIssues(Run(m, before), ev);
      hide Explains, Issued;
      if ev.Commit? && Commits(Run(m, before), ev.tx, ev.persisted) {
        CommitExplained(Recorded(m, before), Run(m, before), ev.tx);
      } else {
        OthersExplained(Recorded(m, before), Run(m, before), ev);
      }
    }
  }

  lemma BaseIsSerial<G(!new)>(m: Manager<G>, evs: seq<Event<G>>)
    requires m.sessions == map[]
    ensures var h := Recorded(m, evs); Run(m, evs).base == Apply(h.origin, Serial(h.commits, |h.commits|))
  {
    RunsAreSerial(m, evs);
  }

  /** At most one transaction begun on a version commits. */
  lemma OneCommitPerVersion<G(!new)>(m: Manager<G>, evs: seq<Event<G>>, i: nat, j: nat)
    requires m.sessions == map[]
    requires i < |Recorded(m, evs).commits| && j < |Recorded(m, evs).commits|
    requires Recorded(m, evs).commits[i].begunOn == Recorded(m, evs).commits[j].begunOn
    ensures i == j
  {
    RunsAreSerial(m, evs);
  }

  // ---------- losers leave no effect ----------

  /** No call in the run commits `tx`. */
  predicate NeverCommits<G>(m: Manager<G>, evs: seq<Event<G>>, tx: string)
    decreases |evs|
  {
    evs == []
    || (NeverCommits(m, evs[..|evs| - 1], tx)
        && var ev := evs[|evs| - 1];
        !(ev.Commit? && ev.tx == tx && Commits(Run(m, evs[..|evs| - 1]), tx, ev.persisted)))
  }

  predicate Concerns<G>(ev: Event<G>, tx: string) {
    (ev.Edit? || ev.Commit? || ev.Rollback?) && ev.tx == tx
  }

  /** The run without the edits, rollbacks and commit attempts of `tx`. */
  function Without<G>(evs: seq<Event<G>>, tx: string): seq<Event<G>> {
    if evs == [] then []
    else
      var before := Without(evs[..|evs| - 1], tx);
      if Concerns(evs[|evs| - 1], tx) then before else before + [evs[|evs| - 1]]
  }

  /** The same manager up to the session `tx`. */
  ghost predicate SameBut<G>(a: Manager<G>, b: Manager<G>, tx: string) {
    && a.base == b.base && a.version == b.version && a.seqNo == b.seqNo
    && (forall other :: other != tx ==> (other in a.sessions <==> other in b.sessions))
    && (forall other :: other != tx && other in a.sessions ==> a.sessions[other] == b.sessions[other])
  }

  lemma StepSameBut<G>(a: Manager<G>, b: Manager<G>, ev: Event<G>, tx: string)
    requires SameBut(a, b, tx)
    requires !Concerns(ev, tx)
    ensures SameBut(Step(a, ev), Step(b, ev), tx)
  {
    hide TxId;
  }

  lemma OwnStepSameBut<G>(a: Manager<G>, ev: Event<G>, tx: string)
    requires Concerns(ev, tx) && !(ev.Commit? && Commits(a, tx, ev.persisted))
    ensures SameBut(Step(a, ev), a, tx)
  {
  }

  /** A transaction that never commits might as well not have edited: every other part of the run is the same. */
  lemma {:induction false} LosersLeaveNoEffect<G>(m: Manager<G>, evs: seq<Event<G>>, tx: string)
    requires NeverCommits(m, evs, tx)
    ensures SameBut(Run(m, evs), Run(m, Without(evs, tx)), tx)
    decreases |evs|
  {
    if evs != [] {
      var before, ev := evs[..|evs| - 1], evs[|evs| - 1];
      LosersLeaveNoEffect(m, before, tx);
      var kept := Without(before, tx);
      if Concerns(ev, tx) {
        OwnStepSameBut(Run(m, before), ev, tx);
      } else {
        assert (kept + [ev])[..|kept|] == kept;
        StepSameBut(Run(m, before), Run(m, kept), ev, tx);
      }
    }
  }

  // ---------- refused commits ----------

  lemma RefusedStep<G>(m: Manager<G>, tx: string)
    ensures Step(m, Commit(tx, false)) == Step(m, Rollback(tx))
    ensures tx in m.sessions && m.sessions[tx].baseVersion != m.version ==> Step(m, Commit(tx, true)) == Step(m, Rollback(tx))
  {
  }

  /** A commit that storage refuses leaves base and version as they were and drops the session. */
  lemma RefusedCommitDrops<G>(m: Manager<G>, evs: seq<Event<G>>, i: nat)
    requires i < |evs| && evs[i].Commit? && !evs[i].persisted
    ensures var before, after := Run(m, evs[..i]), Run(m, evs[..i + 1]);
      after.base == before.base && after.version == before.version && after.sessions == before.sessions - {evs[i].tx}
  {
    assert evs[..i + 1][..i] == evs[..i];
  }

  lemma RunSnoc<G>(m: Manager<G>, evs: seq<Event<G>>, before: seq<Event<G>>, ev: Event<G>)
    requires evs != [] && evs[..|evs| - 1] == before && evs[|evs| - 1] == ev
    ensures Run(m, evs) == Step(Run(m, before), ev)
  {
  }

  /** In any run it might as well have been a rollback. */
  lemma {:induction false} RefusalIsRollback<G>(m: Manager<G>, evs: seq<Event<G>>, i: nat)
    requires i < |evs| && evs[i].Commit? && !evs[i].persisted
    ensures Run(m, evs[i := Rollback(evs[i].tx)]) == Run(m, evs)
    decreases |evs|
  {
    hide Run, Step;
    var last, back := |evs| - 1, Rollback(evs[i].tx);
    var swapped, front := evs[i := back], evs[..last];
    SwapPrefixes(evs, i, back);
    RunSnoc(m, evs, front, evs[last]);
    RunSnoc(m, swapped, swapped[..last], swapped[last]);
    if i == last {
      RefusedStep(Run(m, front), evs[i].tx);
    } else {
      RefusalIsRollback(m, front, i);
    }
  }

  lemma SwapPrefixes<T>(s: seq<T>, i: nat, x: T)
    requires i < |s|
    ensures s[i := x][..|s| - 1] == if i == |s| - 1 then s[..|s| - 1] else s[..|s| - 1][i := x]
  {
  }

  // ---------- the manager ----------

  class TransactionManager<G> {
    var baseGraph: G
    var sessions: map<string, Session<G>>
    var txSeq: nat
    var graphVersion: nat

    function View(): Manager<G>
      reads this
    {
      Manager(baseGraph, sessions, txSeq, graphVersion)
    }

    constructor (loaded: G)
      ensures View() == Manager(loaded, map[], 0, 0)
    {
      baseGraph, sessions, txSeq, graphVersion := loaded, map[], 0, 0;
    }

    method BeginTx() returns (tx: string)
      modifies this
      ensures View() == Step(old(View()), Begin) && tx == TxId(txSeq)
      ensures Issued(old(View())) ==> tx !in old(sessions)
      ensures baseGraph == old(baseGraph) && graphVersion == old(graphVersion)
      ensures sessions == old(sessions)[tx := Session(baseGraph, graphVersion)]
    {
      ghost var before := View();
      txSeq := txSeq + 1;
      tx := TxId(txSeq);
      sessions := sessions[tx := Session(baseGraph, graphVersion)];
      if Issued(before) {
        NextIdIsFresh(before);
      }
    }

    /** `graph_mut` followed by one edit of the session's graph. */
    method EditTx(tx: string, f: G -> G) returns (known: bool)
      modifies this`sessions
      ensures View() == Step(old(View()), Edit(tx, f)) && (known <==> tx in old(sessions))
      ensures sessions == if known then old(sessions)[tx := Session(f(old(sessions)[tx].graph), old(sessions)[tx].baseVersion)]
                          else old(sessions)
    {
      known := tx in sessions;
      if known {
        var session := sessions[tx];
        sessions := sessions[tx := session.(graph := f(session.graph))];
      }
    }

    /** A commit succeeds for a live session on the current version that storage accepts; any other only drops the session. */
    method CommitTx(tx: string, persisted: bool) returns (ok: bool)
      modifies this
      ensures View() == Step(old(View()), Commit(tx, persisted))
      ensures ok <==> tx in old(sessions) && old(sessions)[tx].baseVersion == old(graphVersion) && persisted
      ensures ok ==> baseGraph == old(sessions)[tx].graph && graphVersion == old(graphVersion) + 1
      ensures !ok ==> baseGraph == old(baseGraph) && graphVersion == old(graphVersion)
      ensures sessions == old(sessions) - {tx} && txSeq == old(txSeq)
    {
      if tx !in sessions {
        assert sessions - {tx} == sessions;
        return false;
      }
      var session := sessions[tx];
      sessions := sessions - {tx};
      if session.baseVersion != graphVersion {
        return false;
      }
      if !persisted {
        return false;
      }
      baseGraph := session.graph;
      graphVersion := graphVersion + 1;
      return true;
    }

    method RollbackTx(tx: string) returns (known: bool)
      modifies this`sessions
      ensures View() == Step(old(View()), Rollback(tx)) && (known <==> tx in old(sessions))
      ensures sessions == old(sessions) - {tx}
    {
      known := tx in sessions;
      if !known {
        assert sessions - {tx} == sessions;
      }
      sessions := sessions - {tx};
    }

    method RecoverGraph(found: G)
      modifies this
      ensures View() == Step(old(View()), Recover(found))
      ensures baseGraph == found && sessions == map[] && graphVersion == old(graphVersion) + 1
    {
      baseGraph, sessions, graphVersion := found, map[], graphVersion + 1;
    }
  }
}
