/** The history scan: batches of a commit list run a few at a time, finish in any order, and are
    acknowledged into a coverage receipt that must never claim more than was scanned. */
module BatchScan {
  import opened Basics

  type Commit = string

  const FINDINGS_EXIT := 10

  datatype Item = NotAFinding | Finding(commit: Option<Commit>, detail: string)

  datatype Evidence = NotJson | NotAList | Items(items: seq<Item>)

  /** What one scanner process came to: killed, timed out, or an exit and the report it left. */
  datatype Raw = Raised | Exited(code: int, evidence: Evidence)

  datatype Receipt = Receipt(first: nat, commits: nat, exit: int)

  datatype Status = Incomplete | Clean | Findings

  datatype Summary = Summary(status: Status, completed: nat, total: nat, findings: seq<Item>, batches: seq<Receipt>)

  // -------------------------------------------------------------------------
  // One batch
  // -------------------------------------------------------------------------

  /** Where batch k starts. */
  function OffsetOf(k: nat, size: nat): nat {
    if k == 0 then 0 else OffsetOf(k - 1, size) + size
  }

  function Upto(commits: seq<Commit>, k: nat, size: nat): (n: nat)
    ensures n <= |commits|
  {
    if OffsetOf(k, size) < |commits| then OffsetOf(k, size) else |commits|
  }

  lemma UptoGrows(commits: seq<Commit>, k: nat, size: nat)
    ensures Upto(commits, k, size) <= Upto(commits, k + 1, size) <= Upto(commits, k, size) + size
    ensures Upto(commits, k, size) < |commits| && size > 0 ==> Upto(commits, k, size) < Upto(commits, k + 1, size)
  {
  }

  function Batch(commits: seq<Commit>, k: nat, size: nat): seq<Commit> {
    UptoGrows(commits, k, size);
    commits[Upto(commits, k, size)..Upto(commits, k + 1, size)]
  }

  predicate AllFindings(items: seq<Item>) {
    forall i :: 0 <= i < |items| ==> items[i].Finding?
  }

  predicate AllWithin(items: seq<Item>, batch: seq<Commit>) {
    forall i :: 0 <= i < |items| ==> items[i].Finding? && items[i].commit.Some? && items[i].commit.value in batch
  }

  /** run, once the process has ended: its evidence, unless its report cannot be believed. */
  function Judge(batch: seq<Commit>, raw: Raw): Option<seq<Item>> {
    match raw
    case Raised => None
    case Exited(code, evidence) =>
      if code != 0 && code != FINDINGS_EXIT then None
      else if !evidence.Items? || !AllFindings(evidence.items) then None
      else if (evidence.items != []) != (code == FINDINGS_EXIT) then None
      else if !AllWithin(evidence.items, batch) then None
      else Some(evidence.items)
  }

  /** A scan: its inventory, and what each batch's process will turn out to have reported, which no
      one knows beforehand. */
  datatype Plan = Plan(commits: seq<Commit>, size: nat, verdict: nat -> Option<seq<Item>>, exit: nat -> int)

  function ReceiptOf(p: Plan, k: nat): Receipt {
    UptoGrows(p.commits, k, p.size);
    Receipt(Upto(p.commits, k, p.size), |Batch(p.commits, k, p.size)|, p.exit(k))
  }

  predicate IsBatch(p: Plan, k: nat) {
    OffsetOf(k, p.size) < |p.commits|
  }

  // -------------------------------------------------------------------------
  // What has been acknowledged when n batches are submitted and some are pending
  // -------------------------------------------------------------------------

  function Listed(p: Plan, n: nat, pending: set<nat>): seq<Receipt> {
    if n == 0 then []
    else if n - 1 in pending then Listed(p, n - 1, pending)
    else Listed(p, n - 1, pending) + [ReceiptOf(p, n - 1)]
  }

  /** How often a believed report of batch k has one finding in it. */
  function Times(p: Plan, k: nat, x: Item): nat {
    if p.verdict(k).None? then 0 else multiset(p.verdict(k).value)[x]
  }

  function Found(p: Plan, n: nat, pending: set<nat>, x: Item): nat {
    if n == 0 then 0
    else if n - 1 in pending then Found(p, n - 1, pending, x)
    else Found(p, n - 1, pending, x) + Times(p, n - 1, x)
  }

  function Covered(p: Plan, n: nat, pending: set<nat>): nat {
    if n == 0 then 0
    else if n - 1 in pending then Covered(p, n - 1, pending)
    else Covered(p, n - 1, pending) + |Batch(p.commits, n - 1, p.size)|
  }

  /** Every receipt is of a batch that starts before batch n does. */
  predicate Before(p: Plan, n: nat, s: seq<Receipt>) {
    forall i :: 0 <= i < |s| ==> s[i].first < Upto(p.commits, n, p.size)
  }

  /** Where a stable sort by first index puts one more receipt. */
  function Inserted(s: seq<Receipt>, r: Receipt): seq<Receipt> {
    if s == [] || s[|s| - 1].first <= r.first then s + [r]
    else Inserted(s[..|s| - 1], r) + [s[|s| - 1]]
  }

  lemma {:induction false} UptoOrder(p: Plan, j: nat, k: nat)
    requires j < k && p.size > 0 && IsBatch(p, k - 1)
    ensures Upto(p.commits, j, p.size) < Upto(p.commits, k, p.size) && IsBatch(p, j)
    decreases k
  {
    UptoGrows(p.commits, k - 1, p.size);
    if j < k - 1 { UptoOrder(p, j, k - 1); }
  }

  lemma {:induction false} ListedBefore(p: Plan, n: nat, pending: set<nat>, k: nat)
    requires n <= k && p.size > 0 && (k > 0 ==> IsBatch(p, k - 1))
    ensures Before(p, k, Listed(p, n, pending))
  {
    if n > 0 {
      ListedBefore(p, n - 1, pending, k);
      UptoOrder(p, n - 1, k);
    }
  }

  lemma InsertBefore(s: seq<Receipt>, last: Receipt, r: Receipt)
    requires r.first < last.first
    ensures Inserted(s + [last], r) == Inserted(s, r) + [last]
  {
    assert (s + [last])[..|s|] == s;
  }

  lemma {:induction false} InsertListed(p: Plan, n: nat, pending: set<nat>, j: nat)
    requires j < n && j in pending && p.size > 0 && IsBatch(p, n - 1)
    ensures Inserted(Listed(p, n, pending), ReceiptOf(p, j)) == Listed(p, n, pending - {j})
  {
    if j == n - 1 {
      ListedBefore(p, n - 1, pending, n - 1);
      SamePending(p, n - 1, pending, j, NotAFinding);
    } else {
      UptoOrder(p, n - 2, n - 1);
      InsertListed(p, n - 1, pending, j);
      UptoOrder(p, j, n - 1);
      InsertBefore(Listed(p, n - 1, pending), ReceiptOf(p, n - 1), ReceiptOf(p, j));
    }
  }

  /** A batch not among the first n makes no difference to them. */
  lemma {:induction false} SamePending(p: Plan, n: nat, pending: set<nat>, j: nat, x: Item)
    requires j >= n
    ensures Listed(p, n, pending) == Listed(p, n, pending - {j})
    ensures Found(p, n, pending, x) == Found(p, n, pending - {j}, x)
    ensures Covered(p, n, pending) == Covered(p, n, pending - {j})
  {
    if n > 0 { SamePending(p, n - 1, pending, j, x); }
  }

  lemma {:induction false} AcknowledgeCovers(p: Plan, n: nat, pending: set<nat>, j: nat)
    requires j < n && j in pending
    ensures Covered(p, n, pending - {j}) == Covered(p, n, pending) + |Batch(p.commits, j, p.size)|
  {
    if j == n - 1 {
      SamePending(p, n - 1, pending, j, NotAFinding);
    } else {
      AcknowledgeCovers(p, n - 1, pending, j);
    }
  }

  lemma {:induction false} AcknowledgeFinds(p: Plan, n: nat, pending: set<nat>, j: nat, x: Item)
    requires j < n && j in pending
    ensures Found(p, n, pending - {j}, x) == Found(p, n, pending, x) + Times(p, j, x)
  {
    if j == n - 1 {
      SamePending(p, n - 1, pending, j, x);
    } else {
      AcknowledgeFinds(p, n - 1, pending, j, x);
    }
  }

  lemma {:induction false} SubmitPends(p: Plan, n: nat, m: nat, pending: set<nat>, x: Item)
    requires n <= m
    ensures Listed(p, n, pending + {m}) == Listed(p, n, pending)
    ensures Found(p, n, pending + {m}, x) == Found(p, n, pending, x)
    ensures Covered(p, n, pending + {m}) == Covered(p, n, pending)
  {
    if n > 0 { SubmitPends(p, n - 1, m, pending, x); }
  }

  // -------------------------------------------------------------------------
  // A complete receipt covers the history
  // -------------------------------------------------------------------------

  /** The commits a list of receipts says were scanned, in its order. */
  function Gathered(commits: seq<Commit>, batches: seq<Receipt>): seq<Commit>
    requires forall i :: 0 <= i < |batches| ==> batches[i].first + batches[i].commits <= |commits|
  {
    if batches == [] then []
    else
      var r := batches[|batches| - 1];
      Gathered(commits, batches[..|batches| - 1]) + commits[r.first..r.first + r.commits]
  }

  predicate InRange(commits: seq<Commit>, batches: seq<Receipt>) {
    forall i :: 0 <= i < |batches| ==> batches[i].first + batches[i].commits <= |commits|
  }

  lemma {:induction false} ListedInRange(p: Plan, n: nat, pending: set<nat>)
    ensures InRange(p.commits, Listed(p, n, pending))
  {
    if n > 0 { ListedInRange(p, n - 1, pending); }
  }

  lemma {:induction false} NothingPendingCounts(p: Plan, n: nat)
    ensures Covered(p, n, {}) == Upto(p.commits, n, p.size)
  {
    if n > 0 {
      NothingPendingCounts(p, n - 1);
      UptoGrows(p.commits, n - 1, p.size);
    }
  }

  lemma GatheredMore(commits: seq<Commit>, batches: seq<Receipt>, r: Receipt)
    requires InRange(commits, batches) && r.first + r.commits <= |commits|
    ensures InRange(commits, batches + [r])
    ensures Gathered(commits, batches + [r]) == Gathered(commits, batches) + commits[r.first..r.first + r.commits]
  {
    assert (batches + [r])[..|batches|] == batches;
  }

  lemma ReceiptSpans(p: Plan, k: nat)
    ensures var r := ReceiptOf(p, k);
            r.first == Upto(p.commits, k, p.size) && r.first + r.commits == Upto(p.commits, k + 1, p.size) >= r.first
  {
    UptoGrows(p.commits, k, p.size);
  }

  lemma TakeMore(commits: seq<Commit>, from: nat, to: nat)
    requires from <= to <= |commits|
    ensures commits[..to] == commits[..from] + commits[from..to]
  {
  }

  lemma GatheredThrough(commits: seq<Commit>, batches: seq<Receipt>, r: Receipt, to: nat)
    requires InRange(commits, batches) && r.first + r.commits == to <= |commits|
    requires Gathered(commits, batches) == commits[..r.first]
    ensures InRange(commits, batches + [r]) && Gathered(commits, batches + [r]) == commits[..to]
  {
    GatheredMore(commits, batches, r);
    TakeMore(commits, r.first, to);
  }

  /** With nothing pending the acknowledged batches are the submitted part of the history, each
      commit of it once and in order. */
  lemma {:induction false} NothingPendingCovers(p: Plan, n: nat)
    ensures InRange(p.commits, Listed(p, n, {}))
    ensures Gathered(p.commits, Listed(p, n, {})) == p.commits[..Upto(p.commits, n, p.size)]
  {
    if n > 0 {
      NothingPendingCovers(p, n - 1);
      ReceiptSpans(p, n - 1);
      GatheredThrough(p.commits, Listed(p, n - 1, {}), ReceiptOf(p, n - 1), Upto(p.commits, n, p.size));
    }
  }

  // -------------------------------------------------------------------------
  // The scan
  // -------------------------------------------------------------------------

  predicate Distinct(commits: seq<Commit>) {
    forall i, j :: 0 <= i < j < |commits| ==> commits[i] != commits[j]
  }

  lemma {:induction false} DistinctBySize(commits: seq<Commit>)
    ensures |set c | c in commits| <= |commits|
    ensures |set c | c in commits| == |commits| <==> Distinct(commits)
  {
    if commits != [] {
      var before, last := commits[..|commits| - 1], commits[|commits| - 1];
      DistinctBySize(before);
      var all, some := set c | c in commits, set c | c in before;
      assert all == some + {last};
      if last in some {
        var i :| 0 <= i < |before| && before[i] == last;
        assert commits[i] == commits[|commits| - 1];
        assert all == some;
      }
    }
  }

  /** An inventory the scan refuses: repeated, or empty without a base commit. */
  predicate BadInventory(commits: seq<Commit>, hasBase: bool) {
    (commits == [] && !hasBase) || !Distinct(commits)
  }

  /** Every batch's report can be believed. */
  ghost predicate AllBelieved(p: Plan) {
    forall k: nat :: IsBatch(p, k) ==> p.verdict(k).Some?
  }

  /** Every batch's report is empty. */
  ghost predicate AllClean(p: Plan) {
    forall k: nat :: IsBatch(p, k) ==> p.verdict(k) == Some([])
  }

  /** The receipt of a scan in progress. */
  ghost predicate Acknowledged(s: Summary, p: Plan, n: nat, pending: set<nat>) {
    && s.total == |p.commits|
    && s.batches == Listed(p, n, pending)
    && s.completed == Covered(p, n, pending)
    && (forall x :: multiset(s.findings)[x] == Found(p, n, pending, x))
  }

  /** acknowledge: one validated batch into the receipt. */
  method Acknowledge(s: Summary, evidence: seq<Item>, p: Plan, ghost n: nat, ghost pending: set<nat>, k: nat)
      returns (s': Summary)
    requires Acknowledged(s, p, n, pending) && k < n && k in pending && p.size > 0 && IsBatch(p, n - 1)
    requires p.verdict(k) == Some(evidence)
    ensures Acknowledged(s', p, n, pending - {k}) && s'.status == s.status
  {
    var receipt := ReceiptOf(p, k);
    InsertListed(p, n, pending, k);
    AcknowledgeCovers(p, n, pending, k);
    forall x ensures multiset(s.findings + evidence)[x] == Found(p, n, pending - {k}, x) {
      AcknowledgeFinds(p, n, pending, k, x);
    }
    s' := Summary(s.status, s.completed + receipt.commits, s.total, s.findings + evidence, Inserted(s.batches, receipt));
  }

  /** The smallest offset of the batches that are done. */
  method Earliest(done: set<nat>) returns (k: nat)
    requires done != {}
    ensures k in done && forall j :: j in done ==> k <= j
  {
    k :| k in done;
    var rest := done - {k};
    while rest != {}
      invariant rest <= done && k in done
      invariant forall j :: j in done && j !in rest ==> k <= j
      decreases |rest|
    {
      var j :| j in rest;
      if j < k {
        k := j;
      }
      rest := rest - {j};
    }
  }

  /** The batches of a scan in progress: which are submitted, which of those are not acknowledged. */
  ghost predicate Scanning(s: Summary, p: Plan, n: nat, pending: set<nat>) {
    && Acknowledged(s, p, n, pending) && s.status.Incomplete?
    && (forall k :: k in pending ==> k < n)
    && (forall k :: 0 <= k < n ==> IsBatch(p, k))
    && (forall k :: 0 <= k < n && k !in pending ==> p.verdict(k).Some?)
  }

  /** Top the pool up to jobs batches. */
  method Submit(p: Plan, ghost s: Summary, submitted: nat, pending: set<nat>, jobs: nat) returns (n: nat, more: set<nat>)
    requires Scanning(s, p, submitted, pending) && |pending| <= jobs && p.size > 0
    ensures Scanning(s, p, n, more) && |more| <= jobs && pending <= more
    ensures n - |more| == submitted - |pending|
    ensures |more| == jobs || !IsBatch(p, n)
  {
    n, more := submitted, pending;
    while |more| < jobs && OffsetOf(n, p.size) < |p.commits|
      invariant Scanning(s, p, n, more) && |more| <= jobs && pending <= more
      invariant n - |more| == submitted - |pending|
      decreases jobs - |more|
    {
      assert n !in more;
      forall x ensures Found(p, n + 1, more + {n}, x) == Found(p, n, more, x) {
        SubmitPends(p, n, n, more, x);
      }
      SubmitPends(p, n, n, more, NotAFinding);
      n, more := n + 1, more + {n};
    }
  }

  /** Acknowledge the batches that are done, by offset, until one cannot be believed. */
  method Drain(p: Plan, s: Summary, n: nat, pending: set<nat>, done: set<nat>)
      returns (s': Summary, left: set<nat>, ok: bool)
    requires Scanning(s, p, n, pending) && done <= pending && p.size > 0
    ensures Scanning(s', p, n, left) && left <= pending
    ensures ok ==> left == pending - done
    ensures !ok ==> exists k: nat :: IsBatch(p, k) && p.verdict(k).None?
  {
    s', left, ok := s, pending, true;
    var rest := done;
    while rest != {}
      invariant Scanning(s', p, n, left) && rest <= done && left == pending - (done - rest)
      decreases |rest|
    {
      var k := Earliest(rest);
      var verdict := p.verdict(k);
      if verdict.None? {
        return s', left, false;
      }
      s' := Acknowledge(s', verdict.value, p, n, left, k);
      left, rest := left - {k}, rest - {k};
    }
  }

  lemma {:induction false} CleanFindsNothing(p: Plan, n: nat, x: Item)
    requires forall k :: 0 <= k < n ==> p.verdict(k) == Some([])
    ensures Found(p, n, {}, x) == 0
  {
    if n > 0 { CleanFindsNothing(p, n - 1, x); }
  }

  lemma {:induction false} DirtyFindsSomething(p: Plan, n: nat, k: nat, x: Item)
    requires k < n
    ensures Found(p, n, {}, x) >= Times(p, k, x)
  {
    if k < n - 1 { DirtyFindsSomething(p, n - 1, k, x); }
  }

  /** No findings were gathered exactly when every batch was clean. */
  lemma FindingsExactlyWhenDirty(s: Summary, p: Plan, n: nat)
    requires Scanning(s, p, n, {}) && !IsBatch(p, n) && p.size > 0
    ensures s.findings == [] <==> AllClean(p)
  {
    LastBatch(p, n);
    if AllClean(p) {
      forall x ensures multiset(s.findings)[x] == 0 {
        CleanFindsNothing(p, n, x);
      }
      NoneOfAny(s.findings);
    } else {
      var k: nat :| IsBatch(p, k) && p.verdict(k) != Some([]);
      var x := p.verdict(k).value[0];
      DirtyFindsSomething(p, n, k, x);
      assert x in multiset(p.verdict(k).value);
      assert multiset(s.findings)[x] > 0;
    }
  }

  lemma NoneOfAny(items: seq<Item>)
    requires forall x :: multiset(items)[x] == 0
    ensures items == []
  {
    var x := if items == [] then NotAFinding else items[0];
    assert multiset(items)[x] == 0;
  }

  lemma {:induction false} OffsetsGrow(j: nat, k: nat, size: nat)
    requires j <= k
    ensures OffsetOf(j, size) <= OffsetOf(k, size)
  {
    if j < k { OffsetsGrow(j, k - 1, size); }
  }

  /** Once a number is past the last batch, so is every later one. */
  lemma LastBatch(p: Plan, n: nat)
    requires !IsBatch(p, n)
    ensures forall k: nat :: IsBatch(p, k) ==> k < n
  {
    forall k: nat | IsBatch(p, k) ensures k < n {
      if k >= n { OffsetsGrow(n, k, p.size); }
    }
  }

  /** What a summary claims to have covered: every commit of the inventory, once. */
  ghost predicate CoversAll(s: Summary, commits: seq<Commit>) {
    && Distinct(commits)
    && InRange(commits, s.batches) && Gathered(commits, s.batches) == commits
    && s.completed == s.total == |commits|
  }

  /** scan_batches: keep at most jobs batches running until each is acknowledged or one fails. */
  method ScanBatches(p: Plan, jobs: nat, from: Summary)
      returns (s: Summary, peak: nat, ok: bool, ghost n: nat, ghost pending: set<nat>)
    requires p.size > 0 && jobs > 0 && Scanning(from, p, 0, {})
    ensures peak <= jobs && Scanning(s, p, n, pending)
    ensures ok ==> pending == {} && !IsBatch(p, n)
    ensures !ok ==> exists k: nat :: IsBatch(p, k) && p.verdict(k).None?
  {
    s, peak, n, pending := from, 0, 0, {};
    var submitted, running := 0, {};
    while true
      invariant Scanning(s, p, submitted, running) && |running| <= jobs && peak <= jobs
      invariant submitted <= |p.commits|
      decreases |p.commits| - submitted + |running|
    {
      submitted, running := Submit(p, s, submitted, running, jobs);
      SubmittedFit(p, submitted);
      peak := if |running| > peak then |running| else peak;
      if running == {} {
        return s, peak, true, submitted, {};
      }
      var done: set<nat> :| done <= running && done != {};
      Shrinks(running, done);
      s, running, ok := Drain(p, s, submitted, running, done);
      if !ok {
        return s, peak, false, submitted, running;
      }
    }
  }

  /** scan, from its inventory on. Whatever order the batches finish in: at most jobs run at once; the
      status is incomplete exactly when the inventory or some batch cannot be believed, and clean
      exactly when every batch was; a status of clean or findings covers every commit once and its
      findings are those of all the reports; and no receipt is of a batch that was not believed. */
  method Scan(p: Plan, hasBase: bool, jobs: nat)
      returns (s: Summary, peak: nat, ghost n: nat, ghost pending: set<nat>)
    requires p.size > 0 && jobs > 0
    ensures peak <= jobs
    ensures s.status.Incomplete? <==> BadInventory(p.commits, hasBase) || !AllBelieved(p)
    ensures s.status.Clean? <==> !BadInventory(p.commits, hasBase) && AllClean(p)
    ensures !s.status.Incomplete? ==> CoversAll(s, p.commits)
    ensures !s.status.Incomplete? ==> pending == {} && !IsBatch(p, n) && forall x :: multiset(s.findings)[x] == Found(p, n, {}, x)
    ensures !BadInventory(p.commits, hasBase) ==> Scanning(s.(status := Incomplete), p, n, pending)
  {
    s, peak, n, pending := Summary(Incomplete, 0, 0, [], []), 0, 0, {};
    DistinctBySize(p.commits);
    if (p.commits == [] && !hasBase) || |set c | c in p.commits| != |p.commits| {
      return;
    }
    s := s.(total := |p.commits|);
    var ok: bool;
    s, peak, ok, n, pending := ScanBatches(p, jobs, s);
    if ok {
      NothingPendingCovers(p, n);
      NothingPendingCounts(p, n);
      LastBatch(p, n);
      FindingsExactlyWhenDirty(s, p, n);
      s := s.(status := if s.findings == [] then Clean else Findings);
    }
  }

  lemma Shrinks(running: set<nat>, done: set<nat>)
    requires done <= running && done != {}
    ensures |running - done| < |running|
  {
    assert running == (running - done) + done;
  }

  lemma {:induction false} OffsetAtLeast(k: nat, size: nat)
    requires size > 0
    ensures OffsetOf(k, size) >= k
  {
    if k > 0 { OffsetAtLeast(k - 1, size); }
  }

  lemma SubmittedFit(p: Plan, n: nat)
    requires p.size > 0 && forall k :: 0 <= k < n ==> IsBatch(p, k)
    ensures n <= |p.commits|
  {
    if n > 0 {
      OffsetAtLeast(n - 1, p.size);
      assert IsBatch(p, n - 1);
    }
  }

  // -------------------------------------------------------------------------
  // The scan of what the scanner processes left behind
  // -------------------------------------------------------------------------

  function Judged(commits: seq<Commit>, size: nat, raws: nat -> Raw): Plan {
    Plan(commits, size,
         (k: nat) => Judge(Batch(commits, k, size), raws(k)),
         (k: nat) => if raws(k).Exited? then raws(k).code else 0)
  }

  /** A report to believe: an empty list beside exit 0, or findings of the batch's own commits beside
      the findings exit. */
  predicate Believable(batch: seq<Commit>, raw: Raw) {
    && raw.Exited? && raw.evidence.Items?
    && raw.code == (if raw.evidence.items == [] then 0 else 10)
    && forall i :: 0 <= i < |raw.evidence.items| ==>
         var x := raw.evidence.items[i]; x.Finding? && x.commit.Some? && x.commit.value in batch
  }

  /** Exactly the believable reports are believed, and each is taken whole. */
  lemma BelievedMeans(batch: seq<Commit>, raw: Raw)
    ensures Judge(batch, raw).Some? <==> Believable(batch, raw)
    ensures Judge(batch, raw).Some? ==> raw.evidence == Items(Judge(batch, raw).value)
    ensures Judge(batch, raw) == Some([]) <==> raw == Exited(0, Items([]))
  {
    if raw.Exited? && raw.evidence.Items? && AllWithin(raw.evidence.items, batch) {
      assert AllFindings(raw.evidence.items);
    }
  }

  /** Everything the first n processes left in their reports, in order. */
  function Left(raws: nat -> Raw, n: nat): seq<Item> {
    if n == 0 then []
    else
      var raw := raws(n - 1);
      Left(raws, n - 1) + if raw.Exited? && raw.evidence.Items? then raw.evidence.items else []
  }

  /** The believed report of batch k is all its process left. */
  ghost predicate TakenWhole(p: Plan, raws: nat -> Raw, k: nat) {
    p.verdict(k).Some? && raws(k).Exited? && raws(k).evidence == Items(p.verdict(k).value)
  }

  lemma LeftMore(raws: nat -> Raw, n: nat, items: seq<Item>)
    requires n > 0 && raws(n - 1).Exited? && raws(n - 1).evidence == Items(items)
    ensures multiset(Left(raws, n)) == multiset(Left(raws, n - 1)) + multiset(items)
  {
    assert Left(raws, n) == Left(raws, n - 1) + items;
  }

  lemma {:induction false} FoundIsLeft(p: Plan, raws: nat -> Raw, n: nat, x: Item)
    requires forall k :: 0 <= k < n ==> TakenWhole(p, raws, k)
    ensures Found(p, n, {}, x) == multiset(Left(raws, n))[x]
  {
    if n > 0 {
      FoundIsLeft(p, raws, n - 1, x);
      assert TakenWhole(p, raws, n - 1);
      LeftMore(raws, n, p.verdict(n - 1).value);
    }
  }

  lemma HistoryIsJudged(p: Plan, raws: nat -> Raw, k: nat)
    requires p == Judged(p.commits, p.size, raws)
    ensures p.verdict(k).Some? <==> Believable(Batch(p.commits, k, p.size), raws(k))
    ensures p.verdict(k) == Some([]) <==> raws(k) == Exited(0, Items([]))
    ensures p.verdict(k).Some? ==> TakenWhole(p, raws, k)
  {
    BelievedMeans(Batch(p.commits, k, p.size), raws(k));
  }

  lemma FindingsAreLeft(s: Summary, p: Plan, raws: nat -> Raw, n: nat, pending: set<nat>)
    requires p == Judged(p.commits, p.size, raws) && AllBelieved(p)
    requires Scanning(s.(status := Incomplete), p, n, pending) && forall x :: multiset(s.findings)[x] == Found(p, n, {}, x)
    ensures multiset(s.findings) == multiset(Left(raws, n))
  {
    forall k | 0 <= k < n ensures TakenWhole(p, raws, k) {
      assert IsBatch(p, k);
      HistoryIsJudged(p, raws, k);
    }
    forall x ensures multiset(s.findings)[x] == multiset(Left(raws, n))[x] {
      FoundIsLeft(p, raws, n, x);
    }
  }

  /** The history's batches all left reports to believe, and all left empty ones. */
  ghost predicate AllBelievable(commits: seq<Commit>, size: nat, raws: nat -> Raw) {
    forall k: nat :: OffsetOf(k, size) < |commits| ==> Believable(Batch(commits, k, size), raws(k))
  }

  ghost predicate AllEmpty(commits: seq<Commit>, size: nat, raws: nat -> Raw) {
    forall k: nat :: OffsetOf(k, size) < |commits| ==> raws(k) == Exited(0, Items([]))
  }

  lemma PlanIsHistory(commits: seq<Commit>, size: nat, raws: nat -> Raw)
    ensures var p := Judged(commits, size, raws);
            && (AllBelieved(p) <==> AllBelievable(commits, size, raws))
            && (AllClean(p) <==> AllEmpty(commits, size, raws))
  {
    var p := Judged(commits, size, raws);
    forall k: nat
      ensures p.verdict(k).Some? <==> Believable(Batch(commits, k, size), raws(k))
      ensures p.verdict(k) == Some([]) <==> raws(k) == Exited(0, Items([]))
    {
      HistoryIsJudged(p, raws, k);
    }
    assert forall k: nat :: IsBatch(p, k) <==> OffsetOf(k, size) < |commits|;
  }

  /** An inventory that cannot be scanned: nothing in it and no base to scan from, or a commit twice. */
  ghost predicate Unscannable(commits: seq<Commit>, hasBase: bool) {
    || (|commits| == 0 && !hasBase)
    || exists i, j :: 0 <= i < j < |commits| && commits[i] == commits[j]
  }

  lemma {:induction false} ListedAt(p: Plan, n: nat, k: nat)
    requires k < n
    ensures |Listed(p, n, {})| == n && Listed(p, n, {})[k] == ReceiptOf(p, k)
  {
    if k < n - 1 {
      ListedAt(p, n - 1, k);
    } else if n > 1 {
      ListedAt(p, n - 1, 0);
    }
  }

  /** The receipts are the batches', in order, each with its own process's exit. */
  ghost predicate ReceiptsTell(s: Summary, raws: nat -> Raw, n: nat) {
    |s.batches| == n && forall k: nat :: k < n ==> raws(k).Exited? && s.batches[k].exit == raws(k).code
  }

  lemma ReceiptsAreTold(s: Summary, p: Plan, raws: nat -> Raw, n: nat)
    requires p == Judged(p.commits, p.size, raws) && AllBelieved(p)
    requires Scanning(s.(status := Incomplete), p, n, {})
    ensures ReceiptsTell(s, raws, n)
  {
    if n > 0 { ListedAt(p, n, 0); }
    forall k: nat | k < n ensures raws(k).Exited? && s.batches[k].exit == raws(k).code {
      assert IsBatch(p, k);
      ListedAt(p, n, k);
      HistoryIsJudged(p, raws, k);
    }
  }

  /** k numbers the batches exactly when it is less than n. */
  ghost predicate HasBatches(commits: seq<Commit>, size: nat, n: nat) {
    forall k: nat :: OffsetOf(k, size) < |commits| <==> k < n
  }

  lemma CountsBatches(s: Summary, p: Plan, n: nat, pending: set<nat>)
    requires Scanning(s, p, n, pending) && !IsBatch(p, n)
    ensures HasBatches(p.commits, p.size, n)
  {
    LastBatch(p, n);
    assert forall k: nat :: IsBatch(p, k) <==> OffsetOf(k, p.size) < |p.commits|;
  }

  /** The scan of a history, told from what its n processes left: incomplete exactly when some report
      is not to be believed, clean exactly when all of them are empty, and otherwise with every item of
      every report among its findings, as often as it was reported, and a receipt of every batch with
      its exit. */
  method ScanHistory(commits: seq<Commit>, size: nat, jobs: nat, hasBase: bool, raws: nat -> Raw)
      returns (s: Summary, peak: nat, ghost n: nat)
    requires size > 0 && jobs > 0
    ensures peak <= jobs
    ensures s.status.Incomplete? <==> Unscannable(commits, hasBase) || !AllBelievable(commits, size, raws)
    ensures s.status.Clean? <==> !Unscannable(commits, hasBase) && AllEmpty(commits, size, raws)
    ensures !s.status.Incomplete? ==> CoversAll(s, commits)
    ensures !s.status.Incomplete? ==> HasBatches(commits, size, n) && multiset(s.findings) == multiset(Left(raws, n))
    ensures !s.status.Incomplete? ==> ReceiptsTell(s, raws, n)
  {
    var p := Judged(commits, size, raws);
    ghost var pending;
    s, peak, n, pending := Scan(p, hasBase, jobs);
    PlanIsHistory(commits, size, raws);
    assert BadInventory(commits, hasBase) <==> Unscannable(commits, hasBase);
    if !s.status.Incomplete? {
      CountsBatches(s.(status := Incomplete), p, n, pending);
      FindingsAreLeft(s, p, raws, n, pending);
      ReceiptsAreTold(s, p, raws, n);
    }
  }
}
